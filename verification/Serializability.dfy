/**
 Serializability of the block executor: whatever the interleaving, the block's changes and every
 transaction's error are those of executing the transactions one at a time in list order.
 */
module Serializability {
  import opened Options
  import opened ByteStrings
  import opened StateTrackers
  import opened TxExecution
  import opened ChaincodeMeaning
  import opened Scheduler
  import opened SchedulerControl

  /** The `k`th transaction, executed alone on `prev` to its end, has this error and leaves these changes. */
  ghost predicate SerialStep(p: Params, k: nat, prev: map<Bytes, Value>, n: nat, error: Option<string>,
                             root: map<Bytes, Value>)
    requires k < |p.txs|
  {
    var x := Run(p.txs[k], prev, p.store, n);
    x.error.Some? && error == x.error && root == Applied(prev, x)
  }

  /** Executing the first `k` transactions one at a time gives these errors and leaves `root`. */
  ghost predicate SerialUpTo(p: Params, k: nat, root: map<Bytes, Value>, commits: seq<Option<string>>)
    requires k <= |p.txs| == |commits|
    decreases k, 1
  {
    if k == 0 then root == map[] else exists prev, n :: SerialLink(p, k, prev, n, root, commits)
  }

  /** The last of the first `k` transactions ran for `n` actions on `prev`. */
  ghost predicate SerialLink(p: Params, k: nat, prev: map<Bytes, Value>, n: nat, root: map<Bytes, Value>,
                             commits: seq<Option<string>>)
    requires 0 < k <= |p.txs| == |commits|
    decreases k, 0
  {
    SerialUpTo(p, k - 1, prev, commits) && SerialStep(p, k - 1, prev, n, commits[k - 1], root)
  }

  /** One-at-a-time execution has one result. */
  lemma {:induction false} SerialUnique(p: Params, k: nat, r1: map<Bytes, Value>, c1: seq<Option<string>>,
                                        r2: map<Bytes, Value>, c2: seq<Option<string>>)
    requires k <= |p.txs| == |c1| == |c2|
    requires SerialUpTo(p, k, r1, c1) && SerialUpTo(p, k, r2, c2)
    ensures r1 == r2
    ensures forall i :: 0 <= i < k ==> c1[i] == c2[i]
  {
    if k > 0 {
      var q1, n1 :| SerialLink(p, k, q1, n1, r1, c1);
      var q2, n2 :| SerialLink(p, k, q2, n2, r2, c2);
      SerialUnique(p, k - 1, q1, c1, q2, c2);
      if n1 <= n2 {
        RunStays(p.txs[k - 1], q1, p.store, n1, n2);
      } else {
        RunStays(p.txs[k - 1], q1, p.store, n2, n1);
      }
    }
  }

  lemma {:induction false} SerialFrame(p: Params, k: nat, root: map<Bytes, Value>, c1: seq<Option<string>>,
                                       c2: seq<Option<string>>)
    requires k <= |p.txs| == |c1| == |c2|
    requires SerialUpTo(p, k, root, c1)
    requires forall i :: 0 <= i < k ==> c1[i] == c2[i]
    ensures SerialUpTo(p, k, root, c2)
  {
    if k > 0 {
      var prev, n :| SerialLink(p, k, prev, n, root, c1);
      SerialFrame(p, k - 1, prev, c1, c2);
      assert SerialLink(p, k, prev, n, root, c2);
    }
  }

  // ----- What a worker's execution is worth -----

  /** An execution not disturbed since the block's changes became `root`. */
  ghost predicate Undisturbed(tx: Tx, x: Exec, root: map<Bytes, Value>, store: Getter)
  {
    Shape(x) && x == Run(tx, root, store, x.Steps())
  }

  ghost predicate WorkerData(p: Params, pc: Pc, root: map<Bytes, Value>, commits: seq<Option<string>>)
    requires |commits| == |p.txs|
    requires !pc.Idle? ==> pc.i < |p.txs|
  {
    match pc
    case Executing(i, x) => Replayable(p.txs[i], x, root, p.store)
    case Reexecuting(i, x) => Undisturbed(p.txs[i], x, root, p.store)
    case Committing(i, x) => Undisturbed(p.txs[i], x, root, p.store) && x.error.Some? && commits[i] == x.error
    case Idle => true
    case Increasing(_) => true
    case Emitting(_, _) => true
    case _ => Replayable(p.txs[pc.i], pc.x, root, p.store) && pc.x.error.Some? && commits[pc.i] == pc.x.error
  }

  ghost predicate Merging(s: State)
  {
    exists w :: 0 <= w < |s.workers| && s.workers[w].pc.Increasing?
  }

  /** How many transactions are merged: one more than mergeIdx between the merge and the increment. */
  ghost function MergedCount(s: State): nat
  {
    s.mergeIdx + if Merging(s) then 1 else 0
  }

  ghost predicate DataOk(p: Params, s: State)
    requires InRange(p, s)
  {
    && (forall w :: 0 <= w < |s.workers| ==> WorkerData(p, s.workers[w].pc, s.root, s.commits))
    && MergedCount(s) <= |p.txs|
    && SerialUpTo(p, MergedCount(s), s.root, s.commits)
    && s.merges == seq(MergedCount(s), k => k)
  }

  ghost predicate Good(p: Params, s: State)
  {
    ControlOk(p, s) && InRange(p, s) && DataOk(p, s)
  }

  lemma ActUndisturbed(tx: Tx, x: Exec, root: map<Bytes, Value>, store: Getter)
    requires Undisturbed(tx, x, root, store)
    ensures Undisturbed(tx, Act(tx, x, root, store), root, store)
  {
    ActShape(tx, x, root, store);
  }

  /** No dependency among the block's changes: the execution stands. */
  lemma NoConflictUndisturbed(tx: Tx, x: Exec, root: map<Bytes, Value>, store: Getter)
    requires Replayable(tx, x, root, store) && !Root(root).Conflicts(x.top)
    ensures Undisturbed(tx, x, root, store)
  {
    forall key | key in x.top.deps
      ensures key !in root
    {
      assert [] + key == key;
    }
  }

  lemma SameMerging(s: State, w: nat, s': State)
    requires w < |s.workers| && |s'.workers| == |s.workers|
    requires !s.workers[w].pc.Increasing? && !s'.workers[w].pc.Increasing?
    requires forall v :: 0 <= v < |s.workers| && v != w ==> s'.workers[v].pc == s.workers[v].pc
    ensures Merging(s') <==> Merging(s)
  {
    if Merging(s) {
      var v :| 0 <= v < |s.workers| && s.workers[v].pc.Increasing?;
      assert s'.workers[v].pc.Increasing?;
    }
  }

  /** The transaction whose merge waits for its increment is held by the worker that merged it. */
  lemma MergingElsewhere(p: Params, s: State, w: nat)
    requires ControlOk(p, s) && w < |s.workers| && !s.workers[w].pc.Idle? && !s.workers[w].pc.Increasing?
    ensures Merging(s) ==> s.workers[w].pc.i != s.mergeIdx
  {
    if Merging(s) {
      var v :| 0 <= v < |s.workers| && s.workers[v].pc.Increasing?;
      assert PhaseOk(s.workers[v].pc, s.mergeIdx, Taken(p, s));
    }
  }

  /** A step that keeps the block's changes and writes at most the worker's own commit slot. */
  lemma LocalKeepsData(p: Params, s: State, w: nat, s': State)
    requires Good(p, s) && w < |s.workers| && InRange(p, s')
    requires !s.workers[w].pc.Idle? && !s.workers[w].pc.Increasing? && !s.workers[w].pc.Emitting?
    requires s'.root == s.root && s'.mergeIdx == s.mergeIdx && s'.merges == s.merges
    requires |s'.workers| == |s.workers|
    requires forall v :: 0 <= v < |s.workers| && v != w ==> s'.workers[v].pc == s.workers[v].pc
    requires !s'.workers[w].pc.Idle? && !s'.workers[w].pc.Increasing?
    requires forall i :: 0 <= i < |s.commits| && i != s.workers[w].pc.i ==> s'.commits[i] == s.commits[i]
    requires WorkerData(p, s'.workers[w].pc, s'.root, s'.commits)
    ensures DataOk(p, s')
  {
    assert PhaseOk(s.workers[w].pc, s.mergeIdx, Taken(p, s));
    forall v | 0 <= v < |s'.workers| && v != w
      ensures WorkerData(p, s'.workers[v].pc, s'.root, s'.commits)
    {
      assert WorkerData(p, s.workers[v].pc, s.root, s.commits);
    }
    SameMerging(s, w, s');
    MergingElsewhere(p, s, w);
    SerialFrame(p, MergedCount(s), s.root, s.commits, s'.commits);
  }

  /** The merge itself: the worker whose turn it is extends the serial execution by its transaction. */
  lemma CommitKeepsData(p: Params, s: State, w: nat, s': State)
    requires Good(p, s) && w < |s.workers| && s.workers[w].pc.Committing?
    requires s' == WorkerStep(p, s, w)
    ensures DataOk(p, s')
  {
    var i, x := s.workers[w].pc.i, s.workers[w].pc.x;
    assert PhaseOk(s.workers[w].pc, s.mergeIdx, Taken(p, s));
    assert WorkerData(p, s.workers[w].pc, s.root, s.commits);
    assert s'.root == Applied(s.root, x);
    NotMerging(p, s, w);
    assert SerialLink(p, i + 1, s.root, x.Steps(), s'.root, s'.commits);
    assert s'.workers[w].pc.Increasing?;
    assert SerialUpTo(p, i + 1, s'.root, s'.commits);
    forall v | 0 <= v < |s'.workers|
      ensures WorkerData(p, s'.workers[v].pc, s'.root, s'.commits)
    {
      if v != w {
        assert WorkerData(p, s.workers[v].pc, s.root, s.commits);
        assert PhaseOk(s.workers[v].pc, s.mergeIdx, Taken(p, s));
        GrowWorkerData(p, s.workers[v].pc, s.root, s'.root, s.commits);
      }
    }
    assert s'.merges == seq(i + 1, k => k);
  }

  /** While another worker has its turn no merge is waiting for its increment. */
  lemma NotMerging(p: Params, s: State, w: nat)
    requires ControlOk(p, s) && w < |s.workers| && Critical(s.workers[w].pc) && !s.workers[w].pc.Increasing?
    ensures !Merging(s)
  {
    assert PhaseOk(s.workers[w].pc, s.mergeIdx, Taken(p, s));
    forall v | 0 <= v < |s.workers|
      ensures !s.workers[v].pc.Increasing?
    {
      assert PhaseOk(s.workers[v].pc, s.mergeIdx, Taken(p, s));
    }
  }

  lemma GrowWorkerData(p: Params, pc: Pc, root: map<Bytes, Value>, root': map<Bytes, Value>,
                       commits: seq<Option<string>>)
    requires |commits| == |p.txs| && (!pc.Idle? ==> pc.i < |p.txs|)
    requires WorkerData(p, pc, root, commits) && root.Keys <= root'.Keys
    requires !pc.Reexecuting? && !pc.Committing?
    ensures WorkerData(p, pc, root', commits)
  {
    if !pc.Idle? && !pc.Increasing? && !pc.Emitting? {
      GrowReplayable(p.txs[pc.i], pc.x, root, root', p.store);
    }
  }

  lemma IncreaseKeepsData(p: Params, s: State, w: nat, s': State)
    requires Good(p, s) && w < |s.workers| && s.workers[w].pc.Increasing?
    requires s' == WorkerStep(p, s, w)
    ensures DataOk(p, s')
  {
    assert PhaseOk(s.workers[w].pc, s.mergeIdx, Taken(p, s));
    forall v | 0 <= v < |s.workers| && v != w
      ensures !s'.workers[v].pc.Increasing?
    {
      assert PhaseOk(s.workers[v].pc, s.mergeIdx, Taken(p, s));
    }
    assert !Merging(s');
    forall v | 0 <= v < |s'.workers|
      ensures WorkerData(p, s'.workers[v].pc, s'.root, s'.commits)
    {
      assert WorkerData(p, s.workers[v].pc, s.root, s.commits);
    }
  }

  /** Taking a transaction and emitting leave every other worker's execution alone. */
  lemma IdleEndKeepsData(p: Params, s: State, w: nat, s': State)
    requires Good(p, s) && w < |s.workers| && InRange(p, s')
    requires s.workers[w].pc.Idle? || s.workers[w].pc.Emitting?
    requires s'.root == s.root && s'.mergeIdx == s.mergeIdx && s'.merges == s.merges && s'.commits == s.commits
    requires |s'.workers| == |s.workers|
    requires forall v :: 0 <= v < |s.workers| && v != w ==> s'.workers[v].pc == s.workers[v].pc
    requires !s'.workers[w].pc.Increasing? && WorkerData(p, s'.workers[w].pc, s.root, s.commits)
    ensures DataOk(p, s')
  {
    forall v | 0 <= v < |s'.workers|
      ensures WorkerData(p, s'.workers[v].pc, s'.root, s'.commits)
    {
      assert WorkerData(p, s.workers[v].pc, s.root, s.commits);
    }
    SameMerging(s, w, s');
  }

  lemma TakeKeepsData(p: Params, s: State, w: nat, s': State)
    requires Good(p, s) && Enabled(p, s, WorkerActor(w)) && s' == WorkerStep(p, s, w) && InRange(p, s')
    requires s.workers[w].pc.Idle?
    ensures DataOk(p, s')
  {
    NewExecReplayable(p.txs[s.jobs[0]], s.root, p.store);
    IdleEndKeepsData(p, s, w, s');
  }

  lemma EmitKeepsData(p: Params, s: State, w: nat, s': State)
    requires Good(p, s) && Enabled(p, s, WorkerActor(w)) && s' == WorkerStep(p, s, w) && InRange(p, s')
    requires s.workers[w].pc.Emitting?
    ensures DataOk(p, s')
  {
    IdleEndKeepsData(p, s, w, s');
  }

  /** What a worker that stays with its transaction, and does not merge, has at its next place. */
  lemma StayWorkerData(p: Params, s: State, w: nat, s': State)
    requires InRange(p, s) && Enabled(p, s, WorkerActor(w)) && s' == WorkerStep(p, s, w) && InRange(p, s')
    requires WorkerData(p, s.workers[w].pc, s.root, s.commits)
    requires var pc := s.workers[w].pc; Before(pc) || pc.Woken? || pc.Checking? || pc.Reexecuting?
    ensures |s'.workers| == |s.workers| && WorkerData(p, s'.workers[w].pc, s.root, s'.commits)
  {
    match s.workers[w].pc
    case Executing(i, x) => ActReplayable(p.txs[i], x, s.root, p.store);
    case Reexecuting(i, x) => ActUndisturbed(p.txs[i], x, s.root, p.store);
    case Checking(i, x) =>
      if Root(s.root).Conflicts(x.top) {
        assert NewExec(p.txs[i]) == Run(p.txs[i], s.root, p.store, 0);
      } else {
        NoConflictUndisturbed(p.txs[i], x, s.root, p.store);
      }
    case _ =>
  }

  lemma StayKeepsData(p: Params, s: State, w: nat, s': State)
    requires Good(p, s) && Enabled(p, s, WorkerActor(w)) && s' == WorkerStep(p, s, w) && InRange(p, s')
    requires var pc := s.workers[w].pc; Before(pc) || pc.Woken? || pc.Checking? || pc.Reexecuting?
    ensures DataOk(p, s')
  {
    assert WorkerData(p, s.workers[w].pc, s.root, s.commits);
    StayWorkerData(p, s, w, s');
    LocalKeepsData(p, s, w, s');
  }

  lemma WorkerKeepsData(p: Params, s: State, w: nat, s': State)
    requires Good(p, s) && Enabled(p, s, WorkerActor(w)) && s' == WorkerStep(p, s, w) && InRange(p, s')
    ensures DataOk(p, s')
  {
    match s.workers[w].pc
    case Idle => TakeKeepsData(p, s, w, s');
    case Emitting(_, _) => EmitKeepsData(p, s, w, s');
    case Increasing(_) => IncreaseKeepsData(p, s, w, s');
    case Committing(_, _) => CommitKeepsData(p, s, w, s');
    case _ => StayKeepsData(p, s, w, s');
  }

  lemma InitialGood(p: Params)
    ensures Good(p, Initial(p))
  {
    InitialControl(p);
    assert !Merging(Initial(p));
  }

  lemma NextKeepsGood(p: Params, s: State, a: Actor, s': State)
    requires Good(p, s) && Next(p, s, a, s')
    ensures Good(p, s')
  {
    NextKeepsControl(p, s, a, s');
    ControlInRange(p, s');
    if a.MainActor? {
      assert s'.workers == s.workers && Merging(s') == Merging(s);
    } else {
      WorkerKeepsData(p, s, a.w, s');
    }
  }

  lemma {:induction false} RunGood(p: Params, run: seq<State>, actors: seq<Actor>, k: nat)
    requires IsRun(p, run, actors) && k < |run|
    ensures Good(p, run[k])
  {
    if k == 0 {
      InitialGood(p);
    } else {
      RunGood(p, run, actors, k - 1);
      assert StepAt(p, run, actors, k - 1);
      NextKeepsGood(p, run[k - 1], actors[k - 1], run[k]);
    }
  }

  /**
   Serializability.  In every run for every block, concurrency limit and deterministic chaincode,
   once executeConcurrent has returned, the block's changes and the error of every transaction are
   those of executing the transactions one at a time in list order and dropping the changes of the
   failed ones; each transaction was merged exactly once, in list order.
   */
  lemma ExecutionIsSerial(p: Params, run: seq<State>, actors: seq<Actor>, k: nat)
    requires IsRun(p, run, actors) && k < |run| && run[k].main.Returned?
    ensures |run[k].commits| == |p.txs|
    ensures SerialUpTo(p, |p.txs|, run[k].root, run[k].commits)
    ensures run[k].merges == seq(|p.txs|, i => i)
  {
    RunGood(p, run, actors, k);
  }

  /** What a transaction adds to the serial execution: nothing if it failed, whatever its message, else all it wrote. */
  lemma SerialStepMeans(p: Params, k: nat, prev: map<Bytes, Value>, n: nat, error: Option<string>,
                        root: map<Bytes, Value>)
    requires k < |p.txs| && SerialStep(p, k, prev, n, error, root)
    ensures var tx := p.txs[k];
      var h := Run(tx, prev, p.store, n).hist;
      var last := tx.program(h);
      && (forall j :: 0 <= j < |h| ==> Answered(tx, h, j, prev, p.store))
      && (last.Fail? || last.Finish?)
      && (last.Fail? ==> root == prev && error == Some(last.error))
      && (last.Finish? ==> AddsWrites(tx, h, prev, root) && error == Some(""))
  {
    AloneMeans(p.txs[k], prev, p.store, n);
  }

  /** A transaction is executed again exactly when a key it depends on was changed by those merged before it. */
  lemma RerunIff(p: Params, s: State, w: nat, s': State)
    requires Next(p, s, WorkerActor(w), s') && s.workers[w].pc.Checking?
    ensures var pc := s.workers[w].pc;
      && (s'.workers[w].pc.Reexecuting? <==> exists key :: key in pc.x.top.deps && key in s.root)
      && (!s'.workers[w].pc.Reexecuting? ==> s'.workers[w].pc == Committing(pc.i, pc.x))
  {
    var deps := s.workers[w].pc.x.top.deps;
    forall key | key in deps
      ensures [] + key == key
    {
    }
    if key :| key in deps && key in s.root {
      assert [] + key in s.root;
    }
  }

  /** Two runs of one block agree, whatever their limits and interleavings. */
  lemma ExecutionIsDeterministic(p: Params, q: Params, run: seq<State>, actors: seq<Actor>, k: nat, run': seq<State>,
                                 actors': seq<Actor>, k': nat)
    requires p.store == q.store && p.txs == q.txs
    requires IsRun(p, run, actors) && k < |run| && run[k].main.Returned?
    requires IsRun(q, run', actors') && k' < |run'| && run'[k'].main.Returned?
    ensures run[k].root == run'[k'].root && run[k].commits == run'[k'].commits
  {
    ExecutionIsSerial(p, run, actors, k);
    ExecutionIsSerial(q, run', actors', k');
    SerialSameTxs(q, p, |p.txs|, run'[k'].root, run'[k'].commits);
    SerialUnique(p, |p.txs|, run[k].root, run[k].commits, run'[k'].root, run'[k'].commits);
  }

  lemma {:induction false} SerialSameTxs(p: Params, q: Params, k: nat, root: map<Bytes, Value>,
                                         commits: seq<Option<string>>)
    requires p.store == q.store && p.txs == q.txs && k <= |p.txs| == |commits|
    requires SerialUpTo(p, k, root, commits)
    ensures SerialUpTo(q, k, root, commits)
  {
    if k > 0 {
      var prev, n :| SerialLink(p, k, prev, n, root, commits);
      SerialSameTxs(p, q, k - 1, prev, commits);
      assert SerialLink(q, k, prev, n, root, commits);
    }
  }
}
