/**
 Every run of the block executor is finite when the chaincode ends: each step lowers a rank.
 Together with SchedulerProgress this makes a run that cannot be continued one that has returned.
 */
module SchedulerTermination {
  import opened Options
  import opened ByteStrings
  import opened StateTrackers
  import opened TxExecution
  import opened ChaincodeEnds
  import opened Scheduler
  import opened SchedulerControl
  import opened Serializability
  import opened SchedulerProgress

  // ----- The block states a block can have -----

  ghost predicate IsSerialRoot(p: Params, k: nat, root: map<Bytes, Value>, commits: seq<Option<string>>)
  {
    k <= |p.txs| == |commits| && SerialUpTo(p, k, root, commits)
  }

  /** The block's changes after the first transactions, up to `k` of them. */
  ghost function SerialRoots(p: Params, k: nat): set<map<Bytes, Value>>
  {
    (if k == 0 then {} else SerialRoots(p, k - 1)) +
    (if exists root, commits :: IsSerialRoot(p, k, root, commits) then
       var root, commits :| IsSerialRoot(p, k, root, commits); {root}
     else {})
  }

  lemma {:induction false} SerialRootListed(p: Params, k: nat, m: nat, root: map<Bytes, Value>,
                                            commits: seq<Option<string>>)
    requires IsSerialRoot(p, m, root, commits) && m <= k
    ensures root in SerialRoots(p, k)
  {
    if m < k {
      SerialRootListed(p, k - 1, m, root, commits);
    } else {
      forall r, c | IsSerialRoot(p, k, r, c)
        ensures r == root
      {
        SerialUnique(p, k, root, commits, r, c);
      }
    }
  }

  /** All block states of the block, in whatever run. */
  ghost function Roots(p: Params): set<map<Bytes, Value>>
  {
    SerialRoots(p, |p.txs|)
  }

  lemma RootListed(p: Params, s: State)
    requires Serializability.Good(p, s)
    ensures s.root in Roots(p)
  {
    SerialRootListed(p, |p.txs|, MergedCount(s), s.root, s.commits);
  }

  // ----- The rank -----

  ghost function Actions(p: Params, i: nat, x: Exec): nat
  {
    if i < |p.txs| then ActionsLeft(p.txs[i], x, Roots(p), p.store) else 0
  }

  ghost predicate MayEnd(p: Params, i: nat, x: Exec)
  {
    i < |p.txs| && CanEnd(p.txs[i], x, Roots(p), p.store)
  }

  /** Every transaction of the block, executed from its start, ends within `bound` actions. */
  ghost predicate Bounded(p: Params, bound: nat)
  {
    forall i :: 0 <= i < |p.txs| ==> MayEnd(p, i, NewExec(p.txs[i])) && Actions(p, i, NewExec(p.txs[i])) <= bound
  }

  /** An emit refills at most this many buffers. */
  function EmitRank(p: Params): nat
  {
    p.limit + 2
  }

  ghost function PcRank(p: Params, bound: nat, pc: Pc): nat
  {
    var e := EmitRank(p);
    match pc
    case Idle => 0
    case Emitting(_, _) => e
    case Increasing(_) => e + 1
    case Committing(_, _) => e + 2
    case Reexecuting(i, x) => e + 3 + Actions(p, i, x)
    case Checking(_, _) => e + bound + 5
    case Woken(_, _) => e + bound + 6
    case Waiting(_, _) => e + bound + 7
    case Subscribed(_, _) => e + bound + 8
    case Executed(_, _) => e + bound + 9
    case Executing(i, x) => e + bound + 10 + Actions(p, i, x)
  }

  function JobRank(p: Params, bound: nat): nat
  {
    EmitRank(p) + 2 * bound + 12
  }

  ghost function WorkerRank(p: Params, bound: nat, w: Worker): nat
  {
    PcRank(p, bound, w.pc) + |w.buf|
  }

  ghost function WorkersRank(p: Params, bound: nat, ws: seq<Worker>): nat
  {
    if ws == [] then 0 else WorkersRank(p, bound, ws[..|ws| - 1]) + WorkerRank(p, bound, ws[|ws| - 1])
  }

  /** `k` times `j`, by addition. */
  function Times(k: nat, j: nat): nat
  {
    if k == 0 then 0 else Times(k - 1, j) + j
  }

  function MainRank(p: Params, bound: nat, main: Main): nat
  {
    match main
    case Starting => Times(|p.txs|, JobRank(p, bound) + 1) + 2
    case Sending(k) => Times(if k < |p.txs| then |p.txs| - k else 0, JobRank(p, bound) + 1) + 1
    case Draining => 1
    case Returned => 0
  }

  ghost function Rank(p: Params, bound: nat, s: State): nat
  {
    WorkersRank(p, bound, s.workers) + Times(|s.jobs|, JobRank(p, bound)) + MainRank(p, bound, s.main) + |s.mainBuf|
  }

  lemma {:induction false} SetWorkerRank(p: Params, bound: nat, ws: seq<Worker>, w: nat, new': Worker)
    requires w < |ws|
    ensures WorkersRank(p, bound, ws[w := new']) ==
      WorkersRank(p, bound, ws) - WorkerRank(p, bound, ws[w]) + WorkerRank(p, bound, new')
  {
    var k := |ws| - 1;
    var ws' := ws[w := new'];
    if w < k {
      assert ws'[..k] == ws[..k][w := new'];
      SetWorkerRank(p, bound, ws[..k], w, new');
    } else {
      assert ws'[..k] == ws[..k];
    }
  }

  lemma {:induction false} OfferRank(p: Params, bound: nat, ws: seq<Worker>, ws': seq<Worker>, event: nat)
    requires |ws'| == |ws| && forall k :: 0 <= k < |ws| ==> ws'[k] == OfferWorker(ws[k], event)
    ensures WorkersRank(p, bound, ws') <= WorkersRank(p, bound, ws) + |ws|
  {
    if ws != [] {
      var k := |ws| - 1;
      OfferRank(p, bound, ws[..k], ws'[..k], event);
      assert ws'[k] == OfferWorker(ws[k], event);
    }
  }

  // ----- Every step lowers it -----

  /** What is being executed will end. */
  ghost predicate PcEnds(p: Params, pc: Pc)
  {
    pc.Executing? || pc.Reexecuting? ==> MayEnd(p, pc.i, pc.x)
  }

  ghost predicate AllEnd(p: Params, s: State)
  {
    forall w :: 0 <= w < |s.workers| ==> PcEnds(p, s.workers[w].pc)
  }

  lemma MainLowersRank(p: Params, bound: nat, s: State)
    requires ControlOk(p, s) && Enabled(p, s, MainActor)
    ensures Rank(p, bound, MainStep(p, s)) < Rank(p, bound, s)
  {
    match s.main
    case Starting =>
    case Sending(k) =>
    case Draining =>
  }

  lemma TakeLowersRank(p: Params, bound: nat, s: State, w: nat, s': State)
    requires w < |s.workers| && s.workers[w].pc.Idle? && s.jobs != [] && s.jobs[0] < |p.txs| && Bounded(p, bound)
    requires s' == SetWorker(s, w, Executing(s.jobs[0], NewExec(p.txs[s.jobs[0]])), []).(jobs := s.jobs[1..])
    ensures Rank(p, bound, s') < Rank(p, bound, s) && PcEnds(p, s'.workers[w].pc)
  {
    assert Actions(p, s.jobs[0], NewExec(p.txs[s.jobs[0]])) <= bound;
    SetWorkerRank(p, bound, s.workers, w, s'.workers[w]);
  }

  /** A worker that lowers its own rank and touches no job or buffer of others lowers the whole. */
  lemma LocalLowersRank(p: Params, bound: nat, s: State, w: nat, s': State)
    requires w < |s.workers| && |s'.workers| == |s.workers| && s'.workers == s.workers[w := s'.workers[w]]
    requires s'.jobs == s.jobs && s'.main == s.main && s'.mainBuf == s.mainBuf
    requires WorkerRank(p, bound, s'.workers[w]) < WorkerRank(p, bound, s.workers[w])
    ensures Rank(p, bound, s') < Rank(p, bound, s)
  {
    SetWorkerRank(p, bound, s.workers, w, s'.workers[w]);
  }

  lemma ExecuteLowersRank(p: Params, bound: nat, s: State, w: nat, w': Worker)
    requires InRange(p, s) && Enabled(p, s, WorkerActor(w)) && w' == WorkerStep(p, s, w).workers[w]
    requires s.workers[w].pc.Executing? || s.workers[w].pc.Reexecuting?
    requires PcEnds(p, s.workers[w].pc) && s.root in Roots(p)
    ensures WorkerRank(p, bound, w') < WorkerRank(p, bound, s.workers[w]) && PcEnds(p, w'.pc)
  {
    var pc := s.workers[w].pc;
    if pc.x.error.None? {
      ActLowers(p.txs[pc.i], pc.x, Roots(p), p.store, s.root);
    } else {
      EndedHasNoneLeft(p.txs[pc.i], pc.x, Roots(p), p.store);
    }
  }

  lemma WaitLowersRank(p: Params, bound: nat, s: State, w: nat, w': Worker)
    requires InRange(p, s) && Enabled(p, s, WorkerActor(w)) && w' == WorkerStep(p, s, w).workers[w]
    requires var pc := s.workers[w].pc; !pc.Idle? && !pc.Emitting? && !pc.Executing? && !pc.Reexecuting?
    requires !IsSubscribed(s.workers[w].pc) ==> s.workers[w].buf == []
    requires Bounded(p, bound)
    ensures WorkerRank(p, bound, w') < WorkerRank(p, bound, s.workers[w]) && PcEnds(p, w'.pc)
  {
    var i := s.workers[w].pc.i;
    assert MayEnd(p, i, NewExec(p.txs[i])) && Actions(p, i, NewExec(p.txs[i])) <= bound;
  }

  lemma EmitLowersRank(p: Params, bound: nat, s: State, w: nat, s': State)
    requires |s.workers| == p.limit && w < |s.workers| && s.workers[w].pc.Emitting?
    requires s' == Emitted(p, s, w, s.workers[w].pc.event)
    ensures Rank(p, bound, s') < Rank(p, bound, s)
  {
    var event := s.workers[w].pc.event;
    var told := seq(|s.workers|, k requires 0 <= k < |s.workers| => OfferWorker(s.workers[k], event));
    OfferRank(p, bound, s.workers, told, event);
    SetWorkerRank(p, bound, told, w, Worker(Idle, []));
    assert told[w] == s.workers[w];
  }

  /** The worker's own part of a step that is neither an emit nor taking a transaction. */
  lemma StayLowersRank(p: Params, bound: nat, s: State, w: nat, s': State)
    requires ControlOk(p, s) && InRange(p, s) && Enabled(p, s, WorkerActor(w)) && s' == WorkerStep(p, s, w)
    requires Bounded(p, bound) && PcEnds(p, s.workers[w].pc) && s.root in Roots(p)
    requires !s.workers[w].pc.Idle? && !s.workers[w].pc.Emitting?
    ensures |s'.workers| == |s.workers| && Rank(p, bound, s') < Rank(p, bound, s) && PcEnds(p, s'.workers[w].pc)
  {
    assert BufferOk(s.workers, s.workers[w], s.mergeIdx, MaxEvents(p));
    if s.workers[w].pc.Executing? || s.workers[w].pc.Reexecuting? {
      ExecuteLowersRank(p, bound, s, w, s'.workers[w]);
    } else {
      WaitLowersRank(p, bound, s, w, s'.workers[w]);
    }
    LocalLowersRank(p, bound, s, w, s');
  }

  lemma WorkerLowersRank(p: Params, bound: nat, s: State, w: nat, s': State)
    requires ControlOk(p, s) && InRange(p, s) && Enabled(p, s, WorkerActor(w)) && s' == WorkerStep(p, s, w)
    requires Bounded(p, bound) && PcEnds(p, s.workers[w].pc) && s.root in Roots(p)
    ensures |s'.workers| == |s.workers| && Rank(p, bound, s') < Rank(p, bound, s) && PcEnds(p, s'.workers[w].pc)
  {
    OtherSteps(p, s, w, s');
    if s.workers[w].pc.Emitting? {
      EmitLowersRank(p, bound, s, w, s');
    } else if s.workers[w].pc.Idle? {
      TakeLowersRank(p, bound, s, w, s');
    } else {
      StayLowersRank(p, bound, s, w, s');
    }
  }

  /** A step leaves the other workers where they are. */
  lemma OthersStay(p: Params, s: State, w: nat, s': State, v: nat)
    requires InRange(p, s) && Enabled(p, s, WorkerActor(w)) && s' == WorkerStep(p, s, w) && v < |s.workers| && v != w
    ensures |s'.workers| == |s.workers| && s'.workers[v].pc == s.workers[v].pc
  {
  }

  lemma NextLowersRank(p: Params, bound: nat, s: State, a: Actor, s': State)
    requires Serializability.Good(p, s) && AllEnd(p, s) && Bounded(p, bound) && Next(p, s, a, s')
    ensures Rank(p, bound, s') < Rank(p, bound, s) && AllEnd(p, s')
  {
    if a.MainActor? {
      MainLowersRank(p, bound, s);
      assert s'.workers == s.workers;
    } else {
      RootListed(p, s);
      assert PcEnds(p, s.workers[a.w].pc);
      WorkerLowersRank(p, bound, s, a.w, s');
      forall v | 0 <= v < |s'.workers|
        ensures PcEnds(p, s'.workers[v].pc)
      {
        if v != a.w {
          OthersStay(p, s, a.w, s', v);
          assert PcEnds(p, s.workers[v].pc);
        }
      }
    }
  }

  lemma {:induction false} RankFalls(p: Params, bound: nat, run: seq<State>, actors: seq<Actor>, k: nat)
    requires IsRun(p, run, actors) && k < |run| && Bounded(p, bound)
    ensures Rank(p, bound, run[k]) <= Rank(p, bound, Initial(p)) - k && AllEnd(p, run[k])
  {
    if k > 0 {
      RankFalls(p, bound, run, actors, k - 1);
      RunGood(p, run, actors, k - 1);
      assert StepAt(p, run, actors, k - 1);
      NextLowersRank(p, bound, run[k - 1], actors[k - 1], run[k]);
    }
  }

  // ----- Chaincode that ends -----

  /** Every transaction's chaincode ends, however its reads are answered. */
  ghost predicate ChaincodeEnding(p: Params)
  {
    forall i :: 0 <= i < |p.txs| ==> Ends(p.txs[i], [])
  }

  lemma {:induction false} BlockBound(p: Params, k: nat) returns (bound: nat)
    requires ChaincodeEnding(p) && k <= |p.txs|
    ensures forall i :: 0 <= i < k ==> MayEnd(p, i, NewExec(p.txs[i])) && Actions(p, i, NewExec(p.txs[i])) <= bound
  {
    if k == 0 {
      bound := 0;
    } else {
      bound := BlockBound(p, k - 1);
      var tx := p.txs[k - 1];
      EndsBounded(tx, NewExec(tx), Roots(p), p.store);
      var n := Actions(p, k - 1, NewExec(tx));
      bound := if bound < n then n else bound;
    }
  }

  /**
   For chaincode that ends, with no bound on how long it takes, some number of steps is exceeded by no
   run of the block, whatever the limit and the interleaving.
   */
  lemma RunsAreFinite(p: Params) returns (most: nat)
    requires ChaincodeEnding(p)
    ensures forall run: seq<State>, actors: seq<Actor> :: IsRun(p, run, actors) ==> |actors| <= most
  {
    var bound := BlockBound(p, |p.txs|);
    most := Rank(p, bound, Initial(p));
    forall run: seq<State>, actors: seq<Actor> | IsRun(p, run, actors)
      ensures |actors| <= most
    {
      RankFalls(p, bound, run, actors, |actors|);
    }
  }

  /** A state that nothing can continue has returned with the serial result. */
  ghost predicate SerialIfStopped(p: Params, s: State)
  {
    (forall a :: !Enabled(p, s, a)) ==>
      s.main.Returned? && |s.commits| == |p.txs| && SerialUpTo(p, |p.txs|, s.root, s.commits)
  }

  lemma StoppedRunReturned(p: Params, run: seq<State>, actors: seq<Actor>)
    requires IsRun(p, run, actors) && p.limit >= 1 && MaxEvents(p) <= WAIT_BUFFER
    ensures SerialIfStopped(p, run[|actors|])
  {
    if run[|actors|].main.Returned? {
      ExecutionIsSerial(p, run, actors, |actors|);
    } else {
      NeverStuck(p, run, actors, |actors|);
    }
  }

  /**
   Total correctness.  For chaincode that ends, with at least one worker and no more than 21 of them
   (or of transactions), every run is bounded in length, and one that nothing can continue has
   returned with the serial result.
   */
  lemma MaximalRunReturnsSerialResult(p: Params) returns (most: nat)
    requires ChaincodeEnding(p) && p.limit >= 1 && MaxEvents(p) <= WAIT_BUFFER
    ensures forall run: seq<State>, actors: seq<Actor> :: IsRun(p, run, actors) ==>
      |actors| <= most && SerialIfStopped(p, run[|actors|])
  {
    most := RunsAreFinite(p);
    forall run: seq<State>, actors: seq<Actor> | IsRun(p, run, actors)
      ensures SerialIfStopped(p, run[|actors|])
    {
      StoppedRunReturned(p, run, actors);
    }
  }
}
