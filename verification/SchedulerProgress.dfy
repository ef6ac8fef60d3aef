/**
 Progress of the block executor: no wake-up is lost exactly while at most 21 workers or 21
 transactions can be involved, no reachable state is stuck then, and every run ends.
 */
module SchedulerProgress {
  import opened StateTrackers
  import opened TxExecution
  import opened Scheduler
  import opened SchedulerControl

  // ----- No wake-up is lost -----

  lemma LocalKeepsWake(p: Params, s: State, w: nat, s': State)
    requires ControlOk(p, s) && WakeOk(s.workers, s.mergeIdx) && w < |s.workers|
    requires s'.mergeIdx == s.mergeIdx && |s'.workers| == |s.workers|
    requires forall v :: 0 <= v < |s.workers| && v != w ==> s'.workers[v] == s.workers[v]
    requires !s.workers[w].pc.Emitting?
    requires s'.workers[w].pc.Waiting? ==>
      || s'.workers[w].pc.i != s.mergeIdx
      || (s.workers[w].pc == s'.workers[w].pc && (s.mergeIdx in s.workers[w].buf ==> s.mergeIdx in s'.workers[w].buf))
    ensures WakeOk(s'.workers, s'.mergeIdx)
  {
    if Pending(s.workers, s.mergeIdx) {
      var v :| 0 <= v < |s.workers| && s.workers[v].pc.Emitting? && s.workers[v].pc.event == s.mergeIdx;
      assert s'.workers[v] == s.workers[v];
    }
  }

  lemma EmitKeepsWake(p: Params, s: State, w: nat)
    requires ControlOk(p, s) && WakeOk(s.workers, s.mergeIdx) && MaxEvents(p) <= WAIT_BUFFER
    requires w < |s.workers| && s.workers[w].pc.Emitting?
    ensures WakeOk(Emitted(p, s, w, s.workers[w].pc.event).workers, s.mergeIdx)
  {
    var event := s.workers[w].pc.event;
    var ws, ws' := s.workers, Emitted(p, s, w, event).workers;
    forall v | 0 <= v < |ws'| && ws'[v].pc.Waiting? && ws'[v].pc.i == s.mergeIdx
      ensures s.mergeIdx in ws'[v].buf || Pending(ws', s.mergeIdx)
    {
      assert ws'[v] == OfferWorker(ws[v], event);
      if s.mergeIdx !in ws[v].buf {
        var u :| 0 <= u < |ws| && ws[u].pc.Emitting? && ws[u].pc.event == s.mergeIdx;
        if u == w {
          assert PhaseOk(ws[w].pc, s.mergeIdx, Taken(p, s));
          assert BufferOk(ws, ws[v], s.mergeIdx, MaxEvents(p));
          assert w in Below(ws, ws[v].pc.i);
          assert |ws[v].buf| < WAIT_BUFFER;
        } else {
          assert ws'[u].pc == ws[u].pc;
        }
      }
    }
  }

  /** A worker waits on only for another turn, or keeps the event of its own. */
  lemma WaitsOn(p: Params, s: State, w: nat, s': State)
    requires InRange(p, s) && Enabled(p, s, WorkerActor(w)) && s' == WorkerStep(p, s, w) && !s.workers[w].pc.Emitting?
    ensures |s'.workers| == |s.workers|
    ensures s'.workers[w].pc.Waiting? ==>
      || s'.workers[w].pc.i != s.mergeIdx
      || (s.workers[w].pc == s'.workers[w].pc && (s.mergeIdx in s.workers[w].buf ==> s.mergeIdx in s'.workers[w].buf))
  {
    var buf := s.workers[w].buf;
    if s.workers[w].pc.Waiting? {
      assert buf == [buf[0]] + buf[1..];
    }
  }

  lemma IncreaseKeepsWake(p: Params, s: State, w: nat, s': State)
    requires ControlOk(p, s) && InRange(p, s) && Enabled(p, s, WorkerActor(w)) && s' == WorkerStep(p, s, w)
    requires s.workers[w].pc.Increasing?
    ensures WakeOk(s'.workers, s'.mergeIdx)
  {
    OtherSteps(p, s, w, s');
    assert s'.workers[w].pc.Emitting? && s'.workers[w].pc.event == s'.mergeIdx;
    assert Pending(s'.workers, s'.mergeIdx);
  }

  lemma StayKeepsWake(p: Params, s: State, w: nat, s': State)
    requires ControlOk(p, s) && WakeOk(s.workers, s.mergeIdx)
    requires InRange(p, s) && Enabled(p, s, WorkerActor(w)) && s' == WorkerStep(p, s, w)
    requires !s.workers[w].pc.Increasing? && !s.workers[w].pc.Emitting?
    ensures WakeOk(s'.workers, s'.mergeIdx)
  {
    WaitsOn(p, s, w, s');
    if s.workers[w].pc.Idle? {
      OtherSteps(p, s, w, s');
    } else {
      LocalStep(p, s, w, s');
    }
    LocalKeepsWake(p, s, w, s');
  }

  lemma NextKeepsWake(p: Params, s: State, a: Actor, s': State)
    requires ControlOk(p, s) && WakeOk(s.workers, s.mergeIdx) && MaxEvents(p) <= WAIT_BUFFER
    requires Next(p, s, a, s')
    ensures WakeOk(s'.workers, s'.mergeIdx)
  {
    if a.WorkerActor? {
      var pc := s.workers[a.w].pc;
      if pc.Emitting? {
        OtherSteps(p, s, a.w, s');
        EmitKeepsWake(p, s, a.w);
      } else if pc.Increasing? {
        IncreaseKeepsWake(p, s, a.w, s');
      } else {
        StayKeepsWake(p, s, a.w, s');
      }
    }
  }

  lemma {:induction false} RunWakes(p: Params, run: seq<State>, actors: seq<Actor>, k: nat)
    requires IsRun(p, run, actors) && k < |run| && MaxEvents(p) <= WAIT_BUFFER
    ensures WakeOk(run[k].workers, run[k].mergeIdx)
  {
    if k > 0 {
      RunWakes(p, run, actors, k - 1);
      RunControl(p, run, actors, k - 1);
      assert StepAt(p, run, actors, k - 1);
      NextKeepsWake(p, run[k - 1], actors[k - 1], run[k]);
    }
  }

  // ----- No reachable state is stuck -----

  lemma CanMove(p: Params, s: State)
    returns (a: Actor)
    requires ControlOk(p, s) && WakeOk(s.workers, s.mergeIdx) && p.limit >= 1 && !s.main.Returned?
    ensures Enabled(p, s, a)
  {
    if w :| 0 <= w < |s.workers| && !s.workers[w].pc.Idle? && !s.workers[w].pc.Waiting? {
      return WorkerActor(w);
    }
    assert !Pending(s.workers, s.mergeIdx);
    if s.main.Starting? || s.mergeIdx == |p.txs| {
      return MainActor;
    }
    if s.mergeIdx < Taken(p, s) {
      assert Held(s.workers, s.mergeIdx);
      var w :|
        && 0 <= w < |s.workers| && (Before(s.workers[w].pc) || Critical(s.workers[w].pc))
        && s.workers[w].pc.i == s.mergeIdx;
      return WorkerActor(w);
    }
    if s.jobs != [] {
      assert PhaseOk(s.workers[0].pc, s.mergeIdx, Taken(p, s));
      return WorkerActor(0);
    }
    return MainActor;
  }

  /** With 1 to 21 workers, or at most 21 transactions and a worker, every reachable state short of the end can move. */
  lemma NeverStuck(p: Params, run: seq<State>, actors: seq<Actor>, k: nat)
    requires IsRun(p, run, actors) && k < |run| && !run[k].main.Returned?
    requires p.limit >= 1 && MaxEvents(p) <= WAIT_BUFFER
    ensures exists a :: Enabled(p, run[k], a)
  {
    RunWakes(p, run, actors, k);
    RunControl(p, run, actors, k);
    var a := CanMove(p, run[k]);
  }

  // ----- Beyond that a wake-up can be lost -----

  /** A waiter whose turn has come while its event is neither buffered nor still to be emitted. */
  ghost predicate Lost(s: State, w: nat)
  {
    && w < |s.workers| && s.workers[w].pc.Waiting? && s.workers[w].pc.i == s.mergeIdx
    && s.mergeIdx !in s.workers[w].buf && !Pending(s.workers, s.mergeIdx)
  }

  lemma LostStays(p: Params, s: State, w: nat, a: nat, s': State)
    requires ControlOk(p, s) && Lost(s, w) && InRange(p, s) && Enabled(p, s, WorkerActor(a))
    requires s' == WorkerStep(p, s, a)
    requires var pc := s.workers[a].pc; Before(pc) || (Critical(pc) && !pc.Increasing?)
    ensures Lost(s', w)
  {
    LocalStep(p, s, a, s');
    var ws, ws' := s.workers, s'.workers;
    if a == w {
      var buf := ws[w].buf;
      assert buf == [buf[0]] + buf[1..];
      assert buf[0] in buf;
      assert ws'[w] == Worker(ws[w].pc, buf[1..]);
    }
    NoNewEmitter(ws, ws', s.mergeIdx);
  }

  lemma NoNewEmitter(ws: seq<Worker>, ws': seq<Worker>, e: nat)
    requires |ws'| == |ws| && !Pending(ws, e)
    requires forall v :: 0 <= v < |ws| && ws'[v].pc.Emitting? ==> ws'[v].pc == ws[v].pc
    ensures !Pending(ws', e)
  {
  }

  lemma LostOther(p: Params, s: State, w: nat, a: nat, s': State)
    requires ControlOk(p, s) && Lost(s, w) && InRange(p, s) && Enabled(p, s, WorkerActor(a))
    requires s' == WorkerStep(p, s, a)
    requires s.workers[a].pc.Idle? || s.workers[a].pc.Emitting?
    ensures Lost(s', w)
  {
    OtherSteps(p, s, a, s');
    assert s'.workers[w].buf == s.workers[w].buf || s'.workers[w].buf == s.workers[w].buf + [s.workers[a].pc.event];
    NoNewEmitter(s.workers, s'.workers, s.mergeIdx);
  }

  /** A lost wake-up is never made good: the executor does not return from such a state. */
  lemma LostForGood(p: Params, s: State, w: nat, a: Actor, s': State)
    requires ControlOk(p, s) && Lost(s, w) && Next(p, s, a, s')
    ensures Lost(s', w) && !s'.main.Returned?
  {
    NextKeepsControl(p, s, a, s');
    assert PhaseOk(s.workers[w].pc, s.mergeIdx, Taken(p, s));
    if a.MainActor? {
      assert s'.workers == s.workers && s'.mergeIdx == s.mergeIdx;
    } else {
      var pc := s.workers[a.w].pc;
      assert PhaseOk(pc, s.mergeIdx, Taken(p, s));
      if pc.Idle? || pc.Emitting? {
        LostOther(p, s, w, a.w, s');
      } else {
        LostStays(p, s, w, a.w, s');
      }
    }
    NotReturned(p, s', w);
  }

  lemma NotReturned(p: Params, s: State, w: nat)
    requires ControlOk(p, s) && Lost(s, w)
    ensures !s.main.Returned?
  {
    assert PhaseOk(s.workers[w].pc, s.mergeIdx, Taken(p, s));
  }

  /** A transaction that ends at once. */
  function Trivial(): Tx
  {
    Tx(false, [], (h: History) => Finish)
  }

  ghost predicate Reachable(p: Params, s: State)
  {
    exists run, actors :: IsRun(p, run, actors) && run[|run| - 1] == s
  }

  lemma Advance(p: Params, s: State, a: Actor) returns (s': State)
    requires Reachable(p, s) && Enabled(p, s, a)
    ensures InRange(p, s) && s' == if a.MainActor? then MainStep(p, s) else WorkerStep(p, s, a.w)
    ensures Reachable(p, s')
  {
    var run, actors :| IsRun(p, run, actors) && run[|run| - 1] == s;
    RunControl(p, run, actors, |run| - 1);
    ControlInRange(p, s);
    s' := if a.MainActor? then MainStep(p, s) else WorkerStep(p, s, a.w);
    var run', actors' := run + [s'], actors + [a];
    forall k | 0 <= k < |actors'|
      ensures StepAt(p, run', actors', k)
    {
      if k < |actors| {
        assert StepAt(p, run, actors, k);
      }
    }
    assert IsRun(p, run', actors') && run'[|run'| - 1] == s';
  }

  /** The first `k` workers have each taken the transaction of their number; nothing else has happened. */
  ghost predicate TookFirst(p: Params, s: State, k: nat)
  {
    && |s.workers| == p.limit && k <= p.limit && k <= |p.txs|
    && s.mergeIdx == 0 && s.jobs == []
    && (s.main.Sending? || s.main.Draining?) && Sent(p, s) == k
    && forall w :: 0 <= w < |s.workers| ==>
      s.workers[w].pc == if w < k then Executing(w, NewExec(p.txs[w])) else Idle
  }

  lemma {:induction false} TakeFirst(p: Params, k: nat) returns (s: State)
    requires k <= p.limit && k <= |p.txs| && |p.txs| > 0
    ensures Reachable(p, s) && TookFirst(p, s, k)
    decreases k
  {
    if k == 0 {
      assert IsRun(p, [Initial(p)], []) && [Initial(p)][0] == Initial(p);
      s := Advance(p, Initial(p), MainActor);
    } else {
      s := TakeFirst(p, k - 1);
      var s1 := Advance(p, s, MainActor);
      s := Advance(p, s1, WorkerActor(k - 1));
    }
  }

  /**
   The last of 22 workers waits for event 21 while the others have merged `k` transactions; its
   buffer holds the events so far, as many as fit.
   */
  ghost predicate Behind(p: Params, s: State, k: nat)
  {
    && |s.workers| == p.limit && 22 <= p.limit && 22 <= |p.txs| && k <= 21
    && s.mergeIdx == k
    && (forall w :: 0 <= w < |s.workers| && w != 21 ==>
      s.workers[w].pc == if k <= w < 21 then Executing(w, NewExec(p.txs[w])) else Idle)
    && s.workers[21].pc.Waiting? && s.workers[21].pc.i == 21
    && |s.workers[21].buf| == Min(k, WAIT_BUFFER)
    && 21 !in s.workers[21].buf
  }

  lemma WaitFirst(p: Params, s: State) returns (t: State)
    requires Reachable(p, s) && TookFirst(p, s, 22) && p.txs[21] == Trivial()
    ensures Reachable(p, t) && Behind(p, t, 0)
  {
    var a := WorkerActor(21);
    t := Advance(p, s, a);
    t := Advance(p, t, a);
    t := Advance(p, t, a);
    t := Advance(p, t, a);
  }

  /** Worker `k` runs its transaction up to the point where it has its turn. */
  lemma RunToTurn(p: Params, s: State, k: nat) returns (t: State)
    requires Reachable(p, s) && k < 21 && Behind(p, s, k) && p.txs[k] == Trivial()
    ensures |t.workers| == |s.workers| && Reachable(p, t) && t.workers == s.workers[k := t.workers[k]]
    ensures t.mergeIdx == k
    ensures t.workers[k].pc.Woken? && t.workers[k].pc.i == k && t.workers[k].pc.x.top.deps == {}
  {
    var a := WorkerActor(k);
    t := Advance(p, s, a);
    t := Advance(p, t, a);
    assert t.workers[k].pc.Executed? && t.workers[k].pc.i == k && t.workers[k].pc.x.top.deps == {};
    t := ToTurn(p, t, k);
  }

  lemma ToTurn(p: Params, s: State, k: nat) returns (t: State)
    requires Reachable(p, s) && k < |s.workers| && s.mergeIdx == k
    requires s.workers[k].pc.Executed? && s.workers[k].pc.i == k && s.workers[k].pc.x.top.deps == {}
    ensures |t.workers| == |s.workers| && Reachable(p, t) && t.workers == s.workers[k := t.workers[k]]
    ensures t.mergeIdx == k
    ensures t.workers[k].pc.Woken? && t.workers[k].pc.i == k && t.workers[k].pc.x.top.deps == {}
  {
    t := Advance(p, s, WorkerActor(k));
    t := Advance(p, t, WorkerActor(k));
  }

  /** The worker whose turn it is merges and increments. */
  lemma TurnToEmit(p: Params, s: State, k: nat) returns (t: State)
    requires Reachable(p, s) && k < |s.workers| && s.mergeIdx == k
    requires s.workers[k].pc.Woken? && s.workers[k].pc.i == k && s.workers[k].pc.x.top.deps == {}
    ensures |t.workers| == |s.workers| && Reachable(p, t) && t.workers == s.workers[k := t.workers[k]]
    ensures t.workers[k].pc == Emitting(k, k + 1) && t.mergeIdx == k + 1
  {
    t := TurnToCommit(p, s, k);
    t := Advance(p, t, WorkerActor(k));
    t := Advance(p, t, WorkerActor(k));
  }

  lemma TurnToCommit(p: Params, s: State, k: nat) returns (t: State)
    requires Reachable(p, s) && k < |s.workers| && s.mergeIdx == k
    requires s.workers[k].pc.Woken? && s.workers[k].pc.i == k && s.workers[k].pc.x.top.deps == {}
    ensures |t.workers| == |s.workers| && Reachable(p, t) && t.workers == s.workers[k := t.workers[k]]
    ensures t.mergeIdx == k
    ensures t.workers[k].pc.Committing? && t.workers[k].pc.i == k
  {
    t := Advance(p, s, WorkerActor(k));
    t := Advance(p, t, WorkerActor(k));
  }

  lemma MergeOne(p: Params, s: State, k: nat) returns (t: State)
    requires Reachable(p, s) && k < 21 && Behind(p, s, k) && p.txs[k] == Trivial()
    ensures Reachable(p, t) && Behind(p, t, k + 1)
    ensures forall w :: 0 <= w < |t.workers| ==> !t.workers[w].pc.Emitting?
  {
    t := RunToTurn(p, s, k);
    t := TurnToEmit(p, t, k);
    t := Advance(p, t, WorkerActor(k));
  }

  lemma {:induction false} FallBehind(p: Params, k: nat) returns (s: State)
    requires 22 <= p.limit && 22 <= |p.txs| && k <= 21
    requires forall i :: 0 <= i < 22 ==> p.txs[i] == Trivial()
    ensures Reachable(p, s) && Behind(p, s, k)
    ensures k > 0 ==> forall w :: 0 <= w < |s.workers| ==> !s.workers[w].pc.Emitting?
  {
    if k == 0 {
      s := TakeFirst(p, 22);
      s := WaitFirst(p, s);
    } else {
      s := FallBehind(p, k - 1);
      s := MergeOne(p, s, k - 1);
    }
  }

  ghost predicate NoneLost(p: Params)
  {
    forall s, w :: Reachable(p, s) ==> !Lost(s, w)
  }

  /**
   The exact condition.  For blocks of `n` transactions run by `limit` workers, no run of any block
   loses a wake-up if and only if at most 21 workers, or at most 21 transactions, take part: a
   waiter's buffer holds 20 events and up to min(limit, n) - 1 can arrive before it looks.
   */
  lemma WakeupsSafeIff(store: Getter, n: nat, limit: nat)
    ensures (forall txs :: |txs| == n ==> NoneLost(Params(store, txs, limit))) <==> Min(limit, n) <= 21
  {
    if Min(limit, n) <= 21 {
      forall txs: seq<Tx>, s: State, w: nat | |txs| == n && Reachable(Params(store, txs, limit), s)
        ensures !Lost(s, w)
      {
        var p := Params(store, txs, limit);
        var run, actors :| IsRun(p, run, actors) && run[|run| - 1] == s;
        RunWakes(p, run, actors, |run| - 1);
      }
    } else {
      var txs := seq(n, _ => Trivial());
      var p := Params(store, txs, limit);
      var s := FallBehind(p, 21);
      assert Lost(s, 21);
    }
  }
}
