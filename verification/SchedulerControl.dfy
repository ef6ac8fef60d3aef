/** Every step of the block executor keeps its control invariants, for every concurrency limit. */
module SchedulerControl {
  import opened FiniteSets
  import opened TxExecution
  import opened Scheduler

  lemma ControlInRange(p: Params, s: State)
    requires ControlOk(p, s)
    ensures InRange(p, s)
  {
  }

  lemma InitialControl(p: Params)
    ensures ControlOk(p, Initial(p))
  {
    assert Emitters(Initial(p).workers) == {};
  }

  // ----- Main goroutine -----

  lemma MainKeepsControl(p: Params, s: State)
    requires ControlOk(p, s) && Enabled(p, s, MainActor)
    ensures ControlOk(p, MainStep(p, s))
  {
    match s.main
    case Starting =>
    case Sending(k) =>
    case Draining =>
      var t := MainStep(p, s);
      assert s.mainBuf == [s.mainBuf[0]] + s.mainBuf[1..];
      assert s.mainBuf[0] in s.mainBuf && forall e :: e in s.mainBuf[1..] ==> e in s.mainBuf;
    case Returned =>
  }

  // ----- A worker that keeps its transaction -----

  lemma BelowSameJob(ws: seq<Worker>, w: nat, new': Worker, i: nat)
    requires w < |ws| && !ws[w].pc.Idle? && !new'.pc.Idle? && ws[w].pc.i == new'.pc.i
    ensures Below(ws[w := new'], i) == Below(ws, i)
  {
  }

  lemma HeldSameJob(ws: seq<Worker>, w: nat, new': Worker, i: nat)
    requires w < |ws| && !ws[w].pc.Idle? && (Before(new'.pc) || Critical(new'.pc)) && ws[w].pc.i == new'.pc.i
    requires Held(ws, i)
    ensures Held(ws[w := new'], i)
  {
    var v :| 0 <= v < |ws| && (Before(ws[v].pc) || Critical(ws[v].pc)) && ws[v].pc.i == i;
    assert ws[w := new'][v].pc.i == i;
  }

  lemma LocalHolders(ws: seq<Worker>, ws': seq<Worker>, w: nat, m: nat, taken: nat)
    requires HoldersOk(ws, m, taken) && w < |ws| && |ws'| == |ws| && ws' == ws[w := ws'[w]]
    requires !ws[w].pc.Idle? && (Before(ws'[w].pc) || Critical(ws'[w].pc)) && ws'[w].pc.i == ws[w].pc.i
    requires PhaseOk(ws'[w].pc, m, taken)
    ensures HoldersOk(ws', m, taken)
  {
    forall i | m <= i < taken
      ensures Held(ws', i)
    {
      HeldSameJob(ws, w, ws'[w], i);
    }
  }

  lemma LocalBuffer(ws: seq<Worker>, ws': seq<Worker>, w: nat, m: nat, maxEvents: int, v: nat)
    requires w < |ws| && v < |ws| && |ws'| == |ws| && ws' == ws[w := ws'[w]]
    requires !ws[w].pc.Idle? && !ws'[w].pc.Idle? && ws'[w].pc.i == ws[w].pc.i
    requires BufferOk(ws, ws'[v], m, maxEvents)
    ensures BufferOk(ws', ws'[v], m, maxEvents)
  {
    if !ws'[v].pc.Idle? {
      BelowSameJob(ws, w, ws'[w], ws'[v].pc.i);
    }
  }

  /** A worker that neither was nor becomes an emitter leaves the emitters alone. */
  lemma SameEmitters(ws: seq<Worker>, ws': seq<Worker>, w: nat, e: nat)
    requires w < |ws| && |ws'| == |ws| && ws' == ws[w := ws'[w]] && !ws[w].pc.Emitting? && !ws'[w].pc.Emitting?
    ensures Emitters(ws') == Emitters(ws) && (Pending(ws, e) ==> Pending(ws', e))
  {
    if Pending(ws, e) {
      var v :| 0 <= v < |ws| && ws[v].pc.Emitting? && ws[v].pc.event == e;
      assert ws'[v] == ws[v];
    }
  }

  /** A worker moves on with the same transaction, touching no other control state. */
  lemma LocalKeepsControl(p: Params, s: State, w: nat, pc: Pc, buf: seq<nat>, s': State)
    requires ControlOk(p, s) && w < |s.workers|
    requires !s.workers[w].pc.Idle? && !s.workers[w].pc.Emitting?
    requires (Before(pc) || Critical(pc)) && pc.i == s.workers[w].pc.i
    requires PhaseOk(pc, s.mergeIdx, Taken(p, s))
    requires BufferOk(s.workers, Worker(pc, buf), s.mergeIdx, MaxEvents(p))
    requires s' == SetWorker(s, w, pc, buf).(root := s'.root, commits := s'.commits, merges := s'.merges)
    requires |s'.commits| == |s.commits|
    ensures ControlOk(p, s')
  {
    var ws, ws' := s.workers, s'.workers;
    assert ws' == ws[w := Worker(pc, buf)];
    LocalHolders(ws, ws', w, s.mergeIdx, Taken(p, s));
    forall v | 0 <= v < |ws'|
      ensures BufferOk(ws', ws'[v], s.mergeIdx, MaxEvents(p))
    {
      assert v != w ==> BufferOk(ws, ws[v], s.mergeIdx, MaxEvents(p));
      LocalBuffer(ws, ws', w, s.mergeIdx, MaxEvents(p), v);
    }
    SameEmitters(ws, ws', w, |p.txs|);
  }

  // ----- Taking a transaction -----

  lemma TakeHolders(ws: seq<Worker>, ws': seq<Worker>, w: nat, m: nat, j: nat)
    requires HoldersOk(ws, m, j) && w < |ws| && ws[w].pc.Idle?
    requires |ws'| == |ws| && ws' == ws[w := ws'[w]] && ws'[w].pc.Executing? && ws'[w].pc.i == j
    ensures HoldersOk(ws', m, j + 1)
  {
    forall i | m <= i < j + 1
      ensures Held(ws', i)
    {
      if i == j {
        assert ws'[w].pc.i == j;
      } else {
        assert Held(ws, i);
        var v :| 0 <= v < |ws| && (Before(ws[v].pc) || Critical(ws[v].pc)) && ws[v].pc.i == i;
        assert ws'[v] == ws[v];
      }
    }
    forall v | 0 <= v < |ws'|
      ensures PhaseOk(ws'[v].pc, m, j + 1)
    {
      assert PhaseOk(ws[v].pc, m, j);
    }
  }

  lemma TakeBuffer(ws: seq<Worker>, ws': seq<Worker>, w: nat, m: nat, j: nat, maxEvents: int, v: nat)
    requires w < |ws| && v < |ws| && ws[w].pc.Idle?
    requires |ws'| == |ws| && ws' == ws[w := ws'[w]] && ws'[w].pc.Executing? && ws'[w].pc.i == j && ws'[w].buf == []
    requires BufferOk(ws, ws[v], m, maxEvents) && PhaseOk(ws[v].pc, m, j)
    ensures BufferOk(ws', ws'[v], m, maxEvents)
  {
    if v != w && !ws[v].pc.Idle? {
      assert Below(ws', ws[v].pc.i) == Below(ws, ws[v].pc.i);
    }
  }

  lemma TakeKeepsControl(p: Params, s: State, w: nat, x: Exec, s': State)
    requires ControlOk(p, s) && w < |s.workers| && s.workers[w].pc.Idle? && s.jobs != []
    requires s' == SetWorker(s, w, Executing(s.jobs[0], x), []).(jobs := s.jobs[1..])
    ensures ControlOk(p, s')
  {
    var ws, ws' := s.workers, s'.workers;
    var j := s.jobs[0];
    assert j == Taken(p, s) && Taken(p, s') == j + 1;
    forall k | 0 <= k < |s'.jobs|
      ensures s'.jobs[k] == Taken(p, s') + k
    {
      assert s'.jobs[k] == s.jobs[k + 1];
    }
    TakeHolders(ws, ws', w, s.mergeIdx, j);
    forall v | 0 <= v < |ws'|
      ensures BufferOk(ws', ws'[v], s.mergeIdx, MaxEvents(p))
    {
      assert BufferOk(ws, ws[v], s.mergeIdx, MaxEvents(p)) && PhaseOk(ws[v].pc, s.mergeIdx, j);
      TakeBuffer(ws, ws', w, s.mergeIdx, j, MaxEvents(p), v);
    }
    SameEmitters(ws, ws', w, |p.txs|);
  }

  // ----- Subscribing -----

  function Upto(n: nat): (r: set<nat>)
    ensures forall k: nat :: k in r <==> k < n
    ensures |r| == n
  {
    if n == 0 then {} else Upto(n - 1) + {n - 1}
  }

  /** A one-to-one map into the numbers below `n` has at most `n` entries. */
  lemma {:induction false} InjectionBound(f: map<nat, nat>, n: nat)
    requires forall k :: k in f ==> f[k] < n
    requires forall k, m :: k in f && m in f && f[k] == f[m] ==> k == m
    ensures |f| <= n
  {
    if n == 0 {
      assert f == map[];
    } else if k :| k in f && f[k] == n - 1 {
      var g := f - {k};
      InjectionBound(g, n - 1);
      assert f == g[k := n - 1];
    } else {
      InjectionBound(f, n - 1);
    }
  }

  /** Workers with distinct transactions below `i` are at most `i`. */
  lemma HoldersBound(ws: seq<Worker>, m: nat, taken: nat, i: nat)
    requires HoldersOk(ws, m, taken)
    ensures |Below(ws, i)| <= i
  {
    var below := Below(ws, i);
    var f := map w | w in below :: ws[w].pc.i;
    assert f.Keys == below;
    InjectionBound(f, i);
  }

  /** At most limit - 1 other workers, and at most i of them, hold transactions before `i`. */
  lemma BelowBound(p: Params, s: State, w: nat)
    requires ControlOk(p, s) && w < |s.workers| && !s.workers[w].pc.Idle?
    ensures |Below(s.workers, s.workers[w].pc.i)| <= MaxEvents(p)
  {
    var i := s.workers[w].pc.i;
    var below := Below(s.workers, i);
    SubsetCardinality(below, Upto(p.limit) - {w});
    HoldersBound(s.workers, s.mergeIdx, Taken(p, s), i);
  }

  // ----- Increasing and emitting -----

  lemma IncreaseHolders(ws: seq<Worker>, ws': seq<Worker>, w: nat, m: nat, taken: nat)
    requires HoldersOk(ws, m, taken) && w < |ws| && ws[w].pc == Increasing(m)
    requires ws' == ws[w := Worker(Emitting(m, m + 1), ws[w].buf)]
    ensures HoldersOk(ws', m + 1, taken)
  {
    assert PhaseOk(ws[w].pc, m, taken);
    forall j | m + 1 <= j < taken
      ensures Held(ws', j)
    {
      assert Held(ws, j);
      var v :| 0 <= v < |ws| && (Before(ws[v].pc) || Critical(ws[v].pc)) && ws[v].pc.i == j;
      assert ws'[v] == ws[v];
    }
    forall v | 0 <= v < |ws'|
      ensures PhaseOk(ws'[v].pc, m + 1, taken)
    {
      assert PhaseOk(ws[v].pc, m, taken);
    }
  }

  lemma IncreaseBuffer(ws: seq<Worker>, ws': seq<Worker>, w: nat, m: nat, maxEvents: int, v: nat)
    requires w < |ws| && v < |ws| && ws[w].pc == Increasing(m)
    requires ws' == ws[w := Worker(Emitting(m, m + 1), ws[w].buf)]
    requires BufferOk(ws, ws[v], m, maxEvents)
    ensures BufferOk(ws', ws'[v], m + 1, maxEvents)
  {
    if !ws[v].pc.Idle? {
      BelowSameJob(ws, w, ws'[w], ws[v].pc.i);
    }
  }

  lemma IncreaseMain(p: Params, s: State, w: nat, s': State)
    requires MainOk(p, s) && s.mergeIdx < |p.txs| && !s.main.Starting?
    requires w < |s.workers| && s.workers[w].pc == Increasing(s.mergeIdx)
    requires s' == SetWorker(s, w, Emitting(s.mergeIdx, s.mergeIdx + 1), s.workers[w].buf).(mergeIdx := s.mergeIdx + 1)
    ensures MainOk(p, s')
  {
    assert Emitters(s'.workers) == Emitters(s.workers) + {w};
    assert s'.workers[w].pc.Emitting? && s'.workers[w].pc.event == s.mergeIdx + 1;
  }

  lemma IncreaseKeepsControl(p: Params, s: State, w: nat, s': State)
    requires ControlOk(p, s) && w < |s.workers| && s.workers[w].pc == Increasing(s.mergeIdx)
    requires s' == SetWorker(s, w, Emitting(s.mergeIdx, s.mergeIdx + 1), s.workers[w].buf).(mergeIdx := s.mergeIdx + 1)
    ensures ControlOk(p, s')
  {
    var ws, ws' := s.workers, s'.workers;
    var m := s.mergeIdx;
    assert PhaseOk(ws[w].pc, m, Taken(p, s));
    IncreaseHolders(ws, ws', w, m, Taken(p, s));
    forall v | 0 <= v < |ws'|
      ensures BufferOk(ws', ws'[v], m + 1, MaxEvents(p))
    {
      assert BufferOk(ws, ws[v], m, MaxEvents(p));
      IncreaseBuffer(ws, ws', w, m, MaxEvents(p), v);
    }
    IncreaseMain(p, s, w, s');
  }

  lemma EmitHolders(ws: seq<Worker>, ws': seq<Worker>, w: nat, m: nat, taken: nat)
    requires HoldersOk(ws, m, taken) && w < |ws| && ws[w].pc.Emitting?
    requires |ws'| == |ws| && ws'[w].pc.Idle?
    requires forall v :: 0 <= v < |ws| && v != w ==> ws'[v].pc == ws[v].pc
    ensures HoldersOk(ws', m, taken)
  {
    forall j | m <= j < taken
      ensures Held(ws', j)
    {
      assert Held(ws, j);
      var v :| 0 <= v < |ws| && (Before(ws[v].pc) || Critical(ws[v].pc)) && ws[v].pc.i == j;
      assert ws'[v].pc == ws[v].pc;
    }
    forall v | 0 <= v < |ws'|
      ensures PhaseOk(ws'[v].pc, m, taken)
    {
      assert PhaseOk(ws[v].pc, m, taken);
    }
  }

  lemma EmitBuffers(ws: seq<Worker>, ws': seq<Worker>, w: nat, m: nat, maxEvents: int, v: nat)
    requires |ws'| == |ws| && w < |ws| && v < |ws| && v != w
    requires ws[w].pc.Emitting? && ws[w].pc.event <= m && ws'[w].pc.Idle?
    requires forall v :: 0 <= v < |ws| && v != w ==> ws'[v] == OfferWorker(ws[v], ws[w].pc.event)
    requires BufferOk(ws, ws[v], m, maxEvents)
    requires ws[v].pc.Subscribed? || ws[v].pc.Waiting? ==> ws[w].pc.i < ws[v].pc.i
    ensures BufferOk(ws', ws'[v], m, maxEvents)
  {
    if ws[v].pc.Subscribed? || ws[v].pc.Waiting? {
      EmitShrinksBelow(ws, ws', w, ws[v].pc.i);
    }
  }

  lemma EmitMain(p: Params, s: State, s': State, w: nat)
    requires MainOk(p, s) && w < |s.workers| && s.workers[w].pc.Emitting? && s.workers[w].pc.event <= s.mergeIdx
    requires s' == Emitted(p, s, w, s.workers[w].pc.event)
    ensures MainOk(p, s')
  {
    var ws, ws' := s.workers, s'.workers;
    var event := ws[w].pc.event;
    assert Emitters(ws') == Emitters(ws) - {w};
    assert w in Emitters(ws);
    if s.mergeIdx == |p.txs| && Pending(ws, |p.txs|) && event != |p.txs| {
      var v :| 0 <= v < |ws| && ws[v].pc.Emitting? && ws[v].pc.event == |p.txs|;
      assert ws'[v].pc == ws[v].pc;
    }
  }

  lemma EmitKeepsControl(p: Params, s: State, w: nat, s': State)
    requires ControlOk(p, s) && w < |s.workers| && s.workers[w].pc.Emitting?
    requires s' == Emitted(p, s, w, s.workers[w].pc.event)
    ensures ControlOk(p, s')
  {
    var ws, ws' := s.workers, s'.workers;
    assert PhaseOk(ws[w].pc, s.mergeIdx, Taken(p, s));
    EmitHolders(ws, ws', w, s.mergeIdx, Taken(p, s));
    forall v | 0 <= v < |ws'|
      ensures BufferOk(ws', ws'[v], s'.mergeIdx, MaxEvents(p))
    {
      if v != w {
        assert BufferOk(ws, ws[v], s.mergeIdx, MaxEvents(p)) && PhaseOk(ws[v].pc, s.mergeIdx, Taken(p, s));
        EmitBuffers(ws, ws', w, s.mergeIdx, MaxEvents(p), v);
      }
    }
    EmitMain(p, s, s', w);
  }

  lemma EmitShrinksBelow(ws: seq<Worker>, ws': seq<Worker>, w: nat, i: nat)
    requires |ws'| == |ws| && w < |ws| && ws[w].pc.Emitting? && ws[w].pc.i < i && ws'[w].pc.Idle?
    requires forall v :: 0 <= v < |ws| && v != w ==> ws'[v].pc == ws[v].pc
    ensures |Below(ws', i)| == |Below(ws, i)| - 1
  {
    assert w in Below(ws, i);
    assert Below(ws', i) == Below(ws, i) - {w};
  }

  // ----- All steps -----

  /** What a step of a worker that keeps its transaction may change. */
  lemma LocalStep(p: Params, s: State, w: nat, s': State)
    requires InRange(p, s) && Enabled(p, s, WorkerActor(w)) && s' == WorkerStep(p, s, w)
    requires var pc := s.workers[w].pc; Before(pc) || (Critical(pc) && !pc.Increasing?)
    ensures |s'.workers| == |s.workers| && |s'.commits| == |s.commits|
    ensures var (pc, pc') := (s.workers[w].pc, s'.workers[w].pc);
      && (Before(pc') || Critical(pc')) && pc'.i == pc.i
      && (Critical(pc') ==> Critical(pc) || s.mergeIdx == pc.i || (pc.Waiting? && pc.i in s.workers[w].buf))
      && (Critical(pc) ==> Critical(pc'))
      && (pc'.Subscribed? || pc'.Waiting? ==> pc.Executed? || pc.Subscribed? || pc.Waiting?)
    ensures var (buf, buf') := (s.workers[w].buf, s'.workers[w].buf);
      buf' == buf || (buf' == [] && !s.workers[w].pc.Waiting?) || (s.workers[w].pc.Waiting? && buf' == buf[1..])
    ensures s.workers[w].pc.Woken? || s.workers[w].pc.Executed? ==> s'.workers[w].buf == []
    ensures !IsSubscribed(s'.workers[w].pc) ==> !IsSubscribed(s.workers[w].pc) || s.workers[w].pc.Woken?
    ensures s' == SetWorker(s, w, s'.workers[w].pc, s'.workers[w].buf).(
      root := s'.root, commits := s'.commits, merges := s'.merges)
  {
  }

  lemma LocalStepBuffer(p: Params, s: State, w: nat, s': State)
    requires ControlOk(p, s) && InRange(p, s) && Enabled(p, s, WorkerActor(w)) && s' == WorkerStep(p, s, w)
    requires var pc := s.workers[w].pc; Before(pc) || (Critical(pc) && !pc.Increasing?)
    ensures |s'.workers| == |s.workers| && BufferOk(s.workers, s'.workers[w], s.mergeIdx, MaxEvents(p))
  {
    LocalStep(p, s, w, s');
    var buf := s.workers[w].buf;
    assert BufferOk(s.workers, s.workers[w], s.mergeIdx, MaxEvents(p));
    if s.workers[w].pc.Executed? {
      BelowBound(p, s, w);
    } else if s.workers[w].pc.Waiting? {
      assert buf == [buf[0]] + buf[1..];
      assert forall e :: e in buf[1..] ==> e in buf;
    }
  }

  lemma StayKeepsControl(p: Params, s: State, w: nat, s': State)
    requires ControlOk(p, s) && InRange(p, s) && Enabled(p, s, WorkerActor(w)) && s' == WorkerStep(p, s, w)
    requires var pc := s.workers[w].pc; Before(pc) || (Critical(pc) && !pc.Increasing?)
    ensures ControlOk(p, s')
  {
    assert PhaseOk(s.workers[w].pc, s.mergeIdx, Taken(p, s));
    assert BufferOk(s.workers, s.workers[w], s.mergeIdx, MaxEvents(p));
    LocalStep(p, s, w, s');
    LocalStepBuffer(p, s, w, s');
    LocalKeepsControl(p, s, w, s'.workers[w].pc, s'.workers[w].buf, s');
  }

  /** The three kinds of step that change more than the worker's own place in its transaction. */
  lemma OtherSteps(p: Params, s: State, w: nat, s': State)
    requires InRange(p, s) && Enabled(p, s, WorkerActor(w)) && s' == WorkerStep(p, s, w)
    ensures s.workers[w].pc.Idle? ==>
      s' == SetWorker(s, w, Executing(s.jobs[0], NewExec(p.txs[s.jobs[0]])), []).(jobs := s.jobs[1..])
    ensures s.workers[w].pc.Increasing? ==>
      s' == SetWorker(s, w, Emitting(s.workers[w].pc.i, s.mergeIdx + 1), s.workers[w].buf).(mergeIdx := s.mergeIdx + 1)
    ensures s.workers[w].pc.Emitting? ==> s' == Emitted(p, s, w, s.workers[w].pc.event)
  {
  }

  lemma WorkerKeepsControl(p: Params, s: State, w: nat, s': State)
    requires ControlOk(p, s) && InRange(p, s) && Enabled(p, s, WorkerActor(w)) && s' == WorkerStep(p, s, w)
    ensures ControlOk(p, s')
  {
    var pc := s.workers[w].pc;
    assert PhaseOk(pc, s.mergeIdx, Taken(p, s));
    OtherSteps(p, s, w, s');
    if pc.Idle? {
      TakeKeepsControl(p, s, w, NewExec(p.txs[s.jobs[0]]), s');
    } else if pc.Increasing? {
      IncreaseKeepsControl(p, s, w, s');
    } else if pc.Emitting? {
      EmitKeepsControl(p, s, w, s');
    } else {
      StayKeepsControl(p, s, w, s');
    }
  }

  lemma NextKeepsControl(p: Params, s: State, a: Actor, s': State)
    requires ControlOk(p, s) && Next(p, s, a, s')
    ensures ControlOk(p, s')
  {
    if a.MainActor? {
      MainKeepsControl(p, s);
    } else {
      WorkerKeepsControl(p, s, a.w, s');
    }
  }

  lemma {:induction false} RunControl(p: Params, run: seq<State>, actors: seq<Actor>, k: nat)
    requires IsRun(p, run, actors) && k < |run|
    ensures ControlOk(p, run[k])
  {
    if k == 0 {
      InitialControl(p);
    } else {
      RunControl(p, run, actors, k - 1);
      assert StepAt(p, run, actors, k - 1);
      NextKeepsControl(p, run[k - 1], actors[k - 1], run[k]);
    }
  }

  /** Never two at once: at most one worker is between wake-up and increment, and it holds the next transaction. */
  lemma OneMergesAtATime(p: Params, run: seq<State>, actors: seq<Actor>, k: nat, w: nat, v: nat)
    requires IsRun(p, run, actors) && k < |run| && w < v < |run[k].workers|
    ensures !(Critical(run[k].workers[w].pc) && Critical(run[k].workers[v].pc))
    ensures Critical(run[k].workers[w].pc) ==> run[k].workers[w].pc.i == run[k].mergeIdx
  {
    RunControl(p, run, actors, k);
    assert PhaseOk(run[k].workers[w].pc, run[k].mergeIdx, Taken(p, run[k]));
    assert PhaseOk(run[k].workers[v].pc, run[k].mergeIdx, Taken(p, run[k]));
  }
}
