/**
 The parallel block executor: execution/blk_executer.go with emitter/emitter.go.

 The goroutines are one main goroutine and `limit` workers.  A step is one of: one action of a
 chaincode (at most one read of the block's tracker), one merge, one atomic increment, one emit,
 one subscribe or unsubscribe, one channel operation.  Any goroutine whose next operation does not
 block may move next.
 */
module Scheduler {
  import opened Options
  import opened ByteStrings
  import opened StateTrackers
  import opened TxExecution

  /** waitToMerge subscribes with this buffer: execution/blk_executer.go:106 */
  const WAIT_BUFFER := 20

  datatype Params = Params(store: Getter, txs: seq<Tx>, limit: nat)

  /** Where a worker is in executeTxAndMerge, for the transaction it holds. */
  datatype Pc =
    | Idle                          // receiving from jobCh
    | Executing(i: nat, x: Exec)    // executeTx
    | Executed(i: nat, x: Exec)     // about to subscribe
    | Subscribed(i: nat, x: Exec)   // about to read mergeIdx
    | Waiting(i: nat, x: Exec)      // ranging over the events
    | Woken(i: nat, x: Exec)        // about to unsubscribe
    | Checking(i: nat, x: Exec)     // hasDependencyChanges
    | Reexecuting(i: nat, x: Exec)  // executeTx again
    | Committing(i: nat, x: Exec)   // merge, unless the transaction failed
    | Increasing(i: nat)            // atomic increment of mergeIdx
    | Emitting(i: nat, event: nat)  // Emit

  datatype Worker = Worker(pc: Pc, buf: seq<nat>)

  datatype Main = Starting | Sending(next: nat) | Draining | Returned

  datatype State = State(
    root: map<Bytes, Value>, mergeIdx: nat, commits: seq<Option<string>>,
    workers: seq<Worker>, jobs: seq<nat>, main: Main, mainBuf: seq<nat>,
    merges: seq<nat>)  // the transactions merged, in order

  datatype Actor = MainActor | WorkerActor(w: nat)

  predicate IsSubscribed(pc: Pc)
  {
    pc.Subscribed? || pc.Waiting? || pc.Woken?
  }

  /** emitter/emitter.go:33-38: a full buffer drops the event. */
  function Offer(buf: seq<nat>, capacity: nat, event: nat): seq<nat>
  {
    if |buf| < capacity then buf + [event] else buf
  }

  /** emitter/emitter.go:54-61 */
  function Capacity(buffer: nat): nat
  {
    if buffer > 5 then buffer else 5
  }

  function OfferWorker(w: Worker, event: nat): Worker
  {
    if IsSubscribed(w.pc) then w.(buf := Offer(w.buf, Capacity(WAIT_BUFFER), event)) else w
  }

  /** The main goroutine is subscribed until it returns. */
  function OfferMain(p: Params, s: State, event: nat): seq<nat>
  {
    if s.main.Sending? || s.main.Draining? then Offer(s.mainBuf, Capacity(|p.txs|), event) else s.mainBuf
  }

  function Initial(p: Params): State
  {
    State(map[], 0, seq(|p.txs|, _ => None), seq(p.limit, _ => Worker(Idle, [])), [], Starting, [], [])
  }

  predicate Enabled(p: Params, s: State, a: Actor)
  {
    match a
    case MainActor =>
      (match s.main
       case Starting => true
       case Sending(_) => |s.jobs| < p.limit
       case Draining => s.mainBuf != []
       case Returned => false)
    case WorkerActor(w) =>
      && w < |s.workers|
      && match s.workers[w].pc
         case Idle => s.jobs != []
         case Waiting(_, _) => s.workers[w].buf != []
         case _ => true
  }

  predicate InRange(p: Params, s: State)
  {
    && |s.commits| == |p.txs|
    && (forall w :: 0 <= w < |s.workers| && !s.workers[w].pc.Idle? ==> s.workers[w].pc.i < |p.txs|)
    && (forall k :: 0 <= k < |s.jobs| ==> s.jobs[k] < |p.txs|)
  }

  /** execution/blk_executer.go:68-91 */
  function MainStep(p: Params, s: State): State
  {
    match s.main
    case Starting => s.(main := if p.txs == [] then Returned else Sending(0))
    case Sending(k) => s.(jobs := s.jobs + [k], main := if k + 1 >= |p.txs| then Draining else Sending(k + 1))
    case Draining =>
      if s.mainBuf == [] then s else
      s.(mainBuf := s.mainBuf[1..], main := if s.mainBuf[0] == |p.txs| then Returned else Draining)
    case Returned => s
  }

  function SetWorker(s: State, w: nat, pc: Pc, buf: seq<nat>): State
    requires w < |s.workers|
  {
    s.(workers := s.workers[w := Worker(pc, buf)])
  }

  /** execution/blk_executer.go:93-151 */
  function WorkerStep(p: Params, s: State, w: nat): State
    requires InRange(p, s) && w < |s.workers| && Enabled(p, s, WorkerActor(w))
  {
    var buf := s.workers[w].buf;
    match s.workers[w].pc
    case Idle => SetWorker(s, w, Executing(s.jobs[0], NewExec(p.txs[s.jobs[0]])), []).(jobs := s.jobs[1..])
    case Executing(i, x) =>
      if x.error.None? then SetWorker(s, w, Executing(i, Act(p.txs[i], x, s.root, p.store)), buf)
      else SetWorker(s, w, Executed(i, x), buf).(commits := s.commits[i := x.error])
    case Executed(i, x) => SetWorker(s, w, Subscribed(i, x), [])
    case Subscribed(i, x) => SetWorker(s, w, if s.mergeIdx == i then Woken(i, x) else Waiting(i, x), buf)
    case Waiting(i, x) => SetWorker(s, w, if buf[0] == i then Woken(i, x) else Waiting(i, x), buf[1..])
    case Woken(i, x) => SetWorker(s, w, Checking(i, x), [])
    case Checking(i, x) =>
      var again := Root(s.root).Conflicts(x.top);
      SetWorker(s, w, if again then Reexecuting(i, NewExec(p.txs[i])) else Committing(i, x), buf)
    case Reexecuting(i, x) =>
      if x.error.None? then SetWorker(s, w, Reexecuting(i, Act(p.txs[i], x, s.root, p.store)), buf)
      else SetWorker(s, w, Committing(i, x), buf).(commits := s.commits[i := x.error])
    case Committing(i, x) =>
      SetWorker(s, w, Increasing(i), buf).(
        root := if s.commits[i] == Some("") then Merged(Root(s.root), x.top).changes else s.root,
        merges := s.merges + [i])
    case Increasing(i) => SetWorker(s, w, Emitting(i, s.mergeIdx + 1), buf).(mergeIdx := s.mergeIdx + 1)
    case Emitting(i, event) => Emitted(p, s, w, event)
  }

  function Emitted(p: Params, s: State, w: nat, event: nat): State
    requires w < |s.workers|
  {
    var told := seq(|s.workers|, k requires 0 <= k < |s.workers| => OfferWorker(s.workers[k], event));
    s.(workers := told[w := Worker(Idle, [])], mainBuf := OfferMain(p, s, event))
  }

  ghost predicate Next(p: Params, s: State, a: Actor, s': State)
  {
    && InRange(p, s) && Enabled(p, s, a)
    && s' == if a.MainActor? then MainStep(p, s) else WorkerStep(p, s, a.w)
  }

  ghost predicate IsRun(p: Params, run: seq<State>, actors: seq<Actor>)
  {
    && |run| == |actors| + 1
    && run[0] == Initial(p)
    && forall k :: 0 <= k < |actors| ==> StepAt(p, run, actors, k)
  }

  ghost predicate StepAt(p: Params, run: seq<State>, actors: seq<Actor>, k: nat)
    requires |run| == |actors| + 1 && k < |actors|
  {
    Next(p, run[k], actors[k], run[k + 1])
  }

  // ----- Control: who holds which transaction -----

  predicate Before(pc: Pc)
  {
    pc.Executing? || pc.Executed? || pc.Subscribed? || pc.Waiting?
  }

  /** Between being woken and increasing mergeIdx: the worker whose turn it is. */
  predicate Critical(pc: Pc)
  {
    pc.Woken? || pc.Checking? || pc.Reexecuting? || pc.Committing? || pc.Increasing?
  }

  function Sent(p: Params, s: State): nat
  {
    match s.main
    case Starting => 0
    case Sending(k) => k
    case _ => |p.txs|
  }

  predicate PhaseOk(pc: Pc, mergeIdx: nat, taken: nat)
  {
    && (!pc.Idle? ==> pc.i < taken)
    && (Before(pc) ==> mergeIdx <= pc.i)
    && (Critical(pc) ==> mergeIdx == pc.i)
    && (pc.Emitting? ==> pc.event == pc.i + 1 <= mergeIdx)
  }

  ghost predicate Held(ws: seq<Worker>, i: nat)
  {
    exists w :: 0 <= w < |ws| && (Before(ws[w].pc) || Critical(ws[w].pc)) && ws[w].pc.i == i
  }

  ghost predicate Pending(ws: seq<Worker>, event: nat)
  {
    exists w :: 0 <= w < |ws| && ws[w].pc.Emitting? && ws[w].pc.event == event
  }

  /** Each transaction is held by at most one worker, and every one taken but not merged by exactly one. */
  ghost predicate HoldersOk(ws: seq<Worker>, mergeIdx: nat, taken: nat)
  {
    && mergeIdx <= taken
    && (forall w :: 0 <= w < |ws| ==> PhaseOk(ws[w].pc, mergeIdx, taken))
    && (forall w, v :: 0 <= w < v < |ws| && !ws[w].pc.Idle? && !ws[v].pc.Idle? ==> ws[w].pc.i != ws[v].pc.i)
    && (forall i :: mergeIdx <= i < taken ==> Held(ws, i))
  }

  function Taken(p: Params, s: State): int
  {
    Sent(p, s) - |s.jobs|
  }

  ghost predicate JobsOk(p: Params, s: State)
  {
    && |s.workers| == p.limit
    && |s.commits| == |p.txs|
    && Sent(p, s) <= |p.txs|
    && (s.main.Sending? ==> s.main.next < |p.txs|)
    && 0 <= Taken(p, s)
    && |s.jobs| <= p.limit
    && (forall k :: 0 <= k < |s.jobs| ==> s.jobs[k] == Taken(p, s) + k)
    && (s.main.Starting? ==> s.jobs == [])
    && HoldersOk(s.workers, s.mergeIdx, Taken(p, s))
  }

  // ----- Delivery: nobody misses the event it waits for -----

  /** Workers that hold a transaction before `i`. */
  function Below(ws: seq<Worker>, i: nat): set<nat>
  {
    set w | 0 <= w < |ws| && !ws[w].pc.Idle? && ws[w].pc.i < i
  }

  function Emitters(ws: seq<Worker>): set<nat>
  {
    set w | 0 <= w < |ws| && ws[w].pc.Emitting?
  }

  function Min(a: int, b: int): int
  {
    if a < b then a else b
  }

  /** How many events can reach one waiter, at most. */
  function MaxEvents(p: Params): int
  {
    Min(p.limit, |p.txs|) - 1
  }

  ghost predicate BufferOk(ws: seq<Worker>, w: Worker, mergeIdx: nat, maxEvents: int)
  {
    && (!IsSubscribed(w.pc) ==> w.buf == [])
    && (forall e :: e in w.buf ==> e <= mergeIdx)
    && (w.pc.Subscribed? || w.pc.Waiting? ==> |w.buf| + |Below(ws, w.pc.i)| <= maxEvents)
  }

  ghost predicate BuffersOk(p: Params, s: State)
  {
    forall w :: 0 <= w < |s.workers| ==> BufferOk(s.workers, s.workers[w], s.mergeIdx, MaxEvents(p))
  }

  ghost predicate MainOk(p: Params, s: State)
  {
    && s.mergeIdx <= |p.txs|
    && |s.mainBuf| + |Emitters(s.workers)| <= s.mergeIdx
    && (forall e :: e in s.mainBuf ==> e <= s.mergeIdx)
    && (s.main.Starting? ==> s.mergeIdx == 0)
    && (s.main.Returned? ==> s.mergeIdx == |p.txs|)
    && (!s.main.Returned? && !s.main.Starting? && s.mergeIdx == |p.txs| ==>
          |p.txs| in s.mainBuf || Pending(s.workers, |p.txs|))
  }

  ghost predicate ControlOk(p: Params, s: State)
  {
    JobsOk(p, s) && BuffersOk(p, s) && MainOk(p, s)
  }

  /** A waiter whose turn has come has the event for it, or the event is about to be emitted. */
  ghost predicate WakeOk(ws: seq<Worker>, mergeIdx: nat)
  {
    forall w :: 0 <= w < |ws| && ws[w].pc.Waiting? && ws[w].pc.i == mergeIdx ==>
      mergeIdx in ws[w].buf || Pending(ws, mergeIdx)
  }
}
