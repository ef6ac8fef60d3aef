/**
 Execution of one transaction: execution/tx_executer.go.

 Chaincode is deterministic: its next action is a function of the answers it got so far.  A
 transaction works on two trackers spawned from its own tracker, one under the code registry's
 address and one under the address of the chaincode it runs, and merges them only when it succeeds.
 Timeouts are not modelled.
 */
module TxExecution {
  import opened Options
  import opened ByteStrings
  import opened StateTrackers

  datatype Child = Registry | Code

  datatype Action =
    | Get(child: Child, key: Bytes)
    | Set(child: Child, key: Bytes, value: Value)
    | Finish
    | Fail(error: string)

  /** The answers so far: the value read by a Get, nil for a Set. */
  type History = seq<Value>

  /** A deployment initialises code at its own hash; an invocation runs the code at `addr`. */
  datatype Tx = Tx(deploy: bool, addr: Bytes, program: History -> Action)

  /** execution/code_registry.go:14 */
  const CODE_REGISTRY_ADDR: Bytes := [
    0, 0, 0, 0, 0, 0, 0, 0, 0, 0, 0, 0, 0, 0, 0, 0,
    0, 0, 0, 0, 0, 0, 0, 0, 0, 0, 0, 0, 0, 0, 0, 0]

  /** A transaction in execution; `error` is set when it ends, and empty for success. */
  datatype Exec = Exec(hist: History, reg: Tracker, code: Tracker, top: Tracker, error: Option<string>) {
    function Pick(child: Child): Tracker { if child.Registry? then reg else code }
    function Put(child: Child, t: Tracker): Exec { if child.Registry? then this.(reg := t) else this.(code := t) }
    function Steps(): nat { |hist| + if error.Some? then 1 else 0 }
  }

  function NewExec(tx: Tx): Exec
  {
    Exec([], Spawned(CODE_REGISTRY_ADDR), Spawned(tx.addr), Spawned([]), None)
  }

  /** The tracker of the whole block. */
  function Root(changes: map<Bytes, Value>): Tracker
  {
    Tracker([], false, {}, changes)
  }

  /** One action of the chaincode, against the block changes `root` as they are at that moment. */
  function Act(tx: Tx, x: Exec, root: map<Bytes, Value>, store: Getter): Exec
  {
    if x.error.Some? then x else
    match tx.program(x.hist)
    case Get(child, key) =>
      var stack := [x.Pick(child), x.top, Root(root)];
      var after := AfterRead(stack, key);
      x.Put(child, after[0]).(hist := x.hist + [Read(stack, store, key)], top := after[1])
    case Set(child, key, value) =>
      x.Put(child, x.Pick(child).SetState(key, value)).(hist := x.hist + [None])
    case Finish =>
      var top := if tx.deploy then Merged(x.top, x.reg) else x.top;
      x.(top := Merged(top, x.code), error := Some(""))
    case Fail(error) => x.(error := Some(error))
  }

  /** `n` actions with no interference. */
  function Run(tx: Tx, root: map<Bytes, Value>, store: Getter, n: nat): Exec
  {
    if n == 0 then NewExec(tx) else Act(tx, Run(tx, root, store, n - 1), root, store)
  }

  /** An execution among others: the block's changes are `roots[i]` when its `i`th action is made. */
  function RunThrough(tx: Tx, roots: seq<map<Bytes, Value>>, store: Getter): Exec
  {
    if roots == [] then NewExec(tx) else
    var k := |roots| - 1;
    Act(tx, RunThrough(tx, roots[..k], store), roots[k], store)
  }

  lemma {:induction false} RunIsRunThrough(tx: Tx, root: map<Bytes, Value>, store: Getter, n: nat)
    ensures Run(tx, root, store, n) == RunThrough(tx, seq(n, _ => root), store)
  {
    if n > 0 {
      RunIsRunThrough(tx, root, store, n - 1);
      assert seq(n, _ => root)[..n - 1] == seq(n - 1, _ => root);
    }
  }

  /** mergeTxStateChanges: changes are merged for an empty error. */
  function Applied(root: map<Bytes, Value>, x: Exec): map<Bytes, Value>
  {
    if x.error == Some("") then Merged(Root(root), x.top).changes else root
  }

  // ----- What an execution can leave behind -----

  /** The trackers keep the prefixes they were spawned with, and write under them. */
  ghost predicate Separate(tx: Tx, x: Exec)
  {
    && x.reg.prefix == CODE_REGISTRY_ADDR && OwnKeys(x.reg)
    && x.code.prefix == tx.addr && OwnKeys(x.code)
    && x.top.prefix == []
  }

  lemma ActSeparate(tx: Tx, x: Exec, root: map<Bytes, Value>, store: Getter)
    requires Separate(tx, x)
    ensures Separate(tx, Act(tx, x, root, store))
  {
    if x.error.None? {
      match tx.program(x.hist)
      case Get(child, key) =>
        var stack := [x.Pick(child), x.top, Root(root)];
        ReadOwnKeys(stack, key, 0);
        ReadOwnKeys(stack, key, 1);
      case Set(child, key, value) => SetStateOwnKeys(x.Pick(child), key, value);
      case Finish =>
        MergedOwnKeys(x.top, x.reg);
        MergedOwnKeys(if tx.deploy then Merged(x.top, x.reg) else x.top, x.code);
      case Fail(_) =>
    }
  }

  lemma {:induction false} RunSeparate(tx: Tx, roots: seq<map<Bytes, Value>>, store: Getter)
    ensures Separate(tx, RunThrough(tx, roots, store))
  {
    if roots == [] {
      SpawnedOwnKeys(CODE_REGISTRY_ADDR);
      SpawnedOwnKeys(tx.addr);
    } else {
      var k := |roots| - 1;
      RunSeparate(tx, roots[..k], store);
      ActSeparate(tx, RunThrough(tx, roots[..k], store), roots[k], store);
    }
  }

  /**
   In every execution, whatever the block does meanwhile, the code registry and a chaincode at another
   address of the same length write disjoint keys, so the order of their merges does not matter.
   */
  lemma ChildrenDisjoint(tx: Tx, roots: seq<map<Bytes, Value>>, store: Getter)
    requires |tx.addr| == |CODE_REGISTRY_ADDR| && tx.addr != CODE_REGISTRY_ADDR
    ensures var x := RunThrough(tx, roots, store);
      && x.reg.changes.Keys !! x.code.changes.Keys
      && Merged(Merged(x.top, x.reg), x.code) == Merged(Merged(x.top, x.code), x.reg)
  {
    var x := RunThrough(tx, roots, store);
    RunSeparate(tx, roots, store);
    DistinctPrefixesDisjoint(x.top, x.reg, x.code);
  }

  /** Until it finishes a transaction's own tracker has no changes, and what it ended with is its last action. */
  ghost predicate Outcome(tx: Tx, x: Exec)
  {
    var last := tx.program(x.hist);
    && (x.error.None? ==> x.top.changes == map[])
    && (x.error.Some? ==> last.Finish? || last.Fail?)
    && (x.error.Some? && last.Finish? ==> x.error == Some(""))
    && (x.error.Some? && last.Fail? ==> x.error == Some(last.error) && x.top.changes == map[])
  }

  lemma {:induction false} RunOutcome(tx: Tx, roots: seq<map<Bytes, Value>>, store: Getter)
    ensures Outcome(tx, RunThrough(tx, roots, store))
  {
    if roots != [] {
      var k := |roots| - 1;
      var x := RunThrough(tx, roots[..k], store);
      RunOutcome(tx, roots[..k], store);
      if x.error.None? && tx.program(x.hist).Get? {
        var a := tx.program(x.hist);
        ReadOwnKeys([x.Pick(a.child), x.top, Root(roots[k])], a.key, 1);
      }
    }
  }

  /** An execution that has ended records the empty error exactly when it finished or failed with an empty message. */
  lemma EmptyErrorIff(tx: Tx, roots: seq<map<Bytes, Value>>, store: Getter)
    requires RunThrough(tx, roots, store).error.Some?
    ensures var x := RunThrough(tx, roots, store);
      x.error == Some("") <==> tx.program(x.hist).Finish? || tx.program(x.hist) == Fail("")
  {
    RunOutcome(tx, roots, store);
  }

  /** A transaction that failed, with whatever message, leaves the block's changes as they were. */
  lemma FailedChangesNothing(tx: Tx, roots: seq<map<Bytes, Value>>, store: Getter, root: map<Bytes, Value>)
    requires var x := RunThrough(tx, roots, store); x.error.Some? && tx.program(x.hist).Fail?
    ensures Applied(root, RunThrough(tx, roots, store)) == root
  {
    RunOutcome(tx, roots, store);
    assert Lift([], map[]) == map[];
  }

  /** Chaincode that fails at once with an empty message is recorded as a success that changed nothing. */
  lemma EmptyFailureRecorded(addr: Bytes, root: map<Bytes, Value>, store: Getter)
    ensures var tx := Tx(false, addr, (h: History) => Fail(""));
      var x := Run(tx, root, store, 1);
      tx.program(x.hist).Fail? && x.error == Some("") && Applied(root, x) == root
  {
    var tx := Tx(false, addr, (h: History) => Fail(""));
    RunIsRunThrough(tx, root, store, 1);
    FailedChangesNothing(tx, seq(1, _ => root), store, root);
  }

  // ----- When interleaved reads were harmless -----

  /** The read of a chaincode key through its two trackers and the block tracker, spelled out. */
  lemma ReadThree(child: Tracker, top: Tracker, root: map<Bytes, Value>, store: Getter, key: Bytes)
    requires top.prefix == []
    ensures var k := child.prefix + key;
      && Read([child, top, Root(root)], store, key) ==
         (if k in child.changes then child.changes[k]
          else if k in top.changes then top.changes[k]
          else if k in root then root[k]
          else store(k))
      && AfterRead([child, top, Root(root)], key)[0] == child.Depend(k)
      && AfterRead([child, top, Root(root)], key)[1] == (if k in child.changes then top else top.Depend(k))
      && AfterRead([child, top, Root(root)], key)[2] == Root(root)
  {
    var k := child.prefix + key;
    var s0 := [child, top, Root(root)];
    var s1 := s0[1..];
    var s2 := s1[1..];
    assert s1 == [top, Root(root)] && s2 == [Root(root)] && s2[1..] == [];
    assert [] + k == k;
    assert Read(s2, store, k) == if k in root then root[k] else store(k);
    assert AfterRead(s2, k) == s2;
    assert AfterRead(s1, k) == [top.Depend(k), Root(root)];
    assert Read(s1, store, k) == if k in top.changes then top.changes[k] else Read(s2, store, k);
  }

  /** An execution as its trackers were spawned. */
  predicate Shape(x: Exec)
  {
    x.top.prefix == [] && x.top.trackDep
  }

  lemma ActShape(tx: Tx, x: Exec, root: map<Bytes, Value>, store: Getter)
    requires Shape(x)
    ensures var y := Act(tx, x, root, store);
      && Shape(y)
      && x.top.deps <= y.top.deps
      && y.Steps() == x.Steps() + if x.error.Some? then 0 else 1
  {
    if x.error.None? {
      var a := tx.program(x.hist);
      if a.Get? {
        ReadThree(x.Pick(a.child), x.top, root, store, a.key);
      }
    }
  }

  lemma {:induction false} RunShape(tx: Tx, root: map<Bytes, Value>, store: Getter, n: nat)
    ensures Shape(Run(tx, root, store, n))
    ensures Run(tx, root, store, n).Steps() <= n
    ensures Run(tx, root, store, n).error.None? ==> Run(tx, root, store, n).Steps() == n
  {
    if n > 0 {
      RunShape(tx, root, store, n - 1);
      ActShape(tx, Run(tx, root, store, n - 1), root, store);
    }
  }

  /** An action whose recorded dependencies neither block state has changed does not tell them apart. */
  lemma ActSameRoot(tx: Tx, x: Exec, r1: map<Bytes, Value>, r2: map<Bytes, Value>, store: Getter)
    requires Shape(x)
    requires Act(tx, x, r1, store).top.deps !! r1.Keys
    requires Act(tx, x, r1, store).top.deps !! r2.Keys
    ensures Act(tx, x, r1, store) == Act(tx, x, r2, store)
  {
    if x.error.None? {
      var a := tx.program(x.hist);
      if a.Get? {
        ReadThree(x.Pick(a.child), x.top, r1, store, a.key);
        ReadThree(x.Pick(a.child), x.top, r2, store, a.key);
        var k := x.Pick(a.child).prefix + a.key;
        var y := Act(tx, x, r1, store);
        if k !in x.Pick(a.child).changes {
          assert k in y.top.deps;
        }
      }
    }
  }

  lemma {:induction false} RunSameRoot(tx: Tx, r1: map<Bytes, Value>, r2: map<Bytes, Value>, store: Getter, n: nat)
    requires Run(tx, r1, store, n).top.deps !! r1.Keys
    requires Run(tx, r1, store, n).top.deps !! r2.Keys
    ensures Run(tx, r1, store, n) == Run(tx, r2, store, n)
  {
    if n > 0 {
      var x := Run(tx, r1, store, n - 1);
      RunShape(tx, r1, store, n - 1);
      ActShape(tx, x, r1, store);
      RunSameRoot(tx, r1, r2, store, n - 1);
      ActSameRoot(tx, x, r1, r2, store);
    }
  }

  /**
   What an execution interleaved with merges still promises: as long as none of its dependencies is
   among the block's changes, it is the undisturbed execution on those changes.
   */
  ghost predicate Replayable(tx: Tx, x: Exec, root: map<Bytes, Value>, store: Getter)
  {
    && Shape(x)
    && (x.top.deps !! root.Keys ==> x == Run(tx, root, store, x.Steps()))
  }

  lemma NewExecReplayable(tx: Tx, root: map<Bytes, Value>, store: Getter)
    ensures Replayable(tx, NewExec(tx), root, store)
  {
    assert NewExec(tx) == Run(tx, root, store, 0);
  }

  lemma ActReplayable(tx: Tx, x: Exec, root: map<Bytes, Value>, store: Getter)
    requires Replayable(tx, x, root, store)
    ensures Replayable(tx, Act(tx, x, root, store), root, store)
  {
    ActShape(tx, x, root, store);
  }

  /** Merging more changes into the block keeps every pending execution replayable. */
  lemma GrowReplayable(tx: Tx, x: Exec, root: map<Bytes, Value>, root': map<Bytes, Value>, store: Getter)
    requires Replayable(tx, x, root, store) && root.Keys <= root'.Keys
    ensures Replayable(tx, x, root', store)
  {
    if x.top.deps !! root'.Keys {
      RunSameRoot(tx, root, root', store, x.Steps());
    }
  }

  /** An execution that has ended stays as it is. */
  lemma {:induction false} RunStays(tx: Tx, root: map<Bytes, Value>, store: Getter, n: nat, m: nat)
    requires n <= m && Run(tx, root, store, n).error.Some?
    ensures Run(tx, root, store, m) == Run(tx, root, store, n)
  {
    if n < m {
      RunStays(tx, root, store, n, m - 1);
    }
  }
}
