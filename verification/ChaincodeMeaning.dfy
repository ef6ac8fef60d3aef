/**
 What an execution answers its chaincode and leaves behind, in terms of the chaincode's own actions:
 a read is answered by the last write before it, and the writes kept are the last ones.
 */
module ChaincodeMeaning {
  import opened Options
  import opened ByteStrings
  import opened StateTrackers
  import opened TxExecution

  /** Where the keys of a child tracker live: execution/tx_executer.go:98-112. */
  function PrefixOf(tx: Tx, child: Child): Bytes
  {
    if child.Registry? then CODE_REGISTRY_ADDR else tx.addr
  }

  /** The action made after the first `j` answers sets this key through this child. */
  predicate Sets(tx: Tx, h: History, j: nat, child: Child, key: Bytes)
    requires j < |h|
  {
    var a := tx.program(h[..j]);
    a.Set? && a.child == child && a.key == key
  }

  /** It does, and no later action among the answered ones does. */
  ghost predicate LastSet(tx: Tx, h: History, j: nat, child: Child, key: Bytes)
  {
    j < |h| && Sets(tx, h, j, child, key) && forall i :: j < i < |h| ==> !Sets(tx, h, i, child, key)
  }

  ghost predicate NeverSet(tx: Tx, h: History, child: Child, key: Bytes)
  {
    forall i :: 0 <= i < |h| ==> !Sets(tx, h, i, child, key)
  }

  /** The value last set, searched from the end. */
  ghost function Last(tx: Tx, h: History, child: Child, key: Bytes): Option<Value>
  {
    if h == [] then None else
    var a := tx.program(h[..|h| - 1]);
    if a.Set? && a.child == child && a.key == key then Some(a.value) else Last(tx, h[..|h| - 1], child, key)
  }

  lemma {:induction false} LastSetUnique(tx: Tx, h: History, child: Child, key: Bytes)
    ensures NeverSet(tx, h, child, key) ==> Last(tx, h, child, key) == None
    ensures !NeverSet(tx, h, child, key) ==> exists j: nat :: LastSet(tx, h, j, child, key)
    ensures forall j: nat :: LastSet(tx, h, j, child, key) ==>
      Last(tx, h, child, key) == Some(tx.program(h[..j]).value)
  {
    if h != [] {
      var k := |h| - 1;
      var g := h[..k];
      LastSetUnique(tx, g, child, key);
      forall i | 0 <= i < k
        ensures Sets(tx, g, i, child, key) <==> Sets(tx, h, i, child, key)
        ensures g[..i] == h[..i]
      {
        assert g[..i] == h[..i];
      }
      if Sets(tx, h, k, child, key) {
        assert LastSet(tx, h, k, child, key);
      } else {
        forall j: nat | j < k
          ensures LastSet(tx, h, j, child, key) <==> LastSet(tx, g, j, child, key)
        {
        }
      }
    }
  }

  /** Each action but the last of an ended execution gets one answer, and an answer is never changed. */
  lemma {:induction false} AnswersStand(tx: Tx, roots: seq<map<Bytes, Value>>, store: Getter, j: nat)
    requires j <= |RunThrough(tx, roots, store).hist|
    ensures var x := RunThrough(tx, roots, store);
      && |x.hist| <= |roots|
      && (x.error.None? <==> |x.hist| == |roots|)
      && RunThrough(tx, roots[..j], store).hist == x.hist[..j]
  {
    if roots != [] {
      var k := |roots| - 1;
      var x := RunThrough(tx, roots, store);
      var y := RunThrough(tx, roots[..k], store);
      AnswersStand(tx, roots[..k], store, if j <= |y.hist| then j else 0);
      if j <= |y.hist| {
        assert roots[..k][..j] == roots[..j];
        assert x.hist[..j] == y.hist[..j];
      } else {
        assert j == |roots|;
        assert roots[..j] == roots && x.hist[..j] == x.hist;
      }
    } else {
      assert roots[..j] == roots;
    }
  }

  /** A child tracker holds, under its prefix, exactly the value last set for each key. */
  ghost predicate Holds(tx: Tx, h: History, child: Child, t: Tracker)
  {
    forall key :: KeyHeld(tx, h, child, t, key)
  }

  ghost predicate KeyHeld(tx: Tx, h: History, child: Child, t: Tracker, key: Bytes)
  {
    var k := t.prefix + key;
    Last(tx, h, child, key) == if k in t.changes then Some(t.changes[k]) else None
  }

  lemma ActHolds(tx: Tx, x: Exec, root: map<Bytes, Value>, store: Getter, y: Exec, child: Child)
    requires Separate(tx, x) && y == Act(tx, x, root, store) && Holds(tx, x.hist, child, x.Pick(child))
    ensures Holds(tx, y.hist, child, y.Pick(child))
  {
    if x.error.None? {
      var a := tx.program(x.hist);
      if a.Get? {
        ReadThree(x.Pick(a.child), x.top, root, store, a.key);
      }
      forall key
        ensures KeyHeld(tx, y.hist, child, y.Pick(child), key)
      {
        assert KeyHeld(tx, x.hist, child, x.Pick(child), key);
        if a.Get? || a.Set? {
          assert y.hist[..|y.hist| - 1] == x.hist;
        }
        if a.Set? && x.Pick(child).prefix + key == x.Pick(child).prefix + a.key {
          PrefixCancels(x.Pick(child).prefix, key, a.key);
        }
      }
    }
  }

  lemma {:induction false} RunHolds(tx: Tx, roots: seq<map<Bytes, Value>>, store: Getter, child: Child)
    ensures var x := RunThrough(tx, roots, store);
      Holds(tx, x.hist, child, x.Pick(child)) && x.Pick(child).prefix == PrefixOf(tx, child) && OwnKeys(x.Pick(child))
  {
    RunSeparate(tx, roots, store);
    if roots == [] {
      forall key
        ensures KeyHeld(tx, [], child, NewExec(tx).Pick(child), key)
      {
      }
    } else {
      var k := |roots| - 1;
      RunHolds(tx, roots[..k], store, child);
      RunSeparate(tx, roots[..k], store);
      ActHolds(tx, RunThrough(tx, roots[..k], store), roots[k], store, RunThrough(tx, roots, store), child);
    }
  }

  /**
   What the `j`th action is answered when the block's changes are `root`: a read gets the value its key was last
   set to through the same child before, and otherwise what the block holds, or else the storage; a write gets nil.
   */
  ghost predicate Answered(tx: Tx, h: History, j: nat, root: map<Bytes, Value>, store: Getter)
    requires j < |h|
  {
    var before := h[..j];
    var a := tx.program(before);
    && (a.Get? || (a.Set? && h[j] == None))
    && (a.Get? && NeverSet(tx, before, a.child, a.key) ==>
          var k := PrefixOf(tx, a.child) + a.key;
          h[j] == if k in root then root[k] else store(k))
    && (a.Get? ==> forall i: nat :: LastSet(tx, before, i, a.child, a.key) ==> h[j] == tx.program(before[..i]).value)
  }

  /** Every answer in every execution, whatever the block does meanwhile. */
  lemma ReadsLastWrite(tx: Tx, roots: seq<map<Bytes, Value>>, store: Getter, j: nat)
    requires j < |RunThrough(tx, roots, store).hist|
    ensures j < |roots| && Answered(tx, RunThrough(tx, roots, store).hist, j, roots[j], store)
  {
    var h := RunThrough(tx, roots, store).hist;
    AnswersStand(tx, roots, store, j);
    AnswersStand(tx, roots, store, j + 1);
    var x := RunThrough(tx, roots[..j], store);
    var y := RunThrough(tx, roots[..j + 1], store);
    assert roots[..j + 1][..j] == roots[..j];
    assert y == Act(tx, x, roots[j], store);
    assert x.error.None?;
    assert h[..j + 1][j] == h[j];
    if tx.program(x.hist).Get? {
      ReadAnswer(tx, roots[..j], store, roots[j]);
    }
  }

  /** The answer to a read as the next action. */
  lemma ReadAnswer(tx: Tx, roots: seq<map<Bytes, Value>>, store: Getter, root: map<Bytes, Value>)
    requires var x := RunThrough(tx, roots, store); x.error.None? && tx.program(x.hist).Get?
    ensures var x := RunThrough(tx, roots, store);
      var a := tx.program(x.hist);
      var k := PrefixOf(tx, a.child) + a.key;
      var y := Act(tx, x, root, store);
      && |y.hist| == |x.hist| + 1
      && (NeverSet(tx, x.hist, a.child, a.key) ==> y.hist[|x.hist|] == if k in root then root[k] else store(k))
      && (forall i: nat :: LastSet(tx, x.hist, i, a.child, a.key) ==>
            y.hist[|x.hist|] == tx.program(x.hist[..i]).value)
  {
    var x := RunThrough(tx, roots, store);
    var a := tx.program(x.hist);
    RunSeparate(tx, roots, store);
    RunOutcome(tx, roots, store);
    RunHolds(tx, roots, store, a.child);
    assert KeyHeld(tx, x.hist, a.child, x.Pick(a.child), a.key);
    ReadThree(x.Pick(a.child), x.top, root, store, a.key);
    LastSetUnique(tx, x.hist, a.child, a.key);
  }

  /** The action made after the first `j` answers reads `full` from outside the transaction. */
  ghost predicate ReadsOutside(tx: Tx, h: History, j: nat, full: Bytes)
    requires j < |h|
  {
    var a := tx.program(h[..j]);
    a.Get? && full == PrefixOf(tx, a.child) + a.key && NeverSet(tx, h[..j], a.child, a.key)
  }

  lemma ActDepends(tx: Tx, roots: seq<map<Bytes, Value>>, store: Getter, x: Exec, root: map<Bytes, Value>, y: Exec)
    requires x == RunThrough(tx, roots, store) && x.error.None? && y == Act(tx, x, root, store)
    requires x.top.trackDep
    ensures y.top.trackDep
    ensures tx.program(x.hist).Get? || tx.program(x.hist).Set? ==>
      |y.hist| == |x.hist| + 1 && y.hist[..|x.hist|] == x.hist
    ensures forall full :: full in y.top.deps <==>
      full in x.top.deps || (|y.hist| == |x.hist| + 1 && ReadsOutside(tx, y.hist, |x.hist|, full))
  {
    var a := tx.program(x.hist);
    if a.Get? {
      RunSeparate(tx, roots, store);
      RunHolds(tx, roots, store, a.child);
      assert KeyHeld(tx, x.hist, a.child, x.Pick(a.child), a.key);
      LastSetUnique(tx, x.hist, a.child, a.key);
      ReadThree(x.Pick(a.child), x.top, root, store, a.key);
    }
    if a.Get? || a.Set? {
      assert y.hist[..|x.hist|] == x.hist;
    }
  }

  /** A transaction depends on exactly the keys it read from outside, those it had not set itself before. */
  lemma {:induction false} DependsOnReads(tx: Tx, roots: seq<map<Bytes, Value>>, store: Getter, full: Bytes)
    ensures var x := RunThrough(tx, roots, store);
      && x.top.trackDep
      && (full in x.top.deps <==> exists j: nat :: j < |x.hist| && ReadsOutside(tx, x.hist, j, full))
  {
    if roots != [] {
      var k := |roots| - 1;
      var x, y := RunThrough(tx, roots[..k], store), RunThrough(tx, roots, store);
      DependsOnReads(tx, roots[..k], store, full);
      if x.error.None? {
        ActDepends(tx, roots[..k], store, x, roots[k], y);
        if |y.hist| > |x.hist| {
          SameReads(tx, x.hist, y.hist, full);
        }
      }
    }
  }

  lemma SameReads(tx: Tx, h: History, h': History, full: Bytes)
    requires |h'| == |h| + 1 && h'[..|h|] == h
    ensures (exists j: nat :: j < |h'| && ReadsOutside(tx, h', j, full)) <==>
      (exists j: nat :: j < |h| && ReadsOutside(tx, h, j, full)) || ReadsOutside(tx, h', |h|, full)
  {
    forall j: nat | j < |h|
      ensures ReadsOutside(tx, h', j, full) <==> ReadsOutside(tx, h, j, full)
    {
      assert h'[..j] == h[..j];
    }
  }

  /** This value was the last one set through this child for the key stored at `full`. */
  ghost predicate WroteLast(tx: Tx, h: History, child: Child, full: Bytes, value: Value)
  {
    exists key, j: nat ::
      LastSet(tx, h, j, child, key) && full == PrefixOf(tx, child) + key && tx.program(h[..j]).value == value
  }

  lemma ChildWrites(tx: Tx, roots: seq<map<Bytes, Value>>, store: Getter, child: Child, full: Bytes, value: Value)
    ensures var x := RunThrough(tx, roots, store);
      full in x.Pick(child).changes && x.Pick(child).changes[full] == value
      <==> WroteLast(tx, x.hist, child, full, value)
  {
    var x := RunThrough(tx, roots, store);
    var t := x.Pick(child);
    RunHolds(tx, roots, store, child);
    if full in t.changes && t.changes[full] == value {
      var key := full[|t.prefix|..];
      assert full == t.prefix + key;
      assert KeyHeld(tx, x.hist, child, t, key);
      LastSetUnique(tx, x.hist, child, key);
      var j: nat :| LastSet(tx, x.hist, j, child, key);
      assert tx.program(x.hist[..j]).value == value;
    }
    if WroteLast(tx, x.hist, child, full, value) {
      var key, j: nat :|
        LastSet(tx, x.hist, j, child, key) && full == PrefixOf(tx, child) + key
        && tx.program(x.hist[..j]).value == value;
      assert KeyHeld(tx, x.hist, child, t, key);
      LastSetUnique(tx, x.hist, child, key);
    }
  }

  /**
   What a finished transaction writes: what it last set through the chaincode's tracker, and for a deployment
   also what it last set in the code registry, under keys the chaincode did not set itself.
   */
  ghost predicate Writes(tx: Tx, h: History, full: Bytes, value: Value)
  {
    || WroteLast(tx, h, Code, full, value)
    || (tx.deploy && WroteLast(tx, h, Registry, full, value) && forall v :: !WroteLast(tx, h, Code, full, v))
  }

  /** Exactly those writes. */
  ghost predicate HoldsWrites(tx: Tx, h: History, changes: map<Bytes, Value>)
  {
    forall full, value :: Writes(tx, h, full, value) <==> full in changes && changes[full] == value
  }

  /** The changes `before` with those writes on top. */
  ghost predicate AddsWrites(tx: Tx, h: History, before: map<Bytes, Value>, after: map<Bytes, Value>)
  {
    forall full, value :: Added(tx, h, before, full, value) <==> full in after && after[full] == value
  }

  ghost predicate Added(tx: Tx, h: History, before: map<Bytes, Value>, full: Bytes, value: Value)
  {
    || Writes(tx, h, full, value)
    || (full in before && before[full] == value && forall v :: !Writes(tx, h, full, v))
  }

  lemma LiftNothing(m: map<Bytes, Value>)
    ensures Lift([], m) == m
  {
    forall key
      ensures key in m <==> key in Lift([], m)
      ensures key in m ==> Lift([], m)[key] == m[key]
    {
      assert [] + key == key;
      LiftHas([], m, key);
    }
  }

  lemma ActFinishes(tx: Tx, x: Exec, root: map<Bytes, Value>, store: Getter, y: Exec)
    requires x.error.None? && tx.program(x.hist).Finish? && x.top.changes == map[] && x.top.prefix == []
    requires y == Act(tx, x, root, store)
    ensures y.top.changes == (if tx.deploy then y.reg.changes else map[]) + y.code.changes
  {
    LiftNothing(x.reg.changes);
    LiftNothing(x.code.changes);
  }

  /** What the finishing merges leave in the transaction's own tracker. */
  lemma {:induction false} FinishMerges(tx: Tx, roots: seq<map<Bytes, Value>>, store: Getter, x: Exec)
    requires x == RunThrough(tx, roots, store) && x.error.Some? && tx.program(x.hist).Finish?
    ensures x.top.changes == (if tx.deploy then x.reg.changes else map[]) + x.code.changes
  {
    var k := |roots| - 1;
    var y := RunThrough(tx, roots[..k], store);
    if y.error.Some? {
      FinishMerges(tx, roots[..k], store, y);
    } else {
      RunOutcome(tx, roots[..k], store);
      RunSeparate(tx, roots[..k], store);
      ActFinishes(tx, y, roots[k], store, x);
    }
  }

  lemma WritesMerged(tx: Tx, roots: seq<map<Bytes, Value>>, store: Getter, x: Exec, full: Bytes, value: Value)
    requires x == RunThrough(tx, roots, store) && x.error.Some? && tx.program(x.hist).Finish?
    ensures Writes(tx, x.hist, full, value) <==> full in x.top.changes && x.top.changes[full] == value
  {
    FinishMerges(tx, roots, store, x);
    ChildWrites(tx, roots, store, Registry, full, value);
    forall v
      ensures full in x.code.changes && x.code.changes[full] == v <==> WroteLast(tx, x.hist, Code, full, v)
    {
      ChildWrites(tx, roots, store, Code, full, v);
    }
    if full in x.code.changes {
      assert WroteLast(tx, x.hist, Code, full, x.code.changes[full]);
    }
  }

  /** A transaction that finished holds exactly its last writes. */
  lemma FinishedWrites(tx: Tx, roots: seq<map<Bytes, Value>>, store: Getter)
    requires var x := RunThrough(tx, roots, store); x.error.Some? && tx.program(x.hist).Finish?
    ensures var x := RunThrough(tx, roots, store); HoldsWrites(tx, x.hist, x.top.changes)
  {
    var x := RunThrough(tx, roots, store);
    forall full, value
      ensures Writes(tx, x.hist, full, value) <==> full in x.top.changes && x.top.changes[full] == value
    {
      WritesMerged(tx, roots, store, x, full, value);
    }
  }

  lemma WritesOnTop(tx: Tx, h: History, root: map<Bytes, Value>, changes: map<Bytes, Value>)
    requires HoldsWrites(tx, h, changes)
    ensures AddsWrites(tx, h, root, root + changes)
  {
    forall full, value
      ensures Added(tx, h, root, full, value) <==> full in root + changes && (root + changes)[full] == value
    {
      if full in changes {
        assert Writes(tx, h, full, changes[full]);
      }
    }
  }

  /** And the block's changes after it are the ones before with those writes on top. */
  lemma FinishedChanges(tx: Tx, roots: seq<map<Bytes, Value>>, store: Getter, root: map<Bytes, Value>)
    requires var x := RunThrough(tx, roots, store); x.error.Some? && tx.program(x.hist).Finish?
    ensures var x := RunThrough(tx, roots, store); AddsWrites(tx, x.hist, root, Applied(root, x))
  {
    var x := RunThrough(tx, roots, store);
    RunOutcome(tx, roots, store);
    LiftNothing(x.top.changes);
    FinishedWrites(tx, roots, store);
    WritesOnTop(tx, x.hist, root, x.top.changes);
  }

  /** An undisturbed execution: every answer is on the one block state, and it ended as its last action says. */
  lemma AloneMeans(tx: Tx, root: map<Bytes, Value>, store: Getter, n: nat)
    requires Run(tx, root, store, n).error.Some?
    ensures var x := Run(tx, root, store, n);
      var last := tx.program(x.hist);
      && (forall j :: 0 <= j < |x.hist| ==> Answered(tx, x.hist, j, root, store))
      && (last.Fail? || last.Finish?)
      && (last.Fail? ==> x.error == Some(last.error) && x.top.changes == map[] && Applied(root, x) == root)
      && (last.Finish? ==> x.error == Some("") && HoldsWrites(tx, x.hist, x.top.changes))
      && (last.Finish? ==> AddsWrites(tx, x.hist, root, Applied(root, x)))
  {
    var x := Run(tx, root, store, n);
    var roots := seq(n, _ => root);
    RunIsRunThrough(tx, root, store, n);
    RunOutcome(tx, roots, store);
    forall j | 0 <= j < |x.hist|
      ensures Answered(tx, x.hist, j, root, store)
    {
      ReadsLastWrite(tx, roots, store, j);
    }
    if tx.program(x.hist).Fail? {
      FailedChangesNothing(tx, roots, store, root);
    } else {
      FinishedWrites(tx, roots, store);
      FinishedChanges(tx, roots, store, root);
    }
  }
}
