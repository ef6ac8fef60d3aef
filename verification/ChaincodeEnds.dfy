/**
 Chaincode that ends, with no common bound on how long it runs.  Against the finitely many block
 states of one block it does have a bound.
 */
module ChaincodeEnds {
  import opened ByteStrings
  import opened StateTrackers
  import opened TxExecution

  /** After these answers the program ends, however it is answered from here on. */
  least predicate Ends(tx: Tx, h: History)
  {
    tx.program(h).Finish? || tx.program(h).Fail? || forall v: Value :: Ends(tx, h + [v])
  }

  /** The execution ends within `n` more actions, each against one of the block states `roots`. */
  ghost predicate EndsIn(tx: Tx, x: Exec, roots: set<map<Bytes, Value>>, store: Getter, n: nat)
    decreases n
  {
    x.error.Some? || (n > 0 && forall r :: r in roots ==> EndsIn(tx, Act(tx, x, r, store), roots, store, n - 1))
  }

  lemma {:induction false} EndsInMore(tx: Tx, x: Exec, roots: set<map<Bytes, Value>>, store: Getter, n: nat, m: nat)
    requires EndsIn(tx, x, roots, store, n) && n <= m
    ensures EndsIn(tx, x, roots, store, m)
    decreases n
  {
    if x.error.None? {
      forall r | r in roots
        ensures EndsIn(tx, Act(tx, x, r, store), roots, store, m - 1)
      {
        EndsInMore(tx, Act(tx, x, r, store), roots, store, n - 1, m - 1);
      }
    }
  }

  ghost predicate CanEnd(tx: Tx, x: Exec, roots: set<map<Bytes, Value>>, store: Getter)
  {
    exists n: nat :: EndsIn(tx, x, roots, store, n)
  }

  /** One bound for the next action against any of finitely many block states. */
  lemma {:induction false} CommonBound(tx: Tx, x: Exec, roots: set<map<Bytes, Value>>, some: set<map<Bytes, Value>>,
                                       store: Getter)
    returns (n: nat)
    requires forall r :: r in some ==> CanEnd(tx, Act(tx, x, r, store), roots, store)
    ensures forall r :: r in some ==> EndsIn(tx, Act(tx, x, r, store), roots, store, n)
    decreases |some|
  {
    if some == {} {
      n := 0;
    } else {
      var r :| r in some;
      var k: nat :| EndsIn(tx, Act(tx, x, r, store), roots, store, k);
      var m := CommonBound(tx, x, roots, some - {r}, store);
      n := if k < m then m else k;
      forall q | q in some
        ensures EndsIn(tx, Act(tx, x, q, store), roots, store, n)
      {
        EndsInMore(tx, Act(tx, x, q, store), roots, store, if q == r then k else m, n);
      }
    }
  }

  /** A program that ends has a bound against finitely many block states. */
  least lemma EndsBounded(tx: Tx, x: Exec, roots: set<map<Bytes, Value>>, store: Getter)
    requires Ends(tx, x.hist)
    ensures CanEnd(tx, x, roots, store)
  {
    if x.error.Some? {
      assert EndsIn(tx, x, roots, store, 0);
    } else if tx.program(x.hist).Finish? || tx.program(x.hist).Fail? {
      assert EndsIn(tx, x, roots, store, 1);
    } else {
      forall r | r in roots
        ensures CanEnd(tx, Act(tx, x, r, store), roots, store)
      {
        EndsBounded(tx, Act(tx, x, r, store), roots, store);
      }
      var n := CommonBound(tx, x, roots, roots, store);
      assert EndsIn(tx, x, roots, store, n + 1);
    }
  }

  lemma {:induction false} LeastBound(tx: Tx, x: Exec, roots: set<map<Bytes, Value>>, store: Getter, n: nat)
    returns (k: nat)
    requires EndsIn(tx, x, roots, store, n)
    ensures EndsIn(tx, x, roots, store, k) && forall m: nat :: m < k ==> !EndsIn(tx, x, roots, store, m)
  {
    k := n;
    if m: nat :| m < n && EndsIn(tx, x, roots, store, m) {
      k := LeastBound(tx, x, roots, store, m);
    }
  }

  ghost predicate IsLeast(tx: Tx, x: Exec, roots: set<map<Bytes, Value>>, store: Getter, k: nat)
  {
    EndsIn(tx, x, roots, store, k) && forall m: nat :: m < k ==> !EndsIn(tx, x, roots, store, m)
  }

  lemma HasLeast(tx: Tx, x: Exec, roots: set<map<Bytes, Value>>, store: Getter)
    requires CanEnd(tx, x, roots, store)
    ensures exists k: nat :: IsLeast(tx, x, roots, store, k)
  {
    var n: nat :| EndsIn(tx, x, roots, store, n);
    var k := LeastBound(tx, x, roots, store, n);
    assert IsLeast(tx, x, roots, store, k);
  }

  /** The most actions the execution can still make. */
  ghost function ActionsLeft(tx: Tx, x: Exec, roots: set<map<Bytes, Value>>, store: Getter): (k: nat)
    ensures CanEnd(tx, x, roots, store) ==> IsLeast(tx, x, roots, store, k)
  {
    if CanEnd(tx, x, roots, store) then
      HasLeast(tx, x, roots, store);
      var k: nat :| IsLeast(tx, x, roots, store, k); k
    else 0
  }

  lemma EndedHasNoneLeft(tx: Tx, x: Exec, roots: set<map<Bytes, Value>>, store: Getter)
    requires x.error.Some?
    ensures CanEnd(tx, x, roots, store) && ActionsLeft(tx, x, roots, store) == 0
  {
    assert EndsIn(tx, x, roots, store, 0);
  }

  /** Each action lowers it. */
  lemma ActLowers(tx: Tx, x: Exec, roots: set<map<Bytes, Value>>, store: Getter, root: map<Bytes, Value>)
    requires CanEnd(tx, x, roots, store) && x.error.None? && root in roots
    ensures CanEnd(tx, Act(tx, x, root, store), roots, store)
    ensures ActionsLeft(tx, Act(tx, x, root, store), roots, store) < ActionsLeft(tx, x, roots, store)
  {
    var k := ActionsLeft(tx, x, roots, store);
    var y := Act(tx, x, root, store);
    assert EndsIn(tx, y, roots, store, k - 1);
  }
}
