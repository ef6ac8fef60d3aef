/**
 Committing state changes and verified reads: storage/storage.go:105-137, 139-149, 172-183, 200-210.
 Only completed commits are modelled.
 */
module Storage {
  import opened Options
  import opened FiniteSets
  import opened ByteStrings
  import opened TreeCalc
  import opened MerkleSpec
  import opened MerkleTrees
  import opened StateStorage

  ghost predicate DistinctSeq(keys: seq<Bytes>)
  {
    forall i, j :: 0 <= i < j < |keys| ==> keys[i] != keys[j]
  }

  /** `keyAt` inverts the key-to-index map: the indexes are a bijection onto [0, leafCount). */
  ghost predicate Agrees(values: map<Bytes, Bytes>, indexes: map<Bytes, nat>, keyAt: seq<Bytes>)
  {
    && DistinctSeq(keyAt)
    && (forall key :: key in values <==> key in keyAt)
    && (forall key :: key in indexes <==> key in keyAt)
    && (forall i :: 0 <= i < |keyAt| ==> indexes[keyAt[i]] == i)
  }

  /** Leaf `i` is the hash of the current value of the key with index `i`. */
  ghost function Leaves(hash: HashFn, values: map<Bytes, Bytes>, keyAt: seq<Bytes>): (r: seq<Bytes>)
    requires forall key :: key in keyAt ==> key in values
    ensures |r| == |keyAt|
  {
    seq(|keyAt|, i requires 0 <= i < |keyAt| => assert keyAt[i] in keyAt; hash(values[keyAt[i]]))
  }

  /** The tree indexes a list of changes carries are those of the known keys, and of `sorted` after them. */
  ghost predicate Assigned(list: seq<StateChange>, indexes: map<Bytes, nat>, sorted: seq<Bytes>, count: nat)
  {
    && (forall i :: 0 <= i < |list| ==> Indexed(list[i], sorted, count))
    && (forall i :: 0 <= i < |list| ==>
          list[i].prevIndex == if list[i].key in indexes then Some(indexes[list[i].key]) else None)
    && StrictlySorted(sorted) && NewKeys(list, sorted)
  }

  /** The indexes of the changes as a map. */
  function IndexMap(list: seq<StateChange>): map<Bytes, nat>
    requires forall i :: 0 <= i < |list| ==> list[i].index.Some?
  {
    if list == [] then map[] else IndexMap(list[..|list| - 1])[list[|list| - 1].key := list[|list| - 1].index.value]
  }

  lemma {:induction false} IndexMapKeys(list: seq<StateChange>)
    requires forall i :: 0 <= i < |list| ==> list[i].index.Some?
    ensures IndexMap(list).Keys == ChangeMap(list).Keys
  {
    if list != [] {
      IndexMapKeys(list[..|list| - 1]);
    }
  }

  lemma {:induction false} IndexMapAt(list: seq<StateChange>, i: nat)
    requires DistinctKeys(list) && i < |list| && forall i :: 0 <= i < |list| ==> list[i].index.Some?
    ensures list[i].key in IndexMap(list) && IndexMap(list)[list[i].key] == list[i].index.value
  {
    var k := |list| - 1;
    if i < k {
      IndexMapAt(list[..k], i);
    }
  }

  lemma {:induction false} ChangeMapKeys(list: seq<StateChange>, key: Bytes)
    ensures key in ChangeMap(list) <==> exists i :: 0 <= i < |list| && list[i].key == key
  {
    if list != [] {
      var k := |list| - 1;
      ChangeMapKeys(list[..k], key);
      if key in ChangeMap(list[..k]) {
        var i :| 0 <= i < k && list[..k][i].key == key;
        assert list[i].key == key;
      }
      if i :| 0 <= i < |list| && list[i].key == key {
        if i < k {
          assert list[..k][i].key == key;
        }
      }
    }
  }

  lemma {:induction false} ChangeMapAt(list: seq<StateChange>, i: nat)
    requires DistinctKeys(list) && i < |list|
    ensures list[i].key in ChangeMap(list) && ChangeMap(list)[list[i].key] == list[i].value
  {
    var k := |list| - 1;
    if i < k {
      ChangeMapAt(list[..k], i);
    }
  }

  /** New keys are exactly the changed keys that had no index. */
  lemma SortedAreNew(list: seq<StateChange>, indexes: map<Bytes, nat>, sorted: seq<Bytes>, count: nat, key: Bytes)
    requires Assigned(list, indexes, sorted, count)
    ensures key in sorted <==> key in ChangeMap(list) && key !in indexes
  {
    ChangeMapKeys(list, key);
    if key in sorted {
      var i :| 0 <= i < |list| && list[i].key == key && list[i].prevIndex.None?;
      assert list[i].key == key;
    }
    if key in ChangeMap(list) && key !in indexes {
      var i :| 0 <= i < |list| && list[i].key == key;
      assert list[i].prevIndex.None?;
    }
  }

  lemma SortedDistinct(sorted: seq<Bytes>)
    requires StrictlySorted(sorted)
    ensures DistinctSeq(sorted)
  {
    forall i, j | 0 <= i < j < |sorted|
      ensures sorted[i] != sorted[j]
    {
      LessIrreflexive(sorted[i]);
    }
  }

  lemma KeysExtend(values: map<Bytes, Bytes>, indexes: map<Bytes, nat>, keyAt: seq<Bytes>, list: seq<StateChange>,
                   sorted: seq<Bytes>)
    requires Agrees(values, indexes, keyAt) && Assigned(list, indexes, sorted, |keyAt|)
    ensures DistinctSeq(keyAt + sorted)
    ensures forall key :: key in keyAt + sorted <==> key in values || key in ChangeMap(list)
  {
    SortedDistinct(sorted);
    forall key
      ensures key in sorted <==> key in ChangeMap(list) && key !in keyAt
    {
      SortedAreNew(list, indexes, sorted, |keyAt|, key);
    }
    forall i, j | 0 <= i < j < |keyAt + sorted|
      ensures (keyAt + sorted)[i] != (keyAt + sorted)[j]
    {
      if i < |keyAt| <= j {
        assert keyAt[i] in keyAt && sorted[j - |keyAt|] in sorted;
      }
    }
  }

  /** The index a change carries leads back to its key. */
  lemma IndexLeadsBack(values: map<Bytes, Bytes>, indexes: map<Bytes, nat>, keyAt: seq<Bytes>, list: seq<StateChange>,
                       sorted: seq<Bytes>, i: nat)
    requires Agrees(values, indexes, keyAt) && Assigned(list, indexes, sorted, |keyAt|) && i < |list|
    ensures list[i].index.Some? && list[i].index.value < |keyAt + sorted|
    ensures (keyAt + sorted)[list[i].index.value] == list[i].key
  {
    var sc := list[i];
    assert Indexed(sc, sorted, |keyAt|);
    if sc.prevIndex.Some? {
      assert sc.key in keyAt;
      var k :| 0 <= k < |keyAt| && keyAt[k] == sc.key;
    }
  }

  lemma IndexOfKey(values: map<Bytes, Bytes>, indexes: map<Bytes, nat>, keyAt: seq<Bytes>, list: seq<StateChange>,
                   sorted: seq<Bytes>, after: map<Bytes, nat>, i: nat)
    requires Agrees(values, indexes, keyAt) && Assigned(list, indexes, sorted, |keyAt|) && DistinctKeys(list)
    requires forall i :: 0 <= i < |list| ==> list[i].index.Some?
    requires after == indexes + IndexMap(list) && i < |keyAt + sorted| && DistinctSeq(keyAt + sorted)
    ensures (keyAt + sorted)[i] in after && after[(keyAt + sorted)[i]] == i
  {
    var keys := keyAt + sorted;
    ChangeMapKeys(list, keys[i]);
    IndexMapKeys(list);
    if j :| 0 <= j < |list| && list[j].key == keys[i] {
      IndexLeadsBack(values, indexes, keyAt, list, sorted, j);
      IndexMapAt(list, j);
    } else {
      if i >= |keyAt| {
        SortedAreNew(list, indexes, sorted, |keyAt|, keys[i]);
      }
      assert keys[i] == keyAt[i] && keyAt[i] in keyAt;
    }
  }

  /** The key-to-index map stays a bijection, old keys keep their index. */
  lemma IndexesExtend(values: map<Bytes, Bytes>, indexes: map<Bytes, nat>, keyAt: seq<Bytes>, list: seq<StateChange>,
                      sorted: seq<Bytes>, after: map<Bytes, nat>)
    requires Agrees(values, indexes, keyAt) && Assigned(list, indexes, sorted, |keyAt|) && DistinctKeys(list)
    requires forall i :: 0 <= i < |list| ==> list[i].index.Some?
    requires after == indexes + IndexMap(list)
    ensures Agrees(values + ChangeMap(list), after, keyAt + sorted)
  {
    KeysExtend(values, indexes, keyAt, list, sorted);
    IndexMapKeys(list);
    forall i | 0 <= i < |keyAt + sorted|
      ensures (keyAt + sorted)[i] in after && after[(keyAt + sorted)[i]] == i
    {
      IndexOfKey(values, indexes, keyAt, list, sorted, after, i);
    }
  }

  /** The tree nodes of the changes: storage/state_store.go:84-102 */
  ghost predicate NodesOf(hash: HashFn, list: seq<StateChange>, nodes: seq<Node>)
  {
    && |nodes| == |list|
    && forall i :: 0 <= i < |list| ==>
      list[i].index.Some? && nodes[i] == Node(Position(0, list[i].index.value), hash(list[i].value))
  }

  lemma NodesDistinct(hash: HashFn, values: map<Bytes, Bytes>, indexes: map<Bytes, nat>, keyAt: seq<Bytes>,
                      list: seq<StateChange>, sorted: seq<Bytes>, nodes: seq<Node>)
    requires Agrees(values, indexes, keyAt) && Assigned(list, indexes, sorted, |keyAt|) && DistinctKeys(list)
    requires NodesOf(hash, list, nodes)
    ensures DistinctPositions(nodes)
  {
    forall i, j | 0 <= i < j < |nodes|
      ensures nodes[i].pos != nodes[j].pos
    {
      IndexLeadsBack(values, indexes, keyAt, list, sorted, i);
      IndexLeadsBack(values, indexes, keyAt, list, sorted, j);
    }
  }

  /** A node of the changes is the new leaf at its position. */
  lemma ChangedLeaf(hash: HashFn, values: map<Bytes, Bytes>, indexes: map<Bytes, nat>, keyAt: seq<Bytes>,
                    list: seq<StateChange>, sorted: seq<Bytes>, nodes: seq<Node>, new': seq<Bytes>, p: Position)
    requires Agrees(values, indexes, keyAt) && Assigned(list, indexes, sorted, |keyAt|) && DistinctKeys(list)
    requires NodesOf(hash, list, nodes) && DistinctPositions(nodes) && p in Latest(nodes)
    requires forall key :: key in keyAt + sorted ==> key in values + ChangeMap(list)
    requires new' == Leaves(hash, values + ChangeMap(list), keyAt + sorted)
    ensures p.level == 0 && p.index < |new'| && new'[p.index] == Latest(nodes)[p]
  {
    LatestKeys(nodes, p);
    var i :| 0 <= i < |nodes| && nodes[i].pos == p;
    LatestDistinct(nodes, i);
    IndexLeadsBack(values, indexes, keyAt, list, sorted, i);
    ChangeMapAt(list, i);
  }

  /** A leaf no change names is an old leaf. */
  lemma UnchangedLeaf(hash: HashFn, values: map<Bytes, Bytes>, indexes: map<Bytes, nat>, keyAt: seq<Bytes>,
                      list: seq<StateChange>, sorted: seq<Bytes>, nodes: seq<Node>, i: nat)
    requires Agrees(values, indexes, keyAt) && Assigned(list, indexes, sorted, |keyAt|)
    requires NodesOf(hash, list, nodes) && i < |keyAt + sorted| && Position(0, i) !in Latest(nodes)
    ensures i < |keyAt| && keyAt[i] !in ChangeMap(list)
  {
    var key := (keyAt + sorted)[i];
    ChangeMapKeys(list, key);
    if key in ChangeMap(list) {
      var j :| 0 <= j < |list| && list[j].key == key;
      IndexLeadsBack(values, indexes, keyAt, list, sorted, j);
      KeysExtend(values, indexes, keyAt, list, sorted);
      assert nodes[j].pos == Position(0, i);
      LatestKeys(nodes, Position(0, i));
      assert false;
    }
    if i >= |keyAt| {
      SortedAreNew(list, indexes, sorted, |keyAt|, key);
    }
  }

  /** The new leaves are the old ones with the nodes of the changes put in place. */
  lemma LeavesExtend(hash: HashFn, values: map<Bytes, Bytes>, indexes: map<Bytes, nat>, keyAt: seq<Bytes>,
                     list: seq<StateChange>, sorted: seq<Bytes>, nodes: seq<Node>)
    requires Agrees(values, indexes, keyAt) && Assigned(list, indexes, sorted, |keyAt|) && DistinctKeys(list)
    requires NodesOf(hash, list, nodes)
    requires forall key :: key in keyAt + sorted ==> key in values + ChangeMap(list)
    ensures LeafUpdate(Latest(nodes), Leaves(hash, values, keyAt),
                       Leaves(hash, values + ChangeMap(list), keyAt + sorted))
  {
    NodesDistinct(hash, values, indexes, keyAt, list, sorted, nodes);
    var old', new' := Leaves(hash, values, keyAt), Leaves(hash, values + ChangeMap(list), keyAt + sorted);
    forall p | p in Latest(nodes)
      ensures p.level == 0 && p.index < |new'| && new'[p.index] == Latest(nodes)[p]
    {
      ChangedLeaf(hash, values, indexes, keyAt, list, sorted, nodes, new', p);
    }
    forall i | 0 <= i < |new'| && Position(0, i) !in Latest(nodes)
      ensures i < |old'| && new'[i] == old'[i]
    {
      UnchangedLeaf(hash, values, indexes, keyAt, list, sorted, nodes, i);
      assert keyAt[i] in keyAt;
    }
  }

  lemma AssignedAfterLoad(changes: seq<StateChange>, loaded: seq<StateChange>, list: seq<StateChange>,
                          indexes: map<Bytes, nat>, sorted: seq<Bytes>, count: nat)
    requires |changes| == |loaded| == |list|
    requires forall i :: 0 <= i < |loaded| ==>
      loaded[i] == changes[i].(prevIndex := if changes[i].key in indexes then Some(indexes[changes[i].key]) else None)
    requires forall i :: 0 <= i < |list| ==> SameButIndex(list[i], loaded[i])
    requires StrictlySorted(sorted) && NewKeys(loaded, sorted)
    requires forall i :: 0 <= i < |list| ==> Indexed(list[i], sorted, count)
    ensures Assigned(list, indexes, sorted, count)
  {
    forall i | 0 <= i < |list|
      ensures list[i].prevIndex == if list[i].key in indexes then Some(indexes[list[i].key]) else None
    {
      assert SameButIndex(list[i], loaded[i]);
    }
    forall key
      ensures key in sorted <==> exists i :: 0 <= i < |list| && list[i].key == key && list[i].prevIndex.None?
    {
      if key in sorted {
        var i :| 0 <= i < |loaded| && loaded[i].key == key && loaded[i].prevIndex.None?;
        assert SameButIndex(list[i], loaded[i]);
      }
      if i :| 0 <= i < |list| && list[i].key == key && list[i].prevIndex.None? {
        assert SameButIndex(list[i], loaded[i]);
      }
    }
  }

  lemma {:induction false} SameChangeMap(a: seq<StateChange>, b: seq<StateChange>)
    requires |a| == |b| && forall i :: 0 <= i < |a| ==> a[i].key == b[i].key && a[i].value == b[i].value
    ensures ChangeMap(a) == ChangeMap(b)
  {
    if a != [] {
      SameChangeMap(a[..|a| - 1], b[..|b| - 1]);
    }
  }

  lemma {:induction false} KeySetSize(keys: seq<Bytes>)
    requires DistinctSeq(keys)
    ensures |KeySet(keys)| == |keys|
  {
    if keys != [] {
      var k := |keys| - 1;
      KeySetSize(keys[..k]);
      assert keys == keys[..k] + [keys[k]];
      assert KeySet(keys) == KeySet(keys[..k]) + {keys[k]};
    }
  }

  lemma {:induction false} ChangeMapSize(list: seq<StateChange>)
    ensures |ChangeMap(list)| <= |list|
  {
    if list != [] {
      ChangeMapSize(list[..|list| - 1]);
    }
  }

  /** No more new keys than changes. */
  lemma SortedBound(values: map<Bytes, Bytes>, indexes: map<Bytes, nat>, keyAt: seq<Bytes>, list: seq<StateChange>,
                    sorted: seq<Bytes>)
    requires Agrees(values, indexes, keyAt) && Assigned(list, indexes, sorted, |keyAt|)
    ensures |sorted| <= |list|
  {
    SortedDistinct(sorted);
    KeySetSize(sorted);
    forall key | key in KeySet(sorted)
      ensures key in ChangeMap(list).Keys
    {
      SortedAreNew(list, indexes, sorted, |keyAt|, key);
    }
    SubsetCardinality(KeySet(sorted), ChangeMap(list).Keys);
    ChangeMapSize(list);
  }

  /** Every change has an index, and the tree with the new keys is no higher than one with a leaf per change. */
  lemma AssignedFits(b: nat, values: map<Bytes, Bytes>, indexes: map<Bytes, nat>, keyAt: seq<Bytes>,
                     list: seq<StateChange>, sorted: seq<Bytes>)
    requires b >= 2 && Agrees(values, indexes, keyAt) && Assigned(list, indexes, sorted, |keyAt|)
    ensures forall i :: 0 <= i < |list| ==> list[i].index.Some?
    ensures TreeHeight(b, |keyAt| + |sorted|) <= TreeHeight(b, |keyAt| + |list|)
  {
    AssignedIndexes(list, indexes, sorted, |keyAt|);
    SortedBound(values, indexes, keyAt, list, sorted);
    HeightMonotone(b, |keyAt| + |sorted|, |keyAt| + |list|);
  }

  lemma AssignedIndexes(list: seq<StateChange>, indexes: map<Bytes, nat>, sorted: seq<Bytes>, count: nat)
    requires Assigned(list, indexes, sorted, count)
    ensures forall i :: 0 <= i < |list| ==> list[i].index.Some?
    ensures forall i :: 0 <= i < |list| && list[i].prevIndex.Some? ==>
      list[i].key in indexes && indexes[list[i].key] == list[i].prevIndex.value
  {
    forall i | 0 <= i < |list|
      ensures list[i].index.Some?
    {
      assert Indexed(list[i], sorted, count);
    }
  }

  lemma SortedKeySet(list: seq<StateChange>, values: map<Bytes, Bytes>, indexes: map<Bytes, nat>, keyAt: seq<Bytes>,
                     sorted: seq<Bytes>)
    requires Agrees(values, indexes, keyAt) && Assigned(list, indexes, sorted, |keyAt|)
    ensures KeySet(sorted) == ChangeMap(list).Keys - values.Keys
  {
    forall key
      ensures key in KeySet(sorted) <==> key in ChangeMap(list).Keys - values.Keys
    {
      SortedAreNew(list, indexes, sorted, |keyAt|, key);
    }
  }

  /** One more change on top of those written. */
  lemma WriteOne(values: map<Bytes, Bytes>, indexes: map<Bytes, nat>, list: seq<StateChange>, i: nat)
    requires i < |list| && forall i :: 0 <= i < |list| ==> list[i].index.Some?
    ensures (values + ChangeMap(list[..i]))[list[i].key := list[i].value] == values + ChangeMap(list[..i + 1])
    ensures (indexes + IndexMap(list[..i]))[list[i].key := list[i].index.value] == indexes + IndexMap(list[..i + 1])
  {
    assert list[..i + 1][..i] == list[..i];
  }

  /** Every change carries the value its key had. */
  ghost predicate PrevLoaded(list: seq<StateChange>, values: map<Bytes, Bytes>)
  {
    forall i :: 0 <= i < |list| ==>
      list[i].prevValue == if list[i].key in values then Some(values[list[i].key]) else None
  }

  ghost predicate IsChanged(changes: seq<StateChange>, key: Bytes)
  {
    exists i :: 0 <= i < |changes| && changes[i].key == key
  }

  /** Writing the changes gives each key its new value and leaves the others. */
  lemma StateAfter(values: map<Bytes, Bytes>, changes: seq<StateChange>)
    requires DistinctKeys(changes)
    ensures var after := values + ChangeMap(changes);
      && (forall i :: 0 <= i < |changes| ==> changes[i].key in after && after[changes[i].key] == changes[i].value)
      && (forall key :: !IsChanged(changes, key) ==> (key in after <==> key in values))
      && (forall key :: !IsChanged(changes, key) && key in values ==> after[key] == values[key])
  {
    forall i | 0 <= i < |changes|
      ensures changes[i].key in ChangeMap(changes) && ChangeMap(changes)[changes[i].key] == changes[i].value
    {
      ChangeMapAt(changes, i);
    }
    forall key | !IsChanged(changes, key)
      ensures key !in ChangeMap(changes)
    {
      ChangeMapKeys(changes, key);
    }
  }

  /** What VerifyState returns, or the panic it reaches. */
  datatype Verified = Value(value: Option<Bytes>) | NoMerkleIndex | VerificationFailed

  class StateDb {
    const store: MapStore
    const tree: Tree
    var values: map<Bytes, Bytes>  // state value by key
    var indexes: map<Bytes, nat>   // leaf index by key
    ghost var keyAt: seq<Bytes>    // key by leaf index

    /** State and tree agree. */
    ghost predicate Valid()
      reads this, store
    {
      && tree.store == store && tree.b >= 2
      && Agrees(values, indexes, keyAt)
      && tree.Holds(Leaves(tree.hash, values, keyAt))
    }

    constructor (hash: HashFn, branchFactor: nat)
      ensures Valid() && fresh(store) && values == map[] && tree.hash == hash
      ensures forall key :: GetState(key) == None
    {
      var s := new MapStore();
      store := s;
      tree := new Tree(s, hash, branchFactor);
      values, indexes, keyAt := map[], map[], [];
    }

    /** storage/storage.go:105-107 */
    function GetState(key: Bytes): Option<Bytes>
      reads this
    {
      if key in values then Some(values[key]) else None
    }

    /** storage/storage.go:132-138: the root of the stored tree. */
    method GetMerkleRoot() returns (root: Option<Bytes>)
      requires Valid()
      ensures root == if keyAt == [] then None else Some(FullRoot(tree.hash, tree.b, Leaves(tree.hash, values, keyAt)))
    {
      tree.RootIsFull(Leaves(tree.hash, values, keyAt));
      var node := tree.Root();
      return if node.None? then None else Some(node.value.data);
    }

    /** storage/storage.go:109-130: both panics are unreachable and the answer is GetState's. */
    method VerifyState(key: Bytes) returns (r: Verified)
      requires Valid()
      ensures r == Value(GetState(key))
    {
      if key !in values {
        return Value(None);
      }
      if key !in indexes {
        return NoMerkleIndex;
      }
      var node := Node(Position(0, indexes[key]), tree.hash(values[key]));
      ghost var leaves := Leaves(tree.hash, values, keyAt);
      ghost var i :| 0 <= i < |keyAt| && keyAt[i] == key;
      assert node == Node(Position(0, i), leaves[i]);
      MatchIffOverlaySame([node], leaves);
      var ok := tree.Verify([node], leaves);
      if !ok {
        return VerificationFailed;
      }
      return Value(Some(values[key]));
    }

    /** storage/state_store.go:23-27 */
    method LoadPrevValues(list: seq<StateChange>) returns (r: seq<StateChange>)
      ensures |r| == |list| && PrevLoaded(r, values)
      ensures forall i :: 0 <= i < |list| ==> list[i] == r[i].(prevValue := list[i].prevValue)
    {
      r := list;
      for i := 0 to |list|
        invariant |r| == |list| && PrevLoaded(r[..i], values)
        invariant forall k :: 0 <= k < |list| ==> list[k] == r[k].(prevValue := list[k].prevValue)
      {
        r := r[i := r[i].(prevValue := GetState(r[i].key))];
      }
      assert r[..|list|] == r;
    }

    /** storage/state_store.go:29-36 */
    method LoadPrevTreeIndexes(list: seq<StateChange>) returns (r: seq<StateChange>)
      requires forall i :: 0 <= i < |list| ==> list[i].prevIndex.None?
      ensures |r| == |list|
      ensures forall i :: 0 <= i < |list| ==>
        r[i] == list[i].(prevIndex := if list[i].key in indexes then Some(indexes[list[i].key]) else None)
    {
      r := list;
      for i := 0 to |list|
        invariant |r| == |list|
        invariant forall k :: 0 <= k < i ==>
          r[k] == list[k].(prevIndex := if list[k].key in indexes then Some(indexes[list[k].key]) else None)
        invariant forall k :: i <= k < |list| ==> r[k] == list[k]
      {
        if r[i].key in indexes {
          r := r[i := r[i].(prevIndex := Some(indexes[r[i].key]))];
        }
      }
    }

    /** storage/state_store.go:67-102: every worker fills the slot of its change. */
    method ComputeUpdatedTreeNodes(list: seq<StateChange>) returns (nodes: seq<Node>)
      requires forall i :: 0 <= i < |list| ==> list[i].index.Some?
      ensures NodesOf(tree.hash, list, nodes)
    {
      nodes := [];
      for i := 0 to |list|
        invariant |nodes| == i
        invariant forall k :: 0 <= k < i ==>
          nodes[k] == Node(Position(0, list[k].index.value), tree.hash(list[k].value))
      {
        nodes := nodes + [Node(Position(0, list[i].index.value), tree.hash(list[i].value))];
      }
    }

    /** storage/state_store.go:112-119 */
    method CommitStateChange(sc: StateChange)
      requires sc.index.Some? && (sc.prevIndex.Some? ==> sc.key in indexes && indexes[sc.key] == sc.prevIndex.value)
      modifies this`values, this`indexes
      ensures values == old(values)[sc.key := sc.value]
      ensures indexes == old(indexes)[sc.key := sc.index.value]
    {
      values := values[sc.key := sc.value];
      if sc.prevIndex.None? || sc.prevIndex != sc.index {
        indexes := indexes[sc.key := sc.index.value];
      }
    }

    /** storage/state_store.go:104-110 */
    method CommitStateChanges(list: seq<StateChange>)
      requires DistinctKeys(list)
      requires forall i :: 0 <= i < |list| ==> list[i].index.Some?
      requires forall i :: 0 <= i < |list| && list[i].prevIndex.Some? ==>
        list[i].key in indexes && indexes[list[i].key] == list[i].prevIndex.value
      modifies this`values, this`indexes
      ensures values == old(values) + ChangeMap(list)
      ensures indexes == old(indexes) + IndexMap(list)
    {
      for i := 0 to |list|
        invariant values == old(values) + ChangeMap(list[..i])
        invariant indexes == old(indexes) + IndexMap(list[..i])
        invariant forall k :: i <= k < |list| && list[k].prevIndex.Some? ==>
          list[k].key in indexes && indexes[list[k].key] == list[k].prevIndex.value
      {
        WriteOne(old(values), old(indexes), list, i);
        CommitStateChange(list[i]);
      }
      assert list[..|list|] == list;
    }

    /** What computeMerkleUpdate leaves for writeStateMerkleTree. */
    ghost predicate Prepared(changes: seq<StateChange>, list: seq<StateChange>, sorted: seq<Bytes>, res: UpdateResult,
                             levels: seq<Nodes>)
      reads this, store
    {
      && tree.b >= 2
      && DistinctKeys(list) && list != [] && ChangeMap(list) == ChangeMap(changes) && PrevLoaded(list, values)
      && Assigned(list, indexes, sorted, |keyAt|)
      && NodesOf(tree.hash, list, res.leaves)
      && IsUpdate(tree.hash, tree.b, store.nodes, res.leaves, |keyAt| + |sorted|, res, levels)
      && res.height <= 255
    }

    /** storage/storage.go:173-176: every change gets its tree index. */
    method AssignTreeIndexes(changes: seq<StateChange>)
      returns (list: seq<StateChange>, leafCount: nat, ghost sorted: seq<Bytes>)
      requires Valid() && DistinctKeys(changes)
      requires forall i :: 0 <= i < |changes| ==> changes[i].prevIndex.None?
      ensures |list| == |changes| && DistinctKeys(list) && ChangeMap(list) == ChangeMap(changes)
      ensures Assigned(list, indexes, sorted, |keyAt|) && leafCount == |keyAt| + |sorted|
      ensures PrevLoaded(list, values)
    {
      var valued := LoadPrevValues(changes);
      var loaded := LoadPrevTreeIndexes(valued);
      list, leafCount, sorted := SetNewTreeIndexes(loaded, store.leafCount);
      AssignedAfterLoad(valued, loaded, list, indexes, sorted, store.leafCount);
      SameChanges(list, loaded, changes);
      SamePrevValues(list, loaded, values);
    }

    lemma TreeBeforeAfter(changes: seq<StateChange>, list: seq<StateChange>, sorted: seq<Bytes>, res: UpdateResult,
                          levels: seq<Nodes>)
      returns (before: seq<Bytes>, after: seq<Bytes>)
      requires Valid() && Prepared(changes, list, sorted, res, levels)
      ensures tree.Holds(before) && Updates(tree.hash, tree.b, store.nodes, before, after, res, levels)
      ensures forall key :: key in keyAt + sorted ==> key in values + ChangeMap(list)
      ensures after == Leaves(tree.hash, values + ChangeMap(list), keyAt + sorted)
    {
      before := Leaves(tree.hash, values, keyAt);
      after := ChangesUpdate(tree.hash, tree.b, store.nodes, values, indexes, keyAt, list, sorted, before, res, levels);
    }

    /** storage/storage.go:177-178: the leaves of the changes and the tree above them. */
    method UpdateTree(list: seq<StateChange>, leafCount: nat) returns (res: UpdateResult, ghost levels: seq<Nodes>)
      requires tree.b >= 2 && list != [] && TreeHeight(tree.b, leafCount) <= 255
      requires forall i :: 0 <= i < |list| ==> list[i].index.Some?
      ensures NodesOf(tree.hash, list, res.leaves) && res.height <= 255
      ensures IsUpdate(tree.hash, tree.b, tree.store.nodes, res.leaves, leafCount, res, levels)
    {
      var nodes := ComputeUpdatedTreeNodes(list);
      res, levels := tree.Update(nodes, leafCount);
    }

    /** storage/storage.go:172-183 */
    method ComputeMerkleUpdate(changes: seq<StateChange>)
      returns (list: seq<StateChange>, res: UpdateResult, ghost sorted: seq<Bytes>, ghost levels: seq<Nodes>)
      requires Valid() && DistinctKeys(changes) && changes != []
      requires forall i :: 0 <= i < |changes| ==> changes[i].prevIndex.None?
      requires TreeHeight(tree.b, |keyAt| + |changes|) <= 255
      ensures DistinctKeys(list) && ChangeMap(list) == ChangeMap(changes) && NodesOf(tree.hash, list, res.leaves)
      ensures PrevLoaded(list, values) && res.leafCount == |keyAt| + |sorted|
      ensures StrictlySorted(sorted) && KeySet(sorted) == ChangeMap(changes).Keys - values.Keys
      ensures Prepared(changes, list, sorted, res, levels)
    {
      var leafCount: nat;
      list, leafCount, sorted := AssignTreeIndexes(changes);
      AssignedFits(tree.b, values, indexes, keyAt, list, sorted);
      SortedKeySet(list, values, indexes, keyAt, sorted);
      res, levels := UpdateTree(list, leafCount);
    }

    /** storage/storage.go:207: the values and the indexes. */
    method CommitIndexed(list: seq<StateChange>, ghost sorted: seq<Bytes>)
      requires Agrees(values, indexes, keyAt) && Assigned(list, indexes, sorted, |keyAt|) && DistinctKeys(list)
      modifies this
      ensures values == old(values) + ChangeMap(list) && keyAt == old(keyAt) + sorted
      ensures Agrees(values, indexes, keyAt)
    {
      AssignedIndexes(list, indexes, sorted, |keyAt|);
      CommitStateChanges(list);
      IndexesExtend(old(values), old(indexes), keyAt, list, sorted, indexes);
      keyAt := keyAt + sorted;
    }

    /** storage/storage.go:200-210: the tree in the store then has the root that was computed for the block. */
    method WriteStateMerkleTree(changes: seq<StateChange>, list: seq<StateChange>, res: UpdateResult,
                                ghost sorted: seq<Bytes>, ghost levels: seq<Nodes>)
      requires Valid() && Prepared(changes, list, sorted, res, levels)
      modifies this, store
      ensures Valid()
      ensures values == old(values) + ChangeMap(changes) && keyAt == old(keyAt) + sorted
      ensures tree.RootNode() == Some(res.root)
      ensures keyAt != [] && res.root.data == FullRoot(tree.hash, tree.b, Leaves(tree.hash, values, keyAt))
    {
      ghost var before, after := TreeBeforeAfter(changes, list, sorted, res, levels);
      CommitIndexed(list, sorted);
      tree.CommitUpdate(res, before, after, levels);
      StoredRootIsFull(res.root);
    }

    /** storage/storage.go:172-183, 200-210: the changes go into the state and into the tree. */
    method CommitChanges(changes: seq<StateChange>)
      returns (list: seq<StateChange>, merkle: (nat, Bytes), ghost sorted: seq<Bytes>)
      requires Valid() && DistinctKeys(changes) && changes != []
      requires forall i :: 0 <= i < |changes| ==> changes[i].prevIndex.None?
      requires TreeHeight(tree.b, |keyAt| + |changes|) <= 255
      modifies this, store
      ensures Valid() && values == old(values) + ChangeMap(changes) && keyAt == old(keyAt) + sorted
      ensures StrictlySorted(sorted) && KeySet(sorted) == ChangeMap(changes).Keys - old(values).Keys
      ensures ChangeMap(list) == ChangeMap(changes) && PrevLoaded(list, old(values))
      ensures keyAt != [] && merkle.0 == |keyAt|
      ensures merkle.1 == FullRoot(tree.hash, tree.b, Leaves(tree.hash, values, keyAt))
    {
      var res: UpdateResult;
      ghost var levels;
      list, res, sorted, levels := ComputeMerkleUpdate(changes);
      WriteStateMerkleTree(changes, list, res, sorted, levels);
      merkle := (res.leafCount, res.root.data);
    }

    /**
     storage/storage.go:140-170 for the state of one block.  Afterwards every changed key reads its new value
     and every other key the value it had, and state and tree agree again; the index of every key depends
     only on the state before and on the set of changes, not on the order of the list.
     */
    method Commit(changes: seq<StateChange>)
      returns (list: seq<StateChange>, merkle: Option<(nat, Bytes)>, ghost sorted: seq<Bytes>)
      requires Valid() && DistinctKeys(changes)
      requires forall i :: 0 <= i < |changes| ==> changes[i].prevIndex.None?
      requires TreeHeight(tree.b, |keyAt| + |changes|) <= 255
      modifies this, store
      ensures Valid()
      ensures forall i :: 0 <= i < |changes| ==> GetState(changes[i].key) == Some(changes[i].value)
      ensures forall key :: !IsChanged(changes, key) ==> GetState(key) == old(GetState(key))
      ensures values == old(values) + ChangeMap(changes)
      ensures StrictlySorted(sorted) && KeySet(sorted) == ChangeMap(changes).Keys - old(values).Keys
      ensures keyAt == old(keyAt) + sorted
      ensures ChangeMap(list) == ChangeMap(changes) && PrevLoaded(list, old(values))
      ensures merkle.None? <==> changes == []
      ensures merkle.Some? ==>
        && keyAt != []
        && merkle.value.0 == |keyAt|
        && merkle.value.1 == FullRoot(tree.hash, tree.b, Leaves(tree.hash, values, keyAt))
    {
      sorted := [];
      StateAfter(values, changes);
      if |changes| == 0 {
        assert KeySet(sorted) == ChangeMap(changes).Keys - values.Keys;
        return changes, None, sorted;
      }
      var tree';
      list, tree', sorted := CommitChanges(changes);
      merkle := Some(tree');
    }

    lemma StoredRootIsFull(root: Node)
      requires Valid() && tree.RootNode() == Some(root)
      ensures keyAt != [] && root.data == FullRoot(tree.hash, tree.b, Leaves(tree.hash, values, keyAt))
    {
      tree.RootIsFull(Leaves(tree.hash, values, keyAt));
    }
  }

  /** The update computed for a list of changes takes the leaves before them to those after them. */
  lemma ChangesUpdate(hash: HashFn, b: nat, tree: Nodes, values: map<Bytes, Bytes>, indexes: map<Bytes, nat>,
                      keyAt: seq<Bytes>, list: seq<StateChange>, sorted: seq<Bytes>, before: seq<Bytes>,
                      res: UpdateResult, levels: seq<Nodes>)
    returns (after: seq<Bytes>)
    requires b >= 2 && Agrees(values, indexes, keyAt) && Assigned(list, indexes, sorted, |keyAt|)
    requires DistinctKeys(list) && list != [] && NodesOf(hash, list, res.leaves)
    requires before == Leaves(hash, values, keyAt)
    requires IsUpdate(hash, b, tree, res.leaves, |keyAt| + |sorted|, res, levels) && res.height <= 255
    ensures Updates(hash, b, tree, before, after, res, levels)
    ensures forall key :: key in keyAt + sorted ==> key in values + ChangeMap(list)
    ensures after == Leaves(hash, values + ChangeMap(list), keyAt + sorted)
  {
    after := LeavesAfter(hash, values, indexes, keyAt, list, sorted, before, res.leaves);
  }

  lemma LeavesAfter(hash: HashFn, values: map<Bytes, Bytes>, indexes: map<Bytes, nat>, keyAt: seq<Bytes>,
                    list: seq<StateChange>, sorted: seq<Bytes>, before: seq<Bytes>, nodes: seq<Node>)
    returns (after: seq<Bytes>)
    requires Agrees(values, indexes, keyAt) && Assigned(list, indexes, sorted, |keyAt|)
    requires DistinctKeys(list) && NodesOf(hash, list, nodes) && before == Leaves(hash, values, keyAt)
    ensures LeafUpdate(Latest(nodes), before, after) && DistinctPositions(nodes) && |after| == |keyAt| + |sorted|
    ensures forall key :: key in keyAt + sorted ==> key in values + ChangeMap(list)
    ensures after == Leaves(hash, values + ChangeMap(list), keyAt + sorted)
  {
    KeysExtend(values, indexes, keyAt, list, sorted);
    NodesDistinct(hash, values, indexes, keyAt, list, sorted, nodes);
    LeavesExtend(hash, values, indexes, keyAt, list, sorted, nodes);
    after := Leaves(hash, values + ChangeMap(list), keyAt + sorted);
  }

  lemma SamePrevValues(list: seq<StateChange>, loaded: seq<StateChange>, values: map<Bytes, Bytes>)
    requires |list| == |loaded| && PrevLoaded(loaded, values)
    requires forall i :: 0 <= i < |list| ==> SameButIndex(list[i], loaded[i])
    ensures PrevLoaded(list, values)
  {
    forall i | 0 <= i < |list|
      ensures list[i].prevValue == if list[i].key in values then Some(values[list[i].key]) else None
    {
      assert SameButIndex(list[i], loaded[i]);
    }
  }

  lemma SameChanges(list: seq<StateChange>, loaded: seq<StateChange>, changes: seq<StateChange>)
    requires |changes| == |loaded| == |list| && DistinctKeys(changes)
    requires forall i :: 0 <= i < |list| ==> SameButIndex(list[i], loaded[i])
    requires forall i :: 0 <= i < |loaded| ==> loaded[i].key == changes[i].key && loaded[i].value == changes[i].value
    ensures DistinctKeys(list) && ChangeMap(list) == ChangeMap(changes)
  {
    forall i | 0 <= i < |list|
      ensures list[i].key == changes[i].key && list[i].value == changes[i].value
    {
      assert SameButIndex(list[i], loaded[i]);
    }
    SameChangeMap(list, changes);
  }

  /**
   The root and the index assignment are determined by the state before and the set of changes: two
   orders of one change list lead to the same keys by index and the same root.
   */
  lemma RootIsDeterministic(hash: HashFn, b: nat, values: map<Bytes, Bytes>, keyAt: seq<Bytes>, list1: seq<StateChange>,
                            sorted1: seq<Bytes>, list2: seq<StateChange>, sorted2: seq<Bytes>)
    requires b >= 2 && DistinctKeys(list1) && DistinctKeys(list2)
    requires forall key, value :: HasChange(list1, key, value) <==> HasChange(list2, key, value)
    requires StrictlySorted(sorted1) && KeySet(sorted1) == ChangeMap(list1).Keys - values.Keys
    requires StrictlySorted(sorted2) && KeySet(sorted2) == ChangeMap(list2).Keys - values.Keys
    requires forall key :: key in keyAt + sorted1 ==> key in values + ChangeMap(list1)
    requires keyAt + sorted1 != []
    ensures keyAt + sorted1 == keyAt + sorted2 && values + ChangeMap(list1) == values + ChangeMap(list2)
    ensures FullRoot(hash, b, Leaves(hash, values + ChangeMap(list1), keyAt + sorted1)) ==
      FullRoot(hash, b, Leaves(hash, values + ChangeMap(list2), keyAt + sorted2))
  {
    SameSetSameMap(list1, list2);
    SortedUnique(sorted1, sorted2);
  }

  /**
   The root commits to every value: states over the same keys with one root have values of equal hash under
   every key, unless two different inputs collide inside their trees.
   */
  lemma RootBindsState(hash: HashFn, b: nat, keyAt: seq<Bytes>, v1: map<Bytes, Bytes>, v2: map<Bytes, Bytes>, size: nat)
    requires b >= 2 && keyAt != [] && HashSized(hash, size)
    requires forall key :: key in keyAt ==> key in v1 && key in v2
    requires FullRoot(hash, b, Leaves(hash, v1, keyAt)) == FullRoot(hash, b, Leaves(hash, v2, keyAt))
    ensures TreesCollide(hash, b, Leaves(hash, v1, keyAt), Leaves(hash, v2, keyAt))
      || forall key :: key in keyAt ==> hash(v1[key]) == hash(v2[key])
  {
    var l1, l2 := Leaves(hash, v1, keyAt), Leaves(hash, v2, keyAt);
    if l1 != l2 {
      SameRootCollides(hash, b, l1, l2, size);
    } else {
      forall key | key in keyAt
        ensures hash(v1[key]) == hash(v2[key])
      {
        var i :| 0 <= i < |keyAt| && keyAt[i] == key;
        assert l1[i] == l2[i];
      }
    }
  }

  ghost predicate HasChange(list: seq<StateChange>, key: Bytes, value: Bytes)
  {
    exists i :: 0 <= i < |list| && list[i].key == key && list[i].value == value
  }

  lemma ChangeMapHas(list: seq<StateChange>, key: Bytes, value: Bytes)
    requires DistinctKeys(list)
    ensures HasChange(list, key, value) <==> key in ChangeMap(list) && ChangeMap(list)[key] == value
  {
    ChangeMapKeys(list, key);
    if i :| 0 <= i < |list| && list[i].key == key {
      ChangeMapAt(list, i);
    }
    if HasChange(list, key, value) {
      var i :| 0 <= i < |list| && list[i].key == key && list[i].value == value;
      ChangeMapAt(list, i);
    }
  }

  lemma SameSetSameMap(list1: seq<StateChange>, list2: seq<StateChange>)
    requires DistinctKeys(list1) && DistinctKeys(list2)
    requires forall key, value :: HasChange(list1, key, value) <==> HasChange(list2, key, value)
    ensures ChangeMap(list1) == ChangeMap(list2)
  {
    var m1, m2 := ChangeMap(list1), ChangeMap(list2);
    forall key | key in m1
      ensures key in m2 && m1[key] == m2[key]
    {
      ChangeMapHas(list1, key, m1[key]);
      ChangeMapHas(list2, key, m1[key]);
    }
    forall key | key in m2
      ensures key in m1
    {
      ChangeMapHas(list2, key, m2[key]);
      ChangeMapHas(list1, key, m2[key]);
    }
  }
}
