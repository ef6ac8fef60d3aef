/**
 State storage on top of the Merkle tree: storage/state_store.go and the state part of
 storage/storage.go.

 A tree index is stored as the bytes of PositionBytes without the level; TreeCalc proves that
 encoding reversible, and here an index is a number.  A nil state value is the empty value.
 */
module StateStorage {
  import opened Options
  import opened ByteStrings

  /** core/state_change.go */
  datatype StateChange = StateChange(
    key: Bytes, value: Bytes, prevValue: Option<Bytes>, prevIndex: Option<nat>, index: Option<nat>)

  ghost predicate DistinctKeys(list: seq<StateChange>)
  {
    forall i, j :: 0 <= i < j < |list| ==> list[i].key != list[j].key
  }

  /** The changes as a map; what the source's block executor hands over in arbitrary order. */
  function ChangeMap(list: seq<StateChange>): map<Bytes, Bytes>
  {
    if list == [] then map[] else ChangeMap(list[..|list| - 1])[list[|list| - 1].key := list[|list| - 1].value]
  }

  // ----- Key order: sort.Strings -----

  /** Byte-wise lexicographic order. */
  predicate Less(a: Bytes, b: Bytes)
  {
    b != [] && (a == [] || a[0] < b[0] || (a[0] == b[0] && Less(a[1..], b[1..])))
  }

  /** What decides the order of `a` and `b` after `k` equal bytes: the end of `a`, or a smaller byte of `a`. */
  predicate DiffersAt(a: Bytes, b: Bytes, k: nat)
  {
    && k <= |a| && k < |b|
    && a[..k] == b[..k]
    && (k == |a| || a[k] < b[k])
  }

  /** `a` is before `b` exactly when it is a proper prefix or has the smaller byte at the first difference. */
  lemma {:induction false} LessIff(a: Bytes, b: Bytes)
    ensures Less(a, b) <==> exists k: nat :: DiffersAt(a, b, k)
  {
    if a == [] || b == [] || a[0] != b[0] {
      if Less(a, b) {
        assert DiffersAt(a, b, 0);
      }
      if k: nat :| DiffersAt(a, b, k) {
        assert k > 0 ==> a[..k][0] == b[..k][0];
      }
    } else {
      LessIff(a[1..], b[1..]);
      if k: nat :| DiffersAt(a[1..], b[1..], k) {
        assert a[..k + 1] == [a[0]] + a[1..][..k] && b[..k + 1] == [b[0]] + b[1..][..k];
        assert DiffersAt(a, b, k + 1);
      }
      if k: nat :| DiffersAt(a, b, k) {
        assert a[1..][..k - 1] == a[..k][1..] && b[1..][..k - 1] == b[..k][1..];
        assert DiffersAt(a[1..], b[1..], k - 1);
      }
    }
  }

  lemma {:induction false} LessTransitive(a: Bytes, b: Bytes, c: Bytes)
    requires Less(a, b) && Less(b, c)
    ensures Less(a, c)
  {
    if a != [] && a[0] == b[0] == c[0] {
      LessTransitive(a[1..], b[1..], c[1..]);
    }
  }

  lemma {:induction false} LessTotal(a: Bytes, b: Bytes)
    ensures a == b || Less(a, b) || Less(b, a)
  {
    if a != [] && b != [] && a[0] == b[0] {
      LessTotal(a[1..], b[1..]);
      assert a == [a[0]] + a[1..] && b == [b[0]] + b[1..];
    }
  }

  lemma {:induction false} LessIrreflexive(a: Bytes)
    ensures !Less(a, a)
  {
    if a != [] {
      LessIrreflexive(a[1..]);
    }
  }

  ghost predicate StrictlySorted(keys: seq<Bytes>)
  {
    forall i, j :: 0 <= i < j < |keys| ==> Less(keys[i], keys[j])
  }

  function KeySet(keys: seq<Bytes>): set<Bytes>
  {
    set k | k in keys
  }

  function Insert(keys: seq<Bytes>, key: Bytes): seq<Bytes>
  {
    if keys == [] || Less(key, keys[0]) then [key] + keys else [keys[0]] + Insert(keys[1..], key)
  }

  lemma {:induction false} InsertSorts(keys: seq<Bytes>, key: Bytes)
    requires StrictlySorted(keys) && key !in keys
    ensures StrictlySorted(Insert(keys, key))
    ensures KeySet(Insert(keys, key)) == KeySet(keys) + {key} && |Insert(keys, key)| == |keys| + 1
  {
    var r := Insert(keys, key);
    if keys == [] {
    } else if Less(key, keys[0]) {
      forall j | 0 <= j < |keys|
        ensures Less(key, keys[j])
      {
        if j > 0 {
          LessTransitive(key, keys[0], keys[j]);
        }
      }
    } else {
      var rest := Insert(keys[1..], key);
      InsertSorts(keys[1..], key);
      LessTotal(key, keys[0]);
      forall j | 0 <= j < |rest|
        ensures Less(keys[0], rest[j])
      {
        assert rest[j] in KeySet(rest);
        if rest[j] != key {
          var k :| 0 <= k < |keys[1..]| && keys[1..][k] == rest[j];
          assert keys[1 + k] == rest[j];
        }
      }
      assert r == [keys[0]] + rest;
      assert keys == [keys[0]] + keys[1..];
    }
  }

  /** A set has one sorted listing. */
  lemma {:induction false} SortedUnique(xs: seq<Bytes>, ys: seq<Bytes>)
    requires StrictlySorted(xs) && StrictlySorted(ys) && KeySet(xs) == KeySet(ys)
    ensures xs == ys
  {
    if xs == [] {
      assert forall key :: key in ys ==> key in KeySet(ys);
    } else {
      assert xs[0] in KeySet(ys);
      var k :| 0 <= k < |ys| && ys[k] == xs[0];
      assert ys[0] in KeySet(xs);
      var j :| 0 <= j < |xs| && xs[j] == ys[0];
      if j != 0 {
        if k != 0 {
          LessTransitive(xs[0], ys[0], xs[0]);
        }
        LessIrreflexive(xs[0]);
      }
      assert xs[0] == ys[0];
      TailKeys(xs);
      TailKeys(ys);
      SortedUnique(xs[1..], ys[1..]);
      assert xs == [xs[0]] + xs[1..] && ys == [ys[0]] + ys[1..];
    }
  }

  lemma TailKeys(xs: seq<Bytes>)
    requires StrictlySorted(xs) && xs != []
    ensures KeySet(xs[1..]) == KeySet(xs) - {xs[0]}
  {
    forall k | 1 <= k < |xs|
      ensures xs[k] != xs[0]
    {
      LessIrreflexive(xs[0]);
    }
    assert xs == [xs[0]] + xs[1..];
    forall key | key in xs[1..]
      ensures key != xs[0]
    {
      var k :| 0 <= k < |xs[1..]| && xs[1..][k] == key;
      assert xs[k + 1] == key;
    }
  }

  method SortStrings(keys: seq<Bytes>) returns (sorted: seq<Bytes>)
    requires forall i, j :: 0 <= i < j < |keys| ==> keys[i] != keys[j]
    ensures StrictlySorted(sorted) && KeySet(sorted) == KeySet(keys) && |sorted| == |keys|
  {
    sorted := [];
    for i := 0 to |keys|
      invariant StrictlySorted(sorted) && KeySet(sorted) == KeySet(keys[..i]) && |sorted| == i
    {
      assert keys[..i + 1] == keys[..i] + [keys[i]];
      assert keys[i] !in KeySet(keys[..i]);
      assert keys[i] !in KeySet(sorted);
      InsertSorts(sorted, keys[i]);
      sorted := Insert(sorted, keys[i]);
    }
    assert keys[..|keys|] == keys;
  }

  // ----- Index assignment -----

  /** Only the tree index differs. */
  ghost predicate SameButIndex(a: StateChange, b: StateChange)
  {
    a.key == b.key && a.value == b.value && a.prevValue == b.prevValue && a.prevIndex == b.prevIndex
  }

  /** `sorted` lists the keys of the changes that have no index yet. */
  ghost predicate NewKeys(list: seq<StateChange>, sorted: seq<Bytes>)
  {
    forall key :: key in sorted <==> exists i :: 0 <= i < |list| && list[i].key == key && list[i].prevIndex.None?
  }

  /** A known key keeps its index; a new one gets its place among the sorted new keys, counted from `count`. */
  ghost predicate Indexed(sc: StateChange, sorted: seq<Bytes>, count: nat)
  {
    && sc.index.Some?
    && (sc.prevIndex.Some? ==> sc.index == sc.prevIndex)
    && (sc.prevIndex.None? ==> count <= sc.index.value < count + |sorted| && sorted[sc.index.value - count] == sc.key)
  }

  /** storage/state_store.go:38-57, first loop. */
  method CollectNewKeys(list: seq<StateChange>)
    returns (r: seq<StateChange>, newKeys: seq<Bytes>, scByKey: map<Bytes, nat>)
    requires DistinctKeys(list)
    ensures |r| == |list| && forall i :: 0 <= i < |list| ==> SameButIndex(r[i], list[i])
    ensures forall i :: 0 <= i < |r| && r[i].prevIndex.Some? ==> r[i].index == r[i].prevIndex
    ensures forall key :: key in newKeys <==> key in scByKey
    ensures forall key :: key in scByKey ==>
      scByKey[key] < |r| && r[scByKey[key]].key == key && r[scByKey[key]].prevIndex.None?
    ensures forall i :: 0 <= i < |r| && r[i].prevIndex.None? ==> r[i].key in scByKey && scByKey[r[i].key] == i
    ensures forall i, j :: 0 <= i < j < |newKeys| ==> newKeys[i] != newKeys[j]
  {
    r, newKeys, scByKey := list, [], map[];
    for i := 0 to |list|
      invariant |r| == |list| && forall k :: 0 <= k < |list| ==> SameButIndex(r[k], list[k])
      invariant forall k :: 0 <= k < i && r[k].prevIndex.Some? ==> r[k].index == r[k].prevIndex
      invariant forall key :: key in newKeys <==> key in scByKey
      invariant forall key :: key in scByKey ==>
        scByKey[key] < i && r[scByKey[key]].key == key && r[scByKey[key]].prevIndex.None?
      invariant forall k :: 0 <= k < i && r[k].prevIndex.None? ==> r[k].key in scByKey && scByKey[r[k].key] == k
      invariant forall k, j :: 0 <= k < j < |newKeys| ==> newKeys[k] != newKeys[j]
    {
      var sc := r[i];
      if sc.prevIndex.Some? {
        r := r[i := sc.(index := sc.prevIndex)];
      } else {
        assert sc.key !in scByKey;
        newKeys := newKeys + [sc.key];
        scByKey := scByKey[sc.key := i];
      }
    }
  }

  /** storage/state_store.go:38-57, second loop: the sorted keys get consecutive indexes. */
  method AssignIndexes(list: seq<StateChange>, keys: seq<Bytes>, scByKey: map<Bytes, nat>, prevLeafCount: nat)
    returns (r: seq<StateChange>, leafCount: nat)
    requires StrictlySorted(keys) && forall m :: 0 <= m < |keys| ==> keys[m] in scByKey
    requires forall key :: key in scByKey ==>
      scByKey[key] < |list| && list[scByKey[key]].key == key && list[scByKey[key]].prevIndex.None?
    ensures |r| == |list| && forall k :: 0 <= k < |list| ==> SameButIndex(r[k], list[k])
    ensures forall k :: 0 <= k < |list| && list[k].prevIndex.Some? ==> r[k] == list[k]
    ensures leafCount == prevLeafCount + |keys|
    ensures forall m :: 0 <= m < |keys| ==> r[scByKey[keys[m]]].index == Some(prevLeafCount + m)
  {
    r, leafCount := list, prevLeafCount;
    for j := 0 to |keys|
      invariant |r| == |list| && forall k :: 0 <= k < |list| ==> SameButIndex(r[k], list[k])
      invariant forall k :: 0 <= k < |list| && list[k].prevIndex.Some? ==> r[k] == list[k]
      invariant leafCount == prevLeafCount + j
      invariant forall m :: 0 <= m < j ==> r[scByKey[keys[m]]].index == Some(prevLeafCount + m)
    {
      var i := scByKey[keys[j]];
      LessIrreflexive(keys[j]);
      assert forall m :: 0 <= m < j ==> keys[m] != keys[j];
      r := r[i := r[i].(index := Some(leafCount))];
      leafCount := leafCount + 1;
    }
  }

  /** storage/state_store.go:38-57 */
  method SetNewTreeIndexes(list: seq<StateChange>, prevLeafCount: nat)
    returns (r: seq<StateChange>, leafCount: nat, ghost sorted: seq<Bytes>)
    requires DistinctKeys(list)
    ensures |r| == |list| && forall i :: 0 <= i < |list| ==> SameButIndex(r[i], list[i])
    ensures StrictlySorted(sorted) && NewKeys(list, sorted) && leafCount == prevLeafCount + |sorted|
    ensures forall i :: 0 <= i < |r| ==> Indexed(r[i], sorted, prevLeafCount)
  {
    var marked, newKeys, scByKey := CollectNewKeys(list);
    var keys := SortStrings(newKeys);
    sorted := keys;
    SameKeys(keys, newKeys);
    r, leafCount := AssignIndexes(marked, keys, scByKey, prevLeafCount);
    forall i | 0 <= i < |r|
      ensures Indexed(r[i], sorted, prevLeafCount)
    {
      assert SameButIndex(r[i], marked[i]);
      if marked[i].prevIndex.None? {
        var m :| 0 <= m < |keys| && keys[m] == marked[i].key;
        assert scByKey[keys[m]] == i;
      }
    }
    forall key
      ensures key in sorted <==> exists i :: 0 <= i < |list| && list[i].key == key && list[i].prevIndex.None?
    {
      if key in sorted {
        assert SameButIndex(marked[scByKey[key]], list[scByKey[key]]);
      }
      if i :| 0 <= i < |list| && list[i].key == key && list[i].prevIndex.None? {
        assert SameButIndex(marked[i], list[i]);
      }
    }
  }

  lemma SameKeys(a: seq<Bytes>, b: seq<Bytes>)
    requires KeySet(a) == KeySet(b)
    ensures forall key :: key in a <==> key in b
  {
    assert forall key :: key in a <==> key in KeySet(a);
    assert forall key :: key in b <==> key in KeySet(b);
  }
}
