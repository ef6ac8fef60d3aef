/**
 What the Merkle tree of merkle/tree.go computes: a from-scratch definition of every row over all
 leaves, the partial recomputation the source performs instead, and the proof that they agree.

 The hash function is a parameter, as in the source's configuration.
 */
module MerkleSpec {
  import opened Options
  import opened ByteStrings
  import opened TreeCalc

  type HashFn = Bytes -> Bytes
  type Nodes = map<Position, Bytes>

  // ----- From scratch -----

  function Concat(parts: seq<Bytes>): Bytes
  {
    if parts == [] then [] else parts[0] + Concat(parts[1..])
  }

  function Min(a: nat, b: nat): nat
  {
    if a < b then a else b
  }

  /** The nodes of `row` that form group `g`. */
  function Children(b: nat, row: seq<Bytes>, g: nat): seq<Bytes>
    requires b >= 2 && g < Groups(b, |row|)
  {
    GroupsIs(b, |row|, g);
    row[g * b..Min((g + 1) * b, |row|)]
  }

  function NextRow(hash: HashFn, b: nat, row: seq<Bytes>): seq<Bytes>
    requires b >= 2
  {
    seq(Groups(b, |row|), g requires 0 <= g < Groups(b, |row|) => hash(Concat(Children(b, row, g))))
  }

  /** The row at `level` of a full rebuild over `leaves`. */
  function RowAt(hash: HashFn, b: nat, leaves: seq<Bytes>, level: nat): seq<Bytes>
    requires b >= 2
  {
    if level == 0 then leaves else NextRow(hash, b, RowAt(hash, b, leaves, level - 1))
  }

  lemma {:induction false} RowAtSize(hash: HashFn, b: nat, leaves: seq<Bytes>, level: nat)
    requires b >= 2
    ensures |RowAt(hash, b, leaves, level)| == RowSize(b, |leaves|, level)
  {
    if level > 0 {
      RowAtSize(hash, b, leaves, level - 1);
      RowSizeStep(b, |leaves|, level - 1);
    }
  }

  /** The root of a full rebuild. */
  function FullRoot(hash: HashFn, b: nat, leaves: seq<Bytes>): Bytes
    requires b >= 2 && leaves != []
  {
    var top := TreeHeight(b, |leaves|) - 1;
    RowAtSize(hash, b, leaves, top);
    TopRow(b, |leaves|, top);
    RowAt(hash, b, leaves, top)[0]
  }

  // ----- Partial recomputation -----

  /** The child at `index` that Load and SetNode put into a group: an updated node, or a stored one within the row. */
  function Slot(nodes: Nodes, ch: Nodes, level: nat, rowSize: nat, index: nat): Option<Bytes>
  {
    var p := Position(level, index);
    if p in ch then Some(ch[p])
    else if index < rowSize && p in nodes then Some(nodes[p])
    else None
  }

  /** merkle/types.go:151-162: the bytes hashed for `count` children from `index` on, those present in order. */
  function ChildBytes(nodes: Nodes, ch: Nodes, level: nat, rowSize: nat, index: nat, count: nat): Bytes
    decreases count
  {
    if count == 0 then [] else
    var slot := Slot(nodes, ch, level, rowSize, index);
    (if slot.Some? then slot.value else []) + ChildBytes(nodes, ch, level, rowSize, index + 1, count - 1)
  }

  /** Positions of the parents of the nodes in `ch`. */
  function Parents(b: nat, ch: Nodes): set<Position>
    requires b >= 2
  {
    set p | p in ch :: Position(p.level + 1, GroupOf(b, p.index))
  }

  /** merkle/tree.go:74-90: the recomputed nodes one level up. */
  function ParentChanges(hash: HashFn, b: nat, nodes: Nodes, ch: Nodes, level: nat, rowSize: nat): Nodes
    requires b >= 2
  {
    map p | p in Parents(b, ch) :: hash(ChildBytes(nodes, ch, level, rowSize, FirstNodeOfGroup(b, p.index), b))
  }

  /** One entry of `levels` is the recomputation one level above the entry before it. */
  ghost predicate LevelFollows(hash: HashFn, b: nat, nodes: Nodes, n: nat, levels: seq<Nodes>, level: nat)
    requires b >= 2 && level + 1 < |levels|
  {
    levels[level + 1] == ParentChanges(hash, b, nodes, levels[level], level, RowSize(b, n, level))
  }

  /** merkle/tree.go:51-72: for each level of a tree with `n` leaves, what changes when the leaves `ch` do. */
  ghost predicate Recomputed(hash: HashFn, b: nat, nodes: Nodes, ch: Nodes, n: nat, levels: seq<Nodes>)
    requires b >= 2
  {
    && |levels| == TreeHeight(b, n)
    && levels[0] == ch
    && forall level :: 0 <= level < |levels| - 1 ==> LevelFollows(hash, b, nodes, n, levels, level)
  }

  predicate InLevels(levels: seq<Nodes>, p: Position)
  {
    p.level < |levels| && p in levels[p.level]
  }

  /** `after` is `nodes` with all recomputed levels written over it. */
  ghost predicate Committed(nodes: Nodes, levels: seq<Nodes>, after: Nodes)
  {
    && (forall p :: p in after <==> p in nodes || InLevels(levels, p))
    && (forall p :: p in after ==> after[p] == if InLevels(levels, p) then levels[p.level][p] else nodes[p])
  }

  // ----- Agreement -----

  ghost predicate StoredRow(nodes: Nodes, level: nat, row: seq<Bytes>)
  {
    forall i :: 0 <= i < |row| ==> Position(level, i) in nodes && nodes[Position(level, i)] == row[i]
  }

  ghost predicate AtLevel(ch: Nodes, level: nat)
  {
    forall p :: p in ch ==> p.level == level
  }

  /** Node `i` of the new row was recomputed, or is the stored one. */
  ghost predicate Covered(ch: Nodes, level: nat, stored: bool, old': seq<Bytes>, new': seq<Bytes>, i: nat)
    requires i < |new'|
  {
    Position(level, i) in ch || (stored && i < |old'| && old'[i] == new'[i])
  }

  /**
   `ch` is the difference between the stored row and the new one: it agrees with the new row where
   it is defined, and the stored row does elsewhere.
   */
  ghost predicate CoversRow(ch: Nodes, level: nat, stored: bool, old': seq<Bytes>, new': seq<Bytes>)
  {
    && AtLevel(ch, level)
    && |old'| <= |new'|
    && (forall p :: p in ch ==> p.index < |new'| && ch[p] == new'[p.index])
    && (forall i :: 0 <= i < |new'| ==> Covered(ch, level, stored, old', new', i))
  }

  lemma ConcatSlice(row: seq<Bytes>, lo: nat, hi: nat)
    requires lo < hi <= |row|
    ensures Concat(row[lo..hi]) == row[lo] + Concat(row[lo + 1..hi])
  {
    assert row[lo..hi][1..] == row[lo + 1..hi];
  }

  /** A child read from a covered row is that of the new row. */
  lemma SlotIsNew(nodes: Nodes, ch: Nodes, level: nat, stored: bool, old': seq<Bytes>, new': seq<Bytes>, index: nat)
    requires CoversRow(ch, level, stored, old', new')
    requires stored ==> StoredRow(nodes, level, old')
    ensures Slot(nodes, ch, level, |new'|, index) == if index < |new'| then Some(new'[index]) else None
  {
    if index < |new'| {
      assert Covered(ch, level, stored, old', new', index);
    }
  }

  /** Children read from a covered row are those of the new row. */
  lemma {:induction false} ChildBytesAreNew(nodes: Nodes, ch: Nodes, level: nat, stored: bool, old': seq<Bytes>,
                                            new': seq<Bytes>, index: nat, count: nat)
    requires CoversRow(ch, level, stored, old', new')
    requires stored ==> StoredRow(nodes, level, old')
    ensures ChildBytes(nodes, ch, level, |new'|, index, count) ==
      if index < |new'| then Concat(new'[index..Min(index + count, |new'|)]) else []
    decreases count
  {
    if count > 0 {
      ChildBytesAreNew(nodes, ch, level, stored, old', new', index + 1, count - 1);
      SlotIsNew(nodes, ch, level, stored, old', new', index);
      if index < |new'| {
        var hi := Min(index + count, |new'|);
        ConcatSlice(new', index, hi);
        assert index + 1 == |new'| ==> new'[index + 1..hi] == [];
      }
    }
  }

  /** A group loaded from a covered row hashes exactly the group's children in the new row. */
  lemma GroupIsNew(b: nat, nodes: Nodes, ch: Nodes, level: nat, stored: bool, old': seq<Bytes>, new': seq<Bytes>,
                   g: nat)
    requires b >= 2 && CoversRow(ch, level, stored, old', new')
    requires stored ==> StoredRow(nodes, level, old')
    requires g < Groups(b, |new'|)
    ensures ChildBytes(nodes, ch, level, |new'|, g * b, b) == Concat(Children(b, new', g))
  {
    GroupsIs(b, |new'|, g);
    assert (g + 1) * b == g * b + b;
    ChildBytesAreNew(nodes, ch, level, stored, old', new', g * b, b);
  }

  lemma UntouchedChild(b: nat, ch: Nodes, level: nat, g: nat, j: nat)
    requires b >= 2 && AtLevel(ch, level) && Position(level + 1, g) !in Parents(b, ch)
    requires g * b <= j < (g + 1) * b
    ensures Position(level, j) !in ch
  {
    GroupOfBounds(b, j);
    GroupUnique(b, g, GroupOf(b, j), j);
  }

  lemma UntouchedSlice(b: nat, ch: Nodes, level: nat, stored: bool, old': seq<Bytes>, new': seq<Bytes>, g: nat, lo: nat,
                       hi: nat)
    requires b >= 2 && CoversRow(ch, level, stored, old', new') && Position(level + 1, g) !in Parents(b, ch)
    requires g * b == lo < hi <= (g + 1) * b && hi <= |new'|
    ensures stored && hi <= |old'| && old'[lo..hi] == new'[lo..hi]
  {
    forall j | lo <= j < hi
      ensures stored && j < |old'| && old'[j] == new'[j]
    {
      UntouchedChild(b, ch, level, g, j);
      assert Covered(ch, level, stored, old', new', j);
    }
    UntouchedChild(b, ch, level, g, hi - 1);
    assert Covered(ch, level, stored, old', new', hi - 1);
  }

  /** A group none of whose children changed is the stored group, and not that of a lone old root. */
  lemma UntouchedGroup(b: nat, ch: Nodes, level: nat, stored: bool, old': seq<Bytes>, new': seq<Bytes>, g: nat)
    requires b >= 2 && CoversRow(ch, level, stored, old', new')
    requires g < Groups(b, |new'|) && Position(level + 1, g) !in Parents(b, ch)
    ensures stored && g < Groups(b, |old'|)
    ensures Children(b, old', g) == Children(b, new', g)
    ensures |new'| >= 2 ==> |old'| >= 2
  {
    GroupsIs(b, |new'|, g);
    var lo, end := g * b, (g + 1) * b;
    assert end == lo + b;
    var hi := Min(end, |new'|);
    UntouchedSlice(b, ch, level, stored, old', new', g, lo, hi);
    GroupsIs(b, |old'|, g);
  }

  lemma ChangedGroup(b: nat, ch: Nodes, level: nat, stored: bool, old': seq<Bytes>, new': seq<Bytes>, p: Position)
    requires b >= 2 && CoversRow(ch, level, stored, old', new') && p in Parents(b, ch)
    ensures p.level == level + 1 && p.index < Groups(b, |new'|)
  {
    var q :| q in ch && p == Position(q.level + 1, GroupOf(b, q.index));
    GroupOfBounds(b, q.index);
    GroupsIs(b, |new'|, p.index);
  }

  /** One level up the difference is again covered; past the old root everything is recomputed. */
  lemma LevelStep(hash: HashFn, b: nat, nodes: Nodes, ch: Nodes, level: nat, stored: bool, stored': bool,
                  old': seq<Bytes>, new': seq<Bytes>)
    requires b >= 2 && CoversRow(ch, level, stored, old', new') && |new'| >= 2
    requires stored ==> StoredRow(nodes, level, old')
    requires stored && |old'| >= 2 ==> stored'
    ensures CoversRow(ParentChanges(hash, b, nodes, ch, level, |new'|), level + 1, stored',
                      NextRow(hash, b, old'), NextRow(hash, b, new'))
  {
    var up := ParentChanges(hash, b, nodes, ch, level, |new'|);
    var oldUp, newUp := NextRow(hash, b, old'), NextRow(hash, b, new');
    GroupsMonotone(b, |old'|, |new'|);
    forall p | p in up
      ensures p.level == level + 1 && p.index < |newUp| && up[p] == newUp[p.index]
    {
      ChangedGroup(b, ch, level, stored, old', new', p);
      GroupIsNew(b, nodes, ch, level, stored, old', new', p.index);
    }
    var above := level + 1;
    forall i | 0 <= i < |newUp|
      ensures Covered(up, above, stored', oldUp, newUp, i)
    {
      if Position(above, i) !in up {
        UntouchedGroup(b, ch, level, stored, old', new', i);
      }
    }
  }

  /** The store of a tree over `leaves`: exactly the nodes of a full rebuild. */
  ghost predicate Canonical(hash: HashFn, b: nat, nodes: Nodes, leaves: seq<Bytes>)
    requires b >= 2
  {
    && (forall level :: 0 <= level < Levels(b, leaves) ==> StoredRow(nodes, level, RowAt(hash, b, leaves, level)))
    && (forall p :: p in nodes ==> p.level < Levels(b, leaves) && p.index < RowSize(b, |leaves|, p.level))
  }

  /** The bytes hashed are the parts one after the other. */
  lemma {:induction false} ConcatInOrder(xs: seq<Bytes>, ys: seq<Bytes>)
    ensures Concat(xs + ys) == Concat(xs) + Concat(ys)
    ensures |xs| == 1 ==> Concat(xs) == xs[0]
  {
    if xs == [] {
      assert xs + ys == ys;
    } else {
      ConcatInOrder(xs[1..], ys);
      assert (xs + ys)[1..] == xs[1..] + ys;
    }
  }

  /** Node `g` of the next row hashes the nodes of `row` from `g * b` on. */
  lemma ChildrenAt(b: nat, row: seq<Bytes>, g: nat)
    requires b >= 2 && g < Groups(b, |row|)
    ensures g * b < |row| && |Children(b, row, g)| == Min(b, |row| - g * b)
    ensures forall k :: 0 <= k < |Children(b, row, g)| ==> Children(b, row, g)[k] == row[g * b + k]
  {
    GroupsIs(b, |row|, g);
    GroupEnd(b, g);
    SliceAt(row, g * b, Min((g + 1) * b, |row|));
  }

  lemma GroupEnd(b: nat, g: nat)
    ensures (g + 1) * b == g * b + b
  {
  }

  lemma SliceAt(row: seq<Bytes>, lo: nat, hi: nat)
    requires lo <= hi <= |row|
    ensures forall k :: 0 <= k < hi - lo ==> row[lo..hi][k] == row[lo + k]
  {
  }

  /** In a canonical store every node above the leaves is the hash of its stored children, in index order. */
  lemma NodeHashesChildren(hash: HashFn, b: nat, nodes: Nodes, leaves: seq<Bytes>, p: Position)
    returns (parts: seq<Bytes>)
    requires b >= 2 && Canonical(hash, b, nodes, leaves) && p in nodes && p.level > 0
    ensures nodes[p] == hash(Concat(parts))
    ensures p.index * b < RowSize(b, |leaves|, p.level - 1)
    ensures |parts| == Min(b, RowSize(b, |leaves|, p.level - 1) - p.index * b)
    ensures forall k :: 0 <= k < |parts| ==> ChildAt(nodes, p, b, k, parts[k])
  {
    var below := RowAt(hash, b, leaves, p.level - 1);
    RowAtSize(hash, b, leaves, p.level - 1);
    RowAtSize(hash, b, leaves, p.level);
    ChildrenAt(b, below, p.index);
    parts := Children(b, below, p.index);
    assert StoredRow(nodes, p.level, RowAt(hash, b, leaves, p.level));
    assert Position(p.level, p.index) == p;
    assert StoredRow(nodes, p.level - 1, below);
  }

  ghost predicate ChildAt(nodes: Nodes, p: Position, b: nat, k: nat, data: Bytes)
    requires p.level > 0
  {
    var q := Position(p.level - 1, p.index * b + k);
    q in nodes && nodes[q] == data
  }

  /** Stored levels: none before the first leaf. */
  function Levels(b: nat, leaves: seq<Bytes>): nat
    requires b >= 2
  {
    if leaves == [] then 0 else TreeHeight(b, |leaves|)
  }

  /** `new'` is `old'` with the leaves in `ch` put in place; every index past the old leaves is among them. */
  ghost predicate LeafUpdate(ch: Nodes, old': seq<Bytes>, new': seq<Bytes>)
  {
    && AtLevel(ch, 0)
    && |old'| <= |new'|
    && (forall p :: p in ch ==> p.index < |new'| && new'[p.index] == ch[p])
    && (forall i :: 0 <= i < |new'| && Position(0, i) !in ch ==> i < |old'| && new'[i] == old'[i])
  }

  lemma {:induction false} ChangesCover(hash: HashFn, b: nat, nodes: Nodes, ch: Nodes, old': seq<Bytes>,
                                        new': seq<Bytes>, levels: seq<Nodes>, level: nat)
    requires b >= 2 && Canonical(hash, b, nodes, old') && LeafUpdate(ch, old', new') && new' != []
    requires Recomputed(hash, b, nodes, ch, |new'|, levels) && level < |levels|
    ensures CoversRow(levels[level], level, level < Levels(b, old'),
                      RowAt(hash, b, old', level), RowAt(hash, b, new', level))
    decreases level
  {
    if level > 0 {
      var l := level - 1;
      ChangesCover(hash, b, nodes, ch, old', new', levels, l);
      RowAtSize(hash, b, new', l);
      RowAtSize(hash, b, old', l);
      TopRow(b, |new'|, l);
      if old' != [] {
        TopRow(b, |old'|, l);
      }
      assert LevelFollows(hash, b, nodes, |new'|, levels, l);
      assert l < Levels(b, old') ==> StoredRow(nodes, l, RowAt(hash, b, old', l));
      LevelStep(hash, b, nodes, levels[l], l, l < Levels(b, old'), level < Levels(b, old'),
                RowAt(hash, b, old', l), RowAt(hash, b, new', l));
    }
  }

  lemma UpdatedRow(hash: HashFn, b: nat, nodes: Nodes, ch: Nodes, old': seq<Bytes>, new': seq<Bytes>,
                   levels: seq<Nodes>, after: Nodes, level: nat)
    requires b >= 2 && Canonical(hash, b, nodes, old') && LeafUpdate(ch, old', new') && new' != []
    requires Recomputed(hash, b, nodes, ch, |new'|, levels) && Committed(nodes, levels, after) && level < |levels|
    ensures StoredRow(after, level, RowAt(hash, b, new', level))
  {
    ChangesCover(hash, b, nodes, ch, old', new', levels, level);
    var row := RowAt(hash, b, new', level);
    forall i | 0 <= i < |row|
      ensures Position(level, i) in after && after[Position(level, i)] == row[i]
    {
      var p := Position(level, i);
      assert Covered(levels[level], level, level < Levels(b, old'), RowAt(hash, b, old', level), row, i);
      if p !in levels[level] {
        assert StoredRow(nodes, level, RowAt(hash, b, old', level));
      }
    }
  }

  /** Nothing is stored outside the new tree. */
  lemma UpdatedDomain(hash: HashFn, b: nat, nodes: Nodes, ch: Nodes, old': seq<Bytes>, new': seq<Bytes>,
                      levels: seq<Nodes>, after: Nodes, p: Position)
    requires b >= 2 && Canonical(hash, b, nodes, old') && LeafUpdate(ch, old', new') && new' != []
    requires Recomputed(hash, b, nodes, ch, |new'|, levels) && Committed(nodes, levels, after) && p in after
    ensures p.level < TreeHeight(b, |new'|) && p.index < RowSize(b, |new'|, p.level)
  {
    HeightMonotone(b, |old'|, |new'|);
    RowSizeMonotone(b, |old'|, |new'|, p.level);
    if InLevels(levels, p) {
      ChangesCover(hash, b, nodes, ch, old', new', levels, p.level);
      RowAtSize(hash, b, new', p.level);
    }
  }

  /**
   Incremental equals full.  Recomputing only the ancestors of the changed leaves leaves exactly the
   nodes of a full rebuild over all the new leaves, also when the tree gains levels.
   */
  lemma IncrementalIsFull(hash: HashFn, b: nat, nodes: Nodes, ch: Nodes, old': seq<Bytes>, new': seq<Bytes>,
                          levels: seq<Nodes>, after: Nodes)
    requires b >= 2 && Canonical(hash, b, nodes, old') && LeafUpdate(ch, old', new') && new' != []
    requires Recomputed(hash, b, nodes, ch, |new'|, levels) && Committed(nodes, levels, after)
    ensures Canonical(hash, b, after, new')
  {
    forall level | 0 <= level < Levels(b, new')
      ensures StoredRow(after, level, RowAt(hash, b, new', level))
    {
      UpdatedRow(hash, b, nodes, ch, old', new', levels, after, level);
    }
    forall p | p in after
      ensures p.level < Levels(b, new') && p.index < RowSize(b, |new'|, p.level)
    {
      UpdatedDomain(hash, b, nodes, ch, old', new', levels, after, p);
    }
  }

  /** One Update with its commit. */
  ghost predicate UpdateStep(hash: HashFn, b: nat, nodes: Nodes, old': seq<Bytes>, after: Nodes, new': seq<Bytes>)
    requires b >= 2
  {
    exists ch, levels ::
      && new' != [] && LeafUpdate(ch, old', new')
      && Recomputed(hash, b, nodes, ch, |new'|, levels) && Committed(nodes, levels, after)
  }

  /** After any sequence of updates from the empty store, the store is a full rebuild over the leaves so far. */
  lemma {:induction false} UpdatesStayFull(hash: HashFn, b: nat, stores: seq<Nodes>, leaves: seq<seq<Bytes>>, k: nat)
    requires b >= 2 && |stores| == |leaves| && k < |stores| && stores[0] == map[] && leaves[0] == []
    requires forall i :: 0 <= i < |stores| - 1 ==>
      UpdateStep(hash, b, stores[i], leaves[i], stores[i + 1], leaves[i + 1])
    ensures Canonical(hash, b, stores[k], leaves[k])
  {
    if k > 0 {
      var i := k - 1;
      UpdatesStayFull(hash, b, stores, leaves, i);
      assert UpdateStep(hash, b, stores[i], leaves[i], stores[i + 1], leaves[i + 1]);
      var ch, levels :|
        && LeafUpdate(ch, leaves[i], leaves[k])
        && Recomputed(hash, b, stores[i], ch, |leaves[k]|, levels) && Committed(stores[i], levels, stores[k]);
      IncrementalIsFull(hash, b, stores[i], ch, leaves[i], leaves[k], levels, stores[k]);
    }
  }

  lemma ParentsNonEmpty(b: nat, ch: Nodes)
    requires b >= 2 && ch != map[]
    ensures Parents(b, ch) != {}
  {
    var p :| p in ch;
    assert Position(p.level + 1, GroupOf(b, p.index)) in Parents(b, ch);
  }

  lemma {:induction false} ChangesNonEmpty(hash: HashFn, b: nat, nodes: Nodes, ch: Nodes, n: nat, levels: seq<Nodes>,
                                           level: nat)
    requires b >= 2 && ch != map[] && Recomputed(hash, b, nodes, ch, n, levels) && level < |levels|
    ensures levels[level] != map[]
    decreases level
  {
    if level > 0 {
      ChangesNonEmpty(hash, b, nodes, ch, n, levels, level - 1);
      assert LevelFollows(hash, b, nodes, n, levels, level - 1);
      ParentsNonEmpty(b, levels[level - 1]);
      assert levels[level].Keys == Parents(b, levels[level - 1]);
    }
  }

  /** The top level recomputes one node, the root of a full rebuild, whenever some leaf changed. */
  lemma TopChange(hash: HashFn, b: nat, nodes: Nodes, ch: Nodes, old': seq<Bytes>, new': seq<Bytes>, levels: seq<Nodes>)
    requires b >= 2 && Canonical(hash, b, nodes, old') && LeafUpdate(ch, old', new') && new' != [] && ch != map[]
    requires Recomputed(hash, b, nodes, ch, |new'|, levels)
    ensures var top := TreeHeight(b, |new'|) - 1;
      levels[top] == map[Position(top, 0) := FullRoot(hash, b, new')]
  {
    var top := TreeHeight(b, |new'|) - 1;
    ChangesCover(hash, b, nodes, ch, old', new', levels, top);
    RowAtSize(hash, b, new', top);
    TopRow(b, |new'|, top);
    ChangesNonEmpty(hash, b, nodes, ch, |new'|, levels, top);
    var p :| p in levels[top];
    assert p == Position(top, 0);
    assert forall q :: q in levels[top] ==> q == p;
  }

  // ----- The root determines the leaves, up to collisions -----

  /** All digests have one size. */
  ghost predicate HashSized(hash: HashFn, size: nat)
  {
    forall m :: |hash(m)| == size
  }

  ghost predicate AllSized(parts: seq<Bytes>, size: nat)
  {
    forall i :: 0 <= i < |parts| ==> |parts[i]| == size
  }

  lemma {:induction false} ConcatInjective(xs: seq<Bytes>, ys: seq<Bytes>, size: nat)
    requires |xs| == |ys| && AllSized(xs, size) && AllSized(ys, size) && Concat(xs) == Concat(ys)
    ensures xs == ys
  {
    if xs != [] {
      assert Concat(xs)[..size] == xs[0] && Concat(ys)[..size] == ys[0];
      assert Concat(xs)[size..] == Concat(xs[1..]) && Concat(ys)[size..] == Concat(ys[1..]);
      ConcatInjective(xs[1..], ys[1..], size);
      assert xs == [xs[0]] + xs[1..] && ys == [ys[0]] + ys[1..];
    }
  }

  lemma RowSized(hash: HashFn, b: nat, leaves: seq<Bytes>, level: nat, size: nat)
    requires b >= 2 && AllSized(leaves, size) && HashSized(hash, size)
    ensures AllSized(RowAt(hash, b, leaves, level), size)
  {
    if level > 0 {
      var below := RowAt(hash, b, leaves, level - 1);
      forall i | 0 <= i < Groups(b, |below|)
        ensures |RowAt(hash, b, leaves, level)[i]| == size
      {
        assert RowAt(hash, b, leaves, level)[i] == hash(Concat(Children(b, below, i)));
      }
    }
  }

  /** Group `g` of two rows has different children with one hash. */
  ghost predicate RowCollision(hash: HashFn, b: nat, xs: seq<Bytes>, ys: seq<Bytes>, g: nat)
  {
    && b >= 2 && |xs| == |ys| && g < Groups(b, |xs|)
    && Concat(Children(b, xs, g)) != Concat(Children(b, ys, g))
    && hash(Concat(Children(b, xs, g))) == hash(Concat(Children(b, ys, g)))
  }

  /** Somewhere in the trees over two leaf lists a group has different children with one hash. */
  ghost predicate TreesCollide(hash: HashFn, b: nat, xs: seq<Bytes>, ys: seq<Bytes>)
  {
    b >= 2 && exists level, g :: RowCollision(hash, b, RowAt(hash, b, xs, level), RowAt(hash, b, ys, level), g)
  }

  /** Different rows with equal next rows hash two different groups to one value. */
  lemma RowCollides(hash: HashFn, b: nat, xs: seq<Bytes>, ys: seq<Bytes>, size: nat) returns (g: nat)
    requires b >= 2 && |xs| == |ys| && AllSized(xs, size) && AllSized(ys, size)
    requires xs != ys && NextRow(hash, b, xs) == NextRow(hash, b, ys)
    ensures RowCollision(hash, b, xs, ys, g)
  {
    var i :| 0 <= i < |xs| && xs[i] != ys[i];
    g := GroupOf(b, i);
    GroupOfBounds(b, i);
    GroupsIs(b, |xs|, g);
    assert (g + 1) * b == g * b + b;
    var cx, cy := Children(b, xs, g), Children(b, ys, g);
    assert cx[i - g * b] == xs[i] && cy[i - g * b] == ys[i];
    var x, y := Concat(cx), Concat(cy);
    assert NextRow(hash, b, xs)[g] == hash(x) && NextRow(hash, b, ys)[g] == hash(y);
    if x == y {
      ConcatInjective(cx, cy, size);
    }
  }

  /** The same for the rows at one level of two trees. */
  lemma RowsCollide(hash: HashFn, b: nat, xs: seq<Bytes>, ys: seq<Bytes>, size: nat, level: nat,
                    rx: seq<Bytes>, ry: seq<Bytes>)
    requires b >= 2 && |xs| == |ys| && AllSized(xs, size) && AllSized(ys, size) && HashSized(hash, size)
    requires rx == RowAt(hash, b, xs, level) && ry == RowAt(hash, b, ys, level)
    requires rx != ry && NextRow(hash, b, rx) == NextRow(hash, b, ry)
    ensures TreesCollide(hash, b, xs, ys)
  {
    RowAtSize(hash, b, xs, level);
    RowAtSize(hash, b, ys, level);
    RowSized(hash, b, xs, level, size);
    RowSized(hash, b, ys, level, size);
    var g := RowCollides(hash, b, rx, ry, size);
    assert RowCollision(hash, b, RowAt(hash, b, xs, level), RowAt(hash, b, ys, level), g);
  }

  lemma {:induction false} LevelCollides(hash: HashFn, b: nat, xs: seq<Bytes>, ys: seq<Bytes>, size: nat, level: nat)
    requires b >= 2 && |xs| == |ys| && AllSized(xs, size) && AllSized(ys, size) && HashSized(hash, size)
    requires xs != ys && RowAt(hash, b, xs, level) == RowAt(hash, b, ys, level)
    ensures TreesCollide(hash, b, xs, ys)
    decreases level
  {
    if level > 0 {
      var rx, ry := RowAt(hash, b, xs, level - 1), RowAt(hash, b, ys, level - 1);
      if rx == ry {
        LevelCollides(hash, b, xs, ys, size, level - 1);
      } else {
        RowsCollide(hash, b, xs, ys, size, level - 1, rx, ry);
      }
    }
  }

  /** Different leaf lists of one length with one root have a collision in their trees. */
  lemma SameRootCollides(hash: HashFn, b: nat, xs: seq<Bytes>, ys: seq<Bytes>, size: nat)
    requires b >= 2 && |xs| == |ys| && AllSized(xs, size) && AllSized(ys, size) && HashSized(hash, size)
    requires xs != [] && xs != ys && FullRoot(hash, b, xs) == FullRoot(hash, b, ys)
    ensures TreesCollide(hash, b, xs, ys)
  {
    var top := TreeHeight(b, |xs|) - 1;
    RowAtSize(hash, b, xs, top);
    RowAtSize(hash, b, ys, top);
    TopRow(b, |xs|, top);
    var rx, ry := RowAt(hash, b, xs, top), RowAt(hash, b, ys, top);
    assert rx == [rx[0]] && ry == [ry[0]];
    LevelCollides(hash, b, xs, ys, size, top);
  }

  /** The levels an update recomputes are determined by the store, the changed leaves and the leaf count. */
  lemma {:induction false} RecomputedUnique(hash: HashFn, b: nat, nodes: Nodes, ch: Nodes, n: nat, l1: seq<Nodes>,
                                            l2: seq<Nodes>, level: nat)
    requires b >= 2 && Recomputed(hash, b, nodes, ch, n, l1) && Recomputed(hash, b, nodes, ch, n, l2) && level < |l1|
    ensures |l2| == |l1| && l1[level] == l2[level]
    decreases level
  {
    if level > 0 {
      RecomputedUnique(hash, b, nodes, ch, n, l1, l2, level - 1);
      assert LevelFollows(hash, b, nodes, n, l1, level - 1) && LevelFollows(hash, b, nodes, n, l2, level - 1);
    }
  }
}
