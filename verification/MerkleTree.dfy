/** The Merkle tree engine: merkle/tree.go, merkle/types.go, merkle/store.go. */
module MerkleTrees {
  import opened Options
  import opened ByteStrings
  import opened TreeCalc
  import opened MerkleSpec

  datatype Node = Node(pos: Position, data: Bytes)

  datatype UpdateResult = UpdateResult(leafCount: nat, height: nat, leaves: seq<Node>, branches: seq<Node>, root: Node)

  /** What a list of nodes writes, in order, into a store. */
  function Latest(nodes: seq<Node>): Nodes
  {
    if nodes == [] then map[] else Latest(nodes[..|nodes| - 1])[nodes[|nodes| - 1].pos := nodes[|nodes| - 1].data]
  }

  ghost predicate DistinctPositions(nodes: seq<Node>)
  {
    forall i, j :: 0 <= i < j < |nodes| ==> nodes[i].pos != nodes[j].pos
  }

  ghost predicate AllAtLevel(nodes: seq<Node>, level: nat)
  {
    forall i :: 0 <= i < |nodes| ==> nodes[i].pos.level == level
  }

  /** The nodes of `nodes` that belong to group `g`, in order. */
  function InGroup(b: nat, nodes: seq<Node>, g: nat): seq<Node>
    requires b >= 2
  {
    if nodes == [] then [] else
    var k := |nodes| - 1;
    InGroup(b, nodes[..k], g) + if GroupOf(b, nodes[k].pos.index) == g then [nodes[k]] else []
  }

  lemma LatestAppend(nodes: seq<Node>, n: Node)
    ensures Latest(nodes + [n]) == Latest(nodes)[n.pos := n.data]
  {
    assert (nodes + [n])[..|nodes|] == nodes;
  }

  lemma {:induction false} LatestKeys(nodes: seq<Node>, p: Position)
    ensures p in Latest(nodes) <==> exists i :: 0 <= i < |nodes| && nodes[i].pos == p
  {
    if nodes != [] {
      var k := |nodes| - 1;
      LatestKeys(nodes[..k], p);
      if p in Latest(nodes[..k]) {
        var i :| 0 <= i < k && nodes[..k][i].pos == p;
        assert nodes[i].pos == p;
      }
      if i :| 0 <= i < |nodes| && nodes[i].pos == p {
        if i < k {
          assert nodes[..k][i].pos == p;
        }
      }
    }
  }

  lemma {:induction false} LatestDistinct(nodes: seq<Node>, i: nat)
    requires DistinctPositions(nodes) && i < |nodes|
    ensures nodes[i].pos in Latest(nodes) && Latest(nodes)[nodes[i].pos] == nodes[i].data
  {
    var k := |nodes| - 1;
    if i < k {
      LatestDistinct(nodes[..k], i);
    }
  }

  lemma {:induction false} LatestConcat(xs: seq<Node>, ys: seq<Node>)
    ensures Latest(xs + ys) == Latest(xs) + Latest(ys)
  {
    if ys == [] {
      assert xs + ys == xs;
    } else {
      var k := |ys| - 1;
      assert (xs + ys)[..|xs| + k] == xs + ys[..k];
      LatestConcat(xs, ys[..k]);
    }
  }

  /** Within its group a position is written by the group's nodes as by all nodes. */
  lemma {:induction false} LatestInGroup(b: nat, nodes: seq<Node>, g: nat, p: Position)
    requires b >= 2 && GroupOf(b, p.index) == g
    ensures p in Latest(InGroup(b, nodes, g)) <==> p in Latest(nodes)
    ensures p in Latest(nodes) ==> Latest(InGroup(b, nodes, g))[p] == Latest(nodes)[p]
  {
    if nodes != [] {
      var k := |nodes| - 1;
      LatestInGroup(b, nodes[..k], g, p);
      if GroupOf(b, nodes[k].pos.index) == g {
        LatestAppend(InGroup(b, nodes[..k], g), nodes[k]);
      } else {
        assert InGroup(b, nodes, g) == InGroup(b, nodes[..k], g);
      }
    }
  }

  /** The map from each group with a member to its nodes. */
  ghost predicate GroupedBy(b: nat, nodes: seq<Node>, gnodes: map<nat, seq<Node>>)
    requires b >= 2
  {
    && (forall g :: g in gnodes ==> gnodes[g] != [])
    && (forall g: nat :: InGroup(b, nodes, g) == if g in gnodes then gnodes[g] else [])
  }

  lemma GroupOneMore(b: nat, nodes: seq<Node>, gnodes: map<nat, seq<Node>>, n: Node)
    requires b >= 2 && GroupedBy(b, nodes, gnodes)
    ensures var g := GroupOf(b, n.pos.index);
      GroupedBy(b, nodes + [n], gnodes[g := (if g in gnodes then gnodes[g] else []) + [n]])
  {
    assert (nodes + [n])[..|nodes|] == nodes;
  }

  lemma {:induction false} InGroupMembers(b: nat, nodes: seq<Node>, g: nat)
    requires b >= 2
    ensures forall n :: n in InGroup(b, nodes, g) <==> n in nodes && GroupOf(b, n.pos.index) == g
  {
    if nodes != [] {
      var k := |nodes| - 1;
      InGroupMembers(b, nodes[..k], g);
      assert nodes == nodes[..k] + [nodes[k]];
    }
  }

  lemma MemberMakesParent(b: nat, nodes: seq<Node>, level: nat, g: nat)
    requires b >= 2 && AllAtLevel(nodes, level) && InGroup(b, nodes, g) != []
    ensures Position(level + 1, g) in Parents(b, Latest(nodes))
  {
    var n := FirstMember(b, nodes, g);
    var i :| 0 <= i < |nodes| && nodes[i] == n;
    LatestKeys(nodes, n.pos);
    ParentIn(b, Latest(nodes), n.pos);
  }

  lemma FirstMember(b: nat, nodes: seq<Node>, g: nat) returns (n: Node)
    requires b >= 2 && InGroup(b, nodes, g) != []
    ensures n in nodes && GroupOf(b, n.pos.index) == g
  {
    InGroupMembers(b, nodes, g);
    n := InGroup(b, nodes, g)[0];
    assert n in InGroup(b, nodes, g);
  }

  lemma ParentIn(b: nat, ch: Nodes, q: Position)
    requires b >= 2 && q in ch
    ensures Position(q.level + 1, GroupOf(b, q.index)) in Parents(b, ch)
  {
  }

  lemma ParentHasMember(b: nat, nodes: seq<Node>, level: nat, q: Position)
    requires b >= 2 && AllAtLevel(nodes, level) && q in Latest(nodes)
    ensures q.level == level && InGroup(b, nodes, GroupOf(b, q.index)) != []
  {
    var g := GroupOf(b, q.index);
    InGroupMembers(b, nodes, g);
    LatestKeys(nodes, q);
    var i :| 0 <= i < |nodes| && nodes[i].pos == q;
    assert nodes[i] in nodes;
    assert nodes[i] in InGroup(b, nodes, g);
  }

  /** The parents of a list of nodes are the groups that have a member. */
  lemma ParentsOfLatest(b: nat, nodes: seq<Node>, level: nat, p: Position)
    requires b >= 2 && AllAtLevel(nodes, level)
    ensures p in Parents(b, Latest(nodes)) <==> p.level == level + 1 && InGroup(b, nodes, p.index) != []
  {
    if p in Parents(b, Latest(nodes)) {
      var q := ChildOf(b, Latest(nodes), p);
      ParentHasMember(b, nodes, level, q);
    } else if p.level == level + 1 && InGroup(b, nodes, p.index) != [] {
      MemberMakesParent(b, nodes, level, p.index);
    }
  }

  lemma ChildOf(b: nat, ch: Nodes, p: Position) returns (q: Position)
    requires b >= 2 && p in Parents(b, ch)
    ensures q in ch && p == Position(q.level + 1, GroupOf(b, q.index))
  {
    q :| q in ch && p == Position(q.level + 1, GroupOf(b, q.index));
  }

  lemma SlotOfNode(b: nat, index: nat)
    requires b >= 2
    ensures GroupOf(b, index) * b + NodeIndexInGroup(b, index) == index
    ensures NodeIndexInGroup(b, index) < b
  {
    GroupOfIsQuotient(b, index);
    DivModFacts(b, index);
  }

  lemma GroupOfSlot(b: nat, g: nat, k: nat)
    requires b >= 2 && k < b
    ensures GroupOf(b, g * b + k) == g
  {
    GroupOfBounds(b, g * b + k);
    assert (g + 1) * b == g * b + b;
    GroupUnique(b, g, GroupOf(b, g * b + k), g * b + k);
  }

  /** The data of the children present, in order. */
  function ConcatSome(slots: seq<Option<Bytes>>): Bytes
  {
    if slots == [] then [] else
    ConcatSome(slots[..|slots| - 1]) + if slots[|slots| - 1].Some? then slots[|slots| - 1].value else []
  }

  lemma {:induction false} ChildBytesSplit(nodes: Nodes, ch: Nodes, level: nat, rowSize: nat, index: nat, count: nat)
    ensures ChildBytes(nodes, ch, level, rowSize, index, count + 1) ==
      ChildBytes(nodes, ch, level, rowSize, index, count) +
      var slot := Slot(nodes, ch, level, rowSize, index + count); if slot.Some? then slot.value else []
    decreases count
  {
    if count > 0 {
      ChildBytesSplit(nodes, ch, level, rowSize, index + 1, count - 1);
    }
  }

  lemma {:induction false} ConcatSomeIsChildBytes(slots: seq<Option<Bytes>>, nodes: Nodes, ch: Nodes, level: nat,
                                                  rowSize: nat, index: nat)
    requires forall k :: 0 <= k < |slots| ==> slots[k] == Slot(nodes, ch, level, rowSize, index + k)
    ensures ConcatSome(slots) == ChildBytes(nodes, ch, level, rowSize, index, |slots|)
  {
    if slots != [] {
      var k := |slots| - 1;
      ConcatSomeIsChildBytes(slots[..k], nodes, ch, level, rowSize, index);
      ChildBytesSplit(nodes, ch, level, rowSize, index, k);
    }
  }

  /** A group of sibling nodes under construction: merkle/types.go:93-172. */
  class Group {
    const hash: HashFn
    const b: nat
    const parent: Position
    const nodes: array<Option<Bytes>>

    ghost predicate Valid()
    {
      b >= 2 && parent.level >= 1 && nodes.Length == b
    }

    constructor (hash: HashFn, b: nat, parent: Position)
      requires b >= 2 && parent.level >= 1
      ensures Valid() && fresh(nodes) && this.hash == hash && this.b == b && this.parent == parent
      ensures forall k :: 0 <= k < b ==> nodes[k] == None
    {
      this.hash, this.b, this.parent := hash, b, parent;
      nodes := new Option<Bytes>[b](_ => None);
    }

    /** merkle/types.go:114-120 */
    method SetNode(n: Node)
      requires Valid()
      modifies nodes
      ensures nodes[..] == old(nodes[..])[NodeIndexInGroup(b, n.pos.index) := Some(n.data)]
    {
      SlotOfNode(b, n.pos.index);
      var i := NodeIndexInGroup(b, n.pos.index);
      if i < nodes.Length {
        nodes[i] := Some(n.data);
      }
    }

    /** merkle/types.go:123-140 */
    method Load(rowSize: nat, stored: Nodes)
      requires Valid()
      modifies nodes
      ensures forall k :: 0 <= k < b ==>
        var p := Position(parent.level - 1, parent.index * b + k);
        nodes[k] ==
          if old(nodes[k]).Some? then old(nodes[k])
          else if p.index < rowSize && p in stored then Some(stored[p])
          else None
    {
      var offset := FirstNodeOfGroup(b, parent.index);
      var i := 0;
      while i < nodes.Length
        invariant 0 <= i <= b
        invariant forall k :: i <= k < b ==> nodes[k] == old(nodes[k])
        invariant forall k :: 0 <= k < i ==>
          var p := Position(parent.level - 1, parent.index * b + k);
          nodes[k] ==
            if old(nodes[k]).Some? then old(nodes[k])
            else if p.index < rowSize && p in stored then Some(stored[p])
            else None
      {
        if nodes[i].None? {
          var index := offset + i;
          if rowSize <= index {
            break;
          }
          var p := Position(parent.level - 1, index);
          if p in stored {
            nodes[i] := Some(stored[p]);
          }
        }
        i := i + 1;
      }
    }

    /** merkle/types.go:165-172 */
    method IsEmpty() returns (empty: bool)
      requires Valid()
      ensures empty <==> forall k :: 0 <= k < b ==> nodes[k].None?
    {
      for i := 0 to nodes.Length
        invariant forall k :: 0 <= k < i ==> nodes[k].None?
      {
        if nodes[i].Some? {
          return false;
        }
      }
      return true;
    }

    /** merkle/types.go:151-162: nil for an empty group. */
    method Sum() returns (sum: Option<Bytes>)
      requires Valid()
      ensures sum.None? <==> forall k :: 0 <= k < b ==> nodes[k].None?
      ensures sum.Some? ==> sum.value == hash(ConcatSome(nodes[..]))
    {
      var empty := IsEmpty();
      if empty {
        return None;
      }
      var written: Bytes := [];
      for i := 0 to nodes.Length
        invariant written == ConcatSome(nodes[..i])
      {
        assert nodes[..i + 1][..i] == nodes[..i];
        if nodes[i].Some? {
          written := written + nodes[i].value;
        }
      }
      assert nodes[..nodes.Length] == nodes[..];
      return Some(hash(written));
    }
  }

  lemma WriteOver(m: Nodes, over: Nodes, p: Position, data: Bytes)
    ensures (m + over)[p := data] == m + over[p := data]
  {
  }

  /** merkle/store.go: the nodes, leaf count and height of a tree. */
  class MapStore {
    var leafCount: nat
    var height: nat
    var nodes: Nodes

    constructor ()
      ensures leafCount == 0 && height == 0 && nodes == map[]
    {
      leafCount, height, nodes := 0, 0, map[];
    }

    /** merkle/store.go:61-73 */
    method CommitUpdate(res: UpdateResult)
      modifies this
      ensures leafCount == res.leafCount && height == res.height
      ensures nodes == old(nodes) + Latest(res.leaves) + Latest(res.branches)
    {
      leafCount := res.leafCount;
      height := res.height;
      SetNodes(res.leaves);
      SetNodes(res.branches);
    }

    method SetNodes(list: seq<Node>)
      modifies this`nodes
      ensures nodes == old(nodes) + Latest(list)
    {
      for i := 0 to |list|
        invariant nodes == old(nodes) + Latest(list[..i])
      {
        assert list[..i + 1] == list[..i] + [list[i]];
        LatestAppend(list[..i], list[i]);
        WriteOver(old(nodes), Latest(list[..i]), list[i].pos, list[i].data);
        nodes := nodes[list[i].pos := list[i].data];
      }
      assert list[..|list|] == list;
    }
  }

  class Tree {
    const store: MapStore
    const hash: HashFn
    const b: nat

    /** merkle/tree.go:26-38: a branch factor below two is raised to two. */
    constructor (store: MapStore, hash: HashFn, branchFactor: nat)
      ensures this.store == store && this.hash == hash
      ensures b == if branchFactor < 2 then 2 else branchFactor
    {
      this.store, this.hash := store, hash;
      b := if branchFactor < 2 then 2 else branchFactor;
    }

    /** The store holds the full tree over `leaves`. */
    ghost predicate Holds(leaves: seq<Bytes>)
      requires b >= 2
      reads store
    {
      && store.leafCount == |leaves|
      && store.height == Levels(b, leaves)
      && Levels(b, leaves) <= 255
      && Canonical(hash, b, store.nodes, leaves)
    }

    /** merkle/tree.go:41-47, with the level computed in eight bits. */
    method Root() returns (root: Option<Node>)
      ensures root == RootNode()
    {
      var p := Position((store.height + 255) % 256, 0);
      if p in store.nodes {
        return Some(Node(p, store.nodes[p]));
      }
      return None;
    }

    function RootNode(): Option<Node>
      reads store
    {
      var p := Position((store.height + 255) % 256, 0);
      if p in store.nodes then Some(Node(p, store.nodes[p])) else None
    }

    /** merkle/tree.go:133-162 */
    method GroupNodesByParent(nodes: seq<Node>) returns (gnodes: map<nat, seq<Node>>)
      requires b >= 2
      ensures GroupedBy(b, nodes, gnodes)
    {
      gnodes := map[];
      for i := 0 to |nodes|
        invariant GroupedBy(b, nodes[..i], gnodes)
      {
        var n := nodes[i];
        GroupOfIsQuotient(b, n.pos.index);
        var g := GroupOfNode(b, n.pos.index);
        assert nodes[..i + 1] == nodes[..i] + [n];
        GroupOneMore(b, nodes[..i], gnodes, n);
        gnodes := gnodes[g := (if g in gnodes then gnodes[g] else []) + [n]];
      }
      assert nodes[..|nodes|] == nodes;
    }

    /** merkle/tree.go:80-82: set the updated nodes of one group. */
    method SetMembers(group: Group, level: nat, members: seq<Node>)
      requires group.Valid() && group.b == b
      requires forall k :: 0 <= k < b ==> group.nodes[k] == None
      requires forall n :: n in members ==> n.pos.level == level && GroupOf(b, n.pos.index) == group.parent.index
      modifies group.nodes
      ensures Filled(group.nodes[..], Latest(members), level, group.parent.index * b)
    {
      for i := 0 to |members|
        invariant Filled(group.nodes[..], Latest(members[..i]), level, group.parent.index * b)
      {
        assert members[i] in members;
        assert members[..i + 1] == members[..i] + [members[i]];
        FillOne(b, group.nodes[..], members[..i], level, group.parent.index, members[i]);
        group.SetNode(members[i]);
      }
      assert members[..|members|] == members;
    }

    /** A worker's job: merkle/tree.go:79-84, 101-106, for the nodes of one group. */
    method MakeParent(level: nat, g: nat, members: seq<Node>, rowSize: nat, ghost all: seq<Node>) returns (parent: Node)
      requires b >= 2 && AllAtLevel(all, level)
      requires members == InGroup(b, all, g) && members != []
      ensures parent.pos == Position(level + 1, g)
      ensures parent.data == hash(ChildBytes(store.nodes, Latest(all), level, rowSize, FirstNodeOfGroup(b, g), b))
    {
      var group := new Group(hash, b, Position(level + 1, g));
      InGroupMembers(b, all, g);
      SetMembers(group, level, members);
      ghost var filled := group.nodes[..];
      group.Load(rowSize, store.nodes);
      ghost var k := GroupReads(b, filled, group.nodes[..], store.nodes, all, level, rowSize, g);
      assert group.nodes[k].Some?;
      var sum := group.Sum();
      parent := Node(group.parent, sum.value);
    }

    /** merkle/tree.go:79-89: the groups in map order, their parents in the order the workers finish. */
    method MakeParents(gnodes: map<nat, seq<Node>>, level: nat, rowSize: nat, ghost nodes: seq<Node>, ghost full: Nodes)
      returns (parents: seq<Node>)
      requires b >= 2 && AllAtLevel(nodes, level)
      requires GroupedBy(b, nodes, gnodes) && forall g: nat :: g in gnodes ==> Position(level + 1, g) in full
      requires forall p :: p in full ==> p.level == level + 1 && p.index in gnodes
      requires full == ParentChanges(hash, b, store.nodes, Latest(nodes), level, rowSize)
      ensures AllAtLevel(parents, level + 1) && DistinctPositions(parents)
      ensures Latest(parents) == full
    {
      parents := [];
      var rest := gnodes.Keys;
      while rest != {}
        invariant rest <= gnodes.Keys
        invariant Gathered(parents, full, level + 1, rest)
      {
        var g :| g in rest;
        var parent := MakeParent(level, g, gnodes[g], rowSize, nodes);
        GatherOne(parents, full, level + 1, rest, parent);
        parents := parents + [parent];
        rest := rest - {g};
      }
      PartialDone(Latest(parents), full);
    }

    /**
     merkle/tree.go:74-90.  Whatever order the groups and workers take, the parents are those of the
     specification.
     */
    method UpdateOneLevel(nodes: seq<Node>, level: nat, rowSize: nat) returns (parents: seq<Node>)
      requires b >= 2 && AllAtLevel(nodes, level)
      ensures AllAtLevel(parents, level + 1) && DistinctPositions(parents)
      ensures Latest(parents) == ParentChanges(hash, b, store.nodes, Latest(nodes), level, rowSize)
    {
      var gnodes := GroupNodesByParent(nodes);
      ghost var full := ParentChanges(hash, b, store.nodes, Latest(nodes), level, rowSize);
      GroupsAreParents(b, nodes, level, gnodes, full.Keys);
      parents := MakeParents(gnodes, level, rowSize, nodes, full);
    }

    /** One turn of the loop in merkle/tree.go:61-65. */
    method Raise(nodes: seq<Node>, i: nat, rowSize: nat, n: nat, ghost branches: seq<Node>, ghost levels: seq<Nodes>)
      returns (parents: seq<Node>)
      requires b >= 2 && nodes != [] && AllAtLevel(nodes, i) && |levels| == i + 1 && Latest(nodes) == levels[i]
      requires rowSize == RowSize(b, n, i)
      requires Following(hash, b, store.nodes, n, levels) && BranchesAre(branches, levels)
      ensures parents != [] && AllAtLevel(parents, i + 1) && DistinctPositions(parents)
      ensures Following(hash, b, store.nodes, n, levels + [Latest(parents)])
      ensures BranchesAre(branches + parents, levels + [Latest(parents)])
    {
      parents := UpdateOneLevel(nodes, i, rowSize);
      AppendLevel(hash, b, store.nodes, n, levels, Latest(parents));
      AppendBranches(branches, levels, parents);
      NonEmptyParents(hash, b, store.nodes, nodes, parents, i, rowSize);
    }

    /** The loop of merkle/tree.go:58-65. */
    method Climb(leaves: seq<Node>, n: nat, height: nat)
      returns (branches: seq<Node>, ghost nodes: seq<Node>, ghost levels: seq<Nodes>)
      requires b >= 2 && leaves != [] && AllAtLevel(leaves, 0) && height >= 1
      ensures height == 1 ==> branches == []
      ensures |levels| == height && levels[0] == Latest(leaves)
      ensures Following(hash, b, store.nodes, n, levels) && BranchesAre(branches, levels)
      ensures height > 1 ==> branches != [] && nodes != [] && branches[|branches| - 1] == nodes[|nodes| - 1]
      ensures height > 1 ==> DistinctPositions(nodes) && Latest(nodes) == levels[height - 1]
    {
      branches := [];
      var row := leaves;
      var rowSize := n;
      levels := [Latest(leaves)];
      for i := 0 to height - 1
        invariant |levels| == i + 1 && levels[0] == Latest(leaves)
        invariant row != [] && AllAtLevel(row, i) && Latest(row) == levels[i]
        invariant rowSize == RowSize(b, n, i)
        invariant Following(hash, b, store.nodes, n, levels) && BranchesAre(branches, levels)
        invariant i == 0 ==> branches == []
        invariant i > 0 ==> branches != [] && branches[|branches| - 1] == row[|row| - 1] && DistinctPositions(row)
      {
        row := Raise(row, i, rowSize, n, branches, levels);
        RowSizeStep(b, n, i);
        GroupCountIsGroups(b, rowSize);
        levels := levels + [Latest(row)];
        branches := branches + row;
        rowSize := GroupCount(b, rowSize);
      }
      nodes := row;
    }

    /** merkle/tree.go:51-72, with the height and the loop bound in eight bits. */
    method Update(leaves: seq<Node>, newLeafCount: nat) returns (res: UpdateResult, ghost levels: seq<Nodes>)
      requires b >= 2 && leaves != [] && AllAtLevel(leaves, 0)
      ensures res.leafCount == newLeafCount && res.height == TreeHeight(b, newLeafCount) % 256 && res.leaves == leaves
      ensures if res.height > 1 then res.branches != [] && res.root == res.branches[|res.branches| - 1]
        else res.root == leaves[0]
      ensures TreeHeight(b, newLeafCount) <= 255 ==> IsUpdate(hash, b, store.nodes, leaves, newLeafCount, res, levels)
    {
      var height := Height(b, newLeafCount);
      ghost var nodes;
      var branches: seq<Node>;
      branches, nodes, levels := Climb(leaves, newLeafCount, (height + 255) % 256 + 1);
      var root: Node;
      if height > 1 {
        root := branches[|branches| - 1];
        LatestDistinct(nodes, |nodes| - 1);
      } else {
        root := leaves[0];
      }
      res := UpdateResult(newLeafCount, height, leaves, branches, root);
    }

    /** The root the store shows is the root of a full rebuild; there is none before the first leaf. */
    lemma RootIsFull(stored: seq<Bytes>)
      requires b >= 2 && Holds(stored)
      ensures stored == [] ==> RootNode() == None
      ensures stored != [] ==>
        RootNode() == Some(Node(Position(TreeHeight(b, |stored|) - 1, 0), FullRoot(hash, b, stored)))
    {
      if stored != [] {
        var top := TreeHeight(b, |stored|) - 1;
        StoredRoot(hash, b, store.nodes, stored, Position(top, 0));
        LevelByte(store.height);
      } else {
        assert Position(255, 0) !in store.nodes;
      }
    }

    /** Writing an update to the store: it then holds the tree over the new leaves, with the root reported. */
    method CommitUpdate(res: UpdateResult, ghost stored: seq<Bytes>, ghost new': seq<Bytes>, ghost levels: seq<Nodes>)
      requires b >= 2 && Holds(stored) && Updates(hash, b, store.nodes, stored, new', res, levels)
      modifies store
      ensures Holds(new') && RootNode() == Some(res.root)
    {
      CommittedTree(hash, b, store.nodes, stored, new', res, levels,
                    store.nodes + Latest(res.leaves) + Latest(res.branches));
      store.CommitUpdate(res);
      LevelByte(res.height);
    }

    /**
     merkle/tree.go:109-131.  For leaves of digest size at distinct positions the answer is whether all of
     them match the stored ones, unless the two trees have a collision of the hash function.
     */
    method Verify(leaves: seq<Node>, ghost stored: seq<Bytes>) returns (ok: bool)
      requires b >= 2 && Holds(stored)
      ensures !AddressLeaves(leaves, |stored|) ==> !ok
      ensures AddressLeaves(leaves, |stored|) && (|stored| > 1 || DistinctPositions(leaves)) ==>
        (ok <==> FullRoot(hash, b, Overlay(stored, Latest(leaves))) == FullRoot(hash, b, stored))
      ensures AddressLeaves(leaves, |stored|) && |stored| == 1 ==> (ok <==> leaves[0].data == stored[0])
      ensures forall size ::
        AddressLeaves(leaves, |stored|) && DistinctPositions(leaves) && DigestSized(hash, leaves, stored, size) ==>
          && (AllMatch(leaves, stored) ==> ok)
          && (ok ==> AllMatch(leaves, stored) || TreesCollide(hash, b, Overlay(stored, Latest(leaves)), stored))
    {
      RootIsFull(stored);
      var root := Root();
      if root.None? {
        return false;
      }
      if |leaves| == 0 {
        return false;
      }
      var leafCount := store.leafCount;
      if leafCount == 0 {
        return false;
      }
      for i := 0 to |leaves|
        invariant forall k :: 0 <= k < i ==> leaves[k].pos.level == 0 && leaves[k].pos.index < leafCount
      {
        if leaves[i].pos.level != 0 {
          return false;
        }
        if leafCount <= leaves[i].pos.index {
          return false;
        }
      }
      ghost var levels;
      var res: UpdateResult;
      res, levels := Update(leaves, leafCount);
      ghost var new' := Overlay(stored, Latest(leaves));
      OverlayIsLeafUpdate(stored, leaves);
      if |stored| > 1 || DistinctPositions(leaves) {
        UpdateRoot(hash, b, store.nodes, stored, leaves, new', res, levels);
      }
      MatchDecides(hash, b, leaves, stored);
      return root.value.data == res.root.data;
    }
  }

  function At(m: Nodes, p: Position): Option<Bytes>
  {
    if p in m then Some(m[p]) else None
  }

  /** The slots hold what `ch` has for the positions from `first` on. */
  ghost predicate Filled(slots: seq<Option<Bytes>>, ch: Nodes, level: nat, first: nat)
  {
    forall k :: 0 <= k < |slots| ==> slots[k] == At(ch, Position(level, first + k))
  }

  lemma FillOne(b: nat, slots: seq<Option<Bytes>>, done: seq<Node>, level: nat, g: nat, n: Node)
    requires b >= 2 && |slots| == b && Filled(slots, Latest(done), level, g * b)
    requires n.pos.level == level && GroupOf(b, n.pos.index) == g
    ensures NodeIndexInGroup(b, n.pos.index) < b
    ensures Filled(slots[NodeIndexInGroup(b, n.pos.index) := Some(n.data)], Latest(done + [n]), level, g * b)
  {
    SlotOfNode(b, n.pos.index);
    LatestAppend(done, n);
  }

  /** After Load each slot is what the specification reads for its position. */
  lemma LoadedSlots(b: nat, filled: seq<Option<Bytes>>, slots: seq<Option<Bytes>>, stored: Nodes, all: seq<Node>,
                    level: nat, rowSize: nat, g: nat)
    requires b >= 2 && |filled| == |slots| == b
    requires Filled(filled, Latest(InGroup(b, all, g)), level, g * b)
    requires forall k :: 0 <= k < b ==>
      var p := Position(level, g * b + k);
      slots[k] ==
        if filled[k].Some? then filled[k]
        else if p.index < rowSize && p in stored then Some(stored[p]) else None
    ensures forall k :: 0 <= k < b ==> slots[k] == Slot(stored, Latest(all), level, rowSize, g * b + k)
  {
    forall k | 0 <= k < b
      ensures slots[k] == Slot(stored, Latest(all), level, rowSize, g * b + k)
    {
      GroupOfSlot(b, g, k);
      LatestInGroup(b, all, g, Position(level, g * b + k));
    }
  }

  /** A group with a member has a slot filled. */
  lemma SomeSlot(b: nat, members: seq<Node>, level: nat, g: nat) returns (k: nat)
    requires b >= 2 && members != []
    requires forall n :: n in members ==> n.pos.level == level && GroupOf(b, n.pos.index) == g
    ensures k < b && Position(level, g * b + k) in Latest(members)
  {
    var n := members[0];
    assert n in members;
    SlotOfNode(b, n.pos.index);
    LatestKeys(members, n.pos);
    k := NodeIndexInGroup(b, n.pos.index);
  }

  /** What a loaded group hashes is what the specification reads, and it is not empty. */
  lemma GroupReads(b: nat, filled: seq<Option<Bytes>>, slots: seq<Option<Bytes>>, stored: Nodes, all: seq<Node>,
                   level: nat, rowSize: nat, g: nat)
    returns (k: nat)
    requires b >= 2 && |filled| == |slots| == b && AllAtLevel(all, level) && InGroup(b, all, g) != []
    requires Filled(filled, Latest(InGroup(b, all, g)), level, g * b)
    requires forall k :: 0 <= k < b ==>
      var p := Position(level, g * b + k);
      slots[k] ==
        if filled[k].Some? then filled[k]
        else if p.index < rowSize && p in stored then Some(stored[p]) else None
    ensures ConcatSome(slots) == ChildBytes(stored, Latest(all), level, rowSize, g * b, b)
    ensures k < b && slots[k].Some?
  {
    LoadedSlots(b, filled, slots, stored, all, level, rowSize, g);
    ConcatSomeIsChildBytes(slots, stored, Latest(all), level, rowSize, g * b);
    InGroupMembers(b, all, g);
    k := SomeSlot(b, InGroup(b, all, g), level, g);
    assert filled[k].Some?;
  }

  /** `m` is `full` without the positions whose index is in `rest`. */
  ghost predicate Partial(m: Nodes, full: Nodes, rest: set<nat>)
  {
    && (forall p :: p in m ==> p in full && m[p] == full[p])
    && (forall p :: p in full ==> (p in m <==> p.index !in rest))
  }

  lemma PartialStep(done: seq<Node>, full: Nodes, level: nat, rest: set<nat>, n: Node)
    requires Partial(Latest(done), full, rest) && n.pos.index in rest
    requires n.pos in full && full[n.pos] == n.data && n.pos.level == level
    requires forall p :: p in full ==> p.level == level
    ensures Partial(Latest(done + [n]), full, rest - {n.pos.index})
  {
    LatestAppend(done, n);
  }

  /** The parents made while the groups of `rest` are still to come. */
  ghost predicate Gathered(parents: seq<Node>, full: Nodes, level: nat, rest: set<nat>)
  {
    && AllAtLevel(parents, level) && DistinctPositions(parents)
    && (forall i :: 0 <= i < |parents| ==> parents[i].pos.index !in rest)
    && Partial(Latest(parents), full, rest)
  }

  lemma GatherOne(parents: seq<Node>, full: Nodes, level: nat, rest: set<nat>, n: Node)
    requires Gathered(parents, full, level, rest) && n.pos.index in rest
    requires n.pos in full && full[n.pos] == n.data && n.pos.level == level
    requires forall p :: p in full ==> p.level == level
    ensures Gathered(parents + [n], full, level, rest - {n.pos.index})
  {
    PartialStep(parents, full, level, rest, n);
  }

  lemma PartialDone(m: Nodes, full: Nodes)
    requires Partial(m, full, {})
    ensures m == full
  {
  }

  lemma GroupsAreParents(b: nat, nodes: seq<Node>, level: nat, gnodes: map<nat, seq<Node>>, parents: set<Position>)
    requires b >= 2 && AllAtLevel(nodes, level) && parents == Parents(b, Latest(nodes))
    requires GroupedBy(b, nodes, gnodes)
    ensures forall p :: p in parents ==> p.level == level + 1 && p.index in gnodes
    ensures forall g: nat :: g in gnodes ==> Position(level + 1, g) in parents
  {
    forall p
      ensures p in parents <==> p.level == level + 1 && p.index in gnodes
    {
      ParentsOfLatest(b, nodes, level, p);
    }
  }

  /** `branches` writes exactly the recomputed levels above the leaves. */
  ghost predicate BranchesAre(branches: seq<Node>, levels: seq<Nodes>)
  {
    && (forall p :: p in Latest(branches) <==> p.level >= 1 && InLevels(levels, p))
    && (forall p :: p in Latest(branches) ==> Latest(branches)[p] == levels[p.level][p])
  }

  /** Each entry of `levels` but the first is the recomputation above the one before it. */
  ghost predicate Following(hash: HashFn, b: nat, stored: Nodes, n: nat, levels: seq<Nodes>)
    requires b >= 2
  {
    forall l :: 0 <= l < |levels| - 1 ==> LevelFollows(hash, b, stored, n, levels, l)
  }

  lemma AppendLevel(hash: HashFn, b: nat, stored: Nodes, n: nat, levels: seq<Nodes>, up: Nodes)
    requires b >= 2 && levels != [] && Following(hash, b, stored, n, levels)
    requires up == ParentChanges(hash, b, stored, levels[|levels| - 1], |levels| - 1, RowSize(b, n, |levels| - 1))
    ensures Following(hash, b, stored, n, levels + [up])
  {
    forall l | 0 <= l < |levels|
      ensures LevelFollows(hash, b, stored, n, levels + [up], l)
    {
      if l < |levels| - 1 {
        assert LevelFollows(hash, b, stored, n, levels, l);
      }
    }
  }

  lemma AppendBranches(branches: seq<Node>, levels: seq<Nodes>, parents: seq<Node>)
    requires levels != [] && BranchesAre(branches, levels) && AllAtLevel(parents, |levels|)
    ensures BranchesAre(branches + parents, levels + [Latest(parents)])
  {
    LatestConcat(branches, parents);
    forall p | p in Latest(parents)
      ensures p.level == |levels|
    {
      LatestKeys(parents, p);
    }
  }

  /** Writing leaves and branches over the store commits all recomputed levels. */
  lemma CommittedLevels(stored: Nodes, ch: Nodes, branches: seq<Node>, levels: seq<Nodes>, after: Nodes)
    requires levels != [] && levels[0] == ch && AtLevel(ch, 0) && BranchesAre(branches, levels)
    requires after == stored + ch + Latest(branches)
    ensures Committed(stored, levels, after)
  {
    forall p
      ensures p in after <==> p in stored || InLevels(levels, p)
      ensures p in after ==> after[p] == if InLevels(levels, p) then levels[p.level][p] else stored[p]
    {
      if p.level == 0 {
        assert InLevels(levels, p) <==> p in ch;
        assert p !in Latest(branches);
      }
    }
  }

  /** height - 1 in eight bits. */
  lemma LevelByte(height: nat)
    requires 1 <= height <= 255
    ensures (height + 255) % 256 == height - 1
  {
  }

  /** The node above all others is the root of a full rebuild. */
  lemma StoredRoot(hash: HashFn, b: nat, nodes: Nodes, leaves: seq<Bytes>, p: Position)
    requires b >= 2 && leaves != [] && Canonical(hash, b, nodes, leaves)
    requires p == Position(TreeHeight(b, |leaves|) - 1, 0)
    ensures p in nodes && nodes[p] == FullRoot(hash, b, leaves)
  {
    RowAtSize(hash, b, leaves, p.level);
    TopRow(b, |leaves|, p.level);
    assert StoredRow(nodes, p.level, RowAt(hash, b, leaves, p.level));
  }

  /** What Update returns: all recomputed levels, and the last of the top level as root. */
  ghost predicate IsUpdate(hash: HashFn, b: nat, nodes: Nodes, leaves: seq<Node>, n: nat, res: UpdateResult,
                           levels: seq<Nodes>)
    requires b >= 2
  {
    && res.leafCount == n && res.height == TreeHeight(b, n) && res.leaves == leaves
    && Recomputed(hash, b, nodes, Latest(leaves), n, levels)
    && BranchesAre(res.branches, levels)
    && if res.height == 1 then leaves != [] && res.root == leaves[0]
       else res.root.pos in levels[res.height - 1] && levels[res.height - 1][res.root.pos] == res.root.data
  }

  /** `res` is an update that takes the tree over `stored` to the tree over `new'`. */
  ghost predicate Updates(hash: HashFn, b: nat, nodes: Nodes, stored: seq<Bytes>, new': seq<Bytes>, res: UpdateResult,
                          levels: seq<Nodes>)
    requires b >= 2
  {
    && LeafUpdate(Latest(res.leaves), stored, new')
    && res.leaves != [] && DistinctPositions(res.leaves)
    && IsUpdate(hash, b, nodes, res.leaves, |new'|, res, levels) && res.height <= 255
  }

  /** The root an update reports is that of a full rebuild over the new leaves. */
  lemma UpdateRoot(hash: HashFn, b: nat, nodes: Nodes, stored: seq<Bytes>, leaves: seq<Node>, new': seq<Bytes>,
                   res: UpdateResult, levels: seq<Nodes>)
    requires b >= 2 && Canonical(hash, b, nodes, stored) && leaves != [] && (|new'| > 1 || DistinctPositions(leaves))
    requires LeafUpdate(Latest(leaves), stored, new')
    requires IsUpdate(hash, b, nodes, leaves, |new'|, res, levels)
    ensures new' != [] && res.root == Node(Position(res.height - 1, 0), FullRoot(hash, b, new'))
  {
    LatestKeys(leaves, leaves[0].pos);
    assert leaves[0].pos in Latest(leaves);
    TopChange(hash, b, nodes, Latest(leaves), stored, new', levels);
    if res.height == 1 {
      assert levels[0] == Latest(leaves);
      LatestDistinct(leaves, 0);
    }
  }

  /** The store after a commit is the full tree over the new leaves, with the root reported. */
  lemma CommittedTree(hash: HashFn, b: nat, nodes: Nodes, stored: seq<Bytes>, new': seq<Bytes>, res: UpdateResult,
                      levels: seq<Nodes>, after: Nodes)
    requires b >= 2 && Canonical(hash, b, nodes, stored) && Updates(hash, b, nodes, stored, new', res, levels)
    requires after == nodes + Latest(res.leaves) + Latest(res.branches)
    ensures Canonical(hash, b, after, new') && new' != []
    ensures res.root.pos == Position(res.height - 1, 0) && res.root.pos in after && after[res.root.pos] == res.root.data
  {
    UpdateRoot(hash, b, nodes, stored, res.leaves, new', res, levels);
    CommittedLevels(nodes, Latest(res.leaves), res.branches, levels, after);
    IncrementalIsFull(hash, b, nodes, Latest(res.leaves), stored, new', levels, after);
    StoredRoot(hash, b, after, new', res.root.pos);
  }

  lemma NonEmptyParents(hash: HashFn, b: nat, stored: Nodes, nodes: seq<Node>, parents: seq<Node>, level: nat,
                        rowSize: nat)
    requires b >= 2 && nodes != []
    requires Latest(parents) == ParentChanges(hash, b, stored, Latest(nodes), level, rowSize)
    ensures parents != []
  {
    LatestKeys(nodes, nodes[0].pos);
    assert nodes[0].pos in Latest(nodes);
    ParentsNonEmpty(b, Latest(nodes));
    assert Latest(parents).Keys == Parents(b, Latest(nodes));
  }

  /** A non-empty list of leaf positions inside a tree of `n` leaves. */
  ghost predicate AddressLeaves(leaves: seq<Node>, n: nat)
  {
    leaves != [] && AllAtLevel(leaves, 0) && forall i :: 0 <= i < |leaves| ==> leaves[i].pos.index < n
  }

  /** The leaves with the given ones put in place. */
  function Overlay(stored: seq<Bytes>, ch: Nodes): (r: seq<Bytes>)
    ensures |r| == |stored|
  {
    seq(|stored|, i requires 0 <= i < |stored| => if Position(0, i) in ch then ch[Position(0, i)] else stored[i])
  }

  lemma OverlayIsLeafUpdate(stored: seq<Bytes>, leaves: seq<Node>)
    requires AddressLeaves(leaves, |stored|)
    ensures LeafUpdate(Latest(leaves), stored, Overlay(stored, Latest(leaves)))
  {
    forall p | p in Latest(leaves)
      ensures p.level == 0 && p.index < |stored|
    {
      LatestKeys(leaves, p);
    }
  }

  /** Every leaf given is the stored one. */
  ghost predicate AllMatch(leaves: seq<Node>, stored: seq<Bytes>)
    requires AddressLeaves(leaves, |stored|)
  {
    forall i :: 0 <= i < |leaves| ==> leaves[i].data == stored[leaves[i].pos.index]
  }

  lemma MatchIffOverlaySame(leaves: seq<Node>, stored: seq<Bytes>)
    requires AddressLeaves(leaves, |stored|) && DistinctPositions(leaves)
    ensures AllMatch(leaves, stored) <==> Overlay(stored, Latest(leaves)) == stored
  {
    var new' := Overlay(stored, Latest(leaves));
    if AllMatch(leaves, stored) {
      forall i | 0 <= i < |stored|
        ensures new'[i] == stored[i]
      {
        LatestKeys(leaves, Position(0, i));
        if k :| 0 <= k < |leaves| && leaves[k].pos == Position(0, i) {
          LatestDistinct(leaves, k);
        }
      }
    } else {
      var k :| 0 <= k < |leaves| && leaves[k].data != stored[leaves[k].pos.index];
      LatestDistinct(leaves, k);
      assert leaves[k].pos == Position(0, leaves[k].pos.index);
      assert new'[leaves[k].pos.index] == leaves[k].data;
    }
  }

  /** Hashes and leaves all have one size. */
  ghost predicate DigestSized(hash: HashFn, leaves: seq<Node>, stored: seq<Bytes>, size: nat)
  {
    HashSized(hash, size) && AllSized(stored, size) && forall i :: 0 <= i < |leaves| ==> |leaves[i].data| == size
  }

  lemma OverlaySized(leaves: seq<Node>, stored: seq<Bytes>, size: nat)
    requires AllSized(stored, size) && DistinctPositions(leaves)
    requires forall i :: 0 <= i < |leaves| ==> |leaves[i].data| == size
    ensures AllSized(Overlay(stored, Latest(leaves)), size)
  {
    forall i | 0 <= i < |stored|
      ensures |Overlay(stored, Latest(leaves))[i]| == size
    {
      LatestKeys(leaves, Position(0, i));
      if k :| 0 <= k < |leaves| && leaves[k].pos == Position(0, i) {
        LatestDistinct(leaves, k);
      }
    }
  }

  /** Whether the root is reproduced is whether the leaves match, unless the trees collide. */
  lemma MatchDecides(hash: HashFn, b: nat, leaves: seq<Node>, stored: seq<Bytes>)
    requires b >= 2 && AddressLeaves(leaves, |stored|)
    ensures forall size :: DistinctPositions(leaves) && DigestSized(hash, leaves, stored, size) ==>
      var same := FullRoot(hash, b, Overlay(stored, Latest(leaves))) == FullRoot(hash, b, stored);
      && (AllMatch(leaves, stored) ==> same)
      && (same ==> AllMatch(leaves, stored) || TreesCollide(hash, b, Overlay(stored, Latest(leaves)), stored))
  {
    forall size | DistinctPositions(leaves) && DigestSized(hash, leaves, stored, size)
      ensures var same := FullRoot(hash, b, Overlay(stored, Latest(leaves))) == FullRoot(hash, b, stored);
        && (AllMatch(leaves, stored) ==> same)
        && (same ==> AllMatch(leaves, stored) || TreesCollide(hash, b, Overlay(stored, Latest(leaves)), stored))
    {
      MatchIffOverlaySame(leaves, stored);
      SameRootIff(hash, b, leaves, stored, size);
    }
  }

  /**
   Matching leaves reproduce the root; leaves of digest size that do not match but reproduce it have a
   collision of the hash function in the two trees.
   */
  lemma SameRootIff(hash: HashFn, b: nat, leaves: seq<Node>, stored: seq<Bytes>, size: nat)
    requires b >= 2 && AddressLeaves(leaves, |stored|) && DistinctPositions(leaves)
    requires DigestSized(hash, leaves, stored, size)
    ensures var new' := Overlay(stored, Latest(leaves));
      || (FullRoot(hash, b, new') == FullRoot(hash, b, stored) <==> AllMatch(leaves, stored))
      || (FullRoot(hash, b, new') == FullRoot(hash, b, stored) && TreesCollide(hash, b, new', stored))
  {
    MatchIffOverlaySame(leaves, stored);
    var new' := Overlay(stored, Latest(leaves));
    if new' != stored && FullRoot(hash, b, new') == FullRoot(hash, b, stored) {
      OverlaySized(leaves, stored, size);
      SameRootCollides(hash, b, new', stored, size);
    }
  }
}
