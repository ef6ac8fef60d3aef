/**
 The block tree of hotstuff/types.go.

 Blocks are compared by hash in the source and a hash covers the parent hash and the
 hash of the block the quorum certificate refers to (core/block.go:41-56).  With no hash
 collisions a block therefore determines its parent and its justify block, and the tree is an
 inductive datatype.  A missing parent (the chain id of a genesis block) and a missing
 certificate (a genesis block has none) are `None`.
 */
module BlockTree {
  import opened Options

  datatype Block = Block(height: nat, parent: Option<Block>, justify: Option<Block>, payload: nat)

  /** `b` is `a` or a descendant of `a`. */
  predicate Extends(b: Block, a: Block)
  {
    b == a || (b.parent.Some? && Extends(b.parent.value, a))
  }

  predicate Conflicting(a: Block, b: Block)
  {
    !Extends(a, b) && !Extends(b, a)
  }

  /** Number of proper ancestors. */
  function Depth(b: Block): nat
  {
    if b.parent.None? then 0 else 1 + Depth(b.parent.value)
  }

  /** `b` descends from the start block `b0` with height parent + 1 at each block (consensus/validator.go:224). */
  predicate Rooted(b0: Block, b: Block)
  {
    b == b0 || (b.parent.Some? && b.height == b.parent.value.height + 1 && Rooted(b0, b.parent.value))
  }

  /**
   `b` descends from the start block `b0`, and every block between them has height parent + 1
   (consensus/validator.go:224), carries a certificate and extends the block it certifies.
   */
  predicate InTree(b0: Block, b: Block)
  {
    b == b0 ||
    (&& b.parent.Some?
     && b.justify.Some?
     && b.height == b.parent.value.height + 1
     && InTree(b0, b.parent.value)
     && InTree(b0, b.justify.value)
     && Extends(b.parent.value, b.justify.value))
  }

  /** The blocks after `b0` up to `b`, oldest first. */
  function PathFrom(b0: Block, b: Block): seq<Block>
  {
    if b == b0 || b.parent.None? then [] else PathFrom(b0, b.parent.value) + [b]
  }

  lemma {:induction false} ExtendsTransitive(c: Block, b: Block, a: Block)
    requires Extends(c, b) && Extends(b, a)
    ensures Extends(c, a)
  {
    if c != b {
      ExtendsTransitive(c.parent.value, b, a);
    }
  }

  lemma {:induction false} ExtendsDepth(b: Block, a: Block)
    requires Extends(b, a)
    ensures Depth(a) <= Depth(b)
    ensures Depth(a) == Depth(b) ==> a == b
  {
    if b != a {
      ExtendsDepth(b.parent.value, a);
    }
  }

  lemma {:induction false} RootedDepth(b0: Block, b: Block)
    requires Rooted(b0, b)
    ensures Extends(b, b0)
    ensures b.height - b0.height == Depth(b) - Depth(b0)
    ensures b0.height <= b.height
  {
    if b != b0 {
      RootedDepth(b0, b.parent.value);
    }
  }

  /** Inside a tree heights grow strictly along a branch. */
  lemma RootedHeight(b0: Block, b: Block, a: Block)
    requires Rooted(b0, b) && Rooted(b0, a) && Extends(b, a)
    ensures a.height <= b.height
    ensures a.height == b.height ==> a == b
  {
    RootedDepth(b0, b);
    RootedDepth(b0, a);
    ExtendsDepth(b, a);
  }

  /** Only the start block has its height in its tree. */
  lemma RootHeight(b0: Block, b: Block)
    requires Rooted(b0, b)
    ensures b0.height <= b.height
    ensures b.height == b0.height ==> b == b0
  {
    RootedDepth(b0, b);
    ExtendsDepth(b, b0);
  }

  lemma {:induction false} InTreeRooted(b0: Block, b: Block)
    requires InTree(b0, b)
    ensures Rooted(b0, b)
  {
    if b != b0 {
      InTreeRooted(b0, b.parent.value);
    }
  }

  /** A certified block in a tree is strictly below the block that carries its certificate. */
  lemma JustifyBelow(b0: Block, b: Block)
    requires InTree(b0, b) && b != b0
    ensures Extends(b, b.justify.value)
    ensures b.justify.value.height < b.height
  {
    ExtendsTransitive(b, b.parent.value, b.justify.value);
    InTreeRooted(b0, b.parent.value);
    InTreeRooted(b0, b.justify.value);
    RootedHeight(b0, b.parent.value, b.justify.value);
  }

  /** Two branches of one tree that both contain a block agree on the path up to it. */
  lemma {:induction false} PathPrefix(b0: Block, b: Block, a: Block)
    requires Rooted(b0, b) && Rooted(b0, a) && Extends(b, a)
    ensures PathFrom(b0, a) <= PathFrom(b0, b)
  {
    if b != a {
      if b == b0 {
        RootedDepth(b0, a);
        ExtendsDepth(b, a);
        ExtendsDepth(a, b0);
      } else {
        PathPrefix(b0, b.parent.value, a);
      }
    }
  }
}
