/**
 One HotStuff replica: hotstuff/hotstuff.go and hotstuff/state.go.

 `Replica` is the value of a replica's fields, with the handlers as functions on it; `Hotstuff` is
 the source's mutable object, whose methods are proved to compute those functions.  A block
 reference is resolved through the block store and may be missing there (nil in the source).
 */
module HotstuffReplica {
  import opened Options
  import opened BlockTree
  import opened Quorum

  type BlockVote = Vote<Block>

  /** consensus/state.go:57-68 as hotstuff sees it: a block the store can find, or nil. */
  function Lookup(store: set<Block>, ref: Option<Block>): Option<Block>
  {
    if ref.Some? && ref.value in store then ref else None
  }

  function ParentOf(store: set<Block>, b: Block): Option<Block>
  {
    Lookup(store, b.parent)
  }

  /** consensus/hs_models.go:104-109: a genesis block has no certificate. */
  function JustifyRef(b: Block): Option<Block>
  {
    if b.height == 0 then None else b.justify
  }

  function JustifyOf(store: set<Block>, b: Option<Block>): Option<Block>
  {
    if b.None? then None else Lookup(store, JustifyRef(b.value))
  }

  /** hotstuff/types.go:36-53 */
  function CmpBlockHeight(b1: Option<Block>, b2: Option<Block>): int
  {
    if b1.None? && b2.None? then 0
    else if b1.None? then -1
    else if b2.None? then 1
    else if b1.value.height == b2.value.height then 0
    else if b1.value.height > b2.value.height then 1
    else -1
  }

  /** hotstuff/hotstuff.go:133-138 */
  predicate IsThreeChain(store: set<Block>, b: Option<Block>, b1: Option<Block>, b2: Option<Block>)
  {
    b.Some? && b1.Some? && b2.Some? && ParentOf(store, b2.value) == b1 && ParentOf(store, b1.value) == b
  }

  /** Blocks left on the way to the root; what the walks below count down. */
  function BlocksBelow(b: Option<Block>): nat
  {
    if b.None? then 0 else 1 + Depth(b.value)
  }

  /** The walk of hotstuff/hotstuff.go:69-77 from `b` towards the lock. */
  predicate SafetyWalk(store: set<Block>, b: Option<Block>, lock: Block)
    decreases BlocksBelow(b)
  {
    CmpBlockHeight(b, Some(lock)) != -1 && (b.value == lock || SafetyWalk(store, ParentOf(store, b.value), lock))
  }

  /**
   The recursion of hotstuff/hotstuff.go:99-109: the blocks it commits in commit order, or `None`
   where it reaches the fatal stop.
   */
  function CommitWalk(store: set<Block>, exec: Block, b: Option<Block>): Option<seq<Block>>
    decreases BlocksBelow(b)
  {
    if CmpBlockHeight(b, Some(exec)) == 1 then
      var below := CommitWalk(store, exec, ParentOf(store, b.value));
      if below.None? then None else Some(below.value + [b.value])
    else if b == Some(exec) then Some([])
    else None
  }

  datatype Replica = Replica(
    store: set<Block>,
    bVote: Block, bLock: Block, bExec: Block, bLeaf: Block,
    qcHigh: Option<Block>,
    proposal: Option<Block>, votes: map<PublicKey, BlockVote>,
    committed: seq<Block>, halted: bool)
  {
    function QcHighBlock(): Option<Block> { Lookup(store, qcHigh) }

    predicate CheckSafetyRule(b: Block) { SafetyWalk(store, Some(b), bLock) }

    predicate CheckLivenessRule(b: Block) {
      CmpBlockHeight(JustifyOf(store, Some(b)), Some(bLock)) == 1
    }

    predicate CanVote(b: Block) {
      CmpBlockHeight(Some(b), Some(bVote)) == 1 && (CheckSafetyRule(b) || CheckLivenessRule(b))
    }

    /** consensus/state.go:51-55 */
    function SetBlock(b: Block): Replica { this.(store := store + {b}) }

    function UpdateQCHigh(qc: Option<Block>): Replica {
      if CmpBlockHeight(Lookup(store, qc), QcHighBlock()) == 1
      then this.(qcHigh := qc, bLeaf := qc.value)
      else this
    }

    function OnCommit(b: Block): Replica {
      match CommitWalk(store, bExec, Some(b))
      case None => this.(halted := true)
      case Some(blocks) => this.(committed := committed + blocks)
    }

    function Update(bNew: Block): Replica {
      var b2 := JustifyOf(store, Some(bNew));
      var b1 := JustifyOf(store, b2);
      var b := JustifyOf(store, b1);
      var s := UpdateQCHigh(JustifyRef(bNew));
      if CmpBlockHeight(b1, Some(s.bLock)) != 1 then s else
      var locked := s.(bLock := b1.value);
      if !IsThreeChain(store, b, b1, b2) then locked else
      var done := locked.OnCommit(b.value);
      if done.halted then done else done.(bExec := b.value)
    }

    function OnReceiveProposal(bNew: Block): Replica {
      (if CanVote(bNew) then this.(bVote := bNew) else this).Update(bNew)
    }

    /** consensus/hs_driver.go:30-43: a leaf on `bLeaf` that carries the highest certificate. */
    function NewLeaf(payload: nat): Block {
      Block(bLeaf.height + 1, Some(bLeaf), qcHigh, payload)
    }

    function OnPropose(payload: nat): Replica {
      var b := NewLeaf(payload);
      SetBlock(b).(bLeaf := b, proposal := Some(b), votes := map[])
    }

    predicate AddsVote(v: BlockVote) {
      proposal.Some? && Lookup(store, v.blockHash) == proposal && v.Voter() !in votes
    }

    function OnReceiveVote(v: BlockVote, majority: int): Replica {
      if !AddsVote(v) then this else
      var s := this.(votes := votes[v.Voter() := v]);
      if |s.votes| < majority then s else
      s.(proposal := None, votes := map[]).UpdateQCHigh(proposal)
    }

    /** consensus/pacemaker.go:96-102 */
    function Propose(payload: nat, self: PublicKey, majority: int): Replica {
      var b := NewLeaf(payload);
      var vote := Vote(Some(b), Signature(self, Some(b)));
      OnPropose(payload).OnReceiveVote(vote, majority).Update(b)
    }
  }

  /** hotstuff/state.go:28-37 with the start block in the store. */
  function NewReplica(b0: Block, q0: Option<Block>): Replica
  {
    Replica({b0}, b0, b0, b0, b0, q0, None, map[], [], false)
  }

  /** Every vote held was validated on receipt: consensus/validator.go:294-300. */
  ghost predicate AllAccepted(votes: map<PublicKey, BlockVote>, vs: ValidatorStore)
  {
    forall k :: k in votes ==> VoteAccepted(votes[k], vs)
  }

  class Hotstuff {
    var store: set<Block>
    var bVote: Block
    var bLock: Block
    var bExec: Block
    var bLeaf: Block
    var qcHigh: Option<Block>
    var proposal: Option<Block>
    var votes: map<PublicKey, BlockVote>
    var committed: seq<Block>  // the blocks given to driver.Commit, in order
    var voted: seq<Block>      // the blocks given to driver.VoteBlock, in order
    var halted: bool           // log.Fatalf was reached
    const majority: int        // driver.MajorityCount()

    function State(): Replica
      reads this
    {
      Replica(store, bVote, bLock, bExec, bLeaf, qcHigh, proposal, votes, committed, halted)
    }

    /** The vote table holds one vote per voter, each for the open proposal. */
    ghost predicate Valid()
      reads this
    {
      && !halted
      && (forall k :: k in votes ==> votes[k].Voter() == k && proposal.Some? && votes[k].blockHash == proposal)
      && (proposal.Some? ==> proposal.value in store)
    }

    constructor (b0: Block, q0: Option<Block>, majority: int)
      ensures Valid() && State() == NewReplica(b0, q0) && voted == [] && this.majority == majority
    {
      store, bVote, bLock, bExec, bLeaf, qcHigh := {b0}, b0, b0, b0, b0, q0;
      proposal, votes := None, map[];
      committed, voted, halted := [], [], false;
      this.majority := majority;
    }

    /** hotstuff/hotstuff.go:69-77 */
    method CheckSafetyRule(bNew: Block) returns (ok: bool)
      ensures ok == State().CheckSafetyRule(bNew)
    {
      var b: Option<Block> := Some(bNew);
      while CmpBlockHeight(b, Some(bLock)) != -1
        invariant SafetyWalk(store, Some(bNew), bLock) == SafetyWalk(store, b, bLock)
        decreases BlocksBelow(b)
      {
        if bLock == b.value {
          return true;
        }
        b := ParentOf(store, b.value);
      }
      return false;
    }

    /** hotstuff/hotstuff.go:61-66, 80-82 */
    method CanVote(bNew: Block) returns (ok: bool)
      ensures ok == State().CanVote(bNew)
    {
      if CmpBlockHeight(Some(bNew), Some(bVote)) == 1 {
        ok := CheckSafetyRule(bNew);
        if !ok {
          ok := CmpBlockHeight(JustifyOf(store, Some(bNew)), Some(bLock)) == 1;
        }
        return ok;
      }
      return false;
    }

    /** hotstuff/hotstuff.go:112-118 */
    method UpdateQCHigh(qc: Option<Block>)
      modifies this`qcHigh, this`bLeaf
      ensures State() == old(State()).UpdateQCHigh(qc)
    {
      if CmpBlockHeight(Lookup(store, qc), Lookup(store, qcHigh)) == 1 {
        qcHigh := qc;
        bLeaf := qc.value;
      }
    }

    /** hotstuff/hotstuff.go:99-109 */
    method OnCommit(b: Option<Block>)
      requires !halted
      modifies this`committed, this`halted
      ensures match CommitWalk(store, bExec, b)
        case None => halted && committed == old(committed)
        case Some(blocks) => !halted && committed == old(committed) + blocks
      decreases BlocksBelow(b)
    {
      if CmpBlockHeight(b, Some(bExec)) == 1 {
        OnCommit(ParentOf(store, b.value));
        if halted {
          return;
        }
        committed := committed + [b.value];
      } else if b != Some(bExec) {
        halted := true;
      }
    }

    /** hotstuff/hotstuff.go:85-97, 121-130 */
    method Update(bNew: Block)
      requires !halted
      modifies this`qcHigh, this`bLeaf, this`bLock, this`bExec, this`committed, this`halted
      ensures State() == old(State()).Update(bNew)
    {
      var b2 := JustifyOf(store, Some(bNew));
      var b1 := JustifyOf(store, b2);
      var b := JustifyOf(store, b1);
      UpdateQCHigh(JustifyRef(bNew));
      if CmpBlockHeight(b1, Some(bLock)) == 1 {
        bLock := b1.value;
        if IsThreeChain(store, b, b1, b2) {
          OnCommit(b);
          if halted {
            return;
          }
          bExec := b.value;
        }
      }
    }

    /** hotstuff/hotstuff.go:52-58 */
    method OnReceiveProposal(bNew: Block)
      requires !halted
      modifies this
      ensures State() == old(State()).OnReceiveProposal(bNew)
      ensures voted == old(voted) + if old(State()).CanVote(bNew) then [bNew] else []
    {
      var ok := CanVote(bNew);
      if ok {
        voted := voted + [bNew];
        bVote := bNew;
      }
      Update(bNew);
    }

    /** hotstuff/hotstuff.go:26-36; `None` is a driver that makes no leaf. */
    method OnPropose(payload: Option<nat>) returns (leaf: Option<Block>)
      modifies this
      ensures payload.None? ==> leaf == None && unchanged(this)
      ensures payload.Some? ==>
        && leaf == Some(old(State()).NewLeaf(payload.value)) && State() == old(State()).OnPropose(payload.value)
        && voted == old(voted)
      ensures old(Valid()) ==> Valid()
    {
      if payload.None? {
        return None;
      }
      var b := Block(bLeaf.height + 1, Some(bLeaf), qcHigh, payload.value);
      store := store + {b};
      bLeaf := b;
      proposal, votes := Some(b), map[];
      return Some(b);
    }

    /** hotstuff/state.go:117-126: the votes in the map's iteration order. */
    method GetVotes() returns (list: seq<BlockVote>)
      ensures |list| == |votes|
      ensures forall v :: v in list <==> v in votes.Values
      ensures (forall k :: k in votes ==> votes[k].Voter() == k) ==>
        forall i, j :: 0 <= i < j < |list| ==> list[i].Voter() != list[j].Voter()
    {
      list := [];
      var rest := votes.Keys;
      ghost var taken: seq<PublicKey> := [];
      while rest != {}
        invariant rest <= votes.Keys
        invariant |list| == |taken| && |list| + |rest| == |votes|
        invariant forall k :: k in votes.Keys <==> k in rest || k in taken
        invariant forall i :: 0 <= i < |taken| ==> taken[i] in votes && taken[i] !in rest && list[i] == votes[taken[i]]
        invariant forall i, j :: 0 <= i < j < |taken| ==> taken[i] != taken[j]
      {
        var k :| k in rest;
        list := list + [votes[k]];
        taken := taken + [k];
        rest := rest - {k};
      }
      forall k | k in votes.Keys
        ensures votes[k] in list
      {
        var i :| 0 <= i < |taken| && taken[i] == k;
        assert list[i] == votes[k];
      }
    }

    /** GetVotes and consensus/hs_driver.go:45-52: a certificate of the votes held. */
    method CreateQC(vs: ValidatorStore) returns (qc: QuorumCert<Block>)
      requires Valid() && votes != map[]
      ensures qc.blockHash == proposal && |qc.sigs| == |votes| && Distinct(qc.sigs)
      ensures |votes| >= vs.majority && AllAccepted(votes, vs) ==> Accepted(qc, vs)
    {
      var list := GetVotes();
      qc := Build(list);
      assert forall i :: 0 <= i < |list| ==> list[i] in votes.Values;
      assert forall v :: v in votes.Values ==> v.blockHash == proposal;
      assert list[0] in votes.Values;
      if AllAccepted(votes, vs) {
        assert forall v :: v in votes.Values ==> VoteAccepted(v, vs);
      }
    }

    /**
     hotstuff/hotstuff.go:39-49 with hotstuff/state.go:92-108.  A completed vote set becomes a
     certificate for the open proposal; when every vote was validated on receipt, that certificate
     is one any replica accepts.
     */
    method OnReceiveVote(v: BlockVote, vs: ValidatorStore) returns (qc: Option<QuorumCert<Block>>)
      requires Valid() && vs.majority == majority
      modifies this
      ensures Valid() && voted == old(voted)
      ensures State() == old(State()).OnReceiveVote(v, majority)
      ensures qc.Some? <==> old(State().AddsVote(v)) && |old(votes)| + 1 >= majority
      ensures qc.Some? ==>
        qc.value.blockHash == old(proposal) && |qc.value.sigs| == |old(votes)| + 1 && Distinct(qc.value.sigs)
      ensures VoteAccepted(v, vs) && AllAccepted(old(votes), vs) ==>
        AllAccepted(votes, vs) && (qc.Some? ==> Accepted(qc.value, vs))
    {
      if proposal.None? || proposal != Lookup(store, v.blockHash) || v.Voter() in votes {
        return None;
      }
      votes := votes[v.Voter() := v];
      if |votes| < majority {
        return None;
      }
      var cert := CreateQC(vs);
      proposal, votes := None, map[];
      UpdateQCHigh(cert.blockHash);
      return Some(cert);
    }

    /** consensus/pacemaker.go:96-102: the block signature of the proposer is delivered as its vote. */
    method Propose(payload: nat, self: PublicKey, vs: ValidatorStore) returns (leaf: Block)
      requires Valid() && vs.majority == majority
      modifies this
      ensures leaf == old(State()).NewLeaf(payload)
      ensures State() == old(State()).Propose(payload, self, majority)
    {
      var made := OnPropose(Some(payload));
      leaf := made.value;
      var _ := OnReceiveVote(Vote(Some(leaf), Signature(self, Some(leaf))), vs);
      Update(leaf);
    }
  }
}
