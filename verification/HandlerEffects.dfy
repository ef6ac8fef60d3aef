/**
 What each call does to a replica, in heights, parents and descent alone: every field after a proposal,
 a new view, a vote and an own proposal.
 */
module HandlerEffects {
  import opened Options
  import opened BlockTree
  import opened Quorum
  import opened HotstuffReplica
  import opened ReplicaInvariant
  import opened Protocol

  function Higher(a: Block, b: Block): Block
  {
    if b.height > a.height then b else a
  }

  /** The vote rule over the tree. */
  predicate MayVote(s: Replica, b: Block)
    requires b.justify.Some?
  {
    b.height > s.bVote.height && (Extends(b, s.bLock) || b.justify.value.height > s.bLock.height)
  }

  /** The replica when the block reaches the lock and commit rules. */
  lemma ProposalEntered(b0: Block, s: Replica, b: Block, voting: bool, self: PublicKey, majority: int, t: Replica)
    returns (s2: Replica)
    requires Good(b0, s) && !s.halted && Admissible(b0, s, Proposal(b, voting))
    requires t == Handle(s, Proposal(b, voting), self, majority)
    ensures b.justify.Some?
    ensures s2 == s.(store := s.store + {b}, bVote := if voting && MayVote(s, b) then b else s.bVote)
    ensures Good(b0, s2) && t == s2.Update(b)
  {
    InTreeRooted(b0, b);
    SetBlockKeeps(b0, s, b);
    var s1 := s.SetBlock(b);
    CanVoteIff(b0, s1, b);
    s2 := if voting && s1.CanVote(b) then s1.(bVote := b) else s1;
  }

  /**
   A proposal, whether to be voted on or not: the block is stored, bVote moves exactly when it is to be
   voted on and the vote rule holds, and the highest certificate, with bLeaf, follows the block's
   certificate exactly when that is for a higher block.
   */
  lemma ProposalEffect(b0: Block, s: Replica, b: Block, voting: bool, self: PublicKey, majority: int, t: Replica)
    requires Good(b0, s) && !s.halted && Admissible(b0, s, Proposal(b, voting))
    requires t == Handle(s, Proposal(b, voting), self, majority)
    ensures b.justify.Some? && t.store == s.store + {b} && t.proposal == s.proposal && t.votes == s.votes
    ensures t.bVote == if voting && MayVote(s, b) then b else s.bVote
    ensures t.qcHigh == Some(Higher(s.qcHigh.value, b.justify.value))
    ensures t.bLeaf == if b.justify.value.height > s.qcHigh.value.height then b.justify.value else s.bLeaf
  {
    var s2 := ProposalEntered(b0, s, b, voting, self, majority, t);
    CertificateEffect(b0, s2, b, t);
  }

  lemma CertificateEffect(b0: Block, s: Replica, b: Block, t: Replica)
    requires Good(b0, s) && !s.halted && b in s.store && b != b0 && t == s.Update(b)
    ensures b.justify.Some? && t.qcHigh == Some(Higher(s.qcHigh.value, b.justify.value))
    ensures t.bLeaf == if b.justify.value.height > s.qcHigh.value.height then b.justify.value else s.bLeaf
    ensures t.store == s.store && t.proposal == s.proposal && t.votes == s.votes && t.bVote == s.bVote
  {
    JustifyFound(b0, s.store, b);
    var b2 := JustifyOf(s.store, Some(b));
    var b1 := JustifyOf(s.store, b2);
    UpdateCases(s, b, b2, b1, JustifyOf(s.store, b1), t);
  }

  /**
   Where the block `b1` two certificates back from the proposed `b` is above the lock: it becomes the lock.
   When `b1` and `b2` are direct children of the blocks they certify, the path to `bx` is committed, unless
   `bx` does not descend from the last executed block, which is the fatal stop; otherwise nothing is committed.
   */
  lemma ProposalLocks(b0: Block, s: Replica, b: Block, voting: bool, self: PublicKey, majority: int, t: Replica,
                      b2: Block, b1: Block, bx: Block)
    requires Good(b0, s) && !s.halted && Admissible(b0, s, Proposal(b, voting))
    requires t == Handle(s, Proposal(b, voting), self, majority)
    requires b.justify == Some(b2) && b2 != b0 && b2.justify == Some(b1) && b1.justify == Some(bx)
    requires b1.height > s.bLock.height
    ensures LocksOn(b0, s, b2, b1, bx, t)
  {
    var s2 := ProposalEntered(b0, s, b, voting, self, majority, t);
    LockEffect(b0, s2, b, b2, b1, bx, t);
  }

  /** And where it is not: lock, executed block and committed blocks stay. */
  lemma ProposalBelowLock(b0: Block, s: Replica, b: Block, voting: bool, self: PublicKey, majority: int, t: Replica,
                          b2: Block)
    requires Good(b0, s) && !s.halted && Admissible(b0, s, Proposal(b, voting))
    requires t == Handle(s, Proposal(b, voting), self, majority)
    requires b.justify == Some(b2) && (b2 == b0 || (b2.justify.Some? && b2.justify.value.height <= s.bLock.height))
    ensures t.bLock == s.bLock && t.bExec == s.bExec && t.committed == s.committed && !t.halted
  {
    var s2 := ProposalEntered(b0, s, b, voting, self, majority, t);
    UpdateBelowLock(b0, s2, b, b2, t);
  }

  /** The lock on `b1`, and the commit of `bx` on three direct parents. */
  ghost predicate LocksOn(b0: Block, s: Replica, b2: Block, b1: Block, bx: Block, t: Replica)
  {
    && t.bLock == b1
    && if b2.parent == Some(b1) && b1.parent == Some(bx) then
         && (t.halted <==> !Extends(bx, s.bExec))
         && (if t.halted then t.bExec == s.bExec && t.committed == s.committed
             else t.bExec == bx && s.committed <= t.committed && IsChain(b0, t.committed, bx))
       else
         t.bExec == s.bExec && t.committed == s.committed && !t.halted
  }

  lemma LockEffect(b0: Block, s: Replica, b: Block, b2: Block, b1: Block, bx: Block, t: Replica)
    requires Good(b0, s) && !s.halted && b in s.store && b != b0 && t == s.Update(b)
    requires b.justify == Some(b2) && b2 != b0 && b2.justify == Some(b1) && b1.justify == Some(bx)
    requires b1.height > s.bLock.height
    ensures LocksOn(b0, s, b2, b1, bx, t)
  {
    UpdateMeans(b0, s, b, b2, b1, bx, t);
    UpdateKeeps(b0, s, b, t);
    JustifyFound(b0, s.store, b);
    JustifyFound(b0, s.store, b2);
    RootHeight(b0, s.bLock);
    JustifyFound(b0, s.store, b1);
    UpdateCases(s, b, Some(b2), Some(b1), Some(bx), t);
    PathIsChain(b0, bx);
  }

  /** A certificate received in a new view: only the highest certificate and bLeaf may follow it. */
  lemma NewViewEffect(b0: Block, s: Replica, qc: Option<Block>, self: PublicKey, majority: int, t: Replica)
    requires Good(b0, s) && t == Handle(s, NewView(qc), self, majority)
    ensures if qc.Some? && qc.value in s.store && qc.value.height > s.qcHigh.value.height
      then t == s.(qcHigh := qc, bLeaf := qc.value)
      else t == s
  {
  }

  /**
   A vote counts for the open proposal, once per voter.  The one that completes the majority closes the
   proposal, which becomes the highest certificate if it is higher.
   */
  lemma VoteEffect(b0: Block, s: Replica, v: BlockVote, self: PublicKey, majority: int, t: Replica)
    requires Good(b0, s) && t == Handle(s, VoteReceived(v), self, majority)
    ensures s.proposal.None? || v.blockHash != s.proposal || v.Voter() in s.votes ==> t == s
    ensures s.proposal.Some? && v.blockHash == s.proposal && v.Voter() !in s.votes ==>
      if |s.votes| + 1 < majority then t == s.(votes := s.votes[v.Voter() := v])
      else t == Closed(s)
  {
    if v.Voter() !in s.votes {
      assert |s.votes[v.Voter() := v]| == |s.votes| + 1;
    }
  }

  /** The open proposal closed with a certificate. */
  function Closed(s: Replica): Replica
    requires s.proposal.Some? && s.qcHigh.Some?
  {
    var b := s.proposal.value;
    s.(proposal := None, votes := map[], qcHigh := Some(Higher(s.qcHigh.value, b)),
       bLeaf := if b.height > s.qcHigh.value.height then b else s.bLeaf)
  }

  /** The block a leader proposes: on bLeaf, one higher, with the highest certificate. */
  function Leaf(s: Replica, payload: nat): Block
  {
    Block(s.bLeaf.height + 1, Some(s.bLeaf), s.qcHigh, payload)
  }

  /** The replica when its own proposal reaches the lock and commit rules. */
  function Opened(s: Replica, payload: nat, self: PublicKey, majority: int): Replica
    requires s.qcHigh.Some?
  {
    var b := Leaf(s, payload);
    var open := s.(store := s.store + {b}, bLeaf := b, proposal := Some(b),
                   votes := map[self := Vote(Some(b), Signature(self, Some(b)))]);
    if majority > 1 then open else Closed(open)
  }

  lemma BeatEntered(b0: Block, s: Replica, payload: nat, self: PublicKey, majority: int, t: Replica)
    requires Good(b0, s) && !s.halted && t == Handle(s, Beat(payload), self, majority)
    ensures var b := Leaf(s, payload);
      InTree(b0, b) && b != b0 && Good(b0, Opened(s, payload, self, majority))
      && b in Opened(s, payload, self, majority).store && t == Opened(s, payload, self, majority).Update(b)
  {
    var b := Leaf(s, payload);
    ProposalIsSound(b0, s, payload);
    var s1 := s.OnPropose(payload);
    var vote := Vote(Some(b), Signature(self, Some(b)));
    var s2 := s1.OnReceiveVote(vote, majority);
    OnReceiveVoteKeeps(b0, s1, vote, majority);
    assert s1.votes[self := vote] == map[self := vote];
    RootHeight(b0, s.bLeaf);
    RootedHeight(b0, s.bLeaf, s.qcHigh.value);
    assert s2 == Opened(s, payload, self, majority);
  }

  /**
   An own proposal: the leaf is stored and open with the leader's own vote, or, where one vote is a
   majority, certified at once.  bVote does not move.
   */
  lemma BeatEffect(b0: Block, s: Replica, payload: nat, self: PublicKey, majority: int, t: Replica)
    requires Good(b0, s) && !s.halted && t == Handle(s, Beat(payload), self, majority)
    ensures var o := Opened(s, payload, self, majority);
      && t.store == o.store && t.proposal == o.proposal && t.votes == o.votes
      && t.qcHigh == o.qcHigh && t.bLeaf == o.bLeaf && t.bVote == s.bVote
  {
    BeatEntered(b0, s, payload, self, majority, t);
    CertificateEffect(b0, Opened(s, payload, self, majority), Leaf(s, payload), t);
    RootHeight(b0, s.bLeaf);
  }

  /** The lock and commit rules on an own proposal are those on a received one. */
  lemma BeatLocks(b0: Block, s: Replica, payload: nat, self: PublicKey, majority: int, t: Replica,
                  b2: Block, b1: Block, bx: Block)
    requires Good(b0, s) && !s.halted && t == Handle(s, Beat(payload), self, majority)
    requires s.qcHigh == Some(b2) && b2 != b0 && b2.justify == Some(b1) && b1.justify == Some(bx)
    requires b1.height > s.bLock.height
    ensures LocksOn(b0, s, b2, b1, bx, t)
  {
    BeatEntered(b0, s, payload, self, majority, t);
    LockEffect(b0, Opened(s, payload, self, majority), Leaf(s, payload), b2, b1, bx, t);
  }

  lemma BeatBelowLock(b0: Block, s: Replica, payload: nat, self: PublicKey, majority: int, t: Replica, b2: Block)
    requires Good(b0, s) && !s.halted && t == Handle(s, Beat(payload), self, majority)
    requires s.qcHigh == Some(b2) && (b2 == b0 || (b2.justify.Some? && b2.justify.value.height <= s.bLock.height))
    ensures t.bLock == s.bLock && t.bExec == s.bExec && t.committed == s.committed && !t.halted
  {
    BeatEntered(b0, s, payload, self, majority, t);
    UpdateBelowLock(b0, Opened(s, payload, self, majority), Leaf(s, payload), b2, t);
  }

  /** A replica signs exactly the proposals it may vote for and its own. */
  lemma SignsIff(b0: Block, s: Replica, e: Event, b: Block)
    requires Good(b0, s) && Admissible(b0, s, e)
    ensures Signs(s, e) == Some(b) <==>
      || (e.Proposal? && e.voting && e.blk == b && b.justify.Some? && MayVote(s, b))
      || (e.Beat? && b == Leaf(s, e.payload))
  {
    if e.Proposal? {
      InTreeRooted(b0, e.blk);
      SetBlockKeeps(b0, s, e.blk);
      CanVoteIff(b0, s.SetBlock(e.blk), e.blk);
    }
  }
}
