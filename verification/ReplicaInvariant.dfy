/**
 What every handler call of one replica keeps, over any sequence of calls, given only a
 well-formed block tree: no assumption about votes, quorums or other replicas.
 */
module ReplicaInvariant {
  import opened Options
  import opened BlockTree
  import opened Quorum
  import opened HotstuffReplica

  /** A call into the replica. */
  datatype Event =
    | Proposal(blk: Block, voting: bool)  // consensus/validator.go:221-250
    | NewView(qc: Option<Block>)          // consensus/validator.go:302-308
    | VoteReceived(vote: BlockVote)       // consensus/validator.go:294-300
    | Beat(payload: nat)                  // consensus/pacemaker.go:96-102

  function Handle(s: Replica, e: Event, self: PublicKey, majority: int): Replica
  {
    match e
    case Proposal(b, voting) => if voting then s.SetBlock(b).OnReceiveProposal(b) else s.SetBlock(b).Update(b)
    case NewView(qc) => s.UpdateQCHigh(qc)
    case VoteReceived(v) => s.OnReceiveVote(v, majority)
    case Beat(payload) => s.Propose(payload, self, majority)
  }

  /** A block is handled only after its parent was found and its height compared: consensus/validator.go:221-233. */
  predicate Received(b0: Block, s: Replica, e: Event)
  {
    e.Proposal? ==> Rooted(b0, e.blk) && e.blk != b0 && e.blk.parent.value in s.store
  }

  /** Besides, the block extends the block its certificate is for, which nothing checks on receipt. */
  predicate Admissible(b0: Block, s: Replica, e: Event)
  {
    e.Proposal? ==> InTree(b0, e.blk) && e.blk != b0 && e.blk.parent.value in s.store
  }

  ghost predicate ParentClosed(b0: Block, store: set<Block>)
  {
    && b0 in store
    && (forall b :: b in store ==> Rooted(b0, b))
    && (forall b :: b in store && b != b0 ==> b.parent.value in store)
  }

  ghost predicate StoreOk(b0: Block, store: set<Block>)
  {
    ParentClosed(b0, store) && forall b :: b in store ==> InTree(b0, b)
  }

  /** What holds whatever the certificates of the received blocks are for. */
  ghost predicate Sound(b0: Block, s: Replica)
  {
    && ParentClosed(b0, s.store)
    && {s.bVote, s.bLock, s.bExec, s.bLeaf} <= s.store
    && s.qcHigh.Some? && s.qcHigh.value in s.store
    && (s.proposal.Some? ==> s.proposal.value in s.store)
    && s.bExec.height <= s.bLock.height
    && Extends(s.bLeaf, s.qcHigh.value)
    && s.committed == PathFrom(b0, s.bExec)
  }

  /** What holds besides when every received block extends the block its certificate is for. */
  ghost predicate Good(b0: Block, s: Replica)
  {
    && Sound(b0, s)
    && StoreOk(b0, s.store)
    && s.bLock.height <= s.qcHigh.value.height
    && (s.bLock != b0 ==> s.bLock.height < s.qcHigh.value.height)
  }

  /** No height a replica has reached is ever given up, and nothing committed is taken back. */
  ghost predicate Advances(s: Replica, t: Replica)
  {
    && s.qcHigh.Some? && t.qcHigh.Some?
    && s.bVote.height <= t.bVote.height
    && s.bLock.height <= t.bLock.height
    && s.bExec.height <= t.bExec.height
    && s.qcHigh.value.height <= t.qcHigh.value.height
    && s.committed <= t.committed
    && s.store <= t.store
  }

  lemma {:induction false} ExtendsRank(b: Block, a: Block)
    requires Extends(b, a)
    ensures a == b || a < b
  {
    if b != a {
      ExtendsRank(b.parent.value, a);
    }
  }

  /** The start block's own certificate points outside its tree. */
  lemma RootJustifyOutside(b0: Block, store: set<Block>)
    requires StoreOk(b0, store)
    ensures JustifyOf(store, Some(b0)) == None
  {
    if b0.justify.Some? && b0.justify.value in store {
      RootedDepth(b0, b0.justify.value);
      ExtendsRank(b0.justify.value, b0);
      assert false;
    }
  }

  lemma {:induction false} StoreHasAncestors(b0: Block, store: set<Block>, b: Block, a: Block)
    requires ParentClosed(b0, store) && b in store && Rooted(b0, a) && Extends(b, a)
    ensures a in store
  {
    if b != a {
      if b == b0 {
        RootedDepth(b0, a);
        ExtendsDepth(a, b0);
        ExtendsDepth(b0, a);
      } else {
        StoreHasAncestors(b0, store, b.parent.value, a);
      }
    }
  }

  /** In a well-formed store every justify reference of a block other than the start block resolves. */
  lemma JustifyFound(b0: Block, store: set<Block>, b: Block)
    requires StoreOk(b0, store) && b in store && b != b0
    ensures JustifyOf(store, Some(b)) == b.justify && b.justify.Some? && b.justify.value in store
    ensures b.justify.value.height < b.height && Extends(b, b.justify.value)
  {
    JustifyBelow(b0, b);
    InTreeRooted(b0, b.justify.value);
    StoreHasAncestors(b0, store, b, b.justify.value);
  }

  /** The safety rule's bounded walk decides descent from the lock. */
  lemma {:induction false} SafetyWalkIsExtends(b0: Block, store: set<Block>, b: Block, lock: Block)
    requires ParentClosed(b0, store) && b in store && lock in store
    ensures SafetyWalk(store, Some(b), lock) <==> Extends(b, lock)
  {
    if b.height < lock.height {
      if Extends(b, lock) {
        RootedHeight(b0, b, lock);
        assert false;
      }
    } else if b != lock {
      if b == b0 {
        RootHeight(b0, lock);
      } else {
        SafetyWalkIsExtends(b0, store, b.parent.value, lock);
      }
    }
  }

  /**
   The commit recursion succeeds exactly for a descendant of the last executed block, and then
   commits the path from that block, gap-free and oldest first.
   */
  lemma {:induction false} CommitWalkIsPath(b0: Block, store: set<Block>, exec: Block, b: Block)
    requires ParentClosed(b0, store) && b in store && exec in store
    ensures CommitWalk(store, exec, Some(b)).Some? <==> Extends(b, exec)
    ensures CommitWalk(store, exec, Some(b)).Some? ==>
      PathFrom(b0, b) == PathFrom(b0, exec) + CommitWalk(store, exec, Some(b)).value
  {
    if b.height <= exec.height {
      if Extends(b, exec) {
        RootedHeight(b0, b, exec);
      }
    } else {
      RootHeight(b0, exec);
      CommitWalkIsPath(b0, store, exec, b.parent.value);
    }
  }

  lemma UpdateQCHighKeeps(b0: Block, s: Replica, qc: Option<Block>)
    requires Sound(b0, s)
    ensures var t := s.UpdateQCHigh(qc);
      && Sound(b0, t) && Advances(s, t) && (Good(b0, s) ==> Good(b0, t))
      && (Lookup(s.store, qc).Some? ==> qc.value.height <= t.qcHigh.value.height)
      && t.store == s.store && t.bLock == s.bLock && t.bExec == s.bExec
      && (t.qcHigh == s.qcHigh || t.qcHigh == Lookup(s.store, qc))
  {
  }

  /** Update, with the three justify lookups it makes given. */
  lemma UpdateCases(s: Replica, bNew: Block, b2: Option<Block>, b1: Option<Block>, b: Option<Block>, t: Replica)
    requires !s.halted && t == s.Update(bNew)
    requires b2 == JustifyOf(s.store, Some(bNew)) && b1 == JustifyOf(s.store, b2) && b == JustifyOf(s.store, b1)
    ensures t.votes == s.votes && t.proposal == s.proposal && t.bVote == s.bVote && t.store == s.store
    ensures t.qcHigh == s.UpdateQCHigh(JustifyRef(bNew)).qcHigh && t.bLeaf == s.UpdateQCHigh(JustifyRef(bNew)).bLeaf
    ensures t.qcHigh == s.qcHigh || t.qcHigh == JustifyRef(bNew)
    ensures CmpBlockHeight(b1, Some(s.bLock)) != 1 ==>
      t.bLock == s.bLock && t.bExec == s.bExec && !t.halted && t.committed == s.committed
    ensures CmpBlockHeight(b1, Some(s.bLock)) == 1 ==> t.bLock == b1.value
    ensures CmpBlockHeight(b1, Some(s.bLock)) == 1 && !IsThreeChain(s.store, b, b1, b2) ==>
      t.bExec == s.bExec && !t.halted && t.committed == s.committed
    ensures CmpBlockHeight(b1, Some(s.bLock)) == 1 && IsThreeChain(s.store, b, b1, b2) ==>
      var blocks := CommitWalk(s.store, s.bExec, b);
      && t.halted == blocks.None?
      && (t.halted ==> t.bExec == s.bExec && t.committed == s.committed)
      && (!t.halted ==> t.bExec == b.value && t.committed == s.committed + blocks.value)
  {
  }

  /**
   The vote rule over the tree: a block above the last vote that descends from the lock or carries a
   certificate for a block above it.
   */
  lemma CanVoteIff(b0: Block, s: Replica, b: Block)
    requires Good(b0, s) && b in s.store && b != b0
    ensures s.CanVote(b) <==>
      b.height > s.bVote.height && (Extends(b, s.bLock) || b.justify.value.height > s.bLock.height)
  {
    JustifyFound(b0, s.store, b);
    SafetyWalkIsExtends(b0, s.store, b, s.bLock);
  }

  /**
   Update over the tree, where the block `b1` two certificates back from `b` is above the lock: the lock
   moves to it.  When `b1` and `b2` are direct children of the blocks they certify, `bx` is executed,
   and the call stops exactly when `bx` does not descend from the last executed block.
   */
  lemma UpdateMeans(b0: Block, s: Replica, b: Block, b2: Block, b1: Block, bx: Block, t: Replica)
    requires Good(b0, s) && !s.halted && b in s.store && b != b0 && t == s.Update(b)
    requires b.justify == Some(b2) && b2 != b0 && b2.justify == Some(b1) && b1.justify == Some(bx)
    requires b1.height > s.bLock.height
    ensures t.bLock == b1
    ensures b2.parent == Some(b1) && b1.parent == Some(bx) ==>
      (t.halted <==> !Extends(bx, s.bExec)) && (!t.halted ==> t.bExec == bx)
    ensures !(b2.parent == Some(b1) && b1.parent == Some(bx)) ==> t.bExec == s.bExec && !t.halted
  {
    JustifyFound(b0, s.store, b);
    JustifyFound(b0, s.store, b2);
    RootHeight(b0, s.bLock);
    JustifyFound(b0, s.store, b1);
    UpdateCases(s, b, Some(b2), Some(b1), Some(bx), t);
    CommitWalkIsPath(b0, s.store, s.bExec, bx);
  }

  /** And where it is not: only the highest certificate may change. */
  lemma UpdateBelowLock(b0: Block, s: Replica, b: Block, b2: Block, t: Replica)
    requires Good(b0, s) && !s.halted && b in s.store && b != b0 && t == s.Update(b)
    requires b.justify == Some(b2) && (b2 == b0 || (b2.justify.Some? && b2.justify.value.height <= s.bLock.height))
    ensures t == s.(qcHigh := t.qcHigh, bLeaf := t.bLeaf)
    ensures if b2.height > s.qcHigh.value.height then t.qcHigh == Some(b2) == Some(t.bLeaf)
      else t.qcHigh == s.qcHigh && t.bLeaf == s.bLeaf
  {
    JustifyFound(b0, s.store, b);
    if b2 == b0 {
      RootJustifyOutside(b0, s.store);
    } else {
      JustifyFound(b0, s.store, b2);
    }
    UpdateCases(s, b, Some(b2), JustifyOf(s.store, Some(b2)), JustifyOf(s.store, JustifyOf(s.store, Some(b2))), t);
  }

  /** A call leaves progress only, and a call that stops has committed nothing. */
  ghost predicate Kept(b0: Block, s: Replica, t: Replica)
  {
    && Advances(s, t)
    && (t.halted ==> t.committed == s.committed && t.bExec == s.bExec)
    && (!t.halted ==> Sound(b0, t))
  }

  /** Everything one call of Update does, whatever the certificates are for. */
  lemma UpdateKeeps(b0: Block, s: Replica, b: Block, t: Replica)
    requires Sound(b0, s) && !s.halted && t == s.Update(b)
    ensures Kept(b0, s, t)
  {
    var b2 := JustifyOf(s.store, Some(b));
    var b1 := JustifyOf(s.store, b2);
    var bx := JustifyOf(s.store, b1);
    UpdateQCHighKeeps(b0, s, JustifyRef(b));
    UpdateCases(s, b, b2, b1, bx, t);
    if CmpBlockHeight(b1, Some(s.bLock)) == 1 && IsThreeChain(s.store, bx, b1, b2) {
      RootHeight(b0, s.bLock);
      CommitWalkIsPath(b0, s.store, s.bExec, bx.value);
      if !t.halted {
        RootedHeight(b0, bx.value, s.bExec);
      }
    }
  }

  /** Blocks that extend what they certify keep the lock below the highest certificate. */
  lemma UpdateKeepsGood(b0: Block, s: Replica, b: Block, t: Replica)
    requires Good(b0, s) && !s.halted && b in s.store && b != b0 && t == s.Update(b)
    ensures Kept(b0, s, t) && (!t.halted ==> Good(b0, t))
  {
    UpdateKeeps(b0, s, b, t);
    JustifyFound(b0, s.store, b);
    var b2 := b.justify.value;
    UpdateQCHighKeeps(b0, s, JustifyRef(b));
    if b2 == b0 {
      RootJustifyOutside(b0, s.store);
      UpdateCases(s, b, b.justify, None, None, t);
    } else {
      JustifyFound(b0, s.store, b2);
      UpdateCases(s, b, b.justify, b2.justify, JustifyOf(s.store, b2.justify), t);
    }
  }

  /**
   A leader's own block has height parent + 1, extends the block its certificate is for, and
   passes the safety-or-liveness part of the leader's own vote rule.
   */
  lemma ProposalIsSound(b0: Block, s: Replica, payload: nat)
    requires Good(b0, s)
    ensures var b := s.NewLeaf(payload);
      && InTree(b0, b) && b != b0 && b.parent == Some(s.bLeaf) && b.height == s.bLeaf.height + 1
      && Extends(b, b.justify.value) && b.justify == s.qcHigh
      && Good(b0, s.OnPropose(payload))
      && (s.OnPropose(payload).CheckSafetyRule(b) || s.OnPropose(payload).CheckLivenessRule(b))
  {
    var b := s.NewLeaf(payload);
    RootHeight(b0, s.bLeaf);
    ExtendsTransitive(b, s.bLeaf, s.qcHigh.value);
    var t := s.OnPropose(payload);
    assert Good(b0, t);
    JustifyFound(b0, t.store, b);
    if s.bLock == b0 {
      RootedDepth(b0, b);
      SafetyWalkIsExtends(b0, t.store, b, b0);
    }
  }

  lemma OnProposeKeeps(b0: Block, s: Replica, payload: nat)
    requires Sound(b0, s)
    ensures Sound(b0, s.OnPropose(payload)) && Advances(s, s.OnPropose(payload)) && s.NewLeaf(payload) != b0
  {
    RootHeight(b0, s.bLeaf);
    ExtendsTransitive(s.NewLeaf(payload), s.bLeaf, s.qcHigh.value);
  }

  lemma OnReceiveVoteKeeps(b0: Block, s: Replica, v: BlockVote, majority: int)
    requires Sound(b0, s)
    ensures var t := s.OnReceiveVote(v, majority);
      && Sound(b0, t) && Advances(s, t) && (Good(b0, s) ==> Good(b0, t)) && t.store == s.store && t.halted == s.halted
      && t.bLock == s.bLock && t.bExec == s.bExec && t.bVote == s.bVote
      && (t.qcHigh == s.qcHigh || t.qcHigh == s.proposal)
  {
    if s.AddsVote(v) && |s.votes[v.Voter() := v]| >= majority {
      UpdateQCHighKeeps(b0, s.(proposal := None, votes := map[]), s.proposal);
    }
  }

  lemma SetBlockKeeps(b0: Block, s: Replica, b: Block)
    requires Sound(b0, s) && Rooted(b0, b) && b != b0 && b.parent.value in s.store
    ensures Sound(b0, s.SetBlock(b)) && Advances(s, s.SetBlock(b))
    ensures Good(b0, s) && InTree(b0, b) ==> Good(b0, s.SetBlock(b))
  {
  }

  lemma ProposalKeeps(b0: Block, s: Replica, b: Block, s2: Replica, t: Replica)
    requires Sound(b0, s) && !s.halted && Rooted(b0, b) && b != b0 && b.parent.value in s.store
    requires s2 == s.SetBlock(b) || (s2 == s.SetBlock(b).(bVote := b) && s.bVote.height < b.height)
    requires t == s2.Update(b)
    ensures Kept(b0, s, t)
    ensures Good(b0, s) && InTree(b0, b) && !t.halted ==> Good(b0, t)
  {
    SetBlockKeeps(b0, s, b);
    assert Sound(b0, s2);
    UpdateKeeps(b0, s2, b, t);
    if Good(b0, s) && InTree(b0, b) {
      assert Good(b0, s2);
      UpdateKeepsGood(b0, s2, b, t);
    }
  }

  lemma BeatKeeps(b0: Block, s: Replica, payload: nat, self: PublicKey, majority: int, t: Replica)
    requires Sound(b0, s) && !s.halted && t == s.Propose(payload, self, majority)
    ensures Kept(b0, s, t)
    ensures Good(b0, s) && !t.halted ==> Good(b0, t)
  {
    var b := s.NewLeaf(payload);
    OnProposeKeeps(b0, s, payload);
    var s1 := s.OnPropose(payload);
    var vote := Vote(Some(b), Signature(self, Some(b)));
    OnReceiveVoteKeeps(b0, s1, vote, majority);
    var s2 := s1.OnReceiveVote(vote, majority);
    UpdateKeeps(b0, s2, b, t);
    if Good(b0, s) {
      ProposalIsSound(b0, s, payload);
      UpdateKeepsGood(b0, s2, b, t);
    }
  }

  /** Every call keeps the replica sound and never gives ground; a call that stops has committed nothing. */
  lemma HandleKeeps(b0: Block, s: Replica, e: Event, self: PublicKey, majority: int)
    requires Sound(b0, s) && !s.halted && Received(b0, s, e)
    ensures var t := Handle(s, e, self, majority);
      && Kept(b0, s, t)
      && (Good(b0, s) && Admissible(b0, s, e) && !t.halted ==> Good(b0, t))
  {
    var t := Handle(s, e, self, majority);
    match e
    case Proposal(b, voting) =>
      var s2 := if voting && s.SetBlock(b).CanVote(b) then s.SetBlock(b).(bVote := b) else s.SetBlock(b);
      ProposalKeeps(b0, s, b, s2, t);
    case NewView(qc) => UpdateQCHighKeeps(b0, s, qc);
    case VoteReceived(v) => OnReceiveVoteKeeps(b0, s, v, majority);
    case Beat(payload) => BeatKeeps(b0, s, payload, self, majority, t);
  }

  /** A run: each call is made on the state the last one left, until the replica stops. */
  ghost predicate IsRun(b0: Block, states: seq<Replica>, events: seq<Event>, self: PublicKey, majority: int)
  {
    && |states| == |events| + 1
    && states[0] == NewReplica(b0, Some(b0))
    && forall i :: 0 <= i < |events| ==> StepAt(b0, states, events, self, majority, i)
  }

  ghost predicate StepAt(b0: Block, states: seq<Replica>, events: seq<Event>, self: PublicKey, majority: int, i: nat)
    requires |states| == |events| + 1 && i < |events|
  {
    && !states[i].halted
    && Received(b0, states[i], events[i])
    && states[i + 1] == Handle(states[i], events[i], self, majority)
  }

  lemma {:induction false} RunIsSound(b0: Block, states: seq<Replica>, events: seq<Event>, self: PublicKey,
                                      majority: int, k: nat)
    requires IsRun(b0, states, events, self, majority) && k < |states|
    ensures !states[k].halted ==> Sound(b0, states[k])
  {
    if k > 0 {
      RunIsSound(b0, states, events, self, majority, k - 1);
      assert StepAt(b0, states, events, self, majority, k - 1);
      HandleKeeps(b0, states[k - 1], events[k - 1], self, majority);
    }
  }

  /** With blocks that extend what they certify, the lock besides stays below the highest certificate. */
  lemma {:induction false} RunIsGood(b0: Block, states: seq<Replica>, events: seq<Event>, self: PublicKey,
                                     majority: int, k: nat)
    requires IsRun(b0, states, events, self, majority) && k < |states|
    requires forall i :: 0 <= i < |events| && events[i].Proposal? ==> InTree(b0, events[i].blk)
    ensures !states[k].halted ==> Good(b0, states[k])
  {
    if k > 0 {
      RunIsGood(b0, states, events, self, majority, k - 1);
      assert StepAt(b0, states, events, self, majority, k - 1);
      HandleKeeps(b0, states[k - 1], events[k - 1], self, majority);
    }
  }

  /** What the call before moment `k` kept. */
  lemma RunStep(b0: Block, states: seq<Replica>, events: seq<Event>, self: PublicKey, majority: int, k: nat)
    requires IsRun(b0, states, events, self, majority) && 0 < k < |states|
    ensures Sound(b0, states[k - 1]) && Kept(b0, states[k - 1], states[k])
  {
    RunIsSound(b0, states, events, self, majority, k - 1);
    assert StepAt(b0, states, events, self, majority, k - 1);
    HandleKeeps(b0, states[k - 1], events[k - 1], self, majority);
  }

  lemma AdvancesTransitive(s: Replica, t: Replica, u: Replica)
    requires Advances(s, t) && Advances(t, u)
    ensures Advances(s, u)
  {
  }

  /** Over a whole run no height falls and the committed list only grows. */
  lemma {:induction false} RunAdvances(b0: Block, states: seq<Replica>, events: seq<Event>, self: PublicKey,
                                       majority: int, i: nat, j: nat)
    requires IsRun(b0, states, events, self, majority) && i <= j < |states|
    ensures i < j ==> Advances(states[i], states[j])
  {
    if i < j {
      RunStep(b0, states, events, self, majority, j);
      RunAdvances(b0, states, events, self, majority, i, j - 1);
      if i < j - 1 {
        AdvancesTransitive(states[i], states[j - 1], states[j]);
      }
    }
  }

  /** What stands before position `i` of the path `p` on top of `b0`. */
  function Before(b0: Block, p: seq<Block>, i: nat): Block
    requires i <= |p|
  {
    if i == 0 then b0 else p[i - 1]
  }

  /** `p` is a parent chain on top of `b0` that ends in `last`. */
  ghost predicate IsChain(b0: Block, p: seq<Block>, last: Block)
  {
    && (forall i :: 0 <= i < |p| ==> p[i].parent == Some(Before(b0, p, i)))
    && (forall i :: 0 <= i < |p| ==> p[i].height == b0.height + i + 1)
    && last == Before(b0, p, |p|)
  }

  lemma {:induction false} PathIsChain(b0: Block, b: Block)
    requires Rooted(b0, b)
    ensures IsChain(b0, PathFrom(b0, b), b)
  {
    if b != b0 {
      var q := PathFrom(b0, b.parent.value);
      PathIsChain(b0, b.parent.value);
      RootedDepth(b0, b.parent.value);
      var p := PathFrom(b0, b);
      assert p == q + [b];
      forall i | 0 <= i < |p|
        ensures p[i].parent == Some(Before(b0, p, i))
      {
        if i < |q| {
          assert p[i] == q[i];
        }
      }
    }
  }

  /**
   At every point of every run the blocks given to driver.Commit form one parent chain from the
   start block, with consecutive heights and hence without gap or repeat, ending in bExec; and a call
   that reaches the fatal stop has committed nothing.
   */
  lemma CommittedIsOneChain(b0: Block, states: seq<Replica>, events: seq<Event>, self: PublicKey, majority: int, k: nat)
    requires IsRun(b0, states, events, self, majority) && k < |states|
    ensures IsChain(b0, states[k].committed, states[k].bExec)
    ensures states[k].halted ==> k > 0 && states[k].committed == states[k - 1].committed
  {
    if states[k].halted {
      RunStep(b0, states, events, self, majority, k);
      PathIsChain(b0, states[k - 1].bExec);
    } else {
      RunIsSound(b0, states, events, self, majority, k);
      PathIsChain(b0, states[k].bExec);
    }
  }
}
