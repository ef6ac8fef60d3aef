/**
 A network of replicas running hotstuff/hotstuff.go, as a step relation, and the agreement theorem.

 Each handler call of a correct replica is one step.  The network is the log of all signatures
 made so far: a certificate or vote is usable once its signatures are in the log, in any order and
 any number of times, and faulty validators may sign anything.

 Premises the source does not establish by itself are guards of the steps:
   - a received block extends the block its certificate is for (part of `InTree`);
   - a correct validator signs above its last vote and above its own proposals (`SignsAbove`); the vote
     rule itself only compares a vote with the last vote.  `IncreasingIff` shows that these are exactly
     the runs in which the signatures of each correct validator increase in height;
   - replicas do not restart.
 */
module Protocol {
  import opened Options
  import opened FiniteSets
  import opened BlockTree
  import opened Quorum
  import opened HotstuffReplica
  import opened ReplicaInvariant

  /**
   A signature of `signer` on `block`, as the proposer or as a voter; for a correct signer, `lock`
   is its bLock at that moment.
   */
  datatype Signed = Signed(signer: PublicKey, block: Block, lock: Block, proposed: bool)

  datatype Config = Config(validators: set<PublicKey>, faulty: set<PublicKey>, b0: Block) {
    ghost predicate Valid() {
      && |validators| >= 1
      && faulty <= validators
      && |faulty| <= FaultyCount(|validators|)
    }
    function Majority(): int { MajorityCount(|validators|) }
    ghost predicate Correct(v: PublicKey) { v in validators && v !in faulty }
  }

  datatype Network = Network(replicas: map<PublicKey, Replica>, log: seq<Signed>)

  ghost function SignersOf(log: seq<Signed>, b: Block): set<PublicKey>
  {
    set k | 0 <= k < |log| && log[k].block == b :: log[k].signer
  }

  /** A valid certificate for `b` can be assembled; the start block comes with one. */
  ghost predicate Certified(c: Config, log: seq<Signed>, b: Block)
  {
    b == c.b0 || |SignersOf(log, b) * c.validators| >= c.Majority()
  }

  /** Nothing this validator signed before is as high as `b`. */
  ghost predicate FreshHeight(log: seq<Signed>, v: PublicKey, b: Block)
  {
    forall k :: 0 <= k < |log| && log[k].signer == v ==> log[k].block.height < b.height
  }

  /** `b` is above the last vote and above every block this validator proposed. */
  ghost predicate SignsAbove(log: seq<Signed>, v: PublicKey, s: Replica, b: Block)
  {
    && s.bVote.height < b.height
    && forall k :: 0 <= k < |log| && log[k].signer == v && log[k].proposed ==> log[k].block.height < b.height
  }

  datatype Step =
    | FaultySigns(v: PublicKey, b: Block)
    | Deliver(r: PublicKey, event: Event)

  /**
   The block the call signs, if any.  A vote is signed before the driver finds that the view has changed
   and drops it (consensus/hs_driver.go:59-67), so it counts as given.
   */
  function Signs(s: Replica, e: Event): Option<Block>
  {
    match e
    case Proposal(b, voting) => if voting && s.SetBlock(b).CanVote(b) then Some(b) else None
    case Beat(payload) => Some(s.NewLeaf(payload))
    case _ => None
  }

  /** The checks made before a call reaches hotstuff, and the premises of the run. */
  ghost predicate EventOk(c: Config, log: seq<Signed>, s: Replica, e: Event)
  {
    && Admissible(c.b0, s, e)
    && match e
       case Proposal(b, _) => Certified(c, log, b.justify.value)
       case NewView(qc) => qc.Some? ==> Certified(c, log, qc.value)
       case VoteReceived(v) =>
         && v.Voter() in c.validators && v.blockHash.Some?
         && v.Voter() in SignersOf(log, v.blockHash.value)
       case Beat(_) => true
  }

  /** What the call adds to the log. */
  function NewSignature(r: PublicKey, s: Replica, e: Event): seq<Signed>
  {
    match Signs(s, e)
    case None => []
    case Some(b) => [Signed(r, b, s.bLock, e.Beat?)]
  }

  /** A step of the code as it is. */
  ghost predicate Moves(c: Config, n: Network, step: Step, n': Network)
  {
    match step
    case FaultySigns(v, b) =>
      && v in c.faulty
      && n' == n.(log := n.log + [Signed(v, b, c.b0, false)])
    case Deliver(r, e) =>
      && r in n.replicas && !n.replicas[r].halted
      && var s := n.replicas[r];
      && EventOk(c, n.log, s, e)
      && n'.replicas == n.replicas[r := Handle(s, e, r, c.Majority())]
      && n'.log == n.log + NewSignature(r, s, e)
  }

  /** The premise on the heights a correct validator signs, as a check before the call. */
  ghost predicate MaySign(n: Network, step: Step)
  {
    step.Deliver? && step.r in n.replicas ==>
      match Signs(n.replicas[step.r], step.event)
      case None => true
      case Some(b) => SignsAbove(n.log, step.r, n.replicas[step.r], b)
  }

  ghost predicate Next(c: Config, n: Network, step: Step, n': Network)
  {
    Moves(c, n, step, n') && MaySign(n, step)
  }

  ghost predicate Init(c: Config, n: Network)
  {
    && n.log == []
    && n.replicas.Keys == c.validators - c.faulty
    && forall r :: r in n.replicas ==> n.replicas[r] == NewReplica(c.b0, Some(c.b0))
  }

  ghost predicate IsRun(c: Config, run: seq<Network>, steps: seq<Step>)
  {
    && |run| == |steps| + 1
    && Init(c, run[0])
    && forall i :: 0 <= i < |steps| ==> StepAt(c, run, steps, i)
  }

  ghost predicate StepAt(c: Config, run: seq<Network>, steps: seq<Step>, i: nat)
    requires |run| == |steps| + 1 && i < |steps|
  {
    Next(c, run[i], steps[i], run[i + 1])
  }

  /** A run of the code as it is. */
  ghost predicate IsFreeRun(c: Config, run: seq<Network>, steps: seq<Step>)
  {
    && |run| == |steps| + 1
    && Init(c, run[0])
    && forall i :: 0 <= i < |steps| ==> MoveAt(c, run, steps, i)
  }

  ghost predicate MoveAt(c: Config, run: seq<Network>, steps: seq<Step>, i: nat)
    requires |run| == |steps| + 1 && i < |steps|
  {
    Moves(c, run[i], steps[i], run[i + 1])
  }

  // ----- What the log records about correct validators -----

  /** The block a replica is locked on, at least, once it has processed `b`. */
  function TwoBack(b0: Block, b: Block): Block
    requires InTree(b0, b)
  {
    if b == b0 || b.justify.value == b0 then b0 else
    assert InTree(b0, b.justify.value);
    b.justify.value.justify.value
  }

  /** The `k`th signature, made by a correct validator, obeyed the vote rule at that moment. */
  ghost predicate SignedWell(c: Config, log: seq<Signed>, k: nat)
    requires k < |log|
  {
    var e := log[k];
    && InTree(c.b0, e.block) && e.block != c.b0
    && InTree(c.b0, e.lock)
    && Certified(c, log[..k], e.block.justify.value)
    && Certified(c, log[..k], e.lock)
    && (Extends(e.block, e.lock) || e.block.justify.value.height > e.lock.height)
    && forall j :: 0 <= j < k && log[j].signer == e.signer ==>
      && InTree(c.b0, log[j].block)
      && log[j].block.height < e.block.height
      && TwoBack(c.b0, log[j].block).height <= e.lock.height
  }

  ghost predicate LogOk(c: Config, log: seq<Signed>)
  {
    forall k :: 0 <= k < |log| && c.Correct(log[k].signer) ==> SignedWell(c, log, k)
  }

  /** `b` was decided: a three-chain of direct parents on it whose last block has a certificate. */
  ghost predicate ThreeChain(c: Config, log: seq<Signed>, b: Block, b1: Block, b2: Block)
  {
    && b1.parent == Some(b) && b1.justify == Some(b)
    && b2.parent == Some(b1) && b2.justify == Some(b1)
    && InTree(c.b0, b) && InTree(c.b0, b1) && InTree(c.b0, b2)
    && b1 != c.b0 && b2 != c.b0
    && Certified(c, log, b2)
  }

  ghost predicate Decided(c: Config, log: seq<Signed>, b: Block)
  {
    b == c.b0 || exists b1, b2 :: ThreeChain(c, log, b, b1, b2)
  }

  lemma CertifiedMonotone(c: Config, log: seq<Signed>, more: seq<Signed>, b: Block)
    requires Certified(c, log, b) && log <= more
    ensures Certified(c, more, b)
  {
    if b != c.b0 {
      assert SignersOf(log, b) <= SignersOf(more, b);
      SubsetCardinality(SignersOf(log, b) * c.validators, SignersOf(more, b) * c.validators);
    }
  }

  /** Behind two certificates there is a correct validator that signed both blocks. */
  lemma CommonSigner(c: Config, log1: seq<Signed>, x: Block, log2: seq<Signed>, y: Block)
    returns (i: nat, j: nat)
    requires c.Valid() && x != c.b0 && y != c.b0
    requires Certified(c, log1, x) && Certified(c, log2, y)
    ensures i < |log1| && log1[i].block == x
    ensures j < |log2| && log2[j].block == y
    ensures log1[i].signer == log2[j].signer && c.Correct(log1[i].signer)
  {
    var signers1, signers2 := SignersOf(log1, x) * c.validators, SignersOf(log2, y) * c.validators;
    var v := MajoritiesShareCorrect(c.validators, c.faulty, signers1, signers2);
    i :| i < |log1| && log1[i].block == x && log1[i].signer == v;
    j :| j < |log2| && log2[j].block == y && log2[j].signer == v;
  }

  /** A certified block is in the tree, and so is, certified, the block it justifies. */
  lemma CertifiedInTree(c: Config, log: seq<Signed>, b: Block)
    requires c.Valid() && LogOk(c, log) && Certified(c, log, b)
    ensures InTree(c.b0, b) && Rooted(c.b0, b)
    ensures b != c.b0 ==> Certified(c, log, b.justify.value)
  {
    if b != c.b0 {
      var i, _ := CommonSigner(c, log, b, log, b);
      assert SignedWell(c, log, i);
      CertifiedMonotone(c, log[..i], log, b.justify.value);
    }
    InTreeRooted(c.b0, b);
  }

  /** At most one block is certified at a height. */
  lemma CertifiedUnique(c: Config, log: seq<Signed>, x: Block, y: Block)
    requires c.Valid() && LogOk(c, log)
    requires Certified(c, log, x) && Certified(c, log, y) && x.height == y.height
    ensures x == y
  {
    CertifiedInTree(c, log, x);
    CertifiedInTree(c, log, y);
    if x == c.b0 || y == c.b0 {
      RootHeight(c.b0, x);
      RootHeight(c.b0, y);
    } else {
      var i, j := CommonSigner(c, log, x, log, y);
      assert SignedWell(c, log, i) && SignedWell(c, log, j);
    }
  }

  /**
   Once `b` has a three-chain, every block that was ever certified at its height or above extends
   it: by induction on how much of the log the certificate needs.
   */
  lemma {:induction false} CertifiedExtendsDecided(c: Config, log: seq<Signed>, b: Block, b1: Block, b2: Block, k: nat,
                                                   x: Block)
    requires c.Valid() && LogOk(c, log) && ThreeChain(c, log, b, b1, b2)
    requires k <= |log| && Certified(c, log[..k], x) && x.height >= b.height
    ensures Extends(x, b)
    decreases k, 0
  {
    CertifiedMonotone(c, log[..k], log, x);
    CertifiedInTree(c, log, x);
    CertifiedInTree(c, log, b2);
    CertifiedInTree(c, log, b1);
    if x.height == b.height {
      CertifiedUnique(c, log, x, b);
    } else if x.height == b1.height {
      CertifiedUnique(c, log, x, b1);
    } else if x.height == b2.height {
      CertifiedUnique(c, log, x, b2);
    } else {
      RootHeight(c.b0, b);
      var j, i := CommonSigner(c, log[..k], x, log, b2);
      assert SignedWell(c, log, i) && SignedWell(c, log, j);
      assert i < j;
      var lock := log[j].lock;
      assert TwoBack(c.b0, b2) == b;
      LaterSignatureExtends(c, log, b, b1, b2, j);
    }
  }

  /** A signature made under a lock at least as high as the decided block is on a descendant of it. */
  lemma {:induction false} LaterSignatureExtends(c: Config, log: seq<Signed>, b: Block, b1: Block, b2: Block, j: nat)
    requires c.Valid() && LogOk(c, log) && ThreeChain(c, log, b, b1, b2)
    requires j < |log| && SignedWell(c, log, j) && log[j].lock.height >= b.height
    ensures Extends(log[j].block, b)
    decreases j, 1
  {
    var x, lock := log[j].block, log[j].lock;
    if Extends(x, lock) {
      CertifiedExtendsDecided(c, log, b, b1, b2, j, lock);
      ExtendsTransitive(x, lock, b);
    } else {
      JustifyBelow(c.b0, x);
      CertifiedExtendsDecided(c, log, b, b1, b2, j, x.justify.value);
      ExtendsTransitive(x, x.justify.value, b);
    }
  }

  /** Two decided blocks are on one branch. */
  lemma DecidedExtends(c: Config, log: seq<Signed>, b: Block, x: Block)
    requires c.Valid() && LogOk(c, log) && Decided(c, log, b) && Certified(c, log, x) && x.height >= b.height
    ensures Extends(x, b)
  {
    CertifiedInTree(c, log, x);
    if b == c.b0 {
      RootedDepth(c.b0, x);
    } else {
      var b1, b2 :| ThreeChain(c, log, b, b1, b2);
      assert log[..|log|] == log;
      CertifiedExtendsDecided(c, log, b, b1, b2, |log|, x);
    }
  }

  lemma DecidedCertified(c: Config, log: seq<Signed>, b: Block)
    requires c.Valid() && LogOk(c, log) && Decided(c, log, b)
    ensures Certified(c, log, b)
  {
    if b != c.b0 {
      var b1, b2 :| ThreeChain(c, log, b, b1, b2);
      CertifiedInTree(c, log, b2);
      CertifiedInTree(c, log, b1);
    }
  }

  lemma DecidedMonotone(c: Config, log: seq<Signed>, more: seq<Signed>, b: Block)
    requires Decided(c, log, b) && log <= more
    ensures Decided(c, more, b)
  {
    if b != c.b0 {
      var b1, b2 :| ThreeChain(c, log, b, b1, b2);
      CertifiedMonotone(c, log, more, b2);
      assert ThreeChain(c, more, b, b1, b2);
    }
  }

  // ----- What every step keeps -----

  /** Votes held by a leader are in the log, so a completed set is a certificate. */
  ghost predicate VotesLogged(c: Config, log: seq<Signed>, s: Replica)
  {
    forall k :: k in s.votes ==>
      s.proposal.Some? && k in c.validators && k in SignersOf(log, s.proposal.value)
  }

  /** bVote is the highest block this validator has voted for, or the start block before any vote. */
  ghost predicate VotesRecorded(b0: Block, log: seq<Signed>, r: PublicKey, s: Replica)
  {
    && (forall k :: 0 <= k < |log| && log[k].signer == r && !log[k].proposed ==> log[k].block.height <= s.bVote.height)
    && (s.bVote == b0 || r in SignersOf(log, s.bVote))
  }

  ghost predicate ReplicaOk(c: Config, log: seq<Signed>, r: PublicKey, s: Replica)
  {
    && !s.halted && Good(c.b0, s)
    && Certified(c, log, s.bLock)
    && Certified(c, log, s.qcHigh.value)
    && Decided(c, log, s.bExec)
    && VotesLogged(c, log, s)
    && VotesRecorded(c.b0, log, r, s)
    && forall k :: 0 <= k < |log| && log[k].signer == r ==>
      InTree(c.b0, log[k].block) && TwoBack(c.b0, log[k].block).height <= s.bLock.height
  }

  /**
   The exact condition.  Whatever call signs `b`, the signature is above all earlier ones of the
   validator if and only if `b` is above its last vote and above its own proposals.
   */
  lemma SignatureFreshIff(b0: Block, log: seq<Signed>, r: PublicKey, s: Replica, b: Block)
    requires VotesRecorded(b0, log, r, s) && b0.height < b.height
    ensures FreshHeight(log, r, b) <==> SignsAbove(log, r, s, b)
  {
    if FreshHeight(log, r, b) && s.bVote != b0 {
      var k :| 0 <= k < |log| && log[k].block == s.bVote && log[k].signer == r;
      assert log[k].block.height < b.height;
    }
  }

  /** Signatures of others, and own proposals, leave the last vote the last vote. */
  lemma VotesRecordedMonotone(b0: Block, log: seq<Signed>, e: Signed, r: PublicKey, s: Replica, t: Replica)
    requires VotesRecorded(b0, log, r, s) && (e.signer != r || e.proposed) && t.bVote == s.bVote
    ensures VotesRecorded(b0, log + [e], r, t)
  {
    if s.bVote != b0 {
      var k :| 0 <= k < |log| && log[k].block == s.bVote && log[k].signer == r;
      assert (log + [e])[k] == log[k];
    }
  }

  /** A vote becomes the last vote. */
  lemma VoteRecorded(b0: Block, log: seq<Signed>, e: Signed, r: PublicKey, s: Replica, t: Replica)
    requires VotesRecorded(b0, log, r, s) && e.signer == r && s.bVote.height < e.block.height && t.bVote == e.block
    ensures VotesRecorded(b0, log + [e], r, t)
  {
    SignerAdded(log, e);
  }

  ghost predicate NetworkOk(c: Config, n: Network)
  {
    && n.replicas.Keys == c.validators - c.faulty
    && LogOk(c, n.log)
    && forall r :: r in n.replicas ==> ReplicaOk(c, n.log, r, n.replicas[r])
  }

  /** Another validator's signature disturbs neither the log nor a replica. */
  lemma ReplicaOkMonotone(c: Config, log: seq<Signed>, e: Signed, r: PublicKey, s: Replica)
    requires ReplicaOk(c, log, r, s) && e.signer != r
    ensures ReplicaOk(c, log + [e], r, s)
  {
    CertifiedMonotone(c, log, log + [e], s.bLock);
    CertifiedMonotone(c, log, log + [e], s.qcHigh.value);
    DecidedMonotone(c, log, log + [e], s.bExec);
    VotesRecordedMonotone(c.b0, log, e, r, s, s);
    forall k | k in s.votes
      ensures k in SignersOf(log + [e], s.proposal.value)
    {
      assert k in SignersOf(log, s.proposal.value);
      var i :| 0 <= i < |log| && log[i].block == s.proposal.value && log[i].signer == k;
      assert (log + [e])[i] == log[i];
    }
  }

  lemma LogOkExtend(c: Config, log: seq<Signed>, e: Signed)
    requires LogOk(c, log)
    requires c.Correct(e.signer) ==> SignedWell(c, log + [e], |log|)
    ensures LogOk(c, log + [e])
  {
    forall k | 0 <= k < |log| + 1 && c.Correct((log + [e])[k].signer)
      ensures SignedWell(c, log + [e], k)
    {
      if k < |log| {
        assert (log + [e])[..k] == log[..k];
        assert SignedWell(c, log, k);
      }
    }
  }

  /** The replica after a call, except that its own new signature is not yet accounted for. */
  ghost predicate CallOk(c: Config, log: seq<Signed>, s: Replica, t: Replica)
  {
    && !t.halted && Good(c.b0, t)
    && Certified(c, log, t.bLock) && t.bLock.height >= s.bLock.height
    && Certified(c, log, t.qcHigh.value)
    && Decided(c, log, t.bExec)
    && t.bVote.height >= s.bVote.height
  }

  /** What Update(b) turned `s` into, in the tree: which certificate, lock and executed block it left. */
  ghost predicate Updated(c: Config, s: Replica, b: Block, t: Replica)
    requires InTree(c.b0, b) && b != c.b0
  {
    && (t.qcHigh == s.qcHigh || t.qcHigh == b.justify)
    && t.votes == s.votes && t.proposal == s.proposal && t.bVote == s.bVote
    && var lock := TwoBack(c.b0, b);
    if lock.height <= s.bLock.height then t.bLock == s.bLock && t.bExec == s.bExec && !t.halted
    else
      var b2 := b.justify.value;
      && t.bLock == lock
      && if lock.parent == lock.justify && b2.parent == b2.justify
         then
           && t.halted == CommitWalk(s.store, s.bExec, lock.parent).None?
           && (!t.halted ==> Some(t.bExec) == lock.parent)
         else t.bExec == s.bExec && !t.halted
  }

  lemma UpdateIsUpdated(c: Config, s: Replica, b: Block, t: Replica)
    requires Good(c.b0, s) && !s.halted && b in s.store && b != c.b0
    requires t == s.Update(b)
    ensures Updated(c, s, b, t)
  {
    RootHeight(c.b0, s.bLock);
    JustifyFound(c.b0, s.store, b);
    var b2 := b.justify.value;
    if b2 == c.b0 {
      RootJustifyOutside(c.b0, s.store);
      UpdateCases(s, b, b.justify, None, None, t);
    } else {
      JustifyFound(c.b0, s.store, b2);
      var b1 := b2.justify.value;
      if b1.height > s.bLock.height {
        JustifyFound(c.b0, s.store, b1);
      }
      UpdateCases(s, b, b.justify, b2.justify, JustifyOf(s.store, b2.justify), t);
    }
  }

  /** Processing a certified proposal: the lock reaches TwoBack, and the fatal stop is not reached. */
  lemma UpdatedOk(c: Config, log: seq<Signed>, s: Replica, b: Block, t: Replica)
    requires c.Valid() && LogOk(c, log)
    requires Good(c.b0, s) && b in s.store && b != c.b0
    requires Certified(c, log, s.bLock) && Certified(c, log, s.qcHigh.value) && Decided(c, log, s.bExec)
    requires Certified(c, log, b.justify.value)
    requires Updated(c, s, b, t) && (!t.halted ==> Good(c.b0, t))
    ensures CallOk(c, log, s, t)
    ensures TwoBack(c.b0, b).height <= t.bLock.height
  {
    var b2 := b.justify.value;
    CertifiedInTree(c, log, b2);
    if TwoBack(c.b0, b).height > s.bLock.height {
      RootHeight(c.b0, s.bLock);
      var b1 := b2.justify.value;
      CertifiedInTree(c, log, b1);
      if b1.parent == b1.justify && b2.parent == b2.justify {
        JustifyFound(c.b0, s.store, b);
        JustifyFound(c.b0, s.store, b2);
        JustifyFound(c.b0, s.store, b1);
        CommitReaches(c, log, s, b1.justify.value, b1, b2);
      }
    }
  }

  lemma UpdateOk(c: Config, log: seq<Signed>, s: Replica, b: Block, t: Replica)
    requires c.Valid() && LogOk(c, log)
    requires Good(c.b0, s) && !s.halted && b in s.store && b != c.b0
    requires Certified(c, log, s.bLock) && Certified(c, log, s.qcHigh.value) && Decided(c, log, s.bExec)
    requires Certified(c, log, b.justify.value)
    requires t == s.Update(b)
    ensures CallOk(c, log, s, t)
    ensures TwoBack(c.b0, b).height <= t.bLock.height
    ensures t.votes == s.votes && t.proposal == s.proposal && t.bVote == s.bVote
  {
    UpdateKeepsGood(c.b0, s, b, t);
    UpdateIsUpdated(c, s, b, t);
    UpdatedOk(c, log, s, b, t);
  }

  /** The commit recursion on a decided block ends in bExec. */
  lemma CommitReaches(c: Config, log: seq<Signed>, s: Replica, b: Block, b1: Block, b2: Block)
    requires c.Valid() && LogOk(c, log) && Good(c.b0, s)
    requires Decided(c, log, s.bExec) && ThreeChain(c, log, b, b1, b2)
    requires b in s.store && b1.height > s.bLock.height
    ensures CommitWalk(s.store, s.bExec, Some(b)).Some?
    ensures Decided(c, log, b)
  {
    CertifiedInTree(c, log, b2);
    CertifiedInTree(c, log, b1);
    DecidedExtends(c, log, s.bExec, b);
    CommitWalkIsPath(c.b0, s.store, s.bExec, b);
  }

  /** One more logged vote for the open proposal. */
  lemma VotesSigned(c: Config, log: seq<Signed>, s: Replica, v: BlockVote, votes: map<PublicKey, BlockVote>)
    requires VotesLogged(c, log, s) && s.AddsVote(v) && votes == s.votes[v.Voter() := v]
    requires v.Voter() in c.validators && v.blockHash.Some? && v.Voter() in SignersOf(log, v.blockHash.value)
    ensures votes.Keys <= SignersOf(log, s.proposal.value) * c.validators
    ensures |votes| <= |SignersOf(log, s.proposal.value) * c.validators|
  {
    SubsetCardinality(votes.Keys, SignersOf(log, s.proposal.value) * c.validators);
    assert |votes.Keys| == |votes|;
  }

  /** A vote set that reaches the majority is a certificate for the proposal. */
  lemma VoteOk(c: Config, log: seq<Signed>, s: Replica, v: BlockVote)
    requires c.Valid() && Good(c.b0, s) && VotesLogged(c, log, s)
    requires Certified(c, log, s.qcHigh.value)
    requires v.Voter() in c.validators && v.blockHash.Some? && v.Voter() in SignersOf(log, v.blockHash.value)
    ensures var t := s.OnReceiveVote(v, c.Majority());
      VotesLogged(c, log, t) && Certified(c, log, t.qcHigh.value)
  {
    OnReceiveVoteKeeps(c.b0, s, v, c.Majority());
    if s.AddsVote(v) {
      VotesSigned(c, log, s, v, s.votes[v.Voter() := v]);
    }
  }

  lemma OwnSignatureWell(c: Config, log: seq<Signed>, r: PublicKey, s: Replica, b: Block, proposed: bool)
    requires ReplicaOk(c, log, r, s)
    requires InTree(c.b0, b) && b != c.b0 && Certified(c, log, b.justify.value) && FreshHeight(log, r, b)
    requires Extends(b, s.bLock) || b.justify.value.height > s.bLock.height
    ensures SignedWell(c, log + [Signed(r, b, s.bLock, proposed)], |log|)
  {
    var more := log + [Signed(r, b, s.bLock, proposed)];
    assert more[..|log|] == log;
  }

  lemma SignerAdded(log: seq<Signed>, e: Signed)
    ensures e.signer in SignersOf(log + [e], e.block)
  {
    assert (log + [e])[|log|] == e;
  }

  lemma VotesLoggedMonotone(c: Config, log: seq<Signed>, e: Signed, s: Replica)
    requires VotesLogged(c, log, s)
    ensures VotesLogged(c, log + [e], s)
  {
    forall k | k in s.votes
      ensures k in SignersOf(log + [e], s.proposal.value)
    {
      var i :| 0 <= i < |log| && log[i].block == s.proposal.value && log[i].signer == k;
      assert (log + [e])[i] == log[i];
    }
  }

  lemma CallOkMonotone(c: Config, log: seq<Signed>, e: Signed, s: Replica, t: Replica)
    requires CallOk(c, log, s, t)
    ensures CallOk(c, log + [e], s, t)
  {
    CertifiedMonotone(c, log, log + [e], t.bLock);
    CertifiedMonotone(c, log, log + [e], t.qcHigh.value);
    DecidedMonotone(c, log, log + [e], t.bExec);
  }

  /** A proposal received from the network; `s2` is the replica when it reaches Update. */
  lemma ProposalStep(c: Config, log: seq<Signed>, r: PublicKey, s: Replica, b: Block, s2: Replica, t: Replica)
    requires c.Valid() && LogOk(c, log) && ReplicaOk(c, log, r, s)
    requires EventOk(c, log, s, Proposal(b, true))
    requires s2 == s.SetBlock(b) || (s2 == s.SetBlock(b).(bVote := b) && s.bVote.height < b.height)
    requires t == s2.Update(b)
    ensures t.bVote == s2.bVote
    ensures CallOk(c, log, s, t) && VotesLogged(c, log, t)
    ensures TwoBack(c.b0, b).height <= t.bLock.height
  {
    SetBlockKeeps(c.b0, s, b);
    assert Good(c.b0, s2);
    UpdateOk(c, log, s2, b, t);
  }

  /** The leader's own proposal: signed well, and counted once its signature is in the log. */
  lemma OwnProposalSigned(c: Config, log: seq<Signed>, r: PublicKey, s: Replica, payload: nat, b: Block)
    requires c.Valid() && LogOk(c, log) && c.Correct(r) && ReplicaOk(c, log, r, s)
    requires b == s.NewLeaf(payload) && SignsAbove(log, r, s, b)
    ensures InTree(c.b0, b) && b != c.b0 && b.justify == s.qcHigh
    ensures Good(c.b0, s.OnPropose(payload))
    ensures LogOk(c, log + [Signed(r, b, s.bLock, true)])
  {
    ProposalIsSound(c.b0, s, payload);
    var s1 := s.OnPropose(payload);
    JustifyFound(c.b0, s1.store, b);
    SafetyWalkIsExtends(c.b0, s1.store, b, s1.bLock);
    RootHeight(c.b0, b);
    SignatureFreshIff(c.b0, log, r, s, b);
    OwnSignatureWell(c, log, r, s, b, true);
    LogOkExtend(c, log, Signed(r, b, s.bLock, true));
  }

  /** The leader after its own vote for its own proposal. */
  lemma OwnVoteCounted(c: Config, log: seq<Signed>, s: Replica, b: Block, v: BlockVote, s2: Replica)
    requires c.Valid() && Good(c.b0, s) && !s.halted && VotesLogged(c, log, s)
    requires Certified(c, log, s.bLock) && Certified(c, log, s.qcHigh.value) && Decided(c, log, s.bExec)
    requires v.Voter() in c.validators && v.blockHash == Some(b) && v.Voter() in SignersOf(log, b)
    requires s2 == s.OnReceiveVote(v, c.Majority())
    ensures Good(c.b0, s2) && !s2.halted && s2.store == s.store && s2.bLock == s.bLock && s2.bVote == s.bVote
    ensures VotesLogged(c, log, s2)
    ensures Certified(c, log, s2.bLock) && Certified(c, log, s2.qcHigh.value) && Decided(c, log, s2.bExec)
  {
    OnReceiveVoteKeeps(c.b0, s, v, c.Majority());
    VoteOk(c, log, s, v);
  }

  lemma BeatStep(c: Config, log: seq<Signed>, r: PublicKey, s: Replica, payload: nat, t: Replica)
    requires c.Valid() && LogOk(c, log) && c.Correct(r) && ReplicaOk(c, log, r, s)
    requires SignsAbove(log, r, s, s.NewLeaf(payload))
    requires t == s.Propose(payload, r, c.Majority())
    ensures var b := s.NewLeaf(payload);
      var more := log + [Signed(r, b, s.bLock, true)];
      && InTree(c.b0, b) && b != c.b0
      && LogOk(c, more)
      && CallOk(c, more, s, t) && VotesLogged(c, more, t) && t.bVote == s.bVote
      && TwoBack(c.b0, b).height <= t.bLock.height
  {
    var b := s.NewLeaf(payload);
    var e := Signed(r, b, s.bLock, true);
    OwnProposalSigned(c, log, r, s, payload, b);
    SignerAdded(log, e);
    CertifiedMonotone(c, log, log + [e], s.bLock);
    CertifiedMonotone(c, log, log + [e], s.qcHigh.value);
    DecidedMonotone(c, log, log + [e], s.bExec);
    var s1 := s.OnPropose(payload);
    var vote := Vote(Some(b), Signature(r, Some(b)));
    var s2 := s1.OnReceiveVote(vote, c.Majority());
    OwnVoteCounted(c, log + [e], s1, b, vote, s2);
    UpdateOk(c, log + [e], s2, b, t);
  }

  /** A call made, with its signature if it gave one: what the network must show afterwards. */
  ghost predicate DeliveredOk(c: Config, log: seq<Signed>, r: PublicKey, t: Replica, log': seq<Signed>)
  {
    && LogOk(c, log')
    && ReplicaOk(c, log', r, t)
    && (log' == log || exists x: Signed :: x.signer == r && log' == log + [x])
  }

  lemma DeliverProposal(c: Config, log: seq<Signed>, r: PublicKey, s: Replica, b: Block, s2: Replica, t: Replica,
                        signed: bool, log': seq<Signed>)
    requires c.Valid() && LogOk(c, log) && ReplicaOk(c, log, r, s)
    requires EventOk(c, log, s, Proposal(b, true))
    requires s2 == if signed then s.SetBlock(b).(bVote := b) else s.SetBlock(b)
    requires t == s2.Update(b)
    requires signed ==> s.SetBlock(b).CanVote(b) && SignsAbove(log, r, s, b)
    requires log' == if signed then log + [Signed(r, b, s.bLock, false)] else log
    ensures DeliveredOk(c, log, r, t, log')
  {
    ProposalStep(c, log, r, s, b, s2, t);
    if signed {
      var x := Signed(r, b, s.bLock, false);
      SetBlockKeeps(c.b0, s, b);
      CanVoteIff(c.b0, s.SetBlock(b), b);
      InTreeRooted(c.b0, b);
      RootHeight(c.b0, b);
      SignatureFreshIff(c.b0, log, r, s, b);
      OwnSignatureWell(c, log, r, s, b, false);
      LogOkExtend(c, log, x);
      CallOkMonotone(c, log, x, s, t);
      VotesLoggedMonotone(c, log, x, t);
      VoteRecorded(c.b0, log, x, r, s, t);
      assert x.signer == r;
    }
  }

  lemma DeliverVote(c: Config, log: seq<Signed>, r: PublicKey, s: Replica, v: BlockVote, t: Replica)
    requires c.Valid() && LogOk(c, log) && ReplicaOk(c, log, r, s)
    requires EventOk(c, log, s, VoteReceived(v))
    requires t == s.OnReceiveVote(v, c.Majority())
    ensures DeliveredOk(c, log, r, t, log)
  {
    OnReceiveVoteKeeps(c.b0, s, v, c.Majority());
    VoteOk(c, log, s, v);
  }

  lemma DeliverNewView(c: Config, log: seq<Signed>, r: PublicKey, s: Replica, qc: Option<Block>, t: Replica)
    requires LogOk(c, log) && ReplicaOk(c, log, r, s) && EventOk(c, log, s, NewView(qc))
    requires t == s.UpdateQCHigh(qc)
    ensures DeliveredOk(c, log, r, t, log)
  {
    UpdateQCHighKeeps(c.b0, s, qc);
  }

  lemma DeliverBeat(c: Config, log: seq<Signed>, r: PublicKey, s: Replica, payload: nat, t: Replica, log': seq<Signed>)
    requires c.Valid() && LogOk(c, log) && c.Correct(r) && ReplicaOk(c, log, r, s)
    requires SignsAbove(log, r, s, s.NewLeaf(payload))
    requires t == s.Propose(payload, r, c.Majority())
    requires log' == log + [Signed(r, s.NewLeaf(payload), s.bLock, true)]
    ensures DeliveredOk(c, log, r, t, log')
  {
    BeatStep(c, log, r, s, payload, t);
    VotesRecordedMonotone(c.b0, log, Signed(r, s.NewLeaf(payload), s.bLock, true), r, s, t);
    assert Signed(r, s.NewLeaf(payload), s.bLock, true).signer == r;
  }

  lemma DeliverBlock(c: Config, log: seq<Signed>, r: PublicKey, s: Replica, b: Block, voting: bool, t: Replica,
                     log': seq<Signed>)
    requires c.Valid() && LogOk(c, log) && ReplicaOk(c, log, r, s) && EventOk(c, log, s, Proposal(b, voting))
    requires t == Handle(s, Proposal(b, voting), r, c.Majority())
    requires log' == log + NewSignature(r, s, Proposal(b, voting))
    requires voting && s.SetBlock(b).CanVote(b) ==> SignsAbove(log, r, s, b)
    ensures DeliveredOk(c, log, r, t, log')
  {
    var signed := voting && s.SetBlock(b).CanVote(b);
    var s2 := if signed then s.SetBlock(b).(bVote := b) else s.SetBlock(b);
    assert log + [] == log;
    DeliverProposal(c, log, r, s, b, s2, t, signed, log');
  }

  lemma DeliverCall(c: Config, log: seq<Signed>, r: PublicKey, s: Replica, e: Event, t: Replica, log': seq<Signed>)
    requires c.Valid() && LogOk(c, log) && c.Correct(r) && ReplicaOk(c, log, r, s) && EventOk(c, log, s, e)
    requires t == Handle(s, e, r, c.Majority()) && log' == log + NewSignature(r, s, e)
    requires Signs(s, e).Some? ==> SignsAbove(log, r, s, Signs(s, e).value)
    ensures DeliveredOk(c, log, r, t, log')
  {
    assert log + [] == log;
    match e
    case Proposal(b, voting) => DeliverBlock(c, log, r, s, b, voting, t, log');
    case NewView(qc) => DeliverNewView(c, log, r, s, qc, t);
    case VoteReceived(v) => DeliverVote(c, log, r, s, v, t);
    case Beat(payload) => DeliverBeat(c, log, r, s, payload, t, log');
  }

  /** A call of a correct replica leaves that replica and the log in order. */
  lemma DeliverOk(c: Config, n: Network, r: PublicKey, e: Event, n': Network)
    requires c.Valid() && NetworkOk(c, n) && Next(c, n, Deliver(r, e), n')
    ensures DeliveredOk(c, n.log, r, n'.replicas[r], n'.log)
  {
    var s, log := n.replicas[r], n.log;
    assert ReplicaOk(c, log, r, s) && LogOk(c, log);
    DeliverCall(c, log, r, s, e, n'.replicas[r], n'.log);
  }

  /** What one replica's call did leaves every other replica in order. */
  lemma DeliveredKeeps(c: Config, n: Network, r: PublicKey, t: Replica, log': seq<Signed>)
    requires c.Valid() && NetworkOk(c, n) && r in n.replicas && DeliveredOk(c, n.log, r, t, log')
    ensures NetworkOk(c, Network(n.replicas[r := t], log'))
  {
    forall q | q in n.replicas && q != r
      ensures ReplicaOk(c, log', q, n.replicas[q])
    {
      if log' != n.log {
        var x: Signed :| x.signer == r && log' == n.log + [x];
        ReplicaOkMonotone(c, n.log, x, q, n.replicas[q]);
      }
    }
  }

  lemma FaultySignsKeeps(c: Config, n: Network, v: PublicKey, b: Block)
    requires c.Valid() && NetworkOk(c, n) && v in c.faulty
    ensures NetworkOk(c, n.(log := n.log + [Signed(v, b, c.b0, false)]))
  {
    var x := Signed(v, b, c.b0, false);
    LogOkExtend(c, n.log, x);
    forall r | r in n.replicas
      ensures ReplicaOk(c, n.log + [x], r, n.replicas[r])
    {
      ReplicaOkMonotone(c, n.log, x, r, n.replicas[r]);
    }
  }

  /** Every step of the network keeps every correct replica and the log in order. */
  lemma NextKeeps(c: Config, n: Network, step: Step, n': Network)
    requires c.Valid() && NetworkOk(c, n) && Next(c, n, step, n')
    ensures NetworkOk(c, n')
  {
    match step
    case FaultySigns(v, b) => FaultySignsKeeps(c, n, v, b);
    case Deliver(r, e) =>
      DeliverOk(c, n, r, e, n');
      DeliveredKeeps(c, n, r, n'.replicas[r], n'.log);
      assert n' == Network(n.replicas[r := n'.replicas[r]], n'.log);
  }

  lemma InitOk(c: Config, n: Network)
    requires Init(c, n)
    ensures NetworkOk(c, n)
  {
  }

  lemma {:induction false} RunOk(c: Config, run: seq<Network>, steps: seq<Step>, k: nat)
    requires c.Valid() && IsRun(c, run, steps) && k < |run|
    ensures NetworkOk(c, run[k])
  {
    if k == 0 {
      InitOk(c, run[0]);
    } else {
      RunOk(c, run, steps, k - 1);
      var n, step, n' := run[k - 1], steps[k - 1], run[k];
      assert NetworkOk(c, n);
      assert StepAt(c, run, steps, k - 1);
      NextKeeps(c, n, step, n');
    }
  }

  lemma MovesGrowLog(c: Config, n: Network, step: Step, n': Network)
    requires Moves(c, n, step, n')
    ensures n.log <= n'.log
  {
  }

  lemma RunLogStep(c: Config, run: seq<Network>, steps: seq<Step>, k: nat)
    requires IsRun(c, run, steps) && k < |steps|
    ensures run[k].log <= run[k + 1].log
  {
    assert StepAt(c, run, steps, k);
    MovesGrowLog(c, run[k], steps[k], run[k + 1]);
  }

  lemma {:induction false} LogGrows(run: seq<Network>, i: nat, j: nat)
    requires i <= j < |run| && forall k :: 0 <= k < |run| - 1 ==> run[k].log <= run[k + 1].log
    ensures run[i].log <= run[j].log
  {
    if i < j {
      LogGrows(run, i, j - 1);
      assert run[j - 1].log <= run[j - 1 + 1].log;
    }
  }

  /** Signatures are never taken back. */
  lemma RunLogGrows(c: Config, run: seq<Network>, steps: seq<Step>, i: nat, j: nat)
    requires IsRun(c, run, steps) && i <= j < |run|
    ensures run[i].log <= run[j].log
  {
    forall k | 0 <= k < |run| - 1
      ensures run[k].log <= run[k + 1].log
    {
      RunLogStep(c, run, steps, k);
    }
    LogGrows(run, i, j);
  }

  /**
   Agreement.  In every run, with at most n - MajorityCount(n) faulty validators, the committed
   lists of any two correct replicas, at any two moments, are one a prefix of the other.
   */
  lemma Agreement(c: Config, run: seq<Network>, steps: seq<Step>, i: nat, j: nat, r1: PublicKey, r2: PublicKey)
    requires c.Valid() && IsRun(c, run, steps) && i <= j < |run|
    requires c.Correct(r1) && c.Correct(r2)
    ensures r1 in run[i].replicas && r2 in run[j].replicas
    ensures var s1, s2 := run[i].replicas[r1], run[j].replicas[r2];
      && !Conflicting(s1.bExec, s2.bExec)
      && (s1.committed <= s2.committed || s2.committed <= s1.committed)
  {
    RunOk(c, run, steps, i);
    RunOk(c, run, steps, j);
    RunLogGrows(c, run, steps, i, j);
    var log := run[j].log;
    var s1, s2 := run[i].replicas[r1], run[j].replicas[r2];
    DecidedMonotone(c, run[i].log, log, s1.bExec);
    DecidedCertified(c, log, s1.bExec);
    DecidedCertified(c, log, s2.bExec);
    if s1.bExec.height <= s2.bExec.height {
      DecidedExtends(c, log, s1.bExec, s2.bExec);
      PathPrefix(c.b0, s2.bExec, s1.bExec);
    } else {
      DecidedExtends(c, log, s2.bExec, s1.bExec);
      PathPrefix(c.b0, s1.bExec, s2.bExec);
    }
  }

  /** The "safety breached" stop is unreachable for a correct replica. */
  lemma FatalStopUnreachable(c: Config, run: seq<Network>, steps: seq<Step>, k: nat, r: PublicKey)
    requires c.Valid() && IsRun(c, run, steps) && k < |run| && r in run[k].replicas
    ensures !run[k].replicas[r].halted
  {
    RunOk(c, run, steps, k);
  }

  /** A certificate that passes Validate, made of signatures that were really given, certifies its block. */
  lemma AcceptedIsCertified(c: Config, log: seq<Signed>, vs: ValidatorStore, qc: QuorumCert<Block>)
    requires vs.Valid() && vs.vMap.Keys == c.validators && |vs.validators| == |c.validators|
    requires Accepted(qc, vs) && qc.blockHash.Some?
    requires forall sig :: sig in qc.sigs && Verify(sig, qc.blockHash) ==>
      sig.pubKey in SignersOf(log, qc.blockHash.value)
    ensures Certified(c, log, qc.blockHash.value)
  {
    DistinctCount(qc.sigs);
    SubsetCardinality(Signers(qc.sigs), SignersOf(log, qc.blockHash.value) * c.validators);
  }

  /** A first proposal below the majority leaves the vote height and the lock where they were. */
  lemma OwnProposal(s: Replica, payload: nat, r: PublicKey, majority: int, mine: Block, t: Replica)
    requires s.bLeaf.height == 0 && s.bLeaf.justify == None && s == NewReplica(s.bLeaf, Some(s.bLeaf)) && majority >= 2
    requires mine == s.NewLeaf(payload) && t == Handle(s, Beat(payload), r, majority)
    ensures t.bVote == s.bLeaf && t.bLock == s.bLeaf && s.bLeaf in t.store && !t.halted
  {
  }

  /**
   Why the premise on proposal heights is needed: proposing does not touch bVote, so a replica that
   has just signed its own proposal may still vote for another block of the same height.
   */
  lemma ProposerMaySignTwice(r: PublicKey, majority: int)
    requires majority >= 2
    ensures var b0 := Block(0, None, None, 0);
      var s := NewReplica(b0, Some(b0));
      var mine := s.NewLeaf(1);
      var other := Block(1, Some(b0), Some(b0), 2);
      var t := Handle(s, Beat(1), r, majority);
      && Admissible(b0, t, Proposal(other, true))
      && Signs(s, Beat(1)) == Some(mine) && Signs(t, Proposal(other, true)) == Some(other)
      && mine.height == other.height && Conflicting(mine, other)
  {
    var b0 := Block(0, None, None, 0);
    var s := NewReplica(b0, Some(b0));
    var mine := s.NewLeaf(1);
    var other := Block(1, Some(b0), Some(b0), 2);
    var t := Handle(s, Beat(1), r, majority);
    OwnProposal(s, 1, r, majority, mine, t);
    assert SafetyWalk(t.SetBlock(other).store, Some(b0), b0);
    assert ParentOf(t.SetBlock(other).store, other) == Some(b0);
  }
}
