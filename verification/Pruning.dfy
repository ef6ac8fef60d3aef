/**
 Replicas that prune: consensus/hs_driver.go:114-140 deletes blocks below the committed height.  A
 replica may at any time lose any blocks below bExec; what it signs, commits and stops on is the same
 as if it had kept them, so agreement holds for pruning replicas too.
 */
module Pruning {
  import opened Options
  import opened BlockTree
  import opened Quorum
  import opened HotstuffReplica
  import opened ReplicaInvariant
  import opened Protocol

  /** No open proposal, or one that can no longer raise the highest certificate. */
  predicate Dead(proposal: Option<Block>, height: nat)
  {
    proposal.None? || proposal.value.height < height
  }

  /** Every block missing from `few` is below `height`. */
  ghost predicate MissesBelow(all: set<Block>, few: set<Block>, height: nat)
  {
    few <= all && forall b :: b in all && b !in few ==> b.height < height
  }

  /** `p` is `s` without some blocks below bExec; votes for a proposal below bExec may be lost with it. */
  ghost predicate Mirrors(s: Replica, p: Replica)
  {
    && p == s.(store := p.store, proposal := p.proposal, votes := p.votes)
    && MissesBelow(s.store, p.store, s.bExec.height)
    && ( || (p.proposal == s.proposal && p.votes == s.votes)
         || (Dead(s.proposal, s.bExec.height) && Dead(p.proposal, s.bExec.height)))
  }

  // ----- The lookups -----

  lemma LookupSame(all: set<Block>, few: set<Block>, h: nat, ref: Option<Block>)
    requires MissesBelow(all, few, h)
    ensures || Lookup(few, ref) == Lookup(all, ref)
            || (Lookup(few, ref).None? && Lookup(all, ref) == ref && ref.value.height < h)
  {
  }

  lemma {:induction false} SafetyWalkSame(all: set<Block>, few: set<Block>, h: nat, b: Block, lock: Block)
    requires MissesBelow(all, few, h) && h <= lock.height
    ensures SafetyWalk(few, Some(b), lock) == SafetyWalk(all, Some(b), lock)
    decreases Depth(b)
  {
    LookupSame(all, few, h, b.parent);
    if b.height >= lock.height && b != lock && ParentOf(few, b).Some? {
      SafetyWalkSame(all, few, h, b.parent.value, lock);
    }
  }

  lemma {:induction false} CommitWalkSame(all: set<Block>, few: set<Block>, exec: Block, b: Block)
    requires MissesBelow(all, few, exec.height)
    ensures CommitWalk(few, exec, Some(b)) == CommitWalk(all, exec, Some(b))
    decreases Depth(b)
  {
    LookupSame(all, few, exec.height, b.parent);
    if b.height > exec.height && ParentOf(few, b).Some? {
      CommitWalkSame(all, few, exec, b.parent.value);
    }
  }

  lemma CanVoteSame(b0: Block, s: Replica, p: Replica, b: Block)
    requires Good(b0, s) && Mirrors(s, p)
    ensures p.CanVote(b) == s.CanVote(b)
  {
    SafetyWalkSame(s.store, p.store, s.bExec.height, b, s.bLock);
    LookupSame(s.store, p.store, s.bExec.height, JustifyRef(b));
  }

  // ----- The handlers -----

  lemma UpdateQCHighMirrors(b0: Block, s: Replica, p: Replica, qc: Option<Block>)
    requires Good(b0, s) && Mirrors(s, p)
    ensures Mirrors(s.UpdateQCHigh(qc), p.UpdateQCHigh(qc))
  {
    LookupSame(s.store, p.store, s.bExec.height, qc);
    assert s.qcHigh.value in p.store;
  }

  /** The block two certificates back is found above the lock in both stores or in neither. */
  lemma LockSame(b0: Block, s: Replica, p: Replica, b: Block)
    requires Good(b0, s) && Mirrors(s, p) && b in s.store && b != b0
    ensures var b1 := JustifyOf(s.store, JustifyOf(s.store, Some(b)));
      var c1 := JustifyOf(p.store, JustifyOf(p.store, Some(b)));
      && (CmpBlockHeight(b1, Some(s.bLock)) == 1 <==> CmpBlockHeight(c1, Some(s.bLock)) == 1)
      && (CmpBlockHeight(b1, Some(s.bLock)) == 1 ==>
            c1 == b1 && JustifyOf(p.store, Some(b)) == JustifyOf(s.store, Some(b)) && b1.value in p.store)
  {
    var h := s.bExec.height;
    JustifyFound(b0, s.store, b);
    LookupSame(s.store, p.store, h, JustifyRef(b));
    var b2 := b.justify.value;
    if b2 == b0 {
      RootJustifyOutside(b0, s.store);
    } else {
      JustifyFound(b0, s.store, b2);
      LookupSame(s.store, p.store, h, JustifyRef(b2));
    }
  }

  /** And so is a three-chain on it. */
  lemma ThreeChainSame(b0: Block, s: Replica, p: Replica, b2: Block, b1: Block)
    requires Good(b0, s) && Mirrors(s, p) && b2 in s.store && b1 in p.store && b1.height > s.bLock.height
    requires b1 in s.store && b1 != b0
    ensures var (bx, cx) := (JustifyOf(s.store, Some(b1)), JustifyOf(p.store, Some(b1)));
      && (IsThreeChain(s.store, bx, Some(b1), Some(b2)) <==> IsThreeChain(p.store, cx, Some(b1), Some(b2)))
      && (IsThreeChain(s.store, bx, Some(b1), Some(b2)) ==> cx == bx)
  {
    JustifyFound(b0, s.store, b1);
    LookupSame(s.store, p.store, s.bExec.height, JustifyRef(b1));
    LookupSame(s.store, p.store, s.bExec.height, b1.parent);
    LookupSame(s.store, p.store, s.bExec.height, b2.parent);
  }

  lemma UpdateMirrors(b0: Block, s: Replica, p: Replica, b: Block, t: Replica, q: Replica)
    requires Good(b0, s) && !s.halted && Mirrors(s, p) && b in s.store && b != b0
    requires t == s.Update(b) && q == p.Update(b)
    ensures q.halted == t.halted && q.committed == t.committed
    ensures !t.halted ==> Mirrors(t, q)
  {
    var b2, c2 := JustifyOf(s.store, Some(b)), JustifyOf(p.store, Some(b));
    var b1, c1 := JustifyOf(s.store, b2), JustifyOf(p.store, c2);
    var bx, cx := JustifyOf(s.store, b1), JustifyOf(p.store, c1);
    UpdateQCHighMirrors(b0, s, p, JustifyRef(b));
    LockSame(b0, s, p, b);
    UpdateCases(s, b, b2, b1, bx, t);
    UpdateCases(p, b, c2, c1, cx, q);
    UpdateKeeps(b0, s, b, t);
    if CmpBlockHeight(b1, Some(s.bLock)) == 1 {
      RootHeight(b0, s.bLock);
      ThreeChainSame(b0, s, p, b2.value, b1.value);
      if IsThreeChain(s.store, bx, b1, b2) {
        CommitWalkSame(s.store, p.store, s.bExec, bx.value);
      }
    }
  }

  lemma OnReceiveVoteMirrors(b0: Block, s: Replica, p: Replica, v: BlockVote, majority: int)
    requires Good(b0, s) && Mirrors(s, p)
    ensures Mirrors(s.OnReceiveVote(v, majority), p.OnReceiveVote(v, majority))
  {
    if Dead(s.proposal, s.bExec.height) {
      DeadVote(s, v, majority, s.bExec.height);
      DeadVote(p, v, majority, s.bExec.height);
    } else {
      assert p.proposal == s.proposal && s.proposal.value in p.store;
      LookupSame(s.store, p.store, s.bExec.height, v.blockHash);
      assert p.AddsVote(v) == s.AddsVote(v);
      if s.AddsVote(v) {
        var s1, p1 := s.(proposal := None, votes := map[]), p.(proposal := None, votes := map[]);
        UpdateQCHighMirrors(b0, s1, p1, s.proposal);
      }
    }
  }

  /** A vote for a proposal below the highest certificate changes only the vote table. */
  lemma DeadVote(s: Replica, v: BlockVote, majority: int, h: nat)
    requires Dead(s.proposal, h) && s.qcHigh.Some? && s.qcHigh.value in s.store && h <= s.qcHigh.value.height
    ensures var t := s.OnReceiveVote(v, majority);
      t == s.(proposal := t.proposal, votes := t.votes) && Dead(t.proposal, h)
  {
  }

  lemma SetBlockMirrors(s: Replica, p: Replica, b: Block)
    requires Mirrors(s, p)
    ensures Mirrors(s.SetBlock(b), p.SetBlock(b))
  {
  }

  /** The same signature, the same blocks committed, the same stop, and still a mirror. */
  ghost predicate SameOutcome(s: Replica, p: Replica, e: Event, t: Replica, q: Replica)
  {
    q.halted == t.halted && q.committed == t.committed && (!t.halted ==> Mirrors(t, q)) && Signs(p, e) == Signs(s, e)
  }

  lemma ProposalMirrors(b0: Block, s: Replica, p: Replica, b: Block, voting: bool, self: PublicKey, majority: int,
                        t: Replica, q: Replica)
    requires Good(b0, s) && !s.halted && Mirrors(s, p) && Admissible(b0, p, Proposal(b, voting))
    requires t == Handle(s, Proposal(b, voting), self, majority) && q == Handle(p, Proposal(b, voting), self, majority)
    ensures SameOutcome(s, p, Proposal(b, voting), t, q)
  {
    InTreeRooted(b0, b);
    SetBlockKeeps(b0, s, b);
    SetBlockMirrors(s, p, b);
    var s1, p1 := s.SetBlock(b), p.SetBlock(b);
    CanVoteSame(b0, s1, p1, b);
    var vote := voting && s1.CanVote(b);
    var s2, p2 := if vote then s1.(bVote := b) else s1, if vote then p1.(bVote := b) else p1;
    assert Good(b0, s2) && Mirrors(s2, p2);
    UpdateMirrors(b0, s2, p2, b, t, q);
  }

  lemma OnProposeMirrors(s: Replica, p: Replica, payload: nat)
    requires Mirrors(s, p)
    ensures Mirrors(s.OnPropose(payload), p.OnPropose(payload)) && p.NewLeaf(payload) == s.NewLeaf(payload)
  {
  }

  /** The rest of a proposal: the own vote, then Update. */
  lemma OwnVoteMirrors(b0: Block, s: Replica, p: Replica, b: Block, vote: BlockVote, majority: int, t: Replica,
                       q: Replica)
    requires Good(b0, s) && !s.halted && Mirrors(s, p) && b in s.store && b != b0
    requires t == s.OnReceiveVote(vote, majority).Update(b) && q == p.OnReceiveVote(vote, majority).Update(b)
    ensures q.halted == t.halted && q.committed == t.committed && (!t.halted ==> Mirrors(t, q))
  {
    OnReceiveVoteKeeps(b0, s, vote, majority);
    OnReceiveVoteMirrors(b0, s, p, vote, majority);
    UpdateMirrors(b0, s.OnReceiveVote(vote, majority), p.OnReceiveVote(vote, majority), b, t, q);
  }

  lemma BeatMirrors(b0: Block, s: Replica, p: Replica, payload: nat, self: PublicKey, majority: int, t: Replica,
                    q: Replica)
    requires Good(b0, s) && !s.halted && Mirrors(s, p)
    requires t == s.Propose(payload, self, majority) && q == p.Propose(payload, self, majority)
    ensures SameOutcome(s, p, Beat(payload), t, q)
  {
    var b := s.NewLeaf(payload);
    ProposalIsSound(b0, s, payload);
    OnProposeMirrors(s, p, payload);
    var vote := Vote(Some(b), Signature(self, Some(b)));
    OwnVoteMirrors(b0, s.OnPropose(payload), p.OnPropose(payload), b, vote, majority, t, q);
  }

  lemma NewViewMirrors(b0: Block, s: Replica, p: Replica, qc: Option<Block>, t: Replica, q: Replica)
    requires Good(b0, s) && Mirrors(s, p) && t == s.UpdateQCHigh(qc) && q == p.UpdateQCHigh(qc)
    ensures SameOutcome(s, p, NewView(qc), t, q)
  {
    UpdateQCHighMirrors(b0, s, p, qc);
  }

  lemma VoteMirrors(b0: Block, s: Replica, p: Replica, v: BlockVote, majority: int, t: Replica, q: Replica)
    requires Good(b0, s) && Mirrors(s, p) && t == s.OnReceiveVote(v, majority) && q == p.OnReceiveVote(v, majority)
    ensures SameOutcome(s, p, VoteReceived(v), t, q)
  {
    OnReceiveVoteMirrors(b0, s, p, v, majority);
  }

  /**
   A pruned replica answers every call as the whole one: it signs the same block, commits the same
   blocks and stops in the same calls.
   */
  lemma HandleMirrors(b0: Block, s: Replica, p: Replica, e: Event, self: PublicKey, majority: int, t: Replica,
                      q: Replica)
    requires Good(b0, s) && !s.halted && Mirrors(s, p) && Admissible(b0, p, e)
    requires t == Handle(s, e, self, majority) && q == Handle(p, e, self, majority)
    ensures SameOutcome(s, p, e, t, q)
  {
    match e
    case Proposal(b, voting) => ProposalMirrors(b0, s, p, b, voting, self, majority, t, q);
    case NewView(qc) => NewViewMirrors(b0, s, p, qc, t, q);
    case VoteReceived(v) => VoteMirrors(b0, s, p, v, majority, t, q);
    case Beat(payload) => BeatMirrors(b0, s, p, payload, self, majority, t, q);
  }

  /** Pruning keeps a mirror a mirror. */
  lemma PruneMirrors(s: Replica, p: Replica, gone: set<Block>)
    requires Mirrors(s, p) && forall b :: b in gone ==> b.height < p.bExec.height
    ensures Mirrors(s, p.(store := p.store - gone))
  {
  }

  // ----- Networks of pruning replicas -----

  datatype PruningStep =
    | Act(step: Step)
    | Prune(r: PublicKey, gone: set<Block>)

  ghost predicate PruningNext(c: Config, m: Network, step: PruningStep, m': Network)
  {
    match step
    case Act(a) => Next(c, m, a, m')
    case Prune(r, gone) =>
      && r in m.replicas
      && (forall b :: b in gone ==> b.height < m.replicas[r].bExec.height)
      && m' == m.(replicas := m.replicas[r := Without(m.replicas[r], gone)])
  }

  function Without(p: Replica, gone: set<Block>): Replica
  {
    p.(store := p.store - gone)
  }

  ghost predicate IsPruningRun(c: Config, run: seq<Network>, steps: seq<PruningStep>)
  {
    && |run| == |steps| + 1
    && Init(c, run[0])
    && forall i :: 0 <= i < |steps| ==> PruningStepAt(c, run, steps, i)
  }

  ghost predicate PruningStepAt(c: Config, run: seq<Network>, steps: seq<PruningStep>, i: nat)
    requires |run| == |steps| + 1 && i < |steps|
  {
    PruningNext(c, run[i], steps[i], run[i + 1])
  }

  ghost predicate NetworkMirrors(n: Network, m: Network)
  {
    && m.log == n.log && m.replicas.Keys == n.replicas.Keys
    && forall r :: r in n.replicas ==> Mirrors(n.replicas[r], m.replicas[r])
  }

  /** What the pruned replica may be given and sign, the whole one may. */
  lemma EventMirrors(c: Config, log: seq<Signed>, s: Replica, p: Replica, e: Event)
    requires Mirrors(s, p) && EventOk(c, log, p, e)
    ensures EventOk(c, log, s, e)
  {
  }

  lemma CallMirrors(c: Config, n: Network, m: Network, r: PublicKey, e: Event, m': Network, n': Network)
    requires c.Valid() && NetworkOk(c, n) && NetworkMirrors(n, m) && Next(c, m, Deliver(r, e), m')
    requires var s := n.replicas[r];
      n' == Network(n.replicas[r := Handle(s, e, r, c.Majority())], n.log + NewSignature(r, s, e))
    ensures Next(c, n, Deliver(r, e), n') && m'.log == n'.log
    ensures !n'.replicas[r].halted ==> Mirrors(n'.replicas[r], m'.replicas[r])
  {
    var s, p := n.replicas[r], m.replicas[r];
    assert ReplicaOk(c, n.log, r, s) && Mirrors(s, p);
    EventMirrors(c, n.log, s, p, e);
    HandleMirrors(c.b0, s, p, e, r, c.Majority(), n'.replicas[r], m'.replicas[r]);
  }

  lemma NotHalted(c: Config, n: Network, step: Step, n': Network, r: PublicKey)
    requires c.Valid() && NetworkOk(c, n) && Next(c, n, step, n') && r in n'.replicas
    ensures !n'.replicas[r].halted
  {
    NextKeeps(c, n, step, n');
    assert ReplicaOk(c, n'.log, r, n'.replicas[r]);
  }

  lemma OneMirrors(n: Network, m: Network, r: PublicKey, n': Network, m': Network)
    requires NetworkMirrors(n, m) && r in n.replicas && m'.log == n'.log
    requires r in n'.replicas && n'.replicas == n.replicas[r := n'.replicas[r]]
    requires r in m'.replicas && m'.replicas == m.replicas[r := m'.replicas[r]]
    requires Mirrors(n'.replicas[r], m'.replicas[r])
    ensures NetworkMirrors(n', m')
  {
    forall q | q in n'.replicas
      ensures Mirrors(n'.replicas[q], m'.replicas[q])
    {
      assert q != r ==> Mirrors(n.replicas[q], m.replicas[q]);
    }
  }

  lemma DeliverMirrors(c: Config, n: Network, m: Network, r: PublicKey, e: Event, m': Network) returns (n': Network)
    requires c.Valid() && NetworkOk(c, n) && NetworkMirrors(n, m) && Next(c, m, Deliver(r, e), m')
    ensures Next(c, n, Deliver(r, e), n') && NetworkMirrors(n', m')
  {
    var s := n.replicas[r];
    n' := Network(n.replicas[r := Handle(s, e, r, c.Majority())], n.log + NewSignature(r, s, e));
    CallMirrors(c, n, m, r, e, m', n');
    NotHalted(c, n, Deliver(r, e), n', r);
    OneMirrors(n, m, r, n', m');
  }

  lemma ActMirrors(c: Config, n: Network, m: Network, step: Step, m': Network) returns (n': Network)
    requires c.Valid() && NetworkOk(c, n) && NetworkMirrors(n, m) && Next(c, m, step, m')
    ensures Next(c, n, step, n') && NetworkMirrors(n', m')
  {
    match step
    case FaultySigns(v, b) => n' := n.(log := n.log + [Signed(v, b, c.b0, false)]);
    case Deliver(r, e) => n' := DeliverMirrors(c, n, m, r, e, m');
  }

  lemma GoneMirrors(n: Network, m: Network, r: PublicKey, gone: set<Block>, m': Network)
    requires NetworkMirrors(n, m) && r in m.replicas && forall b :: b in gone ==> b.height < m.replicas[r].bExec.height
    requires m' == m.(replicas := m.replicas[r := Without(m.replicas[r], gone)])
    ensures NetworkMirrors(n, m')
  {
    PruneMirrors(n.replicas[r], m.replicas[r], gone);
  }

  /** Moment `k` of the pruning run is mirrored by moment `at[k]` of the other. */
  ghost predicate Matches(pruning: seq<Network>, run: seq<Network>, at: seq<nat>)
  {
    && |at| <= |pruning|
    && (forall k :: 0 <= k < |at| ==> at[k] < |run| && NetworkMirrors(run[at[k]], pruning[k]))
    && (forall j, k :: 0 <= j <= k < |at| ==> at[j] <= at[k])
  }

  lemma MatchesMore(pruning: seq<Network>, run: seq<Network>, at: seq<nat>, more: seq<Network>, i: nat)
    requires Matches(pruning, run, at) && |at| < |pruning|
    requires i < |run + more| && NetworkMirrors((run + more)[i], pruning[|at|])
    requires forall k :: 0 <= k < |at| ==> at[k] <= i
    ensures Matches(pruning, run + more, at + [i])
  {
    var at', run' := at + [i], run + more;
    forall k | 0 <= k < |at'|
      ensures at'[k] < |run'| && NetworkMirrors(run'[at'[k]], pruning[k])
    {
      if k < |at| {
        assert run'[at[k]] == run[at[k]];
      }
    }
  }

  lemma RunMore(c: Config, run: seq<Network>, steps: seq<Step>, step: Step, n': Network)
    requires Protocol.IsRun(c, run, steps) && Next(c, run[|steps|], step, n')
    ensures Protocol.IsRun(c, run + [n'], steps + [step])
  {
    var run', steps' := run + [n'], steps + [step];
    forall i | 0 <= i < |steps'|
      ensures Protocol.StepAt(c, run', steps', i)
    {
      if i < |steps| {
        assert Protocol.StepAt(c, run, steps, i);
      }
    }
  }

  lemma InitMirrors(c: Config, m: Network)
    requires Init(c, m)
    ensures NetworkMirrors(m, m)
  {
  }

  /** Every run of pruning replicas is mirrored by a run of replicas that keep everything. */
  lemma {:induction false} RunMirrors(c: Config, pruning: seq<Network>, psteps: seq<PruningStep>, k: nat)
    returns (run: seq<Network>, steps: seq<Step>, at: seq<nat>)
    requires c.Valid() && IsPruningRun(c, pruning, psteps) && k < |pruning|
    ensures Protocol.IsRun(c, run, steps) && Matches(pruning, run, at) && |at| == k + 1 && at[k] == |steps|
  {
    if k == 0 {
      run, steps, at := [pruning[0]], [], [0];
      InitMirrors(c, pruning[0]);
    } else {
      run, steps, at := RunMirrors(c, pruning, psteps, k - 1);
      var n, m, m' := run[|steps|], pruning[k - 1], pruning[k];
      RunOk(c, run, steps, |steps|);
      assert NetworkOk(c, n) && NetworkMirrors(run[at[k - 1]], pruning[k - 1]);
      assert PruningStepAt(c, pruning, psteps, k - 1);
      run, steps, at := StepMirrors(c, pruning, psteps[k - 1], run, steps, at, n, m, m');
    }
  }

  lemma ActAppended(c: Config, pruning: seq<Network>, a: Step, run: seq<Network>, steps: seq<Step>, at: seq<nat>,
                    n': Network)
    requires Protocol.IsRun(c, run, steps) && Next(c, run[|steps|], a, n')
    requires Matches(pruning, run, at) && 0 < |at| < |pruning| && NetworkMirrors(n', pruning[|at|])
    requires at[|at| - 1] == |steps|
    ensures Protocol.IsRun(c, run + [n'], steps + [a]) && Matches(pruning, run + [n'], at + [|steps| + 1])
  {
    RunMore(c, run, steps, a, n');
    assert (run + [n'])[|steps| + 1] == n';
    MatchesMore(pruning, run, at, [n'], |steps| + 1);
  }

  lemma PruneAppended(pruning: seq<Network>, run: seq<Network>, at: seq<nat>, last: nat)
    requires Matches(pruning, run, at) && 0 < |at| < |pruning| && at[|at| - 1] == last < |run|
    requires NetworkMirrors(run[last], pruning[|at|])
    ensures Matches(pruning, run, at + [last])
  {
    assert run + [] == run;
    MatchesMore(pruning, run, at, [], last);
  }

  lemma StepMirrors(c: Config, pruning: seq<Network>, pstep: PruningStep, run: seq<Network>, steps: seq<Step>,
                    at: seq<nat>, n: Network, m: Network, m': Network)
    returns (run': seq<Network>, steps': seq<Step>, at': seq<nat>)
    requires c.Valid() && Protocol.IsRun(c, run, steps) && n == run[|steps|] && NetworkOk(c, n) && NetworkMirrors(n, m)
    requires PruningNext(c, m, pstep, m') && Matches(pruning, run, at) && 0 < |at| < |pruning| && m' == pruning[|at|]
    requires at[|at| - 1] == |steps|
    ensures Protocol.IsRun(c, run', steps') && Matches(pruning, run', at') && |at'| == |at| + 1 && at'[|at|] == |steps'|
  {
    match pstep
    case Act(a) =>
      var n' := ActMirrors(c, n, m, a, m');
      ActAppended(c, pruning, a, run, steps, at, n');
      return run + [n'], steps + [a], at + [|steps| + 1];
    case Prune(r, gone) =>
      GoneMirrors(n, m, r, gone, m');
      PruneAppended(pruning, run, at, |steps|);
      return run, steps, at + [|steps|];
  }

  /** Agreement, and no fatal stop, for replicas that prune. */
  lemma PruningAgreement(c: Config, pruning: seq<Network>, psteps: seq<PruningStep>, i: nat, j: nat, r1: PublicKey,
                         r2: PublicKey)
    requires c.Valid() && IsPruningRun(c, pruning, psteps) && i <= j < |pruning|
    requires c.Correct(r1) && c.Correct(r2)
    ensures r1 in pruning[i].replicas && r2 in pruning[j].replicas
    ensures var s1, s2 := pruning[i].replicas[r1], pruning[j].replicas[r2];
      && !s1.halted && !s2.halted
      && (s1.committed <= s2.committed || s2.committed <= s1.committed)
  {
    var run, steps, at := RunMirrors(c, pruning, psteps, j);
    Agreement(c, run, steps, at[i], at[j], r1, r2);
    FatalStopUnreachable(c, run, steps, at[i], r1);
    FatalStopUnreachable(c, run, steps, at[j], r2);
    assert NetworkMirrors(run[at[i]], pruning[i]) && NetworkMirrors(run[at[j]], pruning[j]);
    assert Mirrors(run[at[i]].replicas[r1], pruning[i].replicas[r1]);
    assert Mirrors(run[at[j]].replicas[r2], pruning[j].replicas[r2]);
  }
}
