/**
 Which runs of the code keep to the premise on signature heights: exactly those in which the
 signatures of every correct validator increase in height.
 */
module SigningHeights {
  import opened Options
  import opened BlockTree
  import opened Quorum
  import opened HotstuffReplica
  import opened ReplicaInvariant
  import opened Protocol

  /** The signatures of `v` increase in height. */
  ghost predicate Increasing(log: seq<Signed>, v: PublicKey)
  {
    forall j, k :: 0 <= j < k < |log| && log[j].signer == v && log[k].signer == v ==>
      log[j].block.height < log[k].block.height
  }

  ghost predicate AllIncreasing(c: Config, log: seq<Signed>)
  {
    forall v :: c.Correct(v) ==> Increasing(log, v)
  }

  // ----- What every step of the code keeps, with no premise on heights -----

  ghost predicate FreeReplicaOk(c: Config, log: seq<Signed>, r: PublicKey, s: Replica)
  {
    VotesRecorded(c.b0, log, r, s) && (!s.halted ==> Good(c.b0, s))
  }

  ghost predicate FreeOk(c: Config, n: Network)
  {
    && n.replicas.Keys == c.validators - c.faulty
    && forall r :: r in n.replicas ==> FreeReplicaOk(c, n.log, r, n.replicas[r])
  }

  /** Only a vote moves bVote. */
  lemma HandleVotes(s: Replica, e: Event, self: PublicKey, majority: int, t: Replica)
    requires !s.halted && t == Handle(s, e, self, majority)
    ensures e.Proposal? && Signs(s, e).Some? ==> t.bVote == e.blk && s.bVote.height < e.blk.height
    ensures !(e.Proposal? && Signs(s, e).Some?) ==> t.bVote == s.bVote
  {
    match e
    case Proposal(b, voting) =>
      var s2 := if voting && s.SetBlock(b).CanVote(b) then s.SetBlock(b).(bVote := b) else s.SetBlock(b);
      UpdateVotes(s2, b, t);
    case NewView(qc) =>
    case VoteReceived(v) =>
    case Beat(payload) =>
      var b := s.NewLeaf(payload);
      var s2 := s.OnPropose(payload).OnReceiveVote(Vote(Some(b), Signature(self, Some(b))), majority);
      UpdateVotes(s2, b, t);
  }

  lemma UpdateVotes(s: Replica, b: Block, t: Replica)
    requires !s.halted && t == s.Update(b)
    ensures t.bVote == s.bVote
  {
    var b2 := JustifyOf(s.store, Some(b));
    var b1 := JustifyOf(s.store, b2);
    UpdateCases(s, b, b2, b1, JustifyOf(s.store, b1), t);
  }

  lemma AdmissibleReceived(b0: Block, s: Replica, e: Event)
    requires Admissible(b0, s, e)
    ensures Received(b0, s, e)
  {
    if e.Proposal? {
      InTreeRooted(b0, e.blk);
    }
  }

  /** The replica that was called. */
  lemma CalledOk(c: Config, log: seq<Signed>, r: PublicKey, s: Replica, e: Event, t: Replica)
    requires FreeReplicaOk(c, log, r, s) && !s.halted && Admissible(c.b0, s, e)
    requires t == Handle(s, e, r, c.Majority())
    ensures FreeReplicaOk(c, log + NewSignature(r, s, e), r, t)
  {
    AdmissibleReceived(c.b0, s, e);
    HandleKeeps(c.b0, s, e, r, c.Majority());
    HandleVotes(s, e, r, c.Majority(), t);
    if Signs(s, e).None? {
      assert log + [] == log;
    } else {
      var x := Signed(r, Signs(s, e).value, s.bLock, e.Beat?);
      if e.Beat? {
        VotesRecordedMonotone(c.b0, log, x, r, s, t);
      } else {
        VoteRecorded(c.b0, log, x, r, s, t);
      }
    }
  }

  /** A replica that was not called. */
  lemma OtherOk(c: Config, log: seq<Signed>, more: seq<Signed>, r: PublicKey, s: Replica)
    requires FreeReplicaOk(c, log, r, s)
    requires more == log || exists x: Signed :: x.signer != r && more == log + [x]
    ensures FreeReplicaOk(c, more, r, s)
  {
    if more != log {
      var x: Signed :| x.signer != r && more == log + [x];
      VotesRecordedMonotone(c.b0, log, x, r, s, s);
    }
  }

  lemma MovesKeepFree(c: Config, n: Network, step: Step, n': Network)
    requires FreeOk(c, n) && Moves(c, n, step, n')
    ensures FreeOk(c, n')
  {
    match step
    case FaultySigns(v, b) =>
      forall r | r in n.replicas
        ensures FreeReplicaOk(c, n'.log, r, n.replicas[r])
      {
        assert Signed(v, b, c.b0, false).signer != r;
        OtherOk(c, n.log, n'.log, r, n.replicas[r]);
      }
    case Deliver(r, e) =>
      var s := n.replicas[r];
      CalledOk(c, n.log, r, s, e, n'.replicas[r]);
      forall q | q in n.replicas && q != r
        ensures FreeReplicaOk(c, n'.log, q, n.replicas[q])
      {
        assert n'.log == n.log || NewSignature(r, s, e)[0].signer != q;
        OtherOk(c, n.log, n'.log, q, n.replicas[q]);
      }
  }

  lemma InitFree(c: Config, n: Network)
    requires Init(c, n)
    ensures FreeOk(c, n)
  {
  }

  lemma {:induction false} FreeRunOk(c: Config, run: seq<Network>, steps: seq<Step>, k: nat)
    requires IsFreeRun(c, run, steps) && k < |run|
    ensures FreeOk(c, run[k])
  {
    if k == 0 {
      InitFree(c, run[0]);
    } else {
      FreeRunOk(c, run, steps, k - 1);
      var n, step, n' := run[k - 1], steps[k - 1], run[k];
      assert FreeOk(c, n);
      assert MoveAt(c, run, steps, k - 1);
      MovesKeepFree(c, n, step, n');
    }
  }

  // ----- The exact condition over whole runs -----

  /** Whatever a correct validator signs is above the start block. */
  lemma SignedAboveRoot(b0: Block, s: Replica, e: Event)
    requires Good(b0, s) && Admissible(b0, s, e) && Signs(s, e).Some?
    ensures b0.height < Signs(s, e).value.height
  {
    if e.Proposal? {
      InTreeRooted(b0, e.blk);
      RootHeight(b0, e.blk);
    } else {
      RootHeight(b0, s.bLeaf);
    }
  }

  lemma IncreasingExtend(log: seq<Signed>, x: Signed, v: PublicKey)
    ensures Increasing(log + [x], v) <==> Increasing(log, v) && (x.signer == v ==> FreshHeight(log, v, x.block))
  {
    var more := log + [x];
    assert forall k :: 0 <= k < |log| ==> more[k] == log[k];
    if Increasing(more, v) && x.signer == v {
      forall k | 0 <= k < |log| && log[k].signer == v
        ensures log[k].block.height < x.block.height
      {
        assert more[k].block.height < more[|log|].block.height;
      }
    }
  }

  /** One step keeps the signatures increasing exactly when its check holds. */
  lemma StepIncreasesIff(c: Config, n: Network, step: Step, n': Network)
    requires FreeOk(c, n) && Moves(c, n, step, n')
    ensures AllIncreasing(c, n'.log) <==> AllIncreasing(c, n.log) && MaySign(n, step)
  {
    if n'.log == n.log {
    } else {
      var x := n'.log[|n.log|];
      assert n'.log == n.log + [x];
      forall v
        ensures Increasing(n'.log, v) <==> Increasing(n.log, v) && (x.signer == v ==> FreshHeight(n.log, v, x.block))
      {
        IncreasingExtend(n.log, x, v);
      }
      if step.Deliver? {
        var s := n.replicas[step.r];
        SignedAboveRoot(c.b0, s, step.event);
        SignatureFreshIff(c.b0, n.log, step.r, s, x.block);
      }
    }
  }

  /** The check held before each of the first `k` steps. */
  ghost predicate Checked(run: seq<Network>, steps: seq<Step>, k: nat)
    requires |run| == |steps| + 1 && k <= |steps|
  {
    forall i :: 0 <= i < k ==> CheckedAt(run, steps, i)
  }

  ghost predicate CheckedAt(run: seq<Network>, steps: seq<Step>, i: nat)
    requires |run| == |steps| + 1 && i < |steps|
  {
    MaySign(run[i], steps[i])
  }

  lemma RunStepIncreasesIff(c: Config, run: seq<Network>, steps: seq<Step>, i: nat, n: Network, n': Network)
    requires IsFreeRun(c, run, steps) && i < |steps| && n == run[i] && n' == run[i + 1]
    ensures AllIncreasing(c, n'.log) <==> AllIncreasing(c, n.log) && CheckedAt(run, steps, i)
  {
    FreeRunOk(c, run, steps, i);
    assert FreeOk(c, n);
    assert MoveAt(c, run, steps, i);
    StepIncreasesIff(c, n, steps[i], n');
  }

  lemma {:induction false} PrefixIncreasesIff(c: Config, run: seq<Network>, steps: seq<Step>, k: nat)
    requires IsFreeRun(c, run, steps) && k <= |steps|
    ensures AllIncreasing(c, run[k].log) <==> Checked(run, steps, k)
  {
    if k == 0 {
      assert run[0].log == [];
    } else {
      PrefixIncreasesIff(c, run, steps, k - 1);
      RunStepIncreasesIff(c, run, steps, k - 1, run[k - 1], run[k]);
    }
  }

  /**
   A run of the code keeps to the premise if and only if the signatures of every correct validator
   increase in height.
   */
  lemma IncreasingIff(c: Config, run: seq<Network>, steps: seq<Step>)
    requires IsFreeRun(c, run, steps)
    ensures Protocol.IsRun(c, run, steps) <==> AllIncreasing(c, run[|steps|].log)
  {
    PrefixIncreasesIff(c, run, steps, |steps|);
    forall i | 0 <= i < |steps|
      ensures Protocol.StepAt(c, run, steps, i) <==> CheckedAt(run, steps, i)
    {
      assert MoveAt(c, run, steps, i);
    }
  }

  /** Agreement for every run of the code in which the signatures of correct validators increase in height. */
  lemma IncreasingRunsAgree(c: Config, run: seq<Network>, steps: seq<Step>, i: nat, j: nat, r1: PublicKey,
                            r2: PublicKey)
    requires c.Valid() && IsFreeRun(c, run, steps) && AllIncreasing(c, run[|steps|].log) && i <= j < |run|
    requires c.Correct(r1) && c.Correct(r2)
    ensures r1 in run[i].replicas && r2 in run[j].replicas
    ensures var s1, s2 := run[i].replicas[r1], run[j].replicas[r2];
      && !s1.halted && !s2.halted
      && (s1.committed <= s2.committed || s2.committed <= s1.committed)
  {
    IncreasingIff(c, run, steps);
    Agreement(c, run, steps, i, j, r1, r2);
    FatalStopUnreachable(c, run, steps, i, r1);
    FatalStopUnreachable(c, run, steps, j, r2);
  }
}
