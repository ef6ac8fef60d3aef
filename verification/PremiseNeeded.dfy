/**
 The premise on signature heights cannot be dropped: a run of the code with two correct validators,
 none faulty, whose committed lists disagree.  In each of three rounds both validators propose a block
 on their own branch and then vote for the block of the other, which has the same height; both blocks
 are certified.  A fourth proposal makes each of them commit the first block of its own branch.
 */
module PremiseNeeded {
  import opened Options
  import opened FiniteSets
  import opened BlockTree
  import opened Quorum
  import opened HotstuffReplica
  import opened ReplicaInvariant
  import opened Protocol

  const LEFT: PublicKey := "left"
  const RIGHT: PublicKey := "right"

  function Start(): Block
  {
    Block(0, None, None, 0)
  }

  function Both(): Config
  {
    Config({LEFT, RIGHT}, {}, Start())
  }

  /** The `k`th block of branch `p`: each certifies its parent. */
  function Line(p: nat, k: nat): Block
  {
    if k == 0 then Start() else Block(k, Some(Line(p, k - 1)), Some(Line(p, k - 1)), p)
  }

  function Stored(p: nat, q: nat, k: nat): set<Block>
  {
    if k == 0 then {Start()} else Stored(p, q, k - 1) + {Line(p, k), Line(q, k)}
  }

  /** The block a replica that proposes on branch `p` is locked on once it has `k` blocks. */
  function Locked(p: nat, k: nat): Block
  {
    if k <= 2 then Start() else Line(p, k - 2)
  }

  lemma {:induction false} LineInTree(p: nat, k: nat)
    ensures InTree(Start(), Line(p, k)) && Line(p, k).height == k
    ensures k > 0 ==> Line(p, k) != Start()
  {
    if k > 0 {
      LineInTree(p, k - 1);
    }
  }

  lemma {:induction false} LineStored(p: nat, q: nat, k: nat, i: nat)
    requires i <= k
    ensures Line(p, i) in Stored(p, q, k) && Line(q, i) in Stored(p, q, k)
  {
    if i < k {
      LineStored(p, q, k - 1, i);
    }
  }

  // ----- One replica -----

  /** The replica of branch `p` after `k` rounds. */
  function After(p: nat, q: nat, k: nat): Replica
  {
    Replica(Stored(p, q, k), Line(q, k), Locked(p, k), Start(), Line(p, k), Some(Line(p, k)), None, map[], [], false)
  }

  function OwnVote(me: PublicKey, p: nat, k: nat): BlockVote
  {
    Vote(Some(Line(p, k)), Signature(me, Some(Line(p, k))))
  }

  /** Having proposed the next block. */
  function Proposed(me: PublicKey, p: nat, q: nat, k: nat): Replica
  {
    var b := Line(p, k + 1);
    After(p, q, k).(store := Stored(p, q, k) + {b}, bLock := Locked(p, k + 1), bLeaf := b,
                    proposal := Some(b), votes := map[me := OwnVote(me, p, k + 1)])
  }

  /** Having voted for the block of the other branch besides. */
  function Voted(me: PublicKey, p: nat, q: nat, k: nat): Replica
  {
    Proposed(me, p, q, k).(store := Stored(p, q, k) + {Line(p, k + 1)} + {Line(q, k + 1)}, bVote := Line(q, k + 1))
  }

  /** The justify blocks of a branch, looked up where the branch is stored. */
  lemma LineJustify(store: set<Block>, p: nat, k: nat)
    requires forall i :: 0 <= i <= k ==> Line(p, i) in store
    ensures JustifyOf(store, Some(Line(p, k))) == if k == 0 then None else Some(Line(p, k - 1))
    ensures k > 0 ==> ParentOf(store, Line(p, k)) == Some(Line(p, k - 1))
  {
    LineInTree(p, k);
    if k > 0 {
      assert Line(p, k - 1) in store;
    }
  }

  lemma HasLine(store: set<Block>, p: nat, q: nat, k: nat)
    requires Stored(p, q, k) <= store
    ensures forall i :: 0 <= i <= k ==> Line(p, i) in store && Line(q, i) in store
  {
    forall i | 0 <= i <= k
      ensures Line(p, i) in store && Line(q, i) in store
    {
      LineStored(p, q, k, i);
    }
  }

  /** What Update makes of the next block of a branch, below a three-chain that would execute more. */
  lemma UpdateLine(s: Replica, p: nat, k: nat, t: Replica)
    requires !s.halted && t == s.Update(Line(p, k + 1)) && k <= 2
    requires forall i :: 0 <= i <= k + 1 ==> Line(p, i) in s.store
    requires s.bExec == Start() && s.qcHigh.Some? && s.qcHigh.value in s.store && s.qcHigh.value.height == k
    ensures t == s.(bLock := if k == 2 && s.bLock.height == 0 then Line(p, 1) else s.bLock)
  {
    LineJustify(s.store, p, k + 1);
    LineJustify(s.store, p, k);
    LineInTree(p, k);
    LineInTree(p, k + 1);
    if k >= 1 {
      LineJustify(s.store, p, k - 1);
      LineInTree(p, k - 1);
    }
    var b2 := JustifyOf(s.store, Some(Line(p, k + 1)));
    var b1 := JustifyOf(s.store, b2);
    UpdateCases(s, Line(p, k + 1), b2, b1, JustifyOf(s.store, b1), t);
  }

  lemma ProposeRound(me: PublicKey, p: nat, q: nat, k: nat)
    requires k <= 2
    ensures Handle(After(p, q, k), Beat(p), me, 2) == Proposed(me, p, q, k)
    ensures Signs(After(p, q, k), Beat(p)) == Some(Line(p, k + 1))
  {
    var s := After(p, q, k);
    LineInTree(p, k);
    HasLine(s.store, p, q, k);
    var b := Line(p, k + 1);
    assert s.NewLeaf(p) == b;
    var vote := OwnVote(me, p, k + 1);
    var s1 := s.OnPropose(p);
    var s2 := s1.OnReceiveVote(vote, 2);
    assert s2 == s1.(votes := map[me := vote]);
    UpdateLine(s2, p, k, s2.Update(b));
  }

  lemma {:induction false} WalkToStart(store: set<Block>, p: nat, k: nat)
    requires forall i :: 0 <= i <= k ==> Line(p, i) in store
    ensures SafetyWalk(store, Some(Line(p, k)), Start())
  {
    LineInTree(p, k);
    if k > 0 {
      LineJustify(store, p, k);
      WalkToStart(store, p, k - 1);
    }
  }

  lemma VoteRound(me: PublicKey, p: nat, q: nat, k: nat)
    requires k <= 2
    ensures Handle(Proposed(me, p, q, k), Proposal(Line(q, k + 1), true), me, 2) == Voted(me, p, q, k)
    ensures Signs(Proposed(me, p, q, k), Proposal(Line(q, k + 1), true)) == Some(Line(q, k + 1))
  {
    var s, y := Proposed(me, p, q, k), Line(q, k + 1);
    var s1 := s.SetBlock(y);
    HasLine(s1.store, p, q, k);
    LineInTree(p, k);
    LineInTree(q, k);
    LineInTree(q, k + 1);
    if k == 2 {
      LineInTree(p, 1);
      LineJustify(s1.store, q, 3);
      assert s1.CheckLivenessRule(y);
    } else {
      WalkToStart(s1.store, q, k + 1);
    }
    var s2 := s1.(bVote := y);
    UpdateLine(s2, q, k, s2.Update(y));
  }

  lemma CertifyRound(me: PublicKey, other: PublicKey, p: nat, q: nat, k: nat)
    requires k <= 2 && me != other
    ensures Handle(Voted(me, p, q, k), VoteReceived(OwnVote(other, p, k + 1)), me, 2) == After(p, q, k + 1)
  {
    var s := Voted(me, p, q, k);
    LineInTree(p, k);
    LineInTree(p, k + 1);
    HasLine(s.store, p, q, k);
    assert s.store == Stored(p, q, k + 1);
    var votes := s.votes[other := OwnVote(other, p, k + 1)];
    assert votes.Keys == {me, other} && |votes.Keys| == |votes|;
  }

  /** The fourth proposal commits the first block of the branch. */
  lemma CommitRound(me: PublicKey, p: nat, q: nat)
    ensures Handle(After(p, q, 3), Beat(p), me, 2).committed == [Line(p, 1)]
    ensures !Handle(After(p, q, 3), Beat(p), me, 2).halted
    ensures Signs(After(p, q, 3), Beat(p)) == Some(Line(p, 4))
  {
    var s := After(p, q, 3);
    HasLine(s.store, p, q, 3);
    var b := Line(p, 4);
    assert s.NewLeaf(p) == b by {
      LineInTree(p, 3);
    }
    var s1 := s.OnPropose(p);
    var s2 := s1.OnReceiveVote(OwnVote(me, p, 4), 2);
    assert s2.store == s1.store && s2.bLock == Line(p, 1) && s2.bExec == Start() && !s2.halted && s2.committed == [];
    CommitLine(s2, p, s2.Update(b));
  }

  lemma CommitLine(s: Replica, p: nat, t: Replica)
    requires !s.halted && t == s.Update(Line(p, 4)) && s.bLock == Line(p, 1) && s.bExec == Start() && s.committed == []
    requires forall i :: 0 <= i <= 4 ==> Line(p, i) in s.store
    ensures t.committed == [Line(p, 1)] && !t.halted
  {
    LineJustify(s.store, p, 4);
    LineJustify(s.store, p, 3);
    LineJustify(s.store, p, 2);
    LineJustify(s.store, p, 1);
    LineInTree(p, 2);
    LineInTree(p, 1);
    UpdateCases(s, Line(p, 4), Some(Line(p, 3)), Some(Line(p, 2)), Some(Line(p, 1)), t);
    assert CommitWalk(s.store, Start(), Some(Start())) == Some([]);
    assert CommitWalk(s.store, Start(), Some(Line(p, 1))) == Some([] + [Line(p, 1)]);
  }

  // ----- The network -----

  ghost predicate Reachable(c: Config, n: Network)
  {
    exists run, steps :: IsFreeRun(c, run, steps) && run[|steps|] == n
  }

  lemma MoveOn(c: Config, n: Network, step: Step, n': Network)
    requires Reachable(c, n) && Moves(c, n, step, n')
    ensures Reachable(c, n')
  {
    var run, steps :| IsFreeRun(c, run, steps) && run[|steps|] == n;
    var run', steps' := run + [n'], steps + [step];
    forall i | 0 <= i < |steps'|
      ensures MoveAt(c, run', steps', i)
    {
      if i < |steps| {
        assert MoveAt(c, run, steps, i);
      }
    }
    assert IsFreeRun(c, run', steps') && run'[|steps'|] == n';
  }

  function Pair(l: Replica, r: Replica): map<PublicKey, Replica>
  {
    map[LEFT := l, RIGHT := r]
  }

  lemma PairUpdate(l: Replica, r: Replica, l': Replica, r': Replica)
    ensures Pair(l, r)[LEFT := l'][RIGHT := r'] == Pair(l', r')
    ensures LEFT in Pair(l, r) && Pair(l, r)[LEFT] == l && RIGHT in Pair(l, r)[LEFT := l']
    ensures Pair(l, r)[LEFT := l'][RIGHT] == r
  {
  }

  /** One call of `who`, which turns its replica `s` into `t` and adds `more` to the log. */
  lemma Call(n: Network, who: PublicKey, s: Replica, e: Event, t: Replica, more: seq<Signed>) returns (n': Network)
    requires Reachable(Both(), n) && who in n.replicas && n.replicas[who] == s && !s.halted
    requires EventOk(Both(), n.log, s, e) && t == Handle(s, e, who, 2) && more == NewSignature(who, s, e)
    ensures n' == Network(n.replicas[who := t], n.log + more)
    ensures Reachable(Both(), n')
  {
    MajorityOfTwo();
    n' := Network(n.replicas[who := t], n.log + more);
    MoveOn(Both(), n, Deliver(who, e), n');
  }

  lemma ProposeStep(n: Network, me: PublicKey, p: nat, q: nat, k: nat) returns (n': Network)
    requires Reachable(Both(), n) && me in n.replicas && n.replicas[me] == After(p, q, k) && k <= 2
    ensures n' == Network(n.replicas[me := Proposed(me, p, q, k)],
                          n.log + [Signed(me, Line(p, k + 1), Locked(p, k), true)])
    ensures Reachable(Both(), n')
  {
    ProposeRound(me, p, q, k);
    n' := Call(n, me, After(p, q, k), Beat(p), Proposed(me, p, q, k), [Signed(me, Line(p, k + 1), Locked(p, k), true)]);
  }

  lemma VoteStep(n: Network, me: PublicKey, p: nat, q: nat, k: nat) returns (n': Network)
    requires Reachable(Both(), n) && me in n.replicas && n.replicas[me] == Proposed(me, p, q, k) && k <= 2
    requires k > 0 ==> SignedByBoth(n.log, Line(q, k))
    ensures n' == Network(n.replicas[me := Voted(me, p, q, k)],
                          n.log + [Signed(me, Line(q, k + 1), Locked(p, k + 1), false)])
    ensures Reachable(Both(), n')
  {
    VoteRound(me, p, q, k);
    MayReceive(n.log, me, p, q, k);
    n' := Call(n, me, Proposed(me, p, q, k), Proposal(Line(q, k + 1), true), Voted(me, p, q, k),
               [Signed(me, Line(q, k + 1), Locked(p, k + 1), false)]);
  }

  lemma CertifyStep(n: Network, me: PublicKey, other: PublicKey, p: nat, q: nat, k: nat) returns (n': Network)
    requires Reachable(Both(), n) && me in n.replicas && n.replicas[me] == Voted(me, p, q, k) && k <= 2
    requires me != other && other in {LEFT, RIGHT} && other in SignersOf(n.log, Line(p, k + 1))
    ensures n' == Network(n.replicas[me := After(p, q, k + 1)], n.log)
    ensures Reachable(Both(), n')
  {
    CertifyRound(me, other, p, q, k);
    n' := Call(n, me, Voted(me, p, q, k), VoteReceived(OwnVote(other, p, k + 1)), After(p, q, k + 1), []);
    assert n.log + [] == n.log;
  }

  lemma CommitStep(n: Network, me: PublicKey, p: nat, q: nat) returns (n': Network, t: Replica)
    requires Reachable(Both(), n) && me in n.replicas && n.replicas[me] == After(p, q, 3)
    ensures n'.replicas == n.replicas[me := t] && t.committed == [Line(p, 1)] && !t.halted
    ensures Reachable(Both(), n')
  {
    CommitRound(me, p, q);
    var s := After(p, q, 3);
    t := Handle(s, Beat(p), me, 2);
    n' := Call(n, me, s, Beat(p), t, NewSignature(me, s, Beat(p)));
  }

  lemma MajorityOfTwo()
    ensures |{LEFT, RIGHT}| == 2 && Both().Majority() == 2 && Both().Valid()
  {
    assert LEFT != RIGHT;
    assert {LEFT, RIGHT} == {LEFT} + {RIGHT};
    MajorityIsTwoThirds(2);
  }

  /** Both have signed the block. */
  ghost predicate SignedByBoth(log: seq<Signed>, b: Block)
  {
    LEFT in SignersOf(log, b) && RIGHT in SignersOf(log, b)
  }

  lemma SignersGrow(log: seq<Signed>, more: seq<Signed>, b: Block)
    requires log <= more
    ensures SignersOf(log, b) <= SignersOf(more, b)
  {
    assert forall k :: 0 <= k < |log| ==> more[k] == log[k];
  }

  lemma BothCertify(log: seq<Signed>, b: Block)
    requires SignedByBoth(log, b)
    ensures Certified(Both(), log, b)
  {
    MajorityOfTwo();
    SubsetCardinality({LEFT, RIGHT}, SignersOf(log, b) * {LEFT, RIGHT});
  }

  lemma LineCertified(log: seq<Signed>, p: nat, k: nat)
    requires k > 0 ==> SignedByBoth(log, Line(p, k))
    ensures Certified(Both(), log, Line(p, k))
  {
    if k > 0 {
      BothCertify(log, Line(p, k));
    }
  }

  /** After `k` rounds; the last blocks of both branches are certified. */
  ghost predicate RoundDone(n: Network, k: nat)
  {
    && n.replicas == Pair(After(1, 2, k), After(2, 1, k))
    && (k > 0 ==> SignedByBoth(n.log, Line(1, k)) && SignedByBoth(n.log, Line(2, k)))
  }

  /** A log with two more signatures. */
  lemma TwoMore(log: seq<Signed>, x: Signed, y: Signed)
    ensures x.signer in SignersOf(log + [x] + [y], x.block) && y.signer in SignersOf(log + [x] + [y], y.block)
    ensures log <= log + [x] + [y]
  {
    var more := log + [x] + [y];
    assert more[|log|] == x && more[|log| + 1] == y;
  }

  /** Both propose. */
  lemma BothPropose(n: Network, k: nat) returns (n': Network)
    requires Reachable(Both(), n) && RoundDone(n, k) && k <= 2
    ensures Reachable(Both(), n') && n'.replicas == Pair(Proposed(LEFT, 1, 2, k), Proposed(RIGHT, 2, 1, k))
    ensures LEFT in SignersOf(n'.log, Line(1, k + 1)) && RIGHT in SignersOf(n'.log, Line(2, k + 1)) && n.log <= n'.log
  {
    PairUpdate(After(1, 2, k), After(2, 1, k), Proposed(LEFT, 1, 2, k), Proposed(RIGHT, 2, 1, k));
    var n1 := ProposeStep(n, LEFT, 1, 2, k);
    n' := ProposeStep(n1, RIGHT, 2, 1, k);
    TwoMore(n.log, Signed(LEFT, Line(1, k + 1), Locked(1, k), true), Signed(RIGHT, Line(2, k + 1), Locked(2, k), true));
  }

  lemma MayReceive(log: seq<Signed>, me: PublicKey, p: nat, q: nat, k: nat)
    requires k > 0 ==> SignedByBoth(log, Line(q, k))
    ensures EventOk(Both(), log, Proposed(me, p, q, k), Proposal(Line(q, k + 1), true))
  {
    LineInTree(q, k + 1);
    LineStored(p, q, k, k);
    LineCertified(log, q, k);
  }

  /** Each votes for the block of the other. */
  lemma BothVote(n: Network, k: nat) returns (n': Network)
    requires Reachable(Both(), n) && n.replicas == Pair(Proposed(LEFT, 1, 2, k), Proposed(RIGHT, 2, 1, k)) && k <= 2
    requires LEFT in SignersOf(n.log, Line(1, k + 1)) && RIGHT in SignersOf(n.log, Line(2, k + 1))
    requires k > 0 ==> SignedByBoth(n.log, Line(1, k)) && SignedByBoth(n.log, Line(2, k))
    ensures Reachable(Both(), n') && n'.replicas == Pair(Voted(LEFT, 1, 2, k), Voted(RIGHT, 2, 1, k))
    ensures SignedByBoth(n'.log, Line(1, k + 1)) && SignedByBoth(n'.log, Line(2, k + 1))
  {
    PairUpdate(Proposed(LEFT, 1, 2, k), Proposed(RIGHT, 2, 1, k), Voted(LEFT, 1, 2, k), Voted(RIGHT, 2, 1, k));
    var n1 := VoteStep(n, LEFT, 1, 2, k);
    SignersGrow(n.log, n1.log, Line(1, k));
    n' := VoteStep(n1, RIGHT, 2, 1, k);
    TwoMore(n.log, Signed(LEFT, Line(2, k + 1), Locked(1, k + 1), false),
            Signed(RIGHT, Line(1, k + 1), Locked(2, k + 1), false));
    SignersGrow(n.log, n'.log, Line(1, k + 1));
    SignersGrow(n.log, n'.log, Line(2, k + 1));
  }

  /** Each receives the vote of the other and has a certificate. */
  lemma BothCertified(n: Network, k: nat) returns (n': Network)
    requires Reachable(Both(), n) && n.replicas == Pair(Voted(LEFT, 1, 2, k), Voted(RIGHT, 2, 1, k)) && k <= 2
    requires SignedByBoth(n.log, Line(1, k + 1)) && SignedByBoth(n.log, Line(2, k + 1))
    ensures Reachable(Both(), n') && RoundDone(n', k + 1)
  {
    PairUpdate(Voted(LEFT, 1, 2, k), Voted(RIGHT, 2, 1, k), After(1, 2, k + 1), After(2, 1, k + 1));
    var n1 := CertifyStep(n, LEFT, RIGHT, 1, 2, k);
    n' := CertifyStep(n1, RIGHT, LEFT, 2, 1, k);
  }

  lemma {:induction false} Rounds(k: nat) returns (n: Network)
    requires k <= 3
    ensures Reachable(Both(), n) && RoundDone(n, k)
  {
    if k == 0 {
      n := Network(Pair(After(1, 2, 0), After(2, 1, 0)), []);
      var steps: seq<Step> := [];
      assert IsFreeRun(Both(), [n], steps) && [n][|steps|] == n;
    } else {
      n := Rounds(k - 1);
      var before := n.log;
      n := BothPropose(n, k - 1);
      SignersGrow(before, n.log, Line(1, k - 1));
      SignersGrow(before, n.log, Line(2, k - 1));
      n := BothVote(n, k - 1);
      n := BothCertified(n, k - 1);
    }
  }

  lemma Apart(l: seq<Block>, r: seq<Block>)
    requires l == [Line(1, 1)] && r == [Line(2, 1)]
    ensures !(l <= r) && !(r <= l)
  {
    assert l[0].payload != r[0].payload;
  }

  /**
   Without the premise agreement fails, with no faulty validator at all: in some run of the code two
   correct validators, neither of which has stopped, have committed different first blocks.
   */
  lemma AgreementNeedsPremise() returns (c: Config, run: seq<Network>, steps: seq<Step>)
    ensures c.Valid() && c.faulty == {} && IsFreeRun(c, run, steps)
    ensures c.Correct(LEFT) && c.Correct(RIGHT)
    ensures LEFT in run[|steps|].replicas && RIGHT in run[|steps|].replicas
    ensures var s1, s2 := run[|steps|].replicas[LEFT], run[|steps|].replicas[RIGHT];
      && !s1.halted && !s2.halted
      && !(s1.committed <= s2.committed) && !(s2.committed <= s1.committed)
  {
    MajorityOfTwo();
    c := Both();
    var n := Rounds(3);
    var n1, t1 := CommitStep(n, LEFT, 1, 2);
    var n2, t2 := CommitStep(n1, RIGHT, 2, 1);
    run, steps :| IsFreeRun(c, run, steps) && run[|steps|] == n2;
    Apart(t1.committed, t2.committed);
  }
}
