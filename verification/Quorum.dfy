/**
 Quorum certificates: core/validator_store.go, core/crypto.go, core/quorum_cert.go.

 A signature is abstract: it names the key that produced it and the message it was made over,
 and verifies exactly that message.  Block hashes are values of a type `M`.
 */
module Quorum {
  import opened Options
  import opened FiniteSets

  type PublicKey = string

  /** A signature over the block hash `message`; `None` is a signature over the empty message. */
  datatype Signature<M> = Signature(pubKey: PublicKey, message: Option<M>)

  predicate Verify<M(==)>(sig: Signature<M>, msg: Option<M>)
  {
    sig.message == msg
  }

  datatype Vote<M> = Vote(blockHash: Option<M>, signature: Signature<M>) {
    function Voter(): PublicKey { signature.pubKey }
  }

  datatype QuorumCert<M> = QuorumCert(blockHash: Option<M>, sigs: seq<Signature<M>>)

  datatype Error = NilQC | NotEnoughSig | DuplicateSig | InvalidValidator | InvalidSig

  datatype ValidatorStore = ValidatorStore(validators: seq<PublicKey>, vMap: map<PublicKey, nat>, majority: int) {
    predicate IsValidator(key: PublicKey) { key in vMap }

    /** The index the source returns; an unknown key gives Go's zero value. */
    function GetValidatorIndex(key: PublicKey): nat { if key in vMap then vMap[key] else 0 }

    /** What NewValidatorStore establishes. */
    ghost predicate Valid() {
      && vMap.Keys == (set v | v in validators)
      && majority == MajorityCount(|validators|)
    }
  }

  function Ceil(x: real): int
  {
    if x.Floor as real == x then x.Floor else x.Floor + 1
  }

  /** core/validator_store.go:71-74, with the floating point division taken as exact. */
  function MajorityCount(validatorCount: nat): int
  {
    Ceil((2 * validatorCount + 1) as real / 3.0)
  }

  /** The most validators that may be faulty: consensus/state.go:168-170. */
  function FaultyCount(validatorCount: nat): int
  {
    validatorCount - MajorityCount(validatorCount)
  }

  lemma CeilOfThirds(k: nat)
    ensures 3 * Ceil(k as real / 3.0) - 2 <= k <= 3 * Ceil(k as real / 3.0)
  {
    var x := k as real / 3.0;
    assert x.Floor as real <= x < x.Floor as real + 1.0;
    assert 3.0 * x == k as real;
    if x.Floor as real == x {
      assert (3 * x.Floor) as real == k as real;
    } else {
      assert (3 * x.Floor) as real < k as real < (3 * x.Floor + 3) as real;
    }
  }

  /** n = 3f + 1 gives m = n - f, and twice a majority exceeds n by more than the faults allowed. */
  lemma MajorityIsTwoThirds(n: nat)
    requires n >= 1
    ensures MajorityCount(n) == n - (n - 1) / 3
    ensures 1 <= MajorityCount(n) <= n
    ensures 2 * MajorityCount(n) - n > FaultyCount(n) == (n - 1) / 3
  {
    CeilOfThirds(2 * n + 1);
  }

  /** core/validator_store.go:28-38 */
  method NewValidatorStore(validators: seq<PublicKey>) returns (store: ValidatorStore)
    ensures store.Valid() && store.validators == validators
    ensures forall key :: store.IsValidator(key) <==> key in validators
    ensures forall i :: 0 <= i < |validators| && validators[i] !in validators[i + 1..] ==>
      store.GetValidatorIndex(validators[i]) == i
  {
    var vMap: map<PublicKey, nat> := map[];
    for i := 0 to |validators|
      invariant vMap.Keys == (set v | v in validators[..i])
      invariant forall j :: 0 <= j < i && validators[j] !in validators[j + 1..i] ==> vMap[validators[j]] == j
    {
      ghost var before := vMap;
      vMap := vMap[validators[i] := i];
      assert validators[..i + 1] == validators[..i] + [validators[i]];
      forall j | 0 <= j < i + 1 && validators[j] !in validators[j + 1..i + 1]
        ensures vMap[validators[j]] == j
      {
        if j < i {
          assert validators[j + 1..i + 1] == validators[j + 1..i] + [validators[i]];
        }
      }
    }
    assert validators[..|validators|] == validators;
    forall i | 0 <= i < |validators| && validators[i] !in validators[i + 1..]
      ensures vMap[validators[i]] == i
    {
      assert validators[i + 1..|validators|] == validators[i + 1..];
    }
    store := ValidatorStore(validators, vMap, MajorityCount(|validators|));
  }

  ghost function Signers<M>(sigs: seq<Signature<M>>): set<PublicKey>
  {
    set sig | sig in sigs :: sig.pubKey
  }

  ghost predicate Distinct<M>(sigs: seq<Signature<M>>)
  {
    forall i, j :: 0 <= i < j < |sigs| ==> sigs[i].pubKey != sigs[j].pubKey
  }

  /** What a certificate must show to be accepted. */
  ghost predicate Accepted<M>(qc: QuorumCert<M>, vs: ValidatorStore)
  {
    && |qc.sigs| >= vs.majority
    && Distinct(qc.sigs)
    && (forall sig :: sig in qc.sigs ==> vs.IsValidator(sig.pubKey))
    && (forall sig :: sig in qc.sigs ==> Verify(sig, qc.blockHash))
  }

  /** core/crypto.go:144-154 */
  method HasDuplicate<M>(sigs: seq<Signature<M>>) returns (found: bool)
    ensures found <==> !Distinct(sigs)
  {
    var seen: set<PublicKey> := {};
    for i := 0 to |sigs|
      invariant seen == Signers(sigs[..i])
      invariant Distinct(sigs[..i])
    {
      if sigs[i].pubKey in seen {
        return true;
      }
      assert sigs[..i + 1] == sigs[..i] + [sigs[i]];
      forall j | 0 <= j < i
        ensures sigs[j].pubKey != sigs[i].pubKey
      {
        assert sigs[..i][j] in sigs[..i];
      }
      seen := seen + {sigs[i].pubKey};
    }
    assert sigs[..|sigs|] == sigs;
    return false;
  }

  /** core/crypto.go:156-163 */
  method HasInvalidValidator<M>(sigs: seq<Signature<M>>, vs: ValidatorStore) returns (found: bool)
    ensures found <==> exists sig :: sig in sigs && !vs.IsValidator(sig.pubKey)
  {
    for i := 0 to |sigs|
      invariant forall j :: 0 <= j < i ==> vs.IsValidator(sigs[j].pubKey)
    {
      if !vs.IsValidator(sigs[i].pubKey) {
        assert sigs[i] in sigs;
        return true;
      }
    }
    return false;
  }

  /** core/crypto.go:165-172 */
  method HasInvalidSig<M(==)>(sigs: seq<Signature<M>>, msg: Option<M>) returns (found: bool)
    ensures found <==> exists sig :: sig in sigs && !Verify(sig, msg)
  {
    for i := 0 to |sigs|
      invariant forall j :: 0 <= j < i ==> Verify(sigs[j], msg)
    {
      if !Verify(sigs[i], msg) {
        assert sigs[i] in sigs;
        return true;
      }
    }
    return false;
  }

  /** core/quorum_cert.go:36-53: no error exactly for an accepted certificate, and otherwise the first failed check. */
  method Validate<M(==)>(qc: Option<QuorumCert<M>>, vs: ValidatorStore) returns (err: Option<Error>)
    ensures err.None? <==> qc.Some? && Accepted(qc.value, vs)
    ensures err == Some(NilQC) <==> qc.None?
    ensures err == Some(NotEnoughSig) <==> qc.Some? && |qc.value.sigs| < vs.majority
    ensures err == Some(DuplicateSig) <==> qc.Some? && |qc.value.sigs| >= vs.majority && !Distinct(qc.value.sigs)
    ensures err == Some(InvalidValidator) <==>
      && qc.Some? && |qc.value.sigs| >= vs.majority && Distinct(qc.value.sigs)
      && exists sig :: sig in qc.value.sigs && !vs.IsValidator(sig.pubKey)
    ensures err == Some(InvalidSig) <==>
      && qc.Some? && |qc.value.sigs| >= vs.majority && Distinct(qc.value.sigs)
      && (forall sig :: sig in qc.value.sigs ==> vs.IsValidator(sig.pubKey))
      && exists sig :: sig in qc.value.sigs && sig.message != qc.value.blockHash
  {
    if qc.None? {
      return Some(NilQC);
    }
    if |qc.value.sigs| < vs.majority {
      return Some(NotEnoughSig);
    }
    var dup := HasDuplicate(qc.value.sigs);
    if dup {
      return Some(DuplicateSig);
    }
    var invalid := HasInvalidValidator(qc.value.sigs, vs);
    if invalid {
      return Some(InvalidValidator);
    }
    var bad := HasInvalidSig(qc.value.sigs, qc.value.blockHash);
    if bad {
      return Some(InvalidSig);
    }
    return None;
  }

  /** What a vote must show to be accepted. */
  predicate VoteAccepted<M(==)>(v: Vote<M>, vs: ValidatorStore)
  {
    vs.IsValidator(v.Voter()) && Verify(v.signature, v.blockHash)
  }

  /** core/vote.go:31-46, for a vote with a signature: decoding already refused one without. */
  method ValidateVote<M(==)>(v: Vote<M>, vs: ValidatorStore) returns (err: Option<Error>)
    ensures err.None? <==> VoteAccepted(v, vs)
    ensures err == Some(InvalidValidator) <==> !vs.IsValidator(v.Voter())
    ensures err == Some(InvalidSig) <==> vs.IsValidator(v.Voter()) && v.signature.message != v.blockHash
  {
    if !vs.IsValidator(v.Voter()) {
      return Some(InvalidValidator);
    }
    if !Verify(v.signature, v.blockHash) {
      return Some(InvalidSig);
    }
    return None;
  }

  /** core/quorum_cert.go:65-79: the first block hash among the votes, and every vote's signature in order. */
  method Build<M(==)>(votes: seq<Vote<M>>) returns (qc: QuorumCert<M>)
    ensures |qc.sigs| == |votes|
    ensures forall i :: 0 <= i < |votes| ==> qc.sigs[i] == votes[i].signature
    ensures qc.blockHash.None? ==> forall i :: 0 <= i < |votes| ==> votes[i].blockHash.None?
    ensures qc.blockHash.Some? ==> exists i ::
      0 <= i < |votes| && votes[i].blockHash == qc.blockHash && forall j :: 0 <= j < i ==> votes[j].blockHash.None?
  {
    var blockHash: Option<M> := None;
    var sigs: seq<Signature<M>> := [];
    for i := 0 to |votes|
      invariant |sigs| == i
      invariant forall j :: 0 <= j < i ==> sigs[j] == votes[j].signature
      invariant blockHash.None? ==> forall j :: 0 <= j < i ==> votes[j].blockHash.None?
      invariant blockHash.Some? ==> exists k ::
        0 <= k < i && votes[k].blockHash == blockHash && forall j :: 0 <= j < k ==> votes[j].blockHash.None?
    {
      if blockHash.None? {
        blockHash := votes[i].blockHash;
      }
      sigs := sigs + [votes[i].signature];
    }
    qc := QuorumCert(blockHash, sigs);
  }

  lemma {:induction false} DistinctCount<M>(sigs: seq<Signature<M>>)
    requires Distinct(sigs)
    ensures |Signers(sigs)| == |sigs|
  {
    if sigs != [] {
      var k := |sigs| - 1;
      DistinctCount(sigs[..k]);
      assert sigs == sigs[..k] + [sigs[k]];
      assert Signers(sigs) == Signers(sigs[..k]) + {sigs[k].pubKey};
    }
  }

  lemma {:induction false} ValidatorCountBound(keys: seq<PublicKey>)
    ensures |set v | v in keys| <= |keys|
  {
    if keys != [] {
      var k := |keys| - 1;
      ValidatorCountBound(keys[..k]);
      assert keys == keys[..k] + [keys[k]];
      assert (set v | v in keys) == (set v | v in keys[..k]) + {keys[k]};
    }
  }

  /** Two majorities of one validator set share a validator outside any set of tolerated faults. */
  lemma MajoritiesShareCorrect<T>(all: set<T>, faulty: set<T>, a: set<T>, b: set<T>)
    returns (v: T)
    requires |all| >= 1
    requires faulty <= all && |faulty| <= FaultyCount(|all|)
    requires a <= all && |a| >= MajorityCount(|all|)
    requires b <= all && |b| >= MajorityCount(|all|)
    ensures v in a && v in b && v !in faulty
  {
    MajorityIsTwoThirds(|all|);
    IntersectionSize(a, b, all);
    if a * b <= faulty {
      SubsetCardinality(a * b, faulty);
      assert false;
    }
    v :| v in a * b && v !in faulty;
  }

  /**
   Any two accepted certificates share at least one more validator than may be faulty, even when
   the validator list itself repeats keys.
   */
  lemma AcceptedCertsIntersect<M>(vs: ValidatorStore, qc1: QuorumCert<M>, qc2: QuorumCert<M>)
    requires vs.Valid() && |vs.validators| >= 1
    requires Accepted(qc1, vs) && Accepted(qc2, vs)
    ensures |Signers(qc1.sigs) * Signers(qc2.sigs)| > FaultyCount(|vs.validators|)
  {
    DistinctCount(qc1.sigs);
    DistinctCount(qc2.sigs);
    ValidatorCountBound(vs.validators);
    MajorityIsTwoThirds(|vs.validators|);
    IntersectionSize(Signers(qc1.sigs), Signers(qc2.sigs), vs.vMap.Keys);
  }
}
