/** Precommits for nil that carry extensions: the vote set lets them in, and never decides on them
    (types/vote_set.go, types/signs_recoverer.go). `Vote.ValidateBasic` is what keeps them out. */
module NilVotes {
  import opened Prelude
  import opened BlockIDs
  import opened Signing
  import opened Sorting
  import opened Validators
  import opened Recovery
  import opened VoteSetModel
  import opened VoteSetInvariant
  import opened VoteSetRuns
  import opened VoteSetDecisions
  import opened ThresholdRecovery
  import opened VoteSetAgreement
  import opened CommitPipeline
  import opened CommitLiveness

  /** If the vote is for nil, it carries extensions. */
  predicate Laden(v: Vote) {
    v.blockID.IsNil() ==> v.exts != []
  }

  ghost predicate LadenBucket(b: Bucket) {
    forall i :: 0 <= i < |b.votes| && b.votes[i].Some? ==> Laden(b.votes[i].value)
  }

  ghost predicate LadenState(s: State) {
    forall k :: k in s.buckets ==> LadenBucket(s.buckets[k])
  }

  ghost predicate LadenCall(c: Call) {
    c.VoteCall? && c.vote.Some? ==> Laden(c.vote.value)
  }

  predicate NotNil(maj23: Option<BlockID>) {
    maj23.Some? ==> !maj23.value.IsNil()
  }

  /** Whichever group is canonical, its representative spoils recovery. */
  lemma LadenFails(cfg: Config, b: Bucket, id: BlockID)
    requires cfg.Size() >= 2 && BucketOk(cfg, id.Key(), b) && ProperBucket(b) && LadenBucket(b) && id.IsNil()
    ensures RecoverAndVerify(cfg, b, id) == NotRecovered
  {
    hide VerifyVote;
    hide GroupOk;
    hide CollectShares;
    hide RecoverSigns;
    hide CheckRecovered;
    hide CanonicalGroup;
    CanonicalGroupExact(b.groups, cfg.vals.RecoveryPower());
    var canonical := CanonicalGroup(b.groups, cfg.vals.RecoveryPower());
    if canonical.Some? {
      hide RecoverAndVerify;
      var identity := canonical.value;
      var k := RepresentativeIndex(cfg, id.Key(), b, identity);
      SlotVote(cfg, b, id, k);
      RepresentativeVotes(cfg, id.Key(), b, identity, k);
      SpoiledShares(b.votes, b.groups[identity].voters, k);
      RecoveryOutcome(cfg, b, id, identity);
    }
  }

  lemma FinalizeLaden(cfg: Config, f: State, v: Vote)
    requires cfg.typ == Precommit && cfg.Size() >= 2 && Shaped(cfg.Size(), f) && f.maj23.None? && v.blockID.Proper()
    requires var key := v.blockID.Key();
             && key in f.buckets && BucketOk(cfg, key, f.buckets[key])
             && ProperBucket(f.buckets[key]) && LadenBucket(f.buckets[key])
    ensures NotNil(Finalize(cfg, f, v).0.maj23)
  {
    hide RecoverAndVerify;
    hide BucketOk;
    if v.blockID.IsNil() {
      LadenFails(cfg, f.buckets[v.blockID.Key()], v.blockID);
    }
  }

  lemma FiledLaden(cfg: Config, s: State, v: Vote, identity: Bytes)
    requires Shaped(cfg.Size(), s) && 0 <= v.index < cfg.Size() && LadenState(s) && Laden(v)
    ensures LadenState(Filed(cfg, s, v, identity))
  {
  }

  lemma AddVerifiedLaden(cfg: Config, s: State, v: Vote, identity: Bytes)
    requires cfg.typ == Precommit && cfg.Size() >= 2 && cfg.vals.WellFormed() && Valid(cfg, s)
    requires ProperState(s) && v.blockID.Proper() && LadenState(s) && Laden(v) && NotNil(s.maj23)
    requires Recorded(cfg, v, v.index) && GroupOf(cfg, v) == Some(identity) && Unknown(cfg.Size(), s, v)
    ensures var s' := AddVerified(cfg, s, v, identity, cfg.vals.validators[v.index].power).state;
            LadenState(s') && NotNil(s'.maj23)
  {
    AddVerifiedStages(cfg, s, v, identity);
    hide AddVerified;
    hide Finalize;
    hide Filed;
    hide BucketAdd;
    hide BucketOk;
    hide Recorded;
    AddVerifiedBuckets(cfg, s, v, identity);
    FiledLaden(cfg, s, v, identity);
    if Kept(s, v) {
      FiledBucket(cfg, s, v, identity);
      FiledProper(cfg, s, v, identity);
      FiledKeepsMajority(cfg, s, v, identity);
      if s.maj23.None? {
        FinalizeLaden(cfg, Filed(cfg, s, v, identity), v);
      }
    }
  }

  lemma ApplyLaden(cfg: Config, s: State, c: Call)
    requires cfg.typ == Precommit && cfg.Size() >= 2 && cfg.vals.WellFormed() && HonestCall(cfg, c) && Valid(cfg, s)
    requires Shaped(cfg.Size(), s) && ProperState(s) && ProperCall(c)
    requires LadenState(s) && LadenCall(c) && NotNil(s.maj23)
    ensures LadenState(Apply(cfg, s, c)) && NotNil(Apply(cfg, s, c).maj23)
  {
    hide AddVote;
    hide AddVerified;
    hide Valid;
    hide ProperState;
    hide LadenState;
    hide Recorded;
    hide BlockID.Key;
    hide SetPeerMaj23;
    match c
    case VoteCall(vote, check) =>
      AddVoteCases(cfg, s, vote, check);
      if Admits(cfg, s, vote, check) {
        AddVerifiedLaden(cfg, s, vote.value, GroupOf(cfg, vote.value).value);
      }
    case ClaimCall(peer, id, height, round) =>
      ClaimLaden(cfg, s, peer, id, height, round);
  }

  lemma ClaimLaden(cfg: Config, s: State, peer: string, id: BlockID, height: int, round: int)
    requires LadenState(s)
    ensures var s' := SetPeerMaj23(cfg, s, peer, id, height, round).0; LadenState(s') && s'.maj23 == s.maj23
  {
    hide BlockID.Key;
  }

  lemma InitialLaden(cfg: Config)
    ensures LadenState(Initial(cfg)) && NotNil(Initial(cfg).maj23)
  {
  }

  /** Among several validators no run in which every precommit for nil carries extensions decides on nil, however
      many there are and whatever else is voted for. */
  lemma {:induction false} NilNeverDecided(cfg: Config, calls: seq<Call>)
    requires cfg.typ == Precommit && cfg.Size() >= 2 && HonestRun(cfg, calls)
    requires forall i :: 0 <= i < |calls| ==> ProperCall(calls[i]) && LadenCall(calls[i])
    ensures LadenState(Run(cfg, calls)) && NotNil(Run(cfg, calls).maj23)
  {
    hide Apply;
    hide Valid;
    hide Run;
    hide LadenState;
    hide LadenCall;
    hide ProperState;
    hide ProperCall;
    hide Initial;
    RunStep(cfg, calls);
    if calls == [] {
      InitialLaden(cfg);
    } else {
      var n := |calls| - 1;
      NilNeverDecided(cfg, calls[..n]);
      RunProper(cfg, calls[..n]);
      ApplyLaden(cfg, Run(cfg, calls[..n]), calls[n]);
    }
  }

  // ---------------------------------------------------------------- such votes get in

  const NIL := BlockID([], PartSetHeader(0, []), [])

  function LadenExt(cfg: Config, data: Bytes): Ext {
    var e := Ext(ThresholdRecover, data, [], None);
    e.(signature := Tripled(ExtSignItem(cfg.p, cfg.Context(), cfg.height, cfg.round, e).value.signHash))
  }

  /** A precommit for nil with one extension. */
  function LadenVote(cfg: Config, data: Bytes, i: nat): Vote
    requires i < cfg.Size()
  {
    PlainVote(cfg, NIL, i).(exts := [LadenExt(cfg, data)])
  }

  function LadenIdentity(cfg: Config, data: Bytes): Bytes {
    var e := LadenExt(cfg, data);
    EncodeIdentity([e], [ExtSignItem(cfg.p, cfg.Context(), cfg.height, cfg.round, e).value])
  }

  /** The vote set takes it in; `Vote.ValidateBasic` would not. */
  lemma LadenVoteRecorded(cfg: Config, p: Primitives, data: Bytes, i: nat)
    requires cfg.typ == Precommit && cfg.p == PlainScheme(p) && i < cfg.Size()
    requires var key := cfg.vals.validators[i].pubKey; key.Some? && |key.value.bytes| == PUB_KEY_SIZE
    ensures var v := LadenVote(cfg, data, i);
            && Recorded(cfg, v, i) && GroupOf(cfg, v) == Some(LadenIdentity(cfg, data))
            && Laden(v) && !Validated(v)
  {
    var v, e := LadenVote(cfg, data, i), LadenExt(cfg, data);
    var item := ExtSignItem(cfg.p, cfg.Context(), cfg.height, cfg.round, e).value;
    assert v.exts[1..] == [];
    assert Recoverables(v.exts) == [e];
    assert SignItems(cfg.p, cfg.Context(), cfg.height, cfg.round, []) == Some([]);
    assert [e][1..] == [] && [item] + [] == [item];
    assert SignItems(cfg.p, cfg.Context(), cfg.height, cfg.round, [e]) == Some([item]);
    var signData := VoteSignData(cfg.p, cfg.Context(), v).value;
    assert VerifySignature(cfg.p, cfg.vals.validators[i].pubKey.value, signData.block, v.blockSign);
    assert VerifySignature(cfg.p, cfg.vals.validators[i].pubKey.value, signData.exts[0], e.signature);
    VerifyQuorumMeaning(cfg.p, cfg.vals.validators[i].pubKey.value, signData, VoteSigns(v), None);
  }

  /** In every quorum in working order there is a run that leaves the block nil ready and undecided. */
  lemma ReadyNotDecided(cfg: Config, p: Primitives, data: Bytes) returns (vs: seq<Vote>)
    requires InOrder(cfg) && cfg.p == PlainScheme(p)
    ensures ThresholdScheme(cfg) && HonestRun(cfg, Calls(vs))
    ensures forall i :: 0 <= i < |vs| ==> ProperCall(Calls(vs)[i]) && !ValidatedCall(Calls(vs)[i])
    ensures var s := Run(cfg, Calls(vs));
            NIL.Key() in s.buckets && Ready(cfg, s.buckets[NIL.Key()]) && s.maj23.None?
  {
    hide Recorded;
    hide GroupOf;
    hide Run;
    hide Valid;
    hide Ready;
    hide ThresholdScheme;
    hide PlainScheme;
    hide LadenIdentity;
    hide BlockID.Key;
    hide BucketOk;
    vs := seq(cfg.Size(), i requires 0 <= i < cfg.Size() => LadenVote(cfg, data, i));
    SchemeExists(cfg, p);
    forall i | 0 <= i < |vs|
      ensures Recorded(cfg, vs[i], vs[i].index) && GroupOf(cfg, vs[i]) == Some(LadenIdentity(cfg, data))
      ensures Laden(vs[i]) && !Validated(vs[i]) && vs[i].blockID == NIL && vs[i].index == i && vs[i].proTxHash != []
    {
      LadenVoteRecorded(cfg, p, data, i);
    }
    hide LadenVote;
    OneVoteEachPrefix(cfg, vs);
    DeliveredHolds(cfg, vs);
    var s := Run(cfg, Calls(vs));
    NilNeverDecided(cfg, Calls(vs));
    LadenSlots(cfg, s, data, vs);
  }

  lemma LadenSlots(cfg: Config, s: State, data: Bytes, vs: seq<Vote>)
    requires InOrder(cfg) && Valid(cfg, s) && HoldsFiled(cfg.Size(), s, vs) && |vs| == cfg.Size()
    requires forall i :: 0 <= i < |vs| ==>
               vs[i].index == i && vs[i].blockID == NIL && GroupOf(cfg, vs[i]) == Some(LadenIdentity(cfg, data))
    ensures NIL.Key() in s.buckets && Ready(cfg, s.buckets[NIL.Key()])
  {
    hide GroupOf;
    hide Ready;
    hide BucketOk;
    hide LadenIdentity;
    hide BlockID.Key;
    assert vs[0] in vs;
    forall i | 0 <= i < |vs|
      ensures s.buckets[NIL.Key()].votes[vs[i].index] == Some(vs[i])
    {
      assert vs[i] in vs;
    }
    assert Distinct(Indexes(vs));
    SlotsReady(cfg, NIL.Key(), s.buckets[NIL.Key()], LadenIdentity(cfg, data), vs);
  }
}
