/** Threshold-many matching precommits lead to a commit that is accepted, and the assumptions behind this can be
    met by any quorum (types/vote_set.go, types/signs_recoverer.go, types/validator_set.go). */
module CommitLiveness {
  import opened Prelude
  import opened BlockIDs
  import opened Signing
  import opened Sorting
  import opened Validators
  import opened Commits
  import opened Evidence
  import opened Recovery
  import opened VoteSetModel
  import opened VoteSetInvariant
  import opened VoteSetRuns
  import opened VoteSetDecisions
  import opened ThresholdRecovery
  import opened VoteSetAgreement
  import opened CommitPipeline

  /** Different flagged positions of equal weight. */
  lemma {:induction false} FlaggedAtLeast(w: seq<int>, f: seq<bool>, at: seq<nat>)
    requires |w| == |f| && Distinct(at) && forall i :: 0 <= i < |w| ==> w[i] == DASH_VOTING_POWER
    requires forall i :: 0 <= i < |at| ==> at[i] < |f| && f[at[i]]
    ensures Weight(w, f) >= |at| * DASH_VOTING_POWER
    decreases |at|
  {
    if at == [] {
      WeightMonotone(w, f, f);
    } else {
      var n := |at| - 1;
      var rest := f[at[n] := false];
      FlaggedAtLeast(w, rest, at[..n]);
      WeightSetFlag(w, rest, at[n]);
      assert rest[at[n] := true] == f;
    }
  }

  /** Precommits of different validators for one block and one ordered vector of extensions. */
  ghost predicate Matching(cfg: Config, id: BlockID, identity: Bytes, vs: seq<Vote>) {
    && Distinct(Indexes(vs))
    && forall i :: 0 <= i < |vs| ==>
         Recorded(cfg, vs[i], vs[i].index) && Validated(vs[i]) && vs[i].blockID == id &&
           GroupOf(cfg, vs[i]) == Some(identity)
  }

  function Indexes(vs: seq<Vote>): (r: seq<int>)
    ensures |r| == |vs|
  {
    seq(|vs|, i requires 0 <= i < |vs| => vs[i].index)
  }

  /** Enough power to decide and, for the precommits of several validators, to recover. */
  predicate Enough(cfg: Config, vs: seq<Vote>) {
    && |vs| * DASH_VOTING_POWER >= cfg.vals.QuorumPower()
    && (cfg.typ == Precommit && cfg.Size() >= 2 ==> |vs| * DASH_VOTING_POWER >= cfg.vals.RecoveryPower())
  }

  lemma FiledSlots(cfg: Config, s: State, id: BlockID, identity: Bytes, vs: seq<Vote>)
    requires Shaped(cfg.Size(), s) && HoldsFiled(cfg.Size(), s, vs) && Matching(cfg, id, identity, vs) && vs != []
    ensures id.Key() in s.buckets
    ensures forall i :: 0 <= i < |vs| ==>
              && 0 <= vs[i].index < cfg.Size() && s.buckets[id.Key()].votes[vs[i].index] == Some(vs[i])
  {
    hide Recorded;
    hide GroupOf;
    hide BlockID.Key;
    assert vs[0].blockID == id;
    assert forall i :: 0 <= i < |vs| ==> vs[i] in vs && vs[i].blockID == id;
  }

  ghost predicate SlotsHold(cfg: Config, b: Bucket, identity: Bytes, vs: seq<Vote>) {
    |b.votes| == cfg.Size() && forall i :: 0 <= i < |vs| ==>
      0 <= vs[i].index < cfg.Size() && b.votes[vs[i].index] == Some(vs[i]) && GroupOf(cfg, vs[i]) == Some(identity)
  }

  lemma SlotsPower(cfg: Config, b: Bucket, identity: Bytes, vs: seq<Vote>)
    requires cfg.vals.WellFormed() && SlotsHold(cfg, b, identity, vs) && Distinct(Indexes(vs))
    ensures Weight(cfg.vals.Powers(), Filled(b.votes)) >= |vs| * DASH_VOTING_POWER
    ensures Weight(cfg.vals.Powers(), InGroup(cfg, b.votes, identity)) >= |vs| * DASH_VOTING_POWER
  {
    hide GroupOf;
    var at: seq<nat> := seq(|vs|, i requires 0 <= i < |vs| => vs[i].index);
    assert at == Indexes(vs);
    FlaggedAtLeast(cfg.vals.Powers(), Filled(b.votes), at);
    FlaggedAtLeast(cfg.vals.Powers(), InGroup(cfg, b.votes, identity), at);
  }

  lemma SlotsReady(cfg: Config, key: Bytes, b: Bucket, identity: Bytes, vs: seq<Vote>)
    requires cfg.vals.WellFormed() && BucketOk(cfg, key, b) && Enough(cfg, vs) && Distinct(Indexes(vs))
    requires SlotsHold(cfg, b, identity, vs)
    ensures Ready(cfg, b)
  {
    hide Recorded;
    hide GroupOf;
    hide InGroup;
    hide Members;
    hide BlockID.Key;
    SlotsPower(cfg, b, identity, vs);
    assert b.votes[vs[0].index] == Some(vs[0]);
    assert GroupOk(cfg, b.votes, identity, b.groups[identity]);
  }

  lemma MatchingReady(cfg: Config, s: State, id: BlockID, identity: Bytes, vs: seq<Vote>)
    requires cfg.vals.WellFormed() && Valid(cfg, s) && HoldsFiled(cfg.Size(), s, vs)
    requires Matching(cfg, id, identity, vs) && Enough(cfg, vs)
    ensures id.Key() in s.buckets && Ready(cfg, s.buckets[id.Key()])
  {
    hide BucketOk;
    hide Ready;
    FiledSlots(cfg, s, id, identity, vs);
    SlotsReady(cfg, id.Key(), s.buckets[id.Key()], identity, vs);
  }

  lemma MatchingOneEach(cfg: Config, id: BlockID, identity: Bytes, vs: seq<Vote>)
    requires Matching(cfg, id, identity, vs)
    ensures OneVoteEach(cfg, vs) && forall i :: 0 <= i < |vs| ==>
      ValidatedCall(Calls(vs)[i]) && ProperCall(Calls(vs)[i])
  {
    hide VerifyVote;
    hide GroupOf;
    forall i, j | 0 <= i < |vs| && 0 <= j < |vs| && vs[i].index == vs[j].index
      ensures i == j
    {
      assert Indexes(vs)[i] == Indexes(vs)[j];
    }
  }

  /** Threshold-many matching precommits, in any order, decide on their block, and the commit made from them is
      accepted. */
  lemma MatchingVotesCommit(cfg: Config, id: BlockID, identity: Bytes, vs: seq<Vote>)
    requires cfg.typ == Precommit && cfg.vals.WellFormed() && ThresholdKeyOk(cfg) && Recoverable(cfg)
    requires Matching(cfg, id, identity, vs) && Enough(cfg, vs)
    ensures HonestRun(cfg, Calls(vs))
    ensures var s := Run(cfg, Calls(vs));
            && s.maj23 == Some(id)
            && MakeCommit(cfg, s).Ok?
            && VerifyCommit(cfg.p, cfg.vals, cfg.chainID, id, cfg.height, MakeCommit(cfg, s).value, None).Ok?
  {
    hide Run;
    hide Valid;
    hide MakeCommit;
    hide VerifyCommit;
    hide Ready;
    hide Recoverable;
    hide OneVoteEach;
    hide ValidatedCall;
    hide ProperCall;
    MatchingOneEach(cfg, id, identity, vs);
    OneVoteEachPrefix(cfg, vs);
    DeliveredHolds(cfg, vs);
    var s := Run(cfg, Calls(vs));
    MatchingReady(cfg, s, id, identity, vs);
    MajorityIffReady(cfg, Calls(vs));
    var v :| v in vs && v.blockID == s.maj23.value;
    CommitAccepted(cfg, Calls(vs));
  }

  // ---------------------------------------------------------------- and fewer do not

  /** Flags at these positions only. */
  lemma {:induction false} FlaggedAtMost(w: seq<int>, f: seq<bool>, at: seq<nat>)
    requires |w| == |f| && forall i :: 0 <= i < |w| ==> w[i] == DASH_VOTING_POWER
    requires forall i :: 0 <= i < |f| && f[i] ==> i in at
    ensures Weight(w, f) <= |at| * DASH_VOTING_POWER
    decreases |at|
  {
    if at == [] {
      WeightNoFlag(w, f);
    } else {
      var n := |at| - 1;
      var rest := if at[n] < |f| then f[at[n] := false] else f;
      FlaggedAtMost(w, rest, at[..n]);
      if at[n] < |f| && f[at[n]] {
        WeightSetFlag(w, rest, at[n]);
        assert rest[at[n] := true] == f;
      } else {
        assert rest == f;
      }
    }
  }

  lemma ReadyEnough(cfg: Config, key: Bytes, b: Bucket, vs: seq<Vote>)
    requires cfg.vals.WellFormed() && BucketOk(cfg, key, b) && Ready(cfg, b)
    requires forall i :: 0 <= i < cfg.Size() && b.votes[i].Some? ==>
               b.votes[i].value in vs && b.votes[i].value.index == i
    ensures Enough(cfg, vs)
  {
    hide Recorded;
    hide GroupsOk;
    hide BlockID.Key;
    var at: seq<nat> := seq(|vs|, i requires 0 <= i < |vs| => if vs[i].index >= 0 then vs[i].index else 0);
    forall i | 0 <= i < cfg.Size() && Filled(b.votes)[i]
      ensures i in at
    {
      var j :| 0 <= j < |vs| && vs[j] == b.votes[i].value;
      assert at[j] == i;
    }
    FlaggedAtMost(cfg.vals.Powers(), Filled(b.votes), at);
    if cfg.typ == Precommit && cfg.Size() >= 2 {
      var group :| group in b.groups && b.groups[group].power >= cfg.vals.RecoveryPower();
      SumCoversGroup(cfg, key, b, group);
    }
  }

  /** Matching votes, in any order, decide on their block if and only if they carry the quorum power and, for the
      precommits of several validators, the recovery power. */
  lemma MatchingDecideIff(cfg: Config, id: BlockID, identity: Bytes, vs: seq<Vote>)
    requires cfg.vals.WellFormed() && Recoverable(cfg) && Matching(cfg, id, identity, vs)
    ensures HonestRun(cfg, Calls(vs))
    ensures Run(cfg, Calls(vs)).maj23 == if Enough(cfg, vs) then Some(id) else None
  {
    hide Run;
    hide BucketOk;
    hide Ready;
    hide Recoverable;
    hide OneVoteEach;
    hide ValidatedCall;
    hide ProperCall;
    hide BlockID.Key;
    hide CanonicalOk;
    hide Views;
    hide Enough;
    MatchingOneEach(cfg, id, identity, vs);
    OneVoteEachPrefix(cfg, vs);
    DeliveredHolds(cfg, vs);
    var s := Run(cfg, Calls(vs));
    MajorityIffReady(cfg, Calls(vs));
    if Enough(cfg, vs) {
      MatchingReady(cfg, s, id, identity, vs);
    }
    hide Matching;
    if s.maj23.Some? {
      DecidedEnough(cfg, s, vs);
      var v :| v in vs && v.blockID == s.maj23.value;
      MatchingBlock(cfg, id, identity, vs, v);
    }
  }

  lemma MatchingBlock(cfg: Config, id: BlockID, identity: Bytes, vs: seq<Vote>, v: Vote)
    requires Matching(cfg, id, identity, vs) && v in vs
    ensures v.blockID == id
  {
    hide Recorded;
    hide GroupOf;
  }

  lemma DecidedEnough(cfg: Config, s: State, vs: seq<Vote>)
    requires cfg.vals.WellFormed() && Valid(cfg, s) && Shaped(cfg.Size(), s) && HoldsOnly(cfg.Size(), s, vs)
    requires s.maj23.Some? && s.maj23.value.Key() in s.buckets && Ready(cfg, s.buckets[s.maj23.value.Key()])
    ensures Enough(cfg, vs)
  {
    hide BucketOk;
    hide Ready;
    hide Enough;
    hide CanonicalOk;
    hide Views;
    hide BlockID.Key;
    ReadyEnough(cfg, s.maj23.value.Key(), s.buckets[s.maj23.value.Key()], vs);
  }

  // ---------------------------------------------------------------- the assumptions can be met

  function Tripled(h: Hash32): Bytes {
    h + h + h
  }

  /** A signature that anybody can make and that stands for the quorum as well: no security, but a threshold scheme. */
  ghost function PlainScheme(p: Primitives): Primitives {
    p.(verifyDigest := (key: PubKey, digest: Hash32, sig: Bytes) => sig == Tripled(digest),
       recoverBlockSign := (sigs: seq<Bytes>, hashes: seq<Bytes>) => if sigs == [] then None else Some(sigs[0]),
       recoverExtensionSign := (shares: map<Bytes, Bytes>) => if shares == map[] then None else Some(AnyShare(shares)))
  }

  ghost function AnyShare(shares: map<Bytes, Bytes>): Bytes
    requires shares != map[]
  {
    assert shares.Keys != {};
    var h :| h in shares;
    shares[h]
  }

  /** For any validator set with a threshold key there are primitives that form a threshold scheme. */
  lemma SchemeExists(cfg: Config, p: Primitives)
    requires cfg.p == PlainScheme(p) && cfg.vals.thresholdKey.Some?
    ensures ThresholdScheme(cfg)
  {
    forall digest: Hash32, sigs: seq<Bytes>, hashes: seq<Bytes> | EnoughList(cfg, digest, sigs, hashes)
      ensures IsThresholdSign(cfg, digest, cfg.p.recoverBlockSign(sigs, hashes))
    {
      assert IsShare(cfg, digest, hashes[0], sigs[0]);
    }
    forall digest: Hash32, shares: map<Bytes, Bytes> | EnoughMap(cfg, digest, shares)
      ensures IsThresholdSign(cfg, digest, cfg.p.recoverExtensionSign(shares))
    {
      assert |shares| > 0;
      assert forall h :: h in shares ==> IsShare(cfg, digest, h, shares[h]);
      assert AnyShare(shares) == Tripled(digest);
    }
  }

  function PlainVote(cfg: Config, id: BlockID, i: nat): Vote
    requires i < cfg.Size()
  {
    Vote(cfg.typ, cfg.height, cfg.round, id, cfg.vals.validators[i].proTxHash, i, Tripled(BlockDigest(cfg, id)), [])
  }

  lemma PlainVoteRecorded(cfg: Config, p: Primitives, id: BlockID, i: nat)
    requires cfg.p == PlainScheme(p) && i < cfg.Size()
    requires var key := cfg.vals.validators[i].pubKey; key.Some? && |key.value.bytes| == PUB_KEY_SIZE
    ensures Recorded(cfg, PlainVote(cfg, id, i), i) && GroupOf(cfg, PlainVote(cfg, id, i)) == Some([])
  {
    var v := PlainVote(cfg, id, i);
    assert Recoverables(v.exts) == [];
    var data := VoteSignData(cfg.p, cfg.Context(), v).value;
    assert VerifySignature(cfg.p, cfg.vals.validators[i].pubKey.value, data.block, v.blockSign);
    VerifyQuorumMeaning(cfg.p, cfg.vals.validators[i].pubKey.value, data, VoteSigns(v), None);
  }

  /** Keys and hashes of the right sizes. */
  ghost predicate Equipped(cfg: Config) {
    && cfg.vals.WellFormed() && cfg.vals.thresholdKey.Some?
    && (forall i :: 0 <= i < cfg.Size() ==>
          var val := cfg.vals.validators[i];
          |val.proTxHash| == PRO_TX_HASH_SIZE && val.pubKey.Some? && |val.pubKey.value.bytes| == PUB_KEY_SIZE)
  }

  /** A quorum in working order: several members, equipped, and enough of them to decide and recover. */
  ghost predicate InOrder(cfg: Config) {
    && cfg.typ == Precommit && cfg.Size() >= 2 && Equipped(cfg)
    && cfg.vals.TotalPower() >= cfg.vals.QuorumPower() && cfg.vals.TotalPower() >= cfg.vals.RecoveryPower()
  }

  /** The votes of the first validators for one block. */
  function FirstVotes(cfg: Config, id: BlockID, n: nat): (r: seq<Vote>)
    requires n <= cfg.Size()
    ensures |r| == n
  {
    seq(n, i requires 0 <= i < n => PlainVote(cfg, id, i))
  }

  lemma FirstVotesMatch(cfg: Config, p: Primitives, id: BlockID, n: nat)
    requires Equipped(cfg) && cfg.p == PlainScheme(p) && id.Proper() && n <= cfg.Size()
    ensures Matching(cfg, id, [], FirstVotes(cfg, id, n))
  {
    hide Recorded;
    hide GroupOf;
    hide PlainScheme;
    var vs := FirstVotes(cfg, id, n);
    forall i | 0 <= i < |vs|
      ensures Recorded(cfg, vs[i], vs[i].index) && GroupOf(cfg, vs[i]) == Some([]) && Validated(vs[i])
    {
      PlainVoteRecorded(cfg, p, id, i);
    }
    assert Distinct(Indexes(vs));
  }

  lemma SeveralNamed(t: LLMQType)
    requires NamedQuorum(t).Some?
    ensures NamedQuorum(t).value.0 >= 2
  {
  }

  /** In a full quorum named after its members and percentage, with no threshold configured, precommits decide if
      and only if they make up the percentage. */
  lemma PercentageDecides(cfg: Config, p: Primitives, id: BlockID, n: nat)
    requires Equipped(cfg) && cfg.p == PlainScheme(p) && id.Proper() && n <= cfg.Size()
    requires cfg.typ == Precommit && cfg.vals.votingPowerThreshold == 0 && NamedQuorum(cfg.vals.llmqType).Some?
    requires cfg.Size() == NamedQuorum(cfg.vals.llmqType).value.0
    ensures HonestRun(cfg, Calls(FirstVotes(cfg, id, n)))
    ensures Run(cfg, Calls(FirstVotes(cfg, id, n))).maj23 ==
            if 100 * n >= NamedQuorum(cfg.vals.llmqType).value.1 * cfg.Size() then Some(id) else None
  {
    hide Run;
    hide Matching;
    hide PlainScheme;
    hide ThresholdScheme;
    hide QuorumParams;
    hide NamedQuorum;
    hide ValidatorSet.RecoveryPower;
    FirstVotesMatch(cfg, p, id, n);
    SchemeExists(cfg, p);
    MatchingDecideIff(cfg, id, [], FirstVotes(cfg, id, n));
    PercentageReached(cfg.vals, n);
    SeveralNamed(cfg.vals.llmqType);
  }

  /** 67 of the 100 validators of a quorum of type LLMQ_100_67 decide, 66 do not; a configured threshold of one
      power more takes 68, and recovery holds out for 67 whatever lower threshold is configured. */
  lemma HundredSixtySeven(cfg: Config, p: Primitives, id: BlockID, n: nat)
    requires Equipped(cfg) && cfg.p == PlainScheme(p) && id.Proper() && n <= cfg.Size() == 100
    requires cfg.typ == Precommit && cfg.vals.llmqType == LLMQ_100_67
    ensures HonestRun(cfg, Calls(FirstVotes(cfg, id, n)))
    ensures var decided := Run(cfg, Calls(FirstVotes(cfg, id, n))).maj23 == Some(id);
            && (cfg.vals.votingPowerThreshold == 0 ==> (decided <==> n >= 67))
            && (cfg.vals.votingPowerThreshold == 6701 ==> (decided <==> n >= 68))
            && (0 < cfg.vals.votingPowerThreshold <= 6700 ==> (decided <==> n >= 67))
  {
    hide Run;
    hide Matching;
    hide PlainScheme;
    hide ThresholdScheme;
    FirstVotesMatch(cfg, p, id, n);
    SchemeExists(cfg, p);
    MatchingDecideIff(cfg, id, [], FirstVotes(cfg, id, n));
  }

  /** Every quorum in working order has keys under which a commit for any proper block is made and accepted. */
  lemma CommitReachable(cfg: Config, p: Primitives, id: BlockID) returns (vs: seq<Vote>)
    requires InOrder(cfg) && cfg.p == PlainScheme(p) && id.Proper()
    ensures ThresholdScheme(cfg) && Matching(cfg, id, [], vs) && HonestRun(cfg, Calls(vs))
    ensures var s := Run(cfg, Calls(vs));
            && s.maj23 == Some(id)
            && MakeCommit(cfg, s).Ok?
            && VerifyCommit(cfg.p, cfg.vals, cfg.chainID, id, cfg.height, MakeCommit(cfg, s).value, None).Ok?
  {
    hide Recorded;
    hide GroupOf;
    hide Run;
    hide MakeCommit;
    hide VerifyCommit;
    hide ThresholdScheme;
    hide PlainScheme;
    vs := FirstVotes(cfg, id, cfg.Size());
    SchemeExists(cfg, p);
    FirstVotesMatch(cfg, p, id, cfg.Size());
    MatchingVotesCommit(cfg, id, [], vs);
  }
}
