/** From votes to a commit that verifies: every commit a vote set makes is accepted
    (types/vote_set.go, types/signs_recoverer.go, types/block.go, types/quorum.go, types/validator_set.go). */
module CommitPipeline {
  import opened Prelude
  import opened BlockIDs
  import opened Signing
  import opened Validators
  import opened Commits
  import opened Evidence
  import opened Recovery
  import opened VoteSetModel
  import opened VoteSetInvariant
  import opened VoteSetRuns
  import opened VoteSetDecisions

  datatype CommitPanic = NotPrecommit | NoMajority | NoBlockSign | SignatureCount

  function WithProtoSigns(es: seq<Ext>, sigs: seq<Bytes>): seq<ProtoExt>
    requires |es| == |sigs|
  {
    seq(|es|, i requires 0 <= i < |es| => ToProto(es[i]).(signature := sigs[i]))
  }

  /** `NewCommit` and `CopyToCommit`. */
  function NewCommit(height: int, round: int, id: BlockID, exts: seq<Ext>, quorumHash: Bytes, signs: QuorumSigns)
    : Result<Commit, CommitPanic>
  {
    var es := Recoverables(exts);
    if |signs.exts| != |es| then Err(SignatureCount)
    else Ok(Commit(height, round, id, quorumHash, signs.block, WithProtoSigns(es, signs.exts)))
  }

  /** `MakeCommit`; its panics are errors here. */
  function MakeCommit(cfg: Config, s: State): Result<Commit, CommitPanic> {
    if cfg.typ != Precommit then Err(NotPrecommit)
    else if s.maj23.None? then Err(NoMajority)
    else if s.blockSign == [] then Err(NoBlockSign)
    else
      NewCommit(cfg.height, cfg.round, s.maj23.value, s.exts, cfg.vals.quorumHash,
                QuorumSigns(s.blockSign, Signatures(s.exts)))
  }

  /** The threshold key is set, and a lone validator signs with it. */
  ghost predicate ThresholdKeyOk(cfg: Config) {
    && cfg.vals.thresholdKey.Some?
    && (cfg.Size() == 1 ==> cfg.vals.validators[0].pubKey == cfg.vals.thresholdKey)
  }

  function SignData(cfg: Config, id: BlockID, exts: seq<Ext>): Result<QuorumSignData, VerifyError> {
    MakeVerifyQuorumSigns(cfg.p, cfg.Context(), Precommit, cfg.height, cfg.round, id, exts)
  }

  /** The threshold key signed this block and exactly these extensions. */
  ghost predicate SignedFor(cfg: Config, id: BlockID, blockSign: Bytes, exts: seq<Ext>) {
    && cfg.vals.thresholdKey.Some?
    && (forall i :: 0 <= i < |exts| ==> exts[i].Recoverable())
    && SignData(cfg, id, exts).Ok?
    && Signed(cfg.p, cfg.vals.thresholdKey.value, SignData(cfg, id, exts).value,
              QuorumSigns(blockSign, Signatures(exts)))
  }

  /** A commit made from such signatures is built without panic and verifies. */
  lemma SignedCommitVerifies(cfg: Config, s: State)
    requires cfg.typ == Precommit && s.maj23.Some? && SignedFor(cfg, s.maj23.value, s.blockSign, s.exts)
    ensures MakeCommit(cfg, s).Ok?
    ensures var commit := MakeCommit(cfg, s).value;
            && commit.height == cfg.height && commit.round == cfg.round && commit.blockID == s.maj23.value
            && ExtsFromProto(commit.exts) == Some(s.exts)
            && VerifyCommit(cfg.p, cfg.vals, cfg.chainID, s.maj23.value, cfg.height, commit, None).Ok?
  {
    RecoverablesAll(s.exts);
    var commit := MakeCommit(cfg, s).value;
    assert commit.exts == ExtsToProto(s.exts);
    ProtoRoundTrip(s.exts);
    var data := SignData(cfg, s.maj23.value, s.exts).value;
    VerifyQuorumMeaning(cfg.p, cfg.vals.thresholdKey.value, data, QuorumSigns(s.blockSign, Signatures(s.exts)), None);
  }

  // ---------------------------------------------------------------- what recovery yields

  lemma {:induction false} RecoverablesTwice(es: seq<Ext>)
    ensures Recoverables(Recoverables(es)) == Recoverables(es)
  {
    RecoverablesAll(Recoverables(es));
  }

  /** One validator: the vote's own signatures are the threshold signatures. */
  lemma LoneRecovered(cfg: Config, b: Bucket, id: BlockID)
    requires cfg.typ == Precommit && cfg.Size() == 1 && ThresholdKeyOk(cfg)
    requires BucketOk(cfg, id.Key(), b) && ProperBucket(b) && id.Proper() && b.votes[0].Some?
    ensures SignedFor(cfg, id, b.votes[0].value.blockSign, Recoverables(b.votes[0].value.exts))
  {
    var v := b.votes[0].value;
    assert Recorded(cfg, v, 0) by {
      hide GroupsOk;
    }
    VoteBounds(cfg, id.Key(), b, 0);
    KeyInjective(v.blockID, id);
    hide BucketOk;
    OwnSigned(cfg, v);
  }

  lemma OwnSigned(cfg: Config, v: Vote)
    requires cfg.typ == Precommit && cfg.Size() == 1 && ThresholdKeyOk(cfg) && Recorded(cfg, v, 0)
    ensures SignedFor(cfg, v.blockID, v.blockSign, Recoverables(v.exts))
  {
    hide Recoverables;
    hide SignItems;
    hide BlockSignItem;
    hide VerifyQuorum;
    hide Signatures;
    hide Signed;
    RecoverablesTwice(v.exts);
    var es, data := Recoverables(v.exts), VoteSignData(cfg.p, cfg.Context(), v).value;
    VerifyQuorumMeaning(cfg.p, cfg.vals.thresholdKey.value, data, VoteSigns(v), None);
    assert forall i :: 0 <= i < |es| ==> es[i] in es;
  }

  /** A contributing voter has the canonical identity. */
  lemma VoterIdentity(cfg: Config, key: Bytes, b: Bucket, identity: Bytes, j: int)
    requires cfg.vals.WellFormed() && BucketOk(cfg, key, b) && identity in b.groups
    requires 0 <= j < |b.votes| && b.votes[j].Some? && b.votes[j].value.proTxHash in b.groups[identity].voters
    ensures GroupOf(cfg, b.votes[j].value) == Some(identity)
  {
    hide VerifyVote;
    hide GroupOf;
    hide Members;
    hide InGroup;
    assert GroupOk(cfg, b.votes, identity, b.groups[identity]);
    var i := MemberIndex(cfg, b.votes, identity, b.votes[j].value.proTxHash);
    assert Recorded(cfg, b.votes[i].value, i) && Recorded(cfg, b.votes[j].value, j);
  }

  /** Votes of one identity sign the same digests. */
  lemma SameIdentitySameHashes(p: Primitives, c: Context, u: Vote, v: Vote)
    requires u.height == v.height && u.round == v.round
    requires Identity(p, c, u).Some? && Identity(p, c, u) == Identity(p, c, v)
    ensures var x := SignItems(p, c, u.height, u.round, Recoverables(u.exts));
            var y := SignItems(p, c, u.height, u.round, Recoverables(v.exts));
            && x.Some? && y.Some? && |x.value| == |y.value|
            && forall i :: 0 <= i < |x.value| ==> x.value[i].signHash == y.value[i].signHash
  {
    var x := SignItems(p, c, u.height, u.round, Recoverables(u.exts)).value;
    var y := SignItems(p, c, u.height, u.round, Recoverables(v.exts)).value;
    IdentityInjective(Recoverables(u.exts), x, Recoverables(v.exts), y);
  }

  /** The recovered extensions carry the digests the representative signed. */
  lemma RecoveredDigests(cfg: Config, b: Bucket, id: BlockID, identity: Bytes, exts: seq<Ext>)
    requires cfg.typ == Precommit && cfg.vals.WellFormed() && BucketOk(cfg, id.Key(), b) && identity in b.groups
    requires CollectShares(b.votes, b.groups[identity].voters).Some?
    requires var shared := CollectShares(b.votes, b.groups[identity].voters).value.exts;
             |exts| == |shared| && forall i :: 0 <= i < |exts| ==> exts[i].Unsigned() == shared[i].ext.Unsigned()
    ensures |exts| <= MAX_VOTE_EXTENSIONS && forall i :: 0 <= i < |exts| ==> exts[i].Recoverable()
    ensures var r := b.groups[identity].representative;
            var x := SignItems(cfg.p, cfg.Context(), cfg.height, cfg.round, exts);
            var y := SignItems(cfg.p, cfg.Context(), cfg.height, cfg.round, Recoverables(r.exts));
            && x.Some? && y.Some? && |x.value| == |y.value|
            && forall i :: 0 <= i < |x.value| ==> x.value[i].signHash == y.value[i].signHash
  {
    var g := b.groups[identity];
    var shared := CollectShares(b.votes, g.voters).value.exts;
    CollectedExts(b.votes, g.voters);
    hide CollectShares;
    var k := RepresentativeIndex(cfg, id.Key(), b, identity);
    if shared == [] {
      RepresentativeVotes(cfg, id.Key(), b, identity, k);
      assert Recoverables(g.representative.exts) == [];
    } else {
      var j :| FromVoter(shared, b.votes, g.voters, j);
      var u := b.votes[j].value;
      VoterIdentity(cfg, id.Key(), b, identity, j);
      VoteBounds(cfg, id.Key(), b, j);
      VoteBounds(cfg, id.Key(), b, k);
      SameIdentitySameHashes(cfg.p, cfg.Context(), u, g.representative);
      forall i | 0 <= i < |exts|
        ensures exts[i].Unsigned() == Recoverables(u.exts)[i].Unsigned() && exts[i].Recoverable()
      {
        assert exts[i].Unsigned() == shared[i].ext.Unsigned();
        assert Recoverables(u.exts)[i] in Recoverables(u.exts);
      }
      SignItemsIgnoreSignatures(cfg.p, cfg.Context(), cfg.height, cfg.round, exts, Recoverables(u.exts));
    }
  }

  lemma RepresentativeIndex(cfg: Config, key: Bytes, b: Bucket, identity: Bytes) returns (k: int)
    requires BucketOk(cfg, key, b) && identity in b.groups
    ensures 0 <= k < |b.votes| && b.votes[k] == Some(b.groups[identity].representative)
    ensures GroupOf(cfg, b.groups[identity].representative) == Some(identity)
  {
    hide VerifyVote;
    hide GroupOf;
    assert GroupOk(cfg, b.votes, identity, b.groups[identity]);
    k :| 0 <= k < |b.votes| && b.votes[k] == Some(b.groups[identity].representative);
  }

  lemma RepresentativeVotes(cfg: Config, key: Bytes, b: Bucket, identity: Bytes, k: int)
    requires BucketOk(cfg, key, b) && identity in b.groups && 0 <= k < |b.votes|
    requires b.votes[k] == Some(b.groups[identity].representative)
    ensures b.votes[k].value.proTxHash in b.groups[identity].voters
  {
    hide VerifyVote;
    assert GroupOk(cfg, b.votes, identity, b.groups[identity]);
    assert InGroup(cfg, b.votes, identity)[k];
  }

  lemma VoteBounds(cfg: Config, key: Bytes, b: Bucket, j: int)
    requires BucketOk(cfg, key, b) && 0 <= j < |b.votes| && b.votes[j].Some?
    ensures var v := b.votes[j].value;
            && v.height == cfg.height && v.round == cfg.round && v.typ == cfg.typ && v.blockID.Key() == key
            && |v.exts| <= MAX_VOTE_EXTENSIONS
  {
    hide GroupsOk;
    assert Recorded(cfg, b.votes[j].value, j);
  }

  /** What a successful recovery among several validators went through. */
  lemma RecoveredSteps(cfg: Config, b: Bucket, id: BlockID) returns (identity: Bytes)
    requires |b.votes| >= 2 && RecoverAndVerify(cfg, b, id).Recovered?
    ensures identity in b.groups
    ensures var r := RecoverAndVerify(cfg, b, id);
            var g := b.groups[identity];
            && CollectShares(b.votes, g.voters).Some?
            && CheckRecovered(cfg, g.representative, r.blockSign, r.exts) == r
            && var shared := CollectShares(b.votes, g.voters).value.exts;
            && |r.exts| == |shared| && forall i :: 0 <= i < |r.exts| ==>
              r.exts[i].Unsigned() == shared[i].ext.Unsigned()
  {
    hide CollectShares;
    identity := CanonicalGroup(b.groups, cfg.vals.RecoveryPower()).value;
    var g := b.groups[identity];
    var shares := CollectShares(b.votes, g.voters).value;
    var sigs := RecoverSigns(cfg.p, shares, id.hash != []).value;
    assert CheckRecovered(cfg, g.representative, sigs.block, WithSignatures(shares.exts, sigs.exts)).Recovered?;
  }

  lemma SeveralRecovered(cfg: Config, b: Bucket, id: BlockID)
    requires cfg.typ == Precommit && cfg.vals.WellFormed() && cfg.Size() >= 2
    requires BucketOk(cfg, id.Key(), b) && ProperBucket(b) && id.Proper() && RecoverAndVerify(cfg, b, id).Recovered?
    ensures var r := RecoverAndVerify(cfg, b, id); SignedFor(cfg, id, r.blockSign, r.exts)
  {
    var identity := RecoveredSteps(cfg, b, id);
    hide RecoverAndVerify;
    hide CollectShares;
    hide BucketOk;
    var r := RecoverAndVerify(cfg, b, id);
    var v := b.groups[identity].representative;
    RecoveredDigests(cfg, b, id, identity, r.exts);
    var k := RepresentativeIndex(cfg, id.Key(), b, identity);
    VoteBounds(cfg, id.Key(), b, k);
    KeyInjective(v.blockID, id);
    CheckedSigned(cfg, id, v, r.blockSign, r.exts);
  }

  /** Signatures checked against the representative's digests are signatures over the recovered extensions. */
  lemma CheckedSigned(cfg: Config, id: BlockID, v: Vote, blockSign: Bytes, exts: seq<Ext>)
    requires CheckRecovered(cfg, v, blockSign, exts).Recovered?
    requires v.typ == Precommit && v.height == cfg.height && v.round == cfg.round && v.blockID == id
    requires |exts| <= MAX_VOTE_EXTENSIONS && forall i :: 0 <= i < |exts| ==> exts[i].Recoverable()
    requires var x := SignItems(cfg.p, cfg.Context(), cfg.height, cfg.round, exts);
             var y := SignItems(cfg.p, cfg.Context(), cfg.height, cfg.round, Recoverables(v.exts));
             && x.Some? && y.Some? && |x.value| == |y.value|
             && forall i :: 0 <= i < |x.value| ==> x.value[i].signHash == y.value[i].signHash
    ensures SignedFor(cfg, id, blockSign, exts)
  {
    hide VerifyQuorum;
    hide SignItems;
    hide Recoverables;
    hide Signed;
    hide BlockSignItem;
    RecoverablesAll(exts);
    var key, sigs := cfg.vals.thresholdKey.value, QuorumSigns(blockSign, Signatures(exts));
    var d := MakeQuorumSigns(cfg.p, cfg.Context(), v.typ, v.height, v.round, v.blockID, v.exts).value;
    VerifyQuorumMeaning(cfg.p, key, d, sigs, None);
    var d' := SignData(cfg, id, exts).value;
    assert SignHashes(d) == SignHashes(d');
    SameContentSameVerdict(cfg.p, key, d, sigs, d', sigs);
  }

  // ---------------------------------------------------------------- over runs

  ghost predicate MajoritySigned(cfg: Config, s: State) {
    s.maj23.Some? ==> SignedFor(cfg, s.maj23.value, s.blockSign, s.exts)
  }

  lemma FinalizeSigned(cfg: Config, s: State, v: Vote)
    requires cfg.typ == Precommit && cfg.vals.WellFormed() && ThresholdKeyOk(cfg) && cfg.Size() > 0
    requires s.maj23.None? && v.blockID.Key() in s.buckets && |s.votes| == cfg.Size() && v.blockID.Proper()
    requires var b := s.buckets[v.blockID.Key()]; BucketOk(cfg, v.blockID.Key(), b) && ProperBucket(b)
    ensures MajoritySigned(cfg, Finalize(cfg, s, v).0)
  {
    var b := s.buckets[v.blockID.Key()];
    hide BucketOk;
    hide SignedFor;
    if RecoverAndVerify(cfg, b, v.blockID).Recovered? {
      if cfg.Size() == 1 {
        LoneRecovered(cfg, b, v.blockID);
      } else {
        SeveralRecovered(cfg, b, v.blockID);
        hide RecoverAndVerify;
      }
    }
  }

  lemma AddVerifiedSigned(cfg: Config, s: State, v: Vote, identity: Bytes)
    requires cfg.typ == Precommit && cfg.vals.WellFormed() && ThresholdKeyOk(cfg)
    requires Shaped(cfg.Size(), s) && BucketsOk(cfg, s.buckets) && ProperState(s) && v.blockID.Proper() && s.maj23.None?
    requires Recorded(cfg, v, v.index) && GroupOf(cfg, v) == Some(identity) && Unknown(cfg.Size(), s, v)
    ensures MajoritySigned(cfg, AddVerified(cfg, s, v, identity, cfg.vals.validators[v.index].power).state)
  {
    AddVerifiedStages(cfg, s, v, identity);
    FiledBucket(cfg, s, v, identity);
    FiledProper(cfg, s, v, identity);
    assert Filed(cfg, s, v, identity).maj23.None? && |Filed(cfg, s, v, identity).votes| == cfg.Size();
    hide AddVerified;
    hide Filed;
    hide Finalize;
    hide BucketOk;
    hide BucketAdd;
    if Kept(s, v) {
      FinalizeSigned(cfg, Filed(cfg, s, v, identity), v);
    }
  }

  lemma ApplySigned(cfg: Config, s: State, c: Call)
    requires cfg.typ == Precommit && cfg.vals.WellFormed() && ThresholdKeyOk(cfg)
    requires HonestCall(cfg, c) && ProperCall(c) && Valid(cfg, s) && ProperState(s) && MajoritySigned(cfg, s)
    ensures MajoritySigned(cfg, Apply(cfg, s, c))
  {
    hide AddVote;
    hide AddVerified;
    hide BucketOk;
    hide SignedFor;
    if s.maj23.Some? {
      ApplyKeepsMajority(cfg, s, c);
    } else if c.VoteCall? {
      AddVoteCases(cfg, s, c.vote, c.check);
      if Admits(cfg, s, c.vote, c.check) {
        AddVerifiedSigned(cfg, s, c.vote.value, GroupOf(cfg, c.vote.value).value);
      }
    }
  }

  lemma {:induction false} RunSigned(cfg: Config, calls: seq<Call>)
    requires cfg.typ == Precommit && HonestRun(cfg, calls) && ThresholdKeyOk(cfg)
    requires forall i :: 0 <= i < |calls| ==> ProperCall(calls[i])
    ensures MajoritySigned(cfg, Run(cfg, calls))
  {
    if calls == [] {
    } else {
      var n := |calls| - 1;
      RunSigned(cfg, calls[..n]);
      RunProper(cfg, calls[..n]);
      ApplySigned(cfg, Run(cfg, calls[..n]), calls[n]);
      hide Apply;
      hide Valid;
      hide MajoritySigned;
    }
  }

  /** Every commit made from any reachable precommit vote set is accepted by `verifyCommit` for the same
      chain, height and majority block, and no panic stands in the way of making it. */
  lemma CommitAccepted(cfg: Config, calls: seq<Call>)
    requires cfg.typ == Precommit && HonestRun(cfg, calls) && ThresholdKeyOk(cfg)
    requires forall i :: 0 <= i < |calls| ==> ProperCall(calls[i])
    requires Run(cfg, calls).maj23.Some?
    ensures var s := Run(cfg, calls);
            && MakeCommit(cfg, s).Ok?
            && VerifyCommit(cfg.p, cfg.vals, cfg.chainID, s.maj23.value, cfg.height, MakeCommit(cfg, s).value, None).Ok?
            && MakeCommit(cfg, s).value.blockID == s.maj23.value && MakeCommit(cfg, s).value.round == cfg.round
  {
    RunSigned(cfg, calls);
    hide Run;
    SignedCommitVerifies(cfg, Run(cfg, calls));
  }

  /** After any run of a precommit vote set a commit can be made if and only if there is a majority, and what stands in
      the way otherwise is that there is none. Other vote sets make no commits. */
  lemma CommitMadeIff(cfg: Config, calls: seq<Call>)
    requires HonestRun(cfg, calls) && ThresholdKeyOk(cfg)
    requires forall i :: 0 <= i < |calls| ==> ProperCall(calls[i])
    ensures var s := Run(cfg, calls);
            && (cfg.typ != Precommit ==> MakeCommit(cfg, s) == Err(NotPrecommit))
            && (cfg.typ == Precommit ==> (MakeCommit(cfg, s).Ok? <==> s.maj23.Some?))
            && (cfg.typ == Precommit && s.maj23.None? ==> MakeCommit(cfg, s) == Err(NoMajority))
  {
    if cfg.typ == Precommit {
      RunSigned(cfg, calls);
      hide Run;
      if Run(cfg, calls).maj23.Some? {
        SignedCommitVerifies(cfg, Run(cfg, calls));
      }
    }
  }

  lemma LoneVoteDecides(cfg: Config, v: Vote)
    requires cfg.typ == Precommit && cfg.vals.WellFormed() && cfg.Size() == 1 &&
      cfg.vals.QuorumPower() <= DASH_VOTING_POWER
    requires Admits(cfg, Initial(cfg), Some(v), Full)
    ensures AddVote(cfg, Initial(cfg), Some(v), Full).state.maj23 == Some(v.blockID)
  {
    hide AddVote;
    hide AddVerified;
    hide VerifyVote;
    hide GroupOf;
    hide BlockID.Key;
    var s := Initial(cfg);
    AddVoteCases(cfg, s, Some(v), Full);
    AddVerifiedStages(cfg, s, v, GroupOf(cfg, v).value);
  }

  /** A lone validator whose power is a quorum commits with its first vote. */
  lemma LoneVoteCommits(cfg: Config, v: Vote)
    requires cfg.typ == Precommit && cfg.vals.WellFormed() && cfg.Size() == 1 &&
      cfg.vals.QuorumPower() <= DASH_VOTING_POWER
    requires ThresholdKeyOk(cfg) && v.blockID.Proper()
    requires Admits(cfg, Initial(cfg), Some(v), Full)
    ensures var calls := [VoteCall(Some(v), Full)];
            && HonestRun(cfg, calls)
            && MakeCommit(cfg, Run(cfg, calls)).Ok?
            && MakeCommit(cfg, Run(cfg, calls)).value.blockID == v.blockID
  {
    hide AddVote;
    hide Valid;
    hide Initial;
    hide MakeCommit;
    hide Admits;
    hide VerifyCommit;
    var calls := [VoteCall(Some(v), Full)];
    assert HonestRun(cfg, calls);
    RunStep(cfg, calls);
    RunStep(cfg, []);
    assert calls[..0] == [];
    LoneVoteDecides(cfg, v);
    CommitAccepted(cfg, calls);
  }
}
