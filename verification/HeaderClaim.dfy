/** The header comment of `VoteSet` claims that every canonical vote is filed under its block. When that holds,
    and a run in which it does not (types/vote_set.go). */
module HeaderClaim {
  import opened Prelude
  import opened BlockIDs
  import opened Signing
  import opened Sorting
  import opened Validators
  import opened VoteSetModel
  import opened VoteSetInvariant
  import opened VoteSetRuns
  import opened VoteSetDecisions
  import opened VoteSetAgreement
  import opened CommitLiveness

  /** The bucket of a canonical vote's block holds that vote. */
  ghost predicate FiledAt(n: nat, s: State, i: int)
    requires Shaped(n, s) && 0 <= i < n
  {
    s.votes[i].Some? ==>
      var key := s.votes[i].value.blockID.Key(); key in s.buckets && s.buckets[key].votes[i] == s.votes[i]
  }

  ghost predicate AllFiled(n: nat, s: State)
    requires Shaped(n, s)
  {
    forall i :: 0 <= i < n ==> FiledAt(n, s, i)
  }

  /** A validator that voted for another block now votes for the majority block, which no peer has claimed. */
  predicate LateConflict(s: State, v: Vote)
    requires 0 <= v.index < |s.votes|
  {
    var key := v.blockID.Key();
    && s.votes[v.index].Some? && s.maj23.Some? && s.maj23.value.Key() == key
    && !(key in s.buckets && s.buckets[key].peerMaj23)
  }

  /** A conflicting vote for the majority block becomes canonical; it is filed exactly when a peer claimed the block. */
  lemma ReplacedVote(cfg: Config, s: State, v: Vote, identity: Bytes)
    requires Shaped(cfg.Size(), s) && 0 <= v.index < cfg.Size() && Unknown(cfg.Size(), s, v)
    requires s.votes[v.index].Some? && s.maj23.Some? && s.maj23.value.Key() == v.blockID.Key()
    requires v.blockID.Key() in s.buckets
    ensures var s' := AddVerified(cfg, s, v, identity, cfg.vals.validators[v.index].power).state;
            var key := v.blockID.Key();
            && Shaped(cfg.Size(), s') && s'.votes[v.index] == Some(v) && key in s'.buckets
            && (s'.buckets[key].votes[v.index] == Some(v) <==> s.buckets[key].peerMaj23)
  {
    AddVerifiedStages(cfg, s, v, identity);
    hide AddVerified;
    hide Finalize;
  }

  /** Filing keeps the claim. */
  lemma FiledFiles(cfg: Config, s: State, v: Vote, identity: Bytes)
    requires Shaped(cfg.Size(), s) && 0 <= v.index < cfg.Size() && Unknown(cfg.Size(), s, v) && AllFiled(cfg.Size(), s)
    ensures Shaped(cfg.Size(), Filed(cfg, s, v, identity)) && AllFiled(cfg.Size(), Filed(cfg, s, v, identity))
  {
    hide BlockID.Key;
    var f := Filed(cfg, s, v, identity);
    forall i | 0 <= i < cfg.Size()
      ensures FiledAt(cfg.Size(), f, i)
    {
      assert FiledAt(cfg.Size(), s, i);
    }
  }

  /** Publishing the votes of a bucket keeps the claim, and so does a decision taken back. */
  lemma FinalizeFiles(cfg: Config, f: State, v: Vote)
    requires Shaped(cfg.Size(), f) && AllFiled(cfg.Size(), f) && f.maj23.None? && v.blockID.Key() in f.buckets
    requires BucketOk(cfg, v.blockID.Key(), f.buckets[v.blockID.Key()])
    ensures var s' := Finalize(cfg, f, v).0; Shaped(cfg.Size(), s') && AllFiled(cfg.Size(), s')
  {
    FinalizeCases(cfg, f, v);
    hide Finalize;
    hide VerifyVote;
    hide GroupsOk;
    var s' := Finalize(cfg, f, v).0;
    forall i | 0 <= i < cfg.Size()
      ensures FiledAt(cfg.Size(), s', i)
    {
      assert FiledAt(cfg.Size(), f, i);
    }
  }

  /** A vote that is not kept either changes nothing canonical or breaks the claim. */
  lemma ForgottenFiles(cfg: Config, s: State, v: Vote, power: int)
    requires Views(cfg.Size(), cfg.vals.QuorumPower(), s) && 0 <= v.index < cfg.Size() && AllFiled(cfg.Size(), s)
    requires Unknown(cfg.Size(), s, v) && !Kept(s, v)
    ensures var s' := RecordCanonical(s, v, power);
            Shaped(cfg.Size(), s') && (AllFiled(cfg.Size(), s') <==> !LateConflict(s, v))
  {
    var s' := RecordCanonical(s, v, power);
    if LateConflict(s, v) {
      assert !FiledAt(cfg.Size(), s', v.index);
    }
  }

  /** From a state in which it holds, the claim survives a verified vote if and only if the vote is not a late
      conflict. */
  lemma ClaimKeptIff(cfg: Config, s: State, v: Vote, identity: Bytes)
    requires cfg.vals.WellFormed() && Valid(cfg, s) && AllFiled(cfg.Size(), s)
    requires Recorded(cfg, v, v.index) && GroupOf(cfg, v) == Some(identity) && Unknown(cfg.Size(), s, v)
    ensures var s' := AddVerified(cfg, s, v, identity, cfg.vals.validators[v.index].power).state;
            Shaped(cfg.Size(), s') && (AllFiled(cfg.Size(), s') <==> !LateConflict(s, v))
  {
    hide AddVerified;
    hide Finalize;
    hide BucketOk;
    hide BucketAdd;
    hide AllFiled;
    hide VerifyVote;
    hide GroupOf;
    AddVerifiedStages(cfg, s, v, identity);
    if Kept(s, v) {
      FiledBucket(cfg, s, v, identity);
      FiledFiles(cfg, s, v, identity);
      FiledKeepsMajority(cfg, s, v, identity);
      if s.maj23.None? {
        FinalizeFiles(cfg, Filed(cfg, s, v, identity), v);
      }
    } else {
      ForgottenFiles(cfg, s, v, cfg.vals.validators[v.index].power);
    }
  }

  // ---------------------------------------------------------------- over runs

  /** A call that adds a late conflict. */
  ghost predicate LateCall(cfg: Config, s: State, c: Call)
    requires Shaped(cfg.Size(), s)
  {
    c.VoteCall? && Admits(cfg, s, c.vote, c.check) && LateConflict(s, c.vote.value)
  }

  /** What is not filed is a vote for the majority block. */
  lemma BrokenCause(cfg: Config, s: State, i: int)
    requires Valid(cfg, s) && 0 <= i < cfg.Size() && !FiledAt(cfg.Size(), s, i)
    ensures Shaped(cfg.Size(), s)
    ensures s.votes[i].Some? && s.maj23.Some? && s.maj23.value.Key() == s.votes[i].value.blockID.Key()
  {
    hide BucketOk;
    hide CanonicalOk;
    hide BlockID.Key;
    assert TrackedAt(cfg.Size(), s, i);
  }

  /** It stays canonical, and no later vote is filed in its place. */
  lemma BrokenRecord(n: nat, s: State, v: Vote, power: int, i: int)
    requires Shaped(n, s) && 0 <= i < n && !FiledAt(n, s, i) && 0 <= v.index < n && Unknown(n, s, v)
    requires s.votes[i].Some? && s.maj23.Some? && s.maj23.value.Key() == s.votes[i].value.blockID.Key()
    ensures var r := RecordCanonical(s, v, power);
            Shaped(n, r) && r.votes[i] == s.votes[i] && !FiledAt(n, r, i) && r.buckets == s.buckets
  {
    hide BlockID.Key;
  }

  lemma BrokenFiled(cfg: Config, s: State, v: Vote, identity: Bytes, i: int)
    requires Shaped(cfg.Size(), s) && 0 <= i < cfg.Size() && !FiledAt(cfg.Size(), s, i)
    requires 0 <= v.index < cfg.Size() && Unknown(cfg.Size(), s, v)
    requires s.votes[i].Some? && s.maj23.Some? && s.maj23.value.Key() == s.votes[i].value.blockID.Key()
    ensures var f := Filed(cfg, s, v, identity); Shaped(cfg.Size(), f) && !FiledAt(cfg.Size(), f, i)
  {
    hide BlockID.Key;
    hide RecordCanonical;
    BrokenRecord(cfg.Size(), s, v, cfg.vals.validators[v.index].power, i);
  }

  lemma BrokenVote(cfg: Config, s: State, v: Vote, identity: Bytes, i: int)
    requires Valid(cfg, s) && 0 <= i < cfg.Size() && !FiledAt(cfg.Size(), s, i)
    requires 0 <= v.index < cfg.Size() && Unknown(cfg.Size(), s, v)
    ensures var s' := AddVerified(cfg, s, v, identity, cfg.vals.validators[v.index].power).state;
            Shaped(cfg.Size(), s') && !FiledAt(cfg.Size(), s', i)
  {
    BrokenCause(cfg, s, i);
    AddVerifiedStages(cfg, s, v, identity);
    hide AddVerified;
    hide Finalize;
    hide Valid;
    hide BlockID.Key;
    hide Filed;
    hide RecordCanonical;
    hide FiledAt;
    hide BucketAdd;
    BrokenRecord(cfg.Size(), s, v, cfg.vals.validators[v.index].power, i);
    BrokenFiled(cfg, s, v, identity, i);
    FiledKeepsMajority(cfg, s, v, identity);
  }

  lemma BrokenClaim(cfg: Config, s: State, peer: string, id: BlockID, height: int, round: int, i: int)
    requires Shaped(cfg.Size(), s) && 0 <= i < cfg.Size() && !FiledAt(cfg.Size(), s, i) && s.votes[i].Some?
    ensures var s' := SetPeerMaj23(cfg, s, peer, id, height, round).0;
            Shaped(cfg.Size(), s') && !FiledAt(cfg.Size(), s', i)
  {
    hide BlockID.Key;
  }

  lemma BrokenStays(cfg: Config, s: State, c: Call, i: int)
    requires cfg.vals.WellFormed() && HonestCall(cfg, c) && Valid(cfg, s)
    requires 0 <= i < cfg.Size() && !FiledAt(cfg.Size(), s, i)
    ensures Shaped(cfg.Size(), Apply(cfg, s, c)) && !FiledAt(cfg.Size(), Apply(cfg, s, c), i)
  {
    hide AddVote;
    hide AddVerified;
    hide SetPeerMaj23;
    hide FiledAt;
    hide Valid;
    BrokenCause(cfg, s, i);
    match c
    case VoteCall(vote, check) =>
      AddVoteCases(cfg, s, vote, check);
      if Admits(cfg, s, vote, check) {
        BrokenVote(cfg, s, vote.value, GroupOf(cfg, vote.value).value, i);
      }
    case ClaimCall(peer, id, height, round) =>
      BrokenClaim(cfg, s, peer, id, height, round, i);
  }

  lemma ApplyFilesIff(cfg: Config, s: State, c: Call)
    requires cfg.vals.WellFormed() && HonestCall(cfg, c) && Valid(cfg, s)
    ensures Shaped(cfg.Size(), Apply(cfg, s, c))
    ensures AllFiled(cfg.Size(), Apply(cfg, s, c)) <==> AllFiled(cfg.Size(), s) && !LateCall(cfg, s, c)
  {
    hide AddVote;
    hide AddVerified;
    hide BucketOk;
    ApplyValid(cfg, s, c);
    if !AllFiled(cfg.Size(), s) {
      var i :| 0 <= i < cfg.Size() && !FiledAt(cfg.Size(), s, i);
      BrokenStays(cfg, s, c, i);
    } else {
      match c
      case VoteCall(vote, check) =>
        AddVoteCases(cfg, s, vote, check);
        if Admits(cfg, s, vote, check) {
          ClaimKeptIff(cfg, s, vote.value, GroupOf(cfg, vote.value).value);
        }
      case ClaimCall(peer, id, height, round) =>
        ClaimFiles(cfg, s, peer, id, height, round);
    }
  }

  lemma ClaimFiles(cfg: Config, s: State, peer: string, id: BlockID, height: int, round: int)
    requires Shaped(cfg.Size(), s) && AllFiled(cfg.Size(), s)
    ensures var s' := SetPeerMaj23(cfg, s, peer, id, height, round).0;
            Shaped(cfg.Size(), s') && AllFiled(cfg.Size(), s')
  {
    hide BlockID.Key;
    var s' := SetPeerMaj23(cfg, s, peer, id, height, round).0;
    forall i | 0 <= i < cfg.Size()
      ensures FiledAt(cfg.Size(), s', i)
    {
      assert FiledAt(cfg.Size(), s, i);
    }
  }

  lemma InitialFiled(cfg: Config)
    ensures Shaped(cfg.Size(), Initial(cfg)) && AllFiled(cfg.Size(), Initial(cfg))
  {
  }

  /** After any run every canonical vote is filed under its block if and only if no call added a late conflict. */
  lemma {:induction false} ClaimHoldsIff(cfg: Config, calls: seq<Call>)
    requires HonestRun(cfg, calls)
    ensures AllFiled(cfg.Size(), Run(cfg, calls)) <==>
              forall i :: 0 <= i < |calls| ==> !LateCall(cfg, Run(cfg, calls[..i]), calls[i])
  {
    hide Apply;
    hide Valid;
    hide Run;
    hide Initial;
    hide AllFiled;
    hide LateCall;
    hide Shaped;
    RunStep(cfg, calls);
    if calls == [] {
      InitialFiled(cfg);
    } else {
      var n := |calls| - 1;
      assert forall i :: 0 <= i <= n ==> calls[..n][..i] == calls[..i];
      ClaimHoldsIff(cfg, calls[..n]);
      ApplyFilesIff(cfg, Run(cfg, calls[..n]), calls[n]);
      assert forall i :: 0 <= i < n ==> calls[..n][i] == calls[i];
    }
  }

  // ---------------------------------------------------------------- a run that breaks the claim

  /** Validators that prevote with a quorum that everybody but one reaches, and that two blocks cannot both reach. */
  ghost predicate Prevoting(cfg: Config) {
    && cfg.typ == Prevote && cfg.vals.WellFormed() && cfg.Size() >= 2
    && (forall i :: 0 <= i < cfg.Size() ==>
          var val := cfg.vals.validators[i];
          val.proTxHash != [] && val.pubKey.Some? && |val.pubKey.value.bytes| == PUB_KEY_SIZE)
    && (cfg.Size() - 1) * DASH_VOTING_POWER >= cfg.vals.QuorumPower()
    && 2 * cfg.vals.QuorumPower() > cfg.vals.TotalPower()
  }

  /** The first validator votes for `b`, everybody else for `a`. */
  function SplitVotes(cfg: Config, a: BlockID, b: BlockID): (r: seq<Vote>)
    ensures |r| == cfg.Size()
  {
    seq(cfg.Size(), i requires 0 <= i < cfg.Size() => PlainVote(cfg, if i == 0 then b else a, i))
  }

  lemma SplitVotesOneEach(cfg: Config, p: Primitives, a: BlockID, b: BlockID)
    requires Prevoting(cfg) && cfg.p == PlainScheme(p) && a.Proper() && b.Proper()
    ensures OneVoteEach(cfg, SplitVotes(cfg, a, b)) && HonestRun(cfg, Calls(SplitVotes(cfg, a, b)))
  {
    hide Recorded;
    hide PlainScheme;
    hide GroupOf;
    var vs := SplitVotes(cfg, a, b);
    forall i | 0 <= i < |vs|
      ensures Recorded(cfg, vs[i], vs[i].index) && vs[i].proTxHash != [] && vs[i].blockID.Proper() && vs[i].index == i
    {
      PlainVoteRecorded(cfg, p, if i == 0 then b else a, i);
    }
    hide PlainVote;
    hide SplitVotes;
    OneVoteEachPrefix(cfg, vs);
  }

  /** The others decide on `a`, which no peer has claimed, and the first validator's vote for it is still unknown. */
  lemma SplitVotesDecide(cfg: Config, p: Primitives, a: BlockID, b: BlockID)
    requires Prevoting(cfg) && cfg.p == PlainScheme(p) && a.Proper() && b.Proper() && a != b
    requires HonestRun(cfg, Calls(SplitVotes(cfg, a, b)))
    ensures var s := Run(cfg, Calls(SplitVotes(cfg, a, b)));
            && s.maj23.Some? && s.maj23.value.Key() == a.Key() && a.Key() in s.buckets && !s.buckets[a.Key()].peerMaj23
            && s.votes[0].Some? && Unknown(cfg.Size(), s, PlainVote(cfg, a, 0))
  {
    hide Run;
    hide BlockID.Key;
    hide PlainScheme;
    hide Valid;
    hide Ready;
    hide SplitVotes;
    var vs := SplitVotes(cfg, a, b);
    SplitVotesOneEach(cfg, p, a, b);
    DeliveredHolds(cfg, vs);
    MajorityIffReady(cfg, Calls(vs));
    var s := Run(cfg, Calls(vs));
    SplitVotesReady(cfg, p, s, a, b);
    ReadyPower(cfg, s.buckets[a.Key()]);
    ReadyPower(cfg, s.buckets[s.maj23.value.Key()]);
    OneBlockAtQuorum(cfg, s, vs, a.Key(), s.maj23.value.Key());
    StillUnknown(cfg, s, a, b);
  }

  lemma ReadyPower(cfg: Config, b: Bucket)
    requires Ready(cfg, b)
    ensures b.sum >= cfg.vals.QuorumPower()
  {
  }

  lemma StillUnknown(cfg: Config, s: State, a: BlockID, b: BlockID)
    requires cfg.Size() > 0 && Shaped(cfg.Size(), s) && Holds(cfg.Size(), s, SplitVotes(cfg, a, b)) &&
      a.Key() in s.buckets
    requires a.Proper() && b.Proper() && a != b
    ensures s.votes[0].Some? && !s.buckets[a.Key()].peerMaj23 && Unknown(cfg.Size(), s, PlainVote(cfg, a, 0))
  {
    hide BlockID.Key;
    var vs := SplitVotes(cfg, a, b);
    assert vs[0] in vs && vs[0] == PlainVote(cfg, b, 0);
    KeyInjective(a, b);
    assert s.buckets[a.Key()].votes[0].None?;
  }

  lemma SplitVotesReady(cfg: Config, p: Primitives, s: State, a: BlockID, b: BlockID)
    requires Prevoting(cfg) && cfg.p == PlainScheme(p) && Valid(cfg, s) &&
      HoldsFiled(cfg.Size(), s, SplitVotes(cfg, a, b))
    ensures a.Key() in s.buckets && Ready(cfg, s.buckets[a.Key()])
  {
    hide BlockID.Key;
    hide PlainScheme;
    hide BucketOk;
    hide GroupOf;
    hide Recorded;
    hide CanonicalOk;
    hide Views;
    ViewsShaped(cfg.Size(), cfg.vals.QuorumPower(), s);
    var vs := SplitVotes(cfg, a, b);
    var others := vs[1..];
    forall i | 0 <= i < |others|
      ensures others[i] == PlainVote(cfg, a, i + 1) && GroupOf(cfg, others[i]) == Some([])
      ensures a.Key() in s.buckets && s.buckets[a.Key()].votes[i + 1] == Some(others[i])
    {
      assert vs[i + 1] in vs;
      PlainVoteRecorded(cfg, p, a, i + 1);
    }
    assert others[0] == PlainVote(cfg, a, 1);
    assert Distinct(Indexes(others));
    SlotsReady(cfg, a.Key(), s.buckets[a.Key()], [], others);
  }

  /** In every such set there is a run after which a canonical vote is not in the bucket of its block. */
  lemma ClaimBroken(cfg: Config, p: Primitives, a: BlockID, b: BlockID) returns (calls: seq<Call>)
    requires Prevoting(cfg) && cfg.p == PlainScheme(p) && a.Proper() && b.Proper() && a != b
    ensures HonestRun(cfg, calls) && (forall i :: 0 <= i < |calls| ==> ProperCall(calls[i]))
    ensures !AllFiled(cfg.Size(), Run(cfg, calls))
  {
    hide Run;
    hide AddVote;
    hide AddVerified;
    hide BlockID.Key;
    hide PlainScheme;
    hide Valid;
    var vs, v := SplitVotes(cfg, a, b), PlainVote(cfg, a, 0);
    calls := Calls(vs) + [VoteCall(Some(v), Full)];
    SplitVotesOneEach(cfg, p, a, b);
    SplitVotesDecide(cfg, p, a, b);
    PlainVoteRecorded(cfg, p, a, 0);
    var s := Run(cfg, Calls(vs));
    assert calls[..|calls| - 1] == Calls(vs);
    RunStep(cfg, calls);
    AddVoteCases(cfg, s, Some(v), Full);
    ReplacedVote(cfg, s, v, []);
    assert !FiledAt(cfg.Size(), Run(cfg, calls), 0);
  }
}
