/** What a commit carries: the extensions of a precommit for its block (types/vote_set.go, types/quorum.go). */
module CommitContents {
  import opened Prelude
  import opened BlockIDs
  import opened Signing
  import opened Validators
  import opened Commits
  import opened Recovery
  import opened VoteSetModel
  import opened VoteSetInvariant
  import opened VoteSetRuns
  import opened VoteSetDecisions
  import opened ThresholdRecovery
  import opened CommitPipeline

  /** The vote in this slot carries these extensions, signatures apart. */
  ghost predicate CarriedBy(votes: seq<Option<Vote>>, exts: seq<Ext>, j: int) {
    && 0 <= j < |votes| && votes[j].Some?
    && var es := Recoverables(votes[j].value.exts);
    |es| == |exts| && forall i :: 0 <= i < |exts| ==> exts[i].Unsigned() == es[i].Unsigned()
  }

  ghost predicate Carried(votes: seq<Option<Vote>>, exts: seq<Ext>) {
    exists j :: CarriedBy(votes, exts, j)
  }

  lemma CollectedCarried(votes: seq<Option<Vote>>, voters: set<Bytes>, sigs: seq<Bytes>, k: nat)
    requires CollectShares(votes, voters).Some? && |sigs| == |CollectShares(votes, voters).value.exts|
    requires k < |votes| && votes[k].Some? && votes[k].value.proTxHash in voters
    ensures Carried(votes, WithSignatures(CollectShares(votes, voters).value.exts, sigs))
  {
    CollectedExts(votes, voters);
    hide CollectShares;
    hide Recoverables;
    var shared := CollectShares(votes, voters).value.exts;
    if shared == [] {
      assert CarriedBy(votes, WithSignatures(shared, sigs), k);
    } else {
      var j :| FromVoter(shared, votes, voters, j);
      assert CarriedBy(votes, WithSignatures(shared, sigs), j);
    }
  }

  /** Recovery yields the extensions of one of the block's votes. */
  lemma RecoveredCarried(cfg: Config, b: Bucket, id: BlockID)
    requires cfg.Size() > 0 && BucketOk(cfg, id.Key(), b) && RecoverAndVerify(cfg, b, id).Recovered?
    ensures Carried(b.votes, RecoverAndVerify(cfg, b, id).exts)
  {
    hide VerifyVote;
    hide GroupOk;
    hide CollectShares;
    hide RecoverSigns;
    hide CheckRecovered;
    hide BlockID.Key;
    if cfg.Size() == 1 {
      assert CarriedBy(b.votes, RecoverAndVerify(cfg, b, id).exts, 0);
    } else {
      SeveralCarried(cfg, b, id);
    }
  }

  lemma SeveralCarried(cfg: Config, b: Bucket, id: BlockID)
    requires cfg.Size() >= 2 && BucketOk(cfg, id.Key(), b) && RecoverAndVerify(cfg, b, id).Recovered?
    ensures Carried(b.votes, RecoverAndVerify(cfg, b, id).exts)
  {
    hide BucketOk;
    hide Carried;
    hide CollectShares;
    hide RecoverSigns;
    hide CheckRecovered;
    hide CanonicalGroup;
    hide BlockID.Key;
    SizeOf(cfg, id.Key(), b);
    CanonicalGroupExact(b.groups, cfg.vals.RecoveryPower());
    var identity := CanonicalGroup(b.groups, cfg.vals.RecoveryPower()).value;
    var voters := b.groups[identity].voters;
    var k := RepresentativeIndex(cfg, id.Key(), b, identity);
    RepresentativeVotes(cfg, id.Key(), b, identity, k);
    var shares := CollectShares(b.votes, voters).value;
    var sigs := RecoverSigns(cfg.p, shares, id.hash != []).value;
    CheckedKeeps(cfg, b.groups[identity].representative, sigs.block, WithSignatures(shares.exts, sigs.exts));
    CollectedCarried(b.votes, voters, sigs.exts, k);
  }

  lemma SizeOf(cfg: Config, key: Bytes, b: Bucket)
    requires BucketOk(cfg, key, b)
    ensures |b.votes| == cfg.Size()
  {
  }

  lemma CheckedKeeps(cfg: Config, v: Vote, blockSign: Bytes, exts: seq<Ext>)
    ensures var r := CheckRecovered(cfg, v, blockSign, exts); r.Recovered? ==> r.exts == exts
  {
  }

  // ---------------------------------------------------------------- over runs

  /** The extensions kept with a decision are those of a precommit filed under its block. */
  ghost predicate DecisionCarried(cfg: Config, s: State) {
    cfg.typ == Precommit && s.maj23.Some? ==>
      s.maj23.value.Key() in s.buckets && Carried(s.buckets[s.maj23.value.Key()].votes, s.exts)
  }

  /** Votes stay where they are filed. */
  ghost predicate SlotsStay(s: State, s': State) {
    forall k :: k in s.buckets ==>
      && k in s'.buckets && |s'.buckets[k].votes| == |s.buckets[k].votes|
      && forall i :: 0 <= i < |s.buckets[k].votes| && s.buckets[k].votes[i].Some? ==>
           s'.buckets[k].votes[i] == s.buckets[k].votes[i]
  }

  lemma CarriedStays(s: State, s': State, key: Bytes, exts: seq<Ext>)
    requires SlotsStay(s, s') && key in s.buckets && Carried(s.buckets[key].votes, exts)
    ensures key in s'.buckets && Carried(s'.buckets[key].votes, exts)
  {
    hide Recoverables;
    var j :| CarriedBy(s.buckets[key].votes, exts, j);
    assert CarriedBy(s'.buckets[key].votes, exts, j);
  }

  lemma FiledStays(cfg: Config, s: State, v: Vote, identity: Bytes)
    requires Shaped(cfg.Size(), s) && 0 <= v.index < cfg.Size() && Unknown(cfg.Size(), s, v)
    ensures SlotsStay(s, Filed(cfg, s, v, identity))
  {
    hide BlockID.Key;
  }

  lemma ApplyStays(cfg: Config, s: State, c: Call)
    requires Shaped(cfg.Size(), s)
    ensures SlotsStay(s, Apply(cfg, s, c))
  {
    hide AddVote;
    hide AddVerified;
    hide BlockID.Key;
    hide Filed;
    match c
    case VoteCall(vote, check) =>
      AddVoteCases(cfg, s, vote, check);
      if Admits(cfg, s, vote, check) {
        AddVerifiedBuckets(cfg, s, vote.value, GroupOf(cfg, vote.value).value);
        FiledStays(cfg, s, vote.value, GroupOf(cfg, vote.value).value);
      }
    case ClaimCall(_, _, _, _) =>
  }

  lemma FinalizeCarried(cfg: Config, f: State, v: Vote)
    requires cfg.typ == Precommit && cfg.Size() > 0 && f.maj23.None? && v.blockID.Key() in f.buckets
    requires |f.votes| == cfg.Size() && BucketOk(cfg, v.blockID.Key(), f.buckets[v.blockID.Key()])
    ensures DecisionCarried(cfg, Finalize(cfg, f, v).0)
  {
    hide BucketOk;
    hide RecoverAndVerify;
    hide Carried;
    hide BlockID.Key;
    SizeOf(cfg, v.blockID.Key(), f.buckets[v.blockID.Key()]);
    if RecoverAndVerify(cfg, f.buckets[v.blockID.Key()], v.blockID).Recovered? {
      RecoveredCarried(cfg, f.buckets[v.blockID.Key()], v.blockID);
    }
  }

  lemma AddVerifiedCarried(cfg: Config, s: State, v: Vote, identity: Bytes)
    requires cfg.vals.WellFormed() && Shaped(cfg.Size(), s) && BucketsOk(cfg, s.buckets) && s.maj23.None?
    requires Recorded(cfg, v, v.index) && GroupOf(cfg, v) == Some(identity) && Unknown(cfg.Size(), s, v)
    requires cfg.typ == Precommit
    ensures DecisionCarried(cfg, AddVerified(cfg, s, v, identity, cfg.vals.validators[v.index].power).state)
  {
    AddVerifiedStages(cfg, s, v, identity);
    FiledBucket(cfg, s, v, identity);
    assert Filed(cfg, s, v, identity).maj23.None? && |Filed(cfg, s, v, identity).votes| == cfg.Size();
    hide AddVerified;
    hide Filed;
    hide Finalize;
    hide BucketOk;
    hide BucketAdd;
    hide BlockID.Key;
    hide Carried;
    if Kept(s, v) {
      FinalizeCarried(cfg, Filed(cfg, s, v, identity), v);
    }
  }

  lemma ApplyCarried(cfg: Config, s: State, c: Call)
    requires cfg.vals.WellFormed() && HonestCall(cfg, c) && Valid(cfg, s) && Shaped(cfg.Size(), s)
    requires DecisionCarried(cfg, s)
    ensures DecisionCarried(cfg, Apply(cfg, s, c))
  {
    hide AddVote;
    hide AddVerified;
    hide BucketOk;
    hide Carried;
    hide BlockID.Key;
    if s.maj23.Some? {
      ApplyKeepsMajority(cfg, s, c);
      ApplyStays(cfg, s, c);
      hide Apply;
      if cfg.typ == Precommit {
        CarriedStays(s, Apply(cfg, s, c), s.maj23.value.Key(), s.exts);
      }
    } else if c.VoteCall? && cfg.typ == Precommit {
      AddVoteCases(cfg, s, c.vote, c.check);
      if Admits(cfg, s, c.vote, c.check) {
        AddVerifiedCarried(cfg, s, c.vote.value, GroupOf(cfg, c.vote.value).value);
      }
    }
  }

  lemma {:induction false} RunCarried(cfg: Config, calls: seq<Call>)
    requires HonestRun(cfg, calls)
    ensures DecisionCarried(cfg, Run(cfg, calls))
  {
    hide Apply;
    hide Valid;
    hide Shaped;
    hide Carried;
    if calls == [] {
    } else {
      var n := |calls| - 1;
      RunCarried(cfg, calls[..n]);
      ApplyCarried(cfg, Run(cfg, calls[..n]), calls[n]);
    }
  }

  /** Every commit made from a reachable precommit vote set carries, one by one, the recoverable extensions of a
      precommit for its block. */
  lemma CommitCarries(cfg: Config, calls: seq<Call>) returns (v: Vote)
    requires cfg.typ == Precommit && HonestRun(cfg, calls) && ThresholdKeyOk(cfg)
    requires forall i :: 0 <= i < |calls| ==> ProperCall(calls[i])
    requires Run(cfg, calls).maj23.Some?
    ensures var commit := MakeCommit(cfg, Run(cfg, calls));
            && commit.Ok? && Recorded(cfg, v, v.index) && v.blockID.Key() == commit.value.blockID.Key()
            && var exts, es := ExtsFromProto(commit.value.exts), Recoverables(v.exts);
            && exts.Some? && |exts.value| == |es|
            && forall i :: 0 <= i < |es| ==> exts.value[i].Unsigned() == es[i].Unsigned()
  {
    hide Run;
    RunSigned(cfg, calls);
    var s := Run(cfg, calls);
    SignedCommitVerifies(cfg, s);
    RunCarried(cfg, calls);
    hide MakeCommit;
    hide SignedFor;
    hide VerifyCommit;
    hide VerifyVote;
    hide GroupsOk;
    hide BlockID.Key;
    hide Recoverables;
    var key := s.maj23.value.Key();
    assert BucketOk(cfg, key, s.buckets[key]);
    var j :| CarriedBy(s.buckets[key].votes, s.exts, j);
    v := s.buckets[key].votes[j].value;
  }
}
