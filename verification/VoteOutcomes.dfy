/** What the answers of a vote set mean to its callers (types/vote_set.go). */
module VoteOutcomes {
  import opened Prelude
  import opened BlockIDs
  import opened Signing
  import opened Validators
  import opened Evidence
  import opened Recovery
  import opened VoteSetModel
  import opened VoteSetInvariant
  import opened VoteSetRuns
  import opened ThresholdRecovery

  // ---------------------------------------------------------------- votes

  /** A good vote of this height, round and type by a member of the validator set. */
  ghost predicate Good(cfg: Config, v: Vote) {
    v.proTxHash != [] && Recorded(cfg, v, v.index)
  }

  predicate Claimed(s: State, key: Bytes) {
    key in s.buckets && s.buckets[key].peerMaj23
  }

  /** The vote of this validator for this key is known. */
  ghost predicate KnownAs(cfg: Config, s: State, v: Vote, u: Vote)
    requires Shaped(cfg.Size(), s)
  {
    && 0 <= v.index < cfg.Size()
    && var key := v.blockID.Key();
    && (s.votes[v.index] == Some(u) || (key in s.buckets && s.buckets[key].votes[v.index] == Some(u)))
    && u.blockID.Key() == key
  }

  lemma FullAdmits(cfg: Config, s: State, v: Vote)
    requires Shaped(cfg.Size(), s)
    ensures Admits(cfg, s, Some(v), Full) <==> Good(cfg, v) && Unknown(cfg.Size(), s, v)
  {
    hide BlockID.Key;
    if Recorded(cfg, v, v.index) {
      RecordedHasGroup(cfg, v);
    }
    hide GroupOf;
    hide VerifyVote;
  }

  /** A fully checked vote is added, or added in conflict with the canonical one, if and only if it is good and was
      not known; a conflicting one counts as added if and only if a peer claimed its block. */
  lemma AddedIff(cfg: Config, s: State, v: Vote)
    requires cfg.vals.WellFormed() && Valid(cfg, s) && ProperState(s) && v.blockID.Proper()
    ensures var outcome := AddVote(cfg, s, Some(v), Full).outcome;
            && (outcome == Added <==> Good(cfg, v) && Unknown(cfg.Size(), s, v) && s.votes[v.index].None?)
            && (forall added, u :: outcome == Conflict(added, u) <==>
                  Good(cfg, v) && Unknown(cfg.Size(), s, v) && s.votes[v.index] == Some(u) &&
                  added == Claimed(s, v.blockID.Key()))
  {
    AddVoteCases(cfg, s, Some(v), Full);
    FullAdmits(cfg, s, v);
    AddVoteNoPanic(cfg, s, Some(v), Full);
    hide AddVote;
    hide AddVerified;
    hide Valid;
    hide BlockID.Key;
    hide Recorded;
    hide Finalize;
    if Admits(cfg, s, Some(v), Full) {
      AddVerifiedStages(cfg, s, v, GroupOf(cfg, v).value);
    }
    hide Filed;
    hide Attempts;
    hide BucketAdd;
    hide GroupOf;
  }

  /** Fresh evidence of a vote, or a budget that covers its checks, does what a full check does. */
  lemma ShortcutsWork(cfg: Config, s: State, v: Vote, ref: Ref)
    requires Shaped(cfg.Size(), s) && Good(cfg, v)
    ensures var val := cfg.vals.validators[v.index];
            var e := VerifyVoteSignatures(cfg.p, ref, v, cfg.Context(), val.pubKey, val.proTxHash, None);
            e.Ok? && AddVote(cfg, s, Some(v), WithEvidence(e.value, ref)) == AddVote(cfg, s, Some(v), Full)
    ensures AddVote(cfg, s, Some(v), Budgeted(Permits(true, true))) == AddVote(cfg, s, Some(v), Full)
  {
    hide AddVerified;
    hide GroupOf;
    hide BlockID.Key;
    hide SignItems;
    hide Recoverables;
    hide BlockSignItem;
    hide VerifyQuorum;
    var val := cfg.vals.validators[v.index];
    FreshEvidenceMatches(cfg.p, ref, v, v, cfg.Context(), val.pubKey, val.proTxHash, None);
    var data := VoteSignData(cfg.p, cfg.Context(), v).value;
    VerifyQuorumMeaning(cfg.p, val.pubKey.value, data, VoteSigns(v), None);
    VerifyQuorumMeaning(cfg.p, val.pubKey.value, data, VoteSigns(v), Some(Permits(true, true)));
    hide VoteMatches;
    hide VerifyVoteSignatures;
  }

  /** A vote is a duplicate only of a known vote with its block signature, and a known vote with another signature is
      an error. */
  lemma DuplicateOf(cfg: Config, s: State, v: Vote, check: Check)
    requires Valid(cfg, s) && Shaped(cfg.Size(), s)
    ensures var outcome := AddVote(cfg, s, Some(v), check).outcome;
            && (outcome == Duplicate ==> exists u :: KnownAs(cfg, s, v, u) && u.blockSign == v.blockSign)
            && (outcome == Rejected(NonDeterministicSignature) ==>
                  exists u :: KnownAs(cfg, s, v, u) && u.blockSign != v.blockSign)
  {
    hide BlockID.Key;
    hide AddVerified;
    hide GroupOf;
    hide VerifyVote;
    hide VoteMatches;
    hide GroupsOk;
    if Precheck(cfg, Some(v)).None? {
      var known := GetVote(s, v.index, v.blockID.Key());
      if known.Some? {
        BucketVoteKey(cfg, s, v);
        assert KnownAs(cfg, s, v, known.value);
      } else if Admits(cfg, s, Some(v), check) {
        AddVerifiedOutcomes(cfg, s, v, GroupOf(cfg, v).value);
      }
    }
  }

  lemma BucketVoteKey(cfg: Config, s: State, v: Vote)
    requires Valid(cfg, s) && Shaped(cfg.Size(), s) && 0 <= v.index < cfg.Size()
    ensures var key := v.blockID.Key();
            key in s.buckets && s.buckets[key].votes[v.index].Some? ==>
              s.buckets[key].votes[v.index].value.blockID.Key() == key
  {
    hide BlockID.Key;
    hide VerifyVote;
    hide GroupsOk;
    hide Views;
    hide CanonicalOk;
  }

  /** Every refusal says what is wrong with the vote, and none changes the set. */
  lemma RejectedBecause(cfg: Config, s: State, vote: Option<Vote>, check: Check)
    requires Shaped(cfg.Size(), s) && AddVote(cfg, s, vote, check).outcome.Rejected?
    ensures AddVote(cfg, s, vote, check).state == s
    ensures var e := AddVote(cfg, s, vote, check).outcome.error;
            && (e == NilVote <==> vote.None?)
            && (e == NegativeIndex ==> vote.value.index < 0)
            && (e == EmptyProTxHash ==> vote.value.proTxHash == [])
            && (e == UnexpectedStep ==>
                  var v := vote.value; v.height != cfg.height || v.round != cfg.round || v.typ != cfg.typ)
            && (e == UnknownIndex ==> vote.value.index >= cfg.Size())
            && (e == ForeignProTxHash ==>
                  var v := vote.value;
                  0 <= v.index < cfg.Size() && v.proTxHash != cfg.vals.validators[v.index].proTxHash)
            && (e == EvidenceMismatch ==> check.WithEvidence?)
            && (e.InvalidSignature? ==>
                  var v := vote.value;
                  && !check.WithEvidence? && 0 <= v.index < cfg.Size()
                  && VerifyVote(cfg.p, cfg.Context(), v, cfg.vals.validators[v.index].pubKey, v.proTxHash,
                                if check.Budgeted? then Some(check.permits) else None) == Err(e.error))
  {
    hide AddVerified;
    hide GroupOf;
    hide VerifyVote;
    hide VoteMatches;
    hide BlockID.Key;
    AddVoteCases(cfg, s, vote, check);
    if Admits(cfg, s, vote, check) {
      AddVerifiedOutcomes(cfg, s, vote.value, GroupOf(cfg, vote.value).value);
    }
  }

  // ---------------------------------------------------------------- peer claims

  /** A claim is accepted if and only if it is for this height and either the peer claimed that very block before or
      claimed nothing and there is room. It marks the block's bucket and keeps every vote. */
  lemma ClaimOutcomes(cfg: Config, s: State, peer: string, id: BlockID, height: int, round: int)
    ensures var (s', outcome) := SetPeerMaj23(cfg, s, peer, id, height, round);
            && (outcome == Accepted <==>
                  && height == cfg.height
                  && (if peer in s.claims then s.claims[peer].blockID == id else |s.claims| < MAX_PEER_MAJ23S))
            && (outcome == HeightMismatch <==> height != cfg.height)
            && (outcome == ConflictingClaim ==> peer in s.claims && s.claims[peer].blockID != id)
            && (outcome == CapReached ==> peer !in s.claims && |s.claims| >= MAX_PEER_MAJ23S)
            && (outcome == Accepted ==> peer in s'.claims && s'.claims[peer].blockID == id)
            && (outcome == Accepted && peer !in s.claims ==> Claimed(s', id.Key()))
            && (outcome != Accepted || peer in s.claims ==> s' == s)
  {
    hide BlockID.Key;
  }

  /** What a peer claimed stays, and its block stays marked. */
  lemma ApplyKeepsClaim(cfg: Config, s: State, c: Call, peer: string, key: Bytes)
    requires Shaped(cfg.Size(), s)
    ensures peer in s.claims ==> peer in Apply(cfg, s, c).claims && Apply(cfg, s, c).claims[peer] == s.claims[peer]
    ensures Claimed(s, key) ==> Claimed(Apply(cfg, s, c), key)
  {
    hide AddVote;
    hide AddVerified;
    hide BlockID.Key;
    match c
    case VoteCall(vote, check) =>
      AddVoteCases(cfg, s, vote, check);
      if Admits(cfg, s, vote, check) {
        AddVerifiedKeepsClaim(cfg, s, vote.value, GroupOf(cfg, vote.value).value, key);
      }
    case ClaimCall(_, _, _, _) =>
  }

  lemma AddVerifiedKeepsClaim(cfg: Config, s: State, v: Vote, identity: Bytes, key: Bytes)
    requires Shaped(cfg.Size(), s) && 0 <= v.index < cfg.Size() && Unknown(cfg.Size(), s, v)
    ensures var s' := AddVerified(cfg, s, v, identity, cfg.vals.validators[v.index].power).state;
            s'.claims == s.claims && (Claimed(s, key) ==> Claimed(s', key))
  {
    AddVerifiedStages(cfg, s, v, identity);
    AddVerifiedBuckets(cfg, s, v, identity);
    FiledKeepsSigns(cfg, s, v, identity, key);
    hide AddVerified;
    hide Finalize;
    hide Filed;
    hide BucketAdd;
    hide BlockID.Key;
    if Kept(s, v) && Filed(cfg, s, v, identity).maj23.None? {
      FinalizeCases(cfg, Filed(cfg, s, v, identity), v);
    }
  }

  /** Filing a vote leaves claims and recovered signatures alone. */
  lemma FiledKeepsSigns(cfg: Config, s: State, v: Vote, identity: Bytes, key: Bytes)
    requires Shaped(cfg.Size(), s) && 0 <= v.index < cfg.Size()
    ensures var f := Filed(cfg, s, v, identity);
            && f.claims == s.claims && f.maj23 == s.maj23 && f.blockSign == s.blockSign && f.exts == s.exts
            && v.blockID.Key() in f.buckets && |f.buckets[v.blockID.Key()].votes| == |f.votes|
            && (Claimed(s, key) ==> Claimed(f, key))
  {
    hide BlockID.Key;
  }

  lemma {:induction false} ClaimIsFinal(cfg: Config, calls: seq<Call>, i: nat, peer: string, key: Bytes)
    requires HonestRun(cfg, calls) && i <= |calls|
    ensures var s, s' := Run(cfg, calls[..i]), Run(cfg, calls);
            && (peer in s.claims ==> peer in s'.claims && s'.claims[peer] == s.claims[peer])
            && (Claimed(s, key) ==> Claimed(s', key))
    decreases |calls|
  {
    hide Apply;
    hide Valid;
    hide Shaped;
    hide Claimed;
    var n := |calls| - 1;
    if i == |calls| {
      assert calls[..i] == calls;
    } else {
      assert calls[..n][..i] == calls[..i];
      ClaimIsFinal(cfg, calls[..n], i, peer, key);
      ApplyKeepsClaim(cfg, Run(cfg, calls[..n]), calls[n], peer, key);
    }
  }

  // ---------------------------------------------------------------- no second attempt

  /** A decision is attempted when a block reaches the quorum or one of its groups the recovery power. Past both, a
      further vote of the group is no occasion for another attempt, however the first one went. */
  lemma NoRetry(cfg: Config, s: State, v: Vote, identity: Bytes)
    requires Shaped(cfg.Size(), s) && 0 <= v.index < cfg.Size() && Unknown(cfg.Size(), s, v) && s.maj23.None?
    requires var key := v.blockID.Key();
             && key in s.buckets && s.buckets[key].sum >= cfg.vals.QuorumPower() && identity in s.buckets[key].groups
             && s.buckets[key].groups[identity].power >= cfg.vals.RecoveryPower()
    ensures AddVerified(cfg, s, v, identity, cfg.vals.validators[v.index].power).state.maj23.None?
  {
    AddVerifiedStages(cfg, s, v, identity);
    hide AddVerified;
    hide Finalize;
    hide BlockID.Key;
  }

  // ---------------------------------------------------------------- no signatures without a decision

  /** Recovered signatures are kept for a decision only, and for precommits only. */
  predicate NoStraySigns(cfg: Config, s: State) {
    s.maj23.None? || cfg.typ != Precommit ==> s.blockSign == [] && s.exts == []
  }

  lemma FinalizeNoStray(cfg: Config, f: State, v: Vote)
    requires f.maj23.None? && v.blockID.Key() in f.buckets && |f.buckets[v.blockID.Key()].votes| == |f.votes|
    requires NoStraySigns(cfg, f)
    ensures NoStraySigns(cfg, Finalize(cfg, f, v).0)
  {
    hide RecoverAndVerify;
    hide BlockID.Key;
  }

  lemma ApplyNoStray(cfg: Config, s: State, c: Call)
    requires Shaped(cfg.Size(), s) && NoStraySigns(cfg, s)
    ensures NoStraySigns(cfg, Apply(cfg, s, c))
  {
    hide AddVote;
    hide AddVerified;
    hide BlockID.Key;
    hide Finalize;
    match c
    case VoteCall(vote, check) =>
      AddVoteCases(cfg, s, vote, check);
      if Admits(cfg, s, vote, check) {
        AddVerifiedNoStray(cfg, s, vote.value, GroupOf(cfg, vote.value).value);
      }
    case ClaimCall(_, _, _, _) =>
  }

  lemma AddVerifiedNoStray(cfg: Config, s: State, v: Vote, identity: Bytes)
    requires Shaped(cfg.Size(), s) && 0 <= v.index < cfg.Size() && Unknown(cfg.Size(), s, v) && NoStraySigns(cfg, s)
    ensures NoStraySigns(cfg, AddVerified(cfg, s, v, identity, cfg.vals.validators[v.index].power).state)
  {
    AddVerifiedStages(cfg, s, v, identity);
    FiledKeepsSigns(cfg, s, v, identity, []);
    hide AddVerified;
    hide Finalize;
    hide Filed;
    hide BucketAdd;
    hide BlockID.Key;
    if Kept(s, v) && Filed(cfg, s, v, identity).maj23.None? {
      FinalizeNoStray(cfg, Filed(cfg, s, v, identity), v);
    }
  }

  lemma {:induction false} RunNoStray(cfg: Config, calls: seq<Call>)
    requires HonestRun(cfg, calls)
    ensures NoStraySigns(cfg, Run(cfg, calls))
  {
    hide Apply;
    hide Valid;
    hide Shaped;
    if calls == [] {
    } else {
      var n := |calls| - 1;
      RunNoStray(cfg, calls[..n]);
      ApplyNoStray(cfg, Run(cfg, calls[..n]), calls[n]);
    }
  }
}
