/** Theorems over every run of vote and claim calls. */
module VoteSetRuns {
  import opened Prelude
  import opened BlockIDs
  import opened Signing
  import opened Validators
  import opened Commits
  import opened Evidence
  import opened Recovery
  import opened VoteSetModel
  import opened VoteSetInvariant

  /** The evidence a run offers was produced by verifications; nothing is asked of votes, peers or claims. */
  ghost predicate HonestCall(cfg: Config, c: Call) {
    c.VoteCall? ==> Honest(cfg, c.check)
  }

  /** A run over a well-formed validator set in which all evidence was produced by verifications. */
  ghost predicate HonestRun(cfg: Config, calls: seq<Call>) {
    cfg.vals.WellFormed() && forall i :: 0 <= i < |calls| ==> HonestCall(cfg, calls[i])
  }

  ghost function Apply(cfg: Config, s: State, c: Call): State
    requires Shaped(cfg.Size(), s)
  {
    match c
    case VoteCall(vote, check) => AddVote(cfg, s, vote, check).state
    case ClaimCall(peer, id, height, round) => SetPeerMaj23(cfg, s, peer, id, height, round).0
  }

  lemma ApplyValid(cfg: Config, s: State, c: Call)
    requires cfg.vals.WellFormed() && HonestCall(cfg, c) && Valid(cfg, s)
    ensures Valid(cfg, Apply(cfg, s, c))
  {
    match c
    case VoteCall(vote, check) => AddVoteValid(cfg, s, vote, check);
    case ClaimCall(peer, id, height, round) => SetPeerMaj23Valid(cfg, s, peer, id, height, round);
  }

  /** The state after a run from the empty vote set. Every reachable state is valid. */
  ghost function Run(cfg: Config, calls: seq<Call>): (s: State)
    requires HonestRun(cfg, calls)
    ensures Valid(cfg, s) && Shaped(cfg.Size(), s)
  {
    if calls == [] then InitialValid(cfg); Initial(cfg)
    else
      var n := |calls| - 1;
      var s := Run(cfg, calls[..n]);
      ApplyValid(cfg, s, calls[n]);
      Apply(cfg, s, calls[n])
  }

  /** One step of a run. */
  lemma RunStep(cfg: Config, calls: seq<Call>)
    requires HonestRun(cfg, calls)
    ensures calls == [] ==> Run(cfg, calls) == Initial(cfg)
    ensures calls != [] ==>
              var n := |calls| - 1;
              && HonestRun(cfg, calls[..n]) && HonestCall(cfg, calls[n])
              && Run(cfg, calls) == Apply(cfg, Run(cfg, calls[..n]), calls[n])
  {
    hide Apply;
    hide Valid;
  }

  // ---------------------------------------------------------------- ways of checking

  /** Genuine evidence or a budget admits nothing a full verification would not: the call does what
      `AddVote` does, or leaves the set alone and says that the evidence or the budget fell short. */
  lemma CheckIsVerification(cfg: Config, s: State, vote: Option<Vote>, check: Check)
    requires Shaped(cfg.Size(), s) && Honest(cfg, check)
    ensures var step := AddVote(cfg, s, vote, check);
            || step == AddVote(cfg, s, vote, Full)
            || step == Step(s, Rejected(EvidenceMismatch))
            || step == Step(s, Rejected(InvalidSignature(BudgetExhausted)))
  {
    hide AddVerified;
    if Precheck(cfg, vote).None? {
      CheckedLikeFull(cfg, vote.value, check);
      hide Checked;
      hide GroupOf;
    }
  }

  lemma CheckedLikeFull(cfg: Config, v: Vote, check: Check)
    requires Precheck(cfg, Some(v)).None? && Honest(cfg, check)
    ensures Checked(cfg, v, check) in {Checked(cfg, v, Full), Some(EvidenceMismatch),
                                       Some(InvalidSignature(BudgetExhausted))}
  {
    var val := cfg.vals.validators[v.index];
    match check
    case Full =>
    case WithEvidence(e, ref) =>
      if Checked(cfg, v, check).None? {
        MatchedVoteVerifies(cfg.p, e, ref, v, cfg.Context(), val.pubKey, val.proTxHash);
      }
    case Budgeted(permits) =>
      if VoteSignData(cfg.p, cfg.Context(), v).Ok? && VerifyBasic(v, val.proTxHash, val.pubKey).None? {
        VerifyQuorumMeaning(cfg.p, val.pubKey.value, VoteSignData(cfg.p, cfg.Context(), v).value, VoteSigns(v),
                            Some(permits));
        hide VerifyQuorum;
      }
  }

  // ---------------------------------------------------------------- dead branches

  /** The two panics of the add path, and the identity error after verification, cannot happen. */
  lemma AddVoteDeadBranches(cfg: Config, s: State, vote: Option<Vote>, check: Check)
    requires Honest(cfg, check) && Shaped(cfg.Size(), s)
    ensures AddVote(cfg, s, vote, check).outcome !in {DuplicatePanic, NotAddedPanic, Rejected(NoIdentity)}
  {
    hide AddVote;
    hide AddVerified;
    AddVoteCases(cfg, s, vote, check);
    if Admits(cfg, s, vote, check) {
      AddVerifiedOutcomes(cfg, s, vote.value, GroupOf(cfg, vote.value).value);
    }
  }

  /** The bucket holds only votes `Vote.ValidateBasic` lets through. */
  ghost predicate ProperBucket(b: Bucket) {
    forall i :: 0 <= i < |b.votes| && b.votes[i].Some? ==> b.votes[i].value.blockID.Proper()
  }

  ghost predicate ProperState(s: State) {
    forall k :: k in s.buckets ==> ProperBucket(s.buckets[k])
  }

  /** The length panic needs a block without a hash and a voter with recoverable extensions. */
  lemma LengthPanicCause(cfg: Config, b: Bucket, id: BlockID) returns (voters: set<Bytes>)
    requires RecoverAndVerify(cfg, b, id) == LengthPanic
    ensures id.hash == [] && CollectShares(b.votes, voters).Some? && CollectShares(b.votes, voters).value.exts != []
  {
    hide CollectShares;
    hide CheckRecovered;
    voters := b.groups[CanonicalGroup(b.groups, cfg.vals.RecoveryPower()).value].voters;
  }

  /** On proper votes the recovered signatures match the recoverable extensions in number. */
  lemma NoLengthPanic(cfg: Config, b: Bucket, id: BlockID)
    requires BucketOk(cfg, id.Key(), b) && ProperBucket(b) && id.Proper()
    ensures RecoverAndVerify(cfg, b, id) != LengthPanic
  {
    hide RecoverAndVerify;
    hide CollectShares;
    hide BucketOk;
    hide ProperBucket;
    if RecoverAndVerify(cfg, b, id) == LengthPanic {
      var voters := LengthPanicCause(cfg, b, id);
      NilBlockNoExts(cfg, b, id, voters);
    }
  }

  lemma NilBlockNoExts(cfg: Config, b: Bucket, id: BlockID, voters: set<Bytes>)
    requires BucketOk(cfg, id.Key(), b) && ProperBucket(b) && id.IsNil() && CollectShares(b.votes, voters).Some?
    ensures CollectShares(b.votes, voters).value.exts == []
  {
    CollectedExts(b.votes, voters);
    hide CollectShares;
    hide VerifyVote;
    hide GroupsOk;
    forall j | 0 <= j < |b.votes| && b.votes[j].Some?
      ensures b.votes[j].value.blockID.IsNil()
    {
      KeyInjective(b.votes[j].value.blockID, id);
    }
  }

  ghost predicate ProperCall(c: Call) {
    c.VoteCall? && c.vote.Some? ==> c.vote.value.blockID.Proper()
  }

  lemma FiledProper(cfg: Config, s: State, v: Vote, identity: Bytes)
    requires Shaped(cfg.Size(), s) && 0 <= v.index < cfg.Size() && ProperState(s) && v.blockID.Proper()
    ensures ProperState(Filed(cfg, s, v, identity))
  {
  }

  lemma AddVerifiedNoPanic(cfg: Config, s: State, v: Vote, identity: Bytes)
    requires cfg.vals.WellFormed() && Valid(cfg, s) && ProperState(s) && v.blockID.Proper()
    requires Recorded(cfg, v, v.index) && GroupOf(cfg, v) == Some(identity) && Unknown(cfg.Size(), s, v)
    ensures var step := AddVerified(cfg, s, v, identity, cfg.vals.validators[v.index].power);
            step.outcome != RecoveryPanic && ProperState(step.state)
  {
    AddVerifiedStages(cfg, s, v, identity);
    hide AddVerified;
    hide Finalize;
    hide RecoverAndVerify;
    if Kept(s, v) {
      var f := Filed(cfg, s, v, identity);
      FiledBucket(cfg, s, v, identity);
      FiledProper(cfg, s, v, identity);
      NoLengthPanic(cfg, f.buckets[v.blockID.Key()], v.blockID);
      if f.maj23.None? {
        FinalizeCases(cfg, f, v);
        FinalizePanics(cfg, f, v);
      }
    }
  }

  lemma FinalizePanics(cfg: Config, s: State, v: Vote)
    requires v.blockID.Key() in s.buckets && |s.buckets[v.blockID.Key()].votes| == |s.votes|
    ensures Finalize(cfg, s, v).1 ==> RecoverAndVerify(cfg, s.buckets[v.blockID.Key()], v.blockID) == LengthPanic
  {
    hide RecoverAndVerify;
  }

  /** With proper votes nothing in `AddVote` panics. */
  lemma AddVoteNoPanic(cfg: Config, s: State, vote: Option<Vote>, check: Check)
    requires cfg.vals.WellFormed() && Honest(cfg, check) && Valid(cfg, s) && ProperState(s)
    requires ProperCall(VoteCall(vote, check))
    ensures AddVote(cfg, s, vote, check).outcome != RecoveryPanic
    ensures ProperState(AddVote(cfg, s, vote, check).state)
  {
    AddVoteCases(cfg, s, vote, check);
    hide AddVote;
    hide AddVerified;
    if Admits(cfg, s, vote, check) {
      AddVerifiedNoPanic(cfg, s, vote.value, GroupOf(cfg, vote.value).value);
    }
  }

  lemma InitialProper(cfg: Config)
    ensures ProperState(Initial(cfg))
  {
  }

  lemma {:induction false} RunProper(cfg: Config, calls: seq<Call>)
    requires HonestRun(cfg, calls) && forall i :: 0 <= i < |calls| ==> ProperCall(calls[i])
    ensures ProperState(Run(cfg, calls))
  {
    hide Apply;
    hide Valid;
    hide Run;
    hide ProperState;
    hide ProperCall;
    hide Initial;
    RunStep(cfg, calls);
    if calls == [] {
      InitialProper(cfg);
    } else {
      var n := |calls| - 1;
      RunProper(cfg, calls[..n]);
      ApplyProper(cfg, Run(cfg, calls[..n]), calls[n]);
    }
  }

  lemma ApplyProper(cfg: Config, s: State, c: Call)
    requires cfg.vals.WellFormed() && HonestCall(cfg, c) && Valid(cfg, s) && ProperState(s) && ProperCall(c)
    ensures ProperState(Apply(cfg, s, c))
  {
    hide AddVote;
    hide Valid;
    match c
    case VoteCall(vote, check) =>
      AddVoteNoPanic(cfg, s, vote, check);
    case ClaimCall(peer, id, height, round) =>
  }

  /** No call of any run panics, whatever the validators sign and the peers claim. */
  lemma NoCallPanics(cfg: Config, calls: seq<Call>, vote: Option<Vote>, check: Check)
    requires HonestRun(cfg, calls) && Honest(cfg, check)
    requires (forall i :: 0 <= i < |calls| ==> ProperCall(calls[i])) && ProperCall(VoteCall(vote, check))
    ensures AddVote(cfg, Run(cfg, calls), vote, check).outcome !in {DuplicatePanic, NotAddedPanic, RecoveryPanic}
  {
    hide AddVote;
    hide Run;
    RunProper(cfg, calls);
    AddVoteNoPanic(cfg, Run(cfg, calls), vote, check);
    AddVoteDeadBranches(cfg, Run(cfg, calls), vote, check);
  }

  /** Keys are not injective on what peers may claim: a claim without a block hash can mark the bucket of any
      block. */
  lemma ClaimCollides(cfg: Config, s: State, peer: string, a: BlockID, round: int)
    requires a.hash != [] && peer !in s.claims && |s.claims| < MAX_PEER_MAJ23S
    ensures var b := BlockID([], PartSetHeader(0, []), a.Key());
            var s' := SetPeerMaj23(cfg, s, peer, b, cfg.height, round).0;
            b.ValidateBasic() && b != a && a.Key() in s'.buckets && s'.buckets[a.Key()].peerMaj23
  {
    KeyCollision(a);
  }

  // ---------------------------------------------------------------- the majority never changes

  lemma AddVerifiedKeepsMajority(cfg: Config, s: State, v: Vote, identity: Bytes)
    requires Shaped(cfg.Size(), s) && 0 <= v.index < cfg.Size() && Unknown(cfg.Size(), s, v) && s.maj23.Some?
    ensures var s' := AddVerified(cfg, s, v, identity, cfg.vals.validators[v.index].power).state;
            s'.maj23 == s.maj23 && s'.blockSign == s.blockSign && s'.exts == s.exts
  {
    hide Finalize;
  }

  /** Once set, the majority and the signatures recovered for it survive every call. */
  lemma ApplyKeepsMajority(cfg: Config, s: State, c: Call)
    requires Shaped(cfg.Size(), s) && s.maj23.Some?
    ensures var s' := Apply(cfg, s, c); s'.maj23 == s.maj23 && s'.blockSign == s.blockSign && s'.exts == s.exts
  {
    hide AddVote;
    hide AddVerified;
    if c.VoteCall? {
      AddVoteCases(cfg, s, c.vote, c.check);
      if Admits(cfg, s, c.vote, c.check) {
        AddVerifiedKeepsMajority(cfg, s, c.vote.value, GroupOf(cfg, c.vote.value).value);
      }
    }
  }

  /** At call boundaries `maj23` goes from unset to set at most once. */
  lemma {:induction false} MajorityIsFinal(cfg: Config, calls: seq<Call>, i: nat)
    requires HonestRun(cfg, calls) && i <= |calls| && Run(cfg, calls[..i]).maj23.Some?
    ensures var s, s' := Run(cfg, calls[..i]), Run(cfg, calls);
            s'.maj23 == s.maj23 && s'.blockSign == s.blockSign && s'.exts == s.exts
    decreases |calls|
  {
    hide Apply;
    hide Valid;
    hide Shaped;
    var n := |calls| - 1;
    if i == |calls| {
      assert calls[..i] == calls;
    } else {
      assert calls[..n][..i] == calls[..i];
      MajorityIsFinal(cfg, calls[..n], i);
      ApplyKeepsMajority(cfg, Run(cfg, calls[..n]), calls[n]);
    }
  }

  // ---------------------------------------------------------------- memory

  /** Equivocating validators and arbitrary peers cannot make a vote set track more blocks than this. */
  lemma TrackedBlocksBounded(cfg: Config, calls: seq<Call>)
    requires HonestRun(cfg, calls)
    ensures var s := Run(cfg, calls);
            && |s.buckets| <= |Voted(s.votes)| + |s.claims|
            && |s.buckets| <= cfg.Size() + MAX_PEER_MAJ23S
  {
    var s := Run(cfg, calls);
    VotedCount(s.votes);
  }

  lemma {:induction false} VotedCount(votes: seq<Option<Vote>>)
    ensures |Voted(votes)| <= |votes|
  {
    if votes == [] {
    } else {
      var n := |votes| - 1;
      VotedCount(votes[..n]);
      assert Voted(votes) == Voted(votes[..n]) + (if votes[n].Some? then {n} else {});
    }
  }
}
