/** The exact moment of decision, what two decisions share, and independence from arrival order. */
module VoteSetAgreement {
  import opened Prelude
  import opened BlockIDs
  import opened Signing
  import opened Validators
  import opened Commits
  import opened Evidence
  import opened Recovery
  import opened VoteSetModel
  import opened VoteSetInvariant
  import opened VoteSetRuns
  import opened VoteSetDecisions
  import opened ThresholdRecovery

  // ---------------------------------------------------------------- no attempt is missed

  /** A block has enough power to be voted for and, for precommits, one extension group able to recover. */
  ghost predicate Ready(cfg: Config, b: Bucket) {
    && b.sum >= cfg.vals.QuorumPower()
    && (cfg.typ == Precommit && cfg.Size() >= 2 ==> Qualifies(b.groups, cfg.vals.RecoveryPower()))
  }

  /** `maj23` is set exactly when some block is ready, and then to a ready block. */
  ghost predicate Decided(cfg: Config, s: State) {
    match s.maj23
    case None => forall k :: k in s.buckets ==> !Ready(cfg, s.buckets[k])
    case Some(id) => id.Key() in s.buckets && Ready(cfg, s.buckets[id.Key()])
  }

  /** What the precommits of several validators rest on. */
  ghost predicate Recoverable(cfg: Config) {
    cfg.typ == Precommit && cfg.Size() >= 2 ==> ThresholdScheme(cfg)
  }

  /** A ready block of validated votes recovers. */
  lemma ReadyRecovers(cfg: Config, b: Bucket, id: BlockID)
    requires cfg.typ == Precommit && cfg.vals.WellFormed() && Recoverable(cfg)
    requires BucketOk(cfg, id.Key(), b) && ValidatedBucket(b) && id.Proper() && Ready(cfg, b)
    ensures RecoverAndVerify(cfg, b, id).Recovered?
  {
    hide VerifyVote;
    hide GroupsOk;
    hide ThresholdScheme;
    hide CanonicalGroup;
    hide CollectShares;
    hide CheckRecovered;
    hide BlockID.Key;
    if cfg.Size() >= 2 {
      hide RecoverAndVerify;
      RecoveredIff(cfg, b, id);
      forall j | 0 <= j < |b.votes| && b.votes[j].Some?
        ensures b.votes[j].value.blockID == id
      {
        SlotVote(cfg, b, id, j);
      }
    } else if cfg.Size() == 1 {
      assert Weight(cfg.vals.Powers()[..0], Filled(b.votes)[..0]) == 0;
      assert b.votes[0].Some?;
    }
  }

  lemma ReadyGrows(cfg: Config, b: Bucket, v: Vote, identity: Bytes)
    requires 0 <= v.index < |b.votes| == |b.bits| == cfg.Size() && b.votes[v.index].None? && cfg.vals.WellFormed()
    ensures var (b', reached) := BucketAdd(b, v, identity, cfg.vals.validators[v.index].power,
                                           cfg.vals.RecoveryPower());
            && (Ready(cfg, b) ==> Ready(cfg, b'))
            && (!Ready(cfg, b) && Ready(cfg, b') ==> b.sum < cfg.vals.QuorumPower() || reached)
  {
    var recovery := cfg.vals.RecoveryPower();
    var (b', reached) := BucketAdd(b, v, identity, cfg.vals.validators[v.index].power, recovery);
    if Qualifies(b.groups, recovery) {
      var id :| id in b.groups && b.groups[id].power >= recovery;
      assert b'.groups[id].power >= recovery;
    } else if Qualifies(b'.groups, recovery) {
      var id :| id in b'.groups && b'.groups[id].power >= recovery;
      assert id == identity;
    }
  }

  /** Finalizing decides on a ready block only, and on every ready block recovery succeeds for. */
  lemma FinalizeDecides(cfg: Config, s: State, v: Vote)
    requires s.maj23.None? && v.blockID.Key() in s.buckets && |s.buckets[v.blockID.Key()].votes| == |s.votes|
    requires cfg.Size() > 0 && |s.votes| == cfg.Size() && s.buckets[v.blockID.Key()].sum >= cfg.vals.QuorumPower()
    ensures var b, s' := s.buckets[v.blockID.Key()], Finalize(cfg, s, v).0;
            && (s'.maj23.Some? ==> Ready(cfg, b))
            && (Ready(cfg, b) && (cfg.typ == Precommit ==> RecoverAndVerify(cfg, b, v.blockID).Recovered?) ==>
                s'.maj23.Some?)
  {
    CanonicalGroupExact(s.buckets[v.blockID.Key()].groups, cfg.vals.RecoveryPower());
    hide CanonicalGroup;
    hide CollectShares;
    hide RecoverSigns;
    hide CheckRecovered;
  }

  lemma FiledDecided(cfg: Config, s: State, v: Vote, identity: Bytes)
    requires cfg.vals.WellFormed() && Shaped(cfg.Size(), s) && 0 <= v.index < cfg.Size() && Unknown(cfg.Size(), s, v)
    requires Decided(cfg, s)
    ensures var f := Filed(cfg, s, v, identity);
            var key := v.blockID.Key();
            && (s.maj23.Some? ==> Decided(cfg, f))
            && (s.maj23.None? ==> forall k :: k in f.buckets && k != key ==> !Ready(cfg, f.buckets[k]))
            && (s.maj23.None? && Ready(cfg, f.buckets[key]) ==>
                  Attempts(cfg, f, TheBucket(cfg, s, key).sum, f.buckets[key].sum,
                           BucketAdd(TheBucket(cfg, s, key), v, identity, cfg.vals.validators[v.index].power,
                                     cfg.vals.RecoveryPower()).1))
  {
    ReadyGrows(cfg, TheBucket(cfg, s, v.blockID.Key()), v, identity);
  }

  lemma AddVerifiedDecided(cfg: Config, s: State, v: Vote, identity: Bytes)
    requires cfg.vals.WellFormed() && Shaped(cfg.Size(), s) && BucketsOk(cfg, s.buckets) && Decided(cfg, s)
    requires Recorded(cfg, v, v.index) && GroupOf(cfg, v) == Some(identity) && Unknown(cfg.Size(), s, v)
    requires Recoverable(cfg) && (cfg.typ == Precommit ==> ValidatedState(s) && Validated(v))
    ensures Decided(cfg, AddVerified(cfg, s, v, identity, cfg.vals.validators[v.index].power).state)
  {
    AddVerifiedStages(cfg, s, v, identity);
    hide AddVerified;
    hide Finalize;
    hide Filed;
    hide RecoverAndVerify;
    hide BucketAdd;
    hide BucketOk;
    hide Ready;
    if Kept(s, v) {
      var f := Filed(cfg, s, v, identity);
      FiledBucket(cfg, s, v, identity);
      FiledDecided(cfg, s, v, identity);
      FiledKeepsMajority(cfg, s, v, identity);
      if f.maj23.None? && f.buckets[v.blockID.Key()].sum >= cfg.vals.QuorumPower() {
        FinalizeDecides(cfg, f, v);
        FinalizeCases(cfg, f, v);
        if cfg.typ == Precommit {
          FiledValidated(cfg, s, v, identity);
          if Ready(cfg, f.buckets[v.blockID.Key()]) {
            ReadyRecovers(cfg, f.buckets[v.blockID.Key()], v.blockID);
          }
        }
      }
    }
  }

  lemma FiledKeepsMajority(cfg: Config, s: State, v: Vote, identity: Bytes)
    requires Shaped(cfg.Size(), s) && 0 <= v.index < cfg.Size()
    ensures var f := Filed(cfg, s, v, identity);
            f.maj23 == s.maj23 && v.blockID.Key() in f.buckets && Shaped(cfg.Size(), f)
  {
  }

  lemma ApplyDecided(cfg: Config, s: State, c: Call)
    requires cfg.vals.WellFormed() && HonestCall(cfg, c) && Valid(cfg, s) && Decided(cfg, s)
    requires Recoverable(cfg) && (cfg.typ == Precommit ==> ValidatedState(s) && ValidatedCall(c))
    ensures Decided(cfg, Apply(cfg, s, c))
  {
    hide AddVote;
    hide AddVerified;
    hide BucketOk;
    hide Recoverable;
    match c
    case VoteCall(vote, check) =>
      AddVoteCases(cfg, s, vote, check);
      if Admits(cfg, s, vote, check) {
        AddVerifiedDecided(cfg, s, vote.value, GroupOf(cfg, vote.value).value);
      }
    case ClaimCall(peer, id, height, round) =>
  }

  lemma InitialDecided(cfg: Config)
    ensures Decided(cfg, Initial(cfg))
  {
  }

  lemma {:induction false} RunDecided(cfg: Config, calls: seq<Call>)
    requires HonestRun(cfg, calls) && Recoverable(cfg)
    requires cfg.typ == Precommit ==> forall i :: 0 <= i < |calls| ==> ValidatedCall(calls[i])
    ensures Decided(cfg, Run(cfg, calls))
  {
    hide Apply;
    hide Valid;
    hide Run;
    hide Initial;
    hide Decided;
    hide Recoverable;
    hide ValidatedCall;
    hide ValidatedState;
    RunStep(cfg, calls);
    if calls == [] {
      InitialDecided(cfg);
    } else {
      var n := |calls| - 1;
      RunDecided(cfg, calls[..n]);
      if cfg.typ == Precommit {
        RunValidated(cfg, calls[..n]);
      }
      ApplyDecided(cfg, Run(cfg, calls[..n]), calls[n]);
    }
  }

  /** Over every run, `maj23` is set if and only if some block is ready: no attempt is missed. For prevotes
      ready means quorum power alone, and nothing is assumed; the precommits of several validators are
      validated votes under keys that form a threshold scheme. */
  lemma MajorityIffReady(cfg: Config, calls: seq<Call>)
    requires HonestRun(cfg, calls) && Recoverable(cfg)
    requires cfg.typ == Precommit ==> forall i :: 0 <= i < |calls| ==> ValidatedCall(calls[i])
    ensures var s := Run(cfg, calls); s.maj23.Some? <==> exists k :: k in s.buckets && Ready(cfg, s.buckets[k])
    ensures var s := Run(cfg, calls);
            s.maj23.Some? ==> s.maj23.value.Key() in s.buckets && Ready(cfg, s.buckets[s.maj23.value.Key()])
  {
    RunDecided(cfg, calls);
  }

  // ---------------------------------------------------------------- two decisions

  ghost function Both(a: seq<Option<Vote>>, b: seq<Option<Vote>>): (r: seq<bool>)
    requires |a| == |b|
    ensures |r| == |a|
  {
    seq(|a|, i requires 0 <= i < |a| => a[i].Some? && b[i].Some?)
  }

  lemma OverlapPower(cfg: Config, f: seq<bool>, g: seq<bool>, both: seq<bool>)
    requires cfg.vals.WellFormed() && |f| == |g| == |both| == cfg.Size()
    requires forall i :: 0 <= i < |f| ==> both[i] == (f[i] && g[i])
    ensures Weight(cfg.vals.Powers(), f) + Weight(cfg.vals.Powers(), g) <= Weight(cfg.vals.Powers(), both) +
      cfg.vals.TotalPower()
  {
    var w, all := cfg.vals.Powers(), seq(cfg.Size(), _ => true);
    WeightOverlap(w, f, g, both, all);
    TotalWeight(w, all);
  }

  /** Validator `i` has a verified vote in each of two vote sets of one height, round and type, for different blocks. */
  ghost predicate Equivocated(cfg: Config, a: Vote, b: Vote, i: int) {
    Recorded(cfg, a, i) && Recorded(cfg, b, i) && a.blockID != b.blockID
  }

  /** Two vote sets that decide on different blocks name the validators who signed both: they hold at least
      twice the quorum less the total, more than a third when the quorum is not below the strict floor. */
  lemma DecisionsOverlap(cfg: Config, calls: seq<Call>, calls': seq<Call>)
    requires HonestRun(cfg, calls) && HonestRun(cfg, calls')
    requires var s, s' := Run(cfg, calls), Run(cfg, calls');
             s.maj23.Some? && s'.maj23.Some? && s.maj23.value.Key() != s'.maj23.value.Key()
    ensures var s, s' := Run(cfg, calls), Run(cfg, calls');
            var a, b := s.buckets[s.maj23.value.Key()].votes, s'.buckets[s'.maj23.value.Key()].votes;
            var guilty := Weight(cfg.vals.Powers(), Both(a, b));
            && (forall i :: 0 <= i < cfg.Size() && Both(a, b)[i] ==> Equivocated(cfg, a[i].value, b[i].value, i))
            && guilty >= 2 * cfg.vals.QuorumPower() - cfg.vals.TotalPower()
            && (!cfg.vals.BelowStrictThreshold() ==> 3 * guilty > cfg.vals.TotalPower())
  {
    var s, s' := Run(cfg, calls), Run(cfg, calls');
    var k, k' := s.maj23.value.Key(), s'.maj23.value.Key();
    BucketsOverlap(cfg, k, s.buckets[k], k', s'.buckets[k']);
    hide Run;
  }

  lemma BucketsOverlap(cfg: Config, k: Bytes, b: Bucket, k': Bytes, b': Bucket)
    requires cfg.vals.WellFormed() && BucketOk(cfg, k, b) && BucketOk(cfg, k', b') && k != k'
    requires b.sum >= cfg.vals.QuorumPower() && b'.sum >= cfg.vals.QuorumPower()
    ensures var guilty := Weight(cfg.vals.Powers(), Both(b.votes, b'.votes));
            && (forall i :: 0 <= i < cfg.Size() && Both(b.votes, b'.votes)[i] ==>
                  Equivocated(cfg, b.votes[i].value, b'.votes[i].value, i))
            && guilty >= 2 * cfg.vals.QuorumPower() - cfg.vals.TotalPower()
            && (!cfg.vals.BelowStrictThreshold() ==> 3 * guilty > cfg.vals.TotalPower())
  {
    hide VerifyVote;
    hide GroupsOk;
    OverlapPower(cfg, Filled(b.votes), Filled(b'.votes), Both(b.votes, b'.votes));
  }

  // ---------------------------------------------------------------- arrival order

  /** Verified votes, at most one per validator; each may be delivered any number of times. */
  ghost predicate OneVoteEach(cfg: Config, vs: seq<Vote>) {
    && (forall i :: 0 <= i < |vs| ==>
        vs[i].proTxHash != [] && Recorded(cfg, vs[i], vs[i].index) && vs[i].blockID.Proper())
    && (forall i, j :: 0 <= i < |vs| && 0 <= j < |vs| && vs[i].index == vs[j].index ==> vs[i] == vs[j])
  }

  function Calls(vs: seq<Vote>): (r: seq<Call>)
    ensures |r| == |vs|
  {
    seq(|vs|, i requires 0 <= i < |vs| => VoteCall(Some(vs[i]), Full))
  }

  /** The state holds the votes of `vs`, each filed under its block, and nothing else. */
  ghost predicate HoldsVotes(n: nat, s: State, vs: seq<Vote>)
    requires Shaped(n, s)
  {
    && (forall v :: v in vs ==> 0 <= v.index < n && s.votes[v.index] == Some(v))
    && (forall i :: 0 <= i < n && s.votes[i].Some? ==> s.votes[i].value in vs && s.votes[i].value.index == i)
  }

  ghost predicate HoldsFiled(n: nat, s: State, vs: seq<Vote>)
    requires Shaped(n, s)
  {
    forall v :: v in vs ==>
      0 <= v.index < n && v.blockID.Key() in s.buckets && s.buckets[v.blockID.Key()].votes[v.index] == Some(v)
  }

  ghost predicate HoldsOnly(n: nat, s: State, vs: seq<Vote>)
    requires Shaped(n, s)
  {
    forall k, i :: k in s.buckets && 0 <= i < n && s.buckets[k].votes[i].Some? ==>
      var v := s.buckets[k].votes[i].value; v in vs && v.index == i && v.blockID.Key() == k
  }

  ghost predicate HoldsKeys(s: State, vs: seq<Vote>) {
    forall k :: k in s.buckets ==> !s.buckets[k].peerMaj23 && exists v :: v in vs && v.blockID.Key() == k
  }

  ghost predicate HoldsBuckets(n: nat, s: State, vs: seq<Vote>)
    requires Shaped(n, s)
  {
    HoldsFiled(n, s, vs) && HoldsOnly(n, s, vs) && HoldsKeys(s, vs)
  }

  ghost predicate Holds(n: nat, s: State, vs: seq<Vote>)
    requires Shaped(n, s)
  {
    && HoldsVotes(n, s, vs)
    && HoldsBuckets(n, s, vs)
    && (s.maj23.Some? ==> exists v :: v in vs && v.blockID == s.maj23.value)
  }

  lemma HoldsAdd(n: nat, s: State, vs: seq<Vote>, v: Vote, power: int, b': Bucket)
    requires Shaped(n, s) && Holds(n, s, vs) && 0 <= v.index < n && s.votes[v.index].None? && FiledIn(n, s, v, b')
    requires b'.peerMaj23 == (v.blockID.Key() in s.buckets && s.buckets[v.blockID.Key()].peerMaj23)
    ensures var r := RecordCanonical(s, v, power);
            var f := r.(buckets := r.buckets[v.blockID.Key() := b']);
            Shaped(n, f) && Holds(n, f, vs + [v])
  {
    hide HoldsVotes;
    hide HoldsFiled;
    hide HoldsOnly;
    hide HoldsKeys;
    hide BlockID.Key;
    var key := v.blockID.Key();
    var r := RecordCanonical(s, v, power);
    var f := r.(buckets := r.buckets[key := b']);
    var vs' := vs + [v];
    NoPeerClaim(s, vs, key);
    HoldsVotesAdd(n, s, f, vs, v);
    HoldsBucketsAdd(n, s, f, vs, v, b');
    assert s.maj23.Some? ==> exists u :: u in vs' && u.blockID == s.maj23.value by {
      assert forall u :: u in vs ==> u in vs';
    }
  }

  lemma NoPeerClaim(s: State, vs: seq<Vote>, key: Bytes)
    requires HoldsKeys(s, vs)
    ensures key in s.buckets ==> !s.buckets[key].peerMaj23
  {
  }

  lemma HoldsVotesAdd(n: nat, s: State, f: State, vs: seq<Vote>, v: Vote)
    requires Shaped(n, s) && Shaped(n, f) && HoldsVotes(n, s, vs) && 0 <= v.index < n && s.votes[v.index].None?
    requires f.votes == s.votes[v.index := Some(v)]
    ensures HoldsVotes(n, f, vs + [v])
  {
    assert (vs + [v])[|vs|] == v;
    assert forall u :: u in vs + [v] <==> u in vs || u == v;
  }

  lemma HoldsBucketsAdd(n: nat, s: State, f: State, vs: seq<Vote>, v: Vote, b': Bucket)
    requires Shaped(n, s) && Shaped(n, f) && HoldsVotes(n, s, vs) && HoldsBuckets(n, s, vs)
    requires 0 <= v.index < n && s.votes[v.index].None? && FiledIn(n, s, v, b')
    requires f.buckets == s.buckets[v.blockID.Key() := b'] && !b'.peerMaj23
    ensures HoldsBuckets(n, f, vs + [v])
  {
    HoldsKeysAdd(s, f, vs, v, b');
    HoldsFiledAdd(n, s, f, vs, v, b');
    HoldsOnlyAdd(n, s, f, vs, v, b');
  }

  lemma HoldsFiledAdd(n: nat, s: State, f: State, vs: seq<Vote>, v: Vote, b': Bucket)
    requires Shaped(n, s) && Shaped(n, f) && HoldsVotes(n, s, vs) && HoldsFiled(n, s, vs)
    requires 0 <= v.index < n && s.votes[v.index].None? && FiledIn(n, s, v, b')
    requires f.buckets == s.buckets[v.blockID.Key() := b']
    ensures HoldsFiled(n, f, vs + [v])
  {
    forall u | u in vs + [v]
      ensures 0 <= u.index < n && u.blockID.Key() in f.buckets && f.buckets[u.blockID.Key()].votes[u.index] == Some(u)
    {
      if u != v {
        assert u in vs;
        assert s.votes[u.index] == Some(u);
      }
    }
  }

  lemma HoldsOnlyAdd(n: nat, s: State, f: State, vs: seq<Vote>, v: Vote, b': Bucket)
    requires Shaped(n, s) && Shaped(n, f) && HoldsOnly(n, s, vs) && 0 <= v.index < n && FiledIn(n, s, v, b')
    requires f.buckets == s.buckets[v.blockID.Key() := b']
    ensures HoldsOnly(n, f, vs + [v])
  {
    assert (vs + [v])[|vs|] == v;
    forall k, i | k in f.buckets && 0 <= i < n && f.buckets[k].votes[i].Some?
      ensures var u := f.buckets[k].votes[i].value; u in vs + [v] && u.index == i && u.blockID.Key() == k
    {
      if k != v.blockID.Key() || i != v.index {
        assert s.buckets[k].votes[i] == f.buckets[k].votes[i];
      }
    }
  }

  lemma HoldsKeysAdd(s: State, f: State, vs: seq<Vote>, v: Vote, b': Bucket)
    requires HoldsKeys(s, vs) && f.buckets == s.buckets[v.blockID.Key() := b'] && !b'.peerMaj23
    ensures HoldsKeys(f, vs + [v])
  {
    var vs', key := vs + [v], v.blockID.Key();
    forall k | k in f.buckets
      ensures exists u :: u in vs' && u.blockID.Key() == k
    {
      if k == key {
        assert v == vs'[|vs|];
      } else {
        var u :| u in vs && u.blockID.Key() == k;
        assert u in vs';
      }
    }
  }

  /** Publishing the bucket of a run without conflicts changes nothing. */
  lemma PublishSame(n: nat, s: State, vs: seq<Vote>, key: Bytes)
    requires Shaped(n, s) && Holds(n, s, vs) && key in s.buckets
    ensures Publish(s.buckets[key].votes, s.votes) == s.votes
  {
  }

  /** Votes for proper block IDs make proper buckets. */
  lemma HeldProper(n: nat, s: State, vs: seq<Vote>)
    requires Shaped(n, s) && HoldsOnly(n, s, vs) && forall u :: u in vs ==> u.blockID.Proper()
    ensures ProperState(s)
  {
  }

  lemma DeliverNew(cfg: Config, s: State, vs: seq<Vote>, v: Vote, identity: Bytes)
    requires cfg.vals.WellFormed() && v.blockID.Proper() && forall u :: u in vs ==> u.blockID.Proper()
    requires Valid(cfg, s) && Holds(cfg.Size(), s, vs) && Recorded(cfg, v, v.index) && s.votes[v.index].None?
    requires GroupOf(cfg, v) == Some(identity)
    ensures var s' := AddVerified(cfg, s, v, identity, cfg.vals.validators[v.index].power).state;
            Shaped(cfg.Size(), s') && Holds(cfg.Size(), s', vs + [v])
  {
    var n, power := cfg.Size(), cfg.vals.validators[v.index].power;
    assert Unknown(n, s, v);
    HeldProper(n, s, vs);
    AddVerifiedNoPanic(cfg, s, v, identity);
    FiledBucket(cfg, s, v, identity);
    var f := Filed(cfg, s, v, identity);
    HoldsAdd(n, s, vs, v, power, f.buckets[v.blockID.Key()]);
    AddVerifiedStages(cfg, s, v, identity);
    hide AddVerified;
    hide BucketOk;
    hide BucketAdd;
    hide Filed;
    if f.maj23.None? {
      FinalizeCases(cfg, f, v);
      PublishSame(n, f, vs + [v], v.blockID.Key());
      hide Finalize;
      HoldsMajority(n, f, vs, v, Finalize(cfg, f, v).0);
    }
  }

  lemma HoldsMajority(n: nat, f: State, vs: seq<Vote>, v: Vote, s': State)
    requires Shaped(n, f) && Holds(n, f, vs + [v]) && s'.maj23 in {None, Some(v.blockID)}
    requires s' == f.(maj23 := s'.maj23, blockSign := s'.blockSign, exts := s'.exts)
    ensures Shaped(n, s') && Holds(n, s', vs + [v])
  {
    assert v == (vs + [v])[|vs|];
    assert HoldsVotes(n, s', vs + [v]);
    assert HoldsBuckets(n, s', vs + [v]);
  }

  lemma HoldsAgain(n: nat, s: State, vs: seq<Vote>, v: Vote)
    requires Shaped(n, s) && Holds(n, s, vs) && v in vs
    ensures Holds(n, s, vs + [v])
  {
    assert forall u :: u in vs + [v] <==> u in vs;
    assert HoldsVotes(n, s, vs + [v]);
    assert HoldsFiled(n, s, vs + [v]);
    assert HoldsOnly(n, s, vs + [v]);
    assert HoldsKeys(s, vs + [v]);
  }

  lemma DeliverAgain(cfg: Config, s: State, v: Vote)
    requires Shaped(cfg.Size(), s) && Recorded(cfg, v, v.index) && v.proTxHash != [] && s.votes[v.index] == Some(v)
    ensures AddVote(cfg, s, Some(v), Full) == Step(s, Duplicate)
  {
    hide AddVerified;
    hide VerifyVote;
  }

  lemma DeliverAdmitted(cfg: Config, s: State, vs: seq<Vote>, v: Vote)
    requires Shaped(cfg.Size(), s) && HoldsOnly(cfg.Size(), s, vs) && HoldsVotes(cfg.Size(), s, vs)
    requires Recorded(cfg, v, v.index) && v.proTxHash != [] && s.votes[v.index].None?
    ensures Admits(cfg, s, Some(v), Full)
  {
    VerifiedHasIdentity(cfg.p, cfg.Context(), v, cfg.vals.validators[v.index].pubKey, v.proTxHash, None);
  }

  /** Delivering a vote: a new one is filed, one seen before is a duplicate. */
  lemma Deliver(cfg: Config, s: State, vs: seq<Vote>, v: Vote)
    requires OneVoteEach(cfg, vs + [v]) && cfg.vals.WellFormed()
    requires Valid(cfg, s) && Shaped(cfg.Size(), s) && Holds(cfg.Size(), s, vs)
    ensures var s' := Apply(cfg, s, VoteCall(Some(v), Full)); Shaped(cfg.Size(), s') && Holds(cfg.Size(), s', vs + [v])
  {
    hide AddVote;
    hide AddVerified;
    hide Valid;
    hide VerifyVote;
    assert v == (vs + [v])[|vs|];
    assert Recorded(cfg, v, v.index) && v.proTxHash != [];
    if s.votes[v.index].Some? {
      SeenBefore(cfg, s, vs, v);
      DeliverAgain(cfg, s, v);
      HoldsAgain(cfg.Size(), s, vs, v);
    } else {
      DeliverAdmitted(cfg, s, vs, v);
      assert forall u :: u in vs ==> u in vs + [v];
      DeliverNew(cfg, s, vs, v, GroupOf(cfg, v).value);
      AddVoteCases(cfg, s, Some(v), Full);
    }
  }

  lemma SeenBefore(cfg: Config, s: State, vs: seq<Vote>, v: Vote)
    requires OneVoteEach(cfg, vs + [v]) && Shaped(cfg.Size(), s) && HoldsVotes(cfg.Size(), s, vs)
    requires 0 <= v.index < cfg.Size() && s.votes[v.index].Some?
    ensures s.votes[v.index] == Some(v) && v in vs
  {
    var u := s.votes[v.index].value;
    var i :| 0 <= i < |vs| && vs[i] == u;
    assert (vs + [v])[i] == u && (vs + [v])[|vs|] == v;
  }

  lemma OneVoteEachPrefix(cfg: Config, vs: seq<Vote>)
    requires OneVoteEach(cfg, vs)
    ensures HonestRun(cfg, Calls(vs)) || !cfg.vals.WellFormed()
    ensures vs != [] ==> OneVoteEach(cfg, vs[..|vs| - 1]) && Calls(vs)[..|vs| - 1] == Calls(vs[..|vs| - 1])
  {
  }

  lemma HoldsNothing(cfg: Config)
    ensures Shaped(cfg.Size(), Initial(cfg)) && Holds(cfg.Size(), Initial(cfg), [])
  {
  }

  lemma {:induction false} DeliveredHolds(cfg: Config, vs: seq<Vote>)
    requires OneVoteEach(cfg, vs) && HonestRun(cfg, Calls(vs))
    ensures Holds(cfg.Size(), Run(cfg, Calls(vs)), vs)
  {
    hide Apply;
    hide Valid;
    hide Holds;
    hide OneVoteEach;
    hide Run;
    hide Initial;
    hide Shaped;
    RunStep(cfg, Calls(vs));
    if vs == [] {
      HoldsNothing(cfg);
      assert Calls(vs) == [];
    } else {
      var n := |vs| - 1;
      OneVoteEachPrefix(cfg, vs);
      DeliveredHolds(cfg, vs[..n]);
      assert vs == vs[..n] + [vs[n]];
      Deliver(cfg, Run(cfg, Calls(vs[..n])), vs[..n], vs[n]);
    }
  }

  ghost predicate SameBucket(b: Bucket, b': Bucket) {
    && b.votes == b'.votes && b.bits == b'.bits && b.sum == b'.sum && b.peerMaj23 == b'.peerMaj23
    && b.groups.Keys == b'.groups.Keys
    && forall id :: id in b.groups ==>
      b.groups[id].power == b'.groups[id].power && b.groups[id].voters == b'.groups[id].voters
  }

  /** Everything but which vote represents a group, and the recovered signatures: recovery starts from whichever
      shares came first, and nothing says that it yields the same signature from others. */
  ghost predicate SameState(s: State, s': State) {
    && s.votes == s'.votes && s.bits == s'.bits && s.sum == s'.sum && s.maj23 == s'.maj23
    && s.buckets.Keys == s'.buckets.Keys
    && forall k :: k in s.buckets ==> SameBucket(s.buckets[k], s'.buckets[k])
  }

  lemma SameVotesSameBucket(cfg: Config, key: Bytes, b: Bucket, b': Bucket)
    requires BucketOk(cfg, key, b) && BucketOk(cfg, key, b') && b.votes == b'.votes && b.peerMaj23 == b'.peerMaj23
    ensures SameBucket(b, b')
  {
    hide GroupsOk;
    hide Recorded;
    hide BlockID.Key;
    SameGroups(cfg, b, b');
  }

  lemma SameGroups(cfg: Config, b: Bucket, b': Bucket)
    requires |b.votes| == cfg.Size() && GroupsOk(cfg, b) && b'.votes == b.votes && GroupsOk(cfg, b')
    ensures b.groups.Keys == b'.groups.Keys
    ensures forall id :: id in b.groups ==>
              b.groups[id].power == b'.groups[id].power && b.groups[id].voters == b'.groups[id].voters
  {
    hide GroupOf;
    hide InGroup;
    hide Members;
    GroupKeysWithin(cfg, b, b');
    GroupKeysWithin(cfg, b', b);
    forall id | id in b.groups
      ensures b.groups[id].power == b'.groups[id].power && b.groups[id].voters == b'.groups[id].voters
    {
      assert GroupOk(cfg, b.votes, id, b.groups[id]) && GroupOk(cfg, b'.votes, id, b'.groups[id]);
    }
  }

  lemma GroupKeysWithin(cfg: Config, b: Bucket, b': Bucket)
    requires |b.votes| == cfg.Size() && GroupsOk(cfg, b) && b'.votes == b.votes && GroupsOk(cfg, b')
    ensures b.groups.Keys <= b'.groups.Keys
  {
    forall id | id in b.groups
      ensures id in b'.groups
    {
      assert GroupOk(cfg, b.votes, id, b.groups[id]);
      var i :| 0 <= i < |b.votes| && b.votes[i] == Some(b.groups[id].representative);
    }
  }

  lemma SameVotes(n: nat, s: State, s': State, vs: seq<Vote>, vs': seq<Vote>)
    requires Shaped(n, s) && Shaped(n, s') && HoldsVotes(n, s, vs) && HoldsVotes(n, s', vs')
    requires forall v :: v in vs <==> v in vs'
    ensures s.votes == s'.votes
  {
    forall i | 0 <= i < n
      ensures s.votes[i] == s'.votes[i]
    {
      if s.votes[i].Some? {
        assert s.votes[i].value in vs';
      } else if s'.votes[i].Some? {
        assert s'.votes[i].value in vs;
      }
    }
  }

  lemma KeysWithin(n: nat, s: State, s': State, vs: seq<Vote>, vs': seq<Vote>)
    requires Shaped(n, s) && Shaped(n, s') && HoldsKeys(s, vs) && HoldsFiled(n, s', vs')
    requires forall v :: v in vs ==> v in vs'
    ensures s.buckets.Keys <= s'.buckets.Keys
  {
    forall k | k in s.buckets
      ensures k in s'.buckets
    {
      var v :| v in vs && v.blockID.Key() == k;
      assert v in vs';
    }
  }

  lemma SameBucketVotes(n: nat, s: State, s': State, vs: seq<Vote>, vs': seq<Vote>, k: Bytes)
    requires Shaped(n, s) && Shaped(n, s') && HoldsOnly(n, s, vs) && HoldsOnly(n, s', vs')
    requires HoldsFiled(n, s, vs) && HoldsFiled(n, s', vs') && k in s.buckets && k in s'.buckets
    requires forall v :: v in vs <==> v in vs'
    ensures s.buckets[k].votes == s'.buckets[k].votes
  {
    forall i | 0 <= i < n
      ensures s.buckets[k].votes[i] == s'.buckets[k].votes[i]
    {
      if s.buckets[k].votes[i].Some? {
        assert s.buckets[k].votes[i].value in vs';
      } else if s'.buckets[k].votes[i].Some? {
        assert s'.buckets[k].votes[i].value in vs;
      }
    }
  }

  /** Without conflicting votes two blocks cannot both be at quorum. */
  lemma OneBlockAtQuorum(cfg: Config, s: State, vs: seq<Vote>, k: Bytes, k': Bytes)
    requires cfg.vals.WellFormed() && Valid(cfg, s) && HoldsOnly(cfg.Size(), s, vs) && HoldsVotes(cfg.Size(), s, vs)
    requires 2 * cfg.vals.QuorumPower() > cfg.vals.TotalPower() && k in s.buckets && k' in s.buckets
    requires s.buckets[k].sum >= cfg.vals.QuorumPower() && s.buckets[k'].sum >= cfg.vals.QuorumPower()
    ensures k == k'
  {
    if k != k' {
      var f, g := Filled(s.buckets[k].votes), Filled(s.buckets[k'].votes);
      assert BucketOk(cfg, k, s.buckets[k]) && BucketOk(cfg, k', s.buckets[k']);
      hide VerifyVote;
      hide GroupsOk;
      DisjointPower(cfg, f, g);
    }
  }

  /** The final views and the decision depend on the set of votes, not on their order or repetition. This holds
      for prevotes, and for validated precommits under keys that form a threshold scheme. */
  lemma OrderIndependent(cfg: Config, vs: seq<Vote>, vs': seq<Vote>)
    requires cfg.vals.WellFormed() && OneVoteEach(cfg, vs) && OneVoteEach(cfg, vs')
    requires forall v :: v in vs <==> v in vs'
    requires 2 * cfg.vals.QuorumPower() > cfg.vals.TotalPower()
    requires Recoverable(cfg) && (cfg.typ == Precommit ==> forall v :: v in vs ==> Validated(v))
    ensures HonestRun(cfg, Calls(vs)) && HonestRun(cfg, Calls(vs'))
    ensures SameState(Run(cfg, Calls(vs)), Run(cfg, Calls(vs')))
  {
    hide Run;
    hide Valid;
    hide Holds;
    hide Decided;
    hide Shaped;
    hide SameState;
    hide Recoverable;
    hide Validated;
    hide Recorded;
    OneVoteEachPrefix(cfg, vs);
    OneVoteEachPrefix(cfg, vs');
    DeliveredHolds(cfg, vs);
    DeliveredHolds(cfg, vs');
    assert forall i :: 0 <= i < |vs'| ==> vs'[i] in vs;
    RunDecided(cfg, Calls(vs));
    RunDecided(cfg, Calls(vs'));
    StatesAgree(cfg, Run(cfg, Calls(vs)), Run(cfg, Calls(vs')), vs, vs');
  }

  lemma StatesAgree(cfg: Config, s: State, s': State, vs: seq<Vote>, vs': seq<Vote>)
    requires cfg.vals.WellFormed() && 2 * cfg.vals.QuorumPower() > cfg.vals.TotalPower()
    requires Valid(cfg, s) && Valid(cfg, s') && Holds(cfg.Size(), s, vs) && Holds(cfg.Size(), s', vs')
    requires Decided(cfg, s) && Decided(cfg, s')
    requires forall v :: v in vs <==> v in vs'
    requires forall v :: v in vs ==> v.blockID.Proper()
    ensures SameState(s, s')
  {
    var n := cfg.Size();
    hide BucketOk;
    hide CanonicalOk;
    hide HoldsVotes;
    hide HoldsFiled;
    hide HoldsOnly;
    hide HoldsKeys;
    hide Decided;
    hide Covered;
    hide Tracked;
    hide MajorityOk;
    hide SameBucket;
    SameVotes(n, s, s', vs, vs');
    SameCanonical(cfg, s.votes, s.bits, s'.bits, s.sum, s'.sum);
    KeysWithin(n, s, s', vs, vs');
    KeysWithin(n, s', s, vs', vs);
    forall k | k in s.buckets
      ensures SameBucket(s.buckets[k], s'.buckets[k]) && s.buckets[k].sum == s'.buckets[k].sum
    {
      BucketsAgree(cfg, s, s', vs, vs', k);
    }
    hide Holds;
    SameDecision(cfg, s, s', vs, vs');
  }

  lemma SameCanonical(cfg: Config, votes: seq<Option<Vote>>, bits: seq<bool>, bits': seq<bool>, sum: int, sum': int)
    requires CanonicalOk(cfg, bits, votes, sum) && CanonicalOk(cfg, bits', votes, sum')
    ensures bits == bits' && sum == sum'
  {
  }

  lemma BucketsAgree(cfg: Config, s: State, s': State, vs: seq<Vote>, vs': seq<Vote>, k: Bytes)
    requires Shaped(cfg.Size(), s) && Shaped(cfg.Size(), s') && Holds(cfg.Size(), s, vs) && Holds(cfg.Size(), s', vs')
    requires k in s.buckets && k in s'.buckets && BucketOk(cfg, k, s.buckets[k]) && BucketOk(cfg, k, s'.buckets[k])
    requires forall v :: v in vs <==> v in vs'
    ensures SameBucket(s.buckets[k], s'.buckets[k]) && s.buckets[k].sum == s'.buckets[k].sum
  {
    hide BucketOk;
    SameBucketVotes(cfg.Size(), s, s', vs, vs', k);
    SameVotesSameBucket(cfg, k, s.buckets[k], s'.buckets[k]);
  }

  lemma ReadyAgrees(cfg: Config, b: Bucket, b': Bucket)
    requires SameBucket(b, b')
    ensures Ready(cfg, b) <==> Ready(cfg, b')
  {
    QualifiesToo(b, b', cfg.vals.RecoveryPower());
    QualifiesToo(b', b, cfg.vals.RecoveryPower());
  }

  lemma QualifiesToo(b: Bucket, b': Bucket, recovery: int)
    requires SameBucket(b, b')
    ensures Qualifies(b.groups, recovery) ==> Qualifies(b'.groups, recovery)
  {
    if Qualifies(b.groups, recovery) {
      var id :| id in b.groups && b.groups[id].power >= recovery;
      assert b'.groups[id].power >= recovery;
    }
  }

  lemma SameDecision(cfg: Config, s: State, s': State, vs: seq<Vote>, vs': seq<Vote>)
    requires cfg.vals.WellFormed() && 2 * cfg.vals.QuorumPower() > cfg.vals.TotalPower()
    requires Valid(cfg, s) && Valid(cfg, s') && Holds(cfg.Size(), s, vs) && Holds(cfg.Size(), s', vs')
    requires Decided(cfg, s) && Decided(cfg, s')
    requires s.buckets.Keys == s'.buckets.Keys && forall k :: k in s.buckets ==> SameBucket(s.buckets[k], s'.buckets[k])
    requires forall v :: v in vs <==> v in vs'
    requires forall v :: v in vs ==> v.blockID.Proper()
    ensures s.maj23 == s'.maj23
  {
    hide BucketOk;
    hide CanonicalOk;
    hide BlockID.Key;
    hide SameBucket;
    forall k | k in s.buckets
      ensures Ready(cfg, s.buckets[k]) <==> Ready(cfg, s'.buckets[k])
    {
      ReadyAgrees(cfg, s.buckets[k], s'.buckets[k]);
    }
    if s.maj23.Some? {
      OneBlockAtQuorum(cfg, s, vs, s.maj23.value.Key(), s'.maj23.value.Key());
      KeyInjective(s.maj23.value, s'.maj23.value);
    }
  }
}
