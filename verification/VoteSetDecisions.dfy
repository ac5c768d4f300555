/** When a vote set decides, on what, and what two decisions have in common. */
module VoteSetDecisions {
  import opened Prelude
  import opened BlockIDs
  import opened Signing
  import opened Validators
  import opened Commits
  import opened Evidence
  import opened Recovery
  import opened VoteSetModel
  import opened VoteSetInvariant
  import opened VoteSetRuns

  // ---------------------------------------------------------------- the canonical group

  lemma {:induction false} LeastOf(ids: set<Bytes>) returns (least: Bytes)
    requires ids != {}
    ensures least in ids && forall other :: other in ids ==> AtMost(least, other)
  {
    var id :| id in ids;
    if ids == {id} {
      least := id;
    } else {
      var rest := ids - {id};
      assert ids == rest + {id};
      var m := LeastOf(rest);
      LessTotal(id, m);
      least := if Less(id, m) then id else m;
      forall other | other in ids
        ensures AtMost(least, other)
      {
        if other != id && Less(id, m) && other != m {
          LessTransitive(id, m, other);
        }
      }
    }
  }

  ghost predicate Qualifies(groups: map<Bytes, Group>, recovery: int) {
    exists identity :: identity in groups && groups[identity].power >= recovery
  }

  /** A canonical group exists exactly when some group is at the recovery threshold, and it is then
      the least such group, whichever order the groups are looked at in. */
  lemma CanonicalGroupExact(groups: map<Bytes, Group>, recovery: int)
    ensures CanonicalGroup(groups, recovery).Some? <==> Qualifies(groups, recovery)
    ensures forall identity :: IsCanonical(groups, recovery, identity) ==>
      CanonicalGroup(groups, recovery) == Some(identity)
    ensures CanonicalGroup(groups, recovery).Some? ==>
      IsCanonical(groups, recovery, CanonicalGroup(groups, recovery).value)
  {
    if Qualifies(groups, recovery) {
      var some :| some in groups && groups[some].power >= recovery;
      var ids := set identity | identity in groups && groups[identity].power >= recovery;
      assert some in ids;
      var least := LeastOf(ids);
      assert IsCanonical(groups, recovery, least);
    }
    forall identity | IsCanonical(groups, recovery, identity)
      ensures CanonicalGroup(groups, recovery) == Some(identity)
    {
      var other := CanonicalGroup(groups, recovery).value;
      if other != identity {
        LessAsymmetric(other, identity);
      }
    }
  }

  /** `canonicalVoteExtensionGroup`: ranging over the groups in any order finds the canonical one. */
  method FindCanonicalGroup(groups: map<Bytes, Group>, recovery: int) returns (r: Option<Bytes>)
    ensures r == CanonicalGroup(groups, recovery)
  {
    r := None;
    var todo := groups.Keys;
    while todo != {}
      invariant todo <= groups.Keys
      invariant r.None? ==> forall id :: id in groups && id !in todo ==> groups[id].power < recovery
      invariant r.Some? ==> r.value in groups && groups[r.value].power >= recovery
      invariant r.Some? ==> forall id :: id in groups && id !in todo && groups[id].power >= recovery ==>
        AtMost(r.value, id)
      decreases todo
    {
      ghost var todo0, r0 := todo, r;
      var id :| id in todo;
      todo := todo - {id};
      if groups[id].power >= recovery && (r.None? || Less(id, r.value)) {
        r := Some(id);
        forall other | other in groups && other !in todo && groups[other].power >= recovery
          ensures AtMost(id, other)
        {
          if other != id && r0.Some? && other != r0.value {
            assert other !in todo0;
            LessTransitive(id, r0.value, other);
          }
        }
      } else if r.Some? {
        LessTotal(id, r.value);
      }
    }
    CanonicalGroupExact(groups, recovery);
  }

  // ---------------------------------------------------------------- the groups of a bucket

  ghost function TotalPower(groups: map<Bytes, Group>, ids: set<Bytes>): int
    requires ids <= groups.Keys
  {
    if ids == {} then 0 else var id :| id in ids; groups[id].power + TotalPower(groups, ids - {id})
  }

  ghost function InAny(cfg: Config, votes: seq<Option<Vote>>, ids: set<Bytes>): (r: seq<bool>)
    ensures |r| == |votes|
  {
    seq(|votes|, i requires 0 <= i < |votes| =>
      votes[i].Some? && GroupOf(cfg, votes[i].value).Some? && GroupOf(cfg, votes[i].value).value in ids)
  }

  /** Disjoint flags add up. */
  lemma {:induction false} WeightDisjoint(w: seq<int>, f: seq<bool>, g: seq<bool>, either: seq<bool>)
    requires |w| == |f| == |g| == |either|
    requires forall i :: 0 <= i < |w| ==> !(f[i] && g[i]) && either[i] == (f[i] || g[i])
    ensures Weight(w, either) == Weight(w, f) + Weight(w, g)
  {
    if w == [] {
    } else {
      var n := |w| - 1;
      WeightDisjoint(w[..n], f[..n], g[..n], either[..n]);
    }
  }

  lemma {:induction false} TotalPowerIsWeight(cfg: Config, b: Bucket, ids: set<Bytes>)
    requires |b.votes| == cfg.Size() && GroupsOk(cfg, b) && ids <= b.groups.Keys
    ensures TotalPower(b.groups, ids) == Weight(cfg.vals.Powers(), InAny(cfg, b.votes, ids))
  {
    hide GroupOf;
    hide InGroup;
    hide InAny;
    hide Members;
    if ids == {} {
      AnyOfNone(cfg, b.votes);
    } else {
      var id :| id in ids && TotalPower(b.groups, ids) == b.groups[id].power + TotalPower(b.groups, ids - {id});
      TotalPowerIsWeight(cfg, b, ids - {id});
      assert GroupOk(cfg, b.votes, id, b.groups[id]);
      AnyAdds(cfg, b.votes, id, ids);
    }
  }

  lemma AnyOfNone(cfg: Config, votes: seq<Option<Vote>>)
    requires |votes| == cfg.Size()
    ensures Weight(cfg.vals.Powers(), InAny(cfg, votes, {})) == 0
  {
    hide GroupOf;
    WeightNoFlag(cfg.vals.Powers(), InAny(cfg, votes, {}));
  }

  lemma AnyAdds(cfg: Config, votes: seq<Option<Vote>>, id: Bytes, ids: set<Bytes>)
    requires |votes| == cfg.Size() && id in ids
    ensures Weight(cfg.vals.Powers(), InAny(cfg, votes, ids)) ==
            Weight(cfg.vals.Powers(), InGroup(cfg, votes, id)) +
            Weight(cfg.vals.Powers(), InAny(cfg, votes, ids - {id}))
  {
    hide GroupOf;
    WeightDisjoint(cfg.vals.Powers(), InGroup(cfg, votes, id), InAny(cfg, votes, ids - {id}), InAny(cfg, votes, ids));
  }

  /** In every reachable bucket the groups partition the voters, and their powers add up to the bucket's. */
  lemma GroupsPartition(cfg: Config, calls: seq<Call>, key: Bytes)
    requires HonestRun(cfg, calls) && key in Run(cfg, calls).buckets
    ensures var b := Run(cfg, calls).buckets[key];
            && TotalPower(b.groups, b.groups.Keys) == b.sum
            && (forall i :: 0 <= i < |b.votes| && b.votes[i].Some? ==>
                  exists id :: id in b.groups && b.votes[i].value.proTxHash in b.groups[id].voters)
            && (forall id, id' :: id in b.groups && id' in b.groups && id != id' ==>
                b.groups[id].voters !! b.groups[id'].voters)
  {
    var b := Run(cfg, calls).buckets[key];
    assert BucketOk(cfg, key, b);
    hide Run;
    PartitionOfBucket(cfg, key, b);
  }

  lemma PartitionOfBucket(cfg: Config, key: Bytes, b: Bucket)
    requires BucketOk(cfg, key, b) && cfg.vals.WellFormed()
    ensures TotalPower(b.groups, b.groups.Keys) == b.sum
    ensures forall i :: 0 <= i < |b.votes| && b.votes[i].Some? ==>
              exists id :: id in b.groups && b.votes[i].value.proTxHash in b.groups[id].voters
    ensures forall id, id' :: id in b.groups && id' in b.groups && id != id' ==>
      b.groups[id].voters !! b.groups[id'].voters
  {
    TotalPowerIsWeight(cfg, b, b.groups.Keys);
    assert InAny(cfg, b.votes, b.groups.Keys) == Filled(b.votes);
    forall i | 0 <= i < |b.votes| && b.votes[i].Some?
      ensures exists id :: id in b.groups && b.votes[i].value.proTxHash in b.groups[id].voters
    {
      var id := GroupOf(cfg, b.votes[i].value).value;
      assert GroupOk(cfg, b.votes, id, b.groups[id]);
      assert InGroup(cfg, b.votes, id)[i];
    }
    forall id, id' | id in b.groups && id' in b.groups && id != id'
      ensures b.groups[id].voters !! b.groups[id'].voters
    {
      VotersDisjoint(cfg, key, b, id, id');
    }
  }

  /** One validator, one group: ProTxHashes are distinct. */
  lemma VotersDisjoint(cfg: Config, key: Bytes, b: Bucket, id: Bytes, id': Bytes)
    requires BucketOk(cfg, key, b) && cfg.vals.WellFormed() && id in b.groups && id' in b.groups && id != id'
    ensures b.groups[id].voters !! b.groups[id'].voters
  {
    hide Recorded;
    hide GroupOf;
    hide Members;
    hide InGroup;
    hide BlockID.Key;
    hide ValidatorSet.WellFormed;
    var (g, g') := (b.groups[id], b.groups[id']);
    assert GroupOk(cfg, b.votes, id, g) && GroupOk(cfg, b.votes, id', g');
    forall h | h in g.voters
      ensures h !in g'.voters
    {
      var i := MemberIndex(cfg, b.votes, id, h);
      if h in g'.voters {
        var j := MemberIndex(cfg, b.votes, id', h);
        SameSlot(cfg, key, b, i, j);
      }
    }
  }

  lemma SameSlot(cfg: Config, key: Bytes, b: Bucket, i: int, j: int)
    requires BucketOk(cfg, key, b) && cfg.vals.WellFormed() && 0 <= i < |b.votes| && 0 <= j < |b.votes|
    requires b.votes[i].Some? && b.votes[j].Some? && b.votes[i].value.proTxHash == b.votes[j].value.proTxHash
    ensures i == j
  {
    hide VerifyVote;
    hide GroupsOk;
    hide BlockID.Key;
  }

  lemma MemberIndex(cfg: Config, votes: seq<Option<Vote>>, id: Bytes, h: Bytes) returns (i: int)
    requires h in Members(cfg, votes, id)
    ensures 0 <= i < |votes| && votes[i].Some? && votes[i].value.proTxHash == h &&
      GroupOf(cfg, votes[i].value) == Some(id)
  {
    i :| 0 <= i < |votes| && InGroup(cfg, votes, id)[i] && votes[i].value.proTxHash == h;
  }

  /** Above half of the total power at most one group can be at the recovery threshold. */
  lemma OneGroupAboveHalf(cfg: Config, key: Bytes, b: Bucket, id: Bytes, id': Bytes)
    requires BucketOk(cfg, key, b) && cfg.vals.WellFormed() && id in b.groups && id' in b.groups
    requires 2 * cfg.vals.RecoveryPower() > cfg.vals.TotalPower()
    requires b.groups[id].power >= cfg.vals.RecoveryPower() && b.groups[id'].power >= cfg.vals.RecoveryPower()
    ensures id == id'
  {
    hide VerifyVote;
    hide GroupOf;
    hide Members;
    if id != id' {
      var f, g := InGroup(cfg, b.votes, id), InGroup(cfg, b.votes, id');
      assert GroupOk(cfg, b.votes, id, b.groups[id]) && GroupOk(cfg, b.votes, id', b.groups[id']);
      DisjointPower(cfg, f, g);
    }
  }

  /** Disjoint sets of validators hold at most the total power. */
  lemma DisjointPower(cfg: Config, f: seq<bool>, g: seq<bool>)
    requires cfg.vals.WellFormed() && |f| == |g| == cfg.Size() && forall i :: 0 <= i < |f| ==> !(f[i] && g[i])
    ensures Weight(cfg.vals.Powers(), f) + Weight(cfg.vals.Powers(), g) <= cfg.vals.TotalPower()
  {
    var w, none, all := cfg.vals.Powers(), seq(cfg.Size(), _ => false), seq(cfg.Size(), _ => true);
    WeightOverlap(w, f, g, none, all);
    WeightNoFlag(w, none);
    TotalWeight(w, all);
  }
}
