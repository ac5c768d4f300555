/** What every call keeps: the views a vote set holds of the same votes agree. */
module VoteSetInvariant {
  import opened Prelude
  import opened BlockIDs
  import opened Signing
  import opened Validators
  import opened Commits
  import opened Evidence
  import opened Recovery
  import opened VoteSetModel

  function Filled(votes: seq<Option<Vote>>): (r: seq<bool>)
    ensures |r| == |votes|
  {
    seq(|votes|, i requires 0 <= i < |votes| => votes[i].Some?)
  }

  function InGroup(cfg: Config, votes: seq<Option<Vote>>, identity: Bytes): (r: seq<bool>)
    ensures |r| == |votes|
  {
    seq(|votes|, i requires 0 <= i < |votes| => votes[i].Some? && GroupOf(cfg, votes[i].value) == Some(identity))
  }

  ghost function Voted(votes: seq<Option<Vote>>): set<int> {
    set i | 0 <= i < |votes| && votes[i].Some?
  }

  /** A vote of validator `i` that passed every check of `addVote`. */
  ghost predicate Recorded(cfg: Config, v: Vote, i: int) {
    && 0 <= i < cfg.Size() && v.index == i
    && v.height == cfg.height && v.round == cfg.round && v.typ == cfg.typ
    && v.proTxHash == cfg.vals.validators[i].proTxHash
    && VerifyVote(cfg.p, cfg.Context(), v, cfg.vals.validators[i].pubKey, v.proTxHash, None).Ok?
  }

  ghost function Members(cfg: Config, votes: seq<Option<Vote>>, identity: Bytes): set<Bytes> {
    set i | 0 <= i < |votes| && InGroup(cfg, votes, identity)[i] :: votes[i].value.proTxHash
  }

  /** A group holds exactly the voters with its identity, their power, and one of their votes. */
  ghost predicate GroupOk(cfg: Config, votes: seq<Option<Vote>>, identity: Bytes, g: Group)
    requires |votes| == cfg.Size()
  {
    && g.power == Weight(cfg.vals.Powers(), InGroup(cfg, votes, identity))
    && g.voters == Members(cfg, votes, identity)
    && GroupOf(cfg, g.representative) == Some(identity)
    && Some(g.representative) in votes
  }

  ghost predicate GroupsOk(cfg: Config, b: Bucket)
    requires |b.votes| == cfg.Size()
  {
    && (forall i :: 0 <= i < |b.votes| && b.votes[i].Some? ==>
          var identity := GroupOf(cfg, b.votes[i].value); identity.Some? && identity.value in b.groups)
    && (forall identity :: identity in b.groups ==> GroupOk(cfg, b.votes, identity, b.groups[identity]))
  }

  ghost predicate BucketOk(cfg: Config, key: Bytes, b: Bucket) {
    && |b.votes| == |b.bits| == cfg.Size()
    && (forall i :: 0 <= i < |b.votes| ==> b.bits[i] == b.votes[i].Some?)
    && (forall i :: 0 <= i < |b.votes| && b.votes[i].Some? ==>
          Recorded(cfg, b.votes[i].value, i) && b.votes[i].value.blockID.Key() == key)
    && b.sum == Weight(cfg.vals.Powers(), Filled(b.votes))
    && GroupsOk(cfg, b)
  }

  ghost predicate BucketsOk(cfg: Config, buckets: map<Bytes, Bucket>) {
    forall k :: k in buckets ==> BucketOk(cfg, k, buckets[k])
  }

  ghost predicate CanonicalOk(cfg: Config, bits: seq<bool>, votes: seq<Option<Vote>>, sum: int) {
    && |votes| == |bits| == cfg.Size()
    && (forall i :: 0 <= i < |votes| ==> bits[i] == votes[i].Some?)
    && (forall i :: 0 <= i < |votes| && votes[i].Some? ==> Recorded(cfg, votes[i].value, i))
    && sum == Weight(cfg.vals.Powers(), Filled(votes))
  }

  ghost predicate Shaped(n: nat, s: State) {
    && |s.votes| == |s.bits| == n
    && forall k :: k in s.buckets ==> |s.buckets[k].votes| == |s.buckets[k].bits| == n
  }

  /** A filled bucket slot has a filled canonical slot. */
  ghost predicate Covered(n: nat, s: State)
    requires Shaped(n, s)
  {
    forall k, i :: k in s.buckets && 0 <= i < n && s.buckets[k].votes[i].Some? ==> s.votes[i].Some?
  }

  /** The block of the canonical vote of `i` is tracked, and unless it is `maj23` its bucket holds that very vote. */
  ghost predicate TrackedAt(n: nat, s: State, i: int)
    requires Shaped(n, s) && 0 <= i < n
  {
    s.votes[i].Some? ==>
      var key := s.votes[i].value.blockID.Key();
      && key in s.buckets
      && (s.maj23.None? || s.maj23.value.Key() != key ==> s.buckets[key].votes[i] == s.votes[i])
  }

  ghost predicate Tracked(n: nat, s: State)
    requires Shaped(n, s)
  {
    forall i :: 0 <= i < n ==> TrackedAt(n, s, i)
  }

  /** A majority block is at quorum and its bucket's votes are the canonical ones. */
  ghost predicate MajorityOk(n: nat, quorum: int, s: State)
    requires Shaped(n, s)
  {
    s.maj23.Some? ==>
      var key := s.maj23.value.Key();
      && key in s.buckets
      && s.buckets[key].sum >= quorum
      && forall i :: 0 <= i < n && s.buckets[key].votes[i].Some? ==> s.votes[i] == s.buckets[key].votes[i]
  }

  /** The views agree with one another. */
  ghost predicate Views(n: nat, quorum: int, s: State) {
    && Shaped(n, s)
    && Covered(n, s)
    && Tracked(n, s)
    && MajorityOk(n, quorum, s)
  }

  /** Memory: one bucket per voter plus one per claim, and claims are capped. */
  ghost predicate Bounded(s: State) {
    && |s.claims| <= MAX_PEER_MAJ23S
    && |s.buckets| <= |Voted(s.votes)| + |s.claims|
  }

  ghost predicate Valid(cfg: Config, s: State) {
    && CanonicalOk(cfg, s.bits, s.votes, s.sum)
    && BucketsOk(cfg, s.buckets)
    && Views(cfg.Size(), cfg.vals.QuorumPower(), s)
    && Bounded(s)
  }

  // ---------------------------------------------------------------- the empty set

  lemma EmptyBucketOk(cfg: Config, key: Bytes, peerMaj23: bool)
    ensures BucketOk(cfg, key, EmptyBucket(peerMaj23, cfg.Size()))
  {
    WeightNoFlag(cfg.vals.Powers(), Filled(EmptyBucket(peerMaj23, cfg.Size()).votes));
  }

  lemma InitialValid(cfg: Config)
    ensures Valid(cfg, Initial(cfg))
  {
    WeightNoFlag(cfg.vals.Powers(), Filled(Initial(cfg).votes));
  }

  // ---------------------------------------------------------------- filing a vote in a bucket

  ghost function GroupWith(b: Bucket, v: Vote, identity: Bytes, power: int): Group {
    var g := if identity in b.groups then b.groups[identity] else Group(0, v, {});
    Group(g.power + power, g.representative, g.voters + {v.proTxHash})
  }

  /** The vote joins its own group. */
  lemma OwnGroupAdd(cfg: Config, b: Bucket, v: Vote, identity: Bytes)
    requires |b.votes| == cfg.Size() && GroupsOk(cfg, b)
    requires 0 <= v.index < cfg.Size() && b.votes[v.index].None? && GroupOf(cfg, v) == Some(identity)
    ensures GroupOk(cfg, b.votes[v.index := Some(v)], identity,
                    GroupWith(b, v, identity, cfg.vals.validators[v.index].power))
  {
    var i, f := v.index, InGroup(cfg, b.votes, identity);
    assert InGroup(cfg, b.votes[i := Some(v)], identity) == f[i := true];
    WeightSetFlag(cfg.vals.Powers(), f, i);
    MembersAdd(cfg, b.votes, v, identity);
    if identity !in b.groups {
      NoMembers(cfg, b, identity);
      assert b.votes[i := Some(v)][i] == Some(v);
    } else {
      assert GroupOk(cfg, b.votes, identity, b.groups[identity]);
      SomeStays(b.votes, i, v, b.groups[identity].representative);
    }
  }

  /** The vote leaves the other groups alone. */
  lemma OtherGroupAdd(cfg: Config, votes: seq<Option<Vote>>, v: Vote, identity: Bytes, g: Group)
    requires |votes| == cfg.Size() && GroupOk(cfg, votes, identity, g)
    requires 0 <= v.index < cfg.Size() && votes[v.index].None? && GroupOf(cfg, v) != Some(identity)
    ensures GroupOk(cfg, votes[v.index := Some(v)], identity, g)
  {
    assert InGroup(cfg, votes[v.index := Some(v)], identity) == InGroup(cfg, votes, identity);
    MembersSame(cfg, votes, v, identity);
    SomeStays(votes, v.index, v, g.representative);
  }

  lemma GroupsAdd(cfg: Config, b: Bucket, v: Vote, identity: Bytes)
    requires |b.votes| == |b.bits| == cfg.Size() && GroupsOk(cfg, b)
    requires 0 <= v.index < cfg.Size() && b.votes[v.index].None?
    requires GroupOf(cfg, v) == Some(identity)
    ensures GroupsOk(cfg, BucketAdd(b, v, identity, cfg.vals.validators[v.index].power, cfg.vals.RecoveryPower()).0)
  {
    var power := cfg.vals.validators[v.index].power;
    var b' := BucketAdd(b, v, identity, power, cfg.vals.RecoveryPower()).0;
    assert b'.groups == b.groups[identity := GroupWith(b, v, identity, power)];
    OwnGroupAdd(cfg, b, v, identity);
    forall id | id in b.groups && id != identity
      ensures GroupOk(cfg, b'.votes, id, b.groups[id])
    {
      OtherGroupAdd(cfg, b.votes, v, id, b.groups[id]);
    }
  }

  lemma SomeStays(votes: seq<Option<Vote>>, i: nat, v: Vote, r: Vote)
    requires i < |votes| && votes[i].None? && Some(r) in votes
    ensures Some(r) in votes[i := Some(v)]
  {
    var j :| 0 <= j < |votes| && votes[j] == Some(r);
    assert votes[i := Some(v)][j] == Some(r);
  }

  lemma NoMembers(cfg: Config, b: Bucket, identity: Bytes)
    requires |b.votes| == cfg.Size() && GroupsOk(cfg, b) && identity !in b.groups
    ensures Weight(cfg.vals.Powers(), InGroup(cfg, b.votes, identity)) == 0 && Members(cfg, b.votes, identity) == {}
  {
    WeightNoFlag(cfg.vals.Powers(), InGroup(cfg, b.votes, identity));
  }

  lemma MembersAdd(cfg: Config, votes: seq<Option<Vote>>, v: Vote, identity: Bytes)
    requires 0 <= v.index < |votes| && votes[v.index].None? && GroupOf(cfg, v) == Some(identity)
    ensures Members(cfg, votes[v.index := Some(v)], identity) == Members(cfg, votes, identity) + {v.proTxHash}
  {
    var votes' := votes[v.index := Some(v)];
    assert InGroup(cfg, votes', identity)[v.index];
    forall h | h in Members(cfg, votes, identity)
      ensures h in Members(cfg, votes', identity)
    {
      var j :| 0 <= j < |votes| && InGroup(cfg, votes, identity)[j] && votes[j].value.proTxHash == h;
      assert InGroup(cfg, votes', identity)[j];
    }
    forall h | h in Members(cfg, votes', identity)
      ensures h in Members(cfg, votes, identity) + {v.proTxHash}
    {
      var j :| 0 <= j < |votes| && InGroup(cfg, votes', identity)[j] && votes'[j].value.proTxHash == h;
      assert j != v.index ==> InGroup(cfg, votes, identity)[j];
    }
  }

  lemma MembersSame(cfg: Config, votes: seq<Option<Vote>>, v: Vote, identity: Bytes)
    requires 0 <= v.index < |votes| && votes[v.index].None? && GroupOf(cfg, v) != Some(identity)
    ensures Members(cfg, votes[v.index := Some(v)], identity) == Members(cfg, votes, identity)
  {
    var votes' := votes[v.index := Some(v)];
    assert InGroup(cfg, votes', identity) == InGroup(cfg, votes, identity);
    forall h | h in Members(cfg, votes, identity)
      ensures h in Members(cfg, votes', identity)
    {
      var j :| 0 <= j < |votes| && InGroup(cfg, votes, identity)[j] && votes[j].value.proTxHash == h;
      assert votes'[j] == votes[j];
    }
  }

  lemma BucketAddOk(cfg: Config, b: Bucket, v: Vote, identity: Bytes)
    requires BucketOk(cfg, v.blockID.Key(), b) && Recorded(cfg, v, v.index)
    requires b.votes[v.index].None? && GroupOf(cfg, v) == Some(identity)
    ensures BucketOk(cfg, v.blockID.Key(),
                     BucketAdd(b, v, identity, cfg.vals.validators[v.index].power, cfg.vals.RecoveryPower()).0)
  {
    hide GroupsOk;
    hide GroupOf;
    hide VerifyVote;
    hide Weight;
    GroupsAdd(cfg, b, v, identity);
    assert Filled(b.votes[v.index := Some(v)]) == Filled(b.votes)[v.index := true];
    WeightSetFlag(cfg.vals.Powers(), Filled(b.votes), v.index);
  }

  // ---------------------------------------------------------------- recording and filing a vote

  /** A vote `getVote` does not know: no bucket slot for its key, and any canonical vote is for another key. */
  ghost predicate Unknown(n: nat, s: State, v: Vote)
    requires Shaped(n, s) && 0 <= v.index < n
  {
    GetVote(s, v.index, v.blockID.Key()).None?
  }

  lemma RecordCanonicalOk(cfg: Config, s: State, v: Vote)
    requires CanonicalOk(cfg, s.bits, s.votes, s.sum) && Recorded(cfg, v, v.index)
    ensures var r := RecordCanonical(s, v, cfg.vals.validators[v.index].power);
            CanonicalOk(cfg, r.bits, r.votes, r.sum)
  {
    hide VerifyVote;
    hide BlockID.Key;
    var i := v.index;
    assert Filled(s.votes[i := Some(v)]) == Filled(s.votes)[i := true];
    if s.votes[i].None? {
      WeightSetFlag(cfg.vals.Powers(), Filled(s.votes), i);
    } else {
      assert Filled(s.votes)[i := true] == Filled(s.votes);
    }
  }

  /** Recording keeps every view, except that a kept vote is yet to be filed in its bucket. */
  lemma RecordViews(n: nat, quorum: int, s: State, v: Vote, power: int)
    requires Views(n, quorum, s) && 0 <= v.index < n && Unknown(n, s, v)
    ensures var r := RecordCanonical(s, v, power);
            && Shaped(n, r) && Covered(n, r) && MajorityOk(n, quorum, r)
            && forall i :: 0 <= i < n && (i != v.index || !Kept(s, v)) ==> TrackedAt(n, r, i)
  {
    var r := RecordCanonical(s, v, power);
    forall i | 0 <= i < n && (i != v.index || !Kept(s, v))
      ensures TrackedAt(n, r, i)
    {
      assert TrackedAt(n, s, i);
    }
  }

  lemma AddOne(s: set<int>, x: int)
    ensures |s + {x}| == |s| + if x in s then 0 else 1
  {
    if x in s {
      assert s + {x} == s;
    }
  }

  lemma VotedAfter(s: State, v: Vote, power: int)
    requires 0 <= v.index < |s.votes| == |s.bits|
    ensures var r := RecordCanonical(s, v, power);
            && Voted(r.votes) == Voted(s.votes) + {v.index}
            && |Voted(r.votes)| == |Voted(s.votes)| + (if s.votes[v.index].None? then 1 else 0)
  {
    var r := RecordCanonical(s, v, power);
    assert Voted(r.votes) == Voted(s.votes) + {v.index};
    AddOne(Voted(s.votes), v.index);
    assert v.index in Voted(s.votes) <==> s.votes[v.index].Some?;
  }

  /** `b'` is the bucket of `v` with `v` filed in it. */
  ghost predicate FiledIn(n: nat, s: State, v: Vote, b': Bucket)
    requires Shaped(n, s) && 0 <= v.index < n
  {
    var key := v.blockID.Key();
    && |b'.bits| == n
    && (key in s.buckets ==> b'.votes == s.buckets[key].votes[v.index := Some(v)] && b'.sum >= s.buckets[key].sum)
    && (key !in s.buckets ==> |b'.votes| == n && forall i :: 0 <= i < n ==>
        b'.votes[i] == if i == v.index then Some(v) else None)
  }

  /** Filing a kept vote restores the view that recording left open. */
  lemma FileViews(n: nat, quorum: int, s: State, v: Vote, power: int, b': Bucket)
    requires Views(n, quorum, s) && 0 <= v.index < n && Unknown(n, s, v) && Kept(s, v)
    requires FiledIn(n, s, v, b')
    ensures var r := RecordCanonical(s, v, power);
            Views(n, quorum, r.(buckets := r.buckets[v.blockID.Key() := b']))
  {
    RecordViews(n, quorum, s, v, power);
    FileTracked(n, quorum, s, v, power, b');
    hide TrackedAt;
    hide BlockID.Key;
  }

  lemma FileTracked(n: nat, quorum: int, s: State, v: Vote, power: int, b': Bucket)
    requires Views(n, quorum, s) && 0 <= v.index < n && Unknown(n, s, v) && Kept(s, v)
    requires FiledIn(n, s, v, b')
    ensures var r := RecordCanonical(s, v, power);
            var s' := r.(buckets := r.buckets[v.blockID.Key() := b']);
            Shaped(n, s') && Tracked(n, s')
  {
    hide BlockID.Key;
    RecordViews(n, quorum, s, v, power);
    var r := RecordCanonical(s, v, power);
    var s' := r.(buckets := r.buckets[v.blockID.Key() := b']);
    forall i | 0 <= i < n
      ensures TrackedAt(n, s', i)
    {
      assert TrackedAt(n, s, i);
      if i != v.index {
        assert TrackedAt(n, r, i);
      }
    }
  }

  lemma FileBounded(s: State, v: Vote, power: int, b': Bucket)
    requires 0 <= v.index < |s.votes| == |s.bits| && Bounded(s) && Kept(s, v)
    ensures var r := RecordCanonical(s, v, power);
            Bounded(r.(buckets := r.buckets[v.blockID.Key() := b']))
  {
    hide Voted;
    VotedAfter(s, v, power);
    AddKey(s.buckets, v.blockID.Key(), b');
  }

  lemma AddKey(buckets: map<Bytes, Bucket>, key: Bytes, b: Bucket)
    ensures |buckets[key := b]| == |buckets| + if key in buckets then 0 else 1
  {
    var buckets' := buckets[key := b];
    assert |buckets'| == |buckets'.Keys| && |buckets| == |buckets.Keys|;
    assert buckets'.Keys == buckets.Keys + {key};
    if key in buckets {
      assert buckets'.Keys == buckets.Keys;
    }
  }

  lemma TheBucketOk(cfg: Config, s: State, key: Bytes)
    requires BucketsOk(cfg, s.buckets)
    ensures BucketOk(cfg, key, TheBucket(cfg, s, key))
  {
    EmptyBucketOk(cfg, key, false);
  }

  // ---------------------------------------------------------------- finalizing

  lemma PublishOk(cfg: Config, s: State, key: Bytes)
    requires CanonicalOk(cfg, s.bits, s.votes, s.sum) && key in s.buckets && BucketOk(cfg, key, s.buckets[key])
    requires Shaped(cfg.Size(), s) && Covered(cfg.Size(), s)
    ensures CanonicalOk(cfg, s.bits, Publish(s.buckets[key].votes, s.votes), s.sum)
    ensures Voted(Publish(s.buckets[key].votes, s.votes)) == Voted(s.votes)
  {
    assert Filled(Publish(s.buckets[key].votes, s.votes)) == Filled(s.votes);
  }

  lemma PublishViews(n: nat, quorum: int, s: State, id: BlockID)
    requires Views(n, quorum, s) && s.maj23.None? && id.Key() in s.buckets && s.buckets[id.Key()].sum >= quorum
    requires forall i :: 0 <= i < n && s.buckets[id.Key()].votes[i].Some? ==>
               s.buckets[id.Key()].votes[i].value.blockID.Key() == id.Key()
    ensures Views(n, quorum, s.(maj23 := Some(id), votes := Publish(s.buckets[id.Key()].votes, s.votes)))
  {
    var s' := s.(maj23 := Some(id), votes := Publish(s.buckets[id.Key()].votes, s.votes));
    forall i | 0 <= i < n
      ensures TrackedAt(n, s', i)
    {
      assert TrackedAt(n, s, i);
    }
  }

  /** The views do not involve the recovered signatures. */
  lemma ViewsIgnoreSigns(n: nat, quorum: int, s: State, blockSign: Bytes, exts: seq<Ext>)
    requires Views(n, quorum, s)
    ensures Views(n, quorum, s.(blockSign := blockSign, exts := exts))
  {
    var s' := s.(blockSign := blockSign, exts := exts);
    forall i | 0 <= i < n
      ensures TrackedAt(n, s', i)
    {
      assert TrackedAt(n, s, i);
    }
  }

  /** Finalizing leaves the majority unset, or sets it and publishes its votes; nothing else but the signatures
      changes. */
  lemma FinalizeCases(cfg: Config, s: State, v: Vote)
    requires s.maj23.None? && v.blockID.Key() in s.buckets && |s.buckets[v.blockID.Key()].votes| == |s.votes|
    ensures var s' := Finalize(cfg, s, v).0;
            || s' == s.(blockSign := s'.blockSign, exts := s'.exts)
            || s' == s.(maj23 := Some(v.blockID), votes := Publish(s.buckets[v.blockID.Key()].votes, s.votes),
                        blockSign := s'.blockSign, exts := s'.exts)
  {
  }

  lemma FinalizeValid(cfg: Config, s: State, v: Vote)
    requires Valid(cfg, s) && s.maj23.None? && v.blockID.Key() in s.buckets
    requires s.buckets[v.blockID.Key()].sum >= cfg.vals.QuorumPower()
    ensures Valid(cfg, Finalize(cfg, s, v).0)
  {
    var key, n, quorum := v.blockID.Key(), cfg.Size(), cfg.vals.QuorumPower();
    assert BucketOk(cfg, key, s.buckets[key]);
    PublishOk(cfg, s, key);
    PublishViews(n, quorum, s, v.blockID);
    FinalizeCases(cfg, s, v);
    var s' := Finalize(cfg, s, v).0;
    ViewsIgnoreSigns(n, quorum, s, s'.blockSign, s'.exts);
    ViewsIgnoreSigns(n, quorum, s.(maj23 := Some(v.blockID), votes := Publish(s.buckets[key].votes, s.votes)),
                     s'.blockSign, s'.exts);
  }

  // ---------------------------------------------------------------- the calls

  /** The state after a kept vote is recorded and filed, before any attempt to finalize. */
  ghost function Filed(cfg: Config, s: State, v: Vote, identity: Bytes): State
    requires Shaped(cfg.Size(), s) && 0 <= v.index < cfg.Size()
  {
    var power := cfg.vals.validators[v.index].power;
    var b' := BucketAdd(TheBucket(cfg, s, v.blockID.Key()), v, identity, power, cfg.vals.RecoveryPower()).0;
    var r := RecordCanonical(s, v, power);
    r.(buckets := r.buckets[v.blockID.Key() := b'])
  }

  lemma FiledBucket(cfg: Config, s: State, v: Vote, identity: Bytes)
    requires cfg.vals.WellFormed()
    requires Shaped(cfg.Size(), s) && BucketsOk(cfg, s.buckets) && Recorded(cfg, v, v.index) &&
      GroupOf(cfg, v) == Some(identity)
    requires Unknown(cfg.Size(), s, v)
    ensures var b' := Filed(cfg, s, v, identity).buckets[v.blockID.Key()];
            FiledIn(cfg.Size(), s, v, b') && BucketOk(cfg, v.blockID.Key(), b')
  {
    TheBucketOk(cfg, s, v.blockID.Key());
    BucketAddOk(cfg, TheBucket(cfg, s, v.blockID.Key()), v, identity);
  }

  lemma FiledValid(cfg: Config, s: State, v: Vote, identity: Bytes)
    requires cfg.vals.WellFormed()
    requires Valid(cfg, s) && Recorded(cfg, v, v.index) && GroupOf(cfg, v) == Some(identity)
    requires Unknown(cfg.Size(), s, v) && Kept(s, v)
    ensures Valid(cfg, Filed(cfg, s, v, identity))
  {
    var power := cfg.vals.validators[v.index].power;
    FiledBucket(cfg, s, v, identity);
    var b' := Filed(cfg, s, v, identity).buckets[v.blockID.Key()];
    RecordCanonicalOk(cfg, s, v);
    FileViews(cfg.Size(), cfg.vals.QuorumPower(), s, v, power, b');
    FileBounded(s, v, power, b');
  }

  /** The stages of `addVerifiedVote`: drop, or file and perhaps finalize. */
  lemma AddVerifiedStages(cfg: Config, s: State, v: Vote, identity: Bytes)
    requires Shaped(cfg.Size(), s) && 0 <= v.index < cfg.Size() && Unknown(cfg.Size(), s, v)
    ensures var power := cfg.vals.validators[v.index].power;
            var step := AddVerified(cfg, s, v, identity, power);
            if !Kept(s, v) then step == Step(RecordCanonical(s, v, power), Conflict(false, s.votes[v.index].value))
            else
              var f := Filed(cfg, s, v, identity);
              var b, b' := TheBucket(cfg, s, v.blockID.Key()), f.buckets[v.blockID.Key()];
              var reached := BucketAdd(b, v, identity, power, cfg.vals.RecoveryPower()).1;
              var done := if s.votes[v.index].None? then Added else Conflict(true, s.votes[v.index].value);
              if !Attempts(cfg, f, b.sum, b'.sum, reached) then step == Step(f, done)
              else if Finalize(cfg, f, v).1 then step == Step(s, RecoveryPanic)
              else step == Step(Finalize(cfg, f, v).0, done)
  {
  }

  lemma AddVerifiedValid(cfg: Config, s: State, v: Vote, identity: Bytes)
    requires cfg.vals.WellFormed()
    requires Valid(cfg, s) && Recorded(cfg, v, v.index) && GroupOf(cfg, v) == Some(identity)
    requires Unknown(cfg.Size(), s, v)
    ensures Valid(cfg, AddVerified(cfg, s, v, identity, cfg.vals.validators[v.index].power).state)
  {
    AddVerifiedStages(cfg, s, v, identity);
    if Kept(s, v) {
      FiledValid(cfg, s, v, identity);
      var f := Filed(cfg, s, v, identity);
      if f.maj23.None? && f.buckets[v.blockID.Key()].sum >= cfg.vals.QuorumPower() {
        FinalizeValid(cfg, f, v);
      }
    } else {
      DroppedValid(cfg, s, v);
    }
  }

  lemma DroppedValid(cfg: Config, s: State, v: Vote)
    requires Valid(cfg, s) && Recorded(cfg, v, v.index) && Unknown(cfg.Size(), s, v) && !Kept(s, v)
    ensures Valid(cfg, RecordCanonical(s, v, cfg.vals.validators[v.index].power))
  {
    var power := cfg.vals.validators[v.index].power;
    RecordCanonicalOk(cfg, s, v);
    RecordViews(cfg.Size(), cfg.vals.QuorumPower(), s, v, power);
    VotedAfter(s, v, power);
  }

  /** Evidence, if any is offered, was produced by a verification. */
  ghost predicate Honest(cfg: Config, check: Check) {
    check.WithEvidence? ==> GenuineVote(cfg.p, check.evidence)
  }

  /** However the check is made, what passes is what a full verification accepts. */
  lemma CheckedVerifies(cfg: Config, v: Vote, check: Check)
    requires Precheck(cfg, Some(v)).None? && Honest(cfg, check) && Checked(cfg, v, check).None?
    ensures Recorded(cfg, v, v.index)
  {
    var val := cfg.vals.validators[v.index];
    match check
    case Full =>
    case WithEvidence(e, ref) =>
      MatchedVoteVerifies(cfg.p, e, ref, v, cfg.Context(), val.pubKey, val.proTxHash);
    case Budgeted(permits) =>
      var data := VoteSignData(cfg.p, cfg.Context(), v).value;
      VerifyQuorumMeaning(cfg.p, val.pubKey.value, data, VoteSigns(v), Some(permits));
      VerifyQuorumMeaning(cfg.p, val.pubKey.value, data, VoteSigns(v), None);
  }

  /** The vote passes every check of `addVote`. */
  ghost predicate Admits(cfg: Config, s: State, vote: Option<Vote>, check: Check)
    requires Shaped(cfg.Size(), s)
  {
    && Precheck(cfg, vote).None?
    && Unknown(cfg.Size(), s, vote.value)
    && Checked(cfg, vote.value, check).None?
    && GroupOf(cfg, vote.value).Some?
  }

  lemma CheckedErrors(cfg: Config, v: Vote, check: Check)
    requires 0 <= v.index < cfg.Size()
    ensures Checked(cfg, v, check) != Some(NoIdentity)
  {
    hide VerifyVote;
    hide VoteMatches;
  }

  lemma RecordedHasGroup(cfg: Config, v: Vote)
    requires Recorded(cfg, v, v.index)
    ensures GroupOf(cfg, v).Some?
  {
    VerifiedHasIdentity(cfg.p, cfg.Context(), v, cfg.vals.validators[v.index].pubKey, v.proTxHash, None);
  }

  lemma AddVerifiedOutcomes(cfg: Config, s: State, v: Vote, identity: Bytes)
    requires Shaped(cfg.Size(), s) && 0 <= v.index < cfg.Size() && Unknown(cfg.Size(), s, v)
    ensures var o := AddVerified(cfg, s, v, identity, cfg.vals.validators[v.index].power).outcome;
            o.Added? || o.Conflict? || o.RecoveryPanic?
  {
    hide Finalize;
  }

  /** A vote that is not admitted changes nothing; one that is was verified, and goes to `addVerifiedVote`. */
  lemma AddVoteCases(cfg: Config, s: State, vote: Option<Vote>, check: Check)
    requires Shaped(cfg.Size(), s)
    ensures !Admits(cfg, s, vote, check) ==>
              var step := AddVote(cfg, s, vote, check);
              step.state == s && (step.outcome.Duplicate? || step.outcome.Rejected?)
    ensures Honest(cfg, check) ==> AddVote(cfg, s, vote, check).outcome != Rejected(NoIdentity)
    ensures Admits(cfg, s, vote, check) ==>
              var v := vote.value;
              AddVote(cfg, s, vote, check) ==
                AddVerified(cfg, s, v, GroupOf(cfg, v).value, cfg.vals.validators[v.index].power)
    ensures Admits(cfg, s, vote, check) && Honest(cfg, check) ==> Recorded(cfg, vote.value, vote.value.index)
  {
    hide AddVerified;
    hide Checked;
    hide GroupOf;
    hide Recorded;
    hide Honest;
    hide BlockID.Key;
    if Precheck(cfg, vote).None? {
      CheckedErrors(cfg, vote.value, check);
      if Checked(cfg, vote.value, check).None? && Honest(cfg, check) {
        CheckedVerifies(cfg, vote.value, check);
        RecordedHasGroup(cfg, vote.value);
      }
    }
    if Admits(cfg, s, vote, check) {
      AddVerifiedOutcomes(cfg, s, vote.value, GroupOf(cfg, vote.value).value);
    }
  }

  lemma AddVoteValid(cfg: Config, s: State, vote: Option<Vote>, check: Check)
    requires cfg.vals.WellFormed() && Honest(cfg, check) && Valid(cfg, s)
    ensures Valid(cfg, AddVote(cfg, s, vote, check).state)
  {
    AddVoteCases(cfg, s, vote, check);
    hide AddVote;
    hide AddVerified;
    if Admits(cfg, s, vote, check) {
      AddVerifiedValid(cfg, s, vote.value, GroupOf(cfg, vote.value).value);
    }
  }

  lemma ClaimViews(n: nat, quorum: int, s: State, key: Bytes, b': Bucket, claims: map<string, Claim>)
    requires Views(n, quorum, s) && |b'.votes| == |b'.bits| == n
    requires if key in s.buckets then b'.votes == s.buckets[key].votes && b'.sum == s.buckets[key].sum
             else forall i :: 0 <= i < n ==> b'.votes[i].None?
    ensures Views(n, quorum, s.(buckets := s.buckets[key := b'], claims := claims))
  {
    var s' := s.(buckets := s.buckets[key := b'], claims := claims);
    forall i | 0 <= i < n
      ensures TrackedAt(n, s', i)
    {
      assert TrackedAt(n, s, i);
    }
  }

  lemma ClaimBounded(s: State, key: Bytes, b': Bucket, peer: string, claim: Claim)
    requires Bounded(s) && peer !in s.claims && |s.claims| < MAX_PEER_MAJ23S
    ensures Bounded(s.(buckets := s.buckets[key := b'], claims := s.claims[peer := claim]))
  {
    var buckets', claims' := s.buckets[key := b'], s.claims[peer := claim];
    assert buckets'.Keys == s.buckets.Keys + {key} && claims'.Keys == s.claims.Keys + {peer};
    assert |buckets'| == |buckets'.Keys| && |s.buckets| == |s.buckets.Keys|;
    assert |claims'| == |claims'.Keys| && |s.claims| == |s.claims.Keys|;
  }

  lemma FlaggedOk(cfg: Config, key: Bytes, b: Bucket)
    requires BucketOk(cfg, key, b)
    ensures BucketOk(cfg, key, b.(peerMaj23 := true)) && |b.votes| == |b.bits| == cfg.Size()
  {
    assert GroupsOk(cfg, b);
  }

  /** Starting or marking a bucket keeps the buckets in order. */
  lemma ClaimBuckets(cfg: Config, s: State, key: Bytes)
    requires Shaped(cfg.Size(), s) && BucketsOk(cfg, s.buckets)
    ensures var b := if key in s.buckets then s.buckets[key] else EmptyBucket(true, cfg.Size());
            && BucketsOk(cfg, s.buckets[key := b.(peerMaj23 := true)])
            && |b.votes| == |b.bits| == cfg.Size()
  {
    EmptyBucketOk(cfg, key, true);
    var b := if key in s.buckets then s.buckets[key] else EmptyBucket(true, cfg.Size());
    FlaggedOk(cfg, key, b);
    hide BucketOk;
  }

  lemma SetPeerMaj23Valid(cfg: Config, s: State, peer: string, id: BlockID, height: int, round: int)
    requires Valid(cfg, s)
    ensures Valid(cfg, SetPeerMaj23(cfg, s, peer, id, height, round).0)
  {
    hide BucketsOk;
    hide CanonicalOk;
    hide Views;
    hide Bounded;
    hide BlockID.Key;
    if cfg.height == height && peer !in s.claims && |s.claims| < MAX_PEER_MAJ23S {
      var key, claim := id.Key(), Claim(id, height, round);
      var b := if key in s.buckets then s.buckets[key] else EmptyBucket(true, cfg.Size());
      ViewsShaped(cfg.Size(), cfg.vals.QuorumPower(), s);
      ClaimBuckets(cfg, s, key);
      ClaimViews(cfg.Size(), cfg.vals.QuorumPower(), s, key, b.(peerMaj23 := true), s.claims[peer := claim]);
      ClaimBounded(s, key, b.(peerMaj23 := true), peer, claim);
    }
  }

  lemma ViewsShaped(n: nat, quorum: int, s: State)
    requires Views(n, quorum, s)
    ensures Shaped(n, s)
  {
  }
}
