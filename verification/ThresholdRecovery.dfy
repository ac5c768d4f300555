/** When threshold recovery succeeds: what `SignsRecoverer` collects from a block's votes, and what a threshold
    scheme makes of it (types/signs_recoverer.go, types/vote_set.go). */
module ThresholdRecovery {
  import opened Prelude
  import opened BlockIDs
  import opened Signing
  import opened Sorting
  import opened Validators
  import opened Recovery
  import opened VoteSetModel
  import opened VoteSetInvariant
  import opened VoteSetRuns
  import opened VoteSetDecisions
  import opened CommitPipeline

  // ---------------------------------------------------------------- the block shares

  /** The votes that are there, in order. */
  function Signers(votes: seq<Option<Vote>>): seq<Vote> {
    if votes == [] then []
    else
      var n := |votes| - 1;
      Signers(votes[..n]) + if votes[n].Some? then [votes[n].value] else []
  }

  /** Every vote gives its block signature and its proTxHash. */
  lemma {:induction false} CollectedBlockShares(votes: seq<Option<Vote>>, voters: set<Bytes>)
    requires CollectShares(votes, voters).Some?
    ensures var shares, vs := CollectShares(votes, voters).value, Signers(votes);
            && |shares.blockSigns| == |shares.proTxHashes| == |vs|
            && forall i :: 0 <= i < |vs| ==>
                 shares.blockSigns[i] == vs[i].blockSign && shares.proTxHashes[i] == vs[i].proTxHash
  {
    if votes == [] {
    } else {
      CollectedBlockShares(votes[..|votes| - 1], voters);
    }
  }

  ghost predicate Indexed(votes: seq<Option<Vote>>) {
    forall i :: 0 <= i < |votes| && votes[i].Some? ==> votes[i].value.index == i
  }

  lemma {:induction false} SignersIndexed(votes: seq<Option<Vote>>)
    requires Indexed(votes)
    ensures forall i :: 0 <= i < |Signers(votes)| ==>
              var k := Signers(votes)[i].index; 0 <= k < |votes| && votes[k] == Some(Signers(votes)[i])
    ensures forall i, j :: 0 <= i < j < |Signers(votes)| ==> Signers(votes)[i].index < Signers(votes)[j].index
  {
    if votes == [] {
    } else {
      SignersIndexed(votes[..|votes| - 1]);
    }
  }

  lemma {:induction false} SignersWeight(w: seq<int>, votes: seq<Option<Vote>>)
    requires |w| == |votes| && forall i :: 0 <= i < |w| ==> w[i] == DASH_VOTING_POWER
    ensures |Signers(votes)| * DASH_VOTING_POWER == Weight(w, Filled(votes))
  {
    if votes == [] {
    } else {
      var n := |votes| - 1;
      SignersWeight(w[..n], votes[..n]);
      assert Filled(votes)[..n] == Filled(votes[..n]);
    }
  }

  // ---------------------------------------------------------------- the extension shares

  predicate Contributes(v: Option<Vote>, voters: set<Bytes>) {
    v.Some? && v.value.proTxHash in voters
  }

  /** The contributing votes carry the same number of recoverable extensions, with sizes in order, and only
      votes for a block carry any. */
  ghost predicate Uniform(votes: seq<Option<Vote>>, voters: set<Bytes>, m: nat) {
    forall j :: 0 <= j < |votes| && Contributes(votes[j], voters) ==>
      var v := votes[j].value;
      && |Recoverables(v.exts)| == m && ShareSizesOk(v.proTxHash, Recoverables(v.exts))
      && (v.exts != [] ==> v.typ == Precommit && !v.blockID.IsNil())
  }

  /** The shares of the i-th recoverable extension. */
  ghost function SharesOf(votes: seq<Option<Vote>>, voters: set<Bytes>, i: nat): map<Bytes, Bytes> {
    if votes == [] then map[]
    else
      var n := |votes| - 1;
      var rest := SharesOf(votes[..n], voters, i);
      if Contributes(votes[n], voters) && i < |Recoverables(votes[n].value.exts)|
      then rest[votes[n].value.proTxHash := Recoverables(votes[n].value.exts)[i].signature] else rest
  }

  ghost predicate SharedAs(exts: seq<SharedExt>, votes: seq<Option<Vote>>, voters: set<Bytes>, m: nat) {
    || (exts == [] && (m == 0 || forall j :: 0 <= j < |votes| ==> !Contributes(votes[j], voters)))
    || (|exts| == m && forall i :: 0 <= i < m ==> exts[i].shares == SharesOf(votes, voters, i))
  }

  lemma {:induction false} NoShares(votes: seq<Option<Vote>>, voters: set<Bytes>, i: nat)
    requires forall j :: 0 <= j < |votes| ==> !Contributes(votes[j], voters)
    ensures SharesOf(votes, voters, i) == map[]
  {
    if votes == [] {
    } else {
      var n := |votes| - 1;
      assert !Contributes(votes[n], voters);
      assert forall j :: 0 <= j < n ==> votes[..n][j] == votes[j];
      NoShares(votes[..n], voters, i);
    }
  }

  lemma AddedShares(acc: Shares, votes: seq<Option<Vote>>, v: Vote, voters: set<Bytes>, m: nat)
    requires SharedAs(acc.exts, votes, voters, m) && Uniform(votes + [Some(v)], voters, m)
    ensures AddVoteShares(acc, v, voters).Some?
    ensures SharedAs(AddVoteShares(acc, v, voters).value.exts, votes + [Some(v)], voters, m)
  {
    var votes' := votes + [Some(v)];
    var n := |votes|;
    assert votes'[n] == Some(v) && votes'[..n] == votes;
    assert forall j :: 0 <= j < n ==> votes'[j] == votes[j];
    if v.proTxHash in voters {
      assert Contributes(votes'[n], voters);
      if m > 0 && acc.exts == [] {
        forall i | 0 <= i < m
          ensures SharesOf(votes, voters, i) == map[]
        {
          NoShares(votes, voters, i);
        }
      }
    }
  }

  /** From uniform votes the shares of every extension are collected. */
  lemma {:induction false} CollectedExtShares(votes: seq<Option<Vote>>, voters: set<Bytes>, m: nat)
    requires Uniform(votes, voters, m)
    ensures CollectShares(votes, voters).Some? && SharedAs(CollectShares(votes, voters).value.exts, votes, voters, m)
  {
    hide AddVoteShares;
    hide SharedAs;
    hide Uniform;
    if votes == [] {
      NothingShared(voters, m);
    } else {
      var n := |votes| - 1;
      assert votes == votes[..n] + [votes[n]];
      FewerUniform(votes[..n], votes[n], voters, m);
      CollectedExtShares(votes[..n], voters, m);
      if votes[n].Some? {
        AddedShares(CollectShares(votes[..n], voters).value, votes[..n], votes[n].value, voters, m);
      } else {
        AbsentShares(CollectShares(votes[..n], voters).value.exts, votes[..n], voters, m);
      }
    }
  }

  lemma NothingShared(voters: set<Bytes>, m: nat)
    ensures SharedAs([], [], voters, m)
  {
  }

  lemma FewerUniform(votes: seq<Option<Vote>>, v: Option<Vote>, voters: set<Bytes>, m: nat)
    requires Uniform(votes + [v], voters, m)
    ensures Uniform(votes, voters, m)
  {
    assert forall j :: 0 <= j < |votes| ==> (votes + [v])[j] == votes[j];
  }

  /** A validator that has not voted adds nothing. */
  lemma AbsentShares(exts: seq<SharedExt>, votes: seq<Option<Vote>>, voters: set<Bytes>, m: nat)
    requires SharedAs(exts, votes, voters, m)
    ensures SharedAs(exts, votes + [None], voters, m)
  {
    var votes' := votes + [None];
    assert votes'[..|votes|] == votes && votes'[|votes|] == None;
    assert forall j :: 0 <= j < |votes| ==> votes'[j] == votes[j];
    assert forall i :: SharesOf(votes', voters, i) == SharesOf(votes, voters, i);
  }

  /** One nil-block vote with extensions among the contributing ones spoils the collection. */
  lemma {:induction false} SpoiledShares(votes: seq<Option<Vote>>, voters: set<Bytes>, j: nat)
    requires j < |votes| && Contributes(votes[j], voters)
    requires votes[j].value.exts != [] && votes[j].value.blockID.IsNil()
    ensures CollectShares(votes, voters).None?
  {
    var n := |votes| - 1;
    if j == n {
    } else {
      SpoiledShares(votes[..n], voters, j);
    }
  }

  /** A share is some contributing vote's signature, filed under that vote's proTxHash. */
  lemma {:induction false} ShareOrigin(votes: seq<Option<Vote>>, voters: set<Bytes>, i: nat, hash: Bytes)
      returns (j: nat)
    requires hash in SharesOf(votes, voters, i)
    ensures j < |votes| && Contributes(votes[j], voters) && votes[j].value.proTxHash == hash
    ensures i < |Recoverables(votes[j].value.exts)|
    ensures SharesOf(votes, voters, i)[hash] == Recoverables(votes[j].value.exts)[i].signature
  {
    var n := |votes| - 1;
    if Contributes(votes[n], voters) && votes[n].value.proTxHash == hash && i < |Recoverables(votes[n].value.exts)| {
      j := n;
    } else {
      j := ShareOrigin(votes[..n], voters, i, hash);
    }
  }

  lemma {:induction false} ShareKeys(votes: seq<Option<Vote>>, voters: set<Bytes>, i: nat, j: nat)
    requires j < |votes| && Contributes(votes[j], voters) && i < |Recoverables(votes[j].value.exts)|
    ensures votes[j].value.proTxHash in SharesOf(votes, voters, i)
  {
    var n := |votes| - 1;
    if j == n {
    } else {
      ShareKeys(votes[..n], voters, i, j);
    }
  }

  // ---------------------------------------------------------------- counting

  ghost function Flagged(hashes: seq<Bytes>, f: seq<bool>): set<Bytes>
    requires |hashes| == |f|
  {
    set i | 0 <= i < |f| && f[i] :: hashes[i]
  }

  lemma FlaggedLast(hashes: seq<Bytes>, f: seq<bool>)
    requires |hashes| == |f| > 0 && Distinct(hashes)
    ensures var n := |f| - 1;
            var rest := Flagged(hashes[..n], f[..n]);
            Flagged(hashes, f) == (if f[n] then rest + {hashes[n]} else rest) && hashes[n] !in rest
  {
    var n := |f| - 1;
    assert forall i :: 0 <= i < n ==> hashes[..n][i] == hashes[i] && f[..n][i] == f[i];
  }

  /** With distinct hashes and equal powers, power counts hashes. */
  lemma {:induction false} FlaggedWeight(hashes: seq<Bytes>, w: seq<int>, f: seq<bool>)
    requires |hashes| == |w| == |f| && Distinct(hashes) && forall i :: 0 <= i < |w| ==> w[i] == DASH_VOTING_POWER
    ensures |Flagged(hashes, f)| * DASH_VOTING_POWER == Weight(w, f)
  {
    if f == [] {
      assert Flagged(hashes, f) == {};
    } else {
      var n := |f| - 1;
      FlaggedLast(hashes, f);
      hide Flagged;
      FlaggedWeight(hashes[..n], w[..n], f[..n]);
    }
  }

  // ---------------------------------------------------------------- a threshold scheme

  /** A validator's signature over a digest, under its own key. */
  ghost predicate IsShare(cfg: Config, digest: Hash32, proTxHash: Bytes, sig: Bytes) {
    && |proTxHash| == PRO_TX_HASH_SIZE && |sig| == SIGNATURE_SIZE
    && exists j :: 0 <= j < cfg.Size() && IsSignatureOf(cfg, j, digest, proTxHash, sig)
  }

  predicate IsSignatureOf(cfg: Config, j: nat, digest: Hash32, proTxHash: Bytes, sig: Bytes)
    requires j < cfg.Size()
  {
    var val := cfg.vals.validators[j];
    val.proTxHash == proTxHash && val.pubKey.Some? && cfg.p.verifyDigest(val.pubKey.value, digest, sig)
  }

  /** The quorum's signature over a digest. */
  predicate IsThresholdSign(cfg: Config, digest: Hash32, sig: Option<Bytes>) {
    && sig.Some? && |sig.value| == SIGNATURE_SIZE
    && cfg.vals.thresholdKey.Some? && cfg.p.verifyDigest(cfg.vals.thresholdKey.value, digest, sig.value)
  }

  ghost predicate EnoughList(cfg: Config, digest: Hash32, sigs: seq<Bytes>, hashes: seq<Bytes>) {
    && |sigs| == |hashes| && Distinct(hashes) && |sigs| * DASH_VOTING_POWER >= cfg.vals.RecoveryPower()
    && forall i :: 0 <= i < |sigs| ==> IsShare(cfg, digest, hashes[i], sigs[i])
  }

  ghost predicate EnoughMap(cfg: Config, digest: Hash32, shares: map<Bytes, Bytes>) {
    && |shares| * DASH_VOTING_POWER >= cfg.vals.RecoveryPower()
    && forall h :: h in shares ==> IsShare(cfg, digest, h, shares[h])
  }

  /** The keys belong together: threshold-many shares of different validators over one digest recover a
      signature over that digest under the threshold key. Nothing is said about how they are collected. */
  ghost predicate ThresholdScheme(cfg: Config) {
    && (forall digest: Hash32, sigs: seq<Bytes>, hashes: seq<Bytes> :: EnoughList(cfg, digest, sigs, hashes) ==>
          IsThresholdSign(cfg, digest, cfg.p.recoverBlockSign(sigs, hashes)))
    && (forall digest: Hash32, shares: map<Bytes, Bytes> :: EnoughMap(cfg, digest, shares) ==>
          IsThresholdSign(cfg, digest, cfg.p.recoverExtensionSign(shares)))
  }

  /** What `ValidateBasic` asks of the hash of a vote's validator. */
  ghost predicate HashSizes(b: Bucket) {
    forall i :: 0 <= i < |b.votes| && b.votes[i].Some? ==> |b.votes[i].value.proTxHash| == PRO_TX_HASH_SIZE
  }

  function BlockDigest(cfg: Config, id: BlockID): Hash32 {
    BlockSignItem(cfg.p, cfg.Context(), cfg.typ, cfg.height, cfg.round, id).signHash
  }

  function ExtItems(cfg: Config, v: Vote): Option<seq<SignItem>> {
    SignItems(cfg.p, cfg.Context(), cfg.height, cfg.round, Recoverables(v.exts))
  }

  /** A recorded vote is made of shares: one over its block, one over each recoverable extension. */
  lemma VoteShares(cfg: Config, v: Vote)
    requires Recorded(cfg, v, v.index) && |v.proTxHash| == PRO_TX_HASH_SIZE
    ensures IsShare(cfg, BlockDigest(cfg, v.blockID), v.proTxHash, v.blockSign)
    ensures ExtItems(cfg, v).Some? && ShareSizesOk(v.proTxHash, Recoverables(v.exts))
    ensures forall i :: 0 <= i < |ExtItems(cfg, v).value| ==>
              IsShare(cfg, ExtItems(cfg, v).value[i].signHash, v.proTxHash, Recoverables(v.exts)[i].signature)
  {
    hide VerifyQuorum;
    hide SignItems;
    hide Recoverables;
    hide BlockSignItem;
    var j, val := v.index, cfg.vals.validators[v.index];
    var data := VoteSignData(cfg.p, cfg.Context(), v).value;
    VerifyQuorumMeaning(cfg.p, val.pubKey.value, data, VoteSigns(v), None);
    assert IsSignatureOf(cfg, j, BlockDigest(cfg, v.blockID), v.proTxHash, v.blockSign);
    forall i | 0 <= i < |data.exts|
      ensures IsShare(cfg, data.exts[i].signHash, v.proTxHash, Recoverables(v.exts)[i].signature)
    {
      assert VerifySignature(cfg.p, val.pubKey.value, data.exts[i], VoteSigns(v).exts[i]);
      assert IsSignatureOf(cfg, j, data.exts[i].signHash, v.proTxHash, Recoverables(v.exts)[i].signature);
    }
  }

  /** The vote at a filled slot. */
  lemma SlotVote(cfg: Config, b: Bucket, id: BlockID, j: nat)
    requires BucketOk(cfg, id.Key(), b) && ProperBucket(b) && id.Proper() && j < |b.votes| && b.votes[j].Some?
    ensures var v := b.votes[j].value;
            Recorded(cfg, v, j) && v.index == j && v.blockID == id
  {
    hide VerifyVote;
    hide GroupsOk;
    KeyInjective(b.votes[j].value.blockID, id);
  }

  /** The votes of a block at the recovery threshold are enough shares for the block signature. */
  lemma BlockRecovers(cfg: Config, b: Bucket, id: BlockID, voters: set<Bytes>)
    requires cfg.vals.WellFormed() && ThresholdScheme(cfg) && b.sum >= cfg.vals.RecoveryPower()
    requires BucketOk(cfg, id.Key(), b) && ProperBucket(b) && HashSizes(b) && id.Proper()
    requires CollectShares(b.votes, voters).Some?
    ensures var shares := CollectShares(b.votes, voters).value;
            IsThresholdSign(cfg, BlockDigest(cfg, id), cfg.p.recoverBlockSign(shares.blockSigns, shares.proTxHashes))
  {
    CollectedBlockShares(b.votes, voters);
    hide CollectShares;
    var shares, vs := CollectShares(b.votes, voters).value, Signers(b.votes);
    assert Indexed(b.votes) by {
      hide VerifyVote;
      hide GroupsOk;
    }
    SignersIndexed(b.votes);
    assert |vs| * DASH_VOTING_POWER == b.sum by {
      hide VerifyVote;
      hide GroupsOk;
      SignersWeight(cfg.vals.Powers(), b.votes);
    }
    hide BucketOk;
    forall i | 0 <= i < |vs|
      ensures Recorded(cfg, vs[i], vs[i].index) && IsShare(cfg, BlockDigest(cfg, id), vs[i].proTxHash, vs[i].blockSign)
    {
      SlotVote(cfg, b, id, vs[i].index);
      VoteShares(cfg, vs[i]);
    }
    assert Distinct(shares.proTxHashes);
    assert EnoughList(cfg, BlockDigest(cfg, id), shares.blockSigns, shares.proTxHashes);
  }

  /** The canonical group's votes agree with its representative on how many extensions there are and on the
      digest of each. */
  lemma GroupUniform(cfg: Config, b: Bucket, id: BlockID, identity: Bytes)
    requires cfg.typ == Precommit && cfg.vals.WellFormed() && identity in b.groups
    requires BucketOk(cfg, id.Key(), b) && ProperBucket(b) && HashSizes(b) && id.Proper()
    requires forall j :: 0 <= j < |b.votes| && Contributes(b.votes[j], b.groups[identity].voters) && id.IsNil() ==>
               b.votes[j].value.exts == []
    ensures var rep := b.groups[identity].representative;
            ExtItems(cfg, rep).Some? && Uniform(b.votes, b.groups[identity].voters, |ExtItems(cfg, rep).value|)
  {
    hide BucketOk;
    hide SignItems;
    hide Recoverables;
    var g := b.groups[identity];
    var k := RepresentativeIndex(cfg, id.Key(), b, identity);
    SlotVote(cfg, b, id, k);
    VoteShares(cfg, g.representative);
    forall j | 0 <= j < |b.votes| && Contributes(b.votes[j], g.voters)
      ensures var v := b.votes[j].value;
              && |Recoverables(v.exts)| == |ExtItems(cfg, g.representative).value| && v.typ == Precommit &&
                v.blockID == id
              && ShareSizesOk(v.proTxHash, Recoverables(v.exts))
    {
      var v := b.votes[j].value;
      SlotVote(cfg, b, id, j);
      VoteShares(cfg, v);
      VoterIdentity(cfg, id.Key(), b, identity, j);
      SameIdentitySameHashes(cfg.p, cfg.Context(), v, g.representative);
    }
  }

  function ProTxHashes(cfg: Config): (r: seq<Bytes>)
    ensures |r| == cfg.Size()
  {
    seq(cfg.Size(), i requires 0 <= i < cfg.Size() => cfg.vals.validators[i].proTxHash)
  }

  /** A group's power counts its voters. */
  lemma GroupCount(cfg: Config, key: Bytes, b: Bucket, identity: Bytes)
    requires cfg.vals.WellFormed() && BucketOk(cfg, key, b) && identity in b.groups
    ensures |b.groups[identity].voters| * DASH_VOTING_POWER == b.groups[identity].power
  {
    hide Recorded;
    hide GroupOf;
    hide InGroup;
    hide Members;
    hide Flagged;
    hide BlockID.Key;
    assert GroupOk(cfg, b.votes, identity, b.groups[identity]);
    MembersFlagged(cfg, key, b, identity);
    FlaggedWeight(ProTxHashes(cfg), cfg.vals.Powers(), InGroup(cfg, b.votes, identity));
  }

  lemma MembersFlagged(cfg: Config, key: Bytes, b: Bucket, identity: Bytes)
    requires BucketOk(cfg, key, b)
    ensures Members(cfg, b.votes, identity) == Flagged(ProTxHashes(cfg), InGroup(cfg, b.votes, identity))
  {
    hide VerifyVote;
    hide GroupOf;
    hide GroupsOk;
    hide BlockID.Key;
    var f := InGroup(cfg, b.votes, identity);
    assert forall i :: 0 <= i < |f| && f[i] ==> b.votes[i].value.proTxHash == ProTxHashes(cfg)[i];
  }

  lemma ShareDigest(cfg: Config, b: Bucket, id: BlockID, identity: Bytes, j: nat, i: nat)
    requires cfg.typ == Precommit && cfg.vals.WellFormed() && identity in b.groups
    requires BucketOk(cfg, id.Key(), b) && ProperBucket(b) && HashSizes(b) && id.Proper()
    requires j < |b.votes| && Contributes(b.votes[j], b.groups[identity].voters)
    requires ExtItems(cfg, b.groups[identity].representative).Some?
    requires i < |Recoverables(b.votes[j].value.exts)| == |ExtItems(cfg, b.groups[identity].representative).value|
    ensures var v := b.votes[j].value;
            IsShare(cfg, ExtItems(cfg, b.groups[identity].representative).value[i].signHash, v.proTxHash,
                    Recoverables(v.exts)[i].signature)
  {
    hide BucketOk;
    hide SignItems;
    hide Recoverables;
    var v, rep := b.votes[j].value, b.groups[identity].representative;
    var k := RepresentativeIndex(cfg, id.Key(), b, identity);
    SlotVote(cfg, b, id, k);
    SlotVote(cfg, b, id, j);
    VoteShares(cfg, v);
    VoterIdentity(cfg, id.Key(), b, identity, j);
    SameIdentitySameHashes(cfg.p, cfg.Context(), v, rep);
  }

  /** The shares of an extension are those of the whole group. */
  lemma ShareHolders(cfg: Config, b: Bucket, identity: Bytes, m: nat, i: nat)
    requires |b.votes| == cfg.Size() && identity in b.groups && GroupOk(cfg, b.votes, identity, b.groups[identity])
    requires Uniform(b.votes, b.groups[identity].voters, m) && i < m
    ensures SharesOf(b.votes, b.groups[identity].voters, i).Keys == b.groups[identity].voters
  {
    var voters := b.groups[identity].voters;
    var shares := SharesOf(b.votes, voters, i);
    hide SharesOf;
    hide GroupOf;
    forall h | h in shares
      ensures h in voters
    {
      var j := ShareOrigin(b.votes, voters, i, h);
    }
    forall h | h in voters
      ensures h in shares
    {
      var j := MemberIndex(cfg, b.votes, identity, h);
      assert Contributes(b.votes[j], voters);
      ShareKeys(b.votes, voters, i, j);
    }
  }

  lemma ExtRecovers(cfg: Config, b: Bucket, id: BlockID, identity: Bytes, i: nat)
    requires cfg.typ == Precommit && cfg.vals.WellFormed() && ThresholdScheme(cfg) && identity in b.groups
    requires BucketOk(cfg, id.Key(), b) && ProperBucket(b) && HashSizes(b) && id.Proper()
    requires b.groups[identity].power >= cfg.vals.RecoveryPower()
    requires var items := ExtItems(cfg, b.groups[identity].representative);
             items.Some? && i < |items.value| && Uniform(b.votes, b.groups[identity].voters, |items.value|)
    ensures var shares := SharesOf(b.votes, b.groups[identity].voters, i);
            && shares != map[]
            && IsThresholdSign(cfg, ExtItems(cfg, b.groups[identity].representative).value[i].signHash,
                               cfg.p.recoverExtensionSign(shares))
  {
    var g := b.groups[identity];
    var digest := ExtItems(cfg, g.representative).value[i].signHash;
    var shares := SharesOf(b.votes, g.voters, i);
    GroupCount(cfg, id.Key(), b, identity);
    assert GroupOk(cfg, b.votes, identity, g) by {
      hide VerifyVote;
      hide GroupOf;
    }
    ShareHolders(cfg, b, identity, |ExtItems(cfg, g.representative).value|, i);
    hide BucketOk;
    hide SharesOf;
    hide IsShare;
    hide SignItems;
    hide Recoverables;
    forall h | h in shares
      ensures IsShare(cfg, digest, h, shares[h])
    {
      var j := ShareOrigin(b.votes, g.voters, i, h);
      ShareDigest(cfg, b, id, identity, j, i);
    }
    assert |shares| == |shares.Keys|;
    assert EnoughMap(cfg, digest, shares);
  }

  ghost predicate SignEach(cfg: Config, items: seq<SignItem>, sigs: seq<Bytes>) {
    |items| == |sigs| && forall i :: 0 <= i < |sigs| ==> IsThresholdSign(cfg, items[i].signHash, Some(sigs[i]))
  }

  lemma {:induction false} ExtSignsRecover(cfg: Config, exts: seq<SharedExt>, items: seq<SignItem>)
    requires |exts| == |items|
    requires forall i :: 0 <= i < |exts| ==>
               exts[i].shares != map[] &&
                 IsThresholdSign(cfg, items[i].signHash, cfg.p.recoverExtensionSign(exts[i].shares))
    ensures RecoverExtSigns(cfg.p, exts).Some? && SignEach(cfg, items, RecoverExtSigns(cfg.p, exts).value)
  {
    if exts == [] {
    } else {
      var n := |exts| - 1;
      ExtSignsRecover(cfg, exts[..n], items[..n]);
    }
  }

  /** Threshold signatures over the representative's digests pass the check. */
  lemma ThresholdSignsPass(cfg: Config, v: Vote, blockSign: Bytes, exts: seq<Ext>)
    requires v.typ == cfg.typ && v.height == cfg.height && v.round == cfg.round && ExtItems(cfg, v).Some?
    requires IsThresholdSign(cfg, BlockDigest(cfg, v.blockID), Some(blockSign))
    requires SignEach(cfg, ExtItems(cfg, v).value, Signatures(exts))
    ensures CheckRecovered(cfg, v, blockSign, exts).Recovered?
  {
    hide SignItems;
    hide Recoverables;
    hide BlockSignItem;
    var data := MakeQuorumSigns(cfg.p, cfg.Context(), v.typ, v.height, v.round, v.blockID, v.exts).value;
    VerifyQuorumMeaning(cfg.p, cfg.vals.thresholdKey.value, data, QuorumSigns(blockSign, Signatures(exts)), None);
    hide VerifyQuorum;
  }

  /** No vote that recovery takes extensions from is a vote for nil that carries some. */
  ghost predicate NoNilExtensions(b: Bucket, id: BlockID, voters: set<Bytes>) {
    id.IsNil() ==> forall j :: 0 <= j < |b.votes| && Contributes(b.votes[j], voters) ==> b.votes[j].value.exts == []
  }

  /** Everything collected for the group is enough for a threshold signature over the representative's digest. */
  lemma GroupShares(cfg: Config, b: Bucket, id: BlockID, identity: Bytes)
    requires cfg.typ == Precommit && cfg.vals.WellFormed() && ThresholdScheme(cfg)
    requires BucketOk(cfg, id.Key(), b) && ProperBucket(b) && HashSizes(b) && id.Proper()
    requires identity in b.groups && b.groups[identity].power >= cfg.vals.RecoveryPower()
    requires NoNilExtensions(b, id, b.groups[identity].voters)
    ensures var g := b.groups[identity];
            && CollectShares(b.votes, g.voters).Some? && ExtItems(cfg, g.representative).Some?
            && var exts, items := CollectShares(b.votes, g.voters).value.exts, ExtItems(cfg, g.representative).value;
            && |exts| == |items|
            && forall i :: 0 <= i < |exts| ==>
                 && exts[i].shares != map[]
                 && IsThresholdSign(cfg, items[i].signHash, cfg.p.recoverExtensionSign(exts[i].shares))
  {
    hide BucketOk;
    hide CollectShares;
    hide SharesOf;
    hide IsThresholdSign;
    hide ThresholdScheme;
    hide SignItems;
    hide Recoverables;
    var g := b.groups[identity];
    GroupUniform(cfg, b, id, identity);
    var items := ExtItems(cfg, g.representative).value;
    CollectedExtShares(b.votes, g.voters, |items|);
    var k := RepresentativeIndex(cfg, id.Key(), b, identity);
    RepresentativeVotes(cfg, id.Key(), b, identity, k);
    assert Contributes(b.votes[k], g.voters);
    forall i | 0 <= i < |items|
      ensures SharesOf(b.votes, g.voters, i) != map[]
      ensures IsThresholdSign(cfg, items[i].signHash, cfg.p.recoverExtensionSign(SharesOf(b.votes, g.voters, i)))
    {
      ExtRecovers(cfg, b, id, identity, i);
    }
  }

  /** The representative is one of the group's votes for the block; for nil it carries nothing. */
  lemma RepresentativeFacts(cfg: Config, b: Bucket, id: BlockID, identity: Bytes)
    requires BucketOk(cfg, id.Key(), b) && ProperBucket(b) && id.Proper() && identity in b.groups
    requires NoNilExtensions(b, id, b.groups[identity].voters)
    ensures var v := b.groups[identity].representative;
            && v.typ == cfg.typ && v.height == cfg.height && v.round == cfg.round && v.blockID == id
            && (id.hash == [] ==> ExtItems(cfg, v) == Some([]))
  {
    hide BucketOk;
    var g := b.groups[identity];
    var k := RepresentativeIndex(cfg, id.Key(), b, identity);
    SlotVote(cfg, b, id, k);
    RepresentativeVotes(cfg, id.Key(), b, identity, k);
    assert Contributes(b.votes[k], g.voters);
  }

  lemma RecoveredPass(cfg: Config, shares: Shares, v: Vote, id: BlockID)
    requires v.typ == cfg.typ && v.height == cfg.height && v.round == cfg.round && v.blockID == id
    requires IsThresholdSign(cfg, BlockDigest(cfg, id), cfg.p.recoverBlockSign(shares.blockSigns, shares.proTxHashes))
    requires ExtItems(cfg, v).Some? && |shares.exts| == |ExtItems(cfg, v).value|
    requires id.hash == [] ==> ExtItems(cfg, v) == Some([])
    requires forall i :: 0 <= i < |shares.exts| ==>
               && shares.exts[i].shares != map[]
               && IsThresholdSign(cfg, ExtItems(cfg, v).value[i].signHash,
                                  cfg.p.recoverExtensionSign(shares.exts[i].shares))
    ensures var sigs := RecoverSigns(cfg.p, shares, id.hash != []);
            && sigs.Some? && |sigs.value.exts| == |shares.exts|
            && CheckRecovered(cfg, v, sigs.value.block, WithSignatures(shares.exts, sigs.value.exts)).Recovered?
  {
    hide SignItems;
    hide Recoverables;
    hide CheckRecovered;
    hide BlockSignItem;
    ExtSignsRecover(cfg, shares.exts, ExtItems(cfg, v).value);
    var sigs := RecoverSigns(cfg.p, shares, id.hash != []).value;
    ThresholdSignsPass(cfg, v, sigs.block, WithSignatures(shares.exts, sigs.exts));
  }

  lemma GroupRecovers(cfg: Config, b: Bucket, id: BlockID, identity: Bytes)
    requires cfg.typ == Precommit && cfg.vals.WellFormed() && ThresholdScheme(cfg)
    requires BucketOk(cfg, id.Key(), b) && ProperBucket(b) && HashSizes(b) && id.Proper()
    requires identity in b.groups && b.groups[identity].power >= cfg.vals.RecoveryPower()
    requires NoNilExtensions(b, id, b.groups[identity].voters)
    ensures var g := b.groups[identity];
            && CollectShares(b.votes, g.voters).Some?
            && var shares := CollectShares(b.votes, g.voters).value;
            && var sigs := RecoverSigns(cfg.p, shares, id.hash != []);
            && sigs.Some? && |sigs.value.exts| == |shares.exts|
            && CheckRecovered(cfg, g.representative, sigs.value.block,
                              WithSignatures(shares.exts, sigs.value.exts)).Recovered?
  {
    hide BucketOk;
    hide CollectShares;
    hide RecoverSigns;
    hide CheckRecovered;
    hide IsThresholdSign;
    hide ThresholdScheme;
    hide ExtItems;
    var g := b.groups[identity];
    GroupShares(cfg, b, id, identity);
    SumCoversGroup(cfg, id.Key(), b, identity);
    BlockRecovers(cfg, b, id, g.voters);
    RepresentativeFacts(cfg, b, id, identity);
    RecoveredPass(cfg, CollectShares(b.votes, g.voters).value, g.representative, id);
  }

  /** A block's power covers that of any of its groups. */
  lemma SumCoversGroup(cfg: Config, key: Bytes, b: Bucket, identity: Bytes)
    requires cfg.vals.WellFormed() && BucketOk(cfg, key, b) && identity in b.groups
    ensures b.sum >= b.groups[identity].power
  {
    hide VerifyVote;
    hide GroupOf;
    assert GroupOk(cfg, b.votes, identity, b.groups[identity]);
    WeightMonotone(cfg.vals.Powers(), InGroup(cfg, b.votes, identity), Filled(b.votes));
  }

  /** How recovery among several validators goes, given the canonical group. */
  lemma RecoveryOutcome(cfg: Config, b: Bucket, id: BlockID, identity: Bytes)
    requires |b.votes| >= 2 && CanonicalGroup(b.groups, cfg.vals.RecoveryPower()) == Some(identity) &&
      identity in b.groups
    ensures var g := b.groups[identity];
            var shares := CollectShares(b.votes, g.voters);
            && (shares.None? ==> RecoverAndVerify(cfg, b, id) == NotRecovered)
            && (shares.Some? ==>
                  var sigs := RecoverSigns(cfg.p, shares.value, id.hash != []);
                  sigs.Some? && |sigs.value.exts| == |shares.value.exts| ==>
                    RecoverAndVerify(cfg, b, id) ==
                    CheckRecovered(cfg, g.representative, sigs.value.block,
                                   WithSignatures(shares.value.exts, sigs.value.exts)))
  {
    hide CanonicalGroup;
    hide CollectShares;
    hide RecoverSigns;
    hide CheckRecovered;
  }

  /** With a threshold scheme, a block with a group at the recovery threshold recovers and verifies, unless it
      is nil and a vote of the canonical group carries extensions all the same. */
  lemma RecoveredIff(cfg: Config, b: Bucket, id: BlockID)
    requires cfg.typ == Precommit && cfg.Size() >= 2 && cfg.vals.WellFormed() && ThresholdScheme(cfg)
    requires BucketOk(cfg, id.Key(), b) && ProperBucket(b) && HashSizes(b) && id.Proper()
    requires Qualifies(b.groups, cfg.vals.RecoveryPower())
    ensures CanonicalGroup(b.groups, cfg.vals.RecoveryPower()).Some?
    ensures var identity := CanonicalGroup(b.groups, cfg.vals.RecoveryPower()).value;
            && identity in b.groups
            && (RecoverAndVerify(cfg, b, id).Recovered? <==> NoNilExtensions(b, id, b.groups[identity].voters))
  {
    hide CanonicalGroup;
    hide CollectShares;
    hide RecoverSigns;
    hide CheckRecovered;
    hide RecoverAndVerify;
    hide ThresholdScheme;
    hide GroupsOk;
    hide Recorded;
    CanonicalGroupExact(b.groups, cfg.vals.RecoveryPower());
    var identity := CanonicalGroup(b.groups, cfg.vals.RecoveryPower()).value;
    var g := b.groups[identity];
    RecoveryOutcome(cfg, b, id, identity);
    if NoNilExtensions(b, id, g.voters) {
      GroupRecovers(cfg, b, id, identity);
    } else {
      var j :| 0 <= j < |b.votes| && Contributes(b.votes[j], g.voters) && b.votes[j].value.exts != [];
      SlotVote(cfg, b, id, j);
      SpoiledShares(b.votes, g.voters, j);
    }
  }

  // ---------------------------------------------------------------- validated votes

  /** The checks of `Vote.ValidateBasic` that recovery relies on. */
  predicate Validated(v: Vote) {
    v.blockID.Proper() && |v.proTxHash| == PRO_TX_HASH_SIZE && (v.blockID.IsNil() ==> v.exts == [])
  }

  ghost predicate ValidatedBucket(b: Bucket) {
    forall i :: 0 <= i < |b.votes| && b.votes[i].Some? ==> Validated(b.votes[i].value)
  }

  ghost predicate ValidatedState(s: State) {
    forall k :: k in s.buckets ==> ValidatedBucket(s.buckets[k])
  }

  ghost predicate ValidatedCall(c: Call) {
    c.VoteCall? && c.vote.Some? ==> Validated(c.vote.value)
  }

  lemma FiledValidated(cfg: Config, s: State, v: Vote, identity: Bytes)
    requires Shaped(cfg.Size(), s) && 0 <= v.index < cfg.Size() && ValidatedState(s) && Validated(v)
    ensures ValidatedState(Filed(cfg, s, v, identity))
  {
  }

  /** Adding a vote leaves the buckets alone or files the vote, whatever becomes of the decision. */
  lemma AddVerifiedBuckets(cfg: Config, s: State, v: Vote, identity: Bytes)
    requires Shaped(cfg.Size(), s) && 0 <= v.index < cfg.Size() && Unknown(cfg.Size(), s, v)
    ensures AddVerified(cfg, s, v, identity, cfg.vals.validators[v.index].power).state.buckets in
              {s.buckets, Filed(cfg, s, v, identity).buckets}
  {
    AddVerifiedStages(cfg, s, v, identity);
    hide AddVerified;
    hide Finalize;
    hide BucketAdd;
    if Kept(s, v) && Filed(cfg, s, v, identity).maj23.None? {
      FinalizeCases(cfg, Filed(cfg, s, v, identity), v);
    }
  }

  lemma ApplyValidated(cfg: Config, s: State, c: Call)
    requires Shaped(cfg.Size(), s) && ValidatedState(s) && ValidatedCall(c)
    ensures ValidatedState(Apply(cfg, s, c))
  {
    hide AddVote;
    hide AddVerified;
    match c
    case VoteCall(vote, check) =>
      AddVoteCases(cfg, s, vote, check);
      if Admits(cfg, s, vote, check) {
        AddVerifiedBuckets(cfg, s, vote.value, GroupOf(cfg, vote.value).value);
        FiledValidated(cfg, s, vote.value, GroupOf(cfg, vote.value).value);
      }
    case ClaimCall(peer, id, height, round) =>
  }

  lemma InitialValidated(cfg: Config)
    ensures ValidatedState(Initial(cfg))
  {
  }

  /** A vote set that is given validated votes only holds validated votes only. */
  lemma {:induction false} RunValidated(cfg: Config, calls: seq<Call>)
    requires HonestRun(cfg, calls) && forall i :: 0 <= i < |calls| ==> ValidatedCall(calls[i])
    ensures ValidatedState(Run(cfg, calls))
  {
    hide Apply;
    hide Valid;
    hide Run;
    hide ValidatedState;
    hide ValidatedCall;
    hide Initial;
    RunStep(cfg, calls);
    if calls == [] {
      InitialValidated(cfg);
    } else {
      var n := |calls| - 1;
      RunValidated(cfg, calls[..n]);
      ApplyValidated(cfg, Run(cfg, calls[..n]), calls[n]);
    }
  }

  /** Which vote of a group represents it does not matter to what is checked. */
  lemma RepresentativeIrrelevant(cfg: Config, b: Bucket, id: BlockID, identity: Bytes, i: nat, blockSign: Bytes,
                                 exts: seq<Ext>)
    requires cfg.typ == Precommit && BucketOk(cfg, id.Key(), b) && ProperBucket(b) && id.Proper()
    requires identity in b.groups && i < |b.votes| && b.votes[i].Some?
    requires GroupOf(cfg, b.votes[i].value) == Some(identity)
    ensures CheckRecovered(cfg, b.groups[identity].representative, blockSign, exts) ==
            CheckRecovered(cfg, b.votes[i].value, blockSign, exts)
  {
    hide BucketOk;
    var k := RepresentativeIndex(cfg, id.Key(), b, identity);
    SlotVote(cfg, b, id, k);
    SlotVote(cfg, b, id, i);
    var u, v := b.groups[identity].representative, b.votes[i].value;
    SameChecks(cfg, u, v, blockSign, exts);
  }

  lemma SameChecks(cfg: Config, u: Vote, v: Vote, blockSign: Bytes, exts: seq<Ext>)
    requires u.typ == v.typ && u.height == v.height && u.round == v.round && u.blockID == v.blockID
    requires Identity(cfg.p, cfg.Context(), u).Some?
    requires Identity(cfg.p, cfg.Context(), u) == Identity(cfg.p, cfg.Context(), v)
    ensures CheckRecovered(cfg, u, blockSign, exts) == CheckRecovered(cfg, v, blockSign, exts)
  {
    hide SignItems;
    hide Recoverables;
    hide VerifyQuorum;
    hide BlockSignItem;
    SameIdentitySameHashes(cfg.p, cfg.Context(), u, v);
    if cfg.vals.thresholdKey.Some? {
      var key, sigs := cfg.vals.thresholdKey.value, QuorumSigns(blockSign, Signatures(exts));
      var d := MakeQuorumSigns(cfg.p, cfg.Context(), u.typ, u.height, u.round, u.blockID, u.exts).value;
      var d' := MakeQuorumSigns(cfg.p, cfg.Context(), v.typ, v.height, v.round, v.blockID, v.exts).value;
      VerifyQuorumMeaning(cfg.p, key, d, sigs, None);
      VerifyQuorumMeaning(cfg.p, key, d', sigs, None);
      assert forall i :: 0 <= i < |d.exts| ==> d.exts[i].signHash == d'.exts[i].signHash;
    }
  }
}
