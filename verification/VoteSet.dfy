/** The vote set as the source has it: objects updated in place, one locked call at a time. Each method
    is proved to do to its object what the functions of VoteSetModel do to the object's value. */
module VoteSetObjects {
  import opened Prelude
  import opened BlockIDs
  import opened Signing
  import opened Validators
  import opened Commits
  import opened Evidence
  import opened Recovery
  import opened VoteSetModel
  import opened VoteSetInvariant
  import opened VoteSetDecisions
  import opened CommitPipeline

  /** `SignsRecoverer`. */
  class SignsRecoverer {
    const p: Primitives
    const quorumReached: bool
    const voters: set<Bytes>
    var blockSigns: seq<Bytes>
    var proTxHashes: seq<Bytes>
    var exts: seq<SharedExt>

    function Value(): Shares
      reads this
    {
      Shares(blockSigns, proTxHashes, exts)
    }

    constructor (p: Primitives, quorumReached: bool, voters: set<Bytes>)
      ensures this.p == p && this.quorumReached == quorumReached && this.voters == voters && Value() == NO_SHARES
    {
      this.p, this.quorumReached, this.voters := p, quorumReached, voters;
      blockSigns, proTxHashes, exts := [], [], [];
    }

    method Init(votes: seq<Option<Vote>>) returns (ok: bool)
      modifies this
      ensures ok == CollectShares(votes, voters).Some?
      ensures ok ==> Value() == CollectShares(votes, voters).value
    {
      blockSigns, proTxHashes, exts := [], [], [];
      for i := 0 to |votes|
        invariant CollectShares(votes[..i], voters) == Some(Value())
      {
        assert votes[..i + 1][..i] == votes[..i];
        if votes[i].Some? {
          ok := AddVoteSigs(votes[i].value);
          if !ok {
            CollectFails(votes, i + 1, voters);
            return;
          }
        }
      }
      assert votes[..|votes|] == votes;
      ok := true;
    }

    method AddVoteSigs(v: Vote) returns (ok: bool)
      modifies this
      ensures ok == AddVoteShares(old(Value()), v, voters).Some?
      ensures ok ==> Value() == AddVoteShares(old(Value()), v, voters).value
    {
      blockSigns := blockSigns + [v.blockSign];
      proTxHashes := proTxHashes + [v.proTxHash];
      if v.proTxHash !in voters || v.exts == [] {
        return true;
      }
      if v.typ != Precommit || v.blockID.IsNil() {
        return false;
      }
      var es := Recoverables(v.exts);
      if es == [] {
        return true;
      }
      exts := BaseExts(exts, es);
      if |es| != |exts| {
        return false;
      }
      ok := AddShares(v.proTxHash, es);
    }

    /** The inner loop of `addVoteExtensionSigs`. */
    method AddShares(proTxHash: Bytes, es: seq<Ext>) returns (ok: bool)
      requires |es| == |exts| && es != []
      modifies this`exts
      ensures ok == ShareSizesOk(proTxHash, es)
      ensures ok ==> exts == WithShare(old(exts), proTxHash, es)
    {
      for i := 0 to |es|
        invariant |exts| == |es|
        invariant i > 0 ==> |proTxHash| == PRO_TX_HASH_SIZE
        invariant forall j :: 0 <= j < i ==> |es[j].signature| == SIGNATURE_SIZE
        invariant forall j :: 0 <= j < i ==> exts[j] == WithShare(old(exts), proTxHash, es)[j]
        invariant forall j :: i <= j < |es| ==> exts[j] == old(exts)[j]
      {
        if |proTxHash| != PRO_TX_HASH_SIZE || |es[i].signature| != SIGNATURE_SIZE {
          return false;
        }
        exts := exts[i := SharedExt(exts[i].ext, exts[i].shares[proTxHash := es[i].signature])];
      }
      ok := true;
    }

    method Recover() returns (r: Option<QuorumSigns>)
      ensures r == RecoverSigns(p, Value(), quorumReached)
    {
      var block := p.recoverBlockSign(blockSigns, proTxHashes);
      if block.None? {
        return None;
      }
      if !quorumReached {
        return Some(QuorumSigns(block.value, []));
      }
      var sigs: seq<Bytes> := [];
      for i := 0 to |exts|
        invariant RecoverExtSigns(p, exts[..i]) == Some(sigs)
      {
        assert exts[..i + 1][..i] == exts[..i];
        var sig := if exts[i].shares == map[] then None else p.recoverExtensionSign(exts[i].shares);
        if sig.None? {
          RecoverFails(p, exts, i + 1);
          return None;
        }
        sigs := sigs + [sig.value];
      }
      assert exts[..|exts|] == exts;
      r := Some(QuorumSigns(block.value, sigs));
    }
  }

  lemma {:induction false} CollectFails(votes: seq<Option<Vote>>, i: nat, voters: set<Bytes>)
    requires i <= |votes| && CollectShares(votes[..i], voters).None?
    ensures CollectShares(votes, voters).None?
  {
    if i < |votes| {
      assert votes[..|votes| - 1][..i] == votes[..i];
      CollectFails(votes[..|votes| - 1], i, voters);
    } else {
      assert votes[..i] == votes;
    }
  }

  lemma {:induction false} RecoverFails(p: Primitives, exts: seq<SharedExt>, i: nat)
    requires i <= |exts| && RecoverExtSigns(p, exts[..i]).None?
    ensures RecoverExtSigns(p, exts).None?
  {
    if i < |exts| {
      assert exts[..|exts| - 1][..i] == exts[..i];
      RecoverFails(p, exts[..|exts| - 1], i);
    } else {
      assert exts[..i] == exts;
    }
  }

  /** `blockVotes`. */
  class BlockVotes {
    var peerMaj23: bool
    var bits: seq<bool>
    var votes: seq<Option<Vote>>
    var sum: int
    var groups: map<Bytes, Group>

    function Value(): Bucket
      reads this
    {
      Bucket(peerMaj23, bits, votes, sum, groups)
    }

    constructor (peerMaj23: bool, size: nat)
      ensures Value() == EmptyBucket(peerMaj23, size)
    {
      this.peerMaj23, bits, votes, sum, groups := peerMaj23, seq(size, _ => false), seq(size, _ => None), 0, map[];
    }

    method AddVerifiedVote(v: Vote, identity: Bytes, power: int, recovery: int) returns (reached: bool)
      requires 0 <= v.index < |votes| == |bits|
      modifies this
      ensures (Value(), reached) == BucketAdd(old(Value()), v, identity, power, recovery)
      ensures |votes| == |old(votes)| && |bits| == |old(bits)|
    {
      if votes[v.index].Some? {
        return false;
      }
      bits := bits[v.index := true];
      votes := votes[v.index := Some(v)];
      sum := sum + power;
      if identity !in groups {
        groups := groups[identity := Group(0, v, {})];
      }
      var g := groups[identity];
      groups := groups[identity := Group(g.power + power, g.representative, g.voters + {v.proTxHash})];
      assert groups == old(groups)[identity := groups[identity]];
      reached := g.power < recovery && g.power + power >= recovery;
    }
  }

  predicate Panics(o: Outcome) {
    o in {DuplicatePanic, NotAddedPanic, RecoveryPanic}
  }

  /** `VoteSet`. */
  class VoteSet {
    const cfg: Config
    var votesBitArray: seq<bool>
    var votes: seq<Option<Vote>>
    var sum: int
    var maj23: Option<BlockID>
    var votesByBlock: map<Bytes, BlockVotes>
    var peerMaj23s: map<string, Claim>
    var thresholdBlockSig: Bytes
    var thresholdVoteExtSigs: seq<Ext>

    /** No bucket is shared between two keys. */
    ghost predicate Separate()
      reads this`votesByBlock
    {
      forall k, k' :: k in votesByBlock && k' in votesByBlock && k != k' ==> votesByBlock[k] != votesByBlock[k']
    }

    ghost function Buckets(): map<Bytes, Bucket>
      reads this`votesByBlock, votesByBlock.Values
    {
      map k | k in votesByBlock :: votesByBlock[k].Value()
    }

    lemma BucketAt(key: Bytes)
      ensures key in Buckets() <==> key in votesByBlock
      ensures key in votesByBlock ==> Buckets()[key] == votesByBlock[key].Value()
    {
    }

    /** What the object holds. */
    ghost function Value(): State
      reads this, votesByBlock.Values
    {
      State(votesBitArray, votes, sum, maj23, Buckets(), peerMaj23s, thresholdBlockSig, thresholdVoteExtSigs)
    }

    ghost predicate Ok()
      reads this, votesByBlock.Values
    {
      Separate() && Valid(cfg, Value())
    }

    constructor (cfg: Config)
      ensures this.cfg == cfg && Ok() && Value() == Initial(cfg)
    {
      this.cfg := cfg;
      votesBitArray, votes, sum, maj23 := seq(cfg.Size(), _ => false), seq(cfg.Size(), _ => None), 0, None;
      votesByBlock, peerMaj23s, thresholdBlockSig, thresholdVoteExtSigs := map[], map[], [], [];
      new;
      InitialValid(cfg);
    }

    /** `recoverThresholdSignsAndVerify`; the recovered signatures are stored before they are verified. */
    method RecoverThresholdSignsAndVerify(b: BlockVotes) returns (r: Recovered)
      requires maj23.Some?
      modifies this`thresholdBlockSig, this`thresholdVoteExtSigs
      ensures r == RecoverAndVerify(cfg, b.Value(), maj23.value)
      ensures r.Recovered? ==> thresholdBlockSig == r.blockSign && thresholdVoteExtSigs == r.exts
    {
      hide CollectShares;
      hide RecoverExtSigns;
      hide IsCanonical;
      if |b.votes| == 0 {
        thresholdBlockSig, thresholdVoteExtSigs := [], [];
        return Recovered([], []);
      }
      if |b.votes| == 1 {
        if b.votes[0].None? {
          return NotRecovered;
        }
        var v := b.votes[0].value;
        thresholdBlockSig := v.blockSign;
        thresholdVoteExtSigs := Recoverables(v.exts);
        return Recovered(thresholdBlockSig, thresholdVoteExtSigs);
      }
      var canonical := FindCanonicalGroup(b.groups, cfg.vals.RecoveryPower());
      if canonical.None? {
        return NotRecovered;
      }
      CanonicalGroupExact(b.groups, cfg.vals.RecoveryPower());
      var g := b.groups[canonical.value];
      var recoverer := new SignsRecoverer(cfg.p, maj23.value.hash != [], g.voters);
      var ok := recoverer.Init(b.votes);
      if !ok {
        return NotRecovered;
      }
      var signs := recoverer.Recover();
      if signs.None? {
        return NotRecovered;
      }
      if |signs.value.exts| != |recoverer.exts| {
        return LengthPanic;
      }
      thresholdBlockSig := signs.value.block;
      thresholdVoteExtSigs := WithSignatures(recoverer.exts, signs.value.exts);
      r := CheckRecovered(cfg, g.representative, thresholdBlockSig, thresholdVoteExtSigs);
    }

    /** The loop that copies the votes of a finalized block into the canonical list. */
    method PublishVotes(b: BlockVotes)
      requires |b.votes| == |votes|
      modifies this`votes
      ensures votes == Publish(b.votes, old(votes))
    {
      for i := 0 to |b.votes|
        invariant |votes| == |b.votes|
        invariant forall j :: 0 <= j < i ==> votes[j] == Publish(b.votes, old(votes))[j]
        invariant forall j :: i <= j < |votes| ==> votes[j] == old(votes)[j]
      {
        if b.votes[i].Some? {
          votes := votes[i := b.votes[i]];
        }
      }
    }

    /** The finalizing part of `addVerifiedVote`: set `maj23`, and take it back if recovery fails. */
    method TryFinalize(v: Vote, b: BlockVotes) returns (panicked: bool)
      requires maj23.None? && v.blockID.Key() in votesByBlock && votesByBlock[v.blockID.Key()] == b &&
        |b.votes| == |votes|
      modifies this`maj23, this`votes, this`thresholdBlockSig, this`thresholdVoteExtSigs
      ensures panicked == Finalize(cfg, old(Value()), v).1
      ensures !panicked ==> Value() == Finalize(cfg, old(Value()), v).0
    {
      hide RecoverAndVerify;
      hide BlockID.Key;
      hide Publish;
      hide Buckets;
      BucketAt(v.blockID.Key());
      maj23 := Some(v.blockID);
      if cfg.typ == Precommit {
        var r := RecoverThresholdSignsAndVerify(b);
        if r.LengthPanic? {
          return true;
        }
        if r.NotRecovered? {
          maj23 := None;
          thresholdBlockSig := [];
          thresholdVoteExtSigs := [];
          return false;
        }
      }
      PublishVotes(b);
      panicked := false;
    }

    /** The bucket of a key, created if need be. */
    method BucketFor(key: Bytes) returns (b: BlockVotes)
      requires Separate()
      modifies this`votesByBlock
      ensures Separate() && votesByBlock == old(votesByBlock)[key := b]
      ensures b.Value() == old(TheBucket(cfg, Value(), key)) && Buckets() == old(Buckets())[key := b.Value()]
      ensures if key in old(votesByBlock) then b == old(votesByBlock[key]) else fresh(b)
    {
      if key in votesByBlock {
        b := votesByBlock[key];
      } else {
        b := new BlockVotes(false, cfg.Size());
        votesByBlock := votesByBlock[key := b];
      }
    }

    /** A change to one bucket leaves the others alone. */
    method ChangeBucket(key: Bytes, b: BlockVotes, v: Vote, identity: Bytes, power: int) returns (reached: bool)
      requires Separate() && key in votesByBlock && votesByBlock[key] == b && 0 <= v.index < |b.votes| == |b.bits|
      modifies b
      ensures (b.Value(), reached) == BucketAdd(old(b.Value()), v, identity, power, cfg.vals.RecoveryPower())
      ensures |b.votes| == |old(b.votes)| && Buckets() == old(Buckets())[key := b.Value()]
    {
      hide BucketAdd;
      reached := b.AddVerifiedVote(v, identity, power, cfg.vals.RecoveryPower());
    }

    /** The vote goes into its bucket. */
    method AddToBucket(v: Vote, identity: Bytes, power: int) returns (b: BlockVotes, before: int, reached: bool)
      requires Separate() && Shaped(cfg.Size(), Value()) && 0 <= v.index < cfg.Size()
      modifies this`votesByBlock, votesByBlock.Values
      ensures var key := v.blockID.Key();
              var was := old(TheBucket(cfg, Value(), key));
              && (b.Value(), reached) == BucketAdd(was, v, identity, power, cfg.vals.RecoveryPower()) &&
                before == was.sum
              && key in votesByBlock && votesByBlock[key] == b && |b.votes| == cfg.Size()
              && Buckets() == old(Buckets())[key := b.Value()]
      ensures Separate() && fresh(votesByBlock.Values - old(votesByBlock.Values))
    {
      hide BucketAdd;
      hide BlockID.Key;
      hide Buckets;
      var key := v.blockID.Key();
      b := BucketFor(key);
      before := b.sum;
      reached := ChangeBucket(key, b, v, identity, power);
    }

    /** The bucket part of `addVerifiedVote`. */
    method FileInBucket(v: Vote, identity: Bytes, power: int) returns (panicked: bool)
      requires Separate() && Shaped(cfg.Size(), Value()) && 0 <= v.index < cfg.Size()
      modifies this`maj23, this`votes, this`votesByBlock, this`thresholdBlockSig, this`thresholdVoteExtSigs,
        votesByBlock.Values
      ensures panicked == FileVote(cfg, old(Value()), v, identity, power).1
      ensures !panicked ==> Value() == FileVote(cfg, old(Value()), v, identity, power).0 && Separate()
      ensures fresh(votesByBlock.Values - old(votesByBlock.Values))
    {
      hide Finalize;
      hide BucketAdd;
      hide BlockID.Key;
      hide TheBucket;
      var b, before, reached := AddToBucket(v, identity, power);
      var quorum := cfg.vals.QuorumPower();
      if maj23.None? && quorum <= b.sum && (before < quorum || reached) {
        panicked := TryFinalize(v, b);
      } else {
        panicked := false;
      }
    }

    /** `addVerifiedVote`. */
    method AddVerifiedVote(v: Vote, identity: Bytes, power: int) returns (o: Outcome)
      requires Separate() && Shaped(cfg.Size(), Value()) && 0 <= v.index < cfg.Size()
      modifies this, votesByBlock.Values
      ensures o == AddVerified(cfg, old(Value()), v, identity, power).outcome
      ensures !Panics(o) ==> Value() == AddVerified(cfg, old(Value()), v, identity, power).state && Separate()
      ensures fresh(votesByBlock.Values - old(votesByBlock.Values))
    {
      hide FileVote;
      hide BlockID.Key;
      hide Buckets;
      var i, key := v.index, v.blockID.Key();
      BucketAt(key);
      var conflicting := votes[i];
      if conflicting.Some? {
        if conflicting.value.blockID == v.blockID {
          return DuplicatePanic;
        }
        if maj23.Some? && maj23.value.Key() == key {
          votes := votes[i := Some(v)];
          votesBitArray := votesBitArray[i := true];
        }
      } else {
        votes := votes[i := Some(v)];
        votesBitArray := votesBitArray[i := true];
        sum := sum + power;
      }
      assert Value() == RecordCanonical(old(Value()), v, power);
      if conflicting.Some? && (key !in votesByBlock || !votesByBlock[key].peerMaj23) {
        return Conflict(false, conflicting.value);
      }
      var panicked := FileInBucket(v, identity, power);
      if panicked {
        return RecoveryPanic;
      }
      o := if conflicting.Some? then Conflict(true, conflicting.value) else Added;
    }

    /** `AddVote`, `AddVoteWithVerificationBudget` and `AddVerifiedVote`: the locked call. */
    method AddVote(vote: Option<Vote>, check: Check) returns (o: Outcome)
      requires Ok() && cfg.vals.WellFormed() && Honest(cfg, check)
      modifies this, votesByBlock.Values
      ensures o == VoteSetModel.AddVote(cfg, old(Value()), vote, check).outcome
      ensures !Panics(o) ==> Ok() && Value() == VoteSetModel.AddVote(cfg, old(Value()), vote, check).state
      ensures fresh(votesByBlock.Values - old(votesByBlock.Values))
    {
      AddVoteValid(cfg, Value(), vote, check);
      ShapedWhenValid(cfg, Value());
      hide Valid;
      hide VoteSetModel.AddVote;
      o := AddVoteUnlocked(vote, check);
    }

    /** `addVote`. */
    method AddVoteUnlocked(vote: Option<Vote>, check: Check) returns (o: Outcome)
      requires Separate() && Shaped(cfg.Size(), Value())
      modifies this, votesByBlock.Values
      ensures o == VoteSetModel.AddVote(cfg, old(Value()), vote, check).outcome
      ensures !Panics(o) ==> Separate() && Value() == VoteSetModel.AddVote(cfg, old(Value()), vote, check).state
      ensures fresh(votesByBlock.Values - old(votesByBlock.Values))
    {
      hide AddVerified;
      hide BlockID.Key;
      hide GetVote;
      hide GroupOf;
      hide Checked;
      var err := Precheck(cfg, vote);
      if err.Some? {
        return Rejected(err.value);
      }
      var v := vote.value;
      var known := Known(v);
      if known.Some? {
        return if known.value.blockSign == v.blockSign then Duplicate else Rejected(NonDeterministicSignature);
      }
      err := Checked(cfg, v, check);
      if err.Some? {
        return Rejected(err.value);
      }
      var identity := GroupOf(cfg, v);
      if identity.None? {
        return Rejected(NoIdentity);
      }
      o := AddVerifiedVote(v, identity.value, cfg.vals.validators[v.index].power);
    }

    /** `getVote`. */
    method Known(v: Vote) returns (r: Option<Vote>)
      requires Shaped(cfg.Size(), Value()) && 0 <= v.index < cfg.Size()
      ensures r == GetVote(Value(), v.index, v.blockID.Key())
    {
      var key := v.blockID.Key();
      if votes[v.index].Some? && votes[v.index].value.blockID.Key() == key {
        return votes[v.index];
      }
      if key in votesByBlock {
        assert Value().buckets[key] == votesByBlock[key].Value();
        return votesByBlock[key].votes[v.index];
      }
      r := None;
    }

    /** The bucket of a claimed block is marked, or started with the mark. */
    method ClaimBucket(key: Bytes)
      requires Separate()
      modifies this`votesByBlock, votesByBlock.Values
      ensures Separate() && fresh(votesByBlock.Values - old(votesByBlock.Values))
      ensures Buckets() == old(Buckets())[key := old(TheBucket(cfg, Value(), key)).(peerMaj23 := true)]
    {
      if key in votesByBlock {
        votesByBlock[key].peerMaj23 := true;
      } else {
        var b := new BlockVotes(true, cfg.Size());
        votesByBlock := votesByBlock[key := b];
      }
    }

    /** `SetPeerMaj23`. */
    method SetPeerMaj23(peer: string, id: BlockID, height: int, round: int) returns (o: ClaimOutcome)
      requires Ok()
      modifies this, votesByBlock.Values
      ensures (Value(), o) == VoteSetModel.SetPeerMaj23(cfg, old(Value()), peer, id, height, round)
      ensures Ok()
      ensures fresh(votesByBlock.Values - old(votesByBlock.Values))
    {
      SetPeerMaj23Valid(cfg, Value(), peer, id, height, round);
      hide Valid;
      hide VoteSetModel.SetPeerMaj23;
      o := SetPeerMaj23Unlocked(peer, id, height, round);
    }

    method SetPeerMaj23Unlocked(peer: string, id: BlockID, height: int, round: int) returns (o: ClaimOutcome)
      requires Separate()
      modifies this, votesByBlock.Values
      ensures (Value(), o) == VoteSetModel.SetPeerMaj23(cfg, old(Value()), peer, id, height, round)
      ensures Separate()
      ensures fresh(votesByBlock.Values - old(votesByBlock.Values))
    {
      hide BlockID.Key;
      hide Buckets;
      var key := id.Key();
      BucketAt(key);
      if cfg.height != height {
        return HeightMismatch;
      }
      if peer in peerMaj23s {
        return if peerMaj23s[peer].blockID == id then Accepted else ConflictingClaim;
      }
      if |peerMaj23s| >= MAX_PEER_MAJ23S {
        return CapReached;
      }
      peerMaj23s := peerMaj23s[peer := Claim(id, height, round)];
      ClaimBucket(key);
      o := Accepted;
    }

    /** `MakeCommit`. */
    method MakeCommit() returns (r: Result<Commit, CommitPanic>)
      ensures r == CommitPipeline.MakeCommit(cfg, Value())
    {
      if cfg.typ != Precommit {
        return Err(NotPrecommit);
      }
      if maj23.None? {
        return Err(NoMajority);
      }
      if thresholdBlockSig == [] {
        return Err(NoBlockSign);
      }
      r := NewCommit(cfg.height, cfg.round, maj23.value, thresholdVoteExtSigs, cfg.vals.quorumHash,
                     QuorumSigns(thresholdBlockSig, Signatures(thresholdVoteExtSigs)));
    }
  }

  lemma ShapedWhenValid(cfg: Config, s: State)
    requires Valid(cfg, s)
    ensures Shaped(cfg.Size(), s)
  {
  }
}
