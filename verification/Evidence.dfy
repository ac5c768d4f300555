/** Evidence of an earlier verification, accepted in place of repeating it
    (types/vote_verification.go, types/verified_commit.go, types/validator_set.go). */
module Evidence {
  import opened Prelude
  import opened BlockIDs
  import opened Signing
  import opened Validators
  import opened Commits

  /** The digests a check consumed and the signatures it checked, block first. */
  function SignHashes(data: QuorumSignData): (r: seq<Hash32>)
    ensures |r| == 1 + |data.exts|
  {
    [data.block.signHash] + seq(|data.exts|, i requires 0 <= i < |data.exts| => data.exts[i].signHash)
  }

  function SignatureList(sigs: QuorumSigns): (r: seq<Bytes>)
    ensures |r| == 1 + |sigs.exts|
  {
    [sigs.block] + sigs.exts
  }

  /** Two checks that consume the same digests and signatures under one key have the same verdict. */
  lemma SameContentSameVerdict(p: Primitives, key: PubKey, d: QuorumSignData, s: QuorumSigns, d': QuorumSignData,
                               s': QuorumSigns)
    requires SignHashes(d) == SignHashes(d') && SignatureList(s) == SignatureList(s')
    ensures Signed(p, key, d, s) <==> Signed(p, key, d', s')
  {
    var h, h', g, g' := SignHashes(d), SignHashes(d'), SignatureList(s), SignatureList(s');
    assert h[0] == h'[0] && g[0] == g'[0];
    assert |d.exts| == |d'.exts| && |s.exts| == |s'.exts|;
    assert s.exts == g[1..] == g'[1..] == s'.exts;
    forall i | 0 <= i < |d.exts|
      ensures d.exts[i].signHash == d'.exts[i].signHash
    {
      assert h[i + 1] == h'[i + 1];
    }
  }

  // ---------------------------------------------------------------- votes

  /** The address of a vote object. */
  type Ref = nat

  datatype VoteVerification = VoteVerification(vote: Option<Ref>, context: Context, key: PubKey, proTxHash: Bytes,
                                               signHashes: seq<Hash32>, signatures: seq<Bytes>)

  /** `VerifyVoteSignatures`. */
  function VerifyVoteSignatures(p: Primitives, ref: Ref, v: Vote, c: Context, key: Option<PubKey>, proTxHash: Bytes,
                                budget: Option<Permits>)
    : (r: Result<VoteVerification, VerifyError>)
    ensures r.Ok? ==> VerifyVote(p, c, v, key, proTxHash, budget).Ok? && GenuineVote(p, r.value)
  {
    match VerifyVote(p, c, v, key, proTxHash, budget)
    case Err(e) => Err(e)
    case Ok(data) =>
      VerifyQuorumMeaning(p, key.value, data, VoteSigns(v), budget);
      Ok(VoteVerification(Some(ref), c, key.value, proTxHash, SignHashes(data), SignatureList(VoteSigns(v))))
  }

  /** Evidence this package can hold: the zero value, or a record of a check that succeeded. */
  ghost predicate GenuineVote(p: Primitives, e: VoteVerification) {
    e.vote.Some? ==>
      exists d: QuorumSignData, s: QuorumSigns ::
        Signed(p, e.key, d, s) && SignHashes(d) == e.signHashes && SignatureList(s) == e.signatures
  }

  /** `VoteVerification.checkMatches`; `ref` and `v` are the address and the present content of the vote offered. */
  predicate VoteMatches(p: Primitives, e: VoteVerification, ref: Ref, v: Vote, c: Context, key: Option<PubKey>,
                        proTxHash: Bytes) {
    && e.vote == Some(ref)
    && e.context == c
    && key == Some(e.key)
    && e.proTxHash == proTxHash
    && VerifyBasic(v, proTxHash, key).None?
    && var data := VoteSignData(p, c, v);
    && data.Ok?
    && e.signHashes == SignHashes(data.value)
    && e.signatures == SignatureList(VoteSigns(v))
  }

  /** A vote genuine evidence matches would pass a fresh verification, whatever was written to it since. */
  lemma MatchedVoteVerifies(p: Primitives, e: VoteVerification, ref: Ref, v: Vote, c: Context, key: Option<PubKey>,
                            proTxHash: Bytes)
    requires GenuineVote(p, e) && VoteMatches(p, e, ref, v, c, key, proTxHash)
    ensures VerifyVote(p, c, v, key, proTxHash, None).Ok?
  {
    var data := VoteSignData(p, c, v).value;
    var d, s :| Signed(p, e.key, d, s) && SignHashes(d) == e.signHashes && SignatureList(s) == e.signatures;
    SameContentSameVerdict(p, e.key, d, s, data, VoteSigns(v));
    VerifyQuorumMeaning(p, e.key, data, VoteSigns(v), None);
  }

  /** Fresh evidence matches the vote it was minted for, and keeps matching any rewriting of that vote
      exactly as long as the rewritten vote yields the same digests, signatures and shape. */
  lemma FreshEvidenceMatches(p: Primitives, ref: Ref, v: Vote, v': Vote, c: Context, key: Option<PubKey>,
                             proTxHash: Bytes,
                             budget: Option<Permits>)
    requires VerifyVoteSignatures(p, ref, v, c, key, proTxHash, budget).Ok?
    ensures var e := VerifyVoteSignatures(p, ref, v, c, key, proTxHash, budget).value;
            && VoteMatches(p, e, ref, v, c, key, proTxHash)
            && (VoteMatches(p, e, ref, v', c, key, proTxHash) <==>
                  && VerifyBasic(v', proTxHash, key).None?
                  && VoteSignData(p, c, v').Ok?
                  && SignHashes(VoteSignData(p, c, v').value) == SignHashes(VoteSignData(p, c, v).value)
                  && SignatureList(VoteSigns(v')) == SignatureList(VoteSigns(v)))
  {
  }

  /** Fresh evidence ties a rewritten vote to the signatures that were checked: a vote it matches verifies and
      carries the same ones. It is silent on extensions that nobody recovers. */
  lemma RewrittenVote(p: Primitives, ref: Ref, v: Vote, v': Vote, c: Context, key: Option<PubKey>, proTxHash: Bytes)
    requires VerifyVoteSignatures(p, ref, v, c, key, proTxHash, None).Ok?
    ensures var e := VerifyVoteSignatures(p, ref, v, c, key, proTxHash, None).value;
            VoteMatches(p, e, ref, v', c, key, proTxHash) ==>
              && VerifyVote(p, c, v', key, proTxHash, None).Ok?
              && v'.blockSign == v.blockSign && v'.proTxHash == v.proTxHash
              && Signatures(Recoverables(v'.exts)) == Signatures(Recoverables(v.exts))
    ensures var e := VerifyVoteSignatures(p, ref, v, c, key, proTxHash, None).value;
            (&& v' == v.(exts := v'.exts) && Recoverables(v'.exts) == Recoverables(v.exts)
             && |v'.exts| <= MAX_VOTE_EXTENSIONS && (v'.exts == [] || v.typ == Precommit)) ==>
              VoteMatches(p, e, ref, v', c, key, proTxHash)
  {
    hide SignItems;
    hide Recoverables;
    hide Signatures;
    hide VerifyQuorum;
    var e := VerifyVoteSignatures(p, ref, v, c, key, proTxHash, None).value;
    assert GenuineVote(p, e);
    if VoteMatches(p, e, ref, v', c, key, proTxHash) {
      MatchedVoteVerifies(p, e, ref, v', c, key, proTxHash);
      var g, g' := SignatureList(VoteSigns(v)), SignatureList(VoteSigns(v'));
      assert g[0] == g'[0] && g[1..] == g'[1..];
    }
  }

  /** Evidence speaks for one vote object, chain, quorum, key and validator. */
  lemma EvidenceIsSpecific(p: Primitives, ref: Ref, v: Vote, c: Context, key: Option<PubKey>, proTxHash: Bytes,
                           budget: Option<Permits>, ref': Ref, v': Vote, c': Context, key': Option<PubKey>,
                           proTxHash': Bytes)
    requires VerifyVoteSignatures(p, ref, v, c, key, proTxHash, budget).Ok?
    ensures var e := VerifyVoteSignatures(p, ref, v, c, key, proTxHash, budget).value;
            VoteMatches(p, e, ref', v', c', key', proTxHash') ==>
              ref' == ref && c' == c && key' == key && proTxHash' == proTxHash
  {
    hide VoteSignData;
    hide VerifyQuorum;
  }

  // ---------------------------------------------------------------- commits

  /** Copies of everything the verification depended on. */
  datatype CommitProof = CommitProof(chainID: string, height: int, blockID: BlockID, llmqType: LLMQType,
                                     quorumHash: Hash32,
                                     key: PubKey, signHashes: seq<Hash32>, signatures: seq<Bytes>)

  ghost predicate GenuineProof(p: Primitives, proof: Option<CommitProof>) {
    proof.Some? ==>
      exists d: QuorumSignData, s: QuorumSigns ::
        && Signed(p, proof.value.key, d, s)
        && SignHashes(d) == proof.value.signHashes && SignatureList(s) == proof.value.signatures
  }

  /** `commitProof.checkMatches`. */
  predicate CommitMatches(p: Primitives, proof: Option<CommitProof>, chainID: string, vals: ValidatorSet,
                          blockID: BlockID,
                          height: int, commit: Commit)
  {
    && proof.Some?
    && proof.value.signHashes != []
    && proof.value.chainID == chainID
    && proof.value.height == height
    && proof.value.blockID == blockID
    && proof.value.llmqType == vals.llmqType
    && proof.value.quorumHash == vals.quorumHash
    && vals.thresholdKey == Some(proof.value.key)
    && var data := CommitSignData(p, vals, chainID, blockID, height, commit);
    && data.Ok?
    && proof.value.signHashes == SignHashes(data.value)
    && proof.value.signatures == SignatureList(CommitSigns(commit))
  }

  lemma MatchedCommitVerifies(p: Primitives, proof: Option<CommitProof>, chainID: string, vals: ValidatorSet,
                              blockID: BlockID,
                              height: int, commit: Commit)
    requires GenuineProof(p, proof) && CommitMatches(p, proof, chainID, vals, blockID, height, commit)
    ensures VerifyCommit(p, vals, chainID, blockID, height, commit, None).Ok?
  {
    var data := CommitSignData(p, vals, chainID, blockID, height, commit).value;
    var key := proof.value.key;
    var d, s :| Signed(p, key, d, s) && SignHashes(d) == proof.value.signHashes &&
      SignatureList(s) == proof.value.signatures;
    SameContentSameVerdict(p, key, d, s, data, CommitSigns(commit));
    VerifyQuorumMeaning(p, key, data, CommitSigns(commit), None);
  }

  /** A commit object that callers may go on writing to. */
  class CommitObject {
    var height: int
    var round: int
    var blockID: BlockID
    var quorumHash: Bytes
    var blockSign: Bytes
    var exts: seq<ProtoExt>

    constructor (commit: Commit)
      ensures Value() == commit
    {
      height, round, blockID := commit.height, commit.round, commit.blockID;
      quorumHash, blockSign, exts := commit.quorumHash, commit.blockSign, commit.exts;
    }

    /** What the object holds now. */
    function Value(): Commit
      reads this
    {
      Commit(height, round, blockID, quorumHash, blockSign, exts)
    }
  }

  /** The commit is the caller's object; only the proof is evidence. */
  datatype VerifiedCommit = VerifiedCommit(commit: CommitObject?, proof: Option<CommitProof>)

  /** Verifies the commit as it is now; the proof returned no longer depends on the object. */
  method VerifyCommitSignatures(p: Primitives, vals: ValidatorSet, chainID: string, blockID: BlockID, height: int,
                                commit: CommitObject, budget: Option<Permits>)
    returns (r: Result<VerifiedCommit, CommitError>)
    ensures r.Ok? <==> VerifyCommit(p, vals, chainID, blockID, height, commit.Value(), budget).Ok?
    ensures r.Err? ==> VerifyCommit(p, vals, chainID, blockID, height, commit.Value(), budget) == Err(r.error)
    ensures r.Ok? ==>
              && r.value.commit == commit
              && GenuineProof(p, r.value.proof)
              && CommitMatches(p, r.value.proof, chainID, vals, blockID, height, commit.Value())
  {
    var c := commit.Value();
    match VerifyCommit(p, vals, chainID, blockID, height, c, budget)
    case Err(e) =>
      return Err(e);
    case Ok(data) =>
      var key := vals.thresholdKey.value;
      VerifyQuorumMeaning(p, key, data, CommitSigns(c), budget);
      var proof := CommitProof(chainID, height, blockID, vals.llmqType, vals.quorumHash, key,
                               SignHashes(data), SignatureList(CommitSigns(c)));
      assert Signed(p, proof.key, data, CommitSigns(c));
      return Ok(VerifiedCommit(commit, Some(proof)));
  }

  /** With any evidence this package can produce and any commit object in any later state, the verdict
      is that of a full verification of what the object holds now; a refused proof costs only work. */
  method VerifyCommitUnlessVerified(p: Primitives, vals: ValidatorSet, chainID: string, blockID: BlockID, height: int,
                                    commit: CommitObject, verified: VerifiedCommit)
    returns (skipped: bool, err: Option<CommitError>)
    requires GenuineProof(p, verified.proof)
    ensures err.None? <==> VerifyCommit(p, vals, chainID, blockID, height, commit.Value(), None).Ok?
    ensures err.Some? ==> VerifyCommit(p, vals, chainID, blockID, height, commit.Value(), None) == Err(err.value)
    ensures skipped <==> CommitMatches(p, verified.proof, chainID, vals, blockID, height, commit.Value())
  {
    var c := commit.Value();
    if CommitMatches(p, verified.proof, chainID, vals, blockID, height, c) {
      MatchedCommitVerifies(p, verified.proof, chainID, vals, blockID, height, c);
      return true, None;
    }
    match VerifyCommit(p, vals, chainID, blockID, height, c, None)
    case Err(e) =>
      return false, Some(e);
    case Ok(_) =>
      return false, None;
  }

  /** And a proof for one chain, height, block, quorum and key. */
  lemma ProofIsSpecific(p: Primitives, proof: CommitProof, chainID: string, vals: ValidatorSet, blockID: BlockID,
                        height: int, commit: Commit, chainID': string, vals': ValidatorSet, blockID': BlockID,
                        height': int, commit': Commit)
    requires CommitMatches(p, Some(proof), chainID, vals, blockID, height, commit)
    requires CommitMatches(p, Some(proof), chainID', vals', blockID', height', commit')
    ensures chainID == chainID' && blockID == blockID' && height == height'
    ensures vals.llmqType == vals'.llmqType && vals.quorumHash == vals'.quorumHash
    ensures vals.thresholdKey == vals'.thresholdKey && commit.quorumHash == commit'.quorumHash
    ensures commit.blockSign == commit'.blockSign
  {
    var x, y := SignatureList(CommitSigns(commit)), SignatureList(CommitSigns(commit'));
    assert x[0] == y[0];
    hide MakeVerifyQuorumSigns;
    hide ExtsFromProto;
  }
}
