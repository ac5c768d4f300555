/** Commits and their verification (types/block.go, types/quorum.go, types/validator_set.go). */
module Commits {
  import opened Prelude
  import opened BlockIDs
  import opened Signing
  import opened Validators

  datatype Commit = Commit(height: int, round: int, blockID: BlockID, quorumHash: Bytes, blockSign: Bytes,
                           exts: seq<ProtoExt>)

  datatype CommitError =
    | WrongHeight | WrongBlockID | BadExtension | SignData(error: VerifyError) | WrongQuorumHash
    | NilThresholdKey | InvalidCommit(error: VerifyError)

  /** The signatures of the protobuf extensions; the caller has ruled out nil entries. */
  function ProtoSignatures(es: seq<ProtoExt>): (r: seq<Bytes>)
    requires ExtsFromProto(es).Some?
    ensures |r| == |es|
  {
    Signatures(ExtsFromProto(es).value)
  }

  function SignContext(vals: ValidatorSet, chainID: string): Context {
    Context(chainID, vals.llmqType, vals.quorumHash)
  }

  /** `commitSignData`: every check made before a signature is touched. */
  function CommitSignData(p: Primitives, vals: ValidatorSet, chainID: string, blockID: BlockID, height: int,
                          commit: Commit)
    : (r: Result<QuorumSignData, CommitError>)
    ensures r.Ok? ==> ExtsFromProto(commit.exts).Some? && height == commit.height && blockID == commit.blockID
  {
    if height != commit.height then Err(WrongHeight)
    else if blockID != commit.blockID then Err(WrongBlockID)
    else
      match ExtsFromProto(commit.exts)
      case None => Err(BadExtension)
      case Some(exts) =>
        match MakeVerifyQuorumSigns(p, SignContext(vals, chainID), Precommit, commit.height, commit.round,
                                    commit.blockID, exts)
        case Err(e) => Err(SignData(e))
        case Ok(data) => if vals.quorumHash != commit.quorumHash then Err(WrongQuorumHash) else Ok(data)
  }

  /** `NewQuorumSignsFromCommit`. */
  function CommitSigns(commit: Commit): QuorumSigns
    requires ExtsFromProto(commit.exts).Some?
  {
    QuorumSigns(commit.blockSign, ProtoSignatures(commit.exts))
  }

  /** `verifyCommitReportingSigns`: on success, the data that was checked. A nil threshold key is
      a nil dereference in the source, reported here as an error of its own. */
  function VerifyCommit(p: Primitives, vals: ValidatorSet, chainID: string, blockID: BlockID, height: int,
                        commit: Commit,
                        budget: Option<Permits>)
    : (r: Result<QuorumSignData, CommitError>)
    ensures r.Ok? ==> ExtsFromProto(commit.exts).Some? && vals.thresholdKey.Some?
  {
    match CommitSignData(p, vals, chainID, blockID, height, commit)
    case Err(e) => Err(e)
    case Ok(data) =>
      if vals.thresholdKey.None? then Err(NilThresholdKey)
      else
        match VerifyQuorum(p, vals.thresholdKey.value, data, CommitSigns(commit), budget)
        case Some(e) => Err(InvalidCommit(e))
        case None => Ok(data)
  }

  /** A refusal before any signature is checked says what is wrong with the commit. */
  lemma RefusedBecause(p: Primitives, vals: ValidatorSet, chainID: string, blockID: BlockID, height: int,
                       commit: Commit, budget: Option<Permits>)
    requires VerifyCommit(p, vals, chainID, blockID, height, commit, budget).Err?
    ensures var e := VerifyCommit(p, vals, chainID, blockID, height, commit, budget).error;
            && (e == WrongHeight <==> commit.height != height)
            && (e == WrongBlockID ==> commit.blockID != blockID)
            && (e == BadExtension ==> ExtsFromProto(commit.exts).None?)
            && (e == WrongQuorumHash ==> commit.quorumHash != vals.quorumHash)
            && (e == NilThresholdKey ==> vals.thresholdKey.None?)
            && (e.InvalidCommit? ==>
                  && commit.height == height && commit.blockID == blockID && commit.quorumHash == vals.quorumHash
                  && vals.thresholdKey.Some?)
  {
    hide MakeVerifyQuorumSigns;
    hide VerifyQuorum;
  }

  /** A commit is accepted if and only if it is for this height, block and quorum, its extensions are well-formed and
      not too many, and it carries the quorum's signatures over all of it. */
  lemma AcceptedIff(p: Primitives, vals: ValidatorSet, chainID: string, blockID: BlockID, height: int, commit: Commit)
    ensures VerifyCommit(p, vals, chainID, blockID, height, commit, None).Ok? <==>
              && commit.height == height && commit.blockID == blockID && commit.quorumHash == vals.quorumHash
              && vals.thresholdKey.Some? && |commit.exts| <= MAX_VOTE_EXTENSIONS
              && var exts := ExtsFromProto(commit.exts);
              exts.Some? &&
              var data := MakeQuorumSigns(p, SignContext(vals, chainID), Precommit, height, commit.round, blockID,
                                          exts.value);
              data.Some? && Signed(p, vals.thresholdKey.value, data.value,
                                   QuorumSigns(commit.blockSign, Signatures(exts.value)))
  {
    hide MakeQuorumSigns;
    hide VerifyQuorum;
    hide Signed;
    var data := CommitSignData(p, vals, chainID, blockID, height, commit);
    if data.Ok? && vals.thresholdKey.Some? {
      VerifyQuorumMeaning(p, vals.thresholdKey.value, data.value, CommitSigns(commit), None);
    }
  }
}
