/** The vote set as a value: its state, and what each locked call makes of it (types/vote_set.go). */
module VoteSetModel {
  import opened Prelude
  import opened BlockIDs
  import opened Signing
  import opened Validators
  import opened Commits
  import opened Evidence
  import opened Recovery

  const MAX_PEER_MAJ23S := 4096

  /** What a vote set is created for. */
  datatype Config = Config(p: Primitives, chainID: string, height: int, round: int, typ: MsgType, vals: ValidatorSet) {
    function Context(): Context {
      SignContext(vals, chainID)
    }

    function Size(): nat {
      |vals.validators|
    }
  }

  /** Validators whose votes carry one ordered vector of signed extensions. */
  datatype Group = Group(power: int, representative: Vote, voters: set<Bytes>)

  /** The votes for one block key. */
  datatype Bucket = Bucket(peerMaj23: bool, bits: seq<bool>, votes: seq<Option<Vote>>, sum: int,
                           groups: map<Bytes, Group>)

  datatype Claim = Claim(blockID: BlockID, height: int, round: int)

  datatype State = State(bits: seq<bool>, votes: seq<Option<Vote>>, sum: int, maj23: Option<BlockID>,
                         buckets: map<Bytes, Bucket>, claims: map<string, Claim>, blockSign: Bytes, exts: seq<Ext>)

  function EmptyBucket(peerMaj23: bool, size: nat): Bucket {
    Bucket(peerMaj23, seq(size, _ => false), seq(size, _ => None), 0, map[])
  }

  function Initial(cfg: Config): State {
    State(seq(cfg.Size(), _ => false), seq(cfg.Size(), _ => None), 0, None, map[], map[], [], [])
  }

  // ---------------------------------------------------------------- buckets and groups

  /** `blockVotes.addVerifiedVote`: the bucket, and whether the vote's group crossed the recovery threshold. */
  function BucketAdd(b: Bucket, v: Vote, identity: Bytes, power: int, recovery: int): (Bucket, bool)
    requires 0 <= v.index < |b.votes| == |b.bits|
  {
    if b.votes[v.index].Some? then (b, false)
    else
      var g := if identity in b.groups then b.groups[identity] else Group(0, v, {});
      var g' := Group(g.power + power, g.representative, g.voters + {v.proTxHash});
      (Bucket(b.peerMaj23, b.bits[v.index := true], b.votes[v.index := Some(v)], b.sum + power,
              b.groups[identity := g']),
       g.power < recovery <= g'.power)
  }

  /** The least identity, in string order, backed by the recovery threshold. */
  ghost predicate IsCanonical(groups: map<Bytes, Group>, recovery: int, identity: Bytes) {
    && identity in groups && groups[identity].power >= recovery
    && forall other :: other in groups && groups[other].power >= recovery ==> AtMost(identity, other)
  }

  ghost function CanonicalGroup(groups: map<Bytes, Group>, recovery: int): Option<Bytes> {
    if exists identity :: IsCanonical(groups, recovery, identity)
    then var identity :| IsCanonical(groups, recovery, identity); Some(identity)
    else None
  }

  // ---------------------------------------------------------------- threshold recovery

  datatype Recovered =
    | Recovered(blockSign: Bytes, exts: seq<Ext>)
    | NotRecovered
    | LengthPanic      // GetVoteExtensions: signature count differs from extension count

  /** `recoverThresholdSignsAndVerify` for a block at quorum; `maj23` is the tentatively recorded block. */
  ghost function RecoverAndVerify(cfg: Config, b: Bucket, maj23: BlockID): Recovered {
    if |b.votes| == 0 then Recovered([], [])
    else if |b.votes| == 1 then
      if b.votes[0].None? then NotRecovered
      else Recovered(b.votes[0].value.blockSign, Recoverables(b.votes[0].value.exts))
    else
      match CanonicalGroup(b.groups, cfg.vals.RecoveryPower())
      case None => NotRecovered
      case Some(identity) =>
        var g := if identity in b.groups then b.groups[identity]
          else Group(0, Vote(Prevote, 0, 0, maj23, [], 0, [], []), {});
        match CollectShares(b.votes, g.voters)
        case None => NotRecovered
        case Some(shares) =>
          match RecoverSigns(cfg.p, shares, maj23.hash != [])
          case None => NotRecovered
          case Some(sigs) =>
            if |sigs.exts| != |shares.exts| then LengthPanic
            else CheckRecovered(cfg, g.representative, sigs.block, WithSignatures(shares.exts, sigs.exts))
  }

  /** The recovered signatures must verify against the representative's sign data and the threshold key. */
  function CheckRecovered(cfg: Config, representative: Vote, blockSign: Bytes, exts: seq<Ext>): (r: Recovered)
    ensures r == NotRecovered || r == Recovered(blockSign, exts)
  {
    var v := representative;
    match MakeQuorumSigns(cfg.p, cfg.Context(), v.typ, v.height, v.round, v.blockID, v.exts)
    case None => NotRecovered
    case Some(data) =>
      if cfg.vals.thresholdKey.None? then NotRecovered
      else if VerifyQuorum(cfg.p, cfg.vals.thresholdKey.value, data, QuorumSigns(blockSign, Signatures(exts)),
                           None).None?
      then Recovered(blockSign, exts)
      else NotRecovered
  }

  // ---------------------------------------------------------------- adding a vote

  datatype VoteError =
    | NilVote | NegativeIndex | EmptyProTxHash | UnexpectedStep | UnknownIndex | ForeignProTxHash
    | NonDeterministicSignature | EvidenceMismatch | InvalidSignature(error: VerifyError) | NoIdentity

  datatype Outcome =
    | Added
    | Duplicate
    | Conflict(added: bool, existing: Vote)
    | Rejected(error: VoteError)
    | DuplicatePanic     // "addVerifiedVote does not expect duplicate votes"
    | NotAddedPanic      // "Expected to add non-conflicting vote"
    | RecoveryPanic      // the length panic of GetVoteExtensions

  datatype Step = Step(state: State, outcome: Outcome)

  /** How the signatures of an offered vote are established. */
  datatype Check = Full | Budgeted(permits: Permits) | WithEvidence(evidence: VoteVerification, ref: Ref)

  /** `getVote`: the recorded vote of this validator for this key. */
  function GetVote(s: State, index: nat, key: Bytes): Option<Vote>
    requires index < |s.votes|
    requires key in s.buckets ==> index < |s.buckets[key].votes|
  {
    if s.votes[index].Some? && s.votes[index].value.blockID.Key() == key then s.votes[index]
    else if key in s.buckets then s.buckets[key].votes[index]
    else None
  }

  /** The canonical list after a vote: a first vote is recorded, a conflicting one replaces it only for `maj23`. */
  function RecordCanonical(s: State, v: Vote, power: int): State
    requires 0 <= v.index < |s.votes| == |s.bits|
  {
    if s.votes[v.index].None? then
      s.(votes := s.votes[v.index := Some(v)], bits := s.bits[v.index := true], sum := s.sum + power)
    else if s.maj23.Some? && s.maj23.value.Key() == v.blockID.Key() then
      s.(votes := s.votes[v.index := Some(v)], bits := s.bits[v.index := true])
    else s
  }

  /** A conflicting vote is kept only for a block some peer claims a majority for. */
  predicate Kept(s: State, v: Vote)
    requires 0 <= v.index < |s.votes|
  {
    var key := v.blockID.Key();
    s.votes[v.index].None? || (key in s.buckets && s.buckets[key].peerMaj23)
  }

  function TheBucket(cfg: Config, s: State, key: Bytes): Bucket {
    if key in s.buckets then s.buckets[key] else EmptyBucket(false, cfg.Size())
  }

  /** Votes of the bucket take precedence over the canonical ones. */
  function Publish(bucket: seq<Option<Vote>>, canonical: seq<Option<Vote>>): (r: seq<Option<Vote>>)
    requires |bucket| == |canonical|
    ensures |r| == |canonical|
  {
    seq(|canonical|, i requires 0 <= i < |canonical| => if bucket[i].Some? then bucket[i] else canonical[i])
  }

  /** Finalizing: `maj23` is set, rolled back when recovery is not possible yet, and otherwise published. */
  ghost function Finalize(cfg: Config, s: State, v: Vote): (State, bool)
    requires v.blockID.Key() in s.buckets && |s.buckets[v.blockID.Key()].votes| == |s.votes|
  {
    var b := s.buckets[v.blockID.Key()];
    if cfg.typ != Precommit then (s.(maj23 := Some(v.blockID), votes := Publish(b.votes, s.votes)), false)
    else
      match RecoverAndVerify(cfg, b, v.blockID)
      case NotRecovered => (s.(maj23 := None, blockSign := [], exts := []), false)
      case Recovered(blockSign, exts) =>
        (s.(maj23 := Some(v.blockID), blockSign := blockSign, exts := exts, votes := Publish(b.votes, s.votes)), false)
      case LengthPanic => (s, true)
  }

  ghost predicate Attempts(cfg: Config, s: State, before: int, after: int, groupReached: bool) {
    var quorum := cfg.vals.QuorumPower();
    s.maj23.None? && quorum <= after && (before < quorum || groupReached)
  }

  /** The bucket part of `addVerifiedVote`, on the state whose canonical list is already updated. */
  ghost function FileVote(cfg: Config, s: State, v: Vote, identity: Bytes, power: int): (State, bool)
    requires 0 <= v.index < |s.votes| == cfg.Size()
    requires forall k :: k in s.buckets ==> |s.buckets[k].votes| == |s.buckets[k].bits| == cfg.Size()
  {
    var key := v.blockID.Key();
    var b := TheBucket(cfg, s, key);
    var (b', reached) := BucketAdd(b, v, identity, power, cfg.vals.RecoveryPower());
    var s' := s.(buckets := s.buckets[key := b']);
    if Attempts(cfg, s', b.sum, b'.sum, reached) then Finalize(cfg, s', v) else (s', false)
  }

  /** `addVerifiedVote`. */
  ghost function AddVerified(cfg: Config, s: State, v: Vote, identity: Bytes, power: int): Step
    requires 0 <= v.index < |s.votes| == |s.bits| == cfg.Size()
    requires forall k :: k in s.buckets ==> |s.buckets[k].votes| == |s.buckets[k].bits| == cfg.Size()
  {
    var conflicting := s.votes[v.index];
    if conflicting.Some? && conflicting.value.blockID == v.blockID then Step(s, DuplicatePanic)
    else
      var s' := RecordCanonical(s, v, power);
      if !Kept(s, v) then
        Step(s', if conflicting.Some? then Conflict(false, conflicting.value) else NotAddedPanic)
      else
        var (s'', panicked) := FileVote(cfg, s', v, identity, power);
        if panicked then Step(s, RecoveryPanic)
        else Step(s'', if conflicting.Some? then Conflict(true, conflicting.value) else Added)
  }

  /** Whether the signature check lets the vote through. */
  function Checked(cfg: Config, v: Vote, check: Check): Option<VoteError>
    requires 0 <= v.index < cfg.Size()
  {
    var val := cfg.vals.validators[v.index];
    match check
    case WithEvidence(e, ref) =>
      if VoteMatches(cfg.p, e, ref, v, cfg.Context(), val.pubKey, val.proTxHash) then None else Some(EvidenceMismatch)
    case Full =>
      (match VerifyVote(cfg.p, cfg.Context(), v, val.pubKey, val.proTxHash, None)
       case Ok(_) => None
       case Err(e) => Some(InvalidSignature(e)))
    case Budgeted(permits) =>
      (match VerifyVote(cfg.p, cfg.Context(), v, val.pubKey, val.proTxHash, Some(permits))
       case Ok(_) => None
       case Err(e) => Some(InvalidSignature(e)))
  }

  /** The group a vote is filed under; outside precommits there is one group. */
  function GroupOf(cfg: Config, v: Vote): Option<Bytes> {
    if cfg.typ == Precommit then Identity(cfg.p, cfg.Context(), v) else Some([])
  }

  /** The checks of `addVote` up to the signatures. */
  function Precheck(cfg: Config, v: Option<Vote>): Option<VoteError> {
    if v.None? then Some(NilVote)
    else
      var v := v.value;
      if v.index < 0 then Some(NegativeIndex)
      else if v.proTxHash == [] then Some(EmptyProTxHash)
      else if v.height != cfg.height || v.round != cfg.round || v.typ != cfg.typ then Some(UnexpectedStep)
      else if v.index >= cfg.Size() then Some(UnknownIndex)
      else if v.proTxHash != cfg.vals.validators[v.index].proTxHash then Some(ForeignProTxHash)
      else None
  }

  /** `addVote`. */
  ghost function AddVote(cfg: Config, s: State, vote: Option<Vote>, check: Check): Step
    requires |s.votes| == |s.bits| == cfg.Size()
    requires forall k :: k in s.buckets ==> |s.buckets[k].votes| == |s.buckets[k].bits| == cfg.Size()
  {
    if Precheck(cfg, vote).Some? then Step(s, Rejected(Precheck(cfg, vote).value))
    else
      var v := vote.value;
      var known := GetVote(s, v.index, v.blockID.Key());
      if known.Some? then
        Step(s, if known.value.blockSign == v.blockSign then Duplicate else Rejected(NonDeterministicSignature))
      else if Checked(cfg, v, check).Some? then Step(s, Rejected(Checked(cfg, v, check).value))
      else
        match GroupOf(cfg, v)
        case None => Step(s, Rejected(NoIdentity))
        case Some(identity) => AddVerified(cfg, s, v, identity, cfg.vals.validators[v.index].power)
  }

  // ---------------------------------------------------------------- peer claims

  datatype ClaimOutcome = Accepted | HeightMismatch | ConflictingClaim | CapReached

  /** `SetPeerMaj23`. */
  function SetPeerMaj23(cfg: Config, s: State, peer: string, id: BlockID, height: int, round: int)
    : (State, ClaimOutcome)
  {
    if cfg.height != height then (s, HeightMismatch)
    else if peer in s.claims then (s, if s.claims[peer].blockID == id then Accepted else ConflictingClaim)
    else if |s.claims| >= MAX_PEER_MAJ23S then (s, CapReached)
    else
      var b := if id.Key() in s.buckets then s.buckets[id.Key()] else EmptyBucket(true, cfg.Size());
      (s.(claims := s.claims[peer := Claim(id, height, round)],
          buckets := s.buckets[id.Key() := b.(peerMaj23 := true)]), Accepted)
  }

  // ---------------------------------------------------------------- runs

  datatype Call =
    | VoteCall(vote: Option<Vote>, check: Check)
    | ClaimCall(peer: string, id: BlockID, height: int, round: int)
}
