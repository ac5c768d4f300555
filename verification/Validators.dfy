/** Validator sets as votes and commits see them: powers and thresholds
    (types/validator_set.go, dash/llmq/llmq.go). Building one is module ValidatorUpdates. */
module Validators {
  import opened Prelude
  import opened Signing

  const DASH_VOTING_POWER := 100

  datatype Validator = Validator(proTxHash: Bytes, pubKey: Option<PubKey>, power: int)

  /** Members and threshold of the known quorum types. */
  function QuorumParams(t: LLMQType): Option<(nat, nat)> {
    match t
    case LLMQ_50_60 => Some((50, 30))
    case LLMQ_400_60 => Some((400, 240))
    case LLMQ_400_85 => Some((400, 340))
    case LLMQ_100_67 => Some((100, 67))
    case LLMQ_60_75 => Some((60, 45))
    case LLMQ_25_67 => Some((25, 17))
    case LLMQ_DEVNET => Some((12, 6))
    case LLMQ_TEST_V17 => Some((3, 2))
    case LLMQ_TEST_DIP0024 => Some((4, 2))
    case LLMQ_TEST_INSTANTSEND => Some((3, 2))
    case LLMQ_DEVNET_DIP0024 => Some((8, 4))
    case LLMQ_TEST_PLATFORM => Some((3, 2))
    case LLMQ_DEVNET_PLATFORM => Some((12, 8))
    case LLMQ_OTHER(_) => None
  }

  datatype ValidatorSet = ValidatorSet(validators: seq<Validator>, thresholdKey: Option<PubKey>, quorumHash: Hash32,
                                       llmqType: LLMQType, votingPowerThreshold: nat)
  {
    /** `size * 100`, whatever powers the validators carry. */
    function TotalPower(): nat {
      |validators| * DASH_VOTING_POWER
    }

    /** The power needed to recover a threshold signature. */
    function RecoveryPower(): (r: nat)
      ensures r > 0
    {
      match QuorumParams(llmqType)
      case Some((_, threshold)) => threshold * DASH_VOTING_POWER
      case None => (|validators| * 2 / 3 + 1) * DASH_VOTING_POWER
    }

    /** The power at which voting succeeds. */
    function QuorumPower(): (r: nat)
      ensures r > 0
    {
      if votingPowerThreshold > 0 then votingPowerThreshold else RecoveryPower()
    }

    function StrictFloor(): nat {
      TotalPower() * 2 / 3 + 1
    }

    predicate BelowStrictThreshold() {
      QuorumPower() < StrictFloor()
    }

    function Powers(): (r: seq<int>)
      ensures |r| == |validators|
    {
      seq(|validators|, i requires 0 <= i < |validators| => validators[i].power)
    }

    /** What a validator set built by `updateWithChangeSet` satisfies. */
    ghost predicate WellFormed() {
      && (forall i :: 0 <= i < |validators| ==> validators[i].power == DASH_VOTING_POWER)
      && (forall i, j :: 0 <= i < j < |validators| ==> validators[i].proTxHash != validators[j].proTxHash)
    }
  }

  // ---------------------------------------------------------------- what the thresholds mean

  /** Members and percentage of the quorum types named after them. */
  function NamedQuorum(t: LLMQType): Option<(nat, nat)> {
    match t
    case LLMQ_50_60 => Some((50, 60))
    case LLMQ_400_60 => Some((400, 60))
    case LLMQ_400_85 => Some((400, 85))
    case LLMQ_100_67 => Some((100, 67))
    case LLMQ_60_75 => Some((60, 75))
    case LLMQ_25_67 => Some((25, 67))
    case _ => None
  }

  predicate HalfQuorum(t: LLMQType) {
    t in {LLMQ_DEVNET, LLMQ_TEST_DIP0024, LLMQ_DEVNET_DIP0024}
  }

  predicate TwoThirdsQuorum(t: LLMQType) {
    t in {LLMQ_TEST_V17, LLMQ_TEST_INSTANTSEND, LLMQ_TEST_PLATFORM, LLMQ_DEVNET_PLATFORM}
  }

  /** `r` is the power of the fewest validators that make up the given percentage of `members`. */
  predicate FewestReaching(r: nat, members: nat, percent: nat) {
    && r % DASH_VOTING_POWER == 0
    && 100 * r >= percent * members * DASH_VOTING_POWER
    && 100 * (r - DASH_VOTING_POWER) < percent * members * DASH_VOTING_POWER
  }

  /** A quorum named after its members and percentage recovers with the fewest members that make up the percentage.
      The development and test quorums recover with exactly half or two thirds of their members. */
  lemma RecoveryOfKnown(vals: ValidatorSet)
    requires QuorumParams(vals.llmqType).Some?
    ensures var t, r, members := vals.llmqType, vals.RecoveryPower(), QuorumParams(vals.llmqType).value.0;
            && (NamedQuorum(t).Some? <==> !HalfQuorum(t) && !TwoThirdsQuorum(t))
            && (NamedQuorum(t).Some? ==>
                  var (named, percent) := NamedQuorum(t).value;
                  named == members && FewestReaching(r, members, percent))
            && (HalfQuorum(t) ==> 2 * r == members * DASH_VOTING_POWER)
            && (TwoThirdsQuorum(t) ==> 3 * r == 2 * members * DASH_VOTING_POWER)
            && r < members * DASH_VOTING_POWER
  {
  }

  /** So the power of `n` members is enough exactly when they make up the percentage. */
  lemma PercentageReached(vals: ValidatorSet, n: nat)
    requires NamedQuorum(vals.llmqType).Some?
    ensures var (members, percent) := NamedQuorum(vals.llmqType).value;
            n * DASH_VOTING_POWER >= vals.RecoveryPower() <==> 100 * n >= percent * members
  {
  }

  /** A quorum of another type recovers with the fewest of its validators that are more than two thirds. */
  lemma RecoveryOfUnknown(vals: ValidatorSet)
    requires vals.llmqType.LLMQ_OTHER?
    ensures var r := vals.RecoveryPower();
            && r % DASH_VOTING_POWER == 0 && 3 * r > 2 * vals.TotalPower()
            && 3 * (r - DASH_VOTING_POWER) <= 2 * vals.TotalPower()
  {
    var n := |vals.validators|;
    assert n * 2 == 3 * (n * 2 / 3) + n * 2 % 3;
  }

  /** A configured threshold is the quorum power, and only that: recovery does not heed it. Without one, voting
      succeeds with what recovers. */
  lemma QuorumRule(vals: ValidatorSet, threshold: nat)
    ensures var v := vals.(votingPowerThreshold := threshold);
            && v.RecoveryPower() == vals.RecoveryPower()
            && v.QuorumPower() == if threshold > 0 then threshold else v.RecoveryPower()
  {
  }

  /** The strict bound is the least power above two thirds of everybody's. */
  lemma StrictRule(vals: ValidatorSet, power: nat)
    ensures power >= vals.StrictFloor() <==> 3 * power > 2 * vals.TotalPower()
    ensures vals.BelowStrictThreshold() <==> 3 * vals.QuorumPower() <= 2 * vals.TotalPower()
  {
  }

  lemma {:induction false} TotalWeight(w: seq<int>, all: seq<bool>)
    requires |w| == |all| && forall i :: 0 <= i < |w| ==> w[i] == DASH_VOTING_POWER && all[i]
    ensures Weight(w, all) == |w| * DASH_VOTING_POWER
  {
    if w == [] {
    } else {
      TotalWeight(w[..|w| - 1], all[..|w| - 1]);
    }
  }
}
