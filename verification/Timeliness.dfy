/** Proposer-based timestamps: whether a proposal arrived in time (types/validation.go). Times and durations
    are nanoseconds. */
module Timeliness {
  import opened Prelude

  const MAX_INT64 := 0x7FFF_FFFF_FFFF_FFFF

  datatype Timely = TooEarly | InTime | TooLate

  /** How often the delay is doubled: once every ten rounds, as long as it fits 63 bits. */
  function Shift(delay: nat, round: nat): int {
    var maxShift := 64 - BitLen(delay) - 1;
    if round / 10 > maxShift then maxShift else round / 10
  }

  lemma {:induction false} Pow2Add(a: nat, b: nat)
    ensures Pow2(a) * Pow2(b) == Pow2(a + b)
  {
    if b == 0 {
    } else {
      Pow2Add(a, b - 1);
      assert Pow2(a) * (2 * Pow2(b - 1)) == 2 * (Pow2(a) * Pow2(b - 1));
    }
  }

  lemma Pow2Byte(k: nat)
    ensures Pow2(k + 8) == 256 * Pow2(k)
  {
    assert Pow2(k + 2) == 4 * Pow2(k);
    assert Pow2(k + 4) == 4 * Pow2(k + 2);
    assert Pow2(k + 6) == 4 * Pow2(k + 4);
  }

  lemma Pow2Of63()
    ensures Pow2(63) == MAX_INT64 + 1
  {
    assert Pow2(3) == 8 && Pow2(5) == 32 && Pow2(7) == 128;
    hide Pow2;
    Pow2Byte(7);
    Pow2Byte(15);
    Pow2Byte(23);
    Pow2Byte(31);
    Pow2Byte(39);
    Pow2Byte(47);
    Pow2Byte(55);
  }

  lemma BitLenAtMost63(delay: nat)
    requires 0 < delay <= MAX_INT64
    ensures 0 < BitLen(delay) <= 63
  {
    BitLenBounds(delay);
    Pow2Of63();
    Pow2AtMost(63, if BitLen(delay) > 63 then BitLen(delay) - 1 else 63);
  }

  /** The scaled delay. */
  function Delay(delay: nat, round: nat): int
    requires 0 < delay <= MAX_INT64
  {
    BitLenAtMost63(delay);
    delay * Pow2(Shift(delay, round))
  }

  /** Doubling stops before it overflows 64-bit integers. */
  lemma DelayFits(delay: nat, round: nat)
    requires 0 < delay <= MAX_INT64
    ensures delay <= Delay(delay, round) <= MAX_INT64
  {
    BitLenAtMost63(delay);
    BitLenBounds(delay);
    var len, shift := BitLen(delay), Shift(delay, round);
    Pow2Add(len, shift);
    Pow2AtMost(len + shift, 63);
    Pow2Of63();
    assert delay < Pow2(len);
    Scale(delay, Pow2(len), Pow2(shift));
  }

  lemma Scale(a: nat, b: nat, k: nat)
    requires a < b && k > 0
    ensures a <= a * k < b * k
  {
  }

  lemma Pow2AtMost(a: nat, b: nat)
    requires a <= b
    ensures Pow2(a) <= Pow2(b)
  {
    if a < b {
      Pow2Monotone(a, b);
    }
  }

  lemma DelayGrows(delay: nat, round: nat, later: nat)
    requires 0 < delay <= MAX_INT64 && round <= later
    ensures Delay(delay, round) <= Delay(delay, later)
  {
    BitLenAtMost63(delay);
    assert round / 10 <= later / 10;
    Pow2AtMost(Shift(delay, round), Shift(delay, later));
    ScaleLeft(delay, Pow2(Shift(delay, round)), Pow2(Shift(delay, later)));
  }

  lemma ScaleLeft(a: nat, x: nat, y: nat)
    requires x <= y
    ensures a * x <= a * y
  {
  }

  /** `checkTimely`. */
  function CheckTimely(timestamp: int, recvTime: int, precision: int, delay: nat, round: nat): Timely
    requires 0 < delay <= MAX_INT64
  {
    if recvTime < timestamp - precision then TooEarly
    else if recvTime > timestamp + Delay(delay, round) + precision then TooLate
    else InTime
  }

  /** A proposal that is timely in some round is timely in every later round; and being early does not
      depend on the round. */
  lemma TimelyStays(timestamp: int, recvTime: int, precision: int, delay: nat, round: nat, later: nat)
    requires 0 < delay <= MAX_INT64 && round <= later
    ensures CheckTimely(timestamp, recvTime, precision, delay, round) == InTime ==>
            CheckTimely(timestamp, recvTime, precision, delay, later) == InTime
    ensures CheckTimely(timestamp, recvTime, precision, delay, round) == TooEarly <==>
            CheckTimely(timestamp, recvTime, precision, delay, later) == TooEarly
  {
    DelayGrows(delay, round, later);
  }

  /** The delay is doubled once every ten rounds; where that would no longer fit 64-bit integers it is doubled as
      often as it does. */
  lemma DelayMeaning(delay: nat, round: nat) returns (doublings: nat)
    requires 0 < delay <= MAX_INT64
    ensures Delay(delay, round) == delay * Pow2(doublings) && doublings <= round / 10
    ensures doublings == round / 10 || 2 * Delay(delay, round) > MAX_INT64
  {
    BitLenAtMost63(delay);
    doublings := Shift(delay, round);
    if doublings < round / 10 {
      AtTheLimit(delay, doublings);
    }
  }

  lemma AtTheLimit(delay: nat, k: nat)
    requires 0 < delay <= MAX_INT64 && k == 63 - BitLen(delay)
    ensures 2 * (delay * Pow2(k)) > MAX_INT64
  {
    BitLenAtMost63(delay);
    BitLenBounds(delay);
    var half := Pow2(BitLen(delay) - 1);
    Pow2Add(BitLen(delay) - 1, k + 1);
    Pow2Of63();
    assert half * Pow2(k + 1) == MAX_INT64 + 1;
    assert Pow2(k + 1) == 2 * Pow2(k);
    hide Pow2;
    hide BitLen;
    Doubled(half, delay, Pow2(k));
  }

  lemma Doubled(a: nat, b: nat, x: nat)
    requires a <= b
    ensures a * (2 * x) <= 2 * (b * x)
  {
    ScaleLeft(x, a, b);
  }

  /** A proposal is timely when it arrives no earlier than the precision before its timestamp and no later than the
      delay and the precision after it. */
  lemma TimelyIff(timestamp: int, recvTime: int, precision: int, delay: nat, round: nat)
    requires 0 < delay <= MAX_INT64 && precision >= 0
    ensures var t, d := CheckTimely(timestamp, recvTime, precision, delay, round), Delay(delay, round);
            && (t == InTime <==> timestamp <= recvTime + precision && recvTime - precision <= timestamp + d)
            && (t == TooEarly ==> recvTime < timestamp) && (t == TooLate ==> timestamp + delay < recvTime)
    ensures CheckTimely(timestamp, timestamp, precision, delay, round) == InTime
    ensures round < 10 ==> Delay(delay, round) == delay
  {
    DelayFits(delay, round);
    var k := DelayMeaning(delay, round);
  }
}
