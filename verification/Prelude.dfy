/** Types and order facts shared by every other module. */
module Prelude {

  datatype Option<+T> = None | Some(value: T)

  datatype Result<+T, +E> = Ok(value: T) | Err(error: E)

  type byte = x: int | 0 <= x < 256

  /** A Go byte slice. A nil slice and an empty one are both `[]`. */
  type Bytes = seq<byte>

  type Hash32 = h: Bytes | |h| == 32 witness seq(32, _ => 0)

  /** Go's `bytes.Compare(a, b) < 0`, and `<` on Go strings. */
  predicate Less(a: Bytes, b: Bytes) {
    b != [] && (a == [] || a[0] < b[0] || (a[0] == b[0] && Less(a[1..], b[1..])))
  }

  predicate AtMost(a: Bytes, b: Bytes) {
    a == b || Less(a, b)
  }

  lemma {:induction false} LessIrreflexive(a: Bytes)
    ensures !Less(a, a)
  {
    if a == [] {
    } else {
      LessIrreflexive(a[1..]);
    }
  }

  lemma {:induction false} LessTransitive(a: Bytes, b: Bytes, c: Bytes)
    requires Less(a, b) && Less(b, c)
    ensures Less(a, c)
  {
    if a == [] || a[0] != b[0] || b[0] != c[0] {
    } else {
      LessTransitive(a[1..], b[1..], c[1..]);
    }
  }

  lemma {:induction false} LessTotal(a: Bytes, b: Bytes)
    ensures Less(a, b) || a == b || Less(b, a)
  {
    if a == [] || b == [] || a[0] != b[0] {
    } else {
      LessTotal(a[1..], b[1..]);
      assert a == [a[0]] + a[1..] && b == [b[0]] + b[1..];
    }
  }

  lemma LessAsymmetric(a: Bytes, b: Bytes)
    requires Less(a, b)
    ensures !Less(b, a) && a != b
  {
    if Less(b, a) {
      LessTransitive(a, b, a);
    }
    LessIrreflexive(a);
  }

  function Reverse(s: Bytes): (r: Bytes)
    ensures |r| == |s| && forall i :: 0 <= i < |s| ==> r[i] == s[|s| - 1 - i]
  {
    seq(|s|, i requires 0 <= i < |s| => s[|s| - 1 - i])
  }

  /** The power carried by the flagged positions. */
  function Weight(w: seq<int>, f: seq<bool>): int
    requires |w| == |f|
  {
    if w == [] then 0
    else Weight(w[..|w| - 1], f[..|f| - 1]) + (if f[|f| - 1] then w[|w| - 1] else 0)
  }

  lemma {:induction false} WeightSetFlag(w: seq<int>, f: seq<bool>, i: nat)
    requires |w| == |f| && i < |f| && !f[i]
    ensures Weight(w, f[i := true]) == Weight(w, f) + w[i]
  {
    var n := |w| - 1;
    if i == n {
      assert f[i := true][..n] == f[..n];
    } else {
      assert f[i := true][..n] == f[..n][i := true];
      WeightSetFlag(w[..n], f[..n], i);
    }
  }

  lemma {:induction false} WeightNoFlag(w: seq<int>, f: seq<bool>)
    requires |w| == |f| && forall i :: 0 <= i < |f| ==> !f[i]
    ensures Weight(w, f) == 0
  {
    if w == [] {
    } else {
      WeightNoFlag(w[..|w| - 1], f[..|f| - 1]);
    }
  }

  /** Inclusion and exclusion, bounded by the weight of all positions. */
  lemma {:induction false} WeightOverlap(w: seq<int>, f: seq<bool>, g: seq<bool>, both: seq<bool>, all: seq<bool>)
    requires |w| == |f| == |g| == |both| == |all|
    requires forall i :: 0 <= i < |w| ==> w[i] >= 0 && all[i] && both[i] == (f[i] && g[i])
    ensures Weight(w, f) + Weight(w, g) <= Weight(w, both) + Weight(w, all)
  {
    if w == [] {
    } else {
      var n := |w| - 1;
      WeightOverlap(w[..n], f[..n], g[..n], both[..n], all[..n]);
    }
  }

  lemma {:induction false} WeightMonotone(w: seq<int>, f: seq<bool>, g: seq<bool>)
    requires |w| == |f| == |g|
    requires forall i :: 0 <= i < |w| ==> w[i] >= 0 && (f[i] ==> g[i])
    ensures 0 <= Weight(w, f) <= Weight(w, g)
  {
    if w == [] {
    } else {
      var n := |w| - 1;
      WeightMonotone(w[..n], f[..n], g[..n]);
    }
  }

  lemma Assoc<T>(x: seq<T>, y: seq<T>, z: seq<T>)
    ensures x + y + z == x + (y + z)
  {
  }

  function Flatten(chunks: seq<Bytes>): Bytes {
    if chunks == [] then [] else chunks[0] + Flatten(chunks[1..])
  }

  lemma {:induction false} FlattenAppend(a: seq<Bytes>, b: seq<Bytes>)
    ensures Flatten(a + b) == Flatten(a) + Flatten(b)
  {
    if a == [] {
      assert a + b == b;
    } else {
      assert (a + b)[1..] == a[1..] + b;
      FlattenAppend(a[1..], b);
    }
  }

  function Pow2(n: nat): (r: nat)
    ensures r > 0
  {
    if n == 0 then 1 else 2 * Pow2(n - 1)
  }

  /** `bits.Len`. */
  function BitLen(n: nat): nat {
    if n == 0 then 0 else 1 + BitLen(n / 2)
  }

  lemma {:induction false} BitLenBounds(n: nat)
    requires n > 0
    ensures BitLen(n) > 0 && Pow2(BitLen(n) - 1) <= n < 2 * Pow2(BitLen(n) - 1)
  {
    if n <= 1 {
    } else {
      BitLenBounds(n / 2);
    }
  }

  lemma {:induction false} Pow2Monotone(a: nat, b: nat)
    requires a < b
    ensures 2 * Pow2(a) <= Pow2(b)
  {
    if a + 1 >= b {
    } else {
      Pow2Monotone(a, b - 1);
    }
  }

  function Min(a: nat, b: nat): nat {
    if a <= b then a else b
  }

  lemma AtMostTransitive(x: Bytes, y: Bytes, z: Bytes)
    requires AtMost(x, y) && AtMost(y, z)
    ensures AtMost(x, z)
  {
    if x != y && y != z {
      LessTransitive(x, y, z);
    }
  }

  lemma AtMostAntisymmetric(x: Bytes, y: Bytes)
    requires AtMost(x, y) && AtMost(y, x)
    ensures x == y
  {
    if Less(x, y) && Less(y, x) {
      LessTransitive(x, y, x);
      LessIrreflexive(x);
    }
  }
}
