/** The iterative Merkle root computes the recursive one (crypto/merkle/tree.go). */
module MerkleIterative {
  import opened Prelude
  import opened Merkle

  function LeafHashes(h: Checksum, items: seq<Bytes>): (r: seq<Hash32>)
    ensures |r| == |items|
  {
    seq(|items|, i requires 0 <= i < |items| => LeafHash(h, items[i]))
  }

  lemma {:induction false} RootIsTree(h: Checksum, items: seq<Bytes>)
    ensures Root(h, items) == Tree(h, LeafHashes(h, items))
    decreases |items|
  {
    if |items| <= 1 {
    } else {
      SplitPointBounds(|items|);
      hide SplitPoint;
      var k := SplitPoint(|items|);
      RootIsTree(h, items[..k]);
      RootIsTree(h, items[k..]);
      assert LeafHashes(h, items)[..k] == LeafHashes(h, items[..k]);
      assert LeafHashes(h, items)[k..] == LeafHashes(h, items[k..]);
    }
  }

  /** One level up: neighbours joined, an odd last hash carried over. */
  function Pair(h: Checksum, s: seq<Hash32>): (r: seq<Hash32>)
    ensures |r| == (|s| + 1) / 2
  {
    if |s| < 2 then s else [InnerHash(h, s[0], s[1])] + Pair(h, s[2..])
  }

  lemma {:induction false} PairSplit(h: Checksum, s: seq<Hash32>, k: nat)
    requires k <= |s| && k % 2 == 0
    ensures Pair(h, s) == Pair(h, s[..k]) + Pair(h, s[k..])
    decreases k
  {
    if k == 0 {
      assert s[..0] == [] && s[0..] == s;
    } else {
      PairSplit(h, s[2..], k - 2);
      assert s[2..][..k - 2] == s[..k][2..] && s[2..][k - 2..] == s[k..];
    }
  }

  lemma HalfPow2(k: nat)
    requires IsPow2(k) && k > 1
    ensures k % 2 == 0 && IsPow2(k / 2)
  {
    var e: nat :| Pow2(e) == k;
    assert Pow2(e - 1) == k / 2;
  }

  /** Going one level up does not change the root. */
  lemma {:induction false} PairKeepsTree(h: Checksum, s: seq<Hash32>)
    requires |s| >= 2
    ensures Tree(h, Pair(h, s)) == Tree(h, s)
    decreases |s|
  {
    var n := |s|;
    SplitPointBounds(n);
    var k := SplitPoint(n);
    hide SplitPoint;
    if n == 2 {
      assert s[..1] == [s[0]] && s[1..] == [s[1]];
    } else {
      HalfPow2(k);
      PairSplit(h, s, k);
      PairKeepsTree(h, s[..k]);
      if n - k > 1 {
        PairKeepsTree(h, s[k..]);
      }
      var up := Pair(h, s);
      SplitPointUnique(|up|, k / 2);
      assert up[..k / 2] == Pair(h, s[..k]) && up[k / 2..] == Pair(h, s[k..]);
    }
  }

  function Joined(h: Checksum, s: seq<Hash32>, i: nat): Hash32
    requires 2 * i < |s|
  {
    if 2 * i + 1 < |s| then InnerHash(h, s[2 * i], s[2 * i + 1]) else s[2 * i]
  }

  lemma {:induction false} PairAt(h: Checksum, s: seq<Hash32>, i: nat)
    requires 2 * i < |s|
    ensures Pair(h, s)[i] == Joined(h, s, i)
  {
    if |s| < 2 || i == 0 {
    } else {
      PairAt(h, s[2..], i - 1);
    }
  }

  /** One pass over the array: the write position follows the read position. */
  method PairInPlace(h: Checksum, a: array<Hash32>, size: nat) returns (wp: nat)
    requires 2 <= size <= a.Length
    modifies a
    ensures wp == (size + 1) / 2 && a[..wp] == Pair(h, old(a[..size]))
  {
    ghost var was := a[..size];
    wp := 0;
    var rp: nat := 0;
    while rp < size
      invariant rp <= size && (rp == 2 * wp || (rp == size && rp == 2 * wp - 1))
      invariant forall i :: 0 <= i < wp ==> a[i] == Joined(h, was, i)
      invariant forall i :: rp <= i < size ==> a[i] == was[i]
    {
      if rp + 1 < size {
        a[wp] := InnerHash(h, a[rp], a[rp + 1]);
        rp := rp + 2;
      } else {
        a[wp] := a[rp];
        rp := rp + 1;
      }
      wp := wp + 1;
    }
    forall i | 0 <= i < wp
      ensures a[..wp][i] == Pair(h, was)[i]
    {
      PairAt(h, was, i);
    }
  }

  /** `HashFromByteSlicesIterative`. */
  method IterativeRoot(h: Checksum, items: seq<Bytes>) returns (r: Hash32)
    ensures r == Root(h, items)
  {
    RootIsTree(h, items);
    var a := new Hash32[|items|](i requires 0 <= i < |items| => LeafHash(h, items[i]));
    var size: nat := |items|;
    assert a[..size] == LeafHashes(h, items);
    while size > 1
      invariant size <= a.Length
      invariant Tree(h, a[..size]) == Root(h, items)
    {
      PairKeepsTree(h, a[..size]);
      size := PairInPlace(h, a, size);
    }
    if size == 0 {
      return h([]);
    }
    return a[0];
  }
}
