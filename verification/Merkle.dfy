/** The binary Merkle tree over byte slices, after RFC 6962 (crypto/merkle). The checksum is a parameter. */
module Merkle {
  import opened Prelude

  type Checksum = Bytes -> Hash32

  const LEAF_PREFIX: Bytes := [0]
  const INNER_PREFIX: Bytes := [1]

  function LeafHash(h: Checksum, leaf: Bytes): Hash32 {
    h(LEAF_PREFIX + leaf)
  }

  function InnerHash(h: Checksum, left: Bytes, right: Bytes): Hash32 {
    h(INNER_PREFIX + left + right)
  }

  // ---------------------------------------------------------------- the split point

  /** `getSplitPoint`. */
  function SplitPoint(n: nat): (k: nat)
    requires n > 0
  {
    assert BitLen(n) > 0;
    var k := Pow2(BitLen(n) - 1);
    if k == n then k / 2 else k
  }

  ghost predicate IsPow2(k: nat) {
    exists e: nat :: Pow2(e) == k
  }

  /** The split point is the largest power of two below the length. */
  lemma SplitPointBounds(n: nat)
    requires n >= 2
    ensures var k := SplitPoint(n); 1 <= k < n <= 2 * k && IsPow2(k)
  {
    BitLenBounds(n);
    var e := BitLen(n) - 1;
    if Pow2(e) == n {
      assert n / 2 == Pow2(e - 1);
    }
  }

  lemma SplitPointUnique(n: nat, k: nat)
    requires n >= 2 && IsPow2(k) && k < n <= 2 * k
    ensures SplitPoint(n) == k
  {
    SplitPointBounds(n);
    var a: nat :| Pow2(a) == k;
    var b: nat :| Pow2(b) == SplitPoint(n);
    if a < b {
      Pow2Monotone(a, b);
    } else if b < a {
      Pow2Monotone(b, a);
    }
  }

  // ---------------------------------------------------------------- roots and proofs

  /** The root over a list of leaf hashes. */
  function Tree(h: Checksum, hashes: seq<Hash32>): (r: Hash32) {
    if |hashes| == 0 then h([])
    else if |hashes| == 1 then hashes[0]
    else
      SplitPointBounds(|hashes|);
      var k := SplitPoint(|hashes|);
      InnerHash(h, Tree(h, hashes[..k]), Tree(h, hashes[k..]))
  }

  /** `HashFromByteSlices`. */
  function Root(h: Checksum, items: seq<Bytes>): (r: Hash32) {
    if |items| == 0 then h([])
    else if |items| == 1 then LeafHash(h, items[0])
    else
      SplitPointBounds(|items|);
      var k := SplitPoint(|items|);
      InnerHash(h, Root(h, items[..k]), Root(h, items[k..]))
  }

  /** The roots over up to three items written out, as section 2.1 of RFC 6962 has them. */
  lemma RootOfFew(h: Checksum, a: Bytes, b: Bytes, c: Bytes)
    ensures Root(h, []) == h([]) && Root(h, [a]) == h([0] + a)
    ensures Root(h, [a, b]) == h([1] + h([0] + a) + h([0] + b))
    ensures Root(h, [a, b, c]) == h([1] + h([1] + h([0] + a) + h([0] + b)) + h([0] + c))
  {
    SplitPointUnique(3, 2) by { assert Pow2(1) == 2; }
    SplitPointUnique(2, 1) by { assert Pow2(0) == 1; }
    assert [a, b][..1] == [a] && [a, b][1..] == [b];
    assert [a, b, c][..2] == [a, b] && [a, b, c][2..] == [c];
  }

  /** The hashes from a leaf's sibling to a child of the root, as `ProofsFromByteSlices` flattens them. */
  function Aunts(h: Checksum, items: seq<Bytes>, i: nat): seq<Bytes>
    requires i < |items|
    decreases |items|
  {
    if |items| == 1 then []
    else
      SplitPointBounds(|items|);
      var k := SplitPoint(|items|);
      if i < k then Aunts(h, items[..k], i) + [Root(h, items[k..])]
      else Aunts(h, items[k..], i - k) + [Root(h, items[..k])]
  }

  datatype Proof = Proof(total: int, index: int, leafHash: Bytes, aunts: seq<Bytes>)

  function ProofFor(h: Checksum, items: seq<Bytes>, i: nat): Proof
    requires i < |items|
  {
    Proof(|items|, i, LeafHash(h, items[i]), Aunts(h, items, i))
  }

  /** `computeHashFromAunts`. */
  function ComputeRoot(h: Checksum, index: int, total: int, leafHash: Bytes, aunts: seq<Bytes>): Option<Bytes>
    decreases total
  {
    if index >= total || index < 0 || total <= 0 then None
    else if total == 1 then (if aunts != [] then None else Some(leafHash))
    else if aunts == [] then None
    else
      SplitPointBounds(total);
      var k := SplitPoint(total);
      var last := |aunts| - 1;
      if index < k then
        match ComputeRoot(h, index, k, leafHash, aunts[..last])
        case None => None
        case Some(left) => Some(InnerHash(h, left, aunts[last]))
      else
        match ComputeRoot(h, index - k, total - k, leafHash, aunts[..last])
        case None => None
        case Some(right) => Some(InnerHash(h, aunts[last], right))
  }

  /** `Proof.Verify`. */
  predicate Verify(h: Checksum, proof: Proof, root: Bytes, leaf: Bytes) {
    && proof.total >= 0
    && proof.index >= 0
    && proof.leafHash == LeafHash(h, leaf)
    && ComputeRoot(h, proof.index, proof.total, proof.leafHash, proof.aunts) == Some(root)
  }

  /** Every generated proof verifies. */
  lemma {:induction false} GeneratedProofVerifies(h: Checksum, items: seq<Bytes>, i: nat)
    requires i < |items|
    ensures Verify(h, ProofFor(h, items, i), Root(h, items), items[i])
    decreases |items|
  {
    hide SplitPoint;
    if |items| <= 1 {
    } else {
      SplitPointBounds(|items|);
      var k := SplitPoint(|items|);
      var aunts := Aunts(h, items, i);
      if i < k {
        GeneratedProofVerifies(h, items[..k], i);
        assert aunts[..|aunts| - 1] == Aunts(h, items[..k], i);
      } else {
        GeneratedProofVerifies(h, items[k..], i - k);
        assert aunts[..|aunts| - 1] == Aunts(h, items[k..], i - k);
      }
    }
  }

  // ---------------------------------------------------------------- binding

  /** The strings hashed to build the tree. */
  function TreeInputs(h: Checksum, items: seq<Bytes>): set<Bytes>
    requires items != []
  {
    if |items| == 1 then {LEAF_PREFIX + items[0]}
    else
      SplitPointBounds(|items|);
      var k := SplitPoint(|items|);
      {INNER_PREFIX + Root(h, items[..k]) + Root(h, items[k..])} + TreeInputs(h, items[..k]) + TreeInputs(h, items[k..])
  }

  /** The strings hashed to check a proof. */
  function ProofInputs(h: Checksum, index: int, total: int, leaf: Bytes, aunts: seq<Bytes>): set<Bytes>
    decreases total
  {
    if index >= total || index < 0 || total <= 1 || aunts == [] then {LEAF_PREFIX + leaf}
    else
      SplitPointBounds(total);
      var k := SplitPoint(total);
      var last := |aunts| - 1;
      var (i, t) := if index < k then (index, k) else (index - k, total - k);
      var below := ProofInputs(h, i, t, leaf, aunts[..last]);
      match ComputeRoot(h, i, t, LeafHash(h, leaf), aunts[..last])
      case None => below
      case Some(c) => below + {if index < k then INNER_PREFIX + c + aunts[last] else INNER_PREFIX + aunts[last] + c}
  }

  /** The checksum does not collide on these strings. */
  ghost predicate NoCollision(h: Checksum, inputs: set<Bytes>) {
    forall x, y :: x in inputs && y in inputs && h(x) == h(y) ==> x == y
  }

  /** The turns from the root to a leaf; true is right. */
  function Path(index: int, total: int): seq<bool>
    requires 0 <= index < total
    decreases total
  {
    if total == 1 then []
    else
      SplitPointBounds(total);
      var k := SplitPoint(total);
      if index < k then [false] + Path(index, k) else [true] + Path(index - k, total - k)
  }

  lemma {:induction false} PathInjective(i: int, j: int, total: int)
    requires 0 <= i < total && 0 <= j < total && Path(i, total) == Path(j, total)
    ensures i == j
    decreases total
  {
    if total <= 1 {
    } else {
      SplitPointBounds(total);
      var k := SplitPoint(total);
      assert Path(i, total)[0] == Path(j, total)[0];
      assert Path(i, total)[1..] == Path(j, total)[1..];
      if i < k {
        PathInjective(i, j, k);
      } else {
        PathInjective(i - k, j - k, total - k);
      }
    }
  }

  lemma ComputedLength(h: Checksum, index: int, total: int, leaf: Bytes, aunts: seq<Bytes>)
    ensures var r := ComputeRoot(h, index, total, LeafHash(h, leaf), aunts); r.Some? ==> |r.value| == 32
  {
  }

  lemma PrefixesDiffer(x: Bytes, l: Bytes, r: Bytes)
    ensures LEAF_PREFIX + x != INNER_PREFIX + l + r
  {
    assert (LEAF_PREFIX + x)[0] == 0 && (INNER_PREFIX + l + r)[0] == 1;
  }

  lemma InnerParts(l: Bytes, r: Bytes, l': Bytes, r': Bytes)
    requires INNER_PREFIX + l + r == INNER_PREFIX + l' + r' && (|l| == |l'| || |r| == |r'|)
    ensures l == l' && r == r'
  {
    assert (INNER_PREFIX + l + r)[1..] == l + r;
    assert (INNER_PREFIX + l' + r')[1..] == l' + r';
    assert |l + r| == |l' + r'|;
    assert l == (l + r)[..|l|] && l' == (l' + r')[..|l'|];
    assert r == (l + r)[|l|..] && r' == (l' + r')[|l'|..];
  }

  /** Binding: a proof that computes the root, whatever total and index it claims, carries the item that
      lies on its path. */
  lemma {:induction false} Binding(h: Checksum, items: seq<Bytes>, index: int, total: int, leaf: Bytes,
                                   aunts: seq<Bytes>)
      returns (j: nat)
    requires items != [] && ComputeRoot(h, index, total, LeafHash(h, leaf), aunts) == Some(Root(h, items))
    requires NoCollision(h, TreeInputs(h, items) + ProofInputs(h, index, total, leaf, aunts))
    ensures 0 <= index < total && j < |items|
    ensures leaf == items[j] && Path(index, total) == Path(j, |items|)
    decreases total
  {
    if total == 1 {
      if |items| == 1 {
        assert LEAF_PREFIX + leaf == LEAF_PREFIX + items[0];
        assert (LEAF_PREFIX + leaf)[1..] == leaf && (LEAF_PREFIX + items[0])[1..] == items[0];
        j := 0;
      } else {
        SplitPointBounds(|items|);
        var k := SplitPoint(|items|);
        PrefixesDiffer(leaf, Root(h, items[..k]), Root(h, items[k..]));
        assert false;
      }
    } else {
      j := BindingInner(h, items, index, total, leaf, aunts);
    }
  }

  /** The step down from the top of a proof. */
  function Below(index: int, total: int): (int, int)
    requires total >= 2
  {
    var k := SplitPoint(total);
    if index < k then (index, k) else (index - k, total - k)
  }

  function Turn(index: int, total: int): bool
    requires total >= 2
  {
    index >= SplitPoint(total)
  }

  function InnerInput(right: bool, c: Bytes, aunt: Bytes): Bytes {
    if right then INNER_PREFIX + aunt + c else INNER_PREFIX + c + aunt
  }

  lemma ProofTop(h: Checksum, index: int, total: int, leaf: Bytes, aunts: seq<Bytes>) returns (c: Bytes)
    requires total != 1 && ComputeRoot(h, index, total, LeafHash(h, leaf), aunts).Some?
    ensures 0 <= index < total && total >= 2 && aunts != [] && |c| == 32
    ensures var (i, t) := Below(index, total);
            var rest, input := aunts[..|aunts| - 1], InnerInput(Turn(index, total), c, aunts[|aunts| - 1]);
            && 0 <= i < t < total
            && Path(index, total) == [Turn(index, total)] + Path(i, t)
            && ComputeRoot(h, i, t, LeafHash(h, leaf), rest) == Some(c)
            && ComputeRoot(h, index, total, LeafHash(h, leaf), aunts) == Some(h(input))
            && ProofInputs(h, index, total, leaf, aunts) == ProofInputs(h, i, t, leaf, rest) + {input}
  {
    hide ComputeRoot;
    hide Path;
    hide ProofInputs;
    hide SplitPoint;
    hide LeafHash;
    ComputeTop(h, index, total, LeafHash(h, leaf), aunts);
    PathTop(index, total);
    var (i, t) := Below(index, total);
    var rest := aunts[..|aunts| - 1];
    ComputedLength(h, i, t, leaf, rest);
    InputsTop(h, index, total, leaf, aunts);
    c := ComputeRoot(h, i, t, LeafHash(h, leaf), rest).value;
  }

  lemma ComputeTop(h: Checksum, index: int, total: int, leafHash: Bytes, aunts: seq<Bytes>)
    requires total != 1 && ComputeRoot(h, index, total, leafHash, aunts).Some?
    ensures 0 <= index < total && total >= 2 && aunts != []
    ensures var (i, t) := Below(index, total);
            var c := ComputeRoot(h, i, t, leafHash, aunts[..|aunts| - 1]);
            && c.Some?
            && ComputeRoot(h, index, total, leafHash, aunts) ==
               Some(h(InnerInput(Turn(index, total), c.value, aunts[|aunts| - 1])))
  {
    if total >= 2 {
      SplitPointBounds(total);
    }
    hide SplitPoint;
  }

  lemma PathTop(index: int, total: int)
    requires 0 <= index < total && total >= 2
    ensures var (i, t) := Below(index, total);
            0 <= i < t < total && Path(index, total) == [Turn(index, total)] + Path(i, t)
  {
    SplitPointBounds(total);
    hide SplitPoint;
  }

  lemma InputsTop(h: Checksum, index: int, total: int, leaf: Bytes, aunts: seq<Bytes>)
    requires 0 <= index < total && total >= 2 && aunts != []
    requires var (i, t) := Below(index, total); ComputeRoot(h, i, t, LeafHash(h, leaf), aunts[..|aunts| - 1]).Some?
    ensures var (i, t) := Below(index, total);
            var rest := aunts[..|aunts| - 1];
            var c := ComputeRoot(h, i, t, LeafHash(h, leaf), rest).value;
            ProofInputs(h, index, total, leaf, aunts) ==
            ProofInputs(h, i, t, leaf, rest) + {InnerInput(Turn(index, total), c, aunts[|aunts| - 1])}
  {
    SplitPointBounds(total);
    hide SplitPoint;
    hide ComputeRoot;
  }

  function Half(items: seq<Bytes>, right: bool): (r: seq<Bytes>)
    requires |items| >= 2
    ensures r != []
  {
    SplitPointBounds(|items|);
    if right then items[SplitPoint(|items|)..] else items[..SplitPoint(|items|)]
  }

  lemma TreeTop(h: Checksum, items: seq<Bytes>)
    requires |items| >= 2
    ensures var l, r := Half(items, false), Half(items, true);
            var input := INNER_PREFIX + Root(h, l) + Root(h, r);
            && Root(h, items) == h(input)
            && TreeInputs(h, items) == {input} + TreeInputs(h, l) + TreeInputs(h, r)
  {
    hide SplitPoint;
  }

  /** An item of a half is an item of the whole, one turn further down. */
  lemma HalfPath(items: seq<Bytes>, right: bool, j: nat) returns (j': nat)
    requires |items| >= 2 && j < |Half(items, right)|
    ensures j' < |items| && items[j'] == Half(items, right)[j]
    ensures Path(j', |items|) == [right] + Path(j, |Half(items, right)|)
  {
    SplitPointBounds(|items|);
    hide SplitPoint;
    j' := if right then j + SplitPoint(|items|) else j;
  }

  lemma {:induction false} BindingInner(h: Checksum, items: seq<Bytes>, index: int, total: int, leaf: Bytes,
                                        aunts: seq<Bytes>)
      returns (j: nat)
    requires items != [] && ComputeRoot(h, index, total, LeafHash(h, leaf), aunts) == Some(Root(h, items)) && total != 1
    requires NoCollision(h, TreeInputs(h, items) + ProofInputs(h, index, total, leaf, aunts))
    ensures 0 <= index < total && j < |items|
    ensures leaf == items[j] && Path(index, total) == Path(j, |items|)
    decreases total, 0
  {
    var c := ProofTop(h, index, total, leaf, aunts);
    var right, aunt := Turn(index, total), aunts[|aunts| - 1];
    var input := InnerInput(right, c, aunt);
    if |items| == 1 {
      if right {
        PrefixesDiffer(items[0], aunt, c);
      } else {
        PrefixesDiffer(items[0], c, aunt);
      }
      assert false;
    } else {
      TreeTop(h, items);
      hide ComputeRoot;
      hide ProofInputs;
      hide TreeInputs;
      hide Root;
      hide Path;
      hide Half;
      hide Turn;
      hide Below;
      var half := Half(items, right);
      var (i, t) := Below(index, total);
      assert input == INNER_PREFIX + Root(h, Half(items, false)) + Root(h, Half(items, true));
      if right {
        InnerParts(aunt, c, Root(h, Half(items, false)), Root(h, half));
      } else {
        InnerParts(c, aunt, Root(h, half), Root(h, Half(items, true)));
      }
      var k := Binding(h, half, i, t, leaf, aunts[..|aunts| - 1]);
      j := HalfPath(items, right, k);
    }
  }

  /** With the tree's own total, a verified proof is bound to its index. */
  lemma VerifiedLeaf(h: Checksum, items: seq<Bytes>, proof: Proof, leaf: Bytes)
    requires items != [] && Verify(h, proof, Root(h, items), leaf) && proof.total == |items|
    requires NoCollision(h, TreeInputs(h, items) + ProofInputs(h, proof.index, proof.total, leaf, proof.aunts))
    ensures proof.index < |items| && leaf == items[proof.index]
  {
    var j := Binding(h, items, proof.index, proof.total, leaf, proof.aunts);
    PathInjective(proof.index, j, |items|);
  }

  /** With another total it need not be: the last of three items verifies at index 1 of a tree of two. */
  lemma OtherTotal(h: Checksum, a: Bytes, b: Bytes, c: Bytes)
    ensures Verify(h, Proof(2, 1, LeafHash(h, c), [Root(h, [a, b])]), Root(h, [a, b, c]), c)
  {
    SplitPointUnique(3, 2) by { assert Pow2(1) == 2; }
    SplitPointUnique(2, 1) by { assert Pow2(0) == 1; }
    assert [a, b, c][..2] == [a, b] && [a, b, c][2..] == [c];
  }
}
