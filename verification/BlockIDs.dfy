/** Block identifiers and the string key a vote set files them under (types/block.go, types/part_set.go). */
module BlockIDs {
  import opened Prelude

  const MAX_BLOCK_PARTS := 104857600 / 65536 + 1

  datatype PartSetHeader = PartSetHeader(total: nat, hash: Bytes)

  /** `BlockID.Equals` compares every field by content, which is `==` here. */
  datatype BlockID = BlockID(hash: Bytes, parts: PartSetHeader, stateID: Bytes) {

    predicate IsNil() {
      hash == [] && parts == PartSetHeader(0, []) && stateID == []
    }

    predicate IsComplete() {
      |hash| == 32 && parts.total > 0 && |parts.hash| == 32 && |stateID| == 32
    }

    /** Hash and state ID are there. `ValidateBasic` demands this of every block ID with a hash. */
    predicate NamesBlock() {
      |hash| == 32 && |stateID| == 32
    }

    /** What `Vote.ValidateBasic` demands of a vote's block ID. */
    predicate Proper() {
      IsNil() || IsComplete()
    }

    /** Sizes only; a state ID is looked at when there is a hash. */
    predicate ValidateBasic() {
      && |hash| in {0, 32} && parts.total <= MAX_BLOCK_PARTS && |parts.hash| in {0, 32}
      && (hash != [] ==> |stateID| == 32)
    }

    /** Hash, protobuf part-set header and state ID, glued together without delimiters. */
    function Key(): Bytes {
      hash + Marshal(parts) + stateID
    }
  }

  /** Base-128 little-endian varint. */
  function Varint(n: nat): (r: Bytes)
    ensures r != []
  {
    if n < 128 then [n] else [128 + n % 128] + Varint(n / 128)
  }

  function HashField(hash: Bytes): Bytes {
    if hash != [] then [18] + Varint(|hash|) + hash else []
  }

  /** Protobuf encoding of `PartSetHeader{total = 1, hash = 2}`; zero fields are omitted. */
  function Marshal(h: PartSetHeader): Bytes {
    (if h.total != 0 then [8] + Varint(h.total) else []) + HashField(h.hash)
  }

  /** A varint ends itself: it and what follows can be told apart. */
  lemma {:induction false} VarintInjective(m: nat, x: Bytes, n: nat, y: Bytes)
    requires Varint(m) + x == Varint(n) + y
    ensures m == n && x == y
  {
    var a, b := Varint(m) + x, Varint(n) + y;
    assert a[0] == Varint(m)[0] && b[0] == Varint(n)[0];
    if m < 128 || n < 128 {
      assert x == a[1..] && y == b[1..];
    } else {
      assert Varint(m / 128) + x == a[1..] && Varint(n / 128) + y == b[1..];
      VarintInjective(m / 128, x, n / 128, y);
    }
  }

  lemma HashFieldInjective(x: Bytes, y: Bytes)
    requires HashField(x) == HashField(y)
    ensures x == y
  {
    if x != [] && y != [] {
      assert HashField(x)[1..] == Varint(|x|) + x && HashField(y)[1..] == Varint(|y|) + y;
      VarintInjective(|x|, x, |y|, y);
    }
  }

  /** The protobuf bytes determine the part-set header. */
  lemma MarshalInjective(a: PartSetHeader, b: PartSetHeader)
    requires Marshal(a) == Marshal(b)
    ensures a == b
  {
    hide Marshal;
    hide Varint;
    hide HashField;
    MarshalParts(a);
    MarshalParts(b);
    if a.total != 0 && b.total != 0 {
      VarintInjective(a.total, HashField(a.hash), b.total, HashField(b.hash));
    }
    HashFieldInjective(a.hash, b.hash);
  }

  /** The first byte tells whether there is a total. */
  lemma MarshalParts(h: PartSetHeader)
    ensures var x := Marshal(h);
            if h.total == 0 then x == HashField(h.hash) && (x == [] || x[0] == 18)
            else x != [] && x[0] == 8 && x[1..] == Varint(h.total) + HashField(h.hash)
  {
    hide Varint;
    if h.total == 0 {
      assert [] + HashField(h.hash) == HashField(h.hash);
    } else {
      assert [8] + Varint(h.total) + HashField(h.hash) == [8] + (Varint(h.total) + HashField(h.hash));
    }
  }

  /** On block IDs that are nil or name a block, the undelimited key identifies the block. */
  lemma KeyInjective(a: BlockID, b: BlockID)
    requires (a.IsNil() || a.NamesBlock()) && (b.IsNil() || b.NamesBlock())
    ensures a.Key() == b.Key() <==> a == b
  {
    if a.Key() == b.Key() && a.NamesBlock() && b.NamesBlock() {
      var k, n := a.Key(), |a.Key()|;
      assert a.hash == k[..32] && b.hash == k[..32];
      assert a.stateID == k[n - 32..] && b.stateID == k[n - 32..];
      assert Marshal(a.parts) == k[32..n - 32] && Marshal(b.parts) == k[32..n - 32];
      MarshalInjective(a.parts, b.parts);
    }
  }

  /** But every block ID with a hash shares its key with one that has none and that `BlockID.ValidateBasic` lets
      through: without a hash, the state ID may be anything. */
  lemma KeyCollision(a: BlockID)
    requires a.hash != []
    ensures var b := BlockID([], PartSetHeader(0, []), a.Key()); b.ValidateBasic() && b != a && b.Key() == a.Key()
  {
    var b := BlockID([], PartSetHeader(0, []), a.Key());
    assert Marshal(b.parts) == [];
    assert b.Key() == a.Key();
  }
}
