/** A block split into parts, gathered by proof and read back (types/part_set.go). */
module PartSets {
  import opened Prelude
  import opened BlockIDs
  import opened Merkle
  import opened Sorting

  datatype Part = Part(index: nat, bytes: Bytes, proof: Proof)

  type Slots = seq<Option<Part>>

  datatype State = State(total: nat, hash: Bytes, parts: Slots, bits: seq<bool>, count: int, byteSize: int) {
    predicate Complete() {
      count == total
    }
  }

  // ---------------------------------------------------------------- splitting

  function Chunks(data: Bytes, size: nat): (r: seq<Bytes>)
    requires size > 0
    decreases |data|
  {
    if data == [] then [] else [data[..Min(size, |data|)]] + Chunks(data[Min(size, |data|)..], size)
  }

  lemma {:induction false} FlattenChunks(data: Bytes, size: nat)
    requires size > 0
    ensures Flatten(Chunks(data, size)) == data
    decreases |data|
  {
    if data == [] {
    } else {
      var m := Min(size, |data|);
      FlattenChunks(data[m..], size);
      assert data == data[..m] + data[m..];
    }
  }

  lemma DivStep(x: nat, s: nat)
    requires s > 0
    ensures (x + s) / s == x / s + 1
  {
    assert x + s == s * (x / s + 1) + x % s;
    DivUnique(x + s, s, x / s + 1, x % s);
  }

  lemma {:induction false} MulGap(s: nat, a: nat, b: nat)
    ensures a < b ==> s * a + s <= s * b
  {
    if a + 1 < b {
      MulGap(s, a, b - 1);
      assert s * b == s * (b - 1) + s;
    } else if a + 1 == b {
      assert s * b == s * a + s;
    }
  }

  lemma DivUnique(x: nat, s: nat, q: nat, r: nat)
    requires s > 0 && r < s && x == s * q + r
    ensures x / s == q
  {
    var q', r' := x / s, x % s;
    assert x == s * q' + r' && 0 <= r' < s;
    MulGap(s, q, q');
    MulGap(s, q', q);
  }

  /** The number of parts the source computes is the number of chunks. */
  lemma {:induction false} NumChunks(data: Bytes, size: nat)
    requires size > 0
    ensures |Chunks(data, size)| == (|data| + size - 1) / size
    decreases |data|
  {
    if |data| > size {
      NumChunks(data[size..], size);
      DivStep(|data| - 1, size);
      assert |data| - size + size - 1 == |data| - 1;
    } else if data == [] {
      DivUnique(size - 1, size, 0, size - 1);
    } else {
      assert Chunks([], size) == [];
      DivUnique(|data| + size - 1, size, 1, |data| - 1);
    }
  }

  const UINT32 := 0x1_0000_0000

  /** The number of parts, computed in 32-bit arithmetic. */
  function NumParts(length: nat, size: nat): nat
    requires size > 0
  {
    ((length % UINT32 + size - 1) % UINT32) / size
  }

  lemma DivMonotone(a: nat, b: nat, s: nat)
    requires s > 0 && a <= b
    ensures a / s <= b / s && s * (a / s) <= a
  {
    MulGap(s, b / s, a / s);
  }

  lemma DivSmall(a: nat, s: nat)
    requires a < s
    ensures a / s == 0
  {
    DivUnique(a, s, 0, a);
  }

  lemma CountFits(n: nat, size: nat)
    requires 0 < size < UINT32 && n + size <= UINT32
    ensures NumParts(n, size) == (n + size - 1) / size
  {
    Wrapped(n);
    Wrapped(n + size - 1);
  }

  /** 32-bit wrap-around of what is below twice the range. */
  lemma Wrapped(x: nat)
    requires x < 2 * UINT32
    ensures x % UINT32 == if x < UINT32 then x else x - UINT32
  {
  }

  lemma CountWraps(n: nat, size: nat)
    requires 0 < size < UINT32 && n < UINT32 < n + size
    ensures NumParts(n, size) == 0 < (n + size - 1) / size
  {
    Wrapped(n);
    Wrapped(n + size - 1);
    DivSmall(n + size - 1 - UINT32, size);
    DivMonotone(size, n + size - 1, size);
    DivUnique(size, size, 1, 0);
  }

  lemma CountTruncates(n: nat, size: nat)
    requires 0 < size < UINT32 <= n
    ensures NumParts(n, size) < (n + size - 1) / size
  {
    CountBounded(n, size);
    ChunksCover(n, size);
    MulGap(size, (n + size - 1) / size, NumParts(n, size));
  }

  lemma CountBounded(n: nat, size: nat)
    requires size > 0
    ensures size * NumParts(n, size) < UINT32
  {
    var w := (n % UINT32 + size - 1) % UINT32;
    DivMonotone(w, w, size);
  }

  /** There are never more parts than chunks, no index overflows, and no chunk is lost if and only if the length
      and the part size together fit 32 bits. */
  lemma NumPartsExact(data: Bytes, size: nat)
    requires 0 < size < UINT32
    ensures NumParts(|data|, size) <= |Chunks(data, size)| && size * NumParts(|data|, size) < UINT32
    ensures NumParts(|data|, size) == |Chunks(data, size)| <==> |data| + size <= UINT32
  {
    hide NumParts;
    NumChunks(data, size);
    CountBounded(|data|, size);
    if |data| + size <= UINT32 {
      CountFits(|data|, size);
    } else if |data| < UINT32 {
      CountWraps(|data|, size);
    } else {
      CountTruncates(|data|, size);
    }
  }

  lemma ChunksCover(n: nat, size: nat)
    requires size > 0
    ensures size * ((n + size - 1) / size) >= n
  {
    var q, r := (n + size - 1) / size, (n + size - 1) % size;
    assert n + size - 1 == size * q + r;
  }

  function OriginalPart(h: Checksum, items: seq<Bytes>, i: nat): Part
    requires i < |items|
  {
    Part(i, items[i], ProofFor(h, items, i))
  }

  /** What `NewPartSetFromData` builds. */
  function FromItems(h: Checksum, items: seq<Bytes>): State {
    State(|items|, Root(h, items), seq(|items|, i requires 0 <= i < |items| => Some(OriginalPart(h, items, i))),
          seq(|items|, _ => true), |items|, |Flatten(items)|)
  }

  /** What `NewPartSetFromHeader` builds. */
  function Empty(header: PartSetHeader): State {
    State(header.total, header.hash, seq(header.total, _ => None), seq(header.total, _ => false), 0, 0)
  }

  // ---------------------------------------------------------------- gathering

  datatype AddError = UnexpectedIndex | IndexMismatch | InvalidProof

  /** `AddPart`. */
  function AddPart(h: Checksum, s: State, p: Part): (State, Result<bool, AddError>)
    requires |s.parts| == |s.bits| == s.total
  {
    if p.index >= s.total then (s, Err(UnexpectedIndex))
    else if p.index != p.proof.index then (s, Err(IndexMismatch))
    else if s.parts[p.index].Some? then (s, Ok(false))
    else if !Verify(h, p.proof, s.hash, p.bytes) then (s, Err(InvalidProof))
    else
      (s.(parts := s.parts[p.index := Some(p)], bits := s.bits[p.index := true], count := s.count + 1,
          byteSize := s.byteSize + |p.bytes|), Ok(true))
  }

  /** Each error says what is wrong with the part, and changes nothing. */
  lemma RefusedBecause(h: Checksum, s: State, p: Part)
    requires |s.parts| == |s.bits| == s.total && AddPart(h, s, p).1.Err?
    ensures AddPart(h, s, p).0 == s
    ensures var e := AddPart(h, s, p).1.error;
            && (e == UnexpectedIndex <==> p.index >= s.total)
            && (e == IndexMismatch ==> p.index != p.proof.index)
            && (e == InvalidProof ==> !Verify(h, p.proof, s.hash, p.bytes) && s.parts[p.index].None?)
  {
  }

  function CountOf(parts: Slots): nat {
    if parts == [] then 0 else (if parts[0].Some? then 1 else 0) + CountOf(parts[1..])
  }

  function SizeOf(parts: Slots): nat {
    if parts == [] then 0 else (if parts[0].Some? then |parts[0].value.bytes| else 0) + SizeOf(parts[1..])
  }

  lemma {:induction false} StoreCounts(parts: Slots, i: nat, p: Part)
    requires i < |parts| && parts[i].None?
    ensures CountOf(parts[i := Some(p)]) == CountOf(parts) + 1
    ensures SizeOf(parts[i := Some(p)]) == SizeOf(parts) + |p.bytes|
  {
    if i == 0 {
      assert parts[0 := Some(p)][1..] == parts[1..];
    } else {
      assert parts[i := Some(p)][1..] == parts[1..][i - 1 := Some(p)];
      StoreCounts(parts[1..], i - 1, p);
    }
  }

  /** Count, bit array and byte size agree with the stored parts, and every stored part is proved. */
  ghost predicate Valid(h: Checksum, s: State) {
    && |s.parts| == |s.bits| == s.total
    && (forall i :: 0 <= i < s.total ==> (s.bits[i] <==> s.parts[i].Some?))
    && s.count == CountOf(s.parts)
    && s.byteSize == SizeOf(s.parts)
    && forall i :: 0 <= i < s.total && s.parts[i].Some? ==>
         var p := s.parts[i].value; p.index == i == p.proof.index && Verify(h, p.proof, s.hash, p.bytes)
  }

  lemma {:induction false} NoneStored(n: nat)
    ensures CountOf(seq(n, _ => None)) == 0 == SizeOf(seq(n, _ => None))
  {
    if n == 0 {
    } else {
      var s: Slots := seq(n, _ => None);
      assert s[1..] == seq(n - 1, _ => None);
      NoneStored(n - 1);
    }
  }

  lemma EmptyValid(h: Checksum, header: PartSetHeader)
    ensures Valid(h, Empty(header))
  {
    NoneStored(header.total);
  }

  lemma AddPartValid(h: Checksum, s: State, p: Part)
    requires Valid(h, s)
    ensures Valid(h, AddPart(h, s, p).0)
  {
    if p.index < s.total && s.parts[p.index].None? {
      StoreCounts(s.parts, p.index, p);
    }
  }

  /** Complete means that every slot is filled. */
  lemma {:induction false} FullCount(parts: Slots)
    ensures CountOf(parts) <= |parts|
    ensures CountOf(parts) == |parts| <==> forall i :: 0 <= i < |parts| ==> parts[i].Some?
  {
    if parts == [] {
    } else {
      FullCount(parts[1..]);
      if forall i :: 0 <= i < |parts[1..]| ==> parts[1..][i].Some? {
        assert forall i :: 1 <= i < |parts| ==> parts[i] == parts[1..][i - 1];
      } else {
        var i :| 0 <= i < |parts[1..]| && parts[1..][i].None?;
        assert parts[i + 1].None?;
      }
    }
  }

  /** A run of offered parts, accepted or not. */
  function Gather(h: Checksum, s: State, offers: seq<Part>): (r: State)
    requires |s.parts| == |s.bits| == s.total
    ensures |r.parts| == |r.bits| == r.total == s.total && r.hash == s.hash
  {
    if offers == [] then s else AddPart(h, Gather(h, s, offers[..|offers| - 1]), offers[|offers| - 1]).0
  }

  lemma {:induction false} GatherValid(h: Checksum, s: State, offers: seq<Part>)
    requires Valid(h, s)
    ensures Valid(h, Gather(h, s, offers))
  {
    if offers == [] {
    } else {
      var n := |offers| - 1;
      GatherValid(h, s, offers[..n]);
      AddPartValid(h, Gather(h, s, offers[..n]), offers[n]);
    }
  }

  /** The offers that are taken. */
  function Taken(h: Checksum, s: State, offers: seq<Part>): nat
    requires |s.parts| == |s.bits| == s.total
  {
    if offers == [] then 0
    else
      var n := |offers| - 1;
      Taken(h, s, offers[..n]) + if AddPart(h, Gather(h, s, offers[..n]), offers[n]).1 == Ok(true) then 1 else 0
  }

  /** The count grows with every part that is said to be taken, and with no other. */
  lemma {:induction false} TakenCounts(h: Checksum, s: State, offers: seq<Part>)
    requires |s.parts| == |s.bits| == s.total
    ensures Gather(h, s, offers).count == s.count + Taken(h, s, offers)
  {
    if offers == [] {
    } else {
      TakenCounts(h, s, offers[..|offers| - 1]);
    }
  }

  /** A part that was taken is known from then on: offered again, at any time, it is neither taken nor an error. */
  lemma TakenOnce(h: Checksum, s: State, p: Part, offers: seq<Part>)
    requires Valid(h, s) && AddPart(h, s, p).1 == Ok(true)
    ensures var s' := Gather(h, AddPart(h, s, p).0, offers); AddPart(h, s', p) == (s', Ok(false))
  {
    AddPartValid(h, s, p);
    GatherKeeps(h, AddPart(h, s, p).0, offers, p.index);
  }

  /** A stored part stays, and only offered parts get stored. */
  lemma {:induction false} GatherKeeps(h: Checksum, s: State, offers: seq<Part>, i: nat)
    requires Valid(h, s) && i < s.total
    ensures s.parts[i].Some? ==> Gather(h, s, offers).parts[i] == s.parts[i]
    ensures s.parts[i].None? && Gather(h, s, offers).parts[i].Some? ==> Gather(h, s, offers).parts[i].value in offers
  {
    if offers == [] {
    } else {
      GatherKeeps(h, s, offers[..|offers| - 1], i);
    }
  }

  /** An original part that is offered ends up with its slot filled, whatever else is offered. */
  lemma {:induction false} OfferedSlotFilled(h: Checksum, items: seq<Bytes>, s: State, offers: seq<Part>, i: nat)
    requires Valid(h, s) && s.total == |items| && s.hash == Root(h, items)
    requires i < |items| && OriginalPart(h, items, i) in offers
    ensures Gather(h, s, offers).parts[i].Some?
  {
    var n := |offers| - 1;
    GatherValid(h, s, offers[..n]);
    if offers[n] == OriginalPart(h, items, i) {
      GeneratedProofVerifies(h, items, i);
    } else {
      OfferedSlotFilled(h, items, s, offers[..n], i);
    }
  }

  /** The checksum does not collide on what is hashed to build the tree and check the part. */
  ghost predicate Collisionless(h: Checksum, items: seq<Bytes>, p: Part)
    requires items != []
  {
    NoCollision(h, TreeInputs(h, items) + ProofInputs(h, p.proof.index, p.proof.total, p.bytes, p.proof.aunts))
  }

  /** The total a part's proof claims leads from its index to the same leaf as the true total does, which may
      well be another number. */
  predicate LeadsHome(total: nat, proof: Proof) {
    0 <= proof.index < total ==>
      proof.index < proof.total && Path(proof.index, proof.total) == Path(proof.index, total)
  }

  /** If the proof of a part computes the root, then it leads to the leaf at its index and no collision made it
      so. Nothing is asked of parts whose proofs fail. */
  ghost predicate Sound(h: Checksum, items: seq<Bytes>, p: Part)
    requires items != []
  {
    Verify(h, p.proof, Root(h, items), p.bytes) ==> LeadsHome(|items|, p.proof) && Collisionless(h, items, p)
  }

  /** A verified proof that leads home carries the item at its index. */
  lemma HomeLeaf(h: Checksum, items: seq<Bytes>, p: Part)
    requires items != [] && 0 <= p.proof.index < |items| && Verify(h, p.proof, Root(h, items), p.bytes)
    requires LeadsHome(|items|, p.proof) && Collisionless(h, items, p)
    ensures p.bytes == items[p.proof.index]
  {
    hide Path;
    hide ComputeRoot;
    hide Root;
    hide TreeInputs;
    hide ProofInputs;
    var j := Binding(h, items, p.proof.index, p.proof.total, p.bytes, p.proof.aunts);
    PathInjective(p.proof.index, j, |items|);
  }

  function Header(h: Checksum, items: seq<Bytes>): PartSetHeader {
    PartSetHeader(|items|, Root(h, items))
  }

  /** Every stored part is the original at its index. */
  lemma GatheredPart(h: Checksum, items: seq<Bytes>, offers: seq<Part>, i: nat)
    requires items != [] && (forall p :: p in offers ==> Sound(h, items, p)) && i < |items|
    ensures var s := Gather(h, Empty(Header(h, items)), offers); s.parts[i].Some? ==> s.parts[i].value.bytes == items[i]
  {
    var s0 := Empty(Header(h, items));
    var s := Gather(h, s0, offers);
    EmptyValid(h, Header(h, items));
    GatherValid(h, s0, offers);
    GatherKeeps(h, s0, offers, i);
    if s.parts[i].Some? {
      var p := s.parts[i].value;
      HomeLeaf(h, items, p);
    }
  }

  function Contents(parts: Slots): (r: seq<Bytes>)
    requires forall i :: 0 <= i < |parts| ==> parts[i].Some?
    ensures |r| == |parts|
  {
    seq(|parts|, i requires 0 <= i < |parts| => parts[i].value.bytes)
  }

  lemma {:induction false} ContentsSize(parts: Slots)
    requires forall i :: 0 <= i < |parts| ==> parts[i].Some?
    ensures SizeOf(parts) == |Flatten(Contents(parts))|
  {
    if parts == [] {
    } else {
      ContentsSize(parts[1..]);
      assert Contents(parts)[1..] == Contents(parts[1..]);
    }
  }

  /** Split, then gather in any order among arbitrary duplicates and rejected parts: once every original
      part has been offered the set is complete, and whenever it is complete it holds the data. */
  lemma SplitGather(h: Checksum, data: Bytes, size: nat, offers: seq<Part>)
    requires data != [] && size > 0
    requires forall p :: p in offers ==> Sound(h, Chunks(data, size), p)
    ensures var items := Chunks(data, size);
            var s := Gather(h, Empty(Header(h, items)), offers);
            && Valid(h, s)
            && ((forall i :: 0 <= i < |items| ==> OriginalPart(h, items, i) in offers) ==> s.Complete())
            && (s.Complete() ==>
                  && (forall i :: 0 <= i < |s.parts| ==> s.parts[i].Some?)
                  && Flatten(Contents(s.parts)) == data && s.byteSize == |data|)
  {
    var items := Chunks(data, size);
    var s0 := Empty(Header(h, items));
    var s := Gather(h, s0, offers);
    EmptyValid(h, Header(h, items));
    GatherValid(h, s0, offers);
    FullCount(s.parts);
    if forall i :: 0 <= i < |items| ==> OriginalPart(h, items, i) in offers {
      forall i | 0 <= i < |items|
        ensures s.parts[i].Some?
      {
        OfferedSlotFilled(h, items, s0, offers, i);
      }
    }
    if s.Complete() {
      forall i | 0 <= i < |items|
        ensures Contents(s.parts)[i] == items[i]
      {
        GatheredPart(h, items, offers, i);
      }
      assert Contents(s.parts) == items;
      FlattenChunks(data, size);
      ContentsSize(s.parts);
    }
  }

  /** A set built from data is complete and valid. */
  lemma FromItemsValid(h: Checksum, items: seq<Bytes>)
    ensures Valid(h, FromItems(h, items)) && FromItems(h, items).Complete()
  {
    var s := FromItems(h, items);
    FullCount(s.parts);
    ContentsSize(s.parts);
    assert Contents(s.parts) == items;
    forall i | 0 <= i < |items|
      ensures Verify(h, s.parts[i].value.proof, s.hash, items[i])
    {
      GeneratedProofVerifies(h, items, i);
    }
  }

  /** `AddPart` does not compare the proof's total with its own: with another total the last of three
      parts is stored as the second. */
  lemma TotalNotChecked(h: Checksum, a: Bytes, b: Bytes, c: Bytes)
    ensures var items := [a, b, c];
            var p := Part(1, c, Proof(2, 1, LeafHash(h, c), [Root(h, [a, b])]));
            var (s, r) := AddPart(h, Empty(Header(h, items)), p);
            r == Ok(true) && s.parts[1] == Some(p) && p.bytes == items[2]
  {
    OtherTotal(h, a, b, c);
  }

  /** Which item an accepted part carries, whatever total its proof claims: over distinct items it is the one at
      the part's index if and only if the proof's total leads there. */
  lemma AcceptedIff(h: Checksum, items: seq<Bytes>, p: Part)
    requires items != [] && Distinct(items) && p.index < |items|
    requires AddPart(h, Empty(Header(h, items)), p).1 == Ok(true) && Collisionless(h, items, p)
    ensures p.bytes == items[p.index] <==> LeadsHome(|items|, p.proof)
  {
    hide Path;
    hide ComputeRoot;
    hide Root;
    hide TreeInputs;
    hide ProofInputs;
    hide AddPart;
    AcceptedProof(h, Empty(Header(h, items)), p);
    var j := Binding(h, items, p.proof.index, p.proof.total, p.bytes, p.proof.aunts);
    if LeadsHome(|items|, p.proof) {
      HomeLeaf(h, items, p);
    }
  }

  lemma AcceptedProof(h: Checksum, s: State, p: Part)
    requires |s.parts| == |s.bits| == s.total && AddPart(h, s, p).1 == Ok(true)
    ensures p.index == p.proof.index && Verify(h, p.proof, s.hash, p.bytes)
  {
  }
}
