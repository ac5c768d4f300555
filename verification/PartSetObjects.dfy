/** `PartSet` and its reader as objects (types/part_set.go). */
module PartSetObjects {
  import opened Prelude
  import opened BlockIDs
  import opened Merkle
  import opened PartSets

  class PartSet {
    const h: Checksum
    const total: nat
    const hash: Bytes
    var parts: Slots
    var bits: seq<bool>
    var count: int
    var byteSize: int

    function Value(): State
      reads this
    {
      State(total, hash, parts, bits, count, byteSize)
    }

    /** `NewPartSetFromData`: as many chunks as 32-bit arithmetic counts, which are all of them if and only if the
        data length and the part size together fit 32 bits. */
    constructor FromData(h: Checksum, data: Bytes, partSize: nat)
      requires 0 < partSize < UINT32
      ensures this.h == h && NumParts(|data|, partSize) <= |Chunks(data, partSize)|
      ensures Value() == FromItems(h, Chunks(data, partSize)[..NumParts(|data|, partSize)]).(byteSize := |data|)
      ensures |data| + partSize <= UINT32 ==> Value() == FromItems(h, Chunks(data, partSize))
    {
      var total := ((|data| % UINT32 + partSize - 1) % UINT32) / partSize;
      NumPartsExact(data, partSize);
      FlattenChunks(data, partSize);
      var items := Slices(data, partSize, total);
      assert Chunks(data, partSize)[..|Chunks(data, partSize)|] == Chunks(data, partSize);
      this.h := h;
      this.total := total;
      this.hash := Root(h, items);
      this.parts := seq(total, i requires 0 <= i < total => Some(Part(i, items[i], ProofFor(h, items, i))));
      this.bits := seq(total, _ => true);
      this.count := total;
      this.byteSize := |data|;
    }

    /** `NewPartSetFromHeader`. */
    constructor FromHeader(h: Checksum, header: PartSetHeader)
      ensures this.h == h && Value() == Empty(header) && Valid(h, Value())
    {
      this.h := h;
      this.total := header.total;
      this.hash := header.hash;
      this.parts := seq(header.total, _ => None);
      this.bits := seq(header.total, _ => false);
      this.count := 0;
      this.byteSize := 0;
      EmptyValid(h, header);
    }

    method AddPart(p: Part) returns (r: Result<bool, AddError>)
      requires Valid(h, Value())
      modifies this
      ensures Valid(h, Value()) && (Value(), r) == PartSets.AddPart(h, old(Value()), p)
    {
      AddPartValid(h, Value(), p);
      if p.index >= total {
        return Err(UnexpectedIndex);
      }
      if p.index != p.proof.index {
        return Err(IndexMismatch);
      }
      if parts[p.index].Some? {
        return Ok(false);
      }
      if !Verify(h, p.proof, hash, p.bytes) {
        return Err(InvalidProof);
      }
      parts := parts[p.index := Some(p)];
      bits := bits[p.index := true];
      count := count + 1;
      byteSize := byteSize + |p.bytes|;
      return Ok(true);
    }

    /** `GetReader`; it panics on an incomplete set, and on one without parts. */
    method GetReader() returns (r: PartSetReader)
      requires Valid(h, Value()) && count == total > 0
      ensures fresh(r) && (forall i :: 0 <= i < |parts| ==> parts[i].Some?) && r.Remaining() == Flatten(Contents(parts))
    {
      FullCount(parts);
      r := new PartSetReader(Contents(parts));
    }
  }

  lemma ChunkStep(data: Bytes, size: nat, off: nat)
    requires size > 0 && off < |data|
    ensures Chunks(data[off..], size) ==
            [data[off..Min(|data|, off + size)]] + Chunks(data[Min(|data|, off + size)..], size)
  {
    var d := data[off..];
    var m := Min(size, |d|);
    assert d[..m] == data[off..Min(|data|, off + size)];
    assert d[m..] == data[Min(|data|, off + size)..];
  }

  lemma SomeLeft(data: Bytes, size: nat, off: nat)
    requires size > 0
    ensures Chunks(data[Min(|data|, off)..], size) == [] <==> off >= |data|
  {
  }

  /** The slicing loop of `NewPartSetFromData`: part `i` starts at `i * partSize`, and that never overflows. */
  method Slices(data: Bytes, partSize: nat, total: nat) returns (items: seq<Bytes>)
    requires partSize > 0 && total <= |Chunks(data, partSize)| && partSize * total < UINT32
    ensures items == Chunks(data, partSize)[..total]
  {
    hide Chunks;
    items := [];
    assert data[0..] == data;
    ghost var all := Chunks(data, partSize);
    for i := 0 to total
      invariant |items| == i && items + Chunks(data[Min(|data|, i * partSize)..], partSize) == all
    {
      var off := i * partSize;
      assert (i + 1) * partSize == off + partSize;
      MulGap(partSize, i, total);
      assert (off + partSize) % UINT32 == off + partSize;
      ghost var left := Chunks(data[Min(|data|, off)..], partSize);
      assert |left| == |all| - i;
      SomeLeft(data, partSize, off);
      ChunkStep(data, partSize, off);
      items := items + [data[off..Min(|data|, off + partSize)]];
    }
    assert all[..total] == items;
  }

  lemma {:induction false} FlattenFirst(chunks: seq<Bytes>, i: nat)
    requires i < |chunks|
    ensures Flatten(chunks[i..]) == chunks[i] + Flatten(chunks[i + 1..])
  {
    assert chunks[i..][1..] == chunks[i + 1..];
  }

  /** `PartSetReader`: a cursor over the parts and a reader of the current one. */
  class PartSetReader {
    const parts: seq<Bytes>
    var i: nat
    var rest: Bytes

    function Remaining(): Bytes
      reads this
    {
      rest + if i + 1 <= |parts| then Flatten(parts[i + 1..]) else []
    }

    constructor (parts: seq<Bytes>)
      requires parts != []
      ensures this.parts == parts && Remaining() == Flatten(parts)
    {
      this.parts := parts;
      this.i := 0;
      this.rest := parts[0];
    }

    /** `Read` into a buffer of `m` bytes: as much as is left, up to `m`, and end of file when that is
        less than `m`. An empty buffer gets end of file as soon as the current part is used up. */
    method Read(m: nat) returns (out: Bytes, eof: bool)
      modifies this
      ensures var n := Min(m, |old(Remaining())|);
              out == old(Remaining())[..n] && Remaining() == old(Remaining())[n..]
      ensures eof <==> if m == 0 then old(rest) == [] else |old(Remaining())| < m
      decreases m, |parts| - i
    {
      hide Flatten;
      FlattenNone();
      if |rest| >= m {
        TakeFront(rest, Remaining()[|rest|..], m);
        if rest == [] {
          return [], true;
        }
        out := rest[..m];
        rest := rest[m..];
        return out, false;
      }
      if |rest| > 0 {
        ghost var all := Remaining();
        var first, e := Read(|rest|);
        var second;
        second, eof := Read(m - |first|);
        TakeTwice(all, |first|, m);
        return first + second, eof;
      }
      assert parts[|parts|..] == [];
      i := i + 1;
      if i >= |parts| {
        return [], true;
      }
      FlattenFirst(parts, i);
      rest := parts[i];
      out, eof := Read(m);
    }
  }

  lemma FlattenNone()
    ensures Flatten([]) == []
  {
  }

  lemma TakeFront(x: Bytes, y: Bytes, m: nat)
    requires m <= |x|
    ensures (x + y)[..m] == x[..m] && (x + y)[m..] == x[m..] + y
  {
  }

  /** Taking `k` and then up to `m - k` more is taking up to `m`. */
  lemma TakeTwice(s: Bytes, k: nat, m: nat)
    requires k <= m && k <= |s|
    ensures var n, n' := Min(m, |s|), Min(m - k, |s[k..]|);
            s[..k] + s[k..][..n'] == s[..n] && s[k..][n'..] == s[n..]
  {
  }

  function Total(buffers: seq<nat>): nat {
    if buffers == [] then 0 else Total(buffers[..|buffers| - 1]) + buffers[|buffers| - 1]
  }

  /** Reading with any non-empty buffers until end of file returns everything, in order; end of file
      comes exactly when the buffers hold more than there is. */
  method ReadAll(r: PartSetReader, buffers: seq<nat>) returns (out: Bytes, eof: bool)
    requires forall k :: 0 <= k < |buffers| ==> buffers[k] > 0
    modifies r
    ensures eof ==> out == old(r.Remaining())
    ensures !eof ==> |out| == Total(buffers) && out + r.Remaining() == old(r.Remaining())
    ensures Total(buffers) > |old(r.Remaining())| ==> eof
  {
    out, eof := [], false;
    for k := 0 to |buffers|
      invariant out + r.Remaining() == old(r.Remaining()) && !eof
      invariant |out| == Total(buffers[..k])
    {
      var more;
      more, eof := r.Read(buffers[k]);
      out := out + more;
      if eof {
        return;
      }
      assert buffers[..k + 1][..k] == buffers[..k];
    }
    assert buffers[..|buffers|] == buffers;
  }

  /** A block's way from its proposer to another node: split, offered in any order among duplicates and rejected
      parts, and read back once the set is complete. Nothing is read before. */
  method SendAndReceive(h: Checksum, data: Bytes, partSize: nat, offers: seq<Part>, buffers: seq<nat>)
      returns (received: Option<Bytes>, eof: bool)
    requires data != [] && 0 < partSize && |data| + partSize <= UINT32
    requires forall p :: p in offers ==> Sound(h, Chunks(data, partSize), p)
    requires forall k :: 0 <= k < |buffers| ==> buffers[k] > 0
    ensures received.Some? && eof ==> received.value == data
    ensures received.Some? && Total(buffers) > |data| ==> eof
    ensures (forall i :: 0 <= i < |Chunks(data, partSize)| ==> OriginalPart(h, Chunks(data, partSize), i) in offers) ==>
              received.Some?
  {
    hide Chunks;
    hide Root;
    hide ProofFor;
    hide Sound;
    hide Flatten;
    var sent := new PartSet.FromData(h, data, partSize);
    var got := new PartSet.FromHeader(h, PartSetHeader(sent.total, sent.hash));
    ghost var header := Header(h, Chunks(data, partSize));
    for k := 0 to |offers|
      invariant got.h == h && Valid(h, got.Value()) && got.Value() == Gather(h, Empty(header), offers[..k])
    {
      var _ := got.AddPart(offers[k]);
      assert offers[..k + 1][..k] == offers[..k];
    }
    assert offers[..|offers|] == offers;
    SplitGather(h, data, partSize, offers);
    if got.count != got.total {
      return None, false;
    }
    ChunksSome(data, partSize);
    var r := got.GetReader();
    var out;
    out, eof := ReadAll(r, buffers);
    return Some(out), eof;
  }

  lemma ChunksSome(data: Bytes, size: nat)
    requires data != [] && size > 0
    ensures Chunks(data, size) != []
  {
  }
}
