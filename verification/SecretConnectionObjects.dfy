/** `SecretConnection` as an object over two byte pipes (privval/secret_connection.go). */
module SecretConnectionObjects {
  import opened Prelude
  import opened Signing
  import opened Model = SecretConnections

  /** One direction of the underlying connection: the bytes not yet read. */
  class Pipe {
    var bytes: Bytes

    constructor ()
      ensures bytes == []
    {
      bytes := [];
    }
  }

  ghost predicate GoodNonce(nonce: Bytes) {
    |nonce| == 12 && Counter(nonce) <= MAX_COUNTER && nonce == Nonce(Counter(nonce))
  }

  /** `incrNonce`: the next nonce, or an error instead of wrapping around. */
  method IncrNonce(nonce: Bytes) returns (r: Option<Bytes>)
    requires GoodNonce(nonce)
    ensures r.None? <==> Counter(nonce) == MAX_COUNTER
    ensures r.Some? ==> GoodNonce(r.value) && Counter(r.value) == Counter(nonce) + 1
  {
    hide Number;
    hide LittleEndian;
    var counter := Number(nonce[4..]);
    if counter == MAX_COUNTER {
      return None;
    }
    NonceRoundTrip(counter + 1);
    r := Some(nonce[..4] + LittleEndian(counter + 1, 8));
    assert nonce[..4] == ZEROS;
  }

  lemma WireOne(a: Aead, key: Key, from: nat, done: seq<Piece>, p: Piece)
    ensures Wire(a, key, from, done + [p]) == Wire(a, key, from, done) + a.seal(key, Nonce(from + |done|), FrameOf(p))
    ensures Payload(done + [p]) == Payload(done) + p.chunk
  {
    WireAppend(a, key, from, done, [p]);
    PayloadAppend(done, [p]);
    assert Chunks([p]) == [p.chunk];
    assert SealAll(a, key, from + |done|, [p]) == [a.seal(key, Nonce(from + |done|), FrameOf(p))];
    FlattenOne(p.chunk);
    FlattenOne(a.seal(key, Nonce(from + |done|), FrameOf(p)));
  }

  lemma FlattenOne(x: Bytes)
    ensures Flatten([x]) == x
  {
    assert Flatten([x]) == x + Flatten([]);
  }

  /** After some chunks of a `Write`: `done` went out, `d` is left. */
  ghost predicate Progress(a: Aead, key: Key, from: nat, before: Bytes, data: Bytes, pool: Pool,
                           done: seq<Piece>, d: Bytes, bytes: Bytes, n: nat)
  {
    && Pieces(data, pool, 0) == done + Pieces(d, pool, |done|)
    && bytes == before + Wire(a, key, from, done)
    && n == |Payload(done)|
  }

  lemma ProgressStart(a: Aead, key: Key, from: nat, before: Bytes, data: Bytes, pool: Pool)
    ensures Progress(a, key, from, before, data, pool, [], data, before, 0)
  {
    assert Wire(a, key, from, []) == [] && Payload([]) == [];
  }

  lemma ProgressStep(a: Aead, key: Key, from: nat, before: Bytes, data: Bytes, pool: Pool,
                     done: seq<Piece>, d: Bytes, bytes: Bytes, n: nat)
    requires d != [] && Progress(a, key, from, before, data, pool, done, d, bytes, n)
    ensures var k := FirstChunk(d);
            var p := FirstPiece(d, pool, |done|);
            Progress(a, key, from, before, data, pool, done + [p], d[k..],
                     bytes + a.seal(key, Nonce(from + |done|), FrameOf(p)), n + |p.chunk|)
  {
    var k, p := FirstChunk(d), FirstPiece(d, pool, |done|);
    assert Pieces(d, pool, |done|) == [p] + Pieces(d[k..], pool, |done| + 1);
    hide Wire;
    hide Payload;
    hide Pieces;
    hide FrameOf;
    hide Nonce;
    WireOne(a, key, from, done, p);
    Assoc(before, Wire(a, key, from, done), a.seal(key, Nonce(from + |done|), FrameOf(p)));
    Assoc(done, [p], Pieces(d[k..], pool, |done| + 1));
  }

  lemma SentIs(from: nat, data: Bytes, pool: Pool, done: seq<Piece>, d: Bytes)
    requires Pieces(data, pool, 0) == done + Pieces(d, pool, |done|)
    requires from + |done| <= MAX_COUNTER && (d == [] || from + |done| == MAX_COUNTER)
    ensures done == Sent(from, data, pool)
    ensures d == [] <==> done == Pieces(data, pool, 0)
  {
    var all := Pieces(data, pool, 0);
    assert all[..|done|] == done;
    assert all[..|all|] == all;
  }

  class SecretConnection {
    const a: Aead
    const secrets: Secrets
    const outward: Pipe
    const inward: Pipe
    var sendNonce: Bytes
    var recvNonce: Bytes
    var recvBuffer: Bytes

    ghost predicate Valid()
      reads this
    {
      outward != inward && GoodNonce(sendNonce) && GoodNonce(recvNonce)
    }

    function Receiving(): Receiver
      requires |recvNonce| == 12
      reads this, inward
    {
      Receiver(Counter(recvNonce), recvBuffer, inward.bytes)
    }

    /** A connection after the handshake has agreed on keys. */
    constructor (a: Aead, secrets: Secrets, outward: Pipe, inward: Pipe)
      requires outward != inward
      ensures this.a == a && this.secrets == secrets && this.outward == outward && this.inward == inward
      ensures Valid() && Counter(sendNonce) == 0 && Counter(recvNonce) == 0 && recvBuffer == []
    {
      this.a, this.secrets, this.outward, this.inward := a, secrets, outward, inward;
      this.sendNonce, this.recvNonce, this.recvBuffer := Nonce(0), Nonce(0), [];
      NonceRoundTrip(0);
    }

    /** One frame: sealed, then counted, then written. */
    method WriteFrame(p: Piece) returns (ok: bool)
      requires Valid()
      modifies outward, this`sendNonce
      ensures Valid() && (ok <==> old(Counter(sendNonce)) < MAX_COUNTER)
      ensures ok ==> Counter(sendNonce) == old(Counter(sendNonce)) + 1
      ensures ok ==>
                outward.bytes == old(outward.bytes) + a.seal(secrets.send, Nonce(old(Counter(sendNonce))), FrameOf(p))
      ensures !ok ==> sendNonce == old(sendNonce) && outward.bytes == old(outward.bytes)
    {
      hide FrameOf;
      var sealed := a.seal(secrets.send, sendNonce, FrameOf(p));
      var next := IncrNonce(sendNonce);
      if next.None? {
        return false;
      }
      sendNonce := next.value;
      outward.bytes := outward.bytes + sealed;
      return true;
    }

    /** The loop of `Write`. */
    method WriteChunks(data: Bytes, pool: Pool) returns (n: nat, ok: bool, ghost done: seq<Piece>, d: Bytes)
      requires Valid()
      modifies outward, this`sendNonce
      ensures Valid() && Counter(sendNonce) == old(Counter(sendNonce)) + |done|
      ensures Progress(a, secrets.send, old(Counter(sendNonce)), old(outward.bytes), data, pool, done, d,
                       outward.bytes, n)
      ensures if ok then d == [] else d != [] && Counter(sendNonce) == MAX_COUNTER
    {
      hide Progress;
      hide FirstPiece;
      hide FrameOf;
      hide Nonce;
      hide Number;
      ghost var from, before := Counter(sendNonce), outward.bytes;
      n, ok, done, d := 0, true, [], data;
      var i := 0;
      ProgressStart(a, secrets.send, from, before, data, pool);
      while d != []
        invariant Valid() && ok && i == |done| && Counter(sendNonce) == from + i
        invariant Progress(a, secrets.send, from, before, data, pool, done, d, outward.bytes, n)
        decreases |d|
      {
        ProgressStep(a, secrets.send, from, before, data, pool, done, d, outward.bytes, n);
        var p := FirstPiece(d, pool, i);
        ok := WriteFrame(p);
        if !ok {
          return;
        }
        n := n + |p.chunk|;
        done := done + [p];
        i := i + 1;
        d := d[FirstChunk(d)..];
      }
    }

    /** `Write`: the chunks go out sealed in order under consecutive nonces until the counter is used up. */
    method Write(data: Bytes, pool: Pool) returns (n: nat, ok: bool)
      requires Valid()
      modifies outward, this`sendNonce
      ensures Valid()
      ensures var from := old(Counter(sendNonce));
              var ps := Sent(from, data, pool);
              && outward.bytes == old(outward.bytes) + Wire(a, secrets.send, from, ps)
              && Counter(sendNonce) == from + |ps|
              && n == |Payload(ps)|
              && (ok <==> ps == Pieces(data, pool, 0))
    {
      ghost var from := Counter(sendNonce);
      ghost var done;
      var d;
      n, ok, done, d := WriteChunks(data, pool);
      hide Wire;
      hide Payload;
      hide Pieces;
      SentIs(from, data, pool, done, d);
      hide Sent;
    }

    /** `Read` into a buffer of `m` bytes. */
    method Read(m: nat) returns (r: Result<Bytes, ReadError>)
      requires Valid()
      modifies inward, this`recvNonce, this`recvBuffer
      ensures Valid()
      ensures (Receiving(), r) == Model.Read(a, secrets.recv, old(Receiving()), m)
    {
      hide Nonce;
      hide Number;
      hide Length;
      if |recvBuffer| > 0 {
        var n := Min(m, |recvBuffer|);
        r := Ok(recvBuffer[..n]);
        recvBuffer := recvBuffer[n..];
        return;
      }
      if |inward.bytes| < SEALED_SIZE {
        return Err(NoFrame);
      }
      var sealed := inward.bytes[..SEALED_SIZE];
      inward.bytes := inward.bytes[SEALED_SIZE..];
      var frame := a.open(secrets.recv, recvNonce, sealed);
      if frame.None? {
        return Err(CannotDecrypt);
      }
      var next := IncrNonce(recvNonce);
      if next.None? {
        return Err(NonceExhausted);
      }
      recvNonce := next.value;
      var len := Length(frame.value);
      if len > DATA_MAX_SIZE {
        return Err(ChunkTooLong);
      }
      var chunk := frame.value[DATA_LEN_SIZE..DATA_LEN_SIZE + len];
      var n := Min(m, len);
      if n < |chunk| {
        recvBuffer := chunk[n..];
      }
      assert recvBuffer == chunk[n..];
      r := Ok(chunk[..n]);
    }
  }
}
