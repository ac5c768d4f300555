/** The framing and the nonces of the encrypted signer connection (privval/secret_connection.go). */
module SecretConnections {
  import opened Prelude
  import opened Signing
  import opened Sorting

  const DATA_LEN_SIZE := 4
  const DATA_MAX_SIZE := 1024
  const FRAME_SIZE := DATA_MAX_SIZE + DATA_LEN_SIZE
  const OVERHEAD := 16
  const SEALED_SIZE := FRAME_SIZE + OVERHEAD
  const MAX_COUNTER: nat := 0xFFFF_FFFF_FFFF_FFFF

  type Key = Bytes

  type Frame = f: Bytes | |f| == FRAME_SIZE witness seq(FRAME_SIZE, _ => 0)

  type Sealed = f: Bytes | |f| == SEALED_SIZE witness seq(SEALED_SIZE, _ => 0)

  /** Authenticated encryption of frames under a key and a nonce. */
  datatype Aead = Aead(seal: (Key, Bytes, Frame) -> Sealed, open: (Key, Bytes, Sealed) -> Option<Frame>)

  /** Opening undoes sealing. */
  ghost predicate Works(a: Aead) {
    forall k, n, f :: a.open(k, n, a.seal(k, n, f)) == Some(f)
  }

  /** No encryption at all. */
  function Transparent(): Aead {
    Aead((k: Key, n: Bytes, f: Frame) => f + seq(SEALED_SIZE - FRAME_SIZE, _ => 0),
         (k: Key, n: Bytes, s: Sealed) => Some(s[..FRAME_SIZE]))
  }

  /** That is something encryption can do. */
  lemma TransparentWorks()
    ensures Works(Transparent())
  {
    forall k: Key, n: Bytes, f: Frame
      ensures Transparent().open(k, n, Transparent().seal(k, n, f)) == Some(f)
    {
      assert Transparent().seal(k, n, f)[..FRAME_SIZE] == f;
    }
  }

  // ---------------------------------------------------------------- little-endian numbers

  function Limit(k: nat): nat {
    if k == 0 then 1 else 256 * Limit(k - 1)
  }

  function Number(b: Bytes): nat {
    if b == [] then 0 else b[0] + 256 * Number(b[1..])
  }

  lemma {:induction false} NumberRoundTrip(n: nat, k: nat)
    requires n < Limit(k)
    ensures Number(LittleEndian(n, k)) == n && |LittleEndian(n, k)| == k
  {
    if k == 0 {
    } else {
      NumberRoundTrip(n / 256, k - 1);
    }
  }

  lemma Limits()
    ensures Limit(4) > DATA_MAX_SIZE && Limit(8) == MAX_COUNTER + 1
  {
    assert Limit(1) == 256;
    assert Limit(2) == 256 * 256;
    assert Limit(3) == 256 * 256 * 256;
    assert Limit(4) == 256 * Limit(3);
    assert Limit(5) == 256 * Limit(4);
    assert Limit(6) == 256 * Limit(5);
    assert Limit(7) == 256 * Limit(6);
    assert Limit(8) == 256 * Limit(7);
  }

  const ZEROS: Bytes := [0, 0, 0, 0]

  /** Twelve bytes: four zeros and the counter. */
  function Nonce(counter: nat): Bytes {
    ZEROS + LittleEndian(counter, 8)
  }

  function Counter(nonce: Bytes): nat
    requires |nonce| == 12
  {
    Number(nonce[4..])
  }

  lemma NonceRoundTrip(counter: nat)
    requires counter <= MAX_COUNTER
    ensures |Nonce(counter)| == 12 && Counter(Nonce(counter)) == counter
  {
    Limits();
    NumberRoundTrip(counter, 8);
    assert Nonce(counter)[4..] == LittleEndian(counter, 8);
  }

  /** Different counters give different nonces. */
  lemma NonceInjective(a: nat, b: nat)
    requires a <= MAX_COUNTER && b <= MAX_COUNTER && Nonce(a) == Nonce(b)
    ensures a == b
  {
    NonceRoundTrip(a);
    NonceRoundTrip(b);
  }

  // ---------------------------------------------------------------- frames

  /** A chunk and what the pooled buffer held after it. */
  datatype Content = Content(chunk: Bytes, pad: Bytes)

  type Piece = p: Content | 0 < |p.chunk| <= DATA_MAX_SIZE && |p.chunk| + |p.pad| == DATA_MAX_SIZE
    witness Content(seq(DATA_MAX_SIZE, _ => 0), [])

  function FrameOf(p: Piece): Frame {
    LittleEndian(|p.chunk|, 4) + p.chunk + p.pad
  }

  /** Where frame buffers come from: byte `j` of the buffer taken for frame `i`. */
  type Pool = (nat, nat) -> byte

  function Pad(pool: Pool, i: nat, chunk: nat): Bytes
    requires chunk <= DATA_MAX_SIZE
  {
    seq(DATA_MAX_SIZE - chunk, j requires 0 <= j => pool(i, j + chunk))
  }

  function FirstChunk(data: Bytes): nat {
    if DATA_MAX_SIZE < |data| then DATA_MAX_SIZE else |data|
  }

  function FirstPiece(data: Bytes, pool: Pool, i: nat): Piece
    requires data != []
  {
    Content(data[..FirstChunk(data)], Pad(pool, i, FirstChunk(data)))
  }

  /** The chunks of one `Write`. */
  function Pieces(data: Bytes, pool: Pool, i: nat): seq<Piece>
    decreases |data|
  {
    if data == [] then []
    else [FirstPiece(data, pool, i)] + Pieces(data[FirstChunk(data)..], pool, i + 1)
  }

  function Chunks(ps: seq<Piece>): (r: seq<Bytes>)
    ensures |r| == |ps|
  {
    seq(|ps|, i requires 0 <= i < |ps| => ps[i].chunk)
  }

  function Payload(ps: seq<Piece>): Bytes {
    Flatten(Chunks(ps))
  }

  /** Frames sealed under consecutive counters. */
  function SealAll(a: Aead, key: Key, from: nat, ps: seq<Piece>): (r: seq<Bytes>)
    ensures |r| == |ps|
  {
    seq(|ps|, i requires 0 <= i < |ps| => a.seal(key, Nonce(from + i), FrameOf(ps[i])))
  }

  /** Their bytes on the wire. */
  function Wire(a: Aead, key: Key, from: nat, ps: seq<Piece>): Bytes {
    Flatten(SealAll(a, key, from, ps))
  }

  lemma PayloadAppend(ps: seq<Piece>, qs: seq<Piece>)
    ensures Payload(ps + qs) == Payload(ps) + Payload(qs)
  {
    assert Chunks(ps + qs) == Chunks(ps) + Chunks(qs);
    FlattenAppend(Chunks(ps), Chunks(qs));
  }

  lemma PayloadFirst(ps: seq<Piece>)
    requires ps != []
    ensures Payload(ps) == ps[0].chunk + Payload(ps[1..])
  {
    assert Chunks(ps)[1..] == Chunks(ps[1..]);
  }

  lemma WireAppend(a: Aead, key: Key, from: nat, ps: seq<Piece>, qs: seq<Piece>)
    ensures Wire(a, key, from, ps + qs) == Wire(a, key, from, ps) + Wire(a, key, from + |ps|, qs)
  {
    hide Nonce;
    hide FrameOf;
    assert SealAll(a, key, from, ps + qs) == SealAll(a, key, from, ps) + SealAll(a, key, from + |ps|, qs);
    FlattenAppend(SealAll(a, key, from, ps), SealAll(a, key, from + |ps|, qs));
  }

  lemma WireFirst(a: Aead, key: Key, from: nat, ps: seq<Piece>)
    requires ps != []
    ensures Wire(a, key, from, ps) == a.seal(key, Nonce(from), FrameOf(ps[0])) + Wire(a, key, from + 1, ps[1..])
  {
    hide Nonce;
    hide FrameOf;
    assert SealAll(a, key, from, ps)[1..] == SealAll(a, key, from + 1, ps[1..]);
  }

  lemma {:induction false} PiecesPayload(data: Bytes, pool: Pool, i: nat)
    ensures Payload(Pieces(data, pool, i)) == data
    decreases |data|
  {
    if data == [] {
    } else {
      var k := FirstChunk(data);
      PiecesPayload(data[k..], pool, i + 1);
      PayloadFirst(Pieces(data, pool, i));
      assert data == data[..k] + data[k..];
    }
  }

  function Length(f: Frame): nat {
    Number(f[..DATA_LEN_SIZE])
  }

  /** The length prefix and the chunk of a frame. */
  lemma FrameParts(p: Piece)
    ensures Length(FrameOf(p)) == |p.chunk|
    ensures FrameOf(p)[DATA_LEN_SIZE..DATA_LEN_SIZE + |p.chunk|] == p.chunk
  {
    Limits();
    NumberRoundTrip(|p.chunk|, 4);
    assert FrameOf(p)[..4] == LittleEndian(|p.chunk|, 4);
  }

  // ---------------------------------------------------------------- writing and reading

  /** The frames of one `Write` that go out before the counter is used up. */
  function Sent(counter: nat, data: Bytes, pool: Pool): seq<Piece>
    requires counter <= MAX_COUNTER
  {
    var ps := Pieces(data, pool, 0);
    ps[..Min(|ps|, MAX_COUNTER - counter)]
  }

  datatype Receiver = Receiver(counter: nat, buffer: Bytes, stream: Bytes)

  datatype ReadError = NoFrame | CannotDecrypt | NonceExhausted | ChunkTooLong

  /** `Read` into a buffer of `m` bytes. */
  function Read(a: Aead, key: Key, r: Receiver, m: nat): (Receiver, Result<Bytes, ReadError>) {
    if r.buffer != [] then
      var n := Min(m, |r.buffer|);
      (r.(buffer := r.buffer[n..]), Ok(r.buffer[..n]))
    else if |r.stream| < SEALED_SIZE then (r, Err(NoFrame))
    else
      var r1 := r.(stream := r.stream[SEALED_SIZE..]);
      match a.open(key, Nonce(r.counter), r.stream[..SEALED_SIZE])
      case None => (r1, Err(CannotDecrypt))
      case Some(frame) =>
        if r.counter >= MAX_COUNTER then (r1, Err(NonceExhausted))
        else
          var r2 := r1.(counter := r.counter + 1);
          var len := Length(frame);
          if len > DATA_MAX_SIZE then (r2, Err(ChunkTooLong))
          else
            var chunk := frame[DATA_LEN_SIZE..DATA_LEN_SIZE + len];
            var n := Min(m, len);
            (r2.(buffer := chunk[n..]), Ok(chunk[..n]))
  }

  // ---------------------------------------------------------------- a channel

  datatype Event = Write(data: Bytes, pool: Pool) | ReadInto(size: nat)

  /** One direction of a connection and what its users saw. */
  datatype Channel = Channel(sendCounter: nat, receiver: Receiver, written: Bytes, read: Bytes, nonces: seq<Bytes>,
                             failed: bool)

  const OPENED := Channel(0, Receiver(0, [], []), [], [], [], false)

  function Nonces(from: nat, n: nat): (r: seq<Bytes>)
    ensures |r| == n
  {
    seq(n, i requires 0 <= i => Nonce(from + i))
  }

  /** Bytes count as written when their frame went out, which is what `Write` reports. */
  function Step(a: Aead, key: Key, c: Channel, e: Event): Channel
    requires c.sendCounter <= MAX_COUNTER
  {
    match e
    case Write(data, pool) =>
      var ps := Sent(c.sendCounter, data, pool);
      c.(sendCounter := c.sendCounter + |ps|,
         receiver := c.receiver.(stream := c.receiver.stream + Wire(a, key, c.sendCounter, ps)),
         written := c.written + Payload(ps),
         nonces := c.nonces + Nonces(c.sendCounter, |ps|))
    case ReadInto(m) =>
      var (r, out) := Read(a, key, c.receiver, m);
      c.(receiver := r,
         read := if out.Ok? then c.read + out.value else c.read,
         failed := c.failed || (out.Err? && out.error != NoFrame))
  }

  function Run(a: Aead, key: Key, events: seq<Event>): (c: Channel)
    ensures c.sendCounter <= MAX_COUNTER
  {
    if events == [] then OPENED else Step(a, key, Run(a, key, events[..|events| - 1]), events[|events| - 1])
  }

  /** What is on the wire, and the nonces used so far. */
  ghost predicate InFlight(a: Aead, key: Key, c: Channel, ps: seq<Piece>) {
    && !c.failed
    && c.sendCounter == c.receiver.counter + |ps| <= MAX_COUNTER
    && c.receiver.stream == Wire(a, key, c.receiver.counter, ps)
    && c.written == c.read + c.receiver.buffer + Payload(ps)
    && c.nonces == Nonces(0, c.sendCounter)
  }

  lemma NoncesAppend(n: nat, k: nat)
    ensures Nonces(0, n) + Nonces(n, k) == Nonces(0, n + k)
  {
  }

  lemma Cut(x: Bytes, y: Bytes, n: nat, z: Bytes)
    requires n <= |y|
    ensures x + y[..n] + y[n..] + z == x + (y + z)
  {
    assert y == y[..n] + y[n..];
  }

  lemma WriteInFlight(a: Aead, key: Key, c: Channel, ps: seq<Piece>, data: Bytes, pool: Pool)
    requires InFlight(a, key, c, ps)
    ensures InFlight(a, key, Step(a, key, c, Write(data, pool)), ps + Sent(c.sendCounter, data, pool))
  {
    var qs := Sent(c.sendCounter, data, pool);
    var c' := Step(a, key, c, Write(data, pool));
    hide Sent;
    assert c'.receiver.stream == Wire(a, key, c.receiver.counter, ps + qs) by {
      hide Wire;
      WireAppend(a, key, c.receiver.counter, ps, qs);
    }
    assert c'.written == c.read + c.receiver.buffer + Payload(ps + qs) by {
      hide Payload;
      PayloadAppend(ps, qs);
      Assoc(c.read + c.receiver.buffer, Payload(ps), Payload(qs));
    }
    assert c'.nonces == Nonces(0, c'.sendCounter) by {
      hide Nonces;
      NoncesAppend(c.sendCounter, |qs|);
    }
    hide Wire;
    hide Payload;
    hide Nonces;
    hide Step;
  }

  lemma TakeDrop(x: Sealed, y: Bytes)
    ensures (x + y)[..SEALED_SIZE] == x && (x + y)[SEALED_SIZE..] == y
  {
  }

  lemma CutAfterNone(x: Bytes, y: Bytes, n: nat, z: Bytes)
    requires n <= |y|
    ensures x + y[..n] + y[n..] + z == x + [] + (y + z)
  {
    Cut(x, y, n, z);
    assert x + [] == x;
  }

  /** Reading the next frame from the wire. */
  lemma ReadNext(a: Aead, key: Key, r: Receiver, ps: seq<Piece>, m: nat)
    requires Works(a) && r.buffer == [] && r.counter < MAX_COUNTER && ps != [] &&
      r.stream == Wire(a, key, r.counter, ps)
    ensures var n := Min(m, |ps[0].chunk|);
            Read(a, key, r, m) ==
              (Receiver(r.counter + 1, ps[0].chunk[n..], Wire(a, key, r.counter + 1, ps[1..])), Ok(ps[0].chunk[..n]))
  {
    hide FrameOf;
    hide Nonce;
    hide Wire;
    hide Length;
    FrameParts(ps[0]);
    WireFirst(a, key, r.counter, ps);
    TakeDrop(a.seal(key, Nonce(r.counter), FrameOf(ps[0])), Wire(a, key, r.counter + 1, ps[1..]));
  }

  lemma ReadFromBuffer(a: Aead, key: Key, c: Channel, ps: seq<Piece>, m: nat)
    requires InFlight(a, key, c, ps) && c.receiver.buffer != []
    ensures InFlight(a, key, Step(a, key, c, ReadInto(m)), ps)
  {
    hide Wire;
    hide Nonces;
    hide Payload;
    var buffer := c.receiver.buffer;
    var n := Min(m, |buffer|);
    var c' := Step(a, key, c, ReadInto(m));
    assert c' == c.(receiver := c.receiver.(buffer := buffer[n..]), read := c.read + buffer[..n]);
    hide Step;
    hide Min;
    assert c'.written == c'.read + c'.receiver.buffer + Payload(ps) by {
      Cut(c.read, buffer, n, Payload(ps));
      Assoc(c.read, buffer, Payload(ps));
    }
  }

  lemma ReadFromWire(a: Aead, key: Key, c: Channel, ps: seq<Piece>, m: nat)
    requires Works(a) && InFlight(a, key, c, ps) && c.receiver.buffer == [] && ps != []
    ensures InFlight(a, key, Step(a, key, c, ReadInto(m)), ps[1..])
  {
    hide Read;
    hide Wire;
    hide Nonces;
    hide Payload;
    ReadNext(a, key, c.receiver, ps, m);
    var r, chunk, rest := c.receiver, ps[0].chunk, Payload(ps[1..]);
    var n := Min(m, |chunk|);
    var c' := Step(a, key, c, ReadInto(m));
    assert c' == c.(receiver := Receiver(r.counter + 1, chunk[n..], Wire(a, key, r.counter + 1, ps[1..])),
                    read := c.read + chunk[..n]);
    hide Step;
    hide Min;
    assert c'.written == c'.read + c'.receiver.buffer + rest by {
      PayloadFirst(ps);
      CutAfterNone(c.read, chunk, n, rest);
    }
  }

  lemma ReadInFlight(a: Aead, key: Key, c: Channel, ps: seq<Piece>, m: nat) returns (qs: seq<Piece>)
    requires Works(a) && InFlight(a, key, c, ps)
    ensures InFlight(a, key, Step(a, key, c, ReadInto(m)), qs)
  {
    if c.receiver.buffer != [] {
      ReadFromBuffer(a, key, c, ps, m);
      qs := ps;
    } else if ps != [] {
      ReadFromWire(a, key, c, ps, m);
      qs := ps[1..];
    } else {
      qs := ps;
    }
  }

  lemma {:induction false} RunInFlight(a: Aead, key: Key, events: seq<Event>) returns (ps: seq<Piece>)
    requires Works(a)
    ensures InFlight(a, key, Run(a, key, events), ps)
  {
    if events == [] {
      ps := [];
    } else {
      var n := |events| - 1;
      var qs := RunInFlight(a, key, events[..n]);
      var c := Run(a, key, events[..n]);
      match events[n]
      case Write(data, pool) =>
        WriteInFlight(a, key, c, qs, data, pool);
        ps := qs + Sent(c.sendCounter, data, pool);
      case ReadInto(m) =>
        ps := ReadInFlight(a, key, c, qs, m);
    }
  }

  /** For any writes and any read sizes, what was read is a prefix of what was written, no read fails,
      and an idle channel has delivered everything. */
  lemma ReadsPrefixOfWrites(a: Aead, key: Key, events: seq<Event>)
    requires Works(a)
    ensures var c := Run(a, key, events);
            && c.read <= c.written && !c.failed
            && (c.receiver.stream == [] && c.receiver.buffer == [] ==> c.read == c.written)
  {
    var ps := RunInFlight(a, key, events);
    var c := Run(a, key, events);
    if ps != [] {
      WireFirst(a, key, c.receiver.counter, ps);
      assert |a.seal(key, Nonce(c.receiver.counter), FrameOf(ps[0]))| > 0;
    }
  }

  /** No two frames that went out under one key share a nonce. */
  lemma NoncesDistinct(a: Aead, key: Key, events: seq<Event>, i: nat, j: nat)
    requires Works(a) && i < j < |Run(a, key, events).nonces|
    ensures Run(a, key, events).nonces[i] != Run(a, key, events).nonces[j]
  {
    var ps := RunInFlight(a, key, events);
    if Nonce(i) == Nonce(j) {
      NonceInjective(i, j);
    }
  }

  // ---------------------------------------------------------------- the two ends

  datatype Secrets = Secrets(recv: Key, send: Key)

  /** `deriveSecrets` from the key material both ends compute. */
  function DeriveSecrets(material: Bytes, localIsLeast: bool): Secrets
    requires |material| == 96
  {
    if localIsLeast then Secrets(material[..32], material[32..64]) else Secrets(material[32..64], material[..32])
  }

  /** `sort32` puts the smaller ephemeral key first; the local end is least when its key is that one. */
  function LocalIsLeast(local: Bytes, remote: Bytes): bool {
    local == if Less(local, remote) then local else remote
  }

  /** Each end sends under the key the other receives under, exactly when the ephemeral keys differ or the
      two derived keys happen to be equal. */
  lemma KeysSwapped(material: Bytes, x: Bytes, y: Bytes)
    requires |material| == 96
    ensures var a := DeriveSecrets(material, LocalIsLeast(x, y));
            var b := DeriveSecrets(material, LocalIsLeast(y, x));
            (a.send == b.recv && a.recv == b.send) <==> (x != y || material[..32] == material[32..64])
  {
    LessTotal(x, y);
    if Less(x, y) {
      LessAsymmetric(x, y);
    } else if Less(y, x) {
      LessAsymmetric(y, x);
    }
  }

  /** The end with the smaller ephemeral key receives under the first half of the key material, the other under the
      second. */
  lemma HalvesOf(material: Bytes, x: Bytes, y: Bytes)
    requires |material| == 96 && Less(x, y)
    ensures DeriveSecrets(material, LocalIsLeast(x, y)).recv == material[..32]
    ensures DeriveSecrets(material, LocalIsLeast(y, x)).recv == material[32..64]
  {
    LessAsymmetric(x, y);
  }

  /** The keys and nonces one end has sealed frames under. */
  function SealedUnder(key: Key, nonces: seq<Bytes>): (r: seq<(Key, Bytes)>)
    ensures |r| == |nonces|
  {
    seq(|nonces|, i requires 0 <= i < |nonces| => (key, nonces[i]))
  }

  /** Both ends together never seal two frames under one key and nonce, if and only if they send under different
      keys or one of them has not sent anything. */
  lemma SealedOnceIff(a: Aead, key: Key, key': Key, events: seq<Event>, events': seq<Event>)
    requires Works(a)
    ensures var mine, theirs := Run(a, key, events).nonces, Run(a, key', events').nonces;
            Distinct(SealedUnder(key, mine) + SealedUnder(key', theirs)) <==>
              (key != key' || |mine| == 0 || |theirs| == 0)
  {
    hide Run;
    hide Nonce;
    var mine, theirs := Run(a, key, events).nonces, Run(a, key', events').nonces;
    var ps := RunInFlight(a, key, events);
    var qs := RunInFlight(a, key', events');
    var x, y := SealedUnder(key, mine), SealedUnder(key', theirs);
    forall i, j | 0 <= i < j < |mine|
      ensures x[i] != x[j]
    {
      NoncesDistinct(a, key, events, i, j);
    }
    forall i, j | 0 <= i < j < |theirs|
      ensures y[i] != y[j]
    {
      NoncesDistinct(a, key', events', i, j);
    }
    if key == key' && |mine| > 0 && |theirs| > 0 {
      assert mine[0] == Nonce(0) == theirs[0];
      var both: seq<(Key, Bytes)> := x + y;
      assert both[0] == both[|x|];
    }
  }

  /** With different ephemeral keys and different halves of the key material the two ends send under different keys. */
  lemma SendKeysDiffer(material: Bytes, x: Bytes, y: Bytes)
    requires |material| == 96
    ensures DeriveSecrets(material, LocalIsLeast(x, y)).send != DeriveSecrets(material, LocalIsLeast(y, x)).send <==>
            (x != y && material[..32] != material[32..64])
  {
    LessTotal(x, y);
    if Less(x, y) {
      LessAsymmetric(x, y);
    } else if Less(y, x) {
      LessAsymmetric(y, x);
    }
  }
}
