/** Whatever the network does to a secret connection, what is read was written, in that order
    (privval/secret_connection.go). */
module SecretAuthenticity {
  import opened Prelude
  import opened Signing
  import opened SecretConnections

  /** What opens under the `n`-th nonce is the `n`-th frame of the sender. */
  ghost predicate Unforged(a: Aead, key: Key, ps: seq<Piece>) {
    forall n: nat, f: Sealed :: n <= MAX_COUNTER && a.open(key, Nonce(n), f).Some? ==>
      n < |ps| && a.open(key, Nonce(n), f) == Some(FrameOf(ps[n]))
  }

  /** The network delivers any bytes it likes; the user reads. */
  datatype NetEvent = Deliver(bytes: Bytes) | Take(size: nat)

  datatype Reader = Reader(receiver: Receiver, got: Bytes)

  function NetStep(a: Aead, key: Key, r: Reader, e: NetEvent): Reader {
    match e
    case Deliver(bytes) => r.(receiver := r.receiver.(stream := r.receiver.stream + bytes))
    case Take(m) =>
      var (receiver, out) := Read(a, key, r.receiver, m);
      Reader(receiver, if out.Ok? then r.got + out.value else r.got)
  }

  function NetRun(a: Aead, key: Key, events: seq<NetEvent>): Reader {
    if events == [] then Reader(Receiver(0, [], []), [])
    else NetStep(a, key, NetRun(a, key, events[..|events| - 1]), events[|events| - 1])
  }

  /** What was read, and what of the frame in hand is left, are the frames that were opened. */
  ghost predicate InStep(r: Reader, ps: seq<Piece>) {
    r.receiver.counter <= |ps| && r.got + r.receiver.buffer == Payload(ps[..r.receiver.counter])
  }

  lemma PayloadNext(ps: seq<Piece>, n: nat)
    requires n < |ps|
    ensures Payload(ps[..n + 1]) == Payload(ps[..n]) + ps[n].chunk
  {
    assert ps[..n + 1] == ps[..n] + [ps[n]];
    PayloadAppend(ps[..n], [ps[n]]);
    PayloadFirst([ps[n]]);
    assert ps[n].chunk + Payload([]) == ps[n].chunk;
  }

  /** A read takes from the frame in hand, opens the sender's next frame, or gets nothing. */
  lemma ReadCases(a: Aead, key: Key, r: Receiver, ps: seq<Piece>, m: nat)
    requires Unforged(a, key, ps) && |ps| <= MAX_COUNTER && r.counter <= |ps|
    ensures var (r', out) := Read(a, key, r, m);
            || (out.Err? && r'.counter == r.counter && r'.buffer == r.buffer)
            || (r.buffer != [] && out.Ok? && r'.counter == r.counter && r.buffer == out.value + r'.buffer)
            || (&& r.buffer == [] && r.counter < |ps| && out.Ok? && r'.counter == r.counter + 1
                && out.value + r'.buffer == ps[r.counter].chunk)
  {
    hide Nonce;
    if r.buffer != [] {
      var n := Min(m, |r.buffer|);
      assert r.buffer[..n] + r.buffer[n..] == r.buffer;
    } else if |r.stream| >= SEALED_SIZE {
      var f := a.open(key, Nonce(r.counter), r.stream[..SEALED_SIZE]);
      if f.Some? {
        FrameParts(ps[r.counter]);
        hide FrameOf;
        hide Length;
        var chunk := ps[r.counter].chunk;
        var n := Min(m, |chunk|);
        assert chunk[..n] + chunk[n..] == chunk;
      }
    }
  }

  lemma StepInStep(a: Aead, key: Key, r: Reader, ps: seq<Piece>, e: NetEvent)
    requires Unforged(a, key, ps) && |ps| <= MAX_COUNTER && InStep(r, ps)
    ensures InStep(NetStep(a, key, r, e), ps)
  {
    hide Payload;
    match e
    case Deliver(_) =>
    case Take(m) =>
      ReadCases(a, key, r.receiver, ps, m);
      hide Read;
      var (receiver, out) := Read(a, key, r.receiver, m);
      if out.Ok? {
        Assoc(r.got, out.value, receiver.buffer);
        if r.receiver.buffer == [] {
          PayloadNext(ps, r.receiver.counter);
          assert r.got + [] == r.got;
        }
      }
  }

  lemma {:induction false} NetRunInStep(a: Aead, key: Key, ps: seq<Piece>, events: seq<NetEvent>)
    requires Unforged(a, key, ps) && |ps| <= MAX_COUNTER
    ensures InStep(NetRun(a, key, events), ps)
  {
    hide NetStep;
    if events == [] {
      assert ps[..0] == [];
    } else {
      var n := |events| - 1;
      NetRunInStep(a, key, ps, events[..n]);
      StepInStep(a, key, NetRun(a, key, events[..n]), ps, events[n]);
    }
  }

  /** The network may drop, repeat, reorder, change and make up bytes, and reads may fail and be tried again: what was
      read is a prefix of what the sender wrote. */
  lemma ReadsAreAuthentic(a: Aead, key: Key, ps: seq<Piece>, events: seq<NetEvent>)
    requires Unforged(a, key, ps) && |ps| <= MAX_COUNTER
    ensures NetRun(a, key, events).got <= Payload(ps)
  {
    hide NetRun;
    hide Payload;
    NetRunInStep(a, key, ps, events);
    var r := NetRun(a, key, events);
    var n := r.receiver.counter;
    assert ps == ps[..n] + ps[n..];
    PayloadAppend(ps[..n], ps[n..]);
  }

  /** What an error of a read means. Every error but a missing frame costs exactly that frame. */
  lemma ReadErrors(a: Aead, key: Key, r: Receiver, m: nat)
    ensures var (r', out) := Read(a, key, r, m);
            && (out == Err(NoFrame) <==> r.buffer == [] && |r.stream| < SEALED_SIZE)
            && (out == Err(NoFrame) ==> r' == r)
            && (out.Err? && out != Err(NoFrame) ==>
                  |r.stream| >= SEALED_SIZE && r'.stream == r.stream[SEALED_SIZE..] && r'.buffer == [])
            && (out == Err(CannotDecrypt) <==>
                  && r.buffer == [] && |r.stream| >= SEALED_SIZE
                  && a.open(key, Nonce(r.counter), r.stream[..SEALED_SIZE]).None?)
            && (out == Err(NonceExhausted) ==> r.counter >= MAX_COUNTER)
            && (out == Err(ChunkTooLong) ==>
                  var frame := a.open(key, Nonce(r.counter), r.stream[..SEALED_SIZE]);
                  frame.Some? && Length(frame.value) > DATA_MAX_SIZE)
  {
    hide Nonce;
    hide Length;
  }

  /** So bytes made up by the network in front of a frame of the sender cost one failed read for every frame's worth,
      and then the sender's frame is read. */
  lemma {:induction false} GarbageSkipped(a: Aead, key: Key, r: Receiver, garbage: seq<Sealed>, rest: Bytes, m: nat)
    requires r.buffer == [] && r.stream == Flatten(garbage) + rest
    requires forall i :: 0 <= i < |garbage| ==> a.open(key, Nonce(r.counter), garbage[i]).None?
    ensures Failed(a, key, r, |garbage|, m) == Some(r.(stream := rest))
    decreases |garbage|
  {
    hide Nonce;
    if garbage == [] {
      assert Flatten(garbage) + rest == rest;
    } else {
      var r' := r.(stream := Flatten(garbage[1..]) + rest);
      assert r.stream == garbage[0] + (Flatten(garbage[1..]) + rest);
      TakeDrop(garbage[0], Flatten(garbage[1..]) + rest);
      assert Read(a, key, r, m) == (r', Err(CannotDecrypt));
      hide Read;
      GarbageSkipped(a, key, r', garbage[1..], rest, m);
    }
  }

  /** The receiver after this many failed reads. */
  function Failed(a: Aead, key: Key, r: Receiver, n: nat, m: nat): Option<Receiver>
    decreases n
  {
    if n == 0 then Some(r)
    else
      var (r', out) := Read(a, key, r, m);
      if out == Err(CannotDecrypt) then Failed(a, key, r', n - 1, m) else None
  }

  // ---------------------------------------------------------------- the assumption can be met

  /** Encryption that knows what it has sealed. */
  function Vouching(ps: seq<Piece>): Aead {
    Aead((k: Key, n: Bytes, f: Frame) => f + seq(SEALED_SIZE - FRAME_SIZE, _ => 0),
         (k: Key, n: Bytes, s: Sealed) =>
           if |n| == 12 && Counter(n) < |ps| && s[..FRAME_SIZE] == FrameOf(ps[Counter(n)]) then Some(s[..FRAME_SIZE])
           else None)
  }

  lemma VouchingUnforged(key: Key, ps: seq<Piece>)
    ensures Unforged(Vouching(ps), key, ps)
  {
    hide FrameOf;
    forall n: nat, f: Sealed | n <= MAX_COUNTER && Vouching(ps).open(key, Nonce(n), f).Some?
      ensures n < |ps| && Vouching(ps).open(key, Nonce(n), f) == Some(FrameOf(ps[n]))
    {
      NonceRoundTrip(n);
    }
  }
}
