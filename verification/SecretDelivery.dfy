/** What goes into a secret connection comes out of it (privval/secret_connection.go). */
module SecretDelivery {
  import opened Prelude
  import opened Signing
  import opened SecretConnections

  // ---------------------------------------------------------------- writing

  /** As many bytes as the frames left under this key can carry. */
  function Capacity(counter: nat): nat
    requires counter <= MAX_COUNTER
  {
    DATA_MAX_SIZE * (MAX_COUNTER - counter)
  }

  lemma {:induction false} FirstPieces(data: Bytes, pool: Pool, i: nat, n: nat)
    requires n <= |Pieces(data, pool, i)|
    ensures Payload(Pieces(data, pool, i)[..n]) == data[..Min(|data|, DATA_MAX_SIZE * n)]
    decreases |data|
  {
    var ps := Pieces(data, pool, i);
    if n == 0 || data == [] {
      assert ps[..n] == [];
    } else {
      var k := FirstChunk(data);
      FirstPieces(data[k..], pool, i + 1, n - 1);
      assert ps[..n] == [ps[0]] + ps[1..][..n - 1];
      assert ps[1..] == Pieces(data[k..], pool, i + 1);
      PayloadFirst(ps[..n]);
      assert ps[..n][1..] == ps[1..][..n - 1];
      CutData(data, k, n);
    }
  }

  lemma CutData(data: Bytes, k: nat, n: nat)
    requires n > 0 && k == FirstChunk(data)
    ensures data[..k] + data[k..][..Min(|data[k..]|, DATA_MAX_SIZE * (n - 1))] == data[..Min(|data|, DATA_MAX_SIZE * n)]
  {
    if k < DATA_MAX_SIZE {
      assert k == |data| && DATA_MAX_SIZE * n >= DATA_MAX_SIZE;
    } else {
      assert DATA_MAX_SIZE * n == DATA_MAX_SIZE + DATA_MAX_SIZE * (n - 1);
    }
  }

  lemma {:induction false} PiecesCount(data: Bytes, pool: Pool, i: nat)
    ensures DATA_MAX_SIZE * |Pieces(data, pool, i)| >= |data|
    decreases |data|
  {
    if data == [] {
    } else {
      PiecesCount(data[FirstChunk(data)..], pool, i + 1);
    }
  }

  /** A write puts its data on the wire, from the front, as far as the counter goes. */
  lemma WriteSends(counter: nat, data: Bytes, pool: Pool)
    requires counter <= MAX_COUNTER
    ensures Payload(Sent(counter, data, pool)) == data[..Min(|data|, Capacity(counter))]
  {
    hide Payload;
    var ps := Pieces(data, pool, 0);
    var n := Min(|ps|, MAX_COUNTER - counter);
    FirstPieces(data, pool, 0, n);
    if n == |ps| {
      PiecesCount(data, pool, 0);
      Monotone(|ps|, MAX_COUNTER - counter);
    }
  }

  lemma Monotone(m: nat, n: nat)
    requires m <= n
    ensures DATA_MAX_SIZE * m <= DATA_MAX_SIZE * n
  {
  }

  // ---------------------------------------------------------------- reading

  /** What a read of `m` bytes finds: the rest of the frame in hand, or else the next one. */
  ghost function Ahead(c: Channel, ps: seq<Piece>): Bytes {
    if c.receiver.buffer != [] then c.receiver.buffer else if ps != [] then ps[0].chunk else []
  }

  lemma ReadGives(a: Aead, key: Key, c: Channel, ps: seq<Piece>, m: nat)
    requires Works(a) && InFlight(a, key, c, ps)
    ensures var x := Ahead(c, ps); Step(a, key, c, ReadInto(m)).read == c.read + x[..Min(m, |x|)]
  {
    hide Wire;
    hide Nonces;
    hide Payload;
    if c.receiver.buffer == [] {
      if ps == [] {
        assert Wire(a, key, c.receiver.counter, ps) == [] by {
          EmptyWire(a, key, c.receiver.counter);
        }
        assert c.read + [] == c.read;
      } else {
        hide Read;
        ReadNext(a, key, c.receiver, ps, m);
      }
    }
  }

  lemma EmptyWire(a: Aead, key: Key, from: nat)
    ensures Wire(a, key, from, []) == []
  {
  }

  lemma NothingAhead(a: Aead, key: Key, c: Channel, ps: seq<Piece>)
    requires InFlight(a, key, c, ps)
    ensures Ahead(c, ps) == [] <==> c.read == c.written
  {
    hide Wire;
    hide Nonces;
    if ps != [] {
      PayloadFirst(ps);
    }
  }

  /** As long as not everything was read, every read into a buffer brings something. */
  lemma ReadProgress(a: Aead, key: Key, events: seq<Event>, m: nat)
    requires Works(a) && m > 0
    ensures var c := Run(a, key, events);
            var c' := Run(a, key, events + [ReadInto(m)]);
            && c.read <= c'.read <= c'.written == c.written
            && (c.read != c.written ==> |c.read| < |c'.read| <= |c.read| + m)
  {
    var ps := RunInFlight(a, key, events);
    var c := Run(a, key, events);
    var all := events + [ReadInto(m)];
    assert all[..|all| - 1] == events;
    ReadGives(a, key, c, ps, m);
    NothingAhead(a, key, c, ps);
    ReadsPrefixOfWrites(a, key, all);
  }

  function Reads(sizes: seq<nat>): (r: seq<Event>)
    ensures |r| == |sizes|
  {
    seq(|sizes|, i requires 0 <= i < |sizes| => ReadInto(sizes[i]))
  }

  /** After any run, as many reads into buffers as there are bytes left bring all of them. */
  lemma {:induction false} EverythingArrives(a: Aead, key: Key, events: seq<Event>, sizes: seq<nat>)
    requires Works(a) && forall i :: 0 <= i < |sizes| ==> sizes[i] > 0
    ensures var c := Run(a, key, events);
            var c' := Run(a, key, events + Reads(sizes));
            && c'.written == c.written && |c'.read| >= Min(|c.written|, |c.read| + |sizes|)
            && (|c.read| + |sizes| >= |c.written| ==> c'.read == c.written)
    decreases |sizes|
  {
    hide Run;
    if sizes == [] {
      assert events + Reads(sizes) == events;
      ReadsPrefixOfWrites(a, key, events);
    } else {
      var n := |sizes| - 1;
      EverythingArrives(a, key, events, sizes[..n]);
      assert events + Reads(sizes) == events + Reads(sizes[..n]) + [ReadInto(sizes[n])];
      ReadProgress(a, key, events + Reads(sizes[..n]), sizes[n]);
      ReadsPrefixOfWrites(a, key, events);
    }
  }

  // ---------------------------------------------------------------- from end to end

  function Writes(messages: seq<Bytes>, pool: Pool): (r: seq<Event>)
    ensures |r| == |messages|
  {
    seq(|messages|, i requires 0 <= i < |messages| => Write(messages[i], pool))
  }

  /** The frames a write takes: one for every begun 1024 bytes. */
  function Frames(size: nat): nat {
    (size + DATA_MAX_SIZE - 1) / DATA_MAX_SIZE
  }

  function TotalFrames(messages: seq<Bytes>): nat {
    if messages == [] then 0 else TotalFrames(messages[..|messages| - 1]) + Frames(|messages[|messages| - 1]|)
  }

  lemma {:induction false} PiecesFrames(data: Bytes, pool: Pool, i: nat)
    ensures |Pieces(data, pool, i)| == Frames(|data|)
    decreases |data|
  {
    if data == [] {
    } else {
      PiecesFrames(data[FirstChunk(data)..], pool, i + 1);
    }
  }

  /** What a write does to a channel with frames enough left. */
  lemma WriteStep(a: Aead, key: Key, c: Channel, data: Bytes, pool: Pool)
    requires c.sendCounter + Frames(|data|) <= MAX_COUNTER
    ensures var c' := Step(a, key, c, Write(data, pool));
            && c'.written == c.written + data && c'.read == c.read
            && c'.sendCounter == c.sendCounter + Frames(|data|)
  {
    hide Payload;
    hide Wire;
    hide Nonces;
    var ps := Pieces(data, pool, 0);
    PiecesFrames(data, pool, 0);
    PiecesPayload(data, pool, 0);
    assert ps[..|ps|] == ps;
  }

  lemma {:induction false} AllWritten(a: Aead, key: Key, messages: seq<Bytes>, pool: Pool)
    requires TotalFrames(messages) <= MAX_COUNTER
    ensures var c := Run(a, key, Writes(messages, pool));
            c.written == Flatten(messages) && c.sendCounter == TotalFrames(messages) && c.read == []
  {
    hide Step;
    hide Flatten;
    var events := Writes(messages, pool);
    if messages == [] {
      FlattenNone();
    } else {
      var n := |messages| - 1;
      assert events[..n] == Writes(messages[..n], pool);
      AllWritten(a, key, messages[..n], pool);
      WriteStep(a, key, Run(a, key, events[..n]), messages[n], pool);
      assert messages == messages[..n] + [messages[n]];
      FlattenAppend(messages[..n], [messages[n]]);
      FlattenOne(messages[n]);
    }
  }

  lemma FlattenNone()
    ensures Flatten([]) == []
  {
  }

  lemma FlattenOne(x: Bytes)
    ensures Flatten([x]) == x
  {
    assert [x][1..] == [];
    assert x + [] == x;
  }

  /** Messages written to a new connection are read in full, in order and once, into buffers of any size. */
  lemma MessagesArrive(a: Aead, key: Key, messages: seq<Bytes>, pool: Pool, sizes: seq<nat>)
    requires Works(a) && TotalFrames(messages) <= MAX_COUNTER
    requires |sizes| >= |Flatten(messages)| && forall i :: 0 <= i < |sizes| ==> sizes[i] > 0
    ensures Run(a, key, Writes(messages, pool) + Reads(sizes)).read == Flatten(messages)
  {
    hide Run;
    AllWritten(a, key, messages, pool);
    EverythingArrives(a, key, Writes(messages, pool), sizes);
  }

  /** Data that fits a frame is read at once, by a read that has room for it, when nothing else is on the way. */
  lemma ReadAtomically(a: Aead, key: Key, events: seq<Event>, data: Bytes, pool: Pool, m: nat)
    requires Works(a) && |data| <= DATA_MAX_SIZE && |data| <= m
    requires var c := Run(a, key, events); c.read == c.written && c.sendCounter < MAX_COUNTER
    ensures var c := Run(a, key, events);
            Run(a, key, events + [Write(data, pool)] + [ReadInto(m)]).read == c.read + data
  {
    var w := events + [Write(data, pool)];
    var all := w + [ReadInto(m)];
    assert w[..|w| - 1] == events && all[..|all| - 1] == w;
    var ps := RunInFlight(a, key, events);
    NothingAhead(a, key, Run(a, key, events), ps);
    ReadAtOnce(a, key, Run(a, key, events), ps, data, pool, m);
  }

  lemma ReadAtOnce(a: Aead, key: Key, c: Channel, ps: seq<Piece>, data: Bytes, pool: Pool, m: nat)
    requires Works(a) && InFlight(a, key, c, ps) && Ahead(c, ps) == [] && c.sendCounter < MAX_COUNTER
    requires |data| <= DATA_MAX_SIZE && |data| <= m
    ensures Step(a, key, Step(a, key, c, Write(data, pool)), ReadInto(m)).read == c.read + data
  {
    hide Step;
    hide Sent;
    var c', qs := Step(a, key, c, Write(data, pool)), Sent(c.sendCounter, data, pool);
    assert ps == [] && c.receiver.buffer == [];
    WriteInFlight(a, key, c, ps, data, pool);
    WriteKeeps(a, key, c, data, pool);
    assert ps + qs == qs;
    OnePiece(c.sendCounter, data, pool);
    ReadGives(a, key, c', qs, m);
    hide InFlight;
    assert Ahead(c', qs) == data;
    assert data[..|data|] == data;
  }

  lemma WriteKeeps(a: Aead, key: Key, c: Channel, data: Bytes, pool: Pool)
    requires c.sendCounter <= MAX_COUNTER
    ensures var c' := Step(a, key, c, Write(data, pool)); c'.read == c.read && c'.receiver.buffer == c.receiver.buffer
  {
  }

  lemma OnePiece(counter: nat, data: Bytes, pool: Pool)
    requires |data| <= DATA_MAX_SIZE && counter < MAX_COUNTER
    ensures var ps := Sent(counter, data, pool);
            if data == [] then ps == [] else |ps| == 1 && ps[0].chunk == data
  {
    if data != [] {
      assert data[FirstChunk(data)..] == [];
      assert Pieces([], pool, 1) == [];
    }
  }
}
