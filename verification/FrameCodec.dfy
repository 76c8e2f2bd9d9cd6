/**
 The length-prefixed framing of the chat connection: the two incremental readers
 (server codec and client) and the sender, over a stream that arrives in arbitrary chunks.
 */
module FrameCodec {
  import opened Bytes

  const HEADER_LEN := 4
  const MAX_PAYLOAD := 65536

  type Payload = seq<Byte>

  /** The header as the readers see it: a signed 32-bit integer in network order. */
  function FrameLength(buf: seq<Byte>): (len: int)
    requires |buf| >= HEADER_LEN
  {
    var u := FromBigEndian(buf[..HEADER_LEN]);
    if u < 0x8000_0000 then u else u - 0x1_0000_0000
  }

  /** The header at the front of `buf` is complete and announces an illegal length. */
  predicate BadHeader(buf: seq<Byte>) {
    |buf| >= HEADER_LEN && !(0 <= FrameLength(buf) <= MAX_PAYLOAD)
  }

  /** No frame can be taken from the front of `buf`. */
  predicate Stuck(buf: seq<Byte>) {
    |buf| < HEADER_LEN || BadHeader(buf) || |buf| < HEADER_LEN + FrameLength(buf)
  }

  /** What a sender writes for one payload; the length is cast to 32 bits. */
  function Frame(p: Payload): seq<Byte> {
    BigEndian(|p| % 0x1_0000_0000, HEADER_LEN) + p
  }

  function Frames(ps: seq<Payload>): seq<Byte> {
    if ps == [] then [] else Frame(ps[0]) + Frames(ps[1..])
  }

  /** `stream` starts with the legal frames of `ps`, and `rest` follows them. */
  ghost predicate Cut(stream: seq<Byte>, ps: seq<Payload>, rest: seq<Byte>) {
    && stream == Frames(ps) + rest
    && (forall p :: p in ps ==> |p| <= MAX_PAYLOAD)
  }

  /** `ps` is the maximal sequence of legal frames at the front of `stream`. */
  ghost predicate Parsed(stream: seq<Byte>, ps: seq<Payload>, rest: seq<Byte>) {
    Cut(stream, ps, rest) && Stuck(rest)
  }

  lemma LegalFrame(p: Payload, tail: seq<Byte>)
    requires |p| <= MAX_PAYLOAD
    ensures FrameLength(Frame(p) + tail) == |p|
    ensures !Stuck(Frame(p) + tail)
  {
    Capacities();
    DecodeEncode(|p|, HEADER_LEN);
    assert (Frame(p) + tail)[..HEADER_LEN] == BigEndian(|p|, HEADER_LEN);
  }

  /** On the wire: four bytes of length, then the payload. */
  lemma FrameLayout(p: Payload)
    ensures Frame(p) == Four(|p| % 0x1_0000_0000) + p
  {
    FourLayout(|p| % 0x1_0000_0000);
  }

  /** A header is illegal exactly when its four bytes, read as a number without sign, exceed 65536. */
  lemma BadHeaderIff(buf: seq<Byte>)
    requires |buf| >= 4
    ensures BadHeader(buf) <==> Value(buf[0], buf[1], buf[2], buf[3]) > 65536
  {
    ValueRead(buf[..4]);
    Capacities();
  }

  lemma TakenFrame(buf: seq<Byte>)
    requires !Stuck(buf)
    ensures buf[..HEADER_LEN + FrameLength(buf)] == Frame(buf[HEADER_LEN..HEADER_LEN + FrameLength(buf)])
  {
    var len := FrameLength(buf);
    EncodeDecode(buf[..HEADER_LEN]);
    assert buf[..HEADER_LEN + len] == buf[..HEADER_LEN] + buf[HEADER_LEN..HEADER_LEN + len];
  }

  lemma {:induction false} FramesAppend(ps: seq<Payload>, qs: seq<Payload>)
    ensures Frames(ps + qs) == Frames(ps) + Frames(qs)
  {
    if ps == [] {
      assert ps + qs == qs;
    } else {
      var first := Frame(ps[0]);
      assert (ps + qs)[1..] == ps[1..] + qs;
      FramesAppend(ps[1..], qs);
      Associative(first, Frames(ps[1..]), Frames(qs));
    }
  }

  lemma ParsedCons(buf: seq<Byte>, ps: seq<Payload>, rest: seq<Byte>)
    requires !Stuck(buf)
    requires Parsed(buf[HEADER_LEN + FrameLength(buf)..], ps, rest)
    ensures Parsed(buf, [buf[HEADER_LEN..HEADER_LEN + FrameLength(buf)]] + ps, rest)
  {
    var n := HEADER_LEN + FrameLength(buf);
    var p := buf[HEADER_LEN..n];
    TakenFrame(buf);
    assert ([p] + ps)[1..] == ps;
    assert Frames([p] + ps) == Frame(p) + Frames(ps);
    assert buf == buf[..n] + buf[n..];
    Associative(Frame(p), Frames(ps), rest);
  }

  /** Every stream has a maximal frame prefix. */
  function Parse(buf: seq<Byte>): (r: (seq<Payload>, seq<Byte>))
    ensures Parsed(buf, r.0, r.1)
    decreases |buf|
  {
    if Stuck(buf) then
      ([], buf)
    else
      var n := HEADER_LEN + FrameLength(buf);
      var (ps, rest) := Parse(buf[n..]);
      ParsedCons(buf, ps, rest);
      ([buf[HEADER_LEN..n]] + ps, rest)
  }

  lemma CutNext(stream: seq<Byte>, ps: seq<Payload>, rest: seq<Byte>)
    requires Cut(stream, ps, rest) && !Stuck(rest)
    ensures var n := HEADER_LEN + FrameLength(rest); Cut(stream, ps + [rest[HEADER_LEN..n]], rest[n..])
  {
    var n := HEADER_LEN + FrameLength(rest);
    var p := rest[HEADER_LEN..n];
    TakenFrame(rest);
    FramesAppend(ps, [p]);
    assert Frames([p]) == Frame(p) + Frames([]) == Frame(p);
    assert rest == rest[..n] + rest[n..];
    Associative(Frames(ps), Frame(p), rest[n..]);
  }

  lemma FirstFrame(ps: seq<Payload>, rest: seq<Byte>)
    requires ps != [] && |ps[0]| <= MAX_PAYLOAD
    ensures var buf := Frames(ps) + rest;
            && !Stuck(buf)
            && FrameLength(buf) == |ps[0]|
            && buf[HEADER_LEN..HEADER_LEN + |ps[0]|] == ps[0]
            && buf[HEADER_LEN + |ps[0]|..] == Frames(ps[1..]) + rest
  {
    var tail := Frames(ps[1..]) + rest;
    assert Frames(ps) + rest == Frame(ps[0]) + tail;
    LegalFrame(ps[0], tail);
  }

  lemma ParseFirst(ps: seq<Payload>, rest: seq<Byte>)
    requires ps != [] && |ps[0]| <= MAX_PAYLOAD
    ensures var (qs, t) := Parse(Frames(ps[1..]) + rest);
            Parse(Frames(ps) + rest) == ([ps[0]] + qs, t)
  {
    FirstFrame(ps, rest);
  }

  /** The maximal frame prefix is unique: any way of cutting the stream into legal frames is `Parse`. */
  lemma {:induction false} ParsedUnique(buf: seq<Byte>, ps: seq<Payload>, rest: seq<Byte>)
    requires Parsed(buf, ps, rest)
    ensures Parse(buf) == (ps, rest)
    decreases |ps|
  {
    if ps == [] {
      assert buf == rest;
    } else {
      ParseFirst(ps, rest);
      ParsedUnique(Frames(ps[1..]) + rest, ps[1..], rest);
      assert ps == [ps[0]] + ps[1..];
    }
  }

  // ----- one reader, many chunks -----

  /** A connection's input buffer, the payloads handed on so far, and the calls of `shutdown`. */
  datatype Reader = Reader(buffer: seq<Byte>, delivered: seq<Payload>, shutdowns: nat)

  const FRESH := Reader([], [], 0)

  function Receive(r: Reader, chunk: seq<Byte>): Reader {
    var (ps, rest) := Parse(r.buffer + chunk);
    Reader(rest, r.delivered + ps, r.shutdowns + if BadHeader(rest) then 1 else 0)
  }

  lemma ReceiveIs(r: Reader, chunk: seq<Byte>, got: seq<Payload>, rest: seq<Byte>)
    requires Parsed(r.buffer + chunk, got, rest)
    ensures Receive(r, chunk) == Reader(rest, r.delivered + got, r.shutdowns + if BadHeader(rest) then 1 else 0)
  {
    ParsedUnique(r.buffer + chunk, got, rest);
  }

  /** `CutNext` for a reader that takes the header off the buffer first. */
  lemma TakeNext(stream: seq<Byte>, got: seq<Payload>, buf: seq<Byte>)
    requires Cut(stream, got, buf) && !Stuck(buf)
    ensures var len := FrameLength(buf);
            Cut(stream, got + [buf[HEADER_LEN..][..len]], buf[HEADER_LEN..][len..])
  {
    var len := FrameLength(buf);
    CutNext(stream, got, buf);
    assert buf[HEADER_LEN..][..len] == buf[HEADER_LEN..HEADER_LEN + len];
    assert buf[HEADER_LEN..][len..] == buf[HEADER_LEN + len..];
  }

  function ReceiveAll(r: Reader, chunks: seq<seq<Byte>>): Reader
    decreases |chunks|
  {
    if chunks == [] then r else ReceiveAll(Receive(r, chunks[0]), chunks[1..])
  }

  function Concat(chunks: seq<seq<Byte>>): seq<Byte> {
    if chunks == [] then [] else chunks[0] + Concat(chunks[1..])
  }

  lemma ParsedJoin(s: seq<Byte>, ps: seq<Payload>, mid: seq<Byte>, d: seq<Byte>, qs: seq<Payload>, rest: seq<Byte>)
    requires Parsed(s, ps, mid) && Parsed(mid + d, qs, rest)
    ensures Parsed(s + d, ps + qs, rest)
  {
    FramesAppend(ps, qs);
    Associative(Frames(ps), mid, d);
    Associative(Frames(ps), Frames(qs), rest);
  }

  lemma ParseTwice(s: seq<Byte>, d: seq<Byte>, ps: seq<Payload>, mid: seq<Byte>, qs: seq<Payload>, rest: seq<Byte>)
    requires Parse(s) == (ps, mid) && Parse(mid + d) == (qs, rest)
    ensures Parse(s + d) == (ps + qs, rest)
  {
    ParsedJoin(s, ps, mid, d, qs, rest);
    ParsedUnique(s + d, ps + qs, rest);
  }

  lemma ReceiveTwice(r: Reader, c: seq<Byte>, d: seq<Byte>)
    ensures Receive(Receive(r, c), d).buffer == Receive(r, c + d).buffer
    ensures Receive(Receive(r, c), d).delivered == Receive(r, c + d).delivered
  {
    var first := Parse(r.buffer + c);
    var second := Parse(first.1 + d);
    ParseTwice(r.buffer + c, d, first.0, first.1, second.0, second.1);
    assert r.buffer + (c + d) == (r.buffer + c) + d;
    assert r.delivered + (first.0 + second.0) == (r.delivered + first.0) + second.0;
  }

  /** How a stream is cut into chunks changes neither what is delivered nor what stays buffered. */
  lemma {:induction false} ChunkIndependent(r: Reader, chunks: seq<seq<Byte>>)
    requires Stuck(r.buffer)
    ensures ReceiveAll(r, chunks).buffer == Receive(r, Concat(chunks)).buffer
    ensures ReceiveAll(r, chunks).delivered == Receive(r, Concat(chunks)).delivered
    decreases |chunks|
  {
    if chunks == [] {
      assert r.buffer + [] == r.buffer;
    } else {
      ChunkIndependent(Receive(r, chunks[0]), chunks[1..]);
      ReceiveTwice(r, chunks[0], Concat(chunks[1..]));
    }
  }

  /**
   The payloads delivered from a fresh connection are exactly the maximal legal frame prefix
   of everything received, and the buffer holds exactly the rest.
   */
  lemma DeliversMaximalPrefix(chunks: seq<seq<Byte>>, ps: seq<Payload>, rest: seq<Byte>)
    ensures Parsed(Concat(chunks), ps, rest) <==>
            ReceiveAll(FRESH, chunks).delivered == ps && ReceiveAll(FRESH, chunks).buffer == rest
  {
    ChunkIndependent(FRESH, chunks);
    var stream := Concat(chunks);
    assert [] + stream == stream;
    var (qs, t) := Parse(stream);
    assert [] + qs == qs;
    if Parsed(stream, ps, rest) {
      ParsedUnique(stream, ps, rest);
    }
  }

  lemma PoisonedStep(r: Reader, chunk: seq<Byte>)
    requires BadHeader(r.buffer)
    ensures Receive(r, chunk) == Reader(r.buffer + chunk, r.delivered, r.shutdowns + 1)
    ensures BadHeader(r.buffer + chunk)
  {
    assert (r.buffer + chunk)[..HEADER_LEN] == r.buffer[..HEADER_LEN];
  }

  /** After an illegal header nothing more is delivered or consumed; every later chunk shuts down again. */
  lemma {:induction false} PoisonedForever(r: Reader, chunks: seq<seq<Byte>>)
    requires BadHeader(r.buffer)
    ensures ReceiveAll(r, chunks) ==
            Reader(r.buffer + Concat(chunks), r.delivered, r.shutdowns + |chunks|)
    decreases |chunks|
  {
    if chunks == [] {
      assert r.buffer + [] == r.buffer;
    } else {
      PoisonedStep(r, chunks[0]);
      PoisonedForever(Receive(r, chunks[0]), chunks[1..]);
      Associative(r.buffer, chunks[0], Concat(chunks[1..]));
    }
  }

  lemma {:induction false} ShutDownIfBad(r: Reader, chunks: seq<seq<Byte>>)
    requires Stuck(r.buffer) && (r.shutdowns > 0 <==> BadHeader(r.buffer))
    ensures ReceiveAll(r, chunks).shutdowns > 0 <==> BadHeader(ReceiveAll(r, chunks).buffer)
    decreases |chunks|
  {
    if chunks != [] {
      if BadHeader(r.buffer) {
        PoisonedStep(r, chunks[0]);
      }
      ShutDownIfBad(Receive(r, chunks[0]), chunks[1..]);
    }
  }

  /** A connection has been shut down exactly when an illegal header follows the legal frames of all it has received. */
  lemma ShutDownIffBad(chunks: seq<seq<Byte>>, ps: seq<Payload>, rest: seq<Byte>)
    requires Parsed(Concat(chunks), ps, rest)
    ensures ReceiveAll(FRESH, chunks).shutdowns > 0 <==> BadHeader(rest)
  {
    DeliversMaximalPrefix(chunks, ps, rest);
    ShutDownIfBad(FRESH, chunks);
  }

  /**
   Whatever a sender frames, in whatever chunks it comes: exactly the payloads sent are delivered, with
   nothing left over, exactly when each of them is at most 65536 bytes.
   */
  lemma SentArrivesIffSmall(ps: seq<Payload>, chunks: seq<seq<Byte>>)
    requires Concat(chunks) == Frames(ps)
    ensures (ReceiveAll(FRESH, chunks).delivered == ps && ReceiveAll(FRESH, chunks).buffer == [])
            <==> forall p :: p in ps ==> |p| <= 65536
  {
    assert Frames(ps) + [] == Frames(ps);
    DeliversMaximalPrefix(chunks, ps, []);
  }

  // ----- the two readers -----

  /** The server's codec; `delivered` records the payloads passed to `handleMessage`. */
  class ServerReader {
    var buffer: seq<Byte>
    var delivered: seq<Payload>
    var shutdowns: nat

    function View(): Reader
      reads this
    {
      Reader(buffer, delivered, shutdowns)
    }

    constructor ()
      ensures View() == FRESH
    {
      buffer, delivered, shutdowns := [], [], 0;
    }

    method OnMessage(chunk: seq<Byte>)
      modifies this
      ensures View() == Receive(old(View()), chunk)
    {
      buffer := buffer + chunk;
      ghost var stream := buffer;
      ghost var got: seq<Payload> := [];
      while |buffer| >= HEADER_LEN
        invariant Cut(stream, got, buffer)
        invariant delivered == old(delivered) + got && shutdowns == old(shutdowns)
        decreases |buffer|
      {
        var len := FrameLength(buffer);
        if len > MAX_PAYLOAD || len < 0 {
          shutdowns := shutdowns + 1;
          break;
        } else if |buffer| >= len + HEADER_LEN {
          TakeNext(stream, got, buffer);
          buffer := buffer[HEADER_LEN..];
          var payload := buffer[..len];
          delivered := delivered + [payload];
          buffer := buffer[len..];
          got := got + [payload];
        } else {
          break;
        }
      }
      ReceiveIs(old(View()), chunk, got, buffer);
    }
  }

  /** The client's reader; it takes header and payload off the buffer before using the payload. */
  class ClientReader {
    var buffer: seq<Byte>
    var delivered: seq<Payload>
    var shutdowns: nat

    function View(): Reader
      reads this
    {
      Reader(buffer, delivered, shutdowns)
    }

    constructor ()
      ensures View() == FRESH
    {
      buffer, delivered, shutdowns := [], [], 0;
    }

    method OnMessage(chunk: seq<Byte>)
      modifies this
      ensures View() == Receive(old(View()), chunk)
    {
      buffer := buffer + chunk;
      ghost var stream := buffer;
      ghost var got: seq<Payload> := [];
      while |buffer| >= 4
        invariant Cut(stream, got, buffer)
        invariant delivered == old(delivered) + got && shutdowns == old(shutdowns)
        decreases |buffer|
      {
        var len := FrameLength(buffer);
        if len > MAX_PAYLOAD || len < 0 {
          shutdowns := shutdowns + 1;
          break;
        }
        if |buffer| >= len + 4 {
          TakeNext(stream, got, buffer);
          buffer := buffer[4..];
          var payload := buffer[..len];
          buffer := buffer[len..];
          delivered := delivered + [payload];
          got := got + [payload];
        } else {
          break;
        }
      }
      ReceiveIs(old(View()), chunk, got, buffer);
    }
  }
}
