/** The checksummed message envelope: a 24-byte header in network order, then the body. */
module MessageWrapper {
  import opened Bytes

  const MAGIC := 0x4348_4154
  const HEADER_SIZE := 24
  const WORD32 := 0x1_0000_0000

  datatype Header = Header(magic: Word32, version: Word16, cmd: Word16, bodyLen: Word32, checksum: Word32, seqNo: Word64)

  datatype Unwrapped = Rejected | Accepted(header: Header, body: seq<Byte>)

  function EncodeHeader(h: Header): (s: seq<Byte>)
    ensures |s| == HEADER_SIZE
  {
    BigEndian(h.magic, 4) + BigEndian(h.version, 2) + BigEndian(h.cmd, 2)
    + BigEndian(h.bodyLen, 4) + BigEndian(h.checksum, 4) + BigEndian(h.seqNo, 8)
  }

  function DecodeHeader(data: seq<Byte>): Header
    requires |data| >= HEADER_SIZE
  {
    Capacities();
    Header(FromBigEndian(data[0..4]), FromBigEndian(data[4..6]), FromBigEndian(data[6..8]),
           FromBigEndian(data[8..12]), FromBigEndian(data[12..16]), FromBigEndian(data[16..24]))
  }

  /** The sum of the bytes, without wrap-around. */
  function ByteSum(s: seq<Byte>): nat {
    if s == [] then 0 else ByteSum(s[..|s| - 1]) + s[|s| - 1]
  }

  function HeaderFor(cmd: Word16, body: seq<Byte>, seqNo: Word64): Header {
    Header(MAGIC, 1, cmd, |body| % WORD32, ByteSum(body) % WORD32, seqNo)
  }

  function Wrapped(cmd: Word16, body: seq<Byte>, seqNo: Word64): seq<Byte> {
    EncodeHeader(HeaderFor(cmd, body, seqNo)) + body
  }

  function Open(data: seq<Byte>): Unwrapped {
    if |data| < HEADER_SIZE then Rejected else
    var h := DecodeHeader(data);
    if h.magic != MAGIC || |data| < HEADER_SIZE + h.bodyLen then Rejected else
    var body := data[HEADER_SIZE..HEADER_SIZE + h.bodyLen];
    if ByteSum(body) % WORD32 != h.checksum then Rejected else Accepted(h, body)
  }

  lemma HeaderLayout(h: Header)
    ensures EncodeHeader(h) == Four(h.magic) + Two(h.version) + Two(h.cmd) + Four(h.bodyLen) + Four(h.checksum) + Eight(h.seqNo)
  {
    FourLayout(h.magic);
    TwoLayout(h.version);
    TwoLayout(h.cmd);
    FourLayout(h.bodyLen);
    FourLayout(h.checksum);
    EightLayout(h.seqNo);
  }

  lemma MagicBytes()
    ensures Four(MAGIC) == [0x43, 0x48, 0x41, 0x54] && Two(1) == [0, 1]
  {
  }

  /** What the sender puts into the header. */
  lemma HeaderFields(cmd: Word16, body: seq<Byte>, seqNo: Word64)
    ensures HeaderFor(cmd, body, seqNo) ==
            Header(0x4348_4154, 1, cmd, |body| % 0x1_0000_0000, ByteSum(body) % 0x1_0000_0000, seqNo)
  {
  }

  /** On the wire: "CHAT", version 1, command, body size, checksum, sequence number, and the body. */
  lemma WrappedLayout(cmd: Word16, body: seq<Byte>, seqNo: Word64)
    ensures var h := HeaderFor(cmd, body, seqNo);
            Wrapped(cmd, body, seqNo) ==
            [0x43, 0x48, 0x41, 0x54] + [0, 1] + Two(cmd) + Four(h.bodyLen) + Four(h.checksum) + Eight(seqNo) + body
  {
    MagicBytes();
    HeaderLayout(HeaderFor(cmd, body, seqNo));
  }

  /** The sum is that of the bytes one by one: these laws leave no other function. */
  lemma {:induction false} ByteSumLaws(s: seq<Byte>, t: seq<Byte>, b: Byte)
    ensures ByteSum([]) == 0 && ByteSum([b]) == b && ByteSum(s + t) == ByteSum(s) + ByteSum(t)
    decreases |t|
  {
    assert [b][..0] == [];
    if t == [] {
      assert s + t == s;
    } else {
      ByteSumLaws(s, t[..|t| - 1], b);
      assert (s + t)[..|s + t| - 1] == s + t[..|t| - 1];
    }
  }

  lemma HeaderRead(h: Header, tail: seq<Byte>)
    ensures DecodeHeader(EncodeHeader(h) + tail) == h
  {
    Capacities();
    var data := EncodeHeader(h) + tail;
    assert data[0..4] == BigEndian(h.magic, 4);
    assert data[4..6] == BigEndian(h.version, 2);
    assert data[6..8] == BigEndian(h.cmd, 2);
    assert data[8..12] == BigEndian(h.bodyLen, 4);
    assert data[12..16] == BigEndian(h.checksum, 4);
    assert data[16..24] == BigEndian(h.seqNo, 8);
    DecodeEncode(h.magic, 4);
    DecodeEncode(h.version, 2);
    DecodeEncode(h.cmd, 2);
    DecodeEncode(h.bodyLen, 4);
    DecodeEncode(h.checksum, 4);
    DecodeEncode(h.seqNo, 8);
  }

  lemma HeaderWritten(data: seq<Byte>)
    requires |data| >= HEADER_SIZE
    ensures EncodeHeader(DecodeHeader(data)) == data[..HEADER_SIZE]
  {
    EncodeDecode(data[0..4]);
    EncodeDecode(data[4..6]);
    EncodeDecode(data[6..8]);
    EncodeDecode(data[8..12]);
    EncodeDecode(data[12..16]);
    EncodeDecode(data[16..24]);
    assert data[..HEADER_SIZE] ==
           data[0..4] + data[4..6] + data[6..8] + data[8..12] + data[12..16] + data[16..24];
  }

  /** What the receiver makes of a header, a body of the announced length and a tail. */
  lemma OpenParts(h: Header, body: seq<Byte>, tail: seq<Byte>)
    requires |body| == h.bodyLen
    ensures Open(EncodeHeader(h) + body + tail) ==
            if h.magic == MAGIC && ByteSum(body) % WORD32 == h.checksum then Accepted(h, body) else Rejected
  {
    var data := EncodeHeader(h) + body + tail;
    assert data == EncodeHeader(h) + (body + tail);
    HeaderRead(h, body + tail);
    assert data[HEADER_SIZE..HEADER_SIZE + h.bodyLen] == body;
  }

  lemma AcceptedSize(data: seq<Byte>)
    ensures Open(data).Accepted? ==> |Open(data).body| < WORD32
  {
  }

  /** Unwrapping recovers command, sequence number and body, behind any tail, exactly when the body size fits 32 bits. */
  lemma UnwrapInvertsWrap(cmd: Word16, body: seq<Byte>, seqNo: Word64, tail: seq<Byte>)
    ensures (var r := Open(Wrapped(cmd, body, seqNo) + tail);
             r.Accepted? && r.body == body && r.header.cmd == cmd && r.header.seqNo == seqNo)
            <==> |body| < WORD32
  {
    var data := Wrapped(cmd, body, seqNo) + tail;
    if |body| < WORD32 {
      OpenParts(HeaderFor(cmd, body, seqNo), body, tail);
    } else {
      AcceptedSize(data);
    }
  }

  /** An accepted input is its re-encoded header, its body and a tail, with a matching checksum. */
  lemma AcceptedIsCanonical(data: seq<Byte>)
    requires Open(data).Accepted?
    ensures var r := Open(data);
            && r.header.magic == MAGIC
            && r.header.bodyLen == |r.body|
            && r.header.checksum == ByteSum(r.body) % WORD32
            && EncodeHeader(r.header) + r.body <= data
  {
    HeaderWritten(data);
    var r := Open(data);
    assert data == data[..HEADER_SIZE] + r.body + data[HEADER_SIZE + |r.body|..];
  }

  /** A body replaced by another of the same length is rejected exactly when the byte sums differ modulo 2^32. */
  lemma TamperedBody(h: Header, body: seq<Byte>, other: seq<Byte>)
    requires h.magic == MAGIC && |other| == |body| == h.bodyLen && h.checksum == ByteSum(body) % WORD32
    ensures Open(EncodeHeader(h) + other) == Rejected <==> ByteSum(other) % WORD32 != ByteSum(body) % WORD32
  {
    OpenParts(h, other, []);
    assert EncodeHeader(h) + other + [] == EncodeHeader(h) + other;
  }

  lemma {:induction false} ByteSumUpdate(s: seq<Byte>, i: nat, b: Byte)
    requires i < |s|
    ensures ByteSum(s[i := b]) == ByteSum(s) - s[i] + b
  {
    var front := s[..|s| - 1];
    if i == |s| - 1 {
      assert s[i := b][..|s| - 1] == front;
    } else {
      ByteSumUpdate(front, i, b);
      assert s[i := b][..|s| - 1] == front[i := b];
    }
  }

  lemma SmallChangeShows(sum: nat, change: int)
    requires -256 < change < 256 && change != 0 && sum + change >= 0
    ensures (sum + change) % WORD32 != sum % WORD32
  {
  }

  /** A single changed body byte is always rejected. */
  lemma SingleByteDetected(cmd: Word16, body: seq<Byte>, seqNo: Word64, i: nat, b: Byte)
    requires i < |body| < WORD32 && b != body[i]
    ensures Open(EncodeHeader(HeaderFor(cmd, body, seqNo)) + body[i := b]) == Rejected
  {
    ByteSumUpdate(body, i, b);
    SmallChangeShows(ByteSum(body), b - body[i]);
    TamperedBody(HeaderFor(cmd, body, seqNo), body, body[i := b]);
  }

  /** Exchanging two body bytes is never noticed. */
  lemma SwapUndetected(cmd: Word16, body: seq<Byte>, seqNo: Word64, i: nat, j: nat)
    requires i < |body| < WORD32 && j < |body|
    ensures Open(EncodeHeader(HeaderFor(cmd, body, seqNo)) + body[i := body[j]][j := body[i]]).Accepted?
  {
    ByteSumUpdate(body, i, body[j]);
    ByteSumUpdate(body[i := body[j]], j, body[i]);
    TamperedBody(HeaderFor(cmd, body, seqNo), body, body[i := body[j]][j := body[i]]);
  }

  // ----- the source's loops and steps -----

  method ComputeChecksum(data: seq<Byte>) returns (checksum: Word32)
    ensures checksum == ByteSum(data) % WORD32
  {
    checksum := 0;
    for i := 0 to |data|
      invariant checksum == ByteSum(data[..i]) % WORD32
    {
      checksum := (checksum + data[i]) % WORD32;
      assert ByteSum(data[..i + 1]) == ByteSum(data[..i]) + data[i] by {
        assert data[..i + 1][..i] == data[..i];
      }
    }
    assert data[..|data|] == data;
  }

  method Wrap(cmd: Word16, body: seq<Byte>, seqNo: Word64) returns (result: seq<Byte>)
    ensures result == Wrapped(cmd, body, seqNo)
  {
    var checksum := ComputeChecksum(body);
    var h := Header(MAGIC, 1, cmd, |body| % WORD32, checksum, seqNo);
    result := EncodeHeader(h);
    result := result + body;
  }

  /** `header` and `body` are the caller's records, overwritten as far as decoding got. */
  method Unwrap(data: seq<Byte>, header: Header, body: seq<Byte>) returns (ok: bool, outHeader: Header, outBody: seq<Byte>)
    ensures ok <==> Open(data).Accepted?
    ensures ok ==> Open(data) == Accepted(outHeader, outBody)
    ensures |data| < HEADER_SIZE ==> outHeader == header && outBody == body
    ensures |data| >= HEADER_SIZE ==> outHeader == DecodeHeader(data)
    ensures !ok && outBody != body ==>
              && outHeader.magic == MAGIC && HEADER_SIZE + outHeader.bodyLen <= |data|
              && outBody == data[HEADER_SIZE..HEADER_SIZE + outHeader.bodyLen]
              && ByteSum(outBody) % WORD32 != outHeader.checksum
  {
    outHeader, outBody := header, body;
    if |data| < HEADER_SIZE {
      return false, outHeader, outBody;
    }
    outHeader := DecodeHeader(data);
    if outHeader.magic != MAGIC {
      return false, outHeader, outBody;
    }
    if |data| < HEADER_SIZE + outHeader.bodyLen {
      return false, outHeader, outBody;
    }
    outBody := data[HEADER_SIZE..HEADER_SIZE + outHeader.bodyLen];
    var computed := ComputeChecksum(outBody);
    if computed != outHeader.checksum {
      return false, outHeader, outBody;
    }
    return true, outHeader, outBody;
  }
}
