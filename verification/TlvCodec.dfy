/** The type-length-value codec. */
module TlvCodec {
  import opened Bytes

  const PREFIX_LEN := 6  // a 16-bit type and a 32-bit length

  /** `length` is a field of its own: the encoder writes it as it stands. */
  datatype Tlv = Tlv(kind: Word16, length: Word32, value: seq<Byte>) {
    predicate Consistent() {
      length == |value|
    }
  }

  function Prefix(kind: Word16, length: Word32): (s: seq<Byte>)
    ensures |s| == PREFIX_LEN
  {
    BigEndian(kind, 2) + BigEndian(length, 4)
  }

  function KindOf(data: seq<Byte>): Word16
    requires |data| >= PREFIX_LEN
  {
    Capacities();
    FromBigEndian(data[..2])
  }

  function LengthOf(data: seq<Byte>): Word32
    requires |data| >= PREFIX_LEN
  {
    Capacities();
    FromBigEndian(data[2..PREFIX_LEN])
  }

  /** `data` starts with a complete TLV. */
  predicate Complete(data: seq<Byte>) {
    |data| >= PREFIX_LEN && |data| >= PREFIX_LEN + LengthOf(data)
  }

  function First(data: seq<Byte>): Tlv
    requires Complete(data)
  {
    Tlv(KindOf(data), LengthOf(data), data[PREFIX_LEN..PREFIX_LEN + LengthOf(data)])
  }

  function Encoded(ts: seq<Tlv>): seq<Byte> {
    if ts == [] then [] else Prefix(ts[0].kind, ts[0].length) + ts[0].value + Encoded(ts[1..])
  }

  function Decoded(data: seq<Byte>): seq<Tlv>
    decreases |data|
  {
    if Complete(data) then [First(data)] + Decoded(data[PREFIX_LEN + LengthOf(data)..]) else []
  }

  /** `data` is the encoding of the consistent `ts` followed by `rest`. */
  ghost predicate Cut(data: seq<Byte>, ts: seq<Tlv>, rest: seq<Byte>) {
    && data == Encoded(ts) + rest
    && (forall t :: t in ts ==> t.Consistent())
  }

  /** On the wire: two bytes of type, four bytes of length, then the value. */
  lemma TlvLayout(t: Tlv)
    ensures Encoded([t]) == Two(t.kind) + Four(t.length) + t.value
  {
    TwoLayout(t.kind);
    FourLayout(t.length);
    assert Encoded([t]) == Prefix(t.kind, t.length) + t.value + Encoded([]);
  }

  lemma PrefixRead(kind: Word16, length: Word32, tail: seq<Byte>)
    ensures KindOf(Prefix(kind, length) + tail) == kind
    ensures LengthOf(Prefix(kind, length) + tail) == length
  {
    Capacities();
    DecodeEncode(kind, 2);
    DecodeEncode(length, 4);
    var data := Prefix(kind, length) + tail;
    assert data[..2] == BigEndian(kind, 2);
    assert data[2..PREFIX_LEN] == BigEndian(length, 4);
  }

  lemma PrefixWritten(data: seq<Byte>)
    requires |data| >= PREFIX_LEN
    ensures data[..PREFIX_LEN] == Prefix(KindOf(data), LengthOf(data))
  {
    EncodeDecode(data[..2]);
    EncodeDecode(data[2..PREFIX_LEN]);
    assert data[..PREFIX_LEN] == data[..2] + data[2..PREFIX_LEN];
  }

  lemma FirstRead(t: Tlv, tail: seq<Byte>)
    requires t.Consistent()
    ensures var data := Prefix(t.kind, t.length) + t.value + tail;
            && Complete(data)
            && First(data) == t
            && data[PREFIX_LEN + LengthOf(data)..] == tail
  {
    var data := Prefix(t.kind, t.length) + t.value + tail;
    PrefixRead(t.kind, t.length, t.value + tail);
    assert data == Prefix(t.kind, t.length) + (t.value + tail);
    assert data[PREFIX_LEN..PREFIX_LEN + t.length] == t.value;
  }

  lemma FirstWritten(data: seq<Byte>)
    requires Complete(data)
    ensures var t := First(data);
            && t.Consistent()
            && data == Prefix(t.kind, t.length) + t.value + data[PREFIX_LEN + LengthOf(data)..]
  {
    PrefixWritten(data);
    var n := PREFIX_LEN + LengthOf(data);
    assert data == data[..PREFIX_LEN] + data[PREFIX_LEN..n] + data[n..];
  }

  /** Decoding inverts encoding, whatever incomplete tail follows. */
  lemma {:induction false} DecodeInvertsEncode(ts: seq<Tlv>, tail: seq<Byte>)
    requires forall t :: t in ts ==> t.Consistent()
    requires !Complete(tail)
    ensures Decoded(Encoded(ts) + tail) == ts
    decreases |ts|
  {
    if ts == [] {
      assert Encoded(ts) + tail == tail;
    } else {
      var t := ts[0];
      var more := Encoded(ts[1..]) + tail;
      assert Encoded(ts) + tail == Prefix(t.kind, t.length) + t.value + more by {
        Associative(Prefix(t.kind, t.length) + t.value, Encoded(ts[1..]), tail);
      }
      FirstRead(t, more);
      DecodeInvertsEncode(ts[1..], tail);
      assert ts == [t] + ts[1..];
    }
  }

  /**
   For every input, re-encoding what was decoded gives a prefix of the input,
   and what follows that prefix holds no complete TLV.
   */
  lemma {:induction false} DecodeIsMaximal(data: seq<Byte>) returns (rest: seq<Byte>)
    ensures Cut(data, Decoded(data), rest) && !Complete(rest)
    decreases |data|
  {
    if Complete(data) {
      var t := First(data);
      var more := data[PREFIX_LEN + LengthOf(data)..];
      FirstWritten(data);
      rest := DecodeIsMaximal(more);
      var ts := Decoded(more);
      assert Decoded(data) == [t] + ts && Decoded(data)[1..] == ts;
      calc {
        data;
        Prefix(t.kind, t.length) + t.value + (Encoded(ts) + rest);
        Prefix(t.kind, t.length) + t.value + Encoded(ts) + rest;
        Encoded(Decoded(data)) + rest;
      }
    } else {
      rest := data;
      assert Encoded([]) + data == data;
    }
  }

  /** The round trip holds exactly for lists whose length fields tell the truth. */
  lemma RoundTripIffConsistent(ts: seq<Tlv>)
    ensures Decoded(Encoded(ts)) == ts <==> forall t :: t in ts ==> t.Consistent()
  {
    if forall t :: t in ts ==> t.Consistent() {
      DecodeInvertsEncode(ts, []);
      assert Encoded(ts) + [] == Encoded(ts);
    } else {
      var _ := DecodeIsMaximal(Encoded(ts));
    }
  }

  lemma {:induction false} EncodedAppend(ts: seq<Tlv>, t: Tlv)
    ensures Encoded(ts + [t]) == Encoded(ts) + Prefix(t.kind, t.length) + t.value
  {
    if ts == [] {
      assert Encoded([t]) == Prefix(t.kind, t.length) + t.value + Encoded([]);
    } else {
      EncodedAppend(ts[1..], t);
      assert (ts + [t])[1..] == ts[1..] + [t];
    }
  }

  lemma CutNext(data: seq<Byte>, ts: seq<Tlv>, rest: seq<Byte>)
    requires Cut(data, ts, rest) && Complete(rest)
    ensures Cut(data, ts + [First(rest)], rest[PREFIX_LEN + LengthOf(rest)..])
  {
    var t := First(rest);
    var more := rest[PREFIX_LEN + LengthOf(rest)..];
    FirstWritten(rest);
    EncodedAppend(ts, t);
    calc {
      data;
      Encoded(ts) + (Prefix(t.kind, t.length) + t.value + more);
      Encoded(ts) + Prefix(t.kind, t.length) + t.value + more;
    }
  }

  lemma Slice(data: seq<Byte>, offset: nat, from: nat, to: nat)
    requires from <= to && offset + to <= |data|
    ensures data[offset..][from..to] == data[offset + from..offset + to]
    ensures data[offset..][to..] == data[offset + to..]
  {
  }

  lemma PrefixAt(data: seq<Byte>, offset: nat)
    requires offset + PREFIX_LEN <= |data|
    ensures FromBigEndian(data[offset..offset + 2]) == KindOf(data[offset..])
    ensures FromBigEndian(data[offset + 2..offset + PREFIX_LEN]) == LengthOf(data[offset..])
  {
    Slice(data, offset, 0, 2);
    Slice(data, offset, 2, PREFIX_LEN);
  }

  /** `CutNext` in terms of offsets into the input. */
  lemma CutNextAt(data: seq<Byte>, ts: seq<Tlv>, offset: nat, end: nat)
    requires offset + PREFIX_LEN <= end <= |data| && Cut(data, ts, data[offset..])
    requires LengthOf(data[offset..]) == end - offset - PREFIX_LEN
    ensures Cut(data, ts + [Tlv(KindOf(data[offset..]), LengthOf(data[offset..]), data[offset + PREFIX_LEN..end])], data[end..])
  {
    CutNext(data, ts, data[offset..]);
    Slice(data, offset, PREFIX_LEN, end - offset);
  }

  // ----- the codec's loops -----

  method Encode(tlvs: seq<Tlv>) returns (result: seq<Byte>)
    ensures result == Encoded(tlvs)
  {
    result := [];
    for i := 0 to |tlvs|
      invariant result == Encoded(tlvs[..i])
    {
      var tlv := tlvs[i];
      EncodedAppend(tlvs[..i], tlv);
      assert tlvs[..i + 1] == tlvs[..i] + [tlv];
      result := result + BigEndian(tlv.kind, 2);
      result := result + BigEndian(tlv.length, 4);
      result := result + tlv.value;
      assert result == Encoded(tlvs[..i]) + Prefix(tlv.kind, tlv.length) + tlv.value;
    }
    assert tlvs[..|tlvs|] == tlvs;
  }

  method Decode(data: seq<Byte>) returns (tlvs: seq<Tlv>)
    ensures tlvs == Decoded(data)
  {
    tlvs := [];
    var offset := 0;
    assert Encoded([]) + data == data;
    while offset + PREFIX_LEN <= |data|
      invariant 0 <= offset <= |data|
      invariant Cut(data, tlvs, data[offset..])
      invariant offset + PREFIX_LEN > |data| ==> !Complete(data[offset..])
      decreases |data| - offset
    {
      Capacities();
      PrefixAt(data, offset);
      ghost var start := offset;
      var kind: Word16 := FromBigEndian(data[offset..offset + 2]);
      offset := offset + 2;
      var length: Word32 := FromBigEndian(data[offset..offset + 4]);
      offset := offset + 4;
      if offset + length > |data| {
        DecodeInvertsEncode(tlvs, data[start..]);
        return;
      }
      CutNextAt(data, tlvs, start, offset + length);
      var value := data[offset..offset + length];
      tlvs := tlvs + [Tlv(kind, length, value)];
      offset := offset + length;
    }
    DecodeInvertsEncode(tlvs, data[offset..]);
  }

  method EncodeSingle(kind: Word16, value: seq<Byte>) returns (result: seq<Byte>)
    ensures result == Encoded([Tlv(kind, |value| % 0x1_0000_0000, value)])
  {
    result := [];
    result := result + BigEndian(kind, 2);
    result := result + BigEndian(|value| % 0x1_0000_0000, 4);
    result := result + value;
    EncodedAppend([], Tlv(kind, |value| % 0x1_0000_0000, value));
  }

  /** `before` is the caller's record; a failed call may have overwritten its type and length. */
  method DecodeSingle(data: seq<Byte>, before: Tlv) returns (ok: bool, tlv: Tlv)
    ensures ok <==> Decoded(data) != []
    ensures ok ==> tlv == Decoded(data)[0]
    ensures |data| < PREFIX_LEN ==> tlv == before
    ensures !ok && |data| >= PREFIX_LEN ==> tlv == Tlv(KindOf(data), LengthOf(data), before.value)
  {
    tlv := before;
    if |data| < PREFIX_LEN {
      return false, tlv;
    }
    Capacities();
    tlv := tlv.(kind := FromBigEndian(data[..2]));
    tlv := tlv.(length := FromBigEndian(data[2..2 + 4]));
    if |data| < PREFIX_LEN + tlv.length {
      return false, tlv;
    }
    tlv := tlv.(value := data[PREFIX_LEN..PREFIX_LEN + tlv.length]);
    return true, tlv;
  }

  lemma FirstIsSmall(data: seq<Byte>)
    ensures Decoded(data) != [] ==> |Decoded(data)[0].value| < 0x1_0000_0000
  {
  }

  /** A single encoded value comes back alone and whole exactly when its size fits 32 bits. */
  lemma SingleRoundTrip(kind: Word16, value: seq<Byte>)
    ensures (Decoded(Encoded([Tlv(kind, |value| % 0x1_0000_0000, value)])) != [] &&
             Decoded(Encoded([Tlv(kind, |value| % 0x1_0000_0000, value)]))[0].value == value)
            <==> |value| < 0x1_0000_0000
  {
    var t := Tlv(kind, |value| % 0x1_0000_0000, value);
    var data := Encoded([t]);
    if |value| < 0x1_0000_0000 {
      RoundTripIffConsistent([t]);
    } else {
      FirstIsSmall(data);
    }
  }
}
