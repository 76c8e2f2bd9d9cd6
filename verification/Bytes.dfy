/** Byte strings and the big-endian integers that the wire formats are built from. */
module Bytes {
  type Byte = x: int | 0 <= x < 256
  type Word16 = x: int | 0 <= x < 0x1_0000
  type Word32 = x: int | 0 <= x < 0x1_0000_0000
  type Word64 = x: int | 0 <= x < 0x1_0000_0000_0000_0000

  /** 256 to the power `width`: one more than the largest number `width` bytes hold. */
  function Capacity(width: nat): (c: nat)
    ensures c > 0
  {
    if width == 0 then 1 else 256 * Capacity(width - 1)
  }

  /** The low `width` bytes of `n`, most significant byte first. */
  function BigEndian(n: nat, width: nat): (s: seq<Byte>)
    ensures |s| == width
  {
    if width == 0 then [] else BigEndian(n / 256, width - 1) + [n % 256]
  }

  function FromBigEndian(s: seq<Byte>): (n: nat)
    ensures n < Capacity(|s|)
  {
    if s == [] then 0 else FromBigEndian(s[..|s| - 1]) * 256 + s[|s| - 1]
  }

  lemma {:induction false} DecodeEncode(n: nat, width: nat)
    requires n < Capacity(width)
    ensures FromBigEndian(BigEndian(n, width)) == n
  {
    if width != 0 {
      var front := BigEndian(n / 256, width - 1);
      DecodeEncode(n / 256, width - 1);
      assert (front + [n % 256])[..width - 1] == front;
    }
  }

  lemma {:induction false} EncodeDecode(s: seq<Byte>)
    ensures BigEndian(FromBigEndian(s), |s|) == s
  {
    if s != [] {
      EncodeDecode(s[..|s| - 1]);
      assert s == s[..|s| - 1] + [s[|s| - 1]];
    }
  }

  /** Byte `i` is the digit of weight 256 to the power `width - 1 - i`: the most significant byte comes first. */
  lemma {:induction false} BigEndianDigit(n: nat, width: nat, i: nat)
    requires i < width
    ensures BigEndian(n, width)[i] == n / Capacity(width - 1 - i) % 256
    decreases width
  {
    if i < width - 1 {
      BigEndianDigit(n / 256, width - 1, i);
      DivideTwice(n, Capacity(width - 2 - i));
    }
  }

  lemma DivideTwice(n: nat, c: nat)
    requires c > 0
    ensures n / 256 / c == n / (256 * c)
  {
    var q, r := n / 256 / c, n / 256 % c;
    assert n / 256 == q * c + r;
    var m := n % 256;
    assert n == (q * c + r) * 256 + m == q * (256 * c) + (r * 256 + m);
    assert r * 256 + m < 256 * c;
    QuotientUnique(n, 256 * c, q, r * 256 + m);
  }

  lemma Scaled(a: nat, b: nat, d: nat)
    requires a <= b
    ensures a * d <= b * d
  {
    assert b * d == a * d + (b - a) * d;
  }

  lemma QuotientUnique(n: nat, d: nat, q: nat, r: nat)
    requires d > 0 && n == q * d + r && r < d
    ensures n / d == q
  {
    var p := n / d;
    assert n == p * d + n % d;
    assert (p + 1) * d == p * d + d && (q + 1) * d == q * d + d;
    if p < q {
      Scaled(p + 1, q, d);
    } else if q < p {
      Scaled(q + 1, p, d);
    }
  }

  // ----- the three widths in use, written out -----

  function Two(n: nat): seq<Byte> {
    [n / 0x100 % 256, n % 256]
  }

  function Four(n: nat): seq<Byte> {
    [n / 0x100_0000 % 256, n / 0x1_0000 % 256, n / 0x100 % 256, n % 256]
  }

  function Eight(n: nat): seq<Byte> {
    [n / 0x100_0000_0000_0000 % 256, n / 0x1_0000_0000_0000 % 256, n / 0x100_0000_0000 % 256, n / 0x1_0000_0000 % 256]
    + Four(n)
  }

  /** The number that four bytes read as, most significant first. */
  function Value(a: int, b: int, c: int, d: int): int {
    ((a * 256 + b) * 256 + c) * 256 + d
  }

  /** Numbers go over the wire most significant byte first. */
  lemma Layouts(n: nat)
    ensures BigEndian(n, 2) == Two(n) && BigEndian(n, 4) == Four(n) && BigEndian(n, 8) == Eight(n)
  {
    Capacities();
    assert Capacity(0) == 1 && Capacity(1) == 0x100 && Capacity(3) == 0x100_0000;
    assert Capacity(5) == 0x100_0000_0000 && Capacity(6) == 0x1_0000_0000_0000 && Capacity(7) == 0x100_0000_0000_0000;
    forall width: nat, i: nat | i < width
      ensures BigEndian(n, width)[i] == n / Capacity(width - 1 - i) % 256
    {
      BigEndianDigit(n, width, i);
    }
  }

  lemma TwoLayout(n: nat)
    ensures BigEndian(n, 2) == Two(n)
  {
    Layouts(n);
  }

  lemma FourLayout(n: nat)
    ensures BigEndian(n, 4) == Four(n)
  {
    Layouts(n);
  }

  lemma EightLayout(n: nat)
    ensures BigEndian(n, 8) == Eight(n)
  {
    Layouts(n);
  }

  lemma ValueRead(s: seq<Byte>)
    requires |s| == 4
    ensures FromBigEndian(s) == Value(s[0], s[1], s[2], s[3])
  {
    assert s[..3][..2][..1][..0] == [];
    assert FromBigEndian(s[..3][..2][..1]) == s[0];
    assert FromBigEndian(s[..3][..2]) == FromBigEndian(s[..3][..2][..1]) * 256 + s[1];
    assert FromBigEndian(s[..3]) == FromBigEndian(s[..3][..2]) * 256 + s[2];
  }

  lemma Associative(a: seq<Byte>, b: seq<Byte>, c: seq<Byte>)
    ensures a + (b + c) == (a + b) + c
  {
  }

  lemma Capacities()
    ensures Capacity(2) == 0x1_0000
    ensures Capacity(4) == 0x1_0000_0000
    ensures Capacity(8) == 0x1_0000_0000_0000_0000
  {
    assert Capacity(3) == 0x100_0000;
    assert Capacity(5) == 0x100_0000_0000;
    assert Capacity(6) == 0x1_0000_0000_0000;
    assert Capacity(7) == 0x100_0000_0000_0000;
  }
}
