/**
 * JSON numbers and byte slices: the decimal digits and the padded base64 text (section 4 of
 * RFC 4648) that Go's encoder writes, readers that undo them, and the sizes that
 * ExpectedJSONSizeInt, ExpectedJSONSizeUint64, ExpectedJSONSizeBool and ExpectedJSONSizeBinary
 * predict.
 */
module JsonScalars {
  import opened ByteStrings

  const TWO_TO_63 := 0x8000_0000_0000_0000
  const MINUS: byte := 0x2D
  const PAD: byte := 0x3D

  // Decimal numbers.

  predicate IsDigit(b: byte) { 0x30 <= b <= 0x39 }

  function Digits(n: nat): (b: Bytes)
    ensures |b| >= 1 && forall i :: 0 <= i < |b| ==> IsDigit(b[i])
  {
    if n < 10 then [(0x30 + n) as byte] else Digits(n / 10) + [(0x30 + n % 10) as byte]
  }

  function DigitsValue(b: Bytes): (n: nat)
    requires forall i :: 0 <= i < |b| ==> IsDigit(b[i])
  {
    if b == [] then 0
    else
      var last := b[|b| - 1];
      assert IsDigit(last);
      DigitsValue(b[..|b| - 1]) * 10 + (last as int - 0x30)
  }

  lemma {:induction false} DigitsReadBack(n: nat)
    ensures DigitsValue(Digits(n)) == n
    ensures n > 0 ==> Digits(n)[0] != 0x30
  {
    if n < 10 {
      assert Digits(n)[..0] == [];
    } else {
      DigitsReadBack(n / 10);
      assert Digits(n)[..|Digits(n)| - 1] == Digits(n / 10);
    }
  }

  function PrintInt(i: int): (b: Bytes) { if i < 0 then [MINUS] + Digits(-i) else Digits(i) }

  /** The sign is in front, and only of negative numbers. */
  lemma IntText(i: int)
    ensures i >= 0 ==> PrintInt(i) == Digits(i)
    ensures i < 0 ==> PrintInt(i) == Ascii("-") + Digits(-i)
  {
    assert Ascii("-") == [MINUS];
  }

  /** Negation of a 64-bit integer: the smallest one is its own negative. */
  function Negate64(i: int): (n: int)
    requires -TWO_TO_63 <= i < TWO_TO_63
    ensures -TWO_TO_63 <= n < TWO_TO_63
  {
    if i == -TWO_TO_63 then i else -i
  }

  method CountDigits(n: nat) returns (out: nat)
    ensures out == if n == 0 then 0 else |Digits(n)|
  {
    var i := n;
    out := 0;
    while i > 0
      invariant i >= 0
      invariant out + (if i == 0 then 0 else |Digits(i)|) == if n == 0 then 0 else |Digits(n)|
    {
      i := i / 10;
      out := out + 1;
    }
  }

  method ExpectedJSONSizeUint64(i: nat) returns (out: nat)
    ensures out == |Digits(i)|
  {
    if i == 0 {
      return 1;
    }
    out := CountDigits(i);
  }

  /** Exact for every integer but the smallest, which is taken to need one byte instead of twenty. */
  method ExpectedJSONSizeInt(i: int) returns (out: nat)
    requires -TWO_TO_63 <= i < TWO_TO_63
    ensures out == |PrintInt(i)| <==> i != -TWO_TO_63
    ensures i == -TWO_TO_63 ==> out == 1 && |PrintInt(i)| == 20
  {
    var j := i;
    out := 0;
    if j <= 0 {
      j := Negate64(j);
      out := 1;
    }
    if j < 0 {
      SmallestInt();
    } else {
      var digits := CountDigits(j);
      out := out + digits;
    }
  }

  function Power10(k: nat): (n: nat) { if k == 0 then 1 else 10 * Power10(k - 1) }

  lemma {:induction false} DigitCount(n: nat, k: nat)
    requires k >= 1 && n < Power10(k) && (k == 1 || Power10(k - 1) <= n)
    ensures |Digits(n)| == k
  {
    if k > 1 { DigitCount(n / 10, k - 1); }
  }

  lemma SmallestInt()
    ensures |PrintInt(-TWO_TO_63)| == 20
  {
    assert Power10(6) == 1_000_000;
    assert Power10(12) == 1_000_000_000_000;
    assert Power10(18) == 1_000_000_000_000_000_000;
    DigitCount(TWO_TO_63, 19);
  }

  function PrintBool(b: bool): (t: Bytes) { Ascii(if b then "true" else "false") }

  method ExpectedJSONSizeBool(b: bool) returns (out: nat)
    ensures out == |PrintBool(b)|
  {
    if b {
      return 4;
    } else {
      return 5;
    }
  }

  // Base64.

  function Sextet(n: int): (b: byte)
    requires 0 <= n < 64
    ensures b != PAD && b >= 0x20 && b != 0x22 && b != 0x5C && b < 0x7F
  {
    if n < 26 then (0x41 + n) as byte
    else if n < 52 then (0x61 + n - 26) as byte
    else if n < 62 then (0x30 + n - 52) as byte
    else if n == 62 then 0x2B
    else 0x2F
  }

  function SextetValue(b: byte): (n: int)
    ensures -1 <= n < 64
  {
    if 0x41 <= b <= 0x5A then b as int - 0x41
    else if 0x61 <= b <= 0x7A then b as int - 0x61 + 26
    else if 0x30 <= b <= 0x39 then b as int - 0x30 + 52
    else if b == 0x2B then 62
    else if b == 0x2F then 63
    else -1
  }

  lemma SextetReadBack(n: int)
    requires 0 <= n < 64
    ensures SextetValue(Sextet(n)) == n
  {
  }

  function Base64(s: Bytes): (t: Bytes) {
    if s == [] then []
    else if |s| == 1 then [Sextet(s[0] as int / 4), Sextet(s[0] as int % 4 * 16), PAD, PAD]
    else if |s| == 2 then
      [Sextet(s[0] as int / 4), Sextet(s[0] as int % 4 * 16 + s[1] as int / 16), Sextet(s[1] as int % 16 * 4), PAD]
    else Quad(s[0] as int, s[1] as int, s[2] as int) + Base64(s[3..])
  }

  function Quad(a: int, b: int, c: int): (t: Bytes)
    requires 0 <= a < 256 && 0 <= b < 256 && 0 <= c < 256
    ensures |t| == 4
  {
    [Sextet(a / 4), Sextet(a % 4 * 16 + b / 16), Sextet(b % 16 * 4 + c / 64), Sextet(c % 64)]
  }

  /** The bytes of four characters, padding included; None when they are no such group. */
  function Unquad(a: byte, b: byte, c: byte, d: byte): (r: Option<Bytes>)
    ensures r.Some? ==> 1 <= |r.value| <= 3
  {
    var x, y, z, w := SextetValue(a), SextetValue(b), SextetValue(c), SextetValue(d);
    if x < 0 || y < 0 then None
    else if c == PAD && d == PAD then (if y % 16 == 0 then Some([(x * 4 + y / 16) as byte]) else None)
    else if z < 0 then None
    else if d == PAD then
      (if z % 4 == 0 then Some([(x * 4 + y / 16) as byte, (y % 16 * 16 + z / 4) as byte]) else None)
    else if w < 0 then None
    else Some([(x * 4 + y / 16) as byte, (y % 16 * 16 + z / 4) as byte, (z % 4 * 64 + w) as byte])
  }

  function Unbase64(t: Bytes): (r: Option<Bytes>) {
    if t == [] then Some([])
    else if |t| < 4 then None
    else
      var first := Unquad(t[0], t[1], t[2], t[3]);
      if first.None? then None
      else if |t| == 4 then first
      else if |first.value| < 3 then None
      else
        match Unbase64(t[4..])
        case None => None
        case Some(more) => Some(first.value + more)
  }

  lemma UnquadQuad(a: int, b: int, c: int)
    requires 0 <= a < 256 && 0 <= b < 256 && 0 <= c < 256
    ensures var q := Quad(a, b, c); Unquad(q[0], q[1], q[2], q[3]) == Some([a as byte, b as byte, c as byte])
  {
    SextetReadBack(a / 4);
    SextetReadBack(a % 4 * 16 + b / 16);
    SextetReadBack(b % 16 * 4 + c / 64);
    SextetReadBack(c % 64);
    SplitByte(a, b / 16, 4, 16);
    SplitByte(b, c / 64, 16, 4);
    assert c / 64 * 64 + c % 64 == c;
  }

  /** A byte cut into its high part and low part comes back, whatever is packed beside the low part. */
  lemma SplitByte(a: int, beside: int, low: int, shift: int)
    requires 0 <= a < 256 && 0 <= beside < shift && ((low == 4 && shift == 16) || (low == 16 && shift == 4))
    ensures (a % low * shift + beside) / shift == a % low && (a % low * shift + beside) % shift == beside
  {
  }

  lemma UnquadOne(a: int)
    requires 0 <= a < 256
    ensures Unquad(Sextet(a / 4), Sextet(a % 4 * 16), PAD, PAD) == Some([a as byte])
  {
    SextetReadBack(a / 4);
    SextetReadBack(a % 4 * 16);
    SplitByte(a, 0, 4, 16);
  }

  lemma UnquadTwo(a: int, b: int)
    requires 0 <= a < 256 && 0 <= b < 256
    ensures Unquad(Sextet(a / 4), Sextet(a % 4 * 16 + b / 16), Sextet(b % 16 * 4), PAD) == Some([a as byte, b as byte])
  {
    SextetReadBack(a / 4);
    SextetReadBack(a % 4 * 16 + b / 16);
    SextetReadBack(b % 16 * 4);
    SplitByte(a, b / 16, 4, 16);
    SplitByte(b, 0, 16, 4);
  }

  lemma ReadGroup(t: Bytes, group: Bytes, more: Bytes)
    requires |t| >= 4 && Unquad(t[0], t[1], t[2], t[3]) == Some(group)
    requires Unbase64(t[4..]) == Some(more) && (|t| == 4 || |group| == 3)
    ensures Unbase64(t) == Some(group + more)
  {
    if |t| == 4 { assert t[4..] == [] && group + more == group; }
  }

  /** The first four characters stand for the first three bytes, or for all of a shorter string. */
  lemma FirstGroup(s: Bytes) returns (group: Bytes)
    requires s != []
    ensures 1 <= |group| <= |s| && s == group + s[|group|..]
    ensures var t := Base64(s);
            && |t| >= 4 && Unquad(t[0], t[1], t[2], t[3]) == Some(group)
            && t[4..] == Base64(s[|group|..]) && (|t| == 4 || |group| == 3)
  {
    if |s| == 1 {
      UnquadOne(s[0] as int);
      group := [s[0]];
    } else if |s| == 2 {
      UnquadTwo(s[0] as int, s[1] as int);
      group := [s[0], s[1]];
    } else {
      UnquadQuad(s[0] as int, s[1] as int, s[2] as int);
      group := [s[0], s[1], s[2]];
    }
  }

  /** The alphabet of the encoding. */
  lemma SextetIs(n: int)
    requires 0 <= n < 64
    ensures n < 26 ==> Sextet(n) == Ascii("ABCDEFGHIJKLMNOPQRSTUVWXYZ")[n]
    ensures 26 <= n < 52 ==> Sextet(n) == Ascii("abcdefghijklmnopqrstuvwxyz")[n - 26]
    ensures 52 <= n ==> Sextet(n) == Ascii("0123456789+/")[n - 52]
  {
    if n < 26 { CapitalIs(n); } else if n < 52 { SmallIs(n - 26); }
  }

  lemma CapitalIs(n: int)
    requires 0 <= n < 26
    ensures "ABCDEFGHIJKLMNOPQRSTUVWXYZ"[n] as int == 0x41 + n
  {
  }

  lemma SmallIs(n: int)
    requires 0 <= n < 26
    ensures "abcdefghijklmnopqrstuvwxyz"[n] as int == 0x61 + n
  {
  }

  /**
   * Three bytes and the four characters written for them are the same number; what is missing of
   * the three counts as zero, and the characters that would tell nothing are equals signs.
   */
  lemma GroupValue(s: Bytes)
    requires s != []
    ensures var t := Base64(s);
            var a, b, c := s[0] as int, if |s| > 1 then s[1] as int else 0, if |s| > 2 then s[2] as int else 0;
            && |t| >= 4
            && (if |s| == 1 then t[2..] == Ascii("==") else if |s| == 2 then t[3..] == Ascii("=") else t[4..] == Base64(s[3..]))
            && a * 65536 + b * 256 + c
               == SextetValue(t[0]) * 262144 + SextetValue(t[1]) * 4096
                  + (if |s| > 1 then SextetValue(t[2]) * 64 else 0) + if |s| > 2 then SextetValue(t[3]) else 0
  {
    var a, b, c := s[0] as int, if |s| > 1 then s[1] as int else 0, if |s| > 2 then s[2] as int else 0;
    SextetReadBack(a / 4);
    SextetReadBack(a % 4 * 16 + b / 16);
    SextetReadBack(b % 16 * 4 + c / 64);
    SextetReadBack(c % 64);
    assert a == a / 4 * 4 + a % 4 && b == b / 16 * 16 + b % 16 && c == c / 64 * 64 + c % 64;
    assert Ascii("==") == [PAD, PAD] && Ascii("=") == [PAD];
  }

  lemma {:induction false} Base64ReadsBack(s: Bytes)
    ensures Unbase64(Base64(s)) == Some(s)
  {
    if s != [] {
      var group := FirstGroup(s);
      Base64ReadsBack(s[|group|..]);
      ReadGroup(Base64(s), group, s[|group|..]);
    }
  }

  lemma Thirds(n: nat)
    ensures n >= 3 ==> (n + 2) / 3 * 4 == 4 + (n - 1) / 3 * 4
    ensures var x := 4 * n / 3 + 3; x - x % 4 == (n + 2) / 3 * 4
  {
    var q, r := n / 3, n % 3;
    assert n == 3 * q + r && 4 * n / 3 == 4 * q + 4 * r / 3;
  }

  lemma {:induction false} Base64Length(s: Bytes)
    ensures |Base64(s)| == (|s| + 2) / 3 * 4
  {
    if |s| > 2 {
      Base64Length(s[3..]);
      Thirds(|s|);
    }
  }

  /** A byte slice is written in quotes; the nil slice as null. */
  function PrintBinary(b: Option<Bytes>): (t: Bytes) {
    if b.None? then Ascii("null") else [0x22] + Base64(b.value) + [0x22]
  }

  /** Rounding four thirds of the length up to a multiple of four by clearing two bits is exact. */
  method ExpectedJSONSizeBinary(b: Option<Bytes>) returns (out: nat)
    ensures out == |PrintBinary(b)|
  {
    if b == None {
      return 4;
    }
    var x := 4 * |b.value| / 3 + 3;
    var b64Len := x - x % 4;
    Base64Length(b.value);
    Thirds(|b.value|);
    return b64Len + 2;
  }
}
