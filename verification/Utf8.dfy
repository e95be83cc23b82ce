/**
 * UTF-8 as section 3 of RFC 3629 defines it, and the decoder behind Go's `range` over a string.
 */
module Utf8 {
  import opened ByteStrings

  /** A Unicode scalar value. */
  predicate Scalar(r: int) { 0 <= r < 0xD800 || 0xE000 <= r < 0x11_0000 }

  function Encode(r: int): (b: Bytes)
    requires Scalar(r)
    ensures 1 <= |b| <= 4
  {
    if r < 0x80 then [r as byte]
    else if r < 0x800 then [(0xC0 + r / 64) as byte, (0x80 + r % 64) as byte]
    else if r < 0x1_0000 then [(0xE0 + r / 4096) as byte, (0x80 + r / 64 % 64) as byte, (0x80 + r % 64) as byte]
    else [(0xF0 + r / 262144) as byte, (0x80 + r / 4096 % 64) as byte, (0x80 + r / 64 % 64) as byte, (0x80 + r % 64) as byte]
  }

  /** A decoded character; when `ok` is false it is the replacement for one bad byte. */
  datatype Decoded = Decoded(rune: int, width: nat, ok: bool)

  const RUNE_ERROR := 0xFFFD

  predicate Continuation(b: byte) { 0x80 <= b <= 0xBF }

  /** The second bytes allowed after a first byte of a longer sequence. */
  predicate SecondOk(first: byte, b: byte) {
    && (if first == 0xE0 then 0xA0 else if first == 0xF0 then 0x90 else 0x80) <= b
    && b <= (if first == 0xED then 0x9F else if first == 0xF4 then 0x8F else 0xBF)
  }

  /** utf8.DecodeRuneInString on a non-empty string. */
  function Decode(s: Bytes): (d: Decoded)
    requires s != []
    ensures 1 <= d.width <= |s| && d.width <= 4 && d.rune >= 0
  {
    var b := s[0];
    if b < 0x80 then Decoded(b as int, 1, true)
    else if 0xC2 <= b <= 0xDF && |s| >= 2 && SecondOk(b, s[1]) then
      Decoded((b as int - 0xC0) * 64 + (s[1] as int - 0x80), 2, true)
    else if 0xE0 <= b <= 0xEF && |s| >= 3 && SecondOk(b, s[1]) && Continuation(s[2]) then
      Decoded((b as int - 0xE0) * 4096 + (s[1] as int - 0x80) * 64 + (s[2] as int - 0x80), 3, true)
    else if 0xF0 <= b <= 0xF4 && |s| >= 4 && SecondOk(b, s[1]) && Continuation(s[2]) && Continuation(s[3]) then
      Decoded((b as int - 0xF0) * 262144 + (s[1] as int - 0x80) * 4096 + (s[2] as int - 0x80) * 64 + (s[3] as int - 0x80), 4, true)
    else Decoded(RUNE_ERROR, 1, false)
  }

  // The base-64 digits of a scalar value.

  lemma Digits2(r: int)
    ensures r == r / 64 * 64 + r % 64 && 0 <= r % 64 < 64
  {
  }

  lemma Digits3(r: int)
    ensures r / 4096 == r / 64 / 64
    ensures r == r / 4096 * 4096 + r / 64 % 64 * 64 + r % 64
  {
  }

  lemma Digits4(r: int)
    ensures r / 262144 == r / 4096 / 64
    ensures r == r / 262144 * 262144 + r / 4096 % 64 * 4096 + r / 64 % 64 * 64 + r % 64
  {
    Digits3(r);
    Digits2(r / 4096);
  }

  lemma Join2(a: int, b: int)
    requires 0 <= b < 64
    ensures (a * 64 + b) / 64 == a && (a * 64 + b) % 64 == b
  {
  }

  lemma Join3(a: int, b: int, c: int)
    requires 0 <= b < 64 && 0 <= c < 64
    ensures var r := a * 4096 + b * 64 + c; r / 4096 == a && r / 64 % 64 == b && r % 64 == c
  {
    var r := a * 4096 + b * 64 + c;
    assert r == (a * 64 + b) * 64 + c;
    Join2(a * 64 + b, c);
    Join2(a, b);
    Digits3(r);
  }

  lemma Join4(a: int, b: int, c: int, d: int)
    requires 0 <= b < 64 && 0 <= c < 64 && 0 <= d < 64
    ensures var r := a * 262144 + b * 4096 + c * 64 + d;
            r / 262144 == a && r / 4096 % 64 == b && r / 64 % 64 == c && r % 64 == d
  {
    var r := a * 262144 + b * 4096 + c * 64 + d;
    assert r == (a * 64 + b) * 4096 + c * 64 + d;
    Join3(a * 64 + b, c, d);
    Join2(a, b);
    Digits4(r);
  }

  lemma DecodeEncode2(r: int, rest: Bytes)
    requires 0x80 <= r < 0x800
    ensures Decode(Encode(r) + rest) == Decoded(r, 2, true)
  {
    var s := Encode(r) + rest;
    assert s[0] == Encode(r)[0] && s[1] == Encode(r)[1];
    Digits2(r);
  }

  lemma DecodeEncode3(r: int, rest: Bytes)
    requires 0x800 <= r < 0x1_0000 && Scalar(r)
    ensures Decode(Encode(r) + rest) == Decoded(r, 3, true)
  {
    var s := Encode(r) + rest;
    var e := Encode(r);
    assert s[0] == e[0] && s[1] == e[1] && s[2] == e[2];
    Digits3(r);
    Digits2(r / 64);
    assert 0 <= r / 4096 < 16;
    SecondByte3(r);
  }

  lemma SecondByte3(r: int)
    requires 0x800 <= r < 0x1_0000 && Scalar(r)
    ensures SecondOk((0xE0 + r / 4096) as byte, (0x80 + r / 64 % 64) as byte)
  {
    Digits3(r);
  }

  lemma DecodeEncode4(r: int, rest: Bytes)
    requires 0x1_0000 <= r < 0x11_0000
    ensures Decode(Encode(r) + rest) == Decoded(r, 4, true)
  {
    var s := Encode(r) + rest;
    var e := Encode(r);
    assert s[0] == e[0] && s[1] == e[1] && s[2] == e[2] && s[3] == e[3];
    Digits4(r);
    SecondByte4(r);
  }

  lemma SecondByte4(r: int)
    requires 0x1_0000 <= r < 0x11_0000
    ensures 0 <= r / 262144 <= 4 && SecondOk((0xF0 + r / 262144) as byte, (0x80 + r / 4096 % 64) as byte)
  {
    Digits4(r);
  }

  /** Decoding undoes encoding, whatever follows. */
  lemma DecodeEncode(r: int, rest: Bytes)
    requires Scalar(r)
    ensures Decode(Encode(r) + rest) == Decoded(r, |Encode(r)|, true)
  {
    if r < 0x80 { assert (Encode(r) + rest)[0] == r as byte; }
    else if r < 0x800 { DecodeEncode2(r, rest); }
    else if r < 0x1_0000 { DecodeEncode3(r, rest); }
    else { DecodeEncode4(r, rest); }
  }

  lemma EncodeDecode2(s: Bytes)
    requires s != [] && Decode(s).ok && Decode(s).width == 2
    ensures Scalar(Decode(s).rune) && s[..2] == Encode(Decode(s).rune)
  {
    Join2(s[0] as int - 0xC0, s[1] as int - 0x80);
  }

  lemma EncodeDecode3(s: Bytes)
    requires s != [] && Decode(s).ok && Decode(s).width == 3
    ensures Scalar(Decode(s).rune) && s[..3] == Encode(Decode(s).rune)
  {
    Join3(s[0] as int - 0xE0, s[1] as int - 0x80, s[2] as int - 0x80);
  }

  lemma EncodeDecode4(s: Bytes)
    requires s != [] && Decode(s).ok && Decode(s).width == 4
    ensures Scalar(Decode(s).rune) && s[..4] == Encode(Decode(s).rune)
  {
    Join4(s[0] as int - 0xF0, s[1] as int - 0x80, s[2] as int - 0x80, s[3] as int - 0x80);
  }

  /** What is decoded without error was the encoding of a scalar value. */
  lemma EncodeDecode(s: Bytes)
    requires s != [] && Decode(s).ok
    ensures Scalar(Decode(s).rune) && s[..Decode(s).width] == Encode(Decode(s).rune)
  {
    match Decode(s).width
    case 1 =>
    case 2 => EncodeDecode2(s);
    case 3 => EncodeDecode3(s);
    case _ => EncodeDecode4(s);
  }

  function EncodeAll(runes: seq<int>): (b: Bytes)
    requires forall i :: 0 <= i < |runes| ==> Scalar(runes[i])
  {
    if runes == [] then [] else Encode(runes[0]) + EncodeAll(runes[1..])
  }

  // Rust's lossy conversion.

  predicate WellFormed(s: Bytes) { s == [] || (Decode(s).ok && WellFormed(s[Decode(s).width..])) }

  /** How many bytes String::from_utf8_lossy replaces at once: the longest start of a sequence. */
  function BadWidth(s: Bytes): (n: nat)
    requires s != []
    ensures 1 <= n <= |s|
  {
    if 0xE0 <= s[0] <= 0xF4 && |s| >= 2 && SecondOk(s[0], s[1]) then
      (if s[0] >= 0xF0 && |s| >= 3 && Continuation(s[2]) then 3 else 2)
    else 1
  }

  /** String::from_utf8_lossy. */
  function Lossy(s: Bytes): (t: Bytes) {
    if s == [] then []
    else if Decode(s).ok then s[..Decode(s).width] + Lossy(s[Decode(s).width..])
    else Encode(RUNE_ERROR) + Lossy(s[BadWidth(s)..])
  }

  lemma WellFormedCons(r: int, t: Bytes)
    requires Scalar(r)
    ensures WellFormed(Encode(r) + t) <==> WellFormed(t)
  {
    DecodeEncode(r, t);
    assert (Encode(r) + t)[|Encode(r)|..] == t;
  }

  /** The result is always well-formed, and it is the input if and only if that was well-formed. */
  lemma {:induction false} LossyRepairs(s: Bytes)
    ensures WellFormed(Lossy(s))
    ensures Lossy(s) == s <==> WellFormed(s)
  {
    if s != [] {
      var d := Decode(s);
      if d.ok {
        EncodeDecode(s);
        var t := s[d.width..];
        LossyRepairs(t);
        WellFormedCons(d.rune, Lossy(t));
        assert s == s[..d.width] + t;
        assert Lossy(s)[d.width..] == Lossy(t);
      } else {
        var t := Lossy(s[BadWidth(s)..]);
        LossyRepairs(s[BadWidth(s)..]);
        WellFormedCons(RUNE_ERROR, t);
        DecodeEncode(RUNE_ERROR, t);
      }
    }
  }

  predicate AllAscii(s: Bytes) { forall i :: 0 <= i < |s| ==> s[i] < 0x80 }

  lemma TextIsAscii(text: string)
    ensures AllAscii(Ascii(text))
  {
  }

  lemma {:induction false} AsciiWellFormed(s: Bytes)
    requires AllAscii(s)
    ensures WellFormed(s)
  {
    if s != [] { AsciiWellFormed(s[1..]); }
  }
}
