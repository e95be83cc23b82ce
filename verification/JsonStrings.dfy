/**
 * JSON strings: the text that Go's encoder writes (section 7 of RFC 8259, plus Go's escapes for
 * HTML and for the line and paragraph separators), a reader that undoes it, and the size that
 * ExpectedJSONSizeString predicts.
 */
module JsonStrings {
  import opened ByteStrings
  import opened Utf8

  const QUOTE: byte := 0x22
  const BACKSLASH: byte := 0x5C

  function HexDigit(n: int): (b: byte)
    requires 0 <= n < 16
  {
    if n < 10 then (0x30 + n) as byte else (0x61 + n - 10) as byte
  }

  function UnicodeEscape(code: int): (b: Bytes)
    requires 0 <= code < 0x1_0000
    ensures |b| == 6
  {
    [BACKSLASH, 0x75, HexDigit(code / 4096), HexDigit(code / 256 % 16), HexDigit(code / 16 % 16), HexDigit(code % 16)]
  }

  /** The letter of a two-character escape. */
  function ShortEscape(r: int): (letter: Option<byte>) {
    if r == 0x22 then Some(QUOTE)
    else if r == 0x5C then Some(BACKSLASH)
    else if r == 0x08 then Some(0x62)
    else if r == 0x0C then Some(0x66)
    else if r == 0x0A then Some(0x6E)
    else if r == 0x0D then Some(0x72)
    else if r == 0x09 then Some(0x74)
    else None
  }

  predicate Separator(r: int) { r == 0x2028 || r == 0x2029 }

  predicate LongEscape(r: int) { 0 <= r < 0x20 || r == 0x3C || r == 0x3E || r == 0x26 || Separator(r) }

  /** How one decoded character, or one bad byte, is written. */
  function EscapeOne(raw: Bytes, d: Decoded): (b: Bytes) {
    if !d.ok then UnicodeEscape(RUNE_ERROR)
    else if ShortEscape(d.rune).Some? then [BACKSLASH, ShortEscape(d.rune).value]
    else if LongEscape(d.rune) then UnicodeEscape(d.rune)
    else raw
  }

  function Escaped(s: Bytes): (b: Bytes) {
    if s == [] then []
    else var d := Decode(s); EscapeOne(s[..d.width], d) + Escaped(s[d.width..])
  }

  function PrintString(s: Bytes): (b: Bytes) { [QUOTE] + Escaped(s) + [QUOTE] }

  // Reading a string back.

  function HexValue(b: byte): (n: int)
    ensures -1 <= n < 16
  {
    if 0x30 <= b <= 0x39 then b as int - 0x30
    else if 0x61 <= b <= 0x66 then b as int - 0x61 + 10
    else if 0x41 <= b <= 0x46 then b as int - 0x41 + 10
    else -1
  }

  datatype Unit = Close(rest: Bytes) | Chunk(bytes: Bytes, rest: Bytes) | Malformed

  /** The next character, escape or closing quote. Surrogate escapes are not read. */
  function ReadUnit(s: Bytes): (u: Unit)
    ensures u.Chunk? || u.Close? ==> |u.rest| < |s|
  {
    if s == [] then Malformed
    else if s[0] == QUOTE then Close(s[1..])
    else if s[0] != BACKSLASH then (if s[0] < 0x20 then Malformed else Chunk([s[0]], s[1..]))
    else if |s| < 2 then Malformed
    else if s[1] == QUOTE || s[1] == BACKSLASH || s[1] == 0x2F then Chunk([s[1]], s[2..])
    else if s[1] == 0x62 then Chunk([0x08], s[2..])
    else if s[1] == 0x66 then Chunk([0x0C], s[2..])
    else if s[1] == 0x6E then Chunk([0x0A], s[2..])
    else if s[1] == 0x72 then Chunk([0x0D], s[2..])
    else if s[1] == 0x74 then Chunk([0x09], s[2..])
    else if s[1] != 0x75 || |s| < 6 then Malformed
    else if HexValue(s[2]) < 0 || HexValue(s[3]) < 0 || HexValue(s[4]) < 0 || HexValue(s[5]) < 0 then Malformed
    else
      var code := HexValue(s[2]) * 4096 + HexValue(s[3]) * 256 + HexValue(s[4]) * 16 + HexValue(s[5]);
      if Scalar(code) then Chunk(Encode(code), s[6..]) else Malformed
  }

  /** Reads up to the closing quote; the text after the opening quote is given. */
  function ReadString(s: Bytes): (r: Option<(Bytes, Bytes)>)
    ensures r.Some? ==> |r.value.1| < |s|
    decreases |s|
  {
    match ReadUnit(s)
    case Malformed => None
    case Close(rest) => Some(([], rest))
    case Chunk(bytes, rest) =>
      match ReadString(rest)
      case None => None
      case Some((tail, after)) => Some((bytes + tail, after))
  }

  /** A string with each bad byte replaced by U+FFFD. */
  function Repaired(s: Bytes): (b: Bytes) {
    if s == [] then []
    else
      var d := Decode(s);
      (if d.ok then s[..d.width] else Encode(RUNE_ERROR)) + Repaired(s[d.width..])
  }

  predicate Plain(b: byte) { b >= 0x20 && b != QUOTE && b != BACKSLASH }

  lemma ReadChunk(s: Bytes, bytes: Bytes, t: Bytes)
    requires ReadUnit(s) == Chunk(bytes, t) && ReadString(t).Some?
    ensures ReadString(s) == Some((bytes + ReadString(t).value.0, ReadString(t).value.1))
  {
  }

  lemma ReadPlainByte(b: byte, t: Bytes)
    requires ReadString(t).Some? && Plain(b)
    ensures ReadString([b] + t) == Some(([b] + ReadString(t).value.0, ReadString(t).value.1))
  {
    assert ([b] + t)[1..] == t;
    ReadChunk([b] + t, [b], t);
  }

  predicate AllPlain(raw: Bytes) { forall i :: 0 <= i < |raw| ==> Plain(raw[i]) }

  lemma ConsAppend(raw: Bytes, t: Bytes)
    requires raw != []
    ensures raw + t == [raw[0]] + (raw[1..] + t)
  {
  }

  lemma {:induction false} ReadPlain(raw: Bytes, t: Bytes)
    requires ReadString(t).Some? && AllPlain(raw)
    ensures ReadString(raw + t) == Some((raw + ReadString(t).value.0, ReadString(t).value.1))
  {
    var tail := ReadString(t).value.0;
    if raw == [] {
      assert raw + t == t && raw + tail == tail;
    } else {
      ReadPlain(raw[1..], t);
      ReadPlainByte(raw[0], raw[1..] + t);
      ConsAppend(raw, t);
      ConsAppend(raw, tail);
    }
  }

  lemma HexRoundTrip(n: int)
    requires 0 <= n < 16
    ensures HexValue(HexDigit(n)) == n
  {
  }

  lemma HexDigits(code: int)
    requires 0 <= code < 0x1_0000
    ensures code == code / 4096 * 4096 + code / 256 % 16 * 256 + code / 16 % 16 * 16 + code % 16
  {
    var a, b, c := code / 16, code / 256, code / 4096;
    assert b == a / 16 && c == b / 16;
    assert code == a * 16 + code % 16 && a == b * 16 + a % 16 && b == c * 16 + b % 16;
  }

  lemma ReadUnicodeEscape(code: int, t: Bytes)
    requires 0 <= code < 0x1_0000 && Scalar(code)
    ensures ReadUnit(UnicodeEscape(code) + t) == Chunk(Encode(code), t)
  {
    var e := UnicodeEscape(code);
    var s := e + t;
    HexRoundTrip(code / 4096);
    HexRoundTrip(code / 256 % 16);
    HexRoundTrip(code / 16 % 16);
    HexRoundTrip(code % 16);
    HexDigits(code);
    assert s[0] == e[0] && s[1] == e[1] && s[2] == e[2] && s[3] == e[3] && s[4] == e[4] && s[5] == e[5] && s[6..] == t;
  }

  lemma ReadShortEscape(r: int, t: Bytes)
    requires ShortEscape(r).Some?
    ensures ReadUnit([BACKSLASH, ShortEscape(r).value] + t) == Chunk([r as byte], t)
  {
    assert ([BACKSLASH, ShortEscape(r).value] + t)[2..] == t;
  }

  /** A character that is written as it stands is made of plain bytes. */
  lemma RawIsPlain(r: int)
    requires Scalar(r) && ShortEscape(r).None? && !LongEscape(r)
    ensures AllPlain(Encode(r))
  {
  }

  lemma ReadOne(s: Bytes, t: Bytes)
    requires s != [] && ReadString(t).Some?
    ensures var d := Decode(s);
            var raw := if d.ok then s[..d.width] else Encode(RUNE_ERROR);
            ReadString(EscapeOne(s[..d.width], d) + t) == Some((raw + ReadString(t).value.0, ReadString(t).value.1))
  {
    var d := Decode(s);
    var e := EscapeOne(s[..d.width], d);
    if !d.ok {
      ReadUnicodeEscape(RUNE_ERROR, t);
      ReadChunk(e + t, Encode(RUNE_ERROR), t);
    } else {
      EncodeDecode(s);
      if ShortEscape(d.rune).Some? {
        ReadShortEscape(d.rune, t);
        ReadChunk(e + t, Encode(d.rune), t);
      } else if LongEscape(d.rune) {
        ReadUnicodeEscape(d.rune, t);
        ReadChunk(e + t, Encode(d.rune), t);
      } else {
        RawIsPlain(d.rune);
        ReadPlain(s[..d.width], t);
      }
    }
  }

  /** The printed text reads back as the string, with bad bytes replaced; what follows is untouched. */
  lemma {:induction false} PrintedReadsBack(s: Bytes, rest: Bytes)
    ensures ReadString(Escaped(s) + [QUOTE] + rest) == Some((Repaired(s), rest))
  {
    if s == [] {
      assert (Escaped(s) + [QUOTE] + rest)[1..] == rest;
    } else {
      var d := Decode(s);
      PrintedReadsBack(s[d.width..], rest);
      var t := Escaped(s[d.width..]) + [QUOTE] + rest;
      assert Escaped(s) + [QUOTE] + rest == EscapeOne(s[..d.width], d) + t;
      ReadOne(s, t);
    }
  }

  // The size estimate.

  /** What the estimate misses for one character: five bytes for a bad byte, three for a separator. */
  function Missing(d: Decoded): (n: nat) { if !d.ok then 5 else if Separator(d.rune) then 3 else 0 }

  function StringDeficit(s: Bytes): (n: nat) {
    if s == [] then 0 else var d := Decode(s); Missing(d) + StringDeficit(s[d.width..])
  }

  /** The escaping overhead the estimate adds for a character. */
  function Overhead(r: int): (n: nat) {
    if ShortEscape(r).Some? then 1 else if LongEscape(r) && !Separator(r) then 5 else 0
  }

  lemma OneEscape(raw: Bytes, d: Decoded)
    requires d.ok ==> Scalar(d.rune) && raw == Encode(d.rune)
    requires !d.ok ==> |raw| == 1 && d.rune == RUNE_ERROR
    ensures |EscapeOne(raw, d)| == |raw| + Overhead(d.rune) + Missing(d)
  {
  }

  lemma OneSize(s: Bytes, d: Decoded)
    requires s != [] && d == Decode(s)
    ensures |Escaped(s)| == d.width + Overhead(d.rune) + Missing(d) + |Escaped(s[d.width..])|
    ensures StringDeficit(s) == Missing(d) + StringDeficit(s[d.width..])
  {
    if d.ok { EncodeDecode(s); }
    OneEscape(s[..d.width], d);
  }

  /** The bytes that a string still lacks in the estimate, beyond its own length. */
  ghost function Growth(s: Bytes): (n: int) { |Escaped(s)| - StringDeficit(s) - |s| }

  lemma GrowthStep(s: Bytes, i: nat, d: Decoded)
    requires i < |s| && d == Decode(s[i..])
    ensures i + d.width <= |s| && Growth(s[i..]) == Overhead(d.rune) + Growth(s[i + d.width..])
  {
    OneSize(s[i..], d);
    assert s[i..][d.width..] == s[i + d.width..];
  }

  /** The growth still to come at each position. */
  ghost predicate IsPlan(s: Bytes, plan: seq<int>) {
    |plan| == |s| + 1 && forall i {:trigger s[i..]} :: 0 <= i <= |s| ==> plan[i] == Growth(s[i..])
  }

  lemma Plan(s: Bytes) returns (plan: seq<int>)
    ensures IsPlan(s, plan)
    ensures 2 + |s| + plan[0] == |PrintString(s)| - StringDeficit(s) && plan[|s|] == 0
  {
    plan := seq(|s| + 1, i requires 0 <= i <= |s| => Growth(s[i..]));
    assert s[0..] == s && s[|s|..] == [];
  }

  lemma PlanStep(s: Bytes, i: nat, plan: seq<int>, d: Decoded)
    requires i < |s| && IsPlan(s, plan) && d == Decode(s[i..])
    ensures plan[i] == Overhead(d.rune) + plan[i + d.width]
  {
    GrowthStep(s, i, d);
  }

  /** The next character of a range loop, and what it adds to the estimate. */
  method NextRune(s: Bytes, i: nat, ghost plan: seq<int>) returns (r: int, width: nat)
    requires i < |s| && IsPlan(s, plan)
    ensures 1 <= width <= |s| - i && r >= 0
    ensures plan[i] == Overhead(r) + plan[i + width]
  {
    var d := Decode(s[i..]);
    PlanStep(s, i, plan, d);
    r, width := d.rune, d.width;
  }

  method ExpectedJSONSizeString(s: Bytes) returns (out: nat)
    ensures out + StringDeficit(s) == |PrintString(s)|
  {
    ghost var plan := Plan(s);
    out := 2 + |s|;
    var i := 0;
    while i < |s|
      invariant 0 <= i <= |s|
      invariant out + plan[i] == 2 + |s| + plan[0]
    {
      var r, width := NextRune(s, i, plan);
      if r == 0x22 || r == 0x5C {
        out := out + 1;
      } else if r == 0x08 || r == 0x0C || r == 0x0A || r == 0x0D || r == 0x09 {
        out := out + 1;
      } else if r <= 0x1F {
        out := out + 5;
      } else if r == 0x3C || r == 0x3E || r == 0x26 {
        out := out + 5;
      }
      i := i + width;
    }
  }

  predicate CleanRunes(runes: seq<int>) {
    forall i :: 0 <= i < |runes| ==> Scalar(runes[i]) && !Separator(runes[i])
  }

  /** Valid UTF-8 without U+2028 and U+2029. */
  ghost predicate Clean(s: Bytes) {
    exists runes: seq<int> :: CleanRunes(runes) && s == EncodeAll(runes)
  }

  lemma {:induction false} CleanHasNoDeficit(runes: seq<int>)
    requires CleanRunes(runes)
    ensures StringDeficit(EncodeAll(runes)) == 0 && Repaired(EncodeAll(runes)) == EncodeAll(runes)
  {
    if runes != [] {
      CleanHasNoDeficit(runes[1..]);
      DecodeEncode(runes[0], EncodeAll(runes[1..]));
      var s := EncodeAll(runes);
      assert s[|Encode(runes[0])|..] == EncodeAll(runes[1..]);
      assert s[..|Encode(runes[0])|] == Encode(runes[0]);
    }
  }

  lemma ConsEncode(r: int, tail: seq<int>)
    requires CleanRunes(tail) && Scalar(r) && !Separator(r)
    ensures CleanRunes([r] + tail) && EncodeAll([r] + tail) == Encode(r) + EncodeAll(tail)
  {
    var runes := [r] + tail;
    assert forall i :: 0 < i < |runes| ==> runes[i] == tail[i - 1];
    assert runes[1..] == tail;
  }

  lemma CleanFirst(s: Bytes, d: Decoded)
    requires s != [] && d == Decode(s) && Missing(d) == 0
    ensures Scalar(d.rune) && !Separator(d.rune) && s[..d.width] == Encode(d.rune)
  {
    EncodeDecode(s);
  }

  lemma FirstIsClean(s: Bytes) returns (r: int, rest: Bytes)
    requires s != [] && StringDeficit(s) == 0
    ensures Scalar(r) && !Separator(r) && s == Encode(r) + rest && StringDeficit(rest) == 0 && |rest| < |s|
  {
    var d := Decode(s);
    assert Missing(d) == 0 && StringDeficit(s[d.width..]) == 0;
    CleanFirst(s, d);
    r, rest := d.rune, s[d.width..];
    assert s == s[..d.width] + rest;
  }

  lemma {:induction false} NoDeficitIsClean(s: Bytes) returns (runes: seq<int>)
    requires StringDeficit(s) == 0
    ensures CleanRunes(runes) && s == EncodeAll(runes)
    decreases |s|
  {
    if s == [] {
      runes := [];
    } else {
      var r, rest := FirstIsClean(s);
      var tail := NoDeficitIsClean(rest);
      ConsEncode(r, tail);
      runes := [r] + tail;
    }
  }

  /**
   * The estimate for a string is exact if and only if the string is valid UTF-8 without the two
   * separators; then the printed text reads back as the string.
   */
  lemma StringSizeExactness(s: Bytes)
    ensures StringDeficit(s) == 0 <==> Clean(s)
    ensures Clean(s) ==> ReadString(Escaped(s) + [QUOTE]) == Some((s, []))
  {
    if StringDeficit(s) == 0 {
      var _ := NoDeficitIsClean(s);
    }
    if Clean(s) {
      var runes: seq<int> :| CleanRunes(runes) && s == EncodeAll(runes);
      CleanHasNoDeficit(runes);
      PrintedReadsBack(s, []);
      assert Escaped(s) + [QUOTE] + [] == Escaped(s) + [QUOTE];
    }
  }
}
