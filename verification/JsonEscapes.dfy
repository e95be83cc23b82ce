/**
 * Which characters Go's JSON encoder escapes and what it writes for them, told by code points and
 * by the text itself.
 */
module JsonEscapes {
  import opened ByteStrings
  import opened Utf8
  import opened LossyText
  import opened JsonStrings

  /** A backslash and a letter: quote, backslash, backspace, form feed, newline, return and tab. */
  predicate TakesTwo(r: int) {
    r == 0x22 || r == 0x5C || r == 0x08 || r == 0x0C || r == 0x0A || r == 0x0D || r == 0x09
  }

  /** Six bytes for one: the other control characters and the three that HTML gives a meaning. */
  predicate TakesSix(r: int) { (0 <= r < 0x20 && !TakesTwo(r)) || r == 0x3C || r == 0x3E || r == 0x26 }

  /** What escaping adds to the bytes of a character. */
  function Extra(r: int): (n: nat) {
    if TakesTwo(r) then 1 else if TakesSix(r) then 5 else if r == 0x2028 || r == 0x2029 then 3 else 0
  }

  function ExtraOfAll(runes: seq<int>): (n: nat) { if runes == [] then 0 else Extra(runes[0]) + ExtraOfAll(runes[1..]) }

  function Separators(runes: seq<int>): (n: nat) {
    if runes == [] then 0 else (if runes[0] == 0x2028 || runes[0] == 0x2029 then 1 else 0) + Separators(runes[1..])
  }

  /** How a character is written, before whatever follows. */
  lemma EscapedCharacter(r: int, t: Bytes)
    requires Scalar(r)
    ensures Escaped(Encode(r) + t) == EscapeOne(Encode(r), Decoded(r, |Encode(r)|, true)) + Escaped(t)
    ensures Repaired(Encode(r) + t) == Encode(r) + Repaired(t)
    ensures StringDeficit(Encode(r) + t) == (if r == 0x2028 || r == 0x2029 then 3 else 0) + StringDeficit(t)
  {
    var s := Encode(r) + t;
    DecodeEncode(r, t);
    assert s[..|Encode(r)|] == Encode(r) && s[|Encode(r)|..] == t;
  }

  lemma CharacterLength(r: int)
    requires Scalar(r)
    ensures |EscapeOne(Encode(r), Decoded(r, |Encode(r)|, true))| == |Encode(r)| + Extra(r)
  {
  }

  lemma {:induction false} EscapedLength(runes: seq<int>)
    requires AllScalar(runes)
    ensures |Escaped(EncodeAll(runes))| == |EncodeAll(runes)| + ExtraOfAll(runes)
    ensures StringDeficit(EncodeAll(runes)) == 3 * Separators(runes)
  {
    if runes != [] {
      EscapedLength(runes[1..]);
      EscapedCharacter(runes[0], EncodeAll(runes[1..]));
      CharacterLength(runes[0]);
    }
  }

  /** The length of a printed text: its bytes, two quotes, and what its characters take more. */
  lemma PrintedLength(runes: seq<int>)
    requires AllScalar(runes)
    ensures |PrintString(EncodeAll(runes))| == 2 + |EncodeAll(runes)| + ExtraOfAll(runes)
  {
    EscapedLength(runes);
  }

  /** The estimate counts the same, but for the separators. */
  method EstimateOfText(runes: seq<int>) returns (out: nat)
    requires AllScalar(runes)
    ensures out == 2 + |EncodeAll(runes)| + ExtraOfAll(runes) - 3 * Separators(runes)
  {
    out := ExpectedJSONSizeString(EncodeAll(runes));
    EscapedLength(runes);
  }

  /** All other characters stand as they are. */
  lemma OthersStand(r: int, t: Bytes)
    requires Scalar(r) && Extra(r) == 0
    ensures Escaped(Encode(r) + t) == Encode(r) + Escaped(t)
  {
    EscapedCharacter(r, t);
  }

  const HEX := Ascii("0123456789abcdef")

  lemma HexDigitIs(n: int)
    requires 0 <= n < 16
    ensures HexDigit(n) == HEX[n]
  {
  }

  /** The letters of the short escapes. */
  lemma ShortEscapes(t: Bytes)
    ensures Escaped([0x22] + t) == Ascii("\\\"") + Escaped(t)
    ensures Escaped([0x5C] + t) == Ascii("\\\\") + Escaped(t)
    ensures Escaped([0x08] + t) == Ascii("\\b") + Escaped(t)
    ensures Escaped([0x0C] + t) == Ascii("\\f") + Escaped(t)
    ensures Escaped([0x0A] + t) == Ascii("\\n") + Escaped(t)
    ensures Escaped([0x0D] + t) == Ascii("\\r") + Escaped(t)
    ensures Escaped([0x09] + t) == Ascii("\\t") + Escaped(t)
  {
    ShortEscapeIs(0x22, Ascii("\\\""), t);
    ShortEscapeIs(0x5C, Ascii("\\\\"), t);
    ShortEscapeIs(0x08, Ascii("\\b"), t);
    ShortEscapeIs(0x0C, Ascii("\\f"), t);
    ShortEscapeIs(0x0A, Ascii("\\n"), t);
    ShortEscapeIs(0x0D, Ascii("\\r"), t);
    ShortEscapeIs(0x09, Ascii("\\t"), t);
  }

  lemma ShortEscapeIs(r: int, text: Bytes, t: Bytes)
    requires 0 <= r < 0x80 && ShortEscape(r).Some? && text == [BACKSLASH, ShortEscape(r).value]
    ensures Escaped([r as byte] + t) == text + Escaped(t)
  {
    assert Encode(r) == [r as byte];
    EscapedCharacter(r, t);
  }

  /** A long escape is the code in four hexadecimal digits. */
  lemma UnicodeEscapeIs(r: int)
    requires 0 <= r < 0x1_0000
    ensures UnicodeEscape(r) == Ascii("\\u") + [HEX[r / 4096], HEX[r / 256 % 16], HEX[r / 16 % 16], HEX[r % 16]]
  {
    HexDigitIs(r / 4096);
    HexDigitIs(r / 256 % 16);
    HexDigitIs(r / 16 % 16);
    HexDigitIs(r % 16);
  }

  /** The characters that get one. */
  lemma LongEscapes(r: int, t: Bytes)
    requires TakesSix(r) || r == 0x2028 || r == 0x2029
    ensures Escaped(Encode(r) + t) == UnicodeEscape(r) + Escaped(t)
  {
    EscapedCharacter(r, t);
  }

  /** A byte that begins no character is written, and read, as U+FFFD. */
  lemma BadByte(s: Bytes)
    requires s != [] && !StartsWell(s)
    ensures Escaped(s) == Ascii("\\ufffd") + Escaped(s[1..])
    ensures Repaired(s) == [0xEF, 0xBF, 0xBD] + Repaired(s[1..])
    ensures StringDeficit(s) == 5 + StringDeficit(s[1..])
  {
    DecodesWell(s);
    assert Encode(0xFFFD) == [0xEF, 0xBF, 0xBD];
    HexDigitIs(15);
    HexDigitIs(13);
    assert UnicodeEscape(0xFFFD) == Ascii("\\ufffd");
  }
}
