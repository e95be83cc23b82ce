/**
 * What String::from_utf8_lossy makes of a text, told with the encoding alone: whole characters are
 * kept, and the longest start of a character that is never completed becomes one U+FFFD.
 */
module LossyText {
  import opened ByteStrings
  import opened Utf8

  /** The bytes begin with a whole character. */
  ghost predicate StartsWell(s: Bytes) { exists r: int :: Scalar(r) && Encode(r) <= s }

  /** The bytes are the start of a character, and not all of it. */
  ghost predicate Unfinished(p: Bytes) { exists r: int :: Scalar(r) && p < Encode(r) }

  /** The longest unfinished character at the start, or a single byte. */
  ghost predicate BadStart(s: Bytes, n: nat) {
    && 1 <= n <= |s|
    && (n == 1 || Unfinished(s[..n]))
    && forall m: nat {:trigger s[..m]} :: n < m <= |s| ==> !Unfinished(s[..m])
  }

  /**
   * The bytes of a character: how many there are, what marks them as first and further ones, and
   * which number they stand for.
   */
  lemma EncodeMeans(r: int)
    requires Scalar(r)
    ensures var e := Encode(r);
            && |e| == (if r <= 0x7F then 1 else if r <= 0x7FF then 2 else if r <= 0xFFFF then 3 else 4)
            && (|e| == 1 ==> e[0] as int == r)
            && (|e| == 2 ==> 0xC2 <= e[0] <= 0xDF && r == (e[0] as int - 0xC0) * 64 + (e[1] as int - 0x80))
            && (|e| == 3 ==> 0xE0 <= e[0] <= 0xEF
                             && r == (e[0] as int - 0xE0) * 4096 + (e[1] as int - 0x80) * 64 + (e[2] as int - 0x80))
            && (|e| == 4 ==> 0xF0 <= e[0] <= 0xF4
                             && r == (e[0] as int - 0xF0) * 262144 + (e[1] as int - 0x80) * 4096
                                     + (e[2] as int - 0x80) * 64 + (e[3] as int - 0x80))
            && forall i :: 1 <= i < |e| ==> 0x80 <= e[i] <= 0xBF
  {
    DecodeEncode(r, []);
    assert Encode(r) + [] == Encode(r);
    if r > 0xFFFF { Digits4(r); SecondByte4(r); }
    else if r > 0x7FF { Digits3(r); }
  }

  /** The decoder succeeds exactly on texts that begin with a whole character. */
  lemma DecodesWell(s: Bytes)
    requires s != []
    ensures Decode(s).ok <==> StartsWell(s)
  {
    if Decode(s).ok { EncodeDecode(s); assert Encode(Decode(s).rune) <= s; }
    if StartsWell(s) {
      var r: int :| Scalar(r) && Encode(r) <= s;
      DecodeEncode(r, s[|Encode(r)|..]);
      assert s == Encode(r) + s[|Encode(r)|..];
    }
  }

  /** The starts of the longer sequences. */
  predicate Prefix2(p: Bytes) { |p| >= 2 && 0xE0 <= p[0] <= 0xF4 && SecondOk(p[0], p[1]) }

  predicate Prefix3(p: Bytes) { |p| >= 3 && 0xF0 <= p[0] && Prefix2(p) && Continuation(p[2]) }

  lemma UnfinishedShape(p: Bytes)
    requires Unfinished(p)
    ensures |p| <= 3 && (|p| == 2 ==> Prefix2(p)) && (|p| == 3 ==> Prefix3(p))
  {
    var r: int :| Scalar(r) && p < Encode(r);
    var e := Encode(r);
    assert forall i :: 0 <= i < |p| ==> p[i] == e[i];
    if |e| == 3 { SecondByte3(r); }
    if |e| == 4 { SecondByte4(r); }
  }

  /** Completed with the smallest further bytes, such a start is a character. */
  lemma Completes(p: Bytes)
    requires (|p| == 2 && Prefix2(p)) || (|p| == 3 && Prefix3(p))
    ensures Unfinished(p)
  {
    var t := p + [0x80, 0x80];
    assert t[0] == p[0] && t[1] == p[1] && t[2] == (if |p| == 3 then p[2] else 0x80);
    assert Decode(t).ok && Decode(t).width > |p|;
    EncodeDecode(t);
    assert p < t[..Decode(t).width];
  }

  lemma LongestUnfinished(s: Bytes, m: nat)
    requires s != [] && !Decode(s).ok && 2 <= m <= |s|
    ensures Unfinished(s[..m]) ==> m <= BadWidth(s)
    ensures m == BadWidth(s) ==> Unfinished(s[..m])
  {
    assert s[..m][0] == s[0] && s[..m][1] == s[1] && (m > 2 ==> s[..m][2] == s[2]);
    if Unfinished(s[..m]) { UnfinishedShape(s[..m]); }
    if m == BadWidth(s) { Completes(s[..m]); }
  }

  /** There is exactly one such start. */
  lemma BadStartIs(s: Bytes, n: nat)
    requires s != [] && !Decode(s).ok
    ensures BadStart(s, n) <==> n == BadWidth(s)
  {
    forall m: nat | 2 <= m <= |s|
      ensures (Unfinished(s[..m]) ==> m <= BadWidth(s)) && (m == BadWidth(s) ==> Unfinished(s[..m]))
    {
      LongestUnfinished(s, m);
    }
    var b := BadWidth(s);
    if b > 1 { assert Unfinished(s[..b]); }
  }

  /** What is no character is replaced, as far as it could have been the start of one. */
  lemma BadStartReplaced(s: Bytes, n: nat)
    requires s != [] && !StartsWell(s) && BadStart(s, n)
    ensures Lossy(s) == [0xEF, 0xBF, 0xBD] + Lossy(s[n..])
  {
    DecodesWell(s);
    BadStartIs(s, n);
    EncodeMeans(RUNE_ERROR);
    assert Encode(RUNE_ERROR) == [0xEF, 0xBF, 0xBD];
  }

  lemma FirstCharacter(m: Bytes) returns (r: int, rest: Bytes)
    requires m != [] && WellFormed(m)
    ensures Scalar(r) && m == Encode(r) + rest && WellFormed(rest) && |rest| < |m|
  {
    var d := Decode(m);
    EncodeDecode(m);
    r, rest := d.rune, m[d.width..];
  }

  lemma CharacterKept(r: int, t: Bytes)
    requires Scalar(r)
    ensures Lossy(Encode(r) + t) == Encode(r) + Lossy(t)
  {
    var s := Encode(r) + t;
    DecodeEncode(r, t);
    assert s[..|Encode(r)|] == Encode(r) && s[|Encode(r)|..] == t;
  }

  /** The conversion of s is t. */
  ghost predicate Becomes(s: Bytes, t: Bytes) { forall x {:trigger Lossy(x)} :: x == s ==> Lossy(x) == t }

  lemma CharacterStays(r: int, t: Bytes, u: Bytes)
    requires Scalar(r) && Becomes(t, u)
    ensures Becomes(Encode(r) + t, Encode(r) + u)
  {
    CharacterKept(r, t);
  }

  lemma {:induction false} GoodStartStays(a: Bytes, t: Bytes, u: Bytes)
    requires WellFormed(a) && Becomes(t, u)
    ensures Becomes(a + t, a + u)
    decreases |a|
  {
    if a == [] {
      assert a + t == t && a + u == u;
    } else {
      var r, rest := FirstCharacter(a);
      GoodStartStays(rest, t, u);
      CharacterStays(r, rest + t, rest + u);
      Regroup(Encode(r), rest, t);
      Regroup(Encode(r), rest, u);
    }
  }

  lemma Regroup(a: Bytes, b: Bytes, c: Bytes)
    ensures a + b + c == a + (b + c)
  {
  }

  /** What is well-formed is kept, whatever follows. */
  lemma GoodStartKept(a: Bytes, t: Bytes)
    requires WellFormed(a)
    ensures Lossy(a + t) == a + Lossy(t)
  {
    GoodStartStays(a, t, Lossy(t));
  }

  /** An unfinished character has no whole one in it. */
  lemma UnfinishedIsBad(p: Bytes, r: int)
    requires Scalar(r) && p != [] && p < Encode(r)
    ensures !StartsWell(p) && BadStart(p, |p|)
  {
    if StartsWell(p) {
      var q: int :| Scalar(q) && Encode(q) <= p;
      var e := Encode(r);
      assert e == Encode(q) + e[|Encode(q)|..] && e == e + [];
      DecodeEncode(q, e[|Encode(q)|..]);
      DecodeEncode(r, []);
    }
    assert p[..|p|] == p;
  }

  lemma CutInside(p: Bytes, r: int)
    requires Scalar(r) && p != [] && p < Encode(r)
    ensures Lossy(p) == [0xEF, 0xBF, 0xBD]
  {
    UnfinishedIsBad(p, r);
    BadStartReplaced(p, |p|);
    assert p[|p|..] == [];
  }

  /** A text up to a cut, and what becomes of it. */
  ghost predicate Cut(m: Bytes, k: nat, j: nat) {
    && j <= k <= |m| && k <= j + 3 && WellFormed(m[..j])
    && Becomes(m[..k], m[..j] + if j == k then [] else [0xEF, 0xBF, 0xBD])
  }

  lemma CutFirst(r: int, rest: Bytes, k: nat)
    requires Scalar(r) && k < |Encode(r)|
    ensures Cut(Encode(r) + rest, k, 0)
  {
    var m := Encode(r) + rest;
    assert m[..k] == Encode(r)[..k] && m[..0] == [];
    if k > 0 { CutInside(m[..k], r); }
  }

  lemma CutLater(r: int, rest: Bytes, k: nat, j: nat)
    requires Scalar(r) && Cut(rest, k, j)
    ensures Cut(Encode(r) + rest, |Encode(r)| + k, |Encode(r)| + j)
  {
    var e, tail := Encode(r), if j == k then [] else [0xEF, 0xBF, 0xBD];
    assert (e + rest)[..|e| + k] == e + rest[..k] && (e + rest)[..|e| + j] == e + rest[..j];
    WellFormedCons(r, rest[..j]);
    CharacterStays(r, rest[..k], rest[..j] + tail);
    Regroup(e, rest[..j], tail);
  }

  /** Cutting m behind its first character, of n bytes, is cutting what follows it. */
  ghost predicate CutsLike(m: Bytes, n: nat, rest: Bytes) {
    && (forall k: nat {:trigger Cut(m, k, 0)} :: k < n ==> Cut(m, k, 0))
    && (forall k: nat, j: nat {:trigger Cut(rest, k, j)} :: Cut(rest, k, j) ==> Cut(m, n + k, n + j))
  }

  lemma CutsBehind(m: Bytes) returns (n: nat, rest: Bytes)
    requires m != [] && WellFormed(m)
    ensures WellFormed(rest) && |m| == n + |rest| && n > 0 && CutsLike(m, n, rest)
  {
    var r;
    r, rest := FirstCharacter(m);
    n := |Encode(r)|;
    forall k: nat | k < n ensures Cut(m, k, 0) { CutFirst(r, rest, k); }
    forall k: nat, j: nat | Cut(rest, k, j) ensures Cut(m, n + k, n + j) { CutLater(r, rest, k, j); }
  }

  lemma CutNothing()
    ensures Cut([], 0, 0)
  {
    var m: Bytes := [];
    assert m[..0] == [];
  }

  lemma {:induction false} CutSomewhere(m: Bytes, k: nat) returns (j: nat)
    requires WellFormed(m) && k <= |m|
    ensures Cut(m, k, j)
    decreases |m|
  {
    if m == [] {
      j := 0;
      CutNothing();
    } else {
      var n, rest := CutsBehind(m);
      if k < n {
        j := 0;
      } else {
        var i := CutSomewhere(rest, k - n);
        j := n + i;
      }
    }
  }

  /**
   * A well-formed text that is cut at k keeps its whole characters up to there, at most three
   * bytes less, and one U+FFFD stands for a character that was cut.
   */
  lemma CutText(m: Bytes, k: nat) returns (j: nat)
    requires WellFormed(m) && k <= |m|
    ensures k - 3 <= j <= k && WellFormed(m[..j])
    ensures Lossy(m[..k]) == m[..j] + if j == k then [] else [0xEF, 0xBF, 0xBD]
  {
    j := CutSomewhere(m, k);
  }

  predicate AllScalar(runes: seq<int>) { forall i :: 0 <= i < |runes| ==> Scalar(runes[i]) }

  lemma {:induction false} EncodedIsWellFormed(runes: seq<int>)
    requires AllScalar(runes)
    ensures WellFormed(EncodeAll(runes))
  {
    if runes != [] {
      EncodedIsWellFormed(runes[1..]);
      WellFormedCons(runes[0], EncodeAll(runes[1..]));
    }
  }

  lemma {:induction false} CharactersOf(s: Bytes) returns (runes: seq<int>)
    requires WellFormed(s)
    ensures AllScalar(runes) && EncodeAll(runes) == s
    decreases |s|
  {
    if s == [] {
      runes := [];
    } else {
      var r, rest := FirstCharacter(s);
      var more := CharactersOf(rest);
      runes := [r] + more;
      assert runes[1..] == more;
    }
  }

  /** Well-formed is what encodes some sequence of scalar values. */
  lemma WellFormedMeans(s: Bytes)
    ensures WellFormed(s) <==> exists runes: seq<int> :: AllScalar(runes) && EncodeAll(runes) == s
  {
    if WellFormed(s) { var _ := CharactersOf(s); }
    if runes: seq<int> :| AllScalar(runes) && EncodeAll(runes) == s { EncodedIsWellFormed(runes); }
  }
}
