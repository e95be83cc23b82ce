/** Byte strings, optional values and the order that Go's bytes.Compare induces. */
module ByteStrings {

  newtype byte = x: int | 0 <= x < 256

  type Bytes = seq<byte>

  const COMMA: byte := 0x2C

  datatype Option<+T> = None | Some(value: T)

  /** bytes.Compare(a, b) == -1. A missing slice compares like the empty one. */
  predicate Less(a: Bytes, b: Bytes) {
    if b == [] then false
    else if a == [] then true
    else a[0] < b[0] || (a[0] == b[0] && Less(a[1..], b[1..]))
  }

  /** Lexicographic order: behind a common start, a ends or has the smaller byte. */
  ghost predicate Before(a: Bytes, b: Bytes) { exists i: nat :: Parts(a, b, i) }

  /** The two are the same up to i, where a ends or has the smaller byte. */
  predicate Parts(a: Bytes, b: Bytes, i: nat) {
    i <= |a| && i < |b| && a[..i] == b[..i] && (i == |a| || a[i] < b[i])
  }

  lemma PartsCons(a: Bytes, b: Bytes, i: nat)
    requires a != [] && b != [] && a[0] == b[0]
    ensures Parts(a[1..], b[1..], i) <==> Parts(a, b, i + 1)
  {
    if i < |a| && i < |b| {
      assert a[..i + 1] == [a[0]] + a[1..][..i] && b[..i + 1] == [b[0]] + b[1..][..i];
      assert a[..i + 1][1..] == a[1..][..i] && b[..i + 1][1..] == b[1..][..i];
    }
  }

  lemma PartsLater(a: Bytes, b: Bytes, i: nat)
    requires Parts(a, b, i)
    ensures i == 0 || (a != [] && a[0] == b[0])
  {
    if i > 0 { assert a[0] == a[..i][0] == b[..i][0] == b[0]; }
  }

  /** The recursive comparison is the lexicographic order. */
  lemma {:induction false} LessMeans(a: Bytes, b: Bytes)
    ensures Less(a, b) <==> Before(a, b)
  {
    if a == [] || b == [] || a[0] != b[0] {
      if Less(a, b) { assert Parts(a, b, 0); }
      if Before(a, b) {
        var i: nat :| Parts(a, b, i);
        PartsLater(a, b, i);
      }
    } else {
      LessMeans(a[1..], b[1..]);
      if Less(a, b) {
        var i: nat :| Parts(a[1..], b[1..], i);
        PartsCons(a, b, i);
      }
      if Before(a, b) {
        var i: nat :| Parts(a, b, i);
        assert i > 0;
        PartsCons(a, b, i - 1);
      }
    }
  }

  lemma {:induction false} LessIrreflexive(a: Bytes)
    ensures !Less(a, a)
  {
    if a != [] { LessIrreflexive(a[1..]); }
  }

  lemma {:induction false} LessTransitive(a: Bytes, b: Bytes, c: Bytes)
    requires Less(a, b) && Less(b, c)
    ensures Less(a, c)
  {
    if a != [] && a[0] == b[0] == c[0] { LessTransitive(a[1..], b[1..], c[1..]); }
  }

  lemma {:induction false} LessTotal(a: Bytes, b: Bytes)
    ensures a == b || Less(a, b) || Less(b, a)
  {
    if a != [] && b != [] && a[0] == b[0] {
      LessTotal(a[1..], b[1..]);
      assert a == [a[0]] + a[1..] && b == [b[0]] + b[1..];
    }
  }

  lemma LessAsymmetric(a: Bytes, b: Bytes)
    requires Less(a, b)
    ensures !Less(b, a)
  {
    if Less(b, a) {
      LessTransitive(a, b, a);
      LessIrreflexive(a);
    }
  }

  /** The bytes of a text whose characters are all ASCII. */
  function Ascii(s: string): (b: Bytes)
    ensures |b| == |s|
    ensures forall i :: 0 <= i < |s| && s[i] as int < 128 ==> b[i] as int == s[i] as int
  {
    seq(|s|, i requires 0 <= i < |s| => ((s[i] as int) % 128) as byte)
  }

  lemma AsciiAppend(a: string, b: string)
    ensures Ascii(a + b) == Ascii(a) + Ascii(b)
  {
  }
}
