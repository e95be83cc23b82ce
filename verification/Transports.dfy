/** Byte slices and lists of byte strings on their way between Go and Rust. */
module Transports {
  import opened ByteStrings
  import opened Memory

  // Views. A pointer is the memory from its address on; None is the null pointer.

  datatype ByteSliceView = ByteSliceView(isNil: bool, ptr: Option<Bytes>, len: nat)

  function MakeView(s: Option<Bytes>): (v: ByteSliceView) {
    if s.None? then ByteSliceView(true, None, 0)
    else if s.value == [] then ByteSliceView(false, None, 0)
    else ByteSliceView(false, s, |s.value|)
  }

  /** Reading from a null pointer or past the end of the memory is not allowed. */
  predicate Readable(ptr: Option<Bytes>, len: nat) { len > 0 ==> ptr.Some? && len <= |ptr.value| }

  function Read(v: ByteSliceView): (s: Option<Bytes>)
    requires !v.isNil ==> Readable(v.ptr, v.len)
  {
    if v.isNil then None else if v.len == 0 then Some([]) else Some(v.ptr.value[..v.len])
  }

  datatype U8SliceView = U8SliceView(isNone: bool, ptr: Option<Bytes>, len: nat)

  function NewU8SliceView(source: Option<Bytes>): (v: U8SliceView) {
    match source
    case Some(data) => U8SliceView(false, if data == [] then None else source, |data|)
    case None => U8SliceView(true, None, 0)
  }

  function CopyU8Slice(v: U8SliceView): (c: GoCopy)
    requires !v.isNone ==> Readable(v.ptr, v.len)
  {
    if v.isNone then Copied(None)
    else if v.len == 0 then Copied(Some([]))
    else if CInt(v.len) < 0 then LengthPanic
    else Copied(Some(v.ptr.value[..CInt(v.len)]))
  }

  /**
   * Nil, empty and non-empty slices stay apart and keep their bytes. Into Rust this holds for
   * every slice, into Go if and only if the slice is shorter than 2 GiB.
   */
  lemma ViewsRoundTrip(s: Option<Bytes>)
    ensures var v := MakeView(s); (!v.isNil ==> Readable(v.ptr, v.len)) && Read(v) == s
    ensures var v := NewU8SliceView(s);
            && (!v.isNone ==> Readable(v.ptr, v.len))
            && (CopyU8Slice(v) == Copied(s) <==> (s.Some? ==> |s.value| < 0x8000_0000))
  {
    if s.Some? {
      assert s.value[..|s.value|] == s.value;
      var n := CInt(|s.value|);
      assert n >= 0 ==> |s.value[..n]| == n;
    }
  }

  // The list of checksums to keep pinned.

  const CHECKSUM_LEN := 32

  function Concat(parts: seq<Bytes>): (b: Bytes) { if parts == [] then [] else parts[0] + Concat(parts[1..]) }

  lemma {:induction false} ConcatAppend(parts: seq<Bytes>, last: Bytes)
    ensures Concat(parts + [last]) == Concat(parts) + last
  {
    if parts == [] {
      assert (parts + [last])[1..] == [];
    } else {
      ConcatAppend(parts[1..], last);
      assert (parts + [last])[1..] == parts[1..] + [last];
    }
  }

  /** chunks_exact(32): what is left over at the end is dropped. */
  function ChunksExact(b: Bytes): (chunks: seq<Bytes>)
    ensures forall i :: 0 <= i < |chunks| ==> |chunks[i]| == CHECKSUM_LEN
    ensures |chunks| == |b| / CHECKSUM_LEN && Concat(chunks) <= b
  {
    if |b| < CHECKSUM_LEN then []
    else
      var more := ChunksExact(b[CHECKSUM_LEN..]);
      assert ([b[..CHECKSUM_LEN]] + more)[1..] == more;
      assert b == b[..CHECKSUM_LEN] + b[CHECKSUM_LEN..];
      [b[..CHECKSUM_LEN]] + more
  }

  lemma {:induction false} ChunksOfConcat(checksums: seq<Bytes>)
    requires forall i :: 0 <= i < |checksums| ==> |checksums[i]| == CHECKSUM_LEN
    ensures ChunksExact(Concat(checksums)) == checksums
  {
    if checksums != [] {
      ChunksOfConcat(checksums[1..]);
      var b := Concat(checksums);
      assert b[..CHECKSUM_LEN] == checksums[0] && b[CHECKSUM_LEN..] == Concat(checksums[1..]);
    }
  }

  /**
   * SyncPinnedCodes together with do_sync_pinned_codes. The cache is given the list of the caller
   * if and only if every checksum has 32 bytes; no length makes it fail.
   */
  method SyncPinnedCodes(checksums: seq<Bytes>) returns (pinned: Option<seq<Bytes>>)
    ensures pinned.Some?
    ensures pinned.value == checksums <==> forall i :: 0 <= i < |checksums| ==> |checksums[i]| == 32
    ensures Concat(pinned.value) <= Concat(checksums) && |pinned.value| == |Concat(checksums)| / 32
  {
    var buffer: Bytes := [];
    for i := 0 to |checksums|
      invariant buffer == Concat(checksums[..i])
    {
      ConcatAppend(checksums[..i], checksums[i]);
      assert checksums[..i + 1] == checksums[..i] + [checksums[i]];
      buffer := buffer + checksums[i];
    }
    assert checksums[..|checksums|] == checksums;
    ViewsRoundTrip(Some(buffer));
    var read := Read(MakeView(Some(buffer)));
    if read.None? {
      return None;
    }
    pinned := Some(ChunksExact(read.value));
    if forall i :: 0 <= i < |checksums| ==> |checksums[i]| == CHECKSUM_LEN {
      ChunksOfConcat(checksums);
    }
  }

  // Comma-separated lists.

  /** set_to_csv: the names in the order of the set, nothing escaped. */
  function Join(names: seq<Bytes>): (text: Bytes) {
    if names == [] then []
    else if |names| == 1 then names[0]
    else names[0] + [COMMA] + Join(names[1..])
  }

  /** One more name in a list is one more comma in its text. */
  lemma {:induction false} JoinMore(names: seq<Bytes>, last: Bytes)
    ensures Join([last]) == last
    ensures names != [] ==> Join(names + [last]) == Join(names) + Ascii(",") + last
  {
    assert Ascii(",") == [COMMA];
    if |names| == 1 {
      assert (names + [last])[1..] == [last];
    } else if |names| > 1 {
      JoinMore(names[1..], last);
      assert (names + [last])[1..] == names[1..] + [last];
    }
  }

  /** strings.Split(text, ","): never empty. */
  function Split(text: Bytes): (parts: seq<Bytes>)
    ensures parts != [] && forall i :: 0 <= i < |parts| ==> COMMA !in parts[i]
    decreases |text|
  {
    if text == [] then [[]]
    else
      var more := Split(text[1..]);
      if text[0] == COMMA then [[]] + more else [[text[0]] + more[0]] + more[1..]
  }

  lemma {:induction false} SplitPrefix(name: Bytes, text: Bytes)
    requires COMMA !in name
    ensures Split(name + text) == [name + Split(text)[0]] + Split(text)[1..]
  {
    if name == [] {
      assert name + text == text && name + Split(text)[0] == Split(text)[0];
    } else {
      SplitPrefix(name[1..], text);
      assert (name + text)[1..] == name[1..] + text;
      assert [name[0]] + (name[1..] + Split(text)[0]) == name + Split(text)[0];
    }
  }

  lemma SplitComma(text: Bytes)
    ensures Split([COMMA] + text) == [[]] + Split(text)
  {
    assert ([COMMA] + text)[1..] == text;
  }

  predicate CommaFree(names: seq<Bytes>) { forall i :: 0 <= i < |names| ==> COMMA !in names[i] }

  lemma {:induction false} SplitJoin(names: seq<Bytes>)
    requires names != [] && CommaFree(names)
    ensures Split(Join(names)) == names
  {
    if |names| == 1 {
      SplitPrefix(names[0], []);
      assert names[0] + [] == names[0] && names == [names[0]];
    } else {
      var rest := Join(names[1..]);
      SplitJoin(names[1..]);
      SplitPrefix(names[0], [COMMA] + rest);
      SplitComma(rest);
      assert Join(names) == names[0] + ([COMMA] + rest);
      assert ([[]] + names[1..])[1..] == names[1..] && names[0] + [] == names[0];
      assert names == [names[0]] + names[1..];
    }
  }

  /** Whatever the text, joining its parts gives it back. */
  lemma {:induction false} JoinSplit(text: Bytes)
    ensures Join(Split(text)) == text
    decreases |text|
  {
    if text != [] {
      JoinSplit(text[1..]);
      var more, parts := Split(text[1..]), Split(text);
      assert text == [text[0]] + text[1..];
      if text[0] == COMMA {
        assert parts[1..] == more;
      } else {
        assert parts[0] == [text[0]] + more[0] && parts[1..] == more[1..];
      }
    }
  }

  /** The list survives if and only if it is not empty and no name contains a comma. */
  lemma CsvRoundTrip(names: seq<Bytes>)
    ensures Split(Join(names)) == names <==> names != [] && CommaFree(names)
  {
    if names != [] && CommaFree(names) {
      SplitJoin(names);
    }
  }

  // Sets of names, which iterate in ascending order.

  ghost predicate Increasing(list: seq<Bytes>) {
    forall i, j :: 0 <= i < j < |list| ==> Less(list[i], list[j])
  }

  ghost predicate Lists(list: seq<Bytes>, names: set<Bytes>) {
    Increasing(list) && forall x :: x in names <==> x in list
  }

  function InsertName(list: seq<Bytes>, x: Bytes): (r: seq<Bytes>) {
    if list == [] || Less(x, list[0]) then [x] + list else [list[0]] + InsertName(list[1..], x)
  }

  lemma {:induction false} InsertNameElements(list: seq<Bytes>, x: Bytes)
    ensures forall y :: y in InsertName(list, x) <==> y == x || y in list
  {
    if list != [] && !Less(x, list[0]) {
      InsertNameElements(list[1..], x);
      assert list == [list[0]] + list[1..];
    }
  }

  lemma {:induction false} InsertNameIncreasing(list: seq<Bytes>, x: Bytes)
    requires Increasing(list) && x !in list
    ensures Increasing(InsertName(list, x))
  {
    var r := InsertName(list, x);
    if list != [] {
      if Less(x, list[0]) {
        forall j | 0 < j < |r| ensures Less(r[0], r[j]) {
          if j > 1 { LessTransitive(x, list[0], list[j - 1]); }
        }
        assert forall i, j :: 1 <= i < j < |r| ==> r[i] == list[i - 1] && r[j] == list[j - 1];
      } else {
        InsertNameIncreasing(list[1..], x);
        InsertNameElements(list[1..], x);
        LessTotal(x, list[0]);
        var more := InsertName(list[1..], x);
        forall j | 0 <= j < |more| ensures Less(list[0], more[j]) { assert more[j] in more; }
      }
    }
  }

  /** The names of a BTreeSet in the order of its iterator. */
  ghost function Listing(names: set<Bytes>): (list: seq<Bytes>)
    ensures Lists(list, names)
    decreases |names|
  {
    if names == {} then []
    else
      var x :| x in names;
      var rest := Listing(names - {x});
      InsertNameElements(rest, x);
      InsertNameIncreasing(rest, x);
      InsertName(rest, x)
  }

  lemma TailLists(list: seq<Bytes>, names: set<Bytes>)
    requires list != [] && Lists(list, names)
    ensures list[0] in names && Lists(list[1..], names - {list[0]})
    ensures forall x :: x in names && x != list[0] ==> Less(list[0], x)
  {
    assert list == [list[0]] + list[1..];
    LessIrreflexive(list[0]);
    forall x | x in list[1..] ensures Less(list[0], x) {
      var j :| 0 <= j < |list[1..]| && list[1..][j] == x;
      assert x == list[j + 1];
    }
  }

  lemma EmptyLists(list: seq<Bytes>, names: set<Bytes>)
    requires Lists(list, names)
    ensures list == [] <==> names == {}
  {
    if list != [] { assert list[0] in names; }
  }

  /** There is only one such order. */
  lemma {:induction false} ListingUnique(a: seq<Bytes>, b: seq<Bytes>, names: set<Bytes>)
    requires Lists(a, names) && Lists(b, names)
    ensures a == b
  {
    EmptyLists(a, names);
    EmptyLists(b, names);
    if a != [] {
      TailLists(a, names);
      TailLists(b, names);
      if a[0] != b[0] { LessAsymmetric(a[0], b[0]); }
      ListingUnique(a[1..], b[1..], names - {a[0]});
      assert a == [a[0]] + a[1..] && b == [b[0]] + b[1..];
    }
  }

  /** set_to_csv: the set's own order, joined. */
  method SetToCsv(names: set<Bytes>) returns (text: Bytes)
    ensures text == Join(Listing(names))
  {
    var list: seq<Bytes> := [];
    var rest := names;
    while rest != {}
      invariant rest <= names && Lists(list, names - rest)
      decreases |rest|
    {
      var x :| x in rest;
      InsertNameElements(list, x);
      InsertNameIncreasing(list, x);
      list := InsertName(list, x);
      rest := rest - {x};
    }
    assert names - rest == names;
    ListingUnique(list, Listing(names), names);
    return Join(list);
  }

  /**
   * Splitting the text of a set gives its names in strictly ascending order if and only if the set
   * is not empty and no name contains a comma; the empty set gives a single empty string.
   */
  lemma CsvOfSet(names: set<Bytes>)
    ensures Lists(Split(Join(Listing(names))), names) <==> names != {} && forall x :: x in names ==> COMMA !in x
    ensures names == {} ==> Split(Join(Listing(names))) == [[]]
  {
    var list := Listing(names);
    CsvRoundTrip(list);
    if Lists(Split(Join(list)), names) { ListingUnique(Split(Join(list)), list, names); }
    if list != [] { assert list[0] in names; }
    assert (forall x :: x in names ==> COMMA !in x) <==> CommaFree(list);
  }
}
