/**
 * The content of a key-value store as a strictly ascending sequence of items, its update
 * operations, and the range queries the store interface promises.
 */
module Ranges {
  import opened ByteStrings

  datatype Item = Item(key: Bytes, value: Bytes)

  ghost predicate Ascending(s: seq<Item>) {
    forall i, j :: 0 <= i < j < |s| ==> Less(s[i].key, s[j].key)
  }

  ghost predicate Descending(s: seq<Item>) {
    forall i, j :: 0 <= i < j < |s| ==> Less(s[j].key, s[i].key)
  }

  function Reverse(s: seq<Item>): (r: seq<Item>)
    ensures |r| == |s|
    ensures forall i :: 0 <= i < |s| ==> r[i] == s[|s| - 1 - i]
  {
    if s == [] then [] else Reverse(s[1..]) + [s[0]]
  }

  /** Membership in [start, end); a missing bound is unbounded. */
  predicate InRange(k: Bytes, start: Option<Bytes>, end: Option<Bytes>) {
    && (start.Some? ==> !Less(k, start.value))
    && (end.Some? ==> Less(k, end.value))
  }

  function Filter(s: seq<Item>, start: Option<Bytes>, end: Option<Bytes>): (r: seq<Item>) {
    if s == [] then []
    else if InRange(s[0].key, start, end) then [s[0]] + Filter(s[1..], start, end)
    else Filter(s[1..], start, end)
  }

  /** What an iterator over [start, end) has to deliver, in the order asked for. */
  function RangeOf(s: seq<Item>, start: Option<Bytes>, end: Option<Bytes>, reverse: bool): (r: seq<Item>) {
    if reverse then Reverse(Filter(s, start, end)) else Filter(s, start, end)
  }

  lemma {:induction false} FilterElements(s: seq<Item>, start: Option<Bytes>, end: Option<Bytes>)
    ensures forall x :: x in Filter(s, start, end) <==> x in s && InRange(x.key, start, end)
  {
    if s != [] {
      FilterElements(s[1..], start, end);
      assert s == [s[0]] + s[1..];
    }
  }

  lemma {:induction false} FilterAscending(s: seq<Item>, start: Option<Bytes>, end: Option<Bytes>)
    requires Ascending(s)
    ensures Ascending(Filter(s, start, end))
  {
    if s != [] {
      FilterAscending(s[1..], start, end);
      FilterElements(s[1..], start, end);
      var r := Filter(s[1..], start, end);
      forall i | 0 <= i < |r| ensures Less(s[0].key, r[i].key) {
        assert r[i] in s[1..];
      }
    }
  }

  lemma {:induction false} FilterAppend(a: seq<Item>, b: seq<Item>, start: Option<Bytes>, end: Option<Bytes>)
    ensures Filter(a + b, start, end) == Filter(a, start, end) + Filter(b, start, end)
  {
    if a == [] {
      assert a + b == b;
    } else {
      assert (a + b)[0] == a[0] && (a + b)[1..] == a[1..] + b;
      FilterAppend(a[1..], b, start, end);
    }
  }

  lemma {:induction false} ReverseFilter(s: seq<Item>, start: Option<Bytes>, end: Option<Bytes>)
    ensures Filter(Reverse(s), start, end) == Reverse(Filter(s, start, end))
  {
    if s != [] {
      ReverseFilter(s[1..], start, end);
      FilterAppend(Reverse(s[1..]), [s[0]], start, end);
      assert Filter([s[0]], start, end) == if InRange(s[0].key, start, end) then [s[0]] else [];
      if InRange(s[0].key, start, end) {
        assert ([s[0]] + Filter(s[1..], start, end))[1..] == Filter(s[1..], start, end);
      }
    }
  }

  lemma ReverseElements(s: seq<Item>)
    ensures forall x :: x in Reverse(s) <==> x in s
  {
    var r := Reverse(s);
    forall x ensures x in r <==> x in s {
      if x in s { var i :| 0 <= i < |s| && s[i] == x; assert r[|s| - 1 - i] == x; }
      if x in r { var i :| 0 <= i < |r| && r[i] == x; assert s[|s| - 1 - i] == x; }
    }
  }

  lemma ReverseDescending(s: seq<Item>)
    requires Ascending(s)
    ensures Descending(Reverse(s))
  {
  }

  /** Membership in [start, end), in lexicographic order. */
  ghost predicate Within(k: Bytes, start: Option<Bytes>, end: Option<Bytes>) {
    (start.Some? ==> !Before(k, start.value)) && (end.Some? ==> Before(k, end.value))
  }

  /** Strictly ordered by key, lexicographically, in the given direction. */
  ghost predicate Sorted(s: seq<Item>, reverse: bool) {
    forall i, j :: 0 <= i < j < |s| ==> if reverse then Before(s[j].key, s[i].key) else Before(s[i].key, s[j].key)
  }

  lemma WithinIsInRange(k: Bytes, start: Option<Bytes>, end: Option<Bytes>)
    ensures InRange(k, start, end) <==> Within(k, start, end)
  {
    if start.Some? { LessMeans(k, start.value); }
    if end.Some? { LessMeans(k, end.value); }
  }

  lemma SortedMeans(s: seq<Item>)
    ensures Sorted(s, false) <==> Ascending(s)
    ensures Sorted(s, true) <==> Descending(s)
  {
    forall i, j | 0 <= i < |s| && 0 <= j < |s| ensures Less(s[i].key, s[j].key) <==> Before(s[i].key, s[j].key) {
      LessMeans(s[i].key, s[j].key);
    }
  }

  /**
   * The range query in declarative terms: its items are exactly the stored ones with a key in
   * [start, end), strictly ordered by key in the direction asked for, all in the lexicographic
   * order of bytes.
   */
  lemma RangeOfCharacterized(s: seq<Item>, start: Option<Bytes>, end: Option<Bytes>, reverse: bool)
    requires Ascending(s)
    ensures forall x :: x in RangeOf(s, start, end, reverse) <==> x in s && Within(x.key, start, end)
    ensures Sorted(RangeOf(s, start, end, reverse), reverse)
  {
    FilterElements(s, start, end);
    FilterAscending(s, start, end);
    ReverseElements(Filter(s, start, end));
    ReverseDescending(Filter(s, start, end));
    SortedMeans(RangeOf(s, start, end, reverse));
    forall x: Item ensures InRange(x.key, start, end) <==> Within(x.key, start, end) {
      WithinIsInRange(x.key, start, end);
    }
  }

  // The three point operations of the B-tree.

  function Lookup(s: seq<Item>, k: Bytes): (r: Option<Bytes>) {
    if s == [] then None else if s[0].key == k then Some(s[0].value) else Lookup(s[1..], k)
  }

  function Put(s: seq<Item>, k: Bytes, v: Bytes): (r: seq<Item>) {
    if s == [] then [Item(k, v)]
    else if Less(s[0].key, k) then [s[0]] + Put(s[1..], k, v)
    else if s[0].key == k then [Item(k, v)] + s[1..]
    else [Item(k, v)] + s
  }

  function Remove(s: seq<Item>, k: Bytes): (r: seq<Item>) {
    if s == [] then [] else if s[0].key == k then s[1..] else [s[0]] + Remove(s[1..], k)
  }

  lemma {:induction false} LookupAbsent(s: seq<Item>, k: Bytes)
    requires forall i :: 0 <= i < |s| ==> s[i].key != k
    ensures Lookup(s, k) == None
  {
    if s != [] { LookupAbsent(s[1..], k); }
  }

  /** The answer for a key is the stored value, and there is none exactly when no item has the key. */
  lemma {:induction false} LookupMeans(s: seq<Item>, k: Bytes)
    requires Ascending(s)
    ensures forall v :: Lookup(s, k) == Some(v) <==> Item(k, v) in s
  {
    if s != [] {
      LookupMeans(s[1..], k);
      LessIrreflexive(k);
      assert forall x :: x in s <==> x == s[0] || x in s[1..];
    }
  }

  lemma {:induction false} PutKeys(s: seq<Item>, k: Bytes, v: Bytes)
    ensures forall x :: x in Put(s, k, v) ==> x == Item(k, v) || x in s
  {
    if s != [] { PutKeys(s[1..], k, v); }
  }

  lemma {:induction false} RemoveKeys(s: seq<Item>, k: Bytes)
    ensures forall x :: x in Remove(s, k) ==> x in s
  {
    if s != [] { RemoveKeys(s[1..], k); }
  }

  /** Inserting keeps the order and changes the answer for one key only. */
  lemma {:induction false} PutCorrect(s: seq<Item>, k: Bytes, v: Bytes)
    requires Ascending(s)
    ensures Ascending(Put(s, k, v))
    ensures forall q :: Lookup(Put(s, k, v), q) == if q == k then Some(v) else Lookup(s, q)
  {
    if s != [] {
      var p := Put(s, k, v);
      LessIrreflexive(k);
      if Less(s[0].key, k) {
        PutCorrect(s[1..], k, v);
        PutKeys(s[1..], k, v);
        forall j | 0 < j < |p| ensures Less(p[0].key, p[j].key) {
          assert p[j] in Put(s[1..], k, v);
        }
        assert p[1..] == Put(s[1..], k, v);
      } else if s[0].key == k {
        assert p[1..] == s[1..];
      } else {
        LessTotal(k, s[0].key);
        forall j | 0 < j < |p| ensures Less(p[0].key, p[j].key) {
          if j > 1 { LessTransitive(k, s[0].key, s[j - 1].key); }
        }
        assert p[1..] == s;
      }
    }
  }

  /** Deleting keeps the order and forgets one key only. */
  lemma {:induction false} RemoveCorrect(s: seq<Item>, k: Bytes)
    requires Ascending(s)
    ensures Ascending(Remove(s, k))
    ensures forall q :: Lookup(Remove(s, k), q) == if q == k then None else Lookup(s, q)
  {
    if s != [] {
      LessIrreflexive(k);
      if s[0].key == k {
        LookupAbsent(s[1..], k);
      } else {
        RemoveCorrect(s[1..], k);
        RemoveKeys(s[1..], k);
        var p := Remove(s[1..], k);
        forall j | 0 <= j < |p| ensures Less(s[0].key, p[j].key) {
          assert p[j] in s[1..];
        }
        assert Remove(s, k) == [s[0]] + p && ([s[0]] + p)[1..] == p;
      }
    }
  }
}
