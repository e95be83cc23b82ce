/**
 * The traversal behind a MemDB iterator: a six-way choice of B-tree walks plus a visitor that
 * skips the excluded end and stops below the start.
 */
module Traversal {
  import opened ByteStrings
  import opened Ranges

  // The walks of the B-tree library, as the order in which they offer items to the visitor.

  function DropLess(s: seq<Item>, k: Bytes): (r: seq<Item>) {
    if s == [] then [] else if Less(s[0].key, k) then DropLess(s[1..], k) else s
  }

  function TakeLess(s: seq<Item>, k: Bytes): (r: seq<Item>) {
    if s == [] || !Less(s[0].key, k) then [] else [s[0]] + TakeLess(s[1..], k)
  }

  function DropGreater(s: seq<Item>, k: Bytes): (r: seq<Item>) {
    if s == [] then [] else if Less(k, s[0].key) then DropGreater(s[1..], k) else s
  }

  function Ascend(s: seq<Item>): (r: seq<Item>) { s }

  function Descend(s: seq<Item>): (r: seq<Item>) { Reverse(s) }

  function AscendGreaterOrEqual(s: seq<Item>, k: Bytes): (r: seq<Item>) { DropLess(s, k) }

  function AscendRange(s: seq<Item>, lo: Bytes, hi: Bytes): (r: seq<Item>) { TakeLess(DropLess(s, lo), hi) }

  function DescendLessOrEqual(s: seq<Item>, k: Bytes): (r: seq<Item>) { DropGreater(Reverse(s), k) }

  /** What the switch hands over: an order of items and the two visitor variables. */
  datatype Walk = Walk(order: seq<Item>, skipEqual: Option<Bytes>, abortLessThan: Option<Bytes>)

  /** A nil key acts as the empty one inside the tree. */
  function KeyOf(k: Option<Bytes>): (r: Bytes) { if k.Some? then k.value else [] }

  function ChooseWalk(s: seq<Item>, start: Option<Bytes>, end: Option<Bytes>, reverse: bool): (w: Walk) {
    if start.None? && end.None? && !reverse then Walk(Ascend(s), None, None)
    else if start.None? && end.None? && reverse then Walk(Descend(s), None, None)
    else if end.None? && !reverse then Walk(AscendGreaterOrEqual(s, KeyOf(start)), None, None)
    else if !reverse then Walk(AscendRange(s, KeyOf(start), KeyOf(end)), None, None)
    else if end.None? then Walk(Descend(s), None, start)
    else Walk(DescendLessOrEqual(s, KeyOf(end)), end, start)
  }

  datatype Verdict = Skip | Abort | Send

  /** One visitor call, apart from the channel. A Skip verdict also clears skipEqual. */
  function Visit(item: Item, skipEqual: Option<Bytes>, abortLessThan: Option<Bytes>): (v: Verdict) {
    if skipEqual.Some? && item.key == skipEqual.value then Skip
    else if abortLessThan.Some? && Less(item.key, abortLessThan.value) then Abort
    else Send
  }

  /** Everything the visitor sends for the rest of a walk when nobody cancels. */
  function Visited(order: seq<Item>, skipEqual: Option<Bytes>, abortLessThan: Option<Bytes>): (r: seq<Item>) {
    if order == [] then []
    else match Visit(order[0], skipEqual, abortLessThan)
      case Skip => Visited(order[1..], None, abortLessThan)
      case Abort => []
      case Send => [order[0]] + Visited(order[1..], skipEqual, abortLessThan)
  }

  lemma {:induction false} SendAll(order: seq<Item>)
    ensures Visited(order, None, None) == order
  {
    if order != [] {
      SendAll(order[1..]);
      assert order == [order[0]] + order[1..];
    }
  }

  lemma {:induction false} FilterAll(s: seq<Item>)
    ensures Filter(s, None, None) == s
  {
    if s != [] {
      FilterAll(s[1..]);
      assert s == [s[0]] + s[1..];
    }
  }

  lemma {:induction false} AllFrom(s: seq<Item>, lo: Bytes)
    requires Ascending(s)
    requires s == [] || !Less(s[0].key, lo)
    ensures Filter(s, Some(lo), None) == s
  {
    if s != [] {
      if |s| > 1 && Less(s[1].key, lo) { LessTransitive(s[0].key, s[1].key, lo); }
      AllFrom(s[1..], lo);
      assert s == [s[0]] + s[1..];
    }
  }

  lemma {:induction false} DropLessIsFilter(s: seq<Item>, lo: Bytes)
    requires Ascending(s)
    ensures DropLess(s, lo) == Filter(s, Some(lo), None)
  {
    if s != [] {
      if Less(s[0].key, lo) { DropLessIsFilter(s[1..], lo); } else { AllFrom(s, lo); }
    }
  }

  lemma {:induction false} NoneBelow(s: seq<Item>, start: Option<Bytes>, hi: Bytes)
    requires Ascending(s)
    requires s != [] && !Less(s[0].key, hi)
    ensures Filter(s, start, Some(hi)) == []
  {
    if |s| > 1 {
      if Less(s[1].key, hi) { LessTransitive(s[0].key, s[1].key, hi); }
      NoneBelow(s[1..], start, hi);
    } else {
      assert s[1..] == [];
    }
  }

  lemma {:induction false} TakeLessIsFilter(s: seq<Item>, hi: Bytes)
    requires Ascending(s)
    ensures TakeLess(s, hi) == Filter(s, None, Some(hi))
  {
    if s != [] {
      if Less(s[0].key, hi) { TakeLessIsFilter(s[1..], hi); } else { NoneBelow(s, None, hi); }
    }
  }

  lemma {:induction false} FilterTwice(s: seq<Item>, lo: Bytes, end: Option<Bytes>)
    ensures Filter(Filter(s, Some(lo), None), None, end) == Filter(s, Some(lo), end)
  {
    if s != [] {
      FilterTwice(s[1..], lo, end);
    }
  }

  lemma {:induction false} EmptyKeyIsLeast(s: seq<Item>, end: Option<Bytes>)
    ensures Filter(s, Some([]), end) == Filter(s, None, end)
  {
    if s != [] { EmptyKeyIsLeast(s[1..], end); }
  }

  /** Below the start every later item of a descending walk is below the start too. */
  lemma {:induction false} NoneAbove(r: seq<Item>, lo: Bytes, end: Option<Bytes>)
    requires Descending(r)
    requires r != [] && Less(r[0].key, lo)
    ensures Filter(r, Some(lo), end) == []
  {
    if |r| > 1 {
      LessTransitive(r[1].key, r[0].key, lo);
      NoneAbove(r[1..], lo, end);
    } else {
      assert r[1..] == [];
    }
  }

  lemma {:induction false} AbortIsFilter(r: seq<Item>, start: Option<Bytes>)
    requires Descending(r)
    ensures Visited(r, None, start) == Filter(r, start, None)
  {
    if r != [] {
      if start.Some? && Less(r[0].key, start.value) { NoneAbove(r, start.value, None); }
      else { AbortIsFilter(r[1..], start); }
    }
  }

  /** Once all items are below the end, neither the skip nor the end bound matters. */
  lemma {:induction false} BelowEnd(r: seq<Item>, start: Option<Bytes>, hi: Bytes)
    requires Descending(r)
    requires r == [] || Less(r[0].key, hi)
    ensures Visited(r, Some(hi), start) == Visited(r, None, start)
    ensures Filter(r, start, Some(hi)) == Filter(r, start, None)
  {
    if r != [] {
      LessIrreflexive(hi);
      if |r| > 1 { LessTransitive(r[1].key, r[0].key, hi); }
      BelowEnd(r[1..], start, hi);
    }
  }

  lemma {:induction false} SkipAndAbortIsFilter(r: seq<Item>, start: Option<Bytes>, hi: Bytes)
    requires Descending(r)
    ensures Visited(DropGreater(r, hi), Some(hi), start) == Filter(r, start, Some(hi))
  {
    if r != [] {
      if Less(hi, r[0].key) {
        LessAsymmetric(hi, r[0].key);
        SkipAndAbortIsFilter(r[1..], start, hi);
      } else if r[0].key == hi {
        LessIrreflexive(hi);
        BelowEnd(r[1..], start, hi);
        AbortIsFilter(r[1..], start);
      } else {
        LessTotal(r[0].key, hi);
        BelowEnd(r, start, hi);
        AbortIsFilter(r, start);
      }
    }
  }

  /** Each of the six cases, with the stateful visitor, sends exactly the requested range. */
  lemma WalkIsRange(s: seq<Item>, start: Option<Bytes>, end: Option<Bytes>, reverse: bool)
    requires Ascending(s)
    ensures var w := ChooseWalk(s, start, end, reverse);
            Visited(w.order, w.skipEqual, w.abortLessThan) == RangeOf(s, start, end, reverse)
  {
    var w := ChooseWalk(s, start, end, reverse);
    if !reverse {
      SendAll(w.order);
      if start.None? && end.None? {
        FilterAll(s);
      } else {
        var lo := KeyOf(start);
        DropLessIsFilter(s, lo);
        FilterAscending(s, Some(lo), None);
        if end.Some? {
          TakeLessIsFilter(DropLess(s, lo), end.value);
          FilterTwice(s, lo, end);
        }
        if start.None? { EmptyKeyIsLeast(s, end); }
      }
    } else {
      ReverseDescending(s);
      ReverseFilter(s, start, end);
      if end.Some? {
        SkipAndAbortIsFilter(Reverse(s), start, end.value);
      } else {
        AbortIsFilter(Reverse(s), start);
      }
    }
  }

  lemma VisitedAt(order: seq<Item>, i: nat, skipEqual: Option<Bytes>, abortLessThan: Option<Bytes>)
    requires i < |order|
    ensures Visited(order[i..], skipEqual, abortLessThan)
            == match Visit(order[i], skipEqual, abortLessThan)
               case Skip => Visited(order[i + 1..], None, abortLessThan)
               case Abort => []
               case Send => [order[i]] + Visited(order[i + 1..], skipEqual, abortLessThan)
  {
    assert order[i..][0] == order[i] && order[i..][1..] == order[i + 1..];
  }

  /** The visitor's calls over one walk, with its mutable skipEqual, when the channel never blocks or cancels. */
  method RunWalk(walk: Walk) returns (sent: seq<Item>)
    ensures sent == Visited(walk.order, walk.skipEqual, walk.abortLessThan)
  {
    ghost var all := Visited(walk.order, walk.skipEqual, walk.abortLessThan);
    var skipEqual := walk.skipEqual;
    sent := [];
    var i := 0;
    assert walk.order[0..] == walk.order;
    while i < |walk.order|
      invariant 0 <= i <= |walk.order|
      invariant sent + Visited(walk.order[i..], skipEqual, walk.abortLessThan) == all
    {
      VisitedAt(walk.order, i, skipEqual, walk.abortLessThan);
      var item := walk.order[i];
      if skipEqual.Some? && item.key == skipEqual.value {
        skipEqual := None;
      } else if walk.abortLessThan.Some? && Less(item.key, walk.abortLessThan.value) {
        return;
      } else {
        sent := sent + [item];
      }
      i := i + 1;
    }
  }

  /** The goroutine's body up to close(ch). */
  method Traverse(s: seq<Item>, start: Option<Bytes>, end: Option<Bytes>, reverse: bool) returns (sent: seq<Item>)
    requires Ascending(s)
    ensures sent == RangeOf(s, start, end, reverse)
  {
    sent := RunWalk(ChooseWalk(s, start, end, reverse));
    WalkIsRange(s, start, end, reverse);
  }
}
