/**
 * Iterators that the frame limit refuses. The store interface asks its callers to close every
 * iterator; this module says exactly which ones are closed, and what an unclosed one does.
 */
module Refusals {
  import opened ByteStrings
  import opened Ranges
  import opened IteratorFrames
  import opened Protocol
  import M = Snapshot
  import ReadLock
  import W = FullRuns

  lemma {:induction false} ExecAppend(s: State, a: seq<Event>, b: seq<Event>)
    ensures Exec(s, a + b) == match Exec(s, a) case None => None case Some(t) => Exec(t, b)
    decreases |a|
  {
    if a == [] {
      assert a + b == b;
    } else {
      assert (a + b)[0] == a[0] && (a + b)[1..] == a[1..] + b;
      match Step(s, a[0]) {
        case None =>
        case Some(t) => ExecAppend(t, a[1..], b);
      }
    }
  }

  lemma {:induction false} StartsAppend(a: seq<Event>, b: seq<Event>)
    ensures Starts(a + b) == Starts(a) + Starts(b)
  {
    if a == [] {
      assert a + b == b;
    } else {
      assert (a + b)[0] == a[0] && (a + b)[1..] == a[1..] + b;
      StartsAppend(a[1..], b);
    }
  }

  lemma ExecOne(s: State, e: Event, t: State)
    requires Step(s, e) == Some(t)
    ensures Exec(s, [e]) == Some(t)
  {
    assert [e][1..] == [];
    assert Exec(t, [e][1..]) == Some(t);
  }

  /** Whether an iterator was accepted is settled when it is opened. */
  lemma HomeStays(s: State, e: Event, h: nat)
    requires Inv(s) && Step(s, e).Some? && (e.Start? ==> |s.calls| + 1 < TWO_TO_64) && h < |s.tables.iterators|
    ensures h < |Step(s, e).value.tables.iterators| && (h in Step(s, e).value.home <==> h in s.home)
  {
    StepTouches(s, e);
  }

  lemma {:induction false} RunHomeStays(s: State, events: seq<Event>, h: nat)
    requires Inv(s) && Exec(s, events).Some? && |s.calls| + Starts(events) < TWO_TO_64 && h < |s.tables.iterators|
    ensures h < |Exec(s, events).value.tables.iterators| && (h in Exec(s, events).value.home <==> h in s.home)
    decreases |events|
  {
    if events != [] {
      HomeStays(s, events[0], h);
      StepKeeps(s, events[0]);
      if events[0].Start? { CountStarts(s, events[0]); } else { SameLatest(s, events[0]); }
      RunHomeStays(Step(s, events[0]).value, events[1..], h);
    }
  }

  lemma ScanSettles(s: State, a: nat, items: seq<Item>, s': State)
    requires Inv(s) && a in s.calls && Step(s, Scan(a, Some(items))) == Some(s')
    ensures |s'.tables.iterators| == |s.tables.iterators| + 1
    ensures |s.tables.iterators| in s'.home <==> |s.tables.Frame(s.calls[a].id)| < FRAME_LEN_LIMIT
  {
    StepCases(s, Scan(a, Some(items)));
    assert CallInv(s, a, s.calls[a]);
    if |s.calls[a].accepted| < FRAME_LEN_LIMIT {
      ScanAccepts(s, a, items);
    } else {
      ScanRefuses(s, a, Some(items));
      assert |s.tables.iterators| !in s.home;
      W.ScanAppends(s, a, items);
    }
  }

  lemma ScanAt(s: State, a: nat, items: Option<seq<Item>>)
    requires a in s.calls && CallInv(s, a, s.calls[a]) && Step(s, Scan(a, items)).Some?
    ensures var s', n := Step(s, Scan(a, items)).value, |s.tables.Frame(s.calls[a].id)|;
            && a in s'.calls
            && s'.calls[a].log == s.calls[a].log
                                  + [if items.None? then ScanFailed else if n < 32768 then Answer.Scanned(n) else LimitHit]
  {
    StepCases(s, Scan(a, items));
    if items.Some? && |s.calls[a].accepted| < FRAME_LEN_LIMIT {
      ScanAccepts(s, a, items.value);
    } else {
      ScanRefuses(s, a, items);
    }
  }

  /**
   * What a call is told of a scan, in every run: that it failed when the store panicked; the next
   * number in its frame while that has room; and otherwise that the limit is reached.
   */
  lemma ScanIsTold(before: seq<Event>, a: nat, items: Option<seq<Item>>)
    requires Exec(Init, before).Some? && Starts(before) < TWO_TO_64 && a in Exec(Init, before).value.calls
    requires Step(Exec(Init, before).value, Scan(a, items)).Some?
    ensures var s0 := Exec(Init, before).value;
            var s, n := Step(s0, Scan(a, items)).value, |s0.tables.Frame(s0.calls[a].id)|;
            && a in s.calls
            && s.calls[a].log == s0.calls[a].log
                                 + [if items.None? then ScanFailed else if n < 32768 then Answer.Scanned(n) else LimitHit]
  {
    Reachable(before);
    var s := Exec(Init, before).value;
    assert CallInv(s, a, s.calls[a]);
    ScanAt(s, a, items);
  }

  lemma LookupAt(s: State, a: nat, k: nat, kind: Kind)
    requires a in s.calls && CallInv(s, a, s.calls[a]) && Step(s, Lookup(a, k, kind)).Some?
    ensures var s', frame := Step(s, Lookup(a, k, kind)).value, s.tables.Frame(s.calls[a].id);
            && a in s'.calls && s'.tables == s.tables
            && if k < |frame| then s'.calls[a].phase == Holding(frame[k], k, kind) && s'.calls[a].log == s.calls[a].log
               else s'.calls[a].phase.Idle? && s'.calls[a].log == s.calls[a].log + [NoIterator(k)]
  {
    StepCases(s, Lookup(a, k, kind));
    CoupledRetrieve(s.tables, s.calls[a], k);
  }

  /** And of an ID: it leads to that place of the call's frame, or there is no such iterator. */
  lemma LookupIsTold(before: seq<Event>, a: nat, k: nat, kind: Kind)
    requires Exec(Init, before).Some? && Starts(before) < TWO_TO_64 && a in Exec(Init, before).value.calls
    requires Step(Exec(Init, before).value, Lookup(a, k, kind)).Some?
    ensures var s0 := Exec(Init, before).value;
            var s, frame := Step(s0, Lookup(a, k, kind)).value, s0.tables.Frame(s0.calls[a].id);
            && a in s.calls && s.tables == s0.tables
            && if k < |frame| then s.calls[a].phase == Holding(frame[k], k, kind) && s.calls[a].log == s0.calls[a].log
               else s.calls[a].phase.Idle? && s.calls[a].log == s0.calls[a].log + [NoIterator(k)]
  {
    Reachable(before);
    var s := Exec(Init, before).value;
    assert CallInv(s, a, s.calls[a]);
    LookupAt(s, a, k, kind);
  }

  /**
   * Which iterators are closed. Take any run in which a scan of a call opens an iterator and in
   * which, at the end, all calls have ended and no Close has panicked. The iterator has been closed
   * once if the call's frame was below the limit when the scan was made, and otherwise never.
   */
  lemma ClosedIffRoom(before: seq<Event>, a: nat, items: seq<Item>, after: seq<Event>)
    requires var run := before + ([Scan(a, Some(items))] + after);
             && Exec(Init, before).Some? && a in Exec(Init, before).value.calls
             && Exec(Init, run).Some? && Starts(run) < TWO_TO_64 && NoUnwind(run)
             && forall b :: b in Exec(Init, run).value.calls ==> Exec(Init, run).value.calls[b].phase.Ended?
    ensures var s0, s := Exec(Init, before).value, Exec(Init, before + ([Scan(a, Some(items))] + after)).value;
            var h := |s0.tables.iterators|;
            && h < |s.tables.iterators|
            && s.tables.iterators[h].closes == if |s0.tables.Frame(s0.calls[a].id)| < 32768 then 1 else 0
  {
    var scan := Scan(a, Some(items));
    var run := before + ([scan] + after);
    var s0 := Exec(Init, before).value;
    StartsAppend(before, [scan] + after);
    StartsAppend([scan], after);
    ExecAppend(Init, before, [scan] + after);
    var s1 := AfterScan(before, scan, after);
    ScanSettles(s0, a, items, s1);
    RunHomeStays(s1, after, |s0.tables.iterators|);
    ClosedExactlyOnce(run);
  }

  lemma AfterScan(before: seq<Event>, scan: Event, after: seq<Event>) returns (s1: State)
    requires scan.Scan? && Exec(Init, before).Some? && Exec(Exec(Init, before).value, [scan] + after).Some?
    requires Starts(before) + Starts(after) < TWO_TO_64
    ensures Inv(Exec(Init, before).value) && Step(Exec(Init, before).value, scan) == Some(s1) && Inv(s1)
    ensures Exec(Exec(Init, before).value, [scan] + after) == Exec(s1, after)
    ensures |s1.calls| + Starts(after) < TWO_TO_64
  {
    var s0 := Exec(Init, before).value;
    Reachable(before);
    assert ([scan] + after)[0] == scan && ([scan] + after)[1..] == after;
    s1 := Step(s0, scan).value;
    StepKeeps(s0, scan);
    SameLatest(s0, scan);
    LatestCounts(Init, before);
  }

  lemma {:induction false} LatestCounts(s: State, events: seq<Event>)
    requires Inv(s) && Exec(s, events).Some? && |s.calls| + Starts(events) < TWO_TO_64
    ensures Inv(Exec(s, events).value) && |Exec(s, events).value.calls| == |s.calls| + Starts(events)
    decreases |events|
  {
    if events != [] {
      StepKeeps(s, events[0]);
      if events[0].Start? { CountStarts(s, events[0]); } else { SameLatest(s, events[0]); }
      LatestCounts(Step(s, events[0]).value, events[1..]);
    }
  }

  // A call that scans beyond the limit.

  const ONE_SCAN := Scan(0, Some([]))

  function Scans(n: nat): (r: seq<Event>)
    ensures |r| == n && forall i :: 0 <= i < n ==> r[i] == ONE_SCAN
  {
    if n == 0 then [] else Scans(n - 1) + [ONE_SCAN]
  }

  /** One call, idle, with n scans behind it. */
  ghost predicate Scanned(s: State, n: nat) {
    && Sound(s) && s.calls.Keys == {0} && s.calls[0].phase.Idle?
    && |s.tables.iterators| == n
    && |s.calls[0].accepted| == (if n < FRAME_LEN_LIMIT then n else FRAME_LEN_LIMIT)
    && forall h :: h in s.home <==> 0 <= h < n && h < FRAME_LEN_LIMIT
  }

  lemma ScanOnce(s: State, n: nat) returns (s': State)
    requires Scanned(s, n)
    ensures Step(s, ONE_SCAN) == Some(s') && Scanned(s', n + 1)
  {
    assert Inv(s);
    s' := ScanStep(s, 0, Some([]));
    assert CallInv(s, 0, s.calls[0]);
    ScanKeeps(s, 0, Some([]));
    ScanHomes(s, s', n);
  }

  lemma ScanHomes(s: State, s': State, n: nat)
    requires Scanned(s, n) && CallInv(s, 0, s.calls[0]) && s' == ScanStep(s, 0, Some([]))
    ensures s'.calls.Keys == {0} && s'.calls[0].phase.Idle? && |s'.tables.iterators| == n + 1
    ensures |s'.calls[0].accepted| == if n + 1 < FRAME_LEN_LIMIT then n + 1 else FRAME_LEN_LIMIT
    ensures forall h :: h in s'.home <==> 0 <= h < n + 1 && h < FRAME_LEN_LIMIT
  {
    ScanLengthens(s, s');
    if n < FRAME_LEN_LIMIT {
      ScanAccepts(s, 0, []);
    } else {
      ScanRefuses(s, 0, Some([]));
    }
  }

  lemma ScanLengthens(s: State, s': State)
    requires 0 in s.calls && s' == ScanStep(s, 0, Some([]))
    ensures |s'.tables.iterators| == |s.tables.iterators| + 1 && s'.calls.Keys == s.calls.Keys
  {
  }

  lemma Started() returns (s: State)
    ensures Step(Init, Start(0)) == Some(s) && Scanned(s, 0)
  {
    s := Step(Init, Start(0)).value;
    StartKeeps(Init, 0);
    assert CallInv(s, 0, s.calls[0]);
  }

  lemma LeadsSnoc(s: State, run: seq<Event>, t: State, e: Event, u: State)
    requires Leads(s, run, t) && Step(t, e) == Some(u)
    ensures Leads(s, run + [e], u)
  {
    assert Exec(s, run) == Some(t);
    ExecAppend(s, run, [e]);
    ExecOne(t, e, u);
  }

  lemma LeadsAppend(s: State, a: seq<Event>, t: State, b: seq<Event>, u: State)
    requires Leads(s, a, t) && Leads(t, b, u)
    ensures Leads(s, a + b, u)
  {
    assert Exec(s, a) == Some(t) && Exec(t, b) == Some(u);
    ExecAppend(s, a, b);
  }

  lemma {:induction false} ScanMany(n: nat) returns (s: State)
    ensures Leads(Init, [Start(0)] + Scans(n), s) && Scanned(s, n)
  {
    if n == 0 {
      s := Started();
      ExecOne(Init, Start(0), s);
      assert [Start(0)] + Scans(0) == [Start(0)];
    } else {
      var r := ScanMany(n - 1);
      s := ScanOnce(r, n - 1);
      LeadsSnoc(Init, [Start(0)] + Scans(n - 1), r, ONE_SCAN, s);
      assert [Start(0)] + Scans(n) == [Start(0)] + Scans(n - 1) + [ONE_SCAN];
    }
  }

  predicate Closes(events: seq<Event>) {
    forall i :: 0 <= i < |events| ==> events[i].CloseNext? || events[i].Finish? || events[i].Remove?
  }

  /** What the end of a call leaves alone. */
  ghost predicate Kept(s: State, t: State) {
    t.home == s.home && |t.tables.iterators| == |s.tables.iterators| && forall b :: b in t.calls <==> b in s.calls
  }

  lemma ExecCons(s: State, e: Event, u: State, rest: seq<Event>)
    requires Step(s, e) == Some(u)
    ensures Exec(s, [e] + rest) == Exec(u, rest)
  {
    assert ([e] + rest)[1..] == rest;
  }

  /** The invariant, for proofs that only pass it on. */
  ghost predicate Sound(s: State) { forall r {:trigger Inv(r)} :: r == s ==> Inv(r) }

  /** A run, for proofs that only put runs together. */
  ghost predicate Leads(s: State, run: seq<Event>, t: State) {
    forall r {:trigger Exec(r, run)} :: r == s ==> Exec(r, run) == Some(t)
  }

  lemma LeadsCons(s: State, e: Event, u: State, more: seq<Event>, t: State)
    requires Step(s, e) == Some(u) && Leads(u, more, t)
    ensures Leads(s, [e] + more, t)
  {
    ExecCons(s, e, u, more);
    assert Exec(u, more) == Some(t);
  }

  lemma LeadsNowhere(s: State)
    ensures Leads(s, [], s)
  {
  }

  lemma RemoveOnce(s: State, a: nat) returns (u: State)
    requires Sound(s) && a in s.calls && s.calls[a].phase.Idle?
    ensures Step(s, Remove(a)) == Some(u) && Sound(u) && Kept(s, u) && a in u.calls && u.calls[a].phase.Closing?
  {
    assert Inv(s);
    u := RemoveStep(s, a);
    RemoveEnabled(s, a);
    RemoveKeeps(s, a);
  }

  lemma RemoveEnabled(s: State, a: nat)
    requires a in s.calls && s.calls[a].phase.Idle?
    ensures Step(s, Remove(a)) == Some(RemoveStep(s, a)) && Kept(s, RemoveStep(s, a))
    ensures RemoveStep(s, a).calls[a].phase.Closing?
  {
  }

  lemma FinishEnabled(s: State, a: nat)
    requires a in s.calls && s.calls[a].phase.Closing? && s.calls[a].phase.next == |s.calls[a].phase.frame|
    ensures Step(s, Finish(a)) == Some(EndStep(s, a)) && Kept(s, EndStep(s, a)) && EndStep(s, a).calls[a].phase.Ended?
  {
  }

  lemma NextExists(s: State, a: nat)
    requires CallsInv(s) && a in s.calls && s.calls[a].phase.Closing? && s.calls[a].phase.next < |s.calls[a].phase.frame|
    ensures s.calls[a].phase.frame[s.calls[a].phase.next] < |s.tables.iterators|
  {
    assert CallInv(s, a, s.calls[a]);
    assert s.calls[a].accepted[s.calls[a].phase.next] < |s.tables.iterators|;
  }

  lemma CloseEnabled(s: State, a: nat)
    requires a in s.calls && s.calls[a].phase.Closing? && s.calls[a].phase.next < |s.calls[a].phase.frame|
    requires s.calls[a].phase.frame[s.calls[a].phase.next] < |s.tables.iterators|
    ensures Step(s, CloseNext(a)) == Some(CloseStep(s, a)) && Kept(s, CloseStep(s, a))
    ensures CloseStep(s, a).calls[a].phase == s.calls[a].phase.(next := s.calls[a].phase.next + 1)
  {
  }

  lemma CloseOnce(s: State, a: nat) returns (u: State)
    requires Sound(s) && a in s.calls && s.calls[a].phase.Closing? && s.calls[a].phase.next < |s.calls[a].phase.frame|
    ensures Step(s, CloseNext(a)) == Some(u) && Sound(u) && Kept(s, u)
    ensures a in u.calls && u.calls[a].phase == s.calls[a].phase.(next := s.calls[a].phase.next + 1)
  {
    assert Inv(s);
    NextExists(s, a);
    u := CloseStep(s, a);
    CloseEnabled(s, a);
    CloseKeeps(s, a);
  }

  lemma FinishOnce(s: State, a: nat) returns (u: State)
    requires Sound(s) && a in s.calls && s.calls[a].phase.Closing? && s.calls[a].phase.next >= |s.calls[a].phase.frame|
    ensures Step(s, Finish(a)) == Some(u) && Kept(s, u) && a in u.calls && u.calls[a].phase.Ended?
  {
    assert Inv(s) && CallInv(s, a, s.calls[a]);
    u := EndStep(s, a);
    FinishEnabled(s, a);
  }

  lemma ClosesCons(e: Event, more: seq<Event>)
    requires (e.CloseNext? || e.Finish? || e.Remove?) && Closes(more)
    ensures Closes([e] + more)
  {
    assert forall i :: 0 < i < |[e] + more| ==> ([e] + more)[i] == more[i - 1];
  }

  /** A call in its close loop gets to its end by itself. */
  lemma {:induction false} CloseLoop(s: State, a: nat) returns (run: seq<Event>, t: State)
    requires Sound(s) && a in s.calls && s.calls[a].phase.Closing?
    ensures Closes(run) && Leads(s, run, t) && Kept(s, t)
    ensures a in t.calls && t.calls[a].phase.Ended?
    decreases |s.calls[a].phase.frame| - s.calls[a].phase.next
  {
    var e, u, more;
    if s.calls[a].phase.next >= |s.calls[a].phase.frame| {
      u := FinishOnce(s, a);
      e, more, t := Finish(a), [], u;
      LeadsNowhere(u);
    } else {
      u := CloseOnce(s, a);
      e := CloseNext(a);
      more, t := CloseLoop(u, a);
    }
    run := [e] + more;
    ClosesCons(e, more);
    LeadsCons(s, e, u, more, t);
  }

  lemma Shutdown(s: State, a: nat) returns (run: seq<Event>, t: State)
    requires Sound(s) && a in s.calls && s.calls[a].phase.Idle?
    ensures Closes(run) && Leads(s, run, t) && Kept(s, t)
    ensures a in t.calls && t.calls[a].phase.Ended?
  {
    var u := RemoveOnce(s, a);
    var more;
    more, t := CloseLoop(u, a);
    run := [Remove(a)] + more;
    ClosesCons(Remove(a), more);
    LeadsCons(s, Remove(a), u, more, t);
  }

  lemma {:induction false} NoStarts(events: seq<Event>)
    requires forall i :: 0 <= i < |events| ==> !events[i].Start?
    ensures Starts(events) == 0
  {
    if events != [] { NoStarts(events[1..]); }
  }

  lemma RunShape(n: nat, more: seq<Event>)
    requires Closes(more)
    ensures var run := [Start(0)] + Scans(n) + more; NoUnwind(run) && Starts(run) == 1
  {
    StartsAppend([Start(0)], Scans(n));
    StartsAppend([Start(0)] + Scans(n), more);
    NoStarts(Scans(n));
    NoStarts(more);
    assert [Start(0)][1..] == [];
    var run := [Start(0)] + Scans(n) + more;
    assert forall i :: 0 <= i < |run| ==> run[i] == (if i == 0 then Start(0) else if i <= n then ONE_SCAN else more[i - n - 1]);
  }

  lemma ScanRun(n: nat) returns (run: seq<Event>, s: State)
    ensures Leads(Init, run, s) && NoUnwind(run) && Starts(run) == 1
    ensures (forall a :: a in s.calls <==> a == 0) && s.calls[0].phase.Ended? && |s.tables.iterators| == n
    ensures forall h :: h in s.home <==> 0 <= h < n && h < FRAME_LEN_LIMIT
  {
    var r := ScanMany(n);
    var more;
    more, s := Shutdown(r, 0);
    run := [Start(0)] + Scans(n) + more;
    LeadsAppend(Init, [Start(0)] + Scans(n), r, more, s);
    RunShape(n, more);
  }

  /**
   * The failing input: for every n there is a run of one call that scans n times and ends, after
   * which the first 32768 of its n iterators have been closed and all others have not.
   */
  lemma LimitLeavesOpen(n: nat) returns (run: seq<Event>, s: State)
    ensures Exec(Init, run) == Some(s) && NoUnwind(run) && (forall a :: a in s.calls ==> s.calls[a].phase.Ended?)
    ensures |s.tables.iterators| == n
    ensures forall h :: 0 <= h < n ==> s.tables.iterators[h].closes == if h < 32768 then 1 else 0
  {
    run, s := ScanRun(n);
    assert Exec(Init, run) == Some(s);
    ClosedExactlyOnce(run);
  }

  // What an unclosed iterator does.

  /** A call holds, and closes, only iterators that it accepted. */
  lemma HeldIsAccepted(s: State, a: nat)
    requires a in s.calls && CallInv(s, a, s.calls[a])
    ensures s.calls[a].phase.Holding? ==> s.calls[a].phase.handle in s.home
    ensures s.calls[a].phase.Closing? && s.calls[a].phase.next < |s.calls[a].phase.frame| ==>
              s.calls[a].phase.frame[s.calls[a].phase.next] in s.home
  {
    var c := s.calls[a];
    if c.phase.Holding? { assert c.accepted[c.phase.rustId] in s.home; }
    if c.phase.Closing? && c.phase.next < |c.phase.frame| { assert c.accepted[c.phase.next] in s.home; }
  }

  lemma OtherCursor(w: W.World, g: nat, h: nat)
    requires W.Attached(w) && g < |w.cursorOf| && h < |w.cursorOf| && g != h
    ensures w.cursorOf[g] != w.cursorOf[h]
  {
    if g < h { assert w.cursorOf[g] != w.cursorOf[h]; } else { assert w.cursorOf[h] != w.cursorOf[g]; }
  }

  lemma OpenIsNotDrained(items: seq<Item>, m: M.State, e: M.Event, id: nat)
    requires id in m.cursors && M.CursorInv(items, m.cursors[id]) && !m.cursors[id].cancelled && !m.cursors[id].consumer.Priming?
    requires W.DbEvent(m, e) && M.Step(m, e).Some?
    ensures !ReadLock.ConsumerStep(e, id)
  {
  }

  /** No action is a step of the owner of an iterator that no call has accepted. */
  lemma RefusedIsLeftAlone(w: W.World, x: W.Action, h: nat)
    requires CallsInv(w.p) && M.Inv(w.m) && W.Linked(w) && W.Step(w, x).Some?
    requires h < |w.cursorOf| && h !in w.p.home && !ReadLock.Releasable(W.CursorAt(w, h))
    ensures W.DbEventOf(w, x).Some? ==> !ReadLock.ConsumerStep(W.DbEventOf(w, x).value, w.cursorOf[h])
  {
    if W.DbEventOf(w, x).Some? {
      match x
      case Db(e) =>
        assert M.CursorInv(w.m.items, W.CursorAt(w, h)) && W.Mirrors(w.p.tables.iterators[h], W.CursorAt(w, h));
        OpenIsNotDrained(w.m.items, w.m, e, w.cursorOf[h]);
      case UseCursor(a, _) =>
        assert CallInv(w.p, a, w.p.calls[a]);
        HeldIsAccepted(w.p, a);
        OtherCursor(w, w.p.calls[a].phase.handle, h);
      case CancelNext(a) =>
        assert CallInv(w.p, a, w.p.calls[a]);
        HeldIsAccepted(w.p, a);
        OtherCursor(w, w.p.calls[a].phase.frame[w.p.calls[a].phase.next], h);
    }
  }

  lemma RefusedStaysOpen(w: W.World, x: W.Action, h: nat)
    requires CallsInv(w.p) && M.Inv(w.m) && W.Linked(w) && W.Step(w, x).Some?
    requires h < |w.cursorOf| && h !in w.p.home && !ReadLock.Releasable(W.CursorAt(w, h))
    ensures var v := W.Step(w, x).value;
            h < |v.cursorOf| && v.cursorOf[h] in v.m.cursors && !ReadLock.Releasable(W.CursorAt(v, h))
  {
    W.CursorsGrow(w, x);
    RefusedIsLeftAlone(w, x, h);
    W.DbPart(w, x);
    if W.DbEventOf(w, x).Some? { ReadLock.OthersLeaveIt(w.m, W.DbEventOf(w, x).value, w.cursorOf[h]); }
  }

  lemma RefusedStays(w: W.World, x: W.Action, h: nat)
    requires W.Inv(w) && W.Step(w, x).Some? && |w.p.calls| + (if W.StartAction(x) then 1 else 0) < TWO_TO_64
    requires h < |w.cursorOf| && h !in w.p.home
    ensures h !in W.Step(w, x).value.p.home
  {
    W.StepShadows(w, x);
    if W.Shadow(w, x).Some? { HomeStays(w.p, W.Shadow(w, x).value, h); }
  }

  /**
   * A refused iterator with more than 64 undelivered items, such as a fresh one over more than 65,
   * locks every writer out for good, in every further run of calls, goroutines and closes, even
   * after its call has ended.
   */
  lemma {:induction false} RefusedLocksForever(w: W.World, actions: seq<W.Action>, h: nat, key: Bytes, value: Bytes)
    requires W.Inv(w) && h < |w.cursorOf| && h !in w.p.home && !ReadLock.Releasable(W.CursorAt(w, h))
    requires W.Exec(w, actions).Some? && |w.p.calls| + W.StartActions(actions) < TWO_TO_64 && key != []
    ensures var m := W.Exec(w, actions).value.m;
            M.ReadLocked(m) && M.Step(m, M.Set(key, value)).None? && M.Step(m, M.Delete(key)).None?
    decreases |actions|
  {
    if actions == [] {
      assert M.CursorInv(w.m.items, W.CursorAt(w, h));
      ReadLock.FullChannelWalks(w.m.items, W.CursorAt(w, h));
    } else {
      RefusedStays(w, actions[0], h);
      RefusedStaysOpen(w, actions[0], h);
      W.StepKeeps(w, actions[0]);
      RefusedLocksForever(W.Step(w, actions[0]).value, actions[1..], h, key, value);
    }
  }
}
