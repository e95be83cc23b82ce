/**
 * How long an iterator keeps writers out. The comment on MemDB.Iterator promises a read lock
 * until the iterator is closed; this module says exactly when that is so.
 */
module ReadLock {
  import opened ByteStrings
  import opened Ranges
  import opened Traversal
  import opened Snapshot

  /** Next, the priming receive and Close: what the owner of an iterator does to it. */
  predicate ConsumerStep(e: Event, id: nat) { (e.Receive? || e.Cancel? || e.Drain?) && e.id == id }

  predicate WithoutConsumer(run: seq<Event>, id: nat) {
    forall i :: 0 <= i < |run| ==> !ConsumerStep(run[i], id)
  }

  predicate GoroutineStep(e: Event) { e.Advance? || e.CloseChannel? || e.Unlock? }

  /** Only the goroutines behind the iterators run. */
  predicate GoroutinesOnly(run: seq<Event>) { forall i :: 0 <= i < |run| ==> GoroutineStep(run[i]) }

  /** Closing has begun, or what is still to be delivered fits into the channel. */
  predicate Releasable(c: Cursor) { c.cancelled || |Wanted(WalkOf(c))| <= |c.got| + CHANNEL_CAPACITY }

  // The lock is held.

  lemma FullChannelWalks(items: seq<Item>, c: Cursor)
    requires CursorInv(items, c) && !Releasable(c)
    ensures c.producer.Walking?
  {
    assert |c.got + c.ch + Ahead(WalkOf(c), c.producer)| == |Wanted(WalkOf(c))|;
  }

  lemma GoroutineKeepsDeliveries(w: Walk, c: Cursor, e: Event)
    requires CursorStep(w, c, e).Some? && GoroutineStep(e)
    ensures var d := CursorStep(w, c, e).value;
            && d.got == c.got && d.cancelled == c.cancelled && SameRequest(c, d)
            && d.item == c.item && d.consumer == c.consumer
  {
  }

  lemma StepElsewhere(s: State, e: Event, id: nat)
    requires id in s.cursors && Step(s, e).Some? && !OwnStep(e, id)
    ensures id in Step(s, e).value.cursors && Step(s, e).value.cursors[id] == s.cursors[id]
  {
  }

  lemma StepHere(s: State, e: Event, id: nat)
    requires OwnStep(e, id) && Step(s, e).Some?
    ensures id in s.cursors && id in Step(s, e).value.cursors
    ensures var c := s.cursors[id];
            CursorStep(ChooseWalk(s.items, c.start, c.end, c.reverse), c, e) == Some(Step(s, e).value.cursors[id])
  {
  }

  lemma OthersLeaveIt(s: State, e: Event, id: nat)
    requires id in s.cursors && Step(s, e).Some? && !ConsumerStep(e, id)
    ensures id in Step(s, e).value.cursors
    ensures Releasable(Step(s, e).value.cursors[id]) == Releasable(s.cursors[id])
  {
    if OwnStep(e, id) {
      StepHere(s, e, id);
      var c := s.cursors[id];
      GoroutineKeepsDeliveries(ChooseWalk(s.items, c.start, c.end, c.reverse), c, e);
    } else {
      StepElsewhere(s, e, id);
    }
  }

  /**
   * While more than 64 items of an open iterator's range are undelivered, nothing but a step of
   * its owner releases the lock: whatever else happens, every write waits.
   */
  lemma {:induction false} WritersWait(s: State, run: seq<Event>, id: nat, key: Bytes, value: Bytes)
    requires Inv(s) && id in s.cursors && !Releasable(s.cursors[id])
    requires WithoutConsumer(run, id) && Exec(s, run).Some? && key != []
    ensures id in Exec(s, run).value.cursors && Exec(s, run).value.cursors[id].producer.Walking?
    ensures ReadLocked(Exec(s, run).value)
    ensures Step(Exec(s, run).value, Set(key, value)).None? && Step(Exec(s, run).value, Delete(key)).None?
    decreases |run|
  {
    if run == [] {
      FullChannelWalks(s.items, s.cursors[id]);
    } else {
      OthersLeaveIt(s, run[0], id);
      StepKeeps(s, run[0]);
      assert forall i :: 0 <= i < |run[1..]| ==> run[1..][i] == run[i + 1];
      WritersWait(Step(s, run[0]).value, run[1..], id, key, value);
    }
  }

  // The lock is released.

  /** The goroutine's next step once its context is cancelled or the channel has room. */
  function ReleaseMove(c: Cursor, id: nat): (e: Event) {
    if c.producer.Walking? then Advance(id, c.cancelled)
    else if c.producer.Returned? then CloseChannel(id)
    else Unlock(id)
  }

  /** The steps a goroutine takes at most. */
  function StepsLeft(p: Producer, w: Walk): (n: int) {
    match p
    case Walking(pos, _) => |w.order| - pos + 3
    case Returned => 2
    case ChannelClosed => 1
    case Unlocked => 0
  }

  lemma ReleaseStep(items: seq<Item>, c: Cursor, id: nat)
    requires CursorInv(items, c) && Releasable(c) && !c.producer.Unlocked?
    ensures var r := CursorStep(WalkOf(c), c, ReleaseMove(c, id));
            && r.Some? && Releasable(r.value) && SameRequest(c, r.value)
            && 0 <= StepsLeft(r.value.producer, WalkOf(c)) < StepsLeft(c.producer, WalkOf(c))
  {
    var w := WalkOf(c);
    if c.producer.Walking? && c.producer.pos < |w.order| {
      VisitedAt(w.order, c.producer.pos, c.producer.skipEqual, w.abortLessThan);
      if !c.cancelled {
        assert |c.got + c.ch + Ahead(w, c.producer)| == |Wanted(w)|;
      }
    }
  }

  lemma ReleaseOnce(s: State, id: nat) returns (e: Event, t: State)
    requires Inv(s) && id in s.cursors && Releasable(s.cursors[id]) && !s.cursors[id].producer.Unlocked?
    ensures GoroutineStep(e) && Step(s, e) == Some(t) && Inv(t) && t.items == s.items
    ensures id in t.cursors && t.cursors == s.cursors[id := t.cursors[id]] && Releasable(t.cursors[id])
    ensures 0 <= StepsLeft(t.cursors[id].producer, WalkOf(t.cursors[id])) < StepsLeft(s.cursors[id].producer, WalkOf(s.cursors[id]))
  {
    var c := s.cursors[id];
    assert CursorInv(s.items, c);
    ReleaseStep(s.items, c, id);
    e := ReleaseMove(c, id);
    t := s.(cursors := s.cursors[id := CursorStep(WalkOf(c), c, e).value]);
    assert Step(s, e) == Some(t);
    StepKeeps(s, e);
  }

  lemma UpdateTwice(m: map<nat, Cursor>, id: nat, c: Cursor, d: Cursor)
    ensures m[id := c][id := d] == m[id := d]
  {
  }

  lemma Prepend(e: Event, more: seq<Event>)
    requires GoroutineStep(e) && GoroutinesOnly(more)
    ensures GoroutinesOnly([e] + more)
  {
    assert forall i :: 0 < i < |[e] + more| ==> ([e] + more)[i] == more[i - 1];
  }

  /** Left alone, the goroutine of a releasable iterator finishes; no other iterator is touched. */
  lemma {:induction false} Finishes(s: State, id: nat) returns (run: seq<Event>, s': State)
    requires Inv(s) && id in s.cursors && Releasable(s.cursors[id])
    ensures GoroutinesOnly(run) && Exec(s, run) == Some(s') && Inv(s') && s'.items == s.items
    ensures id in s'.cursors && s'.cursors == s.cursors[id := s'.cursors[id]]
    ensures s'.cursors[id].producer.Unlocked? && Releasable(s'.cursors[id])
    decreases StepsLeft(s.cursors[id].producer, WalkOf(s.cursors[id]))
  {
    if s.cursors[id].producer.Unlocked? {
      run, s' := [], s;
    } else {
      var e, t := ReleaseOnce(s, id);
      var more;
      more, s' := Finishes(t, id);
      run := [e] + more;
      Prepend(e, more);
      ExecCons(s, e, t, more);
      UpdateTwice(s.cursors, id, t.cursors[id], s'.cursors[id]);
    }
  }

  function Holders(s: State): (ids: set<nat>) { set i | i in s.cursors && !s.cursors[i].producer.Unlocked? }

  lemma OneHolderLess(s: State, t: State, id: nat)
    requires id in s.cursors && !s.cursors[id].producer.Unlocked?
    requires id in t.cursors && t.cursors == s.cursors[id := t.cursors[id]] && t.cursors[id].producer.Unlocked?
    ensures |Holders(t)| < |Holders(s)|
  {
    assert Holders(t) == Holders(s) - {id};
  }

  lemma {:induction false} AllFinish(s: State) returns (run: seq<Event>)
    requires Inv(s) && forall i :: i in s.cursors ==> Releasable(s.cursors[i])
    ensures GoroutinesOnly(run) && Exec(s, run).Some? && !ReadLocked(Exec(s, run).value)
    decreases |Holders(s)|
  {
    if !ReadLocked(s) {
      run := [];
    } else {
      var id :| id in s.cursors && !s.cursors[id].producer.Unlocked?;
      var first, t := Finishes(s, id);
      OneHolderLess(s, t, id);
      var more := AllFinish(t);
      run := first + more;
      ExecAppend(s, first, more);
    }
  }

  lemma NoConsumerInGoroutines(run: seq<Event>, id: nat)
    requires GoroutinesOnly(run)
    ensures WithoutConsumer(run, id)
  {
  }

  /**
   * The lock of one iterator can go without a further Next or Close of its owner if and only if
   * it is being closed or at most 64 items of its range are undelivered.
   */
  lemma LockCanGo(s: State, id: nat)
    requires Inv(s) && id in s.cursors
    ensures (exists run :: WithoutConsumer(run, id) && Exec(s, run).Some? && id in Exec(s, run).value.cursors
                           && Exec(s, run).value.cursors[id].producer.Unlocked?)
            <==> Releasable(s.cursors[id])
  {
    if Releasable(s.cursors[id]) {
      var run, _ := Finishes(s, id);
      NoConsumerInGoroutines(run, id);
    } else {
      forall run | WithoutConsumer(run, id) && Exec(s, run).Some?
        ensures id in Exec(s, run).value.cursors && Exec(s, run).value.cursors[id].producer.Walking?
      {
        WritersWait(s, run, id, [0], []);
      }
    }
  }

  /**
   * The goroutines alone let a writer through if and only if every iterator is being closed or
   * has at most 64 items of its range still to deliver.
   */
  lemma WriterGetsThrough(s: State)
    requires Inv(s)
    ensures (exists run :: GoroutinesOnly(run) && Exec(s, run).Some? && !ReadLocked(Exec(s, run).value))
            <==> forall id :: id in s.cursors ==> Releasable(s.cursors[id])
  {
    if forall id :: id in s.cursors ==> Releasable(s.cursors[id]) {
      var run := AllFinish(s);
      assert GoroutinesOnly(run);
    } else {
      var id :| id in s.cursors && !Releasable(s.cursors[id]);
      forall run | GoroutinesOnly(run) && Exec(s, run).Some? ensures ReadLocked(Exec(s, run).value) {
        NoConsumerInGoroutines(run, id);
        WritersWait(s, run, id, [0], []);
      }
    }
  }

  /** For the iterator as its constructor returns it: the lock can go if and only if the range has at most 65 items. */
  lemma FreshIterator(items: seq<Item>, c: Cursor)
    requires CursorInv(items, c) && c.consumer.Open? && |c.got| <= 1
    ensures Releasable(c) <==> |RangeOf(c.snapshot, c.start, c.end, c.reverse)| <= 65
  {
    WalkIsRange(c.snapshot, c.start, c.end, c.reverse);
    if c.got == [] { assert c.got + c.ch + Ahead(WalkOf(c), c.producer) == []; }
  }

  /**
   * So whoever opens an iterator over more than 65 items and then writes, without using or closing
   * the iterator in between, waits forever, whatever all others do.
   */
  lemma ScanThenWriteWaits(s: State, run: seq<Event>, id: nat, key: Bytes, value: Bytes)
    requires Inv(s) && id in s.cursors && s.cursors[id].consumer.Open? && |s.cursors[id].got| <= 1
    requires var c := s.cursors[id]; |RangeOf(c.snapshot, c.start, c.end, c.reverse)| > 65
    requires WithoutConsumer(run, id) && Exec(s, run).Some? && key != []
    ensures Step(Exec(s, run).value, Set(key, value)).None? && Step(Exec(s, run).value, Delete(key)).None?
  {
    assert CursorInv(s.items, s.cursors[id]);
    FreshIterator(s.items, s.cursors[id]);
    WritersWait(s, run, id, key, value);
  }
}
