/**
 * MemDB under concurrency: writers, the goroutine that walks the tree behind each iterator, the
 * bounded channel between the two, and the consumer that primes, advances and closes the
 * iterator. Every event is one atomic step; every interleaving is a sequence of events.
 */
module Snapshot {
  import opened ByteStrings
  import opened Ranges
  import opened Traversal

  const CHANNEL_CAPACITY := 64

  /**
   * The goroutine: inside the walk, back from the walk, after close(ch), and after the deferred
   * RUnlock. It holds the read lock until the last of these.
   */
  datatype Producer = Walking(pos: nat, skipEqual: Option<Bytes>) | Returned | ChannelClosed | Unlocked

  datatype Consumer = Priming | Open | Draining | Done

  /** One iterator. `snapshot` and `got` are history: the tree at creation, and all items that were current. */
  datatype Cursor = Cursor(
    start: Option<Bytes>, end: Option<Bytes>, reverse: bool,
    producer: Producer, ch: seq<Item>, cancelled: bool,
    consumer: Consumer, item: Option<Item>,
    snapshot: seq<Item>, got: seq<Item>)

  datatype State = State(items: seq<Item>, cursors: map<nat, Cursor>)

  datatype Event =
    | Set(key: Bytes, value: Bytes)
    | Delete(key: Bytes)
    | Create(id: nat, start: Option<Bytes>, end: Option<Bytes>, reverse: bool)
    | Advance(id: nat, seesCancel: bool)
    | CloseChannel(id: nat)
    | Unlock(id: nat)
    | Receive(id: nat)
    | Cancel(id: nat)
    | Drain(id: nat)

  predicate Rejected(bound: Option<Bytes>) { bound.Some? && bound.value == [] }

  /** Some goroutine still holds the read lock, so a writer has to wait. */
  predicate ReadLocked(s: State) {
    exists i :: i in s.cursors && !s.cursors[i].producer.Unlocked?
  }

  predicate Closed(p: Producer) { p.ChannelClosed? || p.Unlocked? }

  /** One visitor call. None: not walking, or neither branch of the select is ready. */
  function WalkStep(w: Walk, c: Cursor, seesCancel: bool): (r: Option<Cursor>) {
    if !c.producer.Walking? then None else
      var pos := c.producer.pos;
      if pos >= |w.order| then Some(c.(producer := Returned))
      else match Visit(w.order[pos], c.producer.skipEqual, w.abortLessThan)
        case Skip => Some(c.(producer := Walking(pos + 1, None)))
        case Abort => Some(c.(producer := Returned))
        case Send =>
          if seesCancel then (if c.cancelled then Some(c.(producer := Returned)) else None)
          else if |c.ch| < CHANNEL_CAPACITY then
            Some(c.(producer := Walking(pos + 1, c.producer.skipEqual), ch := c.ch + [w.order[pos]]))
          else None
  }

  /** A channel receive by the constructor or by Next, which needs a valid iterator. */
  function ReceiveStep(c: Cursor): (r: Option<Cursor>) {
    if !(c.consumer.Priming? || (c.consumer.Open? && c.item.Some?)) then None
    else if c.ch != [] then
      Some(c.(consumer := Open, item := Some(c.ch[0]), got := c.got + [c.ch[0]], ch := c.ch[1..]))
    else if Closed(c.producer) then Some(c.(consumer := Open, item := None))
    else None
  }

  /** One turn of the drain loop in Close, or its end. */
  function DrainStep(c: Cursor): (r: Option<Cursor>) {
    if !c.consumer.Draining? then None
    else if c.ch != [] then Some(c.(ch := c.ch[1..]))
    else if Closed(c.producer) then Some(c.(consumer := Done, item := None))
    else None
  }

  /** `w` is the walk on the tree as it is now. */
  function CursorStep(w: Walk, c: Cursor, e: Event): (r: Option<Cursor>) {
    match e
    case Advance(_, seesCancel) => WalkStep(w, c, seesCancel)
    case CloseChannel(_) => if c.producer.Returned? then Some(c.(producer := ChannelClosed)) else None
    case Unlock(_) => if c.producer.ChannelClosed? then Some(c.(producer := Unlocked)) else None
    case Receive(_) => ReceiveStep(c)
    case Cancel(_) => if c.consumer.Open? then Some(c.(cancelled := true, consumer := Draining)) else None
    case Drain(_) => DrainStep(c)
    case _ => None
  }

  function NewCursor(items: seq<Item>, start: Option<Bytes>, end: Option<Bytes>, reverse: bool): (c: Cursor) {
    Cursor(start, end, reverse, Walking(0, ChooseWalk(items, start, end, reverse).skipEqual), [], false,
           Priming, None, items, [])
  }

  /** None when the event is not enabled. A rejected argument leaves the state alone. */
  function Step(s: State, e: Event): (r: Option<State>) {
    match e
    case Set(k, v) =>
      if k == [] then Some(s) else if ReadLocked(s) then None else Some(s.(items := Put(s.items, k, v)))
    case Delete(k) =>
      if k == [] then Some(s) else if ReadLocked(s) then None else Some(s.(items := Remove(s.items, k)))
    case Create(id, start, end, reverse) =>
      if Rejected(start) || Rejected(end) then Some(s)
      else if id in s.cursors then None
      else Some(s.(cursors := s.cursors[id := NewCursor(s.items, start, end, reverse)]))
    case _ =>
      if e.id !in s.cursors then None else
        var c := s.cursors[e.id];
        match CursorStep(ChooseWalk(s.items, c.start, c.end, c.reverse), c, e)
        case None => None
        case Some(d) => Some(s.(cursors := s.cursors[e.id := d]))
  }

  function Exec(s: State, events: seq<Event>): (r: Option<State>)
    decreases |events|
  {
    if events == [] then Some(s)
    else match Step(s, events[0])
      case None => None
      case Some(t) => Exec(t, events[1..])
  }

  /** The walk on the tree at creation, and all it sends. */
  function WalkOf(c: Cursor): (w: Walk) { ChooseWalk(c.snapshot, c.start, c.end, c.reverse) }

  function Wanted(w: Walk): (r: seq<Item>) { Visited(w.order, w.skipEqual, w.abortLessThan) }

  /** What the walk has not sent yet. */
  function Ahead(w: Walk, p: Producer): (r: seq<Item>) {
    if p.Walking? && p.pos <= |w.order| then Visited(w.order[p.pos..], p.skipEqual, w.abortLessThan) else []
  }

  ghost predicate WalkInv(items: seq<Item>, c: Cursor, w: Walk) {
    && |c.ch| <= CHANNEL_CAPACITY
    // producer unfinished ==> read lock held ==> tree unchanged
    && (!c.producer.Unlocked? ==> items == c.snapshot)
    && (c.producer.Walking? ==> c.producer.pos <= |w.order|)
    // nothing lost, nothing reordered: received, buffered and still to be sent make up the range
    && (!c.cancelled ==> c.got + c.ch + Ahead(w, c.producer) == Wanted(w))
    && c.got <= Wanted(w)
    && (c.item.Some? ==> c.got != [] && c.item.value == c.got[|c.got| - 1])
    && (c.cancelled <==> c.consumer.Draining? || c.consumer.Done?)
    && (c.consumer.Priming? ==> c.got == [] && c.item.None?)
    && (c.consumer.Open? && c.item.None? ==> c.ch == [] && Closed(c.producer))
    && (c.consumer.Done? ==> c.item.None? && c.ch == [] && Closed(c.producer))
  }

  ghost predicate CursorInv(items: seq<Item>, c: Cursor) {
    Ascending(c.snapshot) && WalkInv(items, c, WalkOf(c))
  }

  ghost predicate Inv(s: State) {
    && Ascending(s.items)
    && forall i :: i in s.cursors ==> CursorInv(s.items, s.cursors[i])
  }

  lemma WalkKeeps(items: seq<Item>, w: Walk, c: Cursor, seesCancel: bool)
    requires WalkInv(items, c, w) && WalkStep(w, c, seesCancel).Some?
    ensures WalkInv(items, WalkStep(w, c, seesCancel).value, w)
  {
    var pos := c.producer.pos;
    if pos < |w.order| {
      VisitedAt(w.order, pos, c.producer.skipEqual, w.abortLessThan);
    } else {
      assert w.order[pos..] == [];
    }
  }

  lemma ReceiveKeeps(items: seq<Item>, w: Walk, c: Cursor)
    requires WalkInv(items, c, w) && ReceiveStep(c).Some?
    ensures WalkInv(items, ReceiveStep(c).value, w)
  {
    var d := ReceiveStep(c).value;
    if c.ch != [] {
      assert c.ch == [c.ch[0]] + c.ch[1..];
      assert d.got + d.ch == c.got + c.ch;
      assert Wanted(w) == d.got + (d.ch + Ahead(w, d.producer));
    }
  }

  lemma CursorStepKeeps(items: seq<Item>, now: Walk, w: Walk, c: Cursor, e: Event)
    requires WalkInv(items, c, w) && CursorStep(now, c, e).Some?
    requires !c.producer.Unlocked? ==> now == w
    ensures WalkInv(items, CursorStep(now, c, e).value, w)
  {
    match e
    case Advance(_, seesCancel) => WalkKeeps(items, w, c, seesCancel);
    case Receive(_) => ReceiveKeeps(items, w, c);
    case _ =>
  }

  lemma CursorStepFrame(w: Walk, c: Cursor, e: Event)
    requires CursorStep(w, c, e).Some?
    ensures var d := CursorStep(w, c, e).value;
            d.snapshot == c.snapshot && d.start == c.start && d.end == c.end && d.reverse == c.reverse
  {
  }

  lemma NewCursorInv(items: seq<Item>, start: Option<Bytes>, end: Option<Bytes>, reverse: bool)
    requires Ascending(items)
    ensures CursorInv(items, NewCursor(items, start, end, reverse))
  {
    var c := NewCursor(items, start, end, reverse);
    assert WalkOf(c).order[0..] == WalkOf(c).order;
  }

  lemma StepKeeps(s: State, e: Event)
    requires Inv(s) && Step(s, e).Some?
    ensures Inv(Step(s, e).value)
  {
    match e
    case Set(k, v) => PutCorrect(s.items, k, v);
    case Delete(k) => RemoveCorrect(s.items, k);
    case Create(id, start, end, reverse) => NewCursorInv(s.items, start, end, reverse);
    case _ =>
      var c := s.cursors[e.id];
      var now := ChooseWalk(s.items, c.start, c.end, c.reverse);
      CursorStepFrame(now, c, e);
      CursorStepKeeps(s.items, now, WalkOf(c), c, e);
  }

  lemma {:induction false} ExecKeeps(s: State, events: seq<Event>)
    requires Inv(s) && Exec(s, events).Some?
    ensures Inv(Exec(s, events).value)
    decreases |events|
  {
    if events != [] {
      StepKeeps(s, events[0]);
      ExecKeeps(Step(s, events[0]).value, events[1..]);
    }
  }

  lemma {:induction false} ExecAppend(s: State, a: seq<Event>, b: seq<Event>)
    ensures Exec(s, a + b) == match Exec(s, a) case None => None case Some(t) => Exec(t, b)
    decreases |a|
  {
    if a == [] {
      assert a + b == b;
    } else {
      assert (a + b)[0] == a[0] && (a + b)[1..] == a[1..] + b;
      match Step(s, a[0]) {
        case None =>
        case Some(t) => ExecAppend(t, a[1..], b);
      }
    }
  }

  predicate SameRequest(c: Cursor, d: Cursor) {
    c.snapshot == d.snapshot && c.start == d.start && c.end == d.end && c.reverse == d.reverse
  }

  lemma StepFrame(s: State, e: Event, id: nat)
    requires id in s.cursors && Step(s, e).Some?
    ensures id in Step(s, e).value.cursors && SameRequest(s.cursors[id], Step(s, e).value.cursors[id])
  {
    if !(e.Set? || e.Delete? || e.Create?) {
      var c := s.cursors[e.id];
      CursorStepFrame(ChooseWalk(s.items, c.start, c.end, c.reverse), c, e);
    }
  }

  lemma {:induction false} ExecFrame(s: State, events: seq<Event>, id: nat)
    requires id in s.cursors && Exec(s, events).Some?
    ensures id in Exec(s, events).value.cursors
    ensures SameRequest(s.cursors[id], Exec(s, events).value.cursors[id])
    decreases |events|
  {
    if events != [] {
      StepFrame(s, events[0], id);
      ExecFrame(Step(s, events[0]).value, events[1..], id);
    }
  }

  /**
   * Snapshot. Whatever happens before and after an iterator is created, all it ever delivers is
   * a prefix of the requested range of the tree as it was at creation, in order; if it reports
   * its end without having been closed, it has delivered that range completely.
   */
  lemma IteratorDeliversSnapshot(
    db: seq<Item>, before: seq<Event>, id: nat, start: Option<Bytes>, end: Option<Bytes>, reverse: bool, after: seq<Event>)
    requires Ascending(db) && !Rejected(start) && !Rejected(end)
    requires Exec(State(db, map[]), before).Some?
    requires id !in Exec(State(db, map[]), before).value.cursors
    requires Exec(State(db, map[]), before + [Create(id, start, end, reverse)] + after).Some?
    ensures var wanted := RangeOf(Exec(State(db, map[]), before).value.items, start, end, reverse);
            var s := Exec(State(db, map[]), before + [Create(id, start, end, reverse)] + after).value;
            && id in s.cursors
            && var c := s.cursors[id];
               && c.got <= wanted
               && (c.item.Some? ==> 0 < |c.got| <= |wanted| && c.item.value == wanted[|c.got| - 1])
               && (c.consumer.Open? && c.item.None? ==> c.got == wanted)
               && (!c.producer.Unlocked? ==> wanted == RangeOf(s.items, start, end, reverse))
  {
    var init := State(db, map[]);
    var create := Create(id, start, end, reverse);
    var s0 := Exec(init, before).value;
    ExecAppend(init, before + [create], after);
    ExecAppend(init, before, [create]);
    var s1 := Step(s0, create).value;
    assert Exec(s0, [create]) == Exec(s1, []);
    ExecKeeps(init, before);
    StepKeeps(s0, create);
    ExecKeeps(s1, after);
    ExecFrame(s1, after, id);
    WalkIsRange(s0.items, start, end, reverse);
    var c := Exec(s1, after).value.cursors[id];
    assert WalkInv(Exec(s1, after).value.items, c, WalkOf(c));
  }

  // Close.

  /** Steps the goroutine and the drain loop can still take once the context is cancelled. */
  function Work(c: Cursor, w: Walk): (n: int) {
    (match c.producer
     case Walking(pos, _) => 2 * (|w.order| - pos) + 3
     case Returned => 2
     case ChannelClosed => 1
     case Unlocked => 0)
    + |c.ch| + (if c.consumer.Done? then 0 else 1)
  }

  predicate Closing(c: Cursor) { c.consumer.Draining? || c.consumer.Done? }

  lemma ClosingStepWorks(items: seq<Item>, now: Walk, w: Walk, c: Cursor, e: Event)
    requires WalkInv(items, c, w) && CursorStep(now, c, e).Some? && Closing(c)
    requires !c.producer.Unlocked? ==> now == w
    ensures var d := CursorStep(now, c, e).value;
            Closing(d) && Work(d, w) < Work(c, w)
    ensures c.consumer.Done? ==> CursorStep(now, c, e).value.consumer.Done?
  {
  }

  predicate OwnStep(e: Event, id: nat) { !e.Set? && !e.Delete? && !e.Create? && e.id == id }

  function OwnSteps(events: seq<Event>, id: nat): (n: nat) {
    if events == [] then 0 else OwnSteps(events[1..], id) + if OwnStep(events[0], id) then 1 else 0
  }

  lemma ClosingStep(s: State, e: Event, id: nat)
    requires Inv(s) && id in s.cursors && Closing(s.cursors[id]) && Step(s, e).Some?
    ensures id in Step(s, e).value.cursors
    ensures var c := s.cursors[id];
            var d := Step(s, e).value.cursors[id];
            && Closing(d) && WalkOf(d) == WalkOf(c)
            && Work(d, WalkOf(c)) + (if OwnStep(e, id) then 1 else 0) <= Work(c, WalkOf(c))
            && (c.consumer.Done? ==> d.consumer.Done?)
  {
    StepFrame(s, e, id);
    if OwnStep(e, id) {
      var c := s.cursors[id];
      assert CursorInv(s.items, c);
      ClosingStepWorks(s.items, ChooseWalk(s.items, c.start, c.end, c.reverse), WalkOf(c), c, e);
    }
  }

  lemma {:induction false} ClosingRun(s: State, events: seq<Event>, id: nat)
    requires Inv(s) && id in s.cursors && Closing(s.cursors[id]) && Exec(s, events).Some?
    ensures id in Exec(s, events).value.cursors
    ensures var c := s.cursors[id];
            var d := Exec(s, events).value.cursors[id];
            && Closing(d) && WalkOf(d) == WalkOf(c)
            && OwnSteps(events, id) + Work(d, WalkOf(c)) <= Work(c, WalkOf(c))
            && (c.consumer.Done? ==> d.consumer.Done?)
    decreases |events|
  {
    if events != [] {
      ClosingStep(s, events[0], id);
      StepKeeps(s, events[0]);
      ClosingRun(Step(s, events[0]).value, events[1..], id);
    }
  }

  /** The step that is open to a closing iterator whatever the others do. */
  function CloseMove(c: Cursor, id: nat): (e: Event) {
    if c.producer.Walking? then Advance(id, true)
    else if c.producer.Returned? then CloseChannel(id)
    else Drain(id)
  }

  lemma CloseMoveEnabled(s: State, id: nat)
    requires id in s.cursors && s.cursors[id].consumer.Draining? && s.cursors[id].cancelled
    ensures Step(s, CloseMove(s.cursors[id], id)).Some?
  {
  }

  lemma WorkLeft(items: seq<Item>, c: Cursor, w: Walk)
    requires WalkInv(items, c, w)
    ensures Work(c, w) >= 0 && (Work(c, w) == 0 ==> c.consumer.Done?)
  {
  }

  /**
   * Close terminates under every schedule: until it is done one of its own steps is enabled,
   * and after at most Work own steps, whatever is interleaved, it is done.
   */
  lemma CloseTerminates(s: State, events: seq<Event>, id: nat)
    requires Inv(s) && id in s.cursors && s.cursors[id].consumer.Draining?
    requires Exec(s, events).Some?
    ensures Step(s, CloseMove(s.cursors[id], id)).Some?
    ensures OwnSteps(events, id) <= Work(s.cursors[id], WalkOf(s.cursors[id]))
    ensures OwnSteps(events, id) == Work(s.cursors[id], WalkOf(s.cursors[id]))
            ==> id in Exec(s, events).value.cursors && Exec(s, events).value.cursors[id].consumer.Done?
  {
    ClosingRun(s, events, id);
    ExecKeeps(s, events);
    var t := Exec(s, events).value;
    assert CursorInv(s.items, s.cursors[id]) && CursorInv(t.items, t.cursors[id]);
    CloseMoveEnabled(s, id);
    WorkLeft(t.items, t.cursors[id], WalkOf(t.cursors[id]));
  }

  lemma DoneStep(s: State, e: Event, id: nat)
    requires Inv(s) && id in s.cursors && s.cursors[id].consumer.Done? && Step(s, e).Some?
    ensures id in Step(s, e).value.cursors
    ensures var d := Step(s, e).value.cursors[id]; d.consumer.Done? && d.got == s.cursors[id].got
  {
    StepFrame(s, e, id);
    assert CursorInv(s.items, s.cursors[id]);
  }

  /** A closed iterator is invalid forever, delivers nothing more and has let go of the lock or is about to. */
  lemma {:induction false} ClosedForever(s: State, events: seq<Event>, id: nat)
    requires Inv(s) && id in s.cursors && s.cursors[id].consumer.Done? && Exec(s, events).Some?
    ensures id in Exec(s, events).value.cursors
    ensures var c := Exec(s, events).value.cursors[id];
            c.item.None? && ReceiveStep(c).None? && c.got == s.cursors[id].got && Closed(c.producer)
    decreases |events|
  {
    if events == [] {
      assert CursorInv(s.items, s.cursors[id]);
    } else {
      DoneStep(s, events[0], id);
      StepKeeps(s, events[0]);
      ClosedForever(Step(s, events[0]).value, events[1..], id);
    }
  }

  lemma OnlyCursorStep(items: seq<Item>, c: Cursor, e: Event, d: Cursor)
    requires OwnStep(e, 0) && CursorStep(ChooseWalk(items, c.start, c.end, c.reverse), c, e) == Some(d)
    ensures Step(State(items, map[0 := c]), e) == Some(State(items, map[0 := d]))
  {
    assert map[0 := c][0 := d] == map[0 := d];
  }

  lemma ExecCons(s: State, e: Event, s': State, rest: seq<Event>)
    requires Step(s, e) == Some(s')
    ensures Exec(s, [e] + rest) == Exec(s', rest)
  {
    assert ([e] + rest)[1..] == rest;
  }

  /** One item, sent and received, and the goroutine finished: the cursor after each step. */
  lemma OneItemWalk(x: Item) returns (c0: Cursor, c1: Cursor, c2: Cursor, c3: Cursor, c4: Cursor, c5: Cursor)
    ensures Step(State([x], map[]), Create(0, None, None, false)) == Some(State([x], map[0 := c0]))
    ensures Step(State([x], map[0 := c0]), Advance(0, false)) == Some(State([x], map[0 := c1]))
    ensures Step(State([x], map[0 := c1]), Receive(0)) == Some(State([x], map[0 := c2]))
    ensures Step(State([x], map[0 := c2]), Advance(0, false)) == Some(State([x], map[0 := c3]))
    ensures Step(State([x], map[0 := c3]), CloseChannel(0)) == Some(State([x], map[0 := c4]))
    ensures Step(State([x], map[0 := c4]), Unlock(0)) == Some(State([x], map[0 := c5]))
    ensures c5.producer.Unlocked? && c5.consumer.Open? && c5.item == Some(x)
    ensures c1.consumer.Priming?
    ensures c4 == Cursor(None, None, false, ChannelClosed, [], false, Open, Some(x), [x], [x])
  {
    c0 := NewCursor([x], None, None, false);
    assert c0.ch + [x] == [x] && c0.got + [x] == [x] && [x][1..] == c0.got;
    c1 := c0.(producer := Walking(1, None), ch := [x]);
    OnlyCursorStep([x], c0, Advance(0, false), c1);
    c2 := c1.(consumer := Open, item := Some(x), got := [x], ch := []);
    OnlyCursorStep([x], c1, Receive(0), c2);
    c3 := c2.(producer := Returned);
    OnlyCursorStep([x], c2, Advance(0, false), c3);
    c4 := c3.(producer := ChannelClosed);
    OnlyCursorStep([x], c3, CloseChannel(0), c4);
    c5 := c4.(producer := Unlocked);
    OnlyCursorStep([x], c4, Unlock(0), c5);
  }

  lemma PutSecond(x: Item, y: Item)
    requires Less(x.key, y.key)
    ensures Put([x], y.key, y.value) == [x, y]
  {
    assert [x][1..] == [] && Put([], y.key, y.value) == [y];
  }

  lemma SetWhileUnlocked(x: Item, y: Item, c: Cursor)
    requires Less(x.key, y.key) && y.key != [] && c.producer.Unlocked?
    ensures Step(State([x], map[0 := c]), Set(y.key, y.value)) == Some(State([x, y], map[0 := c]))
  {
    PutSecond(x, y);
  }

  /**
   * The read lock is not held until the iterator is closed, as the comment on MemDB.Iterator
   * says, but until the goroutine has sent its last item: here a write goes through while the
   * iterator is still open and valid.
   */
  lemma WriteWhileIteratorIsOpen()
    ensures var x := Item([1], [9]);
            var run := [Create(0, None, None, false), Advance(0, false), Receive(0), Advance(0, false),
                        CloseChannel(0), Unlock(0), Set([2], [7])];
            var r := Exec(State([x], map[]), run);
            && r.Some? && r.value.items == [x, Item([2], [7])]
            && 0 in r.value.cursors && r.value.cursors[0].consumer.Open? && r.value.cursors[0].item == Some(x)
  {
    var x, y := Item([1], [9]), Item([2], [7]);
    var c0, c1, c2, c3, c4, c5 := OneItemWalk(x);
    SetWhileUnlocked(x, y, c5);
    var r6: seq<Event> := [Set([2], [7])] + [];
    ExecCons(State([x], map[0 := c5]), Set([2], [7]), State([x, y], map[0 := c5]), []);
    var r5 := [Unlock(0)] + r6;
    ExecCons(State([x], map[0 := c4]), Unlock(0), State([x], map[0 := c5]), r6);
    var r4 := [CloseChannel(0)] + r5;
    ExecCons(State([x], map[0 := c3]), CloseChannel(0), State([x], map[0 := c4]), r5);
    var r3 := [Advance(0, false)] + r4;
    ExecCons(State([x], map[0 := c2]), Advance(0, false), State([x], map[0 := c3]), r4);
    var r2 := [Receive(0)] + r3;
    ExecCons(State([x], map[0 := c1]), Receive(0), State([x], map[0 := c2]), r3);
    var r1 := [Advance(0, false)] + r2;
    ExecCons(State([x], map[0 := c0]), Advance(0, false), State([x], map[0 := c1]), r2);
    ExecCons(State([x], map[]), Create(0, None, None, false), State([x], map[0 := c0]), r1);
    assert [Create(0, None, None, false)] + r1
           == [Create(0, None, None, false), Advance(0, false), Receive(0), Advance(0, false),
               CloseChannel(0), Unlock(0), Set([2], [7])];
  }

  /** No item has an empty key, and no iterator was given an empty bound. */
  ghost predicate NothingEmpty(s: State) {
    && (forall x :: x in s.items ==> x.key != [])
    && (forall id :: id in s.cursors ==> s.cursors[id].start != Some([]) && s.cursors[id].end != Some([]))
  }

  lemma StepNothingEmpty(s: State, e: Event)
    requires NothingEmpty(s) && Step(s, e).Some?
    ensures NothingEmpty(Step(s, e).value)
  {
    match e
    case Set(k, v) => PutKeys(s.items, k, v);
    case Delete(k) => RemoveKeys(s.items, k);
    case Create(_, _, _, _) =>
    case _ =>
      var c := s.cursors[e.id];
      BoundsStay(ChooseWalk(s.items, c.start, c.end, c.reverse), c, e);
  }

  lemma BoundsStay(w: Walk, c: Cursor, e: Event)
    requires CursorStep(w, c, e).Some?
    ensures var d := CursorStep(w, c, e).value; d.start == c.start && d.end == c.end
  {
  }

  /** Empty keys and empty bounds are refused: in every run from a database without them there are none. */
  lemma {:induction false} EmptyIsRefused(s: State, events: seq<Event>)
    requires NothingEmpty(s) && Exec(s, events).Some?
    ensures NothingEmpty(Exec(s, events).value)
    decreases |events|
  {
    if events != [] {
      StepNothingEmpty(s, events[0]);
      EmptyIsRefused(Step(s, events[0]).value, events[1..]);
    }
  }
}
