/**
 * Contract calls and database together: the iterators that the protocol hands around are cursors
 * of a MemDB, with their goroutines, channels and read locks, while writers come and go.
 *
 * The protocol state's `rest` is history here: it is written along, but no step reads it. What a
 * contract is shown comes out of the cursor.
 */
module FullRuns {
  import opened ByteStrings
  import opened Ranges
  import opened Traversal
  import opened IteratorFrames
  import P = Protocol
  import M = Snapshot
  import opened ReadLock
  import opened Isolation
  import opened EndToEnd

  /** `cursorOf` maps the handles of the protocol's iterators to cursors. */
  datatype World = World(p: P.State, m: M.State, cursorOf: seq<nat>)

  function Start(db: seq<Item>): (w: World) { World(P.Init, M.State(db, map[]), []) }

  datatype Action =
    | Db(dbEvent: M.Event)                     // writers, goroutines, creating and priming, draining
    | ByCall(event: P.Event)                 // what a call does without touching an iterator
    // a scan with these arguments, whose iterator is this primed cursor
    | ScanCursor(call: nat, id: nat, start: Option<Bytes>, end: Option<Bytes>, reverse: bool)
    | UseCursor(call: nat, fate: P.Fate)   // Valid, Key, Value and Next on the retrieved iterator
    | CancelNext(call: nat)                // Close of the next iterator of an ending call begins

  /** What is still to come, the current item included. */
  function Rest(c: M.Cursor): (r: seq<Item>) {
    var w := M.Wanted(M.WalkOf(c));
    if c.item.Some? && 0 < |c.got| <= |w| then w[|c.got| - 1..] else []
  }

  /** The range that was asked for, in the tree as it was at creation. */
  function Full(c: M.Cursor): (r: seq<Item>) { RangeOf(c.snapshot, c.start, c.end, c.reverse) }

  predicate Requests(c: M.Cursor, start: Option<Bytes>, end: Option<Bytes>, reverse: bool) {
    c.start == start && c.end == end && c.reverse == reverse
  }

  /** Only an iterator's constructor and its owner receive from it, and only its owner closes it. */
  predicate DbEvent(m: M.State, e: M.Event) {
    && !e.Cancel?
    && (e.Receive? ==> e.id in m.cursors && m.cursors[e.id].consumer.Priming?)
  }

  /** MemDB's Close does not panic. */
  predicate CallEvent(e: P.Event) { !e.Use? && !e.Unwind? && (e.Scan? ==> e.items.None?) }

  /** Close of the iterator that comes next in the close loop has returned. */
  predicate NextIsDone(w: World, a: nat) {
    && a in w.p.calls && w.p.calls[a].phase.Closing?
    && var Closing(frame, next) := w.p.calls[a].phase;
       && next < |frame| && frame[next] < |w.cursorOf|
       && w.cursorOf[frame[next]] in w.m.cursors && w.m.cursors[w.cursorOf[frame[next]]].consumer.Done?
  }

  /** The contract's observation, and the end of its use of the iterator. */
  function Answered(p: P.State, a: nat, x: P.Answer): (r: P.State)
    requires a in p.calls
  {
    P.Becomes(p, a, p.calls[a].(phase := P.Idle, log := p.calls[a].log + [x]))
  }

  /** Notes in the history that an iterator has moved. */
  function Moved(p: P.State, h: nat): (r: P.State)
    requires h < |p.tables.iterators|
  {
    if p.tables.iterators[h].Valid() then p.(tables := p.tables.Advance(h)) else p
  }

  function UseStep(w: World, a: nat, fate: P.Fate): (r: Option<World>) {
    if a !in w.p.calls || !w.p.calls[a].phase.Holding? then None
    else
      var Holding(h, rustId, kind) := w.p.calls[a].phase;
      if h >= |w.cursorOf| || h >= |w.p.tables.iterators| || w.cursorOf[h] !in w.m.cursors then None
      else
        var id := w.cursorOf[h];
        var item := w.m.cursors[id].item;
        if item.None? then Some(w.(p := Answered(w.p, a, P.Delivered(rustId, kind, None))))
        else if fate.PanicsBefore? then Some(w.(p := Answered(w.p, a, P.Panicked(rustId))))
        else
          var x := if fate.Runs? then P.Delivered(rustId, kind, Some(P.Project(kind, item.value))) else P.Panicked(rustId);
          match M.Step(w.m, M.Receive(id))
          case None => None
          case Some(m) => Some(w.(m := m, p := Moved(Answered(w.p, a, x), h)))
  }

  /** None when the action is not enabled. */
  function Step(w: World, x: Action): (r: Option<World>) {
    match x
    case Db(e) =>
      (match if DbEvent(w.m, e) then M.Step(w.m, e) else None
       case None => None
       case Some(m) => Some(w.(m := m)))
    case ByCall(e) =>
      (match if CallEvent(e) && (e.CloseNext? ==> NextIsDone(w, e.call)) then P.Step(w.p, e) else None
       case None => None
       case Some(p) => Some(w.(p := p)))
    case ScanCursor(a, id, start, end, reverse) =>
      if id !in w.m.cursors || !w.m.cursors[id].consumer.Open? || id in w.cursorOf
         || !Requests(w.m.cursors[id], start, end, reverse)
      then None
      else
        (match P.Step(w.p, P.Scan(a, Some(Rest(w.m.cursors[id]))))
         case None => None
         case Some(p) => Some(w.(p := p, cursorOf := w.cursorOf + [id])))
    case UseCursor(a, fate) => UseStep(w, a, fate)
    case CancelNext(a) =>
      if a !in w.p.calls || !w.p.calls[a].phase.Closing? then None
      else
        var Closing(frame, next) := w.p.calls[a].phase;
        if next >= |frame| || frame[next] >= |w.cursorOf| then None
        else
          match M.Step(w.m, M.Cancel(w.cursorOf[frame[next]]))
          case None => None
          case Some(m) => Some(w.(m := m))
  }

  function Exec(w: World, actions: seq<Action>): (r: Option<World>)
    decreases |actions|
  {
    if actions == [] then Some(w)
    else match Step(w, actions[0])
      case None => None
      case Some(v) => Exec(v, actions[1..])
  }

  /** The protocol event that an action is, if it is one. */
  function Shadow(w: World, x: Action): (e: Option<P.Event>) {
    match x
    case Db(_) => None
    case CancelNext(_) => None
    case ByCall(e) => Some(e)
    case ScanCursor(a, id, _, _, _) => if id in w.m.cursors then Some(P.Scan(a, Some(Rest(w.m.cursors[id])))) else None
    case UseCursor(a, fate) => Some(P.Use(a, fate))
  }

  // The link between iterators and cursors.

  ghost predicate Attached(w: World) {
    && |w.cursorOf| == |w.p.tables.iterators|
    && (forall h :: 0 <= h < |w.cursorOf| ==> w.cursorOf[h] in w.m.cursors)
    && (forall g, h :: 0 <= g < h < |w.cursorOf| ==> w.cursorOf[g] != w.cursorOf[h])
  }

  function CursorAt(w: World, h: nat): (c: M.Cursor)
    requires h < |w.cursorOf| && w.cursorOf[h] in w.m.cursors
  {
    w.m.cursors[w.cursorOf[h]]
  }

  /** An iterator that is in use delivers what its cursor delivers; one that was closed has been drained. */
  ghost predicate Mirrors(it: GoIterator, c: M.Cursor) {
    !c.consumer.Priming? && (!c.cancelled ==> it.rest == Rest(c)) && (it.closes > 0 ==> c.consumer.Done?)
  }

  /** Only the end of its call cancels a cursor. */
  ghost predicate CancelledByCall(w: World, h: nat) {
    h in w.p.home && w.p.home[h].0 in w.p.calls && !P.Active(w.p.calls[w.p.home[h].0].phase)
  }

  /** A cursor that no scan has taken over yet. */
  ghost predicate Unused(c: M.Cursor) { !c.cancelled && |c.got| == if c.item.Some? then 1 else 0 }

  ghost predicate Linked(w: World) {
    && Attached(w)
    && (forall h :: 0 <= h < |w.cursorOf| ==> Mirrors(w.p.tables.iterators[h], CursorAt(w, h)))
    && (forall h :: 0 <= h < |w.cursorOf| && CursorAt(w, h).cancelled ==> CancelledByCall(w, h))
    && (forall id :: id in w.m.cursors && id !in w.cursorOf ==> Unused(w.m.cursors[id]))
  }

  // Cursors as iterators.

  lemma CurrentItem(items: seq<Item>, c: M.Cursor)
    requires M.CursorInv(items, c)
    ensures c.item.None? <==> Rest(c) == []
    ensures c.item.Some? ==> Rest(c)[0] == c.item.value
  {
    if c.item.Some? { assert c.got[|c.got| - 1] == M.Wanted(M.WalkOf(c))[|c.got| - 1]; }
  }

  /** Next takes the cursor to the rest of its rest. */
  lemma ReceiveMoves(items: seq<Item>, c: M.Cursor)
    requires M.CursorInv(items, c) && M.ReceiveStep(c).Some? && c.item.Some?
    ensures var d := M.ReceiveStep(c).value;
            Rest(d) == Rest(c)[1..] && d.cancelled == c.cancelled && d.consumer.Open? && M.SameRequest(c, d)
  {
    var w := M.Wanted(M.WalkOf(c));
    M.ReceiveKeeps(items, M.WalkOf(c), c);
    var d := M.ReceiveStep(c).value;
    if d.item.Some? {
      assert |d.got| == |c.got| + 1;
    } else {
      assert d.got + d.ch + M.Ahead(M.WalkOf(d), d.producer) == w;
    }
  }

  /** A primed cursor has its whole range ahead. */
  lemma PrimedIsFull(items: seq<Item>, c: M.Cursor)
    requires M.CursorInv(items, c) && c.consumer.Open? && Unused(c)
    ensures Rest(c) == Full(c)
  {
    WalkIsRange(c.snapshot, c.start, c.end, c.reverse);
    var w := M.Wanted(M.WalkOf(c));
    if c.item.Some? {
      assert w[0..] == w;
    } else {
      assert c.got + c.ch + M.Ahead(M.WalkOf(c), c.producer) == w;
    }
  }

  // One action of the world is one step of the database or of the protocol, or both.

  /** The database event behind an action. */
  function DbEventOf(w: World, x: Action): (e: Option<M.Event>) {
    match x
    case Db(e) => Some(e)
    case UseCursor(a, fate) =>
      if a in w.p.calls && w.p.calls[a].phase.Holding? && w.p.calls[a].phase.handle < |w.cursorOf|
         && w.cursorOf[w.p.calls[a].phase.handle] in w.m.cursors
         && w.m.cursors[w.cursorOf[w.p.calls[a].phase.handle]].item.Some? && !fate.PanicsBefore?
      then Some(M.Receive(w.cursorOf[w.p.calls[a].phase.handle])) else None
    case CancelNext(a) =>
      if a in w.p.calls && w.p.calls[a].phase.Closing? && w.p.calls[a].phase.next < |w.p.calls[a].phase.frame|
         && w.p.calls[a].phase.frame[w.p.calls[a].phase.next] < |w.cursorOf|
      then Some(M.Cancel(w.cursorOf[w.p.calls[a].phase.frame[w.p.calls[a].phase.next]])) else None
    case _ => None
  }

  lemma DbPart(w: World, x: Action)
    requires Step(w, x).Some?
    ensures match DbEventOf(w, x)
            case None => Step(w, x).value.m == w.m
            case Some(e) => M.Step(w.m, e) == Some(Step(w, x).value.m)
  {
  }

  /** The handle that a call holds belongs to a cursor that is still open. */
  lemma HeldIsOpen(w: World, a: nat)
    requires Linked(w) && a in w.p.calls && w.p.calls[a].phase.Holding? && P.CallInv(w.p, a, w.p.calls[a])
    ensures var h := w.p.calls[a].phase.handle;
            && h < |w.cursorOf| && w.p.home[h] == (a, w.p.calls[a].phase.rustId)
            && !CursorAt(w, h).cancelled && w.p.tables.iterators[h].rest == Rest(CursorAt(w, h))
            && w.p.tables.iterators[h].closes == 0
  {
  }

  lemma UseShadows(w: World, a: nat, fate: P.Fate)
    requires Linked(w) && M.Inv(w.m) && a in w.p.calls && P.CallInv(w.p, a, w.p.calls[a])
    requires UseStep(w, a, fate).Some?
    ensures P.Step(w.p, P.Use(a, fate)) == Some(UseStep(w, a, fate).value.p)
  {
    HeldIsOpen(w, a);
    var h := w.p.calls[a].phase.handle;
    var c := CursorAt(w, h);
    assert M.CursorInv(w.m.items, c);
    CurrentItem(w.m.items, c);
  }

  lemma StepShadows(w: World, x: Action)
    requires Linked(w) && M.Inv(w.m) && P.Inv(w.p) && Step(w, x).Some?
    ensures match Shadow(w, x)
            case None => Step(w, x).value.p == w.p
            case Some(e) => P.Step(w.p, e) == Some(Step(w, x).value.p)
  {
    match x
    case UseCursor(a, fate) =>
      assert P.CallInv(w.p, a, w.p.calls[a]);
      UseShadows(w, a, fate);
    case _ =>
  }

  // The link is kept.

  lemma DbCursorStep(items: seq<Item>, now: Walk, c: M.Cursor, e: M.Event)
    requires M.CursorInv(items, c) && M.CursorStep(now, c, e).Some?
    requires !e.Cancel? && (e.Receive? ==> c.consumer.Priming?)
    ensures var d := M.CursorStep(now, c, e).value;
            && M.SameRequest(c, d) && d.cancelled == c.cancelled
            && (!c.consumer.Priming? ==> !d.consumer.Priming? && (!c.cancelled ==> Rest(d) == Rest(c)))
            && (Unused(c) ==> Unused(d)) && (c.consumer.Done? ==> d.consumer.Done?)
  {
    var d := M.CursorStep(now, c, e).value;
    match e
    case Receive(_) => PrimingReceives(items, c);
    case Drain(_) => assert c.cancelled && M.SameRequest(c, d);
    case _ =>
      GoroutineKeepsDeliveries(now, c, e);
      SameRest(c, d);
  }

  lemma SameRest(c: M.Cursor, d: M.Cursor)
    requires M.SameRequest(c, d) && d.got == c.got && d.item == c.item
    ensures Rest(d) == Rest(c)
  {
  }

  lemma PrimingReceives(items: seq<Item>, c: M.Cursor)
    requires M.CursorInv(items, c) && M.ReceiveStep(c).Some? && c.consumer.Priming?
    ensures var d := M.ReceiveStep(c).value; M.SameRequest(c, d) && d.cancelled == c.cancelled && (Unused(c) ==> Unused(d))
  {
  }

  /** Another cursor's step, or a writer's, leaves a cursor alone. */
  lemma DbLeaves(m: M.State, e: M.Event, id: nat)
    requires M.Inv(m) && M.Step(m, e).Some? && DbEvent(m, e) && id in m.cursors
    ensures id in M.Step(m, e).value.cursors
    ensures var c, d := m.cursors[id], M.Step(m, e).value.cursors[id];
            && M.SameRequest(c, d) && d.cancelled == c.cancelled
            && (!c.consumer.Priming? ==> !d.consumer.Priming? && (!c.cancelled ==> Rest(d) == Rest(c)))
            && (Unused(c) ==> Unused(d)) && (c.consumer.Done? ==> d.consumer.Done?)
  {
    if M.OwnStep(e, id) {
      StepHere(m, e, id);
      var c := m.cursors[id];
      assert M.CursorInv(m.items, c);
      DbCursorStep(m.items, ChooseWalk(m.items, c.start, c.end, c.reverse), c, e);
    } else {
      StepElsewhere(m, e, id);
    }
  }

  lemma NewIsUnused(m: M.State, e: M.Event, id: nat)
    requires M.Step(m, e).Some? && id in M.Step(m, e).value.cursors && id !in m.cursors
    ensures Unused(M.Step(m, e).value.cursors[id])
  {
  }

  lemma DbKeepsLink(w: World, e: M.Event)
    requires Linked(w) && M.Inv(w.m) && DbEvent(w.m, e) && M.Step(w.m, e).Some?
    ensures Linked(w.(m := M.Step(w.m, e).value))
  {
    var v := w.(m := M.Step(w.m, e).value);
    forall id | id in w.m.cursors ensures id in v.m.cursors { DbLeaves(w.m, e, id); }
    forall h | 0 <= h < |w.cursorOf|
      ensures Mirrors(v.p.tables.iterators[h], CursorAt(v, h)) && CursorAt(v, h).cancelled == CursorAt(w, h).cancelled
    {
      DbLeaves(w.m, e, w.cursorOf[h]);
    }
    forall id | id in v.m.cursors && id !in v.cursorOf ensures Unused(v.m.cursors[id]) {
      if id in w.m.cursors { DbLeaves(w.m, e, id); } else { NewIsUnused(w.m, e, id); }
    }
  }

  /** A call's own events never wake it up again once it has begun to end. */
  lemma EndingStays(s: P.State, e: P.Event, a: nat)
    requires P.Step(s, e).Some? && a in s.calls && !P.Active(s.calls[a].phase)
    ensures a in P.Step(s, e).value.calls && !P.Active(P.Step(s, e).value.calls[a].phase)
  {
  }

  lemma CallKeepsIterators(s: P.State, e: P.Event)
    requires P.Step(s, e).Some? && CallEvent(e)
    ensures var t := P.Step(s, e).value;
            && |t.tables.iterators| == |s.tables.iterators|
            && (forall h :: 0 <= h < |s.tables.iterators| ==> t.tables.iterators[h].rest == s.tables.iterators[h].rest)
            && (forall h :: 0 <= h < |s.tables.iterators| ==>
                  || t.tables.iterators[h].closes == s.tables.iterators[h].closes
                  || (e.CloseNext? && e.call in s.calls && s.calls[e.call].phase.Closing?
                      && s.calls[e.call].phase.next < |s.calls[e.call].phase.frame|
                      && h == s.calls[e.call].phase.frame[s.calls[e.call].phase.next]))
            && t.home == s.home
  {
  }

  lemma CallKeepsLink(w: World, e: P.Event)
    requires Linked(w) && CallEvent(e) && P.Step(w.p, e).Some? && (e.CloseNext? ==> NextIsDone(w, e.call))
    ensures Linked(w.(p := P.Step(w.p, e).value))
  {
    var v := w.(p := P.Step(w.p, e).value);
    CallKeepsIterators(w.p, e);
    forall h | 0 <= h < |w.cursorOf| ensures Mirrors(v.p.tables.iterators[h], CursorAt(v, h)) {
      assert CursorAt(v, h) == CursorAt(w, h);
    }
    forall h | 0 <= h < |w.cursorOf| && CursorAt(v, h).cancelled ensures CancelledByCall(v, h) {
      assert CursorAt(v, h) == CursorAt(w, h);
      EndingStays(w.p, e, w.p.home[h].0);
    }
  }

  lemma ScanAppends(s: P.State, a: nat, items: seq<Item>)
    requires P.Step(s, P.Scan(a, Some(items))).Some? && P.HomeInv(s)
    ensures var t := P.Step(s, P.Scan(a, Some(items))).value;
            && t.tables.iterators == s.tables.iterators + [GoIterator(items, 0)]
            && forall h :: h in s.home ==> h in t.home && t.home[h] == s.home[h]
  {
  }

  lemma ScanKeepsLink(w: World, a: nat, id: nat)
    requires Linked(w) && P.HomeInv(w.p) && id in w.m.cursors && w.m.cursors[id].consumer.Open? && id !in w.cursorOf
    requires P.Step(w.p, P.Scan(a, Some(Rest(w.m.cursors[id])))).Some?
    ensures Linked(w.(p := P.Step(w.p, P.Scan(a, Some(Rest(w.m.cursors[id])))).value, cursorOf := w.cursorOf + [id]))
  {
    var e := P.Scan(a, Some(Rest(w.m.cursors[id])));
    var v := w.(p := P.Step(w.p, e).value, cursorOf := w.cursorOf + [id]);
    ScanAppends(w.p, a, Rest(w.m.cursors[id]));
    forall h | 0 <= h < |v.cursorOf|
      ensures Mirrors(v.p.tables.iterators[h], CursorAt(v, h)) && (CursorAt(v, h).cancelled ==> CancelledByCall(v, h))
    {
      if h < |w.cursorOf| {
        assert CursorAt(v, h) == CursorAt(w, h);
        if CursorAt(v, h).cancelled { EndingStays(w.p, e, w.p.home[h].0); }
      } else {
        assert CursorAt(v, h) == w.m.cursors[id];
      }
    }
  }

  lemma ReceiveDb(m: M.State, id: nat)
    requires M.Step(m, M.Receive(id)).Some?
    ensures id in m.cursors && M.ReceiveStep(m.cursors[id]).Some?
    ensures M.Step(m, M.Receive(id)).value == m.(cursors := m.cursors[id := M.ReceiveStep(m.cursors[id]).value])
  {
  }

  lemma CancelDb(m: M.State, id: nat)
    requires M.Step(m, M.Cancel(id)).Some?
    ensures id in m.cursors && m.cursors[id].consumer.Open?
    ensures M.Step(m, M.Cancel(id)).value
            == m.(cursors := m.cursors[id := m.cursors[id].(cancelled := true, consumer := M.Draining)])
  {
  }

  /** One cursor changes, and with it at most the history of its iterator and the state of one active call. */
  lemma OneCursorKeepsLink(w: World, v: World, a: nat, h: nat, d: M.Cursor)
    requires Linked(w) && h < |w.cursorOf| && v.cursorOf == w.cursorOf
    requires v.m.cursors == w.m.cursors[w.cursorOf[h] := d]
    requires |v.p.tables.iterators| == |w.p.tables.iterators| && v.p.home == w.p.home
    requires forall g :: 0 <= g < |w.cursorOf| && g != h ==> v.p.tables.iterators[g] == w.p.tables.iterators[g]
    requires Mirrors(v.p.tables.iterators[h], d)
    requires a in v.p.calls && v.p.calls == w.p.calls[a := v.p.calls[a]]
    requires a in w.p.calls && (P.Active(w.p.calls[a].phase) <==> P.Active(v.p.calls[a].phase))
    requires d.cancelled ==> CancelledByCall(w, h)
    ensures Linked(v)
  {
    forall g | 0 <= g < |v.cursorOf|
      ensures Mirrors(v.p.tables.iterators[g], CursorAt(v, g)) && (CursorAt(v, g).cancelled ==> CancelledByCall(v, g))
    {
      if g != h {
        assert w.cursorOf[g] != w.cursorOf[h];
        assert CursorAt(v, g) == CursorAt(w, g);
      }
    }
    forall id | id in v.m.cursors && id !in v.cursorOf ensures Unused(v.m.cursors[id]) {
      assert id != w.cursorOf[h];
    }
  }

  lemma UseKeepsLink(w: World, a: nat, fate: P.Fate)
    requires Linked(w) && M.Inv(w.m) && a in w.p.calls && P.CallInv(w.p, a, w.p.calls[a])
    requires UseStep(w, a, fate).Some?
    ensures Linked(UseStep(w, a, fate).value)
  {
    HeldIsOpen(w, a);
    var v := UseStep(w, a, fate).value;
    var h := w.p.calls[a].phase.handle;
    var id := w.cursorOf[h];
    var c := CursorAt(w, h);
    assert M.CursorInv(w.m.items, c);
    CurrentItem(w.m.items, c);
    if c.item.None? || fate.PanicsBefore? {
      assert v.m.cursors == w.m.cursors[id := c];
      OneCursorKeepsLink(w, v, a, h, c);
    } else {
      ReceiveDb(w.m, id);
      ReceiveMoves(w.m.items, c);
      OneCursorKeepsLink(w, v, a, h, M.ReceiveStep(c).value);
    }
  }

  lemma CancelKeepsLink(w: World, a: nat)
    requires Linked(w) && a in w.p.calls && w.p.calls[a].phase.Closing? && P.CallInv(w.p, a, w.p.calls[a])
    requires Step(w, CancelNext(a)).Some?
    ensures Linked(Step(w, CancelNext(a)).value)
  {
    var v := Step(w, CancelNext(a)).value;
    var c := w.p.calls[a];
    var h := c.phase.frame[c.phase.next];
    assert c.accepted[c.phase.next] == h && w.p.home[h] == (a, c.phase.next);
    CancelDb(w.m, w.cursorOf[h]);
    assert w.p.tables.iterators[h].closes == 0;
    assert v.p.calls == w.p.calls[a := v.p.calls[a]];
    OneCursorKeepsLink(w, v, a, h, v.m.cursors[w.cursorOf[h]]);
  }

  // The invariant of the world.

  ghost predicate Inv(w: World) { P.Inv(w.p) && M.Inv(w.m) && Linked(w) }

  predicate StartAction(x: Action) { x.ByCall? && x.event.Start? }

  function StartActions(actions: seq<Action>): (n: nat) {
    if actions == [] then 0 else StartActions(actions[1..]) + if StartAction(actions[0]) then 1 else 0
  }

  lemma LinkKept(w: World, x: Action)
    requires Inv(w) && Step(w, x).Some?
    ensures Linked(Step(w, x).value)
  {
    match x
    case Db(e) => DbKeepsLink(w, e);
    case ByCall(e) => CallKeepsLink(w, e);
    case ScanCursor(a, id, _, _, _) => ScanKeepsLink(w, a, id);
    case UseCursor(a, fate) =>
      assert P.CallInv(w.p, a, w.p.calls[a]);
      UseKeepsLink(w, a, fate);
    case CancelNext(a) =>
      assert P.CallInv(w.p, a, w.p.calls[a]);
      CancelKeepsLink(w, a);
  }

  lemma StepKeeps(w: World, x: Action)
    requires Inv(w) && Step(w, x).Some? && |w.p.calls| + (if StartAction(x) then 1 else 0) < TWO_TO_64
    ensures Inv(Step(w, x).value)
    ensures |Step(w, x).value.p.calls| == |w.p.calls| + if StartAction(x) then 1 else 0
  {
    var v := Step(w, x).value;
    LinkKept(w, x);
    DbPart(w, x);
    if DbEventOf(w, x).Some? { M.StepKeeps(w.m, DbEventOf(w, x).value); }
    StepShadows(w, x);
    if Shadow(w, x).Some? {
      var e := Shadow(w, x).value;
      P.StepKeeps(w.p, e);
      if e.Start? { P.CountStarts(w.p, e); } else { P.SameLatest(w.p, e); }
    }
  }

  // What the calls have seen.

  /** The ranges behind a call's iterator IDs. */
  ghost function RangesOf(w: World, accepted: seq<nat>): (r: seq<seq<Item>>)
    requires Attached(w) && forall k :: 0 <= k < |accepted| ==> accepted[k] < |w.cursorOf|
  {
    seq(|accepted|, k requires 0 <= k < |accepted| => Full(CursorAt(w, accepted[k])))
  }

  ghost predicate CallTracked(w: World, a: nat)
    requires Inv(w) && a in w.p.calls
  {
    assert P.CallInv(w.p, a, w.p.calls[a]);
    Tracks(Abs(w.p, a), RangesOf(w, w.p.calls[a].accepted))
  }

  ghost predicate Tracked(w: World)
    requires Inv(w)
  {
    forall a :: a in w.p.calls ==> CallTracked(w, a)
  }

  lemma RequestStays(w: World, x: Action, id: nat)
    requires Step(w, x).Some? && id in w.m.cursors
    ensures id in Step(w, x).value.m.cursors && M.SameRequest(w.m.cursors[id], Step(w, x).value.m.cursors[id])
  {
    DbPart(w, x);
    if DbEventOf(w, x).Some? { M.StepFrame(w.m, DbEventOf(w, x).value, id); }
  }

  lemma RangesStay(w: World, x: Action, accepted: seq<nat>)
    requires Attached(w) && Step(w, x).Some? && Attached(Step(w, x).value)
    requires forall k :: 0 <= k < |accepted| ==> accepted[k] < |w.cursorOf|
    ensures |w.cursorOf| <= |Step(w, x).value.cursorOf|
    ensures RangesOf(Step(w, x).value, accepted) == RangesOf(w, accepted)
  {
    var v := Step(w, x).value;
    assert w.cursorOf <= v.cursorOf;
    forall k | 0 <= k < |accepted| ensures Full(CursorAt(v, accepted[k])) == Full(CursorAt(w, accepted[k])) {
      RequestStays(w, x, w.cursorOf[accepted[k]]);
    }
  }

  lemma AcceptedStays(s: P.State, e: P.Event)
    requires P.Step(s, e).Some? && !e.Scan? && !e.Start?
    ensures e.call in s.calls && P.Step(s, e).value.calls[e.call].accepted == s.calls[e.call].accepted
  {
  }

  /** What a scan adds to the ranges of its call. */
  lemma ScanRanges(w: World, v: World, accepted: seq<nat>, id: nat)
    requires Attached(w) && Attached(v) && v.m == w.m && id in w.m.cursors && v.cursorOf == w.cursorOf + [id]
    requires forall k :: 0 <= k < |accepted| ==> accepted[k] < |w.cursorOf|
    ensures RangesOf(v, accepted) == RangesOf(w, accepted)
    ensures RangesOf(v, accepted + [|w.cursorOf|]) == RangesOf(w, accepted) + [Full(w.m.cursors[id])]
  {
    assert CursorAt(v, |w.cursorOf|) == w.m.cursors[id];
    forall k | 0 <= k < |accepted| ensures CursorAt(v, accepted[k]) == CursorAt(w, accepted[k]) {}
  }

  /** The accepted iterators of a call after its own step. */
  function AcceptedAfter(s: P.State, e: P.Event): (r: seq<nat>)
    requires e.call in s.calls
  {
    var accepted := s.calls[e.call].accepted;
    if e.Scan? && e.items.Some? && |accepted| < FRAME_LEN_LIMIT then accepted + [|s.tables.iterators|] else accepted
  }

  lemma OwnAccepted(s: P.State, e: P.Event, s': P.State)
    requires e.call in s.calls && P.CallInv(s, e.call, s.calls[e.call]) && P.Step(s, e) == Some(s') && !e.Start?
    ensures e.call in s'.calls && s'.calls[e.call].accepted == AcceptedAfter(s, e)
  {
    if e.Scan? {
      P.StepCases(s, e);
      ScanAccepted(s, e.call, e.items);
    } else {
      AcceptedStays(s, e);
    }
  }

  lemma ScanAccepted(s: P.State, a: nat, items: Option<seq<Item>>)
    requires a in s.calls && s.calls[a].phase.Idle? && P.CallInv(s, a, s.calls[a])
    ensures P.ScanStep(s, a, items).calls[a].accepted == AcceptedAfter(s, P.Scan(a, items))
  {
    if items.Some? && |s.calls[a].accepted| < FRAME_LEN_LIMIT {
      P.ScanAccepts(s, a, items.value);
    } else {
      P.ScanRefuses(s, a, items);
    }
  }

  /** The ranges behind them, for a scan of a cursor that no call has used. */
  lemma CursorRanges(w: World, v: World, e: P.Event, id: nat)
    requires Attached(w) && Attached(v) && v.m == w.m && id in w.m.cursors && v.cursorOf == w.cursorOf + [id]
    requires e.call in w.p.calls && e.Scan? && e.items == Some(Full(w.m.cursors[id]))
    requires forall k :: 0 <= k < |w.p.calls[e.call].accepted| ==> w.p.calls[e.call].accepted[k] < |w.cursorOf|
    ensures forall k :: 0 <= k < |AcceptedAfter(w.p, e)| ==> AcceptedAfter(w.p, e)[k] < |v.cursorOf|
    ensures RangesOf(v, AcceptedAfter(w.p, e)) == ScansAfter(RangesOf(w, w.p.calls[e.call].accepted), e)
  {
    ScanRanges(w, v, w.p.calls[e.call].accepted, id);
  }

  lemma UnusedScan(w: World, x: Action)
    requires M.Inv(w.m) && Linked(w) && Step(w, x).Some? && x.ScanCursor?
    ensures var v := Step(w, x).value;
            v.m == w.m && x.id in w.m.cursors && v.cursorOf == w.cursorOf + [x.id] && Rest(w.m.cursors[x.id]) == Full(w.m.cursors[x.id])
  {
    assert M.CursorInv(w.m.items, w.m.cursors[x.id]);
    PrimedIsFull(w.m.items, w.m.cursors[x.id]);
  }

  /** The ranges of a call after its own step. */
  lemma OwnRanges(w: World, x: Action, e: P.Event)
    requires Inv(w) && Step(w, x).Some? && Attached(Step(w, x).value) && Shadow(w, x) == Some(e) && e.call in w.p.calls
    requires forall k :: 0 <= k < |w.p.calls[e.call].accepted| ==> w.p.calls[e.call].accepted[k] < |w.cursorOf|
    ensures var v := Step(w, x).value;
            && (forall k :: 0 <= k < |AcceptedAfter(w.p, e)| ==> AcceptedAfter(w.p, e)[k] < |v.cursorOf|)
            && RangesOf(v, AcceptedAfter(w.p, e)) == ScansAfter(RangesOf(w, w.p.calls[e.call].accepted), e)
  {
    if x.ScanCursor? {
      UnusedScan(w, x);
      CursorRanges(w, Step(w, x).value, e, x.id);
    } else {
      if e.Scan? { ShadowScan(w, x); }
      RangesStay(w, x, w.p.calls[e.call].accepted);
    }
  }

  lemma ShadowScan(w: World, x: Action)
    requires Step(w, x).Some? && !x.ScanCursor? && Shadow(w, x).Some? && Shadow(w, x).value.Scan?
    ensures Shadow(w, x).value.items.None?
  {
  }

  lemma OwnTracked(w: World, x: Action, e: P.Event)
    requires Inv(w) && Step(w, x).Some? && Inv(Step(w, x).value) && Shadow(w, x) == Some(e) && !e.Start?
    requires P.Step(w.p, e) == Some(Step(w, x).value.p)
    requires e.call in w.p.calls && CallTracked(w, e.call)
    ensures e.call in Step(w, x).value.p.calls && CallTracked(Step(w, x).value, e.call)
  {
    assert P.CallInv(w.p, e.call, w.p.calls[e.call]);
    OwnAccepted(w.p, e, Step(w, x).value.p);
    OwnRanges(w, x, e);
    StepRefines(w.p, e, e.call);
    StepTracks(Abs(w.p, e.call), RangesOf(w, w.p.calls[e.call].accepted), e);
  }

  lemma OtherTracked(w: World, x: Action, b: nat)
    requires Inv(w) && Step(w, x).Some? && Inv(Step(w, x).value) && b in w.p.calls && CallTracked(w, b)
    requires b in Step(w, x).value.p.calls && Step(w, x).value.p.calls[b] == w.p.calls[b]
    requires P.CallInv(w.p, b, w.p.calls[b]) && P.CallInv(Step(w, x).value.p, b, w.p.calls[b])
    requires Abs(Step(w, x).value.p, b) == Abs(w.p, b)
    ensures CallTracked(Step(w, x).value, b)
  {
    RangesStay(w, x, w.p.calls[b].accepted);
  }

  lemma NewTracked(w: World, x: Action, a: nat)
    requires Inv(w) && Step(w, x).Some? && Inv(Step(w, x).value) && x == ByCall(P.Start(a))
    ensures a in Step(w, x).value.p.calls && CallTracked(Step(w, x).value, a)
  {
    var v := Step(w, x).value;
    assert P.CallInv(v.p, a, v.p.calls[a]);
    assert Abs(v.p, a) == NewSession;
    assert RangesOf(v, v.p.calls[a].accepted) == [];
  }

  lemma CallsAfter(s: P.State, e: P.Event, b: nat)
    requires P.Step(s, e).Some? && b in P.Step(s, e).value.calls && b != e.call
    ensures b in s.calls && P.Step(s, e).value.calls[b] == s.calls[b]
  {
  }

  lemma TrackedAfterEvent(w: World, x: Action, e: P.Event, b: nat)
    requires Inv(w) && Tracked(w) && Step(w, x).Some? && Inv(Step(w, x).value)
    requires Shadow(w, x) == Some(e) && P.Step(w.p, e) == Some(Step(w, x).value.p) && b in Step(w, x).value.p.calls
    requires e.Start? ==> |w.p.calls| + 1 < TWO_TO_64
    ensures CallTracked(Step(w, x).value, b)
  {
    var v := Step(w, x).value;
    if b != e.call {
      CallsAfter(w.p, e, b);
      assert CallTracked(w, b) && P.CallInv(w.p, b, w.p.calls[b]) && P.CallInv(v.p, b, v.p.calls[b]);
      StepRefines(w.p, e, b);
      OtherTracked(w, x, b);
    } else if e.Start? {
      NewTracked(w, x, b);
    } else {
      AcceptedOrScan(w.p, e);
      assert CallTracked(w, b);
      OwnTracked(w, x, e);
    }
  }

  lemma TrackedAfterDb(w: World, x: Action, b: nat)
    requires Inv(w) && Tracked(w) && Step(w, x).Some? && Inv(Step(w, x).value)
    requires Step(w, x).value.p == w.p && b in w.p.calls
    ensures CallTracked(Step(w, x).value, b)
  {
    assert CallTracked(w, b) && P.CallInv(w.p, b, w.p.calls[b]);
    OtherTracked(w, x, b);
  }

  lemma StepTracked(w: World, x: Action)
    requires Inv(w) && Step(w, x).Some? && |w.p.calls| + (if StartAction(x) then 1 else 0) < TWO_TO_64 && Tracked(w)
    ensures Inv(Step(w, x).value) && Tracked(Step(w, x).value)
  {
    StepKeeps(w, x);
    StepShadows(w, x);
    var v := Step(w, x).value;
    forall b | b in v.p.calls ensures CallTracked(v, b) {
      match Shadow(w, x)
      case None => TrackedAfterDb(w, x, b);
      case Some(e) => TrackedAfterEvent(w, x, e, b);
    }
  }

  lemma AcceptedOrScan(s: P.State, e: P.Event)
    requires P.Step(s, e).Some? && !e.Start?
    ensures e.call in s.calls
  {
  }

  lemma {:induction false} ExecTracked(w: World, actions: seq<Action>)
    requires Inv(w) && Tracked(w) && Exec(w, actions).Some? && |w.p.calls| + StartActions(actions) < TWO_TO_64
    ensures Inv(Exec(w, actions).value) && Tracked(Exec(w, actions).value)
    decreases |actions|
  {
    if actions != [] {
      StepKeeps(w, actions[0]);
      StepTracked(w, actions[0]);
      ExecTracked(Step(w, actions[0]).value, actions[1..]);
    }
  }

  lemma {:induction false} RequestsStay(w: World, actions: seq<Action>, id: nat)
    requires Exec(w, actions).Some? && id in w.m.cursors
    ensures id in Exec(w, actions).value.m.cursors
    ensures M.SameRequest(w.m.cursors[id], Exec(w, actions).value.m.cursors[id])
    decreases |actions|
  {
    if actions != [] {
      RequestStays(w, actions[0], id);
      RequestsStay(Step(w, actions[0]).value, actions[1..], id);
    }
  }

  lemma {:induction false} ExecAppend(w: World, a: seq<Action>, b: seq<Action>)
    ensures Exec(w, a + b) == match Exec(w, a) case None => None case Some(v) => Exec(v, b)
    decreases |a|
  {
    if a == [] {
      assert a + b == b;
    } else {
      assert (a + b)[0] == a[0] && (a + b)[1..] == a[1..] + b;
      match Step(w, a[0]) {
        case None =>
        case Some(v) => ExecAppend(v, a[1..], b);
      }
    }
  }

  /** What a call has been shown on an iterator ID. */
  lemma SeenSoFar(w: World, a: nat, k: nat)
    requires Inv(w) && Tracked(w) && a in w.p.calls && k < |w.p.calls[a].accepted|
    requires NoPanic(Answers(w.p.calls[a].log, k))
    ensures w.p.calls[a].accepted[k] < |w.cursorOf|
    ensures var answers := Answers(w.p.calls[a].log, k);
            forall i :: 0 <= i < |answers| ==> Expected(answers[i], Full(CursorAt(w, w.p.calls[a].accepted[k])), i)
  {
    assert CallTracked(w, a) && P.CallInv(w.p, a, w.p.calls[a]);
    assert RangesOf(w, w.p.calls[a].accepted)[k] == Full(CursorAt(w, w.p.calls[a].accepted[k]));
    assert Abs(w.p, a).log == w.p.calls[a].log;
  }

  /** A cursor keeps the database content it was created with. */
  lemma CreatedInRun(w: World, before: seq<Action>, create: M.Event, after: seq<Action>)
    requires create.Create? && !M.Rejected(create.start) && !M.Rejected(create.end)
    requires Exec(w, before).Some? && create.id !in Exec(w, before).value.m.cursors
    requires Exec(w, before + [Db(create)] + after).Some?
    ensures var v := Exec(w, before + [Db(create)] + after).value;
            create.id in v.m.cursors && v.m.cursors[create.id].snapshot == Exec(w, before).value.m.items
  {
    ExecAppend(w, before + [Db(create)], after);
    ExecAppend(w, before, [Db(create)]);
    var w0 := Exec(w, before).value;
    var w1 := Step(w0, Db(create)).value;
    assert Exec(w0, [Db(create)]) == Exec(w1, []);
    RequestsStay(w1, after, create.id);
  }

  // Iterators, once accepted, keep their ID and their cursor.

  /** What a call has accepted, and what is behind it, only grows. */
  ghost predicate Extends(w: World, v: World, a: nat) {
    && w.cursorOf <= v.cursorOf
    && (a in w.p.calls ==> a in v.p.calls && w.p.calls[a].accepted <= v.p.calls[a].accepted)
  }

  lemma OthersSame(s: P.State, e: P.Event, a: nat)
    requires P.Step(s, e).Some? && a in s.calls && a != e.call
    ensures a in P.Step(s, e).value.calls && P.Step(s, e).value.calls[a] == s.calls[a]
  {
  }

  lemma NotStartedTwice(s: P.State, e: P.Event)
    requires P.Step(s, e).Some? && e.call in s.calls
    ensures !e.Start?
  {
  }

  lemma AcceptedGrows(s: P.State, e: P.Event, s': P.State, a: nat)
    requires P.Step(s, e) == Some(s') && a in s.calls && P.CallInv(s, a, s.calls[a])
    ensures a in s'.calls && s.calls[a].accepted <= s'.calls[a].accepted
  {
    if a == e.call {
      NotStartedTwice(s, e);
      OwnAccepted(s, e, s');
    } else {
      OthersSame(s, e, a);
    }
  }

  lemma CursorsGrow(w: World, x: Action)
    requires Step(w, x).Some?
    ensures w.cursorOf <= Step(w, x).value.cursorOf
  {
  }

  lemma StepExtends(w: World, x: Action, a: nat)
    requires Inv(w) && Step(w, x).Some?
    ensures Extends(w, Step(w, x).value, a)
  {
    CursorsGrow(w, x);
    StepShadows(w, x);
    if Shadow(w, x).Some? && a in w.p.calls {
      assert P.CallInv(w.p, a, w.p.calls[a]);
      AcceptedGrows(w.p, Shadow(w, x).value, Step(w, x).value.p, a);
    }
  }

  lemma {:induction false} ExecExtends(w: World, actions: seq<Action>, a: nat)
    requires Inv(w) && Exec(w, actions).Some? && |w.p.calls| + StartActions(actions) < TWO_TO_64
    ensures Extends(w, Exec(w, actions).value, a)
    decreases |actions|
  {
    if actions != [] {
      StepExtends(w, actions[0], a);
      StepKeeps(w, actions[0]);
      ExecExtends(Step(w, actions[0]).value, actions[1..], a);
    }
  }

  lemma {:induction false} StartActionsAppend(a: seq<Action>, b: seq<Action>)
    ensures StartActions(a + b) == StartActions(a) + StartActions(b)
  {
    if a == [] {
      assert a + b == b;
    } else {
      assert (a + b)[0] == a[0] && (a + b)[1..] == a[1..] + b;
      StartActionsAppend(a[1..], b);
    }
  }

  lemma {:induction false} CallsCounted(w: World, actions: seq<Action>)
    requires Inv(w) && Exec(w, actions).Some? && |w.p.calls| + StartActions(actions) < TWO_TO_64
    ensures |Exec(w, actions).value.p.calls| == |w.p.calls| + StartActions(actions)
    decreases |actions|
  {
    if actions != [] {
      StepKeeps(w, actions[0]);
      CallsCounted(Step(w, actions[0]).value, actions[1..]);
    }
  }

  /** A scan that the frame has room for gets the next ID. */
  lemma ScanStepGetsId(s: P.State, a: nat, items: seq<Item>, s': P.State)
    requires a in s.calls && P.CallInv(s, a, s.calls[a]) && P.Step(s, P.Scan(a, Some(items))) == Some(s')
    requires |s.tables.Frame(s.calls[a].id)| < FRAME_LEN_LIMIT
    ensures a in s'.calls && s'.calls[a].accepted == s.tables.Frame(s.calls[a].id) + [|s.tables.iterators|]
  {
    P.StepCases(s, P.Scan(a, Some(items)));
    OwnAccepted(s, P.Scan(a, Some(items)), s');
  }

  lemma ScanShadow(w: World, scan: Action)
    requires Step(w, scan).Some? && scan.ScanCursor?
    ensures scan.id in w.m.cursors && Requests(w.m.cursors[scan.id], scan.start, scan.end, scan.reverse)
    ensures P.Step(w.p, P.Scan(scan.call, Some(Rest(w.m.cursors[scan.id])))) == Some(Step(w, scan).value.p)
    ensures Step(w, scan).value.cursorOf == w.cursorOf + [scan.id]
  {
  }

  lemma ScanOnce(w: World, scan: Action) returns (u: World)
    requires Inv(w) && scan.ScanCursor? && Step(w, scan).Some? && |w.p.calls| < TWO_TO_64
    requires scan.call in w.p.calls && |w.p.tables.Frame(w.p.calls[scan.call].id)| < FRAME_LEN_LIMIT
    ensures Step(w, scan) == Some(u) && Inv(u) && |u.p.calls| == |w.p.calls| && u.cursorOf == w.cursorOf + [scan.id]
    ensures scan.call in u.p.calls
    ensures u.p.calls[scan.call].accepted == w.p.tables.Frame(w.p.calls[scan.call].id) + [|w.cursorOf|]
    ensures scan.id in w.m.cursors && Requests(w.m.cursors[scan.id], scan.start, scan.end, scan.reverse)
  {
    u := Step(w, scan).value;
    ScanShadow(w, scan);
    assert P.CallInv(w.p, scan.call, w.p.calls[scan.call]);
    ScanStepGetsId(w.p, scan.call, Rest(w.m.cursors[scan.id]), u.p);
    StepKeeps(w, scan);
  }

  lemma ExecCons(w: World, x: Action, u: World, rest: seq<Action>)
    requires Step(w, x) == Some(u)
    ensures Exec(w, [x] + rest) == Exec(u, rest)
  {
    assert ([x] + rest)[1..] == rest;
  }

  /** Whatever follows, the scan's cursor stays behind that ID. */
  lemma ScanGetsId(w: World, scan: Action, after: seq<Action>, k: nat) returns (v: World)
    requires Inv(w) && scan.ScanCursor? && Exec(w, [scan] + after).Some? && |w.p.calls| + StartActions(after) < TWO_TO_64
    requires scan.call in w.p.calls && k == |w.p.tables.Frame(w.p.calls[scan.call].id)| < FRAME_LEN_LIMIT
    ensures Exec(w, [scan] + after) == Some(v)
    ensures scan.call in v.p.calls && k < |v.p.calls[scan.call].accepted|
    ensures v.p.calls[scan.call].accepted[k] < |v.cursorOf| && v.cursorOf[v.p.calls[scan.call].accepted[k]] == scan.id
    ensures scan.id in w.m.cursors && Requests(w.m.cursors[scan.id], scan.start, scan.end, scan.reverse)
  {
    assert Step(w, ([scan] + after)[0]).Some?;
    var u := ScanOnce(w, scan);
    ExecCons(w, scan, u, after);
    v := Exec(u, after).value;
    ExecExtends(u, after, scan.call);
    assert u.p.calls[scan.call].accepted[k] == |w.cursorOf| && u.cursorOf[|w.cursorOf|] == scan.id;
  }

  /** From a world in which a cursor shows some content, a scan of it delivers that content's range. */
  lemma ScanDelivers(w: World, scan: Action, after: seq<Action>, k: nat, items: seq<Item>)
    requires Inv(w) && Tracked(w) && |w.p.calls| + StartActions([scan] + after) < TWO_TO_64
    requires scan.ScanCursor? && Exec(w, [scan] + after).Some?
    requires scan.call in w.p.calls && k == |w.p.tables.Frame(w.p.calls[scan.call].id)| < FRAME_LEN_LIMIT
    requires scan.id in w.m.cursors && w.m.cursors[scan.id].snapshot == items
    ensures var q := Exec(w, [scan] + after).value.p;
            && scan.call in q.calls
            && var answers := Answers(q.calls[scan.call].log, k);
               NoPanic(answers) ==>
                 forall i :: 0 <= i < |answers| ==> Expected(answers[i], RangeOf(items, scan.start, scan.end, scan.reverse), i)
  {
    StartActionsAppend([scan], after);
    assert StartActions([scan]) == 0;
    var v := ScanGetsId(w, scan, after, k);
    ExecTracked(w, [scan] + after);
    RequestsStay(w, [scan] + after, scan.id);
    if NoPanic(Answers(v.p.calls[scan.call].log, k)) { SeenSoFar(v, scan.call, k); }
  }

  lemma StartAndTrack(db: seq<Item>, actions: seq<Action>) returns (w: World)
    requires Ascending(db) && Exec(Start(db), actions).Some? && StartActions(actions) < TWO_TO_64
    ensures Exec(Start(db), actions) == Some(w) && Inv(w) && Tracked(w) && |w.p.calls| == StartActions(actions)
  {
    StartTracked(db);
    ExecTracked(Start(db), actions);
    CallsCounted(Start(db), actions);
    w := Exec(Start(db), actions).value;
  }

  /** What a scan of the database as it is at some point has to deliver, in declarative terms. */
  lemma RecordsAt(db: seq<Item>, before: seq<Action>, create: M.Event, between: seq<Action>, scan: Action)
    requires Ascending(db) && scan.ScanCursor? && Exec(Start(db), before).Some?
    requires StartActions(before + [Db(create)] + between) < TWO_TO_64
    ensures var items := Exec(Start(db), before).value.m.items;
            var records := RangeOf(items, scan.start, scan.end, scan.reverse);
            && Sorted(records, scan.reverse)
            && forall x :: x in records <==> x in items && Within(x.key, scan.start, scan.end)
  {
    StartActionsAppend(before + [Db(create)], between);
    StartActionsAppend(before, [Db(create)]);
    var w := StartAndTrack(db, before);
    RangeOfCharacterized(w.m.items, scan.start, scan.end, scan.reverse);
  }

  /**
   * End to end, with nothing assumed of the iterators. Take any interleaving of contract calls,
   * writers, goroutines and closes over a database. Some cursor is created in it, and later a scan
   * of some call gets that cursor as its iterator, under iterator ID k. Then, whatever mix of next,
   * next_key and next_value the contract uses on k, the i-th answer carries the i-th record of the
   * range that the scan asked for, sorted or reversed, of the database as it was when the cursor
   * was created, and after the last record every answer is None. Range and order are those of the
   * lexicographic order of bytes. Only an iterator that itself
   * panicked is exempt.
   */
  lemma ScansDeliverSnapshots(
    db: seq<Item>, before: seq<Action>, create: M.Event, between: seq<Action>, scan: Action, after: seq<Action>, k: nat)
    requires Ascending(db) && create.Create? && !M.Rejected(create.start) && !M.Rejected(create.end)
    requires scan.ScanCursor? && scan.id == create.id
    requires Exec(Start(db), before).Some? && create.id !in Exec(Start(db), before).value.m.cursors
    requires var toScan := before + [Db(create)] + between;
             && Exec(Start(db), toScan).Some? && Exec(Start(db), toScan + ([scan] + after)).Some?
             && StartActions(toScan + ([scan] + after)) < TWO_TO_64
             && var p, q := Exec(Start(db), toScan).value.p, Exec(Start(db), toScan + ([scan] + after)).value.p;
                && scan.call in p.calls && k == |p.tables.Frame(p.calls[scan.call].id)| < FRAME_LEN_LIMIT
                && scan.call in q.calls && NoPanic(Answers(q.calls[scan.call].log, k))
    ensures var q := Exec(Start(db), before + [Db(create)] + between + ([scan] + after)).value.p;
            var answers := Answers(q.calls[scan.call].log, k);
            var items := Exec(Start(db), before).value.m.items;
            var records := RangeOf(items, scan.start, scan.end, scan.reverse);
            && (forall i :: 0 <= i < |answers| ==> Expected(answers[i], records, i))
            && Sorted(records, scan.reverse)
            && forall x :: x in records <==> x in items && Within(x.key, scan.start, scan.end)
  {
    var toScan, rest := before + [Db(create)] + between, [scan] + after;
    StartActionsAppend(toScan, rest);
    RecordsAt(db, before, create, between, scan);
    var w := StartAndTrack(db, toScan);
    ExecAppend(Start(db), toScan, rest);
    CreatedInRun(Start(db), before, create, between);
    ScanDelivers(w, scan, after, k, Exec(Start(db), before).value.m.items);
  }

  /**
   * In every run of the world: what counts as closed has been drained, holds no item and has a
   * closed channel, and so its goroutine holds the read lock no longer or is about to let go.
   */
  lemma ClosedIsDrained(db: seq<Item>, actions: seq<Action>, h: nat)
    requires Ascending(db) && Exec(Start(db), actions).Some? && StartActions(actions) < TWO_TO_64
    requires h < |Exec(Start(db), actions).value.p.tables.iterators|
    requires Exec(Start(db), actions).value.p.tables.iterators[h].closes > 0
    ensures var w := Exec(Start(db), actions).value;
            && h < |w.cursorOf| && w.cursorOf[h] in w.m.cursors
            && var c := CursorAt(w, h); c.consumer.Done? && c.item.None? && M.Closed(c.producer) && Releasable(c)
  {
    StartTracked(db);
    ExecTracked(Start(db), actions);
    var w := Exec(Start(db), actions).value;
    assert Mirrors(w.p.tables.iterators[h], CursorAt(w, h));
    assert M.CursorInv(w.m.items, CursorAt(w, h));
  }

  /** The protocol's events in a run of the world. */
  function Shadows(w: World, actions: seq<Action>): (r: seq<P.Event>)
    requires Exec(w, actions).Some?
    decreases |actions|
  {
    if actions == [] then []
    else
      (if Shadow(w, actions[0]).Some? then [Shadow(w, actions[0]).value] else [])
      + Shadows(Step(w, actions[0]).value, actions[1..])
  }

  /** Every run of the world is a run of the protocol, so all that holds of those runs holds here. */
  lemma {:induction false} RunsAreProtocolRuns(w: World, actions: seq<Action>)
    requires Inv(w) && Exec(w, actions).Some? && |w.p.calls| + StartActions(actions) < TWO_TO_64
    ensures P.Exec(w.p, Shadows(w, actions)) == Some(Exec(w, actions).value.p)
    decreases |actions|
  {
    if actions != [] {
      var v := Step(w, actions[0]).value;
      StepKeeps(w, actions[0]);
      StepShadows(w, actions[0]);
      RunsAreProtocolRuns(v, actions[1..]);
      var rest := Shadows(v, actions[1..]);
      match Shadow(w, actions[0])
      case None => assert Shadows(w, actions) == [] + rest == rest;
      case Some(e) => assert ([e] + rest)[1..] == rest;
    }
  }

  lemma StartTracked(db: seq<Item>)
    requires Ascending(db)
    ensures Inv(Start(db)) && Tracked(Start(db))
  {
  }
}
