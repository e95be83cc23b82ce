/** A run of the whole world: one record, scanned, read, and its end seen. */
module SampleRun {
  import opened ByteStrings
  import opened Ranges
  import opened Traversal
  import opened IteratorFrames
  import P = Protocol
  import M = Snapshot
  import opened EndToEnd
  import opened FullRuns

  const CREATE := M.Create(0, None, None, false)
  const SCAN := ScanCursor(7, 0, None, None, false)

  /** The goroutine sends its item and closes the channel, the iterator is primed, a call starts. */
  const BETWEEN :=
    [Db(M.Advance(0, false)), Db(M.Receive(0)), Db(M.Advance(0, false)), Db(M.CloseChannel(0)), ByCall(P.Start(7))]

  /** The call asks for a record, then for a key. */
  const AFTER :=
    [ByCall(P.Lookup(7, 0, P.Record)), UseCursor(7, P.Runs), ByCall(P.Lookup(7, 0, P.KeyOnly)), UseCursor(7, P.Runs)]

  /** The primed cursor. */
  function Primed(x: Item): (c: M.Cursor) {
    M.Cursor(None, None, false, M.ChannelClosed, [], false, M.Open, Some(x), [x], [x])
  }

  function One(x: Item, c: M.Cursor): (m: M.State) { M.State([x], map[0 := c]) }

  const STARTED := P.State(Tables(1, map[], []), map[7 := P.Call(1, map[], P.Idle, [], [])], map[], map[1 := 7])

  /** The protocol state after the scan, with the call in a given phase and with given observations. */
  function Calling(rest: seq<Item>, phase: P.Phase, log: seq<P.Answer>): (p: P.State) {
    P.State(Tables(1, map[1 := [0]], [GoIterator(rest, 0)]),
            map[7 := P.Call(1, map[0 := P.IteratorReference(1, 1)], phase, log, [0])],
            map[0 := (7, 0)], map[1 := 7])
  }

  function Shown(x: Item): (a: P.Answer) { P.Delivered(0, P.Record, Some(P.ShownRecord(x))) }

  lemma WholeRest(x: Item)
    ensures Rest(Primed(x)) == [x]
  {
    assert Ascending([x]);
    WalkIsRange([x], None, None, false);
    assert [x][1..] == [];
    assert Filter([x], None, None) == [x] + Filter([], None, None);
  }

  lemma DbCons(p: P.State, m: M.State, e: M.Event, n: M.State, rest: seq<Action>)
    requires DbEvent(m, e) && M.Step(m, e) == Some(n)
    ensures Exec(World(p, m, []), [Db(e)] + rest) == Exec(World(p, n, []), rest)
  {
    ExecCons(World(p, m, []), Db(e), World(p, n, []), rest);
  }

  lemma CallStarts(m: M.State)
    ensures Exec(World(P.Init, m, []), [ByCall(P.Start(7))] + []) == Some(World(STARTED, m, []))
  {
    assert P.Step(P.Init, P.Start(7)) == Some(STARTED);
    ExecCons(World(P.Init, m, []), ByCall(P.Start(7)), World(STARTED, m, []), []);
  }

  lemma Prepared(x: Item)
    ensures Exec(Start([x]), [Db(CREATE)] + BETWEEN) == Some(World(STARTED, One(x, Primed(x)), []))
  {
    var c0, c1, c2, c3, c4, _ := M.OneItemWalk(x);
    var r5 := [ByCall(P.Start(7))] + [];
    CallStarts(One(x, c4));
    var r4 := [Db(M.CloseChannel(0))] + r5;
    DbCons(P.Init, One(x, c3), M.CloseChannel(0), One(x, c4), r5);
    var r3 := [Db(M.Advance(0, false))] + r4;
    DbCons(P.Init, One(x, c2), M.Advance(0, false), One(x, c3), r4);
    var r2 := [Db(M.Receive(0))] + r3;
    DbCons(P.Init, One(x, c1), M.Receive(0), One(x, c2), r3);
    var r1 := [Db(M.Advance(0, false))] + r2;
    DbCons(P.Init, One(x, c0), M.Advance(0, false), One(x, c1), r2);
    DbCons(P.Init, M.State([x], map[]), CREATE, One(x, c0), r1);
    assert BETWEEN == r1;
  }

  lemma ScanStores(rest: seq<Item>)
    ensures P.Step(STARTED, P.Scan(7, Some(rest))) == Some(Calling(rest, P.Idle, [P.Scanned(0)]))
  {
    var t := STARTED.tables.Create(rest);
    var u := Calling(rest, P.Idle, [P.Scanned(0)]).tables;
    assert t.Frame(1) + [0] == [0] && t.frames[1 := [0]] == u.frames && t.iterators == u.iterators;
    assert t.Store(1, 0, FRAME_LEN_LIMIT) == (u, Stored(1));
    var c := STARTED.calls[7];
    assert c.accepted + [0] == [0] && c.log + [P.Scanned(0)] == [P.Scanned(0)];
    assert c.rust[0 := P.IteratorReference(1, 1)] == map[0 := P.IteratorReference(1, 1)];
    assert STARTED.home[0 := (7, 0)] == map[0 := (7, 0)];
    assert P.ScanStep(STARTED, 7, Some(rest)).calls == Calling(rest, P.Idle, [P.Scanned(0)]).calls;
  }

  /** The scan is given iterator ID 1, the first in its frame, and contract-side ID 0. */
  lemma Scans(x: Item)
    ensures Step(World(STARTED, One(x, Primed(x)), []), SCAN)
            == Some(World(Calling([x], P.Idle, [P.Scanned(0)]), One(x, Primed(x)), [0]))
  {
    WholeRest(x);
    ScanStores([x]);
  }

  lemma LooksUp(x: Item, c: M.Cursor, rest: seq<Item>, kind: P.Kind, log: seq<P.Answer>)
    ensures Step(World(Calling(rest, P.Idle, log), One(x, c), [0]), ByCall(P.Lookup(7, 0, kind)))
            == Some(World(Calling(rest, P.Holding(0, 0, kind), log), One(x, c), [0]))
  {
    var p, q := Calling(rest, P.Idle, log), Calling(rest, P.Holding(0, 0, kind), log);
    assert p.tables.Retrieve(1, 1) == Some(0);
    assert P.Becomes(p, 7, q.calls[7]).calls == q.calls;
  }

  lemma Reads(x: Item, log: seq<P.Answer>)
    ensures Step(World(Calling([x], P.Holding(0, 0, P.Record), log), One(x, Primed(x)), [0]), UseCursor(7, P.Runs))
            == Some(World(Calling([], P.Idle, log + [Shown(x)]), One(x, Primed(x).(item := None)), [0]))
  {
    var p, q := Calling([x], P.Holding(0, 0, P.Record), log), Calling([], P.Idle, log + [Shown(x)]);
    assert [x][1..] == [];
    assert p.tables.Advance(0) == q.tables;
    M.OnlyCursorStep([x], Primed(x), M.Receive(0), Primed(x).(item := None));
    assert Moved(Answered(p, 7, Shown(x)), 0).calls == q.calls;
  }

  lemma SeesEnd(x: Item, c: M.Cursor, kind: P.Kind, log: seq<P.Answer>)
    requires c.item.None?
    ensures Step(World(Calling([], P.Holding(0, 0, kind), log), One(x, c), [0]), UseCursor(7, P.Runs))
            == Some(World(Calling([], P.Idle, log + [P.Delivered(0, kind, None)]), One(x, c), [0]))
  {
    var p, q := Calling([], P.Holding(0, 0, kind), log), Calling([], P.Idle, log + [P.Delivered(0, kind, None)]);
    assert Answered(p, 7, P.Delivered(0, kind, None)).calls == q.calls;
  }

  /** From the scan on: the record, and then the end. */
  lemma Delivers(x: Item) returns (w: World)
    ensures Exec(World(STARTED, One(x, Primed(x)), []), [SCAN] + AFTER) == Some(w)
    ensures 7 in w.p.calls
            && w.p.calls[7].log == [P.Scanned(0)] + [Shown(x)] + [P.Delivered(0, P.KeyOnly, None)]
  {
    var c, d := Primed(x), Primed(x).(item := None);
    var l0, l1 := [P.Scanned(0)], [P.Scanned(0)] + [Shown(x)];
    var l2 := l1 + [P.Delivered(0, P.KeyOnly, None)];
    w := World(Calling([], P.Idle, l2), One(x, d), [0]);
    SeesEnd(x, d, P.KeyOnly, l1);
    ExecCons(World(Calling([], P.Holding(0, 0, P.KeyOnly), l1), One(x, d), [0]), UseCursor(7, P.Runs), w, []);
    var r4 := [UseCursor(7, P.Runs)] + [];
    LooksUp(x, d, [], P.KeyOnly, l1);
    ExecCons(World(Calling([], P.Idle, l1), One(x, d), [0]), ByCall(P.Lookup(7, 0, P.KeyOnly)),
             World(Calling([], P.Holding(0, 0, P.KeyOnly), l1), One(x, d), [0]), r4);
    var r3 := [ByCall(P.Lookup(7, 0, P.KeyOnly))] + r4;
    Reads(x, l0);
    ExecCons(World(Calling([x], P.Holding(0, 0, P.Record), l0), One(x, c), [0]), UseCursor(7, P.Runs),
             World(Calling([], P.Idle, l1), One(x, d), [0]), r3);
    var r2 := [UseCursor(7, P.Runs)] + r3;
    LooksUp(x, c, [x], P.Record, l0);
    ExecCons(World(Calling([x], P.Idle, l0), One(x, c), [0]), ByCall(P.Lookup(7, 0, P.Record)),
             World(Calling([x], P.Holding(0, 0, P.Record), l0), One(x, c), [0]), r2);
    Scans(x);
    ExecCons(World(STARTED, One(x, c), []), SCAN, World(Calling([x], P.Idle, l0), One(x, c), [0]), AFTER);
    assert AFTER == [ByCall(P.Lookup(7, 0, P.Record))] + r2;
  }

  lemma Whole(x: Item) returns (w: World)
    ensures Exec(Start([x]), [Db(CREATE)] + BETWEEN + ([SCAN] + AFTER)) == Some(w) && 7 in w.p.calls
    ensures Answers(w.p.calls[7].log, 0) == [Shown(x), P.Delivered(0, P.KeyOnly, None)]
  {
    Prepared(x);
    w := Delivers(x);
    ExecAppend(Start([x]), [Db(CREATE)] + BETWEEN, [SCAN] + AFTER);
    AnswersAppend([P.Scanned(0)] + [Shown(x)], P.Delivered(0, P.KeyOnly, None), 0);
    AnswersAppend([P.Scanned(0)], Shown(x), 0);
    AnswersAppend([], P.Scanned(0), 0);
  }

  lemma {:induction false} NoStarts(actions: seq<Action>)
    requires forall i :: 0 <= i < |actions| ==> !StartAction(actions[i])
    ensures StartActions(actions) == 0
  {
    if actions != [] {
      assert forall i :: 0 <= i < |actions[1..]| ==> actions[1..][i] == actions[i + 1];
      NoStarts(actions[1..]);
    }
  }

  lemma OneStart()
    ensures StartActions([] + [Db(CREATE)] + BETWEEN + ([SCAN] + AFTER)) == 1
  {
    var ready := [Db(M.Advance(0, false)), Db(M.Receive(0)), Db(M.Advance(0, false)), Db(M.CloseChannel(0))];
    StartActionsAppend(ready, [ByCall(P.Start(7))]);
    assert ready + [ByCall(P.Start(7))] == BETWEEN;
    NoStarts(ready);
    NoStarts([SCAN] + AFTER);
    StartActionsAppend([Db(CREATE)], BETWEEN);
    StartActionsAppend([Db(CREATE)] + BETWEEN, [SCAN] + AFTER);
    assert [] + [Db(CREATE)] + BETWEEN == [Db(CREATE)] + BETWEEN;
  }

  /**
   * A database of one record, whichever it is: the iterator is created and primed, and a call
   * scans, reads the record and sees the end. ScansDeliverSnapshots speaks of this run.
   */
  lemma OneRecordRun(x: Item) returns (w: World)
    ensures Exec(Start([x]), [Db(CREATE)] + BETWEEN + ([SCAN] + AFTER)) == Some(w) && 7 in w.p.calls
    ensures Answers(w.p.calls[7].log, 0) == [Shown(x), P.Delivered(0, P.KeyOnly, None)]
    ensures var answers := Answers(w.p.calls[7].log, 0);
            forall i :: 0 <= i < |answers| ==> Expected(answers[i], RangeOf([x], None, None, false), i)
  {
    Prepared(x);
    w := Whole(x);
    OneStart();
    var before: seq<Action> := [];
    assert before + [Db(CREATE)] + BETWEEN == [Db(CREATE)] + BETWEEN;
    ScansDeliverSnapshots([x], before, CREATE, BETWEEN, SCAN, AFTER, 0);
  }
}
