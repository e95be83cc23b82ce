/**
 * Nothing gets stuck: a pending Next is served by the goroutine behind the iterator, and a call
 * that has begun to close its iterators gets to its end.
 */
module Progress {
  import opened ByteStrings
  import opened Ranges
  import opened Traversal
  import opened IteratorFrames
  import opened Snapshot
  import opened ReadLock
  import P = Protocol
  import W = FullRuns

  // Next.

  /** The constructor, or Next on a valid iterator, is receiving from the channel. */
  predicate Waiting(c: Cursor) { !c.cancelled && (c.consumer.Priming? || (c.consumer.Open? && c.item.Some?)) }

  lemma GoroutineStepCounts(w: Walk, c: Cursor, e: Event)
    requires CursorStep(w, c, e).Some? && GoroutineStep(e)
    ensures !c.producer.Unlocked?
    ensures StepsLeft(CursorStep(w, c, e).value.producer, w) < StepsLeft(c.producer, w)
            || (c.producer.Walking? && c.producer.pos > |w.order|)
  {
  }

  lemma StepsLeftBounds(items: seq<Item>, c: Cursor)
    requires WalkInv(items, c, WalkOf(c))
    ensures StepsLeft(c.producer, WalkOf(c)) >= 0
    ensures StepsLeft(c.producer, WalkOf(c)) == 0 ==> Closed(c.producer)
  {
  }

  /** While the channel is empty and open, the goroutine can take a step. */
  lemma GoroutineCanMove(s: State, id: nat)
    requires Inv(s) && id in s.cursors && Waiting(s.cursors[id]) && ReceiveStep(s.cursors[id]).None?
    ensures GoroutineStep(ReleaseMove(s.cursors[id], id)) && Step(s, ReleaseMove(s.cursors[id], id)).Some?
  {
    assert CursorInv(s.items, s.cursors[id]);
  }

  lemma WaitsOn(s: State, e: Event, id: nat)
    requires Inv(s) && id in s.cursors && Waiting(s.cursors[id]) && Step(s, e).Some? && !ConsumerStep(e, id)
    ensures id in Step(s, e).value.cursors
    ensures var c, d := s.cursors[id], Step(s, e).value.cursors[id];
            && Waiting(d) && WalkOf(d) == WalkOf(c)
            && StepsLeft(d.producer, WalkOf(d)) + (if OwnStep(e, id) then 1 else 0) <= StepsLeft(c.producer, WalkOf(c))
  {
    if OwnStep(e, id) {
      StepHere(s, e, id);
      var c := s.cursors[id];
      assert CursorInv(s.items, c);
      var now := ChooseWalk(s.items, c.start, c.end, c.reverse);
      GoroutineKeepsDeliveries(now, c, e);
      GoroutineStepCounts(now, c, e);
    } else {
      StepElsewhere(s, e, id);
    }
  }

  /**
   * A pending receive is served under every schedule: as long as it is not, the goroutine can take
   * a step, and after at most StepsLeft steps of it, whatever is interleaved, it is.
   */
  lemma {:induction false} NextIsServed(s: State, run: seq<Event>, id: nat)
    requires Inv(s) && id in s.cursors && Waiting(s.cursors[id]) && WithoutConsumer(run, id) && Exec(s, run).Some?
    ensures id in Exec(s, run).value.cursors
    ensures var c, d := s.cursors[id], Exec(s, run).value.cursors[id];
            && Waiting(d)
            && (ReceiveStep(d).Some? || Step(Exec(s, run).value, ReleaseMove(d, id)).Some?)
            && OwnSteps(run, id) <= StepsLeft(c.producer, WalkOf(c))
            && (OwnSteps(run, id) == StepsLeft(c.producer, WalkOf(c)) ==> ReceiveStep(d).Some?)
    decreases |run|
  {
    if run == [] {
      assert CursorInv(s.items, s.cursors[id]);
      StepsLeftBounds(s.items, s.cursors[id]);
      if ReceiveStep(s.cursors[id]).None? { GoroutineCanMove(s, id); }
    } else {
      WaitsOn(s, run[0], id);
      StepKeeps(s, run[0]);
      assert forall i :: 0 <= i < |run[1..]| ==> run[1..][i] == run[i + 1];
      NextIsServed(Step(s, run[0]).value, run[1..], id);
    }
  }

  // The end of a call.

  /** The invariant, for proofs that only pass it on. */
  ghost predicate Sound(w: W.World) { forall v {:trigger W.Inv(v)} :: v == w ==> W.Inv(v) }

  /** A run, for proofs that only put runs together. */
  ghost predicate Leads(w: W.World, run: seq<W.Action>, u: W.World) {
    forall v {:trigger W.Exec(v, run)} :: v == w ==> W.Exec(v, run) == Some(u)
  }

  lemma LeadsCons(w: W.World, x: W.Action, v: W.World, more: seq<W.Action>, u: W.World)
    requires W.Step(w, x) == Some(v) && Leads(v, more, u)
    ensures Leads(w, [x] + more, u)
  {
    W.ExecCons(w, x, v, more);
    assert W.Exec(v, more) == Some(u);
  }

  ghost predicate InCloseLoop(w: W.World, a: nat) { a in w.p.calls && w.p.calls[a].phase.Closing? }

  /** The cursor that the close loop of a call is at. */
  ghost predicate AtCursor(w: W.World, a: nat, id: nat) {
    && InCloseLoop(w, a) && w.p.calls[a].phase.next < |w.p.calls[a].phase.frame|
    && w.p.calls[a].phase.frame[w.p.calls[a].phase.next] < |w.cursorOf|
    && w.cursorOf[w.p.calls[a].phase.frame[w.p.calls[a].phase.next]] == id && id in w.m.cursors
  }

  lemma LoopHasCursor(w: W.World, a: nat) returns (id: nat)
    requires Sound(w) && InCloseLoop(w, a) && w.p.calls[a].phase.next < |w.p.calls[a].phase.frame|
    ensures AtCursor(w, a, id) && !w.m.cursors[id].consumer.Priming?
    ensures w.m.cursors[id].cancelled <==> Closing(w.m.cursors[id])
  {
    assert W.Inv(w) && P.CallInv(w.p, a, w.p.calls[a]);
    var c := w.p.calls[a];
    var h := c.phase.frame[c.phase.next];
    assert c.accepted[c.phase.next] == h;
    id := w.cursorOf[h];
    assert W.Mirrors(w.p.tables.iterators[h], W.CursorAt(w, h));
    assert CursorInv(w.m.items, w.m.cursors[id]);
  }

  lemma StaysSound(w: W.World, x: W.Action, v: W.World)
    requires Sound(w) && W.Step(w, x) == Some(v) && !W.StartAction(x)
    ensures Sound(v)
  {
    assert W.Inv(w);
    W.StepKeeps(w, x);
  }

  lemma CancelEnabled(w: W.World, a: nat, id: nat)
    requires AtCursor(w, a, id) && w.m.cursors[id].consumer.Open?
    ensures Step(w.m, Cancel(id)).Some? && W.Step(w, W.CancelNext(a)) == Some(w.(m := Step(w.m, Cancel(id)).value))
  {
  }

  lemma CancelOnce(w: W.World, a: nat, id: nat) returns (v: W.World)
    requires Sound(w) && AtCursor(w, a, id) && w.m.cursors[id].consumer.Open?
    ensures W.Step(w, W.CancelNext(a)) == Some(v) && Sound(v) && AtCursor(v, a, id) && v.p == w.p
    ensures v.m.cursors[id].consumer.Draining?
  {
    CancelEnabled(w, a, id);
    W.CancelDb(w.m, id);
    v := w.(m := Step(w.m, Cancel(id)).value);
    StaysSound(w, W.CancelNext(a), v);
  }

  /** A turn of the drain loop, or a step of the goroutine it waits for. */
  lemma DrainDb(m: State, id: nat) returns (e: Event, m': State)
    requires Inv(m) && id in m.cursors && m.cursors[id].consumer.Draining?
    ensures Step(m, e) == Some(m') && W.DbEvent(m, e) && id in m'.cursors && Closing(m'.cursors[id])
    ensures 0 <= Work(m'.cursors[id], WalkOf(m'.cursors[id])) < Work(m.cursors[id], WalkOf(m.cursors[id]))
  {
    assert CursorInv(m.items, m.cursors[id]);
    e := CloseMove(m.cursors[id], id);
    CloseMoveEnabled(m, id);
    m' := Step(m, e).value;
    StepKeeps(m, e);
    ClosingStep(m, e, id);
    assert CursorInv(m'.items, m'.cursors[id]);
    WorkLeft(m'.items, m'.cursors[id], WalkOf(m'.cursors[id]));
  }

  lemma DrainOnce(w: W.World, a: nat, id: nat) returns (e: Event, v: W.World)
    requires Sound(w) && AtCursor(w, a, id) && w.m.cursors[id].consumer.Draining?
    ensures W.Step(w, W.Db(e)) == Some(v) && Sound(v) && AtCursor(v, a, id) && v.p == w.p
    ensures Closing(v.m.cursors[id])
    ensures 0 <= Work(v.m.cursors[id], WalkOf(v.m.cursors[id])) < Work(w.m.cursors[id], WalkOf(w.m.cursors[id]))
  {
    SoundDb(w);
    var m;
    e, m := DrainDb(w.m, id);
    v := w.(m := m);
    StaysSound(w, W.Db(e), v);
  }

  lemma SoundDb(w: W.World)
    requires Sound(w)
    ensures Inv(w.m)
  {
    assert W.Inv(w);
  }

  lemma CloseEnabled(w: W.World, a: nat, id: nat)
    requires AtCursor(w, a, id) && w.m.cursors[id].consumer.Done? && W.Attached(w)
    ensures var v := w.(p := P.CloseStep(w.p, a));
            && W.Step(w, W.ByCall(P.CloseNext(a))) == Some(v) && InCloseLoop(v, a)
            && v.p.calls[a].phase == w.p.calls[a].phase.(next := w.p.calls[a].phase.next + 1)
  {
    assert W.NextIsDone(w, a);
  }

  lemma SoundAttached(w: W.World)
    requires Sound(w)
    ensures W.Attached(w)
  {
    assert W.Inv(w);
  }

  lemma CloseOnce(w: W.World, a: nat, id: nat) returns (v: W.World)
    requires Sound(w) && AtCursor(w, a, id) && w.m.cursors[id].consumer.Done?
    ensures W.Step(w, W.ByCall(P.CloseNext(a))) == Some(v) && Sound(v) && InCloseLoop(v, a)
    ensures v.p.calls[a].phase == w.p.calls[a].phase.(next := w.p.calls[a].phase.next + 1)
  {
    SoundAttached(w);
    CloseEnabled(w, a, id);
    v := w.(p := P.CloseStep(w.p, a));
    StaysSound(w, W.ByCall(P.CloseNext(a)), v);
  }

  lemma LoopBounded(w: W.World, a: nat)
    requires Sound(w) && InCloseLoop(w, a)
    ensures w.p.calls[a].phase.next <= |w.p.calls[a].phase.frame|
  {
    assert W.Inv(w) && P.CallInv(w.p, a, w.p.calls[a]);
  }

  lemma FinishOnce(w: W.World, a: nat) returns (v: W.World)
    requires Sound(w) && InCloseLoop(w, a) && w.p.calls[a].phase.next >= |w.p.calls[a].phase.frame|
    ensures W.Step(w, W.ByCall(P.Finish(a))) == Some(v) && a in v.p.calls && v.p.calls[a].phase.Ended?
  {
    LoopBounded(w, a);
    v := w.(p := P.EndStep(w.p, a));
  }

  /** Close of one iterator: cancel, drain, done. */
  lemma {:induction false} Drained(w: W.World, a: nat, id: nat) returns (run: seq<W.Action>, u: W.World)
    requires Sound(w) && AtCursor(w, a, id) && Closing(w.m.cursors[id])
    ensures Leads(w, run, u) && Sound(u) && AtCursor(u, a, id) && u.p == w.p && u.m.cursors[id].consumer.Done?
    decreases Work(w.m.cursors[id], WalkOf(w.m.cursors[id]))
  {
    if w.m.cursors[id].consumer.Done? {
      run, u := [], w;
    } else {
      var e, v := DrainOnce(w, a, id);
      var more;
      more, u := Drained(v, a, id);
      run := [W.Db(e)] + more;
      LeadsCons(w, W.Db(e), v, more, u);
    }
  }

  lemma ClosedNext(w: W.World, a: nat, id: nat) returns (run: seq<W.Action>, u: W.World)
    requires Sound(w) && AtCursor(w, a, id) && (w.m.cursors[id].consumer.Open? || Closing(w.m.cursors[id]))
    ensures Leads(w, run, u) && Sound(u) && AtCursor(u, a, id) && u.p == w.p && u.m.cursors[id].consumer.Done?
  {
    if w.m.cursors[id].consumer.Open? {
      var v := CancelOnce(w, a, id);
      var more;
      more, u := Drained(v, a, id);
      run := [W.CancelNext(a)] + more;
      LeadsCons(w, W.CancelNext(a), v, more, u);
    } else {
      run, u := Drained(w, a, id);
    }
  }

  lemma LeadsAppend(w: W.World, a: seq<W.Action>, v: W.World, b: seq<W.Action>, u: W.World)
    requires Leads(w, a, v) && Leads(v, b, u)
    ensures Leads(w, a + b, u)
  {
    assert W.Exec(w, a) == Some(v) && W.Exec(v, b) == Some(u);
    W.ExecAppend(w, a, b);
  }

  lemma {:induction false} LoopEnds(w: W.World, a: nat) returns (run: seq<W.Action>, u: W.World)
    requires Sound(w) && InCloseLoop(w, a)
    ensures Leads(w, run, u) && a in u.p.calls && u.p.calls[a].phase.Ended?
    decreases |w.p.calls[a].phase.frame| - w.p.calls[a].phase.next
  {
    if w.p.calls[a].phase.next >= |w.p.calls[a].phase.frame| {
      u := FinishOnce(w, a);
      run := [W.ByCall(P.Finish(a))] + [];
      LeadsCons(w, W.ByCall(P.Finish(a)), u, [], u);
    } else {
      var id := LoopHasCursor(w, a);
      var first, v := ClosedNext(w, a, id);
      var x := CloseOnce(v, a, id);
      var more;
      more, u := LoopEnds(x, a);
      LeadsCons(v, W.ByCall(P.CloseNext(a)), x, more, u);
      run := first + ([W.ByCall(P.CloseNext(a))] + more);
      LeadsAppend(w, first, v, [W.ByCall(P.CloseNext(a))] + more, u);
    }
  }

  /**
   * A call in its close loop is never stuck: from every world, its own steps and those of the
   * goroutines it closes take it through the rest of the loop to its end.
   */
  lemma CloseLoopEnds(w: W.World, a: nat) returns (run: seq<W.Action>, u: W.World)
    requires W.Inv(w) && a in w.p.calls && w.p.calls[a].phase.Closing?
    ensures W.Exec(w, run) == Some(u) && a in u.p.calls && u.p.calls[a].phase.Ended?
  {
    run, u := LoopEnds(w, a);
  }
}
