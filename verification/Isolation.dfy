/**
 * What a contract call observes, told without any table: a session holds the cursors of its own
 * scans and nothing else. The interleaved machine refines one independent session per call.
 */
module Isolation {
  import opened ByteStrings
  import opened Ranges
  import opened IteratorFrames
  import opened Protocol

  datatype Stage = Ready | Asked(rustId: nat, kind: Kind) | Shutting(left: nat) | Over

  datatype Session = Session(cursors: seq<seq<Item>>, stage: Stage, log: seq<Answer>)

  const NewSession := Session([], Ready, [])

  function SessionScan(q: Session, items: Option<seq<Item>>): (r: Session) {
    if items.None? then q.(log := q.log + [ScanFailed])
    else if |q.cursors| < FRAME_LEN_LIMIT then
      q.(cursors := q.cursors + [items.value], log := q.log + [Scanned(|q.cursors|)])
    else q.(log := q.log + [LimitHit])
  }

  function SessionUse(q: Session, fate: Fate): (r: Session)
    requires q.stage.Asked? && q.stage.rustId < |q.cursors|
  {
    var Asked(k, kind) := q.stage;
    var rest := q.cursors[k];
    if rest == [] then q.(stage := Ready, log := q.log + [Delivered(k, kind, None)])
    else match fate
      case Runs =>
        Session(q.cursors[k := rest[1..]], Ready, q.log + [Delivered(k, kind, Some(Project(kind, rest[0])))])
      case PanicsBefore => Session(q.cursors, Ready, q.log + [Panicked(k)])
      case PanicsAfter => Session(q.cursors[k := rest[1..]], Ready, q.log + [Panicked(k)])
  }

  function SessionStep(q: Session, e: Event): (r: Option<Session>) {
    match e
    case Start(_) => None
    case Scan(_, items) => if q.stage.Ready? then Some(SessionScan(q, items)) else None
    case Lookup(_, rustId, kind) =>
      if !q.stage.Ready? then None
      else if rustId < |q.cursors| then Some(q.(stage := Asked(rustId, kind)))
      else Some(q.(log := q.log + [NoIterator(rustId)]))
    case Use(_, fate) =>
      if q.stage.Asked? && q.stage.rustId < |q.cursors| then Some(SessionUse(q, fate)) else None
    case Remove(_) => if q.stage.Ready? then Some(q.(stage := Shutting(|q.cursors|))) else None
    case CloseNext(_) =>
      if q.stage.Shutting? && q.stage.left > 0 then Some(q.(stage := Shutting(q.stage.left - 1))) else None
    case Finish(_) => if q.stage == Shutting(0) then Some(q.(stage := Over)) else None
    case Unwind(_) => if q.stage.Shutting? && q.stage.left < |q.cursors| then Some(q.(stage := Over)) else None
  }

  function SessionExec(q: Session, events: seq<Event>): (r: Option<Session>)
    decreases |events|
  {
    if events == [] then Some(q)
    else match SessionStep(q, events[0])
      case None => None
      case Some(p) => SessionExec(p, events[1..])
  }

  /** The session that a call of the interleaved machine is in. */
  ghost function Abs(s: State, a: nat): (q: Session)
    requires a in s.calls && CallInv(s, a, s.calls[a])
  {
    var c := s.calls[a];
    Session(
      seq(|c.accepted|, k requires 0 <= k < |c.accepted| => s.tables.iterators[c.accepted[k]].rest),
      match c.phase
      case Idle => Ready
      case Holding(_, rustId, kind) => Asked(rustId, kind)
      case Closing(frame, next) => Shutting(|frame| - next)
      case Ended(_) => Over,
      c.log)
  }

  /** Steps of other calls are invisible. */
  lemma OthersInvisible(s: State, s': State, a: nat, b: nat)
    requires OnlyTouches(s, s', a) && b in s.calls && b != a && b in s'.calls
    requires CallInv(s', b, s'.calls[b]) && CallInv(s, b, s.calls[b])
    ensures Abs(s', b) == Abs(s, b)
  {
    var c := s.calls[b];
    assert s'.calls[b] == c;
    forall k | 0 <= k < |c.accepted|
      ensures s'.tables.iterators[c.accepted[k]] == s.tables.iterators[c.accepted[k]]
    {
      assert s.home[c.accepted[k]] == (b, k);
    }
  }

  lemma AcceptedRefines(s: State, s': State, a: nat, items: seq<Item>)
    requires a in s.calls && s.calls[a].phase.Idle? && CallInv(s, a, s.calls[a])
    requires a in s'.calls && s'.calls[a].phase.Idle? && CallInv(s', a, s'.calls[a])
    requires s'.calls[a].accepted == s.calls[a].accepted + [|s.tables.iterators|]
    requires s'.tables.iterators == s.tables.iterators + [GoIterator(items, 0)]
    ensures Abs(s', a).cursors == Abs(s, a).cursors + [items]
  {
    var c := s.calls[a];
    assert forall k :: 0 <= k < |c.accepted| ==> s'.calls[a].accepted[k] == c.accepted[k];
  }

  lemma RefusedRefines(s: State, s': State, a: nat)
    requires a in s.calls && s.calls[a].phase.Idle? && CallInv(s, a, s.calls[a])
    requires a in s'.calls && s'.calls[a].phase.Idle? && CallInv(s', a, s'.calls[a])
    requires s'.calls[a].accepted == s.calls[a].accepted && s.tables.iterators <= s'.tables.iterators
    ensures Abs(s', a).cursors == Abs(s, a).cursors
  {
  }

  lemma ScanRefines(s: State, a: nat, items: Option<seq<Item>>)
    requires a in s.calls && s.calls[a].phase.Idle? && CallInv(s, a, s.calls[a])
    requires var s' := ScanStep(s, a, items); CallInv(s', a, s'.calls[a])
    ensures Abs(ScanStep(s, a, items), a) == SessionScan(Abs(s, a), items)
  {
    var s' := ScanStep(s, a, items);
    if items.Some? && |s.calls[a].accepted| < FRAME_LEN_LIMIT {
      ScanAccepts(s, a, items.value);
      AcceptedRefines(s, s', a, items.value);
    } else {
      ScanRefuses(s, a, items);
      RefusedRefines(s, s', a);
    }
  }

  lemma UseRefines(s: State, a: nat, fate: Fate)
    requires a in s.calls && s.calls[a].phase.Holding? && CallInv(s, a, s.calls[a])
    requires var s' := UseStep(s, a, fate); CallInv(s', a, s'.calls[a])
    ensures Abs(UseStep(s, a, fate), a) == SessionUse(Abs(s, a), fate)
  {
    var c := s.calls[a];
    var s' := UseStep(s, a, fate);
    var r := c.phase.rustId;
    forall k | 0 <= k < |c.accepted| && k != r ensures c.accepted[k] != c.accepted[r] {
      assert s.home[c.accepted[k]] == (a, k);
    }
    assert Abs(s', a).cursors == SessionUse(Abs(s, a), fate).cursors;
  }

  lemma LookupRefines(s: State, a: nat, rustId: nat, kind: Kind)
    requires a in s.calls && s.calls[a].phase.Idle? && CallInv(s, a, s.calls[a])
    requires var s' := Becomes(s, a, LookupStep(s.tables, s.calls[a], rustId, kind)); CallInv(s', a, s'.calls[a])
    ensures Some(Abs(Becomes(s, a, LookupStep(s.tables, s.calls[a], rustId, kind)), a))
            == SessionStep(Abs(s, a), Lookup(a, rustId, kind))
  {
    LookupOwn(s, a, rustId, kind);
    assert Abs(Becomes(s, a, LookupStep(s.tables, s.calls[a], rustId, kind)), a).cursors == Abs(s, a).cursors;
  }

  lemma SameCursors(s: State, s': State, a: nat)
    requires a in s.calls && CallInv(s, a, s.calls[a]) && a in s'.calls && CallInv(s', a, s'.calls[a])
    requires s'.calls[a].accepted == s.calls[a].accepted
    requires forall h :: 0 <= h < |s.tables.iterators| && h < |s'.tables.iterators| ==>
               s'.tables.iterators[h].rest == s.tables.iterators[h].rest
    ensures Abs(s', a).cursors == Abs(s, a).cursors
  {
  }

  lemma RemoveRefines(s: State, a: nat)
    requires a in s.calls && s.calls[a].phase.Idle? && CallInv(s, a, s.calls[a])
    requires var s' := RemoveStep(s, a); CallInv(s', a, s'.calls[a])
    ensures Some(Abs(RemoveStep(s, a), a)) == SessionStep(Abs(s, a), Remove(a))
  {
    SameCursors(s, RemoveStep(s, a), a);
  }

  lemma CloseRefines(s: State, a: nat)
    requires a in s.calls && s.calls[a].phase.Closing? && CallInv(s, a, s.calls[a])
    requires s.calls[a].phase.next < |s.calls[a].phase.frame|
    requires s.calls[a].phase.frame[s.calls[a].phase.next] < |s.tables.iterators|
    requires var s' := CloseStep(s, a); CallInv(s', a, s'.calls[a])
    ensures Some(Abs(CloseStep(s, a), a)) == SessionStep(Abs(s, a), CloseNext(a))
  {
    SameCursors(s, CloseStep(s, a), a);
  }

  lemma EndRefines(s: State, a: nat)
    requires a in s.calls && s.calls[a].phase.Closing? && CallInv(s, a, s.calls[a])
    requires var s' := EndStep(s, a); CallInv(s', a, s'.calls[a])
    ensures s.calls[a].phase.next == |s.calls[a].phase.frame| ==>
              Some(Abs(EndStep(s, a), a)) == SessionStep(Abs(s, a), Finish(a))
    ensures s.calls[a].phase.next > 0 ==> Some(Abs(EndStep(s, a), a)) == SessionStep(Abs(s, a), Unwind(a))
  {
    SameCursors(s, EndStep(s, a), a);
  }

  lemma OwnStepRefines(s: State, e: Event)
    requires Step(s, e).Some? && !e.Start? && CallInv(s, e.call, s.calls[e.call])
    requires var s' := Step(s, e).value; e.call in s'.calls && CallInv(s', e.call, s'.calls[e.call])
    ensures Some(Abs(Step(s, e).value, e.call)) == SessionStep(Abs(s, e.call), e)
  {
    StepCases(s, e);
    match e
    case Scan(a, items) => ScanRefines(s, a, items);
    case Lookup(a, rustId, kind) => LookupRefines(s, a, rustId, kind);
    case Use(a, fate) => UseRefines(s, a, fate);
    case Remove(a) => RemoveRefines(s, a);
    case CloseNext(a) => CloseRefines(s, a);
    case Finish(a) => EndRefines(s, a);
    case Unwind(a) => EndRefines(s, a);
  }

  lemma OwnStepEnabled(s: State, e: Event)
    requires !e.Start? && e.call in s.calls && CallInv(s, e.call, s.calls[e.call])
    requires SessionStep(Abs(s, e.call), e).Some?
    ensures Step(s, e).Some?
  {
  }

  /** Each step of the machine is the same step of its call's session, and no step of any other. */
  lemma StepRefines(s: State, e: Event, b: nat)
    requires Inv(s) && Step(s, e).Some? && (e.Start? ==> |s.calls| + 1 < TWO_TO_64) && b in s.calls
    ensures var s' := Step(s, e).value;
            && Inv(s') && b in s'.calls
            && Some(Abs(s', b)) == if e.call == b then SessionStep(Abs(s, b), e) else Some(Abs(s, b))
  {
    StepKeeps(s, e);
    StepTouches(s, e);
    var s' := Step(s, e).value;
    assert CallInv(s, b, s.calls[b]) && CallInv(s', b, s'.calls[b]);
    if e.call == b {
      OwnStepRefines(s, e);
    } else {
      OthersInvisible(s, s', e.call, b);
    }
  }

  function OwnEvents(events: seq<Event>, a: nat): (r: seq<Event>) {
    if events == [] then []
    else if events[0].call == a then [events[0]] + OwnEvents(events[1..], a)
    else OwnEvents(events[1..], a)
  }

  /** Room for the starts still to come, after one step. */
  lemma StartBudget(s: State, events: seq<Event>)
    requires Inv(s) && events != [] && Step(s, events[0]).Some? && |s.calls| + Starts(events) < TWO_TO_64
    ensures Inv(Step(s, events[0]).value)
    ensures |Step(s, events[0]).value.calls| + Starts(events[1..]) < TWO_TO_64
  {
    StepKeeps(s, events[0]);
    if events[0].Start? { CountStarts(s, events[0]); } else { SameLatest(s, events[0]); }
  }

  lemma {:induction false} RunRefines(s: State, events: seq<Event>, a: nat)
    requires Inv(s) && a in s.calls && Exec(s, events).Some? && |s.calls| + Starts(events) < TWO_TO_64
    ensures var s' := Exec(s, events).value;
            && Inv(s') && a in s'.calls && CallInv(s, a, s.calls[a]) && CallInv(s', a, s'.calls[a])
            && SessionExec(Abs(s, a), OwnEvents(events, a)) == Some(Abs(s', a))
    decreases |events|
  {
    ExecKeeps(s, events);
    if events != [] {
      StepRefines(s, events[0], a);
      StartBudget(s, events);
      RunRefines(Step(s, events[0]).value, events[1..], a);
      if events[0].call == a {
        assert OwnEvents(events, a)[1..] == OwnEvents(events[1..], a);
      }
    }
  }

  /** A call's own events start with its Start, and the rest is a run of a fresh session. */
  lemma {:induction false} RunIsSession(s: State, events: seq<Event>, a: nat)
    requires Inv(s) && a !in s.calls && Exec(s, events).Some? && |s.calls| + Starts(events) < TWO_TO_64
    requires a in Exec(s, events).value.calls
    ensures var s' := Exec(s, events).value;
            var own := OwnEvents(events, a);
            && Inv(s') && CallInv(s', a, s'.calls[a])
            && own != [] && own[0] == Start(a)
            && SessionExec(NewSession, own[1..]) == Some(Abs(s', a))
    decreases |events|
  {
    assert events != [];
    var t := Step(s, events[0]).value;
    StartBudget(s, events);
    if events[0].call == a {
      StepCases(s, events[0]);
      RunRefines(t, events[1..], a);
      assert OwnEvents(events, a)[1..] == OwnEvents(events[1..], a);
      assert Abs(t, a) == NewSession;
    } else {
      StepTouches(s, events[0]);
      RunIsSession(t, events[1..], a);
    }
  }

  predicate AllOf(events: seq<Event>, a: nat) {
    forall i :: 0 <= i < |events| ==> events[i].call == a && !events[i].Start?
  }

  lemma AllOfTail(events: seq<Event>, a: nat)
    requires events != [] && AllOf(events, a)
    ensures events[0].call == a && !events[0].Start? && AllOf(events[1..], a)
  {
    assert forall i :: 0 <= i < |events[1..]| ==> events[1..][i] == events[i + 1];
  }

  lemma SoloStep(s: State, q: Session, e: Event) returns (s': State, q': Session)
    requires Inv(s) && !e.Start? && e.call in s.calls && CallInv(s, e.call, s.calls[e.call]) && q == Abs(s, e.call)
    requires SessionStep(q, e).Some?
    ensures Step(s, e) == Some(s') && SessionStep(q, e) == Some(q')
    ensures Inv(s') && e.call in s'.calls && CallInv(s', e.call, s'.calls[e.call]) && q' == Abs(s', e.call)
  {
    OwnStepEnabled(s, e);
    StepRefines(s, e, e.call);
    s', q' := Step(s, e).value, SessionStep(q, e).value;
  }

  /** Alone, the machine can follow every run of the session. */
  lemma {:induction false} SoloRun(s: State, q: Session, events: seq<Event>, a: nat) returns (s': State)
    requires Inv(s) && a in s.calls && AllOf(events, a) && CallInv(s, a, s.calls[a])
    requires q == Abs(s, a) && SessionExec(q, events).Some?
    ensures Exec(s, events) == Some(s')
    ensures a in s'.calls && CallInv(s', a, s'.calls[a]) && SessionExec(q, events) == Some(Abs(s', a))
    decreases |events|
  {
    if events == [] {
      s' := s;
    } else {
      AllOfTail(events, a);
      var s1, q1 := SoloStep(s, q, events[0]);
      s' := SoloRun(s1, q1, events[1..], a);
    }
  }

  lemma {:induction false} OwnEventsAreOwn(events: seq<Event>, a: nat)
    ensures forall e :: e in OwnEvents(events, a) ==> e.call == a
  {
    if events != [] { OwnEventsAreOwn(events[1..], a); }
  }

  lemma {:induction false} SessionNeverStarts(q: Session, events: seq<Event>)
    requires SessionExec(q, events).Some?
    ensures forall i :: 0 <= i < |events| ==> !events[i].Start?
    decreases |events|
  {
    if events != [] {
      SessionNeverStarts(SessionStep(q, events[0]).value, events[1..]);
      assert forall i :: 1 <= i < |events| ==> events[i] == events[1..][i - 1];
    }
  }

  lemma OwnTail(events: seq<Event>, a: nat, q: Session)
    requires OwnEvents(events, a) != [] && SessionExec(q, OwnEvents(events, a)[1..]).Some?
    ensures AllOf(OwnEvents(events, a)[1..], a)
  {
    var own := OwnEvents(events, a);
    OwnEventsAreOwn(events, a);
    SessionNeverStarts(q, own[1..]);
    forall i | 0 <= i < |own[1..]| ensures own[1..][i].call == a { assert own[i + 1] in own; }
  }

  lemma FreshCall(a: nat)
    ensures var s := Step(Init, Start(a)).value;
            Inv(s) && a in s.calls && CallInv(s, a, s.calls[a]) && Abs(s, a) == NewSession
  {
    StartKeeps(Init, a);
    var s := Step(Init, Start(a)).value;
    assert CallInv(s, a, s.calls[a]);
  }

  lemma SoloFromScratch(tail: seq<Event>, a: nat)
    requires AllOf(tail, a) && SessionExec(NewSession, tail).Some?
    ensures var alone := Exec(Init, [Start(a)] + tail);
            && alone.Some? && a in alone.value.calls && CallInv(alone.value, a, alone.value.calls[a])
            && SessionExec(NewSession, tail) == Some(Abs(alone.value, a))
  {
    FreshCall(a);
    var _ := SoloRun(Step(Init, Start(a)).value, NewSession, tail, a);
    assert ([Start(a)] + tail)[1..] == tail;
  }

  lemma AloneIsSession(events: seq<Event>, a: nat)
    requires var own := OwnEvents(events, a); own != [] && own[0] == Start(a) && SessionExec(NewSession, own[1..]).Some?
    ensures var own := OwnEvents(events, a);
            var alone := Exec(Init, own);
            && alone.Some? && a in alone.value.calls && CallInv(alone.value, a, alone.value.calls[a])
            && SessionExec(NewSession, own[1..]) == Some(Abs(alone.value, a))
  {
    var own := OwnEvents(events, a);
    OwnTail(events, a, NewSession);
    SoloFromScratch(own[1..], a);
    assert own == [Start(a)] + own[1..];
  }

  lemma SameSession(s: State, s': State, a: nat)
    requires a in s.calls && CallInv(s, a, s.calls[a]) && a in s'.calls && CallInv(s', a, s'.calls[a])
    requires Abs(s, a) == Abs(s', a)
    ensures s.calls[a].log == s'.calls[a].log && |s.calls[a].accepted| == |s'.calls[a].accepted|
  {
    assert |Abs(s, a).cursors| == |s.calls[a].accepted| && |Abs(s', a).cursors| == |s'.calls[a].accepted|;
  }

  /**
   * Isolation. For every interleaving of any number of calls, nested ones included, the events
   * of one call alone are a run too, and the call's observations are the same in both: the
   * iterator IDs it is given, the records it is shown, and the errors it gets.
   */
  lemma CallsAreIsolated(events: seq<Event>, a: nat)
    requires Exec(Init, events).Some? && Starts(events) < TWO_TO_64
    requires a in Exec(Init, events).value.calls
    ensures var alone := Exec(Init, OwnEvents(events, a));
            && alone.Some? && a in alone.value.calls
            && alone.value.calls[a].log == Exec(Init, events).value.calls[a].log
            && |alone.value.calls[a].accepted| == |Exec(Init, events).value.calls[a].accepted|
  {
    assert Inv(Init);
    RunIsSession(Init, events, a);
    AloneIsSession(events, a);
    SameSession(Exec(Init, events).value, Exec(Init, OwnEvents(events, a)).value, a);
  }

  /** The four errors that the code checks for but the coupling of the tables rules out. */
  predicate Internal(x: Answer) { x.StoreFailed? || x.CountOverflow? || x.BadArgument? || x.NotRetrieved? }

  predicate NoInternal(log: seq<Answer>) { forall i :: 0 <= i < |log| ==> !Internal(log[i]) }

  lemma SessionStepLogs(q: Session, e: Event)
    requires NoInternal(q.log) && SessionStep(q, e).Some?
    ensures NoInternal(SessionStep(q, e).value.log)
  {
  }

  lemma {:induction false} SessionLogs(q: Session, events: seq<Event>)
    requires NoInternal(q.log) && SessionExec(q, events).Some?
    ensures NoInternal(SessionExec(q, events).value.log)
    decreases |events|
  {
    if events != [] {
      SessionStepLogs(q, events[0]);
      SessionLogs(SessionStep(q, events[0]).value, events[1..]);
    }
  }

  /**
   * In no run does a stored iterator go without an ID, the u32 count overflow, a reference carry
   * call ID zero, or a reference in Rust's table find no iterator.
   */
  lemma InternalErrorsNeverOccur(events: seq<Event>, a: nat)
    requires Exec(Init, events).Some? && Starts(events) < TWO_TO_64 && a in Exec(Init, events).value.calls
    ensures NoInternal(Exec(Init, events).value.calls[a].log)
  {
    assert Inv(Init);
    RunIsSession(Init, events, a);
    SessionLogs(NewSession, OwnEvents(events, a)[1..]);
    var s := Exec(Init, events).value;
    assert Abs(s, a).log == s.calls[a].log;
  }
}
