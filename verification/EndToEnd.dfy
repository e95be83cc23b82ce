/**
 * From a Rust iterator ID down to the records of an iterator: what the successive answers to next,
 * next_key and next_value are, in every interleaving.
 */
module EndToEnd {
  import opened ByteStrings
  import opened Ranges
  import opened IteratorFrames
  import opened Protocol
  import opened Isolation

  /** The item sequences of a call's accepted scans, `n` of which have already happened. */
  function AcceptedScans(events: seq<Event>, n: nat): (r: seq<seq<Item>>) {
    if events == [] then []
    else if events[0].Scan? && events[0].items.Some? && n < FRAME_LEN_LIMIT then
      [events[0].items.value] + AcceptedScans(events[1..], n + 1)
    else AcceptedScans(events[1..], n)
  }

  predicate About(x: Answer, k: nat) { (x.Delivered? || x.Panicked?) && x.rustId == k }

  /** The answers to next, next_key and next_value on one Rust ID. */
  function Answers(log: seq<Answer>, k: nat): (r: seq<Answer>) {
    if log == [] then []
    else
      var last := log[|log| - 1];
      Answers(log[..|log| - 1], k) + if About(last, k) then [last] else []
  }

  lemma AnswersAppend(log: seq<Answer>, x: Answer, k: nat)
    ensures Answers(log + [x], k) == Answers(log, k) + if About(x, k) then [x] else []
  {
    assert (log + [x])[..|log|] == log;
  }

  /** The i-th answer shows the i-th record, and nothing once the records are used up. */
  predicate Expected(x: Answer, records: seq<Item>, i: nat) {
    && x.Delivered?
    && x.shown == if i < |records| then Some(Project(x.kind, records[i])) else None
  }

  ghost predicate InOrder(answers: seq<Answer>, records: seq<Item>, rest: seq<Item>) {
    && (forall i :: 0 <= i < |answers| ==> Expected(answers[i], records, i))
    && rest == if |answers| < |records| then records[|answers|..] else []
  }

  predicate NoPanic(answers: seq<Answer>) { forall i :: 0 <= i < |answers| ==> !answers[i].Panicked? }

  ghost predicate Tracks(q: Session, scans: seq<seq<Item>>) {
    && |q.cursors| == |scans|
    && (q.stage.Asked? ==> q.stage.rustId < |scans|)
    && (forall k :: |scans| <= k ==> Answers(q.log, k) == [])
    && forall k :: 0 <= k < |scans| && NoPanic(Answers(q.log, k)) ==>
         InOrder(Answers(q.log, k), scans[k], q.cursors[k])
  }

  lemma ScanTracks(q: Session, scans: seq<seq<Item>>, items: Option<seq<Item>>)
    requires Tracks(q, scans) && q.stage.Ready?
    ensures Tracks(SessionScan(q, items),
                   if items.Some? && |scans| < FRAME_LEN_LIMIT then scans + [items.value] else scans)
  {
    var p := SessionScan(q, items);
    var after := if items.Some? && |scans| < FRAME_LEN_LIMIT then scans + [items.value] else scans;
    forall k: nat ensures Answers(p.log, k) == Answers(q.log, k) {
      AnswersAppend(q.log, p.log[|q.log|], k);
    }
    forall k | 0 <= k < |after| && NoPanic(Answers(p.log, k)) ensures InOrder(Answers(p.log, k), after[k], p.cursors[k]) {
      if k < |scans| {
        assert after[k] == scans[k] && p.cursors[k] == q.cursors[k];
      } else {
        assert after[k][0..] == after[k];
      }
    }
  }

  lemma Extends(answers: seq<Answer>, records: seq<Item>, rest: seq<Item>, x: Answer)
    requires InOrder(answers, records, rest) && x.Delivered?
    requires x.shown == if rest == [] then None else Some(Project(x.kind, rest[0]))
    ensures InOrder(answers + [x], records, if rest == [] then [] else rest[1..])
  {
    if rest != [] {
      assert rest[0] == records[|answers|] && rest[1..] == records[|answers| + 1..];
    }
  }

  lemma UseTracks(q: Session, scans: seq<seq<Item>>, fate: Fate)
    requires Tracks(q, scans) && q.stage.Asked? && q.stage.rustId < |q.cursors|
    ensures Tracks(SessionUse(q, fate), scans)
  {
    var p := SessionUse(q, fate);
    var x := p.log[|q.log|];
    var r := q.stage.rustId;
    AnswersAppend(q.log, x, r);
    forall k: nat | k != r ensures Answers(p.log, k) == Answers(q.log, k) {
      AnswersAppend(q.log, x, k);
    }
    forall k | 0 <= k < |scans| && NoPanic(Answers(p.log, k)) ensures InOrder(Answers(p.log, k), scans[k], p.cursors[k]) {
      if k == r {
        NoPanicPrefix(Answers(q.log, r), x);
        Extends(Answers(q.log, r), scans[r], q.cursors[r], x);
      } else {
        assert p.cursors[k] == q.cursors[k];
      }
    }
  }

  lemma NoPanicPrefix(answers: seq<Answer>, x: Answer)
    requires NoPanic(answers + [x])
    ensures NoPanic(answers) && !x.Panicked?
  {
    assert forall i :: 0 <= i < |answers| ==> (answers + [x])[i] == answers[i];
    assert (answers + [x])[|answers|] == x;
  }

  lemma LookupTracks(q: Session, scans: seq<seq<Item>>, rustId: nat, kind: Kind)
    requires Tracks(q, scans) && q.stage.Ready?
    ensures Tracks(SessionStep(q, Lookup(0, rustId, kind)).value, scans)
  {
    var p := SessionStep(q, Lookup(0, rustId, kind)).value;
    if p.log != q.log {
      forall k: nat ensures Answers(p.log, k) == Answers(q.log, k) {
        AnswersAppend(q.log, NoIterator(rustId), k);
      }
    }
  }

  function ScansAfter(scans: seq<seq<Item>>, e: Event): (r: seq<seq<Item>>) {
    if e.Scan? && e.items.Some? && |scans| < FRAME_LEN_LIMIT then scans + [e.items.value] else scans
  }

  lemma StepTracks(q: Session, scans: seq<seq<Item>>, e: Event)
    requires Tracks(q, scans) && SessionStep(q, e).Some?
    ensures Tracks(SessionStep(q, e).value, ScansAfter(scans, e))
  {
    match e
    case Scan(_, items) => ScanTracks(q, scans, items);
    case Lookup(_, rustId, kind) => LookupTracks(q, scans, rustId, kind);
    case Use(_, fate) => UseTracks(q, scans, fate);
    case _ =>
  }

  lemma ScansCons(scans: seq<seq<Item>>, events: seq<Event>)
    requires events != []
    ensures var after := ScansAfter(scans, events[0]);
            after + AcceptedScans(events[1..], |after|) == scans + AcceptedScans(events, |scans|)
  {
  }

  lemma {:induction false} RunTracks(q: Session, scans: seq<seq<Item>>, events: seq<Event>)
    requires Tracks(q, scans) && SessionExec(q, events).Some?
    ensures Tracks(SessionExec(q, events).value, scans + AcceptedScans(events, |scans|))
    decreases |events|
  {
    if events == [] {
      assert scans + [] == scans;
    } else {
      StepTracks(q, scans, events[0]);
      RunTracks(SessionStep(q, events[0]).value, ScansAfter(scans, events[0]), events[1..]);
      ScansCons(scans, events);
    }
  }

  /**
   * Records in order. Take any interleaving of calls, one of its calls, and a Rust iterator ID k
   * that a scan of that call returned. Whatever mix of next, next_key and next_value the contract
   * uses on k, the i-th answer carries the i-th record of that scan's iterator, projected as asked,
   * and after the last record every answer is None. Only an iterator that itself panicked is exempt.
   */
  lemma NextDeliversRecords(events: seq<Event>, a: nat, k: nat)
    requires Exec(Init, events).Some? && Starts(events) < TWO_TO_64 && a in Exec(Init, events).value.calls
    requires var own := OwnEvents(events, a); own != [] && k < |AcceptedScans(own[1..], 0)|
    requires NoPanic(Answers(Exec(Init, events).value.calls[a].log, k))
    ensures var answers := Answers(Exec(Init, events).value.calls[a].log, k);
            var records := AcceptedScans(OwnEvents(events, a)[1..], 0)[k];
            forall i :: 0 <= i < |answers| ==> Expected(answers[i], records, i)
  {
    assert Inv(Init);
    RunIsSession(Init, events, a);
    var tail := OwnEvents(events, a)[1..];
    RunTracks(NewSession, [], tail);
    assert [] + AcceptedScans(tail, 0) == AcceptedScans(tail, 0);
    var s := Exec(Init, events).value;
    assert Abs(s, a).log == s.calls[a].log;
    assert InOrder(Answers(s.calls[a].log, k), AcceptedScans(tail, 0)[k], Abs(s, a).cursors[k]);
  }
}
