/**
 * A contract at work: an arbitrary sequence of storage, API and query operations, each going
 * through Rust and Go and back, and what the contract observes of them.
 */
module ContractRun {
  import opened ByteStrings
  import opened Ranges
  import opened IteratorFrames
  import opened Protocol
  import opened Memory
  import opened Callbacks
  import opened Storage
  import opened GasRuns
  import opened Isolation
  import opened EndToEnd
  import opened Invocations

  /** Frames belong to calls that were started. */
  ghost predicate NoFuture(t: Tables) { forall id :: id in t.frames ==> id <= t.latestCallId }

  /**
   * What a call does to the tables while it runs, seen from their state at its start. Nothing
   * older changes; of the new iterators those in `closed`, which finished nested calls accepted,
   * have been closed once, and all others, the call's own among them, not at all.
   */
  ghost predicate Confined(t0: Tables, t: Tables, callID: u64, closed: set<nat>) {
    var f := t.Frame(callID);
    && t0.latestCallId <= t.latestCallId
    && t.frames - {callID} == t0.frames - {callID}
    && |t0.iterators| <= |t.iterators|
    && (forall h :: 0 <= h < |t0.iterators| ==> t.iterators[h] == t0.iterators[h])
    && (forall h :: h in closed ==> |t0.iterators| <= h < |t.iterators|)
    && (forall h :: |t0.iterators| <= h < |t.iterators| ==> t.iterators[h].closes == if h in closed then 1 else 0)
    && (forall i :: 0 <= i < |f| ==> |t0.iterators| <= f[i] < |t.iterators| && f[i] !in closed)
    && (forall i, j :: 0 <= i < j < |f| ==> f[i] < f[j])
  }

  lemma ConfinedGrows(t0: Tables, t: Tables, t': Tables, callID: u64, closed: set<nat>, items: seq<Item>)
    requires Confined(t0, t, callID, closed)
    requires t'.frames == t.frames && t'.latestCallId == t.latestCallId && t'.Frame(callID) == t.Frame(callID)
    requires t'.iterators == t.iterators + [GoIterator(items, 0)]
    ensures Confined(t0, t', callID, closed)
  {
    forall h | 0 <= h < |t.iterators| ensures t'.iterators[h] == t.iterators[h] {}
  }

  lemma ConfinedCreate(t0: Tables, t: Tables, callID: u64, closed: set<nat>, items: seq<Item>)
    requires Confined(t0, t, callID, closed)
    ensures Confined(t0, t.Create(items), callID, closed)
  {
    ConfinedGrows(t0, t, t.Create(items), callID, closed, items);
  }

  lemma ConfinedStore(t0: Tables, t: Tables, callID: u64, closed: set<nat>, items: seq<Item>)
    requires Confined(t0, t, callID, closed)
    ensures Confined(t0, t.Create(items).Store(callID, |t.iterators|, FRAME_LEN_LIMIT).0, callID, closed)
  {
    var t' := t.Create(items).Store(callID, |t.iterators|, FRAME_LEN_LIMIT).0;
    assert t'.frames - {callID} == t.frames - {callID};
    assert t.Create(items).Frame(callID) == t.Frame(callID);
    assert t'.Frame(callID) == t.Frame(callID) || t'.Frame(callID) == t.Frame(callID) + [|t.iterators|];
  }

  lemma ConfinedUse(t0: Tables, t: Tables, callID: u64, closed: set<nat>, k: nat, advanced: bool)
    requires Confined(t0, t, callID, closed) && k < |t.Frame(callID)| && t.Frame(callID)[k] < |t.iterators|
    requires t.iterators[t.Frame(callID)[k]].Valid()
    ensures Confined(t0, AfterFailure(t, t.Frame(callID)[k], advanced), callID, closed)
  {
    assert AfterFailure(t, t.Frame(callID)[k], advanced).Frame(callID) == t.Frame(callID);
  }

  /** A nested call that has ended: new iterators, of which the accepted ones were closed once. */
  ghost predicate NestedEnded(t: Tables, t': Tables, accepted: set<nat>) {
    && t.latestCallId <= t'.latestCallId
    && t'.frames == t.frames
    && |t.iterators| <= |t'.iterators|
    && (forall h :: 0 <= h < |t.iterators| ==> t'.iterators[h] == t.iterators[h])
    && (forall h :: h in accepted ==> |t.iterators| <= h < |t'.iterators|)
    && (forall h :: |t.iterators| <= h < |t'.iterators| ==> t'.iterators[h].closes == if h in accepted then 1 else 0)
  }

  lemma ConfinedNested(t0: Tables, t: Tables, t': Tables, callID: u64, closed: set<nat>, accepted: set<nat>)
    requires Confined(t0, t, callID, closed) && NestedEnded(t, t', accepted)
    ensures Confined(t0, t', callID, closed + accepted) && |closed + accepted| == |closed| + |accepted|
  {
    assert t'.Frame(callID) == t.Frame(callID);
    assert closed * accepted == {};
  }

  lemma NestedEndedTwice(t: Tables, t': Tables, t'': Tables, a: set<nat>, b: set<nat>)
    requires NestedEnded(t, t', a) && NestedEnded(t', t'', b)
    ensures NestedEnded(t, t'', a + b) && |a + b| == |a| + |b|
  {
    assert a * b == {};
  }

  /** Nested calls are invisible to the contract that made the query. */
  lemma NestedInvisible(t: Tables, t': Tables, callID: u64, accepted: set<nat>, log: seq<Answer>)
    requires NestedEnded(t, t', accepted) && forall i :: 0 <= i < |t.Frame(callID)| ==> t.Frame(callID)[i] < |t.iterators|
    ensures SessionOf(t', callID, log) == SessionOf(t, callID, log)
  {
    assert t'.Frame(callID) == t.Frame(callID);
    assert Cursors(t', t'.Frame(callID)) == Cursors(t, t.Frame(callID));
  }

  // What the contract observes, against the table-free session.

  ghost function Cursors(t: Tables, f: seq<nat>): (r: seq<seq<Item>>) {
    seq(|f|, k requires 0 <= k < |f| => if f[k] < |t.iterators| then t.iterators[f[k]].rest else [])
  }

  ghost function SessionOf(t: Tables, callID: u64, log: seq<Answer>): (q: Session) {
    Session(Cursors(t, t.Frame(callID)), Stage.Ready, log)
  }

  function FateOf(fate: IteratorFate): (r: Fate) {
    match fate
    case Advances(_) => Runs
    case Fails(_, _, advanced) => if advanced then PanicsAfter else PanicsBefore
  }

  function KindOf(op: Op): (r: Kind) {
    if op.OpNextPart? then (if op.wantKey then KeyOnly else ValueOnly) else Record
  }

  /** The session events behind one operation: a scan, or a lookup and, if it finds something, a use. */
  function EventsOf(q: Session, op: Op): (r: seq<Event>) {
    if op.OpScan? then [Scan(0, ScanItems(op))]
    else if op.OpNext? || op.OpNextPart? then
      [Lookup(0, op.id, KindOf(op))] + if op.id < |q.cursors| then [Use(0, FateOf(op.fate))] else []
    else []
  }

  /** The same operation as one step. */
  function SessionOp(q: Session, op: Op): (r: Session) {
    if op.OpScan? then SessionScan(q, ScanItems(op))
    else if op.OpNext? || op.OpNextPart? then
      if op.id < |q.cursors| then SessionUse(q.(stage := Asked(op.id, KindOf(op))), FateOf(op.fate))
      else q.(log := q.log + [NoIterator(op.id)])
    else q
  }

  function SessionOps(q: Session, ops: seq<Op>): (r: Session) {
    if ops == [] then q else SessionOp(SessionOps(q, ops[..|ops| - 1]), ops[|ops| - 1])
  }

  lemma SessionOpIsRun(q: Session, op: Op)
    requires q.stage.Ready?
    ensures SessionExec(q, EventsOf(q, op)) == Some(SessionOp(q, op)) && SessionOp(q, op).stage.Ready?
  {
    var events := EventsOf(q, op);
    if |events| > 0 {
      var p := SessionStep(q, events[0]).value;
      if |events| > 1 {
        assert events[1..][0] == events[1] && events[1..][1..] == [];
        assert SessionExec(p, events[1..]) == Some(SessionStep(p, events[1]).value);
      } else {
        assert events[1..] == [];
      }
    }
  }

  lemma CursorsAccept(t: Tables, t': Tables, f: seq<nat>, items: seq<Item>)
    requires t'.iterators == t.iterators + [GoIterator(items, 0)]
    requires forall i :: 0 <= i < |f| ==> f[i] < |t.iterators|
    ensures Cursors(t', f) == Cursors(t, f)
    ensures Cursors(t', f + [|t.iterators|]) == Cursors(t, f) + [items]
  {
  }

  lemma ScanObserved(t: Tables, callID: u64, log: seq<Answer>, items: seq<Item>)
    requires forall i :: 0 <= i < |t.Frame(callID)| ==> t.Frame(callID)[i] < |t.iterators|
    requires |t.Frame(callID)| <= FRAME_LEN_LIMIT
    ensures var n := |t.Frame(callID)|;
            if n == FRAME_LEN_LIMIT
            then SessionOf(t.Create(items), callID, log + [LimitHit]) == SessionScan(SessionOf(t, callID, log), Some(items))
            else SessionOf(t.Create(items).Store(callID, |t.iterators|, FRAME_LEN_LIMIT).0, callID, log + [Scanned(n)])
                 == SessionScan(SessionOf(t, callID, log), Some(items))
  {
    var t1 := t.Create(items);
    assert t1.Frame(callID) == t.Frame(callID);
    CursorsAccept(t, t1, t.Frame(callID), items);
    var t2 := t1.Store(callID, |t.iterators|, FRAME_LEN_LIMIT).0;
    if |t.Frame(callID)| < FRAME_LEN_LIMIT {
      assert t2.Frame(callID) == t.Frame(callID) + [|t.iterators|];
      CursorsAccept(t, t2, t.Frame(callID), items);
    }
  }

  lemma UseObserved(t: Tables, callID: u64, k: nat)
    requires var f := t.Frame(callID);
             && (forall i :: 0 <= i < |f| ==> f[i] < |t.iterators|) && (forall i, j :: 0 <= i < j < |f| ==> f[i] < f[j])
             && k < |f| && t.iterators[f[k]].Valid()
    ensures var f := t.Frame(callID);
            Cursors(t.Advance(f[k]), f) == Cursors(t, f)[k := t.iterators[f[k]].rest[1..]]
  {
    var f := t.Frame(callID);
    assert forall i :: 0 <= i < |f| && i != k ==> f[i] != f[k];
  }

  /** The errors into which a recovered Go panic is turned. */
  predicate FromPanic(e: BackendError) { e == ForeignPanic || e == GasDepleted }

  function ScanAnswer(r: Result<nat>): (x: Answer) {
    match r
    case Ok(id) => Scanned(id)
    case Err(e) => if FromPanic(e) then ScanFailed else if e == UserError(LimitMessage) then LimitHit else StoreFailed
  }

  function NextAnswer(id: nat, kind: Kind, r: Result<Option<Shown>>): (x: Answer) {
    match r
    case Ok(shown) => Delivered(id, kind, shown)
    case Err(e) => if e.IteratorDoesNotExist? then NoIterator(id) else Panicked(id)
  }

  method PerformScan(heap: VectorHeap, table: FrameTable, meter: GasMeter, storage: GoStorage, op: Op,
                     ghost t0: Tables, ghost closed: set<nat>)
    returns (answer: Answer, entry: GasEntry)
    requires heap.Valid() && storage.Linked(table) && Confined(t0, table.View(), storage.callID, closed) && op.OpScan?
    modifies heap, table, meter, storage
    ensures heap.Valid() && heap.live == old(heap.live) && heap.faults == old(heap.faults)
    ensures storage.Linked(table) && Confined(t0, table.View(), storage.callID, closed)
    ensures table.latestCallID == old(table.latestCallID)
    ensures entry.before == old(meter.consumed) && entry.after == meter.consumed && WellReported(entry)
    ensures forall log :: SessionOf(table.View(), storage.callID, log + [answer])
                          == SessionOp(SessionOf(old(table.View()), storage.callID, log), op)
  {
    ghost var t := table.View();
    var before := meter.consumed;
    var r, gas := storage.Scan(heap, table, op.store, meter, op.start, op.end, op.descending, []);
    entry := GasEntry(before, meter.consumed, r.Err? && FromPanic(r.error), gas);
    answer := ScanAnswer(r);
    if ScanItems(op).Some? {
      ConfinedCreate(t0, t, storage.callID, closed, ScanItems(op).value);
      ConfinedStore(t0, t, storage.callID, closed, ScanItems(op).value);
      forall log ensures SessionOf(table.View(), storage.callID, log + [answer])
                         == SessionOp(SessionOf(t, storage.callID, log), op) {
        ScanObserved(t, storage.callID, log, ScanItems(op).value);
      }
    }
  }

  /** The Rust calls next, next_key and next_value, with their results in one form. */
  method AskNext(heap: VectorHeap, table: FrameTable, meter: GasMeter, storage: GoStorage, op: Op)
    returns (r: Result<Option<Shown>>, gas: u64)
    requires heap.Valid() && storage.Linked(table) && (op.OpNext? || op.OpNextPart?)
    modifies heap, table, meter
    ensures heap.Valid() && heap.live == old(heap.live) && heap.faults == old(heap.faults)
    ensures storage.Linked(table)
    ensures op.id !in storage.iterators ==>
              r == Err(IteratorDoesNotExist(op.id)) && gas == 0 && unchanged(table, meter)
    ensures op.id in storage.iterators ==>
              var h := old(storage.HandleOf(table, op.id));
              var rest := old(table.iterators)[h].rest;
              if rest == [] then r == Ok(None) && gas == 0 && unchanged(table, meter)
              else
                && meter.consumed == op.fate.meter
                && table.View() == AfterFailure(old(table.View()), h, op.fate.Advances? || op.fate.advanced)
                && match op.fate
                   case Fails(outOfGas, _, _) => r == Err(if outOfGas then GasDepleted else ForeignPanic) && gas == 0
                   case Advances(_) =>
                     r == Ok(Some(Project(KindOf(op), rest[0]))) && gas == Sub64(op.fate.meter, old(meter.consumed))
  {
    if op.OpNext? {
      var x;
      x, gas := storage.Next(heap, table, meter, op.id, [], op.fate);
      r := match x case Ok(None) => Ok(None) case Ok(Some(item)) => Ok(Some(ShownRecord(item))) case Err(e) => Err(e);
    } else {
      var x;
      x, gas := storage.NextPart(heap, table, meter, op.id, op.wantKey, [], op.fate);
      r := match x
           case Ok(None) => Ok(None)
           case Ok(Some(part)) => Ok(Some(if op.wantKey then ShownKey(part) else ShownValue(part)))
           case Err(e) => Err(e);
    }
  }

  lemma UseMoves(t: Tables, callID: u64, op: Op, r: Result<Option<Shown>>, log: seq<Answer>)
    requires op.OpNext? || op.OpNextPart?
    requires var f := t.Frame(callID);
             && (forall i :: 0 <= i < |f| ==> f[i] < |t.iterators|) && (forall i, j :: 0 <= i < j < |f| ==> f[i] < f[j])
             && op.id < |f| && t.iterators[f[op.id]].Valid()
             && match op.fate
                case Fails(outOfGas, _, _) => r == Err(if outOfGas then GasDepleted else ForeignPanic)
                case Advances(_) => r == Ok(Some(Project(KindOf(op), t.iterators[f[op.id]].rest[0])))
    ensures SessionOf(AfterFailure(t, t.Frame(callID)[op.id], op.fate.Advances? || op.fate.advanced), callID,
                      log + [NextAnswer(op.id, KindOf(op), r)])
            == SessionUse(SessionOf(t, callID, log).(stage := Asked(op.id, KindOf(op))), FateOf(op.fate))
  {
    var h := t.Frame(callID)[op.id];
    assert t.Advance(h).Frame(callID) == t.Frame(callID);
    UseObserved(t, callID, op.id);
  }

  lemma NextObserved(t: Tables, t': Tables, callID: u64, op: Op, r: Result<Option<Shown>>, log: seq<Answer>)
    requires op.OpNext? || op.OpNextPart?
    requires var f := t.Frame(callID);
             && (forall i :: 0 <= i < |f| ==> f[i] < |t.iterators|) && (forall i, j :: 0 <= i < j < |f| ==> f[i] < f[j])
    requires op.id >= |t.Frame(callID)| ==> r == Err(IteratorDoesNotExist(op.id)) && t' == t
    requires op.id < |t.Frame(callID)| ==>
               var h := t.Frame(callID)[op.id];
               var rest := t.iterators[h].rest;
               if rest == [] then r == Ok(None) && t' == t
               else
                 && t' == AfterFailure(t, h, op.fate.Advances? || op.fate.advanced)
                 && match op.fate
                    case Fails(outOfGas, _, _) => r == Err(if outOfGas then GasDepleted else ForeignPanic)
                    case Advances(_) => r == Ok(Some(Project(KindOf(op), rest[0])))
    ensures SessionOf(t', callID, log + [NextAnswer(op.id, KindOf(op), r)]) == SessionOp(SessionOf(t, callID, log), op)
  {
    if op.id < |t.Frame(callID)| && t.iterators[t.Frame(callID)[op.id]].rest != [] {
      UseMoves(t, callID, op, r, log);
    }
  }

  method PerformNext(heap: VectorHeap, table: FrameTable, meter: GasMeter, storage: GoStorage, op: Op,
                     ghost t0: Tables, ghost closed: set<nat>)
    returns (answer: Answer, entry: GasEntry)
    requires heap.Valid() && storage.Linked(table) && Confined(t0, table.View(), storage.callID, closed)
    requires op.OpNext? || op.OpNextPart?
    modifies heap, table, meter
    ensures heap.Valid() && heap.live == old(heap.live) && heap.faults == old(heap.faults)
    ensures storage.Linked(table) && Confined(t0, table.View(), storage.callID, closed)
    ensures table.latestCallID == old(table.latestCallID)
    ensures entry.before == old(meter.consumed) && entry.after == meter.consumed && WellReported(entry)
    ensures forall log :: SessionOf(table.View(), storage.callID, log + [answer])
                          == SessionOp(SessionOf(old(table.View()), storage.callID, log), op)
  {
    ghost var t := table.View();
    var before := meter.consumed;
    var r, gas := AskNext(heap, table, meter, storage, op);
    entry := GasEntry(before, meter.consumed, r.Err? && FromPanic(r.error), gas);
    answer := NextAnswer(op.id, KindOf(op), r);
    if table.View() != t {
      ConfinedUse(t0, t, storage.callID, closed, op.id, true);
    }
    forall log ensures SessionOf(table.View(), storage.callID, log + [answer])
                       == SessionOp(SessionOf(t, storage.callID, log), op) {
      NextObserved(t, table.View(), storage.callID, op, r, log);
    }
  }

  /** An operation that is neither a scan, a next nor a query. Those outside the database leave no gas entry. */
  method PerformOther(heap: VectorHeap, meter: GasMeter, storage: GoStorage, op: Op) returns (entry: Option<GasEntry>)
    requires heap.Valid() && !op.OpScan? && !op.OpNext? && !op.OpNextPart? && !op.OpQuery?
    modifies heap, meter
    ensures heap.Valid() && heap.live == old(heap.live) && heap.faults == old(heap.faults)
    ensures entry.None? ==> meter.consumed == old(meter.consumed)
    ensures entry.Some? ==> entry.value.before == old(meter.consumed) && entry.value.after == meter.consumed
                            && WellReported(entry.value)
  {
    entry := None;
    var before := meter.consumed;
    match op {
      case OpGet(store, key) =>
        var r, gas := storage.Get(heap, store, meter, key, []);
        entry := Some(GasEntry(before, meter.consumed, r.Err? && FromPanic(r.error), gas));
      case OpSet(store, key, value) =>
        var r, gas := storage.Set(heap, store, meter, key, value, []);
        entry := Some(GasEntry(before, meter.consumed, r.Err? && FromPanic(r.error), gas));
      case OpRemove(store, key) =>
        var r, gas := storage.Remove(heap, store, meter, key, []);
        entry := Some(GasEntry(before, meter.consumed, r.Err? && FromPanic(r.error), gas));
      case OpAddress(reply, humanize) =>
        var _, _ := AddrConvert(heap, reply, humanize, []);
      case OpValidate(reply) =>
        var _, _ := AddrValidate(heap, reply, []);
    }
  }

  /** What a run leaves behind for the reader: the contract's observations and the gas entries. */
  datatype Trace = Trace(answers: seq<Answer>, gas: seq<GasEntry>)

  lemma {:induction false} OpsTrack(ops: seq<Op>)
    ensures Tracks(SessionOps(NewSession, ops), ScansOf(ops)) && SessionOps(NewSession, ops).stage.Ready?
  {
    if ops != [] {
      var q := SessionOps(NewSession, ops[..|ops| - 1]);
      var scans := ScansOf(ops[..|ops| - 1]);
      var op := ops[|ops| - 1];
      OpsTrack(ops[..|ops| - 1]);
      SessionOpIsRun(q, op);
      RunTracks(q, scans, EventsOf(q, op));
      OpScans(q, scans, op);
      assert ScansOf(ops) == scans + AcceptedScans(EventsOf(q, op), |scans|);
    }
  }

  lemma OpScans(q: Session, scans: seq<seq<Item>>, op: Op)
    ensures AcceptedScans(EventsOf(q, op), |scans|)
            == if op.OpScan? && ScanItems(op).Some? && |scans| < FRAME_LEN_LIMIT then [ScanItems(op).value] else []
  {
    var events := EventsOf(q, op);
    if |events| > 0 {
      if |events| > 1 {
        assert events[1..] == [events[1]] && events[1..][1..] == [];
        assert AcceptedScans(events[1..], |scans|) == [];
      } else {
        assert events[1..] == [];
      }
    }
  }

  /**
   * End to end through the imperative code: the observations of any contract run on a fresh
   * call show, for every Rust iterator ID whose iterator did not panic, record after record
   * what the store returned for that scan, and then None.
   */
  lemma ContractSeesRecords(ops: seq<Op>, answers: seq<Answer>, k: nat)
    requires answers == SessionOps(NewSession, ops).log
    requires k < |ScansOf(ops)| && NoPanic(Answers(answers, k))
    ensures var records := ScansOf(ops)[k];
            forall i :: 0 <= i < |Answers(answers, k)| ==> Expected(Answers(answers, k)[i], records, i)
  {
    OpsTrack(ops);
  }
}
