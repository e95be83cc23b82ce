/**
 * The Rust side of the callbacks: GoStorage with its table of iterators, GoApi and GoQuerier.
 * Every method hands fresh None slots to Go and consumes whatever came back.
 */
module Storage {
  import opened ByteStrings
  import opened Utf8
  import opened LossyText
  import opened Ranges
  import opened IteratorFrames
  import opened Protocol
  import opened Memory
  import opened Callbacks

  datatype BackendError =
    | ForeignPanic
    | BadArgs
    | GasDepleted
    | UserError(message: Bytes)
    | Unknown(message: Bytes)
    | InvalidUtf8
    | IteratorDoesNotExist(id: nat)
    | Unwinds // a Rust panic

  datatype Result<+T> = Ok(value: T) | Err(error: BackendError)

  const MAX_ERROR_LEN := 8192

  function Truncated(b: Bytes): (r: Bytes) { if |b| > MAX_ERROR_LEN then b[..MAX_ERROR_LEN] else b }

  /** What a status and an error text mean to the VM. */
  function Outcome(code: GoError, message: Option<Bytes>, default: Bytes): (r: Result<()>) {
    var text := if message.Some? then Lossy(Truncated(message.value)) else default;
    match code
    case NoError => Ok(())
    case Panic => Err(ForeignPanic)
    case BadArgumentError => Err(BadArgs)
    case OutOfGas => Err(GasDepleted)
    case User => Err(UserError(text))
    case CannotSerialize => Err(Unknown(text))
    case Other => Err(Unknown(text))
  }

  /** Every status has an error of its own, but for the two that are unknown errors. */
  predicate Speaks(code: GoError, r: Result<()>) {
    && (r.Ok? <==> code.NoError?)
    && (r == Err(ForeignPanic) <==> code.Panic?)
    && (r == Err(BadArgs) <==> code.BadArgumentError?)
    && (r == Err(GasDepleted) <==> code.OutOfGas?)
    && (r.Err? && r.error.UserError? <==> code.User?)
    && (r.Err? && r.error.Unknown? <==> code.CannotSerialize? || code.Other?)
  }

  /**
   * The text of an error: a message of at most 8192 bytes arrives as it is if and only if it is
   * UTF-8, and without a message the default does.
   */
  predicate TextArrives(message: Option<Bytes>, default: Bytes, r: Result<()>) {
    r.Err? && (r.error.UserError? || r.error.Unknown?) ==>
      match message
      case None => r.error.message == default
      case Some(m) => |m| <= 8192 ==> (r.error.message == m <==> WellFormed(m))
  }

  /** A longer one loses what is behind 8192 bytes, and a character that is cut there is replaced. */
  lemma LongTextArrives(code: GoError, m: Bytes, default: Bytes) returns (j: nat)
    requires (code.User? || code.CannotSerialize? || code.Other?) && WellFormed(m) && |m| > 8192
    ensures 8189 <= j <= 8192 && WellFormed(m[..j])
    ensures Outcome(code, Some(m), default).Err?
    ensures Outcome(code, Some(m), default).error.message == m[..j] + if j == 8192 then [] else [0xEF, 0xBF, 0xBD]
  {
    j := CutText(m, 8192);
  }

  /** GoError::into_result: the error vector is consumed whether or not it is needed. */
  method IntoResult(heap: VectorHeap, code: GoError, errorMsg: UnmanagedVector, default: Bytes) returns (r: Result<()>)
    requires heap.Valid()
    modifies heap
    ensures heap.Valid()
    ensures old(heap.Owned(errorMsg)) ==>
              && r == Outcome(code, old(heap.Content(errorMsg)), default)
              && heap.live == old(heap.Without(errorMsg)) && heap.faults == old(heap.faults)
              && TextArrives(old(heap.Content(errorMsg)), default, r)
    ensures Speaks(code, r)
  {
    var data := heap.Consume(errorMsg);
    var text := default;
    if data.Some? {
      text := data.value;
      LossyRepairs(text);
      if |text| > MAX_ERROR_LEN {
        text := text[..MAX_ERROR_LEN];
      }
      text := Lossy(text);
    }
    match code {
      case NoError => return Ok(());
      case Panic => return Err(ForeignPanic);
      case BadArgumentError => return Err(BadArgs);
      case OutOfGas => return Err(GasDepleted);
      case User => return Err(UserError(text));
      case CannotSerialize => return Err(Unknown(text));
      case Other => return Err(Unknown(text));
    }
  }

  /** The gas a database callback reports: the meter's advance, or nothing after a panic. */
  function Reported<T>(reply: Reply<T>, before: u64): (gas: u64) {
    if reply.Returns? then Sub64(reply.meter, before) else 0
  }

  // The link between the two tables, on values.

  /** The call as Protocol sees it. */
  ghost function CallOf(t: Tables, id: u64, rust: map<nat, IteratorReference>): (c: Call) {
    Call(id, rust, Idle, [], t.Frame(id))
  }

  ghost predicate LinkedTo(t: Tables, id: u64, rust: map<nat, IteratorReference>) {
    |t.Frame(id)| <= FRAME_LEN_LIMIT && Coupled(t, CallOf(t, id, rust))
  }

  lemma Resolves(t: Tables, id: u64, rust: map<nat, IteratorReference>, k: nat)
    requires LinkedTo(t, id, rust) && k in rust && id != 0
    ensures Target(t, rust[k]) == Some(t.Frame(id)[k])
  {
    CoupledRetrieve(t, CallOf(t, id, rust), k);
  }

  lemma StaysLinked(t: Tables, t': Tables, id: u64, rust: map<nat, IteratorReference>)
    requires LinkedTo(t, id, rust) && t'.frames == t.frames
    ensures LinkedTo(t', id, rust)
  {
  }

  lemma GrowsLinked(t: Tables, t': Tables, id: u64, rust: map<nat, IteratorReference>, ref: IteratorReference, h: nat)
    requires LinkedTo(t, id, rust) && |t.Frame(id)| < FRAME_LEN_LIMIT
    requires t'.Frame(id) == t.Frame(id) + [h]
    requires ref == IteratorReference(id, |t.Frame(id)| + 1)
    ensures |rust| == |t.Frame(id)| && |rust| !in rust && LinkedTo(t', id, rust[|rust| := ref])
  {
    AcceptedCoupled(t, t', CallOf(t, id, rust), CallOf(t', id, rust[|rust| := ref]), h);
  }

  /** Go's own error texts reach the VM as they are. */
  lemma TextSurvives(text: string, message: Bytes)
    requires message == Ascii(text) && |text| <= MAX_ERROR_LEN
    ensures Lossy(Truncated(message)) == message
  {
    TextIsAscii(text);
    AsciiWellFormed(message);
    LossyRepairs(message);
  }

  lemma ScanErrors(default: Bytes)
    ensures Outcome(User, Some(LimitMessage), default) == Err(UserError(LimitMessage))
    ensures Outcome(User, Some(ConversionMessage), default) == Err(UserError(ConversionMessage))
  {
    TextSurvives(LIMIT_TEXT, LimitMessage);
    TextSurvives(CONVERSION_TEXT, ConversionMessage);
  }

  /** The part of GoStorage::scan that talks to Go. */
  method ScanDb(heap: VectorHeap, table: FrameTable, db: DbState, meter: GasMeter,
                start: Option<Bytes>, end: Option<Bytes>, descending: bool, default: Bytes)
    returns (r: Result<()>, ref: IteratorReference, gas: u64)
    requires heap.Valid() && table.Closed()
    modifies heap, table, meter
    ensures heap.Valid() && heap.live == old(heap.live) && heap.faults == old(heap.faults) && table.Closed()
    ensures var reply := if descending then db.store.descends(start, end) else db.store.ascends(start, end);
            && meter.consumed == reply.meter && gas == Reported(reply, old(meter.consumed))
            && match reply
               case Panics(outOfGas, _) => r == Err(if outOfGas then GasDepleted else ForeignPanic) && unchanged(table)
               case Returns(items, _) =>
                 var (t, stored) := old(table.View()).Create(items).Store(db.callID, |old(table.iterators)|, FRAME_LEN_LIMIT);
                 && table.View() == t
                 && match stored
                    case Stored(id) => r == Ok(()) && ref == IteratorReference(db.callID, id)
                    case LimitReached => r == Err(UserError(LimitMessage))
                    case NoSuchId => r == Err(UserError(ConversionMessage))
  {
    var errorMsg := new VectorSlot();
    var iter := new ReferenceSlot();
    var usedGas := new GasSlot();
    var code := CScan(heap, table, db, meter, usedGas, start, end, if descending then 2 else 1, iter, errorMsg);
    gas, ref := usedGas.v, iter.ref;
    ScanErrors(default);
    r := IntoResult(heap, code, errorMsg.v, default);
  }

  /** GoIter::next. */
  method GoIterNext(heap: VectorHeap, table: FrameTable, ref: IteratorReference, meter: GasMeter, default: Bytes, fate: IteratorFate)
    returns (r: Result<Option<Item>>, gas: u64)
    requires heap.Valid() && table.Closed()
    modifies heap, table, meter
    ensures heap.Valid() && heap.live == old(heap.live) && heap.faults == old(heap.faults)
    ensures table.Closed() && table.iteratorFrames == old(table.iteratorFrames)
    ensures Target(old(table.View()), ref).None? ==>
              r == Err(if ref.callId == 0 then BadArgs else ForeignPanic) && gas == 0 && unchanged(table, meter)
    ensures Target(old(table.View()), ref).Some? ==>
            var h := Target(old(table.View()), ref).value;
            var rest := old(table.iterators)[h].rest;
            if rest == [] then r == Ok(None) && gas == 0 && unchanged(table, meter)
            else
              && meter.consumed == fate.meter
              && table.View() == AfterFailure(old(table.View()), h, fate.Advances? || fate.advanced)
              && match fate
                 case Fails(outOfGas, _, _) => r == Err(if outOfGas then GasDepleted else ForeignPanic) && gas == 0
                 case Advances(_) => r == Ok(Some(rest[0])) && gas == Sub64(fate.meter, old(meter.consumed))
  {
    var outputKey := new VectorSlot();
    var outputValue := new VectorSlot();
    var errorMsg := new VectorSlot();
    var usedGas := new GasSlot();
    var code := CNext(heap, table, ref, meter, usedGas, outputKey, outputValue, errorMsg, fate);
    var key, value := heap.ConsumeBoth(outputKey.v, outputValue.v);
    gas := usedGas.v;
    var res := IntoResult(heap, code, errorMsg.v, default);
    if res.Err? {
      return Err(res.error), gas;
    }
    match key {
      case Some(k) =>
        if value.Some? {
          return Ok(Some(Item(k, value.value))), gas;
        } else {
          return Err(Unknown(Ascii("Failed to read value while reading the next key in the db"))), gas;
        }
      case None =>
        return Ok(None), gas;
    }
  }

  /** GoIter::next_key_or_val. */
  method GoIterNextPart(heap: VectorHeap, table: FrameTable, ref: IteratorReference, meter: GasMeter, wantKey: bool,
                        default: Bytes, fate: IteratorFate)
    returns (r: Result<Option<Bytes>>, gas: u64)
    requires heap.Valid() && table.Closed()
    modifies heap, table, meter
    ensures heap.Valid() && heap.live == old(heap.live) && heap.faults == old(heap.faults)
    ensures table.Closed() && table.iteratorFrames == old(table.iteratorFrames)
    ensures Target(old(table.View()), ref).None? ==>
              r == Err(if ref.callId == 0 then BadArgs else ForeignPanic) && gas == 0 && unchanged(table, meter)
    ensures Target(old(table.View()), ref).Some? ==>
            var h := Target(old(table.View()), ref).value;
            var rest := old(table.iterators)[h].rest;
            if rest == [] then r == Ok(None) && gas == 0 && unchanged(table, meter)
            else
              && meter.consumed == fate.meter
              && table.View() == AfterFailure(old(table.View()), h, fate.Advances? || fate.advanced)
              && match fate
                 case Fails(outOfGas, _, _) => r == Err(if outOfGas then GasDepleted else ForeignPanic) && gas == 0
                 case Advances(_) =>
                   && r == Ok(Some(if wantKey then rest[0].key else rest[0].value))
                   && gas == Sub64(fate.meter, old(meter.consumed))
  {
    var output := new VectorSlot();
    var errorMsg := new VectorSlot();
    var usedGas := new GasSlot();
    var code := CNextPart(heap, table, ref, meter, usedGas, output, errorMsg, wantKey, fate);
    var data := heap.Consume(output.v);
    gas := usedGas.v;
    var res := IntoResult(heap, code, errorMsg.v, default);
    r := if res.Err? then Err(res.error) else Ok(data);
  }

  class GoStorage {
    var iterators: map<nat, IteratorReference>
    const callID: u64

    constructor (callID: u64)
      ensures this.callID == callID && iterators == map[]
    {
      this.callID := callID;
      iterators := map[];
    }

    /** This table and the call's Go frame name the same iterators. */
    ghost predicate Linked(table: FrameTable)
      reads this, table
    {
      table.Closed() && callID != 0 && LinkedTo(table.View(), callID, iterators)
    }

    method Get(heap: VectorHeap, store: KVStore, meter: GasMeter, key: Bytes, default: Bytes)
      returns (r: Result<Option<Bytes>>, gas: u64)
      requires heap.Valid()
      modifies heap, meter
      ensures heap.Valid() && heap.live == old(heap.live) && heap.faults == old(heap.faults)
      ensures var reply := store.finds(key);
              && meter.consumed == reply.meter && gas == Reported(reply, old(meter.consumed))
              && r == if reply.Returns? then Ok(reply.value) else Err(if reply.outOfGas then GasDepleted else ForeignPanic)
    {
      var output := new VectorSlot();
      var errorMsg := new VectorSlot();
      var usedGas := new GasSlot();
      var code := CGet(heap, DbState(store, callID), meter, usedGas, key, output, errorMsg);
      var data := heap.Consume(output.v);
      gas := usedGas.v;
      var res := IntoResult(heap, code, errorMsg.v, default);
      r := if res.Err? then Err(res.error) else Ok(data);
    }

    method Set(heap: VectorHeap, store: KVStore, meter: GasMeter, key: Bytes, value: Bytes, default: Bytes)
      returns (r: Result<()>, gas: u64)
      requires heap.Valid()
      modifies heap, meter
      ensures heap.Valid() && heap.live == old(heap.live) && heap.faults == old(heap.faults)
      ensures var reply := store.writes(key, value);
              && meter.consumed == reply.meter && gas == Reported(reply, old(meter.consumed))
              && r == if reply.Returns? then Ok(()) else Err(if reply.outOfGas then GasDepleted else ForeignPanic)
    {
      var errorMsg := new VectorSlot();
      var usedGas := new GasSlot();
      var code := CWrite(store.writes(key, value), meter, usedGas);
      gas := usedGas.v;
      r := IntoResult(heap, code, errorMsg.v, default);
    }

    method Remove(heap: VectorHeap, store: KVStore, meter: GasMeter, key: Bytes, default: Bytes)
      returns (r: Result<()>, gas: u64)
      requires heap.Valid()
      modifies heap, meter
      ensures heap.Valid() && heap.live == old(heap.live) && heap.faults == old(heap.faults)
      ensures var reply := store.deletes(key);
              && meter.consumed == reply.meter && gas == Reported(reply, old(meter.consumed))
              && r == if reply.Returns? then Ok(()) else Err(if reply.outOfGas then GasDepleted else ForeignPanic)
    {
      var errorMsg := new VectorSlot();
      var usedGas := new GasSlot();
      var code := CWrite(store.deletes(key), meter, usedGas);
      gas := usedGas.v;
      r := IntoResult(heap, code, errorMsg.v, default);
    }

    /** `descending` stands for Order, whose values 1 and 2 are what Go is sent. */
    method Scan(heap: VectorHeap, table: FrameTable, store: KVStore, meter: GasMeter,
                start: Option<Bytes>, end: Option<Bytes>, descending: bool, default: Bytes)
      returns (r: Result<nat>, gas: u64)
      requires heap.Valid() && Linked(table)
      modifies heap, table, meter, this
      ensures heap.Valid() && heap.live == old(heap.live) && heap.faults == old(heap.faults)
      ensures Linked(table)
      ensures var reply := if descending then store.descends(start, end) else store.ascends(start, end);
              && meter.consumed == reply.meter && gas == Reported(reply, old(meter.consumed))
              && match reply
                 case Panics(outOfGas, _) => r == Err(if outOfGas then GasDepleted else ForeignPanic) && unchanged(this, table)
                 case Returns(items, _) =>
                   var n := |old(table.View()).Frame(callID)|;
                   if n == 32768 then
                     && r == Err(UserError(Ascii("reached iterator limit (32768)")))
                     && table.View() == old(table.View()).Create(items) && unchanged(this)
                   else
                     && r == Ok(n) && n !in old(iterators)
                     && table.View() == old(table.View()).Create(items).Store(callID, |old(table.iterators)|, FRAME_LEN_LIMIT).0
    {
      ghost var t := table.View();
      var res, ref;
      res, ref, gas := ScanDb(heap, table, DbState(store, callID), meter, start, end, descending, default);
      if res.Err? {
        StaysLinked(t, table.View(), callID, iterators);
        return Err(res.error), gas;
      }
      var nextId := |iterators|;
      if nextId >= TWO_TO_32 {
        return Err(Unwinds), gas;
      }
      GrowsLinked(t, table.View(), callID, iterators, ref, |t.iterators|);
      iterators := iterators[nextId := ref];
      return Ok(nextId), gas;
    }

    /** The iterator behind a Rust ID, when the tables are linked. */
    ghost function HandleOf(table: FrameTable, id: nat): (h: nat)
      requires Linked(table) && id in iterators
      reads this, table
    {
      table.View().Frame(callID)[id]
    }

    method Next(heap: VectorHeap, table: FrameTable, meter: GasMeter, iteratorId: nat, default: Bytes, fate: IteratorFate)
      returns (r: Result<Option<Item>>, gas: u64)
      requires heap.Valid() && Linked(table)
      modifies heap, table, meter
      ensures heap.Valid() && heap.live == old(heap.live) && heap.faults == old(heap.faults)
      ensures Linked(table)
      ensures iteratorId !in iterators ==>
                r == Err(IteratorDoesNotExist(iteratorId)) && gas == 0 && unchanged(table, meter)
      ensures iteratorId in iterators ==>
                var h := old(HandleOf(table, iteratorId));
                var rest := old(table.iterators)[h].rest;
                if rest == [] then r == Ok(None) && gas == 0 && unchanged(table, meter)
                else
                  && meter.consumed == fate.meter
                  && table.View() == AfterFailure(old(table.View()), h, fate.Advances? || fate.advanced)
                  && match fate
                     case Fails(outOfGas, _, _) => r == Err(if outOfGas then GasDepleted else ForeignPanic) && gas == 0
                     case Advances(_) => r == Ok(Some(rest[0])) && gas == Sub64(fate.meter, old(meter.consumed))
    {
      if iteratorId !in iterators {
        return Err(IteratorDoesNotExist(iteratorId)), 0;
      }
      Resolves(table.View(), callID, iterators, iteratorId);
      r, gas := GoIterNext(heap, table, iterators[iteratorId], meter, default, fate);
      StaysLinked(old(table.View()), table.View(), callID, iterators);
    }

    /** next_key and next_value. */
    method NextPart(heap: VectorHeap, table: FrameTable, meter: GasMeter, iteratorId: nat, wantKey: bool,
                    default: Bytes, fate: IteratorFate)
      returns (r: Result<Option<Bytes>>, gas: u64)
      requires heap.Valid() && Linked(table)
      modifies heap, table, meter
      ensures heap.Valid() && heap.live == old(heap.live) && heap.faults == old(heap.faults)
      ensures Linked(table)
      ensures iteratorId !in iterators ==>
                r == Err(IteratorDoesNotExist(iteratorId)) && gas == 0 && unchanged(table, meter)
      ensures iteratorId in iterators ==>
                var h := old(HandleOf(table, iteratorId));
                var rest := old(table.iterators)[h].rest;
                if rest == [] then r == Ok(None) && gas == 0 && unchanged(table, meter)
                else
                  && meter.consumed == fate.meter
                  && table.View() == AfterFailure(old(table.View()), h, fate.Advances? || fate.advanced)
                  && match fate
                     case Fails(outOfGas, _, _) => r == Err(if outOfGas then GasDepleted else ForeignPanic) && gas == 0
                     case Advances(_) =>
                       && r == Ok(Some(if wantKey then rest[0].key else rest[0].value))
                       && gas == Sub64(fate.meter, old(meter.consumed))
    {
      if iteratorId !in iterators {
        return Err(IteratorDoesNotExist(iteratorId)), 0;
      }
      Resolves(table.View(), callID, iterators, iteratorId);
      r, gas := GoIterNextPart(heap, table, iterators[iteratorId], meter, wantKey, default, fate);
      StaysLinked(old(table.View()), table.View(), callID, iterators);
    }
  }

  // GoApi and GoQuerier.

  /** addr_humanize and addr_canonicalize; a humanized address has to be UTF-8. */
  method AddrConvert(heap: VectorHeap, reply: AddressReply, humanize: bool, default: Bytes) returns (r: Result<Bytes>, cost: u64)
    requires heap.Valid()
    modifies heap
    ensures heap.Valid() && heap.live == old(heap.live) && heap.faults == old(heap.faults)
    ensures match reply
            case Address(text, c) =>
              && cost == c
              && r == if text == [] then Err(ForeignPanic)
                      else if humanize && !WellFormed(text) then Err(InvalidUtf8)
                      else Ok(text)
            case AddressError(message, c) => cost == c && r == Err(UserError(Lossy(Truncated(message))))
            case AddressPanics(outOfGas) => cost == 0 && r == Err(if outOfGas then GasDepleted else ForeignPanic)
  {
    var output := new VectorSlot();
    var errorMsg := new VectorSlot();
    var usedGas := new GasSlot();
    var code := CAddress(heap, reply, output, errorMsg, usedGas);
    var data := heap.Consume(output.v);
    cost := usedGas.v;
    var res := IntoResult(heap, code, errorMsg.v, default);
    if res.Err? {
      return Err(res.error), cost;
    }
    if data.None? {
      return Err(Unknown(Ascii("Unset output"))), cost;
    }
    if humanize && !WellFormed(data.value) {
      return Err(InvalidUtf8), cost;
    }
    r := Ok(data.value);
  }

  method AddrValidate(heap: VectorHeap, reply: ValidateReply, default: Bytes) returns (r: Result<()>, cost: u64)
    requires heap.Valid()
    modifies heap
    ensures heap.Valid() && heap.live == old(heap.live) && heap.faults == old(heap.faults)
    ensures match reply
            case Accepts(c) => cost == c && r == Ok(())
            case Rejects(message, c) => cost == c && r == Err(UserError(Lossy(Truncated(message))))
            case ValidatePanics(outOfGas) => cost == 0 && r == Err(if outOfGas then GasDepleted else ForeignPanic)
  {
    var errorMsg := new VectorSlot();
    var usedGas := new GasSlot();
    var code := CValidateAddress(heap, reply, errorMsg, usedGas);
    cost := usedGas.v;
    r := IntoResult(heap, code, errorMsg.v, default);
  }

  /** What the contract gets of a response: its JSON, or the text that was none. */
  datatype SystemResult = Response(json: Bytes) | InvalidResponse(response: Bytes)

  /** GoQuerier::query_raw; `parses` says whether serde_json accepts the response. */
  method QueryRaw(heap: VectorHeap, gasBefore: u64, reply: Reply<Marshalled>, parses: bool, default: Bytes)
    returns (r: Result<SystemResult>, gas: u64)
    requires heap.Valid()
    modifies heap
    ensures heap.Valid() && heap.live == old(heap.live) && heap.faults == old(heap.faults)
    ensures gas == Reported(reply, gasBefore)
    ensures match reply
            case Returns(Json(text), _) => r == Ok(if parses then Response(text) else InvalidResponse(text))
            case Returns(MarshalError(message), _) => r == Err(Unknown(Lossy(Truncated(message))))
            case Panics(outOfGas, _) => r == Err(if outOfGas then GasDepleted else ForeignPanic)
  {
    var output := new VectorSlot();
    var errorMsg := new VectorSlot();
    var usedGas := new GasSlot();
    var code := CQueryExternal(heap, gasBefore, reply, usedGas, output, errorMsg);
    var data := heap.Consume(output.v);
    gas := usedGas.v;
    var res := IntoResult(heap, code, errorMsg.v, default);
    if res.Err? {
      return Err(res.error), gas;
    }
    var binResult := if data.Some? then data.value else [];
    r := Ok(if parses then Response(binResult) else InvalidResponse(binResult));
  }
}
