/**
 * The Go callbacks that Rust reaches through its vtables. They write their results through out
 * pointers, may panic anywhere inside foreign code, and turn a recovered panic into a status.
 */
module Callbacks {
  import opened ByteStrings
  import opened Ranges
  import opened IteratorFrames
  import opened Protocol
  import opened Memory

  datatype GoError = NoError | Panic | BadArgumentError | OutOfGas | CannotSerialize | User | Other

  /** Where a caller wants a vector, a gas amount or an iterator reference written. */
  class VectorSlot {
    var v: UnmanagedVector

    constructor ()
      ensures v == NoneVector
    {
      v := NoneVector;
    }
  }

  class GasSlot {
    var v: u64

    constructor ()
      ensures v == 0
    {
      v := 0;
    }
  }

  class ReferenceSlot {
    var ref: IteratorReference

    /** GoIter::stub. */
    constructor ()
      ensures ref == IteratorReference(0, 0)
    {
      ref := IteratorReference(0, 0);
    }
  }

  class GasMeter {
    var consumed: u64

    constructor (consumed: u64)
      ensures this.consumed == consumed
    {
      this.consumed := consumed;
    }
  }

  /** What a call into foreign Go code does: `meter` is the gas meter's reading when it is over. */
  datatype Reply<+T> = Returns(value: T, meter: u64) | Panics(outOfGas: bool, meter: u64)

  /** types.KVStore, by its answers at the time of the callback. */
  datatype KVStore = KVStore(
    finds: Bytes -> Reply<Option<Bytes>>,
    writes: (Bytes, Bytes) -> Reply<()>,
    deletes: Bytes -> Reply<()>,
    ascends: (Option<Bytes>, Option<Bytes>) -> Reply<seq<Item>>,
    descends: (Option<Bytes>, Option<Bytes>) -> Reply<seq<Item>>)

  datatype DbState = DbState(store: KVStore, callID: u64)

  /** What Key, Value and Next of a retrieved, valid iterator do. */
  datatype IteratorFate = Advances(meter: u64) | Fails(outOfGas: bool, meter: u64, advanced: bool)

  /** uint64 subtraction. */
  function Sub64(a: u64, b: u64): (r: u64)
    ensures a >= b ==> r == a - b
  {
    (a - b + TWO_TO_64) % TWO_TO_64
  }

  /** recoverPanic. */
  function Recovered(outOfGas: bool): (r: GoError) {
    if outOfGas then OutOfGas else Panic
  }

  const LIMIT_TEXT := "reached iterator limit (32768)"
  const CONVERSION_TEXT := "could not convert index to iterator ID"
  const LimitMessage := Ascii(LIMIT_TEXT)
  const ConversionMessage := Ascii(CONVERSION_TEXT)

  method CGet(heap: VectorHeap, db: DbState, meter: GasMeter, usedGas: GasSlot, key: Bytes,
              val: VectorSlot, errOut: VectorSlot) returns (ret: GoError)
    requires heap.Valid()
    modifies heap, meter, usedGas, val
    ensures heap.Valid() && heap.faults == old(heap.faults)
    ensures !old(val.v).isNone ==> ret == Panic && unchanged(heap, meter, usedGas, val)
    ensures old(val.v).isNone ==>
              match db.store.finds(key)
              case Panics(outOfGas, after) =>
                ret == Recovered(outOfGas) && meter.consumed == after && unchanged(heap, usedGas, val)
              case Returns(value, after) =>
                && ret == NoError && meter.consumed == after && usedGas.v == Sub64(after, old(meter.consumed))
                && heap.Owned(val.v) && heap.Content(val.v) == value && heap.Without(val.v) == old(heap.live)
  {
    // errOut is not used
    if !val.v.isNone {
      return Panic;
    }
    var gasBefore := meter.consumed;
    match db.store.finds(key) {
      case Panics(outOfGas, after) =>
        meter.consumed := after;
        return Recovered(outOfGas);
      case Returns(v, after) =>
        meter.consumed := after;
        usedGas.v := Sub64(after, gasBefore);
        val.v := heap.FromGo(v);
        return NoError;
    }
  }

  /** cSet and cDelete, which differ in the store method they call: gas is reported unless it panicked. */
  method CWrite(reply: Reply<()>, meter: GasMeter, usedGas: GasSlot) returns (ret: GoError)
    modifies meter, usedGas
    ensures match reply
            case Panics(outOfGas, after) => ret == Recovered(outOfGas) && meter.consumed == after && unchanged(usedGas)
            case Returns(_, after) =>
              ret == NoError && meter.consumed == after && usedGas.v == Sub64(after, old(meter.consumed))
  {
    var gasBefore := meter.consumed;
    meter.consumed := reply.meter;
    if reply.Panics? {
      return Recovered(reply.outOfGas);
    }
    usedGas.v := Sub64(meter.consumed, gasBefore);
    return NoError;
  }

  /** The store's answer to a scan in the given order: 1 is ascending, 2 is descending. */
  function ScanReply(store: KVStore, start: Option<Bytes>, end: Option<Bytes>, order: int): (r: Option<Reply<seq<Item>>>) {
    match order
    case 1 => Some(store.ascends(start, end))
    case 2 => Some(store.descends(start, end))
    case _ => None
  }

  /** buildIterator. */
  method BuildIterator(table: FrameTable, callID: u64, it: nat) returns (ref: IteratorReference, err: Option<Bytes>)
    modifies table
    ensures table.View() == old(table.View()).Store(callID, it, FRAME_LEN_LIMIT).0
    ensures old(table.Closed()) && it < |old(table.iterators)| ==> table.Closed()
    ensures match old(table.View()).Store(callID, it, FRAME_LEN_LIMIT).1
            case Stored(id) => err == None && ref == IteratorReference(callID, id)
            case LimitReached => err == Some(LimitMessage)
            case NoSuchId => err == Some(ConversionMessage)
  {
    var r := table.StoreIterator(callID, it, FRAME_LEN_LIMIT);
    match r {
      case Stored(id) => return IteratorReference(callID, id), None;
      case LimitReached => return IteratorReference(0, 0), Some(LimitMessage);
      case NoSuchId => return IteratorReference(0, 0), Some(ConversionMessage);
    }
  }

  method CScan(heap: VectorHeap, table: FrameTable, db: DbState, meter: GasMeter, usedGas: GasSlot,
               start: Option<Bytes>, end: Option<Bytes>, order: int, out: ReferenceSlot, errOut: VectorSlot)
    returns (ret: GoError)
    requires heap.Valid() && table.Closed()
    modifies heap, table, meter, usedGas, out, errOut
    ensures heap.Valid() && heap.faults == old(heap.faults) && table.Closed()
    ensures !old(errOut.v).isNone ==> ret == Panic && unchanged(heap, table, meter, usedGas, out, errOut)
    ensures old(errOut.v).isNone ==>
              match ScanReply(db.store, start, end, order)
              case None => ret == BadArgumentError && unchanged(heap, table, meter, usedGas, out, errOut)
              case Some(Panics(outOfGas, after)) =>
                ret == Recovered(outOfGas) && meter.consumed == after && unchanged(heap, table, usedGas, out, errOut)
              case Some(Returns(items, after)) =>
                && meter.consumed == after && usedGas.v == Sub64(after, old(meter.consumed))
                && var (t, stored) := old(table.View()).Create(items).Store(db.callID, |old(table.iterators)|, FRAME_LEN_LIMIT);
                   && table.View() == t
                   && match stored
                      case Stored(id) => ret == NoError && out.ref == IteratorReference(db.callID, id) && unchanged(heap, errOut)
                      case _ =>
                        && ret == User && unchanged(out)
                        && heap.Owned(errOut.v) && heap.Without(errOut.v) == old(heap.live)
                        && heap.Content(errOut.v) == Some(if stored.LimitReached? then LimitMessage else ConversionMessage)
  {
    if !errOut.v.isNone {
      return Panic;
    }
    var gasBefore := meter.consumed;
    var reply: Reply<seq<Item>>;
    match order {
      case 1 => reply := db.store.ascends(start, end);
      case 2 => reply := db.store.descends(start, end);
      case _ => return BadArgumentError;
    }
    if reply.Panics? {
      meter.consumed := reply.meter;
      return Recovered(reply.outOfGas);
    }
    var iter := |table.iterators|;
    table.iterators := table.iterators + [GoIterator(reply.value, 0)];
    meter.consumed := reply.meter;
    usedGas.v := Sub64(reply.meter, gasBefore);
    var ref, err := BuildIterator(table, db.callID, iter);
    if err.Some? {
      errOut.v := heap.FromGo(err);
      return User;
    }
    out.ref := ref;
    return NoError;
  }

  /** The iterator a reference leads to. */
  ghost function Target(t: Tables, ref: IteratorReference): (r: Option<nat>) {
    if ref.callId == 0 then None else t.Retrieve(ref.callId, ref.iteratorId)
  }

  /** An iterator call that panics has or has not moved the iterator. */
  function AfterFailure(t: Tables, h: nat, advanced: bool): (r: Tables)
    requires h < |t.iterators| && t.iterators[h].Valid()
  {
    if advanced then t.Advance(h) else t
  }

  /** Runs Key, Value and Next on a valid iterator, up to a panic. */
  method UseIterator(table: FrameTable, meter: GasMeter, h: nat, fate: IteratorFate)
    requires table.Closed() && h < |table.iterators| && table.iterators[h].Valid()
    modifies table, meter
    ensures table.Closed() && meter.consumed == fate.meter
    ensures table.View() == AfterFailure(old(table.View()), h, fate.Advances? || fate.advanced)
  {
    if fate.Advances? || fate.advanced {
      table.iterators := table.iterators[h := table.iterators[h].(rest := table.iterators[h].rest[1..])];
    }
    meter.consumed := fate.meter;
  }

  method CNext(heap: VectorHeap, table: FrameTable, ref: IteratorReference, meter: GasMeter, usedGas: GasSlot,
               key: VectorSlot, val: VectorSlot, errOut: VectorSlot, fate: IteratorFate) returns (ret: GoError)
    requires heap.Valid() && table.Closed() && key != val
    modifies heap, table, meter, usedGas, key, val
    ensures heap.Valid() && heap.faults == old(heap.faults) && table.Closed()
    ensures ref.callId == 0 ==> ret == BadArgumentError
    ensures ref.callId != 0 && (!old(key.v).isNone || !old(val.v).isNone) ==> ret == Panic
    ensures ret == BadArgumentError || !old(key.v).isNone || !old(val.v).isNone ==>
              unchanged(heap, table, meter, usedGas, key, val)
    ensures ref.callId != 0 && old(key.v).isNone && old(val.v).isNone ==>
              match Target(old(table.View()), ref)
              case None => ret == Panic && unchanged(heap, table, meter, usedGas, key, val)
              case Some(h) =>
                if old(table.iterators)[h].rest == [] then
                  ret == NoError && unchanged(heap, table, meter, usedGas, key, val)
                else
                  && meter.consumed == fate.meter
                  && table.View() == AfterFailure(old(table.View()), h, fate.Advances? || fate.advanced)
                  && match fate
                     case Fails(outOfGas, _, _) => ret == Recovered(outOfGas) && unchanged(heap, usedGas, key, val)
                     case Advances(_) =>
                       && ret == NoError && usedGas.v == Sub64(fate.meter, old(meter.consumed))
                       && heap.Owned(key.v) && heap.Content(key.v) == Some(old(table.iterators)[h].rest[0].key)
                       && heap.Owned(val.v) && heap.Content(val.v) == Some(old(table.iterators)[h].rest[0].value)
                       && heap.Separate(key.v, val.v) && heap.WithoutBoth(key.v, val.v) == old(heap.live)
  {
    if ref.callId == 0 {
      return BadArgumentError;
    }
    if !key.v.isNone || !val.v.isNone {
      return Panic;
    }
    var iter := table.RetrieveIterator(ref.callId, ref.iteratorId);
    if iter.None? {
      return Panic;
    }
    var h := iter.value;
    if !table.iterators[h].Valid() {
      return NoError;
    }
    var gasBefore := meter.consumed;
    var k := table.iterators[h].rest[0].key;
    var v := table.iterators[h].rest[0].value;
    UseIterator(table, meter, h, fate);
    if fate.Fails? {
      return Recovered(fate.outOfGas);
    }
    usedGas.v := Sub64(meter.consumed, gasBefore);
    key.v := heap.FromGo(Some(k));
    val.v := heap.FromGo(Some(v));
    return NoError;
  }

  /** nextPart, for cNextKey and cNextValue. */
  method CNextPart(heap: VectorHeap, table: FrameTable, ref: IteratorReference, meter: GasMeter, usedGas: GasSlot,
                   output: VectorSlot, errOut: VectorSlot, wantKey: bool, fate: IteratorFate) returns (ret: GoError)
    requires heap.Valid() && table.Closed()
    modifies heap, table, meter, usedGas, output
    ensures heap.Valid() && heap.faults == old(heap.faults) && table.Closed()
    ensures ref.callId == 0 ==> ret == BadArgumentError
    ensures ref.callId != 0 && !old(output.v).isNone ==> ret == Panic
    ensures ret == BadArgumentError || !old(output.v).isNone ==> unchanged(heap, table, meter, usedGas, output)
    ensures ref.callId != 0 && old(output.v).isNone ==>
              match Target(old(table.View()), ref)
              case None => ret == Panic && unchanged(heap, table, meter, usedGas, output)
              case Some(h) =>
                if old(table.iterators)[h].rest == [] then
                  ret == NoError && unchanged(heap, table, meter, usedGas, output)
                else
                  && meter.consumed == fate.meter
                  && table.View() == AfterFailure(old(table.View()), h, fate.Advances? || fate.advanced)
                  && match fate
                     case Fails(outOfGas, _, _) => ret == Recovered(outOfGas) && unchanged(heap, usedGas, output)
                     case Advances(_) =>
                       && ret == NoError && usedGas.v == Sub64(fate.meter, old(meter.consumed))
                       && heap.Owned(output.v) && heap.Without(output.v) == old(heap.live)
                       && var item := old(table.iterators)[h].rest[0];
                          heap.Content(output.v) == Some(if wantKey then item.key else item.value)
  {
    if ref.callId == 0 {
      return BadArgumentError;
    }
    if !output.v.isNone {
      return Panic;
    }
    var iter := table.RetrieveIterator(ref.callId, ref.iteratorId);
    if iter.None? {
      return Panic;
    }
    var h := iter.value;
    if !table.iterators[h].Valid() {
      return NoError;
    }
    var gasBefore := meter.consumed;
    var out := if wantKey then table.iterators[h].rest[0].key else table.iterators[h].rest[0].value;
    UseIterator(table, meter, h, fate);
    if fate.Fails? {
      return Recovered(fate.outOfGas);
    }
    usedGas.v := Sub64(meter.consumed, gasBefore);
    output.v := heap.FromGo(Some(out));
    return NoError;
  }

  // Address API and querier.

  /** What HumanizeAddress or CanonicalizeAddress does. */
  datatype AddressReply = Address(text: Bytes, cost: u64) | AddressError(message: Bytes, cost: u64) | AddressPanics(outOfGas: bool)

  /** cHumanizeAddress and cCanonicalizeAddress, which differ in the function they call. */
  method CAddress(heap: VectorHeap, reply: AddressReply, dest: VectorSlot, errOut: VectorSlot, usedGas: GasSlot)
    returns (ret: GoError)
    requires heap.Valid() && dest != errOut
    modifies heap, dest, errOut, usedGas
    ensures heap.Valid() && heap.faults == old(heap.faults)
    ensures !old(dest.v).isNone || !old(errOut.v).isNone ==> ret == Panic && unchanged(heap, dest, errOut, usedGas)
    ensures old(dest.v).isNone && old(errOut.v).isNone ==>
              match reply
              case AddressPanics(outOfGas) => ret == Recovered(outOfGas) && unchanged(heap, dest, errOut, usedGas)
              case AddressError(message, cost) =>
                && ret == User && usedGas.v == cost && unchanged(dest)
                && heap.Owned(errOut.v) && heap.Content(errOut.v) == Some(message) && heap.Without(errOut.v) == old(heap.live)
              case Address(text, cost) =>
                && usedGas.v == cost && unchanged(errOut)
                && if text == [] then ret == Panic && unchanged(heap, dest)
                   else ret == NoError && heap.Owned(dest.v) && heap.Content(dest.v) == Some(text)
                        && heap.Without(dest.v) == old(heap.live)
  {
    if !dest.v.isNone || !errOut.v.isNone {
      return Panic;
    }
    match reply {
      case AddressPanics(outOfGas) =>
        return Recovered(outOfGas);
      case AddressError(message, cost) =>
        usedGas.v := cost;
        errOut.v := heap.FromGo(Some(message));
        return User;
      case Address(text, cost) =>
        usedGas.v := cost;
        if |text| == 0 {
          return Panic;
        }
        dest.v := heap.FromGo(Some(text));
        return NoError;
    }
  }

  datatype ValidateReply = Accepts(cost: u64) | Rejects(message: Bytes, cost: u64) | ValidatePanics(outOfGas: bool)

  method CValidateAddress(heap: VectorHeap, reply: ValidateReply, errOut: VectorSlot, usedGas: GasSlot) returns (ret: GoError)
    requires heap.Valid()
    modifies heap, errOut, usedGas
    ensures heap.Valid() && heap.faults == old(heap.faults)
    ensures !old(errOut.v).isNone ==> ret == Panic && unchanged(heap, errOut, usedGas)
    ensures old(errOut.v).isNone ==>
              match reply
              case ValidatePanics(outOfGas) => ret == Recovered(outOfGas) && unchanged(heap, errOut, usedGas)
              case Rejects(message, cost) =>
                && ret == User && usedGas.v == cost
                && heap.Owned(errOut.v) && heap.Content(errOut.v) == Some(message) && heap.Without(errOut.v) == old(heap.live)
              case Accepts(cost) => ret == NoError && usedGas.v == cost && unchanged(heap, errOut)
  {
    if !errOut.v.isNone {
      return Panic;
    }
    match reply {
      case ValidatePanics(outOfGas) =>
        return Recovered(outOfGas);
      case Rejects(message, cost) =>
        usedGas.v := cost;
        errOut.v := heap.FromGo(Some(message));
        return User;
      case Accepts(cost) =>
        usedGas.v := cost;
        return NoError;
    }
  }

  /** The serialized query response, or why it cannot be serialized. */
  datatype Marshalled = Json(text: Bytes) | MarshalError(message: Bytes)

  /** The querier has its own gas reading; `gasBefore` is the one before the query. */
  method CQueryExternal(heap: VectorHeap, gasBefore: u64, reply: Reply<Marshalled>, usedGas: GasSlot,
                        result: VectorSlot, errOut: VectorSlot) returns (ret: GoError)
    requires heap.Valid() && result != errOut
    modifies heap, usedGas, result, errOut
    ensures heap.Valid() && heap.faults == old(heap.faults)
    ensures !old(result.v).isNone || !old(errOut.v).isNone ==> ret == Panic && unchanged(heap, usedGas, result, errOut)
    ensures old(result.v).isNone && old(errOut.v).isNone ==>
              match reply
              case Panics(outOfGas, _) => ret == Recovered(outOfGas) && unchanged(heap, usedGas, result, errOut)
              case Returns(Json(text), after) =>
                && ret == NoError && usedGas.v == Sub64(after, gasBefore) && unchanged(errOut)
                && heap.Owned(result.v) && heap.Content(result.v) == Some(text) && heap.Without(result.v) == old(heap.live)
              case Returns(MarshalError(message), after) =>
                && ret == CannotSerialize && usedGas.v == Sub64(after, gasBefore) && unchanged(result)
                && heap.Owned(errOut.v) && heap.Content(errOut.v) == Some(message) && heap.Without(errOut.v) == old(heap.live)
  {
    if !result.v.isNone || !errOut.v.isNone {
      return Panic;
    }
    if reply.Panics? {
      return Recovered(reply.outOfGas);
    }
    usedGas.v := Sub64(reply.meter, gasBefore);
    match reply.value {
      case MarshalError(message) =>
        errOut.v := heap.FromGo(Some(message));
        return CannotSerialize;
      case Json(text) =>
        result.v := heap.FromGo(Some(text));
        return NoError;
    }
  }
}
