/**
 * The repository's own implementations of the store and meter interfaces: MemDB, the mock gas
 * meter and Lookup, which charges the meter and panics where MemDB returns an error.
 */
module MockStore {
  import opened ByteStrings
  import opened Ranges
  import opened Traversal
  import opened IteratorFrames
  import opened Callbacks
  import opened GasRuns
  import opened Isolation
  import opened EndToEnd
  import opened Invocations
  import opened ContractRun

  datatype DbResult<+T> = Ok(value: T) | KeyEmpty | ValueNil

  class MemDB {
    var items: seq<Item>

    ghost predicate Valid()
      reads this
    {
      Ascending(items)
    }

    constructor ()
      ensures Valid() && items == []
    {
      items := [];
    }

    method Get(key: Bytes) returns (r: DbResult<Option<Bytes>>)
      requires Valid()
      ensures r == if key == [] then KeyEmpty else Ok(Ranges.Lookup(items, key))
      ensures r.Ok? ==> forall v :: r.value == Some(v) <==> Item(key, v) in items
    {
      if |key| == 0 {
        return KeyEmpty;
      }
      LookupMeans(items, key);
      return Ok(Ranges.Lookup(items, key));
    }

    /** A successful Set changes the value of one key. */
    method Set(key: Bytes, value: Option<Bytes>) returns (r: DbResult<()>)
      requires Valid()
      modifies this
      ensures Valid()
      ensures r == if key == [] then KeyEmpty else if value.None? then ValueNil else Ok(())
      ensures !r.Ok? ==> unchanged(this)
      ensures r.Ok? ==> items == Put(old(items), key, value.value)
      ensures r.Ok? ==> forall q :: Ranges.Lookup(items, q) == if q == key then value else old(Ranges.Lookup(items, q))
    {
      if |key| == 0 {
        return KeyEmpty;
      }
      if value == None {
        return ValueNil;
      }
      PutCorrect(items, key, value.value);
      items := Put(items, key, value.value);
      return Ok(());
    }

    /** A successful Delete forgets one key. */
    method Delete(key: Bytes) returns (r: DbResult<()>)
      requires Valid()
      modifies this
      ensures Valid()
      ensures r == if key == [] then KeyEmpty else Ok(())
      ensures !r.Ok? ==> unchanged(this)
      ensures r.Ok? ==> items == Ranges.Remove(old(items), key)
      ensures r.Ok? ==> forall q :: Ranges.Lookup(items, q) == if q == key then None else old(Ranges.Lookup(items, q))
    {
      if |key| == 0 {
        return KeyEmpty;
      }
      RemoveCorrect(items, key);
      items := Ranges.Remove(items, key);
      return Ok(());
    }

    /** Iterator and ReverseIterator: an empty bound that is not nil is refused. */
    method Iterator(start: Option<Bytes>, end: Option<Bytes>, reverse: bool) returns (r: DbResult<seq<Item>>)
      requires Valid()
      ensures r == if start == Some([]) || end == Some([]) then KeyEmpty else Ok(RangeOf(items, start, end, reverse))
      ensures r.Ok? ==> Sorted(r.value, reverse) && forall x :: x in r.value <==> x in items && Within(x.key, start, end)
    {
      if (start.Some? && |start.value| == 0) || (end.Some? && |end.value| == 0) {
        return KeyEmpty;
      }
      var sent := Traverse(items, start, end, reverse);
      RangeOfCharacterized(items, start, end, reverse);
      return Ok(sent);
    }
  }

  class MockGasMeter {
    const limit: u64
    var consumed: u64

    constructor (limit: u64)
      ensures this.limit == limit && consumed == 0
    {
      this.limit, consumed := limit, 0;
    }

    /** Some when it panics, with whether that is for lack of gas. */
    method ConsumeGas(amount: u64) returns (outOfGas: Option<bool>)
      modifies this
      ensures consumed == GasRuns.ConsumeGas(old(consumed), limit, amount).consumed
      ensures outOfGas.None? <==> old(consumed) + amount < TWO_TO_64 && old(consumed) + amount <= limit
      ensures outOfGas == Some(true) <==> limit < old(consumed) + amount < TWO_TO_64
      ensures consumed == if old(consumed) + amount < TWO_TO_64 then old(consumed) + amount else 0
      ensures outOfGas.Some? ==> GasRuns.ConsumeGas(old(consumed), limit, amount) == ChargePanics(consumed, outOfGas.value)
    {
      var overflow;
      var (sum, o) := AddUint64Overflow(consumed, amount);
      consumed, overflow := sum, o;
      if overflow {
        return Some(false);
      }
      if consumed > limit {
        return Some(true);
      }
      return None;
    }
  }

  const GET_PRICE: u64 := 99000
  const SET_PRICE: u64 := 187000
  const REMOVE_PRICE: u64 := 142000
  const RANGE_PRICE: u64 := 261000

  /** Charge first, then answer or panic. */
  function Priced<T>(consumed: u64, limit: u64, price: u64, answer: Option<T>): (r: Reply<T>) {
    match GasRuns.ConsumeGas(consumed, limit, price)
    case ChargePanics(reading, outOfGas) => Panics(outOfGas, reading)
    case Charged(reading) => if answer.Some? then Returns(answer.value, reading) else Panics(false, reading)
  }

  function Ranged(items: seq<Item>, start: Option<Bytes>, end: Option<Bytes>, reverse: bool): (r: Option<seq<Item>>) {
    if start == Some([]) || end == Some([]) then None else Some(RangeOf(items, start, end, reverse))
  }

  /** A Lookup over the given content and meter, by its answers. */
  function LookupStore(items: seq<Item>, consumed: u64, limit: u64): (s: KVStore) {
    KVStore(
      key => Priced(consumed, limit, GET_PRICE, if key == [] then None else Some(Ranges.Lookup(items, key))),
      (key, value) => Priced(consumed, limit, SET_PRICE, if key == [] then None else Some(())),
      key => Priced(consumed, limit, REMOVE_PRICE, if key == [] then None else Some(())),
      (start, end) => Priced(consumed, limit, RANGE_PRICE, Ranged(items, start, end, false)),
      (start, end) => Priced(consumed, limit, RANGE_PRICE, Ranged(items, start, end, true)))
  }

  /**
   * Paying comes first: a call returns if and only if its argument is fine and the gas suffices, and
   * it panics for lack of gas if and only if the limit is passed without overflow, which empties the
   * meter.
   */
  predicate Pays<T>(before: u64, limit: u64, price: nat, fine: bool, r: Reply<T>) {
    && (r.Returns? <==> fine && before + price <= limit)
    && r.meter == (if before + price < TWO_TO_64 then before + price else 0)
    && (r.Panics? ==> (r.outOfGas <==> limit < before + price < TWO_TO_64))
  }

  class Lookup {
    const db: MemDB
    const meter: MockGasMeter

    constructor (db: MemDB, meter: MockGasMeter)
      ensures this.db == db && this.meter == meter
    {
      this.db, this.meter := db, meter;
    }

    ghost function View(): (s: KVStore)
      reads db, meter
    {
      LookupStore(db.items, meter.consumed, meter.limit)
    }

    method Get(key: Bytes) returns (r: Reply<Option<Bytes>>)
      requires db.Valid()
      modifies meter
      ensures r == old(View()).finds(key) && r.meter == meter.consumed
      ensures Pays(old(meter.consumed), meter.limit, 99000, key != [], r)
      ensures r.Returns? ==> forall v :: r.value == Some(v) <==> Item(key, v) in db.items
    {
      var p := meter.ConsumeGas(GET_PRICE);
      if p.Some? {
        return Panics(p.value, meter.consumed);
      }
      var v := db.Get(key);
      return if v.Ok? then Returns(v.value, meter.consumed) else Panics(false, meter.consumed);
    }

    /** The content changes exactly when the call returns. */
    method Set(key: Bytes, value: Bytes) returns (r: Reply<()>)
      requires db.Valid()
      modifies db, meter
      ensures db.Valid() && r == old(View()).writes(key, value) && r.meter == meter.consumed
      ensures db.items == if r.Returns? then Put(old(db.items), key, value) else old(db.items)
      ensures Pays(old(meter.consumed), meter.limit, 187000, key != [], r)
      ensures r.Returns? ==>
                forall q :: Ranges.Lookup(db.items, q) == if q == key then Some(value) else old(Ranges.Lookup(db.items, q))
    {
      var p := meter.ConsumeGas(SET_PRICE);
      if p.Some? {
        return Panics(p.value, meter.consumed);
      }
      var v := db.Set(key, Some(value));
      return if v.Ok? then Returns((), meter.consumed) else Panics(false, meter.consumed);
    }

    method Delete(key: Bytes) returns (r: Reply<()>)
      requires db.Valid()
      modifies db, meter
      ensures db.Valid() && r == old(View()).deletes(key) && r.meter == meter.consumed
      ensures db.items == if r.Returns? then Ranges.Remove(old(db.items), key) else old(db.items)
      ensures Pays(old(meter.consumed), meter.limit, 142000, key != [], r)
      ensures r.Returns? ==> forall q :: Ranges.Lookup(db.items, q) == if q == key then None else old(Ranges.Lookup(db.items, q))
    {
      var p := meter.ConsumeGas(REMOVE_PRICE);
      if p.Some? {
        return Panics(p.value, meter.consumed);
      }
      var v := db.Delete(key);
      return if v.Ok? then Returns((), meter.consumed) else Panics(false, meter.consumed);
    }

    method Iterator(start: Option<Bytes>, end: Option<Bytes>, reverse: bool) returns (r: Reply<seq<Item>>)
      requires db.Valid()
      modifies meter
      ensures r == (if reverse then old(View()).descends(start, end) else old(View()).ascends(start, end))
      ensures r.meter == meter.consumed
      ensures Pays(old(meter.consumed), meter.limit, 261000, start != Some([]) && end != Some([]), r)
      ensures r.Returns? ==> Sorted(r.value, reverse) && forall x :: x in r.value <==> x in db.items && Within(x.key, start, end)
    {
      var p := meter.ConsumeGas(RANGE_PRICE);
      if p.Some? {
        return Panics(p.value, meter.consumed);
      }
      var v := db.Iterator(start, end, reverse);
      return if v.Ok? then Returns(v.value, meter.consumed) else Panics(false, meter.consumed);
    }
  }

  /** A scan of a Lookup succeeds, with the range, if and only if its bounds and the gas allow it. */
  lemma LookupScans(items: seq<Item>, consumed: u64, limit: u64, start: Option<Bytes>, end: Option<Bytes>, reverse: bool)
    ensures ScanItems(OpScan(LookupStore(items, consumed, limit), start, end, reverse))
            == if start != Some([]) && end != Some([]) && consumed + RANGE_PRICE <= limit
               then Some(RangeOf(items, start, end, reverse)) else None
  {
  }

  // Contracts that work on a Lookup.

  predicate StoreOp(op: Op) { op.OpGet? || op.OpSet? || op.OpRemove? || op.OpScan? }

  /** The content of the database after an operation: only a write that returned changes it. */
  function ContentAfterOp(items: seq<Item>, op: Op): (r: seq<Item>) {
    if op.OpSet? && op.store.writes(op.key, op.value).Returns? then Put(items, op.key, op.value)
    else if op.OpRemove? && op.store.deletes(op.key).Returns? then Ranges.Remove(items, op.key)
    else items
  }

  function ContentAfter(items: seq<Item>, ops: seq<Op>): (r: seq<Item>) {
    if ops == [] then items else ContentAfterOp(ContentAfter(items, ops[..|ops| - 1]), ops[|ops| - 1])
  }

  /** The last word of the contract's own writes on a key. */
  function LastWrite(before: Option<Bytes>, ops: seq<Op>, key: Bytes): (r: Option<Bytes>) {
    if ops == [] then before
    else
      var op := ops[|ops| - 1];
      if op.OpSet? && op.key == key && op.store.writes(op.key, op.value).Returns? then Some(op.value)
      else if op.OpRemove? && op.key == key && op.store.deletes(op.key).Returns? then None
      else LastWrite(before, ops[..|ops| - 1], key)
  }

  lemma {:induction false} ContentIsLastWrites(items: seq<Item>, ops: seq<Op>)
    requires Ascending(items)
    ensures Ascending(ContentAfter(items, ops))
    ensures forall key :: Ranges.Lookup(ContentAfter(items, ops), key) == LastWrite(Ranges.Lookup(items, key), ops, key)
  {
    if ops != [] {
      var op, front := ops[|ops| - 1], ops[..|ops| - 1];
      ContentIsLastWrites(items, front);
      if op.OpSet? { PutCorrect(ContentAfter(items, front), op.key, op.value); }
      if op.OpRemove? { RemoveCorrect(ContentAfter(items, front), op.key); }
    }
  }

  /** Every store operation is answered by a Lookup over the content at that moment. */
  ghost predicate OnLookup(items: seq<Item>, limit: u64, ops: seq<Op>) {
    forall i :: 0 <= i < |ops| && StoreOp(ops[i]) ==>
      exists consumed: u64 :: ops[i].store == LookupStore(ContentAfter(items, ops[..i]), consumed, limit)
  }

  datatype Command =
    | Get(key: Bytes)
    | Set(key: Bytes, value: Bytes)
    | Delete(key: Bytes)
    | Scan(start: Option<Bytes>, end: Option<Bytes>, descending: bool)

  /** What a store operation asks for. */
  function CommandOf(op: Op): (c: Command)
    requires StoreOp(op)
  {
    match op
    case OpGet(_, key) => Get(key)
    case OpSet(_, key, value) => Set(key, value)
    case OpRemove(_, key) => Delete(key)
    case OpScan(_, start, end, descending) => Command.Scan(start, end, descending)
  }

  /** Sends one command to a Lookup and records it as the operation that it answers. */
  method Answer(lookup: Lookup, c: Command) returns (op: Op)
    requires lookup.db.Valid()
    modifies lookup.db, lookup.meter
    ensures lookup.db.Valid() && StoreOp(op) && CommandOf(op) == c
    ensures op.store == LookupStore(old(lookup.db.items), old(lookup.meter.consumed), lookup.meter.limit)
    ensures lookup.db.items == ContentAfterOp(old(lookup.db.items), op)
  {
    var store := LookupStore(lookup.db.items, lookup.meter.consumed, lookup.meter.limit);
    match c {
      case Get(key) =>
        var _ := lookup.Get(key);
        op := OpGet(store, key);
      case Set(key, value) =>
        var _ := lookup.Set(key, value);
        op := OpSet(store, key, value);
      case Delete(key) =>
        var _ := lookup.Delete(key);
        op := OpRemove(store, key);
      case Scan(start, end, descending) =>
        var _ := lookup.Iterator(start, end, descending);
        op := OpScan(store, start, end, descending);
    }
  }

  lemma OnLookupAppend(items: seq<Item>, limit: u64, ops: seq<Op>, op: Op, consumed: u64)
    requires OnLookup(items, limit, ops) && StoreOp(op) && op.store == LookupStore(ContentAfter(items, ops), consumed, limit)
    ensures OnLookup(items, limit, ops + [op])
    ensures ContentAfter(items, ops + [op]) == ContentAfterOp(ContentAfter(items, ops), op)
  {
    var all := ops + [op];
    assert all[..|ops|] == ops;
    forall i | 0 <= i < |all| && StoreOp(all[i])
      ensures exists c: u64 :: all[i].store == LookupStore(ContentAfter(items, all[..i]), c, limit)
    {
      if i < |ops| { assert all[i] == ops[i] && all[..i] == ops[..i]; }
    }
  }

  /** A whole program on one Lookup: every operation finds the content that the earlier ones left. */
  method AnswerAll(lookup: Lookup, program: seq<Command>) returns (ops: seq<Op>)
    requires lookup.db.Valid()
    modifies lookup.db, lookup.meter
    ensures lookup.db.Valid() && |ops| == |program|
    ensures forall i :: 0 <= i < |ops| ==> StoreOp(ops[i]) && CommandOf(ops[i]) == program[i]
    ensures OnLookup(old(lookup.db.items), lookup.meter.limit, ops)
    ensures lookup.db.items == ContentAfter(old(lookup.db.items), ops)
  {
    ghost var items, limit := lookup.db.items, lookup.meter.limit;
    ops := [];
    for i := 0 to |program|
      invariant lookup.db.Valid() && |ops| == i
      invariant forall j :: 0 <= j < i ==> StoreOp(ops[j]) && CommandOf(ops[j]) == program[j]
      invariant OnLookup(items, limit, ops) && lookup.db.items == ContentAfter(items, ops)
    {
      ghost var consumed := lookup.meter.consumed;
      var op := Answer(lookup, program[i]);
      OnLookupAppend(items, limit, ops, op, consumed);
      ops := ops + [op];
    }
  }

  lemma {:induction false} ScansOfPrefix(ops: seq<Op>, p: nat)
    requires p <= |ops|
    ensures ScansOf(ops[..p]) <= ScansOf(ops)
  {
    if p < |ops| {
      var front := ops[..|ops| - 1];
      ScansOfPrefix(front, p);
      assert front[..p] == ops[..p];
    } else {
      assert ops[..p] == ops;
    }
  }

  lemma LookupScanFinds(items: seq<Item>, limit: u64, ops: seq<Op>, p: nat)
    requires OnLookup(items, limit, ops) && p < |ops| && ops[p].OpScan? && ScanItems(ops[p]).Some?
    ensures ScanItems(ops[p]).value == RangeOf(ContentAfter(items, ops[..p]), ops[p].start, ops[p].end, ops[p].descending)
  {
    var op := ops[p];
    var consumed: u64 :| op.store == LookupStore(ContentAfter(items, ops[..p]), consumed, limit);
    LookupScans(ContentAfter(items, ops[..p]), consumed, limit, op.start, op.end, op.descending);
    assert op == OpScan(LookupStore(ContentAfter(items, ops[..p]), consumed, limit), op.start, op.end, op.descending);
  }

  /**
   * From the database to the contract. A contract on a fresh call does anything at all with a
   * Lookup; its p-th operation is a scan that succeeds, as the k-th one. Then the answers to next,
   * next_key and next_value on iterator ID k show, one after the other, the records of the sorted
   * or reversed range of the database as the contract's own writes before the scan left it, and
   * then None, whatever the contract writes later.
   */
  lemma LookupScanDeliversRange(items: seq<Item>, limit: u64, ops: seq<Op>, p: nat, k: nat)
    requires OnLookup(items, limit, ops) && p < |ops| && ops[p].OpScan? && ScanItems(ops[p]).Some?
    requires k == |ScansOf(ops[..p])| < FRAME_LEN_LIMIT
    requires NoPanic(Answers(SessionOps(NewSession, ops).log, k))
    ensures var answers := Answers(SessionOps(NewSession, ops).log, k);
            var records := RangeOf(ContentAfter(items, ops[..p]), ops[p].start, ops[p].end, ops[p].descending);
            forall i :: 0 <= i < |answers| ==> Expected(answers[i], records, i)
  {
    LookupScanFinds(items, limit, ops, p);
    var upTo := ops[..p + 1];
    assert upTo[..|upTo| - 1] == ops[..p] && upTo[|upTo| - 1] == ops[p];
    assert ScansOf(upTo) == ScansOf(ops[..p]) + [ScanItems(ops[p]).value];
    ScansOfPrefix(ops, p + 1);
    ContractSeesRecords(ops, SessionOps(NewSession, ops).log, k);
  }
}
