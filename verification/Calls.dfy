/**
 * A whole contract call, through both languages: Go opens a call and a frame, Rust checks its
 * arguments and runs the contract, Rust hands back a result and an error vector, Go destroys
 * what it has to and closes the frame. A query in between may run such calls again.
 */
module Calls {
  import opened ByteStrings
  import opened IteratorFrames
  import opened Protocol
  import opened Memory
  import opened Callbacks
  import opened Storage
  import opened GasRuns
  import opened Isolation
  import opened Invocations
  import opened ContractRun

  // Errors, as Rust writes them and Go reads them.

  const ERRNO_SUCCESS := 0
  const ERRNO_OTHER := 1
  const ERRNO_OUT_OF_GAS := 2

  /** set_error: overwrites the error slot and returns the errno it sets. */
  method SetError(heap: VectorHeap, err: RustError, errorMsg: VectorSlot) returns (errno: int)
    requires heap.Valid()
    modifies heap, errorMsg
    ensures heap.Valid() && heap.faults == old(heap.faults)
    ensures heap.Owned(errorMsg.v) && heap.Content(errorMsg.v) == Some(Display(err))
    ensures heap.Without(errorMsg.v) == old(heap.live)
    ensures errorMsg.v.len == |Display(err)|
    ensures errno == if err.OutOfGasError? then ERRNO_OUT_OF_GAS else ERRNO_OTHER
  {
    var msg := Display(err);
    errorMsg.v := heap.New(Some(Vec(msg, |msg|)));
    errno := if err.OutOfGasError? then ERRNO_OUT_OF_GAS else ERRNO_OTHER;
  }

  /** handle_c_error_binary. On success the error slot is left alone. */
  method HandleCErrorBinary(heap: VectorHeap, result: RustResult, errorMsg: VectorSlot) returns (data: RustVec, errno: int)
    requires heap.Valid()
    modifies heap, errorMsg
    ensures heap.Valid() && heap.faults == old(heap.faults)
    ensures result.Done? ==> data == result.data && errno == ERRNO_SUCCESS && unchanged(heap, errorMsg)
    ensures result.Failed? ==>
              && data == Vec([], 0)
              && heap.Owned(errorMsg.v) && heap.Content(errorMsg.v) == Some(Display(result.error))
              && heap.Without(errorMsg.v) == old(heap.live) && errorMsg.v.len == |Display(result.error)|
              && errno == if result.error.OutOfGasError? then ERRNO_OUT_OF_GAS else ERRNO_OTHER
  {
    match result {
      case Done(value) =>
        return value, ERRNO_SUCCESS;
      case Failed(error) =>
        errno := SetError(heap, error, errorMsg);
        data := Vec([], 0);
    }
  }

  /** What crosses to Go: an error number and the one vector that holds the data or the message. */
  ghost predicate Carries(heap: VectorHeap, verdict: RustResult, errno: int, res: UnmanagedVector, msg: UnmanagedVector,
                          before: map<nat, Vec>)
    reads heap
  {
    match verdict
    case Done(data) =>
      && errno == ERRNO_SUCCESS
      && heap.Owned(res) && heap.Content(res) == Some(data.data) && heap.Without(res) == before
    case Failed(error) =>
      && errno == (if error.OutOfGasError? then ERRNO_OUT_OF_GAS else ERRNO_OTHER)
      && !res.Backed() && heap.Owned(msg) && heap.Content(msg) == Some(Display(error)) && heap.Without(msg) == before
  }

  /** The end of call_2_args: the error slot or the result vector gets the outcome. */
  method HandOver(heap: VectorHeap, r: RustResult, errorMsg: VectorSlot) returns (res: UnmanagedVector, errno: int)
    requires heap.Valid()
    modifies heap, errorMsg
    ensures heap.Valid() && heap.faults == old(heap.faults)
    ensures Carries(heap, r, errno, res, errorMsg.v, old(heap.live))
  {
    var data;
    data, errno := HandleCErrorBinary(heap, r, errorMsg);
    res := heap.New(Some(data));
  }

  // What a call may leave on the heap.

  /** Nothing is lost of what was alive, and something is added exactly when there was a leak. */
  ghost predicate Grown(before: map<nat, Vec>, after: map<nat, Vec>, leaked: bool) {
    (forall p :: p in before ==> p in after && after[p] == before[p]) && (after == before <==> !leaked)
  }

  lemma GrownTwice(a: map<nat, Vec>, b: map<nat, Vec>, c: map<nat, Vec>, first: bool, second: bool)
    requires Grown(a, b, first) && Grown(b, c, second)
    ensures Grown(a, c, first || second)
  {
    if c == a { assert b == a; }
  }

  // Go: Instantiate and its siblings.

  datatype GoResult = Data(data: Option<Bytes>) | GoOutOfGas | GoErrorText(text: Bytes) | GoErrno(errno: int) | GoPanics

  /** errorWithMessage. */
  method ErrorWithMessage(heap: VectorHeap, errno: int, b: UnmanagedVector) returns (r: GoResult)
    requires heap.Valid()
    modifies heap
    ensures heap.Valid()
    ensures old(heap.Owned(b)) ==>
              && heap.faults == old(heap.faults)
              && heap.live == (if r.GoPanics? then old(heap.live) else old(heap.Without(b)))
              && r == ErrorText(errno, Copy(old(heap.Content(b))))
              && (!r.GoPanics? ==> (r.GoOutOfGas? <==> errno == 2))
              && (errno != 2 && old(heap.Content(b)).None? ==> r == GoErrno(errno))
  {
    var msg := heap.CopyAndDestroy(b);
    if msg.LengthPanic? {
      return GoPanics;
    }
    if errno == 2 {
      return GoOutOfGas;
    }
    if msg.data.None? {
      return GoErrno(errno);
    }
    return GoErrorText(msg.data.value);
  }

  function ErrorText(errno: int, msg: GoCopy): (r: GoResult) {
    if msg.LengthPanic? then GoPanics
    else if errno == 2 then GoOutOfGas
    else if msg.data.None? then GoErrno(errno)
    else GoErrorText(msg.data.value)
  }

  /** What the Go caller is told. */
  function Told(r: RustResult): (g: GoResult) {
    match r
    case Done(data) => Data(Some(data.data))
    case Failed(error) => if error.OutOfGasError? then GoOutOfGas else GoErrorText(Display(error))
  }

  /** The lengths that Go's GoBytes can take. */
  predicate Small(r: RustResult) { Length(r) < 0x8000_0000 }

  // What the caller is told, in terms of the call itself.

  /** Cache, gas report, checksum and all arguments are there, and the checksum has its length. */
  predicate GoodArguments(c: Invocation) {
    && !c.nullCache && !c.noReport && c.checksum.Some? && |c.checksum.value| == 32
    && forall i :: 0 <= i < |c.args| ==> c.args[i].Some?
  }

  /** The text of the error, behind a prefix of 22 bytes, is shorter than 2 GiB. */
  predicate Brief(e: VmError) { e.OtherVmError? ==> 22 + |e.message| < 0x8000_0000 }

  /** What the call ends with is shorter than 2 GiB. */
  predicate BriefCall(c: Invocation) {
    GoodArguments(c) ==>
      match c.vm.instance
      case Refused(e) => Brief(e)
      case InstanceUnwinds => true
      case Ready =>
        match c.vm.ending
        case Finishes(d) => |d.data| < 0x8000_0000
        case Traps(e) => Brief(e)
        case VmUnwinds => true
  }

  /** An error of the virtual machine: lack of gas is told apart, any other one by its text. */
  predicate TellsVmError(e: VmError, r: GoResult) {
    && (r.GoOutOfGas? <==> e == GasDepletion)
    && (e.OtherVmError? ==> r == GoErrorText(Ascii("Error calling the VM: ") + e.message))
  }

  /** A call whose arguments are fine. */
  predicate TellsEnding(vm: Vm, r: GoResult) {
    && (r.Data? <==> vm.instance.Ready? && vm.ending.Finishes?)
    && match vm.instance
       case Refused(e) => TellsVmError(e, r)
       case InstanceUnwinds => r == GoErrorText(Ascii("Caught panic"))
       case Ready =>
         match vm.ending
         case Finishes(d) => r == Data(Some(d.data))
         case Traps(e) => TellsVmError(e, r)
         case VmUnwinds => r == GoErrorText(Ascii("Caught panic"))
  }

  /** A call that the caller got wrong: the first of the mistakes is told. */
  predicate TellsMistake(c: Invocation, r: GoResult) {
    && (c.nullCache ==> r == GoErrorText(Ascii("Null/Nil argument: cache")))
    && (!c.nullCache && c.noReport ==> r == GoErrorText(Ascii("Empty argument: gas_report")))
    && (!c.nullCache && !c.noReport ==>
          && (c.checksum.None? ==> r == GoErrorText(Ascii("Null/Nil argument: checksum")))
          && (c.checksum.Some? && |c.checksum.value| != 32 ==> r == GoErrorText(Ascii("Checksum not of length 32")))
          && (c.checksum.Some? && |c.checksum.value| == 32 ==> TellsNil(c.args, r)))
  }

  predicate TellsNil(args: Args, r: GoResult) {
    && (|args| > 0 && args[0].None? ==> r == GoErrorText(Ascii("Null/Nil argument: arg1")))
    && (|args| > 1 && args[0].Some? && args[1].None? ==> r == GoErrorText(Ascii("Null/Nil argument: arg2")))
    && (|args| > 2 && args[0].Some? && args[1].Some? && args[2].None? ==> r == GoErrorText(Ascii("Null/Nil argument: arg3")))
  }

  /**
   * The whole of it: mistakes and endings reach the caller as they should, and the gas report is the
   * one of the virtual machine if and only if the contract ran to an end of its own, else all zero.
   */
  ghost predicate Tells(c: Invocation, r: GoResult, report: GasReport) {
    && (if GoodArguments(c) then TellsEnding(c.vm, r) else TellsMistake(c, r) && !r.Data? && !r.GoOutOfGas?)
    && report == if GoodArguments(c) && c.vm.instance.Ready? && !c.vm.ending.VmUnwinds? then c.vm.report
                 else GasReport(0, 0, 0, 0)
  }

  lemma {:induction false} NoNil(args: seq<Option<Bytes>>)
    ensures FirstNil(args) == |args| <==> forall i :: 0 <= i < |args| ==> args[i].Some?
  {
  }

  lemma Names(kind: string, name: string, text: string)
    requires kind + name == text
    ensures Ascii(kind) + Ascii(name) == Ascii(text)
  {
    AsciiAppend(kind, name);
  }

  lemma NilTexts()
    ensures Display(UnsetArg(Ascii("arg1"))) == Ascii("Null/Nil argument: arg1")
    ensures Display(UnsetArg(Ascii("arg2"))) == Ascii("Null/Nil argument: arg2")
    ensures Display(UnsetArg(Ascii("arg3"))) == Ascii("Null/Nil argument: arg3")
  {
    Names("Null/Nil argument: ", "arg1", "Null/Nil argument: arg1");
    Names("Null/Nil argument: ", "arg2", "Null/Nil argument: arg2");
    Names("Null/Nil argument: ", "arg3", "Null/Nil argument: arg3");
  }

  /** The name of the first missing argument. */
  lemma NilNamed(args: Args, name: Bytes)
    requires FirstNil(args) < |args| && name == ArgNames[FirstNil(args)]
    ensures |args| > 0 && args[0].None? ==> name == Ascii("arg1")
    ensures |args| > 1 && args[0].Some? && args[1].None? ==> name == Ascii("arg2")
    ensures |args| > 2 && args[0].Some? && args[1].Some? && args[2].None? ==> name == Ascii("arg3")
  {
  }

  lemma NilTold(args: Args, name: Bytes)
    requires |args| > 0 && args[0].None? ==> name == Ascii("arg1")
    requires |args| > 1 && args[0].Some? && args[1].None? ==> name == Ascii("arg2")
    requires |args| > 2 && args[0].Some? && args[1].Some? && args[2].None? ==> name == Ascii("arg3")
    ensures TellsNil(args, GoErrorText(Display(UnsetArg(name))))
  {
    NilTexts();
  }

  lemma MistakeTold(c: Invocation)
    requires !GoodArguments(c)
    ensures Small(Verdict(c)) && TellsMistake(c, Told(Verdict(c))) && !Told(Verdict(c)).Data? && !Told(Verdict(c)).GoOutOfGas?
  {
    NoNil(c.args);
    Names("Null/Nil argument: ", "cache", "Null/Nil argument: cache");
    Names("Empty argument: ", "gas_report", "Empty argument: gas_report");
    Names("Null/Nil argument: ", "checksum", "Null/Nil argument: checksum");
    if FirstNil(c.args) < |c.args| {
      NilNamed(c.args, ArgNames[FirstNil(c.args)]);
      NilTold(c.args, ArgNames[FirstNil(c.args)]);
    }
  }

  lemma EndingTold(c: Invocation)
    requires GoodArguments(c)
    ensures Small(Verdict(c)) <==> BriefCall(c)
    ensures TellsEnding(c.vm, Told(Verdict(c)))
  {
    NoNil(c.args);
  }

  /** What counts as told is what the call itself asks for, and short texts are short endings. */
  lemma VerdictTold(c: Invocation)
    ensures Small(Verdict(c)) <==> BriefCall(c)
    ensures Tells(c, Told(Verdict(c)), ReportOf(c))
  {
    NoNil(c.args);
    if GoodArguments(c) { EndingTold(c); } else { MistakeTold(c); }
  }

  /**
   * Go's side of the return: an error with its message, or the data. The verdict is told if and
   * only if it is shorter than 2 GiB; GoBytes panics, and the vector leaks, if and only if the
   * length turns negative as a C int.
   */
  method TakeResult(heap: VectorHeap, ghost verdict: RustResult, errno: int, res: UnmanagedVector, errmsg: UnmanagedVector,
                    ghost before: map<nat, Vec>)
    returns (r: GoResult)
    requires heap.Valid() && Carries(heap, verdict, errno, res, errmsg, before)
    modifies heap
    ensures heap.Valid() && heap.faults == old(heap.faults)
    ensures r == Told(verdict) <==> Small(verdict)
    ensures r.GoPanics? <==> CInt(Length(verdict)) < 0
    ensures Grown(before, heap.live, CInt(Length(verdict)) < 0)
  {
    if errno != ERRNO_SUCCESS {
      r := ErrorWithMessage(heap, errno, errmsg);
    } else {
      var data := heap.CopyAndDestroy(res);
      r := if data.LengthPanic? then GoPanics else Data(data.data);
    }
  }

  // Running a contract.

  /** What the contract gets to observe: nothing, if it is never started. */
  function Observed(c: Invocation): (r: seq<Answer>) { if Started(c) then SessionOps(NewSession, c.vm.ops).log else [] }

  /** The counter has room for so many more calls, and frames belong to calls that were started. */
  ghost predicate CounterAhead(t: Tables, calls: nat) { t.latestCallId + calls < TWO_TO_64 && NoFuture(t) }

  /** The contract calls that a query runs, one after the other, each with a meter of its own. */
  method RunNested(heap: VectorHeap, table: FrameTable, gasBefore: u64, cs: seq<Invocation>) returns (ghost accepted: set<nat>)
    requires heap.Valid() && table.Closed() && CounterAhead(table.View(), EffectOfAll(cs).calls)
    modifies heap, table
    ensures heap.Valid() && heap.faults == old(heap.faults) && Grown(old(heap.live), heap.live, EffectOfAll(cs).leaks)
    ensures table.Closed() && NestedEnded(old(table.View()), table.View(), accepted)
    ensures table.latestCallID == old(table.latestCallID) + EffectOfAll(cs).calls && |accepted| == EffectOfAll(cs).accepted
    decreases cs
  {
    accepted := {};
    assert cs[..0] == [];
    for i := 0 to |cs|
      invariant heap.Valid() && heap.faults == old(heap.faults)
      invariant Grown(old(heap.live), heap.live, EffectOfAll(cs[..i]).leaks)
      invariant table.Closed() && NestedEnded(old(table.View()), table.View(), accepted)
      invariant table.latestCallID == old(table.latestCallID) + EffectOfAll(cs[..i]).calls
      invariant |accepted| == EffectOfAll(cs[..i]).accepted
    {
      ghost var t, live := table.View(), heap.live;
      NestedStep(cs, i);
      NestedPrefix(cs, i + 1);
      var meter := new GasMeter(gasBefore);
      var _, _, _, more := Instantiate(heap, table, meter, cs[i]);
      GrownTwice(old(heap.live), live, heap.live, EffectOfAll(cs[..i]).leaks, EffectInside(cs[i]).leaks || Leaks(cs[i]));
      NestedEndedTwice(old(table.View()), t, table.View(), accepted, more);
      accepted := accepted + more;
    }
    assert cs[..|cs|] == cs;
  }

  /**
   * A query: whatever contract calls it runs, then its answer. The slots that the answer goes to
   * are none while the nested calls run.
   */
  method PerformQuery(heap: VectorHeap, table: FrameTable, op: Op) returns (ghost accepted: set<nat>)
    requires heap.Valid() && table.Closed() && op.OpQuery? && CounterAhead(table.View(), EffectOfOp(op).calls)
    modifies heap, table
    ensures heap.Valid() && heap.faults == old(heap.faults) && Grown(old(heap.live), heap.live, EffectOfOp(op).leaks)
    ensures table.Closed() && NestedEnded(old(table.View()), table.View(), accepted)
    ensures table.latestCallID == old(table.latestCallID) + EffectOfOp(op).calls && |accepted| == EffectOfOp(op).accepted
    decreases op, 0
  {
    accepted := RunNested(heap, table, op.gasBefore, op.nested);
    var _, _ := QueryRaw(heap, op.gasBefore, op.query, op.parses, []);
  }

  /** One operation of the contract, with what it observes of the iterators. */
  method Perform(heap: VectorHeap, table: FrameTable, meter: GasMeter, storage: GoStorage, op: Op,
                 ghost t0: Tables, ghost closed: set<nat>)
    returns (answers: seq<Answer>, entry: Option<GasEntry>, ghost closed': set<nat>)
    requires heap.Valid() && storage.Linked(table) && Confined(t0, table.View(), storage.callID, closed)
    requires CounterAhead(table.View(), EffectOfOp(op).calls)
    modifies heap, table, meter, storage
    ensures heap.Valid() && heap.faults == old(heap.faults) && Grown(old(heap.live), heap.live, EffectOfOp(op).leaks)
    ensures storage.Linked(table) && Confined(t0, table.View(), storage.callID, closed')
    ensures table.latestCallID == old(table.latestCallID) + EffectOfOp(op).calls
    ensures |closed'| == |closed| + EffectOfOp(op).accepted
    ensures entry.None? ==> meter.consumed == old(meter.consumed)
    ensures entry.Some? ==> entry.value.before == old(meter.consumed) && entry.value.after == meter.consumed
                            && WellReported(entry.value)
    ensures forall log :: SessionOf(table.View(), storage.callID, log + answers)
                          == SessionOp(SessionOf(old(table.View()), storage.callID, log), op)
    decreases op, 1
  {
    closed' := closed;
    if op.OpScan? {
      var x, e := PerformScan(heap, table, meter, storage, op, t0, closed);
      answers, entry := [x], Some(e);
    } else if op.OpNext? || op.OpNextPart? {
      var x, e := PerformNext(heap, table, meter, storage, op, t0, closed);
      answers, entry := [x], Some(e);
    } else if op.OpQuery? {
      ghost var t := table.View();
      ghost var accepted := PerformQuery(heap, table, op);
      answers, entry := [], None;
      closed' := closed + accepted;
      ConfinedNested(t0, t, table.View(), storage.callID, closed, accepted);
      StaysLinked(t, table.View(), storage.callID, storage.iterators);
      forall log: seq<Answer> ensures SessionOf(table.View(), storage.callID, log + answers) == SessionOf(t, storage.callID, log) {
        assert log + answers == log;
        NestedInvisible(t, table.View(), storage.callID, accepted, log);
      }
    } else {
      entry := PerformOther(heap, meter, storage, op);
      answers := [];
      assert forall log: seq<Answer> :: log + answers == log;
    }
  }

  function Logged(log: seq<GasEntry>, entry: Option<GasEntry>): (r: seq<GasEntry>) {
    if entry.Some? then log + [entry.value] else log
  }

  lemma ChainEntry(log: seq<GasEntry>, first: u64, last: u64, entry: Option<GasEntry>, now: u64)
    requires Chained(log, first, last) && (entry.None? ==> now == last)
    requires entry.Some? ==> entry.value.before == last && entry.value.after == now && WellReported(entry.value)
    ensures Chained(Logged(log, entry), first, now)
  {
    if entry.Some? { ChainAppend(log, first, last, entry.value); }
  }

  lemma SessionOpsStep(q: Session, ops: seq<Op>, i: nat)
    requires i < |ops|
    ensures SessionOps(q, ops[..i + 1]) == SessionOp(SessionOps(q, ops[..i]), ops[i])
  {
    assert ops[..i + 1][..i] == ops[..i];
  }

  /** vm_fn: any sequence of operations. The contract observes what the session says. */
  method RunContract(heap: VectorHeap, table: FrameTable, meter: GasMeter, storage: GoStorage, ops: seq<Op>, ghost t0: Tables)
    returns (trace: Trace, ghost closed: set<nat>)
    requires heap.Valid() && storage.Linked(table) && Confined(t0, table.View(), storage.callID, {})
    requires storage.callID <= table.latestCallID && CounterAhead(table.View(), EffectOfOps(ops).calls)
    modifies heap, table, meter, storage
    ensures heap.Valid() && heap.faults == old(heap.faults) && Grown(old(heap.live), heap.live, EffectOfOps(ops).leaks)
    ensures storage.Linked(table) && Confined(t0, table.View(), storage.callID, closed)
    ensures table.latestCallID == old(table.latestCallID) + EffectOfOps(ops).calls
    ensures |closed| == EffectOfOps(ops).accepted
    ensures Chained(trace.gas, old(meter.consumed), meter.consumed)
    ensures SessionOf(table.View(), storage.callID, trace.answers)
            == SessionOps(SessionOf(old(table.View()), storage.callID, []), ops)
    decreases ops
  {
    var answers, log := [], [];
    closed := {};
    assert ops[..0] == [];
    for i := 0 to |ops|
      invariant heap.Valid() && heap.faults == old(heap.faults)
      invariant Grown(old(heap.live), heap.live, EffectOfOps(ops[..i]).leaks)
      invariant storage.Linked(table) && Confined(t0, table.View(), storage.callID, closed)
      invariant NoFuture(table.View()) && storage.callID <= table.latestCallID
      invariant table.latestCallID == old(table.latestCallID) + EffectOfOps(ops[..i]).calls
      invariant |closed| == EffectOfOps(ops[..i]).accepted
      invariant Chained(log, old(meter.consumed), meter.consumed)
      invariant SessionOf(table.View(), storage.callID, answers)
                == SessionOps(SessionOf(old(table.View()), storage.callID, []), ops[..i])
    {
      ghost var last, t, live := meter.consumed, table.View(), heap.live;
      OpsStep(ops, i);
      OpsPrefix(ops, i + 1);
      var more, entry;
      more, entry, closed := Perform(heap, table, meter, storage, ops[i], t0, closed);
      GrownTwice(old(heap.live), live, heap.live, EffectOfOps(ops[..i]).leaks, EffectOfOp(ops[i]).leaks);
      StillNoFuture(t0, t, table.View(), storage.callID);
      SessionOpsStep(SessionOf(old(table.View()), storage.callID, []), ops, i);
      answers := answers + more;
      ChainEntry(log, old(meter.consumed), last, entry, meter.consumed);
      log := Logged(log, entry);
    }
    assert ops[..|ops|] == ops;
    trace := Trace(answers, log);
  }

  lemma StillNoFuture(t0: Tables, t: Tables, t': Tables, callID: u64)
    requires NoFuture(t) && t.latestCallId <= t'.latestCallId && callID <= t.latestCallId
    requires t.frames - {callID} == t0.frames - {callID} && t'.frames - {callID} == t0.frames - {callID}
    ensures NoFuture(t')
  {
    forall id | id in t'.frames ensures id <= t'.latestCallId {
      if id != callID { assert id in t'.frames - {callID}; }
    }
  }

  /** do_call_2_args and do_call_3_args; None when a panic unwinds out of it. */
  method DoCall(heap: VectorHeap, table: FrameTable, meter: GasMeter, storage: GoStorage, c: Invocation, ghost t0: Tables)
    returns (r: Option<RustResult>, report: GasReport, trace: Trace, ghost closed: set<nat>)
    requires heap.Valid() && storage.Linked(table) && Confined(t0, table.View(), storage.callID, {})
    requires table.View().Frame(storage.callID) == [] && !c.nullCache
    requires storage.callID <= table.latestCallID && CounterAhead(table.View(), EffectInside(c).calls)
    modifies heap, table, meter, storage
    ensures heap.Valid() && heap.faults == old(heap.faults) && Grown(old(heap.live), heap.live, EffectInside(c).leaks)
    ensures table.Closed() && Confined(t0, table.View(), storage.callID, closed)
    ensures table.latestCallID == old(table.latestCallID) + EffectInside(c).calls
    ensures |closed| + |table.View().Frame(storage.callID)| == EffectInside(c).accepted
    ensures Chained(trace.gas, old(meter.consumed), meter.consumed)
    ensures Verdict(c) == if r.Some? then r.value else Failed(CaughtPanic)
    ensures report == ReportOf(c) && trace.answers == Observed(c)
    decreases c, 0
  {
    report, trace, closed := GasReport(0, 0, 0, 0), Trace([], []), {};
    if c.noReport {
      return Some(Failed(EmptyArg(Ascii("gas_report")))), report, trace, {};
    }
    if c.checksum.None? {
      return Some(Failed(UnsetArg(Ascii("checksum")))), report, trace, {};
    }
    if |c.checksum.value| != 32 {
      return Some(Failed(ChecksumError)), report, trace, {};
    }
    for i := 0 to |c.args|
      invariant forall j :: 0 <= j < i ==> c.args[j].Some?
      invariant unchanged(heap, table, meter, storage)
    {
      if c.args[i].None? {
        return Some(Failed(UnsetArg(ArgNames[i]))), report, trace, {};
      }
    }
    match c.vm.instance {
      case InstanceUnwinds => return None, report, trace, {};
      case Refused(error) => return Some(Failed(FromVmError(error))), report, trace, {};
      case Ready =>
    }
    assert SessionOf(table.View(), storage.callID, []).cursors == [];
    trace, closed := RunContract(heap, table, meter, storage, c.vm.ops, t0);
    OwnAccepted(table.View(), storage.callID, trace.answers, c.vm.ops);
    match c.vm.ending {
      case VmUnwinds => return None, report, trace, closed;
      case Finishes(data) => return Some(Done(data)), c.vm.report, trace, closed;
      case Traps(error) => return Some(Failed(FromVmError(error))), c.vm.report, trace, closed;
    }
  }

  lemma OwnAccepted(t: Tables, callID: u64, log: seq<Answer>, ops: seq<Op>)
    requires SessionOf(t, callID, log) == SessionOps(NewSession, ops)
    ensures |t.Frame(callID)| == |ScansOf(ops)|
  {
    OpsTrack(ops);
    assert |SessionOf(t, callID, log).cursors| == |t.Frame(callID)|;
  }

  /** call_2_args and call_3_args: catch_unwind, error handling, and the result vector. */
  method CallArgs(heap: VectorHeap, table: FrameTable, meter: GasMeter, callID: u64, c: Invocation, errorMsg: VectorSlot,
                  ghost t0: Tables)
    returns (res: UnmanagedVector, errno: int, report: GasReport, trace: Trace, ghost closed: set<nat>, ghost between: map<nat, Vec>)
    requires heap.Valid() && table.Closed() && callID != 0 && callID !in table.iteratorFrames
    requires Confined(t0, table.View(), callID, {})
    requires callID <= table.latestCallID && CounterAhead(table.View(), EffectInside(c).calls)
    modifies heap, table, meter, errorMsg
    ensures heap.Valid() && heap.faults == old(heap.faults) && Grown(old(heap.live), between, EffectInside(c).leaks)
    ensures Carries(heap, Verdict(c), errno, res, errorMsg.v, between)
    ensures table.Closed() && Confined(t0, table.View(), callID, closed)
    ensures table.latestCallID == old(table.latestCallID) + EffectInside(c).calls
    ensures |closed| + |table.View().Frame(callID)| == EffectInside(c).accepted
    ensures Chained(trace.gas, old(meter.consumed), meter.consumed)
    ensures report == ReportOf(c) && trace.answers == Observed(c)
    decreases c, 1
  {
    var r: RustResult;
    report, trace, closed := GasReport(0, 0, 0, 0), Trace([], []), {};
    if c.nullCache {
      r := Failed(UnsetArg(Ascii("cache")));
    } else {
      var storage := new GoStorage(callID);
      var caught;
      caught, report, trace, closed := DoCall(heap, table, meter, storage, c, t0);
      r := if caught.Some? then caught.value else Failed(CaughtPanic);
    }
    between := heap.live;
    res, errno := HandOver(heap, r, errorMsg);
  }

  /** The part of an entry point between startCall and the deferred endCall. */
  method CallRust(heap: VectorHeap, table: FrameTable, meter: GasMeter, callID: u64, c: Invocation, ghost t0: Tables)
    returns (r: GoResult, report: GasReport, trace: Trace, ghost closed: set<nat>)
    requires heap.Valid() && table.Closed() && callID != 0 && callID !in table.iteratorFrames
    requires Confined(t0, table.View(), callID, {})
    requires callID <= table.latestCallID && CounterAhead(table.View(), EffectInside(c).calls)
    modifies heap, table, meter
    ensures heap.Valid() && heap.faults == old(heap.faults) && Grown(old(heap.live), heap.live, EffectInside(c).leaks || Leaks(c))
    ensures r == Told(Verdict(c)) <==> Small(Verdict(c))
    ensures r.GoPanics? <==> Leaks(c)
    ensures table.Closed() && Confined(t0, table.View(), callID, closed)
    ensures table.latestCallID == old(table.latestCallID) + EffectInside(c).calls
    ensures |closed| + |table.View().Frame(callID)| == EffectInside(c).accepted
    ensures Chained(trace.gas, old(meter.consumed), meter.consumed)
    ensures report == ReportOf(c) && trace.answers == Observed(c)
    decreases c, 2
  {
    var errmsg := new VectorSlot();
    errmsg.v := Uninitialized;
    var res, errno;
    ghost var between;
    res, errno, report, trace, closed, between := CallArgs(heap, table, meter, callID, c, errmsg, t0);
    r := TakeResult(heap, Verdict(c), errno, res, errmsg.v, between);
    GrownTwice(old(heap.live), between, heap.live, EffectInside(c).leaks, Leaks(c));
  }

  /**
   * Instantiate, and by its shape every entry point that runs a contract. For every contract
   * behaviour, with queries that run further calls to any depth, and for every outcome: the caller
   * learns the verdict if and only if its text is shorter than 2 GiB; every vector made on the way
   * has been destroyed exactly once unless a length, here or in a nested call, turns negative as a
   * C int; the frames are as before; the counter has moved by the number of calls started; and of
   * the iterators opened on the way exactly the accepted ones have been closed, once.
   */
  method Instantiate(heap: VectorHeap, table: FrameTable, meter: GasMeter, c: Invocation)
    returns (r: GoResult, report: GasReport, trace: Trace, ghost accepted: set<nat>)
    requires heap.Valid() && table.Closed() && CounterAhead(table.View(), EffectInside(c).calls + 1)
    modifies heap, table, meter
    ensures heap.Valid() && heap.faults == old(heap.faults) && Grown(old(heap.live), heap.live, EffectInside(c).leaks || Leaks(c))
    ensures r == Told(Verdict(c)) <==> Small(Verdict(c))
    ensures r.GoPanics? <==> Leaks(c)
    ensures report == ReportOf(c) && trace.answers == Observed(c)
    ensures BriefCall(c) ==> Tells(c, r, report)
    ensures Chained(trace.gas, old(meter.consumed), meter.consumed)
    ensures table.Closed() && table.latestCallID == old(table.latestCallID) + EffectInside(c).calls + 1
    ensures NestedEnded(old(table.View()), table.View(), accepted) && |accepted| == EffectInside(c).accepted
    decreases c, 3
  {
    ghost var before := table.View();
    StartsFresh(before, EffectInside(c).calls);
    var callID := table.StartCall();
    ghost var t0 := table.View();
    ghost var closed;
    r, report, trace, closed := CallRust(heap, table, meter, callID, c, t0);
    accepted := FinishCall(table, callID, t0, closed);
    EndsStarted(before, table.View(), accepted);
    VerdictTold(c);
  }

  lemma StartsFresh(t: Tables, calls: nat)
    requires CounterAhead(t, calls + 1)
    ensures var t0 := t.Start();
            && t0.latestCallId == t.latestCallId + 1 && t0.latestCallId !in t0.frames
            && Confined(t0, t0, t0.latestCallId, {}) && CounterAhead(t0, calls)
  {
  }

  lemma EndsStarted(t: Tables, t': Tables, accepted: set<nat>)
    requires NestedEnded(t.Start(), t', accepted) && t.latestCallId + 1 < TWO_TO_64
    ensures NestedEnded(t, t', accepted)
  {
  }

  /** The deferred endCall. */
  method FinishCall(table: FrameTable, callID: u64, ghost t0: Tables, ghost closed: set<nat>) returns (ghost accepted: set<nat>)
    requires table.Closed() && Confined(t0, table.View(), callID, closed) && callID !in t0.frames
    modifies table
    ensures table.Closed() && table.latestCallID == old(table.latestCallID)
    ensures NestedEnded(t0, table.View(), accepted)
    ensures |accepted| == |closed| + |old(table.View()).Frame(callID)|
  {
    ghost var t := table.View();
    ghost var f := t.Frame(callID);
    FrameRestored(t0, t, callID);
    assert Distinct(f);
    AsManyElements(f);
    AllOnce(f);
    accepted := closed + Elements(f);
    var _ := table.EndCall(callID, None);
    FrameClosed(t0, t, table.View(), callID, closed);
  }

  lemma FrameClosed(t0: Tables, t: Tables, t': Tables, callID: u64, closed: set<nat>)
    requires Confined(t0, t, callID, closed) && t'.latestCallId == t.latestCallId && t'.frames == t0.frames
    requires |t'.iterators| == |t.iterators|
    requires forall h :: 0 <= h < |t.iterators| ==>
               t'.iterators[h] == t.iterators[h].(closes := t.iterators[h].closes + if h in t.Frame(callID) then 1 else 0)
    ensures NestedEnded(t0, t', closed + Elements(t.Frame(callID)))
    ensures |closed + Elements(t.Frame(callID))| == |closed| + |Elements(t.Frame(callID))|
  {
    var f := t.Frame(callID);
    assert closed * Elements(f) == {};
    forall h | 0 <= h < |t0.iterators| ensures t'.iterators[h] == t0.iterators[h] {
      assert h !in f;
    }
  }

  ghost function Elements(f: seq<nat>): (s: set<nat>) { set h | h in f }

  lemma FrameRestored(t0: Tables, t: Tables, callID: u64)
    requires t.frames - {callID} == t0.frames - {callID} && callID !in t0.frames
    ensures t.frames - {callID} == t0.frames
  {
    assert t0.frames - {callID} == t0.frames;
  }

  ghost predicate Distinct(f: seq<nat>) { forall i, j :: 0 <= i < j < |f| ==> f[i] < f[j] }

  lemma SplitLast(f: seq<nat>) returns (front: seq<nat>, last: nat)
    requires f != [] && Distinct(f)
    ensures f == front + [last] && last !in front && Distinct(front) && |front| == |f| - 1
  {
    front, last := f[..|f| - 1], f[|f| - 1];
  }

  lemma {:induction false} OnceEach(f: seq<nat>, h: nat)
    requires Distinct(f)
    ensures multiset(f)[h] == if h in f then 1 else 0
    decreases |f|
  {
    if f != [] {
      var front, last := SplitLast(f);
      OnceEach(front, h);
    }
  }

  lemma AllOnce(f: seq<nat>)
    requires Distinct(f)
    ensures forall h :: multiset(f)[h] == if h in f then 1 else 0
  {
    forall h ensures multiset(f)[h] == if h in f then 1 else 0 { OnceEach(f, h); }
  }

  lemma {:induction false} AsManyElements(f: seq<nat>)
    requires Distinct(f)
    ensures |Elements(f)| == |f|
    decreases |f|
  {
    if f != [] {
      var front, last := SplitLast(f);
      AsManyElements(front);
      assert Elements(f) == Elements(front) + {last};
    }
  }
}
