/**
 * A contract call as it is handed to the Rust side: its arguments, and everything foreign about
 * it. A query may run further contract calls before it is answered, to any depth.
 */
module Invocations {
  import opened ByteStrings
  import opened Ranges
  import opened IteratorFrames
  import opened Memory
  import opened Callbacks
  import opened GasRuns

  /** One thing a contract can make the VM do, with what the Go side's foreign code answers. */
  datatype Op =
    | OpGet(store: KVStore, key: Bytes)
    | OpSet(store: KVStore, key: Bytes, value: Bytes)
    | OpRemove(store: KVStore, key: Bytes)
    | OpScan(store: KVStore, start: Option<Bytes>, end: Option<Bytes>, descending: bool)
    | OpNext(id: nat, fate: IteratorFate)
    | OpNextPart(id: nat, wantKey: bool, fate: IteratorFate)
    | OpAddress(address: AddressReply, humanize: bool)
    | OpValidate(validation: ValidateReply)
    | OpQuery(gasBefore: u64, query: Reply<Marshalled>, parses: bool, nested: seq<Invocation>)

  datatype VmError = GasDepletion | OtherVmError(message: Bytes)

  datatype InstanceOutcome = Ready | Refused(error: VmError) | InstanceUnwinds

  datatype VmEnding = Finishes(data: RustVec) | Traps(error: VmError) | VmUnwinds

  /** The foreign part of a call: getting an instance, what the contract does, and how it ends. */
  datatype Vm = Vm(instance: InstanceOutcome, ops: seq<Op>, ending: VmEnding, report: GasReport)

  /** The entry points have two or three arguments. */
  type Args = args: seq<Option<Bytes>> | |args| <= 3

  datatype Invocation = Invocation(nullCache: bool, noReport: bool, checksum: Option<Bytes>, args: Args, vm: Vm)

  // The verdict on a call.

  datatype RustError =
    | UnsetArg(name: Bytes)
    | EmptyArg(name: Bytes)
    | ChecksumError
    | OutOfGasError
    | CaughtPanic
    | VmErr(message: Bytes)

  function Display(e: RustError): (r: Bytes) {
    match e
    case UnsetArg(name) => Ascii("Null/Nil argument: ") + name
    case EmptyArg(name) => Ascii("Empty argument: ") + name
    case ChecksumError => Ascii("Checksum not of length 32")
    case OutOfGasError => Ascii("Ran out of gas")
    case CaughtPanic => Ascii("Caught panic")
    case VmErr(message) => Ascii("Error calling the VM: ") + message
  }

  datatype RustResult = Done(data: RustVec) | Failed(error: RustError)

  /** The length of what crosses to Go. */
  function Length(r: RustResult): (n: nat) {
    match r
    case Done(data) => |data.data|
    case Failed(error) => |Display(error)|
  }

  function FromVmError(e: VmError): (r: RustError) {
    if e.GasDepletion? then OutOfGasError else VmErr(e.message)
  }

  const ArgNames: seq<Bytes> := [Ascii("arg1"), Ascii("arg2"), Ascii("arg3")]

  /** The first argument that is nil, if any. */
  function FirstNil(args: seq<Option<Bytes>>): (i: nat)
    ensures i <= |args| && (i < |args| ==> args[i].None?)
    ensures forall j :: 0 <= j < i ==> args[j].Some?
  {
    if args == [] || args[0].None? then 0 else 1 + FirstNil(args[1..])
  }

  /** What the caller got wrong with the cache, the checksum and the arguments, in that order. */
  function ArgumentError(nullCache: bool, noReport: bool, checksum: Option<Bytes>, args: Args): (r: Option<RustError>) {
    if nullCache then Some(UnsetArg(Ascii("cache")))
    else if noReport then Some(EmptyArg(Ascii("gas_report")))
    else if checksum.None? then Some(UnsetArg(Ascii("checksum")))
    else if |checksum.value| != 32 then Some(ChecksumError)
    else if FirstNil(args) < |args| then Some(UnsetArg(ArgNames[FirstNil(args)]))
    else None
  }

  /** The result of a call whose arguments are fine. */
  function VmResult(vm: Vm): (r: RustResult) {
    match vm.instance
    case InstanceUnwinds => Failed(CaughtPanic)
    case Refused(error) => Failed(FromVmError(error))
    case Ready =>
      match vm.ending
      case Finishes(data) => Done(data)
      case Traps(error) => Failed(FromVmError(error))
      case VmUnwinds => Failed(CaughtPanic)
  }

  function ErrorOf(c: Invocation): (r: Option<RustError>) {
    ArgumentError(c.nullCache, c.noReport, c.checksum, c.args)
  }

  function Verdict(c: Invocation): (r: RustResult) {
    if ErrorOf(c).Some? then Failed(ErrorOf(c).value) else VmResult(c.vm)
  }

  /** The contract gets to run. */
  predicate Started(c: Invocation) { ErrorOf(c).None? && c.vm.instance.Ready? }

  /** The gas report is filled in exactly when the contract ran to an end of its own. */
  function ReportOf(c: Invocation): (r: GasReport) {
    if Started(c) && !c.vm.ending.VmUnwinds? then c.vm.report else GasReport(0, 0, 0, 0)
  }

  // The scans of a contract.

  function ScanItems(op: Op): (r: Option<seq<Item>>)
    requires op.OpScan?
  {
    var reply := if op.descending then op.store.descends(op.start, op.end) else op.store.ascends(op.start, op.end);
    if reply.Returns? then Some(reply.value) else None
  }

  /** The item sequences that the accepted scans of a contract were given. */
  function ScansOf(ops: seq<Op>): (r: seq<seq<Item>>) {
    if ops == [] then []
    else
      var op := ops[|ops| - 1];
      var earlier := ScansOf(ops[..|ops| - 1]);
      if op.OpScan? && ScanItems(op).Some? && |earlier| < FRAME_LEN_LIMIT then earlier + [ScanItems(op).value] else earlier
  }

  // What a call does besides giving a result, with all calls nested in it.

  /** Calls started, iterators accepted, and whether a result was too long for GoBytes and leaked. */
  datatype Effect = Effect(calls: nat, accepted: nat, leaks: bool) {
    function Plus(e: Effect): (r: Effect) { Effect(calls + e.calls, accepted + e.accepted, leaks || e.leaks) }
  }

  const NoEffect := Effect(0, 0, false)

  /** A result whose length turns negative as a C int cannot be copied and is never destroyed. */
  predicate Leaks(c: Invocation) { CInt(Length(Verdict(c))) < 0 }

  /** The part between the start and the end of the call. */
  function EffectInside(c: Invocation): (e: Effect)
    decreases c
  {
    if Started(c) then EffectOfOps(c.vm.ops).Plus(Effect(0, |ScansOf(c.vm.ops)|, false)) else NoEffect
  }

  /** The nested calls of a contract. */
  function EffectOfOps(ops: seq<Op>): (e: Effect)
    decreases ops
  {
    if ops == [] then NoEffect else EffectOfOps(ops[..|ops| - 1]).Plus(EffectOfOp(ops[|ops| - 1]))
  }

  function EffectOfOp(op: Op): (e: Effect)
    decreases op
  {
    if op.OpQuery? then EffectOfAll(op.nested) else NoEffect
  }

  function EffectOfAll(cs: seq<Invocation>): (e: Effect)
    decreases cs
  {
    if cs == [] then NoEffect
    else
      var last := cs[|cs| - 1];
      EffectOfAll(cs[..|cs| - 1]).Plus(EffectInside(last)).Plus(Effect(1, 0, Leaks(last)))
  }

  lemma OpsStep(ops: seq<Op>, i: nat)
    requires i < |ops|
    ensures EffectOfOps(ops[..i + 1]) == EffectOfOps(ops[..i]).Plus(EffectOfOp(ops[i]))
  {
    assert ops[..i + 1][..i] == ops[..i];
  }

  lemma {:induction false} OpsPrefix(ops: seq<Op>, i: nat)
    requires i <= |ops|
    ensures EffectOfOps(ops[..i]).calls <= EffectOfOps(ops).calls
    decreases |ops| - i
  {
    if i == |ops| {
      assert ops[..i] == ops;
    } else {
      OpsStep(ops, i);
      OpsPrefix(ops, i + 1);
    }
  }

  lemma NestedStep(cs: seq<Invocation>, i: nat)
    requires i < |cs|
    ensures EffectOfAll(cs[..i + 1]) == EffectOfAll(cs[..i]).Plus(EffectInside(cs[i])).Plus(Effect(1, 0, Leaks(cs[i])))
  {
    assert cs[..i + 1][..i] == cs[..i];
  }

  lemma {:induction false} NestedPrefix(cs: seq<Invocation>, i: nat)
    requires i <= |cs|
    ensures EffectOfAll(cs[..i]).calls <= EffectOfAll(cs).calls
    decreases |cs| - i
  {
    if i == |cs| {
      assert cs[..i] == cs;
    } else {
      NestedStep(cs, i);
      NestedPrefix(cs, i + 1);
    }
  }
}
