/** AnalyzeCode through both languages: a report whose two lists travel in vectors of their own. */
module Analysis {
  import opened ByteStrings
  import opened IteratorFrames
  import opened Memory
  import opened Callbacks
  import opened Invocations
  import opened Calls
  import opened Transports

  /** What the virtual machine finds out about a contract. */
  datatype Findings = Findings(ibc: bool, capabilities: set<Bytes>, entrypoints: set<Bytes>, version: Option<u64>)

  datatype Analyzer = Finds(findings: Findings) | FailsWith(error: VmError) | Unwinds

  datatype FfiReport = FfiReport(ibc: bool, entrypoints: UnmanagedVector, capabilities: UnmanagedVector, version: (bool, u64))

  datatype GoReport =
    | Report(ibc: bool, capabilities: Bytes, entrypoints: seq<Bytes>, version: Option<u64>)
    | ReportError(error: GoResult)

  /** What do_analyze_code and the panic handler around it make of the arguments. */
  function AnalysisError(nullCache: bool, checksum: Option<Bytes>, vm: Analyzer): (e: Option<RustError>) {
    if ArgumentError(nullCache, false, checksum, []).Some? then ArgumentError(nullCache, false, checksum, [])
    else
      match vm
      case Finds(_) => None
      case FailsWith(error) => Some(FromVmError(error))
      case Unwinds => Some(CaughtPanic)
  }

  predicate BriefAnalysis(vm: Analyzer) { vm.FailsWith? ==> Brief(vm.error) }

  /** What the caller is told instead of a report, in terms of the arguments and of the analysis. */
  predicate TellsAnalysis(nullCache: bool, checksum: Option<Bytes>, vm: Analyzer, r: GoResult) {
    if nullCache then r == GoErrorText(Ascii("Null/Nil argument: cache"))
    else if checksum.None? then r == GoErrorText(Ascii("Null/Nil argument: checksum"))
    else if |checksum.value| != 32 then r == GoErrorText(Ascii("Checksum not of length 32"))
    else match vm
      case Finds(_) => false
      case FailsWith(e) => TellsVmError(e, r)
      case Unwinds => r == GoErrorText(Ascii("Caught panic"))
  }

  /** There is an error to be told exactly when the arguments or the analysis failed. */
  lemma AnalysisTold(nullCache: bool, checksum: Option<Bytes>, vm: Analyzer)
    ensures AnalysisError(nullCache, checksum, vm).None?
            <==> !nullCache && checksum.Some? && |checksum.value| == 32 && vm.Finds?
    ensures AnalysisError(nullCache, checksum, vm).Some? ==>
              var verdict := Failed(AnalysisError(nullCache, checksum, vm).value);
              && (BriefAnalysis(vm) ==> Small(verdict))
              && TellsAnalysis(nullCache, checksum, vm, Told(verdict))
  {
    Names("Null/Nil argument: ", "cache", "Null/Nil argument: cache");
    Names("Null/Nil argument: ", "checksum", "Null/Nil argument: checksum");
  }

  function OptionalU64(v: Option<u64>): (p: (bool, u64)) { if v.Some? then (true, v.value) else (false, 0) }

  /** The text in which a set of names travels. */
  ghost function Csv(names: set<Bytes>): (text: Bytes) { Join(Listing(names)) }

  ghost predicate Short(names: set<Bytes>) { |Csv(names)| < 0x8000_0000 }

  /** The text's length does not turn negative as a C int. */
  ghost predicate Copyable(names: set<Bytes>) { CInt(|Csv(names)|) >= 0 }

  /** The findings as they cross: two lists with a buffer each. */
  ghost predicate HoldsFindings(heap: VectorHeap, report: FfiReport, f: Findings, before: map<nat, Vec>)
    reads heap
  {
    && report.ibc == f.ibc && report.version == OptionalU64(f.version)
    && heap.Owned(report.capabilities) && heap.Content(report.capabilities) == Some(Csv(f.capabilities))
    && heap.Owned(report.entrypoints) && heap.Content(report.entrypoints) == Some(Csv(f.entrypoints))
    && heap.Separate(report.capabilities, report.entrypoints)
    && heap.WithoutBoth(report.capabilities, report.entrypoints) == before
  }

  /** analyze_code: on an error both vectors of the report are none. */
  method AnalyzeCodeFfi(heap: VectorHeap, nullCache: bool, checksum: Option<Bytes>, vm: Analyzer, errorMsg: VectorSlot)
    returns (report: FfiReport, errno: int)
    requires heap.Valid()
    modifies heap, errorMsg
    ensures heap.Valid() && heap.faults == old(heap.faults)
    ensures var error := AnalysisError(nullCache, checksum, vm);
            if error.Some? then
              && report == FfiReport(false, NoneVector, NoneVector, (false, 0))
              && Carries(heap, Failed(error.value), errno, NoneVector, errorMsg.v, old(heap.live))
            else
              errno == ERRNO_SUCCESS && unchanged(errorMsg) && HoldsFindings(heap, report, vm.findings, old(heap.live))
  {
    var error := AnalysisError(nullCache, checksum, vm);
    if error.Some? {
      errno := SetError(heap, error.value, errorMsg);
      return FfiReport(false, NoneVector, NoneVector, (false, 0)), errno;
    }
    var f := vm.findings;
    var capabilitiesUtf8 := SetToCsv(f.capabilities);
    var entrypointsUtf8 := SetToCsv(f.entrypoints);
    var capabilities := heap.New(Some(Vec(capabilitiesUtf8, |capabilitiesUtf8|)));
    ghost var between := heap.live;
    var entrypoints := heap.New(Some(Vec(entrypointsUtf8, |entrypointsUtf8|)));
    report, errno := FfiReport(f.ibc, entrypoints, capabilities, OptionalU64(f.version)), ERRNO_SUCCESS;
    SwapRemoval(heap.live, between, capabilities, entrypoints);
  }

  lemma SwapRemoval(live: map<nat, Vec>, between: map<nat, Vec>, v: UnmanagedVector, w: UnmanagedVector)
    requires between == if w.Backed() then live - {w.ptr} else live
    ensures (if v.Backed() then live - {v.ptr} else live) - (if w.Backed() then {w.ptr} else {})
            == if v.Backed() then between - {v.ptr} else between
  {
  }

  lemma SplitInjective(a: Bytes, b: Bytes)
    ensures Split(a) == Split(b) <==> a == b
  {
    JoinSplit(a);
    JoinSplit(b);
  }

  /** Go's side: both lists are copied and destroyed, the entry points split. */
  method TakeLists(heap: VectorHeap, report: FfiReport, ghost f: Findings, ghost before: map<nat, Vec>) returns (r: GoReport)
    requires heap.Valid() && HoldsFindings(heap, report, f, before)
    modifies heap
    ensures heap.Valid() && heap.faults == old(heap.faults)
    ensures r == Report(f.ibc, Csv(f.capabilities), Split(Csv(f.entrypoints)), f.version)
            <==> Short(f.capabilities) && Short(f.entrypoints)
    ensures r.Report? <==> Copyable(f.capabilities) && Copyable(f.entrypoints)
    ensures heap.live == before <==> Copyable(f.capabilities) && Copyable(f.entrypoints)
  {
    var capabilities := heap.CopyAndDestroy(report.capabilities);
    if capabilities.LengthPanic? {
      return ReportError(GoPanics);
    }
    var entrypoints := heap.CopyAndDestroy(report.entrypoints);
    if entrypoints.LengthPanic? {
      return ReportError(GoPanics);
    }
    SplitInjective(Csv(f.entrypoints), GoString(entrypoints.data));
    r := Report(report.ibc, GoString(capabilities.data), Split(GoString(entrypoints.data)),
                if report.version.0 then Some(report.version.1) else None);
  }

  /**
   * AnalyzeCode. The caller gets the error, or both lists as they were written, if and only if
   * these are shorter than 2 GiB; everything has been destroyed exactly once if and only if no
   * length turned negative as a C int. The entry points come back, in ascending order, if and only
   * if there is one and none contains a comma; without any, a single empty name comes back.
   */
  method AnalyzeCode(heap: VectorHeap, nullCache: bool, checksum: Option<Bytes>, vm: Analyzer) returns (r: GoReport)
    requires heap.Valid()
    modifies heap
    ensures heap.Valid() && heap.faults == old(heap.faults)
    ensures !nullCache && checksum.Some? && |checksum.value| == 32 && vm.Finds? <==> AnalysisError(nullCache, checksum, vm).None?
    ensures var error := AnalysisError(nullCache, checksum, vm);
            if error.Some? then
              var verdict := Failed(error.value);
              && r.ReportError?
              && (r.error == Told(verdict) <==> Small(verdict))
              && (heap.live == old(heap.live) <==> CInt(Length(verdict)) >= 0)
              && (BriefAnalysis(vm) ==> TellsAnalysis(nullCache, checksum, vm, r.error))
            else
              var f := vm.findings;
              && (r == Report(f.ibc, Csv(f.capabilities), Split(Csv(f.entrypoints)), f.version)
                  <==> Short(f.capabilities) && Short(f.entrypoints))
              && (r.Report? <==> Copyable(f.capabilities) && Copyable(f.entrypoints))
              && (heap.live == old(heap.live) <==> Copyable(f.capabilities) && Copyable(f.entrypoints))
              && (Short(f.capabilities) && Short(f.entrypoints) ==>
                    && (Lists(r.entrypoints, f.entrypoints)
                        <==> f.entrypoints != {} && forall x :: x in f.entrypoints ==> COMMA !in x)
                    && (f.entrypoints == {} ==> r.entrypoints == [[]]))
  {
    AnalysisTold(nullCache, checksum, vm);
    var errmsg := new VectorSlot();
    errmsg.v := Uninitialized;
    var report, errno := AnalyzeCodeFfi(heap, nullCache, checksum, vm, errmsg);
    if errno != ERRNO_SUCCESS {
      var error := TakeResult(heap, Failed(AnalysisError(nullCache, checksum, vm).value), errno, NoneVector, errmsg.v, old(heap.live));
      return ReportError(error);
    }
    r := TakeLists(heap, report, vm.findings, old(heap.live));
    CsvOfSet(vm.findings.entrypoints);
  }

  /** string(b): nil becomes the empty string. */
  function GoString(b: Option<Bytes>): (s: Bytes) { if b.None? then [] else b.value }
}
