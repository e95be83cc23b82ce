/** What the gas reports of a run of callbacks add up to. */
module GasRuns {
  import opened IteratorFrames
  import opened Callbacks

  /** What a contract call used of its gas. */
  datatype GasReport = GasReport(limit: u64, remaining: u64, usedExternally: u64, usedInternally: u64)

  /** One database or iterator callback: the meter around it, whether it panicked, what it reported. */
  datatype GasEntry = GasEntry(before: u64, after: u64, panicked: bool, reported: u64)

  predicate WellReported(e: GasEntry) {
    e.reported == if e.panicked then 0 else Sub64(e.after, e.before)
  }

  /** The meter only moves inside callbacks. */
  predicate Chained(log: seq<GasEntry>, first: u64, last: u64) {
    if log == [] then first == last
    else log[0].before == first && WellReported(log[0]) && Chained(log[1..], log[0].after, last)
  }

  predicate Monotone(log: seq<GasEntry>) {
    forall i :: 0 <= i < |log| ==> log[i].before <= log[i].after
  }

  function TotalReported(log: seq<GasEntry>): (n: nat) {
    if log == [] then 0 else log[0].reported + TotalReported(log[1..])
  }

  /** The advance of the meter in the callbacks that panicked. */
  function Unreported(log: seq<GasEntry>): (n: int) {
    if log == [] then 0
    else (if log[0].panicked then log[0].after - log[0].before else 0) + Unreported(log[1..])
  }

  lemma {:induction false} ChainAppend(log: seq<GasEntry>, first: u64, last: u64, e: GasEntry)
    requires Chained(log, first, last) && e.before == last && WellReported(e)
    ensures Chained(log + [e], first, e.after)
  {
    if log == [] {
      assert (log + [e])[1..] == [];
    } else {
      ChainAppend(log[1..], log[0].after, last, e);
      assert (log + [e])[1..] == log[1..] + [e];
    }
  }

  /** The reporting callbacks in which the meter went down. */
  function Wraps(log: seq<GasEntry>): (n: nat) {
    if log == [] then 0 else (if !log[0].panicked && log[0].after < log[0].before then 1 else 0) + Wraps(log[1..])
  }

  /**
   * Conservation, for any meter. The reports and the unreported advance add up to the meter's whole
   * advance and 2^64 for every reporting callback in which it went down; so the reports exceed the
   * advance exactly when the latter is more than what went unreported.
   */
  lemma {:induction false} ReportsAddUp(log: seq<GasEntry>, first: u64, last: u64)
    requires Chained(log, first, last)
    ensures TotalReported(log) + Unreported(log) == last - first + TWO_TO_64 * Wraps(log)
    ensures TotalReported(log) <= last - first <==> TWO_TO_64 * Wraps(log) <= Unreported(log)
  {
    if log != [] { ReportsAddUp(log[1..], log[0].after, last); }
  }

  lemma {:induction false} MonotoneNeverWraps(log: seq<GasEntry>)
    requires Monotone(log)
    ensures Wraps(log) == 0 && Unreported(log) >= 0
    ensures Unreported(log) == 0 <==> forall i :: 0 <= i < |log| && log[i].panicked ==> log[i].after == log[i].before
  {
    if log != [] {
      var rest := log[1..];
      assert forall i :: 0 <= i < |rest| ==> rest[i] == log[i + 1];
      assert forall i :: 1 <= i < |log| ==> log[i] == rest[i - 1];
      MonotoneNeverWraps(rest);
    }
  }

  /**
   * On a monotone meter the reports never exceed the advance, and they equal it if and only if no
   * panicking callback moved the meter.
   */
  lemma MonotoneReports(log: seq<GasEntry>, first: u64, last: u64)
    requires Chained(log, first, last) && Monotone(log)
    ensures TotalReported(log) + Unreported(log) == last - first && TotalReported(log) <= last - first
    ensures TotalReported(log) == last - first
            <==> (forall i :: 0 <= i < |log| && log[i].panicked ==> log[i].after == log[i].before)
  {
    ReportsAddUp(log, first, last);
    MonotoneNeverWraps(log);
  }

  // The mock meter of the test support, as the concrete case.

  function AddUint64Overflow(a: u64, b: u64): (r: (u64, bool))
    ensures r.1 <==> a + b >= TWO_TO_64
    ensures !r.1 ==> r.0 == a + b
  {
    if (TWO_TO_64 - 1) - a < b then (0, true) else (a + b, false)
  }

  /** ConsumeGas: the new reading, and whether and how it panics. */
  datatype Charge = Charged(consumed: u64) | ChargePanics(consumed: u64, outOfGas: bool)

  function ConsumeGas(consumed: u64, limit: u64, amount: u64): (r: Charge) {
    var (sum, overflow) := AddUint64Overflow(consumed, amount);
    if overflow then ChargePanics(sum, false)
    else if sum > limit then ChargePanics(sum, true)
    else Charged(sum)
  }

  /**
   * The mock meter is monotone exactly when the addition does not overflow: on overflow it is set
   * back to zero before it panics.
   */
  lemma MockMeterMonotone(consumed: u64, limit: u64, amount: u64)
    ensures consumed <= ConsumeGas(consumed, limit, amount).consumed <==> consumed + amount < TWO_TO_64
    ensures ConsumeGas(consumed, limit, amount).Charged? <==> consumed + amount < TWO_TO_64 && consumed + amount <= limit
    ensures ConsumeGas(consumed, limit, amount).ChargePanics? ==>
              (ConsumeGas(consumed, limit, amount).outOfGas <==> limit < consumed + amount < TWO_TO_64)
    ensures ConsumeGas(consumed, limit, amount).consumed == if consumed + amount < TWO_TO_64 then consumed + amount else 0
  {
  }

  /** After such an overflow a run has reported gas although the meter's reading went down. */
  lemma OverflowOverstatesReports()
    ensures var charged := GasEntry(1, TWO_TO_64 - 1, false, TWO_TO_64 - 2);
            var overflown := GasEntry(TWO_TO_64 - 1, 0, true, 0);
            && ConsumeGas(charged.before, TWO_TO_64 - 1, TWO_TO_64 - 2) == Charged(charged.after)
            && ConsumeGas(overflown.before, TWO_TO_64 - 1, 2) == ChargePanics(overflown.after, false)
            && Chained([charged, overflown], 1, 0)
            && TotalReported([charged, overflown]) == TWO_TO_64 - 2
  {
    var charged := GasEntry(1, TWO_TO_64 - 1, false, TWO_TO_64 - 2);
    var overflown := GasEntry(TWO_TO_64 - 1, 0, true, 0);
    var log := [charged, overflown];
    assert log[1..] == [overflown] && log[1..][1..] == [];
    assert Chained(log[1..], TWO_TO_64 - 1, 0);
    assert TotalReported(log[1..]) == 0;
  }
}
