/** What deserializing a contract's response costs, and the checks that come with it. */
module ResponseGas {
  import opened ByteStrings
  import opened IteratorFrames
  import opened Callbacks
  import opened GasRuns

  datatype UFraction = UFraction(numerator: u64, denominator: u64)

  function Wrap64(x: nat): (r: u64)
    ensures r <= x && (r == x <==> x < TWO_TO_64) && (x - r) % TWO_TO_64 == 0
  {
    x % TWO_TO_64
  }

  /** Mul and Floor: the product wraps around; a zero denominator panics. */
  function MulFloor(f: UFraction, m: u64): (r: Option<u64>) {
    var product := Wrap64(f.numerator * m);
    if f.denominator == 0 then None
    else
      assert product / f.denominator <= product by { QuotientBounds(product, f.denominator); }
      Some(product / f.denominator)
  }

  lemma Scale(factor: nat, x: nat, y: nat)
    requires x <= y
    ensures factor * x <= factor * y
  {
  }

  lemma QuotientBounds(x: nat, d: nat)
    requires d > 0
    ensures 0 <= x / d <= x
  {
    var q := x / d;
    assert x == d * q + x % d;
    Scale(q, 1, d);
  }

  /** The price without wrap-around. */
  function Price(f: UFraction, m: u64): (r: nat)
    requires f.denominator > 0
  {
    QuotientBounds(f.numerator * m, f.denominator);
    f.numerator * m / f.denominator
  }

  lemma Quotient(x: nat, d: nat)
    requires d > 0
    ensures d * (x / d) <= x < d * (x / d) + d
  {
    assert x == d * (x / d) + x % d;
  }

  /** The price is the largest amount that, times the denominator, is not more than the product. */
  lemma PriceIsFloor(f: UFraction, m: u64)
    requires f.denominator > 0
    ensures f.denominator * Price(f, m) <= f.numerator * m < f.denominator * Price(f, m) + f.denominator
  {
    Quotient(f.numerator * m, f.denominator);
  }

  lemma QuotientGap(x: nat, y: nat, d: nat)
    requires d > 0 && x + d <= y
    ensures x / d < y / d
  {
    var a, b := x / d, y / d;
    assert x == d * a + x % d && y == d * b + y % d;
    if b <= a { Scale(d, b, a); }
  }

  lemma WrapGap(x: nat)
    requires x >= TWO_TO_64
    ensures Wrap64(x) + TWO_TO_64 <= x
  {
    assert x == x / TWO_TO_64 * TWO_TO_64 + x % TWO_TO_64;
  }

  /** The gas charged is the price if and only if the product fits; otherwise it is less. */
  lemma ChargeIsPrice(f: UFraction, m: u64)
    requires f.denominator > 0
    ensures MulFloor(f, m).value <= Price(f, m)
    ensures MulFloor(f, m).value == Price(f, m) <==> f.numerator * m < TWO_TO_64
  {
    var x := f.numerator * m;
    if x >= TWO_TO_64 {
      WrapGap(x);
      QuotientGap(Wrap64(x), x, f.denominator);
    }
  }

  /** The total that is compared with the limit is the true one if and only if neither step overflows. */
  lemma TotalIsTrue(f: UFraction, m: u64, used: u64)
    requires f.denominator > 0
    ensures Wrap64(MulFloor(f, m).value + used) <= Price(f, m) + used
    ensures Wrap64(MulFloor(f, m).value + used) == Price(f, m) + used
            <==> f.numerator * m < TWO_TO_64 && Price(f, m) + used < TWO_TO_64
  {
    ChargeIsPrice(f, m);
  }

  const REPLY_PAYLOAD_MAX_BYTES := 128 * 1024

  /** What the data parses to: a response without sub-messages, or the payloads of its sub-messages. */
  datatype Response = WithoutMessages | WithMessages(payloads: seq<Bytes>)

  datatype Outcome =
    | Accepted(response: Response)
    | InsufficientGas(bytes: nat)
    | Unparsable
    | PayloadTooLarge(index: nat, size: nat)
    | DivisionByZero

  predicate TooLarge(payload: Bytes) { |payload| > 131072 }

  /** The verdict on data that was paid for. */
  predicate Judged(parsed: Option<Response>, o: Outcome) {
    match o
    case Accepted(response) =>
      && parsed == Some(response)
      && (response.WithMessages? ==> forall i :: 0 <= i < |response.payloads| ==> !TooLarge(response.payloads[i]))
    case Unparsable => parsed.None?
    case PayloadTooLarge(index, size) =>
      && parsed.Some? && parsed.value.WithMessages? && index < |parsed.value.payloads|
      && TooLarge(parsed.value.payloads[index]) && size == |parsed.value.payloads[index]|
      && forall i :: 0 <= i < index ==> !TooLarge(parsed.value.payloads[i])
    case _ => false
  }

  /** The report behind the pointer that the entry points pass. */
  class ReportSlot {
    var report: GasReport

    constructor (report: GasReport)
      ensures this.report == report
    {
      this.report := report;
    }
  }

  // What the charge does to a report.

  /** The report after the charge; None when the gas does not suffice. Both sums wrap around. */
  function Settled(gasLimit: u64, f: UFraction, r: GasReport, n: u64): (s: Option<GasReport>)
    requires f.denominator > 0
  {
    var charge := MulFloor(f, n).value;
    if gasLimit < Wrap64(charge + r.usedInternally) then None
    else Some(r.(usedInternally := Wrap64(r.usedInternally + charge), remaining := Sub64(r.remaining, charge)))
  }

  /** Neither the product nor the sum overflows. */
  predicate Fits(f: UFraction, r: GasReport, n: u64)
    requires f.denominator > 0
  {
    f.numerator * n < TWO_TO_64 && Price(f, n) + r.usedInternally < TWO_TO_64
  }

  /** The gas of a report is all accounted for. */
  predicate Balanced(r: GasReport) { r.remaining + r.usedExternally + r.usedInternally == r.limit }

  lemma Sub64Wraps(a: u64, b: u64)
    ensures Sub64(a, b) == if b <= a then a - b else a - b + TWO_TO_64
  {
  }

  lemma Wrap64Once(a: u64, b: u64)
    ensures Wrap64(a + b) == if a + b < TWO_TO_64 then a + b else a + b - TWO_TO_64
  {
  }

  /**
   * Used and remaining gas keep their sum if and only if the addition and the subtraction both
   * stay in range or both wrap around.
   */
  lemma ChargeConserves(gasLimit: u64, f: UFraction, r: GasReport, n: u64)
    requires f.denominator > 0 && Settled(gasLimit, f, r, n).Some?
    ensures var s := Settled(gasLimit, f, r, n).value;
            var charge := MulFloor(f, n).value;
            s.usedInternally + s.remaining == r.usedInternally + r.remaining
            <==> (charge <= r.remaining <==> charge + r.usedInternally < TWO_TO_64)
  {
    var charge := MulFloor(f, n).value;
    Wrap64Once(r.usedInternally, charge);
    Sub64Wraps(r.remaining, charge);
  }

  /**
   * Where nothing overflows the response is refused if and only if its price is more than the
   * limit leaves, and the price is moved from what remains to what was used internally if and only
   * if that much remains. A balanced report stays balanced exactly then, which is certain when
   * nothing was used externally.
   */
  lemma PriceIsMoved(gasLimit: u64, f: UFraction, r: GasReport, n: u64)
    requires f.denominator > 0 && Fits(f, r, n)
    ensures Settled(gasLimit, f, r, n).None? <==> gasLimit < Price(f, n) + r.usedInternally
    ensures Settled(gasLimit, f, r, n).Some? ==>
              var s := Settled(gasLimit, f, r, n).value;
              && s.usedInternally == r.usedInternally + Price(f, n)
              && (s.remaining == r.remaining - Price(f, n) <==> Price(f, n) <= r.remaining)
              && (s.usedInternally + s.remaining == r.usedInternally + r.remaining <==> Price(f, n) <= r.remaining)
              && (Balanced(r) ==> (Balanced(s) <==> Price(f, n) <= r.remaining))
              && (Balanced(r) && r.limit == gasLimit && r.usedExternally == 0 ==> Price(f, n) <= r.remaining)
  {
    ChargeIsPrice(f, n);
    Wrap64Once(r.usedInternally, Price(f, n));
    Sub64Wraps(r.remaining, Price(f, n));
  }

  /**
   * DeserializeResponse. The outcome decides what happened to the report: nothing when the gas did
   * not suffice, otherwise the charge was settled and the gas used internally stays within the
   * limit. Where nothing overflows, used and remaining gas keep their sum if and only if the price
   * was not more than what remained; a balanced report without external use always stays balanced.
   */
  method DeserializeResponse(gasLimit: u64, deserCost: UFraction, slot: ReportSlot, data: Bytes, parsed: Option<Response>)
    returns (o: Outcome)
    requires |data| < TWO_TO_64
    modifies slot
    ensures o.DivisionByZero? <==> deserCost.denominator == 0
    ensures o.DivisionByZero? || o.InsufficientGas? ==> unchanged(slot)
    ensures deserCost.denominator > 0 ==>
              var settled := Settled(gasLimit, deserCost, old(slot.report), |data|);
              && (o == InsufficientGas(|data|) <==> settled.None?)
              && (settled.Some? ==> slot.report == settled.value && slot.report.usedInternally <= gasLimit && Judged(parsed, o))
    ensures deserCost.denominator > 0 && Fits(deserCost, old(slot.report), |data|) ==>
              var was, price := old(slot.report), Price(deserCost, |data|);
              && (o.InsufficientGas? <==> gasLimit < price + was.usedInternally)
              && (!o.InsufficientGas? ==>
                    && slot.report.usedInternally == was.usedInternally + price
                    && (slot.report.usedInternally + slot.report.remaining == was.usedInternally + was.remaining
                        <==> price <= was.remaining)
                    && (Balanced(was) && was.limit == gasLimit && was.usedExternally == 0 ==>
                          Balanced(slot.report) && slot.report.remaining == was.remaining - price))
  {
    if deserCost.denominator == 0 {
      return DivisionByZero;
    }
    if Fits(deserCost, slot.report, |data|) {
      PriceIsMoved(gasLimit, deserCost, slot.report, |data|);
    }
    var report := slot.report;
    var gasForDeserialization := MulFloor(deserCost, |data|).value;
    if gasLimit < Wrap64(gasForDeserialization + report.usedInternally) {
      return InsufficientGas(|data|);
    }
    slot.report := report.(usedInternally := Wrap64(report.usedInternally + gasForDeserialization),
                           remaining := Sub64(report.remaining, gasForDeserialization));
    if parsed.None? {
      return Unparsable;
    }
    o := CheckPayloads(parsed.value);
  }

  method CheckPayloads(response: Response) returns (o: Outcome)
    ensures Judged(Some(response), o) && !o.InsufficientGas?
  {
    if response.WithMessages? {
      for i := 0 to |response.payloads|
        invariant forall j :: 0 <= j < i ==> !TooLarge(response.payloads[j])
      {
        if |response.payloads[i]| > REPLY_PAYLOAD_MAX_BYTES {
          return PayloadTooLarge(i, |response.payloads[i]|);
        }
      }
    }
    return Accepted(response);
  }

  /**
   * The charge can be more than what remains. All gas is used up, half of it externally; two gas
   * units a byte for five bytes pass the check, and what remains wraps around.
   */
  method ExternalGasUnderflows() returns (slot: ReportSlot, o: Outcome)
    ensures fresh(slot) && Balanced(GasReport(100, 0, 50, 50))
    ensures o == Accepted(WithoutMessages) && slot.report == GasReport(100, TWO_TO_64 - 10, 50, 60)
  {
    slot := new ReportSlot(GasReport(100, 0, 50, 50));
    assert Price(UFraction(2, 1), 5) == 10;
    o := DeserializeResponse(100, UFraction(2, 1), slot, Ascii("hello"), Some(WithoutMessages));
  }
}
