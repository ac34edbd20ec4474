/** Metered billing: each accepted reading advances the meter and may post a charge. */
module UtilityMeters {
  import opened Wrappers
  import opened Money

  datatype Meter = Meter(lastReading: Option<real>, unitRate: Option<real>, fixedCharge: Option<real>)

  datatype Reading = Reading(value: real, previous: Option<real>, consumption: Option<real>,
                             unitRate: Option<real>, fixedCharge: Option<real>, billed: Option<real>,
                             chargeIndex: Option<nat>)

  /** A numeric field of a request: left out, not a number, or a number (an empty reading counts as 0). */
  datatype Number = Blank | NotANumber | Value(x: real)

  datatype Request = Request(readingValue: Number, unitRate: Number, fixedCharge: Number, postCharge: bool)

  datatype MeterError = InvalidAmount | BelowPreviousReading

  datatype State = State(meter: Meter, readings: seq<Reading>, charges: seq<real>)

  function NormalizeAmount(n: Number): Result<real, MeterError> {
    if !n.Value? || n.x < 0.0 then Err(InvalidAmount) else Ok(ToFixed2(n.x))
  }

  /** A rate given with the reading replaces the meter's. */
  function Effective(n: Number, current: Option<real>): Result<Option<real>, MeterError> {
    if n.Blank? then Ok(current)
    else
      var x := NormalizeAmount(n);
      if x.Err? then Err(x.error) else Ok(Some(x.value))
  }

  function Consumption(value: real, previous: Option<real>): Option<real> {
    if previous.Some? then Some(ToFixed2(value - previous.value)) else None
  }

  function OrZero(x: Option<real>): real { if x.Some? then x.value else 0.0 }

  function Bill(consumption: real, unitRate: real, fixedCharge: real): real { consumption * unitRate + fixedCharge }

  function Billed(consumption: Option<real>, unitRate: Option<real>, fixedCharge: Option<real>): Option<real> {
    if consumption.Some? && unitRate.Some?
    then Some(ToFixed2(Bill(consumption.value, unitRate.value, OrZero(fixedCharge))))
    else None
  }

  /** recordUtilityReading on the meter, its readings and the charges posted from it. */
  function Recorded(s: State, req: Request): Result<State, MeterError> {
    var value := NormalizeAmount(req.readingValue);
    if value.Err? then Err(value.error)
    else
      var previous := s.meter.lastReading;
      var consumption := Consumption(value.value, previous);
      if consumption.Some? && consumption.value < 0.0 then Err(BelowPreviousReading)
      else
        var unitRate := Effective(req.unitRate, s.meter.unitRate);
        var fixedCharge := Effective(req.fixedCharge, s.meter.fixedCharge);
        if unitRate.Err? then Err(unitRate.error)
        else if fixedCharge.Err? then Err(fixedCharge.error)
        else
          var billed := Billed(consumption, unitRate.value, fixedCharge.value);
          var posts := req.postCharge && OrZero(billed) > 0.0;
          Ok(State(Meter(Some(value.value), unitRate.value, fixedCharge.value),
                   s.readings + [Reading(value.value, previous, consumption, unitRate.value, fixedCharge.value, billed,
                                         if posts then Some(|s.charges|) else None)],
                   if posts then s.charges + [billed.value] else s.charges))
  }

  class UtilityMeter {
    var lastReading: Option<real>
    var unitRate: Option<real>
    var fixedCharge: Option<real>
    var readings: seq<Reading>
    var charges: seq<real>

    function Contents(): State
      reads this
    {
      State(Meter(lastReading, unitRate, fixedCharge), readings, charges)
    }

    constructor (unitRate: Option<real>, fixedCharge: Option<real>)
      ensures Contents() == State(Meter(None, unitRate, fixedCharge), [], [])
    {
      lastReading := None;
      this.unitRate, this.fixedCharge := unitRate, fixedCharge;
      readings, charges := [], [];
    }

    method RecordUtilityReading(req: Request) returns (error: Option<MeterError>)
      modifies this
      ensures var r := Recorded(old(Contents()), req);
              if r.Ok? then error.None? && Contents() == r.value
              else error == Some(r.error) && Contents() == old(Contents())
    {
      if !req.readingValue.Value? || req.readingValue.x < 0.0 { return Some(InvalidAmount); }
      var readingValue := ToFixed2(req.readingValue.x);
      var previousValue := lastReading;
      var consumption: Option<real> := None;
      if previousValue.Some? {
        consumption := Some(ToFixed2(readingValue - previousValue.value));
        if consumption.value < 0.0 { return Some(BelowPreviousReading); }
      }
      var rate, fixedPart := unitRate, fixedCharge;
      if !req.unitRate.Blank? {
        if req.unitRate.NotANumber? || req.unitRate.x < 0.0 { return Some(InvalidAmount); }
        rate := Some(ToFixed2(req.unitRate.x));
      }
      if !req.fixedCharge.Blank? {
        if req.fixedCharge.NotANumber? || req.fixedCharge.x < 0.0 { return Some(InvalidAmount); }
        fixedPart := Some(ToFixed2(req.fixedCharge.x));
      }
      var billedAmount := Billed(consumption, rate, fixedPart);
      var chargeIndex: Option<nat> := None;
      if req.postCharge && billedAmount.Some? && billedAmount.value > 0.0 {
        chargeIndex := Some(|charges|);
        charges := charges + [billedAmount.value];
      }
      readings := readings + [Reading(readingValue, previousValue, consumption, rate, fixedPart,
                                      billedAmount, chargeIndex)];
      lastReading, unitRate, fixedCharge := Some(readingValue), rate, fixedPart;
      return None;
    }
  }

  // ---- runs ----

  function Step(s: State, req: Request): State {
    var r := Recorded(s, req);
    if r.Ok? then r.value else s
  }

  /** Between readings, the rates of a meter may be edited. */
  datatype Op = Read(request: Request) | EditRates(unitRate: Option<real>, fixedCharge: Option<real>)

  function Applied(s: State, op: Op): State {
    match op
    case Read(req) => Step(s, req)
    case EditRates(unitRate, fixedCharge) => s.(meter := s.meter.(unitRate := unitRate, fixedCharge := fixedCharge))
  }

  function Run(s: State, ops: seq<Op>): State {
    if ops == [] then s else Applied(Run(s, ops[..|ops| - 1]), ops[|ops| - 1])
  }

  function Fresh(meter: Meter): State { State(meter, [], []) }

  /** Sum of the consumptions of the readings; the very first reading of a meter has none. */
  function Consumed(readings: seq<Reading>): real {
    if readings == [] then 0.0
    else Consumed(readings[..|readings| - 1]) + OrZero(readings[|readings| - 1].consumption)
  }

  function BilledTotal(readings: seq<Reading>): real {
    if readings == [] then 0.0
    else BilledTotal(readings[..|readings| - 1]) + OrZero(readings[|readings| - 1].billed)
  }

  function BilledCount(readings: seq<Reading>): nat {
    if readings == [] then 0
    else BilledCount(readings[..|readings| - 1]) + if readings[|readings| - 1].billed.Some? then 1 else 0
  }

  /** Sum of the billed amounts of the readings that have a charge. */
  function PostedTotal(readings: seq<Reading>): real {
    if readings == [] then 0.0
    else
      var last := readings[|readings| - 1];
      PostedTotal(readings[..|readings| - 1]) + if last.chargeIndex.Some? then OrZero(last.billed) else 0.0
  }

  /** The reading the telescope starts from: the meter's own, or else the first one taken. */
  function Origin(meter: Meter, readings: seq<Reading>): real {
    if meter.lastReading.Some? then meter.lastReading.value
    else if readings != [] then readings[0].value else 0.0
  }

  predicate WholeReading(x: Option<real>) { x.Some? ==> WholeCents(x.value) }

  ghost predicate NonDecreasing(readings: seq<Reading>) {
    forall i, j :: 0 <= i < j < |readings| ==> readings[i].value <= readings[j].value
  }

  /** The readings form a chain that ends at the meter's last reading. */
  ghost predicate Chained(start: Meter, s: State) {
    && WholeReading(s.meter.lastReading)
    && (s.readings == [] ==> s.meter.lastReading == start.lastReading)
    && (s.readings != [] ==> s.meter.lastReading == Some(s.readings[|s.readings| - 1].value))
    && NonDecreasing(s.readings)
    && (s.meter.lastReading.Some? ==> Consumed(s.readings) == s.meter.lastReading.value - Origin(start, s.readings))
  }

  ghost predicate ChargesMatch(s: State) {
    Sum(s.charges) == PostedTotal(s.readings) && forall c <- s.charges :: c >= 0.01 && WholeCents(c)
  }

  /** Neither rounding of whole hundredths nor of their difference changes anything. */
  lemma ConsumptionIsExact(value: real, previous: real)
    requires WholeCents(value) && WholeCents(previous)
    ensures ToFixed2(value - previous) == value - previous
  {
    WholeCentsAdd(value, previous);
    WholeCentsAdd(previous, value);
    RoundingIsClose(value - previous);
    RoundingIsClose(previous - value);
  }

  lemma FixedIsClose(x: real)
    ensures -0.005 <= ToFixed2(x) - x <= 0.005
    ensures x >= 0.0 ==> WholeCents(ToFixed2(x))
  {
    RoundingIsClose(x);
    RoundingIsClose(-x);
  }

  lemma PositiveBill(x: real)
    requires ToFixed2(x) > 0.0
    ensures ToFixed2(x) >= 0.01 && WholeCents(ToFixed2(x))
  {
    RoundingIsClose(x);
    RoundingIsClose(Round2(x));
  }

  /** What an accepted request adds. */
  lemma AcceptedReading(s: State, req: Request)
    requires Recorded(s, req).Ok?
    ensures var s' := Step(s, req);
            && |s'.readings| == |s.readings| + 1
            && s'.readings == s.readings + [s'.readings[|s.readings|]]
            && var last := s'.readings[|s.readings|];
            && s'.meter.lastReading == Some(last.value) && last.previous == s.meter.lastReading
            && last.consumption == Consumption(last.value, last.previous) && OrZero(last.consumption) >= 0.0
            && last.billed == Billed(last.consumption, last.unitRate, last.fixedCharge)
            && WholeCents(last.value)
            && (last.chargeIndex.Some? <==> req.postCharge && OrZero(last.billed) > 0.0)
            && s'.charges == s.charges + if last.chargeIndex.Some? then [OrZero(last.billed)] else []
  {
    hide ToFixed2;
    hide WholeCents;
    hide Bill;
    FixedIsClose(req.readingValue.x);
  }

  /** A rate in force after a reading: the one given with it, rounded to hundredths, or else the meter's. */
  predicate InForce(given: Number, before: Option<real>, after: Option<real>) {
    match given
    case Blank => after == before
    case NotANumber => false
    case Value(x) => x >= 0.0 && after.Some? && WholeCents(after.value) && -0.005 <= after.value - x <= 0.005
  }

  /**
   An accepted reading is the number given, in hundredths; its rates and the meter's are those in force; it is
   billed exactly when a previous reading and a rate are known, and posts exactly when asked to and the bill is
   positive.
   */
  lemma ReadingMeans(s: State, req: Request)
    requires Recorded(s, req).Ok?
    ensures var s' := Recorded(s, req).value;
            && |s'.readings| == |s.readings| + 1 && s'.readings[..|s.readings|] == s.readings
            && var last := s'.readings[|s.readings|];
            && req.readingValue.Value? && -0.005 <= last.value - req.readingValue.x <= 0.005 && WholeCents(last.value)
            && s'.meter == Meter(Some(last.value), last.unitRate, last.fixedCharge)
            && InForce(req.unitRate, s.meter.unitRate, last.unitRate)
            && InForce(req.fixedCharge, s.meter.fixedCharge, last.fixedCharge)
            && last.previous == s.meter.lastReading
            && (last.consumption.Some? <==> last.previous.Some?)
            && (last.billed.Some? <==> last.previous.Some? && last.unitRate.Some?)
            && (last.billed.Some? ==>
                  var exact := last.consumption.value * last.unitRate.value
                               + (if last.fixedCharge.Some? then last.fixedCharge.value else 0.0);
                  -0.005 <= last.billed.value - exact <= 0.005)
            && (|s'.charges| == |s.charges| + 1 <==> req.postCharge && last.billed.Some? && last.billed.value > 0.0)
            && (last.chargeIndex.Some? <==> |s'.charges| == |s.charges| + 1)
            && (last.chargeIndex.Some? ==>
                  && last.billed.Some? && last.chargeIndex == Some(|s.charges|)
                  && s'.charges == s.charges + [last.billed.value])
            && (last.chargeIndex.None? ==> s'.charges == s.charges)
  {
    hide ToFixed2;
    hide WholeCents;
    FixedIsClose(req.readingValue.x);
    RateInForce(req.unitRate, s.meter.unitRate);
    RateInForce(req.fixedCharge, s.meter.fixedCharge);
    var last := Recorded(s, req).value.readings[|s.readings|];
    if last.billed.Some? { BillIsClose(last.consumption.value, last.unitRate.value, last.fixedCharge); }
    hide InForce;
    hide Effective;
    hide Bill;
  }

  lemma RateInForce(given: Number, before: Option<real>)
    requires Effective(given, before).Ok?
    ensures InForce(given, before, Effective(given, before).value)
  {
    if given.Value? { FixedIsClose(given.x); }
    hide ToFixed2;
    hide WholeCents;
  }

  lemma BillIsClose(consumption: real, unitRate: real, fixedCharge: Option<real>)
    ensures var exact := consumption * unitRate + (if fixedCharge.Some? then fixedCharge.value else 0.0);
            -0.005 <= ToFixed2(Bill(consumption, unitRate, OrZero(fixedCharge))) - exact <= 0.005
  {
    FixedIsClose(Bill(consumption, unitRate, OrZero(fixedCharge)));
    hide ToFixed2;
  }

  lemma StepKeepsChain(start: Meter, s: State, req: Request)
    requires Chained(start, s)
    ensures Chained(start, Step(s, req))
  {
    if Recorded(s, req).Err? { return; }
    AcceptedReading(s, req);
    var s' := Step(s, req);
    var last := s'.readings[|s.readings|];
    if last.previous.Some? { ConsumptionIsExact(last.value, last.previous.value); }
    hide Recorded;
    hide Step;
    hide ToFixed2;
    hide WholeCents;
    hide Billed;
    assert s'.readings[..|s.readings|] == s.readings;
    assert Consumed(s'.readings) == Consumed(s.readings) + OrZero(last.consumption);
    assert s.readings != [] ==> s'.readings[0] == s.readings[0];
  }

  /** A reading with no other fault is refused exactly when, in hundredths, it lies below the last one. */
  lemma RefusedIffBelow(s: State, req: Request)
    requires WholeReading(s.meter.lastReading)
    requires NormalizeAmount(req.readingValue).Ok?
    requires Effective(req.unitRate, s.meter.unitRate).Ok? && Effective(req.fixedCharge, s.meter.fixedCharge).Ok?
    ensures Recorded(s, req) == Err(BelowPreviousReading)
            <==> s.meter.lastReading.Some? && ToFixed2(req.readingValue.x) < s.meter.lastReading.value
    ensures Recorded(s, req).Ok?
            <==> s.meter.lastReading.Some? ==> s.meter.lastReading.value <= ToFixed2(req.readingValue.x)
  {
    var value := ToFixed2(req.readingValue.x);
    FixedIsClose(req.readingValue.x);
    if s.meter.lastReading.Some? { ConsumptionIsExact(value, s.meter.lastReading.value); }
    hide ToFixed2;
    hide Billed;
  }

  /** A number that the request validation lets through. */
  predicate NotNegative(n: Number) { n.Value? && n.x >= 0.0 }

  /** A request is accepted exactly with a non-negative reading not below the last, and non-negative rates if any. */
  lemma AcceptedIff(s: State, req: Request)
    requires WholeReading(s.meter.lastReading)
    ensures Recorded(s, req).Ok?
            <==> && NotNegative(req.readingValue)
                 && (req.unitRate.Blank? || NotNegative(req.unitRate))
                 && (req.fixedCharge.Blank? || NotNegative(req.fixedCharge))
                 && (s.meter.lastReading.Some? ==> s.meter.lastReading.value <= ToFixed2(req.readingValue.x))
  {
    hide ToFixed2;
    hide WholeCents;
    if NormalizeAmount(req.readingValue).Ok? && Effective(req.unitRate, s.meter.unitRate).Ok?
       && Effective(req.fixedCharge, s.meter.fixedCharge).Ok? {
      RefusedIffBelow(s, req);
    }
    hide Billed;
    hide Consumption;
  }

  lemma StepKeepsCharges(s: State, req: Request)
    requires ChargesMatch(s)
    ensures ChargesMatch(Step(s, req))
  {
    if Recorded(s, req).Err? { return; }
    AcceptedReading(s, req);
    var s' := Step(s, req);
    var last := s'.readings[|s.readings|];
    hide Recorded;
    hide Step;
    hide ToFixed2;
    hide WholeCents;
    hide Bill;
    assert s'.readings[..|s.readings|] == s.readings;
    if last.chargeIndex.Some? {
      PositiveBill(Bill(last.consumption.value, last.unitRate.value, OrZero(last.fixedCharge)));
      assert s'.charges[..|s.charges|] == s.charges;
    }
  }

  lemma {:induction false} RunKeepsInv(meter: Meter, ops: seq<Op>)
    requires WholeReading(meter.lastReading)
    ensures Chained(meter, Run(Fresh(meter), ops)) && ChargesMatch(Run(Fresh(meter), ops))
  {
    hide Step;
    if ops == [] {
    } else {
      var before := Run(Fresh(meter), ops[..|ops| - 1]);
      RunKeepsInv(meter, ops[..|ops| - 1]);
      if ops[|ops| - 1].Read? {
        StepKeepsChain(meter, before, ops[|ops| - 1].request);
        StepKeepsCharges(before, ops[|ops| - 1].request);
      }
    }
  }

  /** What every stored reading records about its own bill. */
  ghost predicate SelfConsistent(readings: seq<Reading>) {
    forall i :: 0 <= i < |readings| ==>
      readings[i].billed == Billed(readings[i].consumption, readings[i].unitRate, readings[i].fixedCharge)
  }

  lemma {:induction false} RunIsConsistent(meter: Meter, ops: seq<Op>)
    ensures SelfConsistent(Run(Fresh(meter), ops).readings)
  {
    if ops == [] {
    } else {
      RunIsConsistent(meter, ops[..|ops| - 1]);
    }
  }

  ghost predicate ConstantRate(readings: seq<Reading>, r: real, f: real) {
    forall i :: 0 <= i < |readings| ==> readings[i].unitRate == Some(r) && OrZero(readings[i].fixedCharge) == f
  }

  function Expected(r: real, consumed: real, f: real, n: nat): real { r * consumed + (n as real) * f }

  lemma ExpectedStep(r: real, consumed: real, f: real, n: nat, c: real)
    ensures Expected(r, consumed + c, f, n + 1) == Expected(r, consumed, f, n) + Bill(c, r, f)
  {
    var k := n as real;
    assert (n + 1) as real == k + 1.0;
    assert (k + 1.0) * f == k * f + f;
    assert r * (consumed + c) == r * consumed + c * r;
  }

  /** `n` bills at rate r and fixed charge f for a total consumption, each off by at most half a hundredth. */
  predicate BillsMatch(billed: real, r: real, consumed: real, f: real, n: nat) {
    -0.005 * (n as real) <= billed - Expected(r, consumed, f, n) <= 0.005 * (n as real)
  }

  lemma OneMoreBill(billed: real, r: real, consumed: real, f: real, n: nat, bill: real, c: real)
    requires BillsMatch(billed, r, consumed, f, n)
    requires -0.005 <= bill - Bill(c, r, f) <= 0.005
    ensures BillsMatch(billed + bill, r, consumed + c, f, n + 1)
  {
    ExpectedStep(r, consumed, f, n, c);
    hide Expected;
    hide Bill;
  }

  lemma NoBills(r: real, f: real)
    ensures BillsMatch(0.0, r, 0.0, f, 0)
  {
  }

  lemma BillOf(last: Reading, r: real, f: real)
    requires last.billed == Billed(last.consumption, Some(r), last.fixedCharge) && OrZero(last.fixedCharge) == f
    ensures last.billed.Some? <==> last.consumption.Some?
    ensures last.billed.Some? ==> -0.005 <= last.billed.value - Bill(last.consumption.value, r, f) <= 0.005
  {
    hide ToFixed2;
    hide Bill;
    if last.consumption.Some? { FixedIsClose(Bill(last.consumption.value, r, f)); }
  }

  /** Each bill is rounded once, so n bills are off by at most half a hundredth each. */
  lemma {:induction false} BillsTelescope(readings: seq<Reading>, r: real, f: real)
    requires SelfConsistent(readings) && ConstantRate(readings, r, f)
    ensures BillsMatch(BilledTotal(readings), r, Consumed(readings), f, BilledCount(readings))
  {
    hide BillsMatch;
    hide Billed;
    hide Bill;
    if readings == [] {
      NoBills(r, f);
    } else {
      var front, last := readings[..|readings| - 1], readings[|readings| - 1];
      BillsTelescope(front, r, f);
      BillOf(last, r, f);
      if last.billed.Some? {
        OneMoreBill(BilledTotal(front), r, Consumed(front), f, BilledCount(front),
                    last.billed.value, last.consumption.value);
      }
    }
  }

  /**
   For any sequence of readings and rate edits: readings never decrease, consumptions sum to last minus first, posted
   charges sum to the bills of the readings that posted, and at a constant rate r and fixed charge f the
   n bills sum to r * (last - first) + n * f within 0.005 * n.
   */
  lemma MeterBillingTelescopes(meter: Meter, ops: seq<Op>, r: real, f: real)
    requires WholeReading(meter.lastReading)
    ensures var s := Run(Fresh(meter), ops);
            && NonDecreasing(s.readings)
            && Sum(s.charges) == PostedTotal(s.readings)
            && (s.readings != [] ==>
                  var span := s.readings[|s.readings| - 1].value - Origin(meter, s.readings);
                  && Consumed(s.readings) == span
                  && (ConstantRate(s.readings, r, f) ==>
                        BillsMatch(BilledTotal(s.readings), r, span, f, BilledCount(s.readings))))
  {
    hide BillsMatch;
    RunKeepsInv(meter, ops);
    RunIsConsistent(meter, ops);
    var s := Run(Fresh(meter), ops);
    if ConstantRate(s.readings, r, f) { BillsTelescope(s.readings, r, f); }
  }

  /** Every charge a meter posts is one that the ledger's agreement and overpayment bounds cover. */
  lemma PostedChargesSuitLedger(meter: Meter, ops: seq<Op>)
    requires WholeReading(meter.lastReading)
    ensures forall c <- Run(Fresh(meter), ops).charges :: c >= 0.01 && WholeCents(c)
  {
    RunKeepsInv(meter, ops);
  }
}
