/**
 Estate charges and their payments. The status column caches a status that is otherwise derived from
 the amounts, the due date and the clock; three services and a cron job write it. The overdue job reads
 its rows at once and writes them one by one, so other writers come in between.
 */
module EstateLedger {
  import opened Wrappers
  import opened Money
  import opened Sequences

  const DAY := 86_400_000
  const TOLERANCE := 0.009

  datatype Status = Posted | PartiallyPaid | Paid | Overdue | Void

  /** `reminded` stands for an overdue entry in the charge's reminder log. */
  datatype Charge = Charge(residentId: Option<string>, amount: real, dueDate: int, status: Status,
                           payments: seq<real>, reminded: bool)

  datatype LedgerError =
    | ChargeNotFound | ResidentNotBillable | BadAmount | InvalidDueDate | BelowPaidAmount
    | ChargeIsVoid | ExceedsOutstanding

  datatype DateInput = Absent | Malformed | At(ms: int)

  // ---- the pure functions of the service ----

  function Max(x: real, y: real): real { if x < y then y else x }

  /** What the request validation of an amount lets through. */
  predicate ValidAmount(x: real) { x >= 0.01 && WholeCents(x) }

  /** normalizeCurrencyAmount. */
  function Normalized(x: real): Result<real, LedgerError> {
    if x <= 0.0 then Err(BadAmount) else Ok(Round2(x))
  }

  function Derived(amount: real, paidAmount: real, dueDate: int, forced: Status, now: int): Status {
    if forced == Void then Void
    else if Max(paidAmount, 0.0) >= Max(amount, 0.0) - TOLERANCE then Paid
    else if dueDate < now then Overdue
    else if Max(paidAmount, 0.0) > 0.0 then PartiallyPaid
    else Posted
  }

  function DerivedNow(c: Charge, now: int): Status {
    Derived(c.amount, Sum(c.payments), c.dueDate, c.status, now)
  }

  // ---- the writers, as functions of one charge ----

  function NewCharge(residentId: Option<string>, amount: real, dueDate: DateInput, now: int)
    : Result<Charge, LedgerError>
  {
    if !ValidAmount(amount) then Err(BadAmount)
    else if residentId.None? then Err(ResidentNotBillable)
    else if !dueDate.At? then Err(InvalidDueDate)
    else
      var value := Normalized(amount);
      if value.Err? then Err(value.error)
      else Ok(Charge(residentId, value.value, dueDate.ms, Derived(value.value, 0.0, dueDate.ms, Posted, now),
                     [], false))
  }

  function NextAmount(c: Charge, amount: Option<real>): Result<real, LedgerError> {
    if amount.Some? then Normalized(amount.value) else Ok(c.amount)
  }

  function EditedCharge(c: Charge, amount: Option<real>, dueDate: DateInput, makeVoid: bool, now: int)
    : Result<Charge, LedgerError>
  {
    var value := NextAmount(c, amount);
    if amount.Some? && !ValidAmount(amount.value) then Err(BadAmount)
    else if value.Err? then Err(value.error)
    else if value.value + TOLERANCE < Sum(c.payments) then Err(BelowPaidAmount)
    else if dueDate.Malformed? then Err(InvalidDueDate)
    else
      var due := if dueDate.At? then dueDate.ms else c.dueDate;
      var forced := if makeVoid then Void else c.status;
      Ok(c.(amount := value.value, dueDate := due,
            status := Derived(value.value, Sum(c.payments), due, forced, now)))
  }

  function PaidCharge(c: Charge, amount: real, now: int): Result<Charge, LedgerError> {
    if !ValidAmount(amount) then Err(BadAmount)
    else if c.status == Void then Err(ChargeIsVoid)
    else
      var value := Normalized(amount);
      if value.Err? then Err(value.error)
      else if value.value > Max(c.amount - Sum(c.payments), 0.0) + TOLERANCE then Err(ExceedsOutstanding)
      else
        Ok(c.(payments := c.payments + [value.value],
              status := Derived(c.amount, Sum(c.payments) + value.value, c.dueDate, c.status, now)))
  }

  /** The hourly job posts with status POSTED, due in seven days. */
  function RecurringCharge(residentId: string, amount: real, now: int): Charge {
    Charge(Some(residentId), amount, now + 7 * DAY, Posted, [], false)
  }

  /** A meter reading posts with the column's default status, due seven days after the reading. */
  function MeterCharge(residentId: Option<string>, billedAmount: real, readingDate: int): Charge {
    Charge(residentId, billedAmount, readingDate + 7 * DAY, Posted, [], false)
  }

  /** The row filter of the overdue job. */
  predicate OverdueCandidate(c: Charge, now: int) {
    c.status in {Posted, PartiallyPaid, Overdue} && c.dueDate < now && !c.reminded
  }

  function MarkedOverdue(c: Charge): Charge { c.(status := Overdue, reminded := true) }

  // ---- the ledger ----

  type Id = string

  /** `reading` holds the rows that the overdue job has read and may still write. */
  datatype State = State(charges: map<Id, Charge>, reading: set<Id>, clock: int)

  datatype Op =
    | CreateFinance(id: Id, residentId: Option<string>, amount: real, dueDate: DateInput)
    | UpdateFinance(id: Id, newAmount: Option<real>, dueDate: DateInput, makeVoid: bool)
    | RecordPayment(id: Id, amount: real)
    | PostRecurring(id: Id, resident: string, amount: real)
    | PostMeter(id: Id, residentId: Option<string>, amount: real, readingDate: int)
    | OverdueRead(batch: set<Id>)
    | OverdueWrite(id: Id)
    | OverdueSkip(id: Id)
    | Tick(ms: nat)

  function Put(s: State, id: Id, c: Result<Charge, LedgerError>): State {
    if c.Ok? then s.(charges := s.charges[id := c.value]) else s
  }

  function AfterOverdueJob(charges: map<Id, Charge>, batch: set<Id>): map<Id, Charge> {
    map id | id in charges :: if id in batch then MarkedOverdue(charges[id]) else charges[id]
  }

  /**
   Fresh ids on creation; metered amounts as the meters post them; the job's batch is what its query can
   return, and one run of the job ends before the next begins.
   */
  predicate Enabled(s: State, op: Op) {
    match op
    case CreateFinance(id, _, _, _) => id !in s.charges
    case PostRecurring(id, _, _) => id !in s.charges
    case PostMeter(id, _, amount, _) => id !in s.charges && amount > 0.0 && WholeCents(amount)
    case OverdueRead(batch) =>
      s.reading == {} && forall id <- batch :: id in s.charges && OverdueCandidate(s.charges[id], s.clock)
    case _ => true
  }

  function Step(s: State, op: Op): State {
    match op
    case CreateFinance(id, residentId, amount, dueDate) => Put(s, id, NewCharge(residentId, amount, dueDate, s.clock))
    case UpdateFinance(id, amount, dueDate, makeVoid) =>
      if id in s.charges then Put(s, id, EditedCharge(s.charges[id], amount, dueDate, makeVoid, s.clock)) else s
    case RecordPayment(id, amount) =>
      if id in s.charges then Put(s, id, PaidCharge(s.charges[id], amount, s.clock)) else s
    case PostRecurring(id, resident, amount) => Put(s, id, Ok(RecurringCharge(resident, amount, s.clock)))
    case PostMeter(id, residentId, amount, readingDate) => Put(s, id, Ok(MeterCharge(residentId, amount, readingDate)))
    case OverdueRead(batch) => s.(reading := batch)
    case OverdueWrite(id) =>
      if id in s.reading && id in s.charges
      then State(s.charges[id := MarkedOverdue(s.charges[id])], s.reading - {id}, s.clock) else s
    case OverdueSkip(id) => s.(reading := s.reading - {id})
    case Tick(ms) => s.(clock := s.clock + ms)
  }

  predicate ValidRun(s: State, ops: seq<Op>)
    decreases |ops|
  {
    ops == [] || (Enabled(s, ops[0]) && ValidRun(Step(s, ops[0]), ops[1..]))
  }

  function Run(s: State, ops: seq<Op>): State
    decreases |ops|
  {
    if ops == [] then s else Run(Step(s, ops[0]), ops[1..])
  }

  // ---- what every run keeps ----

  /** The stored status is the derived one, or it lags behind a due date that has passed. */
  predicate Agrees(c: Charge, now: int) {
    c.status == DerivedNow(c, now) || (c.status in {Posted, PartiallyPaid} && DerivedNow(c, now) == Overdue)
  }

  /** Payments are positive whole hundredths and stay within the amount, up to the tolerance. */
  ghost predicate Bounded(c: Charge) {
    && (forall p <- c.payments :: WholeCents(p) && p >= 0.01)
    && 0.0 <= Sum(c.payments) <= Max(c.amount, 0.0) + TOLERANCE
    && (WholeCents(c.amount) ==> Sum(c.payments) <= Max(c.amount, 0.0))
  }

  /** Amounts up to the tolerance are exempt from agreement: derivation takes them for paid from the start. */
  ghost predicate Sound(c: Charge, now: int) {
    Bounded(c) && (c.amount > TOLERANCE ==> Agrees(c, now))
  }

  ghost predicate Inv(s: State) { forall id <- s.charges :: Bounded(s.charges[id]) }

  lemma NewChargeIsSound(residentId: Option<string>, amount: real, dueDate: DateInput, now: int)
    requires NewCharge(residentId, amount, dueDate, now).Ok?
    ensures Sound(NewCharge(residentId, amount, dueDate, now).value, now)
  {
    RoundingIsClose(amount);
  }

  lemma EditIsSound(c: Charge, amount: Option<real>, dueDate: DateInput, makeVoid: bool, now: int)
    requires Bounded(c) && EditedCharge(c, amount, dueDate, makeVoid, now).Ok?
    ensures Sound(EditedCharge(c, amount, dueDate, makeVoid, now).value, now)
  {
    if amount.Some? {
      RoundingIsClose(amount.value);
      WholeCentsSum(c.payments);
      NoSmallGap(Sum(c.payments), Round2(amount.value));
    }
  }

  lemma PaymentIsSound(c: Charge, amount: real, now: int)
    requires Bounded(c) && PaidCharge(c, amount, now).Ok?
    ensures Sound(PaidCharge(c, amount, now).value, now)
  {
    var c' := PaidCharge(c, amount, now).value;
    RoundingIsClose(amount);
    assert c'.payments[..|c.payments|] == c.payments;
    WholeCentsSum(c'.payments);
    if WholeCents(c.amount) { NoSmallGap(Sum(c'.payments), c.amount); }
  }

  lemma TinyChargesArePaid(c: Charge, now: int)
    requires c.amount <= TOLERANCE
    ensures DerivedNow(c, now) == if c.status == Void then Void else Paid
  {
  }

  lemma StepKeepsInv(s: State, op: Op)
    requires Inv(s) && Enabled(s, op)
    ensures Inv(Step(s, op))
  {
    match op {
      case CreateFinance(id, residentId, amount, dueDate) =>
        if NewCharge(residentId, amount, dueDate, s.clock).Ok? {
          NewChargeIsSound(residentId, amount, dueDate, s.clock);
        }
      case UpdateFinance(id, amount, dueDate, makeVoid) =>
        if id in s.charges && EditedCharge(s.charges[id], amount, dueDate, makeVoid, s.clock).Ok? {
          EditIsSound(s.charges[id], amount, dueDate, makeVoid, s.clock);
        }
      case RecordPayment(id, amount) =>
        if id in s.charges && PaidCharge(s.charges[id], amount, s.clock).Ok? {
          PaymentIsSound(s.charges[id], amount, s.clock);
        }
      case PostRecurring(_, _, _) =>
      case PostMeter(_, _, amount, _) => RoundingIsClose(amount);
      case OverdueRead(_) | OverdueWrite(_) | OverdueSkip(_) | Tick(_) =>
    }
  }

  /** The overdue job never consults the amounts; it writes what derivation gives exactly above the tolerance. */
  lemma BlindOverdueIsRightIff(c: Charge, now: int)
    requires Sound(c, now) && OverdueCandidate(c, now)
    ensures DerivedNow(c, now) == Overdue <==> c.amount > TOLERANCE
    ensures DerivedNow(MarkedOverdue(c), now) == Overdue <==> c.amount > TOLERANCE
    ensures Sound(MarkedOverdue(c), now)
  {
  }

  lemma {:induction false} RunKeepsInv(s: State, ops: seq<Op>)
    requires Inv(s) && ValidRun(s, ops)
    ensures Inv(Run(s, ops))
    decreases |ops|
  {
    if ops == [] {
    } else {
      StepKeepsInv(s, ops[0]);
      RunKeepsInv(Step(s, ops[0]), ops[1..]);
    }
  }

  /** An edit or a payment goes through. */
  predicate Accepted(s: State, op: Op) {
    match op
    case UpdateFinance(id, amount, dueDate, makeVoid) =>
      id in s.charges && EditedCharge(s.charges[id], amount, dueDate, makeVoid, s.clock).Ok?
    case RecordPayment(id, amount) => id in s.charges && PaidCharge(s.charges[id], amount, s.clock).Ok?
    case _ => false
  }

  /**
   `tiny`: recurring charges of at most the tolerance that no accepted edit or payment has touched since
   they were posted. `touched`: rows of the overdue job that one has touched since the job read them.
   `overwritten`: rows that the job then wrote all the same, and that none has touched since.
   */
  datatype History = History(tiny: set<Id>, touched: set<Id>, overwritten: set<Id>)

  function HistoryAfter(s: State, op: Op, h: History): History {
    match op
    case PostRecurring(id, _, amount) => if amount <= TOLERANCE then h.(tiny := h.tiny + {id}) else h
    case UpdateFinance(id, _, _, _) => if Accepted(s, op) then Touched(s, id, h) else h
    case RecordPayment(id, _) => if Accepted(s, op) then Touched(s, id, h) else h
    case OverdueRead(_) => h.(touched := {})
    case OverdueWrite(id) => if id in s.reading * h.touched then h.(overwritten := h.overwritten + {id}) else h
    case _ => h
  }

  function Touched(s: State, id: Id, h: History): History {
    History(h.tiny - {id}, if id in s.reading then h.touched + {id} else h.touched, h.overwritten - {id})
  }

  function HistoryOf(s: State, ops: seq<Op>, h: History): History
    decreases |ops|
  {
    if ops == [] then h else HistoryOf(Step(s, ops[0]), ops[1..], HistoryAfter(s, ops[0], h))
  }

  function Empty(clock: int): State { State(map[], {}, clock) }

  const NOTHING := History({}, {}, {})

  /** What is known of a charge by its history. */
  predicate TrackedCharge(c: Charge, now: int, isTiny: bool, isOverwritten: bool) {
    if isTiny then c.amount <= TOLERANCE && c.status in {Posted, Overdue}
    else if isOverwritten then c.status == Overdue
    else if c.amount > TOLERANCE then Agrees(c, now)
    else c.status in {Paid, Void}
  }

  /** A row of the job that nothing has touched since it was read is still one the query would return. */
  predicate StillOverdue(c: Charge, now: int) { c.status in {Posted, PartiallyPaid, Overdue} && c.dueDate < now }

  ghost predicate Tracked(s: State, h: History) {
    && h.tiny <= s.charges.Keys && s.reading <= s.charges.Keys && h.overwritten <= s.charges.Keys
    && (forall id <- s.charges :: TrackedCharge(s.charges[id], s.clock, id in h.tiny, id in h.overwritten))
    && forall id <- s.reading :: id !in h.touched ==> StillOverdue(s.charges[id], s.clock)
  }

  /** An accepted edit or payment of a charge puts it where derivation has it. */
  lemma WritersSettleCharges(s: State, op: Op)
    requires Inv(s) && Accepted(s, op)
    ensures Step(s, op).charges == s.charges[op.id := Step(s, op).charges[op.id]]
    ensures TrackedCharge(Step(s, op).charges[op.id], s.clock, false, false)
  {
    var c := s.charges[op.id];
    assert Bounded(c);
    match op {
      case UpdateFinance(_, amount, dueDate, makeVoid) =>
        if amount.Some? { RoundingIsClose(amount.value); }
        EditIsSound(c, amount, dueDate, makeVoid, s.clock);
      case RecordPayment(_, amount) =>
        RoundingIsClose(amount);
        PaymentIsSound(c, amount, s.clock);
    }
  }

  /** The job's write of a row that nothing has touched since it was read. */
  lemma UntouchedWriteKeepsTrack(c: Charge, now: int, isTiny: bool, isOverwritten: bool)
    requires Bounded(c) && TrackedCharge(c, now, isTiny, isOverwritten) && StillOverdue(c, now)
    ensures TrackedCharge(MarkedOverdue(c), now, isTiny, isOverwritten)
  {
  }

  lemma JobKeepsTrack(s: State, op: Op, h: History)
    requires op.OverdueRead? || op.OverdueWrite? || op.OverdueSkip?
    requires Inv(s) && Enabled(s, op) && Tracked(s, h)
    ensures Tracked(Step(s, op), HistoryAfter(s, op, h))
  {
    if op.OverdueWrite? && op.id in s.reading && op.id !in h.touched {
      UntouchedWriteKeepsTrack(s.charges[op.id], s.clock, op.id in h.tiny, op.id in h.overwritten);
    }
  }

  lemma TimeKeepsTrack(c: Charge, now: int, ms: nat, isTiny: bool, isOverwritten: bool)
    requires TrackedCharge(c, now, isTiny, isOverwritten)
    ensures TrackedCharge(c, now + ms, isTiny, isOverwritten)
  {
  }

  lemma StepKeepsTrack(s: State, op: Op, h: History)
    requires Inv(s) && Enabled(s, op) && Tracked(s, h)
    ensures Tracked(Step(s, op), HistoryAfter(s, op, h))
  {
    match op {
      case CreateFinance(_, residentId, amount, dueDate) =>
        if NewCharge(residentId, amount, dueDate, s.clock).Ok? {
          RoundingIsClose(amount);
          NewChargeIsSound(residentId, amount, dueDate, s.clock);
        }
      case UpdateFinance(_, _, _, _) | RecordPayment(_, _) =>
        if Accepted(s, op) { WritersSettleCharges(s, op); } else { assert Step(s, op) == s; }
      case PostMeter(_, _, amount, _) => RoundingIsClose(amount);
      case PostRecurring(_, _, _) =>
      case OverdueRead(_) | OverdueWrite(_) | OverdueSkip(_) => JobKeepsTrack(s, op, h);
      case Tick(ms) =>
        forall id <- s.charges
          ensures TrackedCharge(s.charges[id], s.clock + ms, id in h.tiny, id in h.overwritten)
        {
          TimeKeepsTrack(s.charges[id], s.clock, ms, id in h.tiny, id in h.overwritten);
        }
    }
  }

  lemma {:induction false} RunKeepsTrack(s: State, ops: seq<Op>, h: History)
    requires Inv(s) && ValidRun(s, ops) && Tracked(s, h)
    ensures Inv(Run(s, ops)) && Tracked(Run(s, ops), HistoryOf(s, ops, h))
    decreases |ops|
  {
    if ops == [] {
    } else {
      StepKeepsInv(s, ops[0]);
      StepKeepsTrack(s, ops[0], h);
      RunKeepsTrack(Step(s, ops[0]), ops[1..], HistoryAfter(s, ops[0], h));
    }
  }

  /** More than the tolerance is left to pay, and the due date has passed. */
  predicate OwesLate(c: Charge, now: int) { Sum(c.payments) < c.amount - TOLERANCE && c.dueDate < now }

  /**
   Stored status against derived status, for every charge of every run, whatever amounts are posted: the
   stored one is right, or lags as POSTED or PARTIALLY_PAID behind OVERDUE, with exactly two exceptions. One
   is a recurring charge posted within the tolerance and neither edited nor paid since. The other is a row
   that was edited or paid while the overdue job was about to write it, unless it is owed and late anyway.
   */
  lemma StoredStatusAgreesIff(clock: int, ops: seq<Op>, id: Id)
    requires ValidRun(Empty(clock), ops)
    requires id in Run(Empty(clock), ops).charges
    ensures var s := Run(Empty(clock), ops);
            var h := HistoryOf(Empty(clock), ops, NOTHING);
            Agrees(s.charges[id], s.clock)
            <==> id !in h.tiny && (id in h.overwritten ==> OwesLate(s.charges[id], s.clock))
  {
    RunKeepsTrack(Empty(clock), ops, NOTHING);
    var s := Run(Empty(clock), ops);
    var h := HistoryOf(Empty(clock), ops, NOTHING);
    var c := s.charges[id];
    assert Bounded(c) && TrackedCharge(c, s.clock, id in h.tiny, id in h.overwritten);
    hide Run;
    hide HistoryOf;
    if c.amount <= TOLERANCE { TinyChargesArePaid(c, s.clock); }
  }

  lemma RunUnfolds(s: State, op: Op, ops: seq<Op>)
    requires Enabled(s, op) && ValidRun(Step(s, op), ops)
    ensures ValidRun(s, [op] + ops) && Run(s, [op] + ops) == Run(Step(s, op), ops)
  {
    assert ([op] + ops)[1..] == ops;
  }

  /** Half a hundredth posted to a resident is stored POSTED, and OVERDUE a week later, while derivation has it PAID. */
  lemma TinyChargeExample() returns (ops: seq<Op>)
    ensures var posted := Step(Empty(0), PostRecurring("c", "r", 0.005));
            posted.charges["c"].status == Posted && DerivedNow(posted.charges["c"], posted.clock) == Paid
            && ValidRun(posted, ops)
    ensures var late := Run(Step(Empty(0), PostRecurring("c", "r", 0.005)), ops);
            "c" in late.charges && late.charges["c"].status == Overdue
            && DerivedNow(late.charges["c"], late.clock) == Paid
  {
    var posted := Step(Empty(0), PostRecurring("c", "r", 0.005));
    var ticked := Step(posted, Tick(7 * DAY + 1));
    var read := Step(ticked, OverdueRead({"c"}));
    var late := Step(read, OverdueWrite("c"));
    assert late.charges["c"].status == Overdue && DerivedNow(late.charges["c"], late.clock) == Paid;
    assert ValidRun(late, []) && Run(late, []) == late;
    RunUnfolds(read, OverdueWrite("c"), []);
    RunUnfolds(ticked, OverdueRead({"c"}), [OverdueWrite("c")] + []);
    RunUnfolds(posted, Tick(7 * DAY + 1), [OverdueRead({"c"})] + ([OverdueWrite("c")] + []));
    ops := [Tick(7 * DAY + 1)] + ([OverdueRead({"c"})] + ([OverdueWrite("c")] + []));
    hide Run;
    hide ValidRun;
  }

  /** Overpayment bound: at most 0.009 above the amount, and nothing above a whole-hundredth amount. */
  lemma NeverOverpaid(clock: int, ops: seq<Op>, id: Id)
    requires ValidRun(Empty(clock), ops)
    requires id in Run(Empty(clock), ops).charges
    ensures var c := Run(Empty(clock), ops).charges[id];
            Sum(c.payments) <= Max(c.amount, 0.0) + 0.009
            && (WholeCents(c.amount) ==> Sum(c.payments) <= Max(c.amount, 0.0))
  {
    RunKeepsInv(Empty(clock), ops);
  }

  /** On a charge in whole hundredths each status says what is left to pay and whether it is late. */
  lemma StatusMeaning(c: Charge, now: int)
    requires Bounded(c) && WholeCents(c.amount) && c.amount > 0.0 && c.status != Void
    ensures var paid := Sum(c.payments);
            match DerivedNow(c, now)
            case Paid => paid == c.amount
            case Overdue => paid < c.amount && c.dueDate < now
            case PartiallyPaid => 0.0 < paid < c.amount && now <= c.dueDate
            case Posted => paid == 0.0 && now <= c.dueDate
            case Void => false
  {
    WholeCentsSum(c.payments);
    if DerivedNow(c, now) == Paid { NoSmallGap(c.amount, Sum(c.payments)); }
  }

  /** A void charge that the overdue job is not about to write stays void and takes no payments. */
  lemma {:induction false} VoidForever(s: State, ops: seq<Op>, id: Id)
    requires ValidRun(s, ops)
    requires id in s.charges && s.charges[id].status == Void && id !in s.reading
    ensures StaysVoid(s, ops, id)
    decreases |ops|
  {
    if ops == [] {
    } else {
      VoidForever(Step(s, ops[0]), ops[1..], id);
    }
  }

  predicate StaysVoid(s: State, ops: seq<Op>, id: Id)
    requires id in s.charges
  {
    ValidRun(s, ops) ==>
      var s' := Run(s, ops);
      id in s'.charges && s'.charges[id].status == Void && s'.charges[id].payments == s.charges[id].payments
  }

  /** VOID is never left, exactly unless the overdue job read the row before it was voided and will write it. */
  lemma VoidForeverIff(s: State, id: Id)
    requires id in s.charges && s.charges[id].status == Void
    ensures (forall ops :: StaysVoid(s, ops, id)) <==> id !in s.reading
  {
    if id in s.reading {
      assert Step(s, OverdueWrite(id)).charges[id].status == Overdue;
      RunUnfolds(s, OverdueWrite(id), []);
      assert !StaysVoid(s, [OverdueWrite(id)] + [], id);
    } else {
      forall ops | ValidRun(s, ops) ensures StaysVoid(s, ops, id) { VoidForever(s, ops, id); }
    }
  }

  // ---- a row changed while the overdue job is about to write it ----

  /** A charge of ten that was due a moment ago, just read by the overdue job. */
  const LATE := Charge(Some("r"), 10.0, 0, Posted, [], false)
  const BEING_READ := State(map["c" := LATE], {"c"}, 1)

  lemma BeingReadIsReached(later: seq<Op>) returns (ops: seq<Op>)
    requires ValidRun(BEING_READ, later)
    ensures ValidRun(Empty(0), ops) && Run(Empty(0), ops) == Run(BEING_READ, later)
  {
    var create := CreateFinance("c", Some("r"), 10.0, At(0));
    var s1, s2 := State(map["c" := LATE], {}, 0), State(map["c" := LATE], {}, 1);
    TenIsWhole();
    assert Step(Empty(0), create) == s1 && Step(s1, Tick(1)) == s2 && Step(s2, OverdueRead({"c"})) == BEING_READ;
    assert Enabled(s2, OverdueRead({"c"}));
    hide Step;
    hide Run;
    hide ValidRun;
    RunUnfolds(s2, OverdueRead({"c"}), later);
    RunUnfolds(s1, Tick(1), [OverdueRead({"c"})] + later);
    RunUnfolds(Empty(0), create, [Tick(1)] + ([OverdueRead({"c"})] + later));
    ops := [create] + ([Tick(1)] + ([OverdueRead({"c"})] + later));
  }

  lemma WriteFollows(op: Op, s: State) returns (ops: seq<Op>)
    requires Enabled(BEING_READ, op) && s == Step(Step(BEING_READ, op), OverdueWrite("c"))
    ensures ValidRun(Empty(0), ops) && Run(Empty(0), ops) == s
  {
    assert ValidRun(s, []) && Run(s, []) == s;
    hide Step;
    hide Run;
    hide ValidRun;
    RunUnfolds(Step(BEING_READ, op), OverdueWrite("c"), []);
    RunUnfolds(BEING_READ, op, [OverdueWrite("c")] + []);
    ops := BeingReadIsReached([op] + ([OverdueWrite("c")] + []));
  }

  /** Voided in between, the charge becomes OVERDUE and takes payments again. */
  lemma VoidIsLostExample() returns (ops: seq<Op>)
    ensures ValidRun(Empty(0), ops)
    ensures var s := Run(Empty(0), ops);
            "c" in s.charges && s.charges["c"].status == Overdue && PaidCharge(s.charges["c"], 10.0, s.clock).Ok?
  {
    TenIsWhole();
    var op := UpdateFinance("c", None, Absent, true);
    assert Step(BEING_READ, op).charges["c"].status == Void;
    var s := Step(Step(BEING_READ, op), OverdueWrite("c"));
    assert "c" in s.charges && s.charges["c"].status == Overdue && PaidCharge(s.charges["c"], 10.0, s.clock).Ok?;
    ops := WriteFollows(op, s);
    hide Run;
  }

  /** Paid in full in between, the charge is stored OVERDUE. */
  lemma PaidIsOverwrittenExample() returns (ops: seq<Op>)
    ensures ValidRun(Empty(0), ops)
    ensures var s := Run(Empty(0), ops);
            "c" in s.charges && s.charges["c"].status == Overdue && DerivedNow(s.charges["c"], s.clock) == Paid
  {
    TenIsWhole();
    var op := RecordPayment("c", 10.0);
    assert LATE.payments + [10.0] == [10.0] && [10.0][..0] == [] && Sum([10.0]) == 10.0;
    assert Step(BEING_READ, op).charges["c"].status == Paid;
    var s := Step(Step(BEING_READ, op), OverdueWrite("c"));
    assert "c" in s.charges && s.charges["c"].status == Overdue && DerivedNow(s.charges["c"], s.clock) == Paid;
    ops := WriteFollows(op, s);
    hide Run;
  }

  lemma TenIsWhole()
    ensures WholeCents(10.0) && Round2(10.0) == 10.0
  {
    assert 10.0 * 100.0 == 1000 as real;
    RoundingIsClose(10.0);
  }

  // ---- what the writers accept, and what they write ----

  /** A charge is created exactly from a valid amount, a resident and a date; it is OVERDUE only if late already. */
  lemma NewChargeIff(residentId: Option<string>, amount: real, dueDate: DateInput, now: int)
    ensures var c := NewCharge(residentId, amount, dueDate, now);
            && (c.Ok? <==> amount >= 0.01 && WholeCents(amount) && residentId.Some? && dueDate.At?)
            && (c.Ok? ==> c.value == Charge(residentId, amount, dueDate.ms,
                                            if dueDate.ms < now then Overdue else Posted, [], false))
  {
    RoundingIsClose(amount);
  }

  /**
   An edit is accepted exactly when the new amount, if given, is valid, the amount does not fall below what is
   paid by more than 0.009, and the date is not malformed. It changes amount and due date as given, and voids
   the charge if asked to; a void charge stays void.
   */
  lemma EditedIff(c: Charge, amount: Option<real>, dueDate: DateInput, makeVoid: bool, now: int)
    ensures var c' := EditedCharge(c, amount, dueDate, makeVoid, now);
            var value := if amount.Some? then amount.value else c.amount;
            && (c'.Ok? <==> && (amount.Some? ==> amount.value >= 0.01 && WholeCents(amount.value))
                            && Sum(c.payments) <= value + 0.009 && !dueDate.Malformed?)
            && (c'.Ok? ==>
                  && c'.value == c.(amount := value, dueDate := if dueDate.At? then dueDate.ms else c.dueDate,
                                    status := c'.value.status)
                  && (c'.value.status == Void <==> makeVoid || c.status == Void)
                  && c'.value.status == DerivedNow(c'.value, now))
  {
    if amount.Some? { RoundingIsClose(amount.value); }
  }

  /** A payment is accepted exactly when it is valid, the charge is not void, and no more than 0.009 too much. */
  lemma PaidIff(c: Charge, amount: real, now: int)
    requires Bounded(c)
    ensures var c' := PaidCharge(c, amount, now);
            && (c'.Ok? <==> && amount >= 0.01 && WholeCents(amount) && c.status != Void
                            && amount <= Max(c.amount - Sum(c.payments), 0.0) + 0.009)
            && (c'.Ok? ==> && c'.value == c.(payments := c.payments + [amount], status := c'.value.status)
                           && c'.value.status == DerivedNow(c'.value, now))
  {
    RoundingIsClose(amount);
    if PaidCharge(c, amount, now).Ok? { assert (c.payments + [amount])[..|c.payments|] == c.payments; }
  }

  /** Posted charges are due a week after the posting, or after the meter reading. */
  lemma PostingsMean(resident: string, residentId: Option<string>, amount: real, now: int)
    ensures RecurringCharge(resident, amount, now)
            == Charge(Some(resident), amount, now + 7 * 86_400_000, Posted, [], false)
    ensures MeterCharge(residentId, amount, now) == Charge(residentId, amount, now + 7 * 86_400_000, Posted, [], false)
  {
  }

  /** The overdue job reads exactly the charges that are owed and late, not void and not reminded of before. */
  lemma LateChargesAreRead(c: Charge, now: int)
    requires Sound(c, now) && c.amount > TOLERANCE
    ensures OverdueCandidate(c, now) <==> OwesLate(c, now) && c.status != Void && !c.reminded
  {
  }

  /** The uninterrupted job makes exactly the notified rows OVERDUE and reminded, and changes nothing else. */
  lemma OverdueJobMeans(charges: map<Id, Charge>, batch: set<Id>, id: Id)
    requires id in charges
    ensures AfterOverdueJob(charges, batch).Keys == charges.Keys
    ensures var c, c' := charges[id], AfterOverdueJob(charges, batch)[id];
            && (id !in batch ==> c' == c)
            && (id in batch ==> c' == Charge(c.residentId, c.amount, c.dueDate, Overdue, c.payments, true))
  {
  }

  /** No charge is reminded of twice: once written by the job, no later query returns it, in any run. */
  lemma {:induction false} RemindedOnce(s: State, ops: seq<Op>, id: Id)
    requires ValidRun(s, ops)
    requires id in s.charges && s.charges[id].reminded
    ensures id in Run(s, ops).charges && !OverdueCandidate(Run(s, ops).charges[id], Run(s, ops).clock)
    ensures Run(s, ops).charges[id].reminded
    decreases |ops|
  {
    if ops == [] {
    } else {
      RemindedOnce(Step(s, ops[0]), ops[1..], id);
    }
  }

  // ---- what a payment does ----

  /** In whole hundredths the tolerance never matters: a payment is refused exactly when it would overpay. */
  lemma RefusedIffOverpaying(c: Charge, amount: real, now: int)
    requires Bounded(c) && WholeCents(c.amount) && c.status != Void && ValidAmount(amount)
    ensures PaidCharge(c, amount, now) == Err(ExceedsOutstanding) <==> Sum(c.payments) + amount > c.amount
    ensures PaidCharge(c, amount, now).Ok? <==> Sum(c.payments) + amount <= c.amount
  {
    RoundingIsClose(amount);
    WholeCentsSum(c.payments);
    WholeCentsAdd(Sum(c.payments), amount);
    if Sum(c.payments) + amount <= c.amount + TOLERANCE { NoSmallGap(Sum(c.payments) + amount, c.amount); }
  }

  /** An accepted payment counts in full, and settles the charge exactly when nothing remains. */
  lemma PaymentCountsInFull(c: Charge, amount: real, now: int)
    requires Bounded(c) && WholeCents(c.amount) && PaidCharge(c, amount, now).Ok?
    ensures var c' := PaidCharge(c, amount, now).value;
            Sum(c'.payments) == Sum(c.payments) + amount
            && (c'.status == Paid <==> Sum(c'.payments) == c.amount)
  {
    var c' := PaidCharge(c, amount, now).value;
    RoundingIsClose(amount);
    assert c'.payments[..|c.payments|] == c.payments;
    WholeCentsSum(c.payments);
    WholeCentsAdd(Sum(c.payments), amount);
    if Sum(c'.payments) >= c.amount - TOLERANCE { NoSmallGap(c.amount, Sum(c'.payments)); }
    NoSmallGap(Sum(c'.payments), c.amount);
  }

  // ---- the writers in place ----

  function Failure(r: Result<Charge, LedgerError>): Option<LedgerError> {
    if r.Err? then Some(r.error) else None
  }

  class Ledger {
    var charges: map<Id, Charge>
    var reading: set<Id>
    var clock: int

    function Contents(): State
      reads this
    {
      State(charges, reading, clock)
    }

    constructor (clock: int)
      ensures Contents() == Empty(clock)
    {
      charges, reading := map[], {};
      this.clock := clock;
    }

    method CreateFinanceCharge(id: Id, residentId: Option<string>, amount: real, dueDate: DateInput)
      returns (error: Option<LedgerError>)
      requires id !in charges
      modifies this`charges
      ensures Contents() == Step(old(Contents()), CreateFinance(id, residentId, amount, dueDate))
      ensures error == Failure(NewCharge(residentId, amount, dueDate, clock))
    {
      if !ValidAmount(amount) { return Some(BadAmount); }
      if residentId.None? { return Some(ResidentNotBillable); }
      if !dueDate.At? { return Some(InvalidDueDate); }
      var normalized := Round2(amount);
      var initialStatus := Derived(normalized, 0.0, dueDate.ms, Posted, clock);
      charges := charges[id := Charge(residentId, normalized, dueDate.ms, initialStatus, [], false)];
      return None;
    }

    method UpdateFinanceCharge(id: Id, amount: Option<real>, dueDate: DateInput, makeVoid: bool)
      returns (error: Option<LedgerError>)
      modifies this`charges
      ensures Contents() == Step(old(Contents()), UpdateFinance(id, amount, dueDate, makeVoid))
      ensures error == if amount.Some? && !ValidAmount(amount.value) then Some(BadAmount)
                       else if id !in old(charges) then Some(ChargeNotFound)
                       else Failure(EditedCharge(old(charges)[id], amount, dueDate, makeVoid, clock))
    {
      if amount.Some? && !ValidAmount(amount.value) { return Some(BadAmount); }
      if id !in charges { return Some(ChargeNotFound); }
      var charge := charges[id];
      var paidAmount := Sum(charge.payments);
      var nextAmount := charge.amount;
      if amount.Some? {
        nextAmount := Round2(amount.value);
      }
      if nextAmount + TOLERANCE < paidAmount { return Some(BelowPaidAmount); }
      if dueDate.Malformed? { return Some(InvalidDueDate); }
      var nextDueDate := if dueDate.At? then dueDate.ms else charge.dueDate;
      var nextStatus := Derived(nextAmount, paidAmount, nextDueDate, if makeVoid then Void else charge.status, clock);
      charges := charges[id := charge.(amount := nextAmount, dueDate := nextDueDate, status := nextStatus)];
      return None;
    }

    method RecordFinancePayment(id: Id, amount: real) returns (error: Option<LedgerError>)
      modifies this`charges
      ensures Contents() == Step(old(Contents()), RecordPayment(id, amount))
      ensures error == if !ValidAmount(amount) then Some(BadAmount)
                       else if id !in old(charges) then Some(ChargeNotFound)
                       else Failure(PaidCharge(old(charges)[id], amount, clock))
    {
      if !ValidAmount(amount) { return Some(BadAmount); }
      if id !in charges { return Some(ChargeNotFound); }
      var charge := charges[id];
      if charge.status == Void { return Some(ChargeIsVoid); }
      var normalized := Round2(amount);
      var paidSoFar := Sum(charge.payments);
      var outstanding := Max(charge.amount - paidSoFar, 0.0);
      if normalized > outstanding + TOLERANCE { return Some(ExceedsOutstanding); }
      var nextStatus := Derived(charge.amount, paidSoFar + normalized, charge.dueDate, charge.status, clock);
      charges := charges[id := charge.(payments := charge.payments + [normalized], status := nextStatus)];
      return None;
    }

    /** The job's query. */
    method ReadOverdueCharges(batch: set<Id>)
      requires Enabled(Contents(), OverdueRead(batch))
      modifies this`reading
      ensures Contents() == Step(old(Contents()), OverdueRead(batch))
    {
      reading := batch;
    }

    /** The write that follows a reminder. It goes by the row's id, whatever has become of the row. */
    method MarkOverdue(id: Id)
      requires id in reading && id in charges
      modifies this`charges, this`reading
      ensures Contents() == Step(old(Contents()), OverdueWrite(id))
    {
      charges := charges[id := charges[id].(status := Overdue, reminded := true)];
      reading := reading - {id};
    }

    /** The whole job when nothing comes in between; only the rows in `notified` have a contact and get their mail. */
    method SendOverdueReminders(batch: seq<Id>, notified: set<Id>)
      requires Distinct(batch) && Enabled(Contents(), OverdueRead(set id | id in batch))
      modifies this`charges, this`reading
      ensures charges == AfterOverdueJob(old(charges), (set id | id in batch) * notified) && reading == {}
    {
      ghost var before := charges;
      ReadOverdueCharges(set id | id in batch);
      for i := 0 to |batch|
        invariant charges == AfterOverdueJob(before, (set id | id in batch[..i]) * notified)
        invariant reading == set id | id in batch[i..]
      {
        var id := batch[i];
        assert id in batch && batch[..i + 1] == batch[..i] + [id] && batch[i..] == [id] + batch[i + 1..];
        assert id !in batch[i + 1..];
        if id in notified {
          MarkOverdue(id);
        } else {
          reading := reading - {id};
        }
      }
      assert batch[..|batch|] == batch;
    }
  }
}
