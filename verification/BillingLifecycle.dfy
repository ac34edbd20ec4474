/**
 The billing state of one workspace and everything that writes it: onboarding, payment
 finalisation, retry, dunning, status changes, reconciliation, the access guard and the admin
 overrides. Finalisation is split into its check and its transaction, and retry into its reads and its
 writes, so these interleave with each other and with everything else.
 */
module BillingLifecycle {
  import opened Wrappers
  import opened BillingRules
  import DunningSweep

  type Ref = string

  datatype PaymentStatus = Pending | Paid | Failed | Refunded
  datatype Payment = Payment(status: PaymentStatus, createdAt: int, yearly: bool)
  datatype SubscriptionStatus = Trial | Current | Lapsed | Canceled
  datatype Subscription = Subscription(status: SubscriptionStatus, periodEnd: Option<int>, yearly: bool)
  datatype Workspace = Workspace(status: WorkspaceStatus, billing: BillingStatus, nextRenewal: Option<int>)

  /** A retry that passed its check: the payment it will write, and the billing status it read. */
  datatype Retry = Retry(ref: Ref, seen: BillingStatus)

  /**
   `inFlight` counts the deliveries of a reference that passed the check and did not commit yet, `retries`
   the retries that did not write yet.
   */
  datatype State = State(ws: Workspace, payments: map<Ref, Payment>, subs: seq<Subscription>,
                         inFlight: multiset<Ref>, retries: multiset<Retry>, clock: int)

  const GRACE := 5 * DAY

  function Period(yearly: bool): int { if yearly then 365 * DAY else 30 * DAY }

  /** The subscription row that `findFirst` returns. */
  function LatestSub(subs: seq<Subscription>): Option<Subscription> {
    if subs == [] then None else Some(subs[|subs| - 1])
  }

  function WithLatestSub(subs: seq<Subscription>, sub: Subscription): seq<Subscription>
    requires subs != []
  {
    subs[|subs| - 1 := sub]
  }

  function Standing(ws: Workspace, to: BillingStatus): Workspace {
    ws.(status := WorkspaceStatusFor(to), billing := to)
  }

  // ---- the handlers as functions of the state ----

  datatype Plan = Plan(isActive: bool, template: string, yearly: bool)

  datatype CheckoutError =
    | OwnerEmailMissing | CheckoutNotAllowed | PlanUnavailable | PlanOfOtherTemplate | ReferenceTaken | ProviderFailed

  /** The first check of initPaystackPayment that fails before the payment row is inserted, if any. */
  function CheckoutBlocker(s: State, ref: Ref, ownerHasEmail: bool, template: string, plan: Option<Plan>)
    : Option<CheckoutError>
  {
    if !ownerHasEmail then Some(OwnerEmailMissing)
    else if s.ws.status !in {WorkspaceStatus.PendingPayment, WorkspaceStatus.Active} then Some(CheckoutNotAllowed)
    else if plan.None? || !plan.value.isActive then Some(PlanUnavailable)
    else if plan.value.template != template then Some(PlanOfOtherTemplate)
    else if ref in s.payments then Some(ReferenceTaken)
    else None
  }

  /** The transaction of finalizeSuccessfulPayment. */
  function Committed(s: State, ref: Ref): State {
    if ref !in s.payments
       || (s.ws.billing != BillingStatus.Active && !MayMove(s.ws.billing, BillingStatus.Active)) then s
    else
      var yearly := s.payments[ref].yearly;
      var end := Some(s.clock + Period(yearly));
      var sub := Subscription(Current, end, yearly);
      s.(payments := s.payments[ref := s.payments[ref].(status := Paid)],
         ws := Workspace(WorkspaceStatus.Active, BillingStatus.Active, end),
         subs := if s.subs == [] then [sub] else WithLatestSub(s.subs, sub))
  }

  /** The writes of retryLatestPayment: the payment by its id, then the transition from the status read before. */
  function RetryWritten(s: State, r: Retry): State {
    if r.ref !in s.payments then s
    else
      var s1 := s.(payments := s.payments[r.ref := s.payments[r.ref].(status := Pending)]);
      if MayMove(r.seen, BillingStatus.PastDue) then s1.(ws := Standing(s.ws, BillingStatus.PastDue)) else s1
  }

  predicate RetryPasses(s: State, latest: Ref) { latest in s.payments && s.payments[latest].status != Paid }

  /** retryLatestPayment when nothing comes between its reads and its writes. */
  function Retried(s: State, latest: Ref): State {
    if RetryPasses(s, latest) then RetryWritten(s, Retry(latest, s.ws.billing)) else s
  }

  /** The renewal date that reconcile works with. */
  function RenewalSeen(s: State, latest: Option<Ref>): Option<int> {
    var sub := LatestSub(s.subs);
    var renewal := if sub.Some? && sub.value.periodEnd.Some? then sub.value.periodEnd else s.ws.nextRenewal;
    if renewal.None? && LatestIs(s, latest, Paid)
    then Some(s.clock + Period(sub.Some? && sub.value.yearly)) else renewal
  }

  predicate LatestIs(s: State, latest: Option<Ref>, status: PaymentStatus) {
    latest.Some? && latest.value in s.payments && s.payments[latest.value].status == status
  }

  predicate Expired(renewal: Option<int>, clock: int) { renewal.Some? && renewal.value <= clock }

  function Reconciled(s: State, latest: Option<Ref>): State {
    var renewal := RenewalSeen(s, latest);
    var judged :=
      if LatestIs(s, latest, Paid) then Workspace(WorkspaceStatus.Active, BillingStatus.Active, renewal)
      else if LatestIs(s, latest, Pending) then
        Workspace(if s.ws.status == WorkspaceStatus.Active then WorkspaceStatus.PendingPayment else s.ws.status,
                  if s.ws.billing == BillingStatus.Active then BillingStatus.PastDue else s.ws.billing,
                  renewal)
      else s.ws.(nextRenewal := renewal);
    s.(ws := if Expired(renewal, s.clock)
             then Workspace(WorkspaceStatus.PendingPayment,
                            if judged.billing == BillingStatus.Cancelled then BillingStatus.Cancelled
                            else BillingStatus.PastDue,
                            renewal)
             else judged)
  }

  /** The expiry step of the access guard: an ACTIVE workspace past its grace period is locked. */
  function Guarded(s: State): State {
    if s.ws.status == WorkspaceStatus.Active && s.ws.nextRenewal.Some? && s.clock - s.ws.nextRenewal.value > GRACE
    then s.(ws := s.ws.(status := WorkspaceStatus.PendingPayment,
                        billing := if s.ws.billing == BillingStatus.Cancelled then BillingStatus.Cancelled
                                   else BillingStatus.PastDue))
    else s
  }

  function Activated(s: State): State {
    var sub := LatestSub(s.subs);
    var renewal :=
      if sub.Some? && (sub.value.status == Current || sub.value.status == Trial)
         && sub.value.periodEnd.Some? && sub.value.periodEnd.value > s.clock
      then sub.value.periodEnd else None;
    s.(ws := Workspace(WorkspaceStatus.Active, BillingStatus.Active, renewal))
  }

  function Forgiven(p: Payment): Payment {
    if p.status == Pending || p.status == Failed then p.(status := Paid) else p
  }

  function Fixed(s: State): State {
    var sub := LatestSub(s.subs);
    var renewal :=
      if sub.Some? && sub.value.periodEnd.Some? && sub.value.periodEnd.value > s.clock
      then sub.value.periodEnd else Some(s.clock + 30 * DAY);
    s.(payments := map r | r in s.payments :: Forgiven(s.payments[r]),
       ws := Workspace(WorkspaceStatus.Active, BillingStatus.Active, renewal),
       subs := if sub.Some? && sub.value.status != Current && sub.value.status != Trial
               then WithLatestSub(s.subs, sub.value.(status := Current, periodEnd := renewal)) else s.subs)
  }

  /** What a dunning sweep does to this workspace when `batch` are its payments in the sweep. */
  function Dunned(s: State, batch: set<Ref>): State
    requires batch <= s.payments.Keys
  {
    var hasOld := exists r <- batch :: DunningSweep.IsOld(s.payments[r].createdAt, s.clock);
    var hasLate := exists r <- batch :: DunningSweep.IsLate(s.payments[r].createdAt, s.clock);
    var st := DunningSweep.Judged(DunningSweep.Standing(s.ws.status, s.ws.billing), hasOld, hasLate);
    s.(ws := s.ws.(status := st.status, billing := st.billing))
  }

  /** The sweep over all workspaces treats this one like that. */
  lemma SweepTreatsWorkspaceAlike(s: State, batch: set<Ref>, m: DunningSweep.Standings,
                                  rows: seq<DunningSweep.PendingRow>, w: string)
    requires batch <= s.payments.Keys
    requires w in m && m[w] == DunningSweep.Standing(s.ws.status, s.ws.billing)
    requires forall p <- rows :: p.workspaceId == w ==> exists r <- batch :: s.payments[r].createdAt == p.createdAt
    requires forall r <- batch :: DunningSweep.PendingRow(w, s.payments[r].createdAt) in rows
    ensures DunningSweep.SweptAll(m, rows, s.clock)[w]
            == DunningSweep.Standing(Dunned(s, batch).ws.status, Dunned(s, batch).ws.billing)
  {
  }

  datatype Op =
    | VerifyOwnerOtp(bypassPayment: bool)
    | StartCheckout(ref: Ref, yearly: bool)
    | Check(ref: Ref)
    | Commit(ref: Ref)
    | RetryCheck(latest: Ref)
    | RetryWrite(retry: Retry)
    | SetBilling(to: BillingStatus)
    | Dunning(batch: set<Ref>)
    | Reconcile(selected: Option<Ref>)
    | Guard
    | AdminActivate
    | AdminSuspend
    | AdminFix
    | CancelSubscription
    | LapseSubscription(ownerHasEmail: bool)
    | Tick(ms: nat)

  /** The selectors of an operation name rows that exist. */
  predicate Applicable(s: State, op: Op) {
    match op
    case Dunning(batch) => batch <= s.payments.Keys && forall r <- batch :: s.payments[r].status == Pending
    case Reconcile(latest) => if latest.None? then s.payments == map[] else latest.value in s.payments
    case _ => true
  }

  function Step(s: State, op: Op): State
    requires Applicable(s, op)
  {
    match op
    case VerifyOwnerOtp(bypass) =>
      if s.ws.status != WorkspaceStatus.PendingOtp then s
      else s.(ws := Standing(s.ws, if bypass then BillingStatus.Active else BillingStatus.PendingPayment))
    case StartCheckout(ref, yearly) =>
      if s.ws.status in {WorkspaceStatus.PendingPayment, WorkspaceStatus.Active} && ref !in s.payments
      then s.(payments := s.payments[ref := Payment(Pending, s.clock, yearly)]) else s
    case Check(ref) =>
      if ref in s.payments && s.payments[ref].status != Paid then s.(inFlight := s.inFlight + multiset{ref}) else s
    case Commit(ref) =>
      if ref in s.inFlight then Committed(s.(inFlight := s.inFlight - multiset{ref}), ref) else s
    case RetryCheck(latest) =>
      if RetryPasses(s, latest) then s.(retries := s.retries + multiset{Retry(latest, s.ws.billing)}) else s
    case RetryWrite(r) =>
      if r in s.retries then RetryWritten(s.(retries := s.retries - multiset{r}), r) else s
    case SetBilling(to) => if MayMove(s.ws.billing, to) then s.(ws := Standing(s.ws, to)) else s
    case Dunning(batch) => Dunned(s, batch)
    case Reconcile(latest) => Reconciled(s, latest)
    case Guard => Guarded(s)
    case AdminActivate => Activated(s)
    case AdminSuspend => s.(ws := s.ws.(status := WorkspaceStatus.Suspended, billing := BillingStatus.Suspended))
    case AdminFix => Fixed(s)
    case CancelSubscription =>
      if s.subs == [] then s else s.(subs := WithLatestSub(s.subs, s.subs[|s.subs| - 1].(status := Canceled)))
    case LapseSubscription(ownerHasEmail) =>
      var sub := LatestSub(s.subs);
      if ownerHasEmail && sub.Some? && sub.value.status == Current && sub.value.periodEnd.Some?
         && s.clock - DAY <= sub.value.periodEnd.value <= s.clock
      then s.(subs := WithLatestSub(s.subs, sub.value.(status := Lapsed))) else s
    case Tick(ms) => s.(clock := s.clock + ms)
  }

  predicate ValidRun(s: State, ops: seq<Op>)
    decreases |ops|
  {
    ops == [] || (Applicable(s, ops[0]) && ValidRun(Step(s, ops[0]), ops[1..]))
  }

  function Run(s: State, ops: seq<Op>): State
    requires ValidRun(s, ops)
    decreases |ops|
  {
    if ops == [] then s else Run(Step(s, ops[0]), ops[1..])
  }

  // ---- what every step keeps ----

  /** A workspace as createWorkspace leaves it; `billing` is the column's default. */
  function Fresh(billing: BillingStatus, clock: int): State {
    State(Workspace(WorkspaceStatus.PendingOtp, billing, None), map[], [], multiset{}, multiset{}, clock)
  }

  predicate Within(t: Option<int>, clock: int) { t.Some? ==> t.value <= clock + 365 * DAY }

  ghost predicate Inv(s: State, initial: BillingStatus) {
    StatusesAgree(s, initial) && OneSubscription(s) && RenewalsBounded(s)
  }

  predicate StatusesAgree(s: State, initial: BillingStatus) {
    if s.ws.status == WorkspaceStatus.PendingOtp then
      && s.ws.billing == initial && s.ws.nextRenewal.None?
      && s.payments == map[] && s.subs == []
    else
      Mapped(s.ws) || (s.ws.billing == BillingStatus.Cancelled && s.ws.status == WorkspaceStatus.PendingPayment)
  }

  predicate Mapped(ws: Workspace) { ws.status == WorkspaceStatusFor(ws.billing) }

  predicate OneSubscription(s: State) { |s.subs| <= 1 }

  predicate RenewalsBounded(s: State) {
    && Within(s.ws.nextRenewal, s.clock)
    && forall i :: 0 <= i < |s.subs| ==> Within(s.subs[i].periodEnd, s.clock)
  }

  lemma StatusesKept(s: State, op: Op, initial: BillingStatus)
    requires StatusesAgree(s, initial) && Applicable(s, op)
    ensures StatusesAgree(Step(s, op), initial)
  {
    match op {
      case Commit(_) | RetryWrite(_) => PaymentWritersKeepStatuses(s, op, initial);
      case AdminActivate | AdminSuspend | AdminFix | Reconcile(_) => OverridesKeepStatuses(s, op, initial);
      case _ =>
    }
    hide RetryWritten;
    hide Committed;
    hide Activated;
    hide Fixed;
    hide Reconciled;
  }

  lemma OverridesKeepStatuses(s: State, op: Op, initial: BillingStatus)
    requires StatusesAgree(s, initial) && Applicable(s, op)
    requires op.AdminActivate? || op.AdminSuspend? || op.AdminFix? || op.Reconcile?
    ensures StatusesAgree(Step(s, op), initial)
  {
  }

  lemma PaymentWritersKeepStatuses(s: State, op: Op, initial: BillingStatus)
    requires StatusesAgree(s, initial) && (op.Commit? || op.RetryWrite?)
    ensures StatusesAgree(Step(s, op), initial)
  {
  }

  /** From every billing status a payment may activate the workspace, so the transaction never throws. */
  lemma CommitActivates(s: State, ref: Ref)
    ensures ref !in s.payments ==> Committed(s, ref) == s
    ensures ref in s.payments ==>
              var end := Some(s.clock + Period(s.payments[ref].yearly));
              && Committed(s, ref).ws == Workspace(WorkspaceStatus.Active, BillingStatus.Active, end)
              && Committed(s, ref).payments == s.payments[ref := s.payments[ref].(status := Paid)]
              && Committed(s, ref).inFlight == s.inFlight && Committed(s, ref).retries == s.retries
              && Committed(s, ref).clock == s.clock
              && |Committed(s, ref).subs| == (if s.subs == [] then 1 else |s.subs|)
              && LatestSub(Committed(s, ref).subs) == Some(Subscription(Current, end, s.payments[ref].yearly))
  {
  }

  /** What a delivery buys: from the moment of its transaction, a year or thirty days, on workspace and subscription. */
  lemma CommitBuys(s: State, ref: Ref)
    requires ref in s.inFlight && ref in s.payments
    ensures var s' := Step(s, Commit(ref));
            var end := s.clock + (if s.payments[ref].yearly then 365 else 30) * 86_400_000;
            && s'.ws.nextRenewal == Some(end) && s'.ws.status == WorkspaceStatus.Active
            && s'.ws.billing == BillingStatus.Active
            && |s'.subs| >= 1 && s'.subs[|s'.subs| - 1] == Subscription(Current, Some(end), s.payments[ref].yearly)
            && s'.payments[ref].status == Paid && s'.inFlight[ref] == s.inFlight[ref] - 1
            && forall other <- s.payments :: other != ref ==>
                 other in s'.payments && s'.payments[other] == s.payments[other]
  {
    CommitActivates(s.(inFlight := s.inFlight - multiset{ref}), ref);
  }

  // ---- what reconciling, the guard and the admin overrides mean ----

  /** The date that a reconcile goes by: the subscription's, else the stored one, else, when paid, one it invents. */
  lemma ReconcileDate(s: State, latest: Option<Ref>)
    ensures var date := Reconciled(s, latest).ws.nextRenewal;
            var sub := LatestSub(s.subs);
            && (sub.Some? && sub.value.periodEnd.Some? ==> date == sub.value.periodEnd)
            && (sub.None? || sub.value.periodEnd.None? ==>
                  && (s.ws.nextRenewal.Some? ==> date == s.ws.nextRenewal)
                  && (s.ws.nextRenewal.None? && !LatestIs(s, latest, Paid) ==> date.None?)
                  && (s.ws.nextRenewal.None? && LatestIs(s, latest, Paid) ==>
                        date == Some(s.clock + (if sub.Some? && sub.value.yearly then 365 else 30) * 86_400_000)))
  {
  }

  /**
   What a reconcile decides: it leaves access exactly when the date has not passed and the latest payment is
   PAID, or is not PENDING and there was access before; a PAID one within its date is ACTIVE again; without
   access a PENDING payment or a passed date makes the billing PAST_DUE, unless it was CANCELLED.
   */
  lemma ReconcileMeans(s: State, latest: Option<Ref>)
    ensures var ws, ws' := s.ws, Reconciled(s, latest).ws;
            var passed := ws'.nextRenewal.Some? && ws'.nextRenewal.value <= s.clock;
            var (paid, pending) := (LatestIs(s, latest, Paid), LatestIs(s, latest, Pending));
            && (ws'.status == WorkspaceStatus.Active
                <==> !passed && (paid || (!pending && ws.status == WorkspaceStatus.Active)))
            && (ws'.billing == BillingStatus.Active
                <==> !passed && (paid || (!pending && ws.billing == BillingStatus.Active)))
            && (ws'.billing == BillingStatus.Cancelled <==> !paid && ws.billing == BillingStatus.Cancelled)
            && (passed ==> ws'.status == WorkspaceStatus.PendingPayment)
            && (passed && ws'.billing != BillingStatus.Cancelled ==> ws'.billing == BillingStatus.PastDue)
            && (!passed && pending && ws.billing == BillingStatus.Active ==> ws'.billing == BillingStatus.PastDue)
            && (!passed && pending && ws.status == WorkspaceStatus.Active ==>
                  ws'.status == WorkspaceStatus.PendingPayment)
            && (!passed && !paid && ws.billing != BillingStatus.Active ==> ws'.billing == ws.billing)
            && (!passed && !paid && ws.status != WorkspaceStatus.Active ==> ws'.status == ws.status)
            && Reconciled(s, latest) == s.(ws := ws')
  {
  }

  /** The guard locks exactly an ACTIVE workspace more than five days past its renewal date, and does no more. */
  lemma GuardLocksIff(s: State)
    ensures var s' := Guarded(s);
            && (s' != s <==> s.ws.status == WorkspaceStatus.Active && s.ws.nextRenewal.Some?
                             && s.clock > s.ws.nextRenewal.value + 5 * 86_400_000)
            && (s' != s ==>
                  && s'.ws.status == WorkspaceStatus.PendingPayment && s' == s.(ws := s'.ws)
                  && s'.ws.nextRenewal == s.ws.nextRenewal
                  && s'.ws.billing in {BillingStatus.PastDue, BillingStatus.Cancelled}
                  && (s'.ws.billing == BillingStatus.Cancelled <==> s.ws.billing == BillingStatus.Cancelled))
  {
  }

  /** An admin activation keeps a date exactly when a live subscription still runs, and sets none otherwise. */
  lemma ActivationKeepsPaidTime(s: State, end: int)
    ensures var s' := Activated(s);
            && s' == s.(ws := s'.ws) && s'.ws.status == WorkspaceStatus.Active && s'.ws.billing == BillingStatus.Active
            && (s'.ws.nextRenewal == Some(end)
                <==> s.subs != [] && s.subs[|s.subs| - 1].status in {Current, Trial}
                     && s.subs[|s.subs| - 1].periodEnd == Some(end) && end > s.clock)
  {
  }

  /**
   An admin fix forgives every open payment and touches no other, activates the workspace until the running
   period ends, or for thirty days, and revives a subscription that is neither current nor on trial.
   */
  lemma FixMeans(s: State)
    ensures var s' := Fixed(s);
            && s'.payments.Keys == s.payments.Keys
            && (forall ref <- s.payments ::
                  s'.payments[ref] == s.payments[ref].(status := s'.payments[ref].status)
                  && s'.payments[ref].status == if s.payments[ref].status == Refunded then Refunded else Paid)
            && s'.ws.status == WorkspaceStatus.Active && s'.ws.billing == BillingStatus.Active
            && (s.subs == []
                || (s.subs[|s.subs| - 1].periodEnd.Some? ==> s.subs[|s.subs| - 1].periodEnd.value <= s.clock)
                ==> s'.ws.nextRenewal == Some(s.clock + 30 * 86_400_000))
            && (s.subs != [] && s.subs[|s.subs| - 1].periodEnd.Some? && s.subs[|s.subs| - 1].periodEnd.value > s.clock
                ==> s'.ws.nextRenewal == s.subs[|s.subs| - 1].periodEnd)
            && |s'.subs| == |s.subs|
            && (s.subs != [] ==>
                  var sub, sub' := s.subs[|s.subs| - 1], s'.subs[|s.subs| - 1];
                  && sub'.status in {Current, Trial} && s'.subs[..|s.subs| - 1] == s.subs[..|s.subs| - 1]
                  && (sub.status in {Current, Trial} ==> sub' == sub)
                  && (sub.status !in {Current, Trial} ==> sub' == Subscription(Current, s'.ws.nextRenewal, sub.yearly)))
            && s'.inFlight == s.inFlight && s'.retries == s.retries && s'.clock == s.clock
  {
  }

  /** A subscription lapses exactly when it is current, ended within the last day, and its owner can be mailed. */
  lemma LapsesIff(s: State, ownerHasEmail: bool)
    requires s.subs != []
    ensures var s' := Step(s, LapseSubscription(ownerHasEmail));
            var sub := s.subs[|s.subs| - 1];
            && |s'.subs| == |s.subs| && s' == s.(subs := s'.subs)
            && (s' != s <==> ownerHasEmail && sub.status == Current && sub.periodEnd.Some?
                             && 0 <= s.clock - sub.periodEnd.value <= 86_400_000)
            && (s' != s ==> s'.subs[|s.subs| - 1] == sub.(status := Lapsed))
  {
  }

  /** Verification ends PENDING_OTP, with access exactly under the local payment bypass; once over, it does nothing. */
  lemma VerificationMeans(s: State, bypass: bool)
    ensures var s' := Step(s, VerifyOwnerOtp(bypass));
            && s' == s.(ws := s'.ws) && s'.ws.nextRenewal == s.ws.nextRenewal
            && (s.ws.status != WorkspaceStatus.PendingOtp ==> s' == s)
            && (s.ws.status == WorkspaceStatus.PendingOtp && bypass ==>
                  s'.ws.status == WorkspaceStatus.Active && s'.ws.billing == BillingStatus.Active)
            && (s.ws.status == WorkspaceStatus.PendingOtp && !bypass ==>
                  s'.ws.status == WorkspaceStatus.PendingPayment && s'.ws.billing == BillingStatus.PendingPayment)
  {
  }

  /**
   The writes of a retry go by what it read: the payment is PENDING, whatever it has become, and the workspace
   PAST_DUE exactly if it was ACTIVE when read, whatever it is now.
   */
  lemma RetryWriteMeans(s: State, r: Retry)
    requires r in s.retries && r.ref in s.payments
    ensures var s' := Step(s, RetryWrite(r));
            && s'.payments == s.payments[r.ref := s.payments[r.ref].(status := Pending)]
            && s'.ws == (if r.seen == BillingStatus.Active
                         then s.ws.(status := WorkspaceStatus.PendingPayment, billing := BillingStatus.PastDue)
                         else s.ws)
            && s'.subs == s.subs && s'.inFlight == s.inFlight && s'.clock == s.clock
            && s'.retries == s.retries - multiset{r}
  {
  }

  /** Cancelling touches the subscription's status and not the access: that ends with the renewal date. */
  lemma CancelMeans(s: State)
    ensures var s' := Step(s, CancelSubscription);
            && s' == s.(subs := s'.subs) && |s'.subs| == |s.subs|
            && forall i :: 0 <= i < |s.subs| ==>
                 s'.subs[i] == if i == |s.subs| - 1 then s.subs[i].(status := Canceled) else s.subs[i]
  {
  }

  /** A checkout opens a payment exactly when owner, workspace, plan and reference allow it. */
  lemma CheckoutAllowedIff(s: State, ref: Ref, ownerHasEmail: bool, template: string, plan: Option<Plan>)
    ensures CheckoutBlocker(s, ref, ownerHasEmail, template, plan).None?
            <==> ownerHasEmail && ref !in s.payments
                 && plan.Some? && plan.value.isActive && plan.value.template == template
                 && (s.ws.status == WorkspaceStatus.Active || s.ws.status == WorkspaceStatus.PendingPayment)
    ensures plan.Some? && CheckoutBlocker(s, ref, ownerHasEmail, template, plan).None? ==>
              Step(s, StartCheckout(ref, plan.value.yearly)).payments
              == s.payments[ref := Payment(Pending, s.clock, plan.value.yearly)]
  {
  }

  lemma SubscriptionsKept(s: State, op: Op)
    requires OneSubscription(s) && RenewalsBounded(s) && Applicable(s, op)
    ensures OneSubscription(Step(s, op)) && RenewalsBounded(Step(s, op))
  {
    if op.Commit? {
      if op.ref in s.inFlight { CommitActivates(s.(inFlight := s.inFlight - multiset{op.ref}), op.ref); }
    }
  }

  lemma {:induction false} RunKeepsInv(s: State, ops: seq<Op>, initial: BillingStatus)
    requires Inv(s, initial) && ValidRun(s, ops)
    ensures Inv(Run(s, ops), initial)
    decreases |ops|
  {
    if ops == [] {
    } else {
      StatusesKept(s, ops[0], initial);
      SubscriptionsKept(s, ops[0]);
      RunKeepsInv(Step(s, ops[0]), ops[1..], initial);
    }
  }

  /**
   In every run from onboarding on, status ACTIVE and billing ACTIVE coincide, except in the window
   before the owner's code is verified: there they differ exactly when the column default is ACTIVE.
   */
  lemma ActiveIffActive(initial: BillingStatus, clock: int, ops: seq<Op>)
    requires ValidRun(Fresh(initial, clock), ops)
    ensures var ws := Run(Fresh(initial, clock), ops).ws;
            (ws.status == WorkspaceStatus.Active <==> ws.billing == BillingStatus.Active)
            <==> !(ws.status == WorkspaceStatus.PendingOtp && initial == BillingStatus.Active)
  {
    RunKeepsInv(Fresh(initial, clock), ops, initial);
  }

  /** With the schema's default a workspace starts billing ACTIVE while its status is PENDING_OTP. */
  lemma FreshDisagrees(clock: int)
    ensures var ws := Run(Fresh(BillingStatus.Active, clock), []).ws;
            ws.billing == BillingStatus.Active && ws.status != WorkspaceStatus.Active
  {
  }

  /** Once the code is verified, every step but reconcile keeps status = workspaceStatusFor(billingStatus). */
  lemma MappingKept(s: State, op: Op, initial: BillingStatus)
    requires Inv(s, initial) && Applicable(s, op) && !op.Reconcile?
    requires Mapped(s.ws) && s.ws.status != WorkspaceStatus.PendingOtp
    ensures Mapped(Step(s, op).ws) && Step(s, op).ws.status != WorkspaceStatus.PendingOtp
  {
    StepTracksMapping(s, op, initial, false);
    StaysVerified(s, op);
    hide Step;
  }

  lemma StaysVerified(s: State, op: Op)
    requires Applicable(s, op) && s.ws.status != WorkspaceStatus.PendingOtp
    ensures Step(s, op).ws.status != WorkspaceStatus.PendingOtp
  {
  }

  /** Reconcile breaks the mapping exactly when it expires a CANCELLED workspace whose latest payment is not paid. */
  lemma ReconcileKeepsMappingIff(s: State, latest: Option<Ref>, initial: BillingStatus)
    requires Inv(s, initial) && Applicable(s, Reconcile(latest))
    requires Mapped(s.ws) && s.ws.status != WorkspaceStatus.PendingOtp
    ensures Mapped(Reconciled(s, latest).ws)
            <==> !BreaksMapping(s, latest)
  {
  }

  /** The branch in which reconcile leaves the mapping: a CANCELLED workspace expires, its latest payment unpaid. */
  predicate BreaksMapping(s: State, latest: Option<Ref>) {
    s.ws.billing == BillingStatus.Cancelled && !LatestIs(s, latest, Paid) && Expired(RenewalSeen(s, latest), s.clock)
  }

  /** The operation goes through and writes both statuses, or reconciles with a paid payment. */
  predicate SettlesStatuses(s: State, op: Op) {
    match op
    case Commit(ref) => ref in s.inFlight && ref in s.payments
    case RetryWrite(r) => r in s.retries && r.ref in s.payments && MayMove(r.seen, BillingStatus.PastDue)
    case SetBilling(to) => MayMove(s.ws.billing, to)
    case Reconcile(latest) => LatestIs(s, latest, Paid)
    case AdminActivate | AdminSuspend | AdminFix => true
    case _ => false
  }

  function BrokenAfter(s: State, op: Op, broken: bool): bool {
    (op.Reconcile? && BreaksMapping(s, op.selected)) || (broken && !SettlesStatuses(s, op))
  }

  /** A reconcile of the run broke the mapping, and no operation settled the statuses since. */
  function Broken(s: State, ops: seq<Op>, broken: bool): bool
    requires ValidRun(s, ops)
    decreases |ops|
  {
    if ops == [] then broken else Broken(Step(s, ops[0]), ops[1..], BrokenAfter(s, ops[0], broken))
  }

  predicate MappingTracked(s: State, broken: bool) {
    if s.ws.status == WorkspaceStatus.PendingOtp then !broken else Mapped(s.ws) <==> !broken
  }

  lemma StepTracksMapping(s: State, op: Op, initial: BillingStatus, broken: bool)
    requires Inv(s, initial) && Applicable(s, op) && MappingTracked(s, broken)
    ensures MappingTracked(Step(s, op), BrokenAfter(s, op, broken))
  {
    if op.RetryWrite? {
      RetryTracksMapping(s, op.retry, initial, broken);
    } else if op.Commit? {
      CommitTracksMapping(s, op.ref, initial, broken);
    }
    hide RetryWritten;
    hide Committed;
  }

  lemma RetryTracksMapping(s: State, r: Retry, initial: BillingStatus, broken: bool)
    requires Inv(s, initial) && MappingTracked(s, broken)
    ensures MappingTracked(Step(s, RetryWrite(r)), BrokenAfter(s, RetryWrite(r), broken))
  {
  }

  lemma CommitTracksMapping(s: State, ref: Ref, initial: BillingStatus, broken: bool)
    requires Inv(s, initial) && MappingTracked(s, broken)
    ensures MappingTracked(Step(s, Commit(ref)), BrokenAfter(s, Commit(ref), broken))
  {
  }

  lemma {:induction false} RunTracksMapping(s: State, ops: seq<Op>, initial: BillingStatus, broken: bool)
    requires Inv(s, initial) && ValidRun(s, ops) && MappingTracked(s, broken)
    ensures MappingTracked(Run(s, ops), Broken(s, ops, broken))
    decreases |ops|
  {
    if ops == [] {
    } else {
      StepTracksMapping(s, ops[0], initial, broken);
      StatusesKept(s, ops[0], initial);
      SubscriptionsKept(s, ops[0]);
      RunTracksMapping(Step(s, ops[0]), ops[1..], initial, BrokenAfter(s, ops[0], broken));
    }
  }

  /**
   After any run, a verified workspace has status = workspaceStatusFor(billingStatus), exactly unless a
   reconcile expired it while CANCELLED and nothing settled its statuses since.
   */
  lemma MappedIff(initial: BillingStatus, clock: int, ops: seq<Op>)
    requires ValidRun(Fresh(initial, clock), ops)
    ensures var ws := Run(Fresh(initial, clock), ops).ws;
            ws.status != WorkspaceStatus.PendingOtp ==> (Mapped(ws) <==> !Broken(Fresh(initial, clock), ops, false))
  {
    RunTracksMapping(Fresh(initial, clock), ops, initial, false);
  }

  lemma RunUnfolds(s: State, op: Op, ops: seq<Op>)
    requires Applicable(s, op) && ValidRun(Step(s, op), ops)
    ensures ValidRun(s, [op] + ops) && Run(s, [op] + ops) == Run(Step(s, op), ops)
  {
    assert ([op] + ops)[1..] == ops;
  }

  /** A workspace verified and paid for thirty days, at time 0. */
  function PaidWorkspace(): State {
    State(Workspace(WorkspaceStatus.Active, BillingStatus.Active, Some(30 * DAY)), map["a" := Payment(Paid, 0, false)],
          [Subscription(Current, Some(30 * DAY), false)], multiset{}, multiset{}, 0)
  }

  /** The same workspace with a second, open checkout, cancelled and left alone for longer than its period. */
  function CancelledWorkspace(): State {
    State(Workspace(WorkspaceStatus.Suspended, BillingStatus.Cancelled, Some(30 * DAY)),
          map["a" := Payment(Paid, 0, false), "b" := Payment(Pending, 0, false)],
          [Subscription(Current, Some(30 * DAY), false)], multiset{}, multiset{}, 31 * DAY)
  }

  lemma PaidWorkspaceIsReached(later: seq<Op>) returns (ops: seq<Op>)
    requires ValidRun(PaidWorkspace(), later)
    ensures ValidRun(Fresh(BillingStatus.Active, 0), ops)
    ensures Run(Fresh(BillingStatus.Active, 0), ops) == Run(PaidWorkspace(), later)
  {
    var s := Fresh(BillingStatus.Active, 0);
    var s1 := Step(s, VerifyOwnerOtp(false));
    var s2 := Step(s1, StartCheckout("a", false));
    var s3 := Step(s2, Check("a"));
    assert s3.inFlight == multiset{"a"};
    assert Step(s3, Commit("a")) == PaidWorkspace();
    hide Step;
    hide Run;
    hide ValidRun;
    RunUnfolds(s3, Commit("a"), later);
    RunUnfolds(s2, Check("a"), [Commit("a")] + later);
    RunUnfolds(s1, StartCheckout("a", false), [Check("a")] + ([Commit("a")] + later));
    RunUnfolds(s, VerifyOwnerOtp(false), [StartCheckout("a", false)] + ([Check("a")] + ([Commit("a")] + later)));
    ops := [VerifyOwnerOtp(false)] + ([StartCheckout("a", false)] + ([Check("a")] + ([Commit("a")] + later)));
  }

  lemma CancelledWorkspaceIsReached() returns (ops: seq<Op>)
    ensures ValidRun(Fresh(BillingStatus.Active, 0), ops)
    ensures Run(Fresh(BillingStatus.Active, 0), ops) == CancelledWorkspace()
  {
    var s := PaidWorkspace();
    var s1 := Step(s, StartCheckout("b", false));
    var s2 := Step(s1, SetBilling(BillingStatus.Cancelled));
    assert Step(s2, Tick(31 * DAY)) == CancelledWorkspace();
    assert ValidRun(CancelledWorkspace(), []) && Run(CancelledWorkspace(), []) == CancelledWorkspace();
    hide Step;
    hide Run;
    hide ValidRun;
    RunUnfolds(s2, Tick(31 * DAY), []);
    RunUnfolds(s1, SetBilling(BillingStatus.Cancelled), [Tick(31 * DAY)] + []);
    RunUnfolds(s, StartCheckout("b", false), [SetBilling(BillingStatus.Cancelled)] + ([Tick(31 * DAY)] + []));
    ops := PaidWorkspaceIsReached([StartCheckout("b", false)] +
                                    ([SetBilling(BillingStatus.Cancelled)] + ([Tick(31 * DAY)] + [])));
  }

  /** The failing branch is reached: reconciling sets PENDING_PAYMENT where the table says SUSPENDED. */
  lemma CancelledExpiryExample() returns (ops: seq<Op>)
    ensures ValidRun(Fresh(BillingStatus.Active, 0), ops)
    ensures var s := Run(Fresh(BillingStatus.Active, 0), ops);
            Applicable(s, Reconcile(Some("b"))) && Mapped(s.ws) && !Mapped(Step(s, Reconcile(Some("b"))).ws)
  {
    ops := CancelledWorkspaceIsReached();
    hide Run;
  }

  /**
   A verified workspace that abandons its checkout is told that it will be suspended after seven days. The
   sweep leaves it as it is.
   */
  lemma AbandonedCheckoutExample() returns (ops: seq<Op>)
    ensures ValidRun(Fresh(BillingStatus.Active, 0), ops)
    ensures var s := Run(Fresh(BillingStatus.Active, 0), ops);
            && "a" in s.payments && s.payments["a"].status == Pending
            && DunningSweep.SuspendAt(s.ws.billing, s.payments["a"].createdAt) == Some(s.clock)
            && Applicable(s, Dunning({"a"}))
            && Step(s, Dunning({"a"})).ws.billing == BillingStatus.PendingPayment
  {
    var s := Fresh(BillingStatus.Active, 0);
    var s1 := Step(s, VerifyOwnerOtp(false));
    var s2 := Step(s1, StartCheckout("a", false));
    var s3 := Step(s2, Tick(7 * DAY));
    assert ValidRun(s3, []) && Run(s3, []) == s3;
    assert Step(s3, Dunning({"a"})).ws.billing == BillingStatus.PendingPayment;
    RunUnfolds(s2, Tick(7 * DAY), []);
    RunUnfolds(s1, StartCheckout("a", false), [Tick(7 * DAY)] + []);
    RunUnfolds(s, VerifyOwnerOtp(false), [StartCheckout("a", false)] + ([Tick(7 * DAY)] + []));
    ops := [VerifyOwnerOtp(false)] + ([StartCheckout("a", false)] + ([Tick(7 * DAY)] + []));
    hide Run;
    hide ValidRun;
  }

  /** Leaving onboarding lands in a mapped state. */
  lemma OnboardingEntersMapped(s: State, op: Op, initial: BillingStatus)
    requires Inv(s, initial) && Applicable(s, op)
    requires s.ws.status == WorkspaceStatus.PendingOtp
    ensures Step(s, op).ws.status != WorkspaceStatus.PendingOtp ==> Mapped(Step(s, op).ws)
  {
  }

  /** At a fixed clock a second reconciliation changes nothing. */
  lemma ReconcileIdempotent(s: State, latest: Option<Ref>)
    ensures Reconciled(Reconciled(s, latest), latest) == Reconciled(s, latest)
  {
  }

  /** No run stores a renewal date more than a year from now, and none ever creates a second subscription row. */
  lemma RenewalIsBounded(initial: BillingStatus, clock: int, ops: seq<Op>)
    requires ValidRun(Fresh(initial, clock), ops)
    ensures var s := Run(Fresh(initial, clock), ops);
            (s.ws.nextRenewal.Some? ==> s.ws.nextRenewal.value <= s.clock + 365 * 86_400_000) && |s.subs| <= 1
  {
    RunKeepsInv(Fresh(initial, clock), ops, initial);
  }

  /**
   A payment, an admin activation or an admin fix gives access that the guard takes back exactly when the
   new renewal date, if there is one, and the grace period have passed.
   */
  lemma GuardLeavesActivated(s: State, op: Op, ms: nat)
    requires op.AdminActivate? || op.AdminFix? || (op.Commit? && op.ref in s.inFlight && op.ref in s.payments)
    ensures var s' := Step(s, op);
            && s'.ws.status == WorkspaceStatus.Active
            && (s'.ws.nextRenewal.Some? ==> s'.ws.nextRenewal.value > s.clock)
            && (Guarded(Step(s', Tick(ms))).ws == s'.ws
                <==> s'.ws.nextRenewal.None? || s.clock + ms <= s'.ws.nextRenewal.value + GRACE)
  {
    if op.Commit? { CommitActivates(s.(inFlight := s.inFlight - multiset{op.ref}), op.ref); }
  }

  predicate PendingOrPaid(s: State) {
    forall ref :: ref in s.payments ==> s.payments[ref].status == Pending || s.payments[ref].status == Paid
  }

  lemma {:induction false} PaymentsPendingOrPaid(s: State, ops: seq<Op>)
    requires ValidRun(s, ops) && PendingOrPaid(s)
    ensures PendingOrPaid(Run(s, ops))
    decreases |ops|
  {
    if ops == [] {
    } else {
      PendingOrPaidKept(s, ops[0]);
      PaymentsPendingOrPaid(Step(s, ops[0]), ops[1..]);
    }
  }

  lemma PendingOrPaidKept(s: State, op: Op)
    requires Applicable(s, op) && PendingOrPaid(s)
    ensures PendingOrPaid(Step(s, op))
  {
    if op.Commit? || op.RetryWrite? || op.AdminFix? { PaymentWritersKeepPendingOrPaid(s, op); }
    hide Committed;
    hide RetryWritten;
    hide Fixed;
  }

  lemma PaymentWritersKeepPendingOrPaid(s: State, op: Op)
    requires PendingOrPaid(s) && (op.Commit? || op.RetryWrite? || op.AdminFix?)
    ensures PendingOrPaid(Step(s, op))
  {
    match op {
      case Commit(ref) =>
        if ref in s.inFlight { CommitActivates(s.(inFlight := s.inFlight - multiset{ref}), ref); }
        hide Committed;
      case RetryWrite(_) =>
      case AdminFix => FixKeepsPendingOrPaid(s);
    }
    hide Fixed;
  }

  lemma FixKeepsPendingOrPaid(s: State)
    requires PendingOrPaid(s)
    ensures PendingOrPaid(Fixed(s))
  {
  }

  /** Although retry writes the payment before it checks the transition, a refused retry changes nothing in any run. */
  lemma RefusedRetryIsHarmless(initial: BillingStatus, clock: int, ops: seq<Op>, latest: Ref)
    requires ValidRun(Fresh(initial, clock), ops)
    requires !MayMove(Run(Fresh(initial, clock), ops).ws.billing, BillingStatus.PastDue)
    ensures Retried(Run(Fresh(initial, clock), ops), latest) == Run(Fresh(initial, clock), ops)
  {
    PaymentsPendingOrPaid(Fresh(initial, clock), ops);
    var s := Run(Fresh(initial, clock), ops);
    if RetryPasses(s, latest) {
      assert s.payments[latest := s.payments[latest].(status := Pending)] == s.payments;
    }
  }

  /** With something in between, a refused retry changes nothing exactly unless its payment has become PAID. */
  lemma RefusedWriteIsHarmlessIff(initial: BillingStatus, clock: int, ops: seq<Op>, r: Retry)
    requires ValidRun(Fresh(initial, clock), ops)
    requires var s := Run(Fresh(initial, clock), ops);
             r in s.retries && r.ref in s.payments && !MayMove(r.seen, BillingStatus.PastDue)
    ensures var s := Run(Fresh(initial, clock), ops);
            Step(s, RetryWrite(r)) == s.(retries := s.retries - multiset{r}) <==> s.payments[r.ref].status != Paid
  {
    PaymentsPendingOrPaid(Fresh(initial, clock), ops);
    var s := Run(Fresh(initial, clock), ops);
    var written := s.payments[r.ref := s.payments[r.ref].(status := Pending)];
    if s.payments[r.ref].status == Paid { assert written[r.ref] != s.payments[r.ref]; }
    else { assert written == s.payments; }
  }

  /** A retry that nothing interrupts is its check followed by its writes. */
  lemma RetryInOneGo(s: State, latest: Ref)
    requires RetryPasses(s, latest)
    ensures Step(Step(s, RetryCheck(latest)), RetryWrite(Retry(latest, s.ws.billing))) == Retried(s, latest)
  {
    var r := Retry(latest, s.ws.billing);
    assert s.retries + multiset{r} - multiset{r} == s.retries;
  }

  // ---- deliveries of one reference ----

  predicate RetryInFlight(s: State, ref: Ref) { exists r :: r in s.retries && r.ref == ref }

  /** PAID stays as long as no retry is about to write the payment, and none can pass its check any more. */
  lemma {:induction false} PaidForever(s: State, ops: seq<Op>, ref: Ref)
    requires ValidRun(s, ops)
    requires ref in s.payments && s.payments[ref].status == Paid && !RetryInFlight(s, ref)
    ensures ref in Run(s, ops).payments && Run(s, ops).payments[ref].status == Paid
    decreases |ops|
  {
    if ops == [] {
    } else {
      PaidStepKept(s, ops[0], ref);
      PaidForever(Step(s, ops[0]), ops[1..], ref);
    }
  }

  lemma PaidStepKept(s: State, op: Op, ref: Ref)
    requires Applicable(s, op) && ref in s.payments && s.payments[ref].status == Paid && !RetryInFlight(s, ref)
    ensures var s' := Step(s, op); ref in s'.payments && s'.payments[ref].status == Paid && !RetryInFlight(s', ref)
  {
    match op {
      case RetryCheck(latest) => RetryCheckKeepsPaid(s, latest, ref);
      case RetryWrite(r) => RetryWriteKeepsPaid(s, r, ref);
      case _ => OtherOpKeepsPaid(s, op, ref);
    }
    hide Step;
  }

  lemma RetryCheckKeepsPaid(s: State, latest: Ref, ref: Ref)
    requires ref in s.payments && s.payments[ref].status == Paid && !RetryInFlight(s, ref)
    ensures Step(s, RetryCheck(latest)).payments == s.payments && !RetryInFlight(Step(s, RetryCheck(latest)), ref)
  {
    var s' := Step(s, RetryCheck(latest));
    forall r | r in s'.retries ensures r.ref != ref {
      if r !in s.retries { assert r == Retry(latest, s.ws.billing) && RetryPasses(s, latest); }
    }
  }

  lemma RetryWriteKeepsPaid(s: State, r: Retry, ref: Ref)
    requires ref in s.payments && s.payments[ref].status == Paid && !RetryInFlight(s, ref)
    ensures var s' := Step(s, RetryWrite(r));
            ref in s'.payments && s'.payments[ref].status == Paid && !RetryInFlight(s', ref)
  {
    var s' := Step(s, RetryWrite(r));
    forall other | other in s'.retries ensures other in s.retries {}
  }

  lemma OtherOpKeepsPaid(s: State, op: Op, ref: Ref)
    requires Applicable(s, op) && !op.RetryCheck? && !op.RetryWrite?
    requires ref in s.payments && s.payments[ref].status == Paid
    ensures var s' := Step(s, op); s'.retries == s.retries && ref in s'.payments && s'.payments[ref].status == Paid
  {
  }

  predicate PaidAfter(s: State, ops: seq<Op>, ref: Ref) {
    ValidRun(s, ops) ==> ref in Run(s, ops).payments && Run(s, ops).payments[ref].status == Paid
  }

  /**
   A PAID payment stays PAID in every run exactly unless a retry has passed its check before the payment
   was made and has not written yet: its write makes the payment PENDING again.
   */
  lemma PaidForeverIff(s: State, ref: Ref)
    requires ref in s.payments && s.payments[ref].status == Paid
    ensures (forall ops :: PaidAfter(s, ops, ref)) <==> !RetryInFlight(s, ref)
  {
    if RetryInFlight(s, ref) {
      var r :| r in s.retries && r.ref == ref;
      var s' := Step(s, RetryWrite(r));
      assert s'.payments[ref].status == Pending;
      RunUnfolds(s, RetryWrite(r), []);
      assert !PaidAfter(s, [RetryWrite(r)] + [], ref);
    } else {
      forall ops | ValidRun(s, ops) ensures PaidAfter(s, ops, ref) { PaidForever(s, ops, ref); }
    }
  }

  /** A workspace verified with the local payment bypass: its checkout is paid while a retry is about to write. */
  function RetriedMeanwhile(): State {
    State(Workspace(WorkspaceStatus.Active, BillingStatus.Active, Some(30 * DAY)), map["a" := Payment(Paid, 0, false)],
          [Subscription(Current, Some(30 * DAY), false)], multiset{}, multiset{Retry("a", BillingStatus.Active)}, 0)
  }

  /** The same workspace just before: the delivery and the retry have both passed their checks. */
  function BothChecked(): State {
    State(Workspace(WorkspaceStatus.Active, BillingStatus.Active, None), map["a" := Payment(Pending, 0, false)],
          [], multiset{"a"}, multiset{Retry("a", BillingStatus.Active)}, 0)
  }

  lemma BothCheckedIsReached(later: seq<Op>) returns (ops: seq<Op>)
    requires ValidRun(BothChecked(), later)
    ensures ValidRun(Fresh(BillingStatus.Active, 0), ops)
    ensures Run(Fresh(BillingStatus.Active, 0), ops) == Run(BothChecked(), later)
  {
    var s := Fresh(BillingStatus.Active, 0);
    var s1 := Step(s, VerifyOwnerOtp(true));
    var s2 := Step(s1, StartCheckout("a", false));
    var s3 := Step(s2, Check("a"));
    assert Step(s3, RetryCheck("a")) == BothChecked();
    hide Step;
    hide Run;
    hide ValidRun;
    RunUnfolds(s3, RetryCheck("a"), later);
    RunUnfolds(s2, Check("a"), [RetryCheck("a")] + later);
    RunUnfolds(s1, StartCheckout("a", false), [Check("a")] + ([RetryCheck("a")] + later));
    RunUnfolds(s, VerifyOwnerOtp(true), [StartCheckout("a", false)] + ([Check("a")] + ([RetryCheck("a")] + later)));
    ops := [VerifyOwnerOtp(true)] + ([StartCheckout("a", false)] + ([Check("a")] + ([RetryCheck("a")] + later)));
  }

  lemma RetriedMeanwhileIsReached(later: seq<Op>) returns (ops: seq<Op>)
    requires ValidRun(RetriedMeanwhile(), later)
    ensures ValidRun(Fresh(BillingStatus.Active, 0), ops)
    ensures Run(Fresh(BillingStatus.Active, 0), ops) == Run(RetriedMeanwhile(), later)
  {
    assert Step(BothChecked(), Commit("a")) == RetriedMeanwhile();
    hide Step;
    hide Run;
    hide ValidRun;
    RunUnfolds(BothChecked(), Commit("a"), later);
    ops := BothCheckedIsReached([Commit("a")] + later);
  }

  /** The customer has paid for thirty days; the late write of the retry unmarks the payment and locks the workspace. */
  lemma RetryLosesPaymentExample() returns (ops: seq<Op>)
    ensures ValidRun(Fresh(BillingStatus.Active, 0), ops)
    ensures var s := Run(Fresh(BillingStatus.Active, 0), ops);
            && "a" in s.payments && s.payments["a"].status == Pending
            && s.ws == Workspace(WorkspaceStatus.PendingPayment, BillingStatus.PastDue, Some(30 * DAY))
  {
    var s := RetriedMeanwhile();
    var write := RetryWrite(Retry("a", BillingStatus.Active));
    assert s.retries - multiset{write.retry} == multiset{};
    RunUnfolds(s, write, []);
    ops := RetriedMeanwhileIsReached([write] + []);
    hide Run;
    hide ValidRun;
  }

  /** A step of the webhook, replay, verify and mock deliveries of one reference, or time passing. */
  predicate IsDelivery(op: Op, ref: Ref) {
    op.Tick? || op == Check(ref) || op == Commit(ref)
  }

  /** Three hundred and sixty-five days for a yearly payment, thirty for a monthly one. */
  lemma PeriodInDays(yearly: bool)
    ensures Period(yearly) == (if yearly then 365 else 30) * 86_400_000
  {
  }

  predicate Settled(s: State, ref: Ref, end: int) {
    && ref in s.payments && s.payments[ref].status == Paid
    && s.ws == Workspace(WorkspaceStatus.Active, BillingStatus.Active, Some(end))
    && s.subs == [Subscription(Current, Some(end), s.payments[ref].yearly)]
  }

  /** The clock of the last transaction of the run, if one was reached. */
  function LastCommit(s: State, ops: seq<Op>, ref: Ref): Option<int>
    requires ValidRun(s, ops)
    decreases |ops|
  {
    if ops == [] then None
    else
      var later := LastCommit(Step(s, ops[0]), ops[1..], ref);
      if later.Some? then later
      else if ops[0] == Commit(ref) && ref in s.inFlight then Some(s.clock) else None
  }

  lemma DeliveryKeeps(s: State, op: Op, ref: Ref)
    requires IsDelivery(op, ref) && Applicable(s, op)
    requires ref in s.payments && |s.subs| <= 1
    ensures var s' := Step(s, op);
            && ref in s'.payments && s'.payments[ref].yearly == s.payments[ref].yearly && |s'.subs| <= 1
            && (if op == Commit(ref) && ref in s.inFlight
                then Settled(s', ref, s.clock + Period(s.payments[ref].yearly))
                else s'.ws == s.ws && s'.payments == s.payments && s'.subs == s.subs)
  {
  }

  lemma {:induction false} DeliveriesSettle(s: State, ops: seq<Op>, ref: Ref)
    requires ValidRun(s, ops) && forall op <- ops :: IsDelivery(op, ref)
    requires ref in s.payments && |s.subs| <= 1
    ensures ref in Run(s, ops).payments && Run(s, ops).payments[ref].yearly == s.payments[ref].yearly
    ensures var last := LastCommit(s, ops, ref);
            last.Some? ==> Settled(Run(s, ops), ref, last.value + Period(s.payments[ref].yearly))
    ensures LastCommit(s, ops, ref).None? ==>
              var s' := Run(s, ops); s'.ws == s.ws && s'.payments == s.payments && s'.subs == s.subs
    decreases |ops|
  {
    hide Step;
    if ops == [] {
    } else {
      var op := ops[0];
      assert op in ops;
      DeliveryKeeps(s, op, ref);
      DeliveriesSettle(Step(s, op), ops[1..], ref);
    }
  }

  lemma PaidUnderDeliveries(s: State, ops: seq<Op>, ref: Ref)
    requires ValidRun(s, ops) && forall op <- ops :: IsDelivery(op, ref)
    requires ref in s.payments && s.payments[ref].status == Paid && |s.subs| <= 1
    ensures ref in Run(s, ops).payments && Run(s, ops).payments[ref].status == Paid
  {
    hide *;
    DeliveriesSettle(s, ops, ref);
    if LastCommit(s, ops, ref).Some? {
      SettledIsPaid(Run(s, ops), ref, LastCommit(s, ops, ref).value + Period(s.payments[ref].yearly));
    }
  }

  lemma SettledIsPaid(s: State, ref: Ref, end: int)
    requires Settled(s, ref, end)
    ensures ref in s.payments && s.payments[ref].status == Paid
  {
  }

  lemma {:induction false} ChecksAreServed(s: State, ops: seq<Op>, ref: Ref)
    requires ValidRun(s, ops) && forall op <- ops :: IsDelivery(op, ref)
    requires ref in s.payments && |s.subs| <= 1
    ensures ref in Run(s, ops).payments
    ensures s.inFlight[ref] > 0 || Check(ref) in ops ==>
              Run(s, ops).inFlight[ref] > 0 || Run(s, ops).payments[ref].status == Paid
    decreases |ops|
  {
    DeliveriesSettle(s, ops, ref);
    if ops == [] {
    } else {
      var op := ops[0];
      assert op in ops;
      var s' := Step(s, op);
      ChecksAreServed(s', ops[1..], ref);
      if s'.payments[ref].status == Paid { PaidUnderDeliveries(s', ops[1..], ref); }
    }
  }

  /**
   However the deliveries of an unpaid reference interleave: when all that passed the check have
   committed, the payment is PAID, there is one subscription row, and renewal and period end are 365 days
   (yearly) or 30 days (monthly) after the last commit, not twice that.
   */
  lemma InterleavedDeliveries(s: State, ops: seq<Op>, ref: Ref)
    requires ValidRun(s, ops) && forall op <- ops :: IsDelivery(op, ref)
    requires ref in s.payments && s.payments[ref].status != Paid && |s.subs| <= 1
    requires Check(ref) in ops && Run(s, ops).inFlight[ref] == 0
    ensures LastCommit(s, ops, ref).Some?
    ensures Settled(Run(s, ops), ref,
                    LastCommit(s, ops, ref).value + (if s.payments[ref].yearly then 365 else 30) * 86_400_000)
  {
    hide *;
    PeriodInDays(s.payments[ref].yearly);
    DeliveriesSettle(s, ops, ref);
    ChecksAreServed(s, ops, ref);
  }

  /** Deliveries of a reference that is already paid change nothing but the clock. */
  lemma {:induction false} LateDeliveriesAreIdle(s: State, ops: seq<Op>, ref: Ref)
    requires ValidRun(s, ops) && forall op <- ops :: IsDelivery(op, ref)
    requires ref in s.payments && s.payments[ref].status == Paid && ref !in s.inFlight
    ensures Run(s, ops) == s.(clock := Run(s, ops).clock)
    decreases |ops|
  {
    if ops == [] {
    } else {
      assert ops[0] in ops;
      LateDeliveriesAreIdle(Step(s, ops[0]), ops[1..], ref);
    }
  }

  // ---- the handlers, writing the rows in place ----

  class WorkspaceBilling {
    var ws: Workspace
    var payments: map<Ref, Payment>
    var subs: seq<Subscription>
    var inFlight: multiset<Ref>
    var retries: multiset<Retry>
    var clock: int

    function Contents(): State
      reads this
    {
      State(ws, payments, subs, inFlight, retries, clock)
    }

    constructor (initial: BillingStatus, clock: int)
      ensures Contents() == Fresh(initial, clock)
    {
      ws := Workspace(WorkspaceStatus.PendingOtp, initial, None);
      payments, subs, inFlight, retries := map[], [], multiset{}, multiset{};
      this.clock := clock;
    }

    method VerifyOwnerEmailOtp(bypassPayment: bool)
      modifies this`ws
      ensures Contents() == Step(old(Contents()), VerifyOwnerOtp(bypassPayment))
    {
      if ws.status != WorkspaceStatus.PendingOtp { return; }
      if bypassPayment {
        ws := ws.(status := WorkspaceStatus.Active, billing := BillingStatus.Active);
      } else {
        ws := ws.(status := WorkspaceStatus.PendingPayment, billing := BillingStatus.PendingPayment);
      }
    }

    /** `providerOk` says whether the payment provider accepts the transaction, which it is asked after the insert. */
    method InitPaystackPayment(ref: Ref, ownerHasEmail: bool, template: string, plan: Option<Plan>, providerOk: bool)
      returns (error: Option<CheckoutError>)
      modifies this`payments
      ensures var blocker := CheckoutBlocker(old(Contents()), ref, ownerHasEmail, template, plan);
              && error == (if blocker.None? && !providerOk then Some(ProviderFailed) else blocker)
              && Contents() == if blocker.None? then Step(old(Contents()), StartCheckout(ref, plan.value.yearly))
                                  else old(Contents())
    {
      if !ownerHasEmail { return Some(OwnerEmailMissing); }
      var canStartCheckout := ws.status == WorkspaceStatus.PendingPayment || ws.status == WorkspaceStatus.Active;
      if !canStartCheckout { return Some(CheckoutNotAllowed); }
      if plan.None? || !plan.value.isActive { return Some(PlanUnavailable); }
      if plan.value.template != template { return Some(PlanOfOtherTemplate); }
      if ref in payments { return Some(ReferenceTaken); }
      payments := payments[ref := Payment(Pending, clock, plan.value.yearly)];
      return if providerOk then None else Some(ProviderFailed);
    }

    /** The read at the start of finalizeSuccessfulPayment. */
    method FinalizeCheck(ref: Ref)
      modifies this`inFlight
      ensures Contents() == Step(old(Contents()), Check(ref))
    {
      if ref !in payments { return; }
      if payments[ref].status == Paid { return; }
      inFlight := inFlight + multiset{ref};
    }

    /** A delivery that passed the check reaches its transaction. */
    method FinalizeCommit(ref: Ref)
      requires ref in inFlight
      modifies this
      ensures Contents() == Step(old(Contents()), Commit(ref))
    {
      inFlight := inFlight - multiset{ref};
      CommitTransaction(ref);
    }

    /** The transaction of finalizeSuccessfulPayment. */
    method CommitTransaction(ref: Ref)
      modifies this`payments, this`ws, this`subs
      ensures Contents() == Committed(old(Contents()), ref)
    {
      if ref !in payments { return; }
      if ws.billing != BillingStatus.Active && !MayMove(ws.billing, BillingStatus.Active) { return; }
      var payment := payments[ref];
      payments := payments[ref := payment.(status := Paid)];
      var end := clock + (if payment.yearly then 365 * DAY else 30 * DAY);
      ws := ws.(status := WorkspaceStatus.Active, billing := BillingStatus.Active, nextRenewal := Some(end));
      var sub := Subscription(Current, Some(end), payment.yearly);
      if |subs| > 0 {
        subs := subs[|subs| - 1 := sub];
      } else {
        subs := [sub];
      }
    }

    /** The reads at the start of retryLatestPayment. */
    method RetryCheckLatest(latest: Ref) returns (retry: Option<Retry>)
      modifies this`retries
      ensures Contents() == Step(old(Contents()), RetryCheck(latest))
      ensures retry == if RetryPasses(old(Contents()), latest) then Some(Retry(latest, old(ws.billing))) else None
    {
      if latest !in payments { return None; }
      if payments[latest].status == Paid { return None; }
      retry := Some(Retry(latest, ws.billing));
      retries := retries + multiset{retry.value};
    }

    /** Its writes. */
    method RetryWriteLatest(retry: Retry)
      requires retry in retries && retry.ref in payments
      modifies this`ws, this`payments, this`retries
      ensures Contents() == Step(old(Contents()), RetryWrite(retry))
    {
      retries := retries - multiset{retry};
      payments := payments[retry.ref := payments[retry.ref].(status := Pending)];
      if !MayMove(retry.seen, BillingStatus.PastDue) { return; }
      ws := ws.(billing := BillingStatus.PastDue, status := WorkspaceStatusFor(BillingStatus.PastDue));
    }

    /** The handler when nothing comes in between. */
    method RetryLatestPayment(latest: Ref)
      modifies this`ws, this`payments, this`retries
      ensures Contents() == Retried(old(Contents()), latest)
    {
      ghost var before := Contents();
      var retry := RetryCheckLatest(latest);
      if retry.None? { return; }
      RetryInOneGo(before, latest);
      RetryWriteLatest(retry.value);
    }

    method SetBillingStatus(to: BillingStatus)
      modifies this`ws
      ensures Contents() == Step(old(Contents()), SetBilling(to))
    {
      if !MayMove(ws.billing, to) { return; }
      ws := ws.(billing := to, status := WorkspaceStatusFor(to));
    }

    method ReconcileWorkspaceBilling(latest: Option<Ref>)
      requires Applicable(Contents(), Reconcile(latest))
      modifies this`ws
      ensures Contents() == Step(old(Contents()), Reconcile(latest))
    {
      var billing, status, nextRenewal := ws.billing, ws.status, ws.nextRenewal;
      var latestSub := LatestSub(subs);
      if latestSub.Some? && latestSub.value.periodEnd.Some? { nextRenewal := latestSub.value.periodEnd; }
      if latest.Some? && payments[latest.value].status == Paid {
        billing, status := BillingStatus.Active, WorkspaceStatus.Active;
        if nextRenewal.None? {
          var days := if latestSub.Some? && latestSub.value.yearly then 365 else 30;
          nextRenewal := Some(clock + days * DAY);
        }
      } else if latest.Some? && payments[latest.value].status == Pending {
        if billing == BillingStatus.Active { billing := BillingStatus.PastDue; }
        if status == WorkspaceStatus.Active { status := WorkspaceStatus.PendingPayment; }
      }
      if nextRenewal.Some? && nextRenewal.value <= clock {
        billing := if billing == BillingStatus.Cancelled then BillingStatus.Cancelled else BillingStatus.PastDue;
        status := WorkspaceStatus.PendingPayment;
      }
      ws := Workspace(status, billing, nextRenewal);
    }

    method CanActivate()
      modifies this`ws
      ensures Contents() == Step(old(Contents()), Guard)
    {
      if ws.nextRenewal.None? { return; }
      var renewalAt := ws.nextRenewal.value;
      var isExpiredActive := renewalAt <= clock && ws.status == WorkspaceStatus.Active;
      if isExpiredActive && clock - renewalAt > GRACE {
        ws := ws.(status := WorkspaceStatus.PendingPayment,
                  billing := if ws.billing == BillingStatus.Cancelled then BillingStatus.Cancelled
                             else BillingStatus.PastDue);
      }
    }

    method ActivateWorkspace()
      modifies this`ws
      ensures Contents() == Step(old(Contents()), AdminActivate)
    {
      var nextRenewal: Option<int> := None;
      var sub := LatestSub(subs);
      if sub.Some? && (sub.value.status == Current || sub.value.status == Trial) {
        if sub.value.periodEnd.Some? && sub.value.periodEnd.value > clock { nextRenewal := sub.value.periodEnd; }
      }
      ws := Workspace(WorkspaceStatus.Active, BillingStatus.Active, nextRenewal);
    }

    method SuspendWorkspace()
      modifies this`ws
      ensures Contents() == Step(old(Contents()), AdminSuspend)
    {
      ws := ws.(status := WorkspaceStatus.Suspended, billing := BillingStatus.Suspended);
    }

    method CancelWorkspaceSubscription()
      modifies this`subs
      ensures Contents() == Step(old(Contents()), CancelSubscription)
    {
      if |subs| == 0 { return; }
      subs := subs[|subs| - 1 := subs[|subs| - 1].(status := Canceled)];
    }

    /** The daily job marks a subscription whose period ended within the last day, unless there is no owner to mail. */
    method CheckSubscriptionExpiry(ownerHasEmail: bool)
      modifies this`subs
      ensures Contents() == Step(old(Contents()), LapseSubscription(ownerHasEmail))
    {
      if |subs| == 0 { return; }
      var sub := subs[|subs| - 1];
      if sub.status == Current && sub.periodEnd.Some? {
        if clock - DAY <= sub.periodEnd.value <= clock {
          if !ownerHasEmail { return; }
          subs := subs[|subs| - 1 := sub.(status := Lapsed)];
        }
      }
    }

    method FixWorkspacePayment()
      modifies this
      ensures Contents() == Step(old(Contents()), AdminFix)
    {
      var latestSub := LatestSub(subs);
      var nextRenewal := Some(clock + 30 * DAY);
      if latestSub.Some? && latestSub.value.periodEnd.Some? && latestSub.value.periodEnd.value > clock {
        nextRenewal := latestSub.value.periodEnd;
      }
      payments := map r | r in payments :: Forgiven(payments[r]);
      ws := ws.(status := WorkspaceStatus.Active, billing := BillingStatus.Active, nextRenewal := nextRenewal);
      if latestSub.Some? && latestSub.value.status != Current && latestSub.value.status != Trial {
        subs := subs[|subs| - 1 := latestSub.value.(status := Current, periodEnd := nextRenewal)];
      }
    }
  }
}
