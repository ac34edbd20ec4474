# TomaFix back end: a verified model

This project models the parts of the TomaFix back end that carry state machines, schedulers and
arithmetic, and proves what they keep over every run. Database tables are maps or sequences of rows;
the clock is a non-decreasing integer in milliseconds; a handler is one atomic step, except where
it reads first and writes later over what others may have changed: payment finalisation, the retry of a
payment and the overdue job are split there. Replies of mail and payment providers, guesses, and the
outcome of authorisation checks are inputs.

Every component has the same layout. Functions say what each handler does to the rows. A class holds
the rows as fields, and its methods are the handlers, with the branches and loops of the code; each
method is proved equal to its function, or to a pointwise rule. Lemmas then state what the functions
keep over all sequences of operations.

| file | component |
|---|---|
| `AmenityBookings.dfy` | amenity bookings as half-open intervals |
| `RetryQueue.dfy` | the dead-letter queue of failed mails |
| `BillingRules.dfy`, `DunningSweep.dfy`, `BillingLifecycle.dfy` | workspace and billing status, and all their writers |
| `CivilCalendar.dfy`, `RecurringCharges.dfy` | date arithmetic in UTC and the recurring-charge job |
| `Money.dfy`, `EstateLedger.dfy`, `FinanceSummary.dfy`, `UtilityMeters.dfy` | charges, payments, aggregation, metered billing |
| `CsvExport.dfy` | CSV printer and reader |
| `Sequences.dfy`, `Wrappers.dfy` | shared helpers |
| `SlidingWindow.dfy`, `TenantInvites.dfy`, `OneTimeCodes.dfy` | rate limits, invites, one-time codes |
| `Occupancy.dfy`, `BulkImport.dfy` | residents, unit occupancy, bulk import |

## Where the code differs from what it says

- A new workspace has status PENDING_OTP and, by the column default (prisma/schema.prisma:285-287),
  billing status ACTIVE. So "status ACTIVE exactly when billing ACTIVE" fails until the owner's code
  is verified, and only there: `BillingLifecycle.ActiveIffActive`, `BillingLifecycle.FreshDisagrees`.
- Reconciling an expired CANCELLED workspace sets PENDING_PAYMENT where `workspaceStatusFor` says
  SUSPENDED: `BillingLifecycle.ReconcileKeepsMappingIff` for one step, `BillingLifecycle.MappedIff` for runs,
  and `BillingLifecycle.CancelledExpiryExample` for a run that gets there.
- The billing overview (src/billing/billing.service.ts:737-750) announces to every workspace that is not
  ACTIVE when it will be suspended for its pending payment. The sweep keeps that promise exactly for PAST_DUE
  workspaces and those already SUSPENDED; PENDING_PAYMENT and CANCELLED may not move there:
  `DunningSweep.AnnouncedSuspensionIff`. A verified workspace with an abandoned checkout is a case:
  `BillingLifecycle.AbandonedCheckoutExample`.
- A MONTHLY or QUARTERLY schedule can skip a month: `RecurringCharges.NextRunMonth` says exactly when, and
  `RecurringCharges.JanuaryThenMarch` has 31 January followed by 3 March.
- The recurring-charge job posts the charges and then moves the schedule, outside a transaction. When the
  update fails, the next hourly job charges everyone again: `RecurringCharges.FailedUpdateBillsTwice`.
  `RecurringCharges.DueTooSoonIff` says exactly when a schedule is due again too soon, and
  `RecurringCharges.AtMostOncePerPeriod` that no other charge comes too soon.
- Retry reads a payment and writes it later by its id. A payment that is made in between becomes PENDING
  again, and the workspace PAST_DUE if it was ACTIVE when read: `BillingLifecycle.PaidForeverIff`,
  `BillingLifecycle.RetryLosesPaymentExample`.
- The overdue job reads its rows at once and writes OVERDUE to them one by one, by id. A charge voided or paid
  in between is overwritten: `EstateLedger.VoidForeverIff`, `EstateLedger.VoidIsLostExample`,
  `EstateLedger.PaidIsOverwrittenExample`.
- The retry queue's comment promises waits from one minute on. Queued mails start with one attempt
  counted, so the first wait after a retry is fifteen minutes: `RetryQueue.WaitsOfQueuedMail`.
- `createResident` sends the invite before it recounts the unit. When the invite throws, the resident
  stays and the unit keeps its old status until some later operation recounts it:
  `Occupancy.IndexAgreesIff` says exactly which units are wrong after a run, `Occupancy.FailedInviteExample`
  gives one.
- When database writes of the rows ahead keep failing, a due row of the retry queue waits for ever:
  `RetryQueue.StoreFailuresStarve`. `RetryQueue.NoStarvation` covers every run and counts each failing
  write as one more place to wait.
- A mail that went out but whose row could not be marked SENT is sent again: `RetryQueue.CopiesAreAccounted`
  counts the copies.
- The amount of a recurring charge is not validated, and the job posts it as POSTED. Up to 0.009, derivation
  calls such a charge PAID, while the overdue job will store OVERDUE, until someone edits or pays it:
  `EstateLedger.StoredStatusAgreesIff`, `EstateLedger.TinyChargeExample`.

## Model

| member | source | states |
|---|---|---|
| AmenityBookings.BookingService.CreateAmenityBooking | src/property/property.service.ts:906-999 | new rows and answer, error by error, in the order of the checks |
| AmenityBookings.BookingService.UpdateAmenityBooking | src/property/property.service.ts:1001-1083 | moved, cancelled or revived row and answer, all other rows unchanged |
| AmenityBookings.CreateAcceptedIff | src/property/property.service.ts:912-998 | the exact conditions for a create, and the row it adds: REQUESTED exactly where approval is required |
| AmenityBookings.UpdateAcceptedIff | src/property/property.service.ts:1003-1082 | the exact conditions for an update, and the times and status it writes |
| AmenityBookings.OverlapTestIsExact | src/property/property.service.ts:948-957 | the two comparisons of the overlap query hold exactly when the intervals share an instant |
| AmenityBookings.RunsNeverDoubleBook | src/property/property.service.ts:948-960 | after any mix of create, move, cancel and re-approve, no two live bookings of an amenity share an instant |
| AmenityBookings.RefusedIffShared | src/property/property.service.ts:948-960 | a create that passes the other checks is refused exactly when a live booking shares an instant with it |
| AmenityBookings.MoveRefusedIffShared | src/property/property.service.ts:1039-1055 | the same for moves and revivals, against the other bookings |
| AmenityBookings.CancelFreesTheSlot | src/property/property.service.ts:1001-1083 | after a cancellation the same interval can be booked again |
| AmenityBookings.PackingBound | src/property/property.service.ts:948-960 | without double bookings, live time clipped to any window is at most the window |
| AmenityBookings.BookedTimeIsTakenTime | src/property/property.service.ts:948-960 | without double bookings the booked time is the number of instants taken, none counted twice |
| AmenityBookings.RunsStayPacked | src/property/property.service.ts:934-960 | the packing bound after any run, for every amenity and window |
| RetryQueue.DeadLetterQueue.EnqueueDeadLetter | src/mail/mail.service.ts:116-141 | a queued mail starts PENDING with one attempt, due in a minute |
| RetryQueue.DeadLetterQueue.TryRow | src/scheduler/scheduler.service.ts:745-786 | one row after one try, failing writes included |
| RetryQueue.DeadLetterQueue.RunNotificationDlq | src/scheduler/scheduler.service.ts:731-789 | the loop changes exactly the rows of the batch, each as one try does |
| RetryQueue.LandsBehind | src/scheduler/scheduler.service.ts:745-786 | a tried row stays ahead of a due time exactly when its write fails |
| RetryQueue.PassedOverMeansProgress | src/scheduler/scheduler.service.ts:734-741 | a sweep that passes a due row over removes exactly 50 rows, less those whose write failed, from ahead of it |
| RetryQueue.NoStarvation | src/scheduler/scheduler.service.ts:731-789 | a due row with k active rows at or before it is picked within k/50 sweeps, rounded up, for any arrivals and mail outcomes; each failing database write costs one more place |
| RetryQueue.SettledForGood | src/scheduler/scheduler.service.ts:734-741 | SENT and FAILED rows are never picked and never change |
| RetryQueue.RetriesAreBounded | src/scheduler/scheduler.service.ts:764-784 | 6 - attempts bounds the remaining tries that reach the table, and an active row has counted every one |
| RetryQueue.QueuedMailSettles | src/scheduler/scheduler.service.ts:764-787 | a mail queued during a run has at most five recorded tries and is settled after five; it is tried at most five times more than its writes fail |
| RetryQueue.CopiesAreAccounted | src/scheduler/scheduler.service.ts:752-787 | delivery is exactly once up to failing writes: SENT stands for one copy, and only a copy whose row could not be marked adds another; FAILED means every recorded try was refused |
| RetryQueue.WaitsOfQueuedMail | src/scheduler/scheduler.service.ts:771-783 | the waits after each attempt, in minutes, and that they grow |
| RetryQueue.FirstTrySettles | src/scheduler/scheduler.service.ts:746-762 | a delivered mail is SENT and a row of another channel FAILED at the first recorded try |
| RetryQueue.RefusalsAreCounted | src/scheduler/scheduler.service.ts:764-784 | every recorded try counts once, and the sixth recorded refusal is the last |
| RetryQueue.SweepAlwaysPossible | src/scheduler/scheduler.service.ts:734-741 | in every state some batch answers the query |
| RetryQueue.StoreFailuresStarve | src/scheduler/scheduler.service.ts:785-787 | with failing writes ahead of it a due row is passed over by any number of sweeps |
| DunningSweep.DunningJob.SetBillingStatus | src/billing/billing.service.ts:908-923 | both enums change together, and only along the transition table |
| DunningSweep.DunningJob.Visit | src/billing/billing.service.ts:974-998 | one turn of the loop, forbidden transitions skipped |
| DunningSweep.DunningJob.RunDunningSweep | src/billing/billing.service.ts:961-1002 | the loop equals the pointwise rule for every workspace, and the counters equal the numbers of workspaces moved |
| DunningSweep.VisitAddsOne | src/billing/billing.service.ts:966-998 | ascending order makes each turn follow the pointwise rule |
| DunningSweep.SweepMeans | src/billing/billing.service.ts:961-1002 | what a sweep does to each workspace, by the age of its payments in days |
| BillingRules.TransitionsByTarget | src/billing/billing.service.ts:22-34 | the transition table read by its targets: from where each status can be reached |
| BillingRules.StatusesByAccess | src/billing/billing.service.ts:43-55 | which billing statuses give access, wait for payment, or are suspended |
| DunningSweep.NoDoubleStep | src/billing/billing.service.ts:980-998 | an ACTIVE workspace leaves a sweep PAST_DUE or ACTIVE, depending only on payments three to seven days old |
| DunningSweep.AnnouncedSuspensionIff | src/billing/billing.service.ts:737-750 | once the announced suspension date has come, a sweep leaves the workspace SUSPENDED exactly when it was PAST_DUE or SUSPENDED |
| DunningSweep.OldPaymentIsSkipped | src/billing/billing.service.ts:980-998 | an ACTIVE workspace whose only payment is at least seven days old is left ACTIVE |
| DunningSweep.TwoSweepsReachFixpoint | src/billing/billing.service.ts:961-1002 | at a fixed clock a third sweep changes nothing |
| DunningSweep.OneSweepSufficesIff | src/billing/billing.service.ts:961-1002 | one sweep suffices exactly when no ACTIVE workspace has both an old and a late payment |
| BillingLifecycle.SweepTreatsWorkspaceAlike | src/billing/billing.service.ts:974-998 | the sweep over all workspaces acts on each as the dunning step of its lifecycle |
| BillingLifecycle.AbandonedCheckoutExample | src/billing/billing.service.ts:980-988 | a run after which the announced suspension does not happen |
| BillingLifecycle.WorkspaceBilling.VerifyOwnerEmailOtp | src/onboarding/onboarding.service.ts:869-914 | verification ends PENDING_OTP, with or without the local payment bypass |
| BillingLifecycle.VerificationMeans | src/onboarding/onboarding.service.ts:893-914 | verification gives access exactly under the local payment bypass |
| BillingLifecycle.WorkspaceBilling.InitPaystackPayment | src/billing/billing.service.ts:316-394 | the first failing check or a new PENDING payment, which stays when the provider then fails |
| BillingLifecycle.CheckoutAllowedIff | src/billing/billing.service.ts:316-358 | exactly when a checkout opens a payment |
| BillingLifecycle.WorkspaceBilling.FinalizeCheck | src/billing/billing.service.ts:510-514 | a delivery goes on unless the payment is missing or PAID |
| BillingLifecycle.WorkspaceBilling.CommitTransaction | src/billing/billing.service.ts:516-582 | payment, workspace and subscription written together |
| BillingLifecycle.CommitBuys | src/billing/billing.service.ts:529-566 | a delivery buys 365 days (yearly) or 30 days (monthly) from its transaction on, on workspace and subscription |
| BillingLifecycle.WorkspaceBilling.RetryCheckLatest | src/billing/billing.service.ts:875-884 | the reads of a retry: it goes on unless the payment is missing or PAID |
| BillingLifecycle.WorkspaceBilling.RetryWriteLatest | src/billing/billing.service.ts:886-894 | its writes: the payment first, then the transition from the status that was read |
| BillingLifecycle.RetryWriteMeans | src/billing/billing.service.ts:886-894 | a retry writes by what it read, whatever payment and workspace have become |
| BillingLifecycle.WorkspaceBilling.RetryLatestPayment | src/billing/billing.service.ts:875-906 | a retry that nothing interrupts |
| BillingLifecycle.WorkspaceBilling.SetBillingStatus | src/billing/billing.service.ts:908-923 | allowed transitions change both enums, others nothing |
| BillingLifecycle.WorkspaceBilling.ReconcileWorkspaceBilling | src/billing/billing.service.ts:1041-1091 | status, billing status and renewal recomputed from the latest payment and subscription |
| BillingLifecycle.ReconcileDate | src/billing/billing.service.ts:1055-1073 | the renewal date a reconcile stores, and the 365 or 30 days it invents for a paid workspace without one |
| BillingLifecycle.ReconcileMeans | src/billing/billing.service.ts:1057-1080 | when a reconcile leaves, takes or restores access, and when it makes billing PAST_DUE |
| BillingLifecycle.WorkspaceBilling.CancelWorkspaceSubscription | src/billing/billing.service.ts:1187-1204 | only the subscription's status changes |
| BillingLifecycle.CancelMeans | src/billing/billing.service.ts:1187-1204 | cancelling leaves the workspace and its renewal date as they are |
| BillingLifecycle.WorkspaceBilling.CheckSubscriptionExpiry | src/scheduler/scheduler.service.ts:536-561 | a subscription that ended within a day is marked, unless the owner has no e-mail; nothing else changes |
| BillingLifecycle.LapsesIff | src/scheduler/scheduler.service.ts:536-561 | exactly which subscriptions the job marks |
| BillingLifecycle.WorkspaceBilling.CanActivate | src/auth/workspace-access.guard.ts:51-84 | an ACTIVE workspace past its grace period is locked |
| BillingLifecycle.GuardLocksIff | src/auth/workspace-access.guard.ts:56-84 | the guard locks exactly an ACTIVE workspace more than five days past its renewal |
| BillingLifecycle.WorkspaceBilling.ActivateWorkspace | src/admin/admin.service.ts:670-693 | activation keeps only a renewal date in the future |
| BillingLifecycle.ActivationKeepsPaidTime | src/admin/admin.service.ts:670-693 | an activation keeps a date exactly when a live subscription still runs |
| BillingLifecycle.WorkspaceBilling.SuspendWorkspace | src/admin/admin.service.ts:711-718 | both enums become SUSPENDED |
| BillingLifecycle.WorkspaceBilling.FixWorkspacePayment | src/admin/admin.service.ts:812-861 | payments forgiven, workspace active, lapsed subscription revived |
| BillingLifecycle.FixMeans | src/admin/admin.service.ts:812-861 | a fix forgives exactly the open payments, until the running period ends or for 30 days, and revives a lapsed subscription |
| BillingLifecycle.ActiveIffActive | src/onboarding/onboarding.service.ts:80-96 | over every run, status ACTIVE and billing ACTIVE coincide, except before verification under the default ACTIVE, where they differ |
| BillingLifecycle.FreshDisagrees | prisma/schema.prisma:285-287 | a newly created workspace is billing ACTIVE and not status ACTIVE |
| BillingLifecycle.MappingKept | src/billing/billing.service.ts:43-55 | once verified, every step but reconcile keeps status = workspaceStatusFor(billingStatus) |
| BillingLifecycle.ReconcileKeepsMappingIff | src/billing/billing.service.ts:1062-1080 | reconcile breaks the mapping exactly on an expired CANCELLED workspace whose latest payment is not PAID |
| BillingLifecycle.MappedIff | src/billing/billing.service.ts:43-55 | after any run a verified workspace is mapped, exactly unless a reconcile expired it while CANCELLED and nothing settled its statuses since |
| BillingLifecycle.CancelledExpiryExample | src/billing/billing.service.ts:1062-1080 | a run from creation after which a reconcile breaks the mapping |
| BillingLifecycle.OnboardingEntersMapped | src/onboarding/onboarding.service.ts:896-914 | whatever step leaves PENDING_OTP lands in a mapped state |
| BillingLifecycle.ReconcileIdempotent | src/billing/billing.service.ts:1041-1091 | at a fixed clock a second reconcile changes nothing |
| BillingLifecycle.RenewalIsBounded | src/billing/billing.service.ts:529-551 | no run stores a renewal date more than 365 days ahead or creates a second subscription row |
| BillingLifecycle.GuardLeavesActivated | src/admin/admin.service.ts:677-688 | access given by a payment or an admin is taken back by the guard exactly when the renewal date, if any, and the grace period are over |
| BillingLifecycle.PaymentsPendingOrPaid | src/billing/billing.service.ts:886 | no run produces another payment status |
| BillingLifecycle.RefusedRetryIsHarmless | src/billing/billing.service.ts:886-887 | an uninterrupted retry whose transition is refused changes nothing in any run |
| BillingLifecycle.RefusedWriteIsHarmlessIff | src/billing/billing.service.ts:886-887 | an interrupted one changes nothing exactly unless the payment has become PAID |
| BillingLifecycle.PaidForever | src/billing/billing.service.ts:513-526 | with no retry of it under way, PAID is absorbing under every operation |
| BillingLifecycle.PaidForeverIff | src/billing/billing.service.ts:879-886 | a PAID payment stays PAID in every run exactly unless a retry passed its check before and has not written yet |
| BillingLifecycle.RetryLosesPaymentExample | src/billing/billing.service.ts:879-894 | a run in which a paid workspace ends PAST_DUE with its payment PENDING |
| BillingLifecycle.DeliveriesSettle | src/billing/billing.service.ts:502-583 | renewal and period end after any interleaving depend on the last commit alone |
| BillingLifecycle.InterleavedDeliveries | src/billing/billing.service.ts:502-583 | any interleaving of deliveries ends PAID, with one subscription row and renewal = period end = last commit + 365 days (yearly) or 30 days (monthly) |
| BillingLifecycle.LateDeliveriesAreIdle | src/billing/billing.service.ts:513-514 | deliveries of a paid reference change nothing |
| CivilCalendar.MonthStep | src/scheduler/scheduler.service.ts:296-315 | each month ends where the next begins, in the day numbers of ECMA-262 section 21.4.1 |
| CivilCalendar.GregorianCycle | src/scheduler/scheduler.service.ts:296-315 | four centuries are 146097 days |
| CivilCalendar.MonthIsUnique | src/scheduler/scheduler.service.ts:296-315 | every day lies in exactly one month |
| CivilCalendar.WhereMakeDayLands | src/scheduler/scheduler.service.ts:305-311 | month and date that MakeDay yields for a date that may overflow |
| CivilCalendar.ShortThenLong | src/scheduler/scheduler.service.ts:305-311 | a month with fewer than 31 days is followed by one with 31 |
| RecurringCharges.NextRunMonth | src/scheduler/scheduler.service.ts:304-311 | setMonth and setDate never both overflow; a run lands in month m+k, or m+k+1 exactly when a date does not exist in m+k |
| RecurringCharges.JanuaryThenMarch | src/scheduler/scheduler.service.ts:304-307 | the MONTHLY run after 31 January 1970 is on 3 March |
| RecurringCharges.NextRunYear | src/scheduler/scheduler.service.ts:312-314 | a YEARLY run lands twelve months on, thirteen exactly for 29 February |
| RecurringCharges.NextRunByTime | src/scheduler/scheduler.service.ts:298-303 | a DAILY run is followed by one a day later, a WEEKLY run by one seven days later; first runs at midnight of those days |
| RecurringCharges.NextRunDate | src/scheduler/scheduler.service.ts:304-314 | month and date of the next MONTHLY, QUARTERLY or YEARLY run, one, three or twelve months on, with overflow and pinned day |
| RecurringCharges.NextRunTimeOfDay | src/apartment/apartment.service.ts:1855-1857 | runs keep the time of day, the first run is at midnight |
| RecurringCharges.StrictlyLater | src/apartment/apartment.service.ts:1841-1856 | every frequency gives a strictly later time, at creation and after a run |
| RecurringCharges.RecurringBilling.CreateRecurringCharge | src/apartment/apartment.service.ts:1837-1873 | first run at midnight of the computed day |
| RecurringCharges.RecurringBilling.NextRunTime | src/scheduler/scheduler.service.ts:296-315 | the switch over the frequency computes the next run |
| RecurringCharges.RecurringBilling.RunSchedule | src/scheduler/scheduler.service.ts:254-324 | one due schedule posts one charge per resident and moves; a database error ends the turn before or after the posting |
| RecurringCharges.RecurringBilling.ProcessRecurringCharges | src/scheduler/scheduler.service.ts:241-326 | the loop posts for the due schedules and moves exactly those whose writes went through |
| RecurringCharges.ChargedIff | src/scheduler/scheduler.service.ts:254-292 | a run charges each resident of each due schedule whose posting went through, and nobody else |
| RecurringCharges.AtMostOncePerPeriod | src/scheduler/scheduler.service.ts:246-324 | over any run a schedule charges a resident at most once per calendar month, three months or twelve, unless its update failed after the earlier charge |
| RecurringCharges.DueTooSoonIff | src/scheduler/scheduler.service.ts:246-324 | while the spacing of a past charge lasts, its schedule is due exactly when it is active and an update of it failed after posting and none went through since |
| RecurringCharges.FailedUpdateBillsTwice | src/scheduler/scheduler.service.ts:317-323 | a run in which one failing update makes two charges an hour apart |
| Money.RoundingIsClose | src/apartment/apartment.service.ts:1425-1431 | rounding moves an amount by at most 0.005, halves upwards, and keeps whole hundredths |
| EstateLedger.Ledger.CreateFinanceCharge | src/apartment/apartment.service.ts:1624-1667 | new charge with its derived status, or the first error |
| EstateLedger.NewChargeIff | src/apartment/apartment.service.ts:1624-1667 | the exact conditions for a new charge, and the charge |
| EstateLedger.Ledger.UpdateFinanceCharge | src/apartment/apartment.service.ts:1679-1714 | edited charge with its derived status, or the first error |
| EstateLedger.EditedIff | src/apartment/apartment.service.ts:1679-1714 | the exact conditions for an edit, and the amount, due date and status it leaves |
| EstateLedger.Ledger.RecordFinancePayment | src/apartment/apartment.service.ts:1752-1816 | payment and status written together, or the first error |
| EstateLedger.PaidIff | src/apartment/apartment.service.ts:1752-1816 | the exact conditions for a payment, and what it leaves |
| EstateLedger.PostingsMean | src/scheduler/scheduler.service.ts:270-290 | posted charges are due after a week |
| EstateLedger.Ledger.ReadOverdueCharges | src/scheduler/scheduler.service.ts:374-386 | the rows that the overdue job reads |
| EstateLedger.Ledger.MarkOverdue | src/scheduler/scheduler.service.ts:388-408 | its write of one of them, whatever the row has become |
| EstateLedger.Ledger.SendOverdueReminders | src/scheduler/scheduler.service.ts:374-408 | uninterrupted, exactly the notified rows of the batch become OVERDUE |
| EstateLedger.OverdueJobMeans | src/scheduler/scheduler.service.ts:374-408 | notified rows become OVERDUE and reminded, amounts and payments stay |
| EstateLedger.LateChargesAreRead | src/scheduler/scheduler.service.ts:374-386 | the job reads exactly the charges owed and late, not void and not reminded of |
| EstateLedger.RemindedOnce | src/scheduler/scheduler.service.ts:374-408 | over any run no charge is read again after its reminder |
| EstateLedger.StoredStatusAgreesIff | src/apartment/apartment.service.ts:1433-1455 | after any run the stored status is the derived one, or lags as POSTED or PARTIALLY_PAID behind OVERDUE, exactly unless the charge is a recurring one of at most 0.009 that no accepted edit or payment has touched, or the overdue job overwrote an edit or payment and the charge is not owed and late |
| EstateLedger.BlindOverdueIsRightIff | src/scheduler/scheduler.service.ts:374-408 | the overdue job's unconditional write is what derivation gives exactly when the amount exceeds 0.009 |
| EstateLedger.TinyChargesArePaid | src/scheduler/scheduler.service.ts:276-290 | a charge of at most 0.009 derives as PAID unless it is void |
| EstateLedger.TinyChargeExample | src/scheduler/scheduler.service.ts:276-290 | a recurring charge of 0.005 is stored POSTED, then OVERDUE, while derivation says PAID |
| EstateLedger.StatusMeaning | src/apartment/apartment.service.ts:1433-1455 | on whole hundredths each derived status says what is left to pay and whether it is late |
| EstateLedger.VoidForever | src/apartment/apartment.service.ts:1439-1441 | a VOID charge that the overdue job is not about to write stays VOID and takes no payments |
| EstateLedger.VoidForeverIff | src/scheduler/scheduler.service.ts:374-408 | VOID is never left in any run exactly unless the job has read the row and will write it |
| EstateLedger.VoidIsLostExample | src/scheduler/scheduler.service.ts:374-408 | a charge voided while the job runs becomes OVERDUE and takes payments |
| EstateLedger.PaidIsOverwrittenExample | src/scheduler/scheduler.service.ts:374-408 | a charge paid in full while the job runs is stored OVERDUE |
| EstateLedger.NeverOverpaid | src/apartment/apartment.service.ts:1769-1774 | over any run paid exceeds the amount, or zero where that is negative, by at most 0.009, and not at all for whole hundredths |
| EstateLedger.RefusedIffOverpaying | src/apartment/apartment.service.ts:1769-1774 | on whole hundredths a payment is refused exactly when it would overpay |
| EstateLedger.PaymentCountsInFull | src/apartment/apartment.service.ts:1804-1816 | an accepted payment counts in full and gives PAID exactly when nothing remains |
| FinanceSummary.GetFinanceSummary | src/apartment/apartment.service.ts:1480-1592 | the loops equal totals and per-key sums defined independently of them |
| FinanceSummary.ReduceTotals | src/apartment/apartment.service.ts:1512-1531 | totals and the set of residents in arrears |
| FinanceSummary.CollectBalances | src/apartment/apartment.service.ts:1537-1576 | the Map holds each key once, in order of first appearance, with its sums |
| FinanceSummary.BalancesPartitionTotals | src/apartment/apartment.service.ts:1537-1576 | per-key sums add up to the totals |
| FinanceSummary.SummaryIsConserved | src/apartment/apartment.service.ts:1480-1592 | billed = paid + outstanding, balances sum to totals in every column, residentsInArrears counts the overdue resident balances |
| FinanceSummary.LineMeans | src/apartment/apartment.service.ts:1457-1478 | what a charge adds to each column; it is in arrears exactly when something is left to pay after the due date |
| FinanceSummary.SummaryMeans | src/apartment/apartment.service.ts:1480-1592 | totals and balances as sums over the charges themselves, overdue as the late remainders, residentsInArrears as the residents with a late charge |
| FinanceSummary.LedgerRunsAreCentValued | src/apartment/apartment.service.ts:1688-1692 | ledger runs meet the premise of conservation wherever amounts are whole hundredths |
| UtilityMeters.UtilityMeter.RecordUtilityReading | src/estate-ops/estate-ops.service.ts:335-412 | meter, reading and charge after an accepted request; unchanged after a refused one |
| UtilityMeters.RefusedIffBelow | src/estate-ops/estate-ops.service.ts:354-361 | a reading is refused as too low exactly when, in hundredths, it is below the last one |
| UtilityMeters.AcceptedIff | src/estate-ops/estate-ops.service.ts:40-44 | the exact conditions for a reading: no negative number, and not below the last one |
| UtilityMeters.ReadingMeans | src/estate-ops/estate-ops.service.ts:353-412 | value, rates in force, bill and posting of an accepted reading |
| UtilityMeters.BillsTelescope | src/estate-ops/estate-ops.service.ts:362-366 | n bills at constant rate are within 0.005 n of rate times consumption plus n fixed charges |
| UtilityMeters.MeterBillingTelescopes | src/estate-ops/estate-ops.service.ts:354-412 | readings never decrease, consumptions sum to last - first, posted charges sum to their bills, bills telescope |
| UtilityMeters.PostedChargesSuitLedger | src/estate-ops/estate-ops.service.ts:370-386 | every posted charge is at least 0.01 and in whole hundredths |
| CsvExport.ExportCsv | src/reports/reports.service.ts:363-388 | the pushed and joined lines are the printed table, header first |
| CsvExport.FieldRoundTrip | src/reports/reports.service.ts:21-27 | an escaped field before any delimiter reads back as itself |
| CsvExport.QuotedIff | src/reports/reports.service.ts:21-27 | a field is quoted exactly when it holds a comma, a quote or a line break |
| CsvExport.RoundTripIff | src/reports/reports.service.ts:363-388 | a printed table reads back exactly when its last row is not one empty field |
| CsvExport.RoundTrip | src/reports/reports.service.ts:363-388 | every table with at least two columns survives printing and reading |
| CsvExport.TextDeterminesTable | src/reports/reports.service.ts:363-388 | two such tables with the same text are equal |
| SlidingWindow.InsertKeepsSpacing | src/onboarding/onboarding.service.ts:161-170 | the check at creation keeps any row an hour before the one `limit` places later |
| SlidingWindow.CountsTheLastHour | src/onboarding/onboarding.service.ts:161-167 | the count a handler takes is the number of rows of the last hour |
| SlidingWindow.EveryWindowIsBounded | src/onboarding/onboarding.service.ts:721-732 | no window of an hour, ending anywhere, holds more rows than the limit |
| TenantInvites.InviteService.CreateTenantInvite | src/onboarding/onboarding.service.ts:130-217 | older open invites closed, new one added, or the first error; a mail that throws leaves the new invite |
| TenantInvites.CreateAcceptedIff | src/onboarding/onboarding.service.ts:134-197 | the exact conditions for a create, and the invite of two days it adds |
| TenantInvites.InviteService.ResendTenantInvite | src/onboarding/onboarding.service.ts:243-263 | resending creates a new invite for the same address, role and workspace |
| TenantInvites.ResentIff | src/onboarding/onboarding.service.ts:243-263 | the exact conditions for a resend, and the copy it opens |
| TenantInvites.InviteService.RevokeTenantInvite | src/onboarding/onboarding.service.ts:265-286 | an invite that was not accepted expires now |
| TenantInvites.RevokedIff | src/onboarding/onboarding.service.ts:265-286 | the exact conditions for a revoke, and what it leaves |
| TenantInvites.InviteService.AcceptTenantInvite | src/onboarding/onboarding.service.ts:375-490 | only an open invite with matching address, code and unit is accepted |
| TenantInvites.AcceptedIff | src/onboarding/onboarding.service.ts:375-490 | the exact conditions for an accept, and what it leaves |
| TenantInvites.AtMostOneOpen | src/onboarding/onboarding.service.ts:172-197 | after any run at most one invite per workspace, address and role is open |
| TenantInvites.CreateOpensExactlyOne | src/onboarding/onboarding.service.ts:172-197 | a successful create leaves its own invite as the open one |
| TenantInvites.AcceptedOnceAndNotAfterRevocation | src/onboarding/onboarding.service.ts:382-387 | no invite is accepted twice or after its revocation |
| TenantInvites.InvitesPerHour | src/onboarding/onboarding.service.ts:161-170 | at most 250 invites per workspace and role in any hour of any run |
| OneTimeCodes.OtpService.SendOtp | src/auth/auth.service.ts:71-137 | a code is added unless the hourly limit or the 30 second pause stands against it; a mail that throws leaves the code |
| OneTimeCodes.SendMeans | src/auth/auth.service.ts:71-119 | the exact reasons for not sending, in hours and seconds, and the code of ten minutes |
| OneTimeCodes.OtpService.VerifyOtp | src/auth/auth.service.ts:145-190 | the latest live code is burnt, charged a wrong guess, or consumed |
| OneTimeCodes.LatestIsCurrent | src/auth/auth.service.ts:156-166 | the code looked at is the last unconsumed, unexpired one |
| OneTimeCodes.VerifyMeans | src/auth/auth.service.ts:168-186 | a session opens exactly for the secret below five wrong guesses; other guesses are charged |
| OneTimeCodes.OtpService.VerifyOwnerEmailOtp | src/onboarding/onboarding.service.ts:865-901 | an owner code is consumed by a right guess only |
| OneTimeCodes.OwnerVerifyMeans | src/onboarding/onboarding.service.ts:865-901 | an owner code accepts exactly its secret while the workspace awaits it |
| OneTimeCodes.GuessBudget | src/auth/auth.service.ts:155-190 | a login or invite code is compared at most five times and accepted once, attempts counts the guesses that were not its secret, sessions never outnumber codes |
| OneTimeCodes.OwnerCodesPerHour | src/onboarding/onboarding.service.ts:721-732 | at most 8 owner codes per workspace and owner in any hour of any run |
| Occupancy.Registry.SyncUnitOccupancy | src/apartment/apartment.service.ts:704-725 | the unit's status becomes what a recount gives |
| Occupancy.Registry.CreateResident | src/apartment/apartment.service.ts:727-799 | checks, insert, invite that may throw, recount, in this order |
| Occupancy.CreateAcceptedIff | src/apartment/apartment.service.ts:727-799 | the exact conditions for a new resident, and the row |
| Occupancy.Registry.UpdateResident | src/apartment/apartment.service.ts:801-879 | checks, update, recount of old and new unit |
| Occupancy.UpdateAcceptedIff | src/apartment/apartment.service.ts:801-879 | the exact conditions for an update, and home and activity after it |
| Occupancy.Registry.DeleteResident | src/apartment/apartment.service.ts:881-914 | archived with requests, deleted without, unit recounted |
| Occupancy.DeleteMeans | src/apartment/apartment.service.ts:881-914 | archived, without a home, exactly when requests exist |
| Occupancy.Registry.ForceDeleteResident | src/apartment/apartment.service.ts:916-931 | requests and resident removed, unit recounted |
| Occupancy.ForceDeleteMeans | src/apartment/apartment.service.ts:916-931 | the resident and exactly their requests go |
| Occupancy.Registry.DeleteUnit | src/apartment/apartment.service.ts:648-675 | a unit goes only when no resident and no request points at it |
| Occupancy.UnitDeletedIff | src/apartment/apartment.service.ts:648-675 | exactly when a unit goes |
| Occupancy.RecountRepairs | src/apartment/apartment.service.ts:704-725 | every operation repairs the units it recounts, whatever their status was |
| Occupancy.ExistingResidentEffect | src/apartment/apartment.service.ts:875-931 | update, delete and force-delete repair the old and the new home and leave every other unit as it was |
| Occupancy.CreateEffect | src/apartment/apartment.service.ts:776-797 | a create repairs the new home, or leaves it stale when the invite throws, and touches no other unit |
| Occupancy.IndexAgreesIff | src/apartment/apartment.service.ts:704-725 | after any run a unit is OCCUPIED iff an ACTIVE resident lives in it, exactly for the units that no failed invite left stale or that were recounted since |
| Occupancy.FailedInviteExample | src/apartment/apartment.service.ts:776-797 | a failed invite leaves an occupied unit marked VACANT |
| Occupancy.RunLeavesNothingDangling | src/apartment/apartment.service.ts:648-675 | over any run no resident or request points at a missing unit, no request at a missing resident |
| BulkImport.BuildIndex | src/onboarding/onboarding.service.ts:522-527 | the unit lookup table built in the loop |
| BulkImport.FoundUnitHasLabel | src/onboarding/onboarding.service.ts:522-556 | a lookup succeeds exactly when some unit has the label, and finds such a unit |
| BulkImport.FindsMeantUnit | src/onboarding/onboarding.service.ts:522-559 | the unit found is the last at the label, block and floor of the row if there is one, else the last with its label |
| BulkImport.AcceptableMeans | src/onboarding/onboarding.service.ts:550-560 | what a row needs to have no issue, and that later only a repeated e-mail can give it one |
| BulkImport.LooksLikeEmailIff | src/onboarding/onboarding.service.ts:551 | the pattern accepts exactly three parts without spaces and @, joined by @ and a dot |
| BulkImport.ReportedIff | src/onboarding/onboarding.service.ts:548-560 | each issue is reported exactly when it applies |
| BulkImport.PreviewBulkTenantInvites | src/onboarding/onboarding.service.ts:536-568 | a row is valid exactly when it is the first acceptable one with its e-mail; both lists in order, with their issues |
| BulkImport.RowsArePartitioned | src/onboarding/onboarding.service.ts:540-568 | every row number appears in exactly one of the two lists, once |
| BulkImport.ValidRowIsNew | src/onboarding/onboarding.service.ts:550-566 | every valid row has an e-mail new to the workspace and found a free unit |
| BulkImport.ValidRowsAreFresh | src/onboarding/onboarding.service.ts:550-566 | valid e-mails are pairwise distinct |
| BulkImport.CommitBulkTenantInvites | src/onboarding/onboarding.service.ts:582-695 | previews the upload itself; refused above the cap, else the valid rows are inserted one by one up to the first invite that throws |
| BulkImport.CommitRows | src/onboarding/onboarding.service.ts:607-673 | the cap and the loop over given rows |
| BulkImport.InsertedMeans | src/onboarding/onboarding.service.ts:607-673 | the rows inserted end with the first whose invite throws |
| BulkImport.PreviewIsInsertable | src/onboarding/onboarding.service.ts:522-568 | valid rows of a preview name units of the workspace and bring only new, distinct e-mails |
| BulkImport.PreviewedRowsAreFresh | src/onboarding/onboarding.service.ts:529-531 | rows from a preview of the same residents bring only new e-mails |
| BulkImport.EveryPrefixIsSafe | src/onboarding/onboarding.service.ts:601-673 | wherever a commit stops: k rows are k residents within the cap, e-mails unique, occupancy right |
| BulkImport.ImportIsSafe | src/onboarding/onboarding.service.ts:522-673 | from upload to residents: after any prefix of a previewed commit, k more residents within the cap, old ones unchanged, each new one with the e-mail of its row in the unit its row means, which was free, e-mails unique, occupancy right |

## Left out

- HTTP controllers, modules, provider calls (Paystack, Resend, Hubtel, Slack), mail texts: input and output.
- Hashing, tokens, random codes: opaque values with equality; a token is as unique as its invite.
- Database isolation: a handler is atomic, so two handlers never interleave, except payment deliveries, retries of a payment and the overdue job, of which one run ends before the next begins. Failing writes are modelled in the retry queue and the recurring-charge job only.
- Floating point: amounts are real numbers, so the rounding is exact where the code rounds doubles.
- The choice of "latest payment" under null ordering: reconcile and retry take any payment of the workspace.
- DST and local time: dates are in UTC, `dayOfMonth` is absent or 1 to 31, the frequency is one of the five enum values.
- Trimming and lower-casing: the models of imports, invites and codes take the normalised strings.
- Unit keys joined with a separator: the import's lookup uses triples, so a separator inside a label plays no role.
- Columns without a part in a property: titles, notes, fees, approver names, plan names, currencies, readings' dates, payments' dates.
- FinanceSummary.GetFinanceSummary: leaves out the display order of the balances, the amount collected this month and the lists of recent charges and payments; they take no part in the sums.
- Manual unit status changes (`createUnit`, `updateUnit` overrides) are no step of the occupancy runs; `Occupancy.RecountRepairs` says that the next recount undoes them.
- Plan tables, permissions, the entitlements cache, dashboards, visitors, parcels, leases, notices, community channels: finite tables, or plain reads and writes of single rows.
