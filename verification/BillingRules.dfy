/** The two status enums of a workspace and the two tables that tie them together. */
module BillingRules {

  datatype WorkspaceStatus = PendingOtp | PendingPayment | Active | Suspended
  datatype BillingStatus = PendingPayment | Active | PastDue | Suspended | Cancelled

  const DAY := 86_400_000

  /** assertBillingTransition does not throw. */
  predicate MayMove(from: BillingStatus, to: BillingStatus) {
    match from
    case Active => to in {BillingStatus.PastDue, BillingStatus.Cancelled}
    case PastDue => to in {BillingStatus.Active, BillingStatus.Suspended, BillingStatus.Cancelled}
    case Suspended => to in {BillingStatus.Active, BillingStatus.Cancelled}
    case Cancelled => to == BillingStatus.Active
    case PendingPayment => to in {BillingStatus.Active, BillingStatus.Cancelled}
  }

  /** The table read by its targets. */
  lemma TransitionsByTarget(from: BillingStatus, to: BillingStatus)
    ensures MayMove(from, to)
            <==> match to
                 case Active => from != BillingStatus.Active
                 case PastDue => from == BillingStatus.Active
                 case Suspended => from == PastDue
                 case Cancelled => from != Cancelled
                 case PendingPayment => false
  {
  }

  /** Access goes with ACTIVE; unpaid workspaces wait for payment; suspended and cancelled ones are suspended. */
  lemma StatusesByAccess(b: BillingStatus)
    ensures WorkspaceStatusFor(b) == WorkspaceStatus.Active <==> b == BillingStatus.Active
    ensures WorkspaceStatusFor(b) == WorkspaceStatus.PendingPayment
            <==> b in {BillingStatus.PendingPayment, BillingStatus.PastDue}
    ensures WorkspaceStatusFor(b) != WorkspaceStatus.PendingOtp
  {
  }

  function WorkspaceStatusFor(b: BillingStatus): WorkspaceStatus {
    match b
    case Suspended => WorkspaceStatus.Suspended
    case Cancelled => WorkspaceStatus.Suspended
    case PastDue => WorkspaceStatus.PendingPayment
    case PendingPayment => WorkspaceStatus.PendingPayment
    case Active => WorkspaceStatus.Active
  }
}
