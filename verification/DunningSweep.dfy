/**
 The dunning sweep walks the oldest pending payments in ascending order and moves workspaces as it
 goes. It is proved equal to a rule that looks at each workspace once.
 */
module DunningSweep {
  import opened BillingRules
  import opened Wrappers

  datatype PendingRow = PendingRow(workspaceId: string, createdAt: int)
  datatype Standing = Standing(status: WorkspaceStatus, billing: BillingStatus)
  type Standings = map<string, Standing>

  predicate IsOld(createdAt: int, now: int) { createdAt <= now - 7 * DAY }
  predicate IsLate(createdAt: int, now: int) { now - 7 * DAY < createdAt <= now - 3 * DAY }

  ghost predicate HasOld(batch: seq<PendingRow>, w: string, now: int) {
    exists p <- batch :: p.workspaceId == w && IsOld(p.createdAt, now)
  }

  ghost predicate HasLate(batch: seq<PendingRow>, w: string, now: int) {
    exists p <- batch :: p.workspaceId == w && IsLate(p.createdAt, now)
  }

  /** The pointwise rule for one workspace. */
  function Judged(st: Standing, hasOld: bool, hasLate: bool): Standing {
    if st.billing == BillingStatus.PastDue && hasOld then
      Standing(WorkspaceStatusFor(BillingStatus.Suspended), BillingStatus.Suspended)
    else if st.billing == BillingStatus.Active && hasLate then
      Standing(WorkspaceStatusFor(BillingStatus.PastDue), BillingStatus.PastDue)
    else st
  }

  ghost function SweptAll(m: Standings, batch: seq<PendingRow>, now: int): Standings {
    map w | w in m :: Judged(m[w], HasOld(batch, w, now), HasLate(batch, w, now))
  }

  /** The workspaces whose billing status became `to`. */
  ghost function MovedTo(before: Standings, after: Standings, to: BillingStatus): set<string> {
    set w | w in before && w in after && before[w].billing != to && after[w].billing == to
  }

  ghost predicate BecomesAt(before: Standings, after: Standings, w: string, to: BillingStatus) {
    w in before && w in after && before[w].billing != to && after[w].billing == to
  }

  ghost predicate Ascending(batch: seq<PendingRow>) {
    forall i, j :: 0 <= i < j < |batch| ==> batch[i].createdAt <= batch[j].createdAt
  }

  class DunningJob {
    var workspaces: Standings

    constructor (workspaces: Standings)
      ensures this.workspaces == workspaces
    {
      this.workspaces := workspaces;
    }

    method SetBillingStatus(w: string, to: BillingStatus) returns (ok: bool)
      modifies this
      ensures ok == (w in old(workspaces) && MayMove(old(workspaces)[w].billing, to))
      ensures workspaces == if ok then old(workspaces)[w := Standing(WorkspaceStatusFor(to), to)] else old(workspaces)
    {
      ok := w in workspaces && MayMove(workspaces[w].billing, to);
      if ok {
        workspaces := workspaces[w := Standing(WorkspaceStatusFor(to), to)];
      }
    }

    /** One turn of the loop. Transitions that the table forbids are skipped. */
    method Visit(p: PendingRow, now: int) returns (toPastDue: bool, toSuspended: bool)
      modifies this
      ensures workspaces == Visited(old(workspaces), p, now)
      ensures toPastDue == BecomesAt(old(workspaces), workspaces, p.workspaceId, BillingStatus.PastDue)
      ensures toSuspended == BecomesAt(old(workspaces), workspaces, p.workspaceId, BillingStatus.Suspended)
    {
      toPastDue, toSuspended := false, false;
      var w := p.workspaceId;
      if w !in workspaces { return; }
      if p.createdAt <= now - 7 * DAY && workspaces[w].billing != BillingStatus.Suspended {
        if MayMove(workspaces[w].billing, BillingStatus.Suspended) {
          toSuspended := SetBillingStatus(w, BillingStatus.Suspended);
        }
        return;
      }
      if p.createdAt <= now - 3 * DAY && workspaces[w].billing == BillingStatus.Active {
        if MayMove(workspaces[w].billing, BillingStatus.PastDue) {
          toPastDue := SetBillingStatus(w, BillingStatus.PastDue);
        }
      }
    }

    /** `batch` is the query's answer: pending payments, oldest first, at most 500 of them. */
    method RunDunningSweep(now: int, batch: seq<PendingRow>)
      returns (scanned: nat, movedToPastDue: nat, movedToSuspended: nat)
      requires Ascending(batch)
      modifies this
      ensures workspaces == SweptAll(old(workspaces), batch, now)
      ensures scanned == |batch|
      ensures movedToPastDue == |MovedTo(old(workspaces), workspaces, BillingStatus.PastDue)|
      ensures movedToSuspended == |MovedTo(old(workspaces), workspaces, BillingStatus.Suspended)|
    {
      hide *;
      ghost var before := workspaces;
      movedToPastDue, movedToSuspended := 0, 0;
      NoTurn(before, batch, now);
      var i := 0;
      while i < |batch|
        invariant 0 <= i <= |batch|
        invariant workspaces == SweptAll(before, batch[..i], now)
        invariant movedToPastDue == |MovedTo(before, workspaces, BillingStatus.PastDue)|
        invariant movedToSuspended == |MovedTo(before, workspaces, BillingStatus.Suspended)|
      {
        OneTurn(before, batch, i, now);
        var toPastDue, toSuspended := Visit(batch[i], now);
        if toPastDue { movedToPastDue := movedToPastDue + 1; }
        if toSuspended { movedToSuspended := movedToSuspended + 1; }
        i := i + 1;
      }
      assert batch[..|batch|] == batch;
      scanned := |batch|;
    }
  }

  /** One turn of the loop on the standings. */
  function Visited(m: Standings, p: PendingRow, now: int): Standings {
    var w := p.workspaceId;
    if w in m && IsOld(p.createdAt, now) && m[w].billing == BillingStatus.PastDue then
      m[w := Standing(WorkspaceStatusFor(BillingStatus.Suspended), BillingStatus.Suspended)]
    else if w in m && IsLate(p.createdAt, now) && m[w].billing == BillingStatus.Active then
      m[w := Standing(WorkspaceStatusFor(BillingStatus.PastDue), BillingStatus.PastDue)]
    else m
  }

  /** What one more payment adds to the flags of a workspace. */
  lemma FlagsGrow(batch: seq<PendingRow>, i: nat, now: int, w: string)
    requires i < |batch|
    ensures HasOld(batch[..i + 1], w, now)
            == (HasOld(batch[..i], w, now) || (batch[i].workspaceId == w && IsOld(batch[i].createdAt, now)))
    ensures HasLate(batch[..i + 1], w, now)
            == (HasLate(batch[..i], w, now) || (batch[i].workspaceId == w && IsLate(batch[i].createdAt, now)))
  {
  }

  lemma OldComesFirst(batch: seq<PendingRow>, i: nat, now: int, w: string)
    requires i < |batch| && Ascending(batch) && IsOld(batch[i].createdAt, now)
    ensures !HasLate(batch[..i], w, now)
  {
  }

  /** The loop follows the pointwise rule, because an old payment comes before every late one. */
  lemma VisitAddsOne(m: Standings, batch: seq<PendingRow>, i: nat, now: int)
    requires i < |batch| && Ascending(batch)
    ensures Visited(SweptAll(m, batch[..i], now), batch[i], now) == SweptAll(m, batch[..i + 1], now)
    ensures var w := batch[i].workspaceId;
            w in m && SweptAll(m, batch[..i + 1], now)[w] != SweptAll(m, batch[..i], now)[w]
            ==> SweptAll(m, batch[..i], now)[w] == m[w]
  {
    forall w | w in m
      ensures Visited(SweptAll(m, batch[..i], now), batch[i], now)[w] == SweptAll(m, batch[..i + 1], now)[w]
      ensures w == batch[i].workspaceId && SweptAll(m, batch[..i + 1], now)[w] != SweptAll(m, batch[..i], now)[w]
              ==> SweptAll(m, batch[..i], now)[w] == m[w]
    {
      FlagsGrow(batch, i, now, w);
      if IsOld(batch[i].createdAt, now) { OldComesFirst(batch, i, now, w); }
      hide HasOld;
      hide HasLate;
    }
  }

  /** When only `w` changes, and only once, the move set of a status grows by `w` or not at all. */
  lemma CountMove(before: Standings, mid: Standings, after: Standings, w: string, to: BillingStatus)
    requires before.Keys == mid.Keys == after.Keys
    requires forall v <- before :: v != w ==> after[v] == mid[v]
    requires w in mid && after[w] != mid[w] ==> mid[w] == before[w]
    ensures |MovedTo(before, after, to)|
            == |MovedTo(before, mid, to)| + if BecomesAt(mid, after, w, to) then 1 else 0
  {
    if BecomesAt(mid, after, w, to) {
      assert MovedTo(before, after, to) == MovedTo(before, mid, to) + {w};
    } else {
      assert MovedTo(before, after, to) == MovedTo(before, mid, to);
    }
  }

  lemma NoTurn(m: Standings, batch: seq<PendingRow>, now: int)
    ensures SweptAll(m, batch[..0], now) == m && forall to :: MovedTo(m, m, to) == {}
  {
  }

  /** What one turn of the loop has to add. */
  lemma OneTurn(m: Standings, batch: seq<PendingRow>, i: nat, now: int)
    requires i < |batch| && Ascending(batch)
    ensures var (w, mid, after) := (batch[i].workspaceId, SweptAll(m, batch[..i], now),
                                    SweptAll(m, batch[..i + 1], now));
            && Visited(mid, batch[i], now) == after
            && (forall to :: |MovedTo(m, after, to)|
                               == |MovedTo(m, mid, to)| + if BecomesAt(mid, after, w, to) then 1 else 0)
  {
    var (w, mid, after) := (batch[i].workspaceId, SweptAll(m, batch[..i], now), SweptAll(m, batch[..i + 1], now));
    VisitAddsOne(m, batch, i, now);
    assert forall v <- m :: v != w ==> after[v] == mid[v] by { assert after == Visited(mid, batch[i], now); }
    hide MovedTo;
    forall to ensures |MovedTo(m, after, to)| == |MovedTo(m, mid, to)| + if BecomesAt(mid, after, w, to) then 1 else 0 {
      CountMove(m, mid, after, w, to);
    }
  }

  // ---- consequences ----

  /**
   What a sweep does to a workspace, in days: PAST_DUE with a payment at least seven days old becomes
   SUSPENDED, ACTIVE with one at least three but less than seven days old becomes PAST_DUE, and nothing else
   changes.
   */
  lemma SweepMeans(m: Standings, batch: seq<PendingRow>, now: int, w: string)
    requires w in m
    ensures var st, st' := m[w], SweptAll(m, batch, now)[w];
            var hasOld := exists p <- batch :: p.workspaceId == w && now - p.createdAt >= 7 * 86_400_000;
            var hasLate := exists p <- batch ::
                             p.workspaceId == w && 3 * 86_400_000 <= now - p.createdAt < 7 * 86_400_000;
            if st.billing == BillingStatus.PastDue && hasOld then
              st' == Standing(WorkspaceStatus.Suspended, BillingStatus.Suspended)
            else if st.billing == BillingStatus.Active && hasLate then
              st' == Standing(WorkspaceStatus.PendingPayment, BillingStatus.PastDue)
            else st' == st
  {
    assert HasOld(batch, w, now) <==> exists p <- batch :: p.workspaceId == w && now - p.createdAt >= 7 * 86_400_000;
    assert HasLate(batch, w, now)
      <==> exists p <- batch :: p.workspaceId == w && 3 * 86_400_000 <= now - p.createdAt < 7 * 86_400_000;
  }

  /** One sweep never takes a workspace from ACTIVE to SUSPENDED. */
  lemma NoDoubleStep(m: Standings, batch: seq<PendingRow>, now: int, w: string)
    requires w in m && m[w].billing == BillingStatus.Active
    ensures SweptAll(m, batch, now)[w].billing
            == if HasLate(batch, w, now) then BillingStatus.PastDue else BillingStatus.Active
  {
  }

  /** An ACTIVE workspace whose only pending payment is at least seven days old is left ACTIVE by every later sweep. */
  lemma OldPaymentIsSkipped(createdAt: int, now: int)
    requires now >= createdAt + 7 * DAY
    ensures var m := map["w" := Standing(WorkspaceStatus.Active, BillingStatus.Active)];
            SweptAll(m, [PendingRow("w", createdAt)], now) == m
  {
  }

  /** When the billing overview says a workspace will be suspended for its pending payment; never for ACTIVE ones. */
  function SuspendAt(billing: BillingStatus, pendingSince: int): Option<int> {
    if billing == BillingStatus.Active then None else Some(pendingSince + 7 * DAY)
  }

  /**
   Once the announced moment has come, a sweep that sees the payment leaves the workspace SUSPENDED exactly
   when it was PAST_DUE or SUSPENDED before: PENDING_PAYMENT and CANCELLED may not move to SUSPENDED.
   */
  lemma AnnouncedSuspensionIff(m: Standings, batch: seq<PendingRow>, now: int, w: string, pendingSince: int)
    requires w in m && PendingRow(w, pendingSince) in batch
    requires SuspendAt(m[w].billing, pendingSince).Some? && SuspendAt(m[w].billing, pendingSince).value <= now
    ensures SweptAll(m, batch, now)[w].billing == BillingStatus.Suspended
            <==> m[w].billing in {BillingStatus.PastDue, BillingStatus.Suspended}
  {
    assert HasOld(batch, w, now);
  }

  /** At a fixed clock a third sweep changes nothing. */
  lemma TwoSweepsReachFixpoint(m: Standings, batch: seq<PendingRow>, now: int)
    ensures var twice := SweptAll(SweptAll(m, batch, now), batch, now);
            SweptAll(twice, batch, now) == twice
  {
  }

  /** One sweep is already the fixpoint exactly when no ACTIVE workspace has both an old and a late payment. */
  lemma OneSweepSufficesIff(m: Standings, batch: seq<PendingRow>, now: int)
    ensures var once := SweptAll(m, batch, now);
            SweptAll(once, batch, now) == once
            <==> forall w <- m :: !(m[w].billing == BillingStatus.Active && HasOld(batch, w, now)
                                            && HasLate(batch, w, now))
  {
  }
}
