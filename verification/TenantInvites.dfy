/** Tenant invites: created, resent, revoked and accepted, with one open invite per address and role. */
module TenantInvites {
  import opened Wrappers
  import opened SlidingWindow

  const LIMIT := 250
  const LIFETIME := 48 * HOUR

  datatype Role = OwnerAdmin | Manager | Technician | Guard | Resident | Staff

  /** An invite's id is its position in the table; its token is as unique as its id. */
  datatype Invite = Invite(workspaceId: string, email: string, role: Role,
                           createdAt: int, expiresAt: int, acceptedAt: Option<int>)

  datatype InviteError = RoleNotInvitable | NotAllowed | RateLimited | InviteNotFound | AlreadyAccepted
    | InviteUnusable | EmailMismatch | CodeRejected | UnitMismatch | MailFailed

  /** What happened to an invite, in order. */
  datatype Entry = Accepted(id: nat) | Revoked(id: nat)

  datatype State = State(invites: seq<Invite>, log: seq<Entry>, clock: int)

  /** The condition under which the code lets an invite be used. */
  predicate Open(i: Invite, now: int) { i.acceptedAt.None? && i.expiresAt > now }

  predicate SameKey(i: Invite, workspaceId: string, email: string, role: Role) {
    i.workspaceId == workspaceId && i.email == email && i.role == role
  }

  /** Creation times of the invites that the rate limit of a workspace and role counts. */
  function Stamps(invites: seq<Invite>, workspaceId: string, role: Role): seq<int> {
    if invites == [] then []
    else
      var last := invites[|invites| - 1];
      Stamps(invites[..|invites| - 1], workspaceId, role)
      + if last.workspaceId == workspaceId && last.role == role then [last.createdAt] else []
  }

  /** The bulk update that closes older open invites of the same address and role. */
  function Closed(invites: seq<Invite>, workspaceId: string, email: string, role: Role, now: int): seq<Invite> {
    seq(|invites|, i requires 0 <= i < |invites| =>
      if SameKey(invites[i], workspaceId, email, role) && Open(invites[i], now)
      then invites[i].(expiresAt := now) else invites[i])
  }

  /** `allowed` is the outcome of the membership, workspace and unit checks. */
  function Created(s: State, workspaceId: string, email: string, role: Role, allowed: bool)
    : (State, Option<InviteError>)
  {
    if role == OwnerAdmin then (s, Some(RoleNotInvitable))
    else if !allowed then (s, Some(NotAllowed))
    else if CountSince(Stamps(s.invites, workspaceId, role), s.clock - HOUR) >= LIMIT then (s, Some(RateLimited))
    else
      (s.(invites := Closed(s.invites, workspaceId, email, role, s.clock)
                     + [Invite(workspaceId, email, role, s.clock, s.clock + LIFETIME, None)]),
       None)
  }

  /** The mail goes out after the insert; when it throws, the caller gets the exception and the new row stays. */
  function AfterMail(error: Option<InviteError>, mailOk: bool): Option<InviteError> {
    if error.None? && !mailOk then Some(MailFailed) else error
  }

  /** The caller hears of a refusal, or else of a mail that threw, and is told nothing only when all went well. */
  lemma MailFailureIsReported(error: Option<InviteError>, mailOk: bool)
    ensures AfterMail(error, mailOk).None? <==> error.None? && mailOk
    ensures error.Some? ==> AfterMail(error, mailOk) == error
    ensures error.None? && !mailOk ==> AfterMail(error, mailOk) == Some(MailFailed)
  {
  }

  function Resent(s: State, workspaceId: string, id: nat, allowed: bool): (State, Option<InviteError>) {
    if !allowed then (s, Some(NotAllowed))
    else if id >= |s.invites| || s.invites[id].workspaceId != workspaceId then (s, Some(InviteNotFound))
    else if s.invites[id].acceptedAt.Some? then (s, Some(AlreadyAccepted))
    else Created(s, workspaceId, s.invites[id].email, s.invites[id].role, allowed)
  }

  function RevokedIn(s: State, workspaceId: string, id: nat, allowed: bool): (State, Option<InviteError>) {
    if !allowed then (s, Some(NotAllowed))
    else if id >= |s.invites| || s.invites[id].workspaceId != workspaceId then (s, Some(InviteNotFound))
    else if s.invites[id].acceptedAt.Some? then (s, Some(AlreadyAccepted))
    else (s.(invites := s.invites[id := s.invites[id].(expiresAt := s.clock)], log := s.log + [Revoked(id)]), None)
  }

  /** `codeOk` and `unitOk` are the outcomes of the code check and of the unit check behind it. */
  function AcceptedIn(s: State, id: nat, email: string, codeOk: bool, unitOk: bool): (State, Option<InviteError>) {
    if id >= |s.invites| || !Open(s.invites[id], s.clock) then (s, Some(InviteUnusable))
    else if s.invites[id].email != email then (s, Some(EmailMismatch))
    else if !codeOk then (s, Some(CodeRejected))
    else if !unitOk then (s, Some(UnitMismatch))
    else (s.(invites := s.invites[id := s.invites[id].(acceptedAt := Some(s.clock))], log := s.log + [Accepted(id)]),
          None)
  }

  datatype Op =
    | Create(workspaceId: string, email: string, role: Role, allowed: bool)
    | Resend(workspaceId: string, id: nat, allowed: bool)
    | Revoke(workspaceId: string, id: nat, allowed: bool)
    | Accept(id: nat, email: string, codeOk: bool, unitOk: bool)
    | Tick(ms: nat)

  function Step(s: State, op: Op): State {
    match op
    case Create(w, e, r, allowed) => Created(s, w, e, r, allowed).0
    case Resend(w, id, allowed) => Resent(s, w, id, allowed).0
    case Revoke(w, id, allowed) => RevokedIn(s, w, id, allowed).0
    case Accept(id, e, codeOk, unitOk) => AcceptedIn(s, id, e, codeOk, unitOk).0
    case Tick(ms) => s.(clock := s.clock + ms)
  }

  function Run(s: State, ops: seq<Op>): State
    decreases |ops|
  {
    if ops == [] then s else Run(Step(s, ops[0]), ops[1..])
  }

  // ---- what every run keeps ----

  ghost predicate OneOpenEach(s: State) {
    forall i, j :: 0 <= i < j < |s.invites|
                   && SameKey(s.invites[j], s.invites[i].workspaceId, s.invites[i].email, s.invites[i].role)
                   ==> !(Open(s.invites[i], s.clock) && Open(s.invites[j], s.clock))
  }

  /** An invite that was accepted or revoked is not open, and no entry accepts it afterwards. */
  ghost predicate UsedUp(s: State) {
    && (forall k :: 0 <= k < |s.log| ==> s.log[k].id < |s.invites| && !Open(s.invites[s.log[k].id], s.clock))
    && (forall k, m :: 0 <= k < m < |s.log| && s.log[m].Accepted? ==> s.log[k].id != s.log[m].id)
  }

  ghost predicate WithinLimit(s: State) { AllRatesKept(s.invites, s.clock) }

  ghost predicate AllRatesKept(invites: seq<Invite>, now: int) {
    forall w, r :: RateKept(invites, w, r, now)
  }

  ghost predicate RateKept(invites: seq<Invite>, w: string, r: Role, now: int) {
    var stamps := Stamps(invites, w, r);
    Sorted(stamps) && SpacedOut(stamps, LIMIT) && NotAfter(stamps, now)
  }

  ghost predicate Inv(s: State) { OneOpenEach(s) && UsedUp(s) && WithinLimit(s) }

  /** Stamps depend only on the columns that no update touches. */
  lemma {:induction false} StampsOfUpdated(a: seq<Invite>, b: seq<Invite>, w: string, r: Role)
    requires |a| == |b|
    requires forall i :: 0 <= i < |a| ==>
               a[i].workspaceId == b[i].workspaceId && a[i].role == b[i].role && a[i].createdAt == b[i].createdAt
    ensures Stamps(a, w, r) == Stamps(b, w, r)
  {
    if a == [] {
    } else {
      StampsOfUpdated(a[..|a| - 1], b[..|b| - 1], w, r);
    }
  }

  lemma CreateKeepsOneOpen(s: State, w: string, e: string, r: Role, allowed: bool)
    requires OneOpenEach(s)
    ensures OneOpenEach(Created(s, w, e, r, allowed).0)
  {
    hide Stamps;
    hide CountSince;
  }

  lemma CreateKeepsUsedUp(s: State, w: string, e: string, r: Role, allowed: bool)
    requires UsedUp(s)
    ensures UsedUp(Created(s, w, e, r, allowed).0)
  {
    hide Stamps;
    hide CountSince;
  }

  /** The rows of one limiter after an insert: the new one counts for its own workspace and role only. */
  lemma InsertKeepsRate(invites: seq<Invite>, added: Invite, w: string, r: Role)
    requires RateKept(invites, w, r, added.createdAt)
    requires CountSince(Stamps(invites, added.workspaceId, added.role), added.createdAt - HOUR) < LIMIT
    ensures RateKept(invites + [added], w, r, added.createdAt)
  {
    StampsGrow(invites, added, w, r);
    hide Stamps;
    hide CountSince;
    if w == added.workspaceId && r == added.role {
      InsertKeepsSpacing(Stamps(invites, w, r), LIMIT, added.createdAt);
    }
  }

  lemma StampsGrow(invites: seq<Invite>, added: Invite, w: string, r: Role)
    ensures Stamps(invites + [added], w, r)
            == if w == added.workspaceId && r == added.role then Stamps(invites, w, r) + [added.createdAt]
               else Stamps(invites, w, r)
  {
    var longer := invites + [added];
    assert longer[..|longer| - 1] == invites && longer[|longer| - 1] == added;
  }

  lemma CloseKeepsStamps(invites: seq<Invite>, w: string, e: string, r: Role, now: int, w1: string, r1: Role)
    ensures Stamps(Closed(invites, w, e, r, now), w1, r1) == Stamps(invites, w1, r1)
    ensures RateKept(Closed(invites, w, e, r, now), w1, r1, now) == RateKept(invites, w1, r1, now)
  {
    StampsOfUpdated(invites, Closed(invites, w, e, r, now), w1, r1);
  }

  lemma InsertKeepsAllRates(invites: seq<Invite>, added: Invite)
    requires AllRatesKept(invites, added.createdAt)
    requires CountSince(Stamps(invites, added.workspaceId, added.role), added.createdAt - HOUR) < LIMIT
    ensures AllRatesKept(invites + [added], added.createdAt)
  {
    hide RateKept;
    hide Stamps;
    forall w, r ensures RateKept(invites + [added], w, r, added.createdAt) {
      InsertKeepsRate(invites, added, w, r);
    }
  }

  lemma CloseKeepsAllRates(invites: seq<Invite>, w: string, e: string, r: Role, now: int)
    requires AllRatesKept(invites, now)
    ensures AllRatesKept(Closed(invites, w, e, r, now), now)
  {
    hide RateKept;
    hide Stamps;
    forall w1, r1 ensures RateKept(Closed(invites, w, e, r, now), w1, r1, now) {
      CloseKeepsStamps(invites, w, e, r, now, w1, r1);
    }
  }

  lemma CreateKeepsLimit(s: State, w: string, e: string, r: Role, allowed: bool)
    requires WithinLimit(s)
    ensures WithinLimit(Created(s, w, e, r, allowed).0)
  {
    hide AllRatesKept;
    hide Stamps;
    hide CountSince;
    hide Closed;
    var (s', error) := Created(s, w, e, r, allowed);
    if error.None? {
      CloseKeepsAllRates(s.invites, w, e, r, s.clock);
      CloseKeepsStamps(s.invites, w, e, r, s.clock, w, r);
      InsertKeepsAllRates(Closed(s.invites, w, e, r, s.clock), Invite(w, e, r, s.clock, s.clock + LIFETIME, None));
    }
  }

  lemma CreateKeepsInv(s: State, w: string, e: string, r: Role, allowed: bool)
    requires Inv(s)
    ensures Inv(Created(s, w, e, r, allowed).0)
  {
    hide Created;
    hide OneOpenEach;
    hide UsedUp;
    hide WithinLimit;
    CreateKeepsOneOpen(s, w, e, r, allowed);
    CreateKeepsUsedUp(s, w, e, r, allowed);
    CreateKeepsLimit(s, w, e, r, allowed);
  }

  lemma UpdateKeepsRates(s: State, s': State)
    requires WithinLimit(s) && s.clock <= s'.clock && |s.invites| == |s'.invites|
    requires forall i :: 0 <= i < |s.invites| ==>
               s.invites[i].workspaceId == s'.invites[i].workspaceId && s.invites[i].role == s'.invites[i].role
               && s.invites[i].createdAt == s'.invites[i].createdAt
    ensures WithinLimit(s')
  {
    forall w, r ensures RateKept(s'.invites, w, r, s'.clock) {
      assert RateKept(s.invites, w, r, s.clock);
      StampsOfUpdated(s.invites, s'.invites, w, r);
    }
  }

  lemma UseKeepsInv(s: State, op: Op)
    requires Inv(s) && (op.Revoke? || op.Accept? || op.Tick?)
    ensures Inv(Step(s, op))
  {
    UpdateKeepsRates(s, Step(s, op));
    hide WithinLimit;
    hide Created;
    hide Resent;
  }

  lemma StepKeepsInv(s: State, op: Op)
    requires Inv(s)
    ensures Inv(Step(s, op))
  {
    hide Inv;
    hide Created;
    match op {
      case Create(w, e, r, allowed) => CreateKeepsInv(s, w, e, r, allowed);
      case Resend(w, id, allowed) =>
        if id < |s.invites| { CreateKeepsInv(s, w, s.invites[id].email, s.invites[id].role, allowed); }
      case Revoke(_, _, _) | Accept(_, _, _, _) | Tick(_) => UseKeepsInv(s, op);
    }
  }

  lemma {:induction false} RunKeepsInv(s: State, ops: seq<Op>)
    requires Inv(s)
    ensures Inv(Run(s, ops))
    decreases |ops|
  {
    if ops == [] {
    } else {
      StepKeepsInv(s, ops[0]);
      RunKeepsInv(Step(s, ops[0]), ops[1..]);
    }
  }

  function Empty(clock: int): State { State([], [], clock) }

  /** After any run, two different open invites never share workspace, email and role. */
  lemma AtMostOneOpen(clock: int, ops: seq<Op>, i: nat, j: nat)
    requires i < |Run(Empty(clock), ops).invites| && j < |Run(Empty(clock), ops).invites|
    requires var s := Run(Empty(clock), ops);
             Open(s.invites[i], s.clock) && Open(s.invites[j], s.clock)
             && SameKey(s.invites[i], s.invites[j].workspaceId, s.invites[j].email, s.invites[j].role)
    ensures i == j
  {
    RunKeepsInv(Empty(clock), ops);
  }

  /** A successful create leaves its invite as the one open invite of its address and role. */
  lemma CreateOpensExactlyOne(s: State, w: string, e: string, r: Role, allowed: bool, i: nat)
    requires Created(s, w, e, r, allowed).1.None?
    requires i < |Created(s, w, e, r, allowed).0.invites| && SameKey(Created(s, w, e, r, allowed).0.invites[i], w, e, r)
    ensures Open(Created(s, w, e, r, allowed).0.invites[i], s.clock) <==> i == |s.invites|
  {
    hide Stamps;
    hide CountSince;
  }

  /** No invite is accepted twice or after it was revoked. */
  lemma AcceptedOnceAndNotAfterRevocation(clock: int, ops: seq<Op>, k: nat, m: nat)
    requires k < m < |Run(Empty(clock), ops).log| && Run(Empty(clock), ops).log[m].Accepted?
    ensures Run(Empty(clock), ops).log[k].id != Run(Empty(clock), ops).log[m].id
  {
    RunKeepsInv(Empty(clock), ops);
  }

  /** In any hour of any run, at most 250 invites are created per workspace and role. */
  lemma InvitesPerHour(clock: int, ops: seq<Op>, w: string, r: Role, hi: int)
    ensures CountIn(Stamps(Run(Empty(clock), ops).invites, w, r), hi - HOUR, hi) <= 250
  {
    RunKeepsInv(Empty(clock), ops);
    var s := Run(Empty(clock), ops);
    assert RateKept(s.invites, w, r, s.clock);
    EveryWindowIsBounded(Stamps(s.invites, w, r), LIMIT, hi);
  }

  // ---- what the handlers accept, and what they write ----

  /** A create is refused for exactly these reasons; else it closes the open invites of the key and adds one. */
  lemma CreateAcceptedIff(s: State, w: string, e: string, r: Role, allowed: bool)
    ensures var (s', error) := Created(s, w, e, r, allowed);
            && (error.None? <==>
                  r != OwnerAdmin && allowed && CountSince(Stamps(s.invites, w, r), s.clock - 3_600_000) < 250)
            && (error.Some? ==> s' == s)
            && (error.None? ==>
                  && |s'.invites| == |s.invites| + 1 && s' == s.(invites := s'.invites)
                  && s'.invites[|s.invites|] == Invite(w, e, r, s.clock, s.clock + 48 * 3_600_000, None)
                  && forall i :: 0 <= i < |s.invites| ==>
                       var i0 := s.invites[i];
                       s'.invites[i] == if i0.workspaceId == w && i0.email == e && i0.role == r
                                           && i0.acceptedAt.None? && i0.expiresAt > s.clock
                                        then i0.(expiresAt := s.clock) else i0)
  {
    hide Stamps;
    hide CountSince;
  }

  /** An accept goes through exactly for an open invite of this address, with the right code and unit. */
  lemma AcceptedIff(s: State, id: nat, email: string, codeOk: bool, unitOk: bool)
    ensures var (s', error) := AcceptedIn(s, id, email, codeOk, unitOk);
            && (error.None? <==> && id < |s.invites| && s.invites[id].acceptedAt.None?
                                 && s.invites[id].expiresAt > s.clock && s.invites[id].email == email
                                 && codeOk && unitOk)
            && (error.Some? ==> s' == s)
            && (error.None? ==>
                  && |s'.invites| == |s.invites| && s'.clock == s.clock && s'.log == s.log + [Accepted(id)]
                  && s'.invites[id] == s.invites[id].(acceptedAt := Some(s.clock))
                  && forall i :: 0 <= i < |s.invites| && i != id ==> s'.invites[i] == s.invites[i])
  {
  }

  /** A revoke goes through exactly for an unaccepted invite of the workspace, which expires at once. */
  lemma RevokedIff(s: State, w: string, id: nat, allowed: bool)
    ensures var (s', error) := RevokedIn(s, w, id, allowed);
            && (error.None? <==>
                  allowed && id < |s.invites| && s.invites[id].workspaceId == w && s.invites[id].acceptedAt.None?)
            && (error.Some? ==> s' == s)
            && (error.None? ==>
                  && |s'.invites| == |s.invites| && s'.clock == s.clock && s'.log == s.log + [Revoked(id)]
                  && s'.invites[id] == s.invites[id].(expiresAt := s.clock) && !Open(s'.invites[id], s'.clock)
                  && forall i :: 0 <= i < |s.invites| && i != id ==> s'.invites[i] == s.invites[i])
  {
  }

  /** A resend goes through exactly for an unaccepted invite of the workspace within the limit, and opens a copy. */
  lemma ResentIff(s: State, w: string, id: nat, allowed: bool)
    ensures var (s', error) := Resent(s, w, id, allowed);
            && (error.None? <==>
                  && allowed && id < |s.invites| && s.invites[id].workspaceId == w && s.invites[id].acceptedAt.None?
                  && s.invites[id].role != OwnerAdmin
                  && CountSince(Stamps(s.invites, w, s.invites[id].role), s.clock - 3_600_000) < 250)
            && (error.Some? ==> s' == s)
            && (error.None? ==>
                  && |s'.invites| == |s.invites| + 1 && !Open(s'.invites[id], s'.clock)
                  && s'.invites[|s.invites|] == Invite(w, s.invites[id].email, s.invites[id].role,
                                                       s.clock, s.clock + 48 * 3_600_000, None))
  {
    hide Stamps;
    hide CountSince;
  }

  // ---- the handlers in place ----

  class InviteService {
    var invites: seq<Invite>
    ghost var log: seq<Entry>
    var clock: int

    ghost function Contents(): State
      reads this
    {
      State(invites, log, clock)
    }

    constructor (clock: int)
      ensures Contents() == Empty(clock)
    {
      invites, log := [], [];
      this.clock := clock;
    }

    method CreateTenantInvite(workspaceId: string, email: string, role: Role, allowed: bool, mailOk: bool)
      returns (error: Option<InviteError>)
      modifies this
      ensures Contents() == Created(old(Contents()), workspaceId, email, role, allowed).0
      ensures error == AfterMail(Created(old(Contents()), workspaceId, email, role, allowed).1, mailOk)
    {
      if role == OwnerAdmin { return Some(RoleNotInvitable); }
      if !allowed { return Some(NotAllowed); }
      var sentLastHour := CountSince(Stamps(invites, workspaceId, role), clock - HOUR);
      if sentLastHour >= LIMIT { return Some(RateLimited); }
      invites := Closed(invites, workspaceId, email, role, clock);
      invites := invites + [Invite(workspaceId, email, role, clock, clock + LIFETIME, None)];
      return if mailOk then None else Some(MailFailed);
    }

    method ResendTenantInvite(workspaceId: string, id: nat, allowed: bool, mailOk: bool)
      returns (error: Option<InviteError>)
      modifies this
      ensures Contents() == Resent(old(Contents()), workspaceId, id, allowed).0
      ensures error == AfterMail(Resent(old(Contents()), workspaceId, id, allowed).1, mailOk)
    {
      if !allowed { return Some(NotAllowed); }
      if id >= |invites| || invites[id].workspaceId != workspaceId { return Some(InviteNotFound); }
      if invites[id].acceptedAt.Some? { return Some(AlreadyAccepted); }
      error := CreateTenantInvite(workspaceId, invites[id].email, invites[id].role, allowed, mailOk);
    }

    method RevokeTenantInvite(workspaceId: string, id: nat, allowed: bool) returns (error: Option<InviteError>)
      modifies this
      ensures (Contents(), error) == RevokedIn(old(Contents()), workspaceId, id, allowed)
    {
      if !allowed { return Some(NotAllowed); }
      if id >= |invites| || invites[id].workspaceId != workspaceId { return Some(InviteNotFound); }
      if invites[id].acceptedAt.Some? { return Some(AlreadyAccepted); }
      invites := invites[id := invites[id].(expiresAt := clock)];
      log := log + [Revoked(id)];
      return None;
    }

    method AcceptTenantInvite(id: nat, email: string, codeOk: bool, unitOk: bool) returns (error: Option<InviteError>)
      modifies this
      ensures (Contents(), error) == AcceptedIn(old(Contents()), id, email, codeOk, unitOk)
    {
      if id >= |invites| || invites[id].acceptedAt.Some? || invites[id].expiresAt <= clock {
        return Some(InviteUnusable);
      }
      if invites[id].email != email { return Some(EmailMismatch); }
      if !codeOk { return Some(CodeRejected); }
      if !unitOk { return Some(UnitMismatch); }
      invites := invites[id := invites[id].(acceptedAt := Some(clock))];
      log := log + [Accepted(id)];
      return None;
    }
  }
}
