/**
 One-time codes for login, invite acceptance and owner verification, in one table. Login and invite
 codes carry an attempt counter; owner codes are limited at creation instead.
 */
module OneTimeCodes {
  import opened Wrappers
  import opened SlidingWindow

  const MAX_ATTEMPTS := 5
  const CODE_LIFETIME := 600_000
  const RESEND_PAUSE := 30_000
  const OWNER_LIMIT := 8

  datatype Purpose = OwnerVerify | InviteAccept | Login

  /** Whom a code is for. Login and invite codes are looked up by user alone, so their workspace is left empty here. */
  datatype Audience = Audience(purpose: Purpose, workspaceId: string, userId: string)

  /** `secret` stands for the hashed code; verifying a guess against the hash is equality. */
  datatype Code = Code(audience: Audience, secret: int, createdAt: int, expiresAt: int, attempts: nat, consumed: bool)

  datatype CodeError = TooManyRequests | NotPending | PleaseWait | InvalidOrExpired
    | TooManyAttempts | WrongCode | UnitMismatch | MailFailed

  /** One comparison of a guess with the code of that id. */
  datatype Compared = Compared(id: nat, guess: int)

  datatype State = State(codes: seq<Code>, log: seq<Compared>, sessions: nat, clock: int)

  predicate Budgeted(a: Audience) { a.purpose != OwnerVerify }

  /** The latest code of an audience that is unconsumed and, if asked for, unexpired. */
  function Latest(codes: seq<Code>, a: Audience, aliveAt: Option<int>): (r: Option<nat>)
    ensures r.Some? ==> r.value < |codes| && codes[r.value].audience == a && !codes[r.value].consumed
    ensures r.Some? && aliveAt.Some? ==> codes[r.value].expiresAt > aliveAt.value
  {
    if codes == [] then None
    else
      var last := codes[|codes| - 1];
      if last.audience == a && !last.consumed && (aliveAt.Some? ==> last.expiresAt > aliveAt.value)
      then Some(|codes| - 1) else Latest(codes[..|codes| - 1], a, aliveAt)
  }

  function Stamps(codes: seq<Code>, a: Audience): seq<int> {
    if codes == [] then []
    else
      var last := codes[|codes| - 1];
      Stamps(codes[..|codes| - 1], a) + if last.audience == a then [last.createdAt] else []
  }

  /** sendLoginOtp, beginAcceptTenantInvite and sendOwnerEmailOtp; only the last has an hourly limit. */
  function Sent(s: State, a: Audience, secret: int, allowed: bool): (State, Option<CodeError>) {
    if a.purpose == OwnerVerify && CountSince(Stamps(s.codes, a), s.clock - HOUR) >= OWNER_LIMIT
    then (s, Some(TooManyRequests))
    else if !allowed then (s, Some(NotPending))
    else
      var latest := Latest(s.codes, a, None);
      if latest.Some? && s.clock - s.codes[latest.value].createdAt < RESEND_PAUSE then (s, Some(PleaseWait))
      else (s.(codes := s.codes + [Code(a, secret, s.clock, s.clock + CODE_LIFETIME, 0, false)]), None)
  }

  /** The check of verifyLoginOtp and acceptTenantInvite. `unitOk` is the invite's later unit check. */
  function Verified(s: State, a: Audience, guess: int, unitOk: bool): (State, Option<CodeError>) {
    var found := Latest(s.codes, a, Some(s.clock));
    if found.None? then (s, Some(InvalidOrExpired))
    else
      var id := found.value;
      var code := s.codes[id];
      if code.attempts >= MAX_ATTEMPTS then
        (s.(codes := s.codes[id := code.(consumed := true)]), Some(TooManyAttempts))
      else if guess != code.secret then
        (s.(codes := s.codes[id := code.(attempts := code.attempts + 1)], log := s.log + [Compared(id, guess)]),
         Some(WrongCode))
      else
        var s' := s.(codes := s.codes[id := code.(consumed := true)], log := s.log + [Compared(id, guess)]);
        if unitOk then (s'.(sessions := s'.sessions + 1), None) else (s', Some(UnitMismatch))
  }

  /** The check of verifyOwnerEmailOtp: no attempt counter, and no session is issued. */
  function OwnerVerified(s: State, a: Audience, guess: int, allowed: bool): (State, Option<CodeError>) {
    var found := Latest(s.codes, a, Some(s.clock));
    if !allowed then (s, Some(NotPending))
    else if found.None? then (s, Some(InvalidOrExpired))
    else if guess != s.codes[found.value].secret then (s, Some(WrongCode))
    else (s.(codes := s.codes[found.value := s.codes[found.value].(consumed := true)]), None)
  }

  datatype Op =
    | Send(audience: Audience, secret: int, allowed: bool)
    | Verify(audience: Audience, guess: int, ok: bool)
    | Tick(ms: nat)

  function Step(s: State, op: Op): State {
    match op
    case Send(a, secret, allowed) => Sent(s, a, secret, allowed).0
    case Verify(a, guess, ok) => if Budgeted(a) then Verified(s, a, guess, ok).0 else OwnerVerified(s, a, guess, ok).0
    case Tick(ms) => s.(clock := s.clock + ms)
  }

  function Run(s: State, ops: seq<Op>): State
    decreases |ops|
  {
    if ops == [] then s else Run(Step(s, ops[0]), ops[1..])
  }

  function Empty(clock: int): State { State([], [], 0, clock) }

  // ---- the guess budget ----

  /** The comparisons with a code that guessed its secret, or that did not. */
  function Guesses(log: seq<Compared>, id: nat, secret: int, right: bool): nat {
    if log == [] then 0
    else Guesses(log[..|log| - 1], id, secret, right) + if Counts(log[|log| - 1], id, secret, right) then 1 else 0
  }

  predicate Counts(entry: Compared, id: nat, secret: int, right: bool) {
    entry.id == id && (entry.guess == secret <==> right)
  }

  function RightGuesses(s: State, id: nat): nat
    requires id < |s.codes|
  {
    Guesses(s.log, id, s.codes[id].secret, true)
  }

  function WrongGuesses(s: State, id: nat): nat
    requires id < |s.codes|
  {
    Guesses(s.log, id, s.codes[id].secret, false)
  }

  /** How many login and invite codes there are, and how many of them are consumed. */
  function Issued(codes: seq<Code>): nat {
    if codes == [] then 0
    else Issued(codes[..|codes| - 1]) + if Budgeted(codes[|codes| - 1].audience) then 1 else 0
  }

  function Spent(codes: seq<Code>): nat {
    if codes == [] then 0
    else
      var last := codes[|codes| - 1];
      Spent(codes[..|codes| - 1]) + if Budgeted(last.audience) && last.consumed then 1 else 0
  }

  /** The counter is the number of wrong guesses; a right guess consumes the code; five comparisons at most. */
  predicate Accounted(code: Code, wrong: nat, right: nat) {
    Budgeted(code.audience) ==>
      && code.attempts == wrong && wrong + right <= MAX_ATTEMPTS
      && right <= 1 && (right == 1 ==> code.consumed)
  }

  ghost predicate Inv(s: State) {
    && (forall k :: 0 <= k < |s.log| ==> s.log[k].id < |s.codes|)
    && (forall i :: 0 <= i < |s.codes| ==> Accounted(s.codes[i], WrongGuesses(s, i), RightGuesses(s, i)))
    && s.sessions <= Spent(s.codes)
  }

  lemma {:induction false} SpentIsBounded(codes: seq<Code>)
    ensures Spent(codes) <= Issued(codes)
  {
    if codes == [] {
    } else {
      SpentIsBounded(codes[..|codes| - 1]);
    }
  }

  /** Consuming one more code raises the count by one; other updates of a row leave it. */
  lemma {:induction false} SpendOne(codes: seq<Code>, id: nat, code: Code)
    requires id < |codes| && code.audience == codes[id].audience && (codes[id].consumed ==> code.consumed)
    ensures Spent(codes[id := code])
            == Spent(codes) + if Budgeted(code.audience) && code.consumed && !codes[id].consumed then 1 else 0
  {
    var front := codes[..|codes| - 1];
    if id == |codes| - 1 {
      assert codes[id := code][..|codes| - 1] == front;
    } else {
      SpendOne(front, id, code);
      assert codes[id := code][..|codes| - 1] == front[id := code];
    }
  }

  lemma {:induction false} UnknownCode(log: seq<Compared>, id: nat)
    requires forall k :: 0 <= k < |log| ==> log[k].id < id
    ensures forall secret, right :: Guesses(log, id, secret, right) == 0
  {
    if log == [] {
    } else {
      UnknownCode(log[..|log| - 1], id);
    }
  }

  lemma NewCodeKeepsInv(s: State, code: Code)
    requires Inv(s) && code.attempts == 0 && !code.consumed
    ensures Inv(s.(codes := s.codes + [code]))
  {
    var codes := s.codes + [code];
    assert codes[..|s.codes|] == s.codes;
    assert Spent(codes) == Spent(s.codes);
    UnknownCode(s.log, |s.codes|);
    hide Spent;
    hide Guesses;
  }

  lemma SendKeepsInv(s: State, a: Audience, secret: int, allowed: bool)
    requires Inv(s)
    ensures Inv(Sent(s, a, secret, allowed).0)
  {
    hide Inv;
    hide Stamps;
    hide CountSince;
    hide Latest;
    NewCodeKeepsInv(s, Code(a, secret, s.clock, s.clock + CODE_LIFETIME, 0, false));
  }

  /** One more comparison counts for its own code only. */
  lemma OneMoreGuess(log: seq<Compared>, entry: Compared)
    ensures forall i, secret, right :: Guesses(log + [entry], i, secret, right)
                                       == Guesses(log, i, secret, right)
                                          + if Counts(entry, i, secret, right) then 1 else 0
  {
    assert (log + [entry])[..|log|] == log;
  }

  lemma VerifyKeepsInv(s: State, a: Audience, guess: int, unitOk: bool)
    requires Inv(s) && Budgeted(a)
    ensures Inv(Verified(s, a, guess, unitOk).0)
  {
    var found := Latest(s.codes, a, Some(s.clock));
    if found.None? { return; }
    var id := found.value;
    var s' := Verified(s, a, guess, unitOk).0;
    SpendOne(s.codes, id, s'.codes[id]);
    OneMoreGuess(s.log, Compared(id, guess));
    hide Guesses;
    hide Spent;
    hide Latest;
    assert Accounted(s.codes[id], WrongGuesses(s, id), RightGuesses(s, id));
  }

  lemma OwnerKeepsInv(s: State, a: Audience, guess: int, allowed: bool)
    requires Inv(s) && !Budgeted(a)
    ensures Inv(OwnerVerified(s, a, guess, allowed).0)
  {
    var s' := OwnerVerified(s, a, guess, allowed).0;
    var found := Latest(s.codes, a, Some(s.clock));
    if found.Some? { SpendOne(s.codes, found.value, s'.codes[found.value]); }
  }

  lemma {:induction false} RunKeepsInv(s: State, ops: seq<Op>)
    requires Inv(s)
    ensures Inv(Run(s, ops))
    decreases |ops|
  {
    if ops == [] {
    } else {
      match ops[0] {
        case Send(a, secret, allowed) => SendKeepsInv(s, a, secret, allowed);
        case Verify(a, guess, ok) =>
          if Budgeted(a) { VerifyKeepsInv(s, a, guess, ok); } else { OwnerKeepsInv(s, a, guess, ok); }
        case Tick(_) =>
      }
      hide Sent;
      hide Verified;
      hide OwnerVerified;
      RunKeepsInv(Step(s, ops[0]), ops[1..]);
    }
  }

  /**
   Over any run each login or invite code is compared at most five times and accepted at most once, its
   attempts column is the number of wrong guesses, and sessions never outnumber the codes issued.
   */
  lemma GuessBudget(clock: int, ops: seq<Op>, id: nat)
    requires id < |Run(Empty(clock), ops).codes|
    requires Run(Empty(clock), ops).codes[id].audience.purpose in {Login, InviteAccept}
    ensures var s := Run(Empty(clock), ops);
            var wrong, right := WrongGuesses(s, id), RightGuesses(s, id);
            && s.codes[id].attempts == wrong
            && wrong + right <= 5 && right <= 1
            && s.sessions <= |LoginAndInviteCodes(s.codes)|
  {
    RunKeepsInv(Empty(clock), ops);
    SpentIsBounded(Run(Empty(clock), ops).codes);
    IssuedIsCount(Run(Empty(clock), ops).codes);
  }

  ghost function LoginAndInviteCodes(codes: seq<Code>): set<nat> {
    set id: nat | id < |codes| && codes[id].audience.purpose in {Login, InviteAccept}
  }

  lemma {:induction false} IssuedIsCount(codes: seq<Code>)
    ensures Issued(codes) == |LoginAndInviteCodes(codes)|
  {
    if codes == [] {
    } else {
      var front, n := codes[..|codes| - 1], |codes| - 1;
      IssuedIsCount(front);
      if Budgeted(codes[n].audience) {
        assert LoginAndInviteCodes(codes) == LoginAndInviteCodes(front) + {n};
      } else {
        assert LoginAndInviteCodes(codes) == LoginAndInviteCodes(front);
      }
    }
  }

  // ---- which code counts, and which guess is right ----

  /** A code of the audience that can still be used. */
  predicate Usable(code: Code, a: Audience, now: int) {
    code.audience == a && !code.consumed && code.expiresAt > now
  }

  /** The last usable code of the audience. */
  predicate IsCurrent(s: State, a: Audience, id: nat) {
    id < |s.codes| && Usable(s.codes[id], a, s.clock)
    && forall later :: id < later < |s.codes| ==> !Usable(s.codes[later], a, s.clock)
  }

  predicate NoneIsUsable(s: State, a: Audience) {
    forall id :: 0 <= id < |s.codes| ==> !Usable(s.codes[id], a, s.clock)
  }

  lemma {:induction false} LatestIsCurrent(codes: seq<Code>, a: Audience, now: int, id: nat)
    requires id < |codes| && Usable(codes[id], a, now)
    requires forall later :: id < later < |codes| ==> !Usable(codes[later], a, now)
    ensures Latest(codes, a, Some(now)) == Some(id)
  {
    if id == |codes| - 1 {
    } else {
      assert !Usable(codes[|codes| - 1], a, now);
      LatestIsCurrent(codes[..|codes| - 1], a, now, id);
    }
  }

  /**
   A login or invite code under a guess: only the last usable code is looked at. Below five wrong guesses
   the secret consumes it and, with the right unit, opens a session; any other guess is charged to it and
   answered as wrong. At five it is burnt, whatever the guess.
   */
  lemma VerifyMeans(s: State, a: Audience, guess: int, unitOk: bool, id: nat)
    requires IsCurrent(s, a, id)
    ensures var (s', error) := Verified(s, a, guess, unitOk);
            var code, code' := s.codes[id], s'.codes[id];
            var right := guess == code.secret;
            && |s'.codes| == |s.codes| && (forall i :: 0 <= i < |s.codes| && i != id ==> s'.codes[i] == s.codes[i])
            && code' == code.(attempts := code'.attempts, consumed := code'.consumed)
            && (error == Some(TooManyAttempts) <==> code.attempts >= 5)
            && (error == Some(WrongCode) <==> code.attempts < 5 && !right)
            && (error.None? <==> code.attempts < 5 && right && unitOk)
            && s'.sessions == s.sessions + (if code.attempts < 5 && right && unitOk then 1 else 0)
            && code'.attempts == code.attempts + (if code.attempts < 5 && !right then 1 else 0)
            && (code'.consumed <==> right || code.attempts >= 5)
            && s'.log == s.log + (if code.attempts < 5 then [Compared(id, guess)] else [])
  {
    LatestIsCurrent(s.codes, a, s.clock, id);
    hide Latest;
  }

  /** An owner code is consumed by its secret, while the workspace awaits it; any other guess changes nothing. */
  lemma OwnerVerifyMeans(s: State, a: Audience, guess: int, pending: bool, id: nat)
    requires IsCurrent(s, a, id)
    ensures var (s', error) := OwnerVerified(s, a, guess, pending);
            && (error.None? <==> pending && guess == s.codes[id].secret)
            && (error == Some(WrongCode) <==> pending && guess != s.codes[id].secret)
            && (error.Some? ==> s' == s)
            && (error.None? ==> s' == s.(codes := s.codes[id := s.codes[id].(consumed := true)]))
  {
    LatestIsCurrent(s.codes, a, s.clock, id);
  }

  /** Without a usable code nothing is accepted and nothing changes. */
  lemma NothingToVerify(s: State, a: Audience, guess: int, ok: bool)
    requires NoneIsUsable(s, a)
    ensures Verified(s, a, guess, ok) == (s, Some(InvalidOrExpired))
    ensures OwnerVerified(s, a, guess, ok) == (s, Some(if ok then InvalidOrExpired else NotPending))
  {
    var found := Latest(s.codes, a, Some(s.clock));
    if found.Some? { assert Usable(s.codes[found.value], a, s.clock); }
  }

  /**
   What sending does: a new code for ten minutes, unless the owner had eight in the last hour, the sender is
   not entitled, or the last unconsumed code of the audience is less than thirty seconds old.
   */
  lemma SendMeans(s: State, a: Audience, secret: int, allowed: bool)
    ensures var (s', error) := Sent(s, a, secret, allowed);
            && (error.Some? ==> s' == s)
            && (error.None? ==> s' == s.(codes := s.codes + [Code(a, secret, s.clock, s.clock + 600_000, 0, false)]))
            && (error == Some(TooManyRequests)
                <==> a.purpose == OwnerVerify && CountSince(Stamps(s.codes, a), s.clock - 3_600_000) >= 8)
            && (error == Some(NotPending) <==> error != Some(TooManyRequests) && !allowed)
            && (error == Some(PleaseWait)
                <==> error != Some(TooManyRequests) && allowed && SentJustBefore(s, a))
  {
    LatestUnconsumed(s.codes, a);
  }

  /** The last unconsumed code of the audience was created less than thirty seconds ago. */
  predicate SentJustBefore(s: State, a: Audience) {
    exists id :: 0 <= id < |s.codes| && IsLastUnconsumed(s.codes, a, id) && s.clock - s.codes[id].createdAt < 30_000
  }

  predicate IsLastUnconsumed(codes: seq<Code>, a: Audience, id: nat)
    requires id < |codes|
  {
    codes[id].audience == a && !codes[id].consumed
    && forall later :: id < later < |codes| ==> !(codes[later].audience == a && !codes[later].consumed)
  }

  lemma {:induction false} LatestUnconsumed(codes: seq<Code>, a: Audience)
    ensures forall id :: 0 <= id < |codes| ==> (IsLastUnconsumed(codes, a, id) <==> Latest(codes, a, None) == Some(id))
  {
    if codes == [] {
    } else {
      var front, last := codes[..|codes| - 1], codes[|codes| - 1];
      LatestUnconsumed(front, a);
      forall id | 0 <= id < |codes|
        ensures IsLastUnconsumed(codes, a, id) <==> Latest(codes, a, None) == Some(id)
      {
        if id < |front| && !(last.audience == a && !last.consumed) {
          assert IsLastUnconsumed(codes, a, id) <==> IsLastUnconsumed(front, a, id);
        }
      }
    }
  }

  // ---- the owner's hourly limit ----

  ghost predicate OwnerRateKept(codes: seq<Code>, a: Audience, now: int) {
    Sorted(Stamps(codes, a)) && SpacedOut(Stamps(codes, a), OWNER_LIMIT) && NotAfter(Stamps(codes, a), now)
  }

  lemma {:induction false} StampsOfUpdated(a: seq<Code>, b: seq<Code>, to: Audience)
    requires |a| == |b|
    requires forall i :: 0 <= i < |a| ==> a[i].audience == b[i].audience && a[i].createdAt == b[i].createdAt
    ensures Stamps(a, to) == Stamps(b, to)
  {
    if a == [] {
    } else {
      StampsOfUpdated(a[..|a| - 1], b[..|b| - 1], to);
    }
  }

  lemma SendKeepsRate(s: State, a: Audience, secret: int, allowed: bool, owner: Audience)
    requires owner.purpose == OwnerVerify && OwnerRateKept(s.codes, owner, s.clock)
    ensures OwnerRateKept(Sent(s, a, secret, allowed).0.codes, owner, s.clock)
  {
    var s' := Sent(s, a, secret, allowed).0;
    if |s'.codes| > |s.codes| {
      assert s'.codes[..|s.codes|] == s.codes;
      var stamps := Stamps(s.codes, owner);
      if a == owner {
        InsertKeepsSpacing(stamps, OWNER_LIMIT, s.clock);
        assert Stamps(s'.codes, owner) == stamps + [s.clock];
      } else {
        assert Stamps(s'.codes, owner) == stamps + [] == stamps;
      }
    }
  }

  lemma VerifyKeepsStamps(s: State, a: Audience, guess: int, ok: bool, to: Audience)
    ensures Stamps(Verified(s, a, guess, ok).0.codes, to) == Stamps(s.codes, to)
    ensures Stamps(OwnerVerified(s, a, guess, ok).0.codes, to) == Stamps(s.codes, to)
  {
    StampsOfUpdated(s.codes, Verified(s, a, guess, ok).0.codes, to);
    StampsOfUpdated(s.codes, OwnerVerified(s, a, guess, ok).0.codes, to);
  }

  lemma StepKeepsRate(s: State, op: Op, owner: Audience)
    requires owner.purpose == OwnerVerify && OwnerRateKept(s.codes, owner, s.clock)
    ensures OwnerRateKept(Step(s, op).codes, owner, Step(s, op).clock)
  {
    match op {
      case Send(a, secret, allowed) => SendKeepsRate(s, a, secret, allowed, owner);
      case Verify(a, guess, ok) => VerifyKeepsStamps(s, a, guess, ok, owner);
      case Tick(_) =>
    }
    hide Sent;
    hide Verified;
    hide OwnerVerified;
    hide Stamps;
  }

  lemma {:induction false} RunKeepsRate(s: State, ops: seq<Op>, owner: Audience)
    requires owner.purpose == OwnerVerify && OwnerRateKept(s.codes, owner, s.clock)
    ensures OwnerRateKept(Run(s, ops).codes, owner, Run(s, ops).clock)
    decreases |ops|
  {
    if ops == [] {
    } else {
      StepKeepsRate(s, ops[0], owner);
      RunKeepsRate(Step(s, ops[0]), ops[1..], owner);
    }
  }

  /** In any hour of any run, at most 8 owner codes are created per workspace and owner. */
  lemma OwnerCodesPerHour(clock: int, ops: seq<Op>, owner: Audience, hi: int)
    requires owner.purpose == OwnerVerify
    ensures CountIn(Stamps(Run(Empty(clock), ops).codes, owner), hi - HOUR, hi) <= 8
  {
    RunKeepsRate(Empty(clock), ops, owner);
    EveryWindowIsBounded(Stamps(Run(Empty(clock), ops).codes, owner), OWNER_LIMIT, hi);
  }

  // ---- the handlers in place ----

  class OtpService {
    var codes: seq<Code>
    ghost var log: seq<Compared>
    ghost var sessions: nat
    var clock: int

    ghost function Contents(): State
      reads this
    {
      State(codes, log, sessions, clock)
    }

    constructor (clock: int)
      ensures Contents() == Empty(clock)
    {
      codes, log, sessions := [], [], 0;
      this.clock := clock;
    }

    /** The mail follows the insert. `mailOk` is false when it throws in production; the code then stays. */
    method SendOtp(audience: Audience, secret: int, allowed: bool, mailOk: bool) returns (error: Option<CodeError>)
      modifies this
      ensures Contents() == Sent(old(Contents()), audience, secret, allowed).0
      ensures var refused := Sent(old(Contents()), audience, secret, allowed).1;
              error == if refused.None? && !mailOk then Some(MailFailed) else refused
    {
      if audience.purpose == OwnerVerify {
        var attemptsLastHour := CountSince(Stamps(codes, audience), clock - HOUR);
        if attemptsLastHour >= OWNER_LIMIT { return Some(TooManyRequests); }
      }
      if !allowed { return Some(NotPending); }
      var latest := Latest(codes, audience, None);
      if latest.Some? {
        if clock - codes[latest.value].createdAt < RESEND_PAUSE { return Some(PleaseWait); }
      }
      codes := codes + [Code(audience, secret, clock, clock + CODE_LIFETIME, 0, false)];
      return if mailOk then None else Some(MailFailed);
    }

    method VerifyOtp(audience: Audience, guess: int, unitOk: bool) returns (error: Option<CodeError>)
      modifies this
      ensures (Contents(), error) == Verified(old(Contents()), audience, guess, unitOk)
    {
      var found := Latest(codes, audience, Some(clock));
      if found.None? { return Some(InvalidOrExpired); }
      var id := found.value;
      if codes[id].attempts >= MAX_ATTEMPTS {
        codes := codes[id := codes[id].(consumed := true)];
        return Some(TooManyAttempts);
      }
      var ok := guess == codes[id].secret;
      log := log + [Compared(id, guess)];
      if !ok {
        codes := codes[id := codes[id].(attempts := codes[id].attempts + 1)];
        return Some(WrongCode);
      }
      codes := codes[id := codes[id].(consumed := true)];
      if !unitOk { return Some(UnitMismatch); }
      sessions := sessions + 1;
      return None;
    }

    method VerifyOwnerEmailOtp(audience: Audience, guess: int, pending: bool) returns (error: Option<CodeError>)
      modifies this
      ensures (Contents(), error) == OwnerVerified(old(Contents()), audience, guess, pending)
    {
      if !pending { return Some(NotPending); }
      var found := Latest(codes, audience, Some(clock));
      if found.None? { return Some(InvalidOrExpired); }
      if guess != codes[found.value].secret { return Some(WrongCode); }
      codes := codes[found.value := codes[found.value].(consumed := true)];
      return None;
    }
  }
}
