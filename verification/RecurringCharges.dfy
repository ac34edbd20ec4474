/**
 Recurring charges: a schedule posts one charge per resident when it is due and then moves its next
 run by the calendar rules of Date.
 */
module RecurringCharges {
  import opened CivilCalendar
  import opened Sequences

  const DAY_MS := 86_400_000
  const HOUR_MS := 3_600_000

  datatype Frequency = Daily | Weekly | Monthly | Quarterly | Yearly

  /** `dayOfMonth` 0 stands for null: the code tests it for truth. */
  datatype Schedule = Schedule(isActive: bool, frequency: Frequency, dayOfMonth: nat, nextRunAt: int)

  /** A posted charge, with the schedule it came from. `moved` says that the schedule's update after it went through. */
  datatype Post = Post(scheduleId: string, frequency: Frequency, residentId: string, at: int, moved: bool)

  /** Completed, or the point at which a database error ends the turn: before the charges are posted or after. */
  datatype Outcome = Completed | NothingPosted | NotMoved

  /** What the job meets at one due schedule: the residents to bill, and how far its writes get. */
  datatype Turn = Turn(residents: seq<string>, outcome: Outcome)

  /** The next run day: setMonth first, then setDate in whatever month that landed in. */
  function NextRunDay(day: int, frequency: Frequency, dayOfMonth: nat): int {
    match frequency
    case Daily => SetDate(day, DateOf(day) + 1)
    case Weekly => SetDate(day, DateOf(day) + 7)
    case Monthly => Pinned(SetMonth(day, MonthOf(day) + 1), dayOfMonth)
    case Quarterly => Pinned(SetMonth(day, MonthOf(day) + 3), dayOfMonth)
    case Yearly => SetFullYear(day, MonthOf(day) / 12 + 1)
  }

  function Pinned(day: int, dayOfMonth: nat): int {
    if dayOfMonth != 0 then SetDate(day, dayOfMonth) else day
  }

  function DayOf(t: int): int { t / DAY_MS }

  function TimeAt(day: int, timeOfDay: int): int { day * DAY_MS + timeOfDay }

  lemma TimesFollowDays(t: int, day: int, timeOfDay: int)
    requires 0 <= timeOfDay < DAY_MS
    ensures DayOf(TimeAt(day, timeOfDay)) == day
    ensures day > DayOf(t) ==> TimeAt(day, timeOfDay) > t
  {
  }

  /** The cron job keeps the time of day. */
  function NextRunAt(now: int, frequency: Frequency, dayOfMonth: nat): int {
    TimeAt(NextRunDay(DayOf(now), frequency, dayOfMonth), now % DAY_MS)
  }

  /** Creation cuts the time of day to midnight. */
  function FirstRunAt(now: int, frequency: Frequency, dayOfMonth: nat): int {
    TimeAt(NextRunDay(DayOf(now), frequency, dayOfMonth), 0)
  }

  function MonthAt(t: int): int { MonthOf(DayOf(t)) }

  /** Calendar months from one run to the next, at least. */
  function Spacing(f: Frequency): nat {
    match f
    case Monthly => 1
    case Quarterly => 3
    case Yearly => 12
    case _ => 0
  }

  // ---- where the next run lands ----

  /**
   setMonth and setDate never both overflow, so a MONTHLY or QUARTERLY run lands in the intended month
   or the one after it. It lands one month late exactly when the current date or the pinned day does
   not exist in the intended month.
   */
  lemma NextRunMonth(day: int, frequency: Frequency, dayOfMonth: nat)
    requires frequency in {Monthly, Quarterly} && dayOfMonth <= 31
    ensures var intended := MonthOf(day) + Spacing(frequency);
            MonthOf(NextRunDay(day, frequency, dayOfMonth))
            == if DateOf(day) <= MonthLength(intended) && dayOfMonth <= MonthLength(intended)
               then intended else intended + 1
  {
    hide MonthStart;
    hide MonthOf;
    MonthLengths(MonthOf(day));
    hide MonthLength;
    var intended := MonthOf(day) + Spacing(frequency);
    WhereMakeDayLands(intended, DateOf(day));
    var landed := MonthOf(SetMonth(day, intended));
    if DateOf(day) > MonthLength(intended) { ShortThenLong(intended); }
    if dayOfMonth != 0 { WhereMakeDayLands(landed, dayOfMonth); }
  }

  /** A YEARLY run lands in the same month a year on; 29 February becomes 1 March. */
  lemma NextRunYear(day: int, dayOfMonth: nat)
    ensures var intended := MonthOf(day) + 12;
            MonthOf(NextRunDay(day, Yearly, dayOfMonth))
            == if DateOf(day) <= MonthLength(intended) then intended else intended + 1
  {
    hide MonthStart;
    hide MonthOf;
    MonthLengths(MonthOf(day));
    hide MonthLength;
    var m := MonthOf(day);
    assert 12 * (m / 12 + 1) + m % 12 == m + 12;
    WhereMakeDayLands(m + 12, DateOf(day));
  }

  /** DAILY and WEEKLY count days. */
  lemma NextRunByDays(day: int, dayOfMonth: nat)
    ensures NextRunDay(day, Daily, dayOfMonth) == day + 1
    ensures NextRunDay(day, Weekly, dayOfMonth) == day + 7
  {
    hide MonthStart;
    hide MonthOf;
  }

  /** The month and date k months on: the same date, or what the shorter month runs over by. */
  function Later(day: int, k: nat): (int, int) {
    var m := MonthOf(day) + k;
    if DateOf(day) <= MonthLength(m) then (m, DateOf(day)) else (m + 1, DateOf(day) - MonthLength(m))
  }

  /** A pinned day of the month replaces the date where the month has it, and runs over where not. */
  function PinnedDate(m: int, dayOfMonth: nat): (int, int) {
    if dayOfMonth <= MonthLength(m) then (m, dayOfMonth) else (m + 1, dayOfMonth - MonthLength(m))
  }

  /** One, three or twelve months on, then the pinned day if there is one and the frequency is not YEARLY. */
  lemma NextRunDate(day: int, frequency: Frequency, dayOfMonth: nat)
    requires frequency in {Monthly, Quarterly, Yearly} && dayOfMonth <= 31
    ensures var months := if frequency == Monthly then 1 else if frequency == Quarterly then 3 else 12;
            var next := NextRunDay(day, frequency, dayOfMonth);
            (MonthOf(next), DateOf(next))
            == if dayOfMonth == 0 || frequency == Yearly then Later(day, months)
               else PinnedDate(Later(day, months).0, dayOfMonth)
  {
    hide MonthStart;
    hide MonthOf;
    MonthLengths(MonthOf(day));
    hide MonthLength;
    var months := if frequency == Monthly then 1 else if frequency == Quarterly then 3 else 12;
    var m := MonthOf(day);
    assert 12 * (m / 12 + 1) + m % 12 == m + 12;
    WhereMakeDayLands(m + months, DateOf(day));
    if dayOfMonth != 0 { WhereMakeDayLands(MonthOf(SetMonth(day, m + months)), dayOfMonth); }
  }

  /** The next run is at the time of day of this one, the first run at midnight, on the day computed above. */
  lemma NextRunTimeOfDay(now: int, frequency: Frequency, dayOfMonth: nat)
    ensures DayOf(NextRunAt(now, frequency, dayOfMonth)) == NextRunDay(DayOf(now), frequency, dayOfMonth)
    ensures DayOf(FirstRunAt(now, frequency, dayOfMonth)) == NextRunDay(DayOf(now), frequency, dayOfMonth)
    ensures NextRunAt(now, frequency, dayOfMonth) % 86_400_000 == now % 86_400_000
    ensures FirstRunAt(now, frequency, dayOfMonth) % 86_400_000 == 0
  {
    hide NextRunDay;
    var day := NextRunDay(DayOf(now), frequency, dayOfMonth);
    TimeOfDayKept(day, now % DAY_MS);
    TimeOfDayKept(day, 0);
  }

  lemma TimeOfDayKept(day: int, timeOfDay: int)
    requires 0 <= timeOfDay < DAY_MS
    ensures DayOf(TimeAt(day, timeOfDay)) == day && TimeAt(day, timeOfDay) % 86_400_000 == timeOfDay
  {
  }

  /** In milliseconds, a DAILY run is followed by one a day later, a WEEKLY run by one seven days later. */
  lemma NextRunByTime(now: int, dayOfMonth: nat)
    ensures NextRunAt(now, Daily, dayOfMonth) == now + 86_400_000
    ensures NextRunAt(now, Weekly, dayOfMonth) == now + 7 * 86_400_000
    ensures FirstRunAt(now, Daily, dayOfMonth) == now - now % 86_400_000 + 86_400_000
    ensures FirstRunAt(now, Weekly, dayOfMonth) == now - now % 86_400_000 + 7 * 86_400_000
  {
    NextRunByDays(DayOf(now), dayOfMonth);
    hide NextRunDay;
  }

  /** The next run keeps at least the spacing of its frequency, in calendar months. */
  lemma NextRunKeepsSpacing(day: int, frequency: Frequency, dayOfMonth: nat)
    requires dayOfMonth <= 31
    ensures MonthOf(NextRunDay(day, frequency, dayOfMonth)) >= MonthOf(day) + Spacing(frequency)
    ensures NextRunDay(day, frequency, dayOfMonth) > day
  {
    var next := NextRunDay(day, frequency, dayOfMonth);
    match frequency {
      case Daily | Weekly => MonthsFollowDays(day, next);
      case Monthly | Quarterly => NextRunMonth(day, frequency, dayOfMonth);
      case Yearly => NextRunYear(day, dayOfMonth);
    }
    if next <= day { MonthsFollowDays(next, day); }
  }

  /** Every frequency moves the schedule to a strictly later time, at creation and after a run. */
  lemma StrictlyLater(now: int, frequency: Frequency, dayOfMonth: nat)
    requires dayOfMonth <= 31
    ensures NextRunAt(now, frequency, dayOfMonth) > now
    ensures FirstRunAt(now, frequency, dayOfMonth) > now
    ensures MonthAt(NextRunAt(now, frequency, dayOfMonth)) >= MonthAt(now) + Spacing(frequency)
  {
    hide NextRunDay;
    hide MonthOf;
    hide Spacing;
    hide DayOf;
    hide TimeAt;
    NextRunKeepsSpacing(DayOf(now), frequency, dayOfMonth);
    TimesFollowDays(now, NextRunDay(DayOf(now), frequency, dayOfMonth), now % DAY_MS);
    TimesFollowDays(now, NextRunDay(DayOf(now), frequency, dayOfMonth), 0);
  }

  // ---- the cron job ----

  type Schedules = map<string, Schedule>

  predicate IsDue(s: Schedule, now: int) { s.isActive && s.nextRunAt <= now }

  /** An answer of the query for due schedules, in any order. */
  ghost predicate DueList(schedules: Schedules, now: int, due: seq<string>) {
    && Distinct(due)
    && forall id :: id in due <==> id in schedules && IsDue(schedules[id], now)
  }

  function PostsFor(id: string, s: Schedule, turn: Turn, now: int): seq<Post> {
    if turn.outcome == NothingPosted then []
    else
      seq(|turn.residents|, i requires 0 <= i < |turn.residents| =>
        Post(id, s.frequency, turn.residents[i], now, turn.outcome == Completed))
  }

  /** Each of the schedules has its turn. */
  ghost predicate Answered(schedules: Schedules, due: seq<string>, turns: map<string, Turn>) {
    forall id <- due :: id in schedules && id in turns
  }

  ghost function PostsOf(schedules: Schedules, due: seq<string>, turns: map<string, Turn>, now: int): seq<Post>
    requires Answered(schedules, due, turns)
  {
    if due == [] then []
    else
      var id := due[|due| - 1];
      PostsOf(schedules, due[..|due| - 1], turns, now) + PostsFor(id, schedules[id], turns[id], now)
  }

  /** A schedule after its turn: it moves only when nothing failed. */
  function Turned(s: Schedule, turn: Turn, now: int): Schedule {
    if turn.outcome == Completed then s.(nextRunAt := NextRunAt(now, s.frequency, s.dayOfMonth)) else s
  }

  function Advanced(schedules: Schedules, due: seq<string>, turns: map<string, Turn>, now: int): Schedules {
    map id | id in schedules ::
      if id in due && id in turns then Turned(schedules[id], turns[id], now) else schedules[id]
  }

  lemma NoTurn(schedules: Schedules, due: seq<string>, turns: map<string, Turn>, now: int)
    ensures Answered(schedules, due[..0], turns)
    ensures Advanced(schedules, due[..0], turns, now) == schedules && PostsOf(schedules, due[..0], turns, now) == []
  {
  }

  /** What one turn of the loop adds. */
  lemma OneTurn(schedules: Schedules, due: seq<string>, i: nat, turns: map<string, Turn>, now: int)
    requires i < |due| && DueList(schedules, now, due) && forall id <- due :: id in turns
    ensures Answered(schedules, due[..i], turns) && Answered(schedules, due[..i + 1], turns)
    ensures due[i] in schedules && due[i] in turns && due[i] in Advanced(schedules, due[..i], turns, now)
    ensures Advanced(schedules, due[..i], turns, now)[due[i]] == schedules[due[i]]
    ensures Advanced(schedules, due[..i + 1], turns, now)
            == Advanced(schedules, due[..i], turns, now)[due[i] := Turned(schedules[due[i]], turns[due[i]], now)]
    ensures PostsOf(schedules, due[..i + 1], turns, now)
            == PostsOf(schedules, due[..i], turns, now) + PostsFor(due[i], schedules[due[i]], turns[due[i]], now)
  {
    hide Turned;
    hide PostsFor;
    var longer := due[..i + 1];
    assert due[i] in due && longer[..i] == due[..i] && longer == due[..i] + [due[i]];
    assert forall id :: id in longer <==> id in due[..i] || id == due[i];
  }

  class RecurringBilling {
    var schedules: Schedules
    var posts: seq<Post>

    constructor ()
      ensures schedules == map[] && posts == []
    {
      schedules, posts := map[], [];
    }

    method CreateRecurringCharge(id: string, now: int, frequency: Frequency, dayOfMonth: nat)
      requires id !in schedules
      modifies this`schedules
      ensures schedules == old(schedules)[id := Schedule(true, frequency, dayOfMonth,
                                                           FirstRunAt(now, frequency, dayOfMonth))]
    {
      hide MonthStart;
      hide MonthOf;
      var day := DayOf(now);
      if frequency == Monthly || frequency == Quarterly {
        day := SetMonth(day, MonthOf(day) + (if frequency == Quarterly then 3 else 1));
        if dayOfMonth != 0 { day := SetDate(day, dayOfMonth); }
      } else if frequency == Weekly {
        day := SetDate(day, DateOf(day) + 7);
      } else if frequency == Yearly {
        day := SetFullYear(day, MonthOf(day) / 12 + 1);
      } else {
        day := SetDate(day, DateOf(day) + 1);
      }
      schedules := schedules[id := Schedule(true, frequency, dayOfMonth, TimeAt(day, 0))];
    }

    /** The switch over the frequency, mutating a date in steps. */
    method NextRunTime(now: int, frequency: Frequency, dayOfMonth: nat) returns (nextRunAt: int)
      ensures nextRunAt == NextRunAt(now, frequency, dayOfMonth)
    {
      hide MonthStart;
      hide MonthOf;
      var nextRun := DayOf(now);
      match frequency {
        case Daily => nextRun := SetDate(nextRun, DateOf(nextRun) + 1);
        case Weekly => nextRun := SetDate(nextRun, DateOf(nextRun) + 7);
        case Monthly =>
          nextRun := SetMonth(nextRun, MonthOf(nextRun) + 1);
          if dayOfMonth != 0 { nextRun := SetDate(nextRun, dayOfMonth); }
        case Quarterly =>
          nextRun := SetMonth(nextRun, MonthOf(nextRun) + 3);
          if dayOfMonth != 0 { nextRun := SetDate(nextRun, dayOfMonth); }
        case Yearly => nextRun := SetFullYear(nextRun, MonthOf(nextRun) / 12 + 1);
      }
      nextRunAt := TimeAt(nextRun, now % DAY_MS);
    }

    /** One turn of the loop: post the charges, then move the schedule. The catch branch keeps what was written. */
    method RunSchedule(id: string, turn: Turn, now: int)
      requires id in schedules
      modifies this
      ensures schedules == old(schedules)[id := Turned(old(schedules)[id], turn, now)]
      ensures posts == old(posts) + PostsFor(id, old(schedules)[id], turn, now)
    {
      hide NextRunAt;
      if turn.outcome == NothingPosted { return; }
      var schedule := schedules[id];
      if |turn.residents| > 0 {
        posts := posts + PostsFor(id, schedule, turn, now);
      }
      if turn.outcome == NotMoved { return; }
      var nextRunAt := NextRunTime(now, schedule.frequency, schedule.dayOfMonth);
      schedules := schedules[id := schedule.(nextRunAt := nextRunAt)];
    }

    method ProcessRecurringCharges(now: int, due: seq<string>, turns: map<string, Turn>)
      requires DueList(schedules, now, due) && forall id <- due :: id in turns
      modifies this
      ensures schedules == Advanced(old(schedules), due, turns, now)
      ensures posts == old(posts) + PostsOf(old(schedules), due, turns, now)
    {
      hide *;
      ghost var before := schedules;
      NoTurn(before, due, turns, now);
      var i := 0;
      while i < |due|
        invariant 0 <= i <= |due|
        invariant Answered(before, due[..i], turns)
        invariant schedules == Advanced(before, due[..i], turns, now)
        invariant posts == old(posts) + PostsOf(before, due[..i], turns, now)
      {
        OneTurn(before, due, i, turns, now);
        RunSchedule(due[i], turns[due[i]], now);
        i := i + 1;
      }
      assert due[..|due|] == due;
    }
  }

  // ---- runs ----

  datatype State = State(schedules: Schedules, posts: seq<Post>, clock: int)

  datatype Event =
    | Create(id: string, at: int, frequency: Frequency, dayOfMonth: nat)
    | SetActive(id: string, isActive: bool)
    | Delete(id: string)
    | Cron(at: int, due: seq<string>, turns: map<string, Turn>)

  /** Ids are never reused, the clock does not run backwards, and a query returns each row once. */
  ghost predicate Enabled(s: State, e: Event) {
    match e
    case Create(id, at, _, dayOfMonth) =>
      s.clock <= at && dayOfMonth <= 31 && id !in s.schedules && forall p <- s.posts :: p.scheduleId != id
    case Cron(at, due, turns) =>
      s.clock <= at && DueList(s.schedules, at, due)
      && forall id <- due :: id in turns && Distinct(turns[id].residents)
    case _ => true
  }

  ghost function Next(s: State, e: Event): State
    requires Enabled(s, e)
  {
    match e
    case Create(id, at, f, d) =>
      State(s.schedules[id := Schedule(true, f, d, FirstRunAt(at, f, d))], s.posts, at)
    case SetActive(id, isActive) =>
      if id in s.schedules then s.(schedules := s.schedules[id := s.schedules[id].(isActive := isActive)]) else s
    case Delete(id) => s.(schedules := s.schedules - {id})
    case Cron(at, due, turns) =>
      State(Advanced(s.schedules, due, turns, at), s.posts + PostsOf(s.schedules, due, turns, at), at)
  }

  ghost predicate ValidRun(s: State, events: seq<Event>)
    decreases |events|
  {
    events == [] || (Enabled(s, events[0]) && ValidRun(Next(s, events[0]), events[1..]))
  }

  ghost function Final(s: State, events: seq<Event>): State
    requires ValidRun(s, events)
    decreases |events|
  {
    if events == [] then s else Final(Next(s, events[0]), events[1..])
  }

  /** Two charges that one schedule posted to one resident are its spacing apart. */
  predicate Apart(p: Post, q: Post) {
    p.scheduleId == q.scheduleId && p.residentId == q.residentId && Spacing(p.frequency) > 0 ==>
      MonthAt(p.at) + Spacing(p.frequency) <= MonthAt(q.at)
  }

  /** Nothing follows too soon after a charge whose schedule was moved. */
  ghost predicate Spaced(posts: seq<Post>) {
    forall i, j :: 0 <= i < j < |posts| && posts[i].moved ==> Apart(posts[i], posts[j])
  }

  /** What a past charge says about the schedule it came from. */
  predicate Behind(p: Post, schedules: Schedules) {
    p.scheduleId in schedules ==>
      schedules[p.scheduleId].frequency == p.frequency
      && (p.moved ==> MonthAt(p.at) + Spacing(p.frequency) <= MonthAt(schedules[p.scheduleId].nextRunAt))
  }

  ghost predicate Inv(s: State) {
    && Spaced(s.posts)
    && (forall p <- s.posts :: Behind(p, s.schedules))
    && forall id <- s.schedules :: s.schedules[id].dayOfMonth <= 31
  }

  /** A charge that the job posts comes from a due schedule, at the job's time. */
  ghost predicate FromTurn(p: Post, schedules: Schedules, due: seq<string>, turns: map<string, Turn>, now: int) {
    && p.scheduleId in due && p.scheduleId in schedules && p.scheduleId in turns
    && p.at == now && p.frequency == schedules[p.scheduleId].frequency
    && turns[p.scheduleId].outcome == if p.moved then Completed else NotMoved
  }

  ghost predicate OncePerResident(posts: seq<Post>) {
    forall i, j :: 0 <= i < j < |posts| ==>
      posts[i].scheduleId != posts[j].scheduleId || posts[i].residentId != posts[j].residentId
  }

  lemma PostsOfOneTurn(schedules: Schedules, due: seq<string>, turns: map<string, Turn>, now: int, id: string)
    requires id in due && id in schedules && id in turns && Distinct(turns[id].residents)
    ensures var posts := PostsFor(id, schedules[id], turns[id], now);
            OncePerResident(posts) && forall p <- posts :: p.scheduleId == id && FromTurn(p, schedules, due, turns, now)
  {
  }

  lemma JoinedOncePerResident(front: seq<Post>, last: seq<Post>, id: string)
    requires OncePerResident(front) && OncePerResident(last)
    requires (forall p <- front :: p.scheduleId != id) && forall p <- last :: p.scheduleId == id
    ensures OncePerResident(front + last)
  {
  }

  /** Each post of a cron run comes from a due schedule; a schedule bills a resident once. */
  lemma {:induction false} PostsOfOneRun(schedules: Schedules, due: seq<string>, turns: map<string, Turn>, now: int)
    requires Distinct(due) && forall id <- due :: id in schedules && id in turns && Distinct(turns[id].residents)
    ensures var posts := PostsOf(schedules, due, turns, now);
            OncePerResident(posts) && forall p <- posts :: FromTurn(p, schedules, due, turns, now)
  {
    if due == [] {
    } else {
      var front, id := due[..|due| - 1], due[|due| - 1];
      PostsOfOneRun(schedules, front, turns, now);
      PostsOfOneTurn(schedules, due, turns, now, id);
      assert id !in front;
      JoinedOncePerResident(PostsOf(schedules, front, turns, now), PostsFor(id, schedules[id], turns[id], now), id);
      hide PostsFor;
      hide OncePerResident;
    }
  }

  /**
   Whom a run of the job charges: each resident of each due schedule whose turn got as far as posting, and
   nobody else. With OncePerResident above, exactly once.
   */
  lemma {:induction false} ChargedIff(schedules: Schedules, due: seq<string>, turns: map<string, Turn>, now: int,
                                      p: Post)
    requires Answered(schedules, due, turns)
    ensures p in PostsOf(schedules, due, turns, now)
            <==> && p.scheduleId in due && p.residentId in turns[p.scheduleId].residents
                 && turns[p.scheduleId].outcome != NothingPosted
                 && p.at == now && p.frequency == schedules[p.scheduleId].frequency
                 && (p.moved <==> turns[p.scheduleId].outcome == Completed)
  {
    if due == [] {
    } else {
      var front, id := due[..|due| - 1], due[|due| - 1];
      ChargedIff(schedules, front, turns, now, p);
      assert due == front + [id];
      ChargedInTurn(id, schedules[id], turns[id], now, p);
      hide PostsFor;
    }
  }

  lemma ChargedInTurn(id: string, s: Schedule, turn: Turn, now: int, p: Post)
    ensures p in PostsFor(id, s, turn, now)
            <==> && p.scheduleId == id && p.residentId in turn.residents && turn.outcome != NothingPosted
                 && p.at == now && p.frequency == s.frequency && (p.moved <==> turn.outcome == Completed)
  {
    if p.residentId in turn.residents && turn.outcome != NothingPosted {
      var i :| 0 <= i < |turn.residents| && turn.residents[i] == p.residentId;
      assert PostsFor(id, s, turn, now)[i] == Post(id, s.frequency, p.residentId, now, turn.outcome == Completed);
    }
  }

  lemma CronKeepsInv(s: State, e: Event)
    requires e.Cron? && Enabled(s, e) && Inv(s)
    ensures Inv(Next(s, e))
  {
    var posts := PostsOf(s.schedules, e.due, e.turns, e.at);
    PostsOfOneRun(s.schedules, e.due, e.turns, e.at);
    var s' := Next(s, e);
    forall p <- posts ensures Behind(p, s'.schedules) {
      var schedule := s.schedules[p.scheduleId];
      StrictlyLater(e.at, schedule.frequency, schedule.dayOfMonth);
    }
    forall p <- s.posts, q <- posts | p.moved ensures Apart(p, q) {
      DueMeansLaterMonth(p, s.schedules, q.scheduleId, e.at);
    }
    forall p <- s.posts ensures Behind(p, s'.schedules) {
      if p.scheduleId in e.due && p.moved {
        var schedule := s.schedules[p.scheduleId];
        DueMeansLaterMonth(p, s.schedules, p.scheduleId, e.at);
        StrictlyLater(e.at, schedule.frequency, schedule.dayOfMonth);
      }
    }
    forall i, j | 0 <= i < j < |s'.posts| && s'.posts[i].moved ensures Apart(s'.posts[i], s'.posts[j]) {
      if j < |s.posts| {
      } else if i < |s.posts| {
        assert s'.posts[i] in s.posts && s'.posts[j] in posts;
      } else {
        assert s'.posts[i] == posts[i - |s.posts|] && s'.posts[j] == posts[j - |s.posts|];
      }
    }
  }

  lemma DueMeansLaterMonth(p: Post, schedules: Schedules, id: string, now: int)
    requires Behind(p, schedules) && p.moved && id in schedules && schedules[id].nextRunAt <= now
    ensures p.scheduleId == id ==> MonthAt(p.at) + Spacing(p.frequency) <= MonthAt(now)
  {
    MonthsFollowDays(DayOf(schedules[id].nextRunAt), DayOf(now));
  }

  lemma {:induction false} RunKeepsInv(s: State, events: seq<Event>)
    requires Inv(s) && ValidRun(s, events)
    ensures Inv(Final(s, events))
    decreases |events|
  {
    if events == [] {
    } else {
      if events[0].Cron? { CronKeepsInv(s, events[0]); }
      RunKeepsInv(Next(s, events[0]), events[1..]);
    }
  }

  /**
   Over any run, database errors included, a MONTHLY schedule charges each resident at most once per
   calendar month, a QUARTERLY one at most once in three, a YEARLY one at most once in twelve, unless the
   update of the schedule failed after the earlier charge.
   */
  lemma AtMostOncePerPeriod(events: seq<Event>, clock: int)
    requires ValidRun(State(map[], [], clock), events)
    ensures var posts := Final(State(map[], [], clock), events).posts;
            forall i, j :: 0 <= i < j < |posts| && posts[i].moved && Spacing(posts[i].frequency) > 0
                           && posts[i].scheduleId == posts[j].scheduleId && posts[i].residentId == posts[j].residentId
                           ==> MonthAt(posts[j].at) - MonthAt(posts[i].at) >= Spacing(posts[i].frequency)
  {
    RunKeepsInv(State(map[], [], clock), events);
    var posts := Final(State(map[], [], clock), events).posts;
    assert forall i, j :: 0 <= i < j < |posts| && posts[i].moved ==> Apart(posts[i], posts[j]);
  }

  // ---- exactly when a schedule charges again too soon ----

  /** The schedules whose last update failed after their charges were posted, after one event. */
  ghost function OwedAfter(e: Event, owed: set<string>): set<string> {
    match e
    case Create(id, _, _, _) => owed - {id}
    case Cron(_, due, turns) =>
      owed - (set id | id in due && id in turns && turns[id].outcome == Completed)
           + (set id | id in due && id in turns && turns[id].outcome == NotMoved)
    case _ => owed
  }

  ghost function Owed(events: seq<Event>, owed: set<string>): set<string> {
    if events == [] then owed else Owed(events[1..], OwedAfter(events[0], owed))
  }

  /** A past charge keeps the schedule waiting for its spacing, unless the update is still owed. */
  predicate Waits(p: Post, schedules: Schedules, owed: set<string>) {
    p.scheduleId in schedules && p.scheduleId !in owed ==>
      MonthAt(p.at) + Spacing(p.frequency) <= MonthAt(schedules[p.scheduleId].nextRunAt)
  }

  ghost predicate Tracked(s: State, owed: set<string>) {
    && (forall p <- s.posts :: p.at <= s.clock && Waits(p, s.schedules, owed))
    && forall id <- s.schedules :: id in owed ==> s.schedules[id].nextRunAt <= s.clock
  }

  /** A schedule that moves now waits for its spacing, counted from every charge so far. */
  lemma MovedWaits(p: Post, s: Schedule, now: int)
    requires p.at <= now && p.frequency == s.frequency && s.dayOfMonth <= 31
    ensures MonthAt(p.at) + Spacing(p.frequency) <= MonthAt(NextRunAt(now, s.frequency, s.dayOfMonth))
  {
    hide MonthOf;
    hide NextRunAt;
    hide DayOf;
    hide Spacing;
    DaysFollowTimes(p.at, now);
    MonthsFollowDays(DayOf(p.at), DayOf(now));
    StrictlyLater(now, s.frequency, s.dayOfMonth);
  }

  lemma DaysFollowTimes(t1: int, t2: int)
    requires t1 <= t2
    ensures DayOf(t1) <= DayOf(t2)
  {
  }

  lemma CronKeepsTrack(s: State, e: Event, owed: set<string>)
    requires e.Cron? && Enabled(s, e) && Inv(s) && Tracked(s, owed)
    ensures Tracked(Next(s, e), OwedAfter(e, owed))
  {
    PostsOfOneRun(s.schedules, e.due, e.turns, e.at);
    var (s', owed') := (Next(s, e), OwedAfter(e, owed));
    forall p <- s'.posts ensures p.at <= s'.clock && Waits(p, s'.schedules, owed') {
      var isNew := p in PostsOf(s.schedules, e.due, e.turns, e.at);
      assert isNew || p in s.posts;
      var id := p.scheduleId;
      if id in s.schedules && id in e.due && e.turns[id].outcome == Completed {
        MovedWaits(p, s.schedules[id], e.at);
      }
      hide NextRunAt;
      hide MonthAt;
      hide PostsOf;
    }
  }

  lemma {:induction false} RunKeepsTrack(s: State, events: seq<Event>, owed: set<string>)
    requires Inv(s) && ValidRun(s, events) && Tracked(s, owed)
    ensures Tracked(Final(s, events), Owed(events, owed))
    decreases |events|
  {
    if events == [] {
    } else {
      if events[0].Cron? {
        CronKeepsInv(s, events[0]);
        CronKeepsTrack(s, events[0], owed);
      }
      RunKeepsTrack(Next(s, events[0]), events[1..], OwedAfter(events[0], owed));
    }
  }

  lemma DueWhileSpacingLasts(s: State, owed: set<string>, p: Post, t: int)
    requires p in s.posts && p.scheduleId in s.schedules && t >= s.clock
    ensures Tracked(s, owed) && MonthAt(t) < MonthAt(p.at) + Spacing(p.frequency) ==>
              (IsDue(s.schedules[p.scheduleId], t) <==> s.schedules[p.scheduleId].isActive && p.scheduleId in owed)
  {
    hide MonthOf;
    var next := s.schedules[p.scheduleId].nextRunAt;
    assert Tracked(s, owed) ==> Waits(p, s.schedules, owed);
    if next <= t {
      DaysFollowTimes(next, t);
      MonthsFollowDays(DayOf(next), DayOf(t));
    }
  }

  /**
   At every point of every run and for every past charge: as long as the spacing of the charge lasts, its
   schedule is due again exactly when it is active and an update of it failed after its charges and none
   has gone through since.
   */
  lemma DueTooSoonIff(events: seq<Event>, clock: int)
    requires ValidRun(State(map[], [], clock), events)
    ensures var s := Final(State(map[], [], clock), events);
            forall p, t ::
              p in s.posts && p.scheduleId in s.schedules && t >= s.clock
              && MonthAt(t) < MonthAt(p.at) + Spacing(p.frequency)
              ==> (IsDue(s.schedules[p.scheduleId], t)
                   <==> s.schedules[p.scheduleId].isActive && p.scheduleId in Owed(events, {}))
  {
    RunKeepsTrack(State(map[], [], clock), events, {});
    var s := Final(State(map[], [], clock), events);
    hide *;
    forall p, t | p in s.posts && p.scheduleId in s.schedules && t >= s.clock
                  && MonthAt(t) < MonthAt(p.at) + Spacing(p.frequency)
      ensures IsDue(s.schedules[p.scheduleId], t)
              <==> s.schedules[p.scheduleId].isActive && p.scheduleId in Owed(events, {})
    {
      DueWhileSpacingLasts(s, Owed(events, {}), p, t);
    }
  }

  // ---- concrete runs ----

  lemma SpringOf1970()
    ensures MonthStart(JANUARY_1970) == 0 && MonthStart(JANUARY_1970 + 1) == 31
    ensures MonthStart(JANUARY_1970 + 2) == 59 && MonthStart(JANUARY_1970 + 3) == 90
  {
    assert (JANUARY_1970 + 1) / 12 == 1970 && (JANUARY_1970 + 1) % 12 == 1;
    assert (JANUARY_1970 + 2) / 12 == 1970 && (JANUARY_1970 + 2) % 12 == 2;
    assert (JANUARY_1970 + 3) / 12 == 1970 && (JANUARY_1970 + 3) % 12 == 3;
  }

  /** A MONTHLY run of 31 January 1970 is followed by one on 3 March: there is none in February. */
  lemma JanuaryThenMarch()
    ensures MonthOf(30) == JANUARY_1970 && DateOf(30) == 31
    ensures NextRunDay(30, Monthly, 0) == 61
    ensures MonthOf(61) == JANUARY_1970 + 2 && DateOf(61) == 3
  {
    SpringOf1970();
    hide MonthStart;
    hide MonthOf;
    MonthIsUnique(30, JANUARY_1970);
    MonthIsUnique(61, JANUARY_1970 + 2);
  }

  lemma FirstOfFebruary()
    ensures FirstRunAt(0, Monthly, 0) == TimeAt(31, 0) > 0
  {
    SpringOf1970();
    hide MonthStart;
    hide MonthOf;
    MonthIsUnique(0, JANUARY_1970);
    assert NextRunDay(0, Monthly, 0) == 31;
  }

  lemma RunUnfolds(s: State, e: Event, events: seq<Event>)
    requires Enabled(s, e) && ValidRun(Next(s, e), events)
    ensures ValidRun(s, [e] + events) && Final(s, [e] + events) == Final(Next(s, e), events)
  {
    assert ([e] + events)[1..] == events;
  }

  function OneTurnOf(id: string, turn: Turn, at: int): Event { Cron(at, [id], map[id := turn]) }

  /** The job when one schedule exists and is due. */
  lemma SingleSchedule(s: State, id: string, turn: Turn, at: int)
    requires s.clock <= at && s.schedules.Keys == {id} && IsDue(s.schedules[id], at) && Distinct(turn.residents)
    ensures Enabled(s, OneTurnOf(id, turn, at))
    ensures var s' := Next(s, OneTurnOf(id, turn, at));
            && s'.clock == at && s'.posts == s.posts + PostsFor(id, s.schedules[id], turn, at)
            && (turn.outcome != Completed ==> s'.schedules == s.schedules)
  {
    hide NextRunAt;
    assert [id][..0] == [];
    assert PostsOf(s.schedules, [id], map[id := turn], at) == PostsFor(id, s.schedules[id], turn, at);
  }

  /** Once the update of a schedule fails, the next hourly job charges the residents again. */
  lemma FailedUpdateBillsTwice() returns (events: seq<Event>)
    ensures ValidRun(State(map[], [], 0), events)
    ensures var posts := Final(State(map[], [], 0), events).posts;
            |posts| == 2 && posts[0].scheduleId == posts[1].scheduleId && posts[0].residentId == posts[1].residentId
            && posts[1].at == posts[0].at + HOUR_MS && MonthAt(posts[0].at) == MonthAt(posts[1].at)
  {
    FirstOfFebruary();
    var t := TimeAt(31, 0);
    assert DayOf(t + HOUR_MS) == DayOf(t);
    hide *;
    events := TwoJobs();
  }

  lemma TwoJobs() returns (events: seq<Event>)
    ensures ValidRun(State(map[], [], 0), events)
    ensures var t := FirstRunAt(0, Monthly, 0);
            Final(State(map[], [], 0), events).posts ==
            [Post("s", Monthly, "r", t, false), Post("s", Monthly, "r", t + HOUR_MS, true)]
  {
    hide FirstRunAt;
    hide NextRunAt;
    hide NextRunDay;
    hide TimeAt;
    var t := FirstRunAt(0, Monthly, 0);
    FirstOfFebruary();
    hide PostsOf;
    hide Advanced;
    hide DueList;
    var (s0, create) := (State(map[], [], 0), Create("s", 0, Monthly, 0));
    var first, second := OneTurnOf("s", Turn(["r"], NotMoved), t), OneTurnOf("s", Turn(["r"], Completed), t + HOUR_MS);
    var s1 := Next(s0, create);
    SingleSchedule(s1, "s", Turn(["r"], NotMoved), t);
    var s2 := Next(s1, first);
    SingleSchedule(s2, "s", Turn(["r"], Completed), t + HOUR_MS);
    var s3 := Next(s2, second);
    assert s3.posts == [Post("s", Monthly, "r", t, false), Post("s", Monthly, "r", t + HOUR_MS, true)];
    assert Enabled(s0, create) && ValidRun(s3, []) && Final(s3, []) == s3;
    hide *;
    RunUnfolds(s2, second, []);
    RunUnfolds(s1, first, [second] + []);
    RunUnfolds(s0, create, [first] + ([second] + []));
    events := [create] + ([first] + ([second] + []));
  }
}
