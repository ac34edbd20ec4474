/**
 The dead-letter queue of failed mails: a batch-limited priority queue keyed by the next attempt
 time, with backoff.
 */
module RetryQueue {
  import opened Sequences

  const MAX_ATTEMPTS := 6
  const BATCH := 50
  const MINUTE := 60_000
  const BACKOFF_MINUTES: seq<int> := [1, 5, 15, 60, 360, 1440]

  datatype Channel = Email | OtherChannel
  datatype Status = Pending | Retrying | Sent | Failed
  datatype Letter = Letter(channel: Channel, status: Status, attempts: nat, nextAttemptAt: int)

  type Id = nat
  type Queue = map<Id, Letter>

  /** What happens to one picked row: whether the mail goes out, and whether the result can be written down. */
  datatype Try = Try(mailOk: bool, stored: bool, clock: int)

  predicate Active(l: Letter) { l.status == Pending || l.status == Retrying }
  predicate Due(l: Letter, now: int) { Active(l) && l.nextAttemptAt <= now }

  ghost function DueRows(q: Queue, now: int): set<Id> { set id | id in q && Due(q[id], now) }

  /** An answer of "the due rows ordered by nextAttemptAt, at most `limit` of them". Ties come in any order. */
  ghost predicate IsPage(q: Queue, due: set<Id>, limit: nat, batch: seq<Id>)
    requires due <= q.Keys
  {
    && (forall id <- batch :: id in due)
    && Distinct(batch)
    && (forall i, j :: 0 <= i < j < |batch| ==> q[batch[i]].nextAttemptAt <= q[batch[j]].nextAttemptAt)
    && |batch| <= limit
    && (|batch| < limit ==> forall id <- due :: id in batch)
    && (forall id <- due, b <- batch :: id !in batch ==> q[b].nextAttemptAt <= q[id].nextAttemptAt)
  }

  ghost predicate IsBatch(q: Queue, now: int, batch: seq<Id>) {
    IsPage(q, DueRows(q, now), BATCH, batch)
  }

  /** The row after one try. */
  function Tried(l: Letter, t: Try): Letter {
    if !t.stored then l
    else if l.channel != Email then l.(status := Failed)
    else if t.mailOk then l.(status := Sent, attempts := l.attempts + 1)
    else if l.attempts + 1 >= MAX_ATTEMPTS then l.(status := Failed, attempts := l.attempts + 1)
    else l.(status := Retrying, attempts := l.attempts + 1,
            nextAttemptAt := t.clock + BACKOFF_MINUTES[if l.attempts + 1 < 5 then l.attempts + 1 else 5] * MINUTE)
  }

  /** The queue after a sweep: the rows of the batch are tried, the others stay. */
  function Swept(q: Queue, batch: seq<Id>, tries: map<Id, Try>): Queue
    requires forall id <- batch :: id in tries
  {
    map id | id in q :: if id in batch then Tried(q[id], tries[id]) else q[id]
  }

  /** The queue as the mailer and the cron job write it. */
  class DeadLetterQueue {
    var rows: Queue

    constructor ()
      ensures rows == map[]
    {
      rows := map[];
    }

    method EnqueueDeadLetter(id: Id, clock: int)
      requires id !in rows
      modifies this
      ensures rows == old(rows)[id := Letter(Email, Pending, 1, clock + MINUTE)]
    {
      rows := rows[id := Letter(Email, Pending, 1, clock + MINUTE)];
    }

    /** One turn of the loop on the row it works on. A failing write leaves the row as it is. */
    method TryRow(letter: Letter, t: Try) returns (row: Letter)
      ensures row == Tried(letter, t)
    {
      row := letter;
      if !t.stored { return; }
      if row.channel != Email {
        row := row.(status := Failed);
        return;
      }
      if t.mailOk {
        row := row.(status := Sent, attempts := row.attempts + 1);
        return;
      }
      var nextAttempts := row.attempts + 1;
      if nextAttempts >= MAX_ATTEMPTS {
        row := row.(status := Failed, attempts := nextAttempts);
      } else {
        var backoff := BACKOFF_MINUTES[if nextAttempts < 5 then nextAttempts else 5];
        row := row.(status := Retrying, attempts := nextAttempts, nextAttemptAt := t.clock + backoff * MINUTE);
      }
    }

    method RunNotificationDlq(ghost now: int, due: seq<Id>, tries: map<Id, Try>)
      requires IsBatch(rows, now, due)
      requires forall id <- due :: id in tries
      modifies this
      ensures rows == Swept(old(rows), due, tries)
    {
      ghost var before := rows;
      assert Swept(before, due[..0], tries) == before;
      hide Tried;
      hide IsBatch;
      var i := 0;
      while i < |due|
        invariant 0 <= i <= |due|
        invariant rows == Swept(before, due[..i], tries)
      {
        OneMoreTried(before, now, due, i, tries);
        var id := due[i];
        var row := TryRow(rows[id], tries[id]);
        rows := rows[id := row];
        i := i + 1;
      }
      assert due[..|due|] == due;
    }
  }

  /** What one turn of the loop changes. */
  lemma OneMoreTried(q: Queue, now: int, due: seq<Id>, i: nat, tries: map<Id, Try>)
    requires IsBatch(q, now, due) && i < |due| && forall id <- due :: id in tries
    ensures due[i] in q && due[i] in tries && Swept(q, due[..i], tries)[due[i]] == q[due[i]]
    ensures Swept(q, due[..i + 1], tries) == Swept(q, due[..i], tries)[due[i] := Tried(q[due[i]], tries[due[i]])]
  {
    hide Tried;
    assert due[i] in due && due[i] !in due[..i] && due[..i + 1] == due[..i] + [due[i]];
    assert forall id :: id in due[..i + 1] <==> id in due[..i] || id == due[i];
  }

  // ---- runs of the queue ----

  datatype State = State(queue: Queue, clock: int)

  datatype Event =
    | Arrive(id: Id, at: int)
    | Sweep(now: int, batch: seq<Id>, tries: map<Id, Try>, end: int)

  ghost predicate Enabled(s: State, e: Event) {
    match e
    case Arrive(id, at) => id !in s.queue && s.clock <= at
    case Sweep(now, batch, tries, end) =>
      && s.clock <= now <= end
      && IsBatch(s.queue, now, batch)
      && forall id <- batch :: id in tries && now <= tries[id].clock <= end
  }

  ghost function Next(s: State, e: Event): State
    requires Enabled(s, e)
  {
    match e
    case Arrive(id, at) => State(s.queue[id := Letter(Email, Pending, 1, at + MINUTE)], at)
    case Sweep(now, batch, tries, end) => State(Swept(s.queue, batch, tries), end)
  }

  ghost predicate ValidRun(s: State, events: seq<Event>)
    decreases |events|
  {
    events == [] || (Enabled(s, events[0]) && ValidRun(Next(s, events[0]), events[1..]))
  }

  ghost function Final(s: State, events: seq<Event>): State
    requires ValidRun(s, events)
    decreases |events|
  {
    if events == [] then s else Final(Next(s, events[0]), events[1..])
  }

  ghost predicate Picks(e: Event, id: Id) { e.Sweep? && id in e.batch }

  /** A pick whose result reaches the table. */
  ghost predicate Settles(e: Event, id: Id) { Picks(e, id) && id in e.tries && e.tries[id].stored }

  /** The picks of a sweep that a failing write undoes. */
  ghost function Undone(e: Event): set<Id> {
    if e.Sweep? then set id | id in e.batch && id in e.tries && !e.tries[id].stored else {}
  }

  ghost function Sweeps(events: seq<Event>): nat {
    if events == [] then 0 else (if events[0].Sweep? then 1 else 0) + Sweeps(events[1..])
  }

  ghost function UndonePicks(events: seq<Event>): nat {
    if events == [] then 0 else |Undone(events[0])| + UndonePicks(events[1..])
  }

  /** The tries of a row whose results reached the table. */
  ghost function Tries(events: seq<Event>, id: Id): nat {
    if events == [] then 0 else (if Settles(events[0], id) then 1 else 0) + Tries(events[1..], id)
  }

  // ---- no starvation ----

  /** The active rows that are due no later than `t`. */
  ghost function AtOrBefore(q: Queue, t: int): set<Id> {
    set id | id in q && Active(q[id]) && q[id].nextAttemptAt <= t
  }

  /** A tried row is settled or rescheduled past every time up to the clock, unless its write fails. */
  lemma LandsBehind(l: Letter, t: Try, bound: int)
    requires Active(l) && l.nextAttemptAt <= bound <= t.clock
    ensures Active(Tried(l, t)) && Tried(l, t).nextAttemptAt <= bound <==> !t.stored
  {
  }

  /** A sweep that passes a due row over takes 50 rows from ahead of it, and all but the undone ones land behind it. */
  lemma PassedOverMeansProgress(s: State, e: Event, x: Id)
    requires e.Sweep? && Enabled(s, e)
    requires x in s.queue && Active(s.queue[x]) && s.queue[x].nextAttemptAt <= s.clock
    requires x !in e.batch
    ensures var t := s.queue[x].nextAttemptAt;
            Next(s, e).queue[x] == s.queue[x]
            && |AtOrBefore(Next(s, e).queue, t)| == |AtOrBefore(s.queue, t)| - BATCH + |Undone(e)|
  {
    var t := s.queue[x].nextAttemptAt;
    var q' := Next(s, e).queue;
    var taken := Members(e.batch);
    assert x in DueRows(s.queue, e.now);
    assert |e.batch| == BATCH;
    DistinctCardinality(e.batch);
    assert taken <= AtOrBefore(s.queue, t);
    forall id | id in taken ensures id in AtOrBefore(q', t) <==> id in Undone(e) {
      assert id in e.batch;
      LandsBehind(s.queue[id], e.tries[id], t);
    }
    hide Tried;
    hide IsBatch;
    assert AtOrBefore(q', t) == AtOrBefore(s.queue, t) - (taken - Undone(e));
    assert Undone(e) <= taken;
  }

  lemma {:induction false} StillWaiting(s: State, events: seq<Event>, x: Id)
    requires ValidRun(s, events)
    requires x in s.queue && Active(s.queue[x]) && s.queue[x].nextAttemptAt <= s.clock
    requires forall e <- events :: !Picks(e, x)
    ensures BATCH * Sweeps(events) < |AtOrBefore(s.queue, s.queue[x].nextAttemptAt)| + UndonePicks(events)
    decreases |events|
  {
    var t := s.queue[x].nextAttemptAt;
    assert x in AtOrBefore(s.queue, t);
    if events == [] {
      assert AtOrBefore(s.queue, t) != {};
    } else {
      var e := events[0];
      assert e in events;
      var s' := Next(s, e);
      if e.Sweep? {
        PassedOverMeansProgress(s, e, x);
      } else {
        assert AtOrBefore(s'.queue, t) == AtOrBefore(s.queue, t);
      }
      StillWaiting(s', events[1..], x);
    }
  }

  /**
   No starvation: a due row with k active rows at or before it (itself included) is picked within
   k/50 sweeps, rounded up, whatever arrives and whatever the mails do. Each failing database write
   costs one more place.
   */
  lemma NoStarvation(s: State, events: seq<Event>, x: Id)
    requires ValidRun(s, events)
    requires x in s.queue && Active(s.queue[x]) && s.queue[x].nextAttemptAt <= s.clock
    requires 50 * Sweeps(events) >= |AtOrBefore(s.queue, s.queue[x].nextAttemptAt)| + UndonePicks(events)
    ensures exists e <- events :: Picks(e, x)
  {
    if forall e <- events :: !Picks(e, x) {
      StillWaiting(s, events, x);
    }
  }

  // ---- every row is settled after at most five retries ----

  /** SENT and FAILED are final: such a row is never picked and never changes. */
  lemma {:induction false} SettledForGood(s: State, events: seq<Event>, x: Id)
    requires ValidRun(s, events)
    requires x in s.queue && !Active(s.queue[x])
    ensures x in Final(s, events).queue && Final(s, events).queue[x] == s.queue[x]
    ensures forall e <- events :: !Picks(e, x)
    ensures Tries(events, x) == 0
    decreases |events|
  {
    if events == [] {
    } else {
      SettledForGood(Next(s, events[0]), events[1..], x);
    }
  }

  /**
   6 - attempts bounds the remaining tries of an active row; a row that used them all up, or was
   delivered once, is settled, and one still active has counted every try.
   */
  lemma {:induction false} RetriesAreBounded(s: State, events: seq<Event>, x: Id)
    requires ValidRun(s, events)
    requires x in s.queue && Active(s.queue[x]) && s.queue[x].attempts < MAX_ATTEMPTS
    ensures x in Final(s, events).queue
    ensures Tries(events, x) <= MAX_ATTEMPTS - s.queue[x].attempts
    ensures var l := Final(s, events).queue[x];
            Active(l) ==> l.attempts == s.queue[x].attempts + Tries(events, x) < MAX_ATTEMPTS
    decreases |events|
  {
    if events == [] {
    } else {
      var e := events[0];
      assert e in events;
      var s' := Next(s, e);
      if Active(s'.queue[x]) {
        RetriesAreBounded(s', events[1..], x);
      } else {
        SettledForGood(s', events[1..], x);
      }
    }
  }

  /** All tries of a row, recorded or not, and those whose write fails. */
  ghost function Attempts(events: seq<Event>, id: Id): nat {
    if events == [] then 0 else (if Picks(events[0], id) then 1 else 0) + Attempts(events[1..], id)
  }

  ghost function FailedWrites(events: seq<Event>, id: Id): nat {
    if events == [] then 0
    else (if events[0].Sweep? && id in Undone(events[0]) then 1 else 0) + FailedWrites(events[1..], id)
  }

  lemma {:induction false} AttemptsAreRecordedOrFail(s: State, events: seq<Event>, x: Id)
    requires ValidRun(s, events)
    ensures Attempts(events, x) == Tries(events, x) + FailedWrites(events, x)
    decreases |events|
  {
    if events == [] {
    } else {
      AttemptsAreRecordedOrFail(Next(s, events[0]), events[1..], x);
    }
  }

  /**
   A mail that was queued at any point of a run has at most five recorded tries, and after five it is
   settled. It is tried at most five times more than its writes fail.
   */
  lemma QueuedMailSettles(s: State, at: int, x: Id, events: seq<Event>)
    requires Enabled(s, Arrive(x, at))
    requires ValidRun(Next(s, Arrive(x, at)), events)
    ensures Tries(events, x) <= 5 && Attempts(events, x) <= 5 + FailedWrites(events, x)
    ensures x in Final(Next(s, Arrive(x, at)), events).queue
    ensures Tries(events, x) == 5 ==> !Active(Final(Next(s, Arrive(x, at)), events).queue[x])
  {
    RetriesAreBounded(Next(s, Arrive(x, at)), events, x);
    AttemptsAreRecordedOrFail(Next(s, Arrive(x, at)), events, x);
  }

  ghost predicate GoesOut(e: Event, id: Id) { Picks(e, id) && id in e.tries && e.tries[id].mailOk }

  /** The copies of a mail that go out. */
  ghost function Copies(events: seq<Event>, id: Id): nat {
    if events == [] then 0 else (if GoesOut(events[0], id) then 1 else 0) + Copies(events[1..], id)
  }

  /** The copies that go out although the row cannot be marked SENT. */
  ghost function UnrecordedCopies(events: seq<Event>, id: Id): nat {
    if events == [] then 0
    else (if GoesOut(events[0], id) && !events[0].tries[id].stored then 1 else 0) + UnrecordedCopies(events[1..], id)
  }

  lemma {:induction false} NotPickedNotSent(events: seq<Event>, x: Id)
    requires forall e <- events :: !Picks(e, x)
    ensures Copies(events, x) == 0 && UnrecordedCopies(events, x) == 0
  {
    if events == [] {
    } else {
      assert events[0] in events;
      NotPickedNotSent(events[1..], x);
    }
  }

  /**
   Delivery is exactly once up to failing writes: besides the copy that SENT stands for, a mail goes out
   once more for each time it went out and the row could not be marked. FAILED means that every try on
   record was refused.
   */
  lemma {:induction false} CopiesAreAccounted(s: State, events: seq<Event>, x: Id)
    requires ValidRun(s, events)
    requires x in s.queue && Active(s.queue[x]) && s.queue[x].channel == Email && s.queue[x].attempts < MAX_ATTEMPTS
    ensures x in Final(s, events).queue
    ensures Copies(events, x) == (if Final(s, events).queue[x].status == Sent then 1 else 0)
            + UnrecordedCopies(events, x)
    ensures Final(s, events).queue[x].status == Failed ==> Tries(events, x) == MAX_ATTEMPTS - s.queue[x].attempts
    decreases |events|
  {
    if events == [] {
    } else {
      var e := events[0];
      assert e in events;
      var s' := Next(s, e);
      if Active(s'.queue[x]) {
        CopiesAreAccounted(s', events[1..], x);
      } else {
        SettledForGood(s', events[1..], x);
        NotPickedNotSent(events[1..], x);
      }
    }
  }

  /**
   The comment on the table promises 1, 5, 15 minutes and so on. A queued mail starts with one attempt
   counted, so its first retry already waits for the third entry: a quarter of an hour after the second
   attempt, then one, six and twenty-four hours.
   */
  lemma WaitsOfQueuedMail(l: Letter, clock: int)
    requires l.channel == Email && l.attempts < MAX_ATTEMPTS - 1
    ensures var l' := Tried(l, Try(false, true, clock));
            var wait := l'.nextAttemptAt - clock;
            && l'.status == Retrying && l'.attempts == l.attempts + 1
            && (l'.attempts == 1 ==> wait == 5 * 60_000)
            && (l'.attempts == 2 ==> wait == 15 * 60_000)
            && (l'.attempts == 3 ==> wait == 60 * 60_000)
            && (l'.attempts == 4 ==> wait == 6 * 60 * 60_000)
            && (l'.attempts == 5 ==> wait == 24 * 60 * 60_000)
            && (l'.attempts < MAX_ATTEMPTS - 1 ==> Tried(l', Try(false, true, clock)).nextAttemptAt - clock > wait)
  {
  }

  /** The sixth recorded refusal is the last, and every recorded try of a mail counts once. */
  lemma RefusalsAreCounted(l: Letter, t: Try)
    requires l.channel == Email && t.stored
    ensures Tried(l, t).attempts == l.attempts + 1
    ensures !t.mailOk ==> (Tried(l, t).status == Failed <==> l.attempts + 1 >= 6)
    ensures !t.mailOk ==> (Tried(l, t).status == Retrying <==> l.attempts + 1 < 6)
  {
  }

  /** A row of another channel fails at its first recorded try, and a delivered mail is SENT at its first. */
  lemma FirstTrySettles(l: Letter, t: Try)
    requires Active(l) && t.stored && (l.channel != Email || t.mailOk)
    ensures Tried(l, t).status == (if l.channel == Email then Sent else Failed)
    ensures Tried(l, t).attempts == l.attempts + (if l.channel == Email then 1 else 0)
  {
  }

  // ---- the query always has an answer ----

  lemma {:induction false} PageExists(q: Queue, due: set<Id>, limit: nat) returns (batch: seq<Id>)
    requires due <= q.Keys
    ensures IsPage(q, due, limit, batch)
    decreases limit
  {
    if due == {} || limit == 0 { return []; }
    var first := Earliest(q, due);
    var rest := PageExists(q, due - {first}, limit - 1);
    batch := [first] + rest;
    forall id | id in due && id !in batch ensures id in due - {first} {}
  }

  lemma {:induction false} Earliest(q: Queue, due: set<Id>) returns (first: Id)
    requires due <= q.Keys && due != {}
    ensures first in due && forall id <- due :: q[first].nextAttemptAt <= q[id].nextAttemptAt
    decreases |due|
  {
    first :| first in due;
    if due == {first} {
    } else {
      var other := Earliest(q, due - {first});
      if q[other].nextAttemptAt < q[first].nextAttemptAt { first := other; }
    }
  }

  /** In every state some batch answers the query, so a sweep is always possible. */
  lemma SweepAlwaysPossible(s: State)
    ensures exists batch :: IsBatch(s.queue, s.clock, batch)
  {
    var batch := PageExists(s.queue, DueRows(s.queue, s.clock), BATCH);
    assert IsBatch(s.queue, s.clock, batch);
  }

  // ---- why failing writes are counted ----

  ghost predicate Slot(id: nat) { id <= 50 }

  ghost function Blocked(): Queue {
    map id: nat | 0 <= id <= 50 && Slot(id) :: Letter(Email, Pending, 1, if id == 50 then 1 else 0)
  }

  /**
   The catch branch leaves a row where it is. When the writes of the fifty rows ahead keep failing,
   row 50 of this queue is passed over by any number of sweeps.
   */
  lemma {:induction false} StoreFailuresStarve(n: nat) returns (events: seq<Event>)
    ensures ValidRun(State(Blocked(), 1), events) && Sweeps(events) == n
    ensures forall e <- events :: !Picks(e, 50)
  {
    if n == 0 { return []; }
    var batch := seq(50, i => i);
    var tries := map id: nat | 0 <= id <= 50 && Slot(id) :: Try(false, false, 1);
    var e := Sweep(1, batch, tries, 1);
    var s := State(Blocked(), 1);
    assert forall id: nat :: id in batch <==> id < 50 by {
      forall id: nat | id < 50 ensures id in batch { assert batch[id] == id; }
    }
    assert Enabled(s, e);
    assert Next(s, e).queue == s.queue;
    var rest := StoreFailuresStarve(n - 1);
    events := [e] + rest;
    assert events[1..] == rest;
  }
}
