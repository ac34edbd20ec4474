/**
 Rate limits that are checked only when a row is created: the handler counts the rows of the last hour
 and refuses at the limit. `stamps` are the creation times of the rows that one limiter counts.
 */
module SlidingWindow {

  const HOUR := 3_600_000

  /** Rows with lo < createdAt <= hi. */
  function CountIn(stamps: seq<int>, lo: int, hi: int): nat {
    if stamps == [] then 0
    else CountIn(stamps[..|stamps| - 1], lo, hi) + if lo < stamps[|stamps| - 1] <= hi then 1 else 0
  }

  /** The rows a handler counts: those created after `since`. */
  function CountSince(stamps: seq<int>, since: int): nat {
    if stamps == [] then 0
    else CountSince(stamps[..|stamps| - 1], since) + if stamps[|stamps| - 1] > since then 1 else 0
  }

  ghost predicate Sorted(stamps: seq<int>) {
    forall i, j :: 0 <= i < j < |stamps| ==> stamps[i] <= stamps[j]
  }

  /** Any row and the one `limit` rows later are at least an hour apart. */
  ghost predicate SpacedOut(stamps: seq<int>, limit: nat) {
    forall i, j :: 0 <= i && i + limit <= j < |stamps| ==> stamps[i] + HOUR <= stamps[j]
  }

  ghost predicate NotAfter(stamps: seq<int>, t: int) { forall i :: 0 <= i < |stamps| ==> stamps[i] <= t }

  /** What the handler counts is the window of the last hour, no more and no less. */
  lemma {:induction false} CountsTheLastHour(stamps: seq<int>, since: int, now: int)
    requires NotAfter(stamps, now)
    ensures CountSince(stamps, since) == CountIn(stamps, since, now)
  {
    if stamps == [] {
    } else {
      CountsTheLastHour(stamps[..|stamps| - 1], since, now);
    }
  }

  /** In a sorted table the rows counted are the last ones. */
  lemma {:induction false} CountsFromTheEnd(stamps: seq<int>, since: int, k: nat)
    requires Sorted(stamps) && k < |stamps| && stamps[k] > since
    ensures CountSince(stamps, since) >= |stamps| - k
    decreases |stamps|
  {
    if k == |stamps| - 1 {
    } else {
      CountsFromTheEnd(stamps[..|stamps| - 1], since, k);
    }
  }

  /** The check at creation keeps the rows spaced out. */
  lemma InsertKeepsSpacing(stamps: seq<int>, limit: nat, now: int)
    requires limit > 0 && Sorted(stamps) && SpacedOut(stamps, limit) && NotAfter(stamps, now)
    requires CountSince(stamps, now - HOUR) < limit
    ensures Sorted(stamps + [now]) && SpacedOut(stamps + [now], limit) && NotAfter(stamps + [now], now)
  {
    forall i | 0 <= i && i + limit <= |stamps| ensures stamps[i] + HOUR <= now {
      if stamps[i] > now - HOUR { CountsFromTheEnd(stamps, now - HOUR, i); }
    }
  }

  /** Among k counted rows of a sorted table, one lies at least k places from the end. */
  lemma {:induction false} CountedMembers(stamps: seq<int>, lo: int, hi: int, k: nat)
    requires Sorted(stamps) && CountIn(stamps, lo, hi) >= k > 0
    ensures exists i :: 0 <= i && i + k <= |stamps| && lo < stamps[i] <= hi
    decreases |stamps|
  {
    var front, last := stamps[..|stamps| - 1], stamps[|stamps| - 1];
    if lo < last <= hi && k == 1 {
      assert |stamps| - 1 + k <= |stamps| && lo < stamps[|stamps| - 1] <= hi;
    } else {
      var fewer := if lo < last <= hi then k - 1 else k;
      CountedMembers(front, lo, hi, fewer);
      var i :| 0 <= i && i + fewer <= |front| && lo < front[i] <= hi;
      assert i + k <= |stamps| && lo < stamps[i] <= hi;
    }
  }

  /** Although the limit is only checked at creation, no window of an hour, ending anywhere, exceeds it. */
  lemma {:induction false} EveryWindowIsBounded(stamps: seq<int>, limit: nat, hi: int)
    requires Sorted(stamps) && SpacedOut(stamps, limit)
    ensures CountIn(stamps, hi - HOUR, hi) <= limit
    decreases |stamps|
  {
    if stamps == [] { return; }
    var front, last := stamps[..|stamps| - 1], stamps[|stamps| - 1];
    EveryWindowIsBounded(front, limit, hi);
    if hi - HOUR < last <= hi && CountIn(front, hi - HOUR, hi) == limit {
      if limit > 0 { CountedMembers(front, hi - HOUR, hi, limit); }
    }
  }
}
