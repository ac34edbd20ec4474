/**
 Day and month arithmetic of Date in UTC, after section 21.4.1 of ECMA-262. A day is a day number
 (0 is 1 January 1970); a month is 12 * year + month, counted from 0.
 */
module CivilCalendar {

  const JANUARY_1970 := 12 * 1970

  function DayFromYear(y: int): int {
    365 * (y - 1970) + (y - 1969) / 4 - (y - 1901) / 100 + (y - 1601) / 400
  }

  predicate IsLeap(y: int) { y % 4 == 0 && (y % 100 != 0 || y % 400 == 0) }

  function MonthLength(m: int): int {
    var month := m % 12;
    if month == 1 then (if IsLeap(m / 12) then 29 else 28)
    else if month in {3, 5, 8, 10} then 30 else 31
  }

  lemma MonthLengths(m: int)
    ensures 28 <= MonthLength(m) <= 31
  {
  }

  const DAYS_BEFORE: seq<int> := [0, 31, 59, 90, 120, 151, 181, 212, 243, 273, 304, 334]

  /** Day number of the first of a month. */
  function MonthStart(m: int): int {
    DayFromYear(m / 12) + DAYS_BEFORE[m % 12] + if m % 12 >= 2 && IsLeap(m / 12) then 1 else 0
  }

  lemma YearStep(y: int)
    ensures DayFromYear(y + 1) == DayFromYear(y) + if IsLeap(y) then 366 else 365
  {
    FourthYears(y);
    Centuries(y);
    FourthCenturies(y);
    CenturiesAreFourthYears(y);
  }

  /** Four centuries are 146097 days, whatever the year they start in. */
  lemma GregorianCycle(y: int)
    ensures DayFromYear(y + 400) == DayFromYear(y) + 146_097
  {
    FourthYearsPerCycle(y - 1969);
    CenturiesPerCycle(y - 1901);
    CyclesPerCycle(y - 1601);
  }

  lemma FourthYearsPerCycle(years: int)
    ensures (years + 400) / 4 == years / 4 + 100
  {
  }

  lemma CenturiesPerCycle(years: int)
    ensures (years + 400) / 100 == years / 100 + 4
  {
  }

  lemma CyclesPerCycle(years: int)
    ensures (years + 400) / 400 == years / 400 + 1
  {
  }

  lemma FourthYears(y: int)
    ensures (y - 1968) / 4 - (y - 1969) / 4 == if y % 4 == 0 then 1 else 0
  {
  }

  lemma Centuries(y: int)
    ensures (y - 1900) / 100 - (y - 1901) / 100 == if y % 100 == 0 then 1 else 0
  {
  }

  lemma FourthCenturies(y: int)
    ensures (y - 1600) / 400 - (y - 1601) / 400 == if y % 400 == 0 then 1 else 0
  {
  }

  lemma CenturiesAreFourthYears(y: int)
    ensures y % 400 == 0 ==> y % 100 == 0
    ensures y % 100 == 0 ==> y % 4 == 0
  {
  }

  /** The month table is consistent: each month ends where the next begins. */
  lemma MonthStep(m: int)
    ensures MonthStart(m + 1) == MonthStart(m) + MonthLength(m)
  {
    if m % 12 == 11 {
      assert (m + 1) / 12 == m / 12 + 1 && (m + 1) % 12 == 0;
      YearStep(m / 12);
    } else {
      assert (m + 1) / 12 == m / 12 && (m + 1) % 12 == m % 12 + 1;
    }
  }

  lemma {:induction false} MonthStartsAscend(m1: int, m2: int)
    requires m1 <= m2
    ensures MonthStart(m1) + 28 * (m2 - m1) <= MonthStart(m2)
    decreases m2 - m1
  {
    if m1 == m2 {
    } else {
      MonthStep(m2 - 1);
      MonthLengths(m2 - 1);
      hide MonthStart;
      hide MonthLength;
      MonthStartsAscend(m1, m2 - 1);
    }
  }

  predicate InMonth(day: int, m: int) { MonthStart(m) <= day < MonthStart(m + 1) }

  /** Walks from a guess to the month that contains the day. */
  function SeekMonth(day: int, guess: int): (m: int)
    ensures InMonth(day, m)
    decreases if day < MonthStart(guess) then 1 else 0,
              if day < MonthStart(guess) then MonthStart(guess) - day else day - MonthStart(guess)
  {
    MonthStep(guess - 1);
    MonthStep(guess);
    MonthLengths(guess - 1);
    MonthLengths(guess);
    hide MonthStart;
    hide MonthLength;
    if day < MonthStart(guess) then SeekMonth(day, guess - 1)
    else if day >= MonthStart(guess + 1) then SeekMonth(day, guess + 1)
    else guess
  }

  /** The calendar month of a day. */
  function MonthOf(day: int): (m: int)
    ensures InMonth(day, m)
  {
    SeekMonth(day, JANUARY_1970)
  }

  lemma MonthIsUnique(day: int, m: int)
    requires InMonth(day, m)
    ensures MonthOf(day) == m
  {
    hide MonthStart;
    var found := MonthOf(day);
    if found < m { MonthStartsAscend(found + 1, m); }
    if m < found { MonthStartsAscend(m + 1, found); }
  }

  lemma MonthsFollowDays(day1: int, day2: int)
    requires day1 <= day2
    ensures MonthOf(day1) <= MonthOf(day2)
  {
    hide MonthStart;
    if MonthOf(day2) < MonthOf(day1) { MonthStartsAscend(MonthOf(day2) + 1, MonthOf(day1)); }
  }

  /** The day of the month, from 1. */
  function DateOf(day: int): (d: int)
    ensures 1 <= d <= MonthLength(MonthOf(day))
  {
    MonthStep(MonthOf(day));
    hide MonthStart;
    hide MonthLength;
    day - MonthStart(MonthOf(day)) + 1
  }

  /** MakeDay: a date past the end of its month runs over into the next. */
  function MakeDay(m: int, date: int): int { MonthStart(m) + date - 1 }

  function SetDate(day: int, date: int): int { MakeDay(MonthOf(day), date) }
  function SetMonth(day: int, m: int): int { MakeDay(m, DateOf(day)) }
  function SetFullYear(day: int, y: int): int { MakeDay(12 * y + MonthOf(day) % 12, DateOf(day)) }

  /** Where MakeDay lands for a date of at most 31. */
  lemma WhereMakeDayLands(m: int, date: int)
    requires 1 <= date <= 31
    ensures MonthOf(MakeDay(m, date)) == if date <= MonthLength(m) then m else m + 1
    ensures DateOf(MakeDay(m, date)) == if date <= MonthLength(m) then date else date - MonthLength(m)
  {
    hide MonthStart;
    hide MonthOf;
    MonthLengths(m);
    MonthLengths(m + 1);
    hide MonthLength;
    MonthStep(m);
    MonthStep(m + 1);
    MonthIsUnique(MakeDay(m, date), if date <= MonthLength(m) then m else m + 1);
  }

  /** A month with fewer than 31 days is followed by one with 31. */
  lemma ShortThenLong(m: int)
    requires MonthLength(m) < 31
    ensures MonthLength(m + 1) == 31
  {
    assert (m + 1) % 12 == if m % 12 == 11 then 0 else m % 12 + 1;
  }
}
