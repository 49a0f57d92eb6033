/** The proleptic Gregorian calendar, by month. A month is numbered 12 * year + (month - 1); a day counts from
    0000-01-01; an instant is nanoseconds from the start of that day, UTC. */
module Calendar {

  const SECOND: int := 1_000_000_000
  const DAY: int := 86_400_000_000_000

  predicate Leap(year: int) {
    year % 4 == 0 && (year % 100 != 0 || year % 400 == 0)
  }

  function DaysIn(month: int): (d: int)
    ensures 28 <= d <= 31
  {
    var m := month % 12;
    if m == 1 then (if Leap(month / 12) then 29 else 28) else
    if m == 3 || m == 5 || m == 8 || m == 10 then 30 else 31
  }

  /** The first day of a month. */
  function MonthStart(month: int): int
    decreases if month >= 0 then month else -month
  {
    if month == 0 then 0 else
    if month > 0 then MonthStart(month - 1) + DaysIn(month - 1)
    else MonthStart(month + 1) - DaysIn(month)
  }

  lemma NextMonth(month: int)
    ensures MonthStart(month + 1) == MonthStart(month) + DaysIn(month)
  {}

  lemma {:induction false} MonthsApart(a: int, b: int)
    requires a <= b
    ensures MonthStart(a) + 28 * (b - a) <= MonthStart(b) <= MonthStart(a) + 31 * (b - a)
    decreases b - a
  {
    if a < b {
      MonthsApart(a, b - 1);
      NextMonth(b - 1);
    }
  }

  /** The month a day lies in, found by stepping from `near`. */
  function MonthNear(day: int, near: int): (m: int)
    ensures MonthStart(m) <= day < MonthStart(m + 1)
    decreases
      if day < MonthStart(near) then MonthStart(near) - day
      else if day >= MonthStart(near + 1) then day - MonthStart(near) + 1 else 0
  {
    NextMonth(near);
    NextMonth(near - 1);
    if day < MonthStart(near) then MonthNear(day, near - 1) else
    if day >= MonthStart(near + 1) then MonthNear(day, near + 1) else near
  }

  function MonthOf(day: int): (m: int)
    ensures MonthStart(m) <= day < MonthStart(m + 1)
  {
    MonthNear(day, 0)
  }

  /** No day lies in two months. */
  lemma MonthUnique(day: int, m: int)
    requires MonthStart(m) <= day < MonthStart(m + 1)
    ensures MonthOf(day) == m
  {
    var n := MonthOf(day);
    if n < m { MonthsApart(n + 1, m); }
    if m < n { MonthsApart(m + 1, n); }
  }

  function DayOf(t: int): int { t / 86_400_000_000_000 }

  /** The first instant of a day. */
  function Midnight(day: int): int { day * 86_400_000_000_000 }

  lemma DayBounds(t: int, d: int)
    ensures d <= DayOf(t) <==> Midnight(d) <= t
  {}

  function MonthOfInstant(t: int): int { MonthOf(DayOf(t)) }

  function MonthStartsAt(month: int): int { Midnight(MonthStart(month)) }

  /** An instant is inside its month, and inside no other. */
  lemma InstantInMonth(t: int, m: int)
    ensures MonthOfInstant(t) == m <==> MonthStartsAt(m) <= t < MonthStartsAt(m + 1)
  {
    hide MonthStart;
    hide DayOf;
    hide Midnight;
    hide MonthOf;
    DayBounds(t, MonthStart(m));
    DayBounds(t, MonthStart(m + 1));
    if MonthStartsAt(m) <= t < MonthStartsAt(m + 1) {
      MonthUnique(DayOf(t), m);
    }
  }

  // ----- the calendar against its closed form

  /** Leap days in the years before `year`. */
  function LeapDaysBefore(year: nat): int {
    (year + 3) / 4 - (year + 99) / 100 + (year + 399) / 400
  }

  lemma Fourths(y: nat)
    ensures (y + 4) / 4 == (y + 3) / 4 + if y % 4 == 0 then 1 else 0
  {}

  lemma Hundredths(y: nat)
    ensures (y + 100) / 100 == (y + 99) / 100 + if y % 100 == 0 then 1 else 0
    ensures y % 100 == 0 ==> y % 4 == 0
  {
    var q, r := y / 100, y % 100;
    assert y == 100 * q + r;
    assert (100 * q + (r + 100)) / 100 == q + 1;
    if r == 0 {
      assert (100 * q + 99) / 100 == q;
      assert y == 4 * (25 * q);
    } else {
      assert (100 * q + (r + 99)) / 100 == q + 1;
    }
  }

  lemma FourHundredths(y: nat)
    ensures (y + 400) / 400 == (y + 399) / 400 + if y % 400 == 0 then 1 else 0
    ensures y % 400 == 0 ==> y % 100 == 0
  {
    var q, r := y / 400, y % 400;
    assert y == 400 * q + r;
    assert (400 * q + (r + 400)) / 400 == q + 1;
    if r == 0 {
      assert (400 * q + 399) / 400 == q;
      assert y == 100 * (4 * q);
    } else {
      assert (400 * q + (r + 399)) / 400 == q + 1;
    }
  }

  /** The months of a year: their lengths, and so the year's. */
  lemma YearOfMonths(year: int)
    ensures MonthStart(12 * (year + 1)) == MonthStart(12 * year) + if Leap(year) then 366 else 365
  {
    hide MonthStart;
    hide Leap;
    MonthLength(year, 0); MonthLength(year, 1); MonthLength(year, 2); MonthLength(year, 3);
    MonthLength(year, 4); MonthLength(year, 5); MonthLength(year, 6); MonthLength(year, 7);
    MonthLength(year, 8); MonthLength(year, 9); MonthLength(year, 10); MonthLength(year, 11);
  }

  /** January to December. */
  lemma MonthLength(year: int, m: nat)
    requires m < 12
    ensures var length := [31, if Leap(year) then 29 else 28, 31, 30, 31, 30, 31, 31, 30, 31, 30, 31][m];
      DaysIn(12 * year + m) == length && MonthStart(12 * year + m + 1) == MonthStart(12 * year + m) + length
  {
    assert (12 * year + m) / 12 == year && (12 * year + m) % 12 == m;
    NextMonth(12 * year + m);
  }

  /** A year starts 365 days for each year and one for each leap year before it: every fourth, but not every hundredth, but every
      four-hundredth. */
  lemma {:induction false} YearStart(year: nat)
    ensures MonthStart(12 * year) == 365 * year + LeapDaysBefore(year)
  {
    if year > 0 {
      YearStart(year - 1);
      LeapDayCounted(year - 1);
      YearOfMonths(year - 1);
    }
  }

  lemma LeapDayCounted(y: nat)
    ensures LeapDaysBefore(y + 1) == LeapDaysBefore(y) + if Leap(y) then 1 else 0
  {
    Fourths(y);
    Hundredths(y);
    FourHundredths(y);
    LeapByDivisors(y, y % 4 == 0, y % 100 == 0, y % 400 == 0);
    hide Leap;
  }

  lemma LeapByDivisors(y: int, fourth: bool, hundredth: bool, fourHundredth: bool)
    requires fourth == (y % 4 == 0) && hundredth == (y % 100 == 0) && fourHundredth == (y % 400 == 0)
    ensures Leap(y) == (fourth && (!hundredth || fourHundredth))
  {}

  /** The first of January 1970 is day 719528, and four centuries have 146097 days. */
  lemma Epoch()
    ensures MonthStart(12 * 1970) == 719528 && MonthStart(12 * 400) == 146097
  {
    hide MonthStart;
    YearStart(1970);
    YearStart(400);
  }
}
