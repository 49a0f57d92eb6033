/** The months an incident history offers (internal/api/handlers_statushistory.go): those that meet the last 90 days. */
module HistoryMonths {
  import opened Calendar

  const WINDOW: int := 90 * DAY

  /** The months from `m` back whose end is after `since`, newest first. */
  function MonthsBack(m: int, since: int): seq<int>
    decreases Left(m, since)
  {
    NextMonth(m);
    if MonthStartsAt(m + 1) <= since then [] else [m] + MonthsBack(m - 1, since)
  }

  /** Time from `since` to the end of month `m`. */
  function Left(m: int, since: int): nat {
    if MonthStartsAt(m + 1) > since then MonthStartsAt(m + 1) - since else 0
  }

  method HistoryMonthsOffered(since: int, now: int) returns (out: seq<int>)
    ensures out == MonthsBack(MonthOfInstant(now), since)
  {
    out := [];
    var m := MonthOfInstant(now);
    while MonthStartsAt(m + 1) > since
      invariant out + MonthsBack(m, since) == MonthsBack(MonthOfInstant(now), since)
      decreases Left(m, since)
    {
      NextMonth(m);
      out := out + [m];
      m := m - 1;
    }
  }

  /** Consecutive months, newest first from `m`, all ending after `since`. */
  predicate Countdown(out: seq<int>, m: int, since: int) {
    forall i :: 0 <= i < |out| ==> out[i] == m - i && MonthStartsAt(out[i] + 1) > since
  }

  lemma OneMore(m: int, since: int)
    ensures MonthStartsAt(m + 1) <= since ==> MonthsBack(m, since) == []
    ensures MonthStartsAt(m + 1) > since ==>
      MonthsBack(m, since) == [m] + MonthsBack(m - 1, since) && Left(m - 1, since) < Left(m, since)
  {
    NextMonth(m);
  }

  lemma {:induction false} MonthsBackInOrder(m: int, since: int)
    ensures Countdown(MonthsBack(m, since), m, since)
    ensures MonthStartsAt(m - |MonthsBack(m, since)| + 1) <= since
    decreases Left(m, since)
  {
    hide Left;
    hide MonthsBack;
    hide MonthStartsAt;
    OneMore(m, since);
    if MonthStartsAt(m + 1) > since {
      MonthsBackInOrder(m - 1, since);
    }
  }

  lemma EndsLater(a: int, b: int)
    requires a <= b
    ensures MonthStartsAt(a) <= MonthStartsAt(b)
  {
    hide MonthStart;
    MonthsApart(a, b);
  }

  /** Exactly the months up to `m` that end after `since`. */
  lemma MonthsBackMembers(m: int, since: int, k: int)
    ensures k in MonthsBack(m, since) <==> k <= m && MonthStartsAt(k + 1) > since
  {
    hide MonthStartsAt;
    hide MonthsBack;
    MonthsBackInOrder(m, since);
    var out := MonthsBack(m, since);
    if k <= m && MonthStartsAt(k + 1) > since {
      if m - k >= |out| {
        EndsLater(k + 1, m - |out| + 1);
      }
      assert out[m - k] == k;
    }
  }

  /** How many months are offered when the month `k` places back ends at or before `since`. */
  lemma CountOffered(m: int, since: int, k: nat)
    ensures |MonthsBack(m, since)| > k <==> MonthStartsAt(m - k + 1) > since
  {
    hide MonthStartsAt;
    hide MonthsBack;
    MonthsBackInOrder(m, since);
    var out := MonthsBack(m, since);
    if |out| <= k {
      EndsLater(m - k + 1, m - |out| + 1);
    } else {
      assert out[k] == m - k;
    }
  }

  /** The length of three consecutive months: at least 90 days, but for February to April of a common year. */
  lemma ThreeMonths(m: int)
    ensures DaysIn(m - 1) + DaysIn(m - 2) + DaysIn(m - 3) >= 89
    ensures DaysIn(m - 1) + DaysIn(m - 2) + DaysIn(m - 3) == 89 <==> m % 12 == 4 && !Leap(m / 12)
  {
    hide Leap;
    var y, r := m / 12, m % 12;
    InYear(y, r - 1); InYear(y, r - 2); InYear(y, r - 3);
    InYear(y - 1, r + 11); InYear(y - 1, r + 10); InYear(y - 1, r + 9);
  }

  lemma InYear(y: int, r: int)
    ensures 0 <= r < 12 ==> (12 * y + r) / 12 == y && (12 * y + r) % 12 == r
  {}

  /** Between three and five months are offered, so the default month always exists; there are five exactly on the
      first of May of a common year. */
  lemma OfferedMonths(now: int)
    ensures var m := MonthOfInstant(now); var out := MonthsBack(m, now - WINDOW);
      && 3 <= |out| <= 5 && out[0] == m
      && (|out| == 5 <==> m % 12 == 4 && DayOf(now) == MonthStart(m) && !Leap(m / 12))
  {
    hide MonthsBack;
    hide MonthStart;
    hide MonthOf;
    hide DaysIn;
    hide Leap;
    hide DayOf;
    var m := MonthOfInstant(now);
    var since := now - WINDOW;
    InstantInMonth(now, m);
    MonthsBackInOrder(m, since);
    CountOffered(m, since, 2); CountOffered(m, since, 4); CountOffered(m, since, 5);
    NextMonth(m); NextMonth(m - 1); NextMonth(m - 2); NextMonth(m - 3); NextMonth(m - 4);
    ThreeMonths(m);
    DayBounds(now, MonthStart(m));
    DayBounds(now, MonthStart(m) + 1);
  }

  /** Three months on the last day of October. */
  lemma ThreeInOctober(year: int, now: int)
    requires DayOf(now) == MonthStart(12 * year + 9) + 30
    ensures |MonthsBack(MonthOfInstant(now), now - WINDOW)| == 3
  {
    hide MonthsBack;
    hide MonthStart;
    hide MonthOf;
    hide Leap;
    hide DayOf;
    var m := 12 * year + 9;
    InYear(year, 9); InYear(year, 8); InYear(year, 7);
    NextMonth(m); NextMonth(m - 1); NextMonth(m - 2);
    DayBounds(now, MonthStart(m) + 30); DayBounds(now, MonthStart(m) + 31);
    InstantInMonth(now, m);
    OfferedMonths(now);
    CountOffered(m, now - WINDOW, 3);
  }
}
