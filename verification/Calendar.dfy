/**
 The Gregorian calendar, and a schedule of it for which too few backups are kept
 (oracle/controllers/pitrcontroller/pitr_controller.go): midnight of the days 15 to 20 of every month.
 Days and months are counted from 1 January 2020, in both directions.
 */
module Calendar {
  import opened Common
  import opened Schedules
  import opened Retention

  predicate IsLeap(year: int)
  {
    year % 4 == 0 && (year % 100 != 0 || year % 400 == 0)
  }

  /** The length of a month. */
  function Length(k: int): (n: int)
    ensures 28 <= n <= 31
  {
    var year, month := 2020 + k / 12, k % 12 + 1;
    if month == 2 then (if IsLeap(year) then 29 else 28)
    else if month == 4 || month == 6 || month == 9 || month == 11 then 30
    else 31
  }

  /** The first day of a month. */
  function MonthStart(k: int): int
    decreases if k < 0 then -k else k
  {
    if k == 0 then 0 else if k > 0 then MonthStart(k - 1) + Length(k - 1) else MonthStart(k + 1) - Length(k)
  }

  lemma MonthsFollow(k: int)
    ensures MonthStart(k + 1) == MonthStart(k) + Length(k)
  {
  }

  lemma {:induction false} MonthsIncrease(j: int, k: int)
    requires j <= k
    ensures MonthStart(j) + 28 * (k - j) <= MonthStart(k)
    decreases k - j
  {
    if j < k {
      MonthsFollow(k - 1);
      MonthsIncrease(j, k - 1);
    }
  }

  predicate InMonth(day: int, k: int)
  {
    MonthStart(k) <= day < MonthStart(k + 1)
  }

  function MonthFrom(day: int, k: int): (m: int)
    requires MonthStart(k) <= day
    ensures InMonth(day, m)
    decreases day - MonthStart(k)
  {
    MonthsFollow(k);
    if day < MonthStart(k + 1) then k else MonthFrom(day, k + 1)
  }

  function MonthUpTo(day: int, k: int): (m: int)
    requires day < MonthStart(k + 1)
    ensures InMonth(day, m)
    decreases MonthStart(k + 1) - day
  {
    MonthsFollow(k);
    if MonthStart(k) <= day then k else MonthUpTo(day, k - 1)
  }

  /** The month of a day. */
  function MonthOf(day: int): (m: int)
    ensures InMonth(day, m)
  {
    if day >= 0 then MonthFrom(day, 0) else MonthUpTo(day, -1)
  }

  lemma OneMonth(day: int, k: int)
    requires InMonth(day, k)
    ensures MonthOf(day) == k
  {
    var m := MonthOf(day);
    if m < k {
      MonthsIncrease(m + 1, k);
    } else if k < m {
      MonthsIncrease(k + 1, m);
    }
  }

  /** The day of the month, from 1. */
  function DayOfMonth(day: int): int
  {
    day - MonthStart(MonthOf(day)) + 1
  }

  predicate IsMiddle(day: int)
  {
    15 <= DayOfMonth(day) <= 20
  }

  /** The first day after this one that is between the 15th and the 20th. */
  function NextMiddle(day: int): (r: int)
    ensures r > day
  {
    var k := MonthOf(day);
    MonthsFollow(k);
    if DayOfMonth(day) < 15 then MonthStart(k) + 14
    else if DayOfMonth(day) < 20 then day + 1
    else MonthStart(k + 1) + 14
  }

  /** It is one, and there is none between. */
  lemma NextMiddleIsFirst(day: int, other: int)
    requires day < other <= NextMiddle(day)
    ensures IsMiddle(other) <==> other == NextMiddle(day)
    ensures other < NextMiddle(day) ==> NextMiddle(other) == NextMiddle(day)
  {
    var k := MonthOf(day);
    MonthsFollow(k);
    MonthsFollow(k + 1);
    OneMonth(other, if other < MonthStart(k + 1) then k else k + 1);
  }

  /** The schedule: midnight of each of those days. */
  function MidMonth(t: int): int
  {
    START + NextMiddle((t - START) / DAY) * DAY
  }

  lemma MidMonthIsSchedule()
    ensures IsSchedule(MidMonth)
  {
    forall t
      ensures MidMonth(t) > t
    {
      var day := (t - START) / DAY;
      assert t - START < (day + 1) * DAY;
    }
    forall t, s
      ensures Settled(MidMonth, t, s)
    {
      if t <= s < MidMonth(t) {
        SameDayOrBefore(t, s);
      }
    }
  }

  lemma SameDayOrBefore(t: int, s: int)
    requires t <= s < MidMonth(t)
    ensures MidMonth(s) == MidMonth(t)
  {
    var a, b := (t - START) / DAY, (s - START) / DAY;
    assert a <= b < NextMiddle(a);
    if a < b {
      NextMiddleIsFirst(a, b);
    }
  }

  /** Its ticks are these midnights and no others. */
  lemma MidMonthTicks(t: int)
    ensures IsTick(MidMonth, t) <==> (t - START) % DAY == 0 && IsMiddle((t - START) / DAY)
  {
    var day, before := (t - START) / DAY, (t - 1 - START) / DAY;
    if (t - START) % DAY == 0 {
      assert before == day - 1;
      NextMiddleIsFirst(before, day);
      assert t == START + day * DAY;
    } else {
      assert (MidMonth(t - 1) - START) % DAY == 0;
    }
  }

  /** In January 2020 it first fires on the 15th, so two backups are kept, a day apart, for a window of a week. */
  lemma MidMonthUndercounts()
    ensures IsSchedule(MidMonth)
    ensures Steps(MidMonth, START, START + DEFAULT_WINDOW) + 1 == 2
    ensures Batch(MidMonth, {START + 14 * DAY, START + 15 * DAY}, 2) && !Spans({START + 14 * DAY, START + 15 * DAY}, DEFAULT_WINDOW)
    ensures !CountedBusiest(MidMonth, DEFAULT_WINDOW)
  {
    MidMonthIsSchedule();
    MonthsFollow(0);
    OneMonth(0, 0);
    OneMonth(14, 0);
    assert MidMonth(START) == START + 14 * DAY && MidMonth(START + 14 * DAY) == START + 15 * DAY;
    SilentFirstWeekUndercounts(MidMonth);
  }
}
