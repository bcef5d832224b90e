/** The number of working days between two dates, in closed form and day by day. */
module WorkingDays {
  import opened FrameworkConstants
  import opened Wrappers
  import opened Json

  // Integer division and remainder as the source computes them, toward zero.
  function Div(a: int, b: nat): int
    requires b > 0
  {
    if a >= 0 then a / b else -((-a) / b)
  }

  function Rem(a: int, b: nat): int
    requires b > 0
  {
    a - Div(a, b) * b
  }

  // The weekday of an instant, Monday = 1 to Sunday = 7, in a time zone that is a fixed
  // number of milliseconds off; the first day of the epoch was a Thursday.
  function Weekday(t: int, zone: int): (d: int)
    ensures 1 <= d <= 7
  {
    ((t + zone) / DAY + 3) % 7 + 1
  }

  // The calendar numbers the days from Sunday = 1 to Saturday = 7.
  function CalendarDay(t: int, zone: int): int {
    Weekday(t, zone) % 7 + 1
  }

  // ---------- The closed form ----------

  // An int overflow.
  function Truncated(n: int): Int32 {
    (n + 0x8000_0000) % 0x1_0000_0000 - 0x8000_0000
  }

  // The days between the dates can be counted in 32 bits.
  predicate InRange(start: int, end: int) {
    -0x7FFF_FFFF * DAY < end - start < 0x7FFF_FFFF * DAY
  }

  // The days that a period touches, when its days start at its first instant.
  function Days(start: int, end: int): int {
    (end - start) / DAY + 1
  }

  // So many days from the start on cover the end, and one less does not.
  lemma DaysCover(start: int, end: int)
    requires start <= end
    ensures var n := Days(start, end); start + (n - 1) * DAY <= end < start + n * DAY
  {
  }

  lemma InRangeFits(start: Long, end: Long)
    requires start <= end && InRange(start, end)
    ensures Truncated(ToInt(Div(ToLong(end as int - start as int), DAY)) + 1) == Days(start, end)
    ensures 0 < Days(start, end) <= 0x7FFF_FFFF
  {
    var t := end as int - start as int;
    assert ToLong(t) == t;
    assert 0 <= t / DAY < 0x7FFF_FFFF;
  }

  // A missing date gives -1 and the dates may come in either order. The difference wraps
  // as a 64-bit number and the number of days as a 32-bit one.
  method GetDuration(startDate: Option<Long>, endDate: Option<Long>) returns (n: Int32)
    ensures startDate.None? || endDate.None? ==> n == -1
    ensures startDate.Some? && endDate.Some? && InRange(startDate.value, endDate.value) ==>
              n == if startDate.value <= endDate.value then Days(startDate.value, endDate.value)
                   else Days(endDate.value, startDate.value)
  {
    if startDate.None? || endDate.None? {
      return -1;
    }
    var first, second := startDate.value, endDate.value;
    if first > second {
      var tmp := first;
      first := second;
      second := tmp;
    }
    n := Truncated(ToInt(Div(ToLong(second as int - first as int), DAY)) + 1);
    if InRange(startDate.value, endDate.value) {
      InRangeFits(first, second);
    }
  }

  // The weekend days among n days from a day with weekday d on, as the source counts them.
  function WeekendDays(d: int, n: nat): int {
    var last := d + n % 7 - 1;
    n / 7 * 2 - (if d == 7 then 1 else 0) + if last == 6 then 1 else if last >= 7 then 2 else 0
  }

  // What is left of n days; a missing end date makes n -1.
  method WithoutWeekends(n: Int32, d: int) returns (r: Int32)
    requires 1 <= d <= 7
    ensures n >= 0 ==> r == Truncated(n - WeekendDays(d, n))
    ensures n == -1 ==> r == if d == 7 then 0 else -1
  {
    var q := Div(n, 7);
    var rest := Rem(n, 7);
    var a := d + rest - 1;
    var w := q * 2;
    if d == 7 {
      w := w - 1;
    }
    if a == 6 {
      w := w + 1;
    }
    if a >= 7 {
      w := w + 2;
    }
    r := Truncated(n - w);
  }

  method DayOfWeek(t: int, zone: int) returns (d: int)
    ensures d == Weekday(t, zone)
  {
    d := CalendarDay(t, zone) - 1;
    if d == 0 {
      d := 7;
    }
  }

  // None is the exception of a missing start date.
  method GetWorkingDaysCount(start: Option<Long>, end: Option<Long>, zone: int) returns (r: Option<Int32>)
    ensures r.None? <==> start.None?
    ensures start.Some? && end.None? ==> r == Some(if Weekday(start.value, zone) == 7 then 0 else -1)
    ensures start.Some? && end.Some? && start.value <= end.value && InRange(start.value, end.value) ==>
              r == Some(WorkingDaysBetween(start.value, end.value, zone))
  {
    if start.None? {
      return None;
    }
    var d := DayOfWeek(start.value, zone);
    var n := GetDuration(start, end);
    var count := WithoutWeekends(n, d);
    if end.Some? && start.value <= end.value && InRange(start.value, end.value) {
      CountFits(start.value, end.value, zone);
    }
    return Some(count);
  }

  lemma CountFits(start: Long, end: Long, zone: int)
    requires start <= end && InRange(start, end)
    ensures var n := Days(start, end);
            n >= 0 && Truncated(n - WeekendDays(Weekday(start, zone), n)) == WorkingDaysBetween(start, end, zone)
  {
    InRangeFits(start, end);
    ClosedForm(start, zone, Days(start, end));
    TruncatedFits(WorkingDaysBetween(start, end, zone));
  }

  // The closed form counts the working days.
  lemma ClosedForm(start: int, zone: int, n: int)
    requires 0 < n <= 0x7FFF_FFFF
    ensures var w := WeekendDays(Weekday(start, zone), n);
            n - w == WorkingDaysFrom(start, zone, n) && 0 <= n - w <= 0x7FFF_FFFF
  {
    WholeWeeks(start, zone, n / 7, n % 7);
    RestOfAWeek(start, zone, n % 7);
    WorkingDaysBounds(start, zone, n);
  }

  lemma TruncatedFits(n: int)
    requires 0 <= n <= 0x7FFF_FFFF
    ensures Truncated(n) == n
  {
  }

  // ---------- Day by day ----------

  predicate IsWorkingDay(t: int, zone: int) {
    Weekday(t, zone) <= 5
  }

  // How many of n consecutive days, from the given instant on, are working days.
  function WorkingDaysFrom(start: int, zone: int, n: int): int {
    if n <= 0 then 0
    else WorkingDaysFrom(start, zone, n - 1) + if IsWorkingDay(start + (n - 1) * DAY, zone) then 1 else 0
  }

  lemma {:induction false} WorkingDaysBounds(start: int, zone: int, n: nat)
    ensures 0 <= WorkingDaysFrom(start, zone, n) <= n
  {
    if n > 0 {
      WorkingDaysBounds(start, zone, n - 1);
    }
  }

  // Counting on from the day after the first m days.
  lemma {:induction false} Split(start: int, zone: int, m: nat, n: nat)
    ensures WorkingDaysFrom(start, zone, m + n) ==
            WorkingDaysFrom(start, zone, m) + WorkingDaysFrom(start + m * DAY, zone, n)
  {
    if n > 0 {
      Split(start, zone, m, n - 1);
      assert start + (m + n - 1) * DAY == start + m * DAY + (n - 1) * DAY;
    }
  }

  lemma WeekdayAfter(t: int, zone: int, k: nat)
    ensures Weekday(t + k * DAY, zone) == (Weekday(t, zone) - 1 + k) % 7 + 1
  {
    assert (t + zone + k * DAY) / DAY == (t + zone) / DAY + k;
  }

  // The weekdays of all instants: day 0 is a Thursday, and they go round.
  lemma WeekdayOfDay(t: int, zone: int, day: int)
    requires day * DAY <= t + zone < (day + 1) * DAY
    ensures day == 0 ==> Weekday(t, zone) == 4
    ensures Weekday(t + DAY, zone) == (if Weekday(t, zone) == 7 then 1 else Weekday(t, zone) + 1)
    ensures forall u :: day * DAY <= u + zone < (day + 1) * DAY ==> Weekday(u, zone) == Weekday(t, zone)
  {
    assert (t + zone) / DAY == day;
    assert (t + DAY + zone) / DAY == day + 1;
    forall u | day * DAY <= u + zone < (day + 1) * DAY
      ensures Weekday(u, zone) == Weekday(t, zone)
    {
      assert (u + zone) / DAY == day;
    }
  }

  lemma OneWeek(start: int, zone: int)
    ensures WorkingDaysFrom(start, zone, 7) == 5
  {
    RestOfAWeek(start, zone, 6);
    WeekdayAfter(start, zone, 6);
  }

  lemma {:induction false} WholeWeeks(start: int, zone: int, weeks: nat, rest: nat)
    ensures WorkingDaysFrom(start, zone, weeks * 7 + rest) == weeks * 5 + WorkingDaysFrom(start, zone, rest)
  {
    if weeks > 0 {
      WholeWeeks(start, zone, weeks - 1, rest);
      OneMoreWeek(start, zone, (weeks - 1) * 7 + rest);
    }
  }

  lemma OneMoreWeek(start: int, zone: int, n: nat)
    ensures WorkingDaysFrom(start, zone, n + 7) == WorkingDaysFrom(start, zone, n) + 5
  {
    Split(start, zone, n, 7);
    OneWeek(start + n * DAY, zone);
  }

  // Less than a week touches Saturday and Sunday at most once each.
  lemma {:induction false} RestOfAWeek(start: int, zone: int, rest: nat)
    requires rest < 7
    ensures var d := Weekday(start, zone); var last := d + rest - 1;
            WorkingDaysFrom(start, zone, rest) ==
            rest + (if d == 7 then 1 else 0) - (if last == 6 then 1 else if last >= 7 then 2 else 0)
  {
    if rest > 0 {
      RestOfAWeek(start, zone, rest - 1);
      WeekdayAfter(start, zone, rest - 1);
    }
  }

  // ---------- What the count means ----------

  ghost function WorkingDaysBetween(start: int, end: int, zone: int): int {
    WorkingDaysFrom(start, zone, Days(start, end))
  }

  lemma DaysAdd(t: int, days: nat)
    ensures (t + days * DAY) / DAY == t / DAY + days
  {
  }

  // Adding a week to the end adds five working days.
  lemma AWeekAddsFive(start: int, end: int, zone: int)
    requires start <= end
    ensures WorkingDaysBetween(start, end + 7 * DAY, zone) == WorkingDaysBetween(start, end, zone) + 5
  {
    DaysAdd(end - start, 7);
    OneMoreWeek(start, zone, Days(start, end));
  }

  // A period that is cut between two of its days counts as its two parts.
  lemma PartsAddUp(start: int, end: int, zone: int, days: nat)
    requires days > 0 && start + days * DAY <= end
    ensures WorkingDaysBetween(start, end, zone) ==
            WorkingDaysBetween(start, start + (days - 1) * DAY, zone)
            + WorkingDaysBetween(start + days * DAY, end, zone)
  {
    var rest := end - (start + days * DAY);
    DaysAdd(rest, days);
    DaysAdd(0, days - 1);
    Split(start, zone, days, rest / DAY + 1);
  }

  // The count lies between none and all of the days.
  lemma Bounds(start: int, end: int, zone: int)
    requires start <= end
    ensures 0 <= WorkingDaysBetween(start, end, zone) <= Days(start, end)
  {
    WorkingDaysBounds(start, zone, Days(start, end));
  }
}
