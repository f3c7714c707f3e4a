/**
 * Calendar arithmetic on broken-down instants (what PHP's date() splits a
 * timestamp into and mktime() joins back), proleptic Gregorian, no time zone
 * offsets.  Days are numbered from 1970-01-01 = 0, seconds likewise.
 */
module Calendar {

  datatype DateTime = DateTime(year: int, month: int, day: int, hour: int, minute: int, second: int)
  {
    /** All six fields within their calendar ranges. */
    predicate Valid() {
      1 <= month <= 12 && 1 <= day <= DaysInMonth(year, month) &&
      0 <= hour < 24 && 0 <= minute < 60 && 0 <= second < 60
    }
  }

  predicate IsLeapYear(y: int) {
    y % 4 == 0 && (y % 100 != 0 || y % 400 == 0)
  }

  /** Number of days of month m (date('t')). */
  function DaysInMonth(y: int, m: int): (n: int)
    ensures 28 <= n <= 31
    ensures n == 29 <==> m == 2 && IsLeapYear(y)
  {
    if m == 2 then (if IsLeapYear(y) then 29 else 28)
    else if m == 4 || m == 6 || m == 9 || m == 11 then 30
    else 31
  }

  /** Leap years in 1..y (negative counts for years before 1), floor division. */
  function LeapsUpTo(y: int): int {
    y / 4 - y / 100 + y / 400
  }

  /** Days from 1970-01-01 to January 1st of year y. */
  function DaysBeforeYear(y: int): int {
    365 * (y - 1970) + LeapsUpTo(y - 1) - LeapsUpTo(1969)
  }

  /** Days from January 1st to the first of month m of year y. */
  function DaysBeforeMonth(y: int, m: int): int
    requires 1 <= m <= 12
  {
    var common := [0, 31, 59, 90, 120, 151, 181, 212, 243, 273, 304, 334][m - 1];
    if m > 2 && IsLeapYear(y) then common + 1 else common
  }

  /** Days from 1970-01-01 to the given date; the day may run past the month's end. */
  function DayNumber(y: int, m: int, d: int): int
    requires 1 <= m <= 12
  {
    DaysBeforeYear(y) + DaysBeforeMonth(y, m) + d - 1
  }

  /** date('w'): 0 = Sunday ... 6 = Saturday; 1970-01-01 was a Thursday. */
  function Weekday(t: DateTime): (w: int)
    requires 1 <= t.month <= 12
    ensures 0 <= w < 7
  {
    (DayNumber(t.year, t.month, t.day) + 4) % 7
  }

  /** Seconds since 1970-01-01 00:00:00 (the Unix timestamp, ignoring zones). */
  function Seconds(t: DateTime): int
    requires 1 <= t.month <= 12
  {
    DayNumber(t.year, t.month, t.day) * 86400 + t.hour * 3600 + t.minute * 60 + t.second
  }

  /** Floor division by 4, 100 or 400 steps up by one exactly at the multiples. */
  lemma DivStep(y: int, n: int)
    requires n == 4 || n == 100 || n == 400
    ensures y / n - (y - 1) / n == if y % n == 0 then 1 else 0
  {
    if n == 4 {
      assert y / 4 - (y - 1) / 4 == if y % 4 == 0 then 1 else 0;
    } else if n == 100 {
      assert y / 100 - (y - 1) / 100 == if y % 100 == 0 then 1 else 0;
    } else {
      assert y / 400 - (y - 1) / 400 == if y % 400 == 0 then 1 else 0;
    }
  }

  /** A year has 366 days when it is a leap year and 365 otherwise. */
  lemma {:induction false} YearLength(y: int)
    ensures DaysBeforeYear(y + 1) == DaysBeforeYear(y) + (if IsLeapYear(y) then 366 else 365)
  {
    DivStep(y, 4);
    DivStep(y, 100);
    DivStep(y, 400);
  }

  /** The last day of a month is followed by the first day of the next month. */
  lemma {:induction false} MonthLength(y: int, m: int)
    requires 1 <= m <= 12
    ensures m < 12 ==> DayNumber(y, m + 1, 1) == DayNumber(y, m, DaysInMonth(y, m)) + 1
    ensures m == 12 ==> DayNumber(y + 1, 1, 1) == DayNumber(y, m, DaysInMonth(y, m)) + 1
  {
    if m == 12 {
      YearLength(y);
    }
  }

  /** The month after (y, m): December carries into January of the next year. */
  function NextMonth(y: int, m: int): (r: (int, int))
    requires 1 <= m <= 12
    ensures 1 <= r.1 <= 12
    ensures r.0 * 12 + r.1 == y * 12 + m + 1
  {
    if m + 1 > 12 then (y + 1, 1) else (y, m + 1)
  }

  /** The same time of day on the following calendar day. */
  function NextDay(t: DateTime): (r: DateTime)
    requires t.Valid()
    ensures r.Valid()
    ensures r.hour == t.hour && r.minute == t.minute && r.second == t.second
  {
    if t.day + 1 > DaysInMonth(t.year, t.month) then
      var (y, m) := NextMonth(t.year, t.month);
      t.(year := y, month := m, day := 1)
    else
      t.(day := t.day + 1)
  }

  /** One hour later, carrying into the day. */
  function NextHour(t: DateTime): (r: DateTime)
    requires t.Valid()
    ensures r.Valid()
    ensures r.minute == t.minute && r.second == t.second
  {
    if t.hour + 1 == 24 then NextDay(t).(hour := 0) else t.(hour := t.hour + 1)
  }

  /** One minute later, carrying into the hour. */
  function NextMinute(t: DateTime): (r: DateTime)
    requires t.Valid()
    ensures r.Valid()
    ensures r.second == t.second
  {
    if t.minute + 1 == 60 then NextHour(t).(minute := 0) else t.(minute := t.minute + 1)
  }

  /** Moving a minute on leaves the second alone: it can be set before or after. */
  lemma NextMinuteKeepsSecond(t: DateTime)
    requires t.Valid()
    ensures NextMinute(t) == NextMinute(t.(second := 0)).(second := t.second)
  {
  }

  /** One second later, carrying into the minute. */
  function NextSecond(t: DateTime): (r: DateTime)
    requires t.Valid()
    ensures r.Valid()
  {
    if t.second + 1 == 60 then NextMinute(t).(second := 0) else t.(second := t.second + 1)
  }

  /**
   * mktime(h, i, s, M, D, Y) for in-range fields except a day that may run
   * past the end of its month (by at most three days, since D <= 31): the
   * surplus days count on into the next month.
   */
  function MkTime(h: int, i: int, s: int, M: int, D: int, Y: int): (r: DateTime)
    requires 0 <= h < 24 && 0 <= i < 60 && 0 <= s < 60 && 1 <= M <= 12 && 1 <= D <= 31
    ensures r.Valid()
    ensures r.hour == h && r.minute == i && r.second == s
    ensures D <= DaysInMonth(Y, M) ==> r == DateTime(Y, M, D, h, i, s)
  {
    var n := DaysInMonth(Y, M);
    if D <= n then DateTime(Y, M, D, h, i, s)
    else
      var (y, m) := NextMonth(Y, M);
      DateTime(y, m, D - n, h, i, s)
  }

  /** 23:59:59 of the same day: mktime(0, 0, 0, M, D, Y) + 86399. */
  function EndOfDay(t: DateTime): (r: DateTime)
    requires t.Valid()
    ensures r.Valid()
  {
    DateTime(t.year, t.month, t.day, 23, 59, 59)
  }

  // ---------------------------------------------------------------------------
  // What the carries and mktime mean on the time line.

  /** The same time on the next day is 86400 seconds later. */
  lemma NextDaySeconds(t: DateTime)
    requires t.Valid()
    ensures Seconds(NextDay(t)) == Seconds(t) + 86400
  {
    MonthLength(t.year, t.month);
  }

  /** One hour later is 3600 seconds later. */
  lemma NextHourSeconds(t: DateTime)
    requires t.Valid()
    ensures Seconds(NextHour(t)) == Seconds(t) + 3600
  {
    if t.hour + 1 == 24 {
      NextDaySeconds(t);
    }
  }

  /** One minute later is 60 seconds later. */
  lemma NextMinuteSeconds(t: DateTime)
    requires t.Valid()
    ensures Seconds(NextMinute(t)) == Seconds(t) + 60
  {
    if t.minute + 1 == 60 {
      NextHourSeconds(t);
    }
  }

  /** One second later is one second later. */
  lemma NextSecondSeconds(t: DateTime)
    requires t.Valid()
    ensures Seconds(NextSecond(t)) == Seconds(t) + 1
  {
    if t.second + 1 == 60 {
      NextMinuteSeconds(t);
    }
  }

  /** mktime counts surplus days on from the first of the given month. */
  lemma MkTimeSeconds(h: int, i: int, s: int, M: int, D: int, Y: int)
    requires 0 <= h < 24 && 0 <= i < 60 && 0 <= s < 60 && 1 <= M <= 12 && 1 <= D <= 31
    ensures Seconds(MkTime(h, i, s, M, D, Y)) == DayNumber(Y, M, D) * 86400 + h * 3600 + i * 60 + s
  {
    MonthLength(Y, M);
  }

  // ---------------------------------------------------------------------------
  // Where the carries land.

  /** Two instants on the same calendar day. */
  predicate SameDate(a: DateTime, b: DateTime) {
    a.year == b.year && a.month == b.month && a.day == b.day
  }

  /** Two instants in the same hour of the same day. */
  predicate SameHour(a: DateTime, b: DateTime) {
    SameDate(a, b) && a.hour == b.hour
  }

  /** Two instants in the same minute. */
  predicate SameMinute(a: DateTime, b: DateTime) {
    SameHour(a, b) && a.minute == b.minute
  }

  /** The next day is another day of the month, in the same month or the next one. */
  lemma NextDayMonth(t: DateTime)
    requires t.Valid()
    ensures NextDay(t).day != t.day
    ensures (NextDay(t).year, NextDay(t).month) == (t.year, t.month) ||
            (NextDay(t).year, NextDay(t).month) == NextMonth(t.year, t.month)
  {
  }

  /** An hour later is another hour, on the same day or the next one. */
  lemma NextHourDate(t: DateTime)
    requires t.Valid()
    ensures NextHour(t).hour != t.hour
    ensures SameDate(NextHour(t), t) || SameDate(NextHour(t), NextDay(t))
  {
  }

  /** A minute later is another minute, in the same hour or the next one. */
  lemma NextMinuteHour(t: DateTime)
    requires t.Valid()
    ensures NextMinute(t).minute != t.minute
    ensures SameHour(NextMinute(t), t) || SameHour(NextMinute(t), NextHour(t))
  {
  }

  /** A second later is in the same minute or the next one. */
  lemma NextSecondMinute(t: DateTime)
    requires t.Valid()
    ensures SameMinute(NextSecond(t), t) || SameMinute(NextSecond(t), NextMinute(t))
  {
  }

  /** Any instant of the next month, from its first day on, is later than every instant of this one. */
  lemma NextMonthLater(t: DateTime, c: DateTime)
    requires t.Valid() && (c.year, c.month) == NextMonth(t.year, t.month)
    requires c.day >= 1 && c.hour >= 0 && c.minute >= 0 && c.second >= 0
    ensures Seconds(c) > Seconds(t)
  {
    MonthLength(t.year, t.month);
  }

  /** Any instant of a later month, from its first day on, is later than every instant of an earlier one. */
  lemma {:induction false} LaterMonthLater(t: DateTime, c: DateTime)
    requires t.Valid() && 1 <= c.month <= 12
    requires c.day >= 1 && c.hour >= 0 && c.minute >= 0 && c.second >= 0
    requires c.year * 12 + c.month > t.year * 12 + t.month
    ensures Seconds(c) > Seconds(t)
    decreases c.year * 12 + c.month - t.year * 12 - t.month
  {
    if (c.year, c.month) == NextMonth(t.year, t.month) {
      NextMonthLater(t, c);
    } else {
      var p := if c.month == 1 then DateTime(c.year - 1, 12, 1, 0, 0, 0) else DateTime(c.year, c.month - 1, 1, 0, 0, 0);
      LaterMonthLater(t, p);
      MonthLength(p.year, p.month);
    }
  }

  /** 23:59:59 of a day is not earlier than any instant of that day. */
  lemma EndOfDayLater(t: DateTime)
    requires t.Valid()
    ensures Seconds(EndOfDay(t)) >= Seconds(t)
  {
  }

  /** 23:59:59 is the last second of the day, on the same weekday. */
  lemma EndOfDaySeconds(t: DateTime)
    requires t.Valid()
    ensures Seconds(EndOfDay(t)) == DayNumber(t.year, t.month, t.day) * 86400 + 86399
    ensures Weekday(EndOfDay(t)) == Weekday(t)
  {
  }
}
