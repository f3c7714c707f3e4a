// A cron job with second precision (SuperCronJob.php): a sixth field for the
// second in front of the five of a GenericCronJob, the addSecond carry, and
// the search for the next run time extended by one stage.
module Super {
  import opened Wrappers
  import opened Calendar
  import opened Fields
  import Generic

  // ---------------------------------------------------------------------------
  // The schedule and the interval definition.

  /** The second field and the five fields a GenericCronJob has. */
  datatype SuperSchedule = SuperSchedule(second: Field, fields: Generic.Schedule)

  predicate WellFormedSuper(ss: SuperSchedule) {
    WellFormed(ss.second, 0, 59) && Generic.WellFormedSchedule(ss.fields)
  }

  predicate AllWildcardSuper(ss: SuperSchedule) {
    ss.second.Wildcard? && Generic.AllWildcard(ss.fields)
  }

  /**
   * setRunInterval: the parent sets minute .. day of week first, then the
   * second is set; the first failing field decides the error.
   */
  function SuperScheduleOf(second: Option<string>, minute: Option<string>, hour: Option<string>, day: Option<string>,
                           month: Option<string>, dayOfWeek: Option<string>): (r: Result<SuperSchedule, CronError>)
    ensures r.Success? ==> WellFormedSuper(r.value)
    ensures r.Success? <==> Generic.ScheduleOf(minute, hour, day, month, dayOfWeek).Success? && FieldOf(second, 0, 59).Success?
    ensures r.Failure? ==>
              r.error == (if Generic.ScheduleOf(minute, hour, day, month, dayOfWeek).Failure?
                          then Generic.ScheduleOf(minute, hour, day, month, dayOfWeek).error
                          else FieldOf(second, 0, 59).error)
    ensures r.Success? ==> r.value.fields == Generic.ScheduleOf(minute, hour, day, month, dayOfWeek).value &&
                           r.value.second == FieldOf(second, 0, 59).value
  {
    var five := Generic.ScheduleOf(minute, hour, day, month, dayOfWeek);
    var se := FieldOf(second, 0, 59);
    if five.Failure? then Failure(five.error)
    else if se.Failure? then Failure(se.error)
    else Success(SuperSchedule(se.value, five.value))
  }

  /** setRunInterval: the five fields as the parent sets them, then the second. */
  method SetRunInterval(second: Option<string>, minute: Option<string>, hour: Option<string>, day: Option<string>,
                        month: Option<string>, dayOfWeek: Option<string>) returns (r: Result<SuperSchedule, CronError>)
    ensures r == SuperScheduleOf(second, minute, hour, day, month, dayOfWeek)
  {
    var five := Generic.SetRunInterval(minute, hour, day, month, dayOfWeek);
    if five.Failure? {
      return Failure(five.error);
    }
    var se := SetRunIntervalField(second, 0, 59);
    if se.Failure? {
      return Failure(se.error);
    }
    return Success(SuperSchedule(se.value, five.value));
  }

  /** The interval definition: the second text (or `*`) and a space before the five-field definition. */
  function SuperDefinition(second: Option<string>, minute: Option<string>, hour: Option<string>, day: Option<string>,
                           month: Option<string>, dayOfWeek: Option<string>): string
  {
    Generic.FieldText(second) + " " + Generic.IntervalDefinition(minute, hour, day, month, dayOfWeek)
  }

  /** When no field text holds a space, the definition splits back into the six texts, second first. */
  lemma {:induction false} SuperDefinitionFields(second: Option<string>, minute: Option<string>, hour: Option<string>,
                                                 day: Option<string>, month: Option<string>, dayOfWeek: Option<string>)
    requires Generic.NoSpace(second) && Generic.NoSpace(minute) && Generic.NoSpace(hour)
    requires Generic.NoSpace(day) && Generic.NoSpace(month) && Generic.NoSpace(dayOfWeek)
    ensures Split(SuperDefinition(second, minute, hour, day, month, dayOfWeek), ' ') ==
            [Generic.FieldText(second), Generic.FieldText(minute), Generic.FieldText(hour), Generic.FieldText(day),
             Generic.FieldText(month), Generic.FieldText(dayOfWeek)]
  {
    var five := Generic.IntervalDefinition(minute, hour, day, month, dayOfWeek);
    var xs := [Generic.FieldText(minute), Generic.FieldText(hour), Generic.FieldText(day), Generic.FieldText(month),
               Generic.FieldText(dayOfWeek)];
    Generic.IntervalDefinitionFields(minute, hour, day, month, dayOfWeek);
    SplitPrefixed(Generic.FieldText(second), five, xs);
    assert SuperDefinition(second, minute, hour, day, month, dayOfWeek) == Generic.FieldText(second) + " " + five;
  }

  lemma SplitPrefixed(a: string, rest: string, xs: seq<string>)
    requires ' ' !in a && Split(rest, ' ') == xs && |xs| == 5
    ensures Split(a + " " + rest, ' ') == [a, xs[0], xs[1], xs[2], xs[3], xs[4]]
  {
    SplitFirst(a, ' ', rest);
    PrependFive(a, xs);
  }

  lemma PrependFive<T>(x: T, xs: seq<T>)
    requires |xs| == 5
    ensures [x] + xs == [x, xs[0], xs[1], xs[2], xs[3], xs[4]]
  {
  }

  // ---------------------------------------------------------------------------
  // addSecond.

  /** addSecond: the second after, carrying into the minute when it reaches 60. */
  method AddSecond(second: int, minute: int, hour: int, day: int, month: int, year: int)
    returns (second': int, minute': int, hour': int, day': int, month': int, year': int)
    requires DateTime(year, month, day, hour, minute, second).Valid()
    ensures DateTime(year', month', day', hour', minute', second') == NextSecond(DateTime(year, month, day, hour, minute, second))
    ensures DateTime(year', month', day', hour', minute', second').Valid()
    ensures Seconds(DateTime(year', month', day', hour', minute', second')) ==
            Seconds(DateTime(year, month, day, hour, minute, second)) + 1
    ensures (second' == 0) == (second == 59)
  {
    second', minute', hour', day', month', year' := second + 1, minute, hour, day, month, year;
    if second' == 60 {
      minute', hour', day', month', year' := Generic.AddMinute(minute', hour', day', month', year');
      second' := 0;
    }
    NextSecondSeconds(DateTime(year, month, day, hour, minute, second));
  }

  // ---------------------------------------------------------------------------
  // getNextRunTime, stage by stage. Each stage takes the reference instant t
  // and the candidate built so far.

  /** Lines 63-71: the next listed second after the reference's; for `*`, one second on. */
  function SecondStage(ss: SuperSchedule, t: DateTime): (c: DateTime)
    requires t.Valid() && WellFormedSuper(ss)
    ensures c.Valid()
    ensures ss.second.Values? ==> c.second in ss.second.vals
  {
    var next := GetNextRunIntervalValue(ss.second, t.second, None, false);
    if next.None? then NextSecond(t) else t.(second := next.value)
  }

  /**
   * Lines 73-89: the next listed minute (the current one too when the second
   * moved forward); for `*` with no second move, one minute on. A new minute
   * restarts the second.
   */
  function MinuteStage(ss: SuperSchedule, t: DateTime, c1: DateTime): (c: DateTime)
    requires t.Valid() && c1.Valid() && WellFormedSuper(ss)
    requires ss.second.Values? ==> c1.second in ss.second.vals
    ensures c.Valid()
    ensures ss.second.Values? ==> c.second in ss.second.vals
    ensures ss.fields.minute.Values? ==> c.minute in ss.fields.minute.vals
  {
    var s := ss.fields;
    var next := if t.second < c1.second then GetNextRunIntervalValue(s.minute, c1.minute, Some(c1.minute), true)
                else GetNextRunIntervalValue(s.minute, c1.minute, None, false);
    var c := if next.Some? then c1.(minute := next.value)
             else if c1.minute == t.minute then NextMinute(c1)
             else c1;
    if c.minute != t.minute then c.(second := Generic.First(ss.second, 0)) else c
  }

  /** Lines 91-108: the hour. A new hour restarts minute and second. */
  function HourStage(ss: SuperSchedule, t: DateTime, c2: DateTime): (c: DateTime)
    requires t.Valid() && c2.Valid() && WellFormedSuper(ss)
    requires ss.second.Values? ==> c2.second in ss.second.vals
    requires ss.fields.minute.Values? ==> c2.minute in ss.fields.minute.vals
    ensures c.Valid()
    ensures ss.second.Values? ==> c.second in ss.second.vals
    ensures ss.fields.minute.Values? ==> c.minute in ss.fields.minute.vals
    ensures ss.fields.hour.Values? ==> c.hour in ss.fields.hour.vals
  {
    var s := ss.fields;
    var next := if c2.minute < t.minute || (c2.minute == t.minute && c2.second <= t.second)
                then GetNextRunIntervalValue(s.hour, c2.hour, None, false)
                else GetNextRunIntervalValue(s.hour, c2.hour, Some(c2.hour), true);
    var c := if next.Some? then c2.(hour := next.value)
             else if c2.hour == t.hour then NextHour(c2)
             else c2;
    if c.hour != t.hour then c.(second := Generic.First(ss.second, 0), minute := Generic.First(s.minute, 0)) else c
  }

  /**
   * The fields of a candidate after the day stage: each in its calendar range
   * (the day up to 31 whatever the month) and each restricted one listed.
   */
  predicate Fits(ss: SuperSchedule, c: DateTime) {
    1 <= c.month <= 12 && 1 <= c.day <= 31 && 0 <= c.hour < 24 && 0 <= c.minute < 60 && 0 <= c.second < 60 &&
    (ss.second.Values? ==> c.second in ss.second.vals) &&
    (ss.fields.minute.Values? ==> c.minute in ss.fields.minute.vals) &&
    (ss.fields.hour.Values? ==> c.hour in ss.fields.hour.vals) &&
    (ss.fields.day.Values? ==> c.day in ss.fields.day.vals)
  }

  /** Lines 110-128: the day. A new day restarts hour, minute and second. */
  function DayStage(ss: SuperSchedule, t: DateTime, c3: DateTime): (c: DateTime)
    requires t.Valid() && c3.Valid() && WellFormedSuper(ss)
    requires ss.second.Values? ==> c3.second in ss.second.vals
    requires ss.fields.minute.Values? ==> c3.minute in ss.fields.minute.vals
    requires ss.fields.hour.Values? ==> c3.hour in ss.fields.hour.vals
    ensures Fits(ss, c)
  {
    var s := ss.fields;
    var stayed := c3.hour < t.hour || (c3.hour == t.hour && (c3.minute < t.minute || (c3.minute == t.minute && c3.second <= t.second)));
    var c := Generic.DayMove(s.day, t, c3, !stayed);
    if c.day != t.day then c.(second := Generic.First(ss.second, 0), minute := Generic.First(s.minute, 0), hour := Generic.First(s.hour, 0)) else c
  }

  /** Lines 130-148: the month. A new month restarts day, hour, minute and second. */
  function MonthStage(ss: SuperSchedule, t: DateTime, c4: DateTime): (c: DateTime)
    requires t.Valid() && WellFormedSuper(ss)
    requires Fits(ss, c4)
    ensures Fits(ss, c)
    ensures ss.fields.month.Values? ==> c.month in ss.fields.month.vals
  {
    var s := ss.fields;
    var stayed := c4.day < t.day || (c4.day == t.day && (c4.hour < t.hour || (c4.hour == t.hour &&
                    (c4.minute < t.minute || (c4.minute == t.minute && c4.second <= t.second)))));
    var c := Generic.MonthMove(s.month, t, c4, !stayed);
    if c.month != t.month
    then c.(second := Generic.First(ss.second, 0), minute := Generic.First(s.minute, 0), hour := Generic.First(s.hour, 0), day := Generic.First(s.day, 1))
    else c
  }

  /** The five stages in order, before mktime. */
  function Stages(ss: SuperSchedule, t: DateTime): (c: DateTime)
    requires t.Valid() && WellFormedSuper(ss)
    ensures Fits(ss, c)
    ensures ss.fields.month.Values? ==> c.month in ss.fields.month.vals
  {
    var c1 := SecondStage(ss, t);
    var c2 := MinuteStage(ss, t, c1);
    var c3 := HourStage(ss, t, c2);
    var c4 := DayStage(ss, t, c3);
    MonthStage(ss, t, c4)
  }

  /** The instant the search settles on before the day-of-week check. */
  function Candidate(ss: SuperSchedule, t: DateTime): (c: DateTime)
    requires t.Valid() && WellFormedSuper(ss)
    ensures c.Valid()
    ensures ss.second.Values? ==> c.second in ss.second.vals
    ensures ss.fields.minute.Values? ==> c.minute in ss.fields.minute.vals
    ensures ss.fields.hour.Values? ==> c.hour in ss.fields.hour.vals
  {
    if AllWildcardSuper(ss) then NextSecond(t)
    else
      var c := Stages(ss, t);
      MkTime(c.hour, c.minute, c.second, c.month, c.day, c.year)
  }

  /**
   * getNextRunTime(t): the candidate, kept or rejected by its weekday. None
   * when more than `fuel` restarts would be needed (the source keeps
   * recursing).
   */
  function NextRunTime(ss: SuperSchedule, t: DateTime, fuel: nat): (r: Option<DateTime>)
    requires t.Valid() && WellFormedSuper(ss)
    ensures r.Some? ==> r.value.Valid()
    ensures r.Some? && ss.second.Values? ==> r.value.second in ss.second.vals
    ensures r.Some? && ss.fields.minute.Values? ==> r.value.minute in ss.fields.minute.vals
    ensures r.Some? && ss.fields.hour.Values? ==> r.value.hour in ss.fields.hour.vals
    ensures r.Some? && ss.fields.dayOfWeek.Values? ==> Weekday(r.value) in ss.fields.dayOfWeek.vals
    ensures ss.fields.dayOfWeek.Wildcard? ==> r.Some?
    decreases fuel, 1
  {
    Restart(ss, Candidate(ss, t), fuel)
  }

  /**
   * Lines 152-158, the day-of-week check on a candidate c: c itself when its
   * weekday is allowed, otherwise the search again from 23:59:59 of c's day.
   */
  function Restart(ss: SuperSchedule, c: DateTime, fuel: nat): (r: Option<DateTime>)
    requires c.Valid() && WellFormedSuper(ss)
    requires ss.second.Values? ==> c.second in ss.second.vals
    requires ss.fields.minute.Values? ==> c.minute in ss.fields.minute.vals
    requires ss.fields.hour.Values? ==> c.hour in ss.fields.hour.vals
    ensures r.Some? ==> r.value.Valid()
    ensures r.Some? && ss.second.Values? ==> r.value.second in ss.second.vals
    ensures r.Some? && ss.fields.minute.Values? ==> r.value.minute in ss.fields.minute.vals
    ensures r.Some? && ss.fields.hour.Values? ==> r.value.hour in ss.fields.hour.vals
    ensures r.Some? && ss.fields.dayOfWeek.Values? ==> Weekday(r.value) in ss.fields.dayOfWeek.vals
    ensures ss.fields.dayOfWeek.Wildcard? ==> r == Some(c)
    decreases fuel, 0
  {
    if Generic.WeekdayAllowed(ss.fields, c) then Some(c)
    else if fuel == 0 then None
    else NextRunTime(ss, EndOfDay(c), fuel - 1)
  }

  /** With every field `*`, the next run is exactly one second after the reference. */
  lemma AllWildcardNextRunTime(ss: SuperSchedule, t: DateTime, fuel: nat)
    requires t.Valid() && WellFormedSuper(ss) && AllWildcardSuper(ss)
    ensures NextRunTime(ss, t, fuel).Some?
    ensures Seconds(NextRunTime(ss, t, fuel).value) == Seconds(t) + 1
  {
    NextSecondSeconds(t);
  }

  /**
   * A field that moved off the reference's value restarts every less
   * significant field at its first allowed value (0, or 1 for the day).
   */
  lemma ChangedFieldResetsLower(ss: SuperSchedule, t: DateTime)
    requires t.Valid() && WellFormedSuper(ss)
    ensures var c := Stages(ss, t);
      var s := ss.fields;
      (c.month != t.month ==> c.day == Generic.First(s.day, 1) && c.hour == Generic.First(s.hour, 0) &&
                              c.minute == Generic.First(s.minute, 0) && c.second == Generic.First(ss.second, 0)) &&
      (c.month == t.month && c.day != t.day ==>
         c.hour == Generic.First(s.hour, 0) && c.minute == Generic.First(s.minute, 0) && c.second == Generic.First(ss.second, 0)) &&
      (c.month == t.month && c.day == t.day && c.hour != t.hour ==>
         c.minute == Generic.First(s.minute, 0) && c.second == Generic.First(ss.second, 0)) &&
      (c.month == t.month && c.day == t.day && c.hour == t.hour && c.minute != t.minute ==>
         c.second == Generic.First(ss.second, 0))
  {
    var c1 := SecondStage(ss, t);
    var c2 := MinuteStage(ss, t, c1);
    var c3 := HourStage(ss, t, c2);
    var c4 := DayStage(ss, t, c3);
    MinuteStageResets(ss, t, c1);
    HourStageResets(ss, t, c2);
    DayStageResets(ss, t, c3);
    MonthStageResets(ss, t, c4);
  }

  lemma MinuteStageResets(ss: SuperSchedule, t: DateTime, c1: DateTime)
    requires t.Valid() && c1.Valid() && WellFormedSuper(ss)
    requires ss.second.Values? ==> c1.second in ss.second.vals
    ensures var c := MinuteStage(ss, t, c1); c.minute != t.minute ==> c.second == Generic.First(ss.second, 0)
  {
  }

  lemma HourStageResets(ss: SuperSchedule, t: DateTime, c2: DateTime)
    requires t.Valid() && c2.Valid() && WellFormedSuper(ss)
    requires ss.second.Values? ==> c2.second in ss.second.vals
    requires ss.fields.minute.Values? ==> c2.minute in ss.fields.minute.vals
    ensures var c := HourStage(ss, t, c2);
      (c.hour != t.hour ==> c.minute == Generic.First(ss.fields.minute, 0) && c.second == Generic.First(ss.second, 0)) &&
      (c.hour == t.hour ==> c.minute == c2.minute && c.second == c2.second)
  {
  }

  lemma DayStageResets(ss: SuperSchedule, t: DateTime, c3: DateTime)
    requires t.Valid() && c3.Valid() && WellFormedSuper(ss)
    requires ss.second.Values? ==> c3.second in ss.second.vals
    requires ss.fields.minute.Values? ==> c3.minute in ss.fields.minute.vals
    requires ss.fields.hour.Values? ==> c3.hour in ss.fields.hour.vals
    ensures var c := DayStage(ss, t, c3);
      (c.day != t.day ==> c.hour == Generic.First(ss.fields.hour, 0) && c.minute == Generic.First(ss.fields.minute, 0) &&
                          c.second == Generic.First(ss.second, 0)) &&
      (c.day == t.day ==> c.hour == c3.hour && c.minute == c3.minute && c.second == c3.second)
  {
  }

  lemma MonthStageResets(ss: SuperSchedule, t: DateTime, c4: DateTime)
    requires t.Valid() && WellFormedSuper(ss)
    requires Fits(ss, c4)
    ensures var c := MonthStage(ss, t, c4);
      (c.month != t.month ==> c.day == Generic.First(ss.fields.day, 1) && c.hour == Generic.First(ss.fields.hour, 0) &&
                              c.minute == Generic.First(ss.fields.minute, 0) && c.second == Generic.First(ss.second, 0)) &&
      (c.month == t.month ==> c.day == c4.day && c.hour == c4.hour && c.minute == c4.minute && c.second == c4.second)
  {
  }

  // ---------------------------------------------------------------------------
  // With the month `*` the next run lies after the reference: each stage's
  // candidate stays in the reference's minute, hour, day or month or moves on
  // to the next one, and the month stage moves it past the reference.

  /** The second stage stays in the reference's minute or moves to the next; it keeps the minute only within it. */
  lemma SecondStageMinute(ss: SuperSchedule, t: DateTime)
    requires t.Valid() && WellFormedSuper(ss)
    ensures var c1 := SecondStage(ss, t);
      && (SameMinute(c1, t) || SameMinute(c1, NextMinute(t)))
      && (c1.minute == t.minute ==> SameMinute(c1, t))
  {
    NextSecondMinute(t);
    NextMinuteHour(t);
  }

  /** The minute stage stays in the reference's hour or moves to the next; it keeps the hour only within it. */
  lemma MinuteStageHour(ss: SuperSchedule, t: DateTime, c1: DateTime)
    requires t.Valid() && c1.Valid() && WellFormedSuper(ss)
    requires ss.second.Values? ==> c1.second in ss.second.vals
    requires SameMinute(c1, t) || SameMinute(c1, NextMinute(t))
    requires c1.minute == t.minute ==> SameMinute(c1, t)
    ensures var c2 := MinuteStage(ss, t, c1);
      && (SameHour(c2, t) || SameHour(c2, NextHour(t)))
      && (c2.hour == t.hour ==> SameHour(c2, t))
  {
    NextMinuteHour(t);
    NextMinuteHour(c1);
    NextHourDate(t);
  }

  /** The hour stage stays in the reference's day or moves to the next. */
  lemma HourStageDate(ss: SuperSchedule, t: DateTime, c2: DateTime)
    requires t.Valid() && c2.Valid() && WellFormedSuper(ss)
    requires ss.second.Values? ==> c2.second in ss.second.vals
    requires ss.fields.minute.Values? ==> c2.minute in ss.fields.minute.vals
    requires SameHour(c2, t) || SameHour(c2, NextHour(t))
    requires c2.hour == t.hour ==> SameHour(c2, t)
    ensures var c3 := HourStage(ss, t, c2); SameDate(c3, t) || SameDate(c3, NextDay(t))
  {
    NextHourDate(t);
    NextHourDate(c2);
  }

  /** The day stage stays in the reference's month or moves to the next. */
  lemma DayStageMonth(ss: SuperSchedule, t: DateTime, c3: DateTime)
    requires t.Valid() && c3.Valid() && WellFormedSuper(ss)
    requires ss.second.Values? ==> c3.second in ss.second.vals
    requires ss.fields.minute.Values? ==> c3.minute in ss.fields.minute.vals
    requires ss.fields.hour.Values? ==> c3.hour in ss.fields.hour.vals
    requires SameDate(c3, t) || SameDate(c3, NextDay(t))
    ensures var c4 := DayStage(ss, t, c3);
      (c4.year, c4.month) == (t.year, t.month) || (c4.year, c4.month) == NextMonth(t.year, t.month)
  {
    NextDayMonth(t);
    NextDayMonth(c3);
  }

  /** With the month `*`, the month stage ends after the reference. */
  lemma MonthStageLater(ss: SuperSchedule, t: DateTime, c4: DateTime)
    requires t.Valid() && WellFormedSuper(ss) && ss.fields.month.Wildcard? && Fits(ss, c4)
    requires (c4.year, c4.month) == (t.year, t.month) || (c4.year, c4.month) == NextMonth(t.year, t.month)
    ensures Seconds(MonthStage(ss, t, c4)) > Seconds(t)
  {
    var c := MonthStage(ss, t, c4);
    if (c.year, c.month) != (t.year, t.month) {
      NextMonthLater(t, c);
    }
  }

  /** With the month `*`, the candidate is later than the reference. */
  lemma CandidateLater(ss: SuperSchedule, t: DateTime)
    requires t.Valid() && WellFormedSuper(ss) && ss.fields.month.Wildcard?
    ensures Seconds(Candidate(ss, t)) > Seconds(t)
  {
    if AllWildcardSuper(ss) {
      NextSecondSeconds(t);
    } else {
      var c1 := SecondStage(ss, t);
      SecondStageMinute(ss, t);
      var c2 := MinuteStage(ss, t, c1);
      MinuteStageHour(ss, t, c1);
      var c3 := HourStage(ss, t, c2);
      HourStageDate(ss, t, c2);
      var c4 := DayStage(ss, t, c3);
      DayStageMonth(ss, t, c3);
      MonthStageLater(ss, t, c4);
      var c := Stages(ss, t);
      MkTimeSeconds(c.hour, c.minute, c.second, c.month, c.day, c.year);
    }
  }

  /**
   * With the month `*`, getNextRunTime returns an instant strictly after the
   * reference; a restart searches on from the end of a candidate's day, which
   * is later still.
   */
  lemma {:induction false} NextRunTimeLater(ss: SuperSchedule, t: DateTime, fuel: nat)
    requires t.Valid() && WellFormedSuper(ss) && ss.fields.month.Wildcard?
    ensures var r := NextRunTime(ss, t, fuel); r.Some? ==> Seconds(r.value) > Seconds(t)
    decreases fuel, 1
  {
    CandidateLater(ss, t);
    RestartNotEarlier(ss, Candidate(ss, t), fuel);
  }

  /** With the month `*`, the day-of-week check keeps the candidate or moves past it. */
  lemma {:induction false} RestartNotEarlier(ss: SuperSchedule, c: DateTime, fuel: nat)
    requires c.Valid() && WellFormedSuper(ss) && ss.fields.month.Wildcard?
    requires ss.second.Values? ==> c.second in ss.second.vals
    requires ss.fields.minute.Values? ==> c.minute in ss.fields.minute.vals
    requires ss.fields.hour.Values? ==> c.hour in ss.fields.hour.vals
    ensures var r := Restart(ss, c, fuel); r.Some? ==> Seconds(r.value) >= Seconds(c)
    decreases fuel, 0
  {
    if !Generic.WeekdayAllowed(ss.fields, c) && fuel > 0 {
      assert Restart(ss, c, fuel) == NextRunTime(ss, EndOfDay(c), fuel - 1);
      EndOfDayLater(c);
      NextRunTimeLater(ss, EndOfDay(c), fuel - 1);
    }
  }

  /**
   * A month list that wraps does not advance the year here either: month 3
   * asked from 15 June 1970 10:00:00 gives 1 March 1970 00:00:00.
   */
  lemma MonthWrap()
    ensures NextRunTime(SuperSchedule(Wildcard, Generic.Schedule(Wildcard, Wildcard, Wildcard, Values([3]), Wildcard)),
                        DateTime(1970, 6, 15, 10, 0, 0), Generic.MaxRestarts)
            == Some(DateTime(1970, 3, 1, 0, 0, 0))
    ensures Seconds(DateTime(1970, 3, 1, 0, 0, 0)) < Seconds(DateTime(1970, 6, 15, 10, 0, 0))
  {
  }

  /** The carried hour is skipped here too: hours 2 and 3 from 01:59:59 give 03:00:00. */
  lemma CarrySkip()
    ensures NextRunTime(SuperSchedule(Wildcard, Generic.Schedule(Wildcard, Values([2, 3]), Wildcard, Wildcard, Wildcard)),
                        DateTime(1970, 1, 1, 1, 59, 59), Generic.MaxRestarts)
            == Some(DateTime(1970, 1, 1, 3, 0, 0))
  {
  }

  // ---------------------------------------------------------------------------
  // The search as evidently intended: the year moves exactly when the month
  // lookup wraps back (Generic.MonthWrapsBack), and then the next run is
  // always strictly after the reference.

  /** Whether the month stage looks up the candidate's own month too: c4 is after t within the month. */
  predicate MonthInclusive(t: DateTime, c4: DateTime) {
    !(c4.day < t.day || (c4.day == t.day && (c4.hour < t.hour || (c4.hour == t.hour &&
      (c4.minute < t.minute || (c4.minute == t.minute && c4.second <= t.second))))))
  }

  /** The month lookup of the search from t wraps back. */
  predicate MonthStageWrapsBack(ss: SuperSchedule, t: DateTime)
    requires t.Valid() && WellFormedSuper(ss)
  {
    var c4 := DayStage(ss, t, HourStage(ss, t, MinuteStage(ss, t, SecondStage(ss, t))));
    Generic.MonthWrapsBack(ss.fields.month, t, c4, MonthInclusive(t, c4))
  }

  /** MonthStage with Generic.IntendedMonthMove. */
  function IntendedMonthStage(ss: SuperSchedule, t: DateTime, c4: DateTime): (c: DateTime)
    requires t.Valid() && WellFormedSuper(ss)
    requires Fits(ss, c4)
    ensures Fits(ss, c)
    ensures ss.fields.month.Values? ==> c.month in ss.fields.month.vals
    ensures !Generic.MonthWrapsBack(ss.fields.month, t, c4, MonthInclusive(t, c4)) ==> c == MonthStage(ss, t, c4)
  {
    var s := ss.fields;
    var c := Generic.IntendedMonthMove(s.month, t, c4, MonthInclusive(t, c4));
    if c.month != t.month
    then c.(second := Generic.First(ss.second, 0), minute := Generic.First(s.minute, 0), hour := Generic.First(s.hour, 0), day := Generic.First(s.day, 1))
    else c
  }

  /** Candidate with IntendedMonthStage. */
  function IntendedCandidate(ss: SuperSchedule, t: DateTime): (c: DateTime)
    requires t.Valid() && WellFormedSuper(ss)
    ensures c.Valid()
    ensures ss.second.Values? ==> c.second in ss.second.vals
    ensures ss.fields.minute.Values? ==> c.minute in ss.fields.minute.vals
    ensures ss.fields.hour.Values? ==> c.hour in ss.fields.hour.vals
    ensures !MonthStageWrapsBack(ss, t) ==> c == Candidate(ss, t)
  {
    if AllWildcardSuper(ss) then NextSecond(t)
    else
      var c := IntendedMonthStage(ss, t, DayStage(ss, t, HourStage(ss, t, MinuteStage(ss, t, SecondStage(ss, t)))));
      MkTime(c.hour, c.minute, c.second, c.month, c.day, c.year)
  }

  /** NextRunTime with IntendedCandidate: the same promises about the fields of a result. */
  function IntendedNextRunTime(ss: SuperSchedule, t: DateTime, fuel: nat): (r: Option<DateTime>)
    requires t.Valid() && WellFormedSuper(ss)
    ensures r.Some? ==> r.value.Valid()
    ensures r.Some? && ss.second.Values? ==> r.value.second in ss.second.vals
    ensures r.Some? && ss.fields.minute.Values? ==> r.value.minute in ss.fields.minute.vals
    ensures r.Some? && ss.fields.hour.Values? ==> r.value.hour in ss.fields.hour.vals
    ensures r.Some? && ss.fields.dayOfWeek.Values? ==> Weekday(r.value) in ss.fields.dayOfWeek.vals
    ensures ss.fields.dayOfWeek.Wildcard? ==> r.Some?
    decreases fuel, 1
  {
    IntendedRestart(ss, IntendedCandidate(ss, t), fuel)
  }

  /** Restart with IntendedNextRunTime. */
  function IntendedRestart(ss: SuperSchedule, c: DateTime, fuel: nat): (r: Option<DateTime>)
    requires c.Valid() && WellFormedSuper(ss)
    requires ss.second.Values? ==> c.second in ss.second.vals
    requires ss.fields.minute.Values? ==> c.minute in ss.fields.minute.vals
    requires ss.fields.hour.Values? ==> c.hour in ss.fields.hour.vals
    ensures r.Some? ==> r.value.Valid()
    ensures r.Some? && ss.second.Values? ==> r.value.second in ss.second.vals
    ensures r.Some? && ss.fields.minute.Values? ==> r.value.minute in ss.fields.minute.vals
    ensures r.Some? && ss.fields.hour.Values? ==> r.value.hour in ss.fields.hour.vals
    ensures r.Some? && ss.fields.dayOfWeek.Values? ==> Weekday(r.value) in ss.fields.dayOfWeek.vals
    ensures ss.fields.dayOfWeek.Wildcard? ==> r == Some(c)
    decreases fuel, 0
  {
    if Generic.WeekdayAllowed(ss.fields, c) then Some(c)
    else if fuel == 0 then None
    else IntendedNextRunTime(ss, EndOfDay(c), fuel - 1)
  }

  /** The intended month stage ends after the reference, whatever the month field. */
  lemma IntendedMonthStageLater(ss: SuperSchedule, t: DateTime, c4: DateTime)
    requires t.Valid() && WellFormedSuper(ss) && Fits(ss, c4)
    requires (c4.year, c4.month) == (t.year, t.month) || (c4.year, c4.month) == NextMonth(t.year, t.month)
    ensures Seconds(IntendedMonthStage(ss, t, c4)) > Seconds(t)
  {
    Generic.IntendedMonthMoveForward(ss.fields.month, t, c4, MonthInclusive(t, c4));
    var c := IntendedMonthStage(ss, t, c4);
    if c.year * 12 + c.month != t.year * 12 + t.month {
      LaterMonthLater(t, c);
    } else {
      assert c == c4;
    }
  }

  /** The intended candidate is later than the reference. */
  lemma IntendedCandidateLater(ss: SuperSchedule, t: DateTime)
    requires t.Valid() && WellFormedSuper(ss)
    ensures Seconds(IntendedCandidate(ss, t)) > Seconds(t)
  {
    if AllWildcardSuper(ss) {
      NextSecondSeconds(t);
    } else {
      var c1 := SecondStage(ss, t);
      SecondStageMinute(ss, t);
      var c2 := MinuteStage(ss, t, c1);
      MinuteStageHour(ss, t, c1);
      var c3 := HourStage(ss, t, c2);
      HourStageDate(ss, t, c2);
      var c4 := DayStage(ss, t, c3);
      DayStageMonth(ss, t, c3);
      IntendedMonthStageLater(ss, t, c4);
      var c := IntendedMonthStage(ss, t, c4);
      MkTimeSeconds(c.hour, c.minute, c.second, c.month, c.day, c.year);
    }
  }

  /** The intended search returns an instant strictly after the reference, for every schedule. */
  lemma {:induction false} IntendedNextRunTimeLater(ss: SuperSchedule, t: DateTime, fuel: nat)
    requires t.Valid() && WellFormedSuper(ss)
    ensures var r := IntendedNextRunTime(ss, t, fuel); r.Some? ==> Seconds(r.value) > Seconds(t)
    decreases fuel, 1
  {
    IntendedCandidateLater(ss, t);
    IntendedRestartNotEarlier(ss, IntendedCandidate(ss, t), fuel);
  }

  /** The intended day-of-week check keeps the candidate or moves past it. */
  lemma {:induction false} IntendedRestartNotEarlier(ss: SuperSchedule, c: DateTime, fuel: nat)
    requires c.Valid() && WellFormedSuper(ss)
    requires ss.second.Values? ==> c.second in ss.second.vals
    requires ss.fields.minute.Values? ==> c.minute in ss.fields.minute.vals
    requires ss.fields.hour.Values? ==> c.hour in ss.fields.hour.vals
    ensures var r := IntendedRestart(ss, c, fuel); r.Some? ==> Seconds(r.value) >= Seconds(c)
    decreases fuel, 0
  {
    if !Generic.WeekdayAllowed(ss.fields, c) && fuel > 0 {
      assert IntendedRestart(ss, c, fuel) == IntendedNextRunTime(ss, EndOfDay(c), fuel - 1);
      EndOfDayLater(c);
      IntendedNextRunTimeLater(ss, EndOfDay(c), fuel - 1);
    }
  }

  /** No candidate of the search from t, restarts included, has its month lookup wrap back. */
  predicate NeverWrapsBack(ss: SuperSchedule, t: DateTime, fuel: nat)
    requires t.Valid() && WellFormedSuper(ss)
    decreases fuel, 1
  {
    !MonthStageWrapsBack(ss, t) && RestartNeverWrapsBack(ss, Candidate(ss, t), fuel)
  }

  /** No search restarted from the candidate c has its month lookup wrap back. */
  predicate RestartNeverWrapsBack(ss: SuperSchedule, c: DateTime, fuel: nat)
    requires c.Valid() && WellFormedSuper(ss)
    decreases fuel, 0
  {
    Generic.WeekdayAllowed(ss.fields, c) || fuel == 0 || NeverWrapsBack(ss, EndOfDay(c), fuel - 1)
  }

  /** With the month `*` nothing wraps back. */
  lemma {:induction false} WildcardNeverWrapsBack(ss: SuperSchedule, t: DateTime, fuel: nat)
    requires t.Valid() && WellFormedSuper(ss) && ss.fields.month.Wildcard?
    ensures NeverWrapsBack(ss, t, fuel)
    decreases fuel, 1
  {
    WildcardRestartNeverWrapsBack(ss, Candidate(ss, t), fuel);
  }

  /** With the month `*` no restart wraps back. */
  lemma {:induction false} WildcardRestartNeverWrapsBack(ss: SuperSchedule, c: DateTime, fuel: nat)
    requires c.Valid() && WellFormedSuper(ss) && ss.fields.month.Wildcard?
    ensures RestartNeverWrapsBack(ss, c, fuel)
    decreases fuel, 0
  {
    if !Generic.WeekdayAllowed(ss.fields, c) && fuel > 0 {
      WildcardNeverWrapsBack(ss, EndOfDay(c), fuel - 1);
    }
  }

  /** Where no month lookup wraps back, the intended search is the source's. */
  lemma {:induction false} IntendedAgrees(ss: SuperSchedule, t: DateTime, fuel: nat)
    requires t.Valid() && WellFormedSuper(ss) && NeverWrapsBack(ss, t, fuel)
    ensures IntendedNextRunTime(ss, t, fuel) == NextRunTime(ss, t, fuel)
    decreases fuel, 1
  {
    IntendedRestartAgrees(ss, Candidate(ss, t), fuel);
  }

  /** The day-of-week check of the two searches agrees where no later lookup wraps back. */
  lemma {:induction false} IntendedRestartAgrees(ss: SuperSchedule, c: DateTime, fuel: nat)
    requires c.Valid() && WellFormedSuper(ss)
    requires ss.second.Values? ==> c.second in ss.second.vals
    requires ss.fields.minute.Values? ==> c.minute in ss.fields.minute.vals
    requires ss.fields.hour.Values? ==> c.hour in ss.fields.hour.vals
    requires RestartNeverWrapsBack(ss, c, fuel)
    ensures IntendedRestart(ss, c, fuel) == Restart(ss, c, fuel)
    decreases fuel, 0
  {
    if !Generic.WeekdayAllowed(ss.fields, c) && fuel > 0 {
      IntendedAgrees(ss, EndOfDay(c), fuel - 1);
    }
  }

  /** Month 7 from 30 June 1970 23:59:59: the day carry lands on 1 July 1970 00:00:00. */
  lemma CarriedIntoJuly()
    ensures NextRunTime(SuperSchedule(Wildcard, Generic.Schedule(Wildcard, Wildcard, Wildcard, Values([7]), Wildcard)),
                        DateTime(1970, 6, 30, 23, 59, 59), Generic.MaxRestarts)
            == Some(DateTime(1970, 7, 1, 0, 0, 0))
  {
  }

  /** The intended search keeps that answer: its month lookup does not wrap back. */
  lemma IntendedCarriedIntoJuly()
    ensures IntendedNextRunTime(SuperSchedule(Wildcard, Generic.Schedule(Wildcard, Wildcard, Wildcard, Values([7]), Wildcard)),
                                DateTime(1970, 6, 30, 23, 59, 59), Generic.MaxRestarts)
            == Some(DateTime(1970, 7, 1, 0, 0, 0))
  {
    CarriedIntoJuly();
    IntendedAgrees(SuperSchedule(Wildcard, Generic.Schedule(Wildcard, Wildcard, Wildcard, Values([7]), Wildcard)),
                   DateTime(1970, 6, 30, 23, 59, 59), Generic.MaxRestarts);
  }

  /** The intended search moves month 3 asked in June 1970 on to March 1971. */
  lemma IntendedMonthWrap()
    ensures IntendedNextRunTime(SuperSchedule(Wildcard, Generic.Schedule(Wildcard, Wildcard, Wildcard, Values([3]), Wildcard)),
                                DateTime(1970, 6, 15, 10, 0, 0), Generic.MaxRestarts)
            == Some(DateTime(1971, 3, 1, 0, 0, 0))
  {
  }

  // The steps of getNextRunTime as the source writes them: the locals
  // $newSecond ... $newYear travel in a DateTime.

  /** The body of getNextRunTime: the candidate (lines 50-150), then the day-of-week check. */
  method Search(ss: SuperSchedule, time: DateTime, fuel: nat) returns (r: Option<DateTime>)
    requires WellFormedSuper(ss) && time.Valid()
    ensures r == NextRunTime(ss, time, fuel)
    decreases fuel, 1
  {
    var nextRunTime := CandidateStep(ss, time);
    r := RestartStep(ss, nextRunTime, fuel);
  }

  /** Lines 152-158: keep the candidate, or search again from 23:59:59 of its day. */
  method RestartStep(ss: SuperSchedule, nextRunTime: DateTime, fuel: nat) returns (r: Option<DateTime>)
    requires nextRunTime.Valid() && WellFormedSuper(ss)
    requires ss.second.Values? ==> nextRunTime.second in ss.second.vals
    requires ss.fields.minute.Values? ==> nextRunTime.minute in ss.fields.minute.vals
    requires ss.fields.hour.Values? ==> nextRunTime.hour in ss.fields.hour.vals
    ensures r == Restart(ss, nextRunTime, fuel)
    decreases fuel, 0
  {
    if Generic.WeekdayAllowed(ss.fields, nextRunTime) {
      r := Some(nextRunTime);
    } else if fuel == 0 {
      r := None;
    } else {
      r := Search(ss, EndOfDay(nextRunTime), fuel - 1);
    }
  }

  /** Lines 50-150: the all-`*` shortcut, or the five steps and mktime. */
  method CandidateStep(ss: SuperSchedule, time: DateTime) returns (c: DateTime)
    requires time.Valid() && WellFormedSuper(ss)
    ensures c == Candidate(ss, time)
  {
    var s := ss.fields;
    if ss.second.Wildcard? && s.minute.Wildcard? && s.hour.Wildcard? && s.day.Wildcard? && s.month.Wildcard? &&
       s.dayOfWeek.Wildcard?
    {
      var second, minute, hour, day, month, year := AddSecond(time.second, time.minute, time.hour, time.day, time.month, time.year);
      return MkTime(hour, minute, second, month, day, year);
    }
    var c1 := SecondStep(ss, time);
    var c2 := MinuteStep(ss, time, c1);
    var c3 := HourStep(ss, time, c2);
    var c4 := DayStep(ss, time, c3);
    var c5 := MonthStep(ss, time, c4);
    c := MkTime(c5.hour, c5.minute, c5.second, c5.month, c5.day, c5.year);
  }

  /** Lines 63-71: the next listed second, or one second on when there is none. */
  method SecondStep(ss: SuperSchedule, time: DateTime) returns (c: DateTime)
    requires time.Valid() && WellFormedSuper(ss)
    ensures c == SecondStage(ss, time)
  {
    var second := time.second;
    var newSecond, newMinute, newHour, newDay, newMonth, newYear := 0, time.minute, time.hour, time.day, time.month, time.year;
    var next := GetNextRunIntervalValue(ss.second, second, None, false);
    if next.None? {
      newSecond := second;
      newSecond, newMinute, newHour, newDay, newMonth, newYear := AddSecond(newSecond, newMinute, newHour, newDay, newMonth, newYear);
    } else {
      newSecond := next.value;
    }
    c := DateTime(newYear, newMonth, newDay, newHour, newMinute, newSecond);
  }

  /** Lines 73-89: the minute step. */
  method MinuteStep(ss: SuperSchedule, time: DateTime, c1: DateTime) returns (c: DateTime)
    requires time.Valid() && c1.Valid() && WellFormedSuper(ss)
    requires ss.second.Values? ==> c1.second in ss.second.vals
    ensures c == MinuteStage(ss, time, c1)
  {
    var second, minute := time.second, time.minute;
    var newSecond, newMinute, newHour, newDay, newMonth, newYear := c1.second, c1.minute, c1.hour, c1.day, c1.month, c1.year;
    var tmpMinute := newMinute;
    var next;
    if second < newSecond {
      next := GetNextRunIntervalValue(ss.fields.minute, newMinute, Some(newMinute), true);
    } else {
      next := GetNextRunIntervalValue(ss.fields.minute, newMinute, None, false);
    }
    if next.None? {
      newMinute := tmpMinute;
      if newMinute == minute {
        NextMinuteKeepsSecond(c1);
        newMinute, newHour, newDay, newMonth, newYear := Generic.AddMinute(newMinute, newHour, newDay, newMonth, newYear);
      }
    } else {
      newMinute := next.value;
    }
    if newMinute != minute {
      newSecond := Generic.First(ss.second, 0);
    }
    c := DateTime(newYear, newMonth, newDay, newHour, newMinute, newSecond);
  }

  /** Lines 91-108: the hour step. */
  method HourStep(ss: SuperSchedule, time: DateTime, c2: DateTime) returns (c: DateTime)
    requires time.Valid() && c2.Valid() && WellFormedSuper(ss)
    requires ss.second.Values? ==> c2.second in ss.second.vals
    requires ss.fields.minute.Values? ==> c2.minute in ss.fields.minute.vals
    ensures c == HourStage(ss, time, c2)
  {
    var second, minute, hour := time.second, time.minute, time.hour;
    var newSecond, newMinute, newHour, newDay, newMonth, newYear := c2.second, c2.minute, c2.hour, c2.day, c2.month, c2.year;
    var tmpHour := newHour;
    var next;
    if newMinute < minute || (newMinute == minute && newSecond <= second) {
      next := GetNextRunIntervalValue(ss.fields.hour, newHour, None, false);
    } else {
      next := GetNextRunIntervalValue(ss.fields.hour, newHour, Some(newHour), true);
    }
    if next.None? {
      newHour := tmpHour;
      if newHour == hour {
        newHour, newDay, newMonth, newYear := Generic.AddHour(newHour, newDay, newMonth, newYear);
      }
    } else {
      newHour := next.value;
    }
    if newHour != hour {
      newSecond := Generic.First(ss.second, 0);
      newMinute := Generic.First(ss.fields.minute, 0);
    }
    c := DateTime(newYear, newMonth, newDay, newHour, newMinute, newSecond);
  }

  /** Lines 110-128: the day step. */
  method DayStep(ss: SuperSchedule, time: DateTime, c3: DateTime) returns (c: DateTime)
    requires time.Valid() && c3.Valid() && WellFormedSuper(ss)
    requires ss.second.Values? ==> c3.second in ss.second.vals
    requires ss.fields.minute.Values? ==> c3.minute in ss.fields.minute.vals
    requires ss.fields.hour.Values? ==> c3.hour in ss.fields.hour.vals
    ensures c == DayStage(ss, time, c3)
  {
    var second, minute, hour, day := time.second, time.minute, time.hour, time.day;
    var newSecond, newMinute, newHour, newDay, newMonth, newYear := c3.second, c3.minute, c3.hour, c3.day, c3.month, c3.year;
    var tmpDay := newDay;
    var next;
    if newHour < hour || (newHour == hour && (newMinute < minute || (newMinute == minute && newSecond <= second))) {
      next := GetNextRunIntervalValue(ss.fields.day, newDay, None, false);
    } else {
      next := GetNextRunIntervalValue(ss.fields.day, newDay, Some(newDay), true);
    }
    if next.None? {
      newDay := tmpDay;
      if newDay == day {
        newDay, newMonth, newYear := Generic.AddDay(newDay, newMonth, newYear);
      }
    } else {
      newDay := next.value;
    }
    if newDay != day {
      newSecond := Generic.First(ss.second, 0);
      newMinute := Generic.First(ss.fields.minute, 0);
      newHour := Generic.First(ss.fields.hour, 0);
    }
    c := DateTime(newYear, newMonth, newDay, newHour, newMinute, newSecond);
  }

  /** Lines 130-148: the month step. */
  method MonthStep(ss: SuperSchedule, time: DateTime, c4: DateTime) returns (c: DateTime)
    requires time.Valid() && WellFormedSuper(ss) && Fits(ss, c4)
    ensures c == MonthStage(ss, time, c4)
  {
    var second, minute, hour, day, month := time.second, time.minute, time.hour, time.day, time.month;
    var newSecond, newMinute, newHour, newDay, newMonth, newYear := c4.second, c4.minute, c4.hour, c4.day, c4.month, c4.year;
    var tmpMonth := newMonth;
    var next;
    if newDay < day || (newDay == day && (newHour < hour || (newHour == hour &&
         (newMinute < minute || (newMinute == minute && newSecond <= second)))))
    {
      next := GetNextRunIntervalValue(ss.fields.month, newMonth, None, false);
    } else {
      next := GetNextRunIntervalValue(ss.fields.month, newMonth, Some(newMonth), true);
    }
    if next.None? {
      newMonth := tmpMonth;
      if newMonth == month {
        newMonth, newYear := Generic.AddMonth(newMonth, newYear);
      }
    } else {
      newMonth := next.value;
    }
    if newMonth != month {
      newSecond := Generic.First(ss.second, 0);
      newMinute := Generic.First(ss.fields.minute, 0);
      newHour := Generic.First(ss.fields.hour, 0);
      newDay := Generic.First(ss.fields.day, 1);
    }
    c := DateTime(newYear, newMonth, newDay, newHour, newMinute, newSecond);
  }

  // ---------------------------------------------------------------------------
  // The job.

  class SuperCronJob {
    const callback: Generic.Callback
    const second: Field
    const minute: Field
    const hour: Field
    const day: Field
    const month: Field
    const dayOfWeek: Field
    const intervalDefinition: string
    /** The cached id; None until getId has been called. */
    var id: Option<string>

    /** The run intervals of this job. */
    function Intervals(): SuperSchedule {
      SuperSchedule(second, Generic.Schedule(minute, hour, day, month, dayOfWeek))
    }

    predicate Valid() {
      Generic.ValidCallback(callback) && WellFormedSuper(Intervals())
    }

    constructor Init(callback: Generic.Callback, schedule: SuperSchedule, intervalDefinition: string)
      ensures this.callback == callback && Intervals() == schedule
      ensures this.intervalDefinition == intervalDefinition && id.None?
    {
      this.callback := callback;
      this.second := schedule.second;
      this.minute := schedule.fields.minute;
      this.hour := schedule.fields.hour;
      this.day := schedule.fields.day;
      this.month := schedule.fields.month;
      this.dayOfWeek := schedule.fields.dayOfWeek;
      this.intervalDefinition := intervalDefinition;
      this.id := None;
    }

    /**
     * __construct: the callback is checked first, then minute .. day of week,
     * then the second; the first failure is thrown.
     */
    static method Create(callback: Generic.Callback, second: Option<string>, minute: Option<string>, hour: Option<string>,
                         day: Option<string>, month: Option<string>, dayOfWeek: Option<string>)
      returns (r: Result<SuperCronJob, CronError>)
      ensures !Generic.ValidCallback(callback) ==> r == Failure(InvalidCallback)
      ensures Generic.ValidCallback(callback) && SuperScheduleOf(second, minute, hour, day, month, dayOfWeek).Failure? ==>
                r == Failure(SuperScheduleOf(second, minute, hour, day, month, dayOfWeek).error)
      ensures r.Success? <==>
                Generic.ValidCallback(callback) && SuperScheduleOf(second, minute, hour, day, month, dayOfWeek).Success?
      ensures r.Success? ==> fresh(r.value) && r.value.Valid() && r.value.callback == callback &&
                             r.value.Intervals() == SuperScheduleOf(second, minute, hour, day, month, dayOfWeek).value &&
                             r.value.intervalDefinition == SuperDefinition(second, minute, hour, day, month, dayOfWeek) &&
                             r.value.id.None?
    {
      if !Generic.ValidCallback(callback) {
        return Failure(InvalidCallback);
      }
      var schedule := SetRunInterval(second, minute, hour, day, month, dayOfWeek);
      if schedule.Failure? {
        return Failure(schedule.error);
      }
      var job := new SuperCronJob.Init(callback, schedule.value, SuperDefinition(second, minute, hour, day, month, dayOfWeek));
      return Success(job);
    }

    /** __toString, inherited: the callback, then the interval definition in parentheses. */
    function ToString(): string {
      Generic.CallbackText(callback) + " (" + intervalDefinition + ")"
    }

    /** getId, inherited: md5 of __toString, computed on the first call and cached while truthy. */
    method GetId(md5: string -> string) returns (r: string)
      modifies this`id
      ensures old(id).Some? && Truthy(old(id).value) ==> r == old(id).value && id == old(id)
      ensures !(old(id).Some? && Truthy(old(id).value)) ==> r == md5(ToString()) && id == Some(r)
    {
      if id.Some? && Truthy(id.value) {
        return id.value;
      }
      id := Some(md5(ToString()));
      r := id.value;
    }

    /** getNextRunTime($time), with the restart depth bounded by Generic.MaxRestarts. */
    method GetNextRunTime(time: DateTime) returns (r: Option<DateTime>)
      requires Valid() && time.Valid()
      ensures r == NextRunTime(Intervals(), time, Generic.MaxRestarts)
    {
      r := Search(Intervals(), time, Generic.MaxRestarts);
    }
  }
}
