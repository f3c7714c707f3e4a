// A cron job with minute precision (GenericCronJob.php): the callback, the
// five parsed schedule fields, the interval definition, the cached id, the
// by-reference carry chain, and the carry-propagating search for the next
// run time.
module Generic {
  import opened Wrappers
  import opened Calendar
  import opened Fields

  // ---------------------------------------------------------------------------
  // Callback, interval definition and id.

  /** What a job can be given as its callback. */
  datatype Callback =
    | Function(name: string)                          // a string, such as 'strpos'
    | Static(className: string, methodName: string)   // array('Class', 'method')
    | Bound(className: string, methodName: string)    // array($object, 'method'); className is the object's class
    | EmptyArray                                      // array()
    | Other                                           // an object, a number, null

  /** setCallback accepts a truthy string or a non-empty array. */
  predicate ValidCallback(cb: Callback) {
    match cb
    case Function(name) => Truthy(name)
    case Static(_, _) => true
    case Bound(_, _) => true
    case EmptyArray => false
    case Other => false
  }

  /** The callback part of __toString. */
  function CallbackText(cb: Callback): string {
    match cb
    case Function(name) => name
    case Static(c, m) => c + "::" + m
    case Bound(c, m) => c + "->" + m
    case EmptyArray => ""
    case Other => ""
  }

  /** A field text as it appears in the definition: null is written `*`. */
  function FieldText(text: Option<string>): string {
    if text.None? then "*" else text.value
  }

  predicate NoSpace(text: Option<string>) {
    ' ' !in FieldText(text)
  }

  /** The interval definition: the five raw field texts joined by single spaces. */
  function IntervalDefinition(minute: Option<string>, hour: Option<string>, day: Option<string>,
                              month: Option<string>, dayOfWeek: Option<string>): string
  {
    FieldText(minute) + " " + FieldText(hour) + " " + FieldText(day) + " " + FieldText(month) + " " + FieldText(dayOfWeek)
  }

  /** When no field text holds a space, the definition splits back into the five texts. */
  lemma {:induction false} IntervalDefinitionFields(minute: Option<string>, hour: Option<string>, day: Option<string>,
                                                    month: Option<string>, dayOfWeek: Option<string>)
    requires NoSpace(minute) && NoSpace(hour) && NoSpace(day) && NoSpace(month) && NoSpace(dayOfWeek)
    ensures Split(IntervalDefinition(minute, hour, day, month, dayOfWeek), ' ') ==
            [FieldText(minute), FieldText(hour), FieldText(day), FieldText(month), FieldText(dayOfWeek)]
  {
    SplitFive(FieldText(minute), FieldText(hour), FieldText(day), FieldText(month), FieldText(dayOfWeek));
  }

  lemma SplitFive(a: string, b: string, c: string, d: string, e: string)
    requires ' ' !in a && ' ' !in b && ' ' !in c && ' ' !in d && ' ' !in e
    ensures Split(a + " " + b + " " + c + " " + d + " " + e, ' ') == [a, b, c, d, e]
  {
    var rest := b + [' '] + (c + [' '] + (d + [' '] + e));
    Reassociate(a, b, c, d, e);
    SplitFour(b, c, d, e);
    SplitFirst(a, ' ', rest);
    PrependFour(a, [b, c, d, e]);
  }

  lemma Reassociate(a: string, b: string, c: string, d: string, e: string)
    ensures a + " " + b + " " + c + " " + d + " " + e == a + [' '] + (b + [' '] + (c + [' '] + (d + [' '] + e)))
  {
  }

  lemma SplitTwo(d: string, e: string)
    requires ' ' !in d && ' ' !in e
    ensures Split(d + [' '] + e, ' ') == [d, e]
  {
    SplitWhole(e, ' ');
    SplitFirst(d, ' ', e);
  }

  lemma SplitThree(c: string, d: string, e: string)
    requires ' ' !in c && ' ' !in d && ' ' !in e
    ensures Split(c + [' '] + (d + [' '] + e), ' ') == [c, d, e]
  {
    SplitTwo(d, e);
    SplitFirst(c, ' ', d + [' '] + e);
  }

  lemma SplitFour(b: string, c: string, d: string, e: string)
    requires ' ' !in b && ' ' !in c && ' ' !in d && ' ' !in e
    ensures Split(b + [' '] + (c + [' '] + (d + [' '] + e)), ' ') == [b, c, d, e]
  {
    SplitThree(c, d, e);
    SplitFirst(b, ' ', c + [' '] + (d + [' '] + e));
    PrependThree(b, [c, d, e]);
  }

  lemma PrependThree<T>(x: T, xs: seq<T>)
    requires |xs| == 3
    ensures [x] + xs == [x, xs[0], xs[1], xs[2]]
  {
  }

  lemma PrependFour<T>(x: T, xs: seq<T>)
    requires |xs| == 4
    ensures [x] + xs == [x, xs[0], xs[1], xs[2], xs[3]]
  {
  }

  // ---------------------------------------------------------------------------
  // The schedule.

  /** The five parsed fields of a job. */
  datatype Schedule = Schedule(minute: Field, hour: Field, day: Field, month: Field, dayOfWeek: Field)

  predicate WellFormedSchedule(s: Schedule) {
    WellFormed(s.minute, 0, 59) && WellFormed(s.hour, 0, 23) && WellFormed(s.day, 1, 31) &&
    WellFormed(s.month, 1, 12) && WellFormedWeekdays(s.dayOfWeek)
  }

  predicate AllWildcard(s: Schedule) {
    s.minute.Wildcard? && s.hour.Wildcard? && s.day.Wildcard? && s.month.Wildcard? && s.dayOfWeek.Wildcard?
  }

  /** setRunInterval: the fields are set minute first, so the first failing field decides the error. */
  function ScheduleOf(minute: Option<string>, hour: Option<string>, day: Option<string>,
                      month: Option<string>, dayOfWeek: Option<string>): (r: Result<Schedule, CronError>)
    ensures r.Success? ==> WellFormedSchedule(r.value)
    ensures r.Success? <==> FieldOf(minute, 0, 59).Success? && FieldOf(hour, 0, 23).Success? &&
                            FieldOf(day, 1, 31).Success? && FieldOf(month, 1, 12).Success? &&
                            DayOfWeekOf(dayOfWeek).Success?
    ensures r.Failure? ==>
              r.error == (if FieldOf(minute, 0, 59).Failure? then FieldOf(minute, 0, 59).error
                          else if FieldOf(hour, 0, 23).Failure? then FieldOf(hour, 0, 23).error
                          else if FieldOf(day, 1, 31).Failure? then FieldOf(day, 1, 31).error
                          else if FieldOf(month, 1, 12).Failure? then FieldOf(month, 1, 12).error
                          else DayOfWeekOf(dayOfWeek).error)
  {
    var mi := FieldOf(minute, 0, 59);
    var ho := FieldOf(hour, 0, 23);
    var da := FieldOf(day, 1, 31);
    var mo := FieldOf(month, 1, 12);
    var dw := DayOfWeekOf(dayOfWeek);
    if mi.Failure? then Failure(mi.error)
    else if ho.Failure? then Failure(ho.error)
    else if da.Failure? then Failure(da.error)
    else if mo.Failure? then Failure(mo.error)
    else if dw.Failure? then Failure(dw.error)
    else
      DayOfWeekWellFormed(dayOfWeek);
      Success(Schedule(mi.value, ho.value, da.value, mo.value, dw.value))
  }

  /** setRunInterval: the five setters, minute first; the first one that throws decides the error. */
  method SetRunInterval(minute: Option<string>, hour: Option<string>, day: Option<string>,
                        month: Option<string>, dayOfWeek: Option<string>) returns (r: Result<Schedule, CronError>)
    ensures r == ScheduleOf(minute, hour, day, month, dayOfWeek)
  {
    var mi := SetRunIntervalField(minute, 0, 59);
    if mi.Failure? {
      return Failure(mi.error);
    }
    var ho := SetRunIntervalField(hour, 0, 23);
    if ho.Failure? {
      return Failure(ho.error);
    }
    var da := SetRunIntervalField(day, 1, 31);
    if da.Failure? {
      return Failure(da.error);
    }
    var mo := SetRunIntervalField(month, 1, 12);
    if mo.Failure? {
      return Failure(mo.error);
    }
    var dw := SetRunIntervalDayOfWeek(dayOfWeek);
    if dw.Failure? {
      return Failure(dw.error);
    }
    return Success(Schedule(mi.value, ho.value, da.value, mo.value, dw.value));
  }

  /** A parsed day-of-week field holds distinct weekdays 0-6 (7 folded into 0). */
  lemma DayOfWeekWellFormed(text: Option<string>)
    requires DayOfWeekOf(text).Success?
    ensures WellFormedWeekdays(DayOfWeekOf(text).value)
  {
    var f := FieldOf(text, 0, 7);
    if f.value.Values? {
      FoldSundayWellFormed(f.value.vals);
    }
  }

  /** Folding a parsed 0-7 list leaves weekdays 0-6. */
  lemma FoldSundayWellFormed(vals: seq<int>)
    requires WellFormed(Values(vals), 0, 7)
    ensures WellFormedWeekdays(Values(FoldSunday(vals)))
  {
    var r := FoldSunday(vals);
    forall i | 0 <= i < |r| ensures 0 <= r[i] <= 6 {
      FoldSundayMembers(vals, r[i]);
    }
    FoldSundayMembers(vals, vals[0]);
    FoldSundayMembers(vals, 0);
  }

  /** getFirstRunIntervalValue on a parsed, non-empty field. */
  function First(f: Field, default: int): (v: int)
    requires f.Values? ==> |f.vals| > 0
    ensures f.Wildcard? ==> v == default
    ensures f.Values? ==> v == f.vals[0]
  {
    GetFirstRunIntervalValue(f, default).value
  }

  // ---------------------------------------------------------------------------
  // The carry chain: addMinute, addHour, addDay and addMonth update their
  // by-reference arguments; here the arguments come in and the updated values
  // go out.

  /** addMonth: the month after, carrying into the next year after December. */
  method AddMonth(month: int, year: int) returns (month': int, year': int)
    requires 1 <= month <= 12
    ensures (year', month') == NextMonth(year, month)
    ensures 1 <= month' <= 12 && year' * 12 + month' == year * 12 + month + 1
  {
    month', year' := month + 1, year;
    if month' > 12 {
      year' := year' + 1;
      month' := 1;
    }
  }

  /** addDay: the day after, carrying into the next month after its last day. */
  method AddDay(day: int, month: int, year: int) returns (day': int, month': int, year': int)
    requires DateTime(year, month, day, 0, 0, 0).Valid()
    ensures DateTime(year', month', day', 0, 0, 0) == NextDay(DateTime(year, month, day, 0, 0, 0))
    ensures DateTime(year', month', day', 0, 0, 0).Valid()
    ensures DayNumber(year', month', day') == DayNumber(year, month, day) + 1
  {
    MonthLength(year, month);
    day', month', year' := day + 1, month, year;
    if day' > DaysInMonth(year, month) {
      month', year' := AddMonth(month', year');
      day' := 1;
    }
  }

  /** addHour: the hour after, carrying into the next day after 23. */
  method AddHour(hour: int, day: int, month: int, year: int) returns (hour': int, day': int, month': int, year': int)
    requires DateTime(year, month, day, hour, 0, 0).Valid()
    ensures DateTime(year', month', day', hour', 0, 0) == NextHour(DateTime(year, month, day, hour, 0, 0))
    ensures DateTime(year', month', day', hour', 0, 0).Valid()
    ensures Seconds(DateTime(year', month', day', hour', 0, 0)) == Seconds(DateTime(year, month, day, hour, 0, 0)) + 3600
  {
    hour', day', month', year' := hour + 1, day, month, year;
    if hour' == 24 {
      day', month', year' := AddDay(day', month', year');
      hour' := 0;
    }
    NextHourSeconds(DateTime(year, month, day, hour, 0, 0));
  }

  /** addMinute: the minute after, carrying into the next hour after 59. */
  method AddMinute(minute: int, hour: int, day: int, month: int, year: int)
    returns (minute': int, hour': int, day': int, month': int, year': int)
    requires DateTime(year, month, day, hour, minute, 0).Valid()
    ensures DateTime(year', month', day', hour', minute', 0) == NextMinute(DateTime(year, month, day, hour, minute, 0))
    ensures DateTime(year', month', day', hour', minute', 0).Valid()
    ensures Seconds(DateTime(year', month', day', hour', minute', 0)) == Seconds(DateTime(year, month, day, hour, minute, 0)) + 60
  {
    minute', hour', day', month', year' := minute + 1, hour, day, month, year;
    if minute' == 60 {
      hour', day', month', year' := AddHour(hour', day', month', year');
      minute' := 0;
    }
    NextMinuteSeconds(DateTime(year, month, day, hour, minute, 0));
  }

  // ---------------------------------------------------------------------------
  // getNextRunTime, stage by stage. Each stage takes the reference instant t
  // and the candidate built so far; the candidate's second is 0 throughout.

  /** The next listed minute after the reference's; for `*`, one minute on. */
  function MinuteStage(s: Schedule, t: DateTime): (c: DateTime)
    requires t.Valid() && WellFormedSchedule(s)
    ensures c.Valid() && c.second == 0
    ensures s.minute.Values? ==> c.minute in s.minute.vals
  {
    var t0 := t.(second := 0);
    var next := GetNextRunIntervalValue(s.minute, t.minute, None, false);
    if next.None? then NextMinute(t0) else t0.(minute := next.value)
  }

  /**
   * The next listed hour (the current one too when the minute moved forward);
   * for `*` with no minute move, one hour on. A new hour restarts the minute.
   */
  function HourStage(s: Schedule, t: DateTime, c1: DateTime): (c: DateTime)
    requires t.Valid() && c1.Valid() && WellFormedSchedule(s) && c1.second == 0
    requires s.minute.Values? ==> c1.minute in s.minute.vals
    ensures c.Valid() && c.second == 0
    ensures s.minute.Values? ==> c.minute in s.minute.vals
    ensures s.hour.Values? ==> c.hour in s.hour.vals
  {
    var next := if t.minute < c1.minute then GetNextRunIntervalValue(s.hour, c1.hour, Some(c1.hour), true)
                else GetNextRunIntervalValue(s.hour, c1.hour, None, false);
    var c := if next.Some? then c1.(hour := next.value)
             else if c1.hour == t.hour then NextHour(c1)
             else c1;
    if c.hour != t.hour then c.(minute := First(s.minute, 0)) else c
  }

  /**
   * The day search of the day stage: the next listed day (the current one too
   * when `today`, i.e. the time of day moved forward); for `*` without a move,
   * the next calendar day. The time of day stays.
   */
  function DayMove(day: Field, t: DateTime, c: DateTime, today: bool): (r: DateTime)
    requires t.Valid() && c.Valid() && WellFormed(day, 1, 31)
    ensures 1 <= r.month <= 12 && 1 <= r.day <= 31
    ensures r.hour == c.hour && r.minute == c.minute && r.second == c.second
    ensures day.Values? ==> r.day in day.vals
  {
    var next := if today then GetNextRunIntervalValue(day, c.day, Some(c.day), true)
                else GetNextRunIntervalValue(day, c.day, None, false);
    if next.Some? then c.(day := next.value)
    else if c.day == t.day then NextDay(c)
    else c
  }

  /** The next listed day (the current one too when the time of day moved forward). A new day restarts hour and minute. */
  function DayStage(s: Schedule, t: DateTime, c2: DateTime): (c: DateTime)
    requires t.Valid() && c2.Valid() && WellFormedSchedule(s) && c2.second == 0
    requires s.minute.Values? ==> c2.minute in s.minute.vals
    requires s.hour.Values? ==> c2.hour in s.hour.vals
    ensures 1 <= c.month <= 12 && 1 <= c.day <= 31 && 0 <= c.hour < 24 && 0 <= c.minute < 60 && c.second == 0
    ensures s.minute.Values? ==> c.minute in s.minute.vals
    ensures s.hour.Values? ==> c.hour in s.hour.vals
    ensures s.day.Values? ==> c.day in s.day.vals
  {
    var c := DayMove(s.day, t, c2, !(c2.hour < t.hour || (c2.hour == t.hour && c2.minute <= t.minute)));
    if c.day != t.day then c.(hour := First(s.hour, 0), minute := First(s.minute, 0)) else c
  }

  /**
   * The month search of the month stage: the next listed month (the current
   * one too when `thisMonth`, i.e. day or time moved forward); for `*` without
   * a move, the next calendar month, carrying out of December into the next
   * year. Day and time of day stay.
   */
  function MonthMove(month: Field, t: DateTime, c: DateTime, thisMonth: bool): (r: DateTime)
    requires 1 <= c.month <= 12 && WellFormed(month, 1, 12)
    ensures 1 <= r.month <= 12
    ensures r.day == c.day && r.hour == c.hour && r.minute == c.minute && r.second == c.second
    ensures month.Values? ==> r.month in month.vals
  {
    var next := if thisMonth then GetNextRunIntervalValue(month, c.month, Some(c.month), true)
                else GetNextRunIntervalValue(month, c.month, None, false);
    if next.Some? then c.(month := next.value)
    else if c.month == t.month then
      var ym := NextMonth(c.year, c.month);
      c.(year := ym.0, month := ym.1)
    else c
  }

  /**
   * The next listed month (the current one too when day or time moved
   * forward). A new month restarts day, hour and minute. The year only moves
   * when the `*` month carries out of December.
   */
  function MonthStage(s: Schedule, t: DateTime, c3: DateTime): (c: DateTime)
    requires t.Valid() && WellFormedSchedule(s)
    requires 1 <= c3.month <= 12 && 1 <= c3.day <= 31 && 0 <= c3.hour < 24 && 0 <= c3.minute < 60 && c3.second == 0
    requires s.minute.Values? ==> c3.minute in s.minute.vals
    requires s.hour.Values? ==> c3.hour in s.hour.vals
    requires s.day.Values? ==> c3.day in s.day.vals
    ensures 1 <= c.month <= 12 && 1 <= c.day <= 31 && 0 <= c.hour < 24 && 0 <= c.minute < 60 && c.second == 0
    ensures s.minute.Values? ==> c.minute in s.minute.vals
    ensures s.hour.Values? ==> c.hour in s.hour.vals
    ensures s.day.Values? ==> c.day in s.day.vals
    ensures s.month.Values? ==> c.month in s.month.vals
  {
    var c := MonthMove(s.month, t, c3, !(c3.day < t.day || (c3.day == t.day && (c3.hour < t.hour || (c3.hour == t.hour && c3.minute <= t.minute)))));
    if c.month != t.month then c.(day := First(s.day, 1), hour := First(s.hour, 0), minute := First(s.minute, 0)) else c
  }

  /** The four stages in order, before mktime. */
  function Stages(s: Schedule, t: DateTime): (c: DateTime)
    requires t.Valid() && WellFormedSchedule(s)
    ensures 1 <= c.month <= 12 && 1 <= c.day <= 31 && 0 <= c.hour < 24 && 0 <= c.minute < 60 && c.second == 0
    ensures s.minute.Values? ==> c.minute in s.minute.vals
    ensures s.hour.Values? ==> c.hour in s.hour.vals
    ensures s.day.Values? ==> c.day in s.day.vals
    ensures s.month.Values? ==> c.month in s.month.vals
  {
    MonthStage(s, t, DayStage(s, t, HourStage(s, t, MinuteStage(s, t))))
  }

  /** The instant the search settles on before the day-of-week check. */
  function Candidate(s: Schedule, t: DateTime): (c: DateTime)
    requires t.Valid() && WellFormedSchedule(s)
    ensures c.Valid() && c.second == 0
    ensures s.minute.Values? ==> c.minute in s.minute.vals
    ensures s.hour.Values? ==> c.hour in s.hour.vals
  {
    if AllWildcard(s) then NextMinute(t.(second := 0))
    else
      var c := Stages(s, t);
      MkTime(c.hour, c.minute, 0, c.month, c.day, c.year)
  }

  /** isset($this->dayOfWeek[date('w', $nextRunTime)]), or `*`. */
  predicate WeekdayAllowed(s: Schedule, c: DateTime)
    requires c.Valid()
  {
    s.dayOfWeek.Wildcard? || Weekday(c) in s.dayOfWeek.vals
  }

  /** How many times the search may restart on a day of the wrong weekday. */
  const MaxRestarts: nat := 3000

  /**
   * getNextRunTime(t): the candidate, kept or rejected by its weekday. None
   * when more than `fuel` restarts would be needed (the source keeps
   * recursing).
   */
  function NextRunTime(s: Schedule, t: DateTime, fuel: nat): (r: Option<DateTime>)
    requires t.Valid() && WellFormedSchedule(s)
    ensures r.Some? ==> r.value.Valid() && r.value.second == 0
    ensures r.Some? && s.minute.Values? ==> r.value.minute in s.minute.vals
    ensures r.Some? && s.hour.Values? ==> r.value.hour in s.hour.vals
    ensures r.Some? && s.dayOfWeek.Values? ==> Weekday(r.value) in s.dayOfWeek.vals
    ensures s.dayOfWeek.Wildcard? ==> r.Some?
    decreases fuel, 1
  {
    Restart(s, Candidate(s, t), fuel)
  }

  /**
   * The day-of-week check on a candidate c: c itself when its weekday is
   * allowed, otherwise the search again from 23:59:59 of c's day.
   */
  function Restart(s: Schedule, c: DateTime, fuel: nat): (r: Option<DateTime>)
    requires c.Valid() && c.second == 0 && WellFormedSchedule(s)
    requires s.minute.Values? ==> c.minute in s.minute.vals
    requires s.hour.Values? ==> c.hour in s.hour.vals
    ensures r.Some? ==> r.value.Valid() && r.value.second == 0
    ensures r.Some? && s.minute.Values? ==> r.value.minute in s.minute.vals
    ensures r.Some? && s.hour.Values? ==> r.value.hour in s.hour.vals
    ensures r.Some? && s.dayOfWeek.Values? ==> Weekday(r.value) in s.dayOfWeek.vals
    ensures s.dayOfWeek.Wildcard? ==> r == Some(c)
    decreases fuel, 0
  {
    if WeekdayAllowed(s, c) then Some(c)
    else if fuel == 0 then None
    else NextRunTime(s, EndOfDay(c), fuel - 1)
  }

  /** With every field `*`, the next run is the reference truncated to the minute, plus one minute. */
  lemma AllWildcardNextRunTime(s: Schedule, t: DateTime, fuel: nat)
    requires t.Valid() && WellFormedSchedule(s) && AllWildcard(s)
    ensures NextRunTime(s, t, fuel).Some?
    ensures Seconds(NextRunTime(s, t, fuel).value) == Seconds(t) - t.second + 60
  {
    NextMinuteSeconds(t.(second := 0));
  }

  /**
   * A field that moved off the reference's value restarts every less
   * significant field at its first allowed value (0, or 1 for the day).
   */
  lemma ChangedFieldResetsLower(s: Schedule, t: DateTime)
    requires t.Valid() && WellFormedSchedule(s)
    ensures var c := Stages(s, t);
      (c.month != t.month ==> c.day == First(s.day, 1) && c.hour == First(s.hour, 0) && c.minute == First(s.minute, 0)) &&
      (c.month == t.month && c.day != t.day ==> c.hour == First(s.hour, 0) && c.minute == First(s.minute, 0)) &&
      (c.month == t.month && c.day == t.day && c.hour != t.hour ==> c.minute == First(s.minute, 0))
  {
    var c1 := MinuteStage(s, t);
    var c2 := HourStage(s, t, c1);
    var c3 := DayStage(s, t, c2);
    HourStageResets(s, t, c1);
    DayStageResets(s, t, c2);
    MonthStageResets(s, t, c3);
  }

  lemma HourStageResets(s: Schedule, t: DateTime, c1: DateTime)
    requires t.Valid() && c1.Valid() && WellFormedSchedule(s) && c1.second == 0
    requires s.minute.Values? ==> c1.minute in s.minute.vals
    ensures var c := HourStage(s, t, c1); c.hour != t.hour ==> c.minute == First(s.minute, 0)
  {
  }

  lemma DayStageResets(s: Schedule, t: DateTime, c2: DateTime)
    requires t.Valid() && c2.Valid() && WellFormedSchedule(s) && c2.second == 0
    requires s.minute.Values? ==> c2.minute in s.minute.vals
    requires s.hour.Values? ==> c2.hour in s.hour.vals
    ensures var c := DayStage(s, t, c2);
      (c.day != t.day ==> c.hour == First(s.hour, 0) && c.minute == First(s.minute, 0)) &&
      (c.day == t.day ==> c.hour == c2.hour && c.minute == c2.minute)
  {
  }

  lemma MonthStageResets(s: Schedule, t: DateTime, c3: DateTime)
    requires t.Valid() && WellFormedSchedule(s)
    requires 1 <= c3.month <= 12 && 1 <= c3.day <= 31 && 0 <= c3.hour < 24 && 0 <= c3.minute < 60 && c3.second == 0
    requires s.minute.Values? ==> c3.minute in s.minute.vals
    requires s.hour.Values? ==> c3.hour in s.hour.vals
    requires s.day.Values? ==> c3.day in s.day.vals
    ensures var c := MonthStage(s, t, c3);
      (c.month != t.month ==> c.day == First(s.day, 1) && c.hour == First(s.hour, 0) && c.minute == First(s.minute, 0)) &&
      (c.month == t.month ==> c.day == c3.day && c.hour == c3.hour && c.minute == c3.minute)
  {
  }

  // ---------------------------------------------------------------------------
  // With the month `*` the next run lies after the reference: each stage's
  // candidate stays in the reference's hour, day or month or moves on to the
  // next one, and the month stage moves it past the reference.

  /** The minute stage stays in the reference's day or moves to the next; it keeps the hour only within the day. */
  lemma MinuteStageDate(s: Schedule, t: DateTime)
    requires t.Valid() && WellFormedSchedule(s)
    ensures var c1 := MinuteStage(s, t);
      && (SameDate(c1, t) || SameDate(c1, NextDay(t)))
      && (c1.hour == t.hour ==> SameDate(c1, t))
  {
    var t0 := t.(second := 0);
    NextMinuteHour(t0);
    NextHourDate(t0);
  }

  /** The hour stage stays in the reference's day or moves to the next. */
  lemma HourStageDate(s: Schedule, t: DateTime, c1: DateTime)
    requires t.Valid() && c1.Valid() && WellFormedSchedule(s) && c1.second == 0
    requires s.minute.Values? ==> c1.minute in s.minute.vals
    requires SameDate(c1, t) || SameDate(c1, NextDay(t))
    requires c1.hour == t.hour ==> SameDate(c1, t)
    ensures var c2 := HourStage(s, t, c1); SameDate(c2, t) || SameDate(c2, NextDay(t))
  {
    NextHourDate(c1);
  }

  /** The day stage stays in the reference's month or moves to the next. */
  lemma DayStageMonth(s: Schedule, t: DateTime, c2: DateTime)
    requires t.Valid() && c2.Valid() && WellFormedSchedule(s) && c2.second == 0
    requires s.minute.Values? ==> c2.minute in s.minute.vals
    requires s.hour.Values? ==> c2.hour in s.hour.vals
    requires SameDate(c2, t) || SameDate(c2, NextDay(t))
    ensures var c3 := DayStage(s, t, c2);
      (c3.year, c3.month) == (t.year, t.month) || (c3.year, c3.month) == NextMonth(t.year, t.month)
  {
    NextDayMonth(t);
    NextDayMonth(c2);
  }

  /** With the month `*`, the month stage ends after the reference. */
  lemma MonthStageLater(s: Schedule, t: DateTime, c3: DateTime)
    requires t.Valid() && WellFormedSchedule(s) && s.month.Wildcard?
    requires 1 <= c3.month <= 12 && 1 <= c3.day <= 31 && 0 <= c3.hour < 24 && 0 <= c3.minute < 60 && c3.second == 0
    requires s.minute.Values? ==> c3.minute in s.minute.vals
    requires s.hour.Values? ==> c3.hour in s.hour.vals
    requires s.day.Values? ==> c3.day in s.day.vals
    requires (c3.year, c3.month) == (t.year, t.month) || (c3.year, c3.month) == NextMonth(t.year, t.month)
    ensures Seconds(MonthStage(s, t, c3)) > Seconds(t)
  {
    var c := MonthStage(s, t, c3);
    if (c.year, c.month) != (t.year, t.month) {
      NextMonthLater(t, c);
    }
  }

  /** With the month `*`, the candidate is later than the reference. */
  lemma CandidateLater(s: Schedule, t: DateTime)
    requires t.Valid() && WellFormedSchedule(s) && s.month.Wildcard?
    ensures Seconds(Candidate(s, t)) > Seconds(t)
  {
    if AllWildcard(s) {
      NextMinuteSeconds(t.(second := 0));
    } else {
      var c1 := MinuteStage(s, t);
      MinuteStageDate(s, t);
      var c2 := HourStage(s, t, c1);
      HourStageDate(s, t, c1);
      var c3 := DayStage(s, t, c2);
      DayStageMonth(s, t, c2);
      MonthStageLater(s, t, c3);
      var c := Stages(s, t);
      MkTimeSeconds(c.hour, c.minute, 0, c.month, c.day, c.year);
    }
  }

  /**
   * With the month `*`, getNextRunTime returns an instant strictly after the
   * reference; a restart searches on from the end of a candidate's day, which
   * is later still.
   */
  lemma {:induction false} NextRunTimeLater(s: Schedule, t: DateTime, fuel: nat)
    requires t.Valid() && WellFormedSchedule(s) && s.month.Wildcard?
    ensures var r := NextRunTime(s, t, fuel); r.Some? ==> Seconds(r.value) > Seconds(t)
    decreases fuel, 1
  {
    CandidateLater(s, t);
    RestartNotEarlier(s, Candidate(s, t), fuel);
  }

  /** With the month `*`, the day-of-week check keeps the candidate or moves past it. */
  lemma {:induction false} RestartNotEarlier(s: Schedule, c: DateTime, fuel: nat)
    requires c.Valid() && c.second == 0 && WellFormedSchedule(s) && s.month.Wildcard?
    requires s.minute.Values? ==> c.minute in s.minute.vals
    requires s.hour.Values? ==> c.hour in s.hour.vals
    ensures var r := Restart(s, c, fuel); r.Some? ==> Seconds(r.value) >= Seconds(c)
    decreases fuel, 0
  {
    if !WeekdayAllowed(s, c) && fuel > 0 {
      assert Restart(s, c, fuel) == NextRunTime(s, EndOfDay(c), fuel - 1);
      EndOfDayLater(c);
      NextRunTimeLater(s, EndOfDay(c), fuel - 1);
    }
  }

  // ---------------------------------------------------------------------------
  // The search as evidently intended. When the month lookup wraps round to
  // the first listed month and so goes back (to a month before the
  // candidate's, or to the reference's own month after the exclusive lookup),
  // the source keeps the year: month 3 asked in June gives a March already
  // past (GenericVectors.MonthWrap). The intended search moves into the next
  // year there and only there; with that the next run is always strictly
  // after the reference. The carry skip (GenericVectors.CarrySkip) is kept.

  /**
   * The month lookup from the candidate c wraps back: no listed month reaches
   * c's, and the first listed one lies before c's month, or is c's month
   * while c is still in the reference's month.
   */
  predicate MonthWrapsBack(month: Field, t: DateTime, c: DateTime, thisMonth: bool) {
    && month.Values? && |month.vals| > 0
    && FirstReaching(month.vals, c.month, thisMonth).None?
    && (month.vals[0] < c.month || (month.vals[0] == c.month && (c.year, c.month) == (t.year, t.month)))
  }

  /** MonthMove, moved into the next year exactly when the lookup wraps back. */
  function IntendedMonthMove(month: Field, t: DateTime, c: DateTime, thisMonth: bool): (r: DateTime)
    requires 1 <= c.month <= 12 && WellFormed(month, 1, 12)
    ensures 1 <= r.month <= 12
    ensures r.day == c.day && r.hour == c.hour && r.minute == c.minute && r.second == c.second
    ensures month.Values? ==> r.month in month.vals
    ensures r.month == MonthMove(month, t, c, thisMonth).month
    ensures !MonthWrapsBack(month, t, c, thisMonth) ==> r == MonthMove(month, t, c, thisMonth)
    ensures MonthWrapsBack(month, t, c, thisMonth) ==> r.year == c.year + 1
  {
    var r := MonthMove(month, t, c, thisMonth);
    if MonthWrapsBack(month, t, c, thisMonth) then r.(year := c.year + 1) else r
  }

  /**
   * Where the two moves differ, the source's month lands in the reference's
   * month or before it, and the intended one after it.
   */
  lemma MonthWrapsBackGoesBack(month: Field, t: DateTime, c: DateTime, thisMonth: bool)
    requires 1 <= c.month <= 12 && WellFormed(month, 1, 12) && t.Valid()
    requires (c.year, c.month) == (t.year, t.month) || (c.year, c.month) == NextMonth(t.year, t.month)
    requires MonthWrapsBack(month, t, c, thisMonth)
    ensures var r := MonthMove(month, t, c, thisMonth); r.year * 12 + r.month <= t.year * 12 + t.month
    ensures var r := IntendedMonthMove(month, t, c, thisMonth); r.year * 12 + r.month > t.year * 12 + t.month
  {
  }

  /** The intended month move never goes back, and stays in the month only when asked to or already past the reference's. */
  lemma IntendedMonthMoveForward(month: Field, t: DateTime, c: DateTime, thisMonth: bool)
    requires 1 <= c.month <= 12 && WellFormed(month, 1, 12)
    ensures var r := IntendedMonthMove(month, t, c, thisMonth);
      && r.year * 12 + r.month >= c.year * 12 + c.month
      && (r.year * 12 + r.month == c.year * 12 + c.month ==> thisMonth || (c.year, c.month) != (t.year, t.month))
  {
  }

  /** Whether the month stage looks up the candidate's own month too: c3 is after t within the month. */
  predicate MonthInclusive(t: DateTime, c3: DateTime) {
    !(c3.day < t.day || (c3.day == t.day && (c3.hour < t.hour || (c3.hour == t.hour && c3.minute <= t.minute))))
  }

  /** The month lookup of the search from t wraps back. */
  predicate MonthStageWrapsBack(s: Schedule, t: DateTime)
    requires t.Valid() && WellFormedSchedule(s)
  {
    var c3 := DayStage(s, t, HourStage(s, t, MinuteStage(s, t)));
    MonthWrapsBack(s.month, t, c3, MonthInclusive(t, c3))
  }

  /** MonthStage with IntendedMonthMove. */
  function IntendedMonthStage(s: Schedule, t: DateTime, c3: DateTime): (c: DateTime)
    requires t.Valid() && WellFormedSchedule(s)
    requires 1 <= c3.month <= 12 && 1 <= c3.day <= 31 && 0 <= c3.hour < 24 && 0 <= c3.minute < 60 && c3.second == 0
    requires s.minute.Values? ==> c3.minute in s.minute.vals
    requires s.hour.Values? ==> c3.hour in s.hour.vals
    requires s.day.Values? ==> c3.day in s.day.vals
    ensures 1 <= c.month <= 12 && 1 <= c.day <= 31 && 0 <= c.hour < 24 && 0 <= c.minute < 60 && c.second == 0
    ensures s.minute.Values? ==> c.minute in s.minute.vals
    ensures s.hour.Values? ==> c.hour in s.hour.vals
    ensures s.day.Values? ==> c.day in s.day.vals
    ensures s.month.Values? ==> c.month in s.month.vals
    ensures !MonthWrapsBack(s.month, t, c3, MonthInclusive(t, c3)) ==> c == MonthStage(s, t, c3)
  {
    var c := IntendedMonthMove(s.month, t, c3, MonthInclusive(t, c3));
    if c.month != t.month then c.(day := First(s.day, 1), hour := First(s.hour, 0), minute := First(s.minute, 0)) else c
  }

  /** Candidate with IntendedMonthStage. */
  function IntendedCandidate(s: Schedule, t: DateTime): (c: DateTime)
    requires t.Valid() && WellFormedSchedule(s)
    ensures c.Valid() && c.second == 0
    ensures s.minute.Values? ==> c.minute in s.minute.vals
    ensures s.hour.Values? ==> c.hour in s.hour.vals
    ensures !MonthStageWrapsBack(s, t) ==> c == Candidate(s, t)
  {
    if AllWildcard(s) then NextMinute(t.(second := 0))
    else
      var c := IntendedMonthStage(s, t, DayStage(s, t, HourStage(s, t, MinuteStage(s, t))));
      MkTime(c.hour, c.minute, 0, c.month, c.day, c.year)
  }

  /** NextRunTime with IntendedCandidate: the same promises about the fields of a result. */
  function IntendedNextRunTime(s: Schedule, t: DateTime, fuel: nat): (r: Option<DateTime>)
    requires t.Valid() && WellFormedSchedule(s)
    ensures r.Some? ==> r.value.Valid() && r.value.second == 0
    ensures r.Some? && s.minute.Values? ==> r.value.minute in s.minute.vals
    ensures r.Some? && s.hour.Values? ==> r.value.hour in s.hour.vals
    ensures r.Some? && s.dayOfWeek.Values? ==> Weekday(r.value) in s.dayOfWeek.vals
    ensures s.dayOfWeek.Wildcard? ==> r.Some?
    decreases fuel, 1
  {
    IntendedRestart(s, IntendedCandidate(s, t), fuel)
  }

  /** Restart with IntendedNextRunTime. */
  function IntendedRestart(s: Schedule, c: DateTime, fuel: nat): (r: Option<DateTime>)
    requires c.Valid() && c.second == 0 && WellFormedSchedule(s)
    requires s.minute.Values? ==> c.minute in s.minute.vals
    requires s.hour.Values? ==> c.hour in s.hour.vals
    ensures r.Some? ==> r.value.Valid() && r.value.second == 0
    ensures r.Some? && s.minute.Values? ==> r.value.minute in s.minute.vals
    ensures r.Some? && s.hour.Values? ==> r.value.hour in s.hour.vals
    ensures r.Some? && s.dayOfWeek.Values? ==> Weekday(r.value) in s.dayOfWeek.vals
    ensures s.dayOfWeek.Wildcard? ==> r == Some(c)
    decreases fuel, 0
  {
    if WeekdayAllowed(s, c) then Some(c)
    else if fuel == 0 then None
    else IntendedNextRunTime(s, EndOfDay(c), fuel - 1)
  }

  /** The intended month stage ends after the reference, whatever the month field. */
  lemma IntendedMonthStageLater(s: Schedule, t: DateTime, c3: DateTime)
    requires t.Valid() && WellFormedSchedule(s)
    requires 1 <= c3.month <= 12 && 1 <= c3.day <= 31 && 0 <= c3.hour < 24 && 0 <= c3.minute < 60 && c3.second == 0
    requires s.minute.Values? ==> c3.minute in s.minute.vals
    requires s.hour.Values? ==> c3.hour in s.hour.vals
    requires s.day.Values? ==> c3.day in s.day.vals
    requires (c3.year, c3.month) == (t.year, t.month) || (c3.year, c3.month) == NextMonth(t.year, t.month)
    ensures Seconds(IntendedMonthStage(s, t, c3)) > Seconds(t)
  {
    IntendedMonthMoveForward(s.month, t, c3, MonthInclusive(t, c3));
    var c := IntendedMonthStage(s, t, c3);
    if c.year * 12 + c.month != t.year * 12 + t.month {
      LaterMonthLater(t, c);
    } else {
      assert c == c3;
    }
  }

  /** The intended candidate is later than the reference. */
  lemma IntendedCandidateLater(s: Schedule, t: DateTime)
    requires t.Valid() && WellFormedSchedule(s)
    ensures Seconds(IntendedCandidate(s, t)) > Seconds(t)
  {
    if AllWildcard(s) {
      NextMinuteSeconds(t.(second := 0));
    } else {
      var c1 := MinuteStage(s, t);
      MinuteStageDate(s, t);
      var c2 := HourStage(s, t, c1);
      HourStageDate(s, t, c1);
      var c3 := DayStage(s, t, c2);
      DayStageMonth(s, t, c2);
      IntendedMonthStageLater(s, t, c3);
      var c := IntendedMonthStage(s, t, c3);
      MkTimeSeconds(c.hour, c.minute, 0, c.month, c.day, c.year);
    }
  }

  /** The intended search returns an instant strictly after the reference, for every schedule. */
  lemma {:induction false} IntendedNextRunTimeLater(s: Schedule, t: DateTime, fuel: nat)
    requires t.Valid() && WellFormedSchedule(s)
    ensures var r := IntendedNextRunTime(s, t, fuel); r.Some? ==> Seconds(r.value) > Seconds(t)
    decreases fuel, 1
  {
    IntendedCandidateLater(s, t);
    IntendedRestartNotEarlier(s, IntendedCandidate(s, t), fuel);
  }

  /** The intended day-of-week check keeps the candidate or moves past it. */
  lemma {:induction false} IntendedRestartNotEarlier(s: Schedule, c: DateTime, fuel: nat)
    requires c.Valid() && c.second == 0 && WellFormedSchedule(s)
    requires s.minute.Values? ==> c.minute in s.minute.vals
    requires s.hour.Values? ==> c.hour in s.hour.vals
    ensures var r := IntendedRestart(s, c, fuel); r.Some? ==> Seconds(r.value) >= Seconds(c)
    decreases fuel, 0
  {
    if !WeekdayAllowed(s, c) && fuel > 0 {
      assert IntendedRestart(s, c, fuel) == IntendedNextRunTime(s, EndOfDay(c), fuel - 1);
      EndOfDayLater(c);
      IntendedNextRunTimeLater(s, EndOfDay(c), fuel - 1);
    }
  }

  /** No candidate of the search from t, restarts included, has its month lookup wrap back. */
  predicate NeverWrapsBack(s: Schedule, t: DateTime, fuel: nat)
    requires t.Valid() && WellFormedSchedule(s)
    decreases fuel, 1
  {
    !MonthStageWrapsBack(s, t) && RestartNeverWrapsBack(s, Candidate(s, t), fuel)
  }

  /** No search restarted from the candidate c has its month lookup wrap back. */
  predicate RestartNeverWrapsBack(s: Schedule, c: DateTime, fuel: nat)
    requires c.Valid() && WellFormedSchedule(s)
    decreases fuel, 0
  {
    WeekdayAllowed(s, c) || fuel == 0 || NeverWrapsBack(s, EndOfDay(c), fuel - 1)
  }

  /** With the month `*` nothing wraps back. */
  lemma {:induction false} WildcardNeverWrapsBack(s: Schedule, t: DateTime, fuel: nat)
    requires t.Valid() && WellFormedSchedule(s) && s.month.Wildcard?
    ensures NeverWrapsBack(s, t, fuel)
    decreases fuel, 1
  {
    WildcardRestartNeverWrapsBack(s, Candidate(s, t), fuel);
  }

  /** With the month `*` no restart wraps back. */
  lemma {:induction false} WildcardRestartNeverWrapsBack(s: Schedule, c: DateTime, fuel: nat)
    requires c.Valid() && WellFormedSchedule(s) && s.month.Wildcard?
    ensures RestartNeverWrapsBack(s, c, fuel)
    decreases fuel, 0
  {
    if !WeekdayAllowed(s, c) && fuel > 0 {
      WildcardNeverWrapsBack(s, EndOfDay(c), fuel - 1);
    }
  }

  /** Where no month lookup wraps back, the intended search is the source's. */
  lemma {:induction false} IntendedAgrees(s: Schedule, t: DateTime, fuel: nat)
    requires t.Valid() && WellFormedSchedule(s) && NeverWrapsBack(s, t, fuel)
    ensures IntendedNextRunTime(s, t, fuel) == NextRunTime(s, t, fuel)
    decreases fuel, 1
  {
    IntendedRestartAgrees(s, Candidate(s, t), fuel);
  }

  /** The day-of-week check of the two searches agrees where no later lookup wraps back. */
  lemma {:induction false} IntendedRestartAgrees(s: Schedule, c: DateTime, fuel: nat)
    requires c.Valid() && c.second == 0 && WellFormedSchedule(s)
    requires s.minute.Values? ==> c.minute in s.minute.vals
    requires s.hour.Values? ==> c.hour in s.hour.vals
    requires RestartNeverWrapsBack(s, c, fuel)
    ensures IntendedRestart(s, c, fuel) == Restart(s, c, fuel)
    decreases fuel, 0
  {
    if !WeekdayAllowed(s, c) && fuel > 0 {
      IntendedAgrees(s, EndOfDay(c), fuel - 1);
    }
  }

  // The steps of getNextRunTime as the source writes them: the locals
  // $newMinute ... $newYear travel in a DateTime whose second is 0.

  /** The body of getNextRunTime: the candidate (lines 172-257), then the day-of-week check. */
  method Search(s: Schedule, time: DateTime, fuel: nat) returns (r: Option<DateTime>)
    requires WellFormedSchedule(s) && time.Valid()
    ensures r == NextRunTime(s, time, fuel)
    decreases fuel, 1
  {
    var nextRunTime := CandidateStep(s, time);
    r := RestartStep(s, nextRunTime, fuel);
  }

  /** Lines 259-265: keep the candidate, or search again from 23:59:59 of its day. */
  method RestartStep(s: Schedule, nextRunTime: DateTime, fuel: nat) returns (r: Option<DateTime>)
    requires nextRunTime.Valid() && nextRunTime.second == 0 && WellFormedSchedule(s)
    requires s.minute.Values? ==> nextRunTime.minute in s.minute.vals
    requires s.hour.Values? ==> nextRunTime.hour in s.hour.vals
    ensures r == Restart(s, nextRunTime, fuel)
    decreases fuel, 0
  {
    if WeekdayAllowed(s, nextRunTime) {
      r := Some(nextRunTime);
    } else if fuel == 0 {
      r := None;
    } else {
      r := Search(s, EndOfDay(nextRunTime), fuel - 1);
    }
  }

  /** Lines 172-257: the all-`*` shortcut, or the four steps and mktime. */
  method CandidateStep(s: Schedule, time: DateTime) returns (c: DateTime)
    requires time.Valid() && WellFormedSchedule(s)
    ensures c == Candidate(s, time)
  {
    if s.minute.Wildcard? && s.hour.Wildcard? && s.day.Wildcard? && s.month.Wildcard? && s.dayOfWeek.Wildcard? {
      var minute, hour, day, month, year := AddMinute(time.minute, time.hour, time.day, time.month, time.year);
      return MkTime(hour, minute, 0, month, day, year);
    }
    var c1 := MinuteStep(s, time);
    var c2 := HourStep(s, time, c1);
    var c3 := DayStep(s, time, c2);
    var c4 := MonthStep(s, time, c3);
    c := MkTime(c4.hour, c4.minute, 0, c4.month, c4.day, c4.year);
  }

  /** Lines 185-199: the next listed minute, or one minute on when the field is `*`. */
  method MinuteStep(s: Schedule, time: DateTime) returns (c: DateTime)
    requires time.Valid() && WellFormedSchedule(s)
    ensures c == MinuteStage(s, time)
  {
    var minute := time.minute;
    var newMinute, newHour, newDay, newMonth, newYear := 0, time.hour, time.day, time.month, time.year;
    var next := GetNextRunIntervalValue(s.minute, minute, None, false);
    if next.None? {
      newMinute := minute;
      newMinute, newHour, newDay, newMonth, newYear := AddMinute(newMinute, newHour, newDay, newMonth, newYear);
    } else {
      newMinute := next.value;
    }
    c := DateTime(newYear, newMonth, newDay, newHour, newMinute, 0);
  }

  /** Lines 201-217: the hour step. */
  method HourStep(s: Schedule, time: DateTime, c1: DateTime) returns (c: DateTime)
    requires time.Valid() && c1.Valid() && WellFormedSchedule(s) && c1.second == 0
    requires s.minute.Values? ==> c1.minute in s.minute.vals
    ensures c == HourStage(s, time, c1)
  {
    var minute, hour := time.minute, time.hour;
    var newMinute, newHour, newDay, newMonth, newYear := c1.minute, c1.hour, c1.day, c1.month, c1.year;
    var tmpHour := newHour;
    var next;
    if minute < newMinute {
      next := GetNextRunIntervalValue(s.hour, newHour, Some(newHour), true);
    } else {
      next := GetNextRunIntervalValue(s.hour, newHour, None, false);
    }
    if next.None? {
      newHour := tmpHour;
      if newHour == hour {
        newHour, newDay, newMonth, newYear := AddHour(newHour, newDay, newMonth, newYear);
      }
    } else {
      newHour := next.value;
    }
    if newHour != hour {
      newMinute := First(s.minute, 0);
    }
    c := DateTime(newYear, newMonth, newDay, newHour, newMinute, 0);
  }

  /** Lines 219-236: the day step. */
  method DayStep(s: Schedule, time: DateTime, c2: DateTime) returns (c: DateTime)
    requires time.Valid() && c2.Valid() && WellFormedSchedule(s) && c2.second == 0
    requires s.minute.Values? ==> c2.minute in s.minute.vals
    requires s.hour.Values? ==> c2.hour in s.hour.vals
    ensures c == DayStage(s, time, c2)
  {
    var minute, hour, day := time.minute, time.hour, time.day;
    var newMinute, newHour, newDay, newMonth, newYear := c2.minute, c2.hour, c2.day, c2.month, c2.year;
    var tmpDay := newDay;
    var next;
    if newHour < hour || (newHour == hour && newMinute <= minute) {
      next := GetNextRunIntervalValue(s.day, newDay, None, false);
    } else {
      next := GetNextRunIntervalValue(s.day, newDay, Some(newDay), true);
    }
    if next.None? {
      newDay := tmpDay;
      if newDay == day {
        newDay, newMonth, newYear := AddDay(newDay, newMonth, newYear);
      }
    } else {
      newDay := next.value;
    }
    if newDay != day {
      newMinute := First(s.minute, 0);
      newHour := First(s.hour, 0);
    }
    c := DateTime(newYear, newMonth, newDay, newHour, newMinute, 0);
  }

  /** Lines 238-255: the month step. */
  method MonthStep(s: Schedule, time: DateTime, c3: DateTime) returns (c: DateTime)
    requires time.Valid() && WellFormedSchedule(s)
    requires 1 <= c3.month <= 12 && 1 <= c3.day <= 31 && 0 <= c3.hour < 24 && 0 <= c3.minute < 60 && c3.second == 0
    requires s.minute.Values? ==> c3.minute in s.minute.vals
    requires s.hour.Values? ==> c3.hour in s.hour.vals
    requires s.day.Values? ==> c3.day in s.day.vals
    ensures c == MonthStage(s, time, c3)
  {
    var minute, hour, day, month := time.minute, time.hour, time.day, time.month;
    var newMinute, newHour, newDay, newMonth, newYear := c3.minute, c3.hour, c3.day, c3.month, c3.year;
    var tmpMonth := newMonth;
    var next;
    if newDay < day || (newDay == day && (newHour < hour || (newHour == hour && newMinute <= minute))) {
      next := GetNextRunIntervalValue(s.month, newMonth, None, false);
    } else {
      next := GetNextRunIntervalValue(s.month, newMonth, Some(newMonth), true);
    }
    if next.None? {
      newMonth := tmpMonth;
      if newMonth == month {
        newMonth, newYear := AddMonth(newMonth, newYear);
      }
    } else {
      newMonth := next.value;
    }
    if newMonth != month {
      newMinute := First(s.minute, 0);
      newHour := First(s.hour, 0);
      newDay := First(s.day, 1);
    }
    c := DateTime(newYear, newMonth, newDay, newHour, newMinute, 0);
  }

  // ---------------------------------------------------------------------------
  // The job.

  class GenericCronJob {
    const callback: Callback
    const minute: Field
    const hour: Field
    const day: Field
    const month: Field
    const dayOfWeek: Field
    const intervalDefinition: string
    /** The cached id; None until getId has been called. */
    var id: Option<string>

    /** The run intervals of this job. */
    function Intervals(): Schedule {
      Schedule(minute, hour, day, month, dayOfWeek)
    }

    predicate Valid() {
      ValidCallback(callback) && WellFormedSchedule(Intervals())
    }

    constructor Init(callback: Callback, schedule: Schedule, intervalDefinition: string)
      ensures this.callback == callback && Intervals() == schedule
      ensures this.intervalDefinition == intervalDefinition && id.None?
    {
      this.callback := callback;
      this.minute := schedule.minute;
      this.hour := schedule.hour;
      this.day := schedule.day;
      this.month := schedule.month;
      this.dayOfWeek := schedule.dayOfWeek;
      this.intervalDefinition := intervalDefinition;
      this.id := None;
    }

    /** __construct: the callback is checked first, then the fields in order; the first failure is thrown. */
    static method Create(callback: Callback, minute: Option<string>, hour: Option<string>, day: Option<string>,
                         month: Option<string>, dayOfWeek: Option<string>) returns (r: Result<GenericCronJob, CronError>)
      ensures !ValidCallback(callback) ==> r == Failure(InvalidCallback)
      ensures ValidCallback(callback) && ScheduleOf(minute, hour, day, month, dayOfWeek).Failure? ==>
                r == Failure(ScheduleOf(minute, hour, day, month, dayOfWeek).error)
      ensures r.Success? <==> ValidCallback(callback) && ScheduleOf(minute, hour, day, month, dayOfWeek).Success?
      ensures r.Success? ==> fresh(r.value) && r.value.Valid() && r.value.callback == callback &&
                             r.value.Intervals() == ScheduleOf(minute, hour, day, month, dayOfWeek).value &&
                             r.value.intervalDefinition == IntervalDefinition(minute, hour, day, month, dayOfWeek) &&
                             r.value.id.None?
    {
      if !ValidCallback(callback) {
        return Failure(InvalidCallback);
      }
      var schedule := SetRunInterval(minute, hour, day, month, dayOfWeek);
      if schedule.Failure? {
        return Failure(schedule.error);
      }
      var job := new GenericCronJob.Init(callback, schedule.value, IntervalDefinition(minute, hour, day, month, dayOfWeek));
      return Success(job);
    }

    /** __toString: the callback, then the interval definition in parentheses. */
    function ToString(): string {
      CallbackText(callback) + " (" + intervalDefinition + ")"
    }

    /** getId: md5 of __toString, computed on the first call and cached while truthy. */
    method GetId(md5: string -> string) returns (r: string)
      modifies this`id
      ensures old(id).Some? && Truthy(old(id).value) ==> r == old(id).value && id == old(id)
      ensures !(old(id).Some? && Truthy(old(id).value)) ==> r == md5(ToString()) && id == Some(r)
    {
      if id.Some? && Truthy(id.value) {
        return id.value;
      }
      id := Some(md5(ToString()));
      r := id.value;
    }

    /** getNextRunTime($time), with the restart depth bounded by MaxRestarts. */
    method GetNextRunTime(time: DateTime) returns (r: Option<DateTime>)
      requires Valid() && time.Valid()
      ensures r == NextRunTime(Intervals(), time, MaxRestarts)
    {
      r := Search(Intervals(), time, MaxRestarts);
    }
  }
}
