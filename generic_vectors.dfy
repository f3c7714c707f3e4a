// Instances of the search, one per assertion of
// test/src/ride/library/cron/job/GenericCronJobTest.php. Most are written with
// the fields already parsed; the stepped minute texts of lines 92-95 are taken
// through ScheduleOf as well.

module GenericVectors {
  import opened Wrappers
  import opened Calendar
  import opened Fields
  import opened Generic

  /** GenericCronJobTest.php:65. */
  lemma Line65()
    ensures NextRunTime(Schedule(Wildcard, Wildcard, Wildcard, Wildcard, Wildcard),
                        DateTime(1970, 1, 1, 1, 0, 0), MaxRestarts)
            == Some(DateTime(1970, 1, 1, 1, 1, 0))
  {
  }

  /** GenericCronJobTest.php:66. */
  lemma Line66()
    ensures NextRunTime(Schedule(Values([1]), Wildcard, Wildcard, Wildcard, Wildcard),
                        DateTime(1970, 1, 1, 1, 0, 0), MaxRestarts)
            == Some(DateTime(1970, 1, 1, 1, 1, 0))
  {
  }

  /** GenericCronJobTest.php:67. */
  lemma Line67()
    ensures NextRunTime(Schedule(Values([1]), Wildcard, Wildcard, Wildcard, Wildcard),
                        DateTime(1970, 1, 1, 1, 15, 0), MaxRestarts)
            == Some(DateTime(1970, 1, 1, 2, 1, 0))
  {
  }

  /** GenericCronJobTest.php:68. */
  lemma Line68()
    ensures NextRunTime(Schedule(Values([30]), Wildcard, Wildcard, Wildcard, Wildcard),
                        DateTime(1970, 1, 1, 1, 0, 0), MaxRestarts)
            == Some(DateTime(1970, 1, 1, 1, 30, 0))
  {
  }

  /** GenericCronJobTest.php:69. */
  lemma Line69()
    ensures NextRunTime(Schedule(Values([30]), Wildcard, Wildcard, Wildcard, Wildcard),
                        DateTime(1970, 1, 1, 1, 45, 0), MaxRestarts)
            == Some(DateTime(1970, 1, 1, 2, 30, 0))
  {
  }

  /** GenericCronJobTest.php:70. */
  lemma Line70()
    ensures NextRunTime(Schedule(Wildcard, Values([1]), Wildcard, Wildcard, Wildcard),
                        DateTime(1970, 1, 1, 1, 5, 0), MaxRestarts)
            == Some(DateTime(1970, 1, 1, 1, 6, 0))
  {
  }

  /** GenericCronJobTest.php:71. */
  lemma Line71()
    ensures NextRunTime(Schedule(Wildcard, Values([2]), Wildcard, Wildcard, Wildcard),
                        DateTime(1970, 1, 1, 1, 0, 0), MaxRestarts)
            == Some(DateTime(1970, 1, 1, 2, 0, 0))
  {
  }

  /** GenericCronJobTest.php:72. */
  lemma Line72()
    ensures NextRunTime(Schedule(Wildcard, Values([2]), Wildcard, Wildcard, Wildcard),
                        DateTime(1970, 1, 1, 1, 5, 0), MaxRestarts)
            == Some(DateTime(1970, 1, 1, 2, 0, 0))
  {
  }

  /** GenericCronJobTest.php:73. */
  lemma Line73()
    ensures NextRunTime(Schedule(Wildcard, Values([2]), Wildcard, Wildcard, Wildcard),
                        DateTime(1970, 1, 1, 2, 59, 0), MaxRestarts)
            == Some(DateTime(1970, 1, 2, 2, 0, 0))
  {
  }

  /** GenericCronJobTest.php:74. */
  lemma Line74()
    ensures NextRunTime(Schedule(Values([30]), Values([2]), Wildcard, Wildcard, Wildcard),
                        DateTime(1970, 1, 1, 1, 0, 0), MaxRestarts)
            == Some(DateTime(1970, 1, 1, 2, 30, 0))
  {
  }

  /** GenericCronJobTest.php:75. */
  lemma Line75()
    ensures NextRunTime(Schedule(Values([30]), Values([2]), Wildcard, Wildcard, Wildcard),
                        DateTime(1970, 1, 1, 3, 0, 0), MaxRestarts)
            == Some(DateTime(1970, 1, 2, 2, 30, 0))
  {
  }

  /** GenericCronJobTest.php:76. */
  lemma Line76()
    ensures NextRunTime(Schedule(Wildcard, Wildcard, Values([1]), Wildcard, Wildcard),
                        DateTime(1970, 1, 1, 1, 0, 0), MaxRestarts)
            == Some(DateTime(1970, 1, 1, 1, 1, 0))
  {
  }

  /** GenericCronJobTest.php:77. */
  lemma Line77()
    ensures NextRunTime(Schedule(Values([0]), Values([1]), Values([1]), Wildcard, Wildcard),
                        DateTime(1970, 1, 1, 1, 0, 0), MaxRestarts)
            == Some(DateTime(1970, 2, 1, 1, 0, 0))
  {
  }

  /** GenericCronJobTest.php:78. */
  lemma Line78()
    ensures NextRunTime(Schedule(Values([30]), Wildcard, Values([3]), Wildcard, Wildcard),
                        DateTime(1970, 1, 1, 1, 0, 0), MaxRestarts)
            == Some(DateTime(1970, 1, 3, 0, 30, 0))
  {
  }

  /** GenericCronJobTest.php:79. */
  lemma Line79()
    ensures NextRunTime(Schedule(Values([30]), Values([3]), Values([3]), Wildcard, Wildcard),
                        DateTime(1970, 1, 1, 1, 0, 0), MaxRestarts)
            == Some(DateTime(1970, 1, 3, 3, 30, 0))
  {
  }

  /** GenericCronJobTest.php:80. */
  lemma Line80()
    ensures NextRunTime(Schedule(Values([0, 30]), Values([3]), Values([3]), Wildcard, Wildcard),
                        DateTime(1970, 1, 1, 1, 0, 0), MaxRestarts)
            == Some(DateTime(1970, 1, 3, 3, 0, 0))
  {
  }

  /** GenericCronJobTest.php:81. */
  lemma Line81()
    ensures NextRunTime(Schedule(Wildcard, Wildcard, Wildcard, Values([3]), Wildcard),
                        DateTime(1970, 1, 1, 1, 0, 0), MaxRestarts)
            == Some(DateTime(1970, 3, 1, 0, 0, 0))
  {
  }

  /** GenericCronJobTest.php:82. */
  lemma Line82()
    ensures NextRunTime(Schedule(Values([15, 45]), Values([6, 18]), Values([1, 15]), Values([3, 6, 9, 12]), Wildcard),
                        DateTime(1970, 3, 15, 7, 0, 0), MaxRestarts)
            == Some(DateTime(1970, 3, 15, 18, 15, 0))
  {
  }

  /** GenericCronJobTest.php:83. */
  lemma Line83()
    ensures NextRunTime(Schedule(Values([15, 45]), Values([6, 18]), Values([1, 15]), Values([3, 6, 9, 12]), Wildcard),
                        DateTime(1970, 3, 15, 18, 15, 0), MaxRestarts)
            == Some(DateTime(1970, 3, 15, 18, 45, 0))
  {
  }

  /** GenericCronJobTest.php:84. */
  lemma Line84()
    ensures NextRunTime(Schedule(Values([15, 45]), Values([6, 18]), Values([1, 15]), Values([3, 6, 9, 12]), Wildcard),
                        DateTime(1970, 3, 15, 18, 45, 0), MaxRestarts)
            == Some(DateTime(1970, 6, 1, 6, 15, 0))
  {
    var s := Schedule(Values([15, 45]), Values([6, 18]), Values([1, 15]), Values([3, 6, 9, 12]), Wildcard);
    var t := DateTime(1970, 3, 15, 18, 45, 0);
    assert MinuteStage(s, t) == DateTime(1970, 3, 15, 18, 15, 0);
    assert HourStage(s, t, DateTime(1970, 3, 15, 18, 15, 0)) == DateTime(1970, 3, 15, 6, 15, 0);
    assert DayStage(s, t, DateTime(1970, 3, 15, 6, 15, 0)) == DateTime(1970, 3, 1, 6, 15, 0);
    assert MonthStage(s, t, DateTime(1970, 3, 1, 6, 15, 0)) == DateTime(1970, 6, 1, 6, 15, 0);
  }

  /** GenericCronJobTest.php:88. */
  lemma Line88()
    ensures NextRunTime(Schedule(Wildcard, Values([0]), Wildcard, Wildcard, Wildcard),
                        DateTime(1970, 2, 28, 1, 0, 0), MaxRestarts)
            == Some(DateTime(1970, 3, 1, 0, 0, 0))
  {
  }

  /** GenericCronJobTest.php:89. */
  lemma Line89()
    ensures NextRunTime(Schedule(Wildcard, Values([0]), Wildcard, Wildcard, Wildcard),
                        DateTime(1970, 12, 31, 23, 0, 0), MaxRestarts)
            == Some(DateTime(1971, 1, 1, 0, 0, 0))
  {
  }

  /** GenericCronJobTest.php:90. */
  lemma Line90()
    ensures NextRunTime(Schedule(Values([55]), Wildcard, Wildcard, Wildcard, Wildcard),
                        DateTime(2009, 10, 12, 12, 55, 5), MaxRestarts)
            == Some(DateTime(2009, 10, 12, 13, 55, 0))
  {
  }

  /**
   * Day 31 asked in a 30-day month: the search settles on 31 April, which the
   * final mktime normalises to 1 May, a day the day field does not list.
   */
  lemma DayOverflow()
    ensures NextRunTime(Schedule(Wildcard, Wildcard, Values([31]), Wildcard, Wildcard),
                        DateTime(1970, 4, 15, 1, 0, 0), MaxRestarts)
            == Some(DateTime(1970, 5, 1, 0, 0, 0))
  {
  }


  /**
   * A month list that wraps does not advance the year: month 3 asked from
   * 15 June 1970 gives 1 March 1970, three and a half months before the
   * reference.  With the month `*` this cannot happen (NextRunTimeLater).
   */
  lemma MonthWrap()
    ensures NextRunTime(Schedule(Wildcard, Wildcard, Wildcard, Values([3]), Wildcard),
                        DateTime(1970, 6, 15, 10, 0, 0), MaxRestarts)
            == Some(DateTime(1970, 3, 1, 0, 0, 0))
    ensures Seconds(DateTime(1970, 3, 1, 0, 0, 0)) < Seconds(DateTime(1970, 6, 15, 10, 0, 0))
  {
  }

  /** `0 0 1 1 *` from mid-1970 gives 1 January 1970 again, so such a job is always due. */
  lemma NewYearWrap()
    ensures NextRunTime(Schedule(Values([0]), Values([0]), Values([1]), Values([1]), Wildcard),
                        DateTime(1970, 6, 15, 10, 0, 0), MaxRestarts)
            == Some(DateTime(1970, 1, 1, 0, 0, 0))
  {
  }

  /**
   * After a carry the hour lookup skips the carried hour itself: hours 2 and
   * 3 from 01:59 give 03:00, although 02:00 matches.
   */
  lemma CarrySkip()
    ensures NextRunTime(Schedule(Wildcard, Values([2, 3]), Wildcard, Wildcard, Wildcard),
                        DateTime(1970, 1, 1, 1, 59, 0), MaxRestarts)
            == Some(DateTime(1970, 1, 1, 3, 0, 0))
  {
  }

  /** Month 7 from 30 June 1970 23:59: the day carry lands on 1 July 1970. */
  lemma CarriedIntoJuly()
    ensures NextRunTime(Schedule(Wildcard, Wildcard, Wildcard, Values([7]), Wildcard),
                        DateTime(1970, 6, 30, 23, 59, 0), MaxRestarts)
            == Some(DateTime(1970, 7, 1, 0, 0, 0))
  {
  }

  /** Month 1 from 31 December 1970 23:59: the day carry lands on 1 January 1971. */
  lemma CarriedIntoJanuary()
    ensures NextRunTime(Schedule(Wildcard, Wildcard, Wildcard, Values([1]), Wildcard),
                        DateTime(1970, 12, 31, 23, 59, 0), MaxRestarts)
            == Some(DateTime(1971, 1, 1, 0, 0, 0))
  {
  }

  /**
   * A day carry that reaches the only listed month is already right, and
   * the intended search keeps it: its month lookup does not wrap back, so
   * it gives the same two answers.
   */
  lemma IntendedCarriedIntoListedMonth()
    ensures IntendedNextRunTime(Schedule(Wildcard, Wildcard, Wildcard, Values([7]), Wildcard),
                                DateTime(1970, 6, 30, 23, 59, 0), MaxRestarts)
            == Some(DateTime(1970, 7, 1, 0, 0, 0))
    ensures IntendedNextRunTime(Schedule(Wildcard, Wildcard, Wildcard, Values([1]), Wildcard),
                                DateTime(1970, 12, 31, 23, 59, 0), MaxRestarts)
            == Some(DateTime(1971, 1, 1, 0, 0, 0))
  {
    CarriedIntoJuly();
    IntendedAgrees(Schedule(Wildcard, Wildcard, Wildcard, Values([7]), Wildcard), DateTime(1970, 6, 30, 23, 59, 0), MaxRestarts);
    CarriedIntoJanuary();
    IntendedAgrees(Schedule(Wildcard, Wildcard, Wildcard, Values([1]), Wildcard), DateTime(1970, 12, 31, 23, 59, 0), MaxRestarts);
  }

  /** The intended search moves both on into 1971. */
  lemma IntendedWraps()
    ensures IntendedNextRunTime(Schedule(Wildcard, Wildcard, Wildcard, Values([3]), Wildcard),
                                DateTime(1970, 6, 15, 10, 0, 0), MaxRestarts)
            == Some(DateTime(1971, 3, 1, 0, 0, 0))
    ensures IntendedNextRunTime(Schedule(Values([0]), Values([0]), Values([1]), Values([1]), Wildcard),
                                DateTime(1970, 6, 15, 10, 0, 0), MaxRestarts)
            == Some(DateTime(1971, 1, 1, 0, 0, 0))
  {
  }

  // ---------------------------------------------------------------------------
  // The stepped texts of GenericCronJobTest.php:92-95, through the parser.

  lemma DigitValues()
    ensures DigitsValue("3") == 3 && DigitsValue("5") == 5
    ensures DigitsValue("10") == 10 && DigitsValue("20") == 20 && DigitsValue("40") == 40
  {
    assert "10"[..1] == "1" && "20"[..1] == "2" && "40"[..1] == "4";
  }

  lemma Progressions()
    ensures Progression(0, 59, 5) == [0, 5, 10, 15, 20, 25, 30, 35, 40, 45, 50, 55]
    ensures Progression(40, 59, 5) == [40, 45, 50, 55]
    ensures Progression(10, 59, 20) == [10, 30, 50]
  {
  }

  /** A field text v/inc, taken through FieldOf. */
  lemma SteppedFromField(text: string, v: string, inc: string, min: int, max: int)
    requires text == v + "/" + inc
    requires min <= max && IsDigits(v) && IsDigits(inc)
    requires min <= DigitsValue(v) <= max && DigitsValue(inc) > 0
    ensures FieldOf(Some(text), min, max) == Success(Values(Progression(DigitsValue(v), max, DigitsValue(inc))))
  {
    ParseSteppedFrom(v, inc, min, max);
    assert text[|v|] == '/';
  }

  /** A field text `*` with /inc, or /inc alone, taken through FieldOf. */
  lemma SteppedAllField(starred: string, bare: string, inc: string, min: int, max: int)
    requires starred == "*" + "/" + inc && bare == "/" + inc
    requires min <= max && IsDigits(inc) && DigitsValue(inc) > 0
    ensures FieldOf(Some(starred), min, max) == Success(Values(Progression(min, max, DigitsValue(inc))))
    ensures FieldOf(Some(bare), min, max) == Success(Values(Progression(min, max, DigitsValue(inc))))
  {
    ParseSteppedAll(inc, min, max);
    assert starred[1] == '/' && bare[0] == '/';
  }

  /** A field text that is one number, taken through FieldOf. */
  lemma SingleValueField(text: string, min: int, max: int)
    requires min <= max && IsDigits(text) && min <= DigitsValue(text) <= max
    ensures FieldOf(Some(text), min, max) == Success(Values([DigitsValue(text)]))
  {
    ParseSingleValue(text, min, max);
    assert IsDigit(text[0]);
  }

  /** The hour text `3` is the single hour 3. */
  lemma ParseHourThree()
    ensures FieldOf(Some("3"), 0, 23) == Success(Values([3]))
  {
    DigitValues();
    SingleValueField("3", 0, 23);
  }

  // Every fifth minute from 0: the text `*` followed by `/5`, and `/5` alone
  // (a leading '/' reads as `*`).
  lemma ParseEveryFifthMinute()
    ensures FieldOf(Some("*/5"), 0, 59) == Success(Values([0, 5, 10, 15, 20, 25, 30, 35, 40, 45, 50, 55]))
    ensures FieldOf(Some("/5"), 0, 59) == Success(Values([0, 5, 10, 15, 20, 25, 30, 35, 40, 45, 50, 55]))
  {
    DigitValues();
    SteppedAllField("*/5", "/5", "5", 0, 59);
    Progressions();
  }

  /** `40/5`: every fifth minute from 40 up to the field's maximum. */
  lemma ParseFortyEveryFifth()
    ensures FieldOf(Some("40/5"), 0, 59) == Success(Values([40, 45, 50, 55]))
  {
    DigitValues();
    SteppedFromField("40/5", "40", "5", 0, 59);
    Progressions();
  }

  /** `10/20`: every twentieth minute from 10 up to the field's maximum. */
  lemma ParseTenEveryTwentieth()
    ensures FieldOf(Some("10/20"), 0, 59) == Success(Values([10, 30, 50]))
  {
    DigitValues();
    SteppedFromField("10/20", "10", "20", 0, 59);
    Progressions();
  }

  // GenericCronJobTest.php:92 and 93: every fifth minute, written both ways, hour 3.
  lemma Line92()
    ensures ScheduleOf(Some("*/5"), Some("3"), Some("*"), Some("*"), Some("*"))
            == ScheduleOf(Some("/5"), Some("3"), Some("*"), Some("*"), Some("*"))
            == Success(Schedule(Values([0, 5, 10, 15, 20, 25, 30, 35, 40, 45, 50, 55]), Values([3]), Wildcard, Wildcard, Wildcard))
    ensures NextRunTime(Schedule(Values([0, 5, 10, 15, 20, 25, 30, 35, 40, 45, 50, 55]), Values([3]), Wildcard, Wildcard, Wildcard),
                        DateTime(2009, 10, 12, 3, 32, 55), MaxRestarts)
            == Some(DateTime(2009, 10, 12, 3, 35, 0))
  {
    ParseEveryFifthMinute();
    HourThreeSchedule("*/5", [0, 5, 10, 15, 20, 25, 30, 35, 40, 45, 50, 55]);
    HourThreeSchedule("/5", [0, 5, 10, 15, 20, 25, 30, 35, 40, 45, 50, 55]);
    EveryFifthAtThree();
  }

  /** A minute text that parses to vals, with hour `3` and every other field `*`. */
  lemma HourThreeSchedule(minute: string, vals: seq<int>)
    requires FieldOf(Some(minute), 0, 59) == Success(Values(vals))
    ensures ScheduleOf(Some(minute), Some("3"), Some("*"), Some("*"), Some("*"))
            == Success(Schedule(Values(vals), Values([3]), Wildcard, Wildcard, Wildcard))
  {
    ParseHourThree();
  }

  /** Every fifth minute of hour 3, from 03:32:55, runs next at 03:35. */
  lemma EveryFifthAtThree()
    ensures NextRunTime(Schedule(Values([0, 5, 10, 15, 20, 25, 30, 35, 40, 45, 50, 55]), Values([3]), Wildcard, Wildcard, Wildcard),
                        DateTime(2009, 10, 12, 3, 32, 55), MaxRestarts)
            == Some(DateTime(2009, 10, 12, 3, 35, 0))
  {
  }

  /** GenericCronJobTest.php:94: `40/5` minutes, hour 3. */
  lemma Line94()
    ensures ScheduleOf(Some("40/5"), Some("3"), Some("*"), Some("*"), Some("*"))
            == Success(Schedule(Values([40, 45, 50, 55]), Values([3]), Wildcard, Wildcard, Wildcard))
    ensures NextRunTime(Schedule(Values([40, 45, 50, 55]), Values([3]), Wildcard, Wildcard, Wildcard),
                        DateTime(2009, 10, 12, 3, 32, 55), MaxRestarts)
            == Some(DateTime(2009, 10, 12, 3, 40, 0))
  {
    ParseFortyEveryFifth();
    HourThreeSchedule("40/5", [40, 45, 50, 55]);
  }

  /** GenericCronJobTest.php:95: `10/20` minutes, hour 3. */
  lemma Line95()
    ensures ScheduleOf(Some("10/20"), Some("3"), Some("*"), Some("*"), Some("*"))
            == Success(Schedule(Values([10, 30, 50]), Values([3]), Wildcard, Wildcard, Wildcard))
    ensures NextRunTime(Schedule(Values([10, 30, 50]), Values([3]), Wildcard, Wildcard, Wildcard),
                        DateTime(2009, 10, 12, 3, 32, 55), MaxRestarts)
            == Some(DateTime(2009, 10, 12, 3, 50, 0))
  {
    ParseTenEveryTwentieth();
    HourThreeSchedule("10/20", [10, 30, 50]);
  }

  // ---------------------------------------------------------------------------
  // Cases that restart the search. Each restart is one lemma; composed, they
  // give NextRunTime(schedule, reference, MaxRestarts) == Some(answer).

  /** A candidate on an excluded weekday sends the search to the end of that day. */
  lemma SkipDay(s: Schedule, t: DateTime, c: DateTime, fuel: nat)
    requires WellFormedSchedule(s) && t.Valid() && fuel > 0
    requires Candidate(s, t) == c && !WeekdayAllowed(s, c)
    ensures NextRunTime(s, t, fuel) == NextRunTime(s, EndOfDay(c), fuel - 1)
  {
  }

  /** A candidate on an allowed weekday is the answer. */
  lemma TakeDay(s: Schedule, t: DateTime, c: DateTime, fuel: nat)
    requires WellFormedSchedule(s) && t.Valid()
    requires Candidate(s, t) == c && WeekdayAllowed(s, c)
    ensures NextRunTime(s, t, fuel) == Some(c)
  {
  }

  /**
   * GenericCronJobTest.php:85: from 1 January 1970 01:00 the search rejects
   * Thursday 1 January to Sunday 4 January, four candidates, and settles on
   * Monday 5 January 01:00. The lemmas below take one restart each.
   */
  function Line85Schedule(): (s: Schedule)
    ensures WellFormedSchedule(s)
  {
    Schedule(Wildcard, Values([1]), Wildcard, Wildcard, Values([1]))
  }

  /** The candidate DateTime(1970, 1, 1, 1, 1, 0) falls on a Thursday. */
  lemma Line85Skip0(fuel: nat)
    requires fuel > 0
    ensures NextRunTime(Line85Schedule(), DateTime(1970, 1, 1, 1, 0, 0), fuel)
            == NextRunTime(Line85Schedule(), DateTime(1970, 1, 1, 23, 59, 59), fuel - 1)
  {
    var s, t, c := Line85Schedule(), DateTime(1970, 1, 1, 1, 0, 0), DateTime(1970, 1, 1, 1, 1, 0);
    assert MinuteStage(s, t) == c;
    assert HourStage(s, t, c) == c;
    assert DayStage(s, t, c) == c;
    assert MonthStage(s, t, c) == c;
    assert Weekday(c) == 4;
    SkipDay(s, t, c, fuel);
  }

  /** The candidate DateTime(1970, 1, 2, 1, 0, 0) falls on a Friday. */
  lemma Line85Skip1(fuel: nat)
    requires fuel > 0
    ensures NextRunTime(Line85Schedule(), DateTime(1970, 1, 1, 23, 59, 59), fuel)
            == NextRunTime(Line85Schedule(), DateTime(1970, 1, 2, 23, 59, 59), fuel - 1)
  {
    SkipDay(Line85Schedule(), DateTime(1970, 1, 1, 23, 59, 59), DateTime(1970, 1, 2, 1, 0, 0), fuel);
  }

  /** The candidate DateTime(1970, 1, 3, 1, 0, 0) falls on a Saturday. */
  lemma Line85Skip2(fuel: nat)
    requires fuel > 0
    ensures NextRunTime(Line85Schedule(), DateTime(1970, 1, 2, 23, 59, 59), fuel)
            == NextRunTime(Line85Schedule(), DateTime(1970, 1, 3, 23, 59, 59), fuel - 1)
  {
    SkipDay(Line85Schedule(), DateTime(1970, 1, 2, 23, 59, 59), DateTime(1970, 1, 3, 1, 0, 0), fuel);
  }

  /** The candidate DateTime(1970, 1, 4, 1, 0, 0) falls on a Sunday. */
  lemma Line85Skip3(fuel: nat)
    requires fuel > 0
    ensures NextRunTime(Line85Schedule(), DateTime(1970, 1, 3, 23, 59, 59), fuel)
            == NextRunTime(Line85Schedule(), DateTime(1970, 1, 4, 23, 59, 59), fuel - 1)
  {
    SkipDay(Line85Schedule(), DateTime(1970, 1, 3, 23, 59, 59), DateTime(1970, 1, 4, 1, 0, 0), fuel);
  }

  lemma Line85Take(fuel: nat)
    ensures NextRunTime(Line85Schedule(), DateTime(1970, 1, 4, 23, 59, 59), fuel) == Some(DateTime(1970, 1, 5, 1, 0, 0))
  {
    TakeDay(Line85Schedule(), DateTime(1970, 1, 4, 23, 59, 59), DateTime(1970, 1, 5, 1, 0, 0), fuel);
  }

  /** GenericCronJobTest.php:85 whole: Monday 5 January 1970 01:00. */
  lemma Line85()
    ensures NextRunTime(Line85Schedule(), DateTime(1970, 1, 1, 1, 0, 0), MaxRestarts) == Some(DateTime(1970, 1, 5, 1, 0, 0))
  {
    Line85Skip0(MaxRestarts);
    Line85Skip1(MaxRestarts - 1);
    Line85Skip2(MaxRestarts - 2);
    Line85Skip3(MaxRestarts - 3);
    Line85Take(MaxRestarts - 4);
  }

  /**
   * GenericCronJobTest.php:86: from 1 January 1970 01:00 the search rejects
   * the Thursday candidate once and settles on Friday 2 January 01:00.
   */
  function Line86Schedule(): (s: Schedule)
    ensures WellFormedSchedule(s)
  {
    Schedule(Wildcard, Values([1]), Wildcard, Wildcard, Values([1, 3, 5]))
  }

  /** The candidate DateTime(1970, 1, 1, 1, 1, 0) falls on a Thursday. */
  lemma Line86Skip0(fuel: nat)
    requires fuel > 0
    ensures NextRunTime(Line86Schedule(), DateTime(1970, 1, 1, 1, 0, 0), fuel)
            == NextRunTime(Line86Schedule(), DateTime(1970, 1, 1, 23, 59, 59), fuel - 1)
  {
    SkipDay(Line86Schedule(), DateTime(1970, 1, 1, 1, 0, 0), DateTime(1970, 1, 1, 1, 1, 0), fuel);
  }

  lemma Line86Take(fuel: nat)
    ensures NextRunTime(Line86Schedule(), DateTime(1970, 1, 1, 23, 59, 59), fuel) == Some(DateTime(1970, 1, 2, 1, 0, 0))
  {
    TakeDay(Line86Schedule(), DateTime(1970, 1, 1, 23, 59, 59), DateTime(1970, 1, 2, 1, 0, 0), fuel);
  }

  /** GenericCronJobTest.php:86 whole: Friday 2 January 1970 01:00. */
  lemma Line86()
    ensures NextRunTime(Line86Schedule(), DateTime(1970, 1, 1, 1, 0, 0), MaxRestarts) == Some(DateTime(1970, 1, 2, 1, 0, 0))
  {
    Line86Skip0(MaxRestarts);
    Line86Take(MaxRestarts - 1);
  }

  /**
   * GenericCronJobTest.php:87: from 1 January 1970 01:00 the search rejects
   * Friday 2 January once and settles on Saturday 3 January at midnight.
   */
  function Line87Schedule(): (s: Schedule)
    ensures WellFormedSchedule(s)
  {
    Schedule(Wildcard, Values([0]), Wildcard, Wildcard, Values([1, 6]))
  }

  /** The candidate DateTime(1970, 1, 2, 0, 0, 0) falls on a Friday. */
  lemma Line87Skip0(fuel: nat)
    requires fuel > 0
    ensures NextRunTime(Line87Schedule(), DateTime(1970, 1, 1, 1, 0, 0), fuel)
            == NextRunTime(Line87Schedule(), DateTime(1970, 1, 2, 23, 59, 59), fuel - 1)
  {
    SkipDay(Line87Schedule(), DateTime(1970, 1, 1, 1, 0, 0), DateTime(1970, 1, 2, 0, 0, 0), fuel);
  }

  lemma Line87Take(fuel: nat)
    ensures NextRunTime(Line87Schedule(), DateTime(1970, 1, 2, 23, 59, 59), fuel) == Some(DateTime(1970, 1, 3, 0, 0, 0))
  {
    TakeDay(Line87Schedule(), DateTime(1970, 1, 2, 23, 59, 59), DateTime(1970, 1, 3, 0, 0, 0), fuel);
  }

  /** GenericCronJobTest.php:87 whole: Saturday 3 January 1970 00:00. */
  lemma Line87()
    ensures NextRunTime(Line87Schedule(), DateTime(1970, 1, 1, 1, 0, 0), MaxRestarts) == Some(DateTime(1970, 1, 3, 0, 0, 0))
  {
    Line87Skip0(MaxRestarts);
    Line87Take(MaxRestarts - 1);
  }

  /**
   * GenericCronJobTest.php:91: from Monday 12 October 2009 03:32:55 the search
   * rejects Tuesday 13 to Sunday 18 October, six candidates, and settles on
   * Monday 19 October 03:30. The lemmas below take one restart each.
   */
  function Line91Schedule(): (s: Schedule)
    ensures WellFormedSchedule(s)
  {
    Schedule(Values([30]), Values([3]), Wildcard, Wildcard, Values([1]))
  }

  /** The candidate DateTime(2009, 10, 13, 3, 30, 0) falls on a Tuesday. */
  lemma Line91Skip0(fuel: nat)
    requires fuel > 0
    ensures NextRunTime(Line91Schedule(), DateTime(2009, 10, 12, 3, 32, 55), fuel)
            == NextRunTime(Line91Schedule(), DateTime(2009, 10, 13, 23, 59, 59), fuel - 1)
  {
    SkipDay(Line91Schedule(), DateTime(2009, 10, 12, 3, 32, 55), DateTime(2009, 10, 13, 3, 30, 0), fuel);
  }

  /** The candidate DateTime(2009, 10, 14, 3, 30, 0) falls on a Wednesday. */
  lemma Line91Skip1(fuel: nat)
    requires fuel > 0
    ensures NextRunTime(Line91Schedule(), DateTime(2009, 10, 13, 23, 59, 59), fuel)
            == NextRunTime(Line91Schedule(), DateTime(2009, 10, 14, 23, 59, 59), fuel - 1)
  {
    SkipDay(Line91Schedule(), DateTime(2009, 10, 13, 23, 59, 59), DateTime(2009, 10, 14, 3, 30, 0), fuel);
  }

  /** The candidate DateTime(2009, 10, 15, 3, 30, 0) falls on a Thursday. */
  lemma Line91Skip2(fuel: nat)
    requires fuel > 0
    ensures NextRunTime(Line91Schedule(), DateTime(2009, 10, 14, 23, 59, 59), fuel)
            == NextRunTime(Line91Schedule(), DateTime(2009, 10, 15, 23, 59, 59), fuel - 1)
  {
    SkipDay(Line91Schedule(), DateTime(2009, 10, 14, 23, 59, 59), DateTime(2009, 10, 15, 3, 30, 0), fuel);
  }

  /** The candidate DateTime(2009, 10, 16, 3, 30, 0) falls on a Friday. */
  lemma Line91Skip3(fuel: nat)
    requires fuel > 0
    ensures NextRunTime(Line91Schedule(), DateTime(2009, 10, 15, 23, 59, 59), fuel)
            == NextRunTime(Line91Schedule(), DateTime(2009, 10, 16, 23, 59, 59), fuel - 1)
  {
    SkipDay(Line91Schedule(), DateTime(2009, 10, 15, 23, 59, 59), DateTime(2009, 10, 16, 3, 30, 0), fuel);
  }

  /** The candidate DateTime(2009, 10, 17, 3, 30, 0) falls on a Saturday. */
  lemma Line91Skip4(fuel: nat)
    requires fuel > 0
    ensures NextRunTime(Line91Schedule(), DateTime(2009, 10, 16, 23, 59, 59), fuel)
            == NextRunTime(Line91Schedule(), DateTime(2009, 10, 17, 23, 59, 59), fuel - 1)
  {
    SkipDay(Line91Schedule(), DateTime(2009, 10, 16, 23, 59, 59), DateTime(2009, 10, 17, 3, 30, 0), fuel);
  }

  /** The candidate DateTime(2009, 10, 18, 3, 30, 0) falls on a Sunday. */
  lemma Line91Skip5(fuel: nat)
    requires fuel > 0
    ensures NextRunTime(Line91Schedule(), DateTime(2009, 10, 17, 23, 59, 59), fuel)
            == NextRunTime(Line91Schedule(), DateTime(2009, 10, 18, 23, 59, 59), fuel - 1)
  {
    SkipDay(Line91Schedule(), DateTime(2009, 10, 17, 23, 59, 59), DateTime(2009, 10, 18, 3, 30, 0), fuel);
  }

  lemma Line91Take(fuel: nat)
    ensures NextRunTime(Line91Schedule(), DateTime(2009, 10, 18, 23, 59, 59), fuel) == Some(DateTime(2009, 10, 19, 3, 30, 0))
  {
    TakeDay(Line91Schedule(), DateTime(2009, 10, 18, 23, 59, 59), DateTime(2009, 10, 19, 3, 30, 0), fuel);
  }

  /** GenericCronJobTest.php:91 whole: Monday 19 October 2009 03:30. */
  lemma Line91()
    ensures NextRunTime(Line91Schedule(), DateTime(2009, 10, 12, 3, 32, 55), MaxRestarts) == Some(DateTime(2009, 10, 19, 3, 30, 0))
  {
    Line91Skip0(MaxRestarts);
    Line91Skip1(MaxRestarts - 1);
    Line91Skip2(MaxRestarts - 2);
    Line91Skip3(MaxRestarts - 3);
    Line91Skip4(MaxRestarts - 4);
    Line91Skip5(MaxRestarts - 5);
    Line91Take(MaxRestarts - 6);
  }
}
