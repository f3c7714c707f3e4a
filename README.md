# ride-lib-cron scheduling core, modelled in Dafny

This project models the scheduling core of the `ride/lib-cron` PHP library:

- the crontab-like field parser of `GenericCronJob`: `*`, `N`, `a-b`, `*/N`, `/N`, `a/N` and `a-b/N` terms, in comma lists, over a field's range;
- the job's run-interval setters;
- the next-run evaluator. `GenericCronJob::getNextRunTime` works at minute precision and `SuperCronJob::getNextRunTime` at second precision. Both are carry-propagating searches over the calendar fields. A day-of-week filter sends the search to the end of a non-matching day and searches again.
- the `Cron` scheduler, which keeps a job map keyed by id, builds the run order and dispatches the passes of `run`.

Files:

- `wrappers.dfy`: `Option` and `Result`.
- `calendar.dfy`: instants as calendar tuples. It covers the proleptic Gregorian month lengths and the day count from 1970-01-01, whose weekday is Thursday. It also has the one-step carries (next month, day, hour, minute, second), `mktime` for day overflow into the next month, and seconds since the epoch.
- `fields.dfy`: the field parser, its specification functions and the set lookups `getNextRunIntervalValue` and `getFirstRunIntervalValue`.
- `generic_cron_job.dfy`:
  - the five-field job;
  - the by-reference carry chain `addMinute`, `addHour`, `addDay` and `addMonth`, as methods with in/out parameters;
  - `getNextRunTime` as a method that reassigns `$newMinute` … `$newYear` step by step, proved equal to a functional mirror (`NextRunTime`) about which the properties are proved;
  - the `GenericCronJob` class with its cached id.
  - a corrected search that moves the year when the month lookup wraps back before the reference (see "## Findings").
- `super_cron_job.dfy`: the same for the six-field, second-precision job.
- `generic_vectors.dfy`: the `getNextRunTime` test vectors of `GenericCronJobTest.php`, stated as lemmas about the model.
- `cron.dfy`: the `Cron` class with its job map, registration and removal, the run order, one dispatch pass and `run`.

The model follows the code as written, including these behaviours:

- Day-of-month and day-of-week are combined with AND.
- When the month list wraps to its first value, the year is not advanced, so the next run can come before the reference (see "## Findings").
- When a carry has moved a field, the field's own value is not reconsidered.
- Where the PHP loops forever, the parser returns `NonTerminating`: a negative step, and a zero step written so that it is truthy (`00`, `-0`, `+0`).
- The search can settle on a day beyond the month's length, such as 31 April. The final `mktime` call moves that day into the next month, so a returned run time need not fall on a listed day or month. For that reason the next-run properties promise the minute, hour and weekday lists but not day or month membership. GenericVectors.DayOverflow shows the case.

## Model

| member | source | states |
|---|---|---|
| Fields.IndexOf | src/ride/library/cron/job/GenericCronJob.php:509 | the position of the first occurrence of a character, or None exactly when it does not occur |
| Fields.SplitFirst | src/ride/library/cron/job/GenericCronJob.php:506 | `explode` cuts at the first separator: the part before it is the first piece and the rest is split again |
| Fields.SplitWhole | src/ride/library/cron/job/GenericCronJob.php:506 | a text without the separator explodes into itself alone |
| Fields.StepSetMembers | src/ride/library/cron/job/GenericCronJob.php:542-553 | a stepped run from a to b contains exactly the x with a <= x <= b and x - a a multiple of the step |
| Fields.ValidateRunIntervalValue | src/ride/library/cron/job/GenericCronJob.php:575-583 | succeeds exactly for a numeric text whose value lies in [min, max] and returns that value; a non-numeric text is InvalidValue, an out-of-range number OutOfRange |
| Fields.Ascending | src/ride/library/cron/job/GenericCronJob.php:561 | `asort` of the collected values: the same members, strictly ascending |
| Fields.ParseTermValues | src/ride/library/cron/job/GenericCronJob.php:509-557 | every term that parses contributes at least one value, and all of them lie in [min, max] |
| Fields.ParseTermsValues | src/ride/library/cron/job/GenericCronJob.php:506-557 | a comma list that parses contributes values only in [min, max], and at least one when it has a term |
| Fields.Progression | src/ride/library/cron/job/GenericCronJob.php:542-553 | the stepped run a, a+step, … up to b as a list: strictly ascending, from a, with exactly the members of the stepped set |
| Fields.AscendingUnique | src/ride/library/cron/job/GenericCronJob.php:561 | `asort` of a value set is the only strictly ascending list of its members within the field's range |
| Fields.AscendingStepSet | src/ride/library/cron/job/GenericCronJob.php:542-561 | a stepped run inside the field's range, once sorted, is its progression |
| Fields.SplitIncrementAt | src/ride/library/cron/job/GenericCronJob.php:509-512 | a term `v/inc`, with no `/` in a non-empty v, splits into the value text v and the increment text inc |
| Fields.ParseSingleTerm | src/ride/library/cron/job/GenericCronJob.php:506-563 | a text without a comma is parsed as one term: that term's error, or its values in ascending order |
| Fields.ParseSingleValue | src/ride/library/cron/job/GenericCronJob.php:546-555 | a decimal number alone, within the range, parses to the list holding just that value |
| Fields.ParseSteppedFrom | src/ride/library/cron/job/GenericCronJob.php:509-512 | `v/inc` with v in range and a positive step parses to v, v+inc, … up to the field's maximum (the `do-while` of lines 549-553) |
| Fields.ParseSteppedAll | src/ride/library/cron/job/GenericCronJob.php:513-523 | `*/inc` and `/inc` (a leading `/` reads as `*`) both parse to min, min+inc, … up to max, as the range min-max stepped by inc |
| Fields.ParseSpecWellFormed | src/ride/library/cron/job/GenericCronJob.php:527-563 | a parsed field is non-empty, strictly ascending (so without duplicates) and within [min, max] |
| Fields.ParseTermsFails | src/ride/library/cron/job/GenericCronJob.php:506-557 | the first failing term decides the exception the whole field throws |
| Fields.AddRange | src/ride/library/cron/job/GenericCronJob.php:542-544 | the `for` loop adds exactly the stepped run lo, lo+step, … up to hi to the values collected so far |
| Fields.AddStepping | src/ride/library/cron/job/GenericCronJob.php:549-553 | the `do-while` loop adds exactly the stepped run v, v+step, … up to max |
| Fields.ParseTermInto | src/ride/library/cron/job/GenericCronJob.php:509-557 | one term of the loop adds the term's values or throws the term's error |
| Fields.ParseRunIntervalValue | src/ride/library/cron/job/GenericCronJob.php:499-564 | the parser returns the ascending union of its terms or the first error, including EmptyValue for an empty text; its result is well formed |
| Fields.FieldOf | src/ride/library/cron/job/GenericCronJob.php:418-426 | a setter's result is the wildcard for null or `*`, else the well-formed parsed list |
| Fields.SetRunIntervalField | src/ride/library/cron/job/GenericCronJob.php:418-471 | the minute/hour/day/month setters: wildcard for null or `*`, otherwise the parser's result over the field's range |
| Fields.Without | src/ride/library/cron/job/GenericCronJob.php:486-488 | `unset` removes exactly the given value, keeps every other one and keeps the list free of duplicates |
| Fields.FoldSundayMembers | src/ride/library/cron/job/GenericCronJob.php:485-489 | after the fold a weekday is listed exactly when it was listed and is not 7, or it is 0 and 7 was listed |
| Fields.SetRunIntervalDayOfWeek | src/ride/library/cron/job/GenericCronJob.php:478-490 | the day-of-week setter parses over 0-7 and folds Sunday written as 7 into 0 |
| Fields.FirstReaching | src/ride/library/cron/job/GenericCronJob.php:297-309 | the first listed value >= (inclusive) or > (exclusive) the given value, or None exactly when none reaches it |
| Fields.GetNextRunIntervalValue | src/ride/library/cron/job/GenericCronJob.php:292-314 | the default for a wildcard; otherwise always a member of the list |
| Fields.GetFirstRunIntervalValue | src/ride/library/cron/job/GenericCronJob.php:274-282 | the default for a wildcard, else the first listed value |
| Fields.NextRunIntervalValueIsLeast | src/ride/library/cron/job/GenericCronJob.php:292-314 | on a parsed list the lookup returns the least member reaching the value, and wraps to the least member when none does |
| Generic.IntervalDefinitionFields | src/ride/library/cron/job/GenericCronJob.php:394-410 | the interval definition splits back into the five field texts, with null rendered as `*` |
| Generic.ScheduleOf | src/ride/library/cron/job/GenericCronJob.php:387-411 | setting the run interval succeeds exactly when all five setters do, and fails with the error of the first failing field in minute, hour, day, month, day-of-week order; a success is well formed |
| Generic.SetRunInterval | src/ride/library/cron/job/GenericCronJob.php:387-411 | calls the five setters in the source's order and yields exactly ScheduleOf |
| Generic.DayOfWeekWellFormed | src/ride/library/cron/job/GenericCronJob.php:478-490 | a parsed day-of-week field only holds weekdays 0-6 |
| Generic.First | src/ride/library/cron/job/GenericCronJob.php:274-282 | the first allowed value of a field: its first member, or the given default for a wildcard |
| Generic.AddMonth | src/ride/library/cron/job/GenericCronJob.php:370-376 | the month advances by one, wrapping from 12 to 1 of the next year, and stays in 1-12 |
| Generic.AddDay | src/ride/library/cron/job/GenericCronJob.php:356-362 | the next calendar day, which carries into the month exactly when the month's real length is passed; the day count grows by one |
| Generic.AddHour | src/ride/library/cron/job/GenericCronJob.php:341-347 | the next hour, which carries into the day at 24; exactly 3600 seconds later |
| Generic.AddMinute | src/ride/library/cron/job/GenericCronJob.php:325-331 | the next minute, which carries into the hour at 60; exactly 60 seconds later |
| Generic.MinuteStage | src/ride/library/cron/job/GenericCronJob.php:185-199 | the minute step yields a valid time on second 0 whose minute is in a restricted minute field |
| Generic.HourStage | src/ride/library/cron/job/GenericCronJob.php:201-217 | after the hour step, a restricted minute and hour are members of their fields |
| Generic.DayMove | src/ride/library/cron/job/GenericCronJob.php:219-231 | the day lookup keeps the time of day and picks a member of a restricted day field |
| Generic.DayStage | src/ride/library/cron/job/GenericCronJob.php:219-236 | after the day step, a restricted minute, hour and day are members of their fields |
| Generic.MonthMove | src/ride/library/cron/job/GenericCronJob.php:238-249 | the month lookup keeps the day and time and picks a member of a restricted month field |
| Generic.MonthStage | src/ride/library/cron/job/GenericCronJob.php:238-255 | after the month step, every restricted field other than day-of-week holds a member |
| Generic.Candidate | src/ride/library/cron/job/GenericCronJob.php:185-257 | the `mktime` of the stages is a valid instant on second 0 with restricted minute and hour taken from their fields |
| Generic.NextRunTime | src/ride/library/cron/job/GenericCronJob.php:167-266 | a result has second 0, a restricted minute and hour are members of their fields, and its weekday is in a restricted day-of-week field; without a day-of-week restriction there is always a result |
| Generic.Restart | src/ride/library/cron/job/GenericCronJob.php:259-265 | an excluded weekday restarts from 23:59:59 of that day; every result satisfies the weekday set |
| Generic.AllWildcardNextRunTime | src/ride/library/cron/job/GenericCronJob.php:179-183 | an all-`*` schedule gives the reference truncated to the minute, plus one minute |
| Generic.ChangedFieldResetsLower | src/ride/library/cron/job/GenericCronJob.php:214-216 | whenever month, day or hour moved off the reference, every less significant field is at its first allowed value |
| Generic.HourStageResets | src/ride/library/cron/job/GenericCronJob.php:214-216 | a moved hour resets the minute to its first allowed value |
| Generic.DayStageResets | src/ride/library/cron/job/GenericCronJob.php:232-236 | a moved day resets hour and minute; an unmoved day keeps them |
| Generic.MonthStageResets | src/ride/library/cron/job/GenericCronJob.php:251-255 | a moved month resets day, hour and minute; an unmoved month keeps them |
| Generic.MinuteStageDate | src/ride/library/cron/job/GenericCronJob.php:185-199 | the minute step stays on the reference's date or moves to the next day, and stays on the date while the hour is unchanged |
| Generic.HourStageDate | src/ride/library/cron/job/GenericCronJob.php:201-217 | after the hour step the candidate is on the reference's date or the next day |
| Generic.DayStageMonth | src/ride/library/cron/job/GenericCronJob.php:219-236 | after the day step the candidate is in the reference's month or the next one |
| Generic.MonthStageLater | src/ride/library/cron/job/GenericCronJob.php:238-255 | with the month `*`, the month step leaves the candidate strictly after the reference |
| Generic.CandidateLater | src/ride/library/cron/job/GenericCronJob.php:179-257 | with the month `*`, the `mktime` of the stages is strictly after the reference |
| Generic.NextRunTimeLater | src/ride/library/cron/job/GenericCronJob.php:167-266 | with the month `*`, a next run time found is strictly after the reference |
| Generic.RestartNotEarlier | src/ride/library/cron/job/GenericCronJob.php:259-265 | with the month `*`, the day-of-week check returns the candidate or something later |
| Generic.IntendedMonthMove | src/ride/library/cron/job/GenericCronJob.php:238-249 | the month lookup with the year moved only when it wraps back (`MonthWrapsBack`): a restricted month is taken from its field, day and time are kept, the month is the source's, and without a wrap back the whole result is the source's |
| Generic.IntendedMonthStage | src/ride/library/cron/job/GenericCronJob.php:238-255 | the corrected month step keeps restricted minute, hour, day and month in their fields and, unless the lookup wraps back, equals the source's step |
| Generic.IntendedCandidate | src/ride/library/cron/job/GenericCronJob.php:179-257 | the candidate of the corrected search is a valid instant on second 0 and, unless the month lookup wraps back (`MonthStageWrapsBack`), equals the source's |
| Generic.IntendedNextRunTime | src/ride/library/cron/job/GenericCronJob.php:167-266 | the corrected search returns a valid instant on second 0 whose restricted minute and hour are in their fields and whose weekday is listed, and with the day-of-week `*` it always returns one |
| Generic.IntendedRestart | src/ride/library/cron/job/GenericCronJob.php:259-265 | the corrected day-of-week check returns a valid instant on second 0 with minute, hour and weekday in their fields, and with the day-of-week `*` it returns the candidate itself |
| Generic.IntendedMonthStageLater | src/ride/library/cron/job/GenericCronJob.php:238-255 | the corrected month step leaves the candidate strictly after the reference, for every month field |
| Generic.IntendedCandidateLater | src/ride/library/cron/job/GenericCronJob.php:179-257 | the corrected candidate is strictly after the reference, for every schedule |
| Generic.IntendedNextRunTimeLater | src/ride/library/cron/job/GenericCronJob.php:167-266 | the corrected search returns an instant strictly after the reference, for every schedule |
| Generic.IntendedRestartNotEarlier | src/ride/library/cron/job/GenericCronJob.php:259-265 | the corrected day-of-week check returns the candidate or something later |
| Generic.IntendedAgrees | src/ride/library/cron/job/GenericCronJob.php:167-266 | wherever no month lookup of the search, restarts included, wraps back (`NeverWrapsBack`), the corrected search returns exactly what the source's does |
| Generic.IntendedRestartAgrees | src/ride/library/cron/job/GenericCronJob.php:259-265 | where no restarted lookup wraps back, the two day-of-week checks return the same |
| Generic.MonthWrapsBackGoesBack | src/ride/library/cron/job/GenericCronJob.php:238-249 | where the month lookup wraps back, the source's month is not after the reference's and the corrected one is after it |
| Generic.IntendedMonthMoveForward | src/ride/library/cron/job/GenericCronJob.php:238-249 | the corrected month lookup never goes before the candidate's month, and stays in it only when that month was allowed to count |
| Generic.WildcardNeverWrapsBack | src/ride/library/cron/job/GenericCronJob.php:167-266 | with the month `*` no month lookup of the search wraps back |
| Generic.WildcardRestartNeverWrapsBack | src/ride/library/cron/job/GenericCronJob.php:259-265 | with the month `*` no restarted month lookup wraps back |
| Generic.Search | src/ride/library/cron/job/GenericCronJob.php:167-266 | the method's step-by-step search returns exactly NextRunTime |
| Generic.RestartStep | src/ride/library/cron/job/GenericCronJob.php:259-265 | the day-of-week check and restart return exactly Restart |
| Generic.CandidateStep | src/ride/library/cron/job/GenericCronJob.php:185-257 | the four steps and `mktime` compute exactly Candidate |
| Generic.MinuteStep | src/ride/library/cron/job/GenericCronJob.php:185-199 | the minute step computes exactly MinuteStage |
| Generic.HourStep | src/ride/library/cron/job/GenericCronJob.php:201-217 | the hour step computes exactly HourStage |
| Generic.DayStep | src/ride/library/cron/job/GenericCronJob.php:219-236 | the day step computes exactly DayStage |
| Generic.MonthStep | src/ride/library/cron/job/GenericCronJob.php:238-255 | the month step computes exactly MonthStage |
| Generic.GenericCronJob.Create | src/ride/library/cron/job/GenericCronJob.php:94-97 | construction fails for an empty or non-string, non-array callback, else with the first field error; otherwise it yields a fresh job holding the callback, the parsed schedule and the definition |
| Generic.GenericCronJob.GetId | src/ride/library/cron/job/GenericCronJob.php:123-131 | returns a truthy cached id unchanged; otherwise caches and returns md5 of the text rendering |
| Generic.GenericCronJob.GetNextRunTime | src/ride/library/cron/job/GenericCronJob.php:167-266 | the job's next run time is NextRunTime of its schedule |
| Super.SuperScheduleOf | src/ride/library/cron/job/SuperCronJob.php:188-213 | the five fields are set first and then the second field over 0-59; success exactly when both succeed, with the first error otherwise |
| Super.SetRunInterval | src/ride/library/cron/job/SuperCronJob.php:188-198 | calls the five-field setter and then the second setter, yielding exactly SuperScheduleOf |
| Super.SuperDefinitionFields | src/ride/library/cron/job/SuperCronJob.php:188-198 | the definition is the second text (or `*`) and a space before the five-field definition, and splits back into the six texts |
| Super.AddSecond | src/ride/library/cron/job/SuperCronJob.php:171-177 | the next second, one second later, carrying into the minute exactly when the second was 59 |
| Super.SecondStage | src/ride/library/cron/job/SuperCronJob.php:63-71 | the second step yields a valid time whose second is in a restricted second field |
| Super.MinuteStage | src/ride/library/cron/job/SuperCronJob.php:73-89 | after the minute step, a restricted second and minute are members of their fields |
| Super.HourStage | src/ride/library/cron/job/SuperCronJob.php:91-108 | after the hour step, a restricted second, minute and hour are members of their fields |
| Super.DayStage | src/ride/library/cron/job/SuperCronJob.php:110-128 | after the day step every restricted field up to day holds a member |
| Super.MonthStage | src/ride/library/cron/job/SuperCronJob.php:130-148 | after the month step every restricted field other than day-of-week holds a member |
| Super.Candidate | src/ride/library/cron/job/SuperCronJob.php:63-150 | the `mktime` of the stages is a valid instant with restricted second, minute and hour taken from their fields |
| Super.NextRunTime | src/ride/library/cron/job/SuperCronJob.php:37-159 | a result has restricted second, minute and hour in their fields and its weekday in a restricted day-of-week field; without a day-of-week restriction there is always a result |
| Super.Restart | src/ride/library/cron/job/SuperCronJob.php:152-158 | an excluded weekday restarts from 23:59:59 of that day; every result satisfies the weekday set |
| Super.AllWildcardNextRunTime | src/ride/library/cron/job/SuperCronJob.php:50-54 | an all-`*` schedule gives exactly the reference plus one second |
| Super.ChangedFieldResetsLower | src/ride/library/cron/job/SuperCronJob.php:86-148 | whenever a more significant field moved off the reference, every less significant field is at its first allowed value (0, or 1 for day) |
| Super.MinuteStageResets | src/ride/library/cron/job/SuperCronJob.php:86-89 | a moved minute resets the second |
| Super.HourStageResets | src/ride/library/cron/job/SuperCronJob.php:104-108 | a moved hour resets minute and second |
| Super.DayStageResets | src/ride/library/cron/job/SuperCronJob.php:123-128 | a moved day resets hour, minute and second; an unmoved day keeps them |
| Super.MonthStageResets | src/ride/library/cron/job/SuperCronJob.php:143-148 | a moved month resets day, hour, minute and second; an unmoved month keeps them |
| Super.SecondStageMinute | src/ride/library/cron/job/SuperCronJob.php:63-71 | the second step stays in the reference's minute or moves to the next one |
| Super.MinuteStageHour | src/ride/library/cron/job/SuperCronJob.php:73-89 | after the minute step the candidate is in the reference's hour or the next one, and in the reference's hour while the minute is unchanged |
| Super.HourStageDate | src/ride/library/cron/job/SuperCronJob.php:91-108 | after the hour step the candidate is on the reference's date or the next day |
| Super.DayStageMonth | src/ride/library/cron/job/SuperCronJob.php:110-128 | after the day step the candidate is in the reference's month or the next one |
| Super.MonthStageLater | src/ride/library/cron/job/SuperCronJob.php:130-148 | with the month `*`, the month step leaves the candidate strictly after the reference |
| Super.CandidateLater | src/ride/library/cron/job/SuperCronJob.php:50-150 | with the month `*`, the `mktime` of the stages is strictly after the reference |
| Super.NextRunTimeLater | src/ride/library/cron/job/SuperCronJob.php:37-159 | with the month `*`, a next run time found is strictly after the reference |
| Super.RestartNotEarlier | src/ride/library/cron/job/SuperCronJob.php:152-158 | with the month `*`, the day-of-week check returns the candidate or something later |
| Super.MonthWrap | src/ride/library/cron/job/SuperCronJob.php:130-148 | month 3 asked from 1970-06-15 10:00:00 gives 1970-03-01 00:00:00, before the reference |
| Super.IntendedMonthStage | src/ride/library/cron/job/SuperCronJob.php:130-148 | the corrected month step keeps every restricted field but day-of-week in its field and, unless the lookup wraps back, equals the source's step |
| Super.IntendedCandidate | src/ride/library/cron/job/SuperCronJob.php:50-150 | the candidate of the corrected search is valid with restricted second, minute and hour in their fields, and unless the month lookup wraps back (`MonthStageWrapsBack`) equals the source's |
| Super.IntendedNextRunTime | src/ride/library/cron/job/SuperCronJob.php:37-159 | the corrected search returns a valid instant whose restricted second, minute and hour are in their fields and whose weekday is listed, and with the day-of-week `*` it always returns one |
| Super.IntendedRestart | src/ride/library/cron/job/SuperCronJob.php:152-158 | the corrected day-of-week check returns a valid instant with second, minute, hour and weekday in their fields, and with the day-of-week `*` it returns the candidate itself |
| Super.IntendedMonthStageLater | src/ride/library/cron/job/SuperCronJob.php:130-148 | the corrected month step leaves the candidate strictly after the reference, for every month field |
| Super.IntendedCandidateLater | src/ride/library/cron/job/SuperCronJob.php:50-150 | the corrected candidate is strictly after the reference, for every schedule |
| Super.IntendedNextRunTimeLater | src/ride/library/cron/job/SuperCronJob.php:37-159 | the corrected search returns an instant strictly after the reference, for every schedule |
| Super.IntendedRestartNotEarlier | src/ride/library/cron/job/SuperCronJob.php:152-158 | the corrected day-of-week check returns the candidate or something later |
| Super.IntendedAgrees | src/ride/library/cron/job/SuperCronJob.php:37-159 | wherever no month lookup of the search, restarts included, wraps back (`NeverWrapsBack`), the corrected search returns exactly what the source's does |
| Super.IntendedRestartAgrees | src/ride/library/cron/job/SuperCronJob.php:152-158 | where no restarted lookup wraps back, the two day-of-week checks return the same |
| Super.WildcardNeverWrapsBack | src/ride/library/cron/job/SuperCronJob.php:37-159 | with the month `*` no month lookup of the search wraps back |
| Super.WildcardRestartNeverWrapsBack | src/ride/library/cron/job/SuperCronJob.php:152-158 | with the month `*` no restarted month lookup wraps back |
| Super.CarrySkip | src/ride/library/cron/job/SuperCronJob.php:73-108 | hours 2 and 3 asked from 1970-01-01 01:59:59 give 03:00:00: the carried hour 2 is passed over |
| Super.CarriedIntoJuly | src/ride/library/cron/job/SuperCronJob.php:130-148 | month 7 asked from 1970-06-30 23:59:59 gives 1970-07-01 00:00:00 |
| Super.IntendedCarriedIntoJuly | src/ride/library/cron/job/SuperCronJob.php:130-148 | the corrected search gives the same 1970-07-01 00:00:00 there |
| Super.IntendedMonthWrap | src/ride/library/cron/job/SuperCronJob.php:130-148 | the corrected search moves month 3 asked from 1970-06-15 10:00:00 on to 1971-03-01 00:00:00 |
| Super.Search | src/ride/library/cron/job/SuperCronJob.php:37-159 | the method's step-by-step search returns exactly NextRunTime |
| Super.RestartStep | src/ride/library/cron/job/SuperCronJob.php:152-158 | the day-of-week check and restart return exactly Restart |
| Super.CandidateStep | src/ride/library/cron/job/SuperCronJob.php:63-150 | the five steps and `mktime` compute exactly Candidate |
| Super.SecondStep | src/ride/library/cron/job/SuperCronJob.php:63-71 | the second step computes exactly SecondStage |
| Super.MinuteStep | src/ride/library/cron/job/SuperCronJob.php:73-89 | the minute step computes exactly MinuteStage |
| Super.HourStep | src/ride/library/cron/job/SuperCronJob.php:91-108 | the hour step computes exactly HourStage |
| Super.DayStep | src/ride/library/cron/job/SuperCronJob.php:110-128 | the day step computes exactly DayStage |
| Super.MonthStep | src/ride/library/cron/job/SuperCronJob.php:130-148 | the month step computes exactly MonthStage |
| Super.SuperCronJob.Create | src/ride/library/cron/job/SuperCronJob.php:27-30 | the second field comes first; construction fails on a bad callback or the first field error, else yields a fresh job with the parsed schedule and the six-field definition |
| Super.SuperCronJob.GetId | src/ride/library/cron/job/GenericCronJob.php:123-131 | the inherited id cache: a truthy cached id is returned unchanged, otherwise md5 of the rendering is cached |
| Super.SuperCronJob.GetNextRunTime | src/ride/library/cron/job/SuperCronJob.php:37-159 | the job's next run time is NextRunTime of its six-field schedule |
| Scheduler.NextRunStamp | src/ride/library/cron/job/GenericCronJob.php:257 | a job without a day-of-week restriction always has a next run time, as seconds since the epoch |
| Scheduler.GetId | src/ride/library/cron/Cron.php:90 | asking a job for its id returns the cached or freshly hashed id and leaves it cached |
| Scheduler.JobNextRunTime | src/ride/library/cron/Cron.php:216 | a job's next run time, dispatched on its kind |
| Scheduler.InsertSorted | src/ride/library/cron/Cron.php:218 | inserting into an ascending order keeps it ascending |
| Scheduler.SortByTime | src/ride/library/cron/Cron.php:200 | `asort` is a permutation of the entries |
| Scheduler.SortByTimeSorted | src/ride/library/cron/Cron.php:218 | `asort` leaves the entries ascending by run time |
| Scheduler.SortByTimeIds | src/ride/library/cron/Cron.php:200 | `asort` keeps exactly the same job ids |
| Scheduler.DueCount | src/ride/library/cron/Cron.php:158-165 | the walk runs a prefix of the order whose run times are at most the pass time and stops at the first later one |
| Scheduler.DueExactly | src/ride/library/cron/Cron.php:158-168 | over an ascending order the executed prefix is exactly the entries due at the pass time |
| Scheduler.Reschedule | src/ride/library/cron/Cron.php:186 | the executed entries get their recomputed run times and the rest are unchanged |
| Scheduler.RescheduleIds | src/ride/library/cron/Cron.php:186 | recomputing run times keeps the job ids in place |
| Scheduler.SortedPassDispatches | src/ride/library/cron/Cron.php:149-204 | over a sorted order, a pass runs exactly the due jobs, sleeps until the earliest run time exactly when none was due, and leaves the same jobs sorted |
| Scheduler.ChainedAll | src/ride/library/cron/Cron.php:149-204 | every pass is dispatched over the registered jobs, the first starts from the initial order, and each later one starts from the order its predecessor left |
| Scheduler.Cron.constructor | src/ride/library/cron/Cron.php:45-48 | a new scheduler has no jobs |
| Scheduler.Cron.GetNextRunTime | src/ride/library/cron/Cron.php:216 | the scheduler's view of a job's next run time |
| Scheduler.Cron.RegisterCronJob | src/ride/library/cron/Cron.php:89-99 | an id already in use fails and leaves the map unchanged; otherwise the job is stored under its id and the id is returned; either way the job keeps its id cached |
| Scheduler.Cron.RegisterJob | src/ride/library/cron/Cron.php:76-80 | builds a GenericCronJob from the arguments, failing as its constructor does, then registers it under md5 of its rendering |
| Scheduler.Cron.RemoveJob | src/ride/library/cron/Cron.php:107-115 | an absent id returns false and changes nothing; otherwise exactly that entry is removed and true is returned |
| Scheduler.Cron.NextRunTimes | src/ride/library/cron/Cron.php:215-217 | one entry per registered job, in registration order, holding the job's next run time from the given time |
| Scheduler.Cron.GetRunOrder | src/ride/library/cron/Cron.php:212-221 | exactly one entry per registered job with its next run time, ascending by run time |
| Scheduler.Cron.WalkOrder | src/ride/library/cron/Cron.php:158-191 | the walk executes exactly the due prefix; the k-th executed job gets its next run time from clock reading first + k, and a failed search is reported exactly when one of these fails; the sleep time is set only when nothing ran |
| Scheduler.Cron.RunPass | src/ride/library/cron/Cron.php:154-201 | one pass takes its time from one clock reading, runs the due prefix, gives each executed job its run time from the next readings in order, and either sleeps until the first later job or re-sorts the rescheduled order |
| Scheduler.Cron.RunPasses | src/ride/library/cron/Cron.php:148-204 | the do-while loop runs exactly the requested number of chained passes, or stops early only when the next pass has a due job whose run time search fails; each pass reads the clock right after the readings of the passes before it, and each leaves its order as the sorted, rescheduled one (or unchanged when it slept) |
| Scheduler.Cron.RunFrom | src/ride/library/cron/Cron.php:148-205 | from a run order holding every registered job once, runs the passes as RunPasses does; an incomplete run names the pass and the due job whose search failed |
| Scheduler.Cron.Run | src/ride/library/cron/Cron.php:124-205 | with no jobs nothing runs; otherwise the first pass walks the run order taken at the first clock reading, `loop` passes run (or the lifetime bound when loop is 0), and each pass is dispatched over all registered jobs and starts from the previous pass's order; pass p's time is clock reading 1 + (the readings of the passes before it), its executed jobs' new run times come from the readings after that, in order, and it leaves the sorted, rescheduled order unless it slept; `completed` is false only when fewer passes ran because some job's search failed, either in building the first run order or for a job due in the pass after the last |
| GenericVectors.Line65 | test/src/ride/library/cron/job/GenericCronJobTest.php:65 | from 1970-01-01 01:00 the test row's schedule gives 1970-01-01 01:01 |
| GenericVectors.Line66 | test/src/ride/library/cron/job/GenericCronJobTest.php:66 | from 1970-01-01 01:00 the test row's schedule gives 1970-01-01 01:01 |
| GenericVectors.Line67 | test/src/ride/library/cron/job/GenericCronJobTest.php:67 | from 1970-01-01 01:15 the test row's schedule gives 1970-01-01 02:01 |
| GenericVectors.Line68 | test/src/ride/library/cron/job/GenericCronJobTest.php:68 | from 1970-01-01 01:00 the test row's schedule gives 1970-01-01 01:30 |
| GenericVectors.Line69 | test/src/ride/library/cron/job/GenericCronJobTest.php:69 | from 1970-01-01 01:45 the test row's schedule gives 1970-01-01 02:30 |
| GenericVectors.Line70 | test/src/ride/library/cron/job/GenericCronJobTest.php:70 | from 1970-01-01 01:05 the test row's schedule gives 1970-01-01 01:06 |
| GenericVectors.Line71 | test/src/ride/library/cron/job/GenericCronJobTest.php:71 | from 1970-01-01 01:00 the test row's schedule gives 1970-01-01 02:00 |
| GenericVectors.Line72 | test/src/ride/library/cron/job/GenericCronJobTest.php:72 | from 1970-01-01 01:05 the test row's schedule gives 1970-01-01 02:00 |
| GenericVectors.Line73 | test/src/ride/library/cron/job/GenericCronJobTest.php:73 | from 1970-01-01 02:59 the test row's schedule gives 1970-01-02 02:00 |
| GenericVectors.Line74 | test/src/ride/library/cron/job/GenericCronJobTest.php:74 | from 1970-01-01 01:00 the test row's schedule gives 1970-01-01 02:30 |
| GenericVectors.Line75 | test/src/ride/library/cron/job/GenericCronJobTest.php:75 | from 1970-01-01 03:00 the test row's schedule gives 1970-01-02 02:30 |
| GenericVectors.Line76 | test/src/ride/library/cron/job/GenericCronJobTest.php:76 | from 1970-01-01 01:00 the test row's schedule gives 1970-01-01 01:01 |
| GenericVectors.Line77 | test/src/ride/library/cron/job/GenericCronJobTest.php:77 | from 1970-01-01 01:00 the test row's schedule gives 1970-02-01 01:00 |
| GenericVectors.Line78 | test/src/ride/library/cron/job/GenericCronJobTest.php:78 | from 1970-01-01 01:00 the test row's schedule gives 1970-01-03 00:30 |
| GenericVectors.Line79 | test/src/ride/library/cron/job/GenericCronJobTest.php:79 | from 1970-01-01 01:00 the test row's schedule gives 1970-01-03 03:30 |
| GenericVectors.Line80 | test/src/ride/library/cron/job/GenericCronJobTest.php:80 | from 1970-01-01 01:00 the test row's schedule gives 1970-01-03 03:00 |
| GenericVectors.Line81 | test/src/ride/library/cron/job/GenericCronJobTest.php:81 | from 1970-01-01 01:00 the test row's schedule gives 1970-03-01 00:00 |
| GenericVectors.Line82 | test/src/ride/library/cron/job/GenericCronJobTest.php:82 | from 1970-03-15 07:00 the test row's schedule gives 1970-03-15 18:15 |
| GenericVectors.Line83 | test/src/ride/library/cron/job/GenericCronJobTest.php:83 | from 1970-03-15 18:15 the test row's schedule gives 1970-03-15 18:45 |
| GenericVectors.Line84 | test/src/ride/library/cron/job/GenericCronJobTest.php:84 | from 1970-03-15 18:45 the test row's schedule gives 1970-06-01 06:15 |
| GenericVectors.Line88 | test/src/ride/library/cron/job/GenericCronJobTest.php:88 | from 1970-02-28 01:00 the test row's schedule gives 1970-03-01 00:00 |
| GenericVectors.Line89 | test/src/ride/library/cron/job/GenericCronJobTest.php:89 | from 1970-12-31 23:00 the test row's schedule gives 1971-01-01 00:00 |
| GenericVectors.Line90 | test/src/ride/library/cron/job/GenericCronJobTest.php:90 | from 2009-10-12 12:55:05 the test row's schedule gives 2009-10-12 13:55 |
| GenericVectors.Line92 | test/src/ride/library/cron/job/GenericCronJobTest.php:92-93 | the texts `*/5` and `/5` with hour `3` parse to the same schedule, every fifth minute of hour 3, which from 2009-10-12 03:32:55 gives 2009-10-12 03:35 |
| GenericVectors.Line94 | test/src/ride/library/cron/job/GenericCronJobTest.php:94 | the text `40/5` with hour `3` parses to minutes 40, 45, 50, 55 of hour 3, which from 2009-10-12 03:32:55 gives 2009-10-12 03:40 |
| GenericVectors.Line95 | test/src/ride/library/cron/job/GenericCronJobTest.php:95 | the text `10/20` with hour `3` parses to minutes 10, 30, 50 of hour 3, which from 2009-10-12 03:32:55 gives 2009-10-12 03:50 |
| GenericVectors.ParseHourThree | test/src/ride/library/cron/job/GenericCronJobTest.php:92 | the hour text `3` is the single hour 3 |
| GenericVectors.ParseEveryFifthMinute | test/src/ride/library/cron/job/GenericCronJobTest.php:92-93 | `*/5` and `/5` are both every fifth minute from 0 |
| GenericVectors.ParseFortyEveryFifth | test/src/ride/library/cron/job/GenericCronJobTest.php:94 | `40/5` is minutes 40, 45, 50, 55 |
| GenericVectors.ParseTenEveryTwentieth | test/src/ride/library/cron/job/GenericCronJobTest.php:95 | `10/20` is minutes 10, 30, 50 |
| GenericVectors.DayOverflow | src/ride/library/cron/job/GenericCronJob.php:219-257 | with day 31 only, from 1970-04-15 01:00 the search settles on 31 April, which `mktime` turns into 1970-05-01 00:00, a day the field does not list |
| GenericVectors.MonthWrap | src/ride/library/cron/job/GenericCronJob.php:238-257 | month 3 asked from 1970-06-15 10:00 gives 1970-03-01 00:00, before the reference |
| GenericVectors.NewYearWrap | src/ride/library/cron/job/GenericCronJob.php:238-257 | `0 0 1 1 *` asked from 1970-06-15 10:00 gives 1970-01-01 00:00, so the job is due at every pass |
| GenericVectors.IntendedWraps | src/ride/library/cron/job/GenericCronJob.php:238-257 | the corrected search gives 1971-03-01 00:00 and 1971-01-01 00:00 for those two schedules |
| GenericVectors.CarrySkip | src/ride/library/cron/job/GenericCronJob.php:191-217 | hours 2 and 3 asked from 1970-01-01 01:59 give 03:00: the carried hour 2 is passed over |
| GenericVectors.CarriedIntoJuly | src/ride/library/cron/job/GenericCronJob.php:238-257 | month 7 asked from 1970-06-30 23:59 gives 1970-07-01 00:00 |
| GenericVectors.CarriedIntoJanuary | src/ride/library/cron/job/GenericCronJob.php:238-257 | month 1 asked from 1970-12-31 23:59 gives 1971-01-01 00:00 |
| GenericVectors.IntendedCarriedIntoListedMonth | src/ride/library/cron/job/GenericCronJob.php:238-257 | the corrected search gives the same 1970-07-01 00:00 and 1971-01-01 00:00 there |
| GenericVectors.Line85Skip0 | test/src/ride/library/cron/job/GenericCronJobTest.php:85 | the search from 1970-01-01 01:00 finds a candidate on an excluded weekday and restarts from 1970-01-01 23:59:59 |
| GenericVectors.Line85Skip1 | test/src/ride/library/cron/job/GenericCronJobTest.php:85 | the search from 1970-01-01 23:59:59 finds a candidate on an excluded weekday and restarts from 1970-01-02 23:59:59 |
| GenericVectors.Line85Skip2 | test/src/ride/library/cron/job/GenericCronJobTest.php:85 | the search from 1970-01-02 23:59:59 finds a candidate on an excluded weekday and restarts from 1970-01-03 23:59:59 |
| GenericVectors.Line85Skip3 | test/src/ride/library/cron/job/GenericCronJobTest.php:85 | the search from 1970-01-03 23:59:59 finds a candidate on an excluded weekday and restarts from 1970-01-04 23:59:59 |
| GenericVectors.Line85Take | test/src/ride/library/cron/job/GenericCronJobTest.php:85 | the search from 1970-01-04 23:59:59 settles on 1970-01-05 01:00, on an allowed weekday |
| GenericVectors.Line85 | test/src/ride/library/cron/job/GenericCronJobTest.php:85 | from 1970-01-01 01:00 the test row's schedule gives 1970-01-05 01:00 |
| GenericVectors.Line86Skip0 | test/src/ride/library/cron/job/GenericCronJobTest.php:86 | the search from 1970-01-01 01:00 finds a candidate on an excluded weekday and restarts from 1970-01-01 23:59:59 |
| GenericVectors.Line86Take | test/src/ride/library/cron/job/GenericCronJobTest.php:86 | the search from 1970-01-01 23:59:59 settles on 1970-01-02 01:00, on an allowed weekday |
| GenericVectors.Line86 | test/src/ride/library/cron/job/GenericCronJobTest.php:86 | from 1970-01-01 01:00 the test row's schedule gives 1970-01-02 01:00 |
| GenericVectors.Line87Skip0 | test/src/ride/library/cron/job/GenericCronJobTest.php:87 | the search from 1970-01-01 01:00 finds a candidate on an excluded weekday and restarts from 1970-01-02 23:59:59 |
| GenericVectors.Line87Take | test/src/ride/library/cron/job/GenericCronJobTest.php:87 | the search from 1970-01-02 23:59:59 settles on 1970-01-03 00:00, on an allowed weekday |
| GenericVectors.Line87 | test/src/ride/library/cron/job/GenericCronJobTest.php:87 | from 1970-01-01 01:00 the test row's schedule gives 1970-01-03 00:00 |
| GenericVectors.Line91Skip0 | test/src/ride/library/cron/job/GenericCronJobTest.php:91 | the search from 2009-10-12 03:32:55 finds a candidate on an excluded weekday and restarts from 2009-10-13 23:59:59 |
| GenericVectors.Line91Skip1 | test/src/ride/library/cron/job/GenericCronJobTest.php:91 | the search from 2009-10-13 23:59:59 finds a candidate on an excluded weekday and restarts from 2009-10-14 23:59:59 |
| GenericVectors.Line91Skip2 | test/src/ride/library/cron/job/GenericCronJobTest.php:91 | the search from 2009-10-14 23:59:59 finds a candidate on an excluded weekday and restarts from 2009-10-15 23:59:59 |
| GenericVectors.Line91Skip3 | test/src/ride/library/cron/job/GenericCronJobTest.php:91 | the search from 2009-10-15 23:59:59 finds a candidate on an excluded weekday and restarts from 2009-10-16 23:59:59 |
| GenericVectors.Line91Skip4 | test/src/ride/library/cron/job/GenericCronJobTest.php:91 | the search from 2009-10-16 23:59:59 finds a candidate on an excluded weekday and restarts from 2009-10-17 23:59:59 |
| GenericVectors.Line91Skip5 | test/src/ride/library/cron/job/GenericCronJobTest.php:91 | the search from 2009-10-17 23:59:59 finds a candidate on an excluded weekday and restarts from 2009-10-18 23:59:59 |
| GenericVectors.Line91Take | test/src/ride/library/cron/job/GenericCronJobTest.php:91 | the search from 2009-10-18 23:59:59 settles on 2009-10-19 03:30, on an allowed weekday |
| GenericVectors.Line91 | test/src/ride/library/cron/job/GenericCronJobTest.php:91 | from 2009-10-12 03:32:55 the test row's schedule gives 2009-10-19 03:30 |

## Left out

- Generic.NextRunTime: the day-of-week restart recursion is bounded by a fuel of MaxRestarts (3000) restarts. None means the source would recurse further: forever when no allowed weekday can be reached, for example after the month wrap described above.
- Super.NextRunTime: bounded in the same way.
- Generic.NextRunTime: a next run time strictly after the reference is promised only for the month `*` (Generic.NextRunTimeLater). A month list that wraps keeps the year and can give an earlier instant; see "## Findings".
- Super.NextRunTime: the same; strictly later only for the month `*` (Super.NextRunTimeLater).
- Generic.NextRunTime: the earliest matching instant after the reference is not promised, because the source does not find it: a carried field is not looked up again (GenericVectors.CarrySkip), a day beyond the month's length overflows (GenericVectors.DayOverflow), and a month wrap keeps the year (GenericVectors.MonthWrap).
- Super.NextRunTime: the earliest matching instant is not promised either (Super.CarrySkip, Super.MonthWrap).
- Generic.IntendedNextRunTime: corrects only the month wrap back; it keeps the carry skip and the day overflow, so it does not promise the earliest matching instant either.
- Super.IntendedNextRunTime: the same; it keeps the carry skip.
- Scheduler.Cron.Run: `loop` is a nat, so a negative `$loop` is not modelled; the source's do-while runs exactly one pass for it, since its test `$index <= $loop` fails after the first.
- Time zones and daylight saving time are not modelled. `date()`, `mktime()` and `time()` work on a plain Gregorian calendar whose seconds count from 1970-01-01 00:00:00.
- `mktime` normalisation is modelled only for a day beyond its month's length, which moves into the next month. The evaluator cannot build any other out-of-range argument.
- `is_numeric` is modelled as an optional sign followed by decimal digits. Floats, exponents and surrounding whitespace are not accepted.
- PHP's loose `==` between numbers and `*` is not modelled. Fields are the wildcard or an integer list.
- A step on which the source's loops never end is modelled as the NonTerminating error: a negative step, and a truthy zero step such as `00`, `-0` or `+0`. A step written `0` is falsy and behaves as in the source.
- `md5` is a parameter of the members that compute ids.
- A callback is a datatype (function name, `Class::method`, object with method, empty array, other value). `get_class` of an object callback is an opaque class-name string.
- `Invoker::invoke` is left out, as are the exceptions it may throw and catch. The pass continues either way, so the model records only which jobs were executed.
- Logging, `setLog`, `getJobs` and the `$runTime` map of last run times are left out: none of them affects the schedule.
- `sleep()` is left out; the pass records the number of seconds it would sleep.
- Each call to `time()` is modelled as the next reading of a clock function passed to Run. Its readings are `Instant`s, calendar instants that are always valid.
- Scheduler.Cron.Run: `run(0)` runs forever in the source. The model runs a given lifetime bound of passes instead.
- Scheduler.Cron.Run: a job whose next run time the bounded search cannot find ends the run early, with `completed` false.
- Scheduler.Cron.RunPass: the scheduler and the job classes keep the search as the source writes it, not the corrected one of "## Findings".
- Scheduler.Cron.RunPass: the scheduler reaches each job's `getNextRunTime` through the `nextRunTime` function it keeps. The class invariant Valid, which RunPass, WalkOrder, RunPasses and Run all require, makes that function equal to NextRunStamp on every well-formed timing and valid instant. The in-place update of `$runOrder` during `foreach` is applied after the walk; this is the same because `foreach` walks a copy.
- `asort` is modelled as a stable insertion sort. The model's order among equal run times is that sort's; it is not claimed to be the order PHP's `asort` gives to ties.
- `SuperCronJob` inherits from `GenericCronJob`. The model repeats the inherited id cache and the text rendering in its own class instead of using inheritance.
- `getNextRunTime(null)` reads `time()`. Both job classes take the time as an argument, and the scheduler passes a clock reading.
- The `$changed` flag of `getNextRunTime` is never read, so it is not modelled.
- The restart test vectors (test lines 85, 86, 87 and 91) are proved one restart per lemma and then whole, in `GenericVectors.Line85`, `Line86`, `Line87` and `Line91`.
- `CronJob.php` is an interface with no behaviour; it is not part of this model.

## Findings

| source | as written | input that shows it | evidently intended | confidence | as-written member | corrected member |
|---|---|---|---|---|---|---|
| src/ride/library/cron/job/GenericCronJob.php:238-249 | when the month list wraps round to its first value, `$newYear` is left as it is | month `3`, every other field `*`, from 1970-06-15 10:00 gives 1970-03-01 00:00; `0 0 1 1 *` gives 1970-01-01 00:00 | the year moves on exactly when the wrapped month would go back before the reference, so the next run is strictly after it | not executed | GenericVectors.MonthWrap | Generic.IntendedNextRunTimeLater |
| src/ride/library/cron/job/SuperCronJob.php:130-141 | the same month wrap without a year carry | month `3`, every other field `*`, from 1970-06-15 10:00:00 gives 1970-03-01 00:00:00 | the year moves on exactly when the wrapped month would go back before the reference | not executed | Super.MonthWrap | Super.IntendedNextRunTimeLater |

The corrected searches (`Generic.IntendedNextRunTime`, `Super.IntendedNextRunTime`) move the year on only when the month lookup wraps back, that is, when the listed month it returns comes before the candidate's, or is the candidate's own while the candidate is still in the reference's month. There the source's answer is not after the reference (`Generic.MonthWrapsBackGoesBack`). A day carry that already reached a listed month, or the next year, is kept (`GenericVectors.IntendedCarriedIntoListedMonth`, `Super.IntendedCarriedIntoJuly`). Wherever no lookup wraps back (`NeverWrapsBack`, which holds for the month `*`), they return exactly the source's answer (`Generic.IntendedAgrees`, `Super.IntendedAgrees`). The job classes and the scheduler keep the search as written.
