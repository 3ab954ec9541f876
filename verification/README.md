# A verified model of gua's scheduler

gua is a distributed, crontab-style job scheduler. Clients push jobs with an interval pattern; when a
job fires, a worker delivers a trigger to the job's target and schedules the next firing. This project
models, in Dafny 4.11, the two parts of it that are hard to get right, and proves properties of them:

* **the cron engine**: the field-skipping search for the next activation (`CronSearch.dfy`, with its
  laws in `CronLaws.dfy`, over the civil calendar of `Calendar.dfy`), and the pattern parser
  (`CronParser.dfy`, `CronParserLaws.dfy`, over `Text.dfy` and the 64-bit masks of `Masks.dfy`);
  `CronTexts.dfy` gives the grammar of what the parser accepts, `CronPatterns.dfy` goes from a whole pattern
  text to the times at which it fires, `CronNames.dfy` says which number each name stands for,
  `CronExamples.dfy` when some patterns fire, `CronFeasible.dfy` which schedules can fire at all, and
  `Schedules.dfy` which plan time a worker computes;
* **the job/occurrence protocol**: the tables, the admin transactions and the worker, as one state
  machine (`QueueModel.dfy`), as an object whose methods update the tables in place (`Queue.dfy`), what a
  worker does to them (`QueueSteps.dfy`), and the properties of every run (`QueueInvariant.dfy`, `QueueAlive.dfy`, `QueueForks.dfy`,
  `QueueDeliveries.dfy`, `QueuePlans.dfy`, `QueueChains.dfy`, `QueueIsolation.dfy`,
  `QueueSeparation.dfy`), with runs from the empty queue on which a property fails where its hypotheses do
  (`QueueRuns.dfy`, `QueueRepeats.dfy`);
* and two smaller ones: the gRPC connection pool (`ConnPool.dfy`) and the delivery targets
  (`Requests.dfy`).

`dafny verify dfyconfig.toml` checks everything.

## How the model is built

* `Calendar.Time` is a UTC civil record with nanoseconds, on the proleptic Gregorian calendar.
  `Calendar.Unix` counts absolute seconds, and the civil steps of the search are proved to be the
  absolute ones (`AddDayUnix`, `AddHourUnix`, `AddMinuteUnix`, `AddSecondUnix`).
* The parser works on 64-bit words (`bv64`). A parsed schedule holds, for each field, the set of the bits
  that are 1; `Masks.BitsMeaning` says that membership in that set is the source's bit test.
* In the protocol each SQL transaction and each lone SQL statement is one step. A worker's run of `Work`
  is cut into fetch, load, deliver, the pause after the last failed attempt, the final statement or
  `scheduleNext`, and River's recording of the result; it keeps a stale copy of the definition from the
  load on. `Run` applies any sequence of events, and an event that is not enabled changes nothing, so a
  theorem about `Run` is about every interleaving.
* Transactions are serial and there is one clock, in seconds since 1970. `time.ParseDuration`, the
  consumer's answer and every storage error are inputs.
* River is a small environment: it hands out an occurrence that is pending and whose plan time has come,
  counts the attempt, makes a failed one pending again or discards it at `MaxAttempts`, and rescues a
  running one without a worker. A retry may start at any time, which covers every backoff.

## What the proofs found

* The search gives up at the end of the fifth year, so `0 0 29 2 *` has no next activation from the leap day
  of 2096 until the last second of 2098, although 29 February 2104 matches (`LeapDayMissed`; `LeapDayFound`
  gives the exact condition for every start).
* Before year 1 the zero result can be a real activation (`ZeroResultAmbiguous`); from then on it always
  means that nothing was found (`ZeroResultMeaning`).
* The worker does not test for the zero time: when the search finds nothing the next occurrence is
  planned in year 1 and is due at once (`PlanGrowsAlongChain`). A pattern finds nothing at every time exactly
  when one of its fields is empty or no month has a day that can match (`FindsNothingIffInfeasible`), as
  `0 0 30 2 *` does (`NeverFires`), and a job with such a pattern is delivered any number of times within one
  second (`ZeroTimeSpins`).
* A field made of commas only, and no other, is accepted and matches nothing (`CommasMatchNothing`), and what
  follows `*-` is not read (`StarTailUnread`). `docs/apiv1.md` does not mention either; the model follows
  the code.
* An active job is left without an occurrence by a storage error or a crash on the last attempt, and by a
  storage error while its definition is dropped or paused: `AliveIffUnbroken` states exactly when, and
  `StorageErrorsKillJob`, `CrashKillsJob`, `UnstoredPauseKillsJob` and `UnstoredDropKillsJob` give runs for
  every attempt bound.
* `docs/ARCHITECTURE.md` says that `Active` never adds a second occurrence. It never adds a second
  *pending* one (`ActivationReplaces`), but next to a running one it does: exactly then the job has more than
  one live occurrence (`ActivationForks`, reached by `ForkIsReachable`).
* Cancelling is by job id alone, and a stale worker writes by job id alone. Where an id is reused in
  another group while an old occurrence is live, an operation on one group removes the other group's
  pending occurrence (`OtherOccurrences` says exactly when, `CancelReachesOtherGroup` gives a run) and the
  displayed next fire time may be false (`AliveIffUnbroken` says exactly when, `DisplayCanBeFalse` gives a
  run).
* `docs/apiv1.md` offers (job_id, plan_time) as a key of a firing. It is one exactly as long as no step
  delivers an occurrence whose plan time is already logged for the job under another key
  (`IdentifyIffNoRepeat`); an activation or a push that is served at once keeps it one exactly when no logged
  delivery of the job has that plan time (`ServedActivation`, `ServedPush`). It fails after an activation at an
  exectime that has fired (`PlanTimeCanRepeat`), after an activation while the first delivery is on its way
  (`ForkRepeatsPlan`), and after two empty searches (`EmptySearchRepeats`). A job whose steps all extend one
  chain of growing plan times never meets this, and `ChainIffExtends` says exactly which steps do.

## Model

| member | source | states |
|---|---|---|
| CronSearch.Next | delayquene/spec.go:61-151 | The five loops, the `added` flag and goto WRAP terminate for every schedule and start, and return what stepping one second at a time finds first |
| CronSearch.NextTimeOfDay | delayquene/spec.go:114-148 | The hour, minute and second loops keep the search on its goal, and when they wrap they leave a strictly later time on which every unmatched field has smaller fields at their minimum |
| CronSearch.ScanIsFirst | delayquene/spec.go:59-60 | The one-second scan returns the earliest matching second of its window, and nothing only if the window has none |
| CronSearch.SkipMonth | delayquene/spec.go:84-99 | Jumping from a month that does not match to the first instant of the next skips no activation and comes strictly closer to the end of the window |
| CronSearch.SkipDay | delayquene/spec.go:101-112 | The same for a day that does not match |
| CronSearch.SkipHour | delayquene/spec.go:114-124 | The same for an hour |
| CronSearch.SkipMinute | delayquene/spec.go:126-136 | The same for a minute |
| CronSearch.MonthStep | delayquene/spec.go:86-94 | One pass of the month loop, truncating or not, keeps the goal and the reset invariant: with `added` set the day is 1, so adding a month cannot run over |
| CronSearch.HourStep | delayquene/spec.go:114-119 | One pass of the hour loop keeps them too, including across midnight |
| CronLaws.FirstFireMeaning | delayquene/spec.go:59-82 | The search finds r if and only if r is a whole second strictly after the start, matches, has no match in between and lies within year Y+5; it finds nothing if and only if no second up to the end of Y+5 matches |
| CronLaws.ZeroResultMeaning | delayquene/spec.go:59-82 | The zero time is returned exactly when nothing matches in the window or the zero time is itself the first match; from year 1 on only the former |
| CronLaws.ZeroResultAmbiguous | delayquene/spec.go:80-82 | A start in year 0 for which the zero result is a real activation |
| CronLaws.SameFireUntilIt | delayquene/spec.go:59-151 | Every start between t and its next activation has that same next activation |
| CronLaws.NextIsMonotone | delayquene/spec.go:59-151 | A later start never has an earlier next activation |
| CronLaws.IteratingNextEnumerates | delayquene/spec.go:5-9 | Iterating Next lists exactly the matching seconds in increasing order, none skipped or repeated, and ends early only before an empty window |
| CronLaws.LeapDayFound | delayquene/spec.go:76-82 | For 29 February, nothing is found exactly when no leap day after the start lies within the window |
| CronLaws.LeapDayMissed | delayquene/spec.go:76-82 | Between the leap days of 2096 and 2104 nothing is found exactly for the starts before the last second of 2098, although the latter matches |
| CronExamples.LeapDayReads | delayquene/parser.go:178-190 | `0 0 29 2 *` parses to that schedule |
| CronExamples.EveryFiveMinutesFires | delayquene/parser.go:167-190 | `*/5 * * * *` fires exactly at the second 0 of the minutes that 5 divides |
| CronExamples.EveryFiveSecondsFires | delayquene/parser.go:167-190 | `*/5 * * * * *` fires exactly at the seconds that 5 divides |
| CronExamples.FridaysTooFires | delayquene/spec.go:153-164 | `30 4 1,15 * 5` fires exactly at half past four on the first, the fifteenth and every Friday |
| CronExamples.NeverFires | delayquene/spec.go:76-82 | `0 0 30 2 *` is accepted, and from every start nothing is found |
| CronFeasible.NeverFiresIffInfeasible | delayquene/spec.go:59-164 | A schedule finds nothing from every start exactly when a time field holds no value or no month of the month field has a day that the two day fields allow together in some year |
| CronFeasible.DateOnWeekday | delayquene/spec.go:155-164 | Every date, 29 February included, falls on every weekday in some year, so a starred day field excludes no date for ever |
| Calendar.BeforeIffUnix | delayquene/spec.go:91-131 | The field-by-field order of civil times is the order of absolute seconds |
| Calendar.WeekdayAdvances | delayquene/spec.go:158 | The weekday advances by one modulo 7 with each civil day, across months, years and leap days |
| Calendar.WeekdayOfUnix | delayquene/spec.go:158 | The weekday of every time from its seconds since 1970, 1 January 1970 being a Thursday |
| Calendar.AddMonthUnix | delayquene/spec.go:94 | Adding a month is adding as many days as the month has, also from a day that the next month does not have |
| Masks.BitsMeaning | delayquene/spec.go:86 | A number is in the set of a mask exactly when the source's shift-and-test finds its bit |
| Masks.ShiftForm | delayquene/parser.go:305-308 | The shift form sets exactly the bits of the range |
| Masks.GetBits | delayquene/parser.go:301-315 | Both forms set exactly the progression from min to max by step, and the loop counter never reaches 2^64 |
| CronParser.GetRange | delayquene/parser.go:208-276 | An item yields the bits of its progression and star, or the error of its first fault, in the source's order |
| CronParser.GetField | delayquene/parser.go:192-206 | A field yields the union of its items' bits, or the first item's error |
| CronParser.ExpandFields | delayquene/parser.go:140-155 | The given fields land in the enabled places in order, every other place holds its default, and no index is out of range |
| CronParser.AcceptedCountsFit | delayquene/parser.go:85-103 | For every option set, each accepted field count meets what expandFields needs |
| CronParserLaws.DateExpands | delayquene/parser.go:52-63 | A parser of the date alone runs at midnight |
| CronParserLaws.ShortDateExpands | delayquene/parser.go:60-63 | With an optional day of the week, two fields leave it a star |
| CronParserLaws.TimeExpands | delayquene/parser.go:16-39 | A parser of the time alone runs every day |
| CronParser.ParserParse | delayquene/parser.go:74-138 | The parser's result for every option set and text: the schedule of the six expanded fields, or the first error |
| CronParserLaws.ItemMeaning | delayquene/parser.go:208-276 | An accepted item lies inside the bounds, is not empty, and sets bit k exactly when k is in its progression, or k is 63 and it starts with a star or question mark |
| CronParserLaws.FieldMeaning | delayquene/parser.go:192-206 | A field is accepted exactly when all items are; bit k is set exactly when some item has it; outside the bounds only bit 63; empty exactly when there is no item |
| CronParserLaws.CommasMatchNothing | delayquene/parser.go:192-206 | A field is accepted with no bit exactly when it is made of commas |
| CronParserLaws.StarTailUnread | delayquene/parser.go:223-226 | What stands between `*-` or `?-` and the end or slash of an item has no effect, whatever follows the slash |
| CronParserLaws.NumbersRead | delayquene/parser.go:289-299 | Digits, with a plus sign or without, are their value up to 2^63-1; a minus sign is refused except before 0; no other text is a number |
| CronParserLaws.ExtraSignsRefused | delayquene/parser.go:236-258 | A second hyphen after a number, and a second slash, are refused with their own errors |
| CronTexts.WrittenReads | delayquene/parser.go:208-298 | Printing any item (star or question mark with any tail, numbers with zeros and plus sign, names in any case, ranges, with or without a step) and reading it back gives the range it denotes, with "N/S" running to the maximum, exactly when it lies in the bounds and its step is not 0, and otherwise the error of the first fault |
| CronTexts.AcceptedIsWritten | delayquene/parser.go:208-298 | The grammar is exact: a text is accepted as an item if and only if it is the print of one whose range lies in the bounds |
| CronTexts.WrittenFieldReads | delayquene/parser.go:192-206 | A comma list is accepted exactly when every item denotes a range in bounds, and has then exactly their bits |
| CronNames.MonthField | delayquene/spec.go:29-42 | Each month's name, in any spelling of upper and lower case, is as a field the same as its number, January being 1 |
| CronNames.WeekdayField | delayquene/spec.go:43-51 | The same for each weekday, Sunday being 0 |
| CronNames.MonthDenotes | delayquene/spec.go:29-42 | The same inside ranges and lists |
| CronNames.WeekdayDenotes | delayquene/spec.go:43-51 | The same for weekdays |
| CronNames.MonthNameInPattern | delayquene/parser.go:167-190 | In a whole pattern of five or six fields the name of a month may stand for its number |
| CronNames.WeekdayNameInPattern | delayquene/parser.go:167-190 | The same for weekdays |
| CronNames.FieldLimits | delayquene/spec.go:24-51 | The numbers that each of the six fields accepts |
| CronPatterns.WrittenPatternReads | delayquene/parser.go:74-138 | The text of five or six written fields is accepted exactly when every item is in the bounds of its field, and gives the schedule they denote |
| CronPatterns.WrittenPatternFires | delayquene/parser.go:74-190 | From text to firings: the search finds for it the first second after the start that lies in the ranges written, with both day fields required if one has a star and one sufficient otherwise, and nothing only if there is none in the window |
| CronPatterns.AcceptedTextIsWritten | delayquene/parser.go:167-206 | The grammar is exact for whole texts: one that is no descriptor is accepted if and only if its five or six fields have, up to white space and empty items, the items of a written pattern inside the bounds |
| CronPatterns.AcceptedTextFires | delayquene/parser.go:167-206 | Every accepted text that is no descriptor fires first where the pattern it has the items of says |
| CronParserLaws.LayoutsAgree | delayquene/parser.go:167-190 | For every text of five fields, the text and the text with a leading "0 " give the same schedule or are both refused |
| Schedules.EveryIsProper | delayquene/parser.go:392-402 | A delay becomes whole seconds, at least one, never more than asked above one second |
| Schedules.ParsedIsProper | delayquene/parser.go:178-190 | Every accepted text gives a schedule with a usable Next |
| Schedules.ConstantDelayAdvances | delayquene/parser.go:404-408 | The next activation is a whole second, exactly the delay after the second the start lies in, and strictly later |
| Schedules.PlanIsFirst | delayquene/riverquene.go:280-288 | The plan time a worker computes is that of the pattern's first activation after now, if one lies in the search window, and else the zero time; for a delay it is now and the delay; it exists exactly when the pattern parses |
| Schedules.TextPlansFirst | delayquene/riverquene.go:280-288 | From the text: it is the first second after now that lies in the ranges written |
| Schedules.PlanIsLater | delayquene/riverquene.go:280-288 | The plan time a worker computes lies after now exactly when the search finds one, else it is the Unix time of the zero time |
| Schedules.NothingEverAhead | delayquene/riverquene.go:280-288 | The search of a pattern finds nothing at every second exactly when its fields allow no date or no time of day |
| Schedules.DescriptorsFire | delayquene/parser.go:322-374 | When each fixed descriptor fires: on the hour, at midnight, on Sundays, on the first of the month, on 1 January |
| Schedules.DescriptorsAccepted | delayquene/parser.go:322-387 | The accepted descriptors are exactly seven names, and `@every` before a duration without white space |
| Schedules.SpacedDescriptor | delayquene/parser.go:178-181 | White space around a descriptor does not matter |
| Schedules.EveryFires | delayquene/parser.go:376-408 | From the text `@every d`, with white space around it, to its firings: refused when d has white space or is no duration, and otherwise d rounded down to whole seconds, at least one, after the second the start lies in |
| Requests.BuiltURLParsesBack | grpc.go:40-61 | A built request URL parses back to its parts, and the queue accepts it exactly when the target has no white space |
| Requests.AcceptedURLs | delayquene/types.go:24-37 | A request URL is accepted exactly when it is HTTP@ or GRPC@ before a target without white space, and splits into these two |
| Requests.UnprefixedIsHTTP | grpc.go:56-61 | A stored URL without either prefix is shown as an HTTP target, though the queue accepts none such |
| Requests.AcceptedNames | delayquene/types.go:39-54 | A name is accepted exactly when it is one to 22 digits, ASCII letters and underscores |
| QueueInvariant.InvAlways | delayquene/riverquene.go:235-318 | In every run: ids are given out once, a worker works on a running row of the job it loaded, attempts stay within the bound, nothing runs before its plan time, the log agrees with the rows, a worker past its delivery has it logged |
| QueueInvariant.OccKept | delayquene/riverquene.go:235-318 | The same for one occurrence and one step of any kind |
| QueueSteps.WorkIs | delayquene/riverquene.go:235-296 | One uninterrupted run of Work, said directly: when it returns nil, what it logs, and which row it drops, pauses or reschedules, in every case of errors, answers and patterns |
| QueueSteps.FinishIs | delayquene/riverquene.go:272-296 | After an accepted delivery, with anything having run in between: a fire-once definition is dropped, one that does not parse is paused, an active one is rescheduled, and only a failed reschedule is retried |
| QueueRuns.FireOnceIsDropped | delayquene/riverquene.go:272-279 | A fire-once job, pushed and delivered, leaves an empty table and a finished occurrence |
| QueueSteps.SuccessIsFinal | delayquene/riverquene.go:249-296 | In every run without storage errors and crashes an accepted delivery of an occurrence is its last |
| QueueRuns.AcceptedIsRepeated | delayquene/riverquene.go:288-294 | A run in which the reschedule fails and an accepted occurrence is delivered again under its key |
| QueueAlive.AliveIffUnbroken | delayquene/riverquene.go:235-318 | From a state where every active job is kept alive (and, if asked, its displayed time is that of an occurrence), a step keeps it so if and only if it is none of the listed errors on a job's only carrier (and no reschedule by a worker of another group to a time at which the job has no occurrence) |
| QueueAlive.AliveThroughoutIffUnbroken | delayquene/riverquene.go:235-318 | The same for whole runs: every state has the property if and only if no step is one of those |
| QueueAlive.ActiveJobsStayAlive | delayquene/riverquene.go:495-643 | In every interleaving without such an error each active definition has a pending or running occurrence with its id and group |
| QueueAlive.CleanRunsKeepJobsAlive | delayquene/riverquene.go:235-318 | In particular in every run without storage errors and crashes, however the deliveries turn out; and the displayed time is true if no id is reused across groups while live |
| QueueAlive.DisplayedFireIsTrue | delayquene/riverquene.go:298-318 | In every interleaving without such an error or reschedule one of them is planned at the displayed exectime |
| QueueAlive.GroupsAlways | delayquene/riverquene.go:464-473 | If no id is reused across groups while live, live occurrences and what their workers loaded always carry their definition's group |
| QueueAlive.FatalRemoves | delayquene/riverquene.go:238-262 | Each listed error removes exactly its own occurrence as a carrier and changes no definition |
| QueueRuns.StorageErrorsKillJob | delayquene/riverquene.go:238-244 | For every attempt bound and every valid job, a run that ends with the job active and no live occurrence |
| QueueRuns.CrashKillsJob | delayquene/riverquene.go:249-270 | The same by a crash on the last attempt |
| QueueRuns.UnstoredPauseKillsJob | delayquene/riverquene.go:255-262 | The same by a failed delivery on the last attempt whose pause is not stored |
| QueueRuns.UnstoredDropKillsJob | delayquene/riverquene.go:272-279 | The same for any fire-once job by a drop that is not stored |
| QueueAlive.ForeignRescheduleMisleads | delayquene/riverquene.go:301-317 | After a reschedule by a worker of another group the displayed time is met by exactly those occurrences of the job that were already planned at it |
| QueueRuns.DisplayCanBeFalse | delayquene/riverquene.go:301-317 | A run with any recurring job that ends with an active job displaying a time at which it has no occurrence, whenever the next time found is not one between 1970 and now |
| QueueRuns.GuaNextIsNew | delayquene/riverquene.go:280-288 | For the cron package it never is |
| QueueForks.TokensBounded | delayquene/riverquene.go:287-318 | One step adds at most one live occurrence of a job, and to existing ones only by a forking event |
| QueueForks.ConservationOfOccurrences | delayquene/riverquene.go:571-602 | In every run the live occurrences of a job number at most 1 + activations while one was running + pushes of a live id + crashes between reschedule and completion |
| QueueForks.ExactlyOneChain | delayquene/riverquene.go:287-318 | With none of those, an active job has exactly one |
| QueueForks.ActivationReplaces | delayquene/riverquene.go:593-600 | After Active the one pending occurrence of the job is the new one, at the stored exectime |
| QueueForks.ActivationForks | delayquene/riverquene.go:571-602 | After an activation the live occurrences are the running ones and the new one, so there is exactly one if and only if none was running |
| QueueRuns.ForkIsReachable | delayquene/riverquene.go:571-602 | Push, fetch, activate: two live occurrences |
| QueueDeliveries.PauseIsSafe | delayquene/riverquene.go:604-623 | From Pause until the id is activated or pushed again: inactive, no occurrence inserted, and at most as many deliveries as workers were past the load step |
| QueueDeliveries.QuietUntilWoken | delayquene/riverquene.go:245-247 | The same from any state in which the job is inactive |
| QueueDeliveries.RetriesAreBounded | delayquene/riverquene.go:249-270 | No occurrence is delivered more than MaxAttempts times, and all deliveries under one key are of one job and plan time |
| QueueDeliveries.ExhaustionIsVisible | delayquene/riverquene.go:255-270 | After the last failed delivery's pause is stored the job is inactive or gone until it is woken, in particular at the discard |
| QueueDeliveries.NeverVanishesUndelivered | delayquene/riverquene.go:272-279 | A definition pushed under a fresh id is still there, or an admin deleted it, or one of its own occurrences was delivered |
| QueueDeliveries.LeavesDelivered | delayquene/riverquene.go:272-279 | The same for one step |
| QueuePlans.PlanGrowsAlongChain | delayquene/riverquene.go:287-318 | A reschedule plans the next occurrence at the first activation of the loaded pattern after now, which is after the occurrence it replaces if and only if the search found a time, else in the past; the stored exectime is that plan |
| QueuePlans.FindsNothingIffInfeasible | delayquene/riverquene.go:287-288 | An accepted pattern gives the zero time at every second exactly when its fields allow no date or no time of day |
| QueueChains.IdentifyIffNoRepeat | delayquene/riverquene.go:249-253 | After any run, two deliveries of a job with one plan time have one idempotency key if and only if they had before and no step delivered an occurrence whose plan time was already logged for the job under another key |
| QueueChains.ChainIffExtends | delayquene/riverquene.go:287-318 | A step keeps the job's live occurrences one chain planned after every other delivery if and only if an insertion finds no other live one and is planned after every logged delivery, a reschedule is planned after the one it replaces, and a crash after a reschedule leaves the last delivered as the only live one |
| QueueChains.ChainThroughoutIffExtends | delayquene/riverquene.go:287-318 | The same for whole runs, which then never repeat a plan time |
| QueueChains.PlanTimeIdentifiesFiring | delayquene/riverquene.go:249-253 | In a run whose steps all extend the chain two deliveries of the job have the same plan time exactly when they have the same idempotency key |
| QueueRepeats.ServedActivation | delayquene/riverquene.go:571-602 | An activation at a time that has come is served: plan times still identify the firings if and only if no logged delivery of the job has that plan time |
| QueueRepeats.ServedPush | delayquene/riverquene.go:495-553 | The same for a push, whatever became of earlier jobs with the id |
| QueueRepeats.PlanTimeCanRepeat | delayquene/riverquene.go:571-602 | A run in which an activation at an exectime that has fired gives two deliveries one plan time and two keys |
| QueueRepeats.ForkRepeatsPlan | delayquene/riverquene.go:571-602 | A run in which an activation before the first delivery does so |
| QueueRepeats.EmptySearchRepeats | delayquene/riverquene.go:287-317 | A run in which two empty searches do so |
| QueueRepeats.ZeroTimeSpins | delayquene/riverquene.go:287-317 | A job whose pattern finds nothing is delivered any number of times while the clock stands still |
| QueueRepeats.NeverFindsNothing | delayquene/riverquene.go:287-288 | `0 0 30 2 *` is such a pattern |
| QueueIsolation.GroupsAreIsolated | delayquene/riverquene.go:555-720 | Where live occurrences carry their definition's group, any uninterrupted sequence of admin operations on one group leaves all definitions and occurrences of other groups as they were |
| QueueIsolation.OtherOccurrences | delayquene/riverquene.go:464-473 | With reused ids too: another group's occurrence disappears exactly when it is pending and its job id is the target |
| QueueRuns.CancelReachesOtherGroup | delayquene/riverquene.go:464-473 | A run after which an operation on one group removes the other group's pending occurrence |
| QueueSeparation.OthersSeeNothing | delayquene/riverquene.go:235-720 | Non-interference: where groups use their own job ids, in any interleaving of operations, workers, crashes and rescues, the definitions, occurrences, workers and deliveries of the other groups are what they would be had the group's events not happened |
| QueueSeparation.GroupsDoNotInterfere | delayquene/riverquene.go:235-720 | The same from the empty queue, for every run in which pushes keep to their group's ids |
| QueueSeparation.StepWithout | delayquene/riverquene.go:235-720 | The same for one step of any kind |
| QueueIsolation.ActiveJobsAreCounted | delayquene/riverquene.go:756-774 | While jobs are kept alive, the active ones number at most the waiting and running occurrences |
| Queue.RiverQueue.Push | delayquene/riverquene.go:495-553 | The four answers by what is wrong with the call; the stored row, column by column, and its first occurrence together, or no change |
| Queue.RiverQueue.Edit | delayquene/riverquene.go:555-569 | Replaces target and payload of the group's job, or refuses |
| Queue.RiverQueue.Active | delayquene/riverquene.go:571-602 | Activates, cancels exactly what is pending of the job and inserts one occurrence at the stored exectime, or changes nothing |
| Queue.RiverQueue.Pause | delayquene/riverquene.go:604-623 | Deactivates and cancels exactly what is pending of the job, or changes nothing |
| Queue.RiverQueue.Delete | delayquene/riverquene.go:625-643 | Removes the definition and exactly what is pending of the job, or changes nothing |
| Queue.RiverQueue.DeleteJobs | delayquene/riverquene.go:645-660 | Removes exactly the selected definitions and their pending occurrences of the group, and answers their number |
| Queue.RiverQueue.RegisterGroup | delayquene/riverquene.go:680-693 | Adds a new valid group |
| Queue.RiverQueue.RemoveGroup | delayquene/riverquene.go:695-720 | Removes the group with its jobs and pending occurrences, or rolls everything back |
| Queue.RiverQueue.Work | delayquene/riverquene.go:235-296 | An uninterrupted run of Work does what WorkIs says, is the composition of its steps, and returns what its last state tells River |
| Queue.RiverQueue.ScheduleNext | delayquene/riverquene.go:298-318 | Stores the next time and inserts its occurrence together, or neither |
| Queue.RiverQueue.ReadStats | delayquene/riverquene.go:756-774 | The counts of waiting, running, active and paused, and the bound between them |
| ConnPool.OneConnectionPerTarget | delayquene/grpcpool.go:25-54 | After any history, between two Closes and for any interleaving of callers: all calls for a target that return get the same open connection, different targets get different ones, and a target is connected at most once |
| ConnPool.SpanKept | delayquene/grpcpool.go:28-54 | Each locked section keeps what was stored and returned in the span |
| ConnPool.CloseLeavesNoneOpen | delayquene/grpcpool.go:56-64 | After any history Close leaves every connection ever made closed, and none stored |
| ConnPool.GrpcClientPool.Conn | delayquene/grpcpool.go:28-54 | One call of conn returns the stored connection of its target and stores nothing, or makes, stores and returns a new one, or fails and stores none |
| ConnPool.GrpcClientPool.CloseAll | delayquene/grpcpool.go:56-64 | The loop closes every stored connection and empties the pool |

## Left out

- Time zones with daylight saving: the search is modelled in UTC, where a civil step is a fixed number of seconds.
- The 64-bit range of Go's time and duration values: years and delays are unbounded integers.
- `time.ParseDuration`: a parameter, except that text with white space never reads; `strconv.Atoi` and `strings` are modelled on runes, without invalid UTF-8.
- CronSearch.NextTimeOfDay: the source has all five loops in one function; the last three are a method of their own here, and `wrap` stands for its goto.
- Postgres and River: isolation of concurrent transactions (`Push` against `RemoveGroup` relies on it), leader election, unique jobs, and a commit whose acknowledgement is lost; a storage error here means that nothing was stored.
- QueueModel.Finish: a step reads the clock as it commits; the source reads it just before its transaction starts, in `Push`, `Active` and the worker alike.
- QueueModel.Fetch: the backoff of a retry is not modelled, so a retry may come at any time after the plan time; River's retryable state is part of pending.
- A rescue of an occurrence whose worker is still running: the rescue window exceeds the job timeout, so a rescued occurrence has no worker.
- Delivery itself (HTTP, gRPC, JSON, timeouts): the consumer's answer is an input of the step.
- QueueSeparation.OthersSeeNothing: the removed events still take their occurrence ids, as a rolled-back insertion takes its number from the sequence; an event of the others that names an id is the same event in both runs.
- Queue.RiverQueue.ReadStats: the retryable count, since River's retryable state is part of pending here.
- REST and gRPC handlers, error mapping, listing and history, history pruning, id generation, shutdown, the web console and the command line.
