# Alif prayer reminders

A Dafny model of the reminder engine of Alif, a personal assistant. The
engine sends notifications at the five daily prayer times and at syuruk
(sunrise). The model covers four things:

- **`PrayerTimingService`.** This is the core of the engine. It does four jobs:
  - it looks up the day's `PrayerTiming` record in the repository;
  - it parses each stored `"HH:mm"` string with its own `convertTime`;
  - it registers one callback per period with the task scheduler, either at the prayer time itself or a configured duration before it, and skips periods whose time is already past;
  - it sends a summary notification listing all six times.
- **`PrayerTimingReminderSchedule`.** This is the midnight trigger. It registers a
  `remindPrayerTiming` callback for each period, using its own copy of the
  parser, and never compares against the current time.
- **The data-preparation script** (`data-processing/main.py`). It rewrites the
  timetable's `"h m"` cells as `HH:MM`, adding 12 to the afternoon hours. It
  then writes the whole table out as one SQL `INSERT` statement.
- **The language built-ins those rely on.** From Java: `String.split`,
  `Integer.parseInt`, and `LocalTime` with its `minus` and `HH:mm` formatting.
  From Python: `str.strip`, `int()`, `str.join` and the `{:02d}` format.

How the files fit together:

- The two outside collaborators are classes that log what they receive: the
  task scheduler records its registrations and the notification service
  records what it sends.
- The two Java components are classes whose methods update those logs. Each
  method is proved against a pure function that describes the whole run of
  the Java method.
- A run is a list of registrations followed by an outcome: it completed or
  it raised an error. Each of the six calls contributes its registrations,
  and the first call that throws ends the run.
- `convert_to_sql` is a method with the script's two nested loops, proved
  against the statement text it must build.

Files:

- `wrappers.dfy`: the `Option` and `Result` types.
- `text.dfy`: digits, decimal rendering, and splitting on a character.
- `java_lang.dfy`: `String.split` (trailing empty fields removed) and `Integer.parseInt` (32-bit range).
- `java_time.dfy`: `LocalTime` as the second of the day, `minus` modulo one day, and `HH:mm`.
- `prayer_model.dfy`: periods, records, errors, tasks, and the two collaborator classes.
- `service.dfy`: the `PrayerTimingService` functions and class.
- `arming.dfy`: how six successive calls combine into one run.
- `service_lemmas.dfy`: the parser, the notification texts, and the test-suite examples.
- `service_runs.dfy`: the three scheduling and summary operations.
- `service_examples.dfy`: the test suite's sample day, worked through.
- `trigger.dfy`: `PrayerTimingReminderSchedule`.
- `python_lang.dfy`: the Python built-ins.
- `data_processing.dfy` and `data_processing_lemmas.dfy`: the script.

Inputs the model takes as parameters:

- The clock becomes `today` (a day number) and `now` (a `LocalTime`), both passed in.
- The configured lead time becomes `durationBefore`, in whole seconds.
- The formatted date in the summary title becomes the string `formattedDate`.

## Behaviour worth knowing

- **Partial arming.** A period whose stored time does not parse throws out of
  the scheduling sequence. The periods before it stay registered and the ones
  after it are never reached, so the day is partly armed
  (`ArmAtEventPartial`, `ArmPreEventPartial`, `ArmRemindersPartial`,
  `BadLaterTime`).
- **Equal to now.** Only a time strictly before `now` is skipped, so a time
  equal to `now` is registered (`AtEventStepSpec`). In the source this
  happens only when the clock reads exactly `hh:mm:00.000000000`. In the
  model, `now` is a whole second, so it happens for the whole second
  `hh:mm:00` (see "The clock's precision" under "## Left out").
- **Never in the past.** No scheduling call of the service registers a task
  whose time is before `now` (`Service.ArmAtEvent`, `Service.ArmPreEvent`).
- **No past check in the trigger.** The midnight trigger applies no check
  against the current time. It registers all six reminders whenever it runs
  (`ArmRemindersMatchAtMidnight`).
- **Wrap at midnight.** The pre-reminder time is `LocalTime.minus`, which wraps
  at midnight. A lead of 15 minutes before 00:10 therefore fires at 23:55 of
  the same date, after the prayer (`LeadAcrossMidnight`).
- **The "unknown" texts.** The Java switch has `Unknown ...` fallback texts,
  but it covers every period, so they are never sent (`TitleNeverUnknown`,
  `MessageNeverUnknown`).
- **Separate clock reads.** The Java code reads `LocalDate.now()` and
  `LocalTime.now()` separately for each period. The model uses one `today`
  and one `now` for a whole run.

## Model

| member | source | states |
|---|---|---|
| Service.GetPrayerTimingByDate | app/src/main/java/io/github/shazxrin/alif/prayer/service/PrayerTimingService.java:45-51 | succeeds exactly when the repository holds the date, returning that date's record; otherwise fails with `PrayerTimingNotFound` |
| Service.ConvertTime | app/src/main/java/io/github/shazxrin/alif/prayer/service/PrayerTimingService.java:53-69 | a parsed time has no seconds part, since it comes from `LocalTime.of(hour, minute)`; the `ServiceLemmas` rows state what it accepts and rejects |
| Service.PrayerTimingContent | app/src/main/java/io/github/shazxrin/alif/prayer/service/PrayerTimingService.java:81-98 | the message ends with the time as `HH:mm` and a full stop; for the five prayers it names the lower-case prayer right after "It is time to pray "; the fallback text is stated dead by `ServiceLemmas.TitleNeverUnknown` |
| Service.PrePrayerTimingContent | app/src/main/java/io/github/shazxrin/alif/prayer/service/PrayerTimingService.java:132-153 | the same for the pre-event message, with the name right after "It is almost time to pray " |
| Service.SummaryContent | app/src/main/java/io/github/shazxrin/alif/prayer/service/PrayerTimingService.java:193-213 | the title is "Prayer timings for " and the date; the message starts with the summary header; a failure is the parse error of one of the six stored times; the full text is stated by `ServiceRuns.SummaryText` |
| Service.Summary | app/src/main/java/io/github/shazxrin/alif/prayer/service/PrayerTimingService.java:190-216 | with no record for today it fails with `PrayerTimingNotFound`; a summary it builds is for a day the repository holds, with that title |
| Service.AtEventStep | app/src/main/java/io/github/shazxrin/alif/prayer/service/PrayerTimingService.java:100-115 | the call fails exactly when `convertTime` fails; it registers at most one task, for its own period, on today's date, and never at a time before `now`; the full skip rule is stated by `ServiceRuns.AtEventStepSpec` |
| Service.PreEventStep | app/src/main/java/io/github/shazxrin/alif/prayer/service/PrayerTimingService.java:155-172 | the same for the pre-event call: it fails exactly when `convertTime` fails, registers at most one task for its own period on today's date, and never at a pre-reminder time before `now`; stated in full by `ServiceRuns.PreEventStepSpec` |
| Service.ArmAtEvent | app/src/main/java/io/github/shazxrin/alif/prayer/service/PrayerTimingService.java:117-126 | with no record for today the run raises `PrayerTimingNotFound` and registers nothing; every task the run registers is for today and not before `now`; stated in full by `ServiceRuns.ArmAtEventMembers` |
| Service.ArmPreEvent | app/src/main/java/io/github/shazxrin/alif/prayer/service/PrayerTimingService.java:174-184 | the same for the pre-event run; stated in full by `ServiceRuns.ArmPreEventMembers` |
| ServiceLemmas.ConvertTimeOfFields | app/src/main/java/io/github/shazxrin/alif/prayer/service/PrayerTimingService.java:53-69 | for any text `a:b` followed by any number of colons, with `b` non-empty: a non-number hour gives `NumberFormat(a)`, otherwise an hour outside 0..23 gives `InvalidHour`; then a non-number minute gives `NumberFormat(b)`, a minute outside 0..59 gives `InvalidMinute`, and otherwise the result is `LocalTime.of(hour, minute)` |
| ServiceLemmas.ConvertTimeAccepts | app/src/main/java/io/github/shazxrin/alif/prayer/service/PrayerTimingService.java:53-69 | if and only if: a time is accepted exactly when it is two colon-free fields, then optional trailing colons, with an hour `parseInt` reads as 0..23 and a minute it reads as 0..59; the result is then `LocalTime.of` of those two numbers |
| ServiceLemmas.ConvertTimeFormatError | app/src/main/java/io/github/shazxrin/alif/prayer/service/PrayerTimingService.java:54-57 | "Invalid time format" is raised exactly when `split(":")` does not give two fields |
| ServiceLemmas.ConvertTimeErrorOrder | app/src/main/java/io/github/shazxrin/alif/prayer/service/PrayerTimingService.java:59-66 | the hour is parsed and range-checked before the minute; the first check that fails decides the error |
| ServiceLemmas.ConvertFormatted | app/src/main/java/io/github/shazxrin/alif/prayer/service/PrayerTimingService.java:26 | round trip: parsing the `HH:mm` rendering of any whole-minute time gives back that time |
| ServiceLemmas.ConvertUnpadded | app/src/main/java/io/github/shazxrin/alif/prayer/service/PrayerTimingService.java:59-68 | unpadded numbers such as `5:7` are accepted, and they render back zero-padded |
| ServiceLemmas.ConvertNormalises | app/src/main/java/io/github/shazxrin/alif/prayer/service/PrayerTimingService.java:53-69 | parsing the rendering of any accepted time again gives the same result |
| ServiceLemmas.ExampleNoColon | app/src/test/java/io/github/shazxrin/alif/prayer/service/PrayerTimingServiceTest.java:211-231 | `"invalid"` is rejected with the time-format error |
| ServiceLemmas.ExampleHour24 | app/src/test/java/io/github/shazxrin/alif/prayer/service/PrayerTimingServiceTest.java:234-254 | `"24:30"` is rejected with `InvalidHour` |
| ServiceLemmas.ExampleMinute60 | app/src/test/java/io/github/shazxrin/alif/prayer/service/PrayerTimingServiceTest.java:257-277 | `"05:60"` is rejected with `InvalidMinute` |
| ServiceLemmas.ExamplePadded | app/src/main/java/io/github/shazxrin/alif/prayer/service/PrayerTimingService.java:53-69 | `"05:30"` parses to 05:30 |
| ServiceLemmas.ExampleTrailingColon | app/src/main/java/io/github/shazxrin/alif/prayer/service/PrayerTimingService.java:54-55 | `"05:30:"` is accepted, because `split` drops the trailing empty field |
| ServiceLemmas.ExampleUnpadded | app/src/main/java/io/github/shazxrin/alif/prayer/service/PrayerTimingService.java:59 | `"5:30"` parses to 05:30 |
| ServiceLemmas.ExampleUnpaddedRendered | app/src/main/java/io/github/shazxrin/alif/prayer/service/PrayerTimingService.java:26 | `"5:30"` renders as `"05:30"` |
| ServiceLemmas.ExampleMissingMinute | app/src/main/java/io/github/shazxrin/alif/prayer/service/PrayerTimingService.java:54-57 | `"05:"` has only one field and is rejected with the time-format error |
| ServiceLemmas.ExampleLetters | app/src/main/java/io/github/shazxrin/alif/prayer/service/PrayerTimingService.java:59 | `"ab:30"` raises the number-format error for `"ab"` |
| ServiceLemmas.ExampleNegativeHour | app/src/main/java/io/github/shazxrin/alif/prayer/service/PrayerTimingService.java:60-61 | `"-1:30"` parses as a number but is rejected with `InvalidHour` |
| ServiceLemmas.PrayerNames | app/src/main/java/io/github/shazxrin/alif/prayer/service/PrayerTimingService.java:86 | each period's name is its enum name in lower case, for a default locale whose lower case of A-Z is ASCII (see "## Left out") |
| ServiceLemmas.PrayerNamesDistinct | app/src/main/java/io/github/shazxrin/alif/prayer/service/PrayerTimingService.java:86 | two different periods have different names |
| ServiceLemmas.PrayerNameLength | app/src/main/java/io/github/shazxrin/alif/prayer/service/PrayerTimingService.java:86 | every name is 4 to 7 characters long |
| ServiceLemmas.TitleNeverUnknown | app/src/main/java/io/github/shazxrin/alif/prayer/service/PrayerTimingService.java:81-153 | neither notification title is ever the "Unknown" fallback text, for any period |
| ServiceLemmas.MessageNeverUnknown | app/src/main/java/io/github/shazxrin/alif/prayer/service/PrayerTimingService.java:81-153 | neither notification message is ever the "Unknown" fallback text, for any period |
| ServiceLemmas.ContentCarriesTime | app/src/main/java/io/github/shazxrin/alif/prayer/service/PrayerTimingService.java:81-153 | both messages end with the callback's time as `HH:mm` followed by `.`; that time parses back to the callback's time |
| ServiceLemmas.TitleName | app/src/main/java/io/github/shazxrin/alif/prayer/service/PrayerTimingService.java:85-139 | for the five prayers, both titles hold the prayer's name between the fixed words |
| ServiceLemmas.TitlesDistinct | app/src/main/java/io/github/shazxrin/alif/prayer/service/PrayerTimingService.java:84-95 | two different periods never get the same at-event title |
| ServiceLemmas.PreTitlesDistinct | app/src/main/java/io/github/shazxrin/alif/prayer/service/PrayerTimingService.java:135-150 | two different periods never get the same pre-event title |
| ServiceLemmas.PreTitleNotAtTitle | app/src/main/java/io/github/shazxrin/alif/prayer/service/PrayerTimingService.java:81-153 | a pre-event title never equals an at-event title |
| ServiceRuns.AtEventStepSpec | app/src/main/java/io/github/shazxrin/alif/prayer/service/PrayerTimingService.java:100-115 | the call throws exactly what parsing throws and registers at most one task; it registers nothing exactly when the time is strictly before `now`; what it registers is the at-event callback for today at that time |
| ServiceRuns.AtEventResultsSpec | app/src/main/java/io/github/shazxrin/alif/prayer/service/PrayerTimingService.java:117-126 | the six calls take the periods in order Subuh to Isyak; each throws exactly when its own stored time fails to parse, and registers only for its own period |
| ServiceRuns.ArmAtEventMembers | app/src/main/java/io/github/shazxrin/alif/prayer/service/PrayerTimingService.java:117-126 | if and only if: a registration is made exactly when the record exists, every earlier period parsed, and the call for its own period registers it |
| ServiceRuns.ArmAtEventOrder | app/src/main/java/io/github/shazxrin/alif/prayer/service/PrayerTimingService.java:120-125 | registrations are made in strictly increasing period order |
| ServiceRuns.ArmAtEventAll | app/src/main/java/io/github/shazxrin/alif/prayer/service/PrayerTimingService.java:117-126 | when all six times parse and none is before `now`, the run completes with six registrations, one per period, in order |
| ServiceRuns.ArmAtEventPartial | app/src/main/java/io/github/shazxrin/alif/prayer/service/PrayerTimingService.java:117-126 | when a period is the first whose time fails to parse, the run raises that parse error; the periods before it remain registered and none at or after it are |
| ServiceRuns.PreEventStepSpec | app/src/main/java/io/github/shazxrin/alif/prayer/service/PrayerTimingService.java:155-172 | the call throws exactly what parsing throws; it registers nothing exactly when the pre-reminder time `(time − durationBefore) mod 24h` is strictly before `now`; otherwise it registers one callback, at the pre-reminder time, that is given the prayer time |
| ServiceRuns.PreEventFireTime | app/src/main/java/io/github/shazxrin/alif/prayer/service/PrayerTimingService.java:157-168 | when the lead does not cross midnight, the reminder fires exactly `durationBefore` seconds before the prayer time |
| ServiceRuns.PreEventResultsSpec | app/src/main/java/io/github/shazxrin/alif/prayer/service/PrayerTimingService.java:174-184 | the six pre-event calls take the periods in order; each throws exactly when its own time fails to parse, and registers only for its own period |
| ServiceRuns.ArmPreEventMembers | app/src/main/java/io/github/shazxrin/alif/prayer/service/PrayerTimingService.java:174-184 | if and only if: a pre-event registration is made exactly when the record exists, every earlier period parsed, and the call for its own period registers it |
| ServiceRuns.ArmPreEventOrder | app/src/main/java/io/github/shazxrin/alif/prayer/service/PrayerTimingService.java:178-183 | pre-event registrations are made in strictly increasing period order |
| ServiceRuns.ArmPreEventPartial | app/src/main/java/io/github/shazxrin/alif/prayer/service/PrayerTimingService.java:174-184 | the first time that fails to parse decides the error; only the periods before it are registered |
| ServiceRuns.TimesAt | app/src/main/java/io/github/shazxrin/alif/prayer/model/PrayerTiming.java:111-152 | the six stored times, in order, are the six getters' values |
| ServiceRuns.ParseAllValues | app/src/main/java/io/github/shazxrin/alif/prayer/service/PrayerTimingService.java:207-212 | if and only if: converting the six times succeeds exactly when each one parses, and then gives each one's own value |
| ServiceRuns.ParseAllFirstFailure | app/src/main/java/io/github/shazxrin/alif/prayer/service/PrayerTimingService.java:207-212 | the first time that fails to parse decides the error the summary raises |
| ServiceRuns.SummarySucceeds | app/src/main/java/io/github/shazxrin/alif/prayer/service/PrayerTimingService.java:190-216 | if and only if: the summary is built exactly when the record exists and all six times parse |
| ServiceRuns.SummaryText | app/src/main/java/io/github/shazxrin/alif/prayer/service/PrayerTimingService.java:193-213 | the summary is the title "Prayer timings for " plus the date, then the message: the header line and six lines `Name: HH:mm`, Subuh to Isyak, each ending in a newline |
| ServiceRuns.SummaryFirstError | app/src/main/java/io/github/shazxrin/alif/prayer/service/PrayerTimingService.java:205-213 | if a time fails to parse, the summary fails with the error of the first such time |
| ServiceRuns.ArmOutcomes | app/src/main/java/io/github/shazxrin/alif/prayer/service/PrayerTimingService.java:117-216 | both scheduling runs raise exactly when the summary would, and raise the same error |
| ServiceRuns.NotFound | app/src/main/java/io/github/shazxrin/alif/prayer/service/PrayerTimingService.java:45-51 | with no record for today, all three operations raise `PrayerTimingNotFound`, and nothing is registered or sent |
| Service.PrayerTimingService.constructor | app/src/main/java/io/github/shazxrin/alif/prayer/service/PrayerTimingService.java:33-43 | the service holds the repository, the lead time and the two collaborators it is given |
| Service.PrayerTimingService.NotifyPrayerTimingPeriod | app/src/main/java/io/github/shazxrin/alif/prayer/service/PrayerTimingService.java:81-98 | sends exactly one notification, the at-event content for the period and date-time |
| Service.PrayerTimingService.ScheduleNotifyPrayerTimingPeriod | app/src/main/java/io/github/shazxrin/alif/prayer/service/PrayerTimingService.java:100-115 | appends to the scheduler's log exactly the step's registrations; returns the step's outcome |
| Service.PrayerTimingService.ScheduleAllNotifyPrayerTimingPeriods | app/src/main/java/io/github/shazxrin/alif/prayer/service/PrayerTimingService.java:117-126 | appends the at-event run's registrations to the scheduler's log; returns the run's outcome |
| Service.PrayerTimingService.NotifyPrePrayerTimingPeriod | app/src/main/java/io/github/shazxrin/alif/prayer/service/PrayerTimingService.java:132-153 | sends exactly one notification, the pre-event content |
| Service.PrayerTimingService.ScheduleNotifyPrePrayerTimingPeriod | app/src/main/java/io/github/shazxrin/alif/prayer/service/PrayerTimingService.java:155-172 | appends the pre-event step's registrations to the scheduler's log; returns the step's outcome |
| Service.PrayerTimingService.ScheduleAllNotifyPrePrayerTimingPeriods | app/src/main/java/io/github/shazxrin/alif/prayer/service/PrayerTimingService.java:174-184 | appends the pre-event run's registrations, using the configured lead; returns the run's outcome |
| Service.PrayerTimingService.NotifyAllPrayerTimingPeriods | app/src/main/java/io/github/shazxrin/alif/prayer/service/PrayerTimingService.java:190-216 | sends the summary when it can be built; otherwise sends nothing and raises the summary's error |
| PrayerModel.TaskScheduler.Schedule | app/src/main/java/io/github/shazxrin/alif/prayer/service/PrayerTimingService.java:109-112 | one `schedule` call appends exactly one registration to the log |
| PrayerModel.NotificationService.SendNotification | app/src/main/java/io/github/shazxrin/alif/prayer/service/PrayerTimingService.java:97 | one `sendNotification` call appends exactly one notification to the log |
| Arming.StepOutcome | app/src/main/java/io/github/shazxrin/alif/prayer/service/PrayerTimingService.java:101 | a call completes exactly when it does not throw; otherwise it raises the step's error |
| Arming.ChainCompletes | app/src/main/java/io/github/shazxrin/alif/prayer/service/PrayerTimingService.java:117-126 | when no call throws, the run completes with every call's registrations, in call order |
| Arming.ChainStopsAtFirstFailure | app/src/main/java/io/github/shazxrin/alif/prayer/service/PrayerTimingService.java:117-126 | the first call that throws ends the run with its error; the registrations of the calls before it remain |
| Arming.ChainCompletesIff | app/src/main/java/io/github/shazxrin/alif/prayer/service/PrayerTimingService.java:117-126 | if and only if: a run completes exactly when every call succeeds |
| Arming.ChainRegistersOnlyFromCalls | app/src/main/java/io/github/shazxrin/alif/prayer/service/PrayerTimingService.java:117-126 | calls that register nothing make a run that registers nothing |
| Arming.ChainMembers | app/src/main/java/io/github/shazxrin/alif/prayer/service/PrayerTimingService.java:117-126 | if and only if: a registration is in the run exactly when some call made it and every call before that one succeeded |
| Arming.ChainInPeriodOrder | app/src/main/java/io/github/shazxrin/alif/prayer/service/PrayerTimingService.java:120-125 | when the i-th call registers at most one task, for period i, the run's registrations are in strictly increasing period order |
| Arming.ChainOutcomeOfOutcomes | app/src/main/java/io/github/shazxrin/alif/prayer/service/PrayerTimingService.java:117-126 | a run's outcome depends only on the calls' outcomes, not on what they register |
| Arming.ChainMembersByPeriod | app/src/main/java/io/github/shazxrin/alif/prayer/service/PrayerTimingService.java:117-126 | if and only if: when call i registers only for period i, a registration is in the run exactly when every earlier call succeeded and its own call made it |
| Arming.ChainSingletons | app/src/main/java/io/github/shazxrin/alif/prayer/service/PrayerTimingService.java:117-126 | when every call registers exactly one task, the run completes with those tasks in call order |
| Trigger.ConvertTime | app/src/main/java/io/github/shazxrin/alif/prayer/trigger/PrayerTimingReminderSchedule.java:20-36 | it never raises the record-not-found error, only parse errors; it is the same function as the service's parser, which `Trigger.ConvertTimeAgrees` states |
| Trigger.ReminderStep | app/src/main/java/io/github/shazxrin/alif/prayer/trigger/PrayerTimingReminderSchedule.java:44-51 | a failure is `convertTime`'s error; otherwise exactly one `remindPrayerTiming` task on today's date, told the date-time it fires at; stated in full by `Trigger.ReminderStepSpec` |
| Trigger.ArmReminders | app/src/main/java/io/github/shazxrin/alif/prayer/trigger/PrayerTimingReminderSchedule.java:58-68 | the run completes only when today's record exists, and registers nothing when it does not; stated in full by `Trigger.ArmRemindersMembers` |
| Trigger.ConvertTimeAgrees | app/src/main/java/io/github/shazxrin/alif/prayer/trigger/PrayerTimingReminderSchedule.java:20-36 | the trigger's copy of `convertTime` gives the service's result on every input |
| Trigger.ReminderStepSpec | app/src/main/java/io/github/shazxrin/alif/prayer/trigger/PrayerTimingReminderSchedule.java:44-51 | the call throws exactly what parsing throws; otherwise it registers exactly one `remindPrayerTiming` callback, at today's prayer time, whatever the current time |
| Trigger.ReminderResultsSpec | app/src/main/java/io/github/shazxrin/alif/prayer/trigger/PrayerTimingReminderSchedule.java:58-68 | the six calls take the periods in order; each throws exactly when its own time fails to parse, and registers only for its own period |
| Trigger.ArmRemindersMembers | app/src/main/java/io/github/shazxrin/alif/prayer/trigger/PrayerTimingReminderSchedule.java:58-68 | if and only if: a reminder is registered exactly when the record exists, every earlier period parsed, and its own period's call registers it |
| Trigger.ArmRemindersToday | app/src/main/java/io/github/shazxrin/alif/prayer/trigger/PrayerTimingReminderSchedule.java:44-51 | every reminder the trigger registers is a `remindPrayerTiming` task for today, told the date-time it fires at |
| Trigger.ArmRemindersOrder | app/src/main/java/io/github/shazxrin/alif/prayer/trigger/PrayerTimingReminderSchedule.java:62-67 | reminders are registered in strictly increasing period order |
| Trigger.ArmRemindersAll | app/src/main/java/io/github/shazxrin/alif/prayer/trigger/PrayerTimingReminderSchedule.java:58-68 | when all six times parse, the run completes with six reminders, one per period, in order |
| Trigger.ArmRemindersPartial | app/src/main/java/io/github/shazxrin/alif/prayer/trigger/PrayerTimingReminderSchedule.java:58-68 | the first time that fails to parse decides the error; only the periods before it are registered |
| Trigger.ArmRemindersNotFound | app/src/main/java/io/github/shazxrin/alif/prayer/trigger/PrayerTimingReminderSchedule.java:60 | with no record for today, the trigger registers nothing and raises `PrayerTimingNotFound` |
| Trigger.ArmRemindersOutcome | app/src/main/java/io/github/shazxrin/alif/prayer/trigger/PrayerTimingReminderSchedule.java:58-68 | the trigger raises exactly when, and what, the service's at-event scheduling raises at any `now` |
| Trigger.ArmRemindersMatchAtMidnight | app/src/main/java/io/github/shazxrin/alif/prayer/trigger/PrayerTimingReminderSchedule.java:44-51 | if and only if: making no past check, the trigger registers a reminder exactly where the service's at-event scheduling at 00:00 registers a notification, for the same period and time |
| Trigger.PrayerTimingReminderSchedule.constructor | app/src/main/java/io/github/shazxrin/alif/prayer/trigger/PrayerTimingReminderSchedule.java:53-56 | the trigger holds the service and the scheduler it is given |
| Trigger.PrayerTimingReminderSchedule.SchedulePrayerTimingPeriodReminder | app/src/main/java/io/github/shazxrin/alif/prayer/trigger/PrayerTimingReminderSchedule.java:44-51 | appends the step's registrations to the scheduler's log; returns the step's outcome |
| Trigger.PrayerTimingReminderSchedule.SchedulePrayerTimingReminders | app/src/main/java/io/github/shazxrin/alif/prayer/trigger/PrayerTimingReminderSchedule.java:58-68 | appends the trigger run's registrations, for the service's repository, to the scheduler's log; returns the run's outcome |
| ServiceExamples.SampleParses | app/src/test/java/io/github/shazxrin/alif/prayer/service/PrayerTimingServiceTest.java:101-109 | the test suite's six sample times parse to 05:30, 06:45, 12:15, 15:30, 18:45 and 20:00 |
| ServiceExamples.AtMidnight | app/src/test/java/io/github/shazxrin/alif/prayer/service/PrayerTimingServiceTest.java:131-165 | at midnight, the sample day registers all six times in order and completes |
| ServiceExamples.AtOnePm | app/src/main/java/io/github/shazxrin/alif/prayer/service/PrayerTimingService.java:103-106 | at 13:00, Subuh, Syuruk and Zohor are skipped; only Asar, Maghrib and Isyak are registered |
| ServiceExamples.FifteenMinuteLeads | app/src/test/java/io/github/shazxrin/alif/prayer/service/PrayerTimingServiceTest.java:202-207 | 15 minutes before each sample time are 05:15, 06:30, 12:00, 15:15, 18:30 and 19:45 |
| ServiceExamples.FifteenMinuteSteps | app/src/test/java/io/github/shazxrin/alif/prayer/service/PrayerTimingServiceTest.java:170-207 | at midnight, each of the six pre-event calls registers its period 15 minutes early |
| ServiceExamples.FifteenMinutesBefore | app/src/test/java/io/github/shazxrin/alif/prayer/service/PrayerTimingServiceTest.java:170-207 | with a 15-minute lead at midnight, the sample day registers all six pre-reminders in order and completes |
| ServiceExamples.SampleDay | app/src/test/java/io/github/shazxrin/alif/prayer/service/PrayerTimingServiceTest.java:131-207 | the registrations the sample day gets at midnight, at 13:00, and with a 15-minute lead |
| ServiceExamples.SampleContent | app/src/main/java/io/github/shazxrin/alif/prayer/service/PrayerTimingService.java:81-153 | the exact at-event and pre-event texts for Zohor at 12:15 and Syuruk at 06:45 |
| ServiceExamples.SummaryOfTimes | app/src/main/java/io/github/shazxrin/alif/prayer/service/PrayerTimingService.java:190-213 | when each stored time parses to a known time, the summary lists those times rendered as `HH:mm` |
| ServiceExamples.SampleSummary | app/src/test/java/io/github/shazxrin/alif/prayer/service/PrayerTimingServiceTest.java:120-126 | the sample record's summary message contains exactly the lines `Subuh: 05:30` to `Isyak: 20:00` |
| ServiceExamples.SampleDaySummary | app/src/test/java/io/github/shazxrin/alif/prayer/service/PrayerTimingServiceTest.java:98-126 | the summary, starting from a repository holding the sample day, is exactly the title and message above |
| ServiceExamples.SampleClocks | app/src/test/java/io/github/shazxrin/alif/prayer/service/PrayerTimingServiceTest.java:156-165 | the six sample times render as `"05:30"` to `"20:00"` |
| ServiceExamples.BadFirstTime | app/src/test/java/io/github/shazxrin/alif/prayer/service/PrayerTimingServiceTest.java:234-254 | a Subuh of `"24:30"` makes all four operations raise `InvalidHour`, with nothing registered or sent |
| ServiceExamples.NoColonFirstTime | app/src/test/java/io/github/shazxrin/alif/prayer/service/PrayerTimingServiceTest.java:211-231 | a Subuh of `"invalid"` makes all four operations raise the time-format error, with nothing registered or sent |
| ServiceExamples.MinuteSixtyFirstTime | app/src/test/java/io/github/shazxrin/alif/prayer/service/PrayerTimingServiceTest.java:257-277 | a Subuh of `"05:60"` makes all four operations raise `InvalidMinute`, with nothing registered or sent |
| ServiceExamples.BadAsarParses | app/src/main/java/io/github/shazxrin/alif/prayer/service/PrayerTimingService.java:59 | a day whose Asar is `"ab:30"`: the first three times parse and Asar raises the number-format error |
| ServiceExamples.BadLaterTime | app/src/main/java/io/github/shazxrin/alif/prayer/service/PrayerTimingService.java:117-126 | when Asar fails to parse, Subuh, Syuruk and Zohor stay registered and the run raises Asar's error |
| ServiceExamples.BadAsarDay | app/src/main/java/io/github/shazxrin/alif/prayer/service/PrayerTimingService.java:120-123 | the same partial arming, for a concrete record |
| ServiceExamples.LeadAcrossMidnight | app/src/main/java/io/github/shazxrin/alif/prayer/service/PrayerTimingService.java:157-169 | a 15-minute lead before 00:10 fires at 23:55 of the same date |
| JavaLang.JavaSplit | app/src/main/java/io/github/shazxrin/alif/prayer/service/PrayerTimingService.java:54 | no field of `split(":")` holds a colon, and when the text holds a colon the last field kept is not empty; the two-field case is stated by `JavaLang.JavaSplitTwoFields` |
| JavaLang.DropTrailingEmpty | app/src/main/java/io/github/shazxrin/alif/prayer/service/PrayerTimingService.java:54 | `split` removes exactly the trailing run of empty fields, and keeps everything before it |
| JavaLang.JavaSplitTwoFields | app/src/main/java/io/github/shazxrin/alif/prayer/service/PrayerTimingService.java:54-55 | if and only if: `split(":")` gives exactly `[a, b]` when the text is `a:b` followed by colons only, with no colon in `a` or `b` and `b` non-empty |
| JavaLang.ParseInt | app/src/main/java/io/github/shazxrin/alif/prayer/service/PrayerTimingService.java:59-63 | `Integer.parseInt` only yields values in the 32-bit range, and only from non-empty, colon-free text |
| JavaLang.ParseIntDigits | app/src/main/java/io/github/shazxrin/alif/prayer/service/PrayerTimingService.java:59-63 | a digit string whose value fits in 32 bits parses to that value, leading zeros included |
| JavaTime.Of | app/src/main/java/io/github/shazxrin/alif/prayer/service/PrayerTimingService.java:68 | `LocalTime.of(h, m)` has hour `h`, minute `m` and no seconds |
| JavaTime.IsBefore | app/src/main/java/io/github/shazxrin/alif/prayer/service/PrayerTimingService.java:103 | `isBefore` is the lexicographic order on hour, minute and second |
| JavaTime.Minus | app/src/main/java/io/github/shazxrin/alif/prayer/service/PrayerTimingService.java:157 | `minus` is plain subtraction when the duration fits before the time, and adds one day when it crosses midnight by at most a day |
| JavaTime.MinusSpec | app/src/main/java/io/github/shazxrin/alif/prayer/service/PrayerTimingService.java:157 | `minus` moves back by the duration modulo one day, and does not wrap when the duration fits before the time |
| JavaTime.MinusUnique | app/src/main/java/io/github/shazxrin/alif/prayer/service/PrayerTimingService.java:157 | the result of `minus` is the only time of day congruent to `time − duration` |
| JavaTime.FormatHHmm | app/src/main/java/io/github/shazxrin/alif/prayer/service/PrayerTimingService.java:26 | `HH:mm` is five characters: two digits for the hour, then a colon, then two digits for the minute |
| PythonLang.Strip | data-processing/main.py:8 | the stripped text has no whitespace at either end |
| PythonLang.StripPadded | data-processing/main.py:8 | stripping removes exactly the surrounding whitespace, and nothing inside it |
| PythonLang.StripIdempotent | data-processing/main.py:8 | stripping twice is the same as stripping once |
| PythonLang.Int | data-processing/main.py:9-10 | a text `int()` accepts is non-empty once stripped and ends in a digit; a negative value comes from a leading minus sign |
| PythonLang.IntStrip | data-processing/main.py:9-10 | `int()` ignores surrounding whitespace |
| PythonLang.IntDigits | data-processing/main.py:9-10 | `int()` reads a digit string as its value, with no bound |
| PythonLang.Format02 | data-processing/main.py:11 | `{:02d}` gives at least two characters, and gives the zero-padded pair for 0..99 |
| PythonLang.FormatRoundTrip | data-processing/main.py:11 | round trip: `int()` reads back what `{:02d}` prints, for every integer, negative ones included |
| PythonLang.Join | data-processing/main.py:68-72 | the joined text starts with the first part; growth by one part is stated by `PythonLang.JoinAppend` |
| PythonLang.JoinAppend | data-processing/main.py:68-72 | joining one more part adds the separator and then that part |
| DataProcessing.ProcessAmTime | data-processing/main.py:5-11 | if and only if: the result is the missing value exactly when the cell is missing |
| DataProcessing.ProcessPmTime | data-processing/main.py:14-24 | if and only if: the result is the missing value exactly when the cell is missing |
| DataProcessing.ReadHourMinute | data-processing/main.py:8-10 | a cell is read only when its stripped text holds a space; `IndexError` is raised only when it holds none and the whole text is a number |
| DataProcessing.Clock | data-processing/main.py:11 | the output has at least five characters, with the colon right after the hour field |
| DataProcessing.AfternoonHour | data-processing/main.py:21-22 | a non-negative hour ends up at 12 or later, on the same 12-hour clock face |
| DataProcessing.ConvertToSql | data-processing/main.py:55-72 | the nested loops build exactly the full statement: the quoted column list, then every row's tuple in row order |
| DataProcessing.SqlText | data-processing/main.py:72 | the statement starts with `INSERT INTO prayer_timings (` and ends with `;` |
| DataProcessingLemmas.ReadTwoFields | data-processing/main.py:8-10 | `"h m"`, with both fields digit strings, reads as the pair of their values |
| DataProcessingLemmas.ReadDigitFields | data-processing/main.py:8-10 | surrounding whitespace and any number of extra fields after the minute do not change the pair that is read |
| DataProcessingLemmas.ReadDecimalFields | data-processing/main.py:8-10 | the same, for the decimal renderings of two numbers |
| DataProcessingLemmas.OneField | data-processing/main.py:10 | a single number with no space raises `IndexError` at `parts[1]` |
| DataProcessingLemmas.HourReadFirst | data-processing/main.py:9 | a first field that is not a number raises `ValueError` for that field, before the minute is looked at |
| DataProcessingLemmas.DoubleSpace | data-processing/main.py:8-10 | two spaces between hour and minute make the second field empty, and `int('')` raises `ValueError` |
| DataProcessingLemmas.AmConversion | data-processing/main.py:5-11 | a morning cell `"h m"` becomes `f"{h:02d}:{m:02d}"` |
| DataProcessingLemmas.PmConversion | data-processing/main.py:14-24 | an afternoon cell `"h m"` becomes the same form, with 12 added to an hour below 12 |
| DataProcessingLemmas.AmDigitsConversion | data-processing/main.py:5-11 | a morning cell of two digit fields, zero-padded or not, becomes their values written `{h:02d}:{m:02d}`, whatever whitespace surrounds it and whatever extra fields follow |
| DataProcessingLemmas.PmDigitsConversion | data-processing/main.py:14-24 | the same for an afternoon cell, with 12 added to an hour below 12 |
| DataProcessingLemmas.PaddedMorningCell | data-processing/main.py:5-11 | a morning cell already written as two zero-padded pairs, such as `"05 07"`, keeps its digits: `"05:07"` |
| DataProcessingLemmas.ConversionsAgree | data-processing/main.py:5-24 | both conversions fail on the same cells with the same error, and they agree on hours of 12 and above |
| DataProcessingLemmas.ClockTwoDigits | data-processing/main.py:11 | for numbers below 100, the output is two zero-padded pairs around a colon, five characters in all |
| DataProcessingLemmas.AfternoonRange | data-processing/main.py:21-22 | morning hours 0..11 move to 12..23, other hours stay as they are, and the shift is idempotent |
| DataProcessingLemmas.ClockReadsBack | data-processing/main.py:11 | round trip: the output splits at the colon into two fields that read back as the hour and the minute |
| DataProcessingLemmas.ClockAccepted | app/src/main/java/io/github/shazxrin/alif/prayer/service/PrayerTimingService.java:53-69 | every in-range time the script writes is accepted by the service's `convertTime` as that time |
| DataProcessingLemmas.MorningStored | data-processing/main.py:5-11 | a morning cell with an in-range hour and minute is converted to a string the service parses as that time |
| DataProcessingLemmas.AfternoonStored | data-processing/main.py:14-24 | an afternoon cell is converted to a string the service parses as the shifted hour, which is in 12..23 |
| DataProcessingLemmas.PmPlain | data-processing/main.py:14-24 | the afternoon conversion of a plain `"h m"` cell |
| DataProcessingLemmas.ReadPlain | data-processing/main.py:8-10 | a plain `"h m"` cell reads as `(h, m)` |
| DataProcessingLemmas.OutOfRangePassesThrough | data-processing/main.py:9-11 | the script checks no range: `"25 70"` becomes `"25:70"`, which the service then rejects with `InvalidHour` |
| DataProcessingLemmas.RenderRoundTrip | data-processing/main.py:63-66 | round trip: every rendered value can be read back as the cell it came from |
| DataProcessingLemmas.RenderNull | data-processing/main.py:63-66 | if and only if: a value is rendered as `NULL` exactly when the cell is missing |
| DataProcessingLemmas.UnescapedQuotesCollide | data-processing/main.py:66-69 | because quotes are not escaped, two different rows can render as the same tuple |
| DataProcessingLemmas.TupleAppend | data-processing/main.py:61-69 | one more cell in a row adds `, ` and that cell's value inside the parentheses |
| DataProcessingLemmas.ColumnListAppend | data-processing/main.py:56 | one more column adds `, ` and that column's name in double quotes |
| DataProcessingLemmas.SqlAppendRow | data-processing/main.py:59-72 | one more row adds `,\n` and that row's tuple before the closing `;` |
| DataProcessingLemmas.SqlOneRow | data-processing/main.py:72 | the statement for a single row is the column list, `VALUES`, that row's tuple and `;` |
| DataProcessingLemmas.SqlNoRows | data-processing/main.py:72 | with no rows, the statement ends `VALUES\n;` |

## Left out

- **I/O and the framework.** The clock, the system time zone (`getInstant`),
  logging, Spring's wiring, the `@Scheduled` cron and
  `PrayerTimingReminderBootstrap` are not modelled. The instant a task is
  registered for is the local date-time itself.
- **The title date.** The summary title's date (the `dd MMM YYYY` pattern,
  whose `YYYY` is the week-based year) is the parameter `formattedDate`.
  Date formatting is not modelled.
- **The clock's precision.** `now` is a whole second of the day, while
  `LocalTime.now()` has nanosecond precision. A clock reading such as
  05:30:00.4 is truncated to 05:30:00 here. So a prayer time in the same
  second as the clock is registered by the model, while the source skips it
  because `05:30.isBefore(05:30:00.4)` holds. The same applies to the
  pre-reminder's time.
- **The lead time.** `durationBefore` is whole seconds. Sub-second durations
  are not modelled. A missing `preReminder` configuration, which throws a
  `NullPointerException` in the source, is not modelled.
- **The trigger's callback.** `remindPrayerTiming`, which the trigger hands
  to the scheduler, is not defined in this version of `PrayerTimingService`.
  It is modelled only as a task descriptor and is never run.
- **Callbacks.** The scheduled callbacks are descriptors, not closures, so
  running a callback is not modelled. What a callback would send is stated
  by `NotifyPrayerTimingPeriod` and `NotifyPrePrayerTimingPeriod`.
- **The clock within one run.** Each run reads the clock once: one `today`
  and one `now`. The source reads `LocalDate.now()` and `LocalTime.now()`
  for each period separately, so a run that straddles midnight is not
  modelled.
- **`ServiceLemmas.PrayerNames`.** The prayer names are lower-cased as
  ASCII. `toLowerCase()` without a locale uses the JVM's default locale, and
  under a Turkish or Azerbaijani locale `I` becomes the dotless `ı`. There
  "ISYAK" becomes "ısyak" and "MAGHRIB" becomes "maghrıb", which changes those
  two prayers' titles and messages. The model assumes a default locale whose
  lower case of A-Z is ASCII.
- **`Integer.parseInt`.** It is modelled for ASCII digits with an optional
  sign. Other Unicode decimal digits are rejected here, although the JDK
  accepts them.
- **Python `int()`.** It is modelled for ASCII digits with an optional sign,
  surrounded by whitespace. Underscores between digits, other Unicode
  digits, and the interpreter's limit on very long digit strings are not
  modelled.
- **`process_prayer_timings` and the `__main__` block.** Reading the CSV,
  `to_datetime`/`strftime`, `apply` and writing the `.sql` file are pandas
  and file I/O, and are not modelled.
- **Cell values.** A cell is pandas' missing value or a string. Other cell
  types, such as numbers, and duplicate column names (where `row[col]` would
  be a Series) are not modelled.
- **`DataProcessing.ConvertToSql`.** It requires every row to have one cell
  per column. A pandas frame always has this shape.
- **`JavaTime.FormatHHmm`.** Its contract does not state the seconds, which
  the `HH:mm` pattern drops.
- **`Service.ConvertTime`.** Its own contract states only that the seconds
  are zero. Acceptance, errors and the round trip are stated by the
  `ServiceLemmas` members above.
- **`Trigger.ConvertTime`.** Its own contract states only that it raises
  parse errors. What it accepts and rejects is stated by
  `Trigger.ConvertTimeAgrees` together with the `ServiceLemmas` members.
- **`PythonLang.Join`.** Its own contract states only the first part. The
  rest of the text is stated by `PythonLang.JoinAppend`.
