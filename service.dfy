/**
 * `PrayerTimingService`: parsing of stored times, the notification texts,
 * and the methods that register today's reminders with the task scheduler
 * and send notifications.
 */
module Service {
  import opened Wrappers
  import opened Text
  import opened JavaLang
  import opened JavaTime
  import opened PrayerModel
  import opened Arming

  /** `getPrayerTimingByDate`: the stored record, or `PrayerTimingNotFoundException`. */
  function GetPrayerTimingByDate(repository: Repository, date: LocalDate): (r: Result<PrayerTiming, Error>)
    ensures r.Success? <==> date in repository
    ensures r.Success? ==> r.value == repository[date]
    ensures r.Failure? ==> r.error == PrayerTimingNotFound
  {
    if date in repository then Success(repository[date]) else Failure(PrayerTimingNotFound)
  }

  /**
   * `convertTime`: split on `:`, which must give two fields; the hour field is
   * parsed and range-checked before the minute field is looked at.
   */
  function ConvertTime(time: string): (r: Result<LocalTime, Error>)
    ensures r.Success? ==> SecondOf(r.value) == 0
  {
    var split := JavaSplit(time, ':');
    if |split| != 2 then Failure(InvalidTimeFormat)
    else
      match ParseInt(split[0])
      case None => Failure(NumberFormat(split[0]))
      case Some(hour) =>
        if hour < 0 || hour > 23 then Failure(InvalidHour)
        else
          match ParseInt(split[1])
          case None => Failure(NumberFormat(split[1]))
          case Some(minute) =>
            if minute < 0 || minute > 59 then Failure(InvalidMinute)
            else Success(Of(hour, minute))
  }

  /** `prayerPeriod.name().toLowerCase()`, for a default locale whose lower case of A-Z is ASCII. */
  function PrayerName(p: PrayerPeriod): string {
    ToLowerAscii(Name(p))
  }

  /** The title and message `notifyPrayerTimingPeriod` starts from, which every period overwrites. */
  const UnknownTitle: string := "Unknown prayer time."
  const UnknownMessage: string := "Time to pray for unknown. Always good to pray for no reason."

  /** The same for `notifyPrePrayerTimingPeriod`. */
  const UnknownPreTitle: string := "Unknown pre-prayer time."
  const UnknownPreMessage: string := "Time to pray for unknown soon. Always good to pray for no reason."

  /** The title and message `notifyPrayerTimingPeriod` sends for a period at `dateTime`. */
  function PrayerTimingContent(period: PrayerPeriod, dateTime: LocalDateTime): (n: Notification)
    ensures |n.message| >= 6 && n.message[|n.message| - 6..] == FormatHHmm(dateTime.time) + "."
    ensures period != SYURUK ==>
              19 + |PrayerName(period)| <= |n.message| && n.message[19..19 + |PrayerName(period)|] == PrayerName(period)
  {
    match period
    case SUBUH | ZOHOR | ASAR | MAGHRIB | ISYAK =>
      Notification(
        "It is " + PrayerName(period) + " prayer time.",
        "It is time to pray " + PrayerName(period) + " at " + FormatHHmm(dateTime.time) + ".")
    case SYURUK =>
      Notification("It is syuruk.", "It is syuruk at " + FormatHHmm(dateTime.time) + ".")
  }

  /** The title and message `notifyPrePrayerTimingPeriod` sends for a period at `dateTime`. */
  function PrePrayerTimingContent(period: PrayerPeriod, dateTime: LocalDateTime): (n: Notification)
    ensures |n.message| >= 6 && n.message[|n.message| - 6..] == FormatHHmm(dateTime.time) + "."
    ensures period != SYURUK ==>
              26 + |PrayerName(period)| <= |n.message| && n.message[26..26 + |PrayerName(period)|] == PrayerName(period)
  {
    match period
    case SUBUH | ZOHOR | ASAR | MAGHRIB | ISYAK =>
      Notification(
        "It is almost " + PrayerName(period) + " prayer time.",
        "It is almost time to pray " + PrayerName(period) + " at " + FormatHHmm(dateTime.time) + ".")
    case SYURUK =>
      Notification("It is almost syuruk.", "It is almost syuruk at " + FormatHHmm(dateTime.time) + ".")
  }

  const SummaryTitlePrefix: string := "Prayer timings for "
  const SummaryHeader: string := "Here is a summary of today's prayer timings:\n"

  /** The stored times of a record, Subuh to Isyak. */
  function Times(timing: PrayerTiming): (ts: seq<string>)
    ensures |ts| == 6
  {
    [timing.subuh, timing.syuruk, timing.zohor, timing.asar, timing.maghrib, timing.isyak]
  }

  /** `convertTime` on each time in turn; the first exception is raised instead. */
  function ParseAll(times: seq<string>): (r: Result<seq<LocalTime>, Error>)
    ensures r.Success? ==> |r.value| == |times|
    ensures r.Failure? ==> exists i :: 0 <= i < |times| && ConvertTime(times[i]) == Failure(r.error)
    decreases |times|
  {
    if times == [] then Success([])
    else
      var t :- ConvertTime(times[0]);
      var rest :- ParseAll(times[1..]);
      Success([t] + rest)
  }

  /**
   * What `notifyAllPrayerTimingPeriods` sends for a record: the six times are
   * converted in the order Subuh to Isyak (the order of the format
   * arguments), and the first failure is raised instead. `formattedDate` is
   * today written with the `dd MMM YYYY` pattern.
   */
  function SummaryContent(timing: PrayerTiming, formattedDate: string): (r: Result<Notification, Error>)
    ensures r.Success? ==> r.value.title == SummaryTitlePrefix + formattedDate
    ensures r.Success? ==> |SummaryHeader| < |r.value.message| && r.value.message[..|SummaryHeader|] == SummaryHeader
    ensures r.Failure? ==> exists i :: 0 <= i < 6 && ConvertTime(Times(timing)[i]) == Failure(r.error)
  {
    var ts :- ParseAll(Times(timing));
    var lines :=
      "Subuh: " + FormatHHmm(ts[0]) + "\n"
      + "Syuruk: " + FormatHHmm(ts[1]) + "\n"
      + "Zohor: " + FormatHHmm(ts[2]) + "\n"
      + "Asar: " + FormatHHmm(ts[3]) + "\n"
      + "Maghrib: " + FormatHHmm(ts[4]) + "\n"
      + "Isyak: " + FormatHHmm(ts[5]) + "\n";
    assert (SummaryHeader + lines)[..|SummaryHeader|] == SummaryHeader;
    Success(Notification(SummaryTitlePrefix + formattedDate, SummaryHeader + lines))
  }

  /** What `notifyAllPrayerTimingPeriods` sends, starting from the repository. */
  function Summary(repository: Repository, today: LocalDate, formattedDate: string): (r: Result<Notification, Error>)
    ensures today !in repository ==> r == Failure(PrayerTimingNotFound)
    ensures r.Success? ==> today in repository && r.value.title == SummaryTitlePrefix + formattedDate
  {
    var timing :- GetPrayerTimingByDate(repository, today);
    SummaryContent(timing, formattedDate)
  }

  /**
   * What `scheduleNotifyPrayerTimingPeriod` registers: nothing when the time
   * is strictly before `now`, otherwise one reminder at today's time whose
   * callback is told the same date-time.
   */
  function AtEventStep(entry: Entry, today: LocalDate, now: LocalTime): (r: Result<seq<Registration>, Error>)
    ensures r.Failure? <==> ConvertTime(entry.time).Failure?
    ensures r.Success? ==> |r.value| <= 1
    ensures r.Success? ==> forall reg :: reg in r.value ==>
              reg.task.period == entry.period && reg.startTime.date == today && !IsBefore(reg.startTime.time, now)
  {
    match ConvertTime(entry.time)
    case Failure(e) => Failure(e)
    case Success(prayerTime) =>
      if IsBefore(prayerTime, now) then Success([])
      else
        var prayerDateTime := LocalDateTime(today, prayerTime);
        Success([Registration(NotifyPrayerTimingPeriod(entry.period, prayerDateTime), prayerDateTime)])
  }

  /**
   * What `scheduleNotifyPrePrayerTimingPeriod` registers: the reminder fires
   * `durationBefore` seconds before the prayer time (wrapping at midnight)
   * unless that is strictly before `now`, and its callback is told the prayer
   * time itself.
   */
  function PreEventStep(entry: Entry, today: LocalDate, now: LocalTime, durationBefore: int): (r: Result<seq<Registration>, Error>)
    ensures r.Failure? <==> ConvertTime(entry.time).Failure?
    ensures r.Success? ==> |r.value| <= 1
    ensures r.Success? ==> forall reg :: reg in r.value ==>
              reg.task.period == entry.period && reg.startTime.date == today && !IsBefore(reg.startTime.time, now)
  {
    match ConvertTime(entry.time)
    case Failure(e) => Failure(e)
    case Success(prayerTime) =>
      var prePrayerTime := Minus(prayerTime, durationBefore);
      if IsBefore(prePrayerTime, now) then Success([])
      else
        Success([Registration(
          NotifyPrePrayerTimingPeriod(entry.period, LocalDateTime(today, prayerTime)),
          LocalDateTime(today, prePrayerTime))])
  }

  /** The six at-event calls' results for a record, Subuh to Isyak. */
  function AtEventResults(timing: PrayerTiming, today: LocalDate, now: LocalTime): (rs: seq<StepResult>)
    ensures |rs| == 6
  {
    [AtEventStep(Entry(SUBUH, timing.subuh), today, now),
     AtEventStep(Entry(SYURUK, timing.syuruk), today, now),
     AtEventStep(Entry(ZOHOR, timing.zohor), today, now),
     AtEventStep(Entry(ASAR, timing.asar), today, now),
     AtEventStep(Entry(MAGHRIB, timing.maghrib), today, now),
     AtEventStep(Entry(ISYAK, timing.isyak), today, now)]
  }

  /** The six pre-event calls' results for a record, Subuh to Isyak. */
  function PreEventResults(timing: PrayerTiming, today: LocalDate, now: LocalTime, durationBefore: int): (rs: seq<StepResult>)
    ensures |rs| == 6
  {
    [PreEventStep(Entry(SUBUH, timing.subuh), today, now, durationBefore),
     PreEventStep(Entry(SYURUK, timing.syuruk), today, now, durationBefore),
     PreEventStep(Entry(ZOHOR, timing.zohor), today, now, durationBefore),
     PreEventStep(Entry(ASAR, timing.asar), today, now, durationBefore),
     PreEventStep(Entry(MAGHRIB, timing.maghrib), today, now, durationBefore),
     PreEventStep(Entry(ISYAK, timing.isyak), today, now, durationBefore)]
  }

  /** The run of `scheduleAllNotifyPrayerTimingPeriods`. */
  function ArmAtEvent(repository: Repository, today: LocalDate, now: LocalTime): (run: Run)
    ensures today !in repository ==> run == Run([], Raised(PrayerTimingNotFound))
    ensures forall reg :: reg in run.registrations ==> reg.startTime.date == today && !IsBefore(reg.startTime.time, now)
  {
    match GetPrayerTimingByDate(repository, today)
    case Failure(e) => Run([], Raised(e))
    case Success(timing) =>
      ChainFromCalls(AtEventResults(timing, today, now));
      Chain(AtEventResults(timing, today, now))
  }

  /** The run of `scheduleAllNotifyPrePrayerTimingPeriods`. */
  function ArmPreEvent(repository: Repository, today: LocalDate, now: LocalTime, durationBefore: int): (run: Run)
    ensures today !in repository ==> run == Run([], Raised(PrayerTimingNotFound))
    ensures forall reg :: reg in run.registrations ==> reg.startTime.date == today && !IsBefore(reg.startTime.time, now)
  {
    match GetPrayerTimingByDate(repository, today)
    case Failure(e) => Run([], Raised(e))
    case Success(timing) =>
      ChainFromCalls(PreEventResults(timing, today, now, durationBefore));
      Chain(PreEventResults(timing, today, now, durationBefore))
  }

  /**
   * The service itself. The clock is not read: each operation is given
   * `today` and `now`. The configured pre-reminder duration is a number of
   * seconds.
   */
  class PrayerTimingService {
    const repository: Repository
    const durationBefore: int
    const notificationService: NotificationService
    const taskScheduler: TaskScheduler

    constructor (repository: Repository, durationBefore: int,
                 notificationService: NotificationService, taskScheduler: TaskScheduler)
      ensures this.repository == repository && this.durationBefore == durationBefore
      ensures this.notificationService == notificationService && this.taskScheduler == taskScheduler
    {
      this.repository := repository;
      this.durationBefore := durationBefore;
      this.notificationService := notificationService;
      this.taskScheduler := taskScheduler;
    }

    method NotifyPrayerTimingPeriod(period: PrayerPeriod, dateTime: LocalDateTime)
      modifies notificationService
      ensures notificationService.sent == old(notificationService.sent) + [PrayerTimingContent(period, dateTime)]
    {
      var content := PrayerTimingContent(period, dateTime);
      notificationService.SendNotification(content.title, content.message);
    }

    method ScheduleNotifyPrayerTimingPeriod(period: PrayerPeriod, time: string, today: LocalDate, now: LocalTime)
      returns (outcome: Outcome)
      modifies taskScheduler
      ensures taskScheduler.registrations
              == old(taskScheduler.registrations) + StepRegistrations(AtEventStep(Entry(period, time), today, now))
      ensures outcome == StepOutcome(AtEventStep(Entry(period, time), today, now))
    {
      var parsed := ConvertTime(time);
      if parsed.Failure? {
        return Raised(parsed.error);
      }
      var prayerTime := parsed.value;
      if IsBefore(prayerTime, now) {
        return Completed;
      }
      var prayerDateTime := LocalDateTime(today, prayerTime);
      taskScheduler.Schedule(Task.NotifyPrayerTimingPeriod(period, prayerDateTime), prayerDateTime);
      return Completed;
    }

    method ScheduleAllNotifyPrayerTimingPeriods(today: LocalDate, now: LocalTime) returns (outcome: Outcome)
      modifies taskScheduler
      ensures taskScheduler.registrations
              == old(taskScheduler.registrations) + ArmAtEvent(repository, today, now).registrations
      ensures outcome == ArmAtEvent(repository, today, now).outcome
    {
      var found := GetPrayerTimingByDate(repository, today);
      if found.Failure? {
        return Raised(found.error);
      }
      var timing := found.value;
      ghost var k6 := Run([], Completed);
      ghost var k5 := Then(AtEventStep(Entry(ISYAK, timing.isyak), today, now), k6);
      ghost var k4 := Then(AtEventStep(Entry(MAGHRIB, timing.maghrib), today, now), k5);
      ghost var k3 := Then(AtEventStep(Entry(ASAR, timing.asar), today, now), k4);
      ghost var k2 := Then(AtEventStep(Entry(ZOHOR, timing.zohor), today, now), k3);
      ghost var k1 := Then(AtEventStep(Entry(SYURUK, timing.syuruk), today, now), k2);
      ghost var k0 := Then(AtEventStep(Entry(SUBUH, timing.subuh), today, now), k1);
      ChainSix(
        AtEventStep(Entry(SUBUH, timing.subuh), today, now),
        AtEventStep(Entry(SYURUK, timing.syuruk), today, now),
        AtEventStep(Entry(ZOHOR, timing.zohor), today, now),
        AtEventStep(Entry(ASAR, timing.asar), today, now),
        AtEventStep(Entry(MAGHRIB, timing.maghrib), today, now),
        AtEventStep(Entry(ISYAK, timing.isyak), today, now));
      ghost var expected := taskScheduler.registrations + k0.registrations;
      Advance(expected, taskScheduler.registrations, AtEventStep(Entry(SUBUH, timing.subuh), today, now), k1);
      outcome := ScheduleNotifyPrayerTimingPeriod(SUBUH, timing.subuh, today, now);
      if outcome.Raised? { return; }
      Advance(expected, taskScheduler.registrations, AtEventStep(Entry(SYURUK, timing.syuruk), today, now), k2);
      outcome := ScheduleNotifyPrayerTimingPeriod(SYURUK, timing.syuruk, today, now);
      if outcome.Raised? { return; }
      Advance(expected, taskScheduler.registrations, AtEventStep(Entry(ZOHOR, timing.zohor), today, now), k3);
      outcome := ScheduleNotifyPrayerTimingPeriod(ZOHOR, timing.zohor, today, now);
      if outcome.Raised? { return; }
      Advance(expected, taskScheduler.registrations, AtEventStep(Entry(ASAR, timing.asar), today, now), k4);
      outcome := ScheduleNotifyPrayerTimingPeriod(ASAR, timing.asar, today, now);
      if outcome.Raised? { return; }
      Advance(expected, taskScheduler.registrations, AtEventStep(Entry(MAGHRIB, timing.maghrib), today, now), k5);
      outcome := ScheduleNotifyPrayerTimingPeriod(MAGHRIB, timing.maghrib, today, now);
      if outcome.Raised? { return; }
      Advance(expected, taskScheduler.registrations, AtEventStep(Entry(ISYAK, timing.isyak), today, now), k6);
      outcome := ScheduleNotifyPrayerTimingPeriod(ISYAK, timing.isyak, today, now);
    }

    method NotifyPrePrayerTimingPeriod(period: PrayerPeriod, dateTime: LocalDateTime)
      modifies notificationService
      ensures notificationService.sent == old(notificationService.sent) + [PrePrayerTimingContent(period, dateTime)]
    {
      var content := PrePrayerTimingContent(period, dateTime);
      notificationService.SendNotification(content.title, content.message);
    }

    method ScheduleNotifyPrePrayerTimingPeriod(period: PrayerPeriod, time: string, durationBefore: int,
                                               today: LocalDate, now: LocalTime)
      returns (outcome: Outcome)
      modifies taskScheduler
      ensures taskScheduler.registrations
              == old(taskScheduler.registrations)
                 + StepRegistrations(PreEventStep(Entry(period, time), today, now, durationBefore))
      ensures outcome == StepOutcome(PreEventStep(Entry(period, time), today, now, durationBefore))
    {
      var parsed := ConvertTime(time);
      if parsed.Failure? {
        return Raised(parsed.error);
      }
      var prayerTime := parsed.value;
      var prePrayerTime := Minus(prayerTime, durationBefore);
      if IsBefore(prePrayerTime, now) {
        return Completed;
      }
      var prayerDateTime := LocalDateTime(today, prayerTime);
      var prePrayerDateTime := LocalDateTime(today, prePrayerTime);
      taskScheduler.Schedule(Task.NotifyPrePrayerTimingPeriod(period, prayerDateTime), prePrayerDateTime);
      return Completed;
    }

    method ScheduleAllNotifyPrePrayerTimingPeriods(today: LocalDate, now: LocalTime) returns (outcome: Outcome)
      modifies taskScheduler
      ensures taskScheduler.registrations
              == old(taskScheduler.registrations) + ArmPreEvent(repository, today, now, durationBefore).registrations
      ensures outcome == ArmPreEvent(repository, today, now, durationBefore).outcome
    {
      var found := GetPrayerTimingByDate(repository, today);
      if found.Failure? {
        return Raised(found.error);
      }
      var timing := found.value;
      ghost var k6 := Run([], Completed);
      ghost var k5 := Then(PreEventStep(Entry(ISYAK, timing.isyak), today, now, durationBefore), k6);
      ghost var k4 := Then(PreEventStep(Entry(MAGHRIB, timing.maghrib), today, now, durationBefore), k5);
      ghost var k3 := Then(PreEventStep(Entry(ASAR, timing.asar), today, now, durationBefore), k4);
      ghost var k2 := Then(PreEventStep(Entry(ZOHOR, timing.zohor), today, now, durationBefore), k3);
      ghost var k1 := Then(PreEventStep(Entry(SYURUK, timing.syuruk), today, now, durationBefore), k2);
      ghost var k0 := Then(PreEventStep(Entry(SUBUH, timing.subuh), today, now, durationBefore), k1);
      ChainSix(
        PreEventStep(Entry(SUBUH, timing.subuh), today, now, durationBefore),
        PreEventStep(Entry(SYURUK, timing.syuruk), today, now, durationBefore),
        PreEventStep(Entry(ZOHOR, timing.zohor), today, now, durationBefore),
        PreEventStep(Entry(ASAR, timing.asar), today, now, durationBefore),
        PreEventStep(Entry(MAGHRIB, timing.maghrib), today, now, durationBefore),
        PreEventStep(Entry(ISYAK, timing.isyak), today, now, durationBefore));
      ghost var expected := taskScheduler.registrations + k0.registrations;
      Advance(expected, taskScheduler.registrations, PreEventStep(Entry(SUBUH, timing.subuh), today, now, durationBefore), k1);
      outcome := ScheduleNotifyPrePrayerTimingPeriod(SUBUH, timing.subuh, durationBefore, today, now);
      if outcome.Raised? { return; }
      Advance(expected, taskScheduler.registrations, PreEventStep(Entry(SYURUK, timing.syuruk), today, now, durationBefore), k2);
      outcome := ScheduleNotifyPrePrayerTimingPeriod(SYURUK, timing.syuruk, durationBefore, today, now);
      if outcome.Raised? { return; }
      Advance(expected, taskScheduler.registrations, PreEventStep(Entry(ZOHOR, timing.zohor), today, now, durationBefore), k3);
      outcome := ScheduleNotifyPrePrayerTimingPeriod(ZOHOR, timing.zohor, durationBefore, today, now);
      if outcome.Raised? { return; }
      Advance(expected, taskScheduler.registrations, PreEventStep(Entry(ASAR, timing.asar), today, now, durationBefore), k4);
      outcome := ScheduleNotifyPrePrayerTimingPeriod(ASAR, timing.asar, durationBefore, today, now);
      if outcome.Raised? { return; }
      Advance(expected, taskScheduler.registrations, PreEventStep(Entry(MAGHRIB, timing.maghrib), today, now, durationBefore), k5);
      outcome := ScheduleNotifyPrePrayerTimingPeriod(MAGHRIB, timing.maghrib, durationBefore, today, now);
      if outcome.Raised? { return; }
      Advance(expected, taskScheduler.registrations, PreEventStep(Entry(ISYAK, timing.isyak), today, now, durationBefore), k6);
      outcome := ScheduleNotifyPrePrayerTimingPeriod(ISYAK, timing.isyak, durationBefore, today, now);
    }

    method NotifyAllPrayerTimingPeriods(today: LocalDate, formattedDate: string) returns (outcome: Outcome)
      modifies notificationService
      ensures notificationService.sent == old(notificationService.sent)
              + (if Summary(repository, today, formattedDate).Success?
                 then [Summary(repository, today, formattedDate).value] else [])
      ensures outcome == StepOutcome(Summary(repository, today, formattedDate))
    {
      var found := GetPrayerTimingByDate(repository, today);
      if found.Failure? {
        return Raised(found.error);
      }
      var summary := SummaryContent(found.value, formattedDate);
      if summary.Failure? {
        return Raised(summary.error);
      }
      notificationService.SendNotification(summary.value.title, summary.value.message);
      return Completed;
    }
  }
}
