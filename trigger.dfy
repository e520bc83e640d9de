/**
 * `PrayerTimingReminderSchedule`: the midnight trigger that registers one
 * `remindPrayerTiming` callback per period for today, with its own copy of
 * the time parser and without the service's check against the current time.
 */
module Trigger {
  import opened Wrappers
  import opened JavaLang
  import opened JavaTime
  import opened PrayerModel
  import opened Arming
  import Service
  import opened ServiceRuns

  /** This class's own `convertTime`. */
  function ConvertTime(time: string): (r: Result<LocalTime, Error>)
    ensures r.Failure? ==> r.error != PrayerTimingNotFound
  {
    var split := JavaSplit(time, ':');
    if |split| != 2 then Failure(InvalidTimeFormat)
    else
      match ParseInt(split[0])
      case None => Failure(NumberFormat(split[0]))
      case Some(hour) =>
        if hour < 0 || hour > 23 then Failure(InvalidHour)
        else
          match ParseInt(split[1])
          case None => Failure(NumberFormat(split[1]))
          case Some(minute) =>
            if minute < 0 || minute > 59 then Failure(InvalidMinute)
            else Success(Of(hour, minute))
  }

  /** The two parsers agree on every string: same time, same error. */
  lemma ConvertTimeAgrees(time: string)
    ensures ConvertTime(time) == Service.ConvertTime(time)
  {
  }

  /**
   * What `schedulePrayerTimingPeriodReminder` registers: one reminder at
   * today's time, past or not, whose callback is told the same date-time.
   */
  function ReminderStep(entry: Entry, today: LocalDate): (r: StepResult)
    ensures r.Failure? ==> ConvertTime(entry.time) == Failure(r.error)
    ensures r.Success? ==> |r.value| == 1
    ensures r.Success? ==> forall reg :: reg in r.value ==>
              reg.startTime.date == today && reg.task == RemindPrayerTiming(entry.period, reg.startTime)
  {
    match ConvertTime(entry.time)
    case Failure(e) => Failure(e)
    case Success(prayerTime) =>
      var prayerDateTime := LocalDateTime(today, prayerTime);
      Success([Registration(RemindPrayerTiming(entry.period, prayerDateTime), prayerDateTime)])
  }

  /** The six reminder calls' results for a record, Subuh to Isyak. */
  function ReminderResults(timing: PrayerTiming, today: LocalDate): (rs: seq<StepResult>)
    ensures |rs| == 6
  {
    [ReminderStep(Entry(SUBUH, timing.subuh), today),
     ReminderStep(Entry(SYURUK, timing.syuruk), today),
     ReminderStep(Entry(ZOHOR, timing.zohor), today),
     ReminderStep(Entry(ASAR, timing.asar), today),
     ReminderStep(Entry(MAGHRIB, timing.maghrib), today),
     ReminderStep(Entry(ISYAK, timing.isyak), today)]
  }

  /** The run of `schedulePrayerTimingReminders`; the record is looked up through the service. */
  function ArmReminders(repository: Repository, today: LocalDate): (run: Run)
    ensures run.outcome == Completed ==> today in repository
    ensures today !in repository ==> run.registrations == []
  {
    match Service.GetPrayerTimingByDate(repository, today)
    case Failure(e) => Run([], Raised(e))
    case Success(timing) =>
      Chain(ReminderResults(timing, today))
  }

  /** The trigger. It is given `today`; the cron schedule that runs it at midnight is not modelled. */
  class PrayerTimingReminderSchedule {
    const prayerTimingService: Service.PrayerTimingService
    const taskScheduler: TaskScheduler

    constructor (prayerTimingService: Service.PrayerTimingService, taskScheduler: TaskScheduler)
      ensures this.prayerTimingService == prayerTimingService && this.taskScheduler == taskScheduler
    {
      this.prayerTimingService := prayerTimingService;
      this.taskScheduler := taskScheduler;
    }

    method SchedulePrayerTimingPeriodReminder(period: PrayerPeriod, time: string, today: LocalDate)
      returns (outcome: Outcome)
      modifies taskScheduler
      ensures taskScheduler.registrations
              == old(taskScheduler.registrations) + StepRegistrations(ReminderStep(Entry(period, time), today))
      ensures outcome == StepOutcome(ReminderStep(Entry(period, time), today))
    {
      var parsed := ConvertTime(time);
      if parsed.Failure? {
        return Raised(parsed.error);
      }
      var prayerDateTime := LocalDateTime(today, parsed.value);
      taskScheduler.Schedule(RemindPrayerTiming(period, prayerDateTime), prayerDateTime);
      return Completed;
    }

    method SchedulePrayerTimingReminders(today: LocalDate) returns (outcome: Outcome)
      modifies taskScheduler
      ensures taskScheduler.registrations
              == old(taskScheduler.registrations) + ArmReminders(prayerTimingService.repository, today).registrations
      ensures outcome == ArmReminders(prayerTimingService.repository, today).outcome
    {
      var found := Service.GetPrayerTimingByDate(prayerTimingService.repository, today);
      if found.Failure? {
        return Raised(found.error);
      }
      var timing := found.value;
      ghost var k6 := Run([], Completed);
      ghost var k5 := Then(ReminderStep(Entry(ISYAK, timing.isyak), today), k6);
      ghost var k4 := Then(ReminderStep(Entry(MAGHRIB, timing.maghrib), today), k5);
      ghost var k3 := Then(ReminderStep(Entry(ASAR, timing.asar), today), k4);
      ghost var k2 := Then(ReminderStep(Entry(ZOHOR, timing.zohor), today), k3);
      ghost var k1 := Then(ReminderStep(Entry(SYURUK, timing.syuruk), today), k2);
      ghost var k0 := Then(ReminderStep(Entry(SUBUH, timing.subuh), today), k1);
      ChainSix(
        ReminderStep(Entry(SUBUH, timing.subuh), today),
        ReminderStep(Entry(SYURUK, timing.syuruk), today),
        ReminderStep(Entry(ZOHOR, timing.zohor), today),
        ReminderStep(Entry(ASAR, timing.asar), today),
        ReminderStep(Entry(MAGHRIB, timing.maghrib), today),
        ReminderStep(Entry(ISYAK, timing.isyak), today));
      ghost var expected := taskScheduler.registrations + k0.registrations;
      Advance(expected, taskScheduler.registrations, ReminderStep(Entry(SUBUH, timing.subuh), today), k1);
      outcome := SchedulePrayerTimingPeriodReminder(SUBUH, timing.subuh, today);
      if outcome.Raised? { return; }
      Advance(expected, taskScheduler.registrations, ReminderStep(Entry(SYURUK, timing.syuruk), today), k2);
      outcome := SchedulePrayerTimingPeriodReminder(SYURUK, timing.syuruk, today);
      if outcome.Raised? { return; }
      Advance(expected, taskScheduler.registrations, ReminderStep(Entry(ZOHOR, timing.zohor), today), k3);
      outcome := SchedulePrayerTimingPeriodReminder(ZOHOR, timing.zohor, today);
      if outcome.Raised? { return; }
      Advance(expected, taskScheduler.registrations, ReminderStep(Entry(ASAR, timing.asar), today), k4);
      outcome := SchedulePrayerTimingPeriodReminder(ASAR, timing.asar, today);
      if outcome.Raised? { return; }
      Advance(expected, taskScheduler.registrations, ReminderStep(Entry(MAGHRIB, timing.maghrib), today), k5);
      outcome := SchedulePrayerTimingPeriodReminder(MAGHRIB, timing.maghrib, today);
      if outcome.Raised? { return; }
      Advance(expected, taskScheduler.registrations, ReminderStep(Entry(ISYAK, timing.isyak), today), k6);
      outcome := SchedulePrayerTimingPeriodReminder(ISYAK, timing.isyak, today);
    }
  }

  // ---------------------------------------------------------------------
  // What the trigger registers
  // ---------------------------------------------------------------------

  /**
   * `reg` is the midnight reminder for period `p` stored as `time`: it fires
   * today at the parsed time and its callback is told that same date-time.
   * Unlike the service's reminders, nothing is said about the current time.
   */
  predicate ReminderRegisters(p: PrayerPeriod, time: string, today: LocalDate, reg: Registration) {
    && reg.task == RemindPrayerTiming(p, reg.startTime)
    && reg.startTime.date == today
    && Service.ConvertTime(time) == Success(reg.startTime.time)
  }

  /**
   * No past-check: a call raises exactly what `convertTime` raises, and
   * otherwise registers exactly one reminder, the one above.
   */
  lemma ReminderStepSpec(entry: Entry, today: LocalDate)
    ensures StepOutcome(ReminderStep(entry, today)) == StepOutcome(Service.ConvertTime(entry.time))
    ensures Service.ConvertTime(entry.time).Success? ==> |StepRegistrations(ReminderStep(entry, today))| == 1
    ensures forall reg :: reg in StepRegistrations(ReminderStep(entry, today)) <==>
              ReminderRegisters(entry.period, entry.time, today, reg)
  {
    ConvertTimeAgrees(entry.time);
  }

  /** The six reminder calls for a record, seen one position at a time. */
  lemma ReminderResultsSpec(timing: PrayerTiming, today: LocalDate)
    ensures FailsOnParse(ReminderResults(timing, today), timing)
    ensures RegistersOwnPeriod(ReminderResults(timing, today))
    ensures forall i, reg :: 0 <= i < 6 ==>
              (reg in StepRegistrations(ReminderResults(timing, today)[i]) <==>
               ReminderRegisters(PeriodAt(i), TimeOf(timing, PeriodAt(i)), today, reg))
  {
    var rs := ReminderResults(timing, today);
    forall i | 0 <= i < 6
      ensures rs[i] == ReminderStep(Entry(PeriodAt(i), TimeOf(timing, PeriodAt(i))), today)
    {
    }
    forall i | 0 <= i < 6
      ensures StepOutcome(rs[i]) == StepOutcome(Service.ConvertTime(TimeOf(timing, PeriodAt(i))))
      ensures |StepRegistrations(rs[i])| <= 1
      ensures forall reg :: reg in StepRegistrations(rs[i]) <==>
                ReminderRegisters(PeriodAt(i), TimeOf(timing, PeriodAt(i)), today, reg)
    {
      ReminderStepSpec(Entry(PeriodAt(i), TimeOf(timing, PeriodAt(i))), today);
    }
  }

  /**
   * A registration is made by `schedulePrayerTimingReminders` exactly when
   * today's record exists, every period before its own parsed, and it is the
   * reminder of its own period.
   */
  lemma ArmRemindersMembers(repository: Repository, today: LocalDate, reg: Registration)
    ensures reg in ArmReminders(repository, today).registrations <==>
              && today in repository
              && ParsedBefore(repository[today], reg.task.period)
              && ReminderRegisters(reg.task.period, TimeOf(repository[today], reg.task.period), today, reg)
  {
    if today in repository {
      var timing := repository[today];
      var rs := ReminderResults(timing, today);
      ReminderResultsSpec(timing, today);
      ChainMembersByPeriod(rs, reg);
      PrefixSucceeds(rs, timing, reg.task.period);
      PeriodAtOrdinal(reg.task.period);
    }
  }

  /** The reminders are registered in the order of the day, at most one per period. */
  lemma ArmRemindersOrder(repository: Repository, today: LocalDate)
    ensures var regs := ArmReminders(repository, today).registrations;
            forall i, j :: 0 <= i < j < |regs| ==> Ordinal(regs[i].task.period) < Ordinal(regs[j].task.period)
  {
    if today in repository {
      ReminderResultsSpec(repository[today], today);
      ChainInPeriodOrder(ReminderResults(repository[today], today), 0);
    }
  }

  /** When every stored time parses, the run completes with exactly six reminders, Subuh to Isyak. */
  lemma ArmRemindersAll(repository: Repository, today: LocalDate)
    requires today in repository && AllParse(repository[today])
    ensures ArmReminders(repository, today).outcome == Completed
    ensures var regs := ArmReminders(repository, today).registrations;
            && |regs| == 6
            && forall i :: 0 <= i < 6 ==> ReminderRegisters(PeriodAt(i), TimeOf(repository[today], PeriodAt(i)), today, regs[i])
  {
    var timing := repository[today];
    var rs := ReminderResults(timing, today);
    var regs := seq(6, i requires 0 <= i < 6 =>
                  var at := LocalDateTime(today, Service.ConvertTime(TimeOf(timing, PeriodAt(i))).value);
                  Registration(RemindPrayerTiming(PeriodAt(i), at), at));
    forall i | 0 <= i < 6
      ensures rs[i] == Success([regs[i]])
    {
      assert rs[i] == ReminderStep(Entry(PeriodAt(i), TimeOf(timing, PeriodAt(i))), today);
      ConvertTimeAgrees(TimeOf(timing, PeriodAt(i)));
    }
    ChainSingletons(rs, regs);
  }

  /**
   * Partial arming: when period `p` is the first whose time does not parse,
   * the run raises that error and keeps exactly the reminders of the periods
   * before `p`.
   */
  lemma ArmRemindersPartial(repository: Repository, today: LocalDate, p: PrayerPeriod)
    requires today in repository
    requires ParsedBefore(repository[today], p) && Service.ConvertTime(TimeOf(repository[today], p)).Failure?
    ensures ArmReminders(repository, today).outcome == Raised(Service.ConvertTime(TimeOf(repository[today], p)).error)
    ensures forall reg :: reg in ArmReminders(repository, today).registrations <==>
              && Ordinal(reg.task.period) < Ordinal(p)
              && ReminderRegisters(reg.task.period, TimeOf(repository[today], reg.task.period), today, reg)
  {
    var timing := repository[today];
    PartialOutcome(repository, today, p);
    forall reg
      ensures reg in ArmReminders(repository, today).registrations <==>
                && Ordinal(reg.task.period) < Ordinal(p)
                && ReminderRegisters(reg.task.period, TimeOf(timing, reg.task.period), today, reg)
    {
      ArmRemindersMembers(repository, today, reg);
      if Ordinal(p) < Ordinal(reg.task.period) {
        assert !ParsedBefore(timing, reg.task.period);
      }
    }
  }

  lemma PartialOutcome(repository: Repository, today: LocalDate, p: PrayerPeriod)
    requires today in repository
    requires ParsedBefore(repository[today], p) && Service.ConvertTime(TimeOf(repository[today], p)).Failure?
    ensures ArmReminders(repository, today).outcome == Raised(Service.ConvertTime(TimeOf(repository[today], p)).error)
  {
    var timing := repository[today];
    var rs := ReminderResults(timing, today);
    ReminderResultsSpec(timing, today);
    PrefixSucceeds(rs, timing, p);
    PeriodAtOrdinal(p);
    assert StepOutcome(rs[Ordinal(p)]) == StepOutcome(Service.ConvertTime(TimeOf(timing, p)));
    ChainStopsAtFirstFailure(rs, Ordinal(p));
  }

  /** A missing record is raised before anything is registered. */
  lemma ArmRemindersNotFound(repository: Repository, today: LocalDate)
    requires today !in repository
    ensures ArmReminders(repository, today) == Run([], Raised(PrayerTimingNotFound))
  {
  }

  /** Every reminder the trigger registers is for today, and its callback is told the time it fires. */
  lemma ArmRemindersToday(repository: Repository, today: LocalDate, reg: Registration)
    requires reg in ArmReminders(repository, today).registrations
    ensures reg.startTime.date == today && reg.task == RemindPrayerTiming(reg.task.period, reg.startTime)
  {
    ArmRemindersMembers(repository, today, reg);
  }

  /** The trigger stops at the same first bad time as the service's entry points. */
  lemma ArmRemindersOutcome(repository: Repository, today: LocalDate, now: LocalTime)
    ensures ArmReminders(repository, today).outcome == Service.ArmAtEvent(repository, today, now).outcome
  {
    if today in repository {
      var timing := repository[today];
      TimesAt(timing);
      ReminderResultsSpec(timing, today);
      AtEventResultsSpec(timing, today, now);
      ChainEndsAsParseAll(ReminderResults(timing, today), Service.Times(timing));
      ChainEndsAsParseAll(Service.AtEventResults(timing, today, now), Service.Times(timing));
    }
  }

  /**
   * Run at midnight, the trigger arms the same fire times, in the same order,
   * as `scheduleAllNotifyPrayerTimingPeriods`: nothing is before midnight, so
   * the service skips nothing either.
   */
  lemma ArmRemindersMatchAtMidnight(repository: Repository, today: LocalDate, reg: Registration)
    ensures reg in ArmReminders(repository, today).registrations <==>
              && reg.task == RemindPrayerTiming(reg.task.period, reg.startTime)
              && Registration(Task.NotifyPrayerTimingPeriod(reg.task.period, reg.startTime), reg.startTime)
                 in Service.ArmAtEvent(repository, today, 0).registrations
  {
    ArmRemindersMembers(repository, today, reg);
    ArmAtEventMembers(repository, today, 0,
                      Registration(Task.NotifyPrayerTimingPeriod(reg.task.period, reg.startTime), reg.startTime));
  }
}
