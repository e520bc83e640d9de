/**
 * What the two "schedule all" methods of `PrayerTimingService` register, in
 * which order, and how they end, stated against the stored record.
 */
module ServiceRuns {
  import opened Wrappers
  import opened JavaTime
  import opened PrayerModel
  import opened Arming
  import opened Service

  /** Every period of the day before `p` has a stored time that parses. */
  predicate ParsedBefore(timing: PrayerTiming, p: PrayerPeriod) {
    forall q :: Ordinal(q) < Ordinal(p) ==> ConvertTime(TimeOf(timing, q)).Success?
  }

  /** All six stored times parse. */
  predicate AllParse(timing: PrayerTiming) {
    forall q :: ConvertTime(TimeOf(timing, q)).Success?
  }

  /** Call `i` of a six-call run raises exactly when the stored time of the period at position `i` does not parse. */
  predicate FailsOnParse(results: seq<StepResult>, timing: PrayerTiming) {
    && |results| == 6
    && forall i :: 0 <= i < 6 ==> StepOutcome(results[i]) == StepOutcome(ConvertTime(TimeOf(timing, PeriodAt(i))))
  }

  /** Call `i` of a run registers at most one task, and only for the period at position `i`. */
  predicate RegistersOwnPeriod(results: seq<StepResult>) {
    && (forall i :: 0 <= i < |results| ==> |StepRegistrations(results[i])| <= 1)
    && (forall i, r :: 0 <= i < |results| && r in StepRegistrations(results[i]) ==> Ordinal(r.task.period) == i)
  }

  /** The calls before period `p` all succeed exactly when the stored times before `p` all parse. */
  lemma PrefixSucceeds(results: seq<StepResult>, timing: PrayerTiming, p: PrayerPeriod)
    requires FailsOnParse(results, timing)
    ensures AllSucceed(results[..Ordinal(p)]) <==> ParsedBefore(timing, p)
  {
    var k := Ordinal(p);
    if AllSucceed(results[..k]) {
      forall q | Ordinal(q) < k
        ensures ConvertTime(TimeOf(timing, q)).Success?
      {
        assert results[..k][Ordinal(q)] == results[Ordinal(q)];
        PeriodAtOrdinal(q);
      }
    }
    if ParsedBefore(timing, p) {
      forall j | 0 <= j < k
        ensures results[..k][j].Success?
      {
        assert StepOutcome(results[j]) == StepOutcome(ConvertTime(TimeOf(timing, PeriodAt(j))));
      }
    }
  }

  // ---------------------------------------------------------------------
  // scheduleNotifyPrayerTimingPeriod
  // ---------------------------------------------------------------------

  /**
   * `reg` is an at-event reminder for period `p` stored as `time`: it fires
   * today at the parsed time, which is not before `now`, and its callback
   * notifies `p` with that same date-time.
   */
  predicate AtEventRegisters(p: PrayerPeriod, time: string, today: LocalDate, now: LocalTime, reg: Registration) {
    && reg.task == Task.NotifyPrayerTimingPeriod(p, reg.startTime)
    && reg.startTime.date == today
    && ConvertTime(time) == Success(reg.startTime.time)
    && !IsBefore(reg.startTime.time, now)
  }

  /**
   * The at-event skip rule: a call raises exactly what `convertTime` raises;
   * otherwise it registers nothing when the time is strictly before `now` and
   * exactly the one reminder above when it is not.
   */
  lemma AtEventStepSpec(entry: Entry, today: LocalDate, now: LocalTime)
    ensures StepOutcome(AtEventStep(entry, today, now)) == StepOutcome(ConvertTime(entry.time))
    ensures |StepRegistrations(AtEventStep(entry, today, now))| <= 1
    ensures ConvertTime(entry.time).Success? ==>
              (StepRegistrations(AtEventStep(entry, today, now)) == [] <==> IsBefore(ConvertTime(entry.time).value, now))
    ensures forall reg :: reg in StepRegistrations(AtEventStep(entry, today, now)) <==>
              AtEventRegisters(entry.period, entry.time, today, now, reg)
  {
  }

  /** The six at-event calls for a record, seen one position at a time. */
  lemma AtEventResultsSpec(timing: PrayerTiming, today: LocalDate, now: LocalTime)
    ensures FailsOnParse(AtEventResults(timing, today, now), timing)
    ensures RegistersOwnPeriod(AtEventResults(timing, today, now))
    ensures forall i, reg :: 0 <= i < 6 ==>
              (reg in StepRegistrations(AtEventResults(timing, today, now)[i]) <==>
               AtEventRegisters(PeriodAt(i), TimeOf(timing, PeriodAt(i)), today, now, reg))
  {
    var rs := AtEventResults(timing, today, now);
    forall i | 0 <= i < 6
      ensures rs[i] == AtEventStep(Entry(PeriodAt(i), TimeOf(timing, PeriodAt(i))), today, now)
    {
    }
    forall i | 0 <= i < 6
      ensures StepOutcome(rs[i]) == StepOutcome(ConvertTime(TimeOf(timing, PeriodAt(i))))
      ensures |StepRegistrations(rs[i])| <= 1
      ensures forall reg :: reg in StepRegistrations(rs[i]) <==>
                AtEventRegisters(PeriodAt(i), TimeOf(timing, PeriodAt(i)), today, now, reg)
    {
      AtEventStepSpec(Entry(PeriodAt(i), TimeOf(timing, PeriodAt(i))), today, now);
    }
  }

  // ---------------------------------------------------------------------
  // scheduleAllNotifyPrayerTimingPeriods
  // ---------------------------------------------------------------------

  /**
   * A registration is made by `scheduleAllNotifyPrayerTimingPeriods` exactly
   * when today's record exists, every period before its own parsed, and it
   * is the at-event reminder of its own period.
   */
  lemma ArmAtEventMembers(repository: Repository, today: LocalDate, now: LocalTime, reg: Registration)
    ensures reg in ArmAtEvent(repository, today, now).registrations <==>
              && today in repository
              && ParsedBefore(repository[today], reg.task.period)
              && AtEventRegisters(reg.task.period, TimeOf(repository[today], reg.task.period), today, now, reg)
  {
    if today in repository {
      var timing := repository[today];
      var rs := AtEventResults(timing, today, now);
      AtEventResultsSpec(timing, today, now);
      ChainMembersByPeriod(rs, reg);
      PrefixSucceeds(rs, timing, reg.task.period);
      PeriodAtOrdinal(reg.task.period);
    }
  }

  /** The reminders are registered in the order of the day, at most one per period. */
  lemma ArmAtEventOrder(repository: Repository, today: LocalDate, now: LocalTime)
    ensures var regs := ArmAtEvent(repository, today, now).registrations;
            forall i, j :: 0 <= i < j < |regs| ==> Ordinal(regs[i].task.period) < Ordinal(regs[j].task.period)
  {
    if today in repository {
      AtEventResultsSpec(repository[today], today, now);
      ChainInPeriodOrder(AtEventResults(repository[today], today, now), 0);
    }
  }

  /**
   * When every stored time parses and none is before `now`, the run
   * completes with exactly six reminders, Subuh to Isyak.
   */
  lemma ArmAtEventAll(repository: Repository, today: LocalDate, now: LocalTime)
    requires today in repository && AllParse(repository[today])
    requires forall q :: !IsBefore(ConvertTime(TimeOf(repository[today], q)).value, now)
    ensures ArmAtEvent(repository, today, now).outcome == Completed
    ensures var regs := ArmAtEvent(repository, today, now).registrations;
            && |regs| == 6
            && forall i :: 0 <= i < 6 ==> AtEventRegisters(PeriodAt(i), TimeOf(repository[today], PeriodAt(i)), today, now, regs[i])
  {
    var timing := repository[today];
    var rs := AtEventResults(timing, today, now);
    var regs := seq(6, i requires 0 <= i < 6 =>
                  var at := LocalDateTime(today, ConvertTime(TimeOf(timing, PeriodAt(i))).value);
                  Registration(Task.NotifyPrayerTimingPeriod(PeriodAt(i), at), at));
    forall i | 0 <= i < 6
      ensures rs[i] == Success([regs[i]])
    {
      assert rs[i] == AtEventStep(Entry(PeriodAt(i), TimeOf(timing, PeriodAt(i))), today, now);
    }
    ChainSingletons(rs, regs);
  }

  /**
   * Partial arming: when period `p` is the first whose time does not parse,
   * the run raises that error and keeps exactly the reminders of the periods
   * before `p`.
   */
  lemma ArmAtEventPartial(repository: Repository, today: LocalDate, now: LocalTime, p: PrayerPeriod)
    requires today in repository
    requires ParsedBefore(repository[today], p) && ConvertTime(TimeOf(repository[today], p)).Failure?
    ensures ArmAtEvent(repository, today, now).outcome == Raised(ConvertTime(TimeOf(repository[today], p)).error)
    ensures forall reg :: reg in ArmAtEvent(repository, today, now).registrations <==>
              && Ordinal(reg.task.period) < Ordinal(p)
              && AtEventRegisters(reg.task.period, TimeOf(repository[today], reg.task.period), today, now, reg)
  {
    var timing := repository[today];
    var rs := AtEventResults(timing, today, now);
    AtEventResultsSpec(timing, today, now);
    PrefixSucceeds(rs, timing, p);
    PeriodAtOrdinal(p);
    assert StepOutcome(rs[Ordinal(p)]) == StepOutcome(ConvertTime(TimeOf(timing, p)));
    ChainStopsAtFirstFailure(rs, Ordinal(p));
    forall reg
      ensures reg in ArmAtEvent(repository, today, now).registrations <==>
                && Ordinal(reg.task.period) < Ordinal(p)
                && AtEventRegisters(reg.task.period, TimeOf(timing, reg.task.period), today, now, reg)
    {
      ArmAtEventMembers(repository, today, now, reg);
      if Ordinal(p) < Ordinal(reg.task.period) {
        assert !ParsedBefore(timing, reg.task.period);
      }
    }
  }

  // ---------------------------------------------------------------------
  // scheduleNotifyPrePrayerTimingPeriod
  // ---------------------------------------------------------------------

  /**
   * `reg` is an early reminder for period `p` stored as `time`: its callback
   * notifies `p` with today's prayer time, and it fires today `durationBefore`
   * seconds earlier on the clock face (modulo a day), not before `now`.
   */
  predicate PreEventRegisters(p: PrayerPeriod, time: string, today: LocalDate, now: LocalTime, durationBefore: int,
                              reg: Registration) {
    && reg.task.NotifyPrePrayerTimingPeriod?
    && reg.task.period == p
    && reg.task.dateTime.date == today
    && ConvertTime(time) == Success(reg.task.dateTime.time)
    && reg.startTime.date == today
    && (reg.startTime.time + durationBefore - reg.task.dateTime.time) % SecondsPerDay == 0
    && !IsBefore(reg.startTime.time, now)
  }

  /**
   * The early-reminder rule: a call raises exactly what `convertTime` raises;
   * otherwise it registers nothing when the fire time is strictly before
   * `now`, and exactly the one early reminder above when it is not.
   */
  lemma PreEventStepSpec(entry: Entry, today: LocalDate, now: LocalTime, durationBefore: int)
    ensures StepOutcome(PreEventStep(entry, today, now, durationBefore)) == StepOutcome(ConvertTime(entry.time))
    ensures |StepRegistrations(PreEventStep(entry, today, now, durationBefore))| <= 1
    ensures ConvertTime(entry.time).Success? ==>
              (StepRegistrations(PreEventStep(entry, today, now, durationBefore)) == [] <==>
               IsBefore(Minus(ConvertTime(entry.time).value, durationBefore), now))
    ensures forall reg :: reg in StepRegistrations(PreEventStep(entry, today, now, durationBefore)) <==>
              PreEventRegisters(entry.period, entry.time, today, now, durationBefore, reg)
  {
    var parsed := ConvertTime(entry.time);
    if parsed.Success? {
      MinusSpec(parsed.value, durationBefore);
      forall reg | PreEventRegisters(entry.period, entry.time, today, now, durationBefore, reg)
        ensures reg in StepRegistrations(PreEventStep(entry, today, now, durationBefore))
      {
        MinusUnique(parsed.value, durationBefore, reg.startTime.time);
      }
    }
  }

  /** When the lead does not reach back past midnight, an early reminder fires exactly the lead before the prayer. */
  lemma PreEventFireTime(p: PrayerPeriod, time: string, today: LocalDate, now: LocalTime, durationBefore: int,
                         reg: Registration)
    requires PreEventRegisters(p, time, today, now, durationBefore, reg)
    requires 0 <= durationBefore <= reg.task.dateTime.time
    ensures reg.startTime.time == reg.task.dateTime.time - durationBefore
  {
    MinusSpec(reg.task.dateTime.time, durationBefore);
    MinusUnique(reg.task.dateTime.time, durationBefore, reg.startTime.time);
  }

  /** The six pre-event calls for a record, seen one position at a time. */
  lemma PreEventResultsSpec(timing: PrayerTiming, today: LocalDate, now: LocalTime, durationBefore: int)
    ensures FailsOnParse(PreEventResults(timing, today, now, durationBefore), timing)
    ensures RegistersOwnPeriod(PreEventResults(timing, today, now, durationBefore))
    ensures forall i, reg :: 0 <= i < 6 ==>
              (reg in StepRegistrations(PreEventResults(timing, today, now, durationBefore)[i]) <==>
               PreEventRegisters(PeriodAt(i), TimeOf(timing, PeriodAt(i)), today, now, durationBefore, reg))
  {
    var rs := PreEventResults(timing, today, now, durationBefore);
    forall i | 0 <= i < 6
      ensures rs[i] == PreEventStep(Entry(PeriodAt(i), TimeOf(timing, PeriodAt(i))), today, now, durationBefore)
    {
    }
    forall i | 0 <= i < 6
      ensures StepOutcome(rs[i]) == StepOutcome(ConvertTime(TimeOf(timing, PeriodAt(i))))
      ensures |StepRegistrations(rs[i])| <= 1
      ensures forall reg :: reg in StepRegistrations(rs[i]) <==>
                PreEventRegisters(PeriodAt(i), TimeOf(timing, PeriodAt(i)), today, now, durationBefore, reg)
    {
      PreEventStepSpec(Entry(PeriodAt(i), TimeOf(timing, PeriodAt(i))), today, now, durationBefore);
    }
  }

  // ---------------------------------------------------------------------
  // scheduleAllNotifyPrePrayerTimingPeriods
  // ---------------------------------------------------------------------

  /**
   * A registration is made by `scheduleAllNotifyPrePrayerTimingPeriods`
   * exactly when today's record exists, every period before its own parsed,
   * and it is the early reminder of its own period.
   */
  lemma ArmPreEventMembers(repository: Repository, today: LocalDate, now: LocalTime, durationBefore: int,
                           reg: Registration)
    ensures reg in ArmPreEvent(repository, today, now, durationBefore).registrations <==>
              && today in repository
              && ParsedBefore(repository[today], reg.task.period)
              && PreEventRegisters(reg.task.period, TimeOf(repository[today], reg.task.period), today, now,
                                   durationBefore, reg)
  {
    if today in repository {
      var timing := repository[today];
      var rs := PreEventResults(timing, today, now, durationBefore);
      PreEventResultsSpec(timing, today, now, durationBefore);
      ChainMembersByPeriod(rs, reg);
      PrefixSucceeds(rs, timing, reg.task.period);
      PeriodAtOrdinal(reg.task.period);
    }
  }

  /** The early reminders are registered in the order of the day, at most one per period. */
  lemma ArmPreEventOrder(repository: Repository, today: LocalDate, now: LocalTime, durationBefore: int)
    ensures var regs := ArmPreEvent(repository, today, now, durationBefore).registrations;
            forall i, j :: 0 <= i < j < |regs| ==> Ordinal(regs[i].task.period) < Ordinal(regs[j].task.period)
  {
    if today in repository {
      PreEventResultsSpec(repository[today], today, now, durationBefore);
      ChainInPeriodOrder(PreEventResults(repository[today], today, now, durationBefore), 0);
    }
  }

  /**
   * Partial arming of the early reminders: when period `p` is the first
   * whose time does not parse, the run raises that error and keeps exactly
   * the early reminders of the periods before `p`.
   */
  lemma ArmPreEventPartial(repository: Repository, today: LocalDate, now: LocalTime, durationBefore: int,
                           p: PrayerPeriod)
    requires today in repository
    requires ParsedBefore(repository[today], p) && ConvertTime(TimeOf(repository[today], p)).Failure?
    ensures ArmPreEvent(repository, today, now, durationBefore).outcome ==
            Raised(ConvertTime(TimeOf(repository[today], p)).error)
    ensures forall reg :: reg in ArmPreEvent(repository, today, now, durationBefore).registrations <==>
              && Ordinal(reg.task.period) < Ordinal(p)
              && PreEventRegisters(reg.task.period, TimeOf(repository[today], reg.task.period), today, now,
                                   durationBefore, reg)
  {
    var timing := repository[today];
    var rs := PreEventResults(timing, today, now, durationBefore);
    PreEventResultsSpec(timing, today, now, durationBefore);
    PrefixSucceeds(rs, timing, p);
    PeriodAtOrdinal(p);
    assert StepOutcome(rs[Ordinal(p)]) == StepOutcome(ConvertTime(TimeOf(timing, p)));
    ChainStopsAtFirstFailure(rs, Ordinal(p));
    forall reg
      ensures reg in ArmPreEvent(repository, today, now, durationBefore).registrations <==>
                && Ordinal(reg.task.period) < Ordinal(p)
                && PreEventRegisters(reg.task.period, TimeOf(timing, reg.task.period), today, now, durationBefore, reg)
    {
      ArmPreEventMembers(repository, today, now, durationBefore, reg);
      if Ordinal(p) < Ordinal(reg.task.period) {
        assert !ParsedBefore(timing, reg.task.period);
      }
    }
  }

  // ---------------------------------------------------------------------
  // notifyAllPrayerTimingPeriods, and how the three entry points end
  // ---------------------------------------------------------------------

  /** The stored time at position `i` is the time of the period at position `i`. */
  lemma TimesAt(timing: PrayerTiming)
    ensures forall i :: 0 <= i < 6 ==> Times(timing)[i] == TimeOf(timing, PeriodAt(i))
  {
  }

  /** `ParseAll` succeeds exactly when every time parses, and then yields each parsed time in place. */
  lemma {:induction false} ParseAllValues(times: seq<string>)
    ensures ParseAll(times).Success? <==> forall i :: 0 <= i < |times| ==> ConvertTime(times[i]).Success?
    ensures ParseAll(times).Success? ==>
              forall i :: 0 <= i < |times| ==> ParseAll(times).value[i] == ConvertTime(times[i]).value
    decreases |times|
  {
    if times != [] {
      ParseAllValues(times[1..]);
      if ConvertTime(times[0]).Success? && ParseAll(times[1..]).Success? {
        forall i | 0 < i < |times|
          ensures ParseAll(times).value[i] == ConvertTime(times[i]).value
        {
          assert times[1..][i - 1] == times[i];
        }
      }
      if forall i :: 0 <= i < |times| ==> ConvertTime(times[i]).Success? {
        forall i | 0 <= i < |times| - 1
          ensures ConvertTime(times[1..][i]).Success?
        {
          assert times[1..][i] == times[i + 1];
        }
      }
      if ConvertTime(times[0]).Success? && !ParseAll(times[1..]).Success? {
        var i :| 0 <= i < |times| - 1 && !ConvertTime(times[1..][i]).Success?;
        assert times[1..][i] == times[i + 1];
      }
    }
  }

  /** When the time at position `k` is the first that does not parse, `ParseAll` raises its error. */
  lemma {:induction false} ParseAllFirstFailure(times: seq<string>, k: nat)
    requires k < |times| && ConvertTime(times[k]).Failure?
    requires forall i :: 0 <= i < k ==> ConvertTime(times[i]).Success?
    ensures ParseAll(times) == Failure(ConvertTime(times[k]).error)
    decreases k
  {
    if k > 0 {
      forall i | 0 <= i < k - 1
        ensures ConvertTime(times[1..][i]).Success?
      {
        assert times[1..][i] == times[i + 1];
      }
      assert times[1..][k - 1] == times[k];
      ParseAllFirstFailure(times[1..], k - 1);
    }
  }

  /** A run whose calls raise exactly when the matching times do not parse ends as `ParseAll` does. */
  lemma {:induction false} ChainEndsAsParseAll(results: seq<StepResult>, times: seq<string>)
    requires |results| == |times|
    requires forall i :: 0 <= i < |results| ==> StepOutcome(results[i]) == StepOutcome(ConvertTime(times[i]))
    ensures Chain(results).outcome == StepOutcome(ParseAll(times))
    decreases |results|
  {
    if results != [] {
      forall i | 0 <= i < |results| - 1
        ensures StepOutcome(results[1..][i]) == StepOutcome(ConvertTime(times[1..][i]))
      {
        assert results[1..][i] == results[i + 1] && times[1..][i] == times[i + 1];
      }
      ChainEndsAsParseAll(results[1..], times[1..]);
      assert StepOutcome(results[0]) == StepOutcome(ConvertTime(times[0]));
    }
  }

  /** The summary is sent exactly when today's record exists and all six times parse. */
  lemma SummarySucceeds(repository: Repository, today: LocalDate, formattedDate: string)
    ensures Summary(repository, today, formattedDate).Success? <==> today in repository && AllParse(repository[today])
  {
    if today in repository {
      var timing := repository[today];
      ParseAllValues(Times(timing));
      TimesAt(timing);
      if AllParse(timing) {
        forall i | 0 <= i < 6
          ensures ConvertTime(Times(timing)[i]).Success?
        {
          assert ConvertTime(TimeOf(timing, PeriodAt(i))).Success?;
        }
      } else {
        var q :| !ConvertTime(TimeOf(timing, q)).Success?;
        PeriodAtOrdinal(q);
        assert !ConvertTime(Times(timing)[Ordinal(q)]).Success?;
      }
    }
  }

  /**
   * When all six times parse, the summary is the header followed by one line
   * per period, Subuh to Isyak, each with that period's time in `HH:mm`.
   * This is the summary's definition unfolded onto the record's six fields;
   * `ServiceExamples.SampleSummary` checks the text for a concrete day.
   */
  lemma SummaryText(timing: PrayerTiming, formattedDate: string)
    requires AllParse(timing)
    ensures SummaryContent(timing, formattedDate).Success?
    ensures ConvertTime(timing.subuh).Success? && ConvertTime(timing.syuruk).Success?
    ensures ConvertTime(timing.zohor).Success? && ConvertTime(timing.asar).Success?
    ensures ConvertTime(timing.maghrib).Success? && ConvertTime(timing.isyak).Success?
    ensures SummaryContent(timing, formattedDate).value == Notification(
              SummaryTitlePrefix + formattedDate,
              SummaryHeader
              + ("Subuh: " + FormatHHmm(ConvertTime(timing.subuh).value) + "\n"
                 + "Syuruk: " + FormatHHmm(ConvertTime(timing.syuruk).value) + "\n"
                 + "Zohor: " + FormatHHmm(ConvertTime(timing.zohor).value) + "\n"
                 + "Asar: " + FormatHHmm(ConvertTime(timing.asar).value) + "\n"
                 + "Maghrib: " + FormatHHmm(ConvertTime(timing.maghrib).value) + "\n"
                 + "Isyak: " + FormatHHmm(ConvertTime(timing.isyak).value) + "\n"))
  {
    var ts := Times(timing);
    TimesAt(timing);
    forall i | 0 <= i < 6
      ensures ConvertTime(ts[i]).Success?
    {
      assert ConvertTime(TimeOf(timing, PeriodAt(i))).Success?;
    }
    ParseAllValues(ts);
  }

  /** When period `p` is the first whose time does not parse, the summary raises that error. */
  lemma SummaryFirstError(timing: PrayerTiming, formattedDate: string, p: PrayerPeriod)
    requires ParsedBefore(timing, p) && ConvertTime(TimeOf(timing, p)).Failure?
    ensures SummaryContent(timing, formattedDate) == Failure(ConvertTime(TimeOf(timing, p)).error)
  {
    var ts := Times(timing);
    TimesAt(timing);
    PeriodAtOrdinal(p);
    forall i | 0 <= i < Ordinal(p)
      ensures ConvertTime(ts[i]).Success?
    {
      assert Ordinal(PeriodAt(i)) < Ordinal(p);
    }
    ParseAllFirstFailure(ts, Ordinal(p));
  }

  /**
   * The three entry points stop at the same first bad time: each completes
   * or raises exactly as the summary does.
   */
  lemma ArmOutcomes(repository: Repository, today: LocalDate, now: LocalTime, durationBefore: int,
                    formattedDate: string)
    ensures ArmAtEvent(repository, today, now).outcome == StepOutcome(Summary(repository, today, formattedDate))
    ensures ArmPreEvent(repository, today, now, durationBefore).outcome ==
            StepOutcome(Summary(repository, today, formattedDate))
  {
    if today in repository {
      var timing := repository[today];
      TimesAt(timing);
      AtEventResultsSpec(timing, today, now);
      PreEventResultsSpec(timing, today, now, durationBefore);
      ChainEndsAsParseAll(AtEventResults(timing, today, now), Times(timing));
      ChainEndsAsParseAll(PreEventResults(timing, today, now, durationBefore), Times(timing));
    }
  }

  /** A missing record is reported by all three entry points before anything is registered or sent. */
  lemma NotFound(repository: Repository, today: LocalDate, now: LocalTime, durationBefore: int, formattedDate: string)
    requires today !in repository
    ensures ArmAtEvent(repository, today, now) == Run([], Raised(PrayerTimingNotFound))
    ensures ArmPreEvent(repository, today, now, durationBefore) == Run([], Raised(PrayerTimingNotFound))
    ensures Summary(repository, today, formattedDate) == Failure(PrayerTimingNotFound)
  {
  }
}
