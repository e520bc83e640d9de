/**
 * One stored day worked through every entry point: the times
 * 05:30, 06:45, 12:15, 15:30, 18:45 and 20:00.
 */
module ServiceExamples {
  import opened Wrappers
  import opened Text
  import opened JavaLang
  import opened JavaTime
  import opened PrayerModel
  import opened Arming
  import opened Service
  import opened ServiceLemmas
  import opened ServiceRuns
  import Trigger

  const Today: LocalDate := 20_000

  const Sample: PrayerTiming := PrayerTiming(Today, "05:30", "06:45", "12:15", "15:30", "18:45", "20:00")

  /** A day whose six stored times parse to those of the sample day. */
  predicate SampleTimes(timing: PrayerTiming) {
    && ConvertTime(timing.subuh) == Success(Of(5, 30))
    && ConvertTime(timing.syuruk) == Success(Of(6, 45))
    && ConvertTime(timing.zohor) == Success(Of(12, 15))
    && ConvertTime(timing.asar) == Success(Of(15, 30))
    && ConvertTime(timing.maghrib) == Success(Of(18, 45))
    && ConvertTime(timing.isyak) == Success(Of(20, 0))
  }

  lemma Parses0645()
    ensures ConvertTime("06:45") == Success(Of(6, 45))
  {
    ParseIntPad2(6);
    ParseIntPad2(45);
    assert Pad2(6) == "06";
    assert Pad2(45) == "45";
    assert "06:45" == Pad2(6) + [':'] + Pad2(45) + Repeat(':', 0);
    ConvertTimeOfFields(Pad2(6), Pad2(45), 0);
  }

  lemma Parses1215()
    ensures ConvertTime("12:15") == Success(Of(12, 15))
  {
    ParseIntPad2(12);
    ParseIntPad2(15);
    assert Pad2(12) == "12";
    assert Pad2(15) == "15";
    assert "12:15" == Pad2(12) + [':'] + Pad2(15) + Repeat(':', 0);
    ConvertTimeOfFields(Pad2(12), Pad2(15), 0);
  }

  lemma Parses1530()
    ensures ConvertTime("15:30") == Success(Of(15, 30))
  {
    ParseIntPad2(15);
    ParseIntPad2(30);
    assert Pad2(15) == "15";
    assert Pad2(30) == "30";
    assert "15:30" == Pad2(15) + [':'] + Pad2(30) + Repeat(':', 0);
    ConvertTimeOfFields(Pad2(15), Pad2(30), 0);
  }

  lemma Parses1845()
    ensures ConvertTime("18:45") == Success(Of(18, 45))
  {
    ParseIntPad2(18);
    ParseIntPad2(45);
    assert Pad2(18) == "18";
    assert Pad2(45) == "45";
    assert "18:45" == Pad2(18) + [':'] + Pad2(45) + Repeat(':', 0);
    ConvertTimeOfFields(Pad2(18), Pad2(45), 0);
  }

  lemma Parses2000()
    ensures ConvertTime("20:00") == Success(Of(20, 0))
  {
    ParseIntPad2(20);
    ParseIntPad2(0);
    assert Pad2(20) == "20";
    assert Pad2(0) == "00";
    assert "20:00" == Pad2(20) + [':'] + Pad2(0) + Repeat(':', 0);
    ConvertTimeOfFields(Pad2(20), Pad2(0), 0);
  }

  /** The sample day's strings parse to its six times. */
  lemma SampleParses()
    ensures SampleTimes(Sample)
  {
    ExamplePadded();
    Parses0645();
    Parses1215();
    Parses1530();
    Parses1845();
    Parses2000();
  }

  /** The at-event reminder for `p` at `t` today. */
  function AtEvent(p: PrayerPeriod, t: LocalTime): Registration {
    Registration(Task.NotifyPrayerTimingPeriod(p, LocalDateTime(Today, t)), LocalDateTime(Today, t))
  }

  /** The early reminder for `p` at `t` today, firing at `fire`. */
  function PreEvent(p: PrayerPeriod, t: LocalTime, fire: LocalTime): Registration {
    Registration(Task.NotifyPrePrayerTimingPeriod(p, LocalDateTime(Today, t)), LocalDateTime(Today, fire))
  }

  /** Proof step: unfolds `AtEventStep` for the sample day. A stored time that parses to `t`, not before `now`, arms its at-event reminder. */
  lemma AtEventArms(p: PrayerPeriod, time: string, t: LocalTime, now: LocalTime)
    requires ConvertTime(time) == Success(t) && !IsBefore(t, now)
    ensures AtEventStep(Entry(p, time), Today, now) == Success([AtEvent(p, t)])
  {
  }

  /** Proof step: unfolds `AtEventStep` for the sample day. A stored time that parses to `t`, before `now`, is skipped. */
  lemma AtEventSkips(p: PrayerPeriod, time: string, t: LocalTime, now: LocalTime)
    requires ConvertTime(time) == Success(t) && IsBefore(t, now)
    ensures AtEventStep(Entry(p, time), Today, now) == Success([])
  {
  }

  /** Proof step: unfolds `PreEventStep` for the sample day. A stored time that parses to `t` arms its early reminder at `fire`, `lead` seconds before `t`. */
  lemma PreEventArms(p: PrayerPeriod, time: string, t: LocalTime, lead: int, fire: LocalTime, now: LocalTime)
    requires ConvertTime(time) == Success(t) && Minus(t, lead) == fire && !IsBefore(fire, now)
    ensures PreEventStep(Entry(p, time), Today, now, lead) == Success([PreEvent(p, t, fire)])
  {
  }

  /** Six calls that each register one reminder chain into one completed run. */
  lemma SixSingletons(a: Registration, b: Registration, c: Registration, d: Registration, e: Registration, f: Registration)
    ensures Chain([Success([a]), Success([b]), Success([c]), Success([d]), Success([e]), Success([f])]) ==
            Run([a, b, c, d, e, f], Completed)
  {
    ChainSix(Success([a]), Success([b]), Success([c]), Success([d]), Success([e]), Success([f]));
  }

  /** Run at midnight, each of the six calls arms one reminder. */
  lemma AtMidnightSteps(timing: PrayerTiming)
    requires SampleTimes(timing)
    ensures AtEventResults(timing, Today, 0) ==
              [Success([AtEvent(SUBUH, Of(5, 30))]), Success([AtEvent(SYURUK, Of(6, 45))]),
               Success([AtEvent(ZOHOR, Of(12, 15))]), Success([AtEvent(ASAR, Of(15, 30))]),
               Success([AtEvent(MAGHRIB, Of(18, 45))]), Success([AtEvent(ISYAK, Of(20, 0))])]
  {
    AtEventArms(SUBUH, timing.subuh, Of(5, 30), 0);
    AtEventArms(SYURUK, timing.syuruk, Of(6, 45), 0);
    AtEventArms(ZOHOR, timing.zohor, Of(12, 15), 0);
    AtEventArms(ASAR, timing.asar, Of(15, 30), 0);
    AtEventArms(MAGHRIB, timing.maghrib, Of(18, 45), 0);
    AtEventArms(ISYAK, timing.isyak, Of(20, 0), 0);
  }

  /** Run at midnight, all six reminders are armed at their times. */
  lemma AtMidnight(timing: PrayerTiming)
    requires SampleTimes(timing)
    ensures ArmAtEvent(map[Today := timing], Today, 0) == Run(
              [AtEvent(SUBUH, Of(5, 30)), AtEvent(SYURUK, Of(6, 45)), AtEvent(ZOHOR, Of(12, 15)),
               AtEvent(ASAR, Of(15, 30)), AtEvent(MAGHRIB, Of(18, 45)), AtEvent(ISYAK, Of(20, 0))],
              Completed)
  {
    AtMidnightSteps(timing);
    SixSingletons(AtEvent(SUBUH, Of(5, 30)), AtEvent(SYURUK, Of(6, 45)), AtEvent(ZOHOR, Of(12, 15)),
                  AtEvent(ASAR, Of(15, 30)), AtEvent(MAGHRIB, Of(18, 45)), AtEvent(ISYAK, Of(20, 0)));
  }

  /** Run at 13:00, the three morning calls register nothing and the other three one reminder each. */
  lemma AtOnePmSteps(timing: PrayerTiming)
    requires SampleTimes(timing)
    ensures AtEventResults(timing, Today, Of(13, 0)) ==
              [Success([]), Success([]), Success([]),
               Success([AtEvent(ASAR, Of(15, 30))]), Success([AtEvent(MAGHRIB, Of(18, 45))]),
               Success([AtEvent(ISYAK, Of(20, 0))])]
  {
    AtEventSkips(SUBUH, timing.subuh, Of(5, 30), Of(13, 0));
    AtEventSkips(SYURUK, timing.syuruk, Of(6, 45), Of(13, 0));
    AtEventSkips(ZOHOR, timing.zohor, Of(12, 15), Of(13, 0));
    AtEventArms(ASAR, timing.asar, Of(15, 30), Of(13, 0));
    AtEventArms(MAGHRIB, timing.maghrib, Of(18, 45), Of(13, 0));
    AtEventArms(ISYAK, timing.isyak, Of(20, 0), Of(13, 0));
  }

  /** Three empty calls followed by three singletons chain into a completed run of three. */
  lemma ThreeSkippedThreeArmed(d: Registration, e: Registration, f: Registration)
    ensures Chain([Success([]), Success([]), Success([]), Success([d]), Success([e]), Success([f])]) ==
            Run([d, e, f], Completed)
  {
    ChainSix(Success([]), Success([]), Success([]), Success([d]), Success([e]), Success([f]));
  }

  /** Run at 13:00, the three times already past are skipped and the other three armed. */
  lemma AtOnePm(timing: PrayerTiming)
    requires SampleTimes(timing)
    ensures ArmAtEvent(map[Today := timing], Today, Of(13, 0)) == Run(
              [AtEvent(ASAR, Of(15, 30)), AtEvent(MAGHRIB, Of(18, 45)), AtEvent(ISYAK, Of(20, 0))],
              Completed)
  {
    AtOnePmSteps(timing);
    ThreeSkippedThreeArmed(AtEvent(ASAR, Of(15, 30)), AtEvent(MAGHRIB, Of(18, 45)), AtEvent(ISYAK, Of(20, 0)));
  }

  /** Fifteen minutes before each sample time. */
  lemma FifteenMinuteLeads()
    ensures Minus(Of(5, 30), 900) == Of(5, 15) && Minus(Of(6, 45), 900) == Of(6, 30)
    ensures Minus(Of(12, 15), 900) == Of(12, 0) && Minus(Of(15, 30), 900) == Of(15, 15)
    ensures Minus(Of(18, 45), 900) == Of(18, 30) && Minus(Of(20, 0), 900) == Of(19, 45)
  {
    MinusSpec(Of(5, 30), 900);
    MinusSpec(Of(6, 45), 900);
    MinusSpec(Of(12, 15), 900);
    MinusSpec(Of(15, 30), 900);
    MinusSpec(Of(18, 45), 900);
    MinusSpec(Of(20, 0), 900);
  }

  /** With a fifteen-minute lead, each of the six calls arms one early reminder. */
  lemma FifteenMinuteSteps(timing: PrayerTiming)
    requires SampleTimes(timing)
    ensures PreEventResults(timing, Today, 0, 900) ==
              [Success([PreEvent(SUBUH, Of(5, 30), Of(5, 15))]), Success([PreEvent(SYURUK, Of(6, 45), Of(6, 30))]),
               Success([PreEvent(ZOHOR, Of(12, 15), Of(12, 0))]), Success([PreEvent(ASAR, Of(15, 30), Of(15, 15))]),
               Success([PreEvent(MAGHRIB, Of(18, 45), Of(18, 30))]), Success([PreEvent(ISYAK, Of(20, 0), Of(19, 45))])]
  {
    FifteenMinuteLeads();
    PreEventArms(SUBUH, timing.subuh, Of(5, 30), 900, Of(5, 15), 0);
    PreEventArms(SYURUK, timing.syuruk, Of(6, 45), 900, Of(6, 30), 0);
    PreEventArms(ZOHOR, timing.zohor, Of(12, 15), 900, Of(12, 0), 0);
    PreEventArms(ASAR, timing.asar, Of(15, 30), 900, Of(15, 15), 0);
    PreEventArms(MAGHRIB, timing.maghrib, Of(18, 45), 900, Of(18, 30), 0);
    PreEventArms(ISYAK, timing.isyak, Of(20, 0), 900, Of(19, 45), 0);
  }

  /** With a fifteen-minute lead, the early reminders fire at 05:15, 06:30, 12:00, 15:15, 18:30 and 19:45. */
  lemma FifteenMinutesBefore(timing: PrayerTiming)
    requires SampleTimes(timing)
    ensures ArmPreEvent(map[Today := timing], Today, 0, 900) == Run(
              [PreEvent(SUBUH, Of(5, 30), Of(5, 15)), PreEvent(SYURUK, Of(6, 45), Of(6, 30)),
               PreEvent(ZOHOR, Of(12, 15), Of(12, 0)), PreEvent(ASAR, Of(15, 30), Of(15, 15)),
               PreEvent(MAGHRIB, Of(18, 45), Of(18, 30)), PreEvent(ISYAK, Of(20, 0), Of(19, 45))],
              Completed)
  {
    FifteenMinuteSteps(timing);
    SixSingletons(PreEvent(SUBUH, Of(5, 30), Of(5, 15)), PreEvent(SYURUK, Of(6, 45), Of(6, 30)),
                  PreEvent(ZOHOR, Of(12, 15), Of(12, 0)), PreEvent(ASAR, Of(15, 30), Of(15, 15)),
                  PreEvent(MAGHRIB, Of(18, 45), Of(18, 30)), PreEvent(ISYAK, Of(20, 0), Of(19, 45)));
  }

  /** The stored sample day itself, run at midnight, at 13:00 and with a fifteen-minute lead. */
  lemma SampleDay()
    ensures ArmAtEvent(map[Today := Sample], Today, 0).registrations ==
              [AtEvent(SUBUH, Of(5, 30)), AtEvent(SYURUK, Of(6, 45)), AtEvent(ZOHOR, Of(12, 15)),
               AtEvent(ASAR, Of(15, 30)), AtEvent(MAGHRIB, Of(18, 45)), AtEvent(ISYAK, Of(20, 0))]
    ensures ArmAtEvent(map[Today := Sample], Today, Of(13, 0)).registrations ==
              [AtEvent(ASAR, Of(15, 30)), AtEvent(MAGHRIB, Of(18, 45)), AtEvent(ISYAK, Of(20, 0))]
    ensures ArmPreEvent(map[Today := Sample], Today, 0, 900).registrations ==
              [PreEvent(SUBUH, Of(5, 30), Of(5, 15)), PreEvent(SYURUK, Of(6, 45), Of(6, 30)),
               PreEvent(ZOHOR, Of(12, 15), Of(12, 0)), PreEvent(ASAR, Of(15, 30), Of(15, 15)),
               PreEvent(MAGHRIB, Of(18, 45), Of(18, 30)), PreEvent(ISYAK, Of(20, 0), Of(19, 45))]
  {
    SampleParses();
    AtMidnight(Sample);
    AtOnePm(Sample);
    FifteenMinutesBefore(Sample);
  }

  /** `HH:mm` of an hour and minute is their two zero-padded fields. */
  lemma Formats(h: nat, m: nat)
    requires h < 24 && m < 60
    ensures FormatHHmm(Of(h, m)) == Pad2(h) + ":" + Pad2(m)
  {
  }

  /** The texts sent for Zohor and for sunrise. */
  lemma SampleContent()
    ensures PrayerTimingContent(ZOHOR, LocalDateTime(Today, Of(12, 15))) ==
            Notification("It is " + "zohor" + " prayer time.", "It is time to pray " + "zohor" + " at " + "12:15" + ".")
    ensures PrePrayerTimingContent(ZOHOR, LocalDateTime(Today, Of(12, 15))) ==
            Notification("It is almost " + "zohor" + " prayer time.",
                         "It is almost time to pray " + "zohor" + " at " + "12:15" + ".")
    ensures PrayerTimingContent(SYURUK, LocalDateTime(Today, Of(6, 45))) ==
            Notification("It is syuruk.", "It is syuruk at " + "06:45" + ".")
    ensures PrePrayerTimingContent(SYURUK, LocalDateTime(Today, Of(6, 45))) ==
            Notification("It is almost syuruk.", "It is almost syuruk at " + "06:45" + ".")
  {
    Formats(12, 15);
    assert Pad2(12) + ":" + Pad2(15) == "12:15";
    Formats(6, 45);
    assert Pad2(6) + ":" + Pad2(45) == "06:45";
    PrayerNames();
  }

  /** With the six times parsed to `t0`..`t5`, the summary lists them in `HH:mm`, Subuh to Isyak. */
  lemma SummaryOfTimes(timing: PrayerTiming, formattedDate: string,
                       t0: LocalTime, t1: LocalTime, t2: LocalTime, t3: LocalTime, t4: LocalTime, t5: LocalTime)
    requires ConvertTime(timing.subuh) == Success(t0) && ConvertTime(timing.syuruk) == Success(t1)
    requires ConvertTime(timing.zohor) == Success(t2) && ConvertTime(timing.asar) == Success(t3)
    requires ConvertTime(timing.maghrib) == Success(t4) && ConvertTime(timing.isyak) == Success(t5)
    ensures SummaryContent(timing, formattedDate) == Success(Notification(
              SummaryTitlePrefix + formattedDate,
              SummaryHeader
              + ("Subuh: " + FormatHHmm(t0) + "\n" + "Syuruk: " + FormatHHmm(t1) + "\n"
                 + "Zohor: " + FormatHHmm(t2) + "\n" + "Asar: " + FormatHHmm(t3) + "\n"
                 + "Maghrib: " + FormatHHmm(t4) + "\n" + "Isyak: " + FormatHHmm(t5) + "\n")))
  {
    ParsedAsGiven(timing, t0, t1, t2, t3, t4, t5);
    SummaryText(timing, formattedDate);
  }

  lemma ParsedAsGiven(timing: PrayerTiming,
                      t0: LocalTime, t1: LocalTime, t2: LocalTime, t3: LocalTime, t4: LocalTime, t5: LocalTime)
    requires ConvertTime(timing.subuh) == Success(t0) && ConvertTime(timing.syuruk) == Success(t1)
    requires ConvertTime(timing.zohor) == Success(t2) && ConvertTime(timing.asar) == Success(t3)
    requires ConvertTime(timing.maghrib) == Success(t4) && ConvertTime(timing.isyak) == Success(t5)
    ensures AllParse(timing)
  {
    forall q
      ensures ConvertTime(TimeOf(timing, q)).Success?
    {
      match q
      case SUBUH => assert TimeOf(timing, q) == timing.subuh;
      case SYURUK => assert TimeOf(timing, q) == timing.syuruk;
      case ZOHOR => assert TimeOf(timing, q) == timing.zohor;
      case ASAR => assert TimeOf(timing, q) == timing.asar;
      case MAGHRIB => assert TimeOf(timing, q) == timing.maghrib;
      case ISYAK => assert TimeOf(timing, q) == timing.isyak;
    }
  }

  /** The summary of a day with the sample times: the header, then one line per period with its time. */
  lemma SampleSummary(timing: PrayerTiming, formattedDate: string)
    requires SampleTimes(timing)
    ensures SummaryContent(timing, formattedDate) == Success(Notification(
              SummaryTitlePrefix + formattedDate,
              SummaryHeader
              + ("Subuh: " + "05:30" + "\n" + "Syuruk: " + "06:45" + "\n"
                 + "Zohor: " + "12:15" + "\n" + "Asar: " + "15:30" + "\n"
                 + "Maghrib: " + "18:45" + "\n" + "Isyak: " + "20:00" + "\n")))
  {
    SummaryOfTimes(timing, formattedDate, Of(5, 30), Of(6, 45), Of(12, 15), Of(15, 30), Of(18, 45), Of(20, 0));
    SampleClocks();
  }

  /** The sample day's summary, as `notifyAllPrayerTimingPeriods` sends it. */
  lemma SampleDaySummary(formattedDate: string)
    ensures Summary(map[Today := Sample], Today, formattedDate) == Success(Notification(
              SummaryTitlePrefix + formattedDate,
              SummaryHeader
              + ("Subuh: " + "05:30" + "\n" + "Syuruk: " + "06:45" + "\n"
                 + "Zohor: " + "12:15" + "\n" + "Asar: " + "15:30" + "\n"
                 + "Maghrib: " + "18:45" + "\n" + "Isyak: " + "20:00" + "\n")))
  {
    SampleParses();
    SampleSummary(Sample, formattedDate);
  }

  /** The sample times in `HH:mm`. */
  lemma SampleClocks()
    ensures FormatHHmm(Of(5, 30)) == "05:30" && FormatHHmm(Of(6, 45)) == "06:45"
    ensures FormatHHmm(Of(12, 15)) == "12:15" && FormatHHmm(Of(15, 30)) == "15:30"
    ensures FormatHHmm(Of(18, 45)) == "18:45" && FormatHHmm(Of(20, 0)) == "20:00"
  {
    Formats(5, 30);
    assert Pad2(5) + ":" + Pad2(30) == "05:30";
    Formats(6, 45);
    assert Pad2(6) + ":" + Pad2(45) == "06:45";
    Formats(12, 15);
    assert Pad2(12) + ":" + Pad2(15) == "12:15";
    Formats(15, 30);
    assert Pad2(15) + ":" + Pad2(30) == "15:30";
    Formats(18, 45);
    assert Pad2(18) + ":" + Pad2(45) == "18:45";
    Formats(20, 0);
    assert Pad2(20) + ":" + Pad2(0) == "20:00";
  }

  /** A day whose Subuh is stored as "24:30". */
  const BadSubuh: PrayerTiming := Sample.(subuh := "24:30")

  /** An out-of-range Subuh stops every entry point before anything is registered or sent. */
  lemma BadFirstTime(now: LocalTime, formattedDate: string)
    ensures ArmAtEvent(map[Today := BadSubuh], Today, now) == Run([], Raised(InvalidHour))
    ensures ArmPreEvent(map[Today := BadSubuh], Today, now, 900) == Run([], Raised(InvalidHour))
    ensures Trigger.ArmReminders(map[Today := BadSubuh], Today) == Run([], Raised(InvalidHour))
    ensures Summary(map[Today := BadSubuh], Today, formattedDate) == Failure(InvalidHour)
  {
    ExampleHour24();
    Trigger.ConvertTimeAgrees("24:30");
  }

  /** A day whose Subuh is stored as "invalid". */
  const NoColonSubuh: PrayerTiming := Sample.(subuh := "invalid")

  /** A Subuh with no colon stops every entry point with the time-format error. */
  lemma NoColonFirstTime(now: LocalTime, formattedDate: string)
    ensures ArmAtEvent(map[Today := NoColonSubuh], Today, now) == Run([], Raised(InvalidTimeFormat))
    ensures ArmPreEvent(map[Today := NoColonSubuh], Today, now, 900) == Run([], Raised(InvalidTimeFormat))
    ensures Trigger.ArmReminders(map[Today := NoColonSubuh], Today) == Run([], Raised(InvalidTimeFormat))
    ensures Summary(map[Today := NoColonSubuh], Today, formattedDate) == Failure(InvalidTimeFormat)
  {
    ExampleNoColon();
    Trigger.ConvertTimeAgrees("invalid");
  }

  /** A day whose Subuh is stored as "05:60". */
  const MinuteSixtySubuh: PrayerTiming := Sample.(subuh := "05:60")

  /** An out-of-range minute in Subuh stops every entry point with `InvalidMinute`. */
  lemma MinuteSixtyFirstTime(now: LocalTime, formattedDate: string)
    ensures ArmAtEvent(map[Today := MinuteSixtySubuh], Today, now) == Run([], Raised(InvalidMinute))
    ensures ArmPreEvent(map[Today := MinuteSixtySubuh], Today, now, 900) == Run([], Raised(InvalidMinute))
    ensures Trigger.ArmReminders(map[Today := MinuteSixtySubuh], Today) == Run([], Raised(InvalidMinute))
    ensures Summary(map[Today := MinuteSixtySubuh], Today, formattedDate) == Failure(InvalidMinute)
  {
    ExampleMinute60();
    Trigger.ConvertTimeAgrees("05:60");
  }

  /** A day whose Asar is stored as "ab:30". */
  const BadAsar: PrayerTiming := Sample.(asar := "ab:30")

  /** Its first three times parse to the sample times and Asar fails on the letters. */
  lemma BadAsarParses()
    ensures ConvertTime(BadAsar.subuh) == Success(Of(5, 30))
    ensures ConvertTime(BadAsar.syuruk) == Success(Of(6, 45))
    ensures ConvertTime(BadAsar.zohor) == Success(Of(12, 15))
    ensures ConvertTime(BadAsar.asar) == Failure(NumberFormat("ab"))
  {
    SampleParses();
    ExampleLetters();
  }

  /** Three singletons and then a failure end the run with the three reminders and that failure. */
  lemma ThreeThenFailure(a: Registration, b: Registration, c: Registration, e: Error, x: StepResult, y: StepResult)
    ensures Chain([Success([a]), Success([b]), Success([c]), Failure(e), x, y]) == Run([a, b, c], Raised(e))
  {
    ChainSix(Success([a]), Success([b]), Success([c]), Failure(e), x, y);
  }

  /** Proof step: unfolds `AtEventStep` for the sample day. A time that fails to parse fails its at-event call with the same error. */
  lemma AtEventFails(p: PrayerPeriod, time: string, e: Error, now: LocalTime)
    requires ConvertTime(time) == Failure(e)
    ensures AtEventStep(Entry(p, time), Today, now) == Failure(e)
  {
  }

  /** A bad Asar leaves the three morning reminders armed and raises the parse error. */
  lemma BadLaterTime(timing: PrayerTiming)
    requires ConvertTime(timing.subuh) == Success(Of(5, 30))
    requires ConvertTime(timing.syuruk) == Success(Of(6, 45))
    requires ConvertTime(timing.zohor) == Success(Of(12, 15))
    requires ConvertTime(timing.asar) == Failure(NumberFormat("ab"))
    ensures ArmAtEvent(map[Today := timing], Today, 0) == Run(
              [AtEvent(SUBUH, Of(5, 30)), AtEvent(SYURUK, Of(6, 45)), AtEvent(ZOHOR, Of(12, 15))],
              Raised(NumberFormat("ab")))
  {
    AtEventArms(SUBUH, timing.subuh, Of(5, 30), 0);
    AtEventArms(SYURUK, timing.syuruk, Of(6, 45), 0);
    AtEventArms(ZOHOR, timing.zohor, Of(12, 15), 0);
    AtEventFails(ASAR, timing.asar, NumberFormat("ab"), 0);
    var rs := AtEventResults(timing, Today, 0);
    ThreeThenFailure(AtEvent(SUBUH, Of(5, 30)), AtEvent(SYURUK, Of(6, 45)), AtEvent(ZOHOR, Of(12, 15)),
                     NumberFormat("ab"), rs[4], rs[5]);
  }

  /** The stored day with the bad Asar, run at midnight. */
  lemma BadAsarDay()
    ensures ArmAtEvent(map[Today := BadAsar], Today, 0) == Run(
              [AtEvent(SUBUH, Of(5, 30)), AtEvent(SYURUK, Of(6, 45)), AtEvent(ZOHOR, Of(12, 15))],
              Raised(NumberFormat("ab")))
  {
    BadAsarParses();
    BadLaterTime(BadAsar);
  }

  lemma Parses0010()
    ensures ConvertTime("00:10") == Success(Of(0, 10))
  {
    ParseIntPad2(0);
    ParseIntPad2(10);
    assert Pad2(0) == "00";
    assert Pad2(10) == "10";
    assert "00:10" == Pad2(0) + [':'] + Pad2(10) + Repeat(':', 0);
    ConvertTimeOfFields(Pad2(0), Pad2(10), 0);
  }

  /**
   * The lead wraps around midnight: fifteen minutes before a prayer at 00:10
   * the early reminder is registered for 23:55 of the same day, after the
   * prayer it announces.
   */
  lemma LeadAcrossMidnight()
    ensures PreEventStep(Entry(SUBUH, "00:10"), Today, 0, 900) ==
            Success([PreEvent(SUBUH, Of(0, 10), Of(23, 55))])
  {
    Parses0010();
    PreEventArms(SUBUH, "00:10", Of(0, 10), 900, Of(23, 55), 0);
  }
}
