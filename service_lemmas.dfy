/**
 * What `PrayerTimingService` promises: which stored times it accepts and in
 * which order it rejects the others, what it registers and when, and what
 * the notifications say.
 */
module ServiceLemmas {
  import opened Wrappers
  import opened Text
  import opened JavaLang
  import opened JavaTime
  import opened PrayerModel
  import opened Arming
  import opened Service

  // ---------------------------------------------------------------------
  // convertTime
  // ---------------------------------------------------------------------

  /** The hour field parses to a value the hour check lets through. */
  predicate HourOk(a: string) {
    ParseInt(a).Some? && 0 <= ParseInt(a).value <= 23
  }

  /** The minute field parses to a value the minute check lets through. */
  predicate MinuteOk(b: string) {
    ParseInt(b).Some? && 0 <= ParseInt(b).value <= 59
  }

  /** `time` is hour field `a`, a colon, minute field `b`, then `k` further colons, both fields valid. */
  predicate AcceptedAs(time: string, a: string, b: string, k: nat) {
    time == a + [':'] + b + Repeat(':', k) && HourOk(a) && MinuteOk(b)
  }

  /** With the split resolved: what `convertTime` does with hour field `a` and minute field `b`. */
  lemma ConvertTimeOfFields(a: string, b: string, k: nat)
    requires ':' !in a && ':' !in b && b != []
    ensures ConvertTime(a + [':'] + b + Repeat(':', k)) ==
            match ParseInt(a)
            case None => Failure(NumberFormat(a))
            case Some(hour) =>
              if hour < 0 || hour > 23 then Failure(InvalidHour)
              else
                match ParseInt(b)
                case None => Failure(NumberFormat(b))
                case Some(minute) =>
                  if minute < 0 || minute > 59 then Failure(InvalidMinute) else Success(Of(hour, minute))
  {
    var s := a + [':'] + b + Repeat(':', k);
    assert TwoFieldForm(s, a, ':', b);
    JavaSplitTwoFields(s, ':', a, b);
  }

  /**
   * `convertTime` succeeds exactly on an hour in 0..23, a colon and a minute
   * in 0..59 (each as `Integer.parseInt` reads it), followed by nothing but
   * colons, which `split` drops; the result is that hour and minute.
   */
  lemma ConvertTimeAccepts(time: string)
    ensures ConvertTime(time).Success? <==> exists a, b, k :: AcceptedAs(time, a, b, k)
    ensures forall a, b, k :: AcceptedAs(time, a, b, k) ==>
              ConvertTime(time) == Success(Of(ParseInt(a).value, ParseInt(b).value))
  {
    forall a, b, k | AcceptedAs(time, a, b, k)
      ensures ConvertTime(time) == Success(Of(ParseInt(a).value, ParseInt(b).value))
    {
      ConvertTimeOfFields(a, b, k);
    }
    if ConvertTime(time).Success? {
      var split := JavaSplit(time, ':');
      assert split == [split[0], split[1]];
      JavaSplitTwoFields(time, ':', split[0], split[1]);
      var k := |time| - |split[0]| - 1 - |split[1]|;
      assert AcceptedAs(time, split[0], split[1], k);
    }
  }

  /** "Invalid time format!" is raised exactly when `split` does not give two fields. */
  lemma ConvertTimeFormatError(time: string)
    ensures ConvertTime(time) == Failure(InvalidTimeFormat) <==> |JavaSplit(time, ':')| != 2
  {
  }

  /**
   * The checks run in order: the hour field is parsed and range-checked
   * before the minute field is looked at, so a bad hour is reported whatever
   * the minute field holds.
   */
  lemma ConvertTimeErrorOrder(a: string, b: string, k: nat)
    requires ':' !in a && ':' !in b && b != []
    ensures ParseInt(a).None? ==> ConvertTime(a + [':'] + b + Repeat(':', k)) == Failure(NumberFormat(a))
    ensures ParseInt(a).Some? && !HourOk(a) ==> ConvertTime(a + [':'] + b + Repeat(':', k)) == Failure(InvalidHour)
    ensures HourOk(a) && ParseInt(b).None? ==> ConvertTime(a + [':'] + b + Repeat(':', k)) == Failure(NumberFormat(b))
    ensures HourOk(a) && ParseInt(b).Some? && !MinuteOk(b) ==>
              ConvertTime(a + [':'] + b + Repeat(':', k)) == Failure(InvalidMinute)
  {
    ConvertTimeOfFields(a, b, k);
  }

  /** Parsing what `HH:mm` prints gives the time back. */
  lemma {:induction false} ConvertFormatted(t: LocalTime)
    requires SecondOf(t) == 0
    ensures ConvertTime(FormatHHmm(t)) == Success(t)
  {
    var s := FormatHHmm(t);
    var a := s[..2];
    var b := s[3..];
    assert s == a + [':'] + b + Repeat(':', 0);
    ParseIntDigits(a);
    ParseIntDigits(b);
    ConvertTimeOfFields(a, b, 0);
    TimeFromFields(t);
  }

  /**
   * `"H:M"` without padding parses to H hours and M minutes, and `HH:mm`
   * prints it back with both fields zero-padded to two digits.
   */
  lemma ConvertUnpadded(h: nat, m: nat)
    requires h < 24 && m < 60
    ensures ConvertTime(Decimal(h) + ":" + Decimal(m)) == Success(Of(h, m))
    ensures FormatHHmm(Of(h, m)) == Pad2(h) + ":" + Pad2(m)
  {
    ParseIntDecimal(h);
    ParseIntDecimal(m);
    assert Decimal(h) + ":" + Decimal(m) == Decimal(h) + [':'] + Decimal(m) + Repeat(':', 0);
    ConvertTimeOfFields(Decimal(h), Decimal(m), 0);
  }

  /** A stored time that parses is normalised by one format-and-parse round: the result is unchanged. */
  lemma ConvertNormalises(time: string)
    requires ConvertTime(time).Success?
    ensures ConvertTime(FormatHHmm(ConvertTime(time).value)) == ConvertTime(time)
  {
    ConvertFormatted(ConvertTime(time).value);
  }

  /** A string without a colon is one field: "Invalid time format!". */
  lemma ExampleNoColon()
    ensures ConvertTime("invalid") == Failure(InvalidTimeFormat)
  {
    SplitAllNoSeparator("invalid", ':');
  }

  /** Hour 24 is out of range. */
  lemma ExampleHour24()
    ensures ConvertTime("24:30") == Failure(InvalidHour)
  {
    ParseIntDigits("24");
    assert "24:30" == "24" + [':'] + "30" + Repeat(':', 0);
    ConvertTimeOfFields("24", "30", 0);
  }

  /** Minute 60 is out of range. */
  lemma ExampleMinute60()
    ensures ConvertTime("05:60") == Failure(InvalidMinute)
  {
    ParseIntDigits("05");
    ParseIntDigits("60");
    assert "05:60" == "05" + [':'] + "60" + Repeat(':', 0);
    ConvertTimeOfFields("05", "60", 0);
  }

  /** The usual zero-padded form. */
  lemma ExamplePadded()
    ensures ConvertTime("05:30") == Success(Of(5, 30))
  {
    ParseIntPad2(5);
    ParseIntPad2(30);
    assert Pad2(5) == "05";
    assert Pad2(30) == "30";
    assert "05:30" == Pad2(5) + [':'] + Pad2(30) + Repeat(':', 0);
    ConvertTimeOfFields(Pad2(5), Pad2(30), 0);
  }

  /** A trailing colon leaves an empty last field, which `split` drops. */
  lemma ExampleTrailingColon()
    ensures ConvertTime("05:30:") == Success(Of(5, 30))
  {
    ParseIntPad2(5);
    ParseIntPad2(30);
    assert Pad2(5) == "05";
    assert Pad2(30) == "30";
    assert "05:30:" == Pad2(5) + [':'] + Pad2(30) + Repeat(':', 1);
    ConvertTimeOfFields(Pad2(5), Pad2(30), 1);
  }

  /** An unpadded hour is accepted... */
  lemma ExampleUnpadded()
    ensures ConvertTime("5:30") == Success(Of(5, 30))
  {
    ParseIntDigits("5");
    ParseIntPad2(30);
    assert Pad2(30) == "30";
    assert "5:30" == "5" + [':'] + Pad2(30) + Repeat(':', 0);
    ConvertTimeOfFields("5", Pad2(30), 0);
  }

  /** ...and rendered zero-padded. */
  lemma ExampleUnpaddedRendered()
    ensures ConvertTime("5:30").Success? && FormatHHmm(ConvertTime("5:30").value) == "05:30"
  {
    ExampleUnpadded();
    var t := Of(5, 30);
    assert HourOf(t) == 5 && MinuteOf(t) == 30;
    assert Pad2(5) == "05";
    assert Pad2(30) == "30";
    assert FormatHHmm(t) == Pad2(5) + ":" + Pad2(30);
  }

  /** An empty minute field is dropped too, leaving one field. */
  lemma ExampleMissingMinute()
    ensures ConvertTime("05:") == Failure(InvalidTimeFormat)
  {
    assert "05:" == "05" + [':'] + [];
    SplitAllFirstField("05", ':', []);
    assert DropTrailingEmpty(["05", ""]) == ["05"] by {
      assert ["05", ""][..1] == ["05"];
    }
  }

  /** `Integer.parseInt` rejects letters. */
  lemma ExampleLetters()
    ensures ConvertTime("ab:30") == Failure(NumberFormat("ab"))
  {
    assert !AllDigits("ab") by { assert !IsDigit("ab"[0]); }
    assert "ab:30" == "ab" + [':'] + "30" + Repeat(':', 0);
    ConvertTimeOfFields("ab", "30", 0);
  }

  /** A negative hour parses and is then rejected by the range check. */
  lemma ExampleNegativeHour()
    ensures ConvertTime("-1:30") == Failure(InvalidHour)
  {
    var a := "-1";
    assert a[0] == '-' && a[1..] == "1";
    ParseIntDigits("1");
    assert ParseInt(a) == Some(-1);
    assert "-1:30" == a + [':'] + "30" + Repeat(':', 0);
    ConvertTimeOfFields(a, "30", 0);
  }

  // ---------------------------------------------------------------------
  // Notification texts
  // ---------------------------------------------------------------------

  /** `name().toLowerCase()` of each period. */
  lemma PrayerNames()
    ensures PrayerName(SUBUH) == "subuh" && PrayerName(SYURUK) == "syuruk" && PrayerName(ZOHOR) == "zohor"
    ensures PrayerName(ASAR) == "asar" && PrayerName(MAGHRIB) == "maghrib" && PrayerName(ISYAK) == "isyak"
  {
  }

  /** Different periods have different lower-case names. */
  lemma PrayerNamesDistinct(p: PrayerPeriod, q: PrayerPeriod)
    requires p != q
    ensures PrayerName(p) != PrayerName(q)
  {
    PrayerNames();
  }

  /** A lower-case period name has four to seven letters. */
  lemma PrayerNameLength(p: PrayerPeriod)
    ensures 4 <= |PrayerName(p)| <= 7
  {
  }

  /** Every period overwrites the fallback titles: the "Unknown" titles are never sent. */
  lemma TitleNeverUnknown(p: PrayerPeriod, dt: LocalDateTime)
    ensures PrayerTimingContent(p, dt).title != UnknownTitle
    ensures PrePrayerTimingContent(p, dt).title != UnknownPreTitle
  {
    assert PrayerTimingContent(p, dt).title[0] == 'I' && UnknownTitle[0] == 'U';
    assert PrePrayerTimingContent(p, dt).title[0] == 'I' && UnknownPreTitle[0] == 'U';
  }

  /**
   * Every period overwrites the fallback messages: the "Unknown" messages are
   * never sent (they are longer than any message a period produces).
   */
  lemma MessageNeverUnknown(p: PrayerPeriod, dt: LocalDateTime)
    ensures PrayerTimingContent(p, dt).message != UnknownMessage
    ensures PrePrayerTimingContent(p, dt).message != UnknownPreMessage
  {
    PrayerNameLength(p);
    assert |PrayerTimingContent(p, dt).message| <= 36 < |UnknownMessage|;
    assert |PrePrayerTimingContent(p, dt).message| <= 43 < |UnknownPreMessage|;
  }

  /**
   * Both messages end with the event's time in `HH:mm` and a full stop, and
   * that time parses back to the time the callback was given.
   */
  lemma ContentCarriesTime(p: PrayerPeriod, dt: LocalDateTime)
    ensures var m := PrayerTimingContent(p, dt).message;
            |m| >= 6 && m[|m| - 6..] == FormatHHmm(dt.time) + "."
    ensures var m := PrePrayerTimingContent(p, dt).message;
            |m| >= 6 && m[|m| - 6..] == FormatHHmm(dt.time) + "."
    ensures SecondOf(dt.time) == 0 ==>
              var m := PrayerTimingContent(p, dt).message;
              ConvertTime(m[|m| - 6..|m| - 1]) == Success(dt.time)
  {
    var m := PrayerTimingContent(p, dt).message;
    var n := PrePrayerTimingContent(p, dt).message;
    var tail := FormatHHmm(dt.time) + ".";
    assert m == m[..|m| - 6] + tail;
    assert n == n[..|n| - 6] + tail;
    assert m[|m| - 6..|m| - 1] == FormatHHmm(dt.time);
    if SecondOf(dt.time) == 0 {
      ConvertFormatted(dt.time);
    }
  }

  /** The name a prayer's title is built around sits between a fixed prefix and a fixed suffix. */
  lemma TitleName(p: PrayerPeriod, dt: LocalDateTime)
    requires p != SYURUK
    ensures var t := PrayerTimingContent(p, dt).title;
            23 <= |t| && t[6..|t| - 13] == PrayerName(p)
    ensures var t := PrePrayerTimingContent(p, dt).title;
            30 <= |t| && t[13..|t| - 13] == PrayerName(p)
  {
    PrayerNames();
  }

  /** The at-event title alone tells which period it announces. */
  lemma TitlesDistinct(p: PrayerPeriod, q: PrayerPeriod, dt: LocalDateTime, du: LocalDateTime)
    requires p != q
    ensures PrayerTimingContent(p, dt).title != PrayerTimingContent(q, du).title
  {
    PrayerNameLength(p);
    PrayerNameLength(q);
    if p != SYURUK && q != SYURUK {
      TitleName(p, dt);
      TitleName(q, du);
      PrayerNamesDistinct(p, q);
    }
  }

  /** So does the early-reminder title. */
  lemma PreTitlesDistinct(p: PrayerPeriod, q: PrayerPeriod, dt: LocalDateTime, du: LocalDateTime)
    requires p != q
    ensures PrePrayerTimingContent(p, dt).title != PrePrayerTimingContent(q, du).title
  {
    PrayerNameLength(p);
    PrayerNameLength(q);
    if p != SYURUK && q != SYURUK {
      TitleName(p, dt);
      TitleName(q, du);
      PrayerNamesDistinct(p, q);
    }
  }

  /** An early-reminder title is never an at-event title. */
  lemma PreTitleNotAtTitle(p: PrayerPeriod, q: PrayerPeriod, dt: LocalDateTime, du: LocalDateTime)
    ensures PrayerTimingContent(p, dt).title != PrePrayerTimingContent(q, du).title
  {
    PrayerNameLength(p);
    PrayerNameLength(q);
  }
}
