/**
 * The parts of `java.time` the reminder engine uses, at whole-second
 * precision: a time of day is its second of the day, a date is an opaque
 * day number, and the time zone is not modelled.
 */
module JavaTime {
  import opened Text

  const SecondsPerMinute: int := 60
  const SecondsPerHour: int := 3600
  const SecondsPerDay: int := 86400

  /** `LocalTime`: the second of the day, 00:00:00 to 23:59:59. */
  type LocalTime = t: int | 0 <= t < SecondsPerDay

  /** `LocalDate`, identified by its day number; the calendar is not modelled. */
  type LocalDate = int

  /** `LocalDateTime.of(date, time)`. */
  datatype LocalDateTime = LocalDateTime(date: LocalDate, time: LocalTime)

  function HourOf(t: LocalTime): (h: nat)
    ensures h < 24
  {
    t / SecondsPerHour
  }

  function MinuteOf(t: LocalTime): (m: nat)
    ensures m < 60
  {
    t % SecondsPerHour / SecondsPerMinute
  }

  function SecondOf(t: LocalTime): (s: nat)
    ensures s < 60
  {
    t % SecondsPerMinute
  }

  /** `LocalTime.of(hour, minute)`: the time with that hour and minute and zero seconds. */
  function Of(hour: int, minute: int): (t: LocalTime)
    requires 0 <= hour < 24 && 0 <= minute < 60
    ensures HourOf(t) == hour && MinuteOf(t) == minute && SecondOf(t) == 0
  {
    hour * SecondsPerHour + minute * SecondsPerMinute
  }

  /** Hour, minute and second determine a time. */
  lemma TimeFromFields(t: LocalTime)
    ensures t == Of(HourOf(t), MinuteOf(t)) + SecondOf(t)
  {
  }

  /** `a.isBefore(b)`: strictly earlier in the day. */
  predicate IsBefore(a: LocalTime, b: LocalTime)
    ensures IsBefore(a, b) <==>
              || HourOf(a) < HourOf(b)
              || (HourOf(a) == HourOf(b) && MinuteOf(a) < MinuteOf(b))
              || (HourOf(a) == HourOf(b) && MinuteOf(a) == MinuteOf(b) && SecondOf(a) < SecondOf(b))
  {
    TimeFromFields(a);
    TimeFromFields(b);
    a < b
  }

  /**
   * `t.minus(Duration.ofSeconds(seconds))`: the time that many seconds
   * earlier, wrapping around midnight as `LocalTime` does.
   */
  function Minus(t: LocalTime, seconds: int): (r: LocalTime)
    ensures 0 <= seconds <= t ==> r == t - seconds
    ensures t < seconds <= t + SecondsPerDay ==> r == t - seconds + SecondsPerDay
  {
    (t - seconds) % SecondsPerDay
  }

  /** Minus steps back `seconds` on the clock face: same time modulo a day, and plain
      subtraction when that does not cross midnight. */
  lemma MinusSpec(t: LocalTime, seconds: int)
    ensures (Minus(t, seconds) + seconds - t) % SecondsPerDay == 0
    ensures 0 <= seconds <= t ==> Minus(t, seconds) == t - seconds
  {
  }

  /** Minus gives the only time of day that is `seconds` before `t`, modulo a day. */
  lemma MinusUnique(t: LocalTime, seconds: int, u: LocalTime)
    requires (u + seconds - t) % SecondsPerDay == 0
    ensures u == Minus(t, seconds)
  {
    var r := Minus(t, seconds);
    MinusSpec(t, seconds);
    var q1 := (u + seconds - t) / SecondsPerDay;
    var q2 := (r + seconds - t) / SecondsPerDay;
    assert u + seconds - t == q1 * SecondsPerDay;
    assert r + seconds - t == q2 * SecondsPerDay;
    assert u - r == (q1 - q2) * SecondsPerDay;
  }

  /** The pattern `HH:mm`: zero-padded 24-hour hour, a colon, zero-padded minute. */
  function FormatHHmm(t: LocalTime): (s: string)
    ensures |s| == 5 && s[2] == ':'
    ensures AllDigits(s[..2]) && DigitsValue(s[..2]) == HourOf(t)
    ensures AllDigits(s[3..]) && DigitsValue(s[3..]) == MinuteOf(t)
  {
    var s := Pad2(HourOf(t)) + ":" + Pad2(MinuteOf(t));
    assert s[..2] == Pad2(HourOf(t)) && s[3..] == Pad2(MinuteOf(t));
    s
  }
}
