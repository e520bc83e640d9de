/**
 * The entities of the prayer-reminder engine and its two outside
 * collaborators: the task scheduler, which records what is registered, and
 * the notification service, which records what is sent.
 */
module PrayerModel {
  import opened JavaTime

  /** `PrayerPeriod`: the five prayers and SYURUK (sunrise), in the order of the day. */
  datatype PrayerPeriod = SUBUH | SYURUK | ZOHOR | ASAR | MAGHRIB | ISYAK

  /** `PrayerPeriod.name()`. */
  function Name(p: PrayerPeriod): string {
    match p
    case SUBUH => "SUBUH"
    case SYURUK => "SYURUK"
    case ZOHOR => "ZOHOR"
    case ASAR => "ASAR"
    case MAGHRIB => "MAGHRIB"
    case ISYAK => "ISYAK"
  }

  /** The position of a period in the day, from 0 for SUBUH to 5 for ISYAK. */
  function Ordinal(p: PrayerPeriod): (n: nat)
    ensures n < 6
  {
    match p
    case SUBUH => 0
    case SYURUK => 1
    case ZOHOR => 2
    case ASAR => 3
    case MAGHRIB => 4
    case ISYAK => 5
  }

  /** The period at position `i` of the day: the inverse of `Ordinal`. */
  function PeriodAt(i: nat): (p: PrayerPeriod)
    requires i < 6
    ensures Ordinal(p) == i
  {
    if i == 0 then SUBUH
    else if i == 1 then SYURUK
    else if i == 2 then ZOHOR
    else if i == 3 then ASAR
    else if i == 4 then MAGHRIB
    else ISYAK
  }

  lemma PeriodAtOrdinal(p: PrayerPeriod)
    ensures PeriodAt(Ordinal(p)) == p
  {
  }

  /** `PrayerTiming`: one stored day, a date and the six time strings as stored. */
  datatype PrayerTiming = PrayerTiming(
    date: LocalDate,
    subuh: string,
    syuruk: string,
    zohor: string,
    asar: string,
    maghrib: string,
    isyak: string)

  /** The stored time of one period: `getSubuh()` to `getIsyak()`. */
  function TimeOf(timing: PrayerTiming, p: PrayerPeriod): string {
    match p
    case SUBUH => timing.subuh
    case SYURUK => timing.syuruk
    case ZOHOR => timing.zohor
    case ASAR => timing.asar
    case MAGHRIB => timing.maghrib
    case ISYAK => timing.isyak
  }

  /** `PrayerTimingRepository.getByDate`: a date maps to its record, or to nothing (`null`). */
  type Repository = map<LocalDate, PrayerTiming>

  /** One period together with its stored time string. */
  datatype Entry = Entry(period: PrayerPeriod, time: string)

  /**
   * The exceptions of the core. `NumberFormat` is the `NumberFormatException`
   * of `Integer.parseInt` on the given field; it and the three time errors are
   * `IllegalArgumentException`s.
   */
  datatype Error =
    | PrayerTimingNotFound
    | InvalidTimeFormat
    | InvalidHour
    | InvalidMinute
    | NumberFormat(input: string)

  /** How a void Java method ended: normally, or by raising an exception. */
  datatype Outcome = Completed | Raised(error: Error)

  /** The callback handed to the scheduler, as a descriptor of the call it makes. */
  datatype Task =
    | NotifyPrayerTimingPeriod(period: PrayerPeriod, dateTime: LocalDateTime)
    | NotifyPrePrayerTimingPeriod(period: PrayerPeriod, dateTime: LocalDateTime)
    | RemindPrayerTiming(period: PrayerPeriod, dateTime: LocalDateTime)

  /** One `taskScheduler.schedule(task, startTime)` call. */
  datatype Registration = Registration(task: Task, startTime: LocalDateTime)

  /** One `notificationService.sendNotification(title, message)` call. */
  datatype Notification = Notification(title: string, message: string)

  /** The task scheduler, seen as the log of every registration made with it. */
  class TaskScheduler {
    var registrations: seq<Registration>

    constructor ()
      ensures registrations == []
    {
      registrations := [];
    }

    method Schedule(task: Task, startTime: LocalDateTime)
      modifies this
      ensures registrations == old(registrations) + [Registration(task, startTime)]
    {
      registrations := registrations + [Registration(task, startTime)];
    }
  }

  /** The notification service, seen as the log of every notification sent. */
  class NotificationService {
    var sent: seq<Notification>

    constructor ()
      ensures sent == []
    {
      sent := [];
    }

    method SendNotification(title: string, message: string)
      modifies this
      ensures sent == old(sent) + [Notification(title, message)]
    {
      sent := sent + [Notification(title, message)];
    }
  }
}
