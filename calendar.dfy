/**
 * Local wall-clock arithmetic standing in for `java.util.Calendar`.
 * An instant is a count of local milliseconds since 1970-01-01T00:00 (a
 * Thursday); the zone has a fixed offset, so every day is 86 400 000 ms long.
 */
module Calendar {

  const MsPerSecond: int := 1000
  const MsPerMinute: int := 60 * MsPerSecond
  const MsPerHour: int := 60 * MsPerMinute
  const MsPerDay: int := 24 * MsPerHour

  /** The local day (days since the epoch) holding instant `t`. */
  function DayOf(t: int): int {
    t / MsPerDay
  }

  /** Milliseconds since local midnight. */
  function TimeOfDay(t: int): (ms: int)
    ensures 0 <= ms < MsPerDay
    ensures t == DayOf(t) * MsPerDay + ms
  {
    t % MsPerDay
  }

  /** Weekday numbered Monday = 1 .. Sunday = 7, the app's own day numbering. */
  function Weekday(day: int): (w: int)
    ensures 1 <= w <= 7
  {
    (day + 3) % 7 + 1
  }

  /** `Calendar.DAY_OF_WEEK`: Sunday = 1 .. Saturday = 7. */
  function CalendarDayOfWeek(day: int): (w: int)
    ensures 1 <= w <= 7
  {
    (day + 4) % 7 + 1
  }

  /** The `when` that converts `Calendar.DAY_OF_WEEK` to Monday = 1 (its `else` branch gives 1). */
  function ToMondayBased(dayOfWeek: int): (w: int)
    ensures 1 <= w <= 7
  {
    match dayOfWeek
    case 2 => 1
    case 3 => 2
    case 4 => 3
    case 5 => 4
    case 6 => 5
    case 7 => 6
    case 1 => 7
    case _ => 1
  }

  /** The conversion is right: it maps the Sunday-based number of a day to that day's Monday-based number. */
  lemma ToMondayBasedCorrect(day: int)
    ensures ToMondayBased(CalendarDayOfWeek(day)) == Weekday(day)
  {
  }

  /** Read as a Monday-based number, a day's Sunday-based number names the following day. */
  lemma CalendarDayOfWeekIsNextWeekday(day: int)
    ensures CalendarDayOfWeek(day) == Weekday(day + 1)
  {
  }

  /** Weekdays repeat every seven days. */
  lemma WeekdayPeriodic(day: int)
    ensures Weekday(day + 7) == Weekday(day)
  {
  }

  /** Two days less than a week apart fall on different weekdays. */
  lemma WeekdayDistinctWithinWeek(day: int, j: int)
    requires 1 <= j < 7
    ensures Weekday(day + j) != Weekday(day)
  {
    var q, a := (day + 3) / 7, (day + 3) % 7;
    assert day + 3 + j == 7 * q + (a + j);
    if a + j < 7 {
      assert (day + 3 + j) % 7 == a + j;
    } else {
      assert day + 3 + j == 7 * (q + 1) + (a + j - 7);
      assert (day + 3 + j) % 7 == a + j - 7;
    }
  }

  /** Within any seven consecutive days every weekday occurs: the offset that reaches weekday `w`. */
  function OffsetToWeekday(day: int, w: int): (d: int)
    requires 1 <= w <= 7
    ensures 1 <= d <= 7 && Weekday(day + d) == w
  {
    var r := (day + 4) % 7;
    var m := (w - r - 1) % 7;
    assert Weekday(day + 1) == r + 1;
    ModSevenOf(((day + 4) / 7) - ((w - r - 1) / 7), w - 1, day + (m + 1) + 3);
    m + 1
  }

  /** A number seven times k plus a remainder below seven leaves that remainder. */
  lemma ModSevenOf(k: int, rem: int, x: int)
    requires 0 <= rem < 7 && x == 7 * k + rem
    ensures x % 7 == rem
  {
  }

  /**
   * `Calendar.set(HOUR_OF_DAY, hour)`, `set(MINUTE, minute)`, `set(SECOND, 0)`,
   * `set(MILLISECOND, 0)` on the calendar of instant `t`. The calendar is lenient,
   * so out-of-range fields carry into neighbouring days.
   */
  function AtTimeOfDay(t: int, hour: int, minute: int): (r: int)
    ensures r - hour * MsPerHour - minute * MsPerMinute == DayOf(t) * MsPerDay
    ensures 0 <= hour < 24 && 0 <= minute < 60 ==>
      DayOf(r) == DayOf(t) && TimeOfDay(r) == hour * MsPerHour + minute * MsPerMinute
  {
    DayOf(t) * MsPerDay + hour * MsPerHour + minute * MsPerMinute
  }

  /** `Calendar.add(DAY_OF_MONTH, n)`: the same time of day, `n` days later. */
  lemma AddDays(t: int, n: int)
    ensures DayOf(t + n * MsPerDay) == DayOf(t) + n
    ensures TimeOfDay(t + n * MsPerDay) == TimeOfDay(t)
  {
    var q, m := DayOf(t), TimeOfDay(t);
    assert t + n * MsPerDay == (q + n) * MsPerDay + m;
  }

  /** The hour, minute, second and millisecond fields of an instant. */
  function HourOf(t: int): int { TimeOfDay(t) / MsPerHour }
  function MinuteOf(t: int): int { TimeOfDay(t) % MsPerHour / MsPerMinute }
  function SecondOf(t: int): int { TimeOfDay(t) % MsPerMinute / MsPerSecond }
  function MillisecondOf(t: int): int { TimeOfDay(t) % MsPerSecond }

  /** An instant at `hour:minute:00.000` of its day has exactly those fields. */
  lemma FieldsOfTimeOfDay(t: int, hour: int, minute: int)
    requires 0 <= hour < 24 && 0 <= minute < 60
    requires TimeOfDay(t) == hour * MsPerHour + minute * MsPerMinute
    ensures HourOf(t) == hour && MinuteOf(t) == minute && SecondOf(t) == 0 && MillisecondOf(t) == 0
  {
    var tod := hour * MsPerHour + minute * MsPerMinute;
    assert tod == hour * 3_600_000 + minute * 60_000;
    assert tod / 3_600_000 == hour;
    assert tod % 3_600_000 == minute * 60_000;
    assert minute * 60_000 / 60_000 == minute;
    assert tod % 60_000 == 0;
    assert tod % 1000 == 0;
  }
}
