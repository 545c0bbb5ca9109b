/**
 * The scheduling engine: the next-trigger calculator and the registry of
 * wake-up alarms, keyed by request code, that `TaskScheduler` keeps with the
 * host's alarm service.
 */
module Scheduler {
  import opened Wrappers
  import opened KotlinText
  import opened Calendar
  import opened Entity
  import Dao
  import Mapper

  /** Hour in 0..23 and minute in 0..59, as the time picker produces. */
  predicate ValidTimeOfDay(task: TaskEntity) {
    0 <= task.triggerHour <= 23 && 0 <= task.triggerMinute <= 59
  }

  /** The repeat types the calculator's `when` recognises. */
  predicate KnownRepeatType(s: string) {
    s == "ONCE" || s == "DAILY" || s == "WEEKLY" || s == "CUSTOM"
  }

  /** Today's candidate: the calendar of `now` set to `triggerHour:triggerMinute:00.000`. */
  function Candidate(task: TaskEntity, now: int): int {
    AtTimeOfDay(now, task.triggerHour, task.triggerMinute)
  }

  /** Day `day + j` is one of the repeat days (Monday = 1 numbering). */
  predicate IsRepeatDay(day: int, days: seq<Int32>, j: int) {
    Weekday(day + j) in days
  }

  /**
   * The WEEKLY/CUSTOM scan from day offset `d`: the first offset d..7 whose
   * Monday-based weekday is a repeat day; the scan stops after 7 days.
   */
  function ScanFrom(day: int, days: seq<Int32>, d: int): (r: int)
    requires 1 <= d <= 7
    ensures d <= r <= 7
    ensures forall j :: d <= j < r ==> !IsRepeatDay(day, days, j)
    ensures r < 7 ==> IsRepeatDay(day, days, r)
    decreases 7 - d
  {
    if d == 7 || IsRepeatDay(day, days, d) then d else ScanFrom(day, days, d + 1)
  }

  /** How many days the WEEKLY/CUSTOM loop advances: the least repeat day in 1..7, or 7 if none. */
  function DaysToAdvance(day: int, days: seq<Int32>): (d: int)
    ensures 1 <= d <= 7
    ensures forall j :: 1 <= j < d ==> !IsRepeatDay(day, days, j)
    ensures d < 7 ==> IsRepeatDay(day, days, d)
  {
    ScanFrom(day, days, 1)
  }

  /** Any offset meeting the loop's exit condition is the one `DaysToAdvance` gives. */
  lemma DaysToAdvanceUnique(day: int, days: seq<Int32>, d: int)
    requires 1 <= d <= 7
    requires forall j :: 1 <= j < d ==> !IsRepeatDay(day, days, j)
    requires d == 7 || IsRepeatDay(day, days, d)
    ensures DaysToAdvance(day, days) == d
  {
  }

  /** When some repeat day lies in 1..7 (the usual case) the scan lands on a repeat day. */
  lemma DaysToAdvanceFindsRepeatDay(day: int, days: seq<Int32>, w: int)
    requires 1 <= w <= 7 && w in days
    ensures IsRepeatDay(day, days, DaysToAdvance(day, days))
  {
    var j := OffsetToWeekday(day, w);
    assert IsRepeatDay(day, days, j);
  }

  /**
   * The day list the WEEKLY/CUSTOM branch scans: the parsed `repeatDays`, or
   * `[today]` when it is blank. A piece that is not an `Int` makes `toInt` throw (None).
   */
  function RepeatDaysOrToday(repeatDays: string, today: Int32): (r: Option<seq<Int32>>)
    ensures IsBlank(repeatDays) ==> r == Some([today]) && Mapper.DecodeRepeatDays(repeatDays) == Some([])
    ensures !IsBlank(repeatDays) ==> r == Mapper.DecodeRepeatDays(repeatDays)
  {
    if IsBlank(repeatDays) then Some([today]) else ParseIntList(Split(repeatDays, ','))
  }

  /** The blank-day fallback as intended: the candidate's own Monday-based weekday. */
  function FallbackDay(candidate: int): (d: Int32)
    ensures 1 <= d <= 7
  {
    Weekday(DayOf(candidate))
  }

  /** The blank-day fallback as written: the raw Sunday-based `Calendar.DAY_OF_WEEK`. */
  function FallbackDayAsWritten(candidate: int): (d: Int32)
    ensures 1 <= d <= 7
  {
    CalendarDayOfWeek(DayOf(candidate))
  }

  /**
   * How many days a candidate that has already passed is moved forward, by
   * repeat type; None when the day list does not parse.
   */
  function DaysLater(task: TaskEntity, candidate: int, fallback: Int32): (k: Option<int>)
    ensures k.Some? ==> 0 <= k.value <= 7
    ensures k.None? <==>
      (task.repeatType == "WEEKLY" || task.repeatType == "CUSTOM")
      && !IsBlank(task.repeatDays) && ParseIntList(Split(task.repeatDays, ',')).None?
    ensures KnownRepeatType(task.repeatType) && k.Some? ==> k.value >= 1
  {
    if task.repeatType == "ONCE" || task.repeatType == "DAILY" then Some(1)
    else if task.repeatType == "WEEKLY" || task.repeatType == "CUSTOM" then
      match RepeatDaysOrToday(task.repeatDays, fallback)
      case None => None
      case Some(days) => Some(DaysToAdvance(DayOf(candidate), days))
    else Some(0)
  }

  /**
   * `calculateNextTriggerTime`, with one clock reading `now`. None stands for the
   * NumberFormatException that a malformed `repeatDays` raises.
   */
  function NextTriggerTime(task: TaskEntity, now: int): (r: Option<int>)
    ensures r.None? <==>
      && Candidate(task, now) <= now
      && (task.repeatType == "WEEKLY" || task.repeatType == "CUSTOM")
      && !IsBlank(task.repeatDays) && ParseIntList(Split(task.repeatDays, ',')).None?
    ensures Candidate(task, now) > now ==> r == Some(Candidate(task, now))
    ensures Candidate(task, now) <= now && r.Some? ==>
      var k := DaysLater(task, Candidate(task, now), FallbackDay(Candidate(task, now))).value;
      r.value == Candidate(task, now) + k * MsPerDay
  {
    var c := Candidate(task, now);
    if c > now then Some(c)
    else
      match DaysLater(task, c, FallbackDay(c))
      case None => None
      case Some(k) => Some(c + k * MsPerDay)
  }

  /** `calculateNextTriggerTime` exactly as written, with the Sunday-based blank-day fallback. */
  function NextTriggerTimeAsWritten(task: TaskEntity, now: int): (r: Option<int>)
    ensures !IsBlank(task.repeatDays) ==> r == NextTriggerTime(task, now)
  {
    var c := Candidate(task, now);
    if c > now then Some(c)
    else
      DaysLaterIgnoresFallback(task, c, FallbackDayAsWritten(c), FallbackDay(c));
      match DaysLater(task, c, FallbackDayAsWritten(c))
      case None => None
      case Some(k) => Some(c + k * MsPerDay)
  }

  /** The fallback day matters only for a blank day list. */
  lemma DaysLaterIgnoresFallback(task: TaskEntity, candidate: int, f1: Int32, f2: Int32)
    ensures !IsBlank(task.repeatDays) ==> DaysLater(task, candidate, f1) == DaysLater(task, candidate, f2)
  {
    if !IsBlank(task.repeatDays) {
      assert RepeatDaysOrToday(task.repeatDays, f1) == RepeatDaysOrToday(task.repeatDays, f2);
    }
  }

  /**
   * The imperative calculator: a lenient calendar set to the trigger time, then
   * advanced one day, or day by day to a repeat day.
   */
  method CalculateNextTriggerTime(task: TaskEntity, now: int) returns (r: Option<int>)
    ensures r == NextTriggerTime(task, now)
  {
    var calendar := AtTimeOfDay(now, task.triggerHour, task.triggerMinute);
    if calendar <= now {
      if task.repeatType == "ONCE" || task.repeatType == "DAILY" {
        calendar := calendar + MsPerDay;
      } else if task.repeatType == "WEEKLY" || task.repeatType == "CUSTOM" {
        var fallback := FallbackDay(calendar);
        var resolved := RepeatDaysOrToday(task.repeatDays, fallback);
        if resolved.None? {
          return None;
        }
        ghost var start := calendar;
        calendar := AdvanceToRepeatDay(calendar, resolved.value);
        DaysLaterWeekly(task, start, fallback, resolved.value);
        NextTriggerAfterPassed(task, now, DaysToAdvance(DayOf(start), resolved.value));
      }
    }
    r := Some(calendar);
  }

  /**
   * The WEEKLY/CUSTOM loop: add one day at a time, for at most 7 days, until the
   * Monday-based weekday (converted from `Calendar.DAY_OF_WEEK`) is a repeat day.
   */
  method AdvanceToRepeatDay(start: int, repeatDays: seq<Int32>) returns (calendar: int)
    ensures calendar == start + DaysToAdvance(DayOf(start), repeatDays) * MsPerDay
  {
    calendar := start;
    var daysToAdd := 1;
    while daysToAdd <= 7
      invariant 1 <= daysToAdd <= 8
      invariant calendar == start + (daysToAdd - 1) * MsPerDay
      invariant forall j :: 1 <= j < daysToAdd ==> !IsRepeatDay(DayOf(start), repeatDays, j)
    {
      calendar := calendar + MsPerDay;
      AddDays(start, daysToAdd);
      ToMondayBasedCorrect(DayOf(calendar));
      var dayOfWeek := ToMondayBased(CalendarDayOfWeek(DayOf(calendar)));
      if dayOfWeek in repeatDays {
        DaysToAdvanceUnique(DayOf(start), repeatDays, daysToAdd);
        return;
      }
      daysToAdd := daysToAdd + 1;
    }
    DaysToAdvanceUnique(DayOf(start), repeatDays, 7);
  }

  /** The result is `k` whole days after today's candidate, `k` in 0..7, at the same time of day. */
  lemma NextTriggerShape(task: TaskEntity, now: int)
    requires NextTriggerTime(task, now).Some?
    ensures var c, r := Candidate(task, now), NextTriggerTime(task, now).value;
      0 <= DayOf(r) - DayOf(c) <= 7 && TimeOfDay(r) == TimeOfDay(c)
  {
    var c := Candidate(task, now);
    if c > now {
      AddDays(c, 0);
    } else {
      AddDays(c, DaysLater(task, c, FallbackDay(c)).value);
    }
  }

  /** Whole days forward move past the rest of the day. */
  lemma DaysForward(c: int, k: int, now: int)
    requires k >= 1 && DayOf(c) == DayOf(now)
    ensures c + k * MsPerDay > now
  {
    var q := DayOf(now);
    assert c >= q * MsPerDay;
    assert now < q * MsPerDay + MsPerDay;
    assert k * MsPerDay == MsPerDay + (k - 1) * MsPerDay;
  }

  /** For every recognised repeat type and a valid time of day, the result lies strictly after `now`. */
  lemma NextTriggerIsFuture(task: TaskEntity, now: int)
    requires ValidTimeOfDay(task) && KnownRepeatType(task.repeatType)
    requires NextTriggerTime(task, now).Some?
    ensures NextTriggerTime(task, now).value > now
  {
    var c := Candidate(task, now);
    if c <= now {
      var k := DaysLater(task, c, FallbackDay(c)).value;
      DaysForward(c, k, now);
    }
  }

  /** The result carries the trigger time: hour, minute, and zero seconds and milliseconds. */
  lemma NextTriggerFields(task: TaskEntity, now: int)
    requires ValidTimeOfDay(task)
    requires NextTriggerTime(task, now).Some?
    ensures var r := NextTriggerTime(task, now).value;
      HourOf(r) == task.triggerHour && MinuteOf(r) == task.triggerMinute && SecondOf(r) == 0 && MillisecondOf(r) == 0
  {
    NextTriggerShape(task, now);
    FieldsOfTimeOfDay(NextTriggerTime(task, now).value, task.triggerHour, task.triggerMinute);
  }

  /** A candidate still ahead is today's: the result falls on the day of `now`. */
  lemma NextTriggerToday(task: TaskEntity, now: int)
    requires ValidTimeOfDay(task) && Candidate(task, now) > now
    ensures NextTriggerTime(task, now).Some? && DayOf(NextTriggerTime(task, now).value) == DayOf(now)
  {
  }

  /** ONCE/DAILY with a passed candidate (equality counts as passed): exactly one day later. */
  lemma OnceDailyAdvanceOneDay(task: TaskEntity, now: int)
    requires task.repeatType == "ONCE" || task.repeatType == "DAILY"
    requires Candidate(task, now) <= now
    ensures NextTriggerTime(task, now) == Some(Candidate(task, now) + MsPerDay)
  {
  }

  /** WEEKLY/CUSTOM with a passed candidate: the least day offset in 1..7 on a repeat day, else 7. */
  lemma WeeklyAdvanceToRepeatDay(task: TaskEntity, now: int, days: seq<Int32>)
    requires task.repeatType == "WEEKLY" || task.repeatType == "CUSTOM"
    requires Candidate(task, now) <= now
    requires !IsBlank(task.repeatDays) && ParseIntList(Split(task.repeatDays, ',')) == Some(days)
    ensures var c := Candidate(task, now);
      NextTriggerTime(task, now) == Some(c + DaysToAdvance(DayOf(c), days) * MsPerDay)
  {
    ParsedRepeatDays(task.repeatDays, FallbackDay(Candidate(task, now)), days);
    WeeklyAdvanceResolved(task, now, days);
  }

  /** The same, once the day list has been resolved to `days`. */
  lemma WeeklyAdvanceResolved(task: TaskEntity, now: int, days: seq<Int32>)
    requires task.repeatType == "WEEKLY" || task.repeatType == "CUSTOM"
    requires Candidate(task, now) <= now
    requires RepeatDaysOrToday(task.repeatDays, FallbackDay(Candidate(task, now))) == Some(days)
    ensures var c := Candidate(task, now);
      NextTriggerTime(task, now) == Some(c + DaysToAdvance(DayOf(c), days) * MsPerDay)
  {
    var c := Candidate(task, now);
    var k := DaysToAdvance(DayOf(c), days);
    DaysLaterWeekly(task, c, FallbackDay(c), days);
    NextTriggerAfterPassed(task, now, k);
  }

  lemma ParsedRepeatDays(repeatDays: string, today: Int32, days: seq<Int32>)
    requires !IsBlank(repeatDays) && ParseIntList(Split(repeatDays, ',')) == Some(days)
    ensures RepeatDaysOrToday(repeatDays, today) == Some(days)
  {
  }

  /** A passed candidate moves forward by the `DaysLater` count. */
  lemma NextTriggerAfterPassed(task: TaskEntity, now: int, k: int)
    requires Candidate(task, now) <= now
    requires DaysLater(task, Candidate(task, now), FallbackDay(Candidate(task, now))) == Some(k)
    ensures NextTriggerTime(task, now) == Some(Candidate(task, now) + k * MsPerDay)
  {
  }

  lemma DaysLaterWeekly(task: TaskEntity, candidate: int, fallback: Int32, days: seq<Int32>)
    requires task.repeatType == "WEEKLY" || task.repeatType == "CUSTOM"
    requires RepeatDaysOrToday(task.repeatDays, fallback) == Some(days)
    ensures DaysLater(task, candidate, fallback) == Some(DaysToAdvance(DayOf(candidate), days))
  {
    assert task.repeatType != "ONCE" && task.repeatType != "DAILY";
  }

  /** An unrecognised repeat type leaves today's candidate as it is, even when it has passed. */
  lemma UnknownRepeatTypeUnadjusted(task: TaskEntity, now: int)
    requires !KnownRepeatType(task.repeatType)
    ensures NextTriggerTime(task, now) == Some(Candidate(task, now))
  {
  }

  /** Outside WEEKLY/CUSTOM the day list plays no part in the result. */
  lemma DaysIgnoredUnlessWeekly(task: TaskEntity, repeatDays: string, now: int)
    requires task.repeatType != "WEEKLY" && task.repeatType != "CUSTOM"
    ensures NextTriggerTime(task.(repeatDays := repeatDays), now) == NextTriggerTime(task, now)
  {
    var other := task.(repeatDays := repeatDays);
    assert Candidate(other, now) == Candidate(task, now);
    assert DaysLater(other, Candidate(task, now), FallbackDay(Candidate(task, now)))
        == DaysLater(task, Candidate(task, now), FallbackDay(Candidate(task, now)));
  }

  /** WEEKLY/CUSTOM do not look at the day list while today's candidate is still ahead. */
  lemma CustomFiresTodayWhileAhead(task: TaskEntity, now: int)
    requires ValidTimeOfDay(task)
    requires task.repeatType == "CUSTOM" && task.repeatDays == "1,5"
    requires Weekday(DayOf(now)) == 2 && Candidate(task, now) > now
    ensures NextTriggerTime(task, now) == Some(Candidate(task, now))
    ensures Weekday(DayOf(Candidate(task, now))) !in [1, 5]
  {
  }

  /** As written: a blank day list on a passed WEEKLY/CUSTOM candidate always moves to the next day. */
  lemma BlankDaysAsWrittenAdvanceOneDay(task: TaskEntity, now: int)
    requires task.repeatType == "WEEKLY" || task.repeatType == "CUSTOM"
    requires IsBlank(task.repeatDays) && Candidate(task, now) <= now
    ensures NextTriggerTimeAsWritten(task, now) == Some(Candidate(task, now) + MsPerDay)
  {
    var c := Candidate(task, now);
    CalendarDayOfWeekIsNextWeekday(DayOf(c));
    DaysToAdvanceUnique(DayOf(c), [FallbackDayAsWritten(c)], 1);
  }

  /** As intended: a blank day list repeats on the candidate's own weekday, seven days later. */
  lemma BlankDaysAdvanceOneWeek(task: TaskEntity, now: int)
    requires task.repeatType == "WEEKLY" || task.repeatType == "CUSTOM"
    requires IsBlank(task.repeatDays) && Candidate(task, now) <= now
    ensures NextTriggerTime(task, now) == Some(Candidate(task, now) + 7 * MsPerDay)
  {
    var c := Candidate(task, now);
    var day := DayOf(c);
    forall j | 1 <= j < 7
      ensures !IsRepeatDay(day, [FallbackDay(c)], j)
    {
      WeekdayDistinctWithinWeek(day, j);
    }
    DaysToAdvanceUnique(day, [FallbackDay(c)], 7);
  }

  /** The host service's record of one alarm: its fire instant and the task id carried in the intent. */
  datatype Alarm = Alarm(taskId: int, at: int)

  /**
   * What the host allows: API level 31 or later (`Build.VERSION_CODES.S`), the
   * exact-alarm grant, and whether `setExactAndAllowWhileIdle` throws SecurityException.
   */
  datatype Host = Host(sdkAtLeastS: bool, canScheduleExactAlarms: bool, throwsSecurityException: bool)

  /** Whether an exact alarm actually gets registered. */
  predicate ExactAlarmsAllowed(host: Host) {
    (!host.sdkAtLeastS || host.canScheduleExactAlarms) && !host.throwsSecurityException
  }

  /** `taskId.toInt()`: the low 32 bits of the id, as a two's-complement `Int`. */
  function RequestCode(taskId: int): (k: Int32)
    ensures -0x8000_0000 <= taskId <= 0x7FFF_FFFF ==> k == taskId
    ensures (k - taskId) % 0x1_0000_0000 == 0
  {
    var low := taskId % 0x1_0000_0000;
    if low >= 0x8000_0000 then low - 0x1_0000_0000 else low
  }

  /** Ids 2^32 apart share a request code, so they share one alarm slot. */
  lemma RequestCodeCollision(taskId: int)
    ensures RequestCode(taskId) == RequestCode(taskId + 0x1_0000_0000)
  {
    var q, low := taskId / 0x1_0000_0000, taskId % 0x1_0000_0000;
    assert taskId + 0x1_0000_0000 == (q + 1) * 0x1_0000_0000 + low;
    assert (taskId + 0x1_0000_0000) % 0x1_0000_0000 == low;
  }

  /** No two rows of the store share a request code (true whenever every id fits an `Int`). */
  ghost predicate RequestCodesDistinctIn(rows: map<int, TaskEntity>) {
    forall a, b :: a in rows && b in rows && a != b ==> RequestCode(a) != RequestCode(b)
  }

  /** Ids in the `Int` range are their own request codes, so they never collide. */
  lemma SmallIdsDistinctCodes(rows: map<int, TaskEntity>)
    requires forall id :: id in rows ==> -0x8000_0000 <= id <= 0x7FFF_FFFF
    ensures RequestCodesDistinctIn(rows)
  {
  }

  /**
   * The effect of `scheduleTask` on the registry; the flag is false when the
   * calculator throws (malformed day list) and the exception escapes.
   */
  function ScheduleStep(alarms: map<Int32, Alarm>, task: TaskEntity, now: int, host: Host): (r: (map<Int32, Alarm>, bool))
    ensures r.1 <==> !task.isEnabled || NextTriggerTime(task, now).Some?
    ensures forall k :: k != RequestCode(task.id) ==> (k in r.0 <==> k in alarms)
    ensures forall k :: k != RequestCode(task.id) && k in alarms ==> r.0[k] == alarms[k]
    ensures !task.isEnabled ==> RequestCode(task.id) !in r.0
    ensures task.isEnabled && ExactAlarmsAllowed(host) && r.1 ==>
      RequestCode(task.id) in r.0 && r.0[RequestCode(task.id)] == Alarm(task.id, NextTriggerTime(task, now).value)
    ensures task.isEnabled && !(ExactAlarmsAllowed(host) && r.1) ==> r.0 == alarms
  {
    var key := RequestCode(task.id);
    if !task.isEnabled then (alarms - {key}, true)
    else
      match NextTriggerTime(task, now)
      case None => (alarms, false)
      case Some(at) => (if ExactAlarmsAllowed(host) then alarms[key := Alarm(task.id, at)] else alarms, true)
  }

  /** Scheduling the same task twice at the same `now` leaves the registry as one scheduling does. */
  lemma ScheduleIdempotent(alarms: map<Int32, Alarm>, task: TaskEntity, now: int, host: Host)
    ensures ScheduleStep(ScheduleStep(alarms, task, now, host).0, task, now, host) == ScheduleStep(alarms, task, now, host)
  {
    var key := RequestCode(task.id);
    if !task.isEnabled {
      assert alarms - {key} - {key} == alarms - {key};
    } else if NextTriggerTime(task, now).Some? && ExactAlarmsAllowed(host) {
      var a := Alarm(task.id, NextTriggerTime(task, now).value);
      assert alarms[key := a][key := a] == alarms[key := a];
    }
  }

  /** `rescheduleAllTasks`' `forEach`: schedules each task in turn, stopping at the first that throws. */
  function ScheduleAll(alarms: map<Int32, Alarm>, tasks: seq<TaskEntity>, now: int, host: Host): (r: (map<Int32, Alarm>, bool))
    ensures r.1 <==> forall i :: 0 <= i < |tasks| ==> !tasks[i].isEnabled || NextTriggerTime(tasks[i], now).Some?
    decreases |tasks|
  {
    if |tasks| == 0 then (alarms, true)
    else
      var step := ScheduleStep(alarms, tasks[0], now, host);
      if !step.1 then (step.0, false)
      else
        var rest := ScheduleAll(step.0, tasks[1..], now, host);
        assert forall i :: 1 <= i < |tasks| ==> tasks[i] == tasks[1..][i - 1];
        rest
  }

  /** No two tasks share a request code. */
  predicate DistinctRequestCodes(tasks: seq<TaskEntity>) {
    forall i, j :: 0 <= i < j < |tasks| ==> RequestCode(tasks[i].id) != RequestCode(tasks[j].id)
  }

  /** The request codes the tasks occupy. */
  function RequestCodes(tasks: seq<TaskEntity>): (s: set<Int32>)
    ensures forall i :: 0 <= i < |tasks| ==> RequestCode(tasks[i].id) in s
    ensures forall k :: k in s ==> exists i :: 0 <= i < |tasks| && RequestCode(tasks[i].id) == k
  {
    set i | 0 <= i < |tasks| :: RequestCode(tasks[i].id)
  }

  /**
   * Re-arming a list of enabled, well-formed tasks with distinct request codes
   * registers each at its computed instant, whatever the registry held for those
   * codes before, and leaves every other code alone.
   */
  lemma ScheduleAllArmsEach(alarms: map<Int32, Alarm>, tasks: seq<TaskEntity>, now: int, host: Host)
    requires ExactAlarmsAllowed(host) && DistinctRequestCodes(tasks)
    requires forall i :: 0 <= i < |tasks| ==> tasks[i].isEnabled && NextTriggerTime(tasks[i], now).Some?
    ensures var r := ScheduleAll(alarms, tasks, now, host);
      && r.1
      && (forall i :: 0 <= i < |tasks| ==>
            (RequestCode(tasks[i].id) in r.0
             && r.0[RequestCode(tasks[i].id)] == Alarm(tasks[i].id, NextTriggerTime(tasks[i], now).value)))
      && (forall k :: k !in RequestCodes(tasks) ==> (k in r.0 <==> k in alarms))
      && (forall k :: k !in RequestCodes(tasks) && k in alarms ==> r.0[k] == alarms[k])
  {
    ScheduleAllRegisters(alarms, tasks, now, host);
    ScheduleAllKeepsOthers(alarms, tasks, now, host);
  }

  /** Re-arming, allowed and all successful, registers every task at its computed instant. */
  lemma {:induction false} ScheduleAllRegisters(alarms: map<Int32, Alarm>, tasks: seq<TaskEntity>, now: int, host: Host)
    requires ExactAlarmsAllowed(host) && DistinctRequestCodes(tasks)
    requires forall i :: 0 <= i < |tasks| ==> tasks[i].isEnabled && NextTriggerTime(tasks[i], now).Some?
    ensures var r := ScheduleAll(alarms, tasks, now, host);
      forall i :: 0 <= i < |tasks| ==>
        (RequestCode(tasks[i].id) in r.0
         && r.0[RequestCode(tasks[i].id)] == Alarm(tasks[i].id, NextTriggerTime(tasks[i], now).value))
    decreases |tasks|
  {
    if |tasks| > 0 {
      var key := RequestCode(tasks[0].id);
      var step := ScheduleStep(alarms, tasks[0], now, host);
      var tail := tasks[1..];
      assert forall i :: 1 <= i < |tasks| ==> tasks[i] == tail[i - 1];
      assert DistinctRequestCodes(tail);
      ScheduleAllRegisters(step.0, tail, now, host);
      ScheduleAllKeepsOthers(step.0, tail, now, host);
      var r := ScheduleAll(alarms, tasks, now, host);
      assert r == ScheduleAll(step.0, tail, now, host);
      assert key !in RequestCodes(tail);
      forall i | 0 <= i < |tasks|
        ensures RequestCode(tasks[i].id) in r.0
        ensures r.0[RequestCode(tasks[i].id)] == Alarm(tasks[i].id, NextTriggerTime(tasks[i], now).value)
      {
        if i > 0 {
          assert tasks[i] == tail[i - 1];
        } else {
          assert step.0[key] == Alarm(tasks[0].id, NextTriggerTime(tasks[0], now).value);
        }
      }
    }
  }

  /** Re-arming, whatever its outcome, never touches a code no task occupies. */
  lemma {:induction false} ScheduleAllKeepsOthers(alarms: map<Int32, Alarm>, tasks: seq<TaskEntity>, now: int, host: Host)
    ensures var r := ScheduleAll(alarms, tasks, now, host);
      && (forall k :: k !in RequestCodes(tasks) ==> (k in r.0 <==> k in alarms))
      && (forall k :: k !in RequestCodes(tasks) && k in alarms ==> r.0[k] == alarms[k])
    decreases |tasks|
  {
    if |tasks| > 0 {
      var step := ScheduleStep(alarms, tasks[0], now, host);
      var tail := tasks[1..];
      assert forall i :: 1 <= i < |tasks| ==> tasks[i] == tail[i - 1];
      assert RequestCodes(tail) <= RequestCodes(tasks);
      if step.1 {
        ScheduleAllKeepsOthers(step.0, tail, now, host);
      }
    }
  }

  /** From an empty registry (after a restart) re-arming leaves exactly one alarm per task. */
  lemma ScheduleAllFromEmpty(tasks: seq<TaskEntity>, now: int, host: Host)
    requires ExactAlarmsAllowed(host) && DistinctRequestCodes(tasks)
    requires forall i :: 0 <= i < |tasks| ==> tasks[i].isEnabled && NextTriggerTime(tasks[i], now).Some?
    ensures ScheduleAll(map[], tasks, now, host).0.Keys == RequestCodes(tasks)
  {
    ScheduleAllArmsEach(map[], tasks, now, host);
  }

  /** The registry of alarms registered with the host, one per request code. */
  class TaskScheduler {
    var alarms: map<Int32, Alarm>

    /**
     * `TaskScheduler(context)`: binds the process-wide alarm service, so a new
     * scheduler sees every alarm already armed there (an empty map only after a restart).
     */
    constructor (hostAlarms: map<Int32, Alarm>)
      ensures alarms == hostAlarms
    {
      alarms := hostAlarms;
    }

    /** `cancelTask`: drops the alarm under the id's request code, if any. */
    method CancelTask(taskId: int)
      modifies this
      ensures alarms == old(alarms) - {RequestCode(taskId)}
    {
      alarms := alarms - {RequestCode(taskId)};
    }

    /**
     * `scheduleTask`: a disabled task is cancelled; otherwise its next instant is
     * registered under its request code (FLAG_UPDATE_CURRENT replaces an earlier
     * alarm and its intent), unless exact alarms are refused. Returns false when
     * the calculator throws.
     */
    method ScheduleTask(task: TaskEntity, now: int, host: Host) returns (ok: bool)
      modifies this
      ensures (alarms, ok) == ScheduleStep(old(alarms), task, now, host)
    {
      if !task.isEnabled {
        CancelTask(task.id);
        return true;
      }
      var triggerTime := CalculateNextTriggerTime(task, now);
      if triggerTime.None? {
        return false;
      }
      var requestCode := RequestCode(task.id);
      if host.throwsSecurityException {
        // the SecurityException is caught and logged
      } else if host.sdkAtLeastS {
        if host.canScheduleExactAlarms {
          alarms := alarms[requestCode := Alarm(task.id, triggerTime.value)];
        }
      } else {
        alarms := alarms[requestCode := Alarm(task.id, triggerTime.value)];
      }
      ok := true;
    }

    /**
     * `rescheduleAllTasks`: schedules every enabled row of the store, in the
     * order the query returns them; stops at the first task that throws.
     */
    method RescheduleAllTasks(dao: Dao.TaskDao, now: int, host: Host) returns (tasks: seq<TaskEntity>, ok: bool)
      requires dao.Valid()
      modifies this
      ensures Dao.DistinctIds(tasks)
      ensures forall t :: t in tasks ==> t.id in dao.rows && dao.rows[t.id] == t && t.isEnabled
      ensures forall id :: id in dao.rows && dao.rows[id].isEnabled ==> dao.rows[id] in tasks
      ensures (alarms, ok) == ScheduleAll(old(alarms), tasks, now, host)
    {
      tasks := dao.GetEnabledTasksList();
      var i := 0;
      ok := true;
      while i < |tasks|
        invariant 0 <= i <= |tasks|
        invariant ScheduleAll(old(alarms), tasks, now, host) == ScheduleAll(alarms, tasks[i..], now, host)
      {
        assert tasks[i..][1..] == tasks[i + 1..];
        var scheduled := ScheduleTask(tasks[i], now, host);
        if !scheduled {
          ok := false;
          return;
        }
        i := i + 1;
      }
    }

    /**
     * The host delivering the alarm under `requestCode`: the one-shot alarm is
     * consumed and its intent's task id is handed to the receiver.
     */
    method Deliver(requestCode: Int32) returns (taskId: Option<int>)
      modifies this
      ensures taskId == if requestCode in old(alarms) then Some(old(alarms)[requestCode].taskId) else None
      ensures alarms == old(alarms) - {requestCode}
    {
      taskId := if requestCode in alarms then Some(alarms[requestCode].taskId) else None;
      alarms := alarms - {requestCode};
    }
  }
}
