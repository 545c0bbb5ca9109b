/**
 * Conversion between the stored row and the domain record: enums travel as
 * their names, the day list as its comma-joined decimal text.
 */
module Mapper {
  import opened Wrappers
  import opened KotlinText
  import opened Entity
  import opened Domain

  /** `RepeatType.name`. */
  function RepeatTypeName(r: RepeatType): string {
    match r
    case Once => "ONCE"
    case Daily => "DAILY"
    case Weekly => "WEEKLY"
    case Custom => "CUSTOM"
  }

  /** `RepeatType.valueOf`: exact, case-sensitive; an unknown name throws, modelled as None. */
  function RepeatTypeValueOf(s: string): (r: Option<RepeatType>)
    ensures r.Some? <==> s in {"ONCE", "DAILY", "WEEKLY", "CUSTOM"}
    ensures r.Some? ==> RepeatTypeName(r.value) == s
  {
    if s == "ONCE" then Some(Once)
    else if s == "DAILY" then Some(Daily)
    else if s == "WEEKLY" then Some(Weekly)
    else if s == "CUSTOM" then Some(Custom)
    else None
  }

  /** `ActionType.name`. */
  function ActionTypeName(a: ActionType): string {
    match a
    case Notification => "NOTIFICATION"
    case OpenApp => "OPEN_APP"
    case PlaySound => "PLAY_SOUND"
  }

  /** `ActionType.valueOf`: exact, case-sensitive; an unknown name throws, modelled as None. */
  function ActionTypeValueOf(s: string): (r: Option<ActionType>)
    ensures r.Some? <==> s in {"NOTIFICATION", "OPEN_APP", "PLAY_SOUND"}
    ensures r.Some? ==> ActionTypeName(r.value) == s
  {
    if s == "NOTIFICATION" then Some(Notification)
    else if s == "OPEN_APP" then Some(OpenApp)
    else if s == "PLAY_SOUND" then Some(PlaySound)
    else None
  }

  /** `valueOf` reads back every `name`: the four repeat types have four distinct names. */
  lemma RepeatTypeNameRoundTrip(r: RepeatType)
    ensures RepeatTypeValueOf(RepeatTypeName(r)) == Some(r)
  {
  }

  /** `valueOf` reads back every `name`: the three action types have three distinct names. */
  lemma ActionTypeNameRoundTrip(a: ActionType)
    ensures ActionTypeValueOf(ActionTypeName(a)) == Some(a)
  {
  }

  /** `repeatDays.joinToString(",")`. */
  function EncodeRepeatDays(days: seq<Int32>): (s: string)
    ensures days == [] <==> s == ""
    ensures days != [] ==> Split(s, ',') == IntsToStrings(days)
  {
    if days == [] then JoinInts(days)
    else
      SplitJoinInts(days);
      JoinInts(days)
  }

  /**
   * `if (repeatDays.isBlank()) emptyList() else repeatDays.split(",").map { it.toInt() }`;
   * a piece that is not an `Int` throws, modelled as None.
   */
  function DecodeRepeatDays(s: string): (r: Option<seq<Int32>>)
    ensures IsBlank(s) ==> r == Some([])
    ensures !IsBlank(s) && r.Some? ==> |r.value| == |Split(s, ',')| >= 1
    ensures !IsBlank(s) && r.Some? ==> forall i :: 0 <= i < |r.value| ==> ParseInt(Split(s, ',')[i]) == Some(r.value[i])
    ensures !IsBlank(s) ==> (r.Some? <==> forall i :: 0 <= i < |Split(s, ',')| ==> ParseInt(Split(s, ',')[i]).Some?)
  {
    if IsBlank(s) then Some([]) else ParseIntList(Split(s, ','))
  }

  /** The day-list codec round-trips every list of `Int`s. */
  lemma DecodeEncodeRepeatDays(days: seq<Int32>)
    ensures DecodeRepeatDays(EncodeRepeatDays(days)) == Some(days)
  {
    if days != [] {
      JoinIntsNotBlank(days);
      ParseIntListOfStrings(days);
    }
  }

  /** `TaskEntity.toTask()`: fails on an unknown enum name or a non-numeric day. */
  function ToTask(e: TaskEntity): (r: Option<Task>)
    ensures r.Some? <==>
      RepeatTypeValueOf(e.repeatType).Some? && DecodeRepeatDays(e.repeatDays).Some? && ActionTypeValueOf(e.actionType).Some?
    ensures r.Some? ==> r.value.id == e.id && r.value.title == e.title && r.value.description == e.description
    ensures r.Some? ==> r.value.triggerHour == e.triggerHour && r.value.triggerMinute == e.triggerMinute
    ensures r.Some? ==> r.value.actionData == e.actionData && r.value.isEnabled == e.isEnabled
    ensures r.Some? ==> r.value.createdAt == e.createdAt && r.value.lastTriggered == e.lastTriggered
    ensures r.Some? ==> RepeatTypeName(r.value.repeatType) == e.repeatType && ActionTypeName(r.value.actionType) == e.actionType
    ensures r.Some? ==> Some(r.value.repeatDays) == DecodeRepeatDays(e.repeatDays)
  {
    match (RepeatTypeValueOf(e.repeatType), DecodeRepeatDays(e.repeatDays), ActionTypeValueOf(e.actionType))
    case (Some(repeatType), Some(days), Some(actionType)) =>
      Some(Task(e.id, e.title, e.description, e.triggerHour, e.triggerMinute, repeatType, days,
                actionType, e.actionData, e.isEnabled, e.createdAt, e.lastTriggered))
    case _ => None
  }

  /** `Task.toEntity()`. */
  function ToEntity(t: Task): (e: TaskEntity)
    ensures e.id == t.id && e.title == t.title && e.description == t.description
    ensures e.triggerHour == t.triggerHour && e.triggerMinute == t.triggerMinute
    ensures e.actionData == t.actionData && e.isEnabled == t.isEnabled
    ensures e.createdAt == t.createdAt && e.lastTriggered == t.lastTriggered
    ensures RepeatTypeValueOf(e.repeatType) == Some(t.repeatType)
    ensures ActionTypeValueOf(e.actionType) == Some(t.actionType)
    ensures DecodeRepeatDays(e.repeatDays) == Some(t.repeatDays)
  {
    DecodeEncodeRepeatDays(t.repeatDays);
    TaskEntity(t.id, t.title, t.description, t.triggerHour, t.triggerMinute, RepeatTypeName(t.repeatType),
               EncodeRepeatDays(t.repeatDays), ActionTypeName(t.actionType), t.actionData, t.isEnabled,
               t.createdAt, t.lastTriggered)
  }

  /** Storing a task and reading it back gives the same task. */
  lemma ToTaskToEntity(t: Task)
    ensures ToTask(ToEntity(t)) == Some(t)
  {
  }

  /** A day piece that is not a number makes `toTask` fail, as `toInt` throws. */
  lemma NonNumericDayFails(e: TaskEntity)
    requires RepeatTypeValueOf(e.repeatType).Some? && ActionTypeValueOf(e.actionType).Some?
    requires e.repeatDays == "1,x"
    ensures ToTask(e) == None
  {
    assert !IsWhitespace(e.repeatDays[0]);
    assert e.repeatDays == "1" + [','] + "x";
    SplitAtSeparator("1", ',', "x");
    SplitNoSeparator("x", ',');
    assert Split(e.repeatDays, ',')[1] == "x";
  }
}
