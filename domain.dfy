/** The domain model: repeat and action enumerations, the `Task` record and its display helpers. */
module Domain {
  import opened Wrappers
  import opened KotlinText

  datatype RepeatType = Once | Daily | Weekly | Custom

  datatype ActionType = Notification | OpenApp | PlaySound

  datatype Task = Task(
    id: int,
    title: string,
    description: string,
    triggerHour: int,
    triggerMinute: int,
    repeatType: RepeatType,
    repeatDays: seq<Int32>,     // 1 = Monday .. 7 = Sunday
    actionType: ActionType,
    actionData: string,
    isEnabled: bool,
    createdAt: int,
    lastTriggered: Option<int>
  )

  /** A two-digit, zero-padded rendering of 0..99. */
  function TwoDigits(n: int): (s: string)
    requires 0 <= n < 100
    ensures |s| == 2 && IsDigit(s[0]) && IsDigit(s[1])
    ensures DigitValue(s[0]) * 10 + DigitValue(s[1]) == n
  {
    DigitRoundTrip(n / 10);
    DigitRoundTrip(n % 10);
    [DigitChar(n / 10), DigitChar(n % 10)]
  }

  /**
   * `formattedTime`: `LocalTime.of(hour, minute)` formatted as "HH:mm".
   * `LocalTime.of` throws outside 0..23 and 0..59, modelled as None.
   */
  function FormattedTime(t: Task): (r: Option<string>)
    ensures r.Some? <==> 0 <= t.triggerHour <= 23 && 0 <= t.triggerMinute <= 59
    ensures r.Some? ==> |r.value| == 5 && r.value[2] == ':'
    ensures r.Some? ==> AllDigits(r.value[..2]) && DigitsValue(r.value[..2]) == t.triggerHour
    ensures r.Some? ==> AllDigits(r.value[3..]) && DigitsValue(r.value[3..]) == t.triggerMinute
  {
    if 0 <= t.triggerHour <= 23 && 0 <= t.triggerMinute <= 59 then
      var hh, mm := TwoDigits(t.triggerHour), TwoDigits(t.triggerMinute);
      var s := hh + ":" + mm;
      assert s[..2] == hh && s[3..] == mm;
      DigitsValueOfTwo(hh);
      DigitsValueOfTwo(mm);
      Some(s)
    else None
  }

  lemma DigitsValueOfTwo(s: string)
    requires |s| == 2 && AllDigits(s)
    ensures DigitsValue(s) == DigitValue(s[0]) * 10 + DigitValue(s[1])
  {
    assert s[..1] == [s[0]];
    assert s[..1][..0] == [];
    assert DigitsValue(s[..1]) == DigitValue(s[0]);
  }

  /** The short English name of a Monday = 1 day number, or None outside 1..7 (`getOrNull(it - 1)`). */
  function DayAbbreviation(day: int): (r: Option<string>)
    ensures r.Some? <==> 1 <= day <= 7
  {
    if 1 <= day <= 7 then Some(["Mon", "Tue", "Wed", "Thu", "Fri", "Sat", "Sun"][day - 1]) else None
  }

  /** `repeatDays.mapNotNull { days.getOrNull(it - 1) }`: the names of the in-range days, in list order. */
  function DayAbbreviations(days: seq<Int32>): (r: seq<string>)
    ensures |r| <= |days|
    ensures |r| == 0 <==> forall i :: 0 <= i < |days| ==> !(1 <= days[i] <= 7)
    ensures (forall i :: 0 <= i < |days| ==> 1 <= days[i] <= 7) ==>
      |r| == |days| && forall i :: 0 <= i < |days| ==> DayAbbreviation(days[i]) == Some(r[i])
  {
    if |days| == 0 then []
    else
      var rest := DayAbbreviations(days[1..]);
      assert forall i :: 1 <= i < |days| ==> days[i] == days[1..][i - 1];
      match DayAbbreviation(days[0])
      case Some(name) => [name] + rest
      case None => rest
  }

  /** One step of `mapNotNull`: the first day's name, if any, before the names of the rest. */
  lemma DayAbbreviationsUnfold(days: seq<Int32>)
    requires |days| > 0
    ensures DayAbbreviations(days)
      == (if 1 <= days[0] <= 7 then [DayAbbreviation(days[0]).value] else []) + DayAbbreviations(days[1..])
  {
  }

  /** The names of a concatenation are the names of each part, in order. */
  lemma {:induction false} DayAbbreviationsAppend(a: seq<Int32>, b: seq<Int32>)
    ensures DayAbbreviations(a + b) == DayAbbreviations(a) + DayAbbreviations(b)
    decreases |a|
  {
    if |a| > 0 {
      var ab := a + b;
      assert ab[0] == a[0] && ab[1..] == a[1..] + b;
      var head: seq<string> := if 1 <= a[0] <= 7 then [DayAbbreviation(a[0]).value] else [];
      var x, y := DayAbbreviations(a[1..]), DayAbbreviations(b);
      DayAbbreviationsUnfold(ab);
      DayAbbreviationsUnfold(a);
      DayAbbreviationsAppend(a[1..], b);
      assert DayAbbreviations(ab) == head + (x + y);
      assert head + (x + y) == (head + x) + y;
    } else {
      assert a + b == b;
    }
  }

  /** A day outside 1..7 contributes no name, wherever it stands in the list. */
  lemma DayAbbreviationsDropsInvalid(a: seq<Int32>, d: Int32, b: seq<Int32>)
    requires !(1 <= d <= 7)
    ensures DayAbbreviations(a + [d] + b) == DayAbbreviations(a + b)
  {
    assert a + [d] + b == a + ([d] + b);
    DayAbbreviationsAppend(a, [d] + b);
    assert ([d] + b)[1..] == b;
    assert DayAbbreviations([d] + b) == DayAbbreviations(b);
    DayAbbreviationsAppend(a, b);
  }

  /** Mixed example: [0, 1, 9, 5] names Monday and Friday only. */
  lemma MixedDaysNameValidOnes()
    ensures DayAbbreviations([0, 1, 9, 5]) == ["Mon", "Fri"]
  {
    var five: seq<Int32> := [5];
    assert five[1..] == [];
    assert DayAbbreviations(five) == ["Fri"];
    var nine: seq<Int32> := [9, 5];
    assert nine[1..] == five;
    assert DayAbbreviations(nine) == ["Fri"];
    var one: seq<Int32> := [1, 9, 5];
    assert one[1..] == nine;
    assert DayAbbreviations(one) == ["Mon", "Fri"];
    var all: seq<Int32> := [0, 1, 9, 5];
    assert all[1..] == one;
  }

  /** `repeatDescription`. */
  function RepeatDescription(t: Task): (r: string)
    ensures t.repeatType == Once ==> r == "Once"
    ensures t.repeatType == Daily ==> r == "Every day"
    ensures t.repeatType == Weekly ==> r == "Every week"
    ensures t.repeatType == Custom ==> r == Join(DayAbbreviations(t.repeatDays), ", ")
  {
    match t.repeatType
    case Once => "Once"
    case Daily => "Every day"
    case Weekly => "Every week"
    case Custom => Join(DayAbbreviations(t.repeatDays), ", ")
  }

  /** A custom task with no day in 1..7 has an empty description. */
  lemma CustomWithoutValidDaysIsEmpty(t: Task)
    requires t.repeatType == Custom
    requires forall i :: 0 <= i < |t.repeatDays| ==> !(1 <= t.repeatDays[i] <= 7)
    ensures RepeatDescription(t) == ""
  {
  }

  /** Monday and Friday render as "Mon, Fri". */
  lemma CustomMondayFriday(t: Task)
    requires t.repeatType == Custom && t.repeatDays == [1, 5]
    ensures RepeatDescription(t) == "Mon, Fri"
  {
    var days: seq<Int32> := [1, 5];
    assert days[1..] == [5];
    assert DayAbbreviations(days[1..]) == ["Fri"];
    assert DayAbbreviations(days) == ["Mon", "Fri"];
    assert t.repeatDays == days;
    var names := ["Mon", "Fri"];
    assert names[1..] == ["Fri"];
    assert Join(names, ", ") == "Mon, Fri";
  }
}
