/**
 * The three pieces of logic in the task edit screen: the "url,column" action
 * data fields, the day chips' numbering, and the Save and day-selector guards.
 */
module EditScreen {
  import opened Wrappers
  import opened KotlinText
  import opened Domain
  import Mapper
  import Scheduler
  import opened ViewModel

  /** A comma-split string is its first piece alone, or that piece, a comma and the rest joined back. */
  lemma SplitHead(s: string)
    ensures var parts := Split(s, ',');
      || (|parts| == 1 && s == parts[0])
      || (|parts| > 1 && s == parts[0] + [','] + Join(parts[1..], [',']))
  {
  }

  /** The sheet URL field: the text before the first comma, or all of it. */
  function SheetUrl(actionData: string): (url: string)
    ensures ',' !in url
    ensures url == actionData || (|url| < |actionData| && actionData[..|url| + 1] == url + [','])
  {
    SplitHead(actionData);
    Split(actionData, ',')[0]
  }

  /** The column field: the text between the first and second commas, or "" without a comma. */
  function SheetColumn(actionData: string): (column: string)
    ensures ',' !in column
    ensures ',' !in actionData ==> column == ""
    ensures ',' in actionData ==>
      |SheetUrl(actionData)| < |actionData| && column == SheetUrl(actionData[|SheetUrl(actionData)| + 1..])
  {
    var parts := Split(actionData, ',');
    SplitHead(actionData);
    if |parts| > 1 then
      var tail := Join(parts[1..], [',']);
      SplitJoin(parts[1..], ',');
      assert actionData[|parts[0]| + 1..] == tail;
      parts[1]
    else
      assert ',' !in actionData;
      ""
  }

  /** A new URL typed into the URL field: "u,<column>". */
  function WithSheetUrl(actionData: string, url: string): string {
    url + [','] + SheetColumn(actionData)
  }

  /** A new column typed into the column field: "<url>,c". */
  function WithSheetColumn(actionData: string, column: string): string {
    SheetUrl(actionData) + [','] + column
  }

  /** Splitting "u,c" gives back u and c when neither holds a comma. */
  lemma SheetFieldsRoundTrip(url: string, column: string)
    requires ',' !in url && ',' !in column
    ensures SheetUrl(url + [','] + column) == url
    ensures SheetColumn(url + [','] + column) == column
  {
    SplitAtSeparator(url, ',', column);
    SplitNoSeparator(column, ',');
  }

  /** Editing the URL changes the URL field and keeps the column. */
  lemma EditUrlKeepsColumn(actionData: string, url: string)
    requires ',' !in url
    ensures SheetUrl(WithSheetUrl(actionData, url)) == url
    ensures SheetColumn(WithSheetUrl(actionData, url)) == SheetColumn(actionData)
  {
    SheetFieldsRoundTrip(url, SheetColumn(actionData));
  }

  /** Editing the column changes the column field and keeps the URL. */
  lemma EditColumnKeepsUrl(actionData: string, column: string)
    requires ',' !in column
    ensures SheetUrl(WithSheetColumn(actionData, column)) == SheetUrl(actionData)
    ensures SheetColumn(WithSheetColumn(actionData, column)) == column
  {
    SheetFieldsRoundTrip(SheetUrl(actionData), column);
  }

  /** The chip labels, Monday first. */
  const DayLabels := ["M", "T", "W", "T", "F", "S", "S"]

  /** The day number chip `index` toggles: Monday = 1, whose name begins with the chip's label. */
  function DayChipNumber(index: int): (day: Int32)
    requires 0 <= index < |DayLabels|
    ensures 1 <= day <= 7
    ensures DayAbbreviation(day).Some? && DayAbbreviation(day).value[..1] == DayLabels[index]
  {
    index + 1
  }

  /** A chip shows as selected when its day is in the form's list. */
  predicate ChipSelected(selectedDays: seq<Int32>, index: int)
    requires 0 <= index < |DayLabels|
  {
    DayChipNumber(index) in selectedDays
  }

  /** Toggling chips keeps every day of the form's list in 1..7. */
  lemma ChipToggleStaysInWeek(days: seq<Int32>, index: int)
    requires 0 <= index < |DayLabels|
    requires forall d :: d in days ==> 1 <= d <= 7
    ensures forall d :: d in ToggledDays(days, DayChipNumber(index)) ==> 1 <= d <= 7
  {
    var r := ToggledDays(days, DayChipNumber(index));
    forall d | d in r
      ensures 1 <= d <= 7
    {
      var chip := DayChipNumber(index);
      assert d in multiset(r);
      assert d in multiset(days) || d == chip;
      if d != chip {
        assert d in days;
      }
    }
  }

  /** The Save button is enabled only for a non-blank title. */
  predicate SaveEnabled(state: TaskEditState) {
    !IsBlank(state.title)
  }

  /** Saved through the button, a task keeps the title as typed: the "Untitled Task" fallback never applies. */
  lemma SaveEnabledKeepsTitle(state: TaskEditState, now: int)
    requires SaveEnabled(state)
    ensures TaskOfEditState(state, now).title == state.title
  {
  }

  /** The day selector is shown only for WEEKLY and CUSTOM. */
  predicate DaySelectorShown(state: TaskEditState) {
    state.repeatType == Weekly || state.repeatType == Custom
  }

  /**
   * The selector hides exactly the field that cannot matter: without it, the
   * day list affects neither the next trigger instant nor the description.
   */
  lemma HiddenDaysHaveNoEffect(state: TaskEditState, days: seq<Int32>, created: int, now: int)
    requires !DaySelectorShown(state)
    ensures var a, b := TaskOfEditState(state, created), TaskOfEditState(state.(repeatDays := days), created);
      && Scheduler.NextTriggerTime(Mapper.ToEntity(a), now) == Scheduler.NextTriggerTime(Mapper.ToEntity(b), now)
      && RepeatDescription(a) == RepeatDescription(b)
  {
    var a, b := TaskOfEditState(state, created), TaskOfEditState(state.(repeatDays := days), created);
    var ea, eb := Mapper.ToEntity(a), Mapper.ToEntity(b);
    assert b == a.(repeatDays := days);
    assert eb == ea.(repeatDays := eb.repeatDays);
    assert ea.repeatType == Mapper.RepeatTypeName(state.repeatType);
    Scheduler.DaysIgnoredUnlessWeekly(ea, eb.repeatDays, now);
  }
}
