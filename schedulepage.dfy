/** SchedulePage: the calendar page. It lists the schedules of the selected date,
    keeps the calendar's per-date counts for the month shown, and runs the add,
    edit and delete flows, invalidating the cached daily summary of every date a
    change touches. Store query results, success flags, the user's answers and
    the dialogs' edits reach the model as parameters; the calls made are returned
    in order. */
module SchedulePage {
  import opened Text
  import opened QtArg
  import opened DateTime
  import opened Store
  import opened Calendar
  import D = ScheduleDialog

  /** A row of the schedule list: its text, the schedule id kept under
      Qt::UserRole, and whether it can be selected. */
  datatype ListItem = ListItem(text: string, id: int, selectable: bool)

  /** The row shown for a day without schedules. */
  const EmptyItem := ListItem("일정이 없습니다.", -1, false)

  /** QString("%1 - %2 %3").arg(start).arg(end).arg(title). */
  function DisplayText(startTime: string, endTime: string, title: string): string {
    ArgChain("%1 - %2 %3", [startTime, endTime, title])
  }

  lemma ThirdPlaceholder()
    ensures LowestEscape(" %3") == Some(3)
  {
    PlaceholderScan(" ", 3, "");
    assert " %3" == " " + "%" + [DigitChar(3)] + "";
  }

  lemma SecondPlaceholder()
    ensures LowestEscape(" - %2 %3") == Some(2)
  {
    ThirdPlaceholder();
    PlaceholderScan(" - ", 2, " %3");
    assert " - %2 %3" == " - " + "%" + [DigitChar(2)] + " %3";
  }

  lemma FirstArg(startTime: string)
    ensures Arg("%1 - %2 %3", startTime) == startTime + " - %2 %3"
  {
    SecondPlaceholder();
    FirstLiteral();
    ArgFront(1, " - %2 %3", startTime);
  }

  lemma FirstLiteral()
    ensures "%" + [DigitChar(1)] + " - %2 %3" == "%1 - %2 %3"
  {
    assert DigitChar(1) == '1';
    assert "%" + [DigitChar(1)] + " - %2 %3" == "%1" + " - %2 %3";
  }

  lemma SecondArg(startTime: string, endTime: string)
    requires '%' !in startTime
    ensures Arg(startTime + " - %2 %3", endTime) == startTime + " - " + endTime + " %3"
  {
    ThirdPlaceholder();
    assert '%' !in startTime + " - ";
    assert startTime + " - %2 %3" == (startTime + " - ") + "%" + [DigitChar(2)] + " %3";
    ArgStep(startTime + " - ", 2, " %3", endTime);
  }

  lemma ThirdArg(prefix: string, title: string)
    requires '%' !in prefix
    ensures Arg(prefix + " %3", title) == prefix + " " + title
  {
    assert '%' !in prefix + " ";
    assert prefix + " %3" == (prefix + " ") + "%" + [DigitChar(3)] + "";
    ArgStep(prefix + " ", 3, "", title);
  }

  /** A list row reads "start - end title" whenever the two times hold no '%'
      (stored times are "HH:mm"); the title is inserted last, so whatever it
      contains is shown as it is. */
  lemma DisplayTextLayout(startTime: string, endTime: string, title: string)
    requires '%' !in startTime && '%' !in endTime
    ensures DisplayText(startTime, endTime, title) == startTime + " - " + endTime + " " + title
  {
    ArgChainThree("%1 - %2 %3", startTime, endTime, title);
    FirstArg(startTime);
    SecondArg(startTime, endTime);
    assert '%' !in startTime + " - " + endTime;
    ThirdArg(startTime + " - " + endTime, title);
  }

  function RowItem(row: Record): ListItem {
    ListItem(DisplayText(TextOf(row, "start_time"), TextOf(row, "end_time"), TextOf(row, "title")),
             NumberOf(row, "id"), true)
  }

  /** The list reads the times under "start_time" and "end_time", while the
      daily summary reads "startTime" and "endTime". A row keyed the way the
      summary reads it shows both times empty in the list. */
  lemma ListTimesNeedSnakeKeys(row: Record)
    requires "start_time" !in row && "end_time" !in row
    ensures RowItem(row).text == " -  " + TextOf(row, "title")
  {
    DisplayTextLayout("", "", TextOf(row, "title"));
  }

  /** [f(x) for x in xs]. */
  function Map<A, B>(f: A -> B, xs: seq<A>): seq<B>
    decreases |xs|
  {
    if xs == [] then [] else Map(f, xs[..|xs| - 1]) + [f(xs[|xs| - 1])]
  }

  lemma {:induction false} MapAt<A, B>(f: A -> B, xs: seq<A>)
    ensures |Map(f, xs)| == |xs|
    ensures forall k :: 0 <= k < |xs| ==> Map(f, xs)[k] == f(xs[k])
    decreases |xs|
  {
    if xs != [] {
      MapAt(f, xs[..|xs| - 1]);
    }
  }

  function RowItems(rows: seq<Record>): seq<ListItem> {
    Map(RowItem, rows)
  }

  /** The list loadSchedulesForDate shows for the rows of one date. */
  function ItemsFor(rows: seq<Record>): seq<ListItem> {
    if rows == [] then [EmptyItem] else RowItems(rows)
  }

  /** The list-filling loop of loadSchedulesForDate: the placeholder item for
      no rows, otherwise one item per row in order. */
  method BuildItems(rows: seq<Record>) returns (list: seq<ListItem>)
    ensures list == ItemsFor(rows)
  {
    list := [];
    if |rows| == 0 {
      list := list + [EmptyItem];
      return;
    }
    var i := 0;
    while i < |rows|
      invariant 0 <= i <= |rows|
      invariant list == RowItems(rows[..i])
    {
      assert rows[..i + 1][..i] == rows[..i];
      var item := RowItem(rows[i]);
      list := list + [item];
      i := i + 1;
    }
    assert rows[..|rows|] == rows;
  }

  lemma RowItemsAt(rows: seq<Record>)
    ensures |RowItems(rows)| == |rows|
    ensures forall k :: 0 <= k < |rows| ==> RowItems(rows)[k] == RowItem(rows[k])
  {
    MapAt(RowItem, rows);
  }

  /** The list is never empty; an empty day shows only the placeholder, whose id
      (-1) enables no button; otherwise there is one selectable row per
      schedule, in the store's order, carrying that schedule's id and its
      "start - end title" text. */
  lemma ItemsForShape(rows: seq<Record>)
    ensures |ItemsFor(rows)| >= 1
    ensures rows == [] ==> ItemsFor(rows) == [EmptyItem] && ItemsFor(rows)[0].id <= 0 && !ItemsFor(rows)[0].selectable
    ensures rows != [] ==>
      (|ItemsFor(rows)| == |rows|
       && forall k :: 0 <= k < |rows| ==>
            ItemsFor(rows)[k].id == NumberOf(rows[k], "id") && ItemsFor(rows)[k].selectable
            && ItemsFor(rows)[k].text == DisplayText(TextOf(rows[k], "start_time"), TextOf(rows[k], "end_time"), TextOf(rows[k], "title")))
  {
    RowItemsAt(rows);
  }

  /** The calendar key of each month row: the parsed date (null when malformed). */
  function DatesOf(rows: seq<Record>): seq<QDate> {
    seq(|rows|, k requires 0 <= k < |rows| => ParseDate(TextOf(rows[k], "date")))
  }

  /** scheduleCounts[date]++ over the dates in order, with QMap's default 0. */
  function Tally(ds: seq<QDate>): map<QDate, int>
    decreases |ds|
  {
    if ds == [] then map[]
    else
      var m := Tally(ds[..|ds| - 1]);
      var d := ds[|ds| - 1];
      m[d := (if d in m then m[d] else 0) + 1]
  }

  lemma TallyNext(ds: seq<QDate>, i: int)
    requires 0 <= i < |ds|
    ensures var m := Tally(ds[..i]);
      Tally(ds[..i + 1]) == m[ds[i] := (if ds[i] in m then m[ds[i]] else 0) + 1]
  {
    assert ds[..i + 1][..i] == ds[..i];
  }

  /** The counts hold exactly the dates that occur, each with its number of occurrences. */
  lemma {:induction false} TallyCounts(ds: seq<QDate>)
    ensures forall d :: d in Tally(ds) <==> d in ds
    ensures forall d :: d in Tally(ds) ==> Tally(ds)[d] == multiset(ds)[d]
    decreases |ds|
  {
    if ds != [] {
      var init := ds[..|ds| - 1];
      TallyCounts(init);
      assert ds == init + [ds[|ds| - 1]];
      assert multiset(ds) == multiset(init) + multiset{ds[|ds| - 1]};
      forall d ensures d in ds <==> d in init || d == ds[|ds| - 1] {
        assert d in init ==> d in ds;
      }
    }
  }

  /** A date's dot count comes from the number of its schedules in the month. */
  lemma MonthCounts(rows: seq<Record>, d: QDate)
    ensures d in Tally(DatesOf(rows)) <==> exists k :: 0 <= k < |rows| && ParseDate(TextOf(rows[k], "date")) == d
    ensures d in Tally(DatesOf(rows)) ==> Tally(DatesOf(rows))[d] == multiset(DatesOf(rows))[d]
  {
    var ds := DatesOf(rows);
    TallyCounts(ds);
    if d in ds {
      var k :| 0 <= k < |ds| && ds[k] == d;
      assert ParseDate(TextOf(rows[k], "date")) == d;
    }
    if exists k :: 0 <= k < |rows| && ParseDate(TextOf(rows[k], "date")) == d {
      var k :| 0 <= k < |rows| && ParseDate(TextOf(rows[k], "date")) == d;
      assert ds[k] == d;
    }
  }

  /** The sum of all counts in a count map. */
  ghost function SumValues(m: map<QDate, int>): int
    decreases |m.Keys|
  {
    if m == map[] then 0
    else
      var k :| k in m;
      assert (m - {k}).Keys == m.Keys - {k};
      m[k] + SumValues(m - {k})
  }

  /** The sum does not depend on which key is taken out first. */
  lemma {:induction false} SumAnyKey(m: map<QDate, int>, k: QDate)
    requires k in m
    ensures SumValues(m) == m[k] + SumValues(m - {k})
    decreases |m.Keys|
  {
    var j :| j in m && SumValues(m) == m[j] + SumValues(m - {j});
    if j != k {
      assert (m - {j}).Keys == m.Keys - {j};
      assert (m - {k}).Keys == m.Keys - {k};
      SumAnyKey(m - {j}, k);
      SumAnyKey(m - {k}, j);
      assert m - {j} - {k} == m - {k} - {j};
    }
  }

  /** Every schedule of the month is counted once: the counts add up to the
      number of rows. */
  lemma {:induction false} TallySum(ds: seq<QDate>)
    ensures SumValues(Tally(ds)) == |ds|
    decreases |ds|
  {
    if ds != [] {
      var init := ds[..|ds| - 1];
      var d := ds[|ds| - 1];
      var m := Tally(init);
      TallySum(init);
      var c := (if d in m then m[d] else 0) + 1;
      assert Tally(ds) == m[d := c];
      SumAnyKey(m[d := c], d);
      assert m[d := c] - {d} == m - {d};
      if d in m {
        SumAnyKey(m, d);
      } else {
        assert m - {d} == m;
      }
    }
  }

  /** updateCalendarSchedules' counts add up to the length of the month's list. */
  lemma MonthCountsSum(rows: seq<Record>)
    ensures SumValues(Tally(DatesOf(rows))) == |rows|
  {
    TallySum(DatesOf(rows));
  }

  /** QDate::toString("yyyy년 M월 d일 (ddd)"); `dayName` is the locale's short day name. */
  function KoreanDate(d: QDate, dayName: string): string {
    if d == NullDate then ""
    else
      (if d.year < 0 then "-" + Pad4(-d.year) else Pad4(d.year)) + "년 "
      + NatToString(d.month) + "월 " + NatToString(d.day) + "일 (" + dayName + ")"
  }

  /** The date label of onDateSelected. */
  function DateLabel(date: QDate, today: QDate, dayName: string): string {
    "📆 " + KoreanDate(date, dayName) + (if date == today then " [오늘]" else "")
  }

  /** The label starts with the calendar emoji and the date, and is marked
      "[오늘]" exactly when the date is today: otherwise it ends with ')'. */
  lemma DateLabelMarksToday(date: QDate, today: QDate, dayName: string)
    requires date != NullDate
    ensures var l := DateLabel(date, today, dayName);
      l[..2 + |KoreanDate(date, dayName)|] == "📆 " + KoreanDate(date, dayName)
      && (date == today <==> l[|l| - 1] == ']')
  {
    var l := DateLabel(date, today, dayName);
    var k := KoreanDate(date, dayName);
    assert k[|k| - 1] == ')';
    if date == today {
      assert l == ("📆 " + k) + " [오늘]";
    } else {
      assert l == "📆 " + k + "";
    }
  }

  /** What the user types or picks in the dialog's widgets before pressing
      save; a field left None keeps what the dialog showed. */
  datatype Change = Change(
    title: Option<string>, date: Option<QDate>, start: Option<QTime>, end: Option<QTime>,
    location: Option<string>, memo: Option<string>, categoryIndex: Option<int>)

  function Keep<T>(shown: T, typed: Option<T>): T {
    if typed.Some? then typed.value else shown
  }

  function Applied(f: D.Form, c: Change): D.Form {
    D.Form(Keep(f.title, c.title), Keep(f.date, c.date), Keep(f.start, c.start), Keep(f.end, c.end),
           Keep(f.location, c.location), Keep(f.memo, c.memo), Keep(f.categoryIndex, c.categoryIndex))
  }

  /** The dialog's widgets after the user's edits (`None`: cancelled, nothing edited). */
  function Edited(start: D.Form, userEdit: Option<Change>): D.Form {
    if userEdit.Some? then Applied(start, userEdit.value) else start
  }

  /** exec() returns Accepted: the user pressed save and validateInput passed. */
  predicate Accepts(start: D.Form, userEdit: Option<Change>) {
    userEdit.Some? && D.SaveEnabled(Applied(start, userEdit.value))
  }

  /** What an exec() of a dialog opened on `start` hands back: Accepted exactly
      when the user saved a form that passes validation, and then
      getScheduleData of that form. */
  predicate Outcome(mode: D.Mode, scheduleId: int, start: D.Form, userEdit: Option<Change>, items: seq<string>,
                    accepted: bool, data: ScheduleData) {
    (accepted <==> Accepts(start, userEdit))
    && (accepted ==> data == D.GetScheduleData(mode, scheduleId, Edited(start, userEdit), items))
  }

  /** A new schedule saved without touching the date edit is on the date that
      was selected when the dialog opened, when the date edit can show it. */
  lemma AddKeepsSelectedDate(initial: D.Form, date: QDate, now: QTime, c: Change)
    requires D.InEditRange(date) && c.date.None?
    ensures Edited(D.AddForm(initial, date, now), Some(c)).date == date
  {
  }

  /** Runs an open dialog: the user's edits, then save. The dialog accepts and
      hands back getScheduleData exactly when the edited form passes validation. */
  method RunDialog(dialog: D.ScheduleDialog, userEdit: Option<Change>) returns (accepted: bool, data: ScheduleData)
    requires dialog.Valid()
    modifies dialog
    ensures Outcome(dialog.mode, dialog.scheduleId, old(dialog.form), userEdit, dialog.categoryItems, accepted, data)
  {
    var start := dialog.form;
    accepted := false;
    data := D.GetScheduleData(dialog.mode, dialog.scheduleId, start, dialog.categoryItems);
    if userEdit.Some? {
      var edited := Applied(start, userEdit.value);
      dialog.Edit(edited);
      var check;
      accepted, check := dialog.OnSaveClicked();
      data := dialog.Data();
      assert dialog.form == edited == Edited(start, userEdit);
    }
  }

  /** The edit dialog of onEditSchedule, opened on the stored record, edited and saved. */
  method ExecEditDialog(categories: seq<string>, initial: D.Form, original: Record,
                        userEdit: Option<Change>) returns (accepted: bool, data: ScheduleData)
    ensures Outcome(D.EditMode, NumberOf(original, "id"), D.LoadForm(initial, original, categories), userEdit,
                    categories, accepted, data)
  {
    var dialog := new D.ScheduleDialog.EditDialog(categories, initial, original);
    accepted, data := RunDialog(dialog, userEdit);
  }

  /** What updateCalendarSchedules and loadSchedulesForDate(m_selectedDate) ask
      the store, on a page of `user` showing `year`/`month` with `date` selected. */
  function RefreshCalls(user: int, year: int, month: int, date: QDate): seq<Call> {
    [GetSchedulesByMonth(user, year, month), GetSchedulesByDate(user, FormatDate(date))]
  }

  class SchedulePage {
    const userId: int
    const calendar: CustomCalendar
    var selectedDate: QDate
    var items: seq<ListItem>
    var current: Option<nat>
    var editEnabled: bool
    var deleteEnabled: bool
    var dateLabel: string
    /** The store calls the page made while it was being opened. */
    ghost var openingCalls: seq<Call>

    /** The current row is a row of the list, and the edit and delete buttons are
        enabled exactly when it carries a schedule id above 0. */
    predicate Valid()
      reads this
    {
      (current.Some? ==> current.value < |items|)
      && editEnabled == deleteEnabled
      && (editEnabled <==> current.Some? && items[current.value].id > 0)
    }

    /** The page after a refresh: the month's counts on the calendar, the day's
        rows in the list, nothing current and both buttons disabled. */
    predicate Shows(monthRows: seq<Record>, dayRows: seq<Record>)
      reads this, calendar
    {
      calendar.scheduleCounts == Tally(DatesOf(monthRows))
      && items == ItemsFor(dayRows) && current == None && !editEnabled && !deleteEnabled
    }


    /** The page for `user`, opened on `today`: it shows the month's counts and
        the day's schedules, with today's label, after asking the store for the
        month, then for the day, and once more for the day when the label is set. */
    constructor (user: int, today: QDate, dayName: string, monthRows: seq<Record>, dayRows: seq<Record>)
      requires today != NullDate
      ensures Valid() && Shows(monthRows, dayRows)
      ensures userId == user && selectedDate == today && dateLabel == DateLabel(today, today, dayName)
      ensures calendar.yearShown == today.year && calendar.monthShown == today.month
      ensures openingCalls == [GetSchedulesByMonth(user, today.year, today.month),
                               GetSchedulesByDate(user, FormatDate(today)), GetSchedulesByDate(user, FormatDate(today))]
    {
      userId := user;
      calendar := new CustomCalendar(today);
      selectedDate := today;
      items := [];
      current := None;
      editEnabled := false;
      deleteEnabled := false;
      dateLabel := "";
      new;
      var c1 := UpdateCalendarSchedules(monthRows);
      var c2 := LoadSchedulesForDate(selectedDate, dayRows);
      var c3 := OnDateSelected(today, today, dayName, monthRows, dayRows);
      openingCalls := [c1, c2] + c3;
    }

    /** loadSchedulesForDate: clears the list, shows the rows the store returns
        for `date`, and disables both buttons. */
    method LoadSchedulesForDate(date: QDate, rows: seq<Record>) returns (call: Call)
      modifies this
      ensures call == GetSchedulesByDate(userId, FormatDate(date))
      ensures Valid() && items == ItemsFor(rows) && current == None && !editEnabled && !deleteEnabled
      ensures selectedDate == old(selectedDate) && dateLabel == old(dateLabel)
    {
      call := GetSchedulesByDate(userId, FormatDate(date));
      var list := BuildItems(rows);
      items := list;
      current := None;
      editEnabled := false;
      deleteEnabled := false;
    }

    /** updateCalendarSchedules: counts the month's rows per date and hands the
        counts to the calendar; the page shown does not change. */
    method UpdateCalendarSchedules(rows: seq<Record>) returns (call: Call)
      modifies calendar
      ensures call == GetSchedulesByMonth(userId, old(calendar.yearShown), old(calendar.monthShown))
      ensures calendar.scheduleCounts == Tally(DatesOf(rows))
      ensures calendar.yearShown == old(calendar.yearShown) && calendar.monthShown == old(calendar.monthShown)
      ensures calendar.selectedDate == old(calendar.selectedDate)
    {
      var year := calendar.yearShown;
      var month := calendar.monthShown;
      call := GetSchedulesByMonth(userId, year, month);
      var scheduleCounts: map<QDate, int> := map[];
      var i := 0;
      while i < |rows|
        invariant 0 <= i <= |rows|
        invariant scheduleCounts == Tally(DatesOf(rows)[..i])
        invariant unchanged(calendar)
      {
        var date := ParseDate(TextOf(rows[i], "date"));
        TallyNext(DatesOf(rows), i);
        scheduleCounts := scheduleCounts[date := (if date in scheduleCounts then scheduleCounts[date] else 0) + 1];
        i := i + 1;
      }
      assert DatesOf(rows)[..|rows|] == DatesOf(rows);
      calendar.SetScheduleDates(scheduleCounts);
    }

    /** Both refreshes, in the order every successful change runs them. */
    method Refresh(monthRows: seq<Record>, dayRows: seq<Record>) returns (calls: seq<Call>)
      modifies this, calendar
      ensures calls == RefreshCalls(userId, old(calendar.yearShown), old(calendar.monthShown), old(selectedDate))
      ensures Valid() && Shows(monthRows, dayRows)
      ensures selectedDate == old(selectedDate) && dateLabel == old(dateLabel)
      ensures calendar.yearShown == old(calendar.yearShown) && calendar.monthShown == old(calendar.monthShown)
      ensures calendar.selectedDate == old(calendar.selectedDate)
    {
      var c1 := UpdateCalendarSchedules(monthRows);
      var c2 := LoadSchedulesForDate(selectedDate, dayRows);
      calls := [c1, c2];
    }

    /** The itemSelectionChanged handler: `index` becomes the current row (none
        when it is out of range), and the buttons follow its id. */
    method SelectionChanged(index: int)
      modifies this
      ensures Valid()
      ensures current == (if 0 <= index < |items| then Some(index as nat) else None)
      ensures editEnabled <==> 0 <= index < |items| && items[index].id > 0
      ensures items == old(items) && selectedDate == old(selectedDate) && dateLabel == old(dateLabel)
    {
      current := if 0 <= index < |items| then Some(index as nat) else None;
      var hasSelection := current.Some? && items[current.value].id > 0;
      editEnabled := hasSelection;
      deleteEnabled := hasSelection;
    }

    /** onDateSelected: shows the date's month when another one is shown (the
        page change makes onMonthChanged recount the new month), selects the
        date, sets the label and lists the date's schedules. */
    method OnDateSelected(date: QDate, today: QDate, dayName: string, monthRows: seq<Record>, dayRows: seq<Record>)
      returns (calls: seq<Call>)
      requires date != NullDate
      modifies this, calendar
      ensures var pageChanges := date.month != old(calendar.monthShown) || date.year != old(calendar.yearShown);
        calls == (if pageChanges then [GetSchedulesByMonth(userId, date.year, date.month)] else [])
                 + [GetSchedulesByDate(userId, FormatDate(date))]
        && (pageChanges ==> calendar.scheduleCounts == Tally(DatesOf(monthRows)))
        && (!pageChanges ==> calendar.scheduleCounts == old(calendar.scheduleCounts))
      ensures calendar.yearShown == date.year && calendar.monthShown == date.month
      ensures calendar.selectedDate == old(calendar.selectedDate)
      ensures Valid() && selectedDate == date && dateLabel == DateLabel(date, today, dayName)
      ensures items == ItemsFor(dayRows) && current == None && !editEnabled
    {
      calls := [];
      if MonthOf(date) != calendar.monthShown || YearOf(date) != calendar.yearShown {
        calendar.SetCurrentPage(YearOf(date), MonthOf(date));
        var c := UpdateCalendarSchedules(monthRows);
        calls := calls + [c];
      }
      selectedDate := date;
      var dateText := "📆 " + KoreanDate(date, dayName);
      if date == today {
        dateText := dateText + " [오늘]";
      }
      dateLabel := dateText;
      var c := LoadSchedulesForDate(date, dayRows);
      calls := calls + [c];
    }

    /** The schedule id of the current row, when it names a schedule (the guard
        of onEditSchedule and onDeleteSchedule). */
    function CurrentId(): Option<int>
      reads this
      requires Valid()
    {
      if current.Some? && items[current.value].id > 0 then Some(items[current.value].id) else None
    }

    /** onAddSchedule. The add dialog opens on the selected date; `userEdit`
        is what the user does to its widgets before pressing save (None:
        cancelled). When the dialog accepts, the schedule is added with the
        dialog's data (returned as `data`); on success the summary of the
        schedule's date is invalidated and the page refreshed. */
    method OnAddSchedule(store: SummaryStore, initial: D.Form, now: QTime, categories: seq<string>,
                         userEdit: Option<Change>, success: bool,
                         monthRows: seq<Record>, dayRows: seq<Record>)
      returns (calls: seq<Call>, accepted: bool, data: ScheduleData)
      requires Valid()
      modifies this, calendar, store
      ensures Valid()
      ensures Outcome(D.AddMode, -1, D.AddForm(initial, old(selectedDate), now), userEdit, categories, accepted, data)
      ensures !accepted ==> calls == []
      ensures accepted && !success ==> calls == [AddSchedule(userId, data)]
      ensures accepted && success ==>
        calls == [AddSchedule(userId, data), InvalidateSummary(userId, data.date)]
                 + RefreshCalls(userId, old(calendar.yearShown), old(calendar.monthShown), old(selectedDate))
      ensures accepted && success ==>
        store.entries == old(store.entries) - {(userId, data.date)} && Shows(monthRows, dayRows)
      ensures !(accepted && success) ==>
        store.entries == old(store.entries) && items == old(items) && current == old(current)
        && calendar.scheduleCounts == old(calendar.scheduleCounts)
      ensures selectedDate == old(selectedDate) && dateLabel == old(dateLabel)
      ensures calendar.yearShown == old(calendar.yearShown) && calendar.monthShown == old(calendar.monthShown)
      ensures calendar.selectedDate == old(calendar.selectedDate)
    {
      var dialog := new D.ScheduleDialog.AddDialog(categories, initial, selectedDate, now);
      accepted, data := RunDialog(dialog, userEdit);
      calls := AfterAdd(store, accepted, data, success, monthRows, dayRows);
    }

    /** The part of onAddSchedule after the dialog has closed. */
    method AfterAdd(store: SummaryStore, accepted: bool, data: ScheduleData, success: bool,
                    monthRows: seq<Record>, dayRows: seq<Record>) returns (calls: seq<Call>)
      requires Valid()
      modifies this, calendar, store
      ensures Valid()
      ensures !accepted ==> calls == []
      ensures accepted && !success ==> calls == [AddSchedule(userId, data)]
      ensures accepted && success ==>
        calls == [AddSchedule(userId, data), InvalidateSummary(userId, data.date)]
                 + RefreshCalls(userId, old(calendar.yearShown), old(calendar.monthShown), old(selectedDate))
      ensures accepted && success ==>
        store.entries == old(store.entries) - {(userId, data.date)} && Shows(monthRows, dayRows)
      ensures !(accepted && success) ==>
        store.entries == old(store.entries) && items == old(items) && current == old(current)
        && calendar.scheduleCounts == old(calendar.scheduleCounts)
      ensures selectedDate == old(selectedDate) && dateLabel == old(dateLabel)
      ensures calendar.yearShown == old(calendar.yearShown) && calendar.monthShown == old(calendar.monthShown)
      ensures calendar.selectedDate == old(calendar.selectedDate)
    {
      calls := [];
      if accepted {
        if success {
          store.Invalidate(userId, data.date);
          var refresh := Refresh(monthRows, dayRows);
          calls := [AddSchedule(userId, data), InvalidateSummary(userId, data.date)] + refresh;
        } else {
          calls := [AddSchedule(userId, data)];
        }
      }
    }

    /** onEditSchedule. Nothing happens unless the current row names a schedule;
        the stored schedule is fetched (an empty record stops here) and opened
        in the edit dialog. On acceptance the schedule is updated under the
        row's id with the dialog's data; on success the summaries of the
        ORIGINAL date and then of the NEW date are invalidated and the page
        refreshed. */
    method OnEditSchedule(store: SummaryStore, original: Record, initial: D.Form, categories: seq<string>,
                          userEdit: Option<Change>, success: bool,
                          monthRows: seq<Record>, dayRows: seq<Record>)
      returns (calls: seq<Call>, accepted: bool, data: ScheduleData)
      requires Valid()
      modifies this, calendar, store
      ensures Valid()
      ensures accepted ==> old(CurrentId()).Some? && original != map[]
      ensures old(CurrentId()).Some? && original != map[] ==>
        Outcome(D.EditMode, NumberOf(original, "id"), D.LoadForm(initial, original, categories), userEdit,
                categories, accepted, data)
      ensures old(CurrentId()).None? ==> calls == []
      ensures old(CurrentId()).Some? && !accepted ==> calls == [GetScheduleById(old(CurrentId()).value)]
      ensures accepted && !success ==>
        calls == [GetScheduleById(old(CurrentId()).value), UpdateSchedule(old(CurrentId()).value, data)]
      ensures accepted && success ==>
        calls == [GetScheduleById(old(CurrentId()).value), UpdateSchedule(old(CurrentId()).value, data),
                  InvalidateSummary(userId, TextOf(original, "date")), InvalidateSummary(userId, data.date)]
                 + RefreshCalls(userId, old(calendar.yearShown), old(calendar.monthShown), old(selectedDate))
      ensures accepted && success ==>
        store.entries == old(store.entries) - {(userId, TextOf(original, "date"))} - {(userId, data.date)}
        && Shows(monthRows, dayRows)
      ensures !(accepted && success) ==>
        store.entries == old(store.entries) && items == old(items) && current == old(current)
        && calendar.scheduleCounts == old(calendar.scheduleCounts)
      ensures selectedDate == old(selectedDate) && dateLabel == old(dateLabel)
      ensures calendar.yearShown == old(calendar.yearShown) && calendar.monthShown == old(calendar.monthShown)
      ensures calendar.selectedDate == old(calendar.selectedDate)
    {
      calls := [];
      accepted := false;
      data := D.GetScheduleData(D.EditMode, -1, initial, categories);
      var currentId := CurrentId();
      if currentId.None? {
        return;
      }
      var scheduleId := currentId.value;
      var scheduleData := original;
      if scheduleData == map[] {
        calls := [GetScheduleById(scheduleId)];
        return;
      }
      accepted, data := ExecEditDialog(categories, initial, scheduleData, userEdit);
      calls := AfterEdit(store, scheduleId, TextOf(scheduleData, "date"), accepted, data, success, monthRows, dayRows);
    }

    /** The part of onEditSchedule after the dialog has closed; `originalDate`
        is the date the schedule had when it was fetched. */
    method AfterEdit(store: SummaryStore, scheduleId: int, originalDate: string, accepted: bool, data: ScheduleData,
                     success: bool, monthRows: seq<Record>, dayRows: seq<Record>) returns (calls: seq<Call>)
      requires Valid()
      modifies this, calendar, store
      ensures Valid()
      ensures !accepted ==> calls == [GetScheduleById(scheduleId)]
      ensures accepted && !success ==> calls == [GetScheduleById(scheduleId), UpdateSchedule(scheduleId, data)]
      ensures accepted && success ==>
        calls == [GetScheduleById(scheduleId), UpdateSchedule(scheduleId, data),
                  InvalidateSummary(userId, originalDate), InvalidateSummary(userId, data.date)]
                 + RefreshCalls(userId, old(calendar.yearShown), old(calendar.monthShown), old(selectedDate))
      ensures accepted && success ==>
        store.entries == old(store.entries) - {(userId, originalDate)} - {(userId, data.date)}
        && Shows(monthRows, dayRows)
      ensures !(accepted && success) ==>
        store.entries == old(store.entries) && items == old(items) && current == old(current)
        && calendar.scheduleCounts == old(calendar.scheduleCounts)
      ensures selectedDate == old(selectedDate) && dateLabel == old(dateLabel)
      ensures calendar.yearShown == old(calendar.yearShown) && calendar.monthShown == old(calendar.monthShown)
      ensures calendar.selectedDate == old(calendar.selectedDate)
    {
      if accepted {
        if success {
          store.Invalidate(userId, originalDate);
          store.Invalidate(userId, data.date);
          var refresh := Refresh(monthRows, dayRows);
          calls := [GetScheduleById(scheduleId), UpdateSchedule(scheduleId, data),
                    InvalidateSummary(userId, originalDate), InvalidateSummary(userId, data.date)] + refresh;
        } else {
          calls := [GetScheduleById(scheduleId), UpdateSchedule(scheduleId, data)];
        }
      } else {
        calls := [GetScheduleById(scheduleId)];
      }
    }

    /** onDeleteSchedule. Nothing happens unless the current row names a schedule
        and the user confirms; the schedule is fetched BEFORE it is deleted, so
        that on success the summary of its date can be invalidated; then the
        page is refreshed. */
    method OnDeleteSchedule(store: SummaryStore, confirmed: bool, fetched: Record, success: bool,
                            monthRows: seq<Record>, dayRows: seq<Record>) returns (calls: seq<Call>)
      requires Valid()
      modifies this, calendar, store
      ensures Valid()
      ensures old(CurrentId()).None? || !confirmed ==>
        calls == [] && store.entries == old(store.entries) && items == old(items) && current == old(current)
        && calendar.scheduleCounts == old(calendar.scheduleCounts)
      ensures old(CurrentId()).Some? && confirmed ==>
        var id := old(CurrentId()).value;
        var date := TextOf(fetched, "date");
        calls == [GetScheduleById(id), DeleteSchedule(id)]
                 + (if success
                    then [InvalidateSummary(userId, date)]
                         + RefreshCalls(userId, old(calendar.yearShown), old(calendar.monthShown), old(selectedDate))
                    else [])
        && store.entries == (if success then old(store.entries) - {(userId, date)} else old(store.entries))
        && (success ==> Shows(monthRows, dayRows))
        && (!success ==> items == old(items) && current == old(current) && calendar.scheduleCounts == old(calendar.scheduleCounts))
      ensures selectedDate == old(selectedDate) && dateLabel == old(dateLabel)
      ensures calendar.yearShown == old(calendar.yearShown) && calendar.monthShown == old(calendar.monthShown)
      ensures calendar.selectedDate == old(calendar.selectedDate)
    {
      calls := [];
      if current.None? {
        return;
      }
      var scheduleId := items[current.value].id;
      if scheduleId <= 0 {
        return;
      }
      if confirmed {
        var scheduleData := fetched;
        var dateStr := TextOf(scheduleData, "date");
        calls := calls + [GetScheduleById(scheduleId), DeleteSchedule(scheduleId)];
        if success {
          store.Invalidate(userId, dateStr);
          calls := calls + [InvalidateSummary(userId, dateStr)];
          var refresh := Refresh(monthRows, dayRows);
          calls := calls + refresh;
        }
      }
    }
  }
}
