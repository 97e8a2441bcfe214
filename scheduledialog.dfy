/** ScheduleDialog: the add/edit form for one schedule. The widget contents are
    a Form value; a QDateEdit/QTimeEdit ignores an invalid date or time it is
    given, and the category combo box is its list of item texts. */
module ScheduleDialog {
  import opened Text
  import opened DateTime
  import opened Store

  datatype Mode = AddMode | EditMode

  /** The values shown by the dialog's widgets. */
  datatype Form = Form(
    title: string, date: QDate, start: QTime, end: QTime,
    location: string, memo: string, categoryIndex: int)

  /** The date edit's range: a QDateEdit's default minimum and maximum dates
      in Qt 6. */
  const EditMinDate: QDate := Date(100, 1, 1)
  const EditMaxDate: QDate := Date(9999, 12, 31)

  /** Calendar order on (non-null) dates: year, then month, then day. */
  predicate DateOnOrBefore(a: Date, b: Date)
    requires a.Date? && b.Date?
  {
    a.year < b.year || (a.year == b.year && (a.month < b.month || (a.month == b.month && a.day <= b.day)))
  }

  /** A date the date edit can show. */
  predicate InEditRange(d: QDate) {
    d != NullDate && DateOnOrBefore(EditMinDate, d) && DateOnOrBefore(d, EditMaxDate)
  }

  /** What the edits can hold: a date in the edit's range and times on a whole minute. */
  predicate WellFormed(f: Form) {
    InEditRange(f.date)
    && f.start != NullTime && f.start.secs % 60 == 0
    && f.end != NullTime && f.end.secs % 60 == 0
  }

  /** QDateEdit::setDate: an invalid date is ignored, and a valid one is moved
      to the nearest end of the edit's range when it lies outside it. */
  function SetDate(current: QDate, d: QDate): (r: QDate)
    ensures d == NullDate ==> r == current
    ensures d != NullDate ==> InEditRange(r)
    ensures InEditRange(d) ==> r == d
    ensures d != NullDate && !DateOnOrBefore(EditMinDate, d) ==> r == EditMinDate
    ensures d != NullDate && !DateOnOrBefore(d, EditMaxDate) ==> r == EditMaxDate
  {
    if d == NullDate then current
    else if !DateOnOrBefore(EditMinDate, d) then EditMinDate
    else if !DateOnOrBefore(d, EditMaxDate) then EditMaxDate
    else d
  }

  /** QTimeEdit::setTime: an invalid time is ignored. */

  function SetTime(current: QTime, t: QTime): QTime {
    if t == NullTime then current else t
  }

  /** QComboBox::currentText: "" when nothing is current. */
  function CurrentText(items: seq<string>, index: int): string {
    if 0 <= index < |items| then items[index] else ""
  }

  /** The save-button rule (validateInputFields): a non-blank title and an end after the start. */
  predicate SaveEnabled(f: Form) {
    Trim(f.title) != [] && TimeBefore(f.start, f.end)
  }

  datatype InputCheck = InputOk | TitleMissing | EndNotAfterStart

  /** validateInput: the title is checked first, then the times. */
  function CheckInput(f: Form): InputCheck {
    if Trim(f.title) == [] then TitleMissing
    else if !TimeBefore(f.start, f.end) then EndNotAfterStart
    else InputOk
  }

  /** The title check comes first whatever the times; the time check only
      reports once the title passes; and validateInput accepts exactly when
      the save button is enabled. */
  lemma CheckInputOrder(f: Form)
    ensures CheckInput(f) == TitleMissing <==> Trim(f.title) == []
    ensures CheckInput(f) == EndNotAfterStart <==> Trim(f.title) != [] && !TimeBefore(f.start, f.end)
    ensures CheckInput(f) == InputOk <==> SaveEnabled(f)
  {
  }

  /** The category without its leading emoji: the text after the first space,
      or all of it when there is no space (indexOf gives -1, mid(0) is everything). */
  function StripEmoji(t: string): (r: string)
    ensures ' ' in t ==> r == t[IndexOf(t, ' ') + 1..]
    ensures ' ' !in t ==> r == t
  {
    Mid(t, IndexOf(t, ' ') + 1, -1)
  }

  /** An item "<emoji> <name>" gives back the name, spaces in the name included. */
  lemma StripEmojiOfItem(emoji: string, name: string)
    requires ' ' !in emoji
    ensures StripEmoji(emoji + " " + name) == name
  {
    var t := emoji + " " + name;
    assert t[|emoji|] == ' ';
    assert t[..|emoji|] == emoji;
    assert t[|emoji| + 1..] == name;
  }

  /** A character as the memo's text edit gives it back: a carriage return and
      the line, paragraph and frame separators end a line, and a no-break space
      becomes a plain space. */
  function PlainChar(c: char): char {
    if c == '\r' || c == '\U{2028}' || c == '\U{2029}' || c == '\U{FDD0}' || c == '\U{FDD1}' then '\n'
    else if c == '\U{00A0}' then ' '
    else c
  }

  /** Text that the memo edit gives back as it was put in. */
  predicate PlainStable(s: string) {
    forall i :: 0 <= i < |s| ==> PlainChar(s[i]) == s[i]
  }

  /** toPlainText of a text edit filled by setPlainText(s) (or typed): "\r\n"
      is one line break, and every other character reads back as PlainChar. */
  function PlainText(s: string): (r: string)
    ensures |r| <= |s| && PlainStable(r)
    decreases |s|
  {
    if s == [] then []
    else if |s| >= 2 && s[0] == '\r' && s[1] == '\n' then "\n" + PlainText(s[2..])
    else [PlainChar(s[0])] + PlainText(s[1..])
  }

  /** A memo free of the rewritten characters reads back unchanged. */
  lemma {:induction false} PlainTextStable(s: string)
    requires PlainStable(s)
    ensures PlainText(s) == s
    decreases |s|
  {
    if s != [] {
      assert PlainChar(s[0]) == s[0];
      assert PlainStable(s[1..]) by {
        forall i | 0 <= i < |s| - 1 ensures PlainChar(s[1..][i]) == s[1..][i] {
          assert s[1..][i] == s[i + 1];
        }
      }
      PlainTextStable(s[1..]);
    }
  }

  /** Reading back twice is reading back once. */
  lemma PlainTextIdempotent(s: string)
    ensures PlainText(PlainText(s)) == PlainText(s)
  {
    PlainTextStable(PlainText(s));
  }

  /** A no-break space in a memo is saved back as a plain space. */
  lemma MemoNoBreakSpace()
    ensures PlainText("a\U{00A0}b") == "a b"
  {
    assert "a\U{00A0}b"[1..] == "\U{00A0}b";
    assert "\U{00A0}b"[1..] == "b";
    assert "b"[1..] == [];
  }

  /** getScheduleData. */
  function GetScheduleData(mode: Mode, scheduleId: int, f: Form, items: seq<string>): (d: ScheduleData)
    ensures d.id.Some? <==> mode == EditMode
    ensures mode == EditMode ==> d.id == Some(scheduleId)
    ensures IsTrimmed(d.title) && IsTrimmed(d.location) && IsTrimmed(d.memo)
  {
    ScheduleData(
      if mode == EditMode then Some(scheduleId) else None,
      Trim(f.title), FormatDate(f.date), FormatTime(f.start), FormatTime(f.end),
      Trim(f.location), Trim(PlainText(f.memo)), StripEmoji(CurrentText(items, f.categoryIndex)))
  }

  /** The stored date and times read back as the values the edits showed. */
  lemma SavedTimesReadBack(mode: Mode, scheduleId: int, f: Form, items: seq<string>)
    requires WellFormed(f)
    ensures var d := GetScheduleData(mode, scheduleId, f, items);
      ParseDate(d.date) == f.date && ParseTime(d.startTime) == f.start && ParseTime(d.endTime) == f.end
  {
    DateRoundTrip(f.date);
    TimeRoundTrip(f.start);
    TimeRoundTrip(f.end);
  }

  /** The case folding of a character, for Basic Latin and Latin-1 letters:
      capitals map to their small letters (U+00D7 is not a letter). */
  function FoldChar(c: char): char {
    if 'A' <= c <= 'Z' || ('\U{00C0}' <= c <= '\U{00DE}' && c != '\U{00D7}') then (c as int + 32) as char else c
  }

  function FoldText(s: string): (r: string)
    ensures |r| == |s| && forall i :: 0 <= i < |s| ==> r[i] == FoldChar(s[i])
  {
    seq(|s|, i requires 0 <= i < |s| => FoldChar(s[i]))
  }

  /** Qt::MatchContains without Qt::MatchCaseSensitive: `item` contains `text`
      when case is ignored. */
  predicate ContainsText(item: string, text: string) {
    Contains(FoldText(item), FoldText(text))
  }

  /** QComboBox::findText(text, Qt::MatchContains): the first item containing
      `text`, case ignored, or -1. */
  function FindText(items: seq<string>, text: string): (r: int)
    ensures -1 <= r < |items|
    ensures r >= 0 ==> ContainsText(items[r], text) && forall j :: 0 <= j < r ==> !ContainsText(items[j], text)
    ensures r == -1 <==> forall j :: 0 <= j < |items| ==> !ContainsText(items[j], text)
    decreases |items|
  {
    if items == [] then -1
    else if ContainsText(items[0], text) then 0
    else
      var k := FindText(items[1..], text);
      assert forall j :: 1 <= j < |items| ==> items[j] == items[1..][j - 1];
      if k == -1 then -1 else k + 1
  }

  /** Folding twice is folding once. */
  lemma FoldTwice(s: string)
    ensures FoldText(FoldText(s)) == FoldText(s)
  {
  }

  /** The case of the looked-up text never changes the item found: searching for
      `text` and for its case-folded form give the same index. */
  lemma {:induction false} FindTextIgnoresCase(items: seq<string>, text: string)
    ensures FindText(items, text) == FindText(items, FoldText(text))
    decreases |items|
  {
    FoldTwice(text);
    if items != [] {
      FindTextIgnoresCase(items[1..], text);
    }
  }

  /** A stored category in small letters finds the item with the capital, and
      an item that merely contains the text, earlier in the list, wins. */
  lemma FindTextExamples()
    ensures FindText(["\U{1F4BC} Work"], "work") == 0
    ensures FindText(["Homework", "Work"], "Work") == 0
  {
    assert OccursAt(FoldText("\U{1F4BC} Work"), FoldText("work"), 2);
    assert OccursAt(FoldText("Homework"), FoldText("Work"), 4);
  }

  /** loadScheduleData over the widgets' state `f`. The category index changes
      only when some item contains the stored category. */
  function LoadForm(f: Form, data: Record, items: seq<string>): (g: Form)
    ensures FindText(items, TextOf(data, "category")) < 0 ==> g.categoryIndex == f.categoryIndex
    ensures FindText(items, TextOf(data, "category")) >= 0 ==> g.categoryIndex == FindText(items, TextOf(data, "category"))
  {
    var index := FindText(items, TextOf(data, "category"));
    Form(
      TextOf(data, "title"),
      SetDate(f.date, ParseDate(TextOf(data, "date"))),
      SetTime(f.start, ParseTime(TextOf(data, "start_time"))),
      SetTime(f.end, ParseTime(TextOf(data, "end_time"))),
      TextOf(data, "location"),
      TextOf(data, "memo"),
      if index >= 0 then index else f.categoryIndex)
  }

  /** The dialog reads the times under "start_time" and "end_time", like the
      list and unlike the daily summary. A row without those keys leaves both
      time edits as they were. */
  lemma DialogTimesNeedSnakeKeys(f: Form, data: Record, items: seq<string>)
    requires "start_time" !in data && "end_time" !in data
    ensures LoadForm(f, data, items).start == f.start && LoadForm(f, data, items).end == f.end
  {
    assert ParseTime(TextOf(data, "start_time")) == NullTime;
  }

  /** The add-mode start and end: the next hour on the hour, and one hour later. */
  function DefaultStart(now: QTime): QTime {
    MakeTime(Hour(now) + 1, 0)
  }

  function DefaultEnd(now: QTime): QTime {
    AddSecs(DefaultStart(now), 3600)
  }

  /** The widgets of a new add-mode dialog: `initial` after setupUi, then the
      given date and the default times (each ignored when invalid). */
  function AddForm(initial: Form, initialDate: QDate, now: QTime): Form {
    initial.(date := SetDate(initial.date, initialDate),
             start := SetTime(initial.start, DefaultStart(now)),
             end := SetTime(initial.end, DefaultEnd(now)))
  }

  /** From 00:00 to 21:59 the defaults are the next whole hour and the hour after
      it, so saving is possible once a title is typed. At 22:xx the end wraps to
      00:00, before the start; at 23:xx QTime(24, 0) is invalid, neither edit
      changes, and both keep the form's initial times. */
  lemma AddModeDefaults(now: QTime)
    requires now != NullTime
    ensures Hour(now) <= 21 ==>
      (DefaultStart(now) == Time((Hour(now) + 1) * 3600)
       && DefaultEnd(now) == Time((Hour(now) + 2) * 3600)
       && TimeBefore(DefaultStart(now), DefaultEnd(now)))
    ensures Hour(now) == 22 ==>
      (DefaultStart(now) == Time(23 * 3600) && DefaultEnd(now) == Time(0)
       && !TimeBefore(DefaultStart(now), DefaultEnd(now)))
    ensures Hour(now) == 23 ==> DefaultStart(now) == NullTime && DefaultEnd(now) == NullTime
  {
  }

  /** A stored date that the date edit can show is written back unchanged. */
  lemma DateFieldReadBack(f: Form, data: Record, items: seq<string>)
    requires InEditRange(ParseDate(TextOf(data, "date")))
    ensures FormatDate(LoadForm(f, data, items).date) == TextOf(data, "date")
  {
    DateTextRoundTrip(TextOf(data, "date"));
  }

  lemma EarlyDateText()
    ensures FormatDate(Date(50, 1, 1)) == "0050-01-01"
  {
    assert Pad4(50) == "0050";
  }

  lemma MinDateText()
    ensures FormatDate(EditMinDate) == "0100-01-01"
  {
    assert Pad4(100) == "0100";
  }

  /** A stored date before the edit's minimum is shown, and so saved again, as
      the minimum. */
  lemma EarlyDateClamped(f: Form, items: seq<string>)
    ensures FormatDate(LoadForm(f, map["date" := Str("0050-01-01")], items).date) == "0100-01-01"
  {
    var data: Record := map["date" := Str("0050-01-01")];
    EarlyDateText();
    DateRoundTrip(Date(50, 1, 1));
    assert ParseDate(TextOf(data, "date")) == Date(50, 1, 1);
    assert LoadForm(f, data, items).date == EditMinDate;
    MinDateText();
  }

  /** Stored times shown in the time edits are written back unchanged. */
  lemma TimeFieldsReadBack(f: Form, data: Record, items: seq<string>)
    requires ParseTime(TextOf(data, "start_time")) != NullTime && ParseTime(TextOf(data, "end_time")) != NullTime
    ensures FormatTime(LoadForm(f, data, items).start) == TextOf(data, "start_time")
    ensures FormatTime(LoadForm(f, data, items).end) == TextOf(data, "end_time")
  {
    TimeTextRoundTrip(TextOf(data, "start_time"));
    TimeTextRoundTrip(TextOf(data, "end_time"));
  }

  /** Trimmed stored texts are written back unchanged; for the memo this needs
      text the memo edit gives back as it was put in. */
  lemma TextFieldsReadBack(f: Form, data: Record, items: seq<string>)
    requires IsTrimmed(TextOf(data, "title")) && IsTrimmed(TextOf(data, "location")) && IsTrimmed(TextOf(data, "memo"))
    requires PlainStable(TextOf(data, "memo"))
    ensures Trim(LoadForm(f, data, items).title) == TextOf(data, "title")
    ensures Trim(LoadForm(f, data, items).location) == TextOf(data, "location")
    ensures Trim(PlainText(LoadForm(f, data, items).memo)) == TextOf(data, "memo")
  {
    TrimIdentity(TextOf(data, "title"));
    TrimIdentity(TextOf(data, "location"));
    PlainTextStable(TextOf(data, "memo"));
    TrimIdentity(TextOf(data, "memo"));
  }

  /** The category item found for the stored category is the current one. */
  lemma CategoryReadBack(f: Form, data: Record, items: seq<string>)
    requires var i := FindText(items, TextOf(data, "category")); i >= 0 && StripEmoji(items[i]) == TextOf(data, "category")
    ensures StripEmoji(CurrentText(items, LoadForm(f, data, items).categoryIndex)) == TextOf(data, "category")
  {
    var i := FindText(items, TextOf(data, "category"));
    assert LoadForm(f, data, items).categoryIndex == i;
    assert CurrentText(items, i) == items[i];
  }

  /** Opening a stored schedule for editing and saving it unchanged gives back the
      stored fields, when they are what a dialog writes: trimmed texts, a memo the
      text edit gives back unchanged, a date in the stored text form and in the
      date edit's range, times in the stored text form,
      and a category whose item is found first. */
  lemma EditRoundTrip(f: Form, data: Record, items: seq<string>, id: int)
    requires InEditRange(ParseDate(TextOf(data, "date")))
    requires ParseTime(TextOf(data, "start_time")) != NullTime && ParseTime(TextOf(data, "end_time")) != NullTime
    requires IsTrimmed(TextOf(data, "title")) && IsTrimmed(TextOf(data, "location")) && IsTrimmed(TextOf(data, "memo"))
    requires PlainStable(TextOf(data, "memo"))
    requires var i := FindText(items, TextOf(data, "category")); i >= 0 && StripEmoji(items[i]) == TextOf(data, "category")
    ensures GetScheduleData(EditMode, id, LoadForm(f, data, items), items) ==
      ScheduleData(Some(id), TextOf(data, "title"), TextOf(data, "date"), TextOf(data, "start_time"),
                   TextOf(data, "end_time"), TextOf(data, "location"), TextOf(data, "memo"), TextOf(data, "category"))
  {
    DateFieldReadBack(f, data, items);
    TimeFieldsReadBack(f, data, items);
    TextFieldsReadBack(f, data, items);
    CategoryReadBack(f, data, items);
  }

  /** The dialog. `saveEnabled` always agrees with the form: every change of the
      title or the times re-runs validateInputFields, and no other field enters it. */
  class ScheduleDialog {
    const mode: Mode
    const scheduleId: int
    const categoryItems: seq<string>
    var form: Form
    var saveEnabled: bool

    predicate Valid()
      reads this
    {
      saveEnabled == SaveEnabled(form)
    }

    /** Add mode: the given date, and the default times from the clock `now`;
        `initial` is the widgets' state after setupUi. */
    constructor AddDialog(items: seq<string>, initial: Form, initialDate: QDate, now: QTime)
      ensures Valid()
      ensures mode == AddMode && scheduleId == -1 && categoryItems == items
      ensures form == AddForm(initial, initialDate, now)
    {
      mode := AddMode;
      scheduleId := -1;
      categoryItems := items;
      var startTime := MakeTime(Hour(now) + 1, 0);
      var endTime := AddSecs(startTime, 3600);
      form := initial.(date := SetDate(initial.date, initialDate),
                       start := SetTime(initial.start, startTime),
                       end := SetTime(initial.end, endTime));
      new;
      ValidateInputFields();
    }

    /** Edit mode: the id and the widgets come from the stored record. */
    constructor EditDialog(items: seq<string>, initial: Form, data: Record)
      ensures Valid()
      ensures mode == EditMode && scheduleId == NumberOf(data, "id") && categoryItems == items
      ensures form == LoadForm(initial, data, items)
    {
      mode := EditMode;
      scheduleId := NumberOf(data, "id");
      categoryItems := items;
      form := LoadForm(initial, data, items);
      new;
      ValidateInputFields();
    }

    /** The user changes the widgets. */
    method Edit(f: Form)
      requires Valid()
      modifies this
      ensures Valid() && form == f
    {
      form := f;
      ValidateInputFields();
    }

    /** validateInputFields. */
    method ValidateInputFields()
      modifies this
      ensures form == old(form) && saveEnabled == SaveEnabled(form)
    {
      var valid := Trim(form.title) != [] && TimeBefore(form.start, form.end);
      saveEnabled := valid;
    }

    /** onSaveClicked: the dialog is accepted exactly when validateInput passes. */
    method OnSaveClicked() returns (accepted: bool, check: InputCheck)
      ensures check == CheckInput(form)
      ensures accepted <==> SaveEnabled(form)
    {
      check := CheckInput(form);
      CheckInputOrder(form);
      accepted := check == InputOk;
    }

    /** getScheduleData on the current widgets. */
    function Data(): ScheduleData
      reads this
    {
      GetScheduleData(mode, scheduleId, form, categoryItems)
    }
  }
}
