# DailyFlow: a verified model of its sequential logic

DailyFlow is a Qt desktop planner: users sign up, keep dated schedules, see a
month calendar with dots on busy days, and read an AI-written daily summary
(cached per user and date) and a daily fortune. This project models, in
Dafny, the parts of the application that are plain sequential logic:

- `Env` (`envloader.dfy`): `EnvLoader::load` and `EnvLoader::get`. The `.env`
  file is given as its lines (`None` when it cannot be opened); each line is
  trimmed, blanks and `#` comments are skipped, the rest split at the first
  `=`, key and value trimmed, one pair of matching quotes removed, and the
  pair written into the process-wide map, which a class field holds.
- `Calendar` (`calendar.dfy`): `CustomCalendar`'s per-date count map and its
  four mutators, and `paintCell` as the list of drawing commands one cell
  issues (background, selection, today's frame, day number, up to three dots
  laid out with C++ integer division).
- `SchedulePage` (`schedulepage.dfy`): the schedule list for a date (with the
  placeholder row for an empty day), the month tally handed to the calendar,
  the selection guard of the edit and delete buttons, and the add, edit and
  delete flows with the order in which they invalidate cached summaries.
- `ScheduleDialog` (`scheduledialog.dfy`): the save-enable rule, the ordered
  submit checks, `getScheduleData`, the add-mode default times,
  `loadScheduleData`, and the category's emoji prefix.
- `JoinDialog` (`joindialog.dfy`): the sign-up form's ordered checks, the
  composed e-mail address and postal address, and the single `addUser` call.
- `AIService` (`aiservice.dfy`): `generateDailySummary` (default location,
  cache short-circuit, schedule text, fallback, save), `generateTodaysFortune`,
  `callOpenAI`'s key guard and choice extraction, and `getWeather`'s result.
- Supporting modules: `Text` (Qt's `trimmed`, `indexOf`, `mid`, `left`,
  `QString::number`), `QtArg` (Qt's `QString::arg`, single- and
  multi-argument, including the rescanning of chained calls, with ASCII
  placeholder digits), `DateTime`
  (`QDate`/`QTime` with the `yyyy-MM-dd` and `HH:mm` text forms, day of the
  week from the Julian day) and `Store` (the loosely typed records the store
  returns, the calls the application makes, and the summary cache as a map
  keyed by user and date).

The store (`DataManager`) is not part of this model beyond what its callers
see: query results and success flags are parameters of the modelled
operations, every operation returns the store and network calls it makes, in
order, and the summary cache is a class holding a map from (user, date) to
the summary and weather text. The clock (`QDate::currentDate`,
`QTime::currentTime`), the user's answers to dialogs and the edits made in a
dialog (a value per widget, or none for a widget left as it was shown; no edit
at all for a cancelled dialog) are parameters too; HTTP replies are parameters decoded to the JSON
fields the code reads.

The weather location is the stored address itself, or "Seoul" when it is
empty; the fortune prompt carries the stored date of birth; and the daily
summary's schedule lines read the keys `startTime`/`endTime`, while the schedule page and the
dialog use `start_time`/`end_time`. The code that builds the store's rows is
not part of this model, so the model does not say which side matches them:
`AIService.SummaryTimesNeedCamelKeys`, `SchedulePage.ListTimesNeedSnakeKeys` and
`ScheduleDialog.DialogTimesNeedSnakeKeys` state what each reader makes of a row
keyed the other way. `DailyFlow/schedulepage.h:49` declares
`SchedulePage(const QString&)` while `DailyFlow/schedulepage.cpp:244` defines
`SchedulePage(int)`; the model takes the integer user id of the definition.
Two lines of `DailyFlow/aiservice.cpp` do not do what they evidently intend (see
"## Findings"); the model states both as written and, for the daily summary,
uses the intended lines.

## Model

| member | source | states |
|---|---|---|
| Env.ParsesIff | DailyFlow/envloader.cpp:17-25 | a line contributes a pair exactly when, once trimmed, it is non-empty, does not start with `#`, and holds an `=` |
| Env.ParseLineSplit | DailyFlow/envloader.cpp:24-33 | the split is at the first `=`: the key is the trimmed text before it, the value the trimmed and unquoted text after it, later `=` included |
| Env.KeyHasNoEquals | DailyFlow/envloader.cpp:24-26 | a stored key never holds `=` |
| Env.PlainLineRoundTrip | DailyFlow/envloader.cpp:17-35 | `key=value` without edge spaces or quotes reads back as (key, value), whatever `=` the value holds |
| Env.QuotedLineRoundTrip | DailyFlow/envloader.cpp:26-33 | `key="value"` reads back as (key, value) for any value, spaces and quotes inside included |
| Env.QuotesRemoved | DailyFlow/envloader.cpp:30-33 | a value wrapped in matching double or single quotes loses exactly its first and last characters |
| Env.MismatchedQuotesKept | DailyFlow/envloader.cpp:30-33 | a value opening with one kind of quote and closing with the other is kept as it is |
| Env.LoneQuote | DailyFlow/envloader.cpp:30-33 | a value that is a single quote character starts and ends with it and so becomes empty |
| Env.LastWriteWins | DailyFlow/envloader.cpp:16-35 | the last line that assigns a key decides its value |
| Env.UnassignedKeyKept | DailyFlow/envloader.cpp:6-35 | a key that no line assigns keeps its earlier presence and value: the map is never cleared |
| Env.LoadedGrows | DailyFlow/envloader.cpp:6-35 | loading only adds or overwrites keys; every earlier key survives |
| Env.Lookup | DailyFlow/envloader.cpp:45-47 | the stored value when the key is present, the default otherwise |
| Env.EnvLoader.Load | DailyFlow/envloader.cpp:8-43 | returns false and leaves the map as it was when the file cannot be opened; otherwise returns true and the map is the old map updated by the lines in order |
| Env.EnvLoader.Get | DailyFlow/envloader.cpp:45-47 | `get(key, default)` is the lookup with default in the current map |
| JoinDialog.CheckOrder | DailyFlow/joindialog.cpp:39-68 | each of the five errors is reported exactly when every earlier check passes and its own fails; no error exactly when all pass |
| JoinDialog.AddUserOnlyWhenValid | DailyFlow/joindialog.cpp:39-81 | `addUser` is called once, with the composed fields, exactly when all checks pass; the dialog closes only when that call succeeds |
| JoinDialog.SubmitCalls | DailyFlow/joindialog.cpp:71-72 | one submission makes at most one store call, and it is `addUser` |
| JoinDialog.RejectionLeavesForm | DailyFlow/joindialog.cpp:51-55 | a password mismatch clears the confirmation field and nothing else; other rejections leave the form unchanged |
| JoinDialog.ValidationIgnoresDomainAndAddress | DailyFlow/joindialog.cpp:27-36 | the e-mail domain and the address fields never decide acceptance |
| JoinDialog.EmailParts | DailyFlow/joindialog.cpp:27-28 | the e-mail splits back at its first `@` into the trimmed local part and the chosen domain |
| JoinDialog.AddressShape | DailyFlow/joindialog.cpp:34-36 | the address has no edge whitespace; it is the first part alone when the detail is blank, the detail alone when the first part is blank, else both joined by one space |
| JoinDialog.UntrimmedPasswordMismatch | DailyFlow/joindialog.cpp:21-55 | passwords are compared as typed: a confirmation that is the password with a leading space trims to the same text yet is rejected as a mismatch, and the confirmation is cleared |
| ScheduleDialog.CheckInputOrder | DailyFlow/scheduledialog.cpp:110-128 | the title check runs first, the time check only after it passes, and validateInput accepts exactly when the save button is enabled |
| ScheduleDialog.StripEmoji | DailyFlow/scheduledialog.cpp:102-105 | the category is the text after the first space, or all of it when there is no space |
| ScheduleDialog.StripEmojiOfItem | DailyFlow/scheduledialog.cpp:102-105 | an item `<emoji> <name>` gives back the name, spaces in the name included |
| ScheduleDialog.GetScheduleData | DailyFlow/scheduledialog.cpp:87-108 | the id is present exactly in edit mode and is then the dialog's schedule id; title, location and the memo edit's plain text come out trimmed |
| ScheduleDialog.SavedTimesReadBack | DailyFlow/scheduledialog.cpp:95-98 | the `yyyy-MM-dd` date and `HH:mm` times written parse back to the date and times shown |
| ScheduleDialog.FindText | DailyFlow/scheduledialog.cpp:80-81 | the first item containing the stored category with letter case ignored, or -1 exactly when no item contains it |
| ScheduleDialog.FindTextIgnoresCase | DailyFlow/scheduledialog.cpp:81 | the case of the stored category never changes which item is found |
| ScheduleDialog.FindTextExamples | DailyFlow/scheduledialog.cpp:81 | "work" finds "💼 Work", and "Work" finds an earlier "Homework" first |
| ScheduleDialog.SetDate | DailyFlow/scheduledialog.cpp:73 | `setDate` ignores an invalid date and moves a valid one outside the edit's range to the nearer end of that range; a date in the range is shown as given |
| ScheduleDialog.EarlyDateClamped | DailyFlow/scheduledialog.cpp:73 | a stored date of 0050-01-01 is shown, and saved again, as the edit's minimum 0100-01-01 |
| ScheduleDialog.LoadForm | DailyFlow/scheduledialog.cpp:70-85 | the category selection changes only when an item contains the stored category (case ignored), and then to the first such item |
| ScheduleDialog.DialogTimesNeedSnakeKeys | DailyFlow/scheduledialog.cpp:74-75 | a row without `start_time`/`end_time` leaves both time edits as they were |
| ScheduleDialog.AddModeDefaults | DailyFlow/scheduledialog.cpp:20-25 | until 21:59 the defaults are the next whole hour and one hour later; at 22:xx the end wraps to 00:00; at 23:xx both are invalid and ignored |
| ScheduleDialog.DateFieldReadBack | DailyFlow/scheduledialog.cpp:73-96 | a stored date that parses and lies in the date edit's range is written back as the same text |
| ScheduleDialog.TimeFieldsReadBack | DailyFlow/scheduledialog.cpp:74-98 | stored times shown in the edits are written back as the same text |
| ScheduleDialog.TextFieldsReadBack | DailyFlow/scheduledialog.cpp:72-100 | trimmed stored title, location and memo are written back unchanged, the memo when the text edit gives it back as put in |
| ScheduleDialog.PlainTextStable | DailyFlow/scheduledialog.cpp:77-100 | a memo without carriage returns, no-break spaces or line, paragraph and frame separators reads back from the text edit unchanged |
| ScheduleDialog.PlainTextIdempotent | DailyFlow/scheduledialog.cpp:100 | the memo edit's plain text reads back as itself |
| ScheduleDialog.MemoNoBreakSpace | DailyFlow/scheduledialog.cpp:77-100 | a no-break space in a stored memo is saved back as a plain space |
| ScheduleDialog.CategoryReadBack | DailyFlow/scheduledialog.cpp:80-105 | the category item selected for a stored category strips back to that category |
| ScheduleDialog.EditRoundTrip | DailyFlow/scheduledialog.cpp:31-108 | opening a stored schedule for editing and saving it unchanged gives back the stored fields and id, for a stored date in the date edit's range |
| ScheduleDialog.ScheduleDialog.AddDialog | DailyFlow/scheduledialog.cpp:7-28 | add mode, id -1, the given date and the default times, with the save button in step with the form |
| ScheduleDialog.ScheduleDialog.EditDialog | DailyFlow/scheduledialog.cpp:31-46 | edit mode with the stored id as `toInt` reads it (a number, or numeric text) and the loaded form, with the save button in step with the form |
| ScheduleDialog.ScheduleDialog.Edit | DailyFlow/scheduledialog.cpp:61-67 | every change of the widgets re-runs the save-enable rule |
| ScheduleDialog.ScheduleDialog.ValidateInputFields | DailyFlow/scheduledialog.cpp:130-137 | the save button is enabled exactly when the trimmed title is non-empty and the end is after the start |
| ScheduleDialog.ScheduleDialog.OnSaveClicked | DailyFlow/scheduledialog.cpp:139-144 | the dialog accepts exactly when the save-enable rule holds, reporting validateInput's first failure |
| Calendar.CustomCalendar.constructor | DailyFlow/schedulepage.cpp:12-13 | a new calendar shows today's month, selects today and has no counts |
| Calendar.CustomCalendar.SetScheduleDates | DailyFlow/schedulepage.cpp:105-109 | the count map is replaced wholesale; nothing else changes |
| Calendar.CustomCalendar.AddScheduleDate | DailyFlow/schedulepage.cpp:111-115 | the date gets the count and every other date keeps its own |
| Calendar.CustomCalendar.RemoveScheduleDate | DailyFlow/schedulepage.cpp:117-121 | only that date leaves the map |
| Calendar.CustomCalendar.ClearScheduleDates | DailyFlow/schedulepage.cpp:123-127 | the map becomes empty |
| Calendar.CustomCalendar.PaintCell | DailyFlow/schedulepage.cpp:136-209 | the commands drawn are those of the cell layout for the widget's shown month, selection and counts |
| Calendar.DotsFor | DailyFlow/schedulepage.cpp:179-205 | the dot loop draws the layout's dots, at most three |
| Calendar.DotCount | DailyFlow/schedulepage.cpp:182 | min(count, 3) dots for a positive count, none otherwise |
| Calendar.DotsCentred | DailyFlow/schedulepage.cpp:180-205 | dots are 7 pixels apart, span n*5 + (n-1)*2 pixels, and the group is centred on the cell to within one pixel |
| Calendar.CDiv | DailyFlow/schedulepage.cpp:184 | C++ division truncating toward zero |
| Calendar.OutsideMonthOnlyBackground | DailyFlow/schedulepage.cpp:138-143 | a day outside the shown month gets only the white background |
| Calendar.InMonthLayout | DailyFlow/schedulepage.cpp:145-208 | background, selection fill, today's frame when not selected, day number, then dots exactly for dates in the count map |
| Calendar.ColourRules | DailyFlow/schedulepage.cpp:160-197 | text white iff selected, else red on weekends, else dark; dots white iff selected, else green for today, else blue |
| SchedulePage.BuildItems | DailyFlow/schedulepage.cpp:329-351 | the list loop yields the placeholder row for no schedules, else one row per schedule |
| SchedulePage.ItemsForShape | DailyFlow/schedulepage.cpp:329-355 | an empty day shows one non-selectable row with id -1; otherwise one selectable row per schedule, in order, with its id as `toInt` reads it and "start - end title" text |
| Store.ParseIntRoundTrip | DailyFlow/schedulepage.cpp:340 | an id stored as the text of any 32-bit number reads back as that number |
| Store.ParseIntPadded | DailyFlow/schedulepage.cpp:340 | whitespace around a numeric id and its sign are accepted |
| Store.ParseIntRejects | DailyFlow/schedulepage.cpp:340 | text that is not a signed run of digits reads as 0 |
| SchedulePage.DisplayTextLayout | DailyFlow/schedulepage.cpp:342-345 | the row text is "start - end title" when the two times hold no `%`, whatever the title holds |
| SchedulePage.ListTimesNeedSnakeKeys | DailyFlow/schedulepage.cpp:337-345 | a row without `start_time`/`end_time` (keyed as the daily summary reads it) shows " -  " and the title in the list |
| SchedulePage.TallyCounts | DailyFlow/schedulepage.cpp:371-374 | the tally holds exactly the dates that occur, each with its number of occurrences |
| SchedulePage.MonthCounts | DailyFlow/schedulepage.cpp:358-376 | a date is counted exactly when some month row parses to it, with the number of such rows |
| SchedulePage.TallySum | DailyFlow/schedulepage.cpp:371-374 | the counts add up to the number of dates tallied |
| SchedulePage.MonthCountsSum | DailyFlow/schedulepage.cpp:358-376 | the month's counts add up to the length of the month's list |
| SchedulePage.DateLabelMarksToday | DailyFlow/schedulepage.cpp:303-307 | the label starts with the emoji and the date and is marked "[오늘]" exactly for today |
| SchedulePage.AddKeepsSelectedDate | DailyFlow/schedulepage.cpp:381 | a new schedule saved without touching the date edit is on the date selected when the dialog opened, when that date lies in the date edit's range |
| SchedulePage.RunDialog | DailyFlow/scheduledialog.cpp:139-144 | an open dialog accepts exactly when the user saved a form that passes validation, and then hands back getScheduleData of the edited form |
| SchedulePage.ExecEditDialog | DailyFlow/schedulepage.cpp:433-436 | the edit dialog opens on the stored record and, when accepted, gives edit-mode data with the stored id |
| SchedulePage.SchedulePage.constructor | DailyFlow/schedulepage.cpp:244-288 | the page opens on today with the month's counts, today's list, both buttons disabled and today's label, having asked the store for the month, then the day, then the day again |
| SchedulePage.SchedulePage.LoadSchedulesForDate | DailyFlow/schedulepage.cpp:319-356 | asks the store for the date, shows its list, and disables both buttons |
| SchedulePage.SchedulePage.UpdateCalendarSchedules | DailyFlow/schedulepage.cpp:358-377 | asks for the shown month and gives the calendar the tally of its rows' dates |
| SchedulePage.SchedulePage.Refresh | DailyFlow/schedulepage.cpp:402-403 | the month recount then the day reload, with their two store calls in that order |
| SchedulePage.SchedulePage.SelectionChanged | DailyFlow/schedulepage.cpp:275-280 | edit and delete are enabled exactly when the current row's id is above 0 |
| SchedulePage.SchedulePage.OnDateSelected | DailyFlow/schedulepage.cpp:295-317 | recounts only when the month shown changes, selects the date, sets the label and lists the date |
| SchedulePage.SchedulePage.OnAddSchedule | DailyFlow/schedulepage.cpp:379-410 | the add dialog opens on the selected date and is accepted exactly when the edited form validates, handing back its add-mode data; on success invalidates the new schedule's date and refreshes; a cancel or a failure invalidates nothing and changes nothing |
| SchedulePage.SchedulePage.OnEditSchedule | DailyFlow/schedulepage.cpp:412-463 | nothing without a current row with id above 0; on success invalidates the original date, then the new date, and refreshes; otherwise invalidates nothing |
| SchedulePage.SchedulePage.OnDeleteSchedule | DailyFlow/schedulepage.cpp:465-504 | nothing without a current row with id above 0 or without confirmation; the date is read before deletion and invalidated only on success |
| AIService.CompletionText | DailyFlow/aiservice.cpp:159-214 | the answer is trimmed, and empty whenever there is no API key |
| AIService.CompletionCalls | DailyFlow/aiservice.cpp:160-163 | no request is sent without a key, exactly one with a key |
| AIService.CompletionTextEmpty | DailyFlow/aiservice.cpp:193-214 | empty exactly for no key, a failed request, no `choices`, an empty array or a blank first choice; otherwise the trimmed first choice |
| AIService.WeatherInfo | DailyFlow/aiservice.cpp:217-266 | the weather line is never empty |
| AIService.WeatherCalls | DailyFlow/aiservice.cpp:218-232 | no request without a key, exactly one with a key |
| AIService.WeatherInfoFallback | DailyFlow/aiservice.cpp:236-260 | the "unavailable" text exactly for no key, a failed request or a missing `main`/`weather`; otherwise the line from the reply, "정보 없음" for a missing description |
| AIService.WeatherLineAsWrittenShape | DailyFlow/aiservice.cpp:256-259 | as written the line shows a literal "%.1f", puts the temperature in the humidity's slot and drops the humidity |
| AIService.WeatherLineAsWrittenExample | DailyFlow/aiservice.cpp:256-259 | "맑음", 21.5 and 40 give "맑음, 기온 %.1f°C, 습도 21.5%" |
| AIService.WeatherLineFixed | DailyFlow/aiservice.cpp:256-259 | with a placeholder for the temperature the same chained calls give description, temperature and humidity each in its slot |
| AIService.WeatherLineFields | DailyFlow/aiservice.cpp:256-259 | the intended line holds the description first, the temperature after its label and the humidity before the final `%` |
| AIService.WeatherLineExample | DailyFlow/aiservice.cpp:256-259 | "맑음", 21.5 and 40 give "맑음, 기온 21.5°C, 습도 40%" in the intended line |
| AIService.Location | DailyFlow/aiservice.cpp:42-47 | the stored address, or "Seoul" when it is empty; never empty |
| AIService.HeaderLayout | DailyFlow/aiservice.cpp:71 | the count line carries the number of schedules in decimal |
| AIService.BulletIsMultiArg | DailyFlow/aiservice.cpp:73-77 | a single four-argument `arg` call puts every field verbatim in its own slot |
| AIService.BulletsAgree | DailyFlow/aiservice.cpp:73-77 | the chained calls agree with the intended line when start time, title and location hold no `%` |
| AIService.TitlePlaceholderDerails | DailyFlow/aiservice.cpp:73-77 | as written, a title "%1" is replaced by the location, the end time lands in the location's slot and "%4" is left |
| AIService.BulletAsWrittenExample | DailyFlow/aiservice.cpp:73-77 | start "09:00", title "%1", location "회의실", end "10:00" give "- 09:00 회의실 (10:00 ~ %4)" |
| AIService.BulletExample | DailyFlow/aiservice.cpp:73-77 | the same schedule through the single call keeps its title |
| AIService.MemoLayout | DailyFlow/aiservice.cpp:79-81 | the memo line carries the memo verbatim |
| AIService.EntryLayout | DailyFlow/aiservice.cpp:72-82 | a schedule's text is its line, followed by a memo line exactly when the memo is non-empty |
| AIService.SummaryTimesNeedCamelKeys | DailyFlow/aiservice.cpp:74-77 | a row without `startTime`/`endTime` (keyed as the page and the dialog read it) gives both times empty in the summary line |
| AIService.EntriesAppend | DailyFlow/aiservice.cpp:72-82 | the text of two lists in turn is the text of the joined list, so it follows list order |
| AIService.SchedulesTextLayout | DailyFlow/aiservice.cpp:67-83 | no schedules give the fixed sentence; otherwise the count line then one entry per schedule |
| AIService.BuildSchedulesText | DailyFlow/aiservice.cpp:66-83 | the loop builds the schedules text |
| AIService.FallbackLayout | DailyFlow/aiservice.cpp:104-111 | the fallback shows the date, weather line and schedules text verbatim under their headings |
| AIService.SummaryPromptLayout | DailyFlow/aiservice.cpp:86-99 | the prompt carries the date, weather line and schedules text verbatim after their labels |
| AIService.FortunePromptLayout | DailyFlow/aiservice.cpp:129-140 | the fortune prompt carries today's date and the stored date of birth verbatim |
| AIService.DailySummaryChoice | DailyFlow/aiservice.cpp:102-111 | a cache miss never yields an empty summary: the non-empty answer, else the fallback layout |
| AIService.Fortune | DailyFlow/aiservice.cpp:143-155 | the non-empty answer, else the fixed fortune; never empty |
| AIService.AIService.constructor | DailyFlow/aiservice.cpp:20-32 | both keys are read once from the loaded environment, "" when absent |
| AIService.AIService.GenerateDailySummary | DailyFlow/aiservice.cpp:38-117 | a cached summary is returned verbatim with no further call or change; otherwise the new summary is saved with the weather line and the calls go schedules, weather, completion, save |
| AIService.AIService.GenerateTodaysFortune | DailyFlow/aiservice.cpp:119-156 | the fortune with its fallback; only the user lookup and the completion request are made, and the cache is not touched |

## Findings

| source | as written | input that shows it | evidently intended | confidence | as-written member | corrected member |
|---|---|---|---|---|---|---|
| DailyFlow/aiservice.cpp:73-77 | four chained single-argument `arg` calls; each rescans what the earlier ones inserted | a schedule titled "%1" with start "09:00", location "회의실", end "10:00" gives "- 09:00 회의실 (10:00 ~ %4)" | each field verbatim in its own slot, as one multi-argument `arg` gives | medium, not executed | AIService.BulletAsWrittenExample | AIService.BulletIsMultiArg |
| DailyFlow/aiservice.cpp:256-259 | template "%1, 기온 %.1f°C, 습도 %2%": "%.1f" is not a placeholder of `arg` | description "맑음", temperature 21.5, humidity 40 give "맑음, 기온 %.1f°C, 습도 21.5%" | the temperature in its own slot and the humidity shown | high, not executed | AIService.WeatherLineAsWrittenExample | AIService.WeatherLineFixed |

## Left out

- `DataManager` (password hashing, SQL statements, the summary cache table, month and date queries, cascade deletes): its implementation is not part of this model; callers see it through parameters and the `Store` call trace, and the cache is an abstract map.
- Network I/O in `callOpenAI` and `getWeather` (request building, the blocking event loop, JSON parsing): the replies are parameters decoded to the fields the code reads.
- `AIService.WeatherInfo`: the temperature is the text `arg(double)` writes for it, given as a parameter; floating-point formatting is not modelled, and the model uses the intended weather line, not the as-written one (see Findings).
- `AIService.AIService.GenerateDailySummary`: on a cache miss the saved weather text, the prompt and the fallback are built from the intended weather line and the one-call schedule lines (`AIService.WeatherInfo`, `AIService.BuildSchedulesText`), not from the as-written chained `arg` calls, whose output is stated separately (see Findings).
- `AIService.BuildSchedulesText`: builds each schedule line with one multi-argument `arg` (the intended behaviour, see Findings); the as-written chain is modelled separately as `AIService.BulletAsWritten`.
- `ScheduleDialog.FindText`: case is ignored by folding Basic Latin and Latin-1 capitals only; Qt's full Unicode case folding (Greek, Cyrillic, other scripts) is not modelled, and `ScheduleDialog.LoadForm`, `ScheduleDialog.CategoryReadBack` and `ScheduleDialog.EditRoundTrip` inherit this.
- `ScheduleDialog.TextFieldsReadBack`: the memo read-back is promised only for memos the text edit gives back as put in (`ScheduleDialog.PlainStable`), because `toPlainText` rewrites carriage returns, no-break spaces and line, paragraph and frame separators.
- `ScheduleDialog.EditRoundTrip`: needs the same memo condition as `ScheduleDialog.TextFieldsReadBack`, for the same reason.
- `ScheduleDialog.SetDate`: the date edit's range is taken to be Qt 6's default for a `QDateEdit`, 0100-01-01 to 9999-12-31. Qt 5's default minimum is 1752-09-14, and the dialog's form file, which is not part of this model, may set another range. Under such a range, `ScheduleDialog.DateFieldReadBack`, `ScheduleDialog.EditRoundTrip` and `SchedulePage.AddKeepsSelectedDate` hold only for dates inside it.
- `SchedulePage.AddKeepsSelectedDate`: promised only for a selected date inside the date edit's range, because the calendar can select earlier dates, which the date edit moves to its minimum.
- `QtArg.Arg`: placeholder digits are the ASCII digits '0' to '9' only. Qt reads them with `QChar::digitValue`, which also accepts other Unicode decimal digits (such as U+FF11, fullwidth one), so a title or location holding such a placeholder is rescanned by the as-written chained calls (`AIService.BulletAsWritten`, `AIService.TitlePlaceholderDerails`) in a way this model does not capture.
- `Store.ParseInt`: numeric text outside the 32-bit range reads as a failed conversion (0); Qt versions differ there.
- `AIService.AIService.GenerateDailySummary` and `AIService.AIService.GenerateTodaysFortune` take the user id already converted by `toInt`.
- `QDate::currentDate` and `QTime::currentTime`: passed in as parameters; locale day names (`ddd`, `dddd`) are a parameter too.
- The user's work in an open dialog is one `SchedulePage.Change` (a value per widget, or none) applied before save; the individual keystrokes, each of which re-runs validateInputFields, are collapsed into that single edit.
- Logging (`qDebug`, `qWarning`, `qCritical`), message boxes, focus changes, stylesheets, fonts, painter state and widget layout: presentation only.
- `updateVisibleRows`, `showEvent`, `wheelEvent` of the calendar, the login dialog, the main window, the home and settings pages and `main.cpp`'s login loop: UI wiring outside the modelled core.
