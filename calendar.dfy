/** CustomCalendar: a month calendar that keeps a per-date schedule count and
    paints each day cell (background, selection, today's frame, the day number
    and up to three dots for scheduled days). Painting is modelled as the list of
    drawing commands a cell issues, in order. */
module Calendar {
  import opened Text
  import opened DateTime

  /** QRect by its corners: x1 (left), y1 (top), x2 (right), y2 (bottom). */
  datatype Rect = Rect(left: int, top: int, right: int, bottom: int)

  /** C++ integer division, which truncates toward zero. */
  function CDiv(a: int, b: int): (q: int)
    requires b > 0
    ensures a >= 0 ==> q == a / b
    ensures a < 0 ==> q == -((-a) / b)
  {
    if a >= 0 then a / b else -((-a) / b)
  }

  /** QRect::center().x(). */
  function CenterX(r: Rect): int {
    CDiv(r.left + r.right, 2)
  }

  /** QRect::adjusted(dx1, dy1, dx2, dy2). */
  function Adjusted(r: Rect, dx1: int, dy1: int, dx2: int, dy2: int): Rect {
    Rect(r.left + dx1, r.top + dy1, r.right + dx2, r.bottom + dy2)
  }

  const White := "#ffffff"
  const Blue := "#2196F3"
  const Green := "#4CAF50"
  const SelectedWhite := "#FFFFFF"
  const Red := "#f44336"
  const Dark := "#333333"

  /** What a painter is asked to draw. */
  datatype PaintCommand =
    | FillRect(area: Rect, color: string)
    | RoundedFrame(area: Rect, color: string, penWidth: int, radius: int)
    | DrawText(area: Rect, color: string, text: string)
    | DrawDot(centerX: int, centerY: int, radius: int, color: string)

  /** QDate::year/month/day, which are 0 for the null date. */
  function YearOf(d: QDate): int { if d == NullDate then 0 else d.year }
  function MonthOf(d: QDate): int { if d == NullDate then 0 else d.month }
  function DayOf(d: QDate): nat { if d == NullDate then 0 else d.day }

  const DotSize := 5
  const Spacing := 2

  /** qMin(count, 3); a count below one shows nothing. */
  function DotsToShow(count: int): int {
    if count < 3 then count else 3
  }

  function TotalWidth(n: int): int {
    n * DotSize + (n - 1) * Spacing
  }

  function StartX(count: int, centerX: int): int {
    centerX - CDiv(TotalWidth(DotsToShow(count)), 2)
  }

  /** The dot for the i-th of `count`: its left edge is startX + i*(5+2), its
      centre half a dot further right, ten pixels above the cell bottom. */
  function DotAt(count: int, centerX: int, bottom: int, color: string, i: int): PaintCommand {
    DrawDot(StartX(count, centerX) + i * (DotSize + Spacing) + DotSize / 2, bottom - 10, DotSize / 2, color)
  }

  /** The dots of a cell, left to right. */
  function DotLayout(count: int, centerX: int, bottom: int, color: string): seq<PaintCommand> {
    if DotsToShow(count) <= 0 then []
    else seq(DotsToShow(count), i => DotAt(count, centerX, bottom, color, i))
  }

  /** The colour of the day number. */
  function TextColor(isSelected: bool, date: QDate): string {
    if isSelected then SelectedWhite
    else if DayOfWeek(date) == 6 || DayOfWeek(date) == 7 then Red
    else Dark
  }

  /** The colour of the dots. */
  function DotColor(isSelected: bool, isToday: bool): string {
    if isSelected then SelectedWhite else if isToday then Green else Blue
  }

  /** Everything paintCell draws for `date` in `rect`, in order. */
  function CellCommands(yearShown: int, monthShown: int, selected: QDate, today: QDate,
                        counts: map<QDate, int>, rect: Rect, date: QDate): seq<PaintCommand>
  {
    if !(MonthOf(date) == monthShown && YearOf(date) == yearShown) then [FillRect(rect, White)]
    else
      var isSelected := date == selected;
      [FillRect(rect, White)]
      + (if isSelected then [FillRect(rect, Blue)] else [])
      + (if date == today && !isSelected then [RoundedFrame(Adjusted(rect, 4, 4, -4, -4), Green, 2, 4)] else [])
      + [DrawText(rect, TextColor(isSelected, date), NatToString(DayOf(date)))]
      + (if date in counts then DotLayout(counts[date], CenterX(rect), rect.bottom, DotColor(isSelected, date == today)) else [])
  }

  /** The dot loop of paintCell. */
  method DotsFor(count: int, centerX: int, bottom: int, color: string) returns (dots: seq<PaintCommand>)
    ensures dots == DotLayout(count, centerX, bottom, color)
    ensures |dots| <= 3
  {
    var dotsToShow := if count < 3 then count else 3;
    var totalWidth := dotsToShow * DotSize + (dotsToShow - 1) * Spacing;
    var startX := centerX - CDiv(totalWidth, 2);
    var dotY := bottom - 10;
    dots := [];
    var i := 0;
    while i < dotsToShow
      invariant 0 <= i <= if dotsToShow < 0 then 0 else dotsToShow
      invariant |dots| == i
      invariant forall j :: 0 <= j < i ==> dots[j] == DotAt(count, centerX, bottom, color, j)
    {
      var x := startX + i * (DotSize + Spacing);
      dots := dots + [DrawDot(x + DotSize / 2, dotY, DotSize / 2, color)];
      i := i + 1;
    }
  }

  /** At most three dots, exactly min(count, 3) of them for a positive count. */
  lemma DotCount(count: int, centerX: int, bottom: int, color: string)
    ensures |DotLayout(count, centerX, bottom, color)| == if count <= 0 then 0 else if count < 3 then count else 3
  {
  }

  /** The dots are spread evenly, 7 pixels apart, and the group is centred on
      the cell: the space left of the first dot and right of the last one differ
      by at most one pixel (integer division rounds the odd pixel). */
  lemma DotsCentred(count: int, centerX: int, bottom: int, color: string)
    requires count >= 1
    ensures var dots := DotLayout(count, centerX, bottom, color);
      var n := |dots|;
      var leftEdge := dots[0].centerX - DotSize / 2;
      var rightEdge := dots[n - 1].centerX - DotSize / 2 + DotSize;
      (forall i :: 0 < i < n ==> dots[i].centerX == dots[i - 1].centerX + 7)
      && rightEdge - leftEdge == TotalWidth(n)
      && 0 <= (rightEdge - centerX) - (centerX - leftEdge) <= 1
  {
    var n := DotsToShow(count);
    assert TotalWidth(n) == 7 * n - 2 >= 5;
  }

  /** The calendar widget's state that painting depends on. */
  class CustomCalendar {
    var scheduleCounts: map<QDate, int>
    var yearShown: int
    var monthShown: int
    var selectedDate: QDate

    /** A new calendar shows today's month with today selected and no counts. */
    constructor (today: QDate)
      requires today != NullDate
      ensures scheduleCounts == map[] && selectedDate == today
      ensures yearShown == today.year && monthShown == today.month
    {
      scheduleCounts := map[];
      yearShown := today.year;
      monthShown := today.month;
      selectedDate := today;
    }

    /** setScheduleDates: the whole map is replaced. */
    method SetScheduleDates(counts: map<QDate, int>)
      modifies this
      ensures scheduleCounts == counts
      ensures yearShown == old(yearShown) && monthShown == old(monthShown) && selectedDate == old(selectedDate)
    {
      scheduleCounts := counts;
    }

    /** addScheduleDate: `date` gets `count`, every other date is left alone. */
    method AddScheduleDate(date: QDate, count: int)
      modifies this
      ensures scheduleCounts == old(scheduleCounts)[date := count]
      ensures yearShown == old(yearShown) && monthShown == old(monthShown) && selectedDate == old(selectedDate)
    {
      scheduleCounts := scheduleCounts[date := count];
    }

    /** removeScheduleDate: only `date` goes. */
    method RemoveScheduleDate(date: QDate)
      modifies this
      ensures scheduleCounts == old(scheduleCounts) - {date}
      ensures yearShown == old(yearShown) && monthShown == old(monthShown) && selectedDate == old(selectedDate)
    {
      scheduleCounts := scheduleCounts - {date};
    }

    /** clearScheduleDates. */
    method ClearScheduleDates()
      modifies this
      ensures scheduleCounts == map[]
      ensures yearShown == old(yearShown) && monthShown == old(monthShown) && selectedDate == old(selectedDate)
    {
      scheduleCounts := map[];
    }

    /** QCalendarWidget::setCurrentPage. */
    method SetCurrentPage(year: int, month: int)
      modifies this
      ensures yearShown == year && monthShown == month
      ensures scheduleCounts == old(scheduleCounts) && selectedDate == old(selectedDate)
    {
      yearShown := year;
      monthShown := month;
    }

    /** A click on a day (QCalendarWidget::setSelectedDate). */
    method SelectDate(date: QDate)
      modifies this
      ensures selectedDate == date
      ensures scheduleCounts == old(scheduleCounts) && yearShown == old(yearShown) && monthShown == old(monthShown)
    {
      selectedDate := date;
    }

    /** paintCell: the drawing commands for one day cell. */
    method PaintCell(rect: Rect, date: QDate, today: QDate) returns (cmds: seq<PaintCommand>)
      ensures cmds == CellCommands(yearShown, monthShown, selectedDate, today, scheduleCounts, rect, date)
    {
      var isCurrentMonth := MonthOf(date) == monthShown && YearOf(date) == yearShown;
      if !isCurrentMonth {
        return [FillRect(rect, White)];
      }
      cmds := [FillRect(rect, White)];
      var isSelected := date == selectedDate;
      ghost var selection: seq<PaintCommand> := if isSelected then [FillRect(rect, Blue)] else [];
      ghost var frame: seq<PaintCommand> :=
        if date == today && !isSelected then [RoundedFrame(Adjusted(rect, 4, 4, -4, -4), Green, 2, 4)] else [];
      if isSelected {
        cmds := cmds + [FillRect(rect, Blue)];
      } else {
        assert cmds == [FillRect(rect, White)] + [];
      }
      if date == today && !isSelected {
        cmds := cmds + [RoundedFrame(Adjusted(rect, 4, 4, -4, -4), Green, 2, 4)];
      } else {
        assert cmds == cmds + [];
      }
      assert cmds == [FillRect(rect, White)] + selection + frame;
      var textColor;
      if isSelected {
        textColor := SelectedWhite;
      } else if DayOfWeek(date) == 6 || DayOfWeek(date) == 7 {
        textColor := Red;
      } else {
        textColor := Dark;
      }
      assert textColor == TextColor(isSelected, date);
      cmds := cmds + [DrawText(rect, textColor, NatToString(DayOf(date)))];
      ghost var head := cmds;
      ghost var dotsShown: seq<PaintCommand> := if date in scheduleCounts
        then DotLayout(scheduleCounts[date], CenterX(rect), rect.bottom, DotColor(isSelected, date == today)) else [];
      if date in scheduleCounts {
        var dotColor;
        if isSelected {
          dotColor := SelectedWhite;
        } else if date == today {
          dotColor := Green;
        } else {
          dotColor := Blue;
        }
        assert dotColor == DotColor(isSelected, date == today);
        var dots := DotsFor(scheduleCounts[date], CenterX(rect), rect.bottom, dotColor);
        cmds := cmds + dots;
      } else {
        assert cmds == head + [];
      }
      assert cmds == head + dotsShown;
    }
  }

  /** A day outside the shown month gets only its white background. */
  lemma OutsideMonthOnlyBackground(yearShown: int, monthShown: int, selected: QDate, today: QDate,
                                   counts: map<QDate, int>, rect: Rect, date: QDate)
    requires MonthOf(date) != monthShown || YearOf(date) != yearShown
    ensures CellCommands(yearShown, monthShown, selected, today, counts, rect, date) == [FillRect(rect, White)]
  {
  }

  /** In the shown month the cell is: background, then the selection fill if
      selected, then the green frame if it is today and not selected, then the
      day number, then the dots. The dots appear exactly for dates with a count. */
  lemma InMonthLayout(yearShown: int, monthShown: int, selected: QDate, today: QDate,
                      counts: map<QDate, int>, rect: Rect, date: QDate)
    requires MonthOf(date) == monthShown && YearOf(date) == yearShown
    ensures var cmds := CellCommands(yearShown, monthShown, selected, today, counts, rect, date);
      var k := (if date == selected then 1 else 0) + (if date == today && date != selected then 1 else 0);
      var dots := if date in counts then DotLayout(counts[date], CenterX(rect), rect.bottom, DotColor(date == selected, date == today)) else [];
      |cmds| == 2 + k + |dots|
      && cmds[0] == FillRect(rect, White)
      && (date == selected ==> cmds[1] == FillRect(rect, Blue))
      && (date == today && date != selected ==> cmds[1] == RoundedFrame(Adjusted(rect, 4, 4, -4, -4), Green, 2, 4))
      && cmds[1 + k] == DrawText(rect, TextColor(date == selected, date), NatToString(DayOf(date)))
      && cmds[2 + k..] == dots
  {
  }

  /** Text colour: white when selected, otherwise red on Saturday and Sunday,
      otherwise dark grey. Dot colour: white when selected, otherwise green for
      today, otherwise blue. */
  lemma ColourRules(isSelected: bool, isToday: bool, date: QDate)
    ensures TextColor(isSelected, date) == SelectedWhite <==> isSelected
    ensures TextColor(isSelected, date) == Red <==> !isSelected && IsWeekend(date)
    ensures TextColor(isSelected, date) == Dark <==> !isSelected && !IsWeekend(date)
    ensures DotColor(isSelected, isToday) == SelectedWhite <==> isSelected
    ensures DotColor(isSelected, isToday) == Green <==> !isSelected && isToday
    ensures DotColor(isSelected, isToday) == Blue <==> !isSelected && !isToday
  {
  }
}
