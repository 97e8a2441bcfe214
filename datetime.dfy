/** The parts of QDate and QTime the application uses: proleptic Gregorian
    dates (Qt has no year 0), day of the week, times of day with wrap-around at
    midnight, and the "yyyy-MM-dd" / "HH:mm" text forms used to store them. */
module DateTime {
  import opened Text

  datatype Date = NullDate | Date(year: int, month: int, day: int)

  /** Qt's leap-year rule; years before 1 are shifted by one because there is no year 0. */
  predicate IsLeapYear(year: int) {
    var y := if year < 1 then year + 1 else year;
    (y % 4 == 0 && y % 100 != 0) || y % 400 == 0
  }

  function DaysInMonth(year: int, month: int): (n: int)
    requires 1 <= month <= 12
    ensures 28 <= n <= 31
  {
    if month == 2 then (if IsLeapYear(year) then 29 else 28)
    else if month == 4 || month == 6 || month == 9 || month == 11 then 30
    else 31
  }

  predicate IsValidDate(d: Date) {
    d.Date? && d.year != 0 && 1 <= d.month <= 12 && 1 <= d.day <= DaysInMonth(d.year, d.month)
  }

  /** A QDate value: valid, or the null date that every failed construction gives. */
  type QDate = d: Date | d == NullDate || IsValidDate(d) witness NullDate

  /** The Julian Day Number, as QDate computes it (floor division throughout). */
  function JulianDay(d: Date): int
    requires IsValidDate(d)
  {
    var year := if d.year < 0 then d.year + 1 else d.year;
    var a := (14 - d.month) / 12;
    var y := year + 4800 - a;
    var m := d.month + 12 * a - 3;
    d.day + (153 * m + 2) / 5 + 365 * y + y / 4 - y / 100 + y / 400 - 32045
  }

  /** QDate::dayOfWeek: 1 = Monday ... 7 = Sunday; 0 for the null date. */
  function DayOfWeek(d: QDate): (w: int)
    ensures d == NullDate <==> w == 0
    ensures 0 <= w <= 7
  {
    if d == NullDate then 0 else JulianDay(d) % 7 + 1
  }

  /** Saturday or Sunday. */
  predicate IsWeekend(d: QDate) {
    DayOfWeek(d) == 6 || DayOfWeek(d) == 7
  }

  /** QDate::toString("yyyy-MM-dd"); the null date gives the empty string. */
  function FormatDate(d: QDate): string {
    if d == NullDate then ""
    else (if d.year < 0 then "-" + Pad4(-d.year) else Pad4(d.year)) + "-" + Pad2(d.month) + "-" + Pad2(d.day)
  }

  predicate DigitsAt(s: string, i: nat, n: nat) {
    i + n <= |s| && forall k :: i <= k < i + n ==> IsDigit(s[k])
  }

  /** The value of the two digits at s[i], s[i+1]. */
  function Num2(s: string, i: nat): nat
    requires DigitsAt(s, i, 2)
  {
    10 * DigitValue(s[i]) + DigitValue(s[i + 1])
  }

  /** The value of the four digits starting at s[i]. */
  function Num4(s: string, i: nat): nat
    requires DigitsAt(s, i, 4)
  {
    100 * Num2(s, i) + Num2(s, i + 2)
  }

  /** QDate::fromString(s, "yyyy-MM-dd"): four, two and two digits separated by
      '-', naming a valid date; anything else gives the null date. */
  function ParseDate(s: string): (d: QDate)
    ensures d != NullDate ==> |s| == 10
  {
    if |s| == 10 && DigitsAt(s, 0, 4) && s[4] == '-' && DigitsAt(s, 5, 2) && s[7] == '-' && DigitsAt(s, 8, 2) then
      var d := Date(Num4(s, 0), Num2(s, 5), Num2(s, 8));
      if IsValidDate(d) then d else NullDate
    else NullDate
  }

  lemma DigitRoundTrip(d: nat)
    requires d < 10
    ensures IsDigit(DigitChar(d)) && DigitValue(DigitChar(d)) == d
  {
  }

  lemma CharRoundTrip(c: char)
    requires IsDigit(c)
    ensures DigitChar(DigitValue(c)) == c
  {
  }

  lemma Pad2Reads(n: nat)
    requires n < 100
    ensures DigitsAt(Pad2(n), 0, 2) && Num2(Pad2(n), 0) == n
  {
    DigitRoundTrip(n / 10);
    DigitRoundTrip(n % 10);
  }

  lemma Pad4Reads(n: nat)
    requires n < 10000
    ensures DigitsAt(Pad4(n), 0, 4) && Num4(Pad4(n), 0) == n
  {
    var p := Pad4(n);
    Pad2Reads(n / 100);
    Pad2Reads(n % 100);
    assert p[0] == Pad2(n / 100)[0] && p[1] == Pad2(n / 100)[1];
    assert p[2] == Pad2(n % 100)[0] && p[3] == Pad2(n % 100)[1];
    assert Num2(p, 0) == Num2(Pad2(n / 100), 0);
    assert Num2(p, 2) == Num2(Pad2(n % 100), 0);
  }

  /** A stored date reads back as the date that was written (for the four-digit
      years a date edit accepts). */
  lemma DateRoundTrip(d: QDate)
    requires d != NullDate && 1 <= d.year <= 9999
    ensures ParseDate(FormatDate(d)) == d
  {
    var s := FormatDate(d);
    var y, m, dd := Pad4(d.year), Pad2(d.month), Pad2(d.day);
    assert s == y + "-" + m + "-" + dd;
    Pad4Reads(d.year);
    Pad2Reads(d.month);
    Pad2Reads(d.day);
    assert s[0] == y[0] && s[1] == y[1] && s[2] == y[2] && s[3] == y[3];
    assert s[5] == m[0] && s[6] == m[1] && s[8] == dd[0] && s[9] == dd[1];
    assert Num4(s, 0) == Num4(y, 0);
    assert Num2(s, 5) == Num2(m, 0);
    assert Num2(s, 8) == Num2(dd, 0);
  }

  lemma Num2Pads(s: string, i: nat)
    requires DigitsAt(s, i, 2)
    ensures Num2(s, i) < 100 && Pad2(Num2(s, i)) == s[i..i + 2]
  {
    CharRoundTrip(s[i]);
    CharRoundTrip(s[i + 1]);
  }

  lemma Num4Pads(s: string, i: nat)
    requires DigitsAt(s, i, 4)
    ensures Num4(s, i) < 10000 && Pad4(Num4(s, i)) == s[i..i + 4]
  {
    Num2Pads(s, i);
    Num2Pads(s, i + 2);
    var v := Num4(s, i);
    assert v / 100 == Num2(s, i) && v % 100 == Num2(s, i + 2);
    assert s[i..i + 4] == s[i..i + 2] + s[i + 2..i + 4];
  }

  /** A text that parses to a date is exactly the text that date formats to. */
  lemma DateTextRoundTrip(s: string)
    requires ParseDate(s) != NullDate
    ensures FormatDate(ParseDate(s)) == s
  {
    var d := ParseDate(s);
    Num4Pads(s, 0);
    Num2Pads(s, 5);
    Num2Pads(s, 8);
    assert s == s[0..4] + "-" + s[5..7] + "-" + s[8..10];
  }

  datatype Time = NullTime | Time(secs: int)

  /** A QTime value: seconds since midnight, or the null (invalid) time. */
  type QTime = t: Time | t == NullTime || 0 <= t.secs < 86400 witness NullTime

  /** QTime(h, m): null unless 0 <= h < 24 and 0 <= m < 60. */
  function MakeTime(h: int, m: int): (t: QTime)
    ensures t != NullTime <==> 0 <= h < 24 && 0 <= m < 60
  {
    if 0 <= h < 24 && 0 <= m < 60 then Time(h * 3600 + m * 60) else NullTime
  }

  /** QTime::hour: -1 for the null time. */
  function Hour(t: QTime): int {
    if t == NullTime then -1 else t.secs / 3600
  }

  function Minute(t: QTime): int {
    if t == NullTime then -1 else t.secs % 3600 / 60
  }

  /** QTime::addSecs: wraps around midnight; the null time stays null. */
  function AddSecs(t: QTime, s: int): (r: QTime)
    ensures (r == NullTime) == (t == NullTime)
  {
    if t == NullTime then NullTime else Time((t.secs + s) % 86400)
  }

  /** The ordering QTime's comparison operators use: the null time sorts first. */
  function Rank(t: QTime): int {
    if t == NullTime then -1 else t.secs
  }

  predicate TimeBefore(a: QTime, b: QTime) {
    Rank(a) < Rank(b)
  }

  /** QTime::toString("HH:mm"); the null time gives the empty string. */
  function FormatTime(t: QTime): string {
    if t == NullTime then "" else Pad2(Hour(t)) + ":" + Pad2(Minute(t))
  }

  /** QTime::fromString(s, "HH:mm"): two and two digits separated by ':'. */
  function ParseTime(s: string): QTime {
    if |s| == 5 && DigitsAt(s, 0, 2) && s[2] == ':' && DigitsAt(s, 3, 2) then
      MakeTime(Num2(s, 0), Num2(s, 3))
    else NullTime
  }

  /** A stored time reads back as the time that was written, when it is on a whole minute. */
  lemma TimeRoundTrip(t: QTime)
    requires t != NullTime && t.secs % 60 == 0
    ensures ParseTime(FormatTime(t)) == t
  {
    var s := FormatTime(t);
    var h, m := Hour(t), Minute(t);
    DigitRoundTrip(h / 10);
    DigitRoundTrip(h % 10);
    DigitRoundTrip(m / 10);
    DigitRoundTrip(m % 10);
    assert Num2(s, 0) == h;
    assert Num2(s, 3) == m;
  }

  /** A text that parses to a time is exactly the text that time formats to. */
  lemma TimeTextRoundTrip(s: string)
    requires ParseTime(s) != NullTime
    ensures FormatTime(ParseTime(s)) == s
  {
    var h, m := Num2(s, 0), Num2(s, 3);
    Num2Pads(s, 0);
    Num2Pads(s, 3);
    HourMinute(h, m);
    assert s == s[0..2] + ":" + s[3..5];
  }

  lemma HourMinute(h: int, m: int)
    requires 0 <= h < 24 && 0 <= m < 60
    ensures Hour(MakeTime(h, m)) == h && Minute(MakeTime(h, m)) == m
  {
    assert 0 <= m * 60 < 3600;
  }
}
