/** What the application sees of DataManager: loosely typed records (QVariantMap),
    the calls it makes, and the daily-summary cache keyed by (user, date). The
    store's own implementation is not part of this model; query results and
    success flags reach the model as inputs, and the cache is an abstract map. */
module Store {
  import opened Text

  /** A QVariant as the application uses it: text or a whole number. */
  datatype Value = Str(s: string) | Num(n: int)

  /** A QVariantMap row. */
  type Record = map<string, Value>

  /** record[key].toString(): a missing key is an invalid QVariant, which gives "". */
  function TextOf(r: Record, key: string): (t: string)
    ensures key !in r ==> t == ""
    ensures key in r && r[key].Str? ==> t == r[key].s
    ensures key in r && r[key].Num? ==> t == IntToString(r[key].n)
  {
    if key !in r then ""
    else match r[key]
      case Str(s) => s
      case Num(n) => IntToString(n)
  }

  predicate AllDigits(s: string) {
    forall i :: 0 <= i < |s| ==> IsDigit(s[i])
  }

  /** The value of a string of decimal digits. */
  function DecimalValue(s: string): nat
    requires AllDigits(s)
    decreases |s|
  {
    if s == [] then 0 else 10 * DecimalValue(s[..|s| - 1]) + DigitValue(s[|s| - 1])
  }

  const IntMin := -0x8000_0000
  const IntMax := 0x7FFF_FFFF

  /** The value of `t` when it is an optional '+' or '-' followed by one or
      more ASCII digits, and nothing else. */
  function SignedDigits(t: string): Option<int> {
    if t == [] then None
    else if t[0] == '-' || t[0] == '+' then
      var digits := t[1..];
      if digits == [] || !AllDigits(digits) then None
      else
        var v: int := DecimalValue(digits);
        if t[0] == '-' then Some(-v) else Some(v)
    else if AllDigits(t) then Some(DecimalValue(t))
    else None
  }

  /** QString::toInt in base 10: whitespace around the number is skipped, then
      an optional '+' or '-' and one or more ASCII digits. Any other text, or a
      value outside the 32-bit range, fails, and a failed conversion gives 0. */
  function ParseInt(s: string): (n: int)
    ensures IntMin <= n <= IntMax
    ensures n != 0 ==> SignedDigits(Trim(s)) == Some(n)
  {
    match SignedDigits(Trim(s))
    case Some(v) => if IntMin <= v <= IntMax then v else 0
    case None => 0
  }

  lemma {:induction false} DecimalOfNat(n: nat)
    ensures AllDigits(NatToString(n)) && DecimalValue(NatToString(n)) == n
    decreases n
  {
    var r := NatToString(n);
    if n >= 10 {
      DecimalOfNat(n / 10);
      assert r[..|r| - 1] == NatToString(n / 10);
    }
  }

  lemma SignedDigitsOfNumber(n: int)
    ensures SignedDigits(IntToString(n)) == Some(n)
  {
    var m := if n < 0 then -n else n;
    DecimalOfNat(m);
    if n < 0 {
      assert IntToString(n)[1..] == NatToString(m);
    }
  }

  lemma NumberTextTrimmed(n: int)
    ensures Trim(IntToString(n)) == IntToString(n)
  {
    var s := IntToString(n);
    var d := NatToString(if n < 0 then -n else n);
    if n < 0 {
      assert s == "-" + d;
    }
    assert IsDigit(d[0]) && IsDigit(d[|d| - 1]);
    assert !IsSpace(s[0]) && !IsSpace(s[|s| - 1]);
    TrimIdentity(s);
  }

  /** Every 32-bit number, written as QString::number writes it, reads back as
      itself. */
  lemma ParseIntRoundTrip(n: int)
    requires IntMin <= n <= IntMax
    ensures ParseInt(IntToString(n)) == n
  {
    NumberTextTrimmed(n);
    SignedDigitsOfNumber(n);
  }

  /** Whitespace around the number and a sign are accepted. */
  lemma ParseIntPadded()
    ensures ParseInt(" -7 ") == -7
  {
    PaddedTrimmed();
    SignedSeven();
  }

  lemma PaddedTrimmed()
    ensures Trim(" -7 ") == "-7"
  {
    assert AllSpace(" ");
    TrimPadded(" ", "-7", " ");
    assert " " + "-7" + " " == " -7 ";
  }

  lemma SignedSeven()
    ensures SignedDigits("-7") == Some(-7)
  {
    assert "-7"[1..] == "7";
  }

  /** Text with anything but digits after the sign is a failed conversion. */
  lemma ParseIntRejects()
    ensures ParseInt("4x") == 0
  {
    LetterTrimmed();
    LetterNotDigits();
  }

  lemma LetterTrimmed()
    ensures Trim("4x") == "4x"
  {
    TrimIdentity("4x");
  }

  lemma LetterNotDigits()
    ensures SignedDigits("4x") == None
  {
    assert !IsDigit("4x"[1]);
  }

  /** record[key].toInt(): a number as it is, text as QString::toInt reads it,
      and 0 for a missing key. */
  function NumberOf(r: Record, key: string): (n: int)
    ensures key in r && r[key].Num? ==> n == r[key].n
    ensures key in r && r[key].Str? ==> n == ParseInt(r[key].s)
    ensures key !in r ==> n == 0
  {
    if key !in r then 0
    else match r[key]
      case Num(v) => v
      case Str(t) => ParseInt(t)
  }

  /** The fields passed to addSchedule / updateSchedule, and the map
      ScheduleDialog::getScheduleData builds (`id` only in edit mode). */
  datatype ScheduleData = ScheduleData(
    id: Option<int>, title: string, date: string, startTime: string, endTime: string,
    location: string, memo: string, category: string)

  /** The fields passed to addUser. */
  datatype NewUser = NewUser(
    username: string, password: string, name: string, email: string,
    dateOfBirth: string, address: string)

  /** One call from the application to the store or to an external service, in
      the order the application makes them. */
  datatype Call =
    | GetUserInfo(user: int)
    | GetCachedSummary(user: int, date: string)
    | SaveDailySummary(user: int, date: string, summary: string, weatherInfo: string)
    | InvalidateSummary(user: int, date: string)
    | GetSchedulesByDate(user: int, date: string)
    | GetSchedulesByMonth(user: int, year: int, month: int)
    | GetScheduleById(id: int)
    | AddSchedule(user: int, data: ScheduleData)
    | UpdateSchedule(id: int, data: ScheduleData)
    | DeleteSchedule(id: int)
    | AddUser(newUser: NewUser)
    | WeatherRequest(location: string)
    | CompletionRequest(prompt: string)

  /** A cached daily summary: the summary text and the weather string saved with it. */
  datatype CacheEntry = CacheEntry(summary: string, weatherInfo: string)

  /** The summary cache: at most one entry per (user, date). */
  class SummaryStore {
    var entries: map<(int, string), CacheEntry>

    constructor ()
      ensures entries == map[]
    {
      entries := map[];
    }

    /** getCachedSummary: the stored text, or "" when there is none. */
    function CachedSummary(user: int, date: string): (r: string)
      reads this
      ensures (user, date) !in entries ==> r == ""
      ensures (user, date) in entries ==> r == entries[(user, date)].summary
    {
      if (user, date) in entries then entries[(user, date)].summary else ""
    }

    /** invalidateSummary: removes exactly the entry for (user, date). */
    method Invalidate(user: int, date: string)
      modifies this
      ensures entries == old(entries) - {(user, date)}
      ensures CachedSummary(user, date) == ""
    {
      entries := entries - {(user, date)};
    }

    /** saveDailySummary: insert or replace the entry for (user, date). */
    method Save(user: int, date: string, summary: string, weatherInfo: string)
      modifies this
      ensures entries == old(entries)[(user, date) := CacheEntry(summary, weatherInfo)]
      ensures CachedSummary(user, date) == summary
    {
      entries := entries[(user, date) := CacheEntry(summary, weatherInfo)];
    }
  }
}
