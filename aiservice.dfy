/** AIService: the daily summary and the daily fortune. The daily summary is
    served from the per-(user, date) cache when one is stored; otherwise it is
    built from the user's address (default "Seoul"), today's schedules, the
    weather line and the model's answer, or a fixed fallback layout when the
    answer is empty, and saved with the weather line. The HTTP replies reach
    the model as parameters, decoded to the fields the code reads. */
module AIService {
  import opened Text
  import opened QtArg
  import opened DateTime
  import opened Store
  import opened Env

  // ---- callOpenAI ----------------------------------------------------------

  /** What callOpenAI gets back: a transport error, or a JSON object whose
      "choices" member is absent (None) or an array; each choice is given as
      the value of its message.content read as text ("" when absent). */
  datatype CompletionReply = CompletionFailed | CompletionBody(choices: Option<seq<string>>)

  /** callOpenAI's result: "" without an API key (no request is made), on a
      transport error, without "choices" or with an empty array; otherwise the
      first choice's content, trimmed. */
  function CompletionText(apiKey: string, reply: CompletionReply): (r: string)
    ensures IsTrimmed(r)
    ensures apiKey == "" ==> r == ""
  {
    if apiKey == "" then ""
    else match reply
      case CompletionFailed => ""
      case CompletionBody(None) => ""
      case CompletionBody(Some(cs)) => if cs == [] then "" else Trim(cs[0])
  }

  /** The requests callOpenAI sends: none without a key. */
  function CompletionCalls(apiKey: string, prompt: string): (calls: seq<Call>)
    ensures calls == [] <==> apiKey == ""
    ensures calls != [] ==> calls == [CompletionRequest(prompt)]
  {
    if apiKey == "" then [] else [CompletionRequest(prompt)]
  }

  /** The answer is empty exactly when there is no key, the request failed,
      there is no first choice, or the first choice is blank; otherwise it is
      that choice without surrounding whitespace. */
  lemma CompletionTextEmpty(apiKey: string, reply: CompletionReply)
    ensures CompletionText(apiKey, reply) == "" <==>
      apiKey == "" || reply.CompletionFailed? || reply.choices.None? || reply.choices.value == []
      || AllSpace(reply.choices.value[0])
    ensures apiKey != "" && reply.CompletionBody? && reply.choices.Some? && reply.choices.value != [] ==>
      CompletionText(apiKey, reply) == Trim(reply.choices.value[0])
  {
    if apiKey != "" && reply.CompletionBody? && reply.choices.Some? && reply.choices.value != [] {
      TrimEmpty(reply.choices.value[0]);
    }
  }

  // ---- getWeather ----------------------------------------------------------

  /** What getWeather gets back: a transport error, or a JSON object with
      or without "main" and "weather"; `description` is weather[0].description
      (None when the array is empty), `temperature` main.temp as arg(double)
      writes it, and `humidity` main.humidity. */
  datatype WeatherReply =
    | WeatherFailed
    | WeatherBody(hasMain: bool, hasWeather: bool, description: Option<string>, temperature: string, humidity: int)

  const NoWeather := "날씨 정보를 가져올 수 없습니다."
  const NoDescription := "정보 없음"

  /** The pieces of the weather template "%1, 기온 %.1f°C, 습도 %2%". */
  const TempLabel := ", 기온 "
  const HumidityLabel := ".1f°C, 습도 "

  /** The weather template as written: "%.1f" is a printf conversion, which
      QString::arg does not recognise, so only %1 and %2 are placeholders. */
  const WeatherTemplate := "%1" + TempLabel + "%" + HumidityLabel + "%2" + "%"

  /** The weather line as the code builds it: three chained single-argument
      arg calls on the template above. */
  function WeatherLineAsWritten(description: string, temperature: string, humidity: int): string {
    ArgChain(WeatherTemplate, [description, temperature, IntToString(humidity)])
  }

  /** A template with the temperature in a placeholder of its own. */
  const RestLabel := "°C, 습도 "
  const FixedWeatherTemplate := "%1" + TempLabel + "%2" + RestLabel + "%3" + "%"

  /** The weather line the template evidently means: description, temperature
      and humidity, each in its own slot. */
  function WeatherLine(description: string, temperature: string, humidity: int): string {
    description + TempLabel + temperature + RestLabel + IntToString(humidity) + "%"
  }

  /** A '%' followed by text that starts with neither a digit nor 'L' opens no
      placeholder: the scan and the replacement pass over it. */
  lemma StrayPercent(pre: string, y: string, tail: string, m: nat, a: string)
    requires '%' !in pre && '%' !in y
    requires |y| > 0 && y[0] != 'L' && !IsDigit(y[0])
    ensures LowestEscape(pre + "%" + y + tail) == LowestEscape(tail)
    ensures ReplaceEscapes(pre + "%" + y + tail, m, a) == pre + "%" + y + ReplaceEscapes(tail, m, a)
  {
    var r := y + tail;
    assert pre + "%" + y + tail == pre + ("%" + r);
    LiteralPrefix(pre, "%" + r, m, a);
    var s := "%" + r;
    assert EscapeAt(s) == None;
    assert s[1..] == r;
    assert ReplaceEscapes(s, m, a) == "%" + ReplaceEscapes(r, m, a);
    LiteralPrefix(y, tail, m, a);
  }

  /** A lone trailing '%' is no placeholder. */
  lemma LonePercent(m: nat, a: string)
    ensures LowestEscape("%") == None
    ensures ReplaceEscapes("%", m, a) == "%"
  {
    assert "%"[1..] == [];
  }

  /** %2 followed by a lone '%': the lowest placeholder is 2, and filling it
      keeps the '%'. */
  lemma SecondThenPercent(a: string)
    ensures LowestEscape("%2" + "%") == Some(2)
    ensures ReplaceEscapes("%2" + "%", 2, a) == a + "%"
  {
    LonePercent(2, a);
    assert "%2" + "%" == "%" + [DigitChar(2)] + "%";
    EscapeFirst(2, "%", a);
  }

  /** The first call: %1 takes the description. */
  lemma WeatherFirstCall(description: string)
    ensures Arg(WeatherTemplate, description) == description + TempLabel + "%" + HumidityLabel + ("%2" + "%")
  {
    var q := TempLabel + "%" + HumidityLabel + ("%2" + "%");
    WeatherTemplateSplit();
    WeatherRestLowest();
    ArgFront(1, q, description);
    Regroup(description, TempLabel + "%" + HumidityLabel, "%2" + "%");
    Regroup(description, TempLabel + "%", HumidityLabel);
    Regroup(description, TempLabel, "%");
  }

  /** After %1 the lowest placeholder is %2: "%.1f" opens none. */
  lemma WeatherRestLowest()
    ensures var q := TempLabel + "%" + HumidityLabel + ("%2" + "%");
      LowestEscape(q) == Some(2) && q[0] == ','
  {
    SecondThenPercent("");
    StrayPercent(TempLabel, HumidityLabel, "%2" + "%", 1, "");
  }

  lemma WeatherTemplateSplit()
    ensures WeatherTemplate == "%" + [DigitChar(1)] + (TempLabel + "%" + HumidityLabel + ("%2" + "%"))
  {
    assert DigitChar(1) == '1';
  }

  /** The second call: "%.1f" is skipped and %2 takes the temperature. */
  lemma WeatherSecondCall(description: string, temperature: string)
    requires '%' !in description
    ensures Arg(description + TempLabel + "%" + HumidityLabel + ("%2" + "%"), temperature)
      == description + TempLabel + "%" + HumidityLabel + (temperature + "%")
  {
    SecondThenPercent(temperature);
    StrayPercent(description + TempLabel, HumidityLabel, "%2" + "%", 2, temperature);
  }

  /** The third call finds no placeholder left and changes nothing. */
  lemma WeatherThirdCall(description: string, temperature: string, humidity: string)
    requires '%' !in description && '%' !in temperature
    ensures Arg(description + TempLabel + "%" + HumidityLabel + (temperature + "%"), humidity)
      == description + TempLabel + "%" + HumidityLabel + (temperature + "%")
  {
    LonePercent(0, "");
    LiteralPrefix(temperature, "%", 0, "");
    StrayPercent(description + TempLabel, HumidityLabel, temperature + "%", 0, "");
  }

  /** As written, with '%'-free description and temperature: the literal
      "%.1f" is shown, the temperature lands in the humidity's slot, and the
      humidity is dropped (the third arg finds no placeholder left). */
  lemma WeatherLineAsWrittenShape(description: string, temperature: string, humidity: int)
    requires '%' !in description && '%' !in temperature
    ensures WeatherLineAsWritten(description, temperature, humidity)
      == description + TempLabel + "%" + HumidityLabel + (temperature + "%")
  {
    ArgChainThree(WeatherTemplate, description, temperature, IntToString(humidity));
    WeatherFirstCall(description);
    WeatherSecondCall(description, temperature);
    WeatherThirdCall(description, temperature, IntToString(humidity));
  }

  /** What follows the temperature's placeholder in the corrected template. */
  lemma FixedTail(a: string)
    ensures LowestEscape(RestLabel + "%3" + "%") == Some(3)
    ensures Arg(RestLabel + "%3" + "%", a) == RestLabel + a + "%"
  {
    LonePercent(0, "");
    assert RestLabel + "%3" + "%" == RestLabel + "%" + [DigitChar(3)] + "%";
    PlaceholderScan(RestLabel, 3, "%");
    ArgStep(RestLabel, 3, "%", a);
  }

  /** After a '%'-free prefix, the tail still fills %3 alone. */
  lemma FixedTailAfter(p: string, a: string)
    requires '%' !in p
    ensures Arg(p + (RestLabel + "%3" + "%"), a) == p + (RestLabel + a + "%")
  {
    var x := RestLabel + "%3" + "%";
    FixedTail(a);
    LiteralPrefix(p, x, 3, a);
  }

  lemma FixedFirstCall(description: string)
    ensures Arg(FixedWeatherTemplate, description) == description + TempLabel + "%2" + (RestLabel + "%3" + "%")
  {
    var x := RestLabel + "%3" + "%";
    var q := TempLabel + "%2" + x;
    FixedTemplateSplit();
    FixedTail("");
    PlaceholderScan(TempLabel, 2, x);
    ArgFront(1, q, description);
    Regroup(description, TempLabel + "%2", x);
    Regroup(description, TempLabel, "%2");
  }

  lemma FixedTemplateSplit()
    ensures FixedWeatherTemplate == "%" + [DigitChar(1)] + (TempLabel + "%2" + (RestLabel + "%3" + "%"))
    ensures TempLabel + "%2" + (RestLabel + "%3" + "%") == TempLabel + "%" + [DigitChar(2)] + (RestLabel + "%3" + "%")
  {
    assert DigitChar(1) == '1' && DigitChar(2) == '2';
  }

  lemma FixedSecondCall(description: string, temperature: string)
    requires '%' !in description
    ensures Arg(description + TempLabel + "%2" + (RestLabel + "%3" + "%"), temperature)
      == description + TempLabel + temperature + (RestLabel + "%3" + "%")
  {
    var x := RestLabel + "%3" + "%";
    FixedTail("");
    assert description + TempLabel + "%2" + x == description + TempLabel + "%" + [DigitChar(2)] + x;
    ArgStep(description + TempLabel, 2, x, temperature);
  }

  /** With the temperature given a placeholder of its own, the same three
      chained calls produce the intended line when the description and the
      temperature hold no '%'. */
  lemma WeatherLineFixed(description: string, temperature: string, humidity: int)
    requires '%' !in description && '%' !in temperature
    ensures ArgChain(FixedWeatherTemplate, [description, temperature, IntToString(humidity)])
      == WeatherLine(description, temperature, humidity)
  {
    var h := IntToString(humidity);
    ArgChainThree(FixedWeatherTemplate, description, temperature, h);
    FixedFirstCall(description);
    FixedSecondCall(description, temperature);
    var p := description + TempLabel + temperature;
    FixedTailAfter(p, h);
    Regroup(p + RestLabel, h, "%");
    Regroup(p, RestLabel + h, "%");
    Regroup(p, RestLabel, h);
  }

  /** The intended line keeps every field in its own slot: the description
      first, the temperature after ", 기온 ", the humidity just before the final '%'. */
  lemma WeatherLineFields(description: string, temperature: string, humidity: int)
    ensures var w := WeatherLine(description, temperature, humidity);
      var h := IntToString(humidity);
      && w[..|description|] == description
      && w[|description| + |TempLabel|..|description| + |TempLabel| + |temperature|] == temperature
      && |w| >= |h| + 1 && w[|w| - 1 - |h|..|w| - 1] == h && w[|w| - 1] == '%'
  {
    var w := WeatherLine(description, temperature, humidity);
    var h := IntToString(humidity);
    var a := description + TempLabel + temperature;
    assert w == a + RestLabel + h + "%";
    assert w[..|description|] == description;
    assert w[|description| + |TempLabel|..|description| + |TempLabel| + |temperature|] == temperature;
    assert w[|w| - 1 - |h|..|w| - 1] == h;
  }

  /** One concrete reading, "맑음", 21.5 and 40: as written the line shows
      "%.1f" and gives 21.5 as the humidity. */
  lemma WeatherLineAsWrittenExample()
    ensures WeatherLineAsWritten("맑음", "21.5", 40) == "맑음, 기온 %.1f°C, 습도 21.5%"
  {
    WeatherLineAsWrittenShape("맑음", "21.5", 40);
  }

  /** The corrected line for the same reading shows both numbers. */
  lemma WeatherLineExample()
    ensures WeatherLine("맑음", "21.5", 40) == "맑음, 기온 21.5°C, 습도 40%"
  {
    assert IntToString(40) == "40";
  }

  /** getWeather: the fixed message without a key, on a transport error or
      without "main" and "weather"; otherwise the weather line, with "정보 없음"
      for a missing description. */
  function WeatherInfo(apiKey: string, reply: WeatherReply): (w: string)
    ensures w != ""
  {
    if apiKey == "" then NoWeather
    else match reply
      case WeatherFailed => NoWeather
      case WeatherBody(hasMain, hasWeather, description, temperature, humidity) =>
        if !(hasMain && hasWeather) then NoWeather
        else WeatherLine(if description.Some? then description.value else NoDescription, temperature, humidity)
  }

  /** The requests getWeather sends: none without a key. */
  function WeatherCalls(apiKey: string, location: string): (calls: seq<Call>)
    ensures calls == [] <==> apiKey == ""
    ensures calls != [] ==> calls == [WeatherRequest(location)]
  {
    if apiKey == "" then [] else [WeatherRequest(location)]
  }

  /** The fixed message comes back exactly when there is no key, the request
      failed, or "main" or "weather" is missing; otherwise the line is built
      from the reply's fields. */
  lemma WeatherInfoFallback(apiKey: string, reply: WeatherReply)
    ensures WeatherInfo(apiKey, reply) == NoWeather <==>
      apiKey == "" || reply.WeatherFailed? || !(reply.hasMain && reply.hasWeather)
    ensures apiKey != "" && reply.WeatherBody? && reply.hasMain && reply.hasWeather ==>
      WeatherInfo(apiKey, reply) == WeatherLine(
        if reply.description.Some? then reply.description.value else NoDescription,
        reply.temperature, reply.humidity)
  {
    if apiKey != "" && reply.WeatherBody? && reply.hasMain && reply.hasWeather {
      var w := WeatherInfo(apiKey, reply);
      assert w[|w| - 1] == '%';
      assert NoWeather[|NoWeather| - 1] == '.';
    }
  }

  /** The place the weather is asked for: the user's address, or "Seoul" when
      it is empty (an address of blanks is kept as it is). */
  function Location(userInfo: Record): (loc: string)
    ensures loc != ""
    ensures TextOf(userInfo, "address") != "" ==> loc == TextOf(userInfo, "address")
    ensures TextOf(userInfo, "address") == "" ==> loc == "Seoul"
  {
    var address := TextOf(userInfo, "address");
    if address == "" then "Seoul" else address
  }

  // ---- the schedules text --------------------------------------------------

  const NoSchedules := "오늘은 등록된 일정이 없습니다."

  /** The count line's template, "오늘은 총 %1개의 일정이 있습니다:\n", by its pieces. */
  const HeaderLead := "오늘은 총 "
  const HeaderRest := "개의 일정이 있습니다:\n"
  const HeaderTemplate := HeaderLead + "%1" + HeaderRest

  /** The count line: arg with the number of schedules. */
  function Header(n: nat): string {
    Arg(HeaderTemplate, NatToString(n))
  }

  /** The number appears in the count line's slot, in decimal. */
  lemma HeaderLayout(n: nat)
    ensures Header(n) == HeaderLead + NatToString(n) + HeaderRest
  {
    assert Esc(1) == "%1";
    ArgPlain(HeaderTemplate, HeaderLead, 1, HeaderRest, NatToString(n));
  }

  /** The pieces of the line template "- %1 %2 (%3 ~ %4)\n" around its placeholders. */
  const BulletPieces := ["- ", " ", " (", " ~ ", ")\n"]
  const BulletTemplate := "- " + "%1" + " " + "%2" + " (" + "%3" + " ~ " + "%4" + ")\n"

  /** One schedule's line as the code builds it: four chained single-argument
      arg calls, each rescanning what the earlier ones inserted. */
  function BulletAsWritten(startTime: string, title: string, location: string, endTime: string): string {
    ArgChain(BulletTemplate, [startTime, title, location, endTime])
  }

  /** The intended line: every field verbatim in its own slot, whatever it holds. */
  function Bullet(startTime: string, title: string, location: string, endTime: string): string {
    "- " + startTime + " " + title + " (" + location + " ~ " + endTime + ")\n"
  }

  lemma BulletPiecesPlain()
    ensures PlainPieces(BulletPieces)
    ensures Template(BulletPieces, 1) == BulletTemplate
  {
    TemplateFour("- ", " ", " (", " ~ ", ")\n");
  }

  /** The intended line is what one multi-argument call `.arg(a, b, c, d)`
      gives: the arguments are put in by a single scan and never rescanned. */
  lemma BulletIsMultiArg(startTime: string, title: string, location: string, endTime: string)
    ensures MultiArg(BulletTemplate, [startTime, title, location, endTime])
      == Bullet(startTime, title, location, endTime)
  {
    MultiArgFour("- ", " ", " (", " ~ ", ")\n", startTime, title, location, endTime);
  }

  /** The chained calls agree with the intended line as long as the start
      time, the title and the location hold no '%' (the end time goes in last). */
  lemma BulletsAgree(startTime: string, title: string, location: string, endTime: string)
    requires '%' !in startTime && '%' !in title && '%' !in location
    ensures BulletAsWritten(startTime, title, location, endTime) == Bullet(startTime, title, location, endTime)
  {
    var args := [startTime, title, location, endTime];
    BulletPiecesPlain();
    assert "" + BulletTemplate == BulletTemplate;
    ChainFill("", BulletPieces, 1, args);
    InterleaveFour("- ", " ", " (", " ~ ", ")\n", startTime, title, location, endTime);
  }

  /** The first call of the chain fills "%1" with a plain argument. */
  lemma DerailFirst(ps: seq<string>, a: string)
    requires |ps| == 5 && PlainPieces(ps)
    ensures Arg(Template(ps, 1), a) == ps[0] + a + Template(ps[1..], 2)
  {
    assert "" + Template(ps, 1) == Template(ps, 1) && "" + ps[0] == ps[0];
    TemplateStep("", ps, 1, a);
  }

  /** The second call puts "%1" where "%2" was. */
  lemma DerailSecond(ps: seq<string>, a: string)
    requires |ps| == 5 && PlainPieces(ps) && '%' !in a
    ensures Arg(ps[0] + a + Template(ps[1..], 2), "%1")
      == ps[0] + a + ps[1] + "%1" + Template(ps[2..], 3)
  {
    PlainTail(ps);
    assert ps[1..][1..] == ps[2..];
    TemplateStep(ps[0] + a, ps[1..], 2, "%1");
  }

  /** The third call finds that "%1" lower than "%3" and fills it. */
  lemma DerailThird(ps: seq<string>, a: string, c: string)
    requires |ps| == 5 && PlainPieces(ps) && '%' !in a
    ensures Arg(ps[0] + a + ps[1] + "%1" + Template(ps[2..], 3), c)
      == ps[0] + a + ps[1] + c + Template(ps[2..], 3)
  {
    PlainTail(ps);
    PlainTail(ps[1..]);
    assert ps[1..][1..] == ps[2..];
    var pre := ps[0] + a + ps[1];
    var t3 := Template(ps[2..], 3);
    assert pre + "%1" + t3 == pre + "%" + [DigitChar(1)] + t3 by {
      assert "%1" == "%" + [DigitChar(1)];
      Regroup(pre, "%", [DigitChar(1)]);
    }
    TemplateLowest(ps[2..], 3);
    NoDigitAtFront(ps[2..], 3);
    ArgStep(pre, 1, t3, c);
  }

  /** The fourth call fills "%3", and "%4" is left. */
  lemma DerailFourth(ps: seq<string>, a: string, c: string, d: string)
    requires |ps| == 5 && PlainPieces(ps) && '%' !in a && '%' !in c
    ensures Arg(ps[0] + a + ps[1] + c + Template(ps[2..], 3), d)
      == ps[0] + a + ps[1] + c + ps[2] + d + (ps[3] + "%4" + ps[4])
  {
    PlainTail(ps);
    PlainTail(ps[1..]);
    assert ps[1..][1..] == ps[2..];
    var ps2 := ps[2..];
    assert Template(ps2[1..], 4) == ps[3] + "%4" + ps[4] by {
      assert ps2[1..][1..] == [ps[4]];
      assert Template([ps[4]], 5) == ps[4];
      assert Esc(4) == "%4";
    }
    TemplateStep(ps[0] + a + ps[1] + c, ps2, 3, d);
  }

  /** Four chained calls on a four-placeholder template whose second argument
      is "%1": that "%1" is the lowest placeholder for the third call, so the
      third argument lands in the second slot, the fourth in the third, and
      "%4" is left. */
  lemma ChainSecondIsFirst(ps: seq<string>, a: string, c: string, d: string)
    requires |ps| == 5 && PlainPieces(ps)
    requires '%' !in a && '%' !in c
    ensures ArgChain(Template(ps, 1), [a, "%1", c, d])
      == ps[0] + a + ps[1] + c + ps[2] + d + (ps[3] + "%4" + ps[4])
  {
    ArgChainFour(Template(ps, 1), a, "%1", c, d);
    DerailFirst(ps, a);
    DerailSecond(ps, a);
    DerailThird(ps, a, c);
    DerailFourth(ps, a, c, d);
  }

  /** A title that is exactly "%1" derails the chain: the second call puts
      "%1" back, the third fills it with the location, and the end time goes
      where the location belongs, leaving "%4" behind. */
  lemma TitlePlaceholderDerails(startTime: string, location: string, endTime: string)
    requires '%' !in startTime && '%' !in location
    ensures BulletAsWritten(startTime, "%1", location, endTime)
      == "- " + startTime + " " + location + " (" + endTime + (" ~ " + "%4" + ")\n")
  {
    BulletPiecesPlain();
    ChainSecondIsFirst(BulletPieces, startTime, location, endTime);
  }

  /** One concrete line: start "09:00", title "%1", location "회의실", end
      "10:00". As written the location takes the title's place and the end
      time the location's. */
  lemma BulletAsWrittenExample()
    ensures BulletAsWritten("09:00", "%1", "회의실", "10:00") == "- 09:00 회의실 (10:00 ~ %4)\n"
  {
    TitlePlaceholderDerails("09:00", "회의실", "10:00");
  }

  /** The same schedule through the single multi-argument call keeps its title. */
  lemma BulletExample()
    ensures MultiArg(BulletTemplate, ["09:00", "%1", "회의실", "10:00"]) == "- 09:00 %1 (회의실 ~ 10:00)\n"
  {
    BulletIsMultiArg("09:00", "%1", "회의실", "10:00");
  }

  /** The pieces of the memo line template "  메모: %1\n". */
  const MemoLead := "  메모: "
  const MemoTemplate := MemoLead + "%1" + "\n"

  /** The memo line: a single arg call. */
  function MemoLine(memo: string): string {
    Arg(MemoTemplate, memo)
  }

  /** A single call puts the memo in verbatim, whatever it holds. */
  lemma MemoLayout(memo: string)
    ensures MemoLine(memo) == MemoLead + memo + "\n"
  {
    assert Esc(1) == "%1";
    ArgPlain(MemoTemplate, MemoLead, 1, "\n", memo);
  }

  /** The text for one schedule: its line, then a memo line when the memo is
      not empty. The fields are read under the keys "startTime", "title",
      "location", "endTime" and "memo". */
  function Entry(row: Record): string {
    var memo := TextOf(row, "memo");
    Bullet(TextOf(row, "startTime"), TextOf(row, "title"), TextOf(row, "location"), TextOf(row, "endTime"))
    + (if memo != "" then MemoLine(memo) else "")
  }

  /** The entries of the schedules in list order. */
  function Entries(rows: seq<Record>): string
    decreases |rows|
  {
    if rows == [] then "" else Entries(rows[..|rows| - 1]) + Entry(rows[|rows| - 1])
  }

  /** schedulesText: the fixed sentence for no schedules, else the count line
      followed by the entries. */
  function SchedulesText(rows: seq<Record>): string {
    if rows == [] then NoSchedules else Header(|rows|) + Entries(rows)
  }

  /** A schedule's entry: its line, with the memo line after it exactly when
      the memo is not empty. */
  lemma EntryLayout(row: Record)
    ensures var memo := TextOf(row, "memo");
      Entry(row) == "- " + TextOf(row, "startTime") + " " + TextOf(row, "title") + " ("
        + TextOf(row, "location") + " ~ " + TextOf(row, "endTime") + ")\n"
        + (if memo != "" then MemoLead + memo + "\n" else "")
  {
    MemoLayout(TextOf(row, "memo"));
  }

  /** The summary reads the times under "startTime" and "endTime", while the
      schedule page and the dialog read "start_time" and "end_time". A row keyed
      the way the page and the dialog read it gives both times empty here. */
  lemma SummaryTimesNeedCamelKeys(row: Record)
    requires "startTime" !in row && "endTime" !in row
    ensures Bullet(TextOf(row, "startTime"), TextOf(row, "title"), TextOf(row, "location"), TextOf(row, "endTime"))
      == "-  " + TextOf(row, "title") + " (" + TextOf(row, "location") + " ~ )\n"
  {
    assert TextOf(row, "startTime") == "" && TextOf(row, "endTime") == "";
  }

  /** The entries of two lists one after the other are the entries of the
      joined list: the text follows the list order. */
  lemma {:induction false} EntriesAppend(a: seq<Record>, b: seq<Record>)
    ensures Entries(a + b) == Entries(a) + Entries(b)
    decreases |b|
  {
    if b == [] {
      assert a + b == a;
    } else {
      var init, last := b[..|b| - 1], b[|b| - 1];
      EntriesAppend(a, init);
      var x, y, e := Entries(a), Entries(init), Entry(last);
      assert (a + b)[..|a + b| - 1] == a + init;
      assert (a + b)[|a + b| - 1] == last;
      assert Entries(a + b) == x + y + e;
      assert Entries(b) == y + e;
      Regroup(x, y, e);
    }
  }

  /** The text for no schedules is the fixed sentence; otherwise it opens with
      the count line and then holds the entries of the schedules, in order. */
  lemma SchedulesTextLayout(rows: seq<Record>)
    ensures rows == [] ==> SchedulesText(rows) == NoSchedules
    ensures rows != [] ==>
      (SchedulesText(rows) == HeaderLead + NatToString(|rows|) + HeaderRest + Entries(rows))
  {
    if rows != [] {
      HeaderLayout(|rows|);
      assert SchedulesText(rows) == Header(|rows|) + Entries(rows);
    }
  }

  /** The entries of one more schedule. */
  lemma EntriesSnoc(rows: seq<Record>, i: nat)
    requires i < |rows|
    ensures Entries(rows[..i + 1]) == Entries(rows[..i]) + Entry(rows[i])
  {
    assert rows[..i + 1][..i] == rows[..i];
  }

  /** generateDailySummary's loop that builds schedulesText, with each line
      put in by one multi-argument call. */
  method BuildSchedulesText(rows: seq<Record>) returns (text: string)
    ensures text == SchedulesText(rows)
  {
    if |rows| == 0 {
      return NoSchedules;
    }
    text := Arg(HeaderTemplate, NatToString(|rows|));
    var i := 0;
    while i < |rows|
      invariant 0 <= i <= |rows|
      invariant text == Header(|rows|) + Entries(rows[..i])
    {
      var row := rows[i];
      var startTime, title, location, endTime := TextOf(row, "startTime"), TextOf(row, "title"),
        TextOf(row, "location"), TextOf(row, "endTime");
      var entry := MultiArg(BulletTemplate, [startTime, title, location, endTime]);
      var memo := TextOf(row, "memo");
      if memo != "" {
        entry := entry + Arg(MemoTemplate, memo);
      }
      assert entry == Entry(row) by {
        BulletIsMultiArg(startTime, title, location, endTime);
      }
      assert text + entry == Header(|rows|) + Entries(rows[..i + 1]) by {
        EntriesSnoc(rows, i);
        Regroup(Header(|rows|), Entries(rows[..i]), entry);
      }
      text := text + entry;
      i := i + 1;
    }
    assert rows[..|rows|] == rows;
  }

  // ---- the summary, the prompt and the fortune -----------------------------

  /** QDate::toString("M월 d일 dddd"); `dayName` is the locale's long day name. */
  function TodayKorean(today: QDate, dayName: string): string {
    if today == NullDate then ""
    else NatToString(today.month) + "월 " + NatToString(today.day) + "일 " + dayName
  }

  /** The summary template "📅 %1\n\n🌦️ %2\n\n━━…━━\n\n✨ 오늘의 일정:\n%3", by its pieces. */
  const SummaryLead := "📅 "
  const SummaryWeather := "\n\n" + "🌦️ "
  const SummarySchedules := "\n\n" + "━━━━━━━━━━━━━━━━━━━━━━━━━━━\n\n" + "✨ 오늘의 일정:\n"
  const SummaryTemplate := SummaryLead + "%1" + SummaryWeather + "%2" + SummarySchedules + "%3"

  /** The daily-summary prompt, by its pieces around %1, %2 and %3; the
      instructions after the schedules are kept in three groups of lines. */
  const PromptLead := "당신은 친근한 일정 관리 비서입니다.\n\n" + "날짜: "
  const PromptWeather := "\n" + "날씨: "
  const PromptSchedules := "\n" + "일정:\n"
  const PromptFormat := "다음 형식으로 일정 요약을 작성해주세요:\n\n" + "📅 [날짜]\n\n" + "🌦️ [날씨 정보]\n\n"
  const PromptSections := "━━━━━━━━━━━━━━━━━━━━━━━━━━━\n\n" + "✨ AI 추천:\n" + "[일정 요약 및 추천 사항]\n\n"
  const PromptClosing := "📌 준비물: [필요한 준비물]\n\n" + "친근하고 따뜻한 톤으로 작성하되, 날씨를 고려한 실용적인 조언을 포함해주세요."
  const PromptRest := "\n\n" + PromptFormat + PromptSections + PromptClosing
  const PromptTemplate := PromptLead + "%1" + PromptWeather + "%2" + PromptSchedules + "%3" + PromptRest

  /** The fortune prompt, by its pieces around %1 and %2. */
  const FortuneLead := "당신은 친절한 운세 상담사입니다.\n\n" + "오늘 날짜: "
  const FortuneBirth := "\n" + "생년월일: "
  const FortuneFormat := "다음 형식으로 오늘의 운세를 작성해주세요:\n\n" + "🔮오늘의 운세\n\n"
  const FortuneSections := "전체운: [전체운 내용 - 2-3문장]\n\n" + "금전운: [금전운 내용 - 1-2문장]\n\n"
  const FortuneClosing := "연애운: [연애운 내용 - 1-2문장]\n\n" + "건강운: [건강운 내용 - 1-2문장]\n\n" + "긍정적이면서도 현실적인 조언을 포함하여 따뜻한 톤으로 작성해주세요."
  const FortuneRest := "\n\n" + FortuneFormat + FortuneSections + FortuneClosing
  const FortuneTemplate := FortuneLead + "%1" + FortuneBirth + "%2" + FortuneRest

  /** The fixed fortune used when the model gives no answer. */
  const FortuneFallback := "🔮 오늘의 운세\n\n" + "전체운: 오늘은 평온한 하루가 될 것입니다. 계획한 일들을 차근차근 진행해보세요.\n\n" + "금전운: 안정적인 흐름입니다. 충동적인 지출만 조심하세요.\n\n" + "연애운: 솔직한 대화가 좋은 결과를 가져옵니다.\n\n" + "건강운: 컨디션 관리에 신경 쓰는 것이 좋습니다."

  // The fixed texts hold no '%', so they bring no placeholder of their own.

  lemma SummaryLeadPlain() ensures '%' !in SummaryLead && '%' !in SummaryWeather {}
  lemma SummarySchedulesPlain() ensures '%' !in SummarySchedules && NoDigitStart(SummarySchedules) {}
  lemma PromptLeadPlain() ensures '%' !in PromptLead {}
  lemma PromptLabelsPlain() ensures '%' !in PromptWeather && '%' !in PromptSchedules {}
  lemma PromptFormatPlain() ensures '%' !in PromptFormat {}
  lemma PromptSectionsPlain() ensures '%' !in PromptSections {}
  lemma PromptClosingPlain() ensures '%' !in PromptClosing {}
  lemma FortuneLeadPlain() ensures '%' !in FortuneLead && '%' !in FortuneBirth {}
  lemma FortuneFormatPlain() ensures '%' !in FortuneFormat {}
  lemma FortuneSectionsPlain() ensures '%' !in FortuneSections {}
  lemma FortuneClosingPlain() ensures '%' !in FortuneClosing {}

  lemma PromptRestPlain() ensures '%' !in PromptRest && NoDigitStart(PromptRest)
  {
    PromptFormatPlain();
    PromptSectionsPlain();
    PromptClosingPlain();
  }

  lemma FortuneRestPlain() ensures '%' !in FortuneRest && NoDigitStart(FortuneRest)
  {
    FortuneFormatPlain();
    FortuneSectionsPlain();
    FortuneClosingPlain();
  }

  /** The layout used when the model gives no answer: one multi-argument call. */
  function FallbackSummary(todayKorean: string, weatherInfo: string, schedulesText: string): string {
    MultiArg(SummaryTemplate, [todayKorean, weatherInfo, schedulesText])
  }

  /** The fallback shows the date, the weather line and the schedules text
      verbatim under their headings, whatever they hold. */
  lemma FallbackLayout(todayKorean: string, weatherInfo: string, schedulesText: string)
    ensures FallbackSummary(todayKorean, weatherInfo, schedulesText)
      == SummaryLead + todayKorean + SummaryWeather + weatherInfo + SummarySchedules + schedulesText
  {
    SummaryLeadPlain();
    SummarySchedulesPlain();
    assert SummaryTemplate == SummaryLead + "%1" + SummaryWeather + "%2" + SummarySchedules + "%3" + "";
    MultiArgThree(SummaryLead, SummaryWeather, SummarySchedules, "", todayKorean, weatherInfo, schedulesText);
  }

  /** The prompt for the daily summary: one multi-argument call. */
  function SummaryPrompt(todayKorean: string, weatherInfo: string, schedulesText: string): string {
    MultiArg(PromptTemplate, [todayKorean, weatherInfo, schedulesText])
  }

  /** The prompt carries the date, the weather line and the schedules text
      verbatim, each after its label, whatever they hold. */
  lemma SummaryPromptLayout(todayKorean: string, weatherInfo: string, schedulesText: string)
    ensures SummaryPrompt(todayKorean, weatherInfo, schedulesText)
      == PromptLead + todayKorean + PromptWeather + weatherInfo + PromptSchedules + schedulesText + PromptRest
  {
    PromptLeadPlain();
    PromptLabelsPlain();
    PromptRestPlain();
    MultiArgThree(PromptLead, PromptWeather, PromptSchedules, PromptRest, todayKorean, weatherInfo, schedulesText);
  }

  /** The prompt for the fortune: today as "yyyy-MM-dd" and the stored date of birth. */
  function FortunePrompt(today: string, dateOfBirth: string): string {
    MultiArg(FortuneTemplate, [today, dateOfBirth])
  }

  /** The fortune prompt carries today's date and the date of birth verbatim. */
  lemma FortunePromptLayout(today: string, dateOfBirth: string)
    ensures FortunePrompt(today, dateOfBirth) == FortuneLead + today + FortuneBirth + dateOfBirth + FortuneRest
  {
    FortuneLeadPlain();
    FortuneRestPlain();
    MultiArgTwo(FortuneLead, FortuneBirth, FortuneRest, today, dateOfBirth);
  }

  /** The summary generateDailySummary produces on a cache miss: the model's
      answer, or the fallback layout when that answer is empty. */
  function DailySummary(openaiKey: string, weatherKey: string, userInfo: Record, today: QDate, dayName: string,
                        schedules: seq<Record>, weather: WeatherReply, completion: CompletionReply): string
  {
    var answer := CompletionText(openaiKey, completion);
    if answer != "" then answer
    else FallbackSummary(TodayKorean(today, dayName), WeatherInfo(weatherKey, weather), SchedulesText(schedules))
  }

  /** What a cache miss sends, in order: the schedule query, the weather
      request, the completion request and the save. */
  function MissCalls(openaiKey: string, weatherKey: string, userId: int, userInfo: Record, today: QDate,
                     dayName: string, schedules: seq<Record>, weather: WeatherReply, summary: string): seq<Call>
  {
    var date := FormatDate(today);
    var weatherInfo := WeatherInfo(weatherKey, weather);
    [GetSchedulesByDate(userId, date)]
    + WeatherCalls(weatherKey, Location(userInfo))
    + CompletionCalls(openaiKey, SummaryPrompt(TodayKorean(today, dayName), weatherInfo, SchedulesText(schedules)))
    + [SaveDailySummary(userId, date, summary, weatherInfo)]
  }

  /** A cache miss never yields an empty summary: a non-empty answer is used
      as it is; otherwise the fallback shows the date, the weather line and
      the schedules text under their headings. */
  lemma DailySummaryChoice(openaiKey: string, weatherKey: string, userInfo: Record, today: QDate, dayName: string,
                           schedules: seq<Record>, weather: WeatherReply, completion: CompletionReply)
    ensures DailySummary(openaiKey, weatherKey, userInfo, today, dayName, schedules, weather, completion) != ""
    ensures CompletionText(openaiKey, completion) != "" ==>
      DailySummary(openaiKey, weatherKey, userInfo, today, dayName, schedules, weather, completion)
        == CompletionText(openaiKey, completion)
    ensures CompletionText(openaiKey, completion) == "" ==>
      DailySummary(openaiKey, weatherKey, userInfo, today, dayName, schedules, weather, completion)
        == SummaryLead + TodayKorean(today, dayName) + SummaryWeather + WeatherInfo(weatherKey, weather)
          + SummarySchedules + SchedulesText(schedules)
  {
    FallbackLayout(TodayKorean(today, dayName), WeatherInfo(weatherKey, weather), SchedulesText(schedules));
  }

  /** The fortune: the model's answer, or the fixed fortune when it is empty;
      never empty. */
  function Fortune(openaiKey: string, completion: CompletionReply): (f: string)
    ensures f != ""
    ensures CompletionText(openaiKey, completion) != "" ==> f == CompletionText(openaiKey, completion)
    ensures CompletionText(openaiKey, completion) == "" ==> f == FortuneFallback
  {
    var answer := CompletionText(openaiKey, completion);
    if answer != "" then answer else FortuneFallback
  }

  /** The service: the two API keys read once, at construction. */
  class AIService {
    const openaiKey: string
    const weatherKey: string

    constructor (env: EnvLoader)
      ensures openaiKey == env.Get("OPENAI_API_KEY", "")
      ensures weatherKey == env.Get("WEATHER_API_KEY", "")
    {
      openaiKey := env.Get("OPENAI_API_KEY", "");
      weatherKey := env.Get("WEATHER_API_KEY", "");
    }

    /** generateDailySummary. `userInfo` and `schedules` are what the store
        returns, `weather` and `completion` the two HTTP replies. A stored
        summary for (user, today) is returned as it is, with nothing fetched,
        requested or saved; otherwise the new summary is saved with the
        weather line. Either way the cache then holds the returned summary. */
    method GenerateDailySummary(store: SummaryStore, userId: int, userInfo: Record, today: QDate, dayName: string,
                                schedules: seq<Record>, weather: WeatherReply, completion: CompletionReply)
      returns (summary: string, calls: seq<Call>)
      modifies store
      ensures summary != ""
      ensures store.CachedSummary(userId, FormatDate(today)) == summary
      ensures old(store.CachedSummary(userId, FormatDate(today))) != "" ==>
        summary == old(store.CachedSummary(userId, FormatDate(today)))
        && calls == [GetUserInfo(userId), GetCachedSummary(userId, FormatDate(today))]
        && store.entries == old(store.entries)
      ensures old(store.CachedSummary(userId, FormatDate(today))) == "" ==>
        summary == DailySummary(openaiKey, weatherKey, userInfo, today, dayName, schedules, weather, completion)
        && calls == [GetUserInfo(userId), GetCachedSummary(userId, FormatDate(today))]
          + MissCalls(openaiKey, weatherKey, userId, userInfo, today, dayName, schedules, weather, summary)
        && store.entries == old(store.entries)[(userId, FormatDate(today)) := CacheEntry(summary, WeatherInfo(weatherKey, weather))]
    {
      var location := Location(userInfo);
      var date := FormatDate(today);
      var todayKorean := TodayKorean(today, dayName);
      calls := [GetUserInfo(userId), GetCachedSummary(userId, date)];
      var cached := store.CachedSummary(userId, date);
      if cached != "" {
        return cached, calls;
      }
      var weatherInfo := WeatherInfo(weatherKey, weather);
      var schedulesText := BuildSchedulesText(schedules);
      var prompt := SummaryPrompt(todayKorean, weatherInfo, schedulesText);
      summary := CompletionText(openaiKey, completion);
      if summary == "" {
        summary := FallbackSummary(todayKorean, weatherInfo, schedulesText);
      }
      assert summary == DailySummary(openaiKey, weatherKey, userInfo, today, dayName, schedules, weather, completion)
        && summary != "" by {
        DailySummaryChoice(openaiKey, weatherKey, userInfo, today, dayName, schedules, weather, completion);
      }
      store.Save(userId, date, summary, weatherInfo);
      var missCalls := [GetSchedulesByDate(userId, date)] + WeatherCalls(weatherKey, location)
        + CompletionCalls(openaiKey, prompt) + [SaveDailySummary(userId, date, summary, weatherInfo)];
      assert missCalls == MissCalls(openaiKey, weatherKey, userId, userInfo, today, dayName, schedules, weather, summary);
      calls := calls + missCalls;
    }

    /** generateTodaysFortune: the user record is read, the model is asked
        (when there is a key), and nothing is cached. */
    method GenerateTodaysFortune(userId: int, userInfo: Record, today: QDate, completion: CompletionReply)
      returns (fortune: string, calls: seq<Call>)
      ensures fortune == Fortune(openaiKey, completion)
      ensures calls == [GetUserInfo(userId)]
        + CompletionCalls(openaiKey, FortunePrompt(FormatDate(today), TextOf(userInfo, "dateOfBirth")))
    {
      var prompt := FortunePrompt(FormatDate(today), TextOf(userInfo, "dateOfBirth"));
      calls := [GetUserInfo(userId)] + CompletionCalls(openaiKey, prompt);
      fortune := CompletionText(openaiKey, completion);
      if fortune == "" {
        fortune := FortuneFallback;
      }
    }
  }
}
