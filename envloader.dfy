/** EnvLoader: reads `KEY=value` lines from a `.env` file into one process-wide
    map, and looks keys up with a default. The file is given as its sequence of
    lines (None when it cannot be opened); the static map is a field. */
module Env {
  import opened Text

  /** A value wrapped in one pair of matching double or single quotes loses
      its first and last characters; anything else is kept. */
  function StripQuotes(v: string): string {
    if (StartsWith(v, '"') && EndsWith(v, '"')) || (StartsWith(v, '\'') && EndsWith(v, '\'')) then
      Mid(v, 1, |v| - 2)
    else v
  }

  /** What one line contributes: a trimmed key and an unquoted, trimmed value
      split at the first '=', or nothing for blank lines, comments and lines
      without '='. */
  function ParseLine(raw: string): Option<(string, string)> {
    var line := Trim(raw);
    if line == [] || StartsWith(line, '#') then None
    else
      var eq := IndexOf(line, '=');
      if eq == -1 then None
      else Some((Trim(Left(line, eq)), StripQuotes(Trim(Mid(line, eq + 1, -1)))))
  }

  /** What a line contributes, if anything. */
  type Entry = Option<(string, string)>

  predicate Binds(e: Entry, k: string) {
    e.Some? && e.value.0 == k
  }

  /** The map after one entry: `envVars[key] = value`. */
  function Assign(m: map<string, string>, e: Entry): map<string, string> {
    if e.None? then m else m[e.value.0 := e.value.1]
  }

  /** The map after the entries in order, the last one applied last. */
  function Apply(m: map<string, string>, es: seq<Entry>): map<string, string>
    decreases |es|
  {
    if es == [] then m else Assign(Apply(m, es[..|es| - 1]), es[|es| - 1])
  }

  function Parsed(lines: seq<string>): seq<Entry> {
    seq(|lines|, j requires 0 <= j < |lines| => ParseLine(lines[j]))
  }

  /** The map after reading `lines` in order, starting from `m`. */
  function Loaded(m: map<string, string>, lines: seq<string>): map<string, string> {
    Apply(m, Parsed(lines))
  }

  /** QMap::value(key, defaultValue). */
  function Lookup(m: map<string, string>, key: string, default: string): (r: string)
    ensures key in m ==> r == m[key]
    ensures key !in m ==> r == default
  {
    if key in m then m[key] else default
  }

  predicate AssignsKey(raw: string, k: string) {
    Binds(ParseLine(raw), k)
  }

  lemma ApplySnoc(m: map<string, string>, es: seq<Entry>, e: Entry)
    ensures Apply(m, es + [e]) == Assign(Apply(m, es), e)
  {
    assert (es + [e])[..|es|] == es;
  }

  lemma ParsedSnoc(lines: seq<string>, i: int)
    requires 0 <= i < |lines|
    ensures Parsed(lines[..i + 1]) == Parsed(lines[..i]) + [ParseLine(lines[i])]
  {
    var a, b := Parsed(lines[..i + 1]), Parsed(lines[..i]) + [ParseLine(lines[i])];
    assert |a| == |b|;
    forall j | 0 <= j < |a| ensures a[j] == b[j] {
      if j < i {
        assert lines[..i + 1][j] == lines[..i][j];
      }
    }
  }

  lemma LoadedNext(m: map<string, string>, lines: seq<string>, i: int)
    requires 0 <= i < |lines|
    ensures Loaded(m, lines[..i + 1]) == Assign(Loaded(m, lines[..i]), ParseLine(lines[i]))
  {
    ParsedSnoc(lines, i);
    ApplySnoc(m, Parsed(lines[..i]), ParseLine(lines[i]));
  }

  lemma {:induction false} ApplyLastWins(m: map<string, string>, es: seq<Entry>, i: int, k: string, v: string)
    requires 0 <= i < |es| && es[i] == Some((k, v))
    requires forall j :: i < j < |es| ==> !Binds(es[j], k)
    ensures k in Apply(m, es) && Apply(m, es)[k] == v
    decreases |es|
  {
    var n := |es| - 1;
    if i < n {
      var init := es[..n];
      assert init[i] == es[i];
      assert forall j :: i < j < |init| ==> init[j] == es[j];
      ApplyLastWins(m, init, i, k, v);
      assert !Binds(es[n], k);
    }
  }

  lemma {:induction false} ApplyUnbound(m: map<string, string>, es: seq<Entry>, k: string)
    requires forall j :: 0 <= j < |es| ==> !Binds(es[j], k)
    ensures (k in Apply(m, es)) == (k in m)
    ensures k in m ==> Apply(m, es)[k] == m[k]
    decreases |es|
  {
    if es != [] {
      var n := |es| - 1;
      assert forall j :: 0 <= j < n ==> es[..n][j] == es[j];
      ApplyUnbound(m, es[..n], k);
      assert !Binds(es[n], k);
    }
  }

  lemma {:induction false} ApplyGrows(m: map<string, string>, es: seq<Entry>)
    ensures m.Keys <= Apply(m, es).Keys
    decreases |es|
  {
    if es != [] {
      ApplyGrows(m, es[..|es| - 1]);
    }
  }

  /** A line assigns something exactly when, once trimmed, it is non-empty, does
      not start with '#', and holds an '='. */
  lemma ParsesIff(raw: string)
    ensures ParseLine(raw).Some? <==>
      (Trim(raw) != [] && Trim(raw)[0] != '#' && '=' in Trim(raw))
  {
  }

  /** The split is at the FIRST '=': the key is the trimmed text before it, the
      value comes from everything after it, later '=' characters included. */
  lemma ParseLineSplit(raw: string)
    requires ParseLine(raw).Some?
    ensures var line := Trim(raw); var eq := IndexOf(line, '=');
      0 <= eq && '=' !in line[..eq] &&
      ParseLine(raw).value == (Trim(line[..eq]), StripQuotes(Trim(line[eq + 1..])))
  {
    var line := Trim(raw);
    var eq := IndexOf(line, '=');
    assert 0 <= eq < |line|;
    assert Left(line, eq) == line[..eq];
    assert Mid(line, eq + 1, -1) == line[eq + 1..];
  }

  /** So a key never holds '='. */
  lemma KeyHasNoEquals(raw: string)
    requires ParseLine(raw).Some?
    ensures '=' !in ParseLine(raw).value.0
  {
    var line := Trim(raw);
    ParseLineSplit(raw);
    TrimAbsent(line[..IndexOf(line, '=')], '=');
  }

  /** A line that starts with a key (no '=', no edge whitespace, no leading '#')
      followed by '=' assigns that key whatever follows the '=', trimmed and unquoted. */
  lemma KeyedLine(line: string, k: string, rest: string)
    requires k != [] && k[0] != '#' && '=' !in k && IsTrimmed(k)
    requires line == k + "=" + rest && IsTrimmed(line)
    ensures ParseLine(line) == Some((k, StripQuotes(Trim(rest))))
  {
    assert line[0] == k[0];
    SplitAt(k, rest);
    TrimmedLine(line, k, rest);
  }

  lemma TrimmedLine(line: string, k: string, rest: string)
    requires line != [] && line[0] != '#' && IsTrimmed(line) && IsTrimmed(k)
    requires IndexOf(line, '=') == |k| && line[..|k|] == k && line[|k| + 1..] == rest
    ensures ParseLine(line) == Some((k, StripQuotes(Trim(rest))))
  {
    TrimIdentity(line);
    LineSplitsAt(line, k, rest);
    TrimIdentity(k);
  }

  lemma LineSplitsAt(line: string, k: string, rest: string)
    requires line != [] && line[0] != '#' && Trim(line) == line
    requires IndexOf(line, '=') == |k| && line[..|k|] == k && line[|k| + 1..] == rest
    ensures ParseLine(line) == Some((Trim(k), StripQuotes(Trim(rest))))
  {
    ParsesIff(line);
    ParseLineSplit(line);
  }

  /** `key=value` written without surrounding spaces or quotes reads back as
      (key, value), whatever '=' characters the value holds. */
  lemma PlainLineRoundTrip(k: string, v: string)
    requires k != [] && k[0] != '#' && '=' !in k && IsTrimmed(k)
    requires IsTrimmed(v) && !(StartsWith(v, '"') && EndsWith(v, '"')) && !(StartsWith(v, '\'') && EndsWith(v, '\''))
    ensures ParseLine(k + "=" + v) == Some((k, v))
  {
    var line := k + "=" + v;
    assert line[0] == k[0];
    assert v != [] ==> line[|line| - 1] == v[|v| - 1];
    KeyedLine(line, k, v);
    TrimIdentity(v);
  }

  /** `key="value"` reads back as (key, value) for ANY value: spaces, quotes and
      '=' inside the quotes are kept. */
  lemma QuotedLineRoundTrip(k: string, v: string)
    requires k != [] && k[0] != '#' && '=' !in k && IsTrimmed(k)
    ensures ParseLine(k + "=" + ("\"" + v + "\"")) == Some((k, v))
  {
    var q := "\"" + v + "\"";
    var line := k + "=" + q;
    assert line[0] == k[0] && line[|line| - 1] == '"';
    KeyedLine(line, k, q);
    assert q[0] == '"' && q[|q| - 1] == '"';
    TrimIdentity(q);
    QuotesRemoved(v);
  }

  lemma SplitAt(k: string, v: string)
    requires '=' !in k
    ensures IndexOf(k + "=" + v, '=') == |k|
    ensures (k + "=" + v)[..|k|] == k && (k + "=" + v)[|k| + 1..] == v
  {
    var line := k + "=" + v;
    assert line[..|k|] == k;
    assert line[|k|] == '=';
    assert line[|k| + 1..] == v;
  }

  /** Matching quotes: exactly the first and last characters go. */
  lemma QuotesRemoved(v: string)
    ensures StripQuotes("\"" + v + "\"") == v
    ensures StripQuotes("'" + v + "'") == v
  {
    var d, s := "\"" + v + "\"", "'" + v + "'";
    assert d[1..|d| - 1] == v && s[1..|s| - 1] == v;
  }

  /** Mismatched quotes are left alone. */
  lemma MismatchedQuotesKept(v: string)
    ensures StripQuotes("\"" + v + "'") == "\"" + v + "'"
    ensures StripQuotes("'" + v + "\"") == "'" + v + "\""
  {
  }

  /** A lone quote character is stripped to the empty value. */
  lemma LoneQuote()
    ensures StripQuotes("\"") == "" && StripQuotes("'") == ""
  {
  }

  /** The last line that assigns a key decides its value. */
  lemma LastWriteWins(m: map<string, string>, lines: seq<string>, i: int, k: string, v: string)
    requires 0 <= i < |lines| && ParseLine(lines[i]) == Some((k, v))
    requires forall j :: i < j < |lines| ==> !AssignsKey(lines[j], k)
    ensures k in Loaded(m, lines) && Loaded(m, lines)[k] == v
  {
    var es := Parsed(lines);
    forall j | i < j < |es| ensures !Binds(es[j], k) {
      assert !AssignsKey(lines[j], k);
    }
    ApplyLastWins(m, es, i, k, v);
  }

  /** A key no line assigns keeps whatever it had before: a later load does not
      erase what an earlier one set. */
  lemma UnassignedKeyKept(m: map<string, string>, lines: seq<string>, k: string)
    requires forall j :: 0 <= j < |lines| ==> !AssignsKey(lines[j], k)
    ensures (k in Loaded(m, lines)) == (k in m)
    ensures k in m ==> Loaded(m, lines)[k] == m[k]
  {
    var es := Parsed(lines);
    forall j | 0 <= j < |es| ensures !Binds(es[j], k) {
      assert !AssignsKey(lines[j], k);
    }
    ApplyUnbound(m, es, k);
  }

  /** Loading only adds keys: everything in the old map is still there. */
  lemma LoadedGrows(m: map<string, string>, lines: seq<string>)
    ensures m.Keys <= Loaded(m, lines).Keys
  {
    ApplyGrows(m, Parsed(lines));
  }

  /** The static map of EnvLoader. */
  class EnvLoader {
    var envVars: map<string, string>

    constructor ()
      ensures envVars == map[]
    {
      envVars := map[];
    }

    /** EnvLoader::load: `file` is None when the file cannot be opened. The map
        is never cleared, so earlier entries survive a later load. */
    method Load(file: Option<seq<string>>) returns (ok: bool)
      modifies this
      ensures ok <==> file.Some?
      ensures envVars == if file.Some? then Loaded(old(envVars), file.value) else old(envVars)
    {
      if file.None? {
        return false;
      }
      var lines := file.value;
      ghost var initial := envVars;
      var i := 0;
      while i < |lines|
        invariant 0 <= i <= |lines|
        invariant envVars == Loaded(initial, lines[..i])
      {
        var entry := ParseLine(lines[i]);
        LoadedNext(initial, lines, i);
        if entry.Some? {
          envVars := envVars[entry.value.0 := entry.value.1];
        }
        assert envVars == Assign(Loaded(initial, lines[..i]), entry);
        i := i + 1;
      }
      assert lines[..|lines|] == lines;
      return true;
    }

    /** EnvLoader::get. */
    function Get(key: string, default: string): (r: string)
      reads this
      ensures r == Lookup(envVars, key, default)
    {
      if key in envVars then envVars[key] else default
    }
  }
}
