/** The small part of Qt's QString that the application relies on: whitespace
    trimming (`trimmed`), `indexOf`, `startsWith`, `left`, `mid`, containment and
    decimal number formatting.  Strings are sequences of Unicode scalar values. */
module Text {

  datatype Option<+T> = None | Some(value: T)

  /** QChar::isSpace: the ASCII controls TAB..CR, SPACE, NEL, NBSP and the
      Unicode separators of categories Zs, Zl and Zp. */
  predicate IsSpace(c: char) {
    || c == ' ' || ('\t' <= c <= '\r')
    || c == '\U{0085}' || c == '\U{00A0}' || c == '\U{1680}'
    || ('\U{2000}' <= c <= '\U{200A}')
    || c == '\U{2028}' || c == '\U{2029}' || c == '\U{202F}'
    || c == '\U{205F}' || c == '\U{3000}'
  }

  predicate AllSpace(s: string) {
    forall i :: 0 <= i < |s| ==> IsSpace(s[i])
  }

  /** No whitespace at either end: what `trimmed` leaves behind. */
  predicate IsTrimmed(s: string) {
    s == [] || (!IsSpace(s[0]) && !IsSpace(s[|s| - 1]))
  }

  /** Drops leading whitespace. The result is the shortest suffix that is
      left after removing whitespace only. */
  function TrimStart(s: string): (r: string)
    ensures |r| <= |s| && r == s[|s| - |r|..]
    ensures AllSpace(s[..|s| - |r|])
    ensures r == [] || !IsSpace(r[0])
  {
    if |s| > 0 && IsSpace(s[0]) then
      var r := TrimStart(s[1..]);
      assert s[..|s| - |r|] == [s[0]] + s[1..][..|s| - 1 - |r|];
      r
    else s
  }

  /** Drops trailing whitespace. */
  function TrimEnd(s: string): (r: string)
    ensures |r| <= |s| && r == s[..|r|]
    ensures AllSpace(s[|r|..])
    ensures r == [] || !IsSpace(r[|r| - 1])
  {
    if |s| > 0 && IsSpace(s[|s| - 1]) then TrimEnd(s[..|s| - 1]) else s
  }

  /** QString::trimmed: whitespace removed from the start and the end. */
  function Trim(s: string): (r: string)
    ensures IsTrimmed(r)
  {
    var a := TrimStart(s);
    var r := TrimEnd(a);
    assert r != [] ==> r[0] == a[0];
    r
  }

  /** What trimming keeps is a slice of the text with only whitespace around it. */
  lemma TrimSlice(s: string) returns (i: nat, j: nat)
    ensures i <= j <= |s| && Trim(s) == s[i..j] && AllSpace(s[..i]) && AllSpace(s[j..])
  {
    var a := TrimStart(s);
    var r := TrimEnd(a);
    i, j := |s| - |a|, |s| - |a| + |r|;
    assert r == s[i..j];
    assert s[j..] == a[|r|..];
  }

  lemma {:induction false} TrimStartOfTrimmed(s: string)
    requires s == [] || !IsSpace(s[0])
    ensures TrimStart(s) == s
  {
  }

  lemma {:induction false} TrimEndOfTrimmed(s: string)
    requires s == [] || !IsSpace(s[|s| - 1])
    ensures TrimEnd(s) == s
  {
  }

  /** Trimming does nothing exactly when there is no whitespace at either end. */
  lemma TrimIdentity(s: string)
    ensures Trim(s) == s <==> IsTrimmed(s)
  {
    if IsTrimmed(s) {
      TrimStartOfTrimmed(s);
      TrimEndOfTrimmed(s);
    }
  }

  /** Trimming twice is trimming once. */
  lemma TrimIdempotent(s: string)
    ensures Trim(Trim(s)) == Trim(s)
  {
    TrimIdentity(Trim(s));
  }

  /** A string trims to empty exactly when all of it is whitespace. */
  lemma TrimEmpty(s: string)
    ensures Trim(s) == [] <==> AllSpace(s)
  {
    if Trim(s) == [] {
      var i, j := TrimSlice(s);
      assert i == j;
      forall k | 0 <= k < |s| ensures IsSpace(s[k]) {
        if k < i { assert s[k] == s[..i][k]; } else { assert s[k] == s[j..][k - j]; }
      }
    } else {
      var i, j := TrimSlice(s);
      assert !IsSpace(s[i]);
    }
  }

  /** Trimming is the identity on the whitespace-free core: leading and trailing
      whitespace are the only characters it removes. */
  lemma TrimPadded(pre: string, core: string, post: string)
    requires AllSpace(pre) && AllSpace(post) && IsTrimmed(core)
    ensures Trim(pre + core + post) == core
  {
    var rest := core + post;
    assert pre + core + post == pre + rest;
    TrimStartPrefix(pre, rest);
    if core == [] {
      assert rest == post;
      TrimStartAllSpace(post);
      assert TrimStart(pre + core + post) == [];
      TrimEndOfTrimmed([]);
    } else {
      assert rest[0] == core[0];
      TrimStartOfTrimmed(rest);
      assert TrimStart(pre + core + post) == rest;
      TrimEndSuffix(core, post);
    }
  }

  lemma {:induction false} TrimStartPrefix(pre: string, rest: string)
    requires AllSpace(pre)
    ensures TrimStart(pre + rest) == TrimStart(rest)
    decreases |pre|
  {
    if pre != [] {
      assert (pre + rest)[0] == pre[0];
      assert (pre + rest)[1..] == pre[1..] + rest;
      TrimStartPrefix(pre[1..], rest);
    } else {
      assert pre + rest == rest;
    }
  }

  lemma {:induction false} TrimStartAllSpace(s: string)
    requires AllSpace(s)
    ensures TrimStart(s) == []
    decreases |s|
  {
    if s != [] {
      TrimStartAllSpace(s[1..]);
    }
  }

  lemma {:induction false} TrimEndSuffix(core: string, post: string)
    requires AllSpace(post) && (core == [] || !IsSpace(core[|core| - 1]))
    ensures TrimEnd(core + post) == core
    decreases |post|
  {
    if post == [] {
      assert core + post == core;
      TrimEndOfTrimmed(core);
    } else {
      var s := core + post;
      assert s[..|s| - 1] == core + post[..|post| - 1];
      TrimEndSuffix(core, post[..|post| - 1]);
    }
  }

  /** Trimming only removes characters: one absent before is absent after. */
  lemma TrimAbsent(s: string, c: char)
    requires c !in s
    ensures c !in Trim(s)
  {
    var i, j := TrimSlice(s);
  }

  /** trimmed(trimmed(a) + " " + trimmed(b)): the way a two-part text is joined.
      A blank second part gives the first part alone, a blank first part gives
      the second alone, otherwise both parts separated by one space. */
  lemma TrimJoin(a: string, b: string)
    ensures Trim(Trim(a) + " " + Trim(b)) ==
      if Trim(b) == [] then Trim(a)
      else if Trim(a) == [] then Trim(b)
      else Trim(a) + " " + Trim(b)
  {
    var ta, tb := Trim(a), Trim(b);
    if tb == [] {
      JoinBlankRight(ta);
    } else if ta == [] {
      JoinBlankLeft(tb);
    } else {
      JoinBoth(ta, tb);
    }
  }

  lemma JoinBlankRight(ta: string)
    requires IsTrimmed(ta)
    ensures Trim(ta + " " + []) == ta
  {
    assert ta + " " + [] == [] + ta + " ";
    TrimPadded([], ta, " ");
  }

  lemma JoinBlankLeft(tb: string)
    requires IsTrimmed(tb)
    ensures Trim([] + " " + tb) == tb
  {
    assert [] + " " + tb == " " + tb + [];
    TrimPadded(" ", tb, []);
  }

  lemma JoinBoth(ta: string, tb: string)
    requires IsTrimmed(ta) && IsTrimmed(tb) && ta != [] && tb != []
    ensures Trim(ta + " " + tb) == ta + " " + tb
  {
    var j := ta + " " + tb;
    assert j == [] + j + [];
    assert j[0] == ta[0] && j[|j| - 1] == tb[|tb| - 1];
    TrimPadded([], j, []);
  }

  /** QString::indexOf(c): the first position of `c`, or -1. */
  function IndexOf(s: string, c: char): (r: int)
    ensures -1 <= r < |s|
    ensures r == -1 <==> c !in s
    ensures r >= 0 ==> s[r] == c && c !in s[..r]
  {
    if |s| == 0 then -1
    else if s[0] == c then 0
    else
      var k := IndexOf(s[1..], c);
      assert s[1..][..if k >= 0 then k else 0] == s[1..if k >= 0 then k + 1 else 1];
      if k == -1 then -1 else k + 1
  }

  /** QString::mid(position, n) for a non-negative position; a negative n means
      "to the end". A position past the end gives the empty string. */
  function Mid(s: string, position: nat, n: int): string {
    if position > |s| then []
    else if n < 0 || position + n > |s| then s[position..]
    else s[position..position + n]
  }

  /** QString::left(n): the first n characters, or everything when n is out of range. */
  function Left(s: string, n: int): string {
    if n < 0 || n >= |s| then s else s[..n]
  }

  predicate StartsWith(s: string, c: char) {
    |s| > 0 && s[0] == c
  }

  predicate EndsWith(s: string, c: char) {
    |s| > 0 && s[|s| - 1] == c
  }

  /** `pattern` occurs somewhere in `s` as a contiguous substring. */
  predicate Contains(s: string, pattern: string) {
    exists i | 0 <= i <= |s| :: OccursAt(s, pattern, i)
  }

  predicate OccursAt(s: string, pattern: string, i: int) {
    0 <= i <= |s| - |pattern| && s[i..i + |pattern|] == pattern
  }

  predicate IsDigit(c: char) {
    '0' <= c <= '9'
  }

  function DigitValue(c: char): nat
    requires IsDigit(c)
  {
    (c as int - '0' as int) as nat
  }

  function DigitChar(d: nat): char
    requires d < 10
  {
    ('0' as int + d) as char
  }

  /** QString::number for a non-negative integer: its decimal digits, no leading zero. */
  function NatToString(n: nat): (r: string)
    ensures |r| >= 1 && forall i :: 0 <= i < |r| ==> IsDigit(r[i])
    ensures n >= 10 <==> |r| >= 2
    ensures n >= 100 <==> |r| >= 3
    ensures n >= 1000 <==> |r| >= 4
    ensures n >= 10000 <==> |r| >= 5
    decreases n
  {
    if n < 10 then [DigitChar(n)] else NatToString(n / 10) + [DigitChar(n % 10)]
  }

  /** QString::number for any integer. */
  function IntToString(n: int): (r: string)
    ensures '%' !in r
  {
    if n < 0 then "-" + NatToString(-n) else NatToString(n)
  }

  /** A number below 100 as exactly two digits (Qt's "MM", "dd", "HH", "mm"). */
  function Pad2(n: nat): (r: string)
    requires n < 100
    ensures |r| == 2 && IsDigit(r[0]) && IsDigit(r[1])
  {
    [DigitChar(n / 10), DigitChar(n % 10)]
  }

  /** A number zero-padded to at least four digits (Qt's "yyyy"). */
  function Pad4(n: nat): (r: string)
    ensures |r| >= 4 && forall i :: 0 <= i < |r| ==> IsDigit(r[i])
    ensures n < 10000 ==> |r| == 4
  {
    if n < 10000 then Pad2(n / 100) + Pad2(n % 100)
    else NatToString(n)
  }
}
