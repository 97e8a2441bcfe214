/** QString::arg with one string argument, as Qt implements it: the string is
    scanned for placeholders `%n` / `%nn` (optionally `%Ln`), the LOWEST
    placeholder number found is chosen, and every occurrence of that number is
    replaced by the argument. A string without placeholders is returned
    unchanged. Because each call rescans the whole string, a chained
    `.arg(a).arg(b)` also replaces placeholders that `a` brought in. */
module QtArg {
  import opened Text

  /** A placeholder: its number and the number of characters it spans. */
  datatype Escape = Escape(number: nat, length: nat)

  /** The placeholder that starts at the first character of `s`, if any:
      '%', an optional 'L', then one digit or two digits. */
  function EscapeAt(s: string): (r: Option<Escape>)
    ensures r.Some? ==> 2 <= r.value.length <= |s| && r.value.number < 100
    ensures r.Some? ==> s[0] == '%'
  {
    if |s| < 2 || s[0] != '%' then None
    else
      var k := if s[1] == 'L' then 2 else 1;
      if |s| <= k || !IsDigit(s[k]) then None
      else if |s| > k + 1 && IsDigit(s[k + 1]) then
        Some(Escape(10 * DigitValue(s[k]) + DigitValue(s[k + 1]), k + 2))
      else Some(Escape(DigitValue(s[k]), k + 1))
  }

  function MinOf(n: nat, o: Option<nat>): nat {
    match o
    case None => n
    case Some(m) => if m < n then m else n
  }

  /** The lowest placeholder number in `s`, scanning left to right. */
  function LowestEscape(s: string): Option<nat>
    decreases |s|
  {
    if s == [] then None
    else match EscapeAt(s)
      case Some(e) => Some(MinOf(e.number, LowestEscape(s[e.length..])))
      case None => LowestEscape(s[1..])
  }

  /** Every placeholder numbered `m` replaced by `a`; everything else copied. */
  function ReplaceEscapes(s: string, m: nat, a: string): string
    decreases |s|
  {
    if s == [] then []
    else match EscapeAt(s)
      case Some(e) => (if e.number == m then a else s[..e.length]) + ReplaceEscapes(s[e.length..], m, a)
      case None => [s[0]] + ReplaceEscapes(s[1..], m, a)
  }

  /** QString::arg(const QString &a). */
  function Arg(s: string, a: string): string {
    match LowestEscape(s)
    case None => s
    case Some(m) => ReplaceEscapes(s, m, a)
  }

  /** A chain `s.arg(a0).arg(a1)...`: each call works on the previous result. */
  function ArgChain(s: string, args: seq<string>): string
    decreases |args|
  {
    if args == [] then s else Arg(ArgChain(s, args[..|args| - 1]), args[|args| - 1])
  }

  lemma ArgChainThree(s: string, a: string, b: string, c: string)
    ensures ArgChain(s, [a, b, c]) == Arg(Arg(Arg(s, a), b), c)
  {
    assert [a, b, c][..2] == [a, b];
    assert [a, b][..1] == [a];
    assert [a][..0] == [];
    assert ArgChain(s, [a]) == Arg(s, a);
    assert ArgChain(s, [a, b]) == Arg(Arg(s, a), b);
  }

  lemma ArgChainFour(s: string, a: string, b: string, c: string, d: string)
    ensures ArgChain(s, [a, b, c, d]) == Arg(Arg(Arg(Arg(s, a), b), c), d)
  {
    assert [a, b, c, d][..3] == [a, b, c];
    ArgChainThree(s, a, b, c);
  }

  /** Text without '%' holds no placeholder and is copied as it is. */
  lemma {:induction false} LiteralText(p: string, m: nat, a: string)
    requires '%' !in p
    ensures LowestEscape(p) == None
    ensures ReplaceEscapes(p, m, a) == p
    decreases |p|
  {
    if p != [] {
      assert p[0] in p;
      assert forall c :: c in p[1..] ==> c in p;
      LiteralText(p[1..], m, a);
    }
  }

  /** A '%'-free prefix does not take part in the scan. */
  lemma {:induction false} LiteralPrefix(p: string, r: string, m: nat, a: string)
    requires '%' !in p
    ensures LowestEscape(p + r) == LowestEscape(r)
    ensures ReplaceEscapes(p + r, m, a) == p + ReplaceEscapes(r, m, a)
    decreases |p|
  {
    if p != [] {
      var s := p + r;
      assert s[0] == p[0] && p[0] in p;
      assert EscapeAt(s) == None;
      assert s[1..] == p[1..] + r;
      assert '%' !in p[1..] by {
        assert forall c :: c in p[1..] ==> c in p;
      }
      LiteralPrefix(p[1..], r, m, a);
      assert ReplaceEscapes(s, m, a) == [s[0]] + ReplaceEscapes(s[1..], m, a);
    } else {
      assert p + r == r;
    }
  }

  /** When every placeholder in `s` is numbered above `m`, replacing `m` changes nothing. */
  lemma {:induction false} ReplaceAbsent(s: string, m: nat, a: string)
    requires LowestEscape(s) == None || LowestEscape(s).value > m
    ensures ReplaceEscapes(s, m, a) == s
    decreases |s|
  {
    if s != [] {
      match EscapeAt(s)
      case Some(e) =>
        ReplaceAbsent(s[e.length..], m, a);
        assert s[..e.length] + s[e.length..] == s;
      case None =>
        ReplaceAbsent(s[1..], m, a);
        assert [s[0]] + s[1..] == s;
    }
  }

  /** The scan over `p + "%n" + q` with a '%'-free `p` and a one-digit `n` not
      followed by a digit: the lowest number is the smaller of `n` and q's lowest. */
  lemma PlaceholderScan(p: string, n: nat, q: string)
    requires '%' !in p && n <= 9
    requires q == [] || !IsDigit(q[0])
    ensures LowestEscape(p + "%" + [DigitChar(n)] + q) == Some(MinOf(n, LowestEscape(q)))
  {
    var t := "%" + [DigitChar(n)] + q;
    assert p + "%" + [DigitChar(n)] + q == p + t;
    LiteralPrefix(p, t, n, []);
    assert EscapeAt(t) == Some(Escape(n, 2));
    assert t[2..] == q;
  }

  /** `%n` at the front, with only higher placeholders after it. */
  lemma EscapeFirst(n: nat, q: string, a: string)
    requires 1 <= n <= 9
    requires q == [] || !IsDigit(q[0])
    requires LowestEscape(q) == None || LowestEscape(q).value > n
    ensures LowestEscape("%" + [DigitChar(n)] + q) == Some(n)
    ensures ReplaceEscapes("%" + [DigitChar(n)] + q, n, a) == a + q
  {
    var t := "%" + [DigitChar(n)] + q;
    assert EscapeAt(t) == Some(Escape(n, 2));
    assert t[2..] == q;
    ReplaceAbsent(q, n, a);
  }

  /** One placeholder step: in `p + "%n" + q` with a '%'-free `p`, a one-digit
      `n` not followed by a digit, and only higher placeholders in `q`, `arg`
      puts `a` in place of `%n` and leaves the rest alone. */
  lemma ArgStep(p: string, n: nat, q: string, a: string)
    requires '%' !in p && 1 <= n <= 9
    requires q == [] || !IsDigit(q[0])
    requires LowestEscape(q) == None || LowestEscape(q).value > n
    ensures Arg(p + "%" + [DigitChar(n)] + q, a) == p + a + q
  {
    var t := "%" + [DigitChar(n)] + q;
    Regroup(p, "%", [DigitChar(n)]);
    Regroup(p, "%" + [DigitChar(n)], q);
    ArgPrefix(p, t, a);
    ArgFront(n, q, a);
    Regroup(p, a, q);
  }

  lemma ArgPrefix(p: string, t: string, a: string)
    requires '%' !in p
    ensures Arg(p + t, a) == p + Arg(t, a)
  {
    match LowestEscape(t)
    case None =>
      LiteralPrefix(p, t, 0, a);
    case Some(m) =>
      LiteralPrefix(p, t, m, a);
  }

  lemma ArgFront(n: nat, q: string, a: string)
    requires 1 <= n <= 9
    requires q == [] || !IsDigit(q[0])
    requires LowestEscape(q) == None || LowestEscape(q).value > n
    ensures Arg("%" + [DigitChar(n)] + q, a) == a + q
  {
    EscapeFirst(n, q, a);
  }

  function EscapeNumbers(s: string): set<nat>
    decreases |s|
  {
    if s == [] then {}
    else match EscapeAt(s)
      case Some(e) => {e.number} + EscapeNumbers(s[e.length..])
      case None => EscapeNumbers(s[1..])
  }

  /** How many numbers of `ns` lie below `n`: for `n` in `ns`, its position
      when the numbers are put in ascending order. */
  function CountBelow(n: nat, ns: set<nat>): (c: nat)
    ensures c <= n
    decreases n
  {
    if n == 0 then 0 else CountBelow(n - 1, ns) + (if n - 1 in ns then 1 else 0)
  }

  /** What replaces placeholder `n` (written `esc`): the argument at n's
      position in `ns`, or `esc` itself when there are not enough arguments. */
  function Filled(n: nat, ns: set<nat>, args: seq<string>, esc: string): string {
    var r := CountBelow(n, ns);
    if r < |args| then args[r] else esc
  }

  /** Every placeholder of `s` replaced by the argument its number's position
      in `ns` selects; placeholders beyond the last argument are copied. */
  function ReplaceEach(s: string, ns: set<nat>, args: seq<string>): string
    decreases |s|
  {
    if s == [] then []
    else match EscapeAt(s)
      case Some(e) => Filled(e.number, ns, args, s[..e.length]) + ReplaceEach(s[e.length..], ns, args)
      case None => [s[0]] + ReplaceEach(s[1..], ns, args)
  }

  /** QString::arg(a1, ..., an) with several string arguments: one scan, in
      which the distinct placeholder numbers, in ascending order, take the
      arguments in turn. The arguments themselves are not scanned again. */
  function MultiArg(s: string, args: seq<string>): string {
    ReplaceEach(s, EscapeNumbers(s), args)
  }

  /** A '%'-free prefix adds no placeholder and is copied by the one-scan replacement. */
  lemma {:induction false} LiteralPrefixEach(p: string, r: string, ns: set<nat>, args: seq<string>)
    requires '%' !in p
    ensures EscapeNumbers(p + r) == EscapeNumbers(r)
    ensures ReplaceEach(p + r, ns, args) == p + ReplaceEach(r, ns, args)
    decreases |p|
  {
    if p != [] {
      var s := p + r;
      assert s[0] == p[0] && p[0] in p;
      assert EscapeAt(s) == None;
      assert s[1..] == p[1..] + r;
      assert '%' !in p[1..] by {
        assert forall c :: c in p[1..] ==> c in p;
      }
      LiteralPrefixEach(p[1..], r, ns, args);
      assert ReplaceEach(s, ns, args) == [s[0]] + ReplaceEach(s[1..], ns, args);
    } else {
      assert p + r == r;
    }
  }

  /** The placeholder `%n` for one digit `n`. */
  function Esc(n: nat): (e: string)
    requires n <= 9
    ensures |e| == 2 && e[0] == '%' && e[1] == DigitChar(n)
  {
    "%" + [DigitChar(n)]
  }

  /** The one-scan replacement at a placeholder `%n` (one digit, no digit after it). */
  lemma EscapeEach(n: nat, q: string, ns: set<nat>, args: seq<string>)
    requires 1 <= n <= 9
    requires q == [] || !IsDigit(q[0])
    ensures EscapeNumbers(Esc(n) + q) == {n} + EscapeNumbers(q)
    ensures ReplaceEach(Esc(n) + q, ns, args) == Filled(n, ns, args, Esc(n)) + ReplaceEach(q, ns, args)
  {
    var t := Esc(n) + q;
    assert EscapeAt(t) == Some(Escape(n, 2));
    assert t[2..] == q;
    assert t[..2] == Esc(n);
  }

  /** One placeholder in the one-scan scan for numbers: a '%'-free `p`, then
      `%n` with one digit `n` not followed by a digit, then `q`. */
  lemma PlaceholderNumbers(p: string, n: nat, q: string)
    requires '%' !in p && 1 <= n <= 9
    requires q == [] || !IsDigit(q[0])
    ensures EscapeNumbers(p + Esc(n) + q) == {n} + EscapeNumbers(q)
  {
    var t := Esc(n) + q;
    assert p + Esc(n) + q == p + t;
    LiteralPrefixEach(p, t, {}, []);
    EscapeEach(n, q, {}, []);
  }

  /** The same placeholder in the one-scan replacement. */
  lemma PlaceholderEach(p: string, n: nat, q: string, ns: set<nat>, args: seq<string>)
    requires '%' !in p && 1 <= n <= 9
    requires q == [] || !IsDigit(q[0])
    ensures ReplaceEach(p + Esc(n) + q, ns, args) == p + Filled(n, ns, args, Esc(n)) + ReplaceEach(q, ns, args)
  {
    var t := Esc(n) + q;
    assert p + Esc(n) + q == p + t;
    LiteralPrefixEach(p, t, ns, args);
    EscapeEach(n, q, ns, args);
  }

  /** A '%'-free text has no placeholders and is copied unchanged. */
  lemma LiteralEach(p: string, ns: set<nat>, args: seq<string>)
    requires '%' !in p
    ensures EscapeNumbers(p) == {}
    ensures ReplaceEach(p, ns, args) == p
  {
    LiteralPrefixEach(p, [], ns, args);
    assert p + [] == p;
  }

  /** The numbers lo, lo + 1, ..., lo + count - 1. */
  function Between(lo: nat, count: nat): set<nat>
    decreases count
  {
    if count == 0 then {} else {lo} + Between(lo + 1, count - 1)
  }

  lemma {:induction false} BetweenHas(lo: nat, count: nat, m: nat)
    ensures m in Between(lo, count) <==> lo <= m < lo + count
    decreases count
  {
    if count > 0 {
      BetweenHas(lo + 1, count - 1, m);
    }
  }

  /** With the placeholders 1 .. k present, placeholder n sits at position n - 1. */
  lemma {:induction false} CountBelowRange(n: nat, k: nat)
    requires 1 <= n <= k + 1
    ensures CountBelow(n, Between(1, k)) == n - 1
    decreases n
  {
    BetweenHas(1, k, n - 1);
    if n > 1 {
      CountBelowRange(n - 1, k);
    }
  }

  /** A template: the pieces joined by the placeholders %n, %n+1, ... in order. */
  function Template(pieces: seq<string>, n: nat): string
    requires |pieces| >= 1 && 1 <= n && n + |pieces| <= 11
    decreases |pieces|
  {
    if |pieces| == 1 then pieces[0] else pieces[0] + Esc(n) + Template(pieces[1..], n + 1)
  }

  /** The pieces with the arguments between them. */
  function Interleave(pieces: seq<string>, args: seq<string>): string
    requires |pieces| == |args| + 1
    decreases |args|
  {
    if args == [] then pieces[0] else pieces[0] + args[0] + Interleave(pieces[1..], args[1..])
  }

  /** Text that cannot extend a placeholder written just before it. */
  predicate NoDigitStart(p: string) {
    p == [] || !IsDigit(p[0])
  }

  /** Pieces that bring no placeholder of their own and do not extend the one before them. */
  predicate PlainPieces(pieces: seq<string>) {
    forall i :: 0 <= i < |pieces| ==> '%' !in pieces[i] && (i == 0 || pieces[i] == [] || !IsDigit(pieces[i][0]))
  }

  lemma PlainTail(pieces: seq<string>)
    requires |pieces| >= 2 && PlainPieces(pieces)
    ensures PlainPieces(pieces[1..])
  {
    forall i | 0 <= i < |pieces| - 1
      ensures '%' !in pieces[1..][i] && (i == 0 || pieces[1..][i] == [] || !IsDigit(pieces[1..][i][0]))
    {
      assert pieces[1..][i] == pieces[i + 1];
    }
  }

  lemma Regroup(x: string, y: string, z: string)
    ensures x + (y + z) == x + y + z
  {
  }

  /** No digit at the front of `p + r` when there is none at the front of
      `p` and `r` starts with '%'. */
  lemma NoDigitFront(p: string, r: string)
    requires p == [] || !IsDigit(p[0])
    requires |r| > 0 && r[0] == '%'
    ensures !IsDigit((p + r)[0])
  {
  }

  /** A template whose first piece does not start with a digit does not either. */
  lemma NoDigitAtFront(pieces: seq<string>, n: nat)
    requires |pieces| >= 1 && 1 <= n && n + |pieces| <= 11
    requires pieces[0] == [] || !IsDigit(pieces[0][0])
    ensures Template(pieces, n) == [] || !IsDigit(Template(pieces, n)[0])
  {
    if |pieces| > 1 {
      NoDigitFront(pieces[0], Esc(n) + Template(pieces[1..], n + 1));
      Regroup(pieces[0], Esc(n), Template(pieces[1..], n + 1));
    }
  }

  /** The template's placeholders are %n .. %(n + |pieces| - 2). */
  lemma {:induction false} TemplateNumbers(pieces: seq<string>, n: nat)
    requires |pieces| >= 1 && 1 <= n && n + |pieces| <= 11
    requires PlainPieces(pieces)
    ensures EscapeNumbers(Template(pieces, n)) == Between(n, |pieces| - 1)
    decreases |pieces|
  {
    if |pieces| == 1 {
      LiteralEach(pieces[0], {}, []);
    } else {
      var rest := Template(pieces[1..], n + 1);
      PlainTail(pieces);
      TemplateNumbers(pieces[1..], n + 1);
      assert pieces[1..][0] == pieces[1];
      NoDigitAtFront(pieces[1..], n + 1);
      PlaceholderNumbers(pieces[0], n, rest);
      assert Template(pieces, n) == pieces[0] + Esc(n) + rest;
      assert Between(n, |pieces| - 1) == {n} + Between(n + 1, |pieces| - 2);
    }
  }

  /** The pieces with what the one-scan replacement puts for %n, %n+1, ... between them. */
  function FillFrom(pieces: seq<string>, n: nat, ns: set<nat>, args: seq<string>): string
    requires |pieces| >= 1 && 1 <= n && n + |pieces| <= 11
    decreases |pieces|
  {
    if |pieces| == 1 then pieces[0]
    else pieces[0] + Filled(n, ns, args, Esc(n)) + FillFrom(pieces[1..], n + 1, ns, args)
  }

  lemma {:induction false} TemplateReplace(pieces: seq<string>, n: nat, ns: set<nat>, args: seq<string>)
    requires |pieces| >= 1 && 1 <= n && n + |pieces| <= 11
    requires PlainPieces(pieces)
    ensures ReplaceEach(Template(pieces, n), ns, args) == FillFrom(pieces, n, ns, args)
    decreases |pieces|
  {
    if |pieces| == 1 {
      LiteralEach(pieces[0], ns, args);
    } else {
      PlainTail(pieces);
      TemplateReplace(pieces[1..], n + 1, ns, args);
      assert pieces[1..][0] == pieces[1];
      NoDigitAtFront(pieces[1..], n + 1);
      PlaceholderEach(pieces[0], n, Template(pieces[1..], n + 1), ns, args);
    }
  }

  /** With all of 1 .. |args| present, %n .. take args[n - 1] .. in turn. */
  lemma {:induction false} FillInterleave(pieces: seq<string>, n: nat, args: seq<string>)
    requires |pieces| >= 1 && 1 <= n && n + |pieces| <= 11
    requires |args| == n + |pieces| - 2
    ensures FillFrom(pieces, n, Between(1, |args|), args) == Interleave(pieces, args[n - 1..])
    decreases |pieces|
  {
    if |pieces| > 1 {
      CountBelowRange(n, |args|);
      FillInterleave(pieces[1..], n + 1, args);
      assert args[n - 1..][1..] == args[n..];
    }
  }

  /** `.arg(a1, ..., ak)` on a template with %1 .. %k once each between plain
      pieces puts every argument in its place verbatim, whatever it holds. */
  lemma MultiArgTemplate(pieces: seq<string>, args: seq<string>)
    requires |pieces| == |args| + 1 && |args| <= 9
    requires PlainPieces(pieces)
    ensures MultiArg(Template(pieces, 1), args) == Interleave(pieces, args)
  {
    TemplateNumbers(pieces, 1);
    TemplateReplace(pieces, 1, Between(1, |args|), args);
    FillInterleave(pieces, 1, args);
    assert args[0..] == args;
  }

  lemma InterleaveTwo(p0: string, p1: string, p2: string, a: string, b: string)
    ensures Interleave([p0, p1, p2], [a, b]) == p0 + a + p1 + b + p2
  {
    assert [p0, p1, p2][1..] == [p1, p2] && [a, b][1..] == [b];
    assert [p1, p2][1..] == [p2] && [b][1..] == [];
    assert Interleave([p2], []) == p2;
    assert Interleave([p1, p2], [b]) == p1 + b + p2;
    Regroup(p0 + a, p1 + b, p2);
    Regroup(p0 + a, p1, b);
  }

  lemma InterleaveThree(p0: string, p1: string, p2: string, p3: string, a: string, b: string, c: string)
    ensures Interleave([p0, p1, p2, p3], [a, b, c]) == p0 + a + p1 + b + p2 + c + p3
  {
    assert [p0, p1, p2, p3][1..] == [p1, p2, p3] && [a, b, c][1..] == [b, c];
    InterleaveTwo(p1, p2, p3, b, c);
    Regroup(p0 + a, p1 + b + p2 + c, p3);
    Regroup(p0 + a, p1 + b + p2, c);
    Regroup(p0 + a, p1 + b, p2);
    Regroup(p0 + a, p1, b);
  }

  lemma InterleaveFour(p0: string, p1: string, p2: string, p3: string, p4: string,
                       a: string, b: string, c: string, d: string)
    ensures Interleave([p0, p1, p2, p3, p4], [a, b, c, d]) == p0 + a + p1 + b + p2 + c + p3 + d + p4
  {
    assert [p0, p1, p2, p3, p4][1..] == [p1, p2, p3, p4] && [a, b, c, d][1..] == [b, c, d];
    InterleaveThree(p1, p2, p3, p4, b, c, d);
    Regroup(p0 + a, p1 + b + p2 + c + p3 + d, p4);
    Regroup(p0 + a, p1 + b + p2 + c + p3, d);
    Regroup(p0 + a, p1 + b + p2 + c, p3);
    Regroup(p0 + a, p1 + b + p2, c);
    Regroup(p0 + a, p1 + b, p2);
    Regroup(p0 + a, p1, b);
  }

  /** `arg` on a template with one placeholder `%n` between two '%'-free
      pieces puts the argument in its place. */
  lemma ArgPlain(t: string, p: string, n: nat, q: string, a: string)
    requires '%' !in p && '%' !in q && 1 <= n <= 9
    requires q == [] || !IsDigit(q[0])
    requires t == p + Esc(n) + q
    ensures Arg(t, a) == p + a + q
  {
    LiteralText(q, n, a);
    assert p + "%" + [DigitChar(n)] + q == p + Esc(n) + q;
    ArgStep(p, n, q, a);
  }

  lemma TemplateTwo(p0: string, p1: string, p2: string)
    ensures Template([p0, p1, p2], 1) == p0 + "%1" + p1 + "%2" + p2
  {
    assert [p0, p1, p2][1..] == [p1, p2] && [p1, p2][1..] == [p2];
    assert Esc(1) == "%1" && Esc(2) == "%2";
    assert Template([p2], 3) == p2;
    assert Template([p1, p2], 2) == p1 + "%2" + p2;
    Regroup(p0 + "%1", p1 + "%2", p2);
    Regroup(p0 + "%1", p1, "%2");
  }

  lemma TemplateThree(p0: string, p1: string, p2: string, p3: string)
    ensures Template([p0, p1, p2, p3], 1) == p0 + "%1" + p1 + "%2" + p2 + "%3" + p3
  {
    assert [p0, p1, p2, p3][1..] == [p1, p2, p3] && [p1, p2, p3][1..] == [p2, p3] && [p2, p3][1..] == [p3];
    assert Esc(1) == "%1" && Esc(2) == "%2" && Esc(3) == "%3";
    assert Template([p3], 4) == p3;
    assert Template([p2, p3], 3) == p2 + "%3" + p3;
    assert Template([p1, p2, p3], 2) == p1 + "%2" + (p2 + "%3" + p3);
    Regroup(p1 + "%2", p2 + "%3", p3);
    Regroup(p1 + "%2", p2, "%3");
    Regroup(p0 + "%1", p1 + "%2" + p2 + "%3", p3);
    Regroup(p0 + "%1", p1 + "%2" + p2, "%3");
    Regroup(p0 + "%1", p1 + "%2", p2);
    Regroup(p0 + "%1", p1, "%2");
  }

  lemma TemplateFour(p0: string, p1: string, p2: string, p3: string, p4: string)
    ensures Template([p0, p1, p2, p3, p4], 1) == p0 + "%1" + p1 + "%2" + p2 + "%3" + p3 + "%4" + p4
  {
    assert [p0, p1, p2, p3, p4][1..] == [p1, p2, p3, p4] && [p1, p2, p3, p4][1..] == [p2, p3, p4];
    assert [p2, p3, p4][1..] == [p3, p4] && [p3, p4][1..] == [p4];
    assert Esc(1) == "%1" && Esc(2) == "%2" && Esc(3) == "%3" && Esc(4) == "%4";
    assert Template([p4], 5) == p4;
    assert Template([p3, p4], 4) == p3 + "%4" + p4;
    var t2 := p2 + "%3" + (p3 + "%4" + p4);
    assert Template([p2, p3, p4], 3) == t2;
    assert Template([p1, p2, p3, p4], 2) == p1 + "%2" + t2;
    assert Template([p0, p1, p2, p3, p4], 1) == p0 + "%1" + (p1 + "%2" + t2);
    Regroup(p2 + "%3", p3 + "%4", p4);
    Regroup(p2 + "%3", p3, "%4");
    FlattenFour(p0 + "%1", p1 + "%2", p2 + "%3", p3 + "%4", p4);
    Regroup(p0 + "%1" + p1 + "%2" + p2 + "%3", p3, "%4");
    Regroup(p0 + "%1" + p1 + "%2", p2, "%3");
    Regroup(p0 + "%1", p1, "%2");
  }

  lemma FlattenFour(x0: string, x1: string, x2: string, x3: string, x4: string)
    ensures x0 + (x1 + (x2 + (x3 + x4))) == x0 + x1 + x2 + x3 + x4
  {
    Regroup(x2, x3, x4);
    Regroup(x1, x2 + x3, x4);
    Regroup(x1, x2, x3);
    Regroup(x0, x1 + x2 + x3, x4);
    Regroup(x0, x1 + x2, x3);
    Regroup(x0, x1, x2);
  }

  /** `.arg(a, b)` on `p0 %1 p1 %2 p2` with plain pieces: both arguments verbatim in place. */
  lemma MultiArgTwo(p0: string, p1: string, p2: string, a: string, b: string)
    requires '%' !in p0 && '%' !in p1 && '%' !in p2
    requires NoDigitStart(p1) && NoDigitStart(p2)
    ensures MultiArg(p0 + "%1" + p1 + "%2" + p2, [a, b]) == p0 + a + p1 + b + p2
  {
    var pieces := [p0, p1, p2];
    assert PlainPieces(pieces) by {
      forall i | 0 <= i < 3
        ensures '%' !in pieces[i] && (i == 0 || pieces[i] == [] || !IsDigit(pieces[i][0]))
      {
        if i == 2 { assert pieces[i] == p2; }
      }
    }
    TemplateTwo(p0, p1, p2);
    MultiArgTemplate([p0, p1, p2], [a, b]);
    InterleaveTwo(p0, p1, p2, a, b);
  }

  /** `.arg(a, b, c)` on `p0 %1 p1 %2 p2 %3 p3` with plain pieces. */
  lemma MultiArgThree(p0: string, p1: string, p2: string, p3: string, a: string, b: string, c: string)
    requires '%' !in p0 && '%' !in p1 && '%' !in p2 && '%' !in p3
    requires NoDigitStart(p1) && NoDigitStart(p2) && NoDigitStart(p3)
    ensures MultiArg(p0 + "%1" + p1 + "%2" + p2 + "%3" + p3, [a, b, c]) == p0 + a + p1 + b + p2 + c + p3
  {
    var pieces := [p0, p1, p2, p3];
    assert PlainPieces(pieces) by {
      forall i | 0 <= i < 4
        ensures '%' !in pieces[i] && (i == 0 || pieces[i] == [] || !IsDigit(pieces[i][0]))
      {
        if i == 3 { assert pieces[i] == p3; }
      }
    }
    TemplateThree(p0, p1, p2, p3);
    MultiArgTemplate([p0, p1, p2, p3], [a, b, c]);
    InterleaveThree(p0, p1, p2, p3, a, b, c);
  }

  /** `.arg(a, b, c, d)` on `p0 %1 p1 %2 p2 %3 p3 %4 p4` with plain pieces. */
  lemma MultiArgFour(p0: string, p1: string, p2: string, p3: string, p4: string,
                     a: string, b: string, c: string, d: string)
    requires '%' !in p0 && '%' !in p1 && '%' !in p2 && '%' !in p3 && '%' !in p4
    requires NoDigitStart(p1) && NoDigitStart(p2) && NoDigitStart(p3) && NoDigitStart(p4)
    ensures MultiArg(p0 + "%1" + p1 + "%2" + p2 + "%3" + p3 + "%4" + p4, [a, b, c, d])
      == p0 + a + p1 + b + p2 + c + p3 + d + p4
  {
    var pieces := [p0, p1, p2, p3, p4];
    assert PlainPieces(pieces) by {
      forall i | 0 <= i < 5
        ensures '%' !in pieces[i] && (i == 0 || pieces[i] == [] || !IsDigit(pieces[i][0]))
      {
        if i == 4 { assert pieces[i] == p4; }
      }
    }
    TemplateFour(p0, p1, p2, p3, p4);
    MultiArgTemplate([p0, p1, p2, p3, p4], [a, b, c, d]);
    InterleaveFour(p0, p1, p2, p3, p4, a, b, c, d);
  }

  /** A chain seen from its first call: `s.arg(a)` then the rest of the chain. */
  lemma {:induction false} ArgChainCons(s: string, a: string, rest: seq<string>)
    ensures ArgChain(s, [a] + rest) == ArgChain(Arg(s, a), rest)
    decreases |rest|
  {
    if rest == [] {
      assert ([a] + rest)[..0] == [];
    } else {
      var init := rest[..|rest| - 1];
      ArgChainCons(s, a, init);
      assert ([a] + rest)[..|rest|] == [a] + init;
      assert ([a] + rest)[|rest|] == rest[|rest| - 1];
    }
  }

  /** The lowest placeholder of a template is its first one. */
  lemma {:induction false} TemplateLowest(pieces: seq<string>, n: nat)
    requires |pieces| >= 1 && 1 <= n && n + |pieces| <= 11
    requires PlainPieces(pieces)
    ensures LowestEscape(Template(pieces, n)) == if |pieces| == 1 then None else Some(n)
    decreases |pieces|
  {
    if |pieces| == 1 {
      LiteralText(pieces[0], 0, "");
    } else {
      var rest := Template(pieces[1..], n + 1);
      PlainTail(pieces);
      TemplateLowest(pieces[1..], n + 1);
      NoDigitAtFront(pieces[1..], n + 1);
      PlaceholderScan(pieces[0], n, rest);
      assert Template(pieces, n) == pieces[0] + "%" + [DigitChar(n)] + rest;
    }
  }

  /** One call on a template after a '%'-free prefix fills its first placeholder. */
  lemma TemplateStep(pre: string, pieces: seq<string>, n: nat, a: string)
    requires |pieces| >= 2 && 1 <= n && n + |pieces| <= 11
    requires PlainPieces(pieces) && '%' !in pre
    ensures Arg(pre + Template(pieces, n), a) == pre + pieces[0] + a + Template(pieces[1..], n + 1)
  {
    var rest := Template(pieces[1..], n + 1);
    PlainTail(pieces);
    TemplateLowest(pieces[1..], n + 1);
    NoDigitAtFront(pieces[1..], n + 1);
    var p := pre + pieces[0];
    assert pre + Template(pieces, n) == p + "%" + [DigitChar(n)] + rest;
    ArgStep(p, n, rest, a);
  }

  /** Chained single-argument calls on a template fill it in order, as long as
      every argument but the last is free of '%' (the last one is never rescanned). */
  lemma {:induction false} ChainFill(pre: string, pieces: seq<string>, n: nat, args: seq<string>)
    requires |pieces| == |args| + 1 && 1 <= n && n + |pieces| <= 11
    requires PlainPieces(pieces) && '%' !in pre
    requires forall i :: 0 <= i < |args| - 1 ==> '%' !in args[i]
    ensures ArgChain(pre + Template(pieces, n), args) == pre + Interleave(pieces, args)
    decreases |args|, 1
  {
    if args == [] {
      assert Template(pieces, n) == pieces[0];
    } else {
      var x := pre + Template(pieces, n);
      assert [args[0]] + args[1..] == args;
      ArgChainCons(x, args[0], args[1..]);
      TemplateStep(pre, pieces, n, args[0]);
      ChainRest(pre, pieces, n, args);
    }
  }

  /** The rest of the chain, once the first placeholder holds `args[0]`. */
  lemma {:induction false} ChainRest(pre: string, pieces: seq<string>, n: nat, args: seq<string>)
    requires |pieces| == |args| + 1 && |args| >= 1 && 1 <= n && n + |pieces| <= 11
    requires PlainPieces(pieces) && '%' !in pre
    requires forall i :: 0 <= i < |args| - 1 ==> '%' !in args[i]
    ensures ArgChain(pre + pieces[0] + args[0] + Template(pieces[1..], n + 1), args[1..])
            == pre + Interleave(pieces, args)
    decreases |args|, 0
  {
    var p := pre + pieces[0] + args[0];
    var tail := Interleave(pieces[1..], args[1..]);
    if |args| == 1 {
      assert Template(pieces[1..], n + 1) == pieces[1];
      assert tail == pieces[1];
      assert ArgChain(p + pieces[1], args[1..]) == p + pieces[1];
    } else {
      assert '%' !in args[0];
      PlainTail(pieces);
      assert forall i :: 0 <= i < |args[1..]| - 1 ==> args[1..][i] == args[i + 1];
      ChainFill(p, pieces[1..], n + 1, args[1..]);
    }
    assert Interleave(pieces, args) == pieces[0] + args[0] + tail;
    Regroup(pre + pieces[0], args[0], tail);
    Regroup(pre, pieces[0], args[0] + tail);
  }
}
