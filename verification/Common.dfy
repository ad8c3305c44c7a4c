/** Vocabulary shared by all components. */
module Common {

  datatype Option<+T> = None | Some(value: T)

  /** Outcome of an operation that may refuse with an exception message. */
  datatype Outcome<+T> = Ok(value: T) | Refused(reason: string)

  function Max(a: int, b: int): int { if a >= b then a else b }

  function Min(a: int, b: int): int { if a <= b then a else b }
}

/** Decimal rendering of numbers, and why the last ':' of a key can be found again. */
module Decimal {

  predicate IsDigit(c: char) { '0' <= c <= '9' }

  predicate AllDigits(s: string) { forall i :: 0 <= i < |s| ==> IsDigit(s[i]) }

  function Digit(n: nat): (c: char)
    requires n < 10
    ensures IsDigit(c)
  {
    ('0' as int + n) as char
  }

  function Show(n: nat): (s: string)
    ensures |s| > 0 && AllDigits(s)
  {
    if n < 10 then [Digit(n)] else Show(n / 10) + [Digit(n % 10)]
  }

  function Read(s: string): (n: nat)
    requires AllDigits(s)
  {
    if s == [] then 0 else 10 * Read(s[..|s| - 1]) + (s[|s| - 1] as int - '0' as int)
  }

  lemma {:induction false} ReadShow(n: nat)
    ensures Read(Show(n)) == n
  {
    if n < 10 {
      assert Show(n)[..0] == [];
    } else {
      ReadShow(n / 10);
      assert Show(n)[..|Show(n)| - 1] == Show(n / 10);
    }
  }

  lemma ShowInjective(a: nat, b: nat)
    requires Show(a) == Show(b)
    ensures a == b
  {
    ReadShow(a);
    ReadShow(b);
  }

  function ShowInt(n: int): string { if n < 0 then "-" + Show(-n) else Show(n) }

  lemma ShowIntInjective(a: int, b: int)
    requires ShowInt(a) == ShowInt(b)
    ensures a == b
  {
    var s := ShowInt(a);
    assert IsDigit(s[0]) <==> a >= 0;
    assert IsDigit(s[0]) <==> b >= 0;
    if a < 0 {
      assert s[1..] == Show(-a) == Show(-b);
      ShowInjective(-a, -b);
    } else {
      ShowInjective(a, b);
    }
  }

  /** What follows the last ':' of a string is determined by the whole string. */
  lemma LastColon(p: string, d: string, q: string, e: string)
    requires ':' !in d && ':' !in e
    requires p + ":" + d == q + ":" + e
    ensures p == q && d == e
  {
    var s := p + ":" + d;
    assert s[|p|] == ':' && s[|q|] == ':';
    ColonBound(p, d, s, |q|);
    ColonBound(q, e, s, |p|);
    assert p == s[..|p|] && q == s[..|q|];
    assert d == s[|p| + 1..] && e == s[|q| + 1..];
  }

  lemma ColonBound(p: string, d: string, s: string, i: nat)
    requires s == p + ":" + d && ':' !in d && i < |s| && s[i] == ':'
    ensures i <= |p|
  {}

  lemma DigitsHaveNoColon(s: string)
    requires AllDigits(s)
    ensures ':' !in s
  {}
}

/** Stripping the ends of a string, and cutting a text into lines. */
module Strings {

  function DropFront(p: char -> bool, s: string): (r: string)
    ensures |r| <= |s| && r == s[|s| - |r|..] && (r != [] ==> !p(r[0]))
  {
    if s != [] && p(s[0]) then DropFront(p, s[1..]) else s
  }

  function DropBack(p: char -> bool, s: string): (r: string)
    ensures |r| <= |s| && r == s[..|r|] && (r != [] ==> !p(r[|r| - 1]))
  {
    if s != [] && p(s[|s| - 1]) then DropBack(p, s[..|s| - 1]) else s
  }

  /** Python's `strip` with a character class. */
  function Strip(p: char -> bool, s: string): string { DropBack(p, DropFront(p, s)) }

  /** What stripping leaves: a slice whose ends are outside the class. */
  lemma StripIsSlice(p: char -> bool, d: string) returns (k: nat)
    ensures
      var f := Strip(p, d);
      && k + |f| <= |d| && (forall i :: 0 <= i < |f| ==> f[i] == d[k + i])
      && (f != [] ==> !p(f[0]) && !p(f[|f| - 1]))
  {
    var e := DropFront(p, d);
    var f := DropBack(p, e);
    k := |d| - |e|;
    forall i | 0 <= i < |f| ensures f[i] == d[k + i] { assert f[i] == e[i]; }
  }

  lemma StripFix(p: char -> bool, s: string)
    requires s != [] ==> !p(s[0]) && !p(s[|s| - 1])
    ensures Strip(p, s) == s
  {}

  lemma {:induction false} FrontSnoc(p: char -> bool, s: string, c: char)
    requires p(c)
    ensures DropFront(p, s + [c]) == if DropFront(p, s) == [] then [] else DropFront(p, s) + [c]
  {
    if s == [] {
      assert [c][1..] == [];
    } else if p(s[0]) {
      assert (s + [c])[1..] == s[1..] + [c];
      FrontSnoc(p, s[1..], c);
    }
  }

  lemma StripSnoc(p: char -> bool, s: string, c: char)
    requires p(c)
    ensures Strip(p, s + [c]) == Strip(p, s)
  {
    FrontSnoc(p, s, c);
    var f := DropFront(p, s);
    if f != [] { assert (f + [c])[..|f|] == f; }
  }

  lemma {:induction false} StripOfBack(p: char -> bool, s: string)
    ensures Strip(p, DropBack(p, s)) == Strip(p, s)
    decreases |s|
  {
    if s != [] && p(s[|s| - 1]) {
      var n := |s| - 1;
      var t := s[..n];
      assert s == t + [s[n]];
      assert DropBack(p, s) == DropBack(p, t);
      assert Strip(p, DropBack(p, t)) == Strip(p, t) by { StripOfBack(p, t); }
      assert Strip(p, t + [s[n]]) == Strip(p, t) by { StripSnoc(p, t, s[n]); }
    }
  }

  lemma StripEmpty(p: char -> bool, s: string)
    ensures DropBack(p, s) == "" <==> Strip(p, s) == ""
  {
    StripOfBack(p, s);
    var b := DropBack(p, s);
    if b != [] {
      var f := DropFront(p, b);
      LastStays(p, b);
      assert DropBack(p, f) == f;
    }
  }

  lemma {:induction false} LastStays(p: char -> bool, b: string)
    requires b != [] && !p(b[|b| - 1])
    ensures DropFront(p, b) != [] && DropFront(p, b)[|DropFront(p, b)| - 1] == b[|b| - 1]
  {
    if p(b[0]) { LastStays(p, b[1..]); }
  }

  lemma {:induction false} BackAppend(p: char -> bool, a: string, v: string)
    requires a != [] && !p(a[|a| - 1])
    ensures DropBack(p, a + v) == a + DropBack(p, v)
    decreases |v|
  {
    if v == [] {
      assert a + v == a;
    } else if p(v[|v| - 1]) {
      assert (a + v)[..|a + v| - 1] == a + v[..|v| - 1];
      BackAppend(p, a, v[..|v| - 1]);
    }
  }

  // ---------------------------------------------------------------- lines

  predicate OneLine(isBreak: char -> bool, s: string) { forall i :: 0 <= i < |s| ==> !isBreak(s[i]) }

  function LineEnd(isBreak: char -> bool, s: string): (n: nat)
    ensures n <= |s| && OneLine(isBreak, s[..n]) && (n < |s| ==> isBreak(s[n]))
  {
    if s == [] || isBreak(s[0]) then 0
    else
      var n := LineEnd(isBreak, s[1..]);
      assert s[..n + 1] == [s[0]] + s[1..][..n];
      n + 1
  }

  /** The lines of a text; a last line without a break is still a line. */
  function Lines(isBreak: char -> bool, s: string): seq<string>
    decreases |s|
  {
    if s == [] then []
    else
      var n := LineEnd(isBreak, s);
      if n == |s| then [s] else [s[..n]] + Lines(isBreak, s[n + 1..])
  }

  lemma WholeLine(isBreak: char -> bool, text: string)
    requires LineEnd(isBreak, text) == |text|
    ensures OneLine(isBreak, text)
  {
    assert text[..|text|] == text;
  }

  lemma {:induction false} LineEndOfOne(isBreak: char -> bool, s: string)
    requires OneLine(isBreak, s)
    ensures LineEnd(isBreak, s) == |s|
  {}

  lemma LinesOfOne(isBreak: char -> bool, s: string)
    requires OneLine(isBreak, s) && s != ""
    ensures Lines(isBreak, s) == [s]
  {
    LineEndOfOne(isBreak, s);
  }
}
