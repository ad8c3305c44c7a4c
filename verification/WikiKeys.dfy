/** Page keys: normalization reaches a canonical form in one pass, for every string. */
module WikiKeys {
  import opened Common
  import opened Strings

  /** What Python knows about characters and the model leaves open: whitespace and lower case. */
  datatype Charset = Charset(isSpace: char -> bool, lower: char -> string)

  predicate IsSlug(c: char) { 'a' <= c <= 'z' || '0' <= c <= '9' || c == '_' || c == '-' || c == '/' }

  /** Visible ASCII is not whitespace, and slug characters are their own lower case. */
  ghost predicate Sane(u: Charset) {
    (forall c :: '!' <= c <= '~' ==> !u.isSpace(c)) && (forall c :: IsSlug(c) ==> u.lower(c) == [c])
  }

  /** A character set with the assumed properties. */
  lemma SaneExists()
    ensures Sane(Charset(c => c == ' ', c => [c]))
  {}

  predicate NotSlug(c: char) { !IsSlug(c) }

  predicate IsHyphen(c: char) { c == '-' }

  predicate IsEnd(c: char) { c == '-' || c == '/' }

  function Slashes(s: string): (r: string)
    ensures |r| == |s| && forall i :: 0 <= i < |s| ==> r[i] == (if s[i] == '\\' then '/' else s[i])
  {
    if s == [] then [] else [if s[0] == '\\' then '/' else s[0]] + Slashes(s[1..])
  }

  function DropMd(s: string): string {
    var n := |s|;
    if n >= 3 && s[n - 3] == '.' && (s[n - 2] == 'm' || s[n - 2] == 'M') && (s[n - 1] == 'd' || s[n - 1] == 'D')
    then s[..n - 3] else s
  }

  function Lower(u: Charset, s: string): string {
    if s == [] then [] else u.lower(s[0]) + Lower(u, s[1..])
  }

  /** Replaces every maximal run of the class by one hyphen. */
  function Runs(p: char -> bool, s: string): (r: string)
    decreases |s|
  {
    if s == [] then []
    else if p(s[0]) then ['-'] + Runs(p, DropFront(p, s))
    else [s[0]] + Runs(p, s[1..])
  }

  function Normalize(u: Charset, s: string): string {
    var a := DropMd(Slashes(Strip(u.isSpace, s)));
    var b := Runs(u.isSpace, Lower(u, a));
    var c := Runs(NotSlug, b);
    var d := Runs(IsHyphen, c);
    Strip(IsEnd, d)
  }

  /** Slug characters only, no double hyphen, and no hyphen or slash at either end. */
  predicate Canonical(s: string) {
    && (forall i :: 0 <= i < |s| ==> IsSlug(s[i]))
    && (forall i :: 0 <= i < |s| - 1 ==> !(s[i] == '-' && s[i + 1] == '-'))
    && (s != [] ==> !IsEnd(s[0]) && !IsEnd(s[|s| - 1]))
  }

  lemma {:induction false} RunsAreSlugs(p: char -> bool, s: string)
    requires forall i :: 0 <= i < |s| ==> p(s[i]) || IsSlug(s[i])
    ensures forall i :: 0 <= i < |Runs(p, s)| ==> IsSlug(Runs(p, s)[i])
    decreases |s|
  {
    if s != [] {
      if p(s[0]) {
        RunsAreSlugs(p, DropFront(p, s));
      } else {
        RunsAreSlugs(p, s[1..]);
      }
    }
  }

  lemma {:induction false} NoDoubleHyphen(s: string)
    ensures
      var r := Runs(IsHyphen, s);
      && (forall i :: 0 <= i < |r| - 1 ==> !(r[i] == '-' && r[i + 1] == '-'))
      && (s != [] ==> r != [] && (r[0] == '-' <==> s[0] == '-'))
    decreases |s|
  {
    if s != [] {
      var rest := if IsHyphen(s[0]) then DropFront(IsHyphen, s) else s[1..];
      NoDoubleHyphen(rest);
    }
  }

  lemma SliceIsCanonical(d: string, k: nat, f: string)
    requires forall i :: 0 <= i < |d| ==> IsSlug(d[i])
    requires forall i :: 0 <= i < |d| - 1 ==> !(d[i] == '-' && d[i + 1] == '-')
    requires k + |f| <= |d| && (forall i :: 0 <= i < |f| ==> f[i] == d[k + i])
    requires f != [] ==> !IsEnd(f[0]) && !IsEnd(f[|f| - 1])
    ensures Canonical(f)
  {
    forall i | 0 <= i < |f| - 1 ensures !(f[i] == '-' && f[i + 1] == '-') {
      assert f[i] == d[k + i] && f[i + 1] == d[k + i + 1];
    }
  }

  lemma TrimmedIsCanonical(d: string)
    requires forall i :: 0 <= i < |d| ==> IsSlug(d[i])
    requires forall i :: 0 <= i < |d| - 1 ==> !(d[i] == '-' && d[i + 1] == '-')
    ensures Canonical(Strip(IsEnd, d))
  {
    var k := StripIsSlice(IsEnd, d);
    SliceIsCanonical(d, k, Strip(IsEnd, d));
  }

  lemma NormalizeIsCanonical(u: Charset, s: string)
    ensures Canonical(Normalize(u, s))
  {
    var b := Runs(u.isSpace, Lower(u, DropMd(Slashes(Strip(u.isSpace, s)))));
    RunsAreSlugs(NotSlug, b);
    var c := Runs(NotSlug, b);
    RunsAreSlugs(IsHyphen, c);
    NoDoubleHyphen(c);
    TrimmedIsCanonical(Runs(IsHyphen, c));
  }

  lemma {:induction false} RunsFix(p: char -> bool, s: string)
    requires forall i :: 0 <= i < |s| ==> !p(s[i])
    ensures Runs(p, s) == s
    decreases |s|
  {
    if s != [] { RunsFix(p, s[1..]); }
  }

  lemma {:induction false} HyphensFix(s: string)
    requires forall i :: 0 <= i < |s| - 1 ==> !(s[i] == '-' && s[i + 1] == '-')
    ensures Runs(IsHyphen, s) == s
    decreases |s|
  {
    if s != [] {
      HyphensFix(s[1..]);
      if IsHyphen(s[0]) { assert DropFront(IsHyphen, s) == DropFront(IsHyphen, s[1..]) == s[1..]; }
    }
  }

  lemma {:induction false} LowerFix(u: Charset, s: string)
    requires Sane(u) && forall i :: 0 <= i < |s| ==> IsSlug(s[i])
    ensures Lower(u, s) == s
  {
    if s != [] {
      assert u.lower(s[0]) == [s[0]];
      LowerFix(u, s[1..]);
    }
  }

  lemma SlashesFix(s: string)
    requires forall i :: 0 <= i < |s| ==> IsSlug(s[i])
    ensures Slashes(s) == s
  {
    var r := Slashes(s);
    forall i | 0 <= i < |s| ensures r[i] == s[i] { assert IsSlug(s[i]); }
  }

  lemma DropMdFix(s: string)
    requires forall i :: 0 <= i < |s| ==> IsSlug(s[i])
    ensures DropMd(s) == s
  {
    if |s| >= 3 { assert IsSlug(s[|s| - 3]); }
  }

  lemma StagesFix(u: Charset, s: string)
    requires Slashes(s) == s && DropMd(s) == s && Strip(u.isSpace, s) == s && Strip(IsEnd, s) == s
    requires Lower(u, s) == s && Runs(u.isSpace, s) == s && Runs(NotSlug, s) == s && Runs(IsHyphen, s) == s
    ensures Normalize(u, s) == s
  {}

  lemma CanonicalIsFixed(u: Charset, s: string)
    requires Sane(u) && Canonical(s)
    ensures Normalize(u, s) == s
  {
    assert Slashes(s) == s by { SlashesFix(s); }
    assert DropMd(s) == s by { DropMdFix(s); }
    assert Strip(u.isSpace, s) == s by { StripFix(u.isSpace, s); }
    assert Strip(IsEnd, s) == s by { StripFix(IsEnd, s); }
    assert Lower(u, s) == s by { LowerFix(u, s); }
    assert Runs(u.isSpace, s) == s by { RunsFix(u.isSpace, s); }
    assert Runs(NotSlug, s) == s by { RunsFix(NotSlug, s); }
    assert Runs(IsHyphen, s) == s by { HyphensFix(s); }
    StagesFix(u, s);
  }

  /** Normalizing twice is normalizing once, for every string. */
  lemma NormalizeIdempotent(u: Charset, s: string)
    requires Sane(u)
    ensures Normalize(u, Normalize(u, s)) == Normalize(u, s)
  {
    NormalizeIsCanonical(u, s);
    CanonicalIsFixed(u, Normalize(u, s));
  }
}
