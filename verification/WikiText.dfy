/** What a page key keeps of the text it comes from: its words, where they part, its path, and nothing of its case. */
module WikiText {
  import opened Common
  import opened Strings
  import opened WikiKeys

  // ---------------------------------------------------------------- words

  predicate IsWord(c: char) { 'a' <= c <= 'z' || '0' <= c <= '9' || c == '_' }

  predicate IsPath(c: char) { IsWord(c) || c == '/' }

  /** The maximal runs of characters of a class, in order. */
  function Tokens(p: char -> bool, s: string): (r: seq<string>)
    ensures s != [] && p(s[0]) ==> r != []
  {
    if s == [] then []
    else
      var rest := Tokens(p, s[1..]);
      if !p(s[0]) then rest
      else if |s| > 1 && p(s[1]) then [[s[0]] + rest[0]] + rest[1..]
      else [[s[0]]] + rest
  }

  lemma TokensCons(p: char -> bool, c: char, s: string)
    ensures Tokens(p, [c] + s) ==
      if !p(c) then Tokens(p, s)
      else if s != [] && p(s[0]) then [[c] + Tokens(p, s)[0]] + Tokens(p, s)[1..]
      else [[c]] + Tokens(p, s)
  {
    assert ([c] + s)[1..] == s;
  }

  lemma {:induction false} TokensDropFront(p: char -> bool, q: char -> bool, s: string)
    requires forall c :: q(c) ==> !p(c)
    ensures Tokens(p, DropFront(q, s)) == Tokens(p, s)
  {
    if s != [] && q(s[0]) { TokensDropFront(p, q, s[1..]); }
  }

  lemma {:induction false} TokensSnoc(p: char -> bool, s: string, c: char)
    requires !p(c)
    ensures Tokens(p, s + [c]) == Tokens(p, s)
  {
    if s == [] {
      assert s + [c] == [c] && [c][1..] == [];
    } else {
      TokensSnoc(p, s[1..], c);
      assert s + [c] == [s[0]] + (s[1..] + [c]) && s == [s[0]] + s[1..];
      TokensCons(p, s[0], s[1..] + [c]);
      TokensCons(p, s[0], s[1..]);
    }
  }

  lemma {:induction false} TokensDropBack(p: char -> bool, q: char -> bool, s: string)
    requires forall c :: q(c) ==> !p(c)
    ensures Tokens(p, DropBack(q, s)) == Tokens(p, s)
    decreases |s|
  {
    if s != [] && q(s[|s| - 1]) {
      var n := |s| - 1;
      TokensDropBack(p, q, s[..n]);
      TokensSnoc(p, s[..n], s[n]);
      assert s == s[..n] + [s[n]];
    }
  }

  lemma TokensStrip(p: char -> bool, q: char -> bool, s: string)
    requires forall c :: q(c) ==> !p(c)
    ensures Tokens(p, Strip(q, s)) == Tokens(p, s)
  {
    TokensDropFront(p, q, s);
    TokensDropBack(p, q, DropFront(q, s));
  }

  lemma RunsHead(q: char -> bool, s: string)
    ensures (Runs(q, s) == [] <==> s == []) && (s != [] ==> Runs(q, s)[0] == if q(s[0]) then '-' else s[0])
  {}

  /** Replacing runs outside a class by hyphens keeps the tokens of the class, and so where they part. */
  lemma {:induction false} TokensRuns(p: char -> bool, q: char -> bool, s: string)
    requires (forall c :: q(c) ==> !p(c)) && !p('-')
    ensures Tokens(p, Runs(q, s)) == Tokens(p, s)
    decreases |s|
  {
    if s != [] {
      if q(s[0]) {
        var rest := DropFront(q, s);
        TokensRuns(p, q, rest);
        TokensCons(p, '-', Runs(q, rest));
        TokensDropFront(p, q, s);
      } else {
        TokensRuns(p, q, s[1..]);
        RunsHead(q, s[1..]);
        TokensCons(p, s[0], Runs(q, s[1..]));
        assert s == [s[0]] + s[1..];
        TokensCons(p, s[0], s[1..]);
      }
    }
  }

  /** The text a key is made from: stripped, with slashes, without the suffix, in lower case. */
  function Stem(u: Charset, s: string): string { Lower(u, DropMd(Slashes(Strip(u.isSpace, s)))) }

  /** The key before its ends are stripped. */
  function Slug(u: Charset, s: string): string { Runs(IsHyphen, Runs(NotSlug, Runs(u.isSpace, Stem(u, s)))) }

  /** Before the ends are stripped the key consists of slug characters with single hyphens. */
  lemma SlugIsSlug(u: Charset, s: string)
    ensures forall i :: 0 <= i < |Slug(u, s)| ==> IsSlug(Slug(u, s)[i])
    ensures forall i :: 0 <= i < |Slug(u, s)| - 1 ==> !(Slug(u, s)[i] == '-' && Slug(u, s)[i + 1] == '-')
  {
    var b := Runs(u.isSpace, Stem(u, s));
    var c := Runs(NotSlug, b);
    RunsAreSlugs(NotSlug, b);
    RunsAreSlugs(IsHyphen, c);
    NoDoubleHyphen(c);
  }

  /** It has the path tokens of the text, and the key is what stripping hyphens and slashes at its ends leaves. */
  lemma KeyKeepsPath(u: Charset, s: string)
    requires Sane(u)
    ensures Normalize(u, s) == Strip(IsEnd, Slug(u, s)) && Tokens(IsPath, Slug(u, s)) == Tokens(IsPath, Stem(u, s))
  {
    TokensThrice(IsPath, u.isSpace, Stem(u, s));
  }

  lemma TokensThrice(p: char -> bool, space: char -> bool, t: string)
    requires (forall c :: space(c) ==> !p(c)) && (forall c :: !IsSlug(c) ==> !p(c)) && !p('-')
    ensures Tokens(p, Runs(IsHyphen, Runs(NotSlug, Runs(space, t)))) == Tokens(p, t)
  {
    TokensRuns(p, space, t);
    TokensRuns(p, NotSlug, Runs(space, t));
    TokensRuns(p, IsHyphen, Runs(NotSlug, Runs(space, t)));
  }

  /** A key has exactly the words of the text, in order and parted where the text parts them. */
  lemma KeyKeepsWords(u: Charset, s: string)
    requires Sane(u)
    ensures Tokens(IsWord, Normalize(u, s)) == Tokens(IsWord, Stem(u, s))
  {
    SlugWords(u, Stem(u, s));
    StrippedWords(Slug(u, s));
  }

  lemma SlugWords(u: Charset, t: string)
    requires Sane(u)
    ensures Tokens(IsWord, Runs(IsHyphen, Runs(NotSlug, Runs(u.isSpace, t)))) == Tokens(IsWord, t)
  {
    TokensThrice(IsWord, u.isSpace, t);
  }

  lemma StrippedWords(d: string)
    ensures Tokens(IsWord, Strip(IsEnd, d)) == Tokens(IsWord, d)
  {
    TokensStrip(IsWord, IsEnd, d);
  }

  // ---------------------------------------------------------------- lower case and suffix

  lemma {:induction false} LowerConcat(u: Charset, a: string, b: string)
    ensures Lower(u, a + b) == Lower(u, a) + Lower(u, b)
  {
    if a == [] {
      assert a + b == b;
    } else {
      assert (a + b)[1..] == a[1..] + b;
      LowerConcat(u, a[1..], b);
    }
  }

  lemma LowerOne(u: Charset, c: char)
    ensures Lower(u, [c]) == u.lower(c)
  {
    assert [c][1..] == [];
  }

  predicate IsMd(s: string) { |s| == 3 && s[0] == '.' && (s[1] == 'm' || s[1] == 'M') && (s[2] == 'd' || s[2] == 'D') }

  /** The suffix goes, in any case, and nothing else. */
  lemma SuffixGoes(a: string, suffix: string)
    requires IsMd(suffix)
    ensures DropMd(a + suffix) == a
  {
    assert (a + suffix)[..|a|] == a;
  }

  lemma OtherwiseStays(s: string)
    requires |s| < 3 || !IsMd(s[|s| - 3..])
    ensures DropMd(s) == s
  {
    if |s| >= 3 { assert s[|s| - 3..][0] == s[|s| - 3] && s[|s| - 3..][1] == s[|s| - 2] && s[|s| - 3..][2] == s[|s| - 1]; }
  }

  /** A file name made from a key normalizes to that key. */
  lemma FileNameToKey(u: Charset, k: string, suffix: string)
    requires Sane(u) && Canonical(k) && IsMd(suffix)
    ensures Normalize(u, k + suffix) == k
  {
    NameStem(u, k, suffix, k + suffix);
    KeyStem(u, k);
    SameStemSameKey(u, k + suffix, k);
    CanonicalIsFixed(u, k);
  }

  lemma NameStem(u: Charset, k: string, suffix: string, s: string)
    requires Sane(u) && AllSlug(k) && IsMd(suffix) && s == k + suffix
    ensures Stem(u, s) == Lower(u, k)
  {
    NameFacts(u, k, suffix, s);
    StemBy(u, s, s, s, k);
  }

  ghost predicate AllSlug(k: string) { forall i :: 0 <= i < |k| ==> IsSlug(k[i]) }

  lemma NameFacts(u: Charset, k: string, suffix: string, s: string)
    requires Sane(u) && AllSlug(k) && IsMd(suffix) && s == k + suffix
    ensures Strip(u.isSpace, s) == s && Slashes(s) == s && DropMd(s) == k
  {
    NameEnds(u, k, suffix, s);
    NameHasNoBackslash(k, suffix, s);
    SuffixGoes(k, suffix);
  }

  lemma StemBy(u: Charset, s: string, stripped: string, slashed: string, cut: string)
    requires Strip(u.isSpace, s) == stripped && Slashes(stripped) == slashed && DropMd(slashed) == cut
    ensures Stem(u, s) == Lower(u, cut)
  {}

  lemma NameEnds(u: Charset, k: string, suffix: string, s: string)
    requires Sane(u) && AllSlug(k) && IsMd(suffix) && s == k + suffix
    ensures Strip(u.isSpace, s) == s
  {
    assert s[|s| - 1] == suffix[2] && s[0] == if k == [] then '.' else k[0];
    StripFix(u.isSpace, s);
  }

  lemma NameHasNoBackslash(k: string, suffix: string, s: string)
    requires AllSlug(k) && IsMd(suffix) && s == k + suffix
    ensures Slashes(s) == s
  {
    forall i | 0 <= i < |s| ensures s[i] != '\\' {
      if i < |k| { assert IsSlug(k[i]); } else { assert s[i] == suffix[i - |k|]; }
    }
    NoBackslash(s);
  }

  lemma KeyStem(u: Charset, k: string)
    requires Sane(u) && AllSlug(k)
    ensures Stem(u, k) == Lower(u, k)
  {
    KeyFacts(u, k);
    StemBy(u, k, k, k, k);
  }

  lemma KeyFacts(u: Charset, k: string)
    requires Sane(u) && AllSlug(k)
    ensures Strip(u.isSpace, k) == k && Slashes(k) == k && DropMd(k) == k
  {
    if k != [] { assert IsSlug(k[0]) && IsSlug(k[|k| - 1]); }
    StripFix(u.isSpace, k);
    SlashesFix(k);
    DropMdFix(k);
  }

  lemma NoBackslash(s: string)
    requires forall i :: 0 <= i < |s| ==> s[i] != '\\'
    ensures Slashes(s) == s
  {}

  /** Only the stem matters. */
  lemma SameStemSameKey(u: Charset, s: string, t: string)
    requires Stem(u, s) == Stem(u, t)
    ensures Normalize(u, s) == Normalize(u, t)
  {}

  // ---------------------------------------------------------------- case does not matter

  /**
   Lower-casing as Python does it: a second time changes nothing, whitespace stays and is not made, and '.', 'm', 'd'
   and the backslash come only from themselves and from 'M' and 'D'.
   */
  ghost predicate Cased(u: Charset) {
    && (forall c :: CasedChar(u, c))
    && u.lower('\\') == ['\\'] && u.lower('.') == ['.'] && u.lower('M') == ['m'] && u.lower('D') == ['d']
  }

  ghost predicate CasedChar(u: Charset, c: char) {
    var l := u.lower(c);
    && l != [] && LowerStable(u, c)
    && (u.isSpace(c) ==> l == [c]) && (!u.isSpace(c) ==> forall i :: 0 <= i < |l| ==> !u.isSpace(l[i]))
    && (forall i :: 0 <= i < |l| ==> Sources(c, l[i]))
  }

  /** Whether d may occur in the lower case of c, for the characters that matter. */
  predicate Sources(c: char, d: char) {
    (d == '\\' || d == '.' ==> c == d) && (d == 'm' ==> c == 'm' || c == 'M') && (d == 'd' ==> c == 'd' || c == 'D')
  }

  ghost predicate LowerStable(u: Charset, c: char) { Lower(u, u.lower(c)) == u.lower(c) }

  lemma {:induction false} LowerTwice(u: Charset, s: string)
    requires Cased(u)
    ensures Lower(u, Lower(u, s)) == Lower(u, s)
  {
    if s != [] {
      LowerConcat(u, u.lower(s[0]), Lower(u, s[1..]));
      assert CasedChar(u, s[0]);
      LowerTwice(u, s[1..]);
    }
  }

  lemma {:induction false} LowerFront(u: Charset, s: string)
    requires Cased(u)
    ensures DropFront(u.isSpace, Lower(u, s)) == Lower(u, DropFront(u.isSpace, s))
  {
    if s != [] {
      var head, rest := u.lower(s[0]), Lower(u, s[1..]);
      assert CasedChar(u, s[0]);
      if u.isSpace(s[0]) {
        assert (head + rest)[1..] == rest;
        LowerFront(u, s[1..]);
      } else {
        assert (head + rest)[0] == head[0];
      }
    }
  }

  lemma LowerSnoc(u: Charset, s: string)
    requires s != []
    ensures Lower(u, s) == Lower(u, s[..|s| - 1]) + u.lower(s[|s| - 1])
  {
    var n := |s| - 1;
    assert s == s[..n] + [s[n]];
    LowerConcat(u, s[..n], [s[n]]);
    LowerOne(u, s[n]);
  }

  lemma {:induction false} LowerBack(u: Charset, s: string)
    requires Cased(u)
    ensures DropBack(u.isSpace, Lower(u, s)) == Lower(u, DropBack(u.isSpace, s))
    decreases |s|
  {
    if s != [] {
      var n := |s| - 1;
      LowerSnoc(u, s);
      var front, last := Lower(u, s[..n]), u.lower(s[n]);
      assert CasedChar(u, s[n]);
      if u.isSpace(s[n]) {
        assert (front + last)[..|front|] == front;
        LowerBack(u, s[..n]);
      } else {
        assert (front + last)[|front + last| - 1] == last[|last| - 1];
      }
    }
  }

  lemma {:induction false} LowerSlashes(u: Charset, s: string)
    requires Sane(u) && Cased(u)
    ensures Slashes(Lower(u, s)) == Lower(u, Slashes(s))
  {
    if s != [] {
      LowerSlashes(u, s[1..]);
      SlashesConcat(u.lower(s[0]), Lower(u, s[1..]));
      assert CasedChar(u, s[0]);
      assert Slashes(s)[1..] == Slashes(s[1..]);
      if s[0] == '\\' {
        assert Slashes(['\\']) == ['/'];
      } else {
        NoBackslash(u.lower(s[0]));
      }
    }
  }

  lemma SlashesConcat(a: string, b: string)
    ensures Slashes(a + b) == Slashes(a) + Slashes(b)
  {}

  /** The lower-cased text ends in the suffix exactly when the text does. */
  lemma LowerMd(u: Charset, s: string)
    requires Sane(u) && Cased(u)
    ensures DropMd(Lower(u, s)) == Lower(u, DropMd(s))
  {
    var n := |s|;
    if n >= 3 && IsMd(s[n - 3..]) {
      assert s == s[..n - 3] + s[n - 3..];
      LowerConcat(u, s[..n - 3], s[n - 3..]);
      LowerSuffix(u, s[n - 3..]);
      SuffixGoes(s[..n - 3], s[n - 3..]);
      SuffixGoes(Lower(u, s[..n - 3]), ".md");
    } else {
      OtherwiseStays(s);
      if |Lower(u, s)| >= 3 && IsMd(Lower(u, s)[|Lower(u, s)| - 3..]) { EndsLikeMd(u, s); }
      OtherwiseStays(Lower(u, s));
    }
  }

  lemma LowerSuffix(u: Charset, suffix: string)
    requires Sane(u) && Cased(u) && IsMd(suffix)
    ensures Lower(u, suffix) == ".md"
  {
    assert suffix[1..][1..] == [suffix[2]] && suffix[1..][0] == suffix[1] && [suffix[2]][1..] == [];
    assert Lower(u, [suffix[2]]) == "d";
    assert Lower(u, suffix[1..]) == "m" + "d";
  }

  /** If the lower-cased text ends in the suffix, the last three characters of the text are its letters. */
  lemma EndsLikeMd(u: Charset, s: string)
    requires Sane(u) && Cased(u) && |Lower(u, s)| >= 3 && IsMd(Lower(u, s)[|Lower(u, s)| - 3..])
    ensures |s| >= 3 && IsMd(s[|s| - 3..])
  {
    var l := Lower(u, s);
    var n := |l|;
    assert l[n - 1] == l[n - 3..][2] && l[n - 2] == l[n - 3..][1] && l[n - 3] == l[n - 3..][0];
    LowerHasNoCapitals(u, s);
    assert l[n - 3] == '.' && l[n - 2] == 'm' && l[n - 1] == 'd';
    CasedLetters(u);
    ThreeLetters(u, s, l);
  }

  lemma CasedLetters(u: Charset)
    requires Sane(u) && Cased(u)
    ensures MadeOf(u, 'd', 'D') && MadeOf(u, 'm', 'M') && MadeOf(u, '.', '.')
  {
    forall c ensures u.lower(c) != [] && forall i :: 0 <= i < |u.lower(c)| ==> Sources(c, u.lower(c)[i]) { assert CasedChar(u, c); }
  }

  lemma TwoLetters(u: Charset, s: string, l: string)
    requires MadeOf(u, 'm', 'M') && MadeOf(u, '.', '.') && l == Lower(u, s) && |l| >= 2 && l[|l| - 2] == '.' && l[|l| - 1] == 'm'
    ensures |s| >= 2 && s[|s| - 2] == '.' && (s[|s| - 1] == 'm' || s[|s| - 1] == 'M')
  {
    LastLetter(u, s, l, 'm', 'M');
    LastLetter(u, s[..|s| - 1], l[..|l| - 1], '.', '.');
  }

  lemma ThreeLetters(u: Charset, s: string, l: string)
    requires MadeOf(u, 'd', 'D') && MadeOf(u, 'm', 'M') && MadeOf(u, '.', '.')
    requires l == Lower(u, s) && |l| >= 3 && l[|l| - 3] == '.' && l[|l| - 2] == 'm' && l[|l| - 1] == 'd'
    ensures |s| >= 3 && IsMd(s[|s| - 3..])
  {
    LastLetter(u, s, l, 'd', 'D');
    TwoLetters(u, s[..|s| - 1], l[..|l| - 1]);
    LastThree(s);
  }

  lemma LastThree(s: string)
    requires |s| >= 3
    ensures s[|s| - 3..] == [s[|s| - 3], s[|s| - 2], s[|s| - 1]]
  {}

  lemma {:induction false} LowerHasNoCapitals(u: Charset, s: string)
    requires Cased(u)
    ensures forall i :: 0 <= i < |Lower(u, s)| ==> Lower(u, s)[i] != 'M' && Lower(u, s)[i] != 'D'
  {
    if s != [] {
      LowerHasNoCapitals(u, s[1..]);
      NoCapital(u, s[0]);
    }
  }

  lemma NoCapital(u: Charset, c: char)
    requires Cased(u)
    ensures forall i :: 0 <= i < |u.lower(c)| ==> u.lower(c)[i] != 'M' && u.lower(c)[i] != 'D'
  {
    var l := u.lower(c);
    assert CasedChar(u, c);
    forall i | 0 <= i < |l| ensures l[i] != 'M' && l[i] != 'D' {
      if l[i] == 'M' || l[i] == 'D' { LowerKeepsLetter(u, l, i); }
    }
  }

  lemma {:induction false} LowerKeepsLetter(u: Charset, l: string, i: nat)
    requires Cased(u) && i < |l| && (l[i] == 'M' || l[i] == 'D')
    ensures Lower(u, l) != l
  {
    if Lower(u, l) == l { EachIsItself(u, l, i); }
  }

  /** A string equal to its lower case consists of characters equal to theirs. */
  lemma {:induction false} EachIsItself(u: Charset, l: string, i: nat)
    requires Cased(u) && Lower(u, l) == l && i < |l|
    ensures u.lower(l[i]) == [l[i]]
  {
    LowerGrows(u, l[1..]);
    assert CasedChar(u, l[0]);
    var head, rest := u.lower(l[0]), Lower(u, l[1..]);
    assert |head| == 1;
    assert head + rest == l && head[0] == l[0];
    assert rest == l[1..];
    if i > 0 { EachIsItself(u, l[1..], i - 1); }
  }

  lemma {:induction false} LowerGrows(u: Charset, s: string)
    requires Cased(u)
    ensures |Lower(u, s)| >= |s|
  {
    if s != [] {
      assert CasedChar(u, s[0]);
      LowerGrows(u, s[1..]);
    }
  }

  /** The letter is the lower case of itself and of its capital, and of nothing else. */
  ghost predicate MadeOf(u: Charset, small: char, capital: char) {
    && (forall c :: u.lower(c) != []) && u.lower(small) == [small] && u.lower(capital) == [small]
    && (forall c, i :: 0 <= i < |u.lower(c)| && u.lower(c)[i] == small ==> c == small || c == capital)
  }

  lemma LastLetter(u: Charset, s: string, l: string, small: char, capital: char)
    requires l == Lower(u, s) && l != [] && l[|l| - 1] == small && MadeOf(u, small, capital)
    ensures s != [] && (s[|s| - 1] == small || s[|s| - 1] == capital)
    ensures Lower(u, s[..|s| - 1]) == l[..|l| - 1]
  {
    LowerSnoc(u, s);
    var n := |s| - 1;
    var last := u.lower(s[n]);
    assert last[|last| - 1] == l[|l| - 1] == small;
  }

  lemma LowerStem(u: Charset, s: string)
    requires Sane(u) && Cased(u)
    ensures Stem(u, Lower(u, s)) == Stem(u, s)
  {
    var f := DropFront(u.isSpace, s);
    LowerFront(u, s);
    LowerBack(u, f);
    var t := DropBack(u.isSpace, f);
    LowerSlashes(u, t);
    LowerMd(u, Slashes(t));
    LowerTwice(u, DropMd(Slashes(t)));
  }

  /** Texts that differ only in case have the same key. */
  lemma CaseDoesNotMatter(u: Charset, s: string, t: string)
    requires Sane(u) && Cased(u) && Lower(u, s) == Lower(u, t)
    ensures Normalize(u, s) == Normalize(u, t)
  {
    LowerStem(u, s);
    LowerStem(u, t);
    SameStemSameKey(u, s, t);
  }

  /** So any spelling of a key in another case normalizes to the key. */
  lemma AnyCaseToKey(u: Charset, s: string, k: string)
    requires Sane(u) && Cased(u) && Canonical(k) && Lower(u, s) == Lower(u, k)
    ensures Normalize(u, s) == k
  {
    CaseDoesNotMatter(u, s, k);
    CanonicalIsFixed(u, k);
  }

  // ---------------------------------------------------------------- ASCII

  function AsciiLower(c: char): string { if 'A' <= c <= 'Z' then [(c as int + 32) as char] else [c] }

  function Ascii(): Charset { Charset(c => c == ' ', AsciiLower) }

  lemma AsciiIsStable(c: char)
    ensures LowerStable(Ascii(), c)
  {
    var u, d := Ascii(), AsciiLower(c)[0];
    assert AsciiLower(c) == [d] && AsciiLower(d) == [d];
    LowerOne(u, d);
  }

  lemma AsciiIsSane()
    ensures Sane(Ascii())
  {}

  lemma AsciiChar(c: char)
    ensures CasedChar(Ascii(), c)
  {
    AsciiIsStable(c);
    var d := AsciiLower(c)[0];
    assert AsciiLower(c) == [d] && Sources(c, d);
  }

  /** The assumptions hold of ASCII. */
  lemma AsciiIsCased()
    ensures Sane(Ascii()) && Cased(Ascii())
  {
    forall c ensures CasedChar(Ascii(), c) { AsciiChar(c); }
    AsciiIsSane();
    assert AsciiLower('M') == ['m'] && AsciiLower('D') == ['d'];
  }
}
