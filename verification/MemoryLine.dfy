/** One line of MEMORY.md: how a memory row is printed, and how the line is read back. */
module MemoryLine {
  import opened Common
  import opened Strings

  // ---------------------------------------------------------------- characters

  /** Python's character classes, left open: what `strip` removes and where `splitlines` ends a line. */
  datatype Chars = Chars(isSpace: char -> bool, isBreak: char -> bool)

  /** Line breaks and the blank are whitespace; visible ASCII is not. */
  ghost predicate Sound(x: Chars) {
    && x.isSpace(' ')
    && (forall c :: x.isBreak(c) ==> x.isSpace(c))
    && (forall c :: '!' <= c <= '~' ==> !x.isSpace(c))
    && !x.isBreak(' ')
  }

  function Trim(x: Chars, s: string): string { Strip(x.isSpace, s) }

  predicate Trimmed(x: Chars, s: string) { s != [] ==> !x.isSpace(s[0]) && !x.isSpace(s[|s| - 1]) }

  predicate Without(s: string, c: char) { forall i :: 0 <= i < |s| ==> s[i] != c }

  lemma TrimOfTrimmed(x: Chars, s: string)
    requires Trimmed(x, s)
    ensures Trim(x, s) == s
  {}

  lemma TrimIsTrimmed(x: Chars, s: string)
    ensures Trimmed(x, Trim(x, s))
  {
    var f := DropFront(x.isSpace, s);
    var b := DropBack(x.isSpace, f);
    if b != [] { assert b[0] == f[0]; }
  }

  lemma TrimLeadingBlank(x: Chars, s: string)
    requires Sound(x) && Trimmed(x, s)
    ensures Trim(x, [' '] + s) == s && DropFront(x.isSpace, [' '] + s) == s
  {
    assert ([' '] + s)[1..] == s;
  }

  lemma TrimIsFree(x: Chars, s: string, c: char)
    requires Without(s, c)
    ensures Without(Trim(x, s), c)
  {}

  lemma TrimIsOneLine(x: Chars, s: string)
    requires OneLine(x.isBreak, s)
    ensures OneLine(x.isBreak, Trim(x, s))
  {}

  // ---------------------------------------------------------------- scores

  /** Scores print with two decimals, rounding half to even. */
  function Round2(x: real): int {
    var f := (x * 100.0).Floor;
    var d := x * 100.0 - f as real;
    if d < 0.5 then f else if d > 0.5 then f + 1 else if f % 2 == 0 then f else f + 1
  }

  lemma RoundMovesLittle(x: real)
    ensures -0.005 <= Round2(x) as real / 100.0 - x <= 0.005
  {}

  predicate InRange(x: real) { 0.0 <= x <= 1.0 }

  lemma RoundStaysInRange(x: real)
    requires InRange(x)
    ensures 0 <= Round2(x) <= 100
  {}

  function DigitChar(n: nat): (c: char)
    requires n < 10
    ensures '0' <= c <= '9'
  {
    "0123456789"[n]
  }

  /** `:.2f` for a score given in hundredths. */
  function Show2(n: int): (s: string)
    requires 0 <= n <= 100
    ensures |s| == 4 && forall i :: 0 <= i < 4 ==> '.' <= s[i] <= '9'
  {
    [DigitChar(n / 100), '.', DigitChar(n / 10 % 10), DigitChar(n % 10)]
  }

  function ShowScore(x: real): (s: string)
    requires InRange(x)
    ensures |s| == 4 && forall i :: 0 <= i < 4 ==> '.' <= s[i] <= '9'
  {
    RoundStaysInRange(x);
    Show2(Round2(x))
  }

  // ---------------------------------------------------------------- rows and lines

  datatype Memory = Memory(kind: string, content: string, source: string, status: string, archived: bool,
                           importance: real, confidence: real, stability: real)

  predicate Hidden(status: string) { status == "archived" || status == "superseded" }

  /** A value that can sit between the delimiters. */
  predicate Field(x: Chars, s: string) { OneLine(x.isBreak, s) && Without(s, ',') && Without(s, ')') }

  predicate Scored(m: Memory) { InRange(m.importance) && InRange(m.confidence) && InRange(m.stability) }

  /** Rows whose line can be read: no delimiters in the fields and single-line content. */
  predicate Clean(x: Chars, m: Memory) {
    && Field(x, m.kind) && Without(m.kind, '=') && Field(x, m.source)
    && Field(x, m.status) && Trimmed(x, m.status) && m.status != "" && (m.archived <==> Hidden(m.status))
    && OneLine(x.isBreak, m.content) && Scored(m)
  }

  function ShownStatus(m: Memory): string { if m.status != "" then m.status else if m.archived then "archived" else "active" }

  function Part(key: string, value: string): string { [' '] + (key + ['='] + value) }

  function Comma(a: string, b: string): string { a + [','] + b }

  function Joined(parts: seq<string>): string
    requires parts != []
  {
    if |parts| == 1 then parts[0] else Comma(parts[0], Joined(parts[1..]))
  }

  function Parts(m: Memory): (p: seq<string>)
    requires Scored(m)
    ensures p != []
  {
    [m.kind] + PartsOf(Pairs(m))
  }

  /** The bracketed part: the kind, then "key=value" parts, with a comma and a blank between them. */
  function Meta(m: Memory): string
    requires Scored(m)
  {
    Joined(Parts(m))
  }

  /** `_memory_file_line`. */
  function Line(x: Chars, m: Memory): string
    requires Scored(m)
  {
    Bracketed(Meta(m), Trim(x, m.content))
  }

  function Bracketed(meta: string, content: string): string { "- (" + (meta + [')'] + ([' '] + content)) }

  // ---------------------------------------------------------------- reading

  function IndexOf(s: string, c: char): (n: nat)
    ensures n <= |s| && Without(s[..n], c) && (n < |s| ==> s[n] == c)
  {
    if s == [] || s[0] == c then 0
    else
      var n := IndexOf(s[1..], c);
      assert s[..n + 1] == [s[0]] + s[1..][..n];
      n + 1
  }

  function Split(s: string): (parts: seq<string>)
    ensures |parts| > 0
    decreases |s|
  {
    var n := IndexOf(s, ',');
    if n == |s| then [s] else [s[..n]] + Split(s[n + 1..])
  }

  /** One stripped part of the bracket: empty, "key=value", or the kind. */
  function AddPart(x: Chars, fields: map<string, string>, part: string): map<string, string> {
    var n := IndexOf(part, '=');
    if part == "" then fields
    else if n < |part| then fields[Trim(x, part[..n]) := Trim(x, part[n + 1..])]
    else if "kind" !in fields then fields["kind" := part]
    else fields
  }

  type FieldMap = map<string, string>

  function Fold(add: (FieldMap, string) -> FieldMap, parts: seq<string>): FieldMap {
    if parts == [] then map[] else add(Fold(add, parts[..|parts| - 1]), parts[|parts| - 1])
  }

  function Adder(x: Chars): (FieldMap, string) -> FieldMap { (fields, raw) => AddPart(x, fields, Trim(x, raw)) }

  function Fields(x: Chars, parts: seq<string>): FieldMap { Fold(Adder(x), parts) }

  /** After the opening bracket: fields up to the first ')', a blank, then the content. */
  function ParseBody(x: Chars, b: string): Option<(map<string, string>, string)> {
    var j := IndexOf(b, ')');
    if j == |b| || j + 1 == |b| || !x.isSpace(b[j + 1]) then None
    else Some((Fields(x, Split(b[..j])), Trim(x, b[j + 1..])))
  }

  /** `_parse_memory_line`: the bracketed fields and the content, or nothing. */
  function ParseLine(x: Chars, line: string): Option<(map<string, string>, string)> {
    var s := Trim(x, line);
    if |s| < 2 || s[0] != '-' || !x.isSpace(s[1]) then None
    else
      var a := DropFront(x.isSpace, s[1..]);
      if a == [] || a[0] != '(' then None else ParseBody(x, a[1..])
  }

  /** The parser's loop over the parts. */
  method ReadFields(x: Chars, parts: seq<string>) returns (fields: map<string, string>)
    ensures fields == Fields(x, parts)
  {
    fields := map[];
    for n := 0 to |parts|
      invariant fields == Fields(x, parts[..n])
    {
      assert parts[..n + 1][..n] == parts[..n];
      var part := Trim(x, parts[n]);
      fields := AddPart(x, fields, part);
    }
    assert parts[..|parts|] == parts;
  }

  // ---------------------------------------------------------------- round trip

  lemma {:induction false} IndexOfAt(a: string, c: char, b: string)
    requires Without(a, c)
    ensures IndexOf(a + [c] + b, c) == |a|
  {
    var s := a + [c] + b;
    if a != [] {
      assert s[1..] == a[1..] + [c] + b;
      IndexOfAt(a[1..], c, b);
    }
  }

  lemma {:induction false} IndexOfNone(a: string, c: char)
    requires Without(a, c)
    ensures IndexOf(a, c) == |a|
  {
    if a != [] { IndexOfNone(a[1..], c); }
  }

  lemma SplitFirst(a: string, rest: string)
    requires Without(a, ',')
    ensures Split(Comma(a, rest)) == [a] + Split(rest)
  {
    var s := a + [','] + rest;
    IndexOfAt(a, ',', rest);
    assert s[..|a|] == a && s[|a| + 1..] == rest;
  }

  lemma SplitLast(a: string)
    requires Without(a, ',')
    ensures Split(a) == [a]
  {
    IndexOfNone(a, ',');
  }

  /** A printed "key=value" part reads back as that field, the value stripped. */
  lemma PartReadsBack(x: Chars, fields: FieldMap, key: string, value: string)
    requires Sound(x) && GoodKey(x, key)
    ensures AddPart(x, fields, Trim(x, Part(key, value))) == fields[key := Trim(x, value)]
  {
    var front := key + ['='];
    var back := DropBack(x.isSpace, value);
    assert DropFront(x.isSpace, Part(key, value)) == front + value by {
      assert Part(key, value)[1..] == front + value;
      assert (front + value)[0] == key[0];
    }
    BackAppend(x.isSpace, front, value);
    PairReadsBack(x, fields, key, back);
    StripOfBack(x.isSpace, value);
  }

  lemma PairReadsBack(x: Chars, fields: FieldMap, key: string, value: string)
    requires GoodKey(x, key)
    ensures AddPart(x, fields, key + ['='] + value) == fields[key := Trim(x, value)]
  {
    var part := key + ['='] + value;
    IndexOfAt(key, '=', value);
    assert part[..|key|] == key && part[|key| + 1..] == value;
    TrimOfTrimmed(x, key);
  }

  lemma KindReadsBack(x: Chars, kind: string)
    requires Without(kind, '=')
    ensures AddPart(x, map[], Trim(x, kind)) == KindField(Trim(x, kind))
  {
    TrimIsFree(x, kind, '=');
    IndexOfNone(Trim(x, kind), '=');
  }

  /** A part without '=' is the kind, unless there already is one; an empty part is nothing. */
  lemma BarePart(x: Chars, fields: FieldMap, part: string)
    requires Without(part, '=')
    ensures AddPart(x, fields, part) == if part == "" || "kind" in fields then fields else fields["kind" := part]
  {
    IndexOfNone(part, '=');
  }

  /** What reading a printed line yields. */
  function FieldsOf(x: Chars, m: Memory): FieldMap
    requires Scored(m)
  {
    Updated(Trimmer(x), KindField(Trim(x, m.kind)), Pairs(m))
  }

  function Trimmer(x: Chars): string -> string { s => Trim(x, s) }

  lemma PartIsFree(key: string, value: string, c: char)
    requires Without(key, c) && Without(value, c) && c != ' ' && c != '='
    ensures Without(Part(key, value), c)
  {
    var p := Part(key, value);
    forall i | 0 <= i < |p| ensures p[i] != c {
      if 1 <= i <= |key| { assert p[i] == key[i - 1]; }
      if i > |key| + 1 { assert p[i] == value[i - |key| - 2]; }
    }
  }

  lemma CommaIsFree(a: string, b: string, c: char)
    requires Without(a, c) && Without(b, c) && c != ','
    ensures Without(Comma(a, b), c)
  {
    var s := Comma(a, b);
    forall i | 0 <= i < |s| ensures s[i] != c {
      if i < |a| { assert s[i] == a[i]; }
      if i > |a| { assert s[i] == b[i - |a| - 1]; }
    }
  }

  /** The fixed keys contain no delimiter. */
  lemma KeysAreFree(c: char)
    requires !('a' <= c <= 'z')
    ensures Without("source", c) && Without("status", c) && Without("importance", c) && Without("confidence", c) && Without("stability", c)
  {}

  lemma {:induction false} PairsAreFree(pairs: seq<(string, string)>, c: char)
    requires c != ' ' && c != '=' && forall k :: 0 <= k < |pairs| ==> Without(pairs[k].0, c) && Without(pairs[k].1, c)
    ensures forall k :: 0 <= k < |PartsOf(pairs)| ==> Without(PartsOf(pairs)[k], c)
  {
    if pairs != [] {
      var n := |pairs| - 1;
      PartIsFree(pairs[n].0, pairs[n].1, c);
      PairsAreFree(pairs[..n], c);
    }
  }

  lemma PartsAreFree(m: Memory, c: char)
    requires Scored(m) && m.status != "" && Without(m.kind, c) && Without(m.source, c) && Without(m.status, c)
    requires !('a' <= c <= 'z') && !('.' <= c <= '9') && c != ' ' && c != '='
    ensures forall k :: 0 <= k < |Parts(m)| ==> Without(Parts(m)[k], c)
  {
    KeysAreFree(c);
    PairsAreFree(Pairs(m), c);
  }

  lemma {:induction false} SplitJoined(parts: seq<string>)
    requires parts != [] && forall k :: 0 <= k < |parts| ==> Without(parts[k], ',')
    ensures Split(Joined(parts)) == parts
  {
    if |parts| == 1 {
      SplitLast(parts[0]);
    } else {
      SplitJoined(parts[1..]);
      SplitFirst(parts[0], Joined(parts[1..]));
    }
  }

  lemma {:induction false} JoinedIsFree(parts: seq<string>, c: char)
    requires parts != [] && c != ',' && forall k :: 0 <= k < |parts| ==> Without(parts[k], c)
    ensures Without(Joined(parts), c)
  {
    if |parts| > 1 {
      JoinedIsFree(parts[1..], c);
      CommaIsFree(parts[0], Joined(parts[1..]), c);
    }
  }

  predicate GoodKey(x: Chars, key: string) { key != "" && Trimmed(x, key) && Without(key, '=') }

  lemma KeysAreGood(x: Chars)
    requires Sound(x)
    ensures GoodKey(x, "source") && GoodKey(x, "status") && GoodKey(x, "importance") && GoodKey(x, "confidence") && GoodKey(x, "stability")
  {
    KeysAreFree('=');
  }

  function KindField(kind: string): FieldMap { if kind == "" then map[] else map["kind" := kind] }

  /** Parts that each set one field, read after the kind, set their fields in order. */
  lemma {:induction false} FoldPairs(add: (FieldMap, string) -> FieldMap, trim: string -> string, kind: string, pairs: seq<(string, string)>)
    requires add(map[], kind) == KindField(trim(kind))
    requires forall k, f :: 0 <= k < |pairs| ==> add(f, Part(pairs[k].0, pairs[k].1)) == f[pairs[k].0 := trim(pairs[k].1)]
    ensures Fold(add, [kind] + PartsOf(pairs)) == Updated(trim, KindField(trim(kind)), pairs)
  {
    if pairs == [] {
      assert [kind] + PartsOf(pairs) == [kind];
      assert [kind][..0] == [];
      assert Fold(add, [kind]) == add(Fold(add, []), kind);
    } else {
      var n := |pairs| - 1;
      var before := [kind] + PartsOf(pairs[..n]);
      forall k, f | 0 <= k < n ensures add(f, Part(pairs[..n][k].0, pairs[..n][k].1)) == f[pairs[..n][k].0 := trim(pairs[..n][k].1)] {
        assert pairs[..n][k] == pairs[k];
      }
      FoldPairs(add, trim, kind, pairs[..n]);
      var all := [kind] + PartsOf(pairs);
      assert all[..|all| - 1] == before;
      assert all[|all| - 1] == Part(pairs[n].0, pairs[n].1);
    }
  }

  function PartsOf(pairs: seq<(string, string)>): seq<string> {
    if pairs == [] then [] else PartsOf(pairs[..|pairs| - 1]) + [Part(pairs[|pairs| - 1].0, pairs[|pairs| - 1].1)]
  }

  function Updated(trim: string -> string, f: FieldMap, pairs: seq<(string, string)>): FieldMap {
    if pairs == [] then f
    else Updated(trim, f, pairs[..|pairs| - 1])[pairs[|pairs| - 1].0 := trim(pairs[|pairs| - 1].1)]
  }

  lemma {:induction false} UpdatedElsewhere(trim: string -> string, f: FieldMap, pairs: seq<(string, string)>, key: string)
    requires forall k :: 0 <= k < |pairs| ==> pairs[k].0 != key
    ensures key in Updated(trim, f, pairs) <==> key in f
    ensures key in f ==> Updated(trim, f, pairs)[key] == f[key]
  {
    if pairs != [] { UpdatedElsewhere(trim, f, pairs[..|pairs| - 1], key); }
  }

  lemma {:induction false} UpdatedAt(trim: string -> string, f: FieldMap, pairs: seq<(string, string)>, k: nat)
    requires k < |pairs| && forall j :: k < j < |pairs| ==> pairs[j].0 != pairs[k].0
    ensures pairs[k].0 in Updated(trim, f, pairs) && Updated(trim, f, pairs)[pairs[k].0] == trim(pairs[k].1)
  {
    if k + 1 < |pairs| { UpdatedAt(trim, f, pairs[..|pairs| - 1], k); }
  }

  function Pairs(m: Memory): seq<(string, string)>
    requires Scored(m)
  {
    [("source", m.source), ("status", ShownStatus(m)), ("importance", ShowScore(m.importance)),
     ("confidence", ShowScore(m.confidence)), ("stability", ShowScore(m.stability))]
  }

  lemma FieldsOfParts(x: Chars, m: Memory)
    requires Sound(x) && Clean(x, m)
    ensures Fields(x, Parts(m)) == FieldsOf(x, m)
  {
    KeysAreGood(x);
    FieldsOfPairs(x, m.kind, Pairs(m));
  }

  lemma FieldsOfPairs(x: Chars, kind: string, pairs: seq<(string, string)>)
    requires Sound(x) && Without(kind, '=')
    requires forall k :: 0 <= k < |pairs| ==> GoodKey(x, pairs[k].0)
    ensures Fields(x, [kind] + PartsOf(pairs)) == Updated(Trimmer(x), KindField(Trim(x, kind)), pairs)
  {
    var add, trim := Adder(x), Trimmer(x);
    forall k, f | 0 <= k < |pairs| ensures add(f, Part(pairs[k].0, pairs[k].1)) == f[pairs[k].0 := trim(pairs[k].1)] {
      AdderReads(x, f, pairs[k].0, pairs[k].1);
    }
    KindReadsBack(x, kind);
    FoldPairs(add, trim, kind, pairs);
  }

  lemma AdderReads(x: Chars, f: FieldMap, key: string, value: string)
    requires Sound(x) && GoodKey(x, key)
    ensures Adder(x)(f, Part(key, value)) == f[key := Trimmer(x)(value)]
  {
    PartReadsBack(x, f, key, value);
  }

  lemma ScoreIsTrimmed(x: Chars, score: real)
    requires Sound(x) && InRange(score)
    ensures Trim(x, ShowScore(score)) == ShowScore(score)
  {
    var s := ShowScore(score);
    assert '.' <= s[0] <= '9' && '.' <= s[3] <= '9';
    TrimOfTrimmed(x, s);
  }

  lemma BodyReadsBack(x: Chars, meta: string, content: string)
    requires Sound(x) && Without(meta, ')') && Trimmed(x, content)
    ensures ParseBody(x, meta + [')'] + ([' '] + content)) == Some((Fields(x, Split(meta)), content))
    ensures ParseBody(x, meta + [')']) == None
  {
    var tail := [' '] + content;
    var b := meta + [')'] + tail;
    IndexOfAt(meta, ')', tail);
    assert b[..|meta|] == meta && b[|meta| + 1..] == tail && b[|meta| + 1] == ' ';
    TrimLeadingBlank(x, content);
    IndexOfAt(meta, ')', []);
    assert meta + [')'] + [] == meta + [')'];
  }

  function Opened(body: string): string { "- (" + body }

  predicate Ends(x: Chars, s: string) { s != "" && !x.isSpace(s[|s| - 1]) }

  /** What a stripped line "- (…" leaves for the body. */
  lemma OpeningReadsBack(x: Chars, body: string)
    requires Sound(x) && Ends(x, body)
    ensures Trim(x, Opened(body)) == Opened(body) && ParseLine(x, Opened(body)) == ParseBody(x, body)
  {
    var line := Opened(body);
    assert line[0] == '-' && line[1] == ' ' && line[|line| - 1] == body[|body| - 1];
    TrimOfTrimmed(x, line);
    var a := ['('] + body;
    assert line[1..] == [' '] + a;
    assert a[0] == '(' && a[|a| - 1] == body[|body| - 1];
    TrimLeadingBlank(x, a);
    assert a[1..] == body;
  }

  /** The stripped body: it ends with the content, or with the bracket when there is none. */
  function Body(meta: string, content: string): string {
    if content == "" then meta + [')'] else meta + [')'] + ([' '] + content)
  }

  lemma BodyEnds(x: Chars, meta: string, content: string)
    requires Sound(x) && Trimmed(x, content)
    ensures Ends(x, Body(meta, content))
  {
    var b := Body(meta, content);
    assert b[|b| - 1] == if content == "" then ')' else content[|content| - 1];
  }

  lemma BracketedTrims(x: Chars, meta: string, content: string)
    requires Sound(x) && Trimmed(x, content)
    ensures Trim(x, Bracketed(meta, content)) == Opened(Body(meta, content))
  {
    var body := Body(meta, content);
    BodyEnds(x, meta, content);
    if content == "" {
      BlankContent(meta);
      OpenedTrims(x, body, Bracketed(meta, content));
    } else {
      OpeningReadsBack(x, body);
    }
  }

  lemma OpenedTrims(x: Chars, body: string, line: string)
    requires Sound(x) && Ends(x, body) && line == Opened(body) + [' ']
    ensures Trim(x, line) == Opened(body)
  {
    OpeningReadsBack(x, body);
    StripSnoc(x.isSpace, Opened(body), ' ');
  }

  lemma BlankContent(meta: string)
    ensures Bracketed(meta, "") == Opened(Body(meta, "")) + [' ']
  {}

  type Parsed = Option<(FieldMap, string)>

  lemma BodyParses(x: Chars, meta: string, content: string)
    requires Sound(x) && Without(meta, ')') && Trimmed(x, content)
    ensures ParseBody(x, Body(meta, content)) == if content == "" then None else Some((Fields(x, Split(meta)), content))
  {
    BodyReadsBack(x, meta, content);
  }

  lemma OpenedParses(x: Chars, body: string, parsed: Parsed)
    requires Sound(x) && Ends(x, body) && ParseBody(x, body) == parsed
    ensures ParseLine(x, Opened(body)) == parsed
  {
    OpeningReadsBack(x, body);
  }

  lemma BareReadsBack(x: Chars, meta: string, content: string, body: string, parsed: Parsed)
    requires Sound(x) && Without(meta, ')') && Trimmed(x, content) && body == Body(meta, content)
    requires parsed == if content == "" then None else Some((Fields(x, Split(meta)), content))
    ensures ParseLine(x, Opened(body)) == parsed
  {
    BodyEnds(x, meta, content);
    BodyParses(x, meta, content);
    OpenedParses(x, body, parsed);
  }

  lemma ParseTrims(x: Chars, line: string)
    ensures ParseLine(x, Trim(x, line)) == ParseLine(x, line)
  {
    TrimIsTrimmed(x, line);
    TrimOfTrimmed(x, Trim(x, line));
  }

  /** Printing a clean row and reading the line gives back every field, stripped; a row without visible content has no readable line. */
  lemma LineReadsBack(x: Chars, m: Memory)
    requires Sound(x) && Clean(x, m)
    ensures ParseLine(x, Line(x, m)) == if Trim(x, m.content) == "" then None else Some((FieldsOf(x, m), Trim(x, m.content)))
  {
    var content := Trim(x, m.content);
    TrimIsTrimmed(x, m.content);
    PartsAreFree(m, ')');
    JoinedIsFree(Parts(m), ')');
    PartsAreFree(m, ',');
    SplitJoined(Parts(m));
    FieldsOfParts(x, m);
    ParseTrims(x, Line(x, m));
    BracketedTrims(x, Meta(m), content);
    var body := Body(Meta(m), content);
    BareReadsBack(x, Meta(m), content, body, if content == "" then None else Some((Fields(x, Split(Meta(m))), content)));
  }

  lemma BracketedIsFree(meta: string, content: string, c: char)
    requires Without(meta, c) && Without(content, c) && c != '-' && c != ' ' && c != '(' && c != ')'
    ensures Without(Bracketed(meta, content), c)
  {
    var line := Bracketed(meta, content);
    forall i | 0 <= i < |line| ensures line[i] != c {
      if 3 <= i < 3 + |meta| { assert line[i] == meta[i - 3]; }
      if i >= 5 + |meta| { assert line[i] == content[i - 5 - |meta|]; }
    }
  }

  lemma FreeOfBreaks(x: Chars, s: string, c: char)
    requires OneLine(x.isBreak, s) && x.isBreak(c)
    ensures Without(s, c)
  {}

  /** A clean row prints on one line. */
  lemma LineIsOne(x: Chars, m: Memory)
    requires Sound(x) && Clean(x, m)
    ensures OneLine(x.isBreak, Line(x, m))
  {
    var line := Line(x, m);
    forall i | 0 <= i < |line| ensures !x.isBreak(line[i]) {
      if x.isBreak(line[i]) { LineIsFree(x, m, line[i]); }
    }
  }

  lemma LineIsFree(x: Chars, m: Memory, c: char)
    requires Sound(x) && Clean(x, m) && x.isBreak(c)
    ensures Without(Line(x, m), c)
  {
    assert x.isSpace(c) && c != ' ' && !('!' <= c <= '~');
    FreeOfBreaks(x, m.kind, c);
    FreeOfBreaks(x, m.source, c);
    FreeOfBreaks(x, m.status, c);
    FreeOfBreaks(x, m.content, c);
    TrimIsFree(x, m.content, c);
    PartsAreFree(m, c);
    JoinedIsFree(Parts(m), c);
    BracketedIsFree(Meta(m), Trim(x, m.content), c);
  }

  // ---------------------------------------------------------------- the format, spelled out

  lemma PartsAre(m: Memory)
    requires Scored(m)
    ensures Parts(m) == [m.kind, Part("source", m.source), Part("status", ShownStatus(m)), Part("importance", ShowScore(m.importance)),
                         Part("confidence", ShowScore(m.confidence)), Part("stability", ShowScore(m.stability))]
  {
    var q := Pairs(m);
    assert q[..5] == q && q[..5][..4] == q[..4];
    assert q[..4][..3] == q[..3] && q[..3][..2] == q[..2] && q[..2][..1] == q[..1] && q[..1][..0] == [];
    assert PartsOf(q[..1]) == [Part("source", m.source)];
    assert PartsOf(q[..2]) == [Part("source", m.source), Part("status", ShownStatus(m))];
    assert PartsOf(q[..3]) == [Part("source", m.source), Part("status", ShownStatus(m)), Part("importance", ShowScore(m.importance))];
    assert PartsOf(q[..4]) == PartsOf(q[..3]) + [Part("confidence", ShowScore(m.confidence))];
    assert PartsOf(q) == PartsOf(q[..4]) + [Part("stability", ShowScore(m.stability))];
  }

  lemma JoinedFirst(a: string, rest: seq<string>)
    requires rest != []
    ensures Joined([a] + rest) == a + [','] + Joined(rest)
  {
    assert ([a] + rest)[1..] == rest;
  }

  lemma JoinedSix(a: string, b: string, c: string, d: string, e: string, f: string)
    ensures Joined([a, b, c, d, e, f]) == a + [','] + (b + [','] + (c + [','] + (d + [','] + (e + [','] + f))))
  {
    JoinedFirst(e, [f]);
    JoinedFirst(d, [e, f]);
    JoinedFirst(c, [d, e, f]);
    JoinedFirst(b, [c, d, e, f]);
    JoinedFirst(a, [b, c, d, e, f]);
    assert [e] + [f] == [e, f] && [d] + [e, f] == [d, e, f] && [c] + [d, e, f] == [c, d, e, f];
    assert [b] + [c, d, e, f] == [b, c, d, e, f] && [a] + [b, c, d, e, f] == [a, b, c, d, e, f];
  }

  /** The line of a row: kind, source, status and the three scores in brackets, then the content. */
  lemma LineFormat(x: Chars, m: Memory)
    requires Scored(m)
    ensures Line(x, m) == "- (" + m.kind + ", source=" + m.source + ", status=" + ShownStatus(m) + ", importance=" + ShowScore(m.importance)
                          + ", confidence=" + ShowScore(m.confidence) + ", stability=" + ShowScore(m.stability) + ") " + Trim(x, m.content)
  {
    PartsAre(m);
    JoinedSix(m.kind, Part("source", m.source), Part("status", ShownStatus(m)), Part("importance", ShowScore(m.importance)),
              Part("confidence", ShowScore(m.confidence)), Part("stability", ShowScore(m.stability)));
    Flattened(m.kind, m.source, ShownStatus(m), ShowScore(m.importance), ShowScore(m.confidence), ShowScore(m.stability), Trim(x, m.content));
  }

  lemma Flattened(kind: string, source: string, status: string, a: string, b: string, c: string, content: string)
    ensures Bracketed(kind + [','] + (Part("source", source) + [','] + (Part("status", status) + [','] + (Part("importance", a) + [',']
                      + (Part("confidence", b) + [','] + Part("stability", c))))), content)
         == "- (" + kind + ", source=" + source + ", status=" + status + ", importance=" + a + ", confidence=" + b + ", stability=" + c + ") " + content
  {
    PartIs("source", source, ", source=");
    PartIs("status", status, ", status=");
    PartIs("importance", a, ", importance=");
    PartIs("confidence", b, ", confidence=");
    PartIs("stability", c, ", stability=");
    Chain(kind, [','] + Part("source", source), [','] + Part("status", status), [','] + Part("importance", a),
          [','] + Part("confidence", b), [','] + Part("stability", c), content,
          Part("source", source), Part("status", status), Part("importance", a), Part("confidence", b), Part("stability", c));
    Spread(kind, ", source=", source, ", status=", status, ", importance=", a, ", confidence=", b, ", stability=", c, content);
  }

  lemma PartIs(key: string, value: string, shown: string)
    requires shown == ", " + key + "="
    ensures [','] + Part(key, value) == shown + value
  {}

  lemma Chain(kind: string, p: string, q: string, r: string, s: string, t: string, content: string,
              p': string, q': string, r': string, s': string, t': string)
    requires p == [','] + p' && q == [','] + q' && r == [','] + r' && s == [','] + s' && t == [','] + t'
    ensures Bracketed(kind + [','] + (p' + [','] + (q' + [','] + (r' + [','] + (s' + [','] + t')))), content)
         == "- (" + kind + p + q + r + s + t + ") " + content
  {
    assert kind + [','] + (p' + [','] + (q' + [','] + (r' + [','] + (s' + [','] + t')))) == kind + p + q + r + s + t;
  }

  lemma Spread(kind: string, p: string, a: string, q: string, b: string, r: string, c: string, s: string, d: string, t: string, e: string, content: string)
    ensures "- (" + kind + (p + a) + (q + b) + (r + c) + (s + d) + (t + e) + ") " + content
         == "- (" + kind + p + a + q + b + r + c + s + d + t + e + ") " + content
  {}

  /** Scores print as two-decimal numbers: the digits of the hundredths. */
  lemma ScoreDigits(n: nat)
    requires n <= 100
    ensures
      var s := Show2(n);
      && s[1] == '.'
      && 100 * (s[0] as int - '0' as int) + 10 * (s[2] as int - '0' as int) + (s[3] as int - '0' as int) == n
  {
    DigitCode(n / 100);
    DigitCode(n / 10 % 10);
    DigitCode(n % 10);
    assert 100 * (n / 100) + 10 * (n / 10 % 10) + n % 10 == n;
  }

  lemma DigitCode(n: nat)
    requires n < 10
    ensures DigitChar(n) as int == 48 + n
  {}

  /** Fields that can be written between the delimiters. */
  ghost predicate Writable(x: Chars, pairs: seq<(string, string)>) {
    forall k :: 0 <= k < |pairs| ==>
      && GoodKey(x, pairs[k].0) && Without(pairs[k].0, ',') && Without(pairs[k].0, ')')
      && Without(pairs[k].1, ',') && Without(pairs[k].1, ')')
  }

  lemma EditedMeta(x: Chars, kind: string, pairs: seq<(string, string)>)
    requires Writable(x, pairs) && Without(kind, ',') && Without(kind, ')')
    ensures Split(Joined([kind] + PartsOf(pairs))) == [kind] + PartsOf(pairs) && Without(Joined([kind] + PartsOf(pairs)), ')')
  {
    PairsAreFree(pairs, ',');
    PairsAreFree(pairs, ')');
    SplitJoined([kind] + PartsOf(pairs));
    JoinedIsFree([kind] + PartsOf(pairs), ')');
  }

  lemma MetaReads(x: Chars, meta: string, content: string, fields: FieldMap)
    requires Sound(x) && Without(meta, ')') && Trimmed(x, content) && content != "" && Fields(x, Split(meta)) == fields
    ensures ParseLine(x, Bracketed(meta, content)) == Some((fields, content))
  {
    ParseTrims(x, Bracketed(meta, content));
    BracketedTrims(x, meta, content);
    BareContent(x, meta, content, fields);
  }

  lemma BareContent(x: Chars, meta: string, content: string, fields: FieldMap)
    requires Sound(x) && Without(meta, ')') && Trimmed(x, content) && content != "" && Fields(x, Split(meta)) == fields
    ensures ParseLine(x, Opened(Body(meta, content))) == Some((fields, content))
  {
    var parsed: Parsed := Some((fields, content));
    BareReadsBack(x, meta, content, Body(meta, content), parsed);
  }

  /** A hand-edited line with any kind and any fields reads as those fields in order, stripped, and its content. */
  lemma EditedLineReads(x: Chars, kind: string, pairs: seq<(string, string)>, content: string, meta: string)
    requires Sound(x) && Without(kind, '=') && Without(kind, ',') && Without(kind, ')') && Trimmed(x, content) && content != ""
    requires Writable(x, pairs) && meta == Joined([kind] + PartsOf(pairs))
    ensures ParseLine(x, Bracketed(meta, content)) == Some((Updated(Trimmer(x), KindField(Trim(x, kind)), pairs), content))
  {
    EditedMeta(x, kind, pairs);
    FieldsOfPairs(x, kind, pairs);
    MetaReads(x, meta, content, Updated(Trimmer(x), KindField(Trim(x, kind)), pairs));
  }
}
