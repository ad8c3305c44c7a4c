/** Memory rows and MEMORY.md: every operation keeps the file in step, so reading it back changes nothing but rounding and blanks. */
module MemoryMirror {
  import opened Common
  import opened Strings
  import opened MemoryLine
  import opened MarkedLines
  import opened MirroredRows

  /** The marker pattern, the id check and the number reader, left open. */
  datatype Readers = Readers(isId: Id -> bool, marker: string -> Option<Id>, float: string -> Option<real>)

  function MarkerText(id: Id): string { "<!-- soulclaw:memory id=" + id + " -->" }

  /** Printed markers and two-decimal scores read back; only comments are markers. */
  ghost predicate GoodReaders(r: Readers) {
    && (forall id :: r.isId(id) ==> r.marker(MarkerText(id)) == Some(id))
    && (forall s :: r.marker(s).Some? ==> s != [] && s[0] == '<')
    && (forall n :: 0 <= n <= 100 ==> r.float(Show2(n)) == Some(n as real / 100.0))
  }

  function ToolsOf(x: Chars, r: Readers): Tools {
    Tools(s => Lines(x.isBreak, s), s => DropBack(x.isSpace, s), s => Trim(x, s), r.isId, r.marker, MarkerText)
  }

  lemma CutIsOk(x: Chars, r: Readers, s: string)
    ensures CutOk(ToolsOf(x, r), s)
  {
    StripOfBack(x.isSpace, s);
    StripEmpty(x.isSpace, s);
  }

  lemma MarkerIsTrimmed(x: Chars, id: Id)
    requires Sound(x)
    ensures Trim(x, MarkerText(id)) == MarkerText(id)
  {
    var m := MarkerText(id);
    assert m[0] == '<' && m[|m| - 1] == '>';
    TrimOfTrimmed(x, m);
  }

  lemma ToolsAreGood(x: Chars, r: Readers)
    requires Sound(x) && GoodReaders(r)
    ensures Good(ToolsOf(x, r))
  {
    var k := ToolsOf(x, r);
    forall s ensures CutOk(k, s) { CutIsOk(x, r, s); }
    forall id ensures k.trim(k.text(id)) == k.text(id) { MarkerIsTrimmed(x, id); }
    assert k.trim("") == "";
  }

  // ---------------------------------------------------------------- one row read back

  function OrElse(fields: FieldMap, key: string, default: string): string {
    if key in fields && fields[key] != "" then fields[key] else default
  }

  function Clamp(v: real): (c: real)
    ensures InRange(c) && (InRange(v) ==> c == v)
  {
    if v < 0.0 then 0.0 else if v > 1.0 then 1.0 else v
  }

  function ReadScore(r: Readers, fields: FieldMap, key: string, was: real): real {
    if key in fields && r.float(fields[key]).Some? then Clamp(r.float(fields[key]).value) else was
  }

  /** A row after its line was read. */
  function Synced(r: Readers, m: Memory, fields: FieldMap, content: string): Memory {
    var status := OrElse(fields, "status", if m.status != "" then m.status else "active");
    Memory(OrElse(fields, "kind", m.kind), if content != "" then content else m.content, OrElse(fields, "source", m.source),
           status, Hidden(status),
           ReadScore(r, fields, "importance", m.importance),
           ReadScore(r, fields, "confidence", m.confidence),
           ReadScore(r, fields, "stability", m.stability))
  }

  function ReadAs(r: Readers, m: Memory, parsed: Parsed): Memory {
    if parsed.None? then m else Synced(r, m, parsed.value.0, parsed.value.1)
  }

  function Read(x: Chars, r: Readers, m: Memory, line: string): Memory { ReadAs(r, m, ParseLine(x, line)) }

  function Kept(trim: string -> string, s: string): string { if trim(s) == "" then s else trim(s) }

  function Rounded(score: real): real { Round2(score) as real / 100.0 }

  /** What one read of its own line makes of a row: blanks at the ends go and scores are rounded, unless there is no visible content. */
  function Settle(trim: string -> string, m: Memory): Memory {
    if trim(m.content) == "" then m
    else Memory(Kept(trim, m.kind), trim(m.content), Kept(trim, m.source), m.status, m.archived,
                Rounded(m.importance), Rounded(m.confidence), Rounded(m.stability))
  }

  function Settled(x: Chars, m: Memory): Memory { Settle(Trimmer(x), m) }

  lemma ScoreReadsBack(r: Readers, score: real)
    requires GoodReaders(r) && InRange(score)
    ensures r.float(ShowScore(score)) == Some(Rounded(score)) && InRange(Rounded(score)) && Rounded(Rounded(score)) == Rounded(score)
  {
    RoundStaysInRange(score);
    var n := Round2(score);
    assert (n as real / 100.0) * 100.0 == n as real;
  }

  /** The fields carry the row, up to stripping and printing. */
  ghost predicate Carries(trim: string -> string, f: FieldMap, m: Memory)
    requires Scored(m)
  {
    && OrElse(f, "kind", m.kind) == Kept(trim, m.kind) && OrElse(f, "kind", Kept(trim, m.kind)) == Kept(trim, m.kind)
    && OrElse(f, "source", m.source) == Kept(trim, m.source) && OrElse(f, "source", Kept(trim, m.source)) == Kept(trim, m.source)
    && "status" in f && f["status"] == m.status
    && "importance" in f && f["importance"] == ShowScore(m.importance)
    && "confidence" in f && f["confidence"] == ShowScore(m.confidence)
    && "stability" in f && f["stability"] == ShowScore(m.stability)
  }

  ghost predicate Fixes(trim: string -> string, s: string) { trim(s) == s }

  /** Stripping changes neither the status nor a printed score. */
  ghost predicate FixesRow(trim: string -> string, m: Memory)
    requires Scored(m)
  {
    && m.status != "" && Fixes(trim, m.status)
    && Fixes(trim, ShowScore(m.importance)) && Fixes(trim, ShowScore(m.confidence)) && Fixes(trim, ShowScore(m.stability))
  }

  lemma TrimmerFixes(x: Chars, s: string)
    requires Trimmed(x, s)
    ensures Fixes(Trimmer(x), s)
  {
    TrimOfTrimmed(x, s);
  }

  lemma TrimmerFixesScore(x: Chars, score: real)
    requires Sound(x) && InRange(score)
    ensures Fixes(Trimmer(x), ShowScore(score))
  {
    ScoreIsTrimmed(x, score);
  }

  lemma TrimmerFixesRow(x: Chars, m: Memory)
    requires Sound(x) && Scored(m) && Trimmed(x, m.status) && m.status != ""
    ensures FixesRow(Trimmer(x), m)
  {
    TrimmerFixes(x, m.status);
    TrimmerFixesScore(x, m.importance);
    TrimmerFixesScore(x, m.confidence);
    TrimmerFixesScore(x, m.stability);
  }

  lemma FieldsCarry(trim: string -> string, m: Memory, f: FieldMap)
    requires Scored(m) && FixesRow(trim, m) && f == Updated(trim, KindField(trim(m.kind)), Pairs(m))
    ensures Carries(trim, f, m)
  {
    var kind, pairs := KindField(trim(m.kind)), Pairs(m);
    UpdatedElsewhere(trim, kind, pairs, "kind");
    UpdatedAt(trim, kind, pairs, 0);
    UpdatedAt(trim, kind, pairs, 1);
    UpdatedAt(trim, kind, pairs, 2);
    UpdatedAt(trim, kind, pairs, 3);
    UpdatedAt(trim, kind, pairs, 4);
  }

  /** Reading a row's own fields settles it, now and again. */
  lemma SyncedIsSettled(r: Readers, trim: string -> string, m: Memory, fields: FieldMap)
    requires GoodReaders(r) && Scored(m) && m.status != "" && (m.archived <==> Hidden(m.status)) && trim(m.content) != ""
    requires Carries(trim, fields, m)
    ensures Synced(r, m, fields, trim(m.content)) == Settle(trim, m)
    ensures Synced(r, Settle(trim, m), fields, trim(m.content)) == Settle(trim, m)
  {
    ScoreReadsBack(r, m.importance);
    ScoreReadsBack(r, m.confidence);
    ScoreReadsBack(r, m.stability);
  }

  lemma TrimTwice(x: Chars, s: string)
    ensures Trim(x, Trim(x, s)) == Trim(x, s)
  {
    TrimIsTrimmed(x, s);
    TrimOfTrimmed(x, Trim(x, s));
  }

  lemma SettleTwice(r: Readers, trim: string -> string, m: Memory)
    requires GoodReaders(r) && Scored(m)
    requires trim(trim(m.kind)) == trim(m.kind) && trim(trim(m.content)) == trim(m.content) && trim(trim(m.source)) == trim(m.source)
    ensures Settle(trim, Settle(trim, m)) == Settle(trim, m)
  {
    ScoreReadsBack(r, m.importance);
    ScoreReadsBack(r, m.confidence);
    ScoreReadsBack(r, m.stability);
  }

  lemma SettledTwice(x: Chars, r: Readers, m: Memory)
    requires GoodReaders(r) && Scored(m)
    ensures Settled(x, Settled(x, m)) == Settled(x, m)
  {
    TrimTwice(x, m.kind);
    TrimTwice(x, m.content);
    TrimTwice(x, m.source);
    SettleTwice(r, Trimmer(x), m);
  }

  lemma KeptIsField(x: Chars, s: string)
    requires Field(x, s)
    ensures Field(x, Kept(Trimmer(x), s)) && (Without(s, '=') ==> Without(Kept(Trimmer(x), s), '='))
  {
    TrimIsOneLine(x, s);
    TrimIsFree(x, s, ',');
    TrimIsFree(x, s, ')');
    if Without(s, '=') { TrimIsFree(x, s, '='); }
  }

  lemma SettledIsClean(x: Chars, r: Readers, m: Memory)
    requires GoodReaders(r) && Clean(x, m)
    ensures Clean(x, Settled(x, m))
  {
    KeptIsField(x, m.kind);
    KeptIsField(x, m.source);
    TrimIsOneLine(x, m.content);
    ScoreReadsBack(r, m.importance);
    ScoreReadsBack(r, m.confidence);
    ScoreReadsBack(r, m.stability);
  }

  /** Exactly which rows a sync leaves alone, and how far a score can move. */
  lemma SettledMeaning(x: Chars, m: Memory)
    ensures Settled(x, m).status == m.status && Settled(x, m).archived == m.archived
    ensures Settled(x, m).content == m.content <==> (Trim(x, m.content) == "" || Trimmed(x, m.content))
    ensures Trim(x, m.content) != "" ==> (Settled(x, m).kind == m.kind <==> (Trim(x, m.kind) == "" || Trimmed(x, m.kind)))
    ensures Trim(x, m.content) != "" ==> (Settled(x, m).source == m.source <==> (Trim(x, m.source) == "" || Trimmed(x, m.source)))
    ensures -0.005 <= Settled(x, m).importance - m.importance <= 0.005
    ensures -0.005 <= Settled(x, m).confidence - m.confidence <= 0.005
    ensures -0.005 <= Settled(x, m).stability - m.stability <= 0.005
  {
    TrimKeepsIff(x, m.kind);
    TrimKeepsIff(x, m.content);
    TrimKeepsIff(x, m.source);
    RoundMovesLittle(m.importance);
    RoundMovesLittle(m.confidence);
    RoundMovesLittle(m.stability);
  }

  lemma TrimKeepsIff(x: Chars, s: string)
    ensures Trim(x, s) == s <==> Trimmed(x, s)
  {
    TrimIsTrimmed(x, s);
    if Trimmed(x, s) { TrimOfTrimmed(x, s); }
  }

  // ---------------------------------------------------------------- the format is faithful

  function FormatOf(x: Chars, r: Readers): Format<Memory> {
    Format(ToolsOf(x, r), m => Clean(x, m), m => if Scored(m) then Line(x, m) else "", (m, line) => Read(x, r, m, line), m => Settled(x, m))
  }

  /** What the parser makes of a row's line. */
  function ParsedBy(trim: string -> string, m: Memory): Parsed
    requires Scored(m)
  {
    if trim(m.content) == "" then None else Some((Updated(trim, KindField(trim(m.kind)), Pairs(m)), trim(m.content)))
  }

  lemma LineParses(x: Chars, m: Memory)
    requires Sound(x) && Clean(x, m)
    ensures ParseLine(x, Line(x, m)) == ParsedBy(Trimmer(x), m)
  {
    LineReadsBack(x, m);
  }

  lemma ParsedIsTold(r: Readers, trim: string -> string, m: Memory)
    requires GoodReaders(r) && Scored(m) && (m.archived <==> Hidden(m.status)) && FixesRow(trim, m)
    ensures ReadAs(r, m, ParsedBy(trim, m)) == Settle(trim, m)
    ensures ReadAs(r, Settle(trim, m), ParsedBy(trim, m)) == Settle(trim, m)
  {
    if trim(m.content) != "" {
      var fields := Updated(trim, KindField(trim(m.kind)), Pairs(m));
      FieldsCarry(trim, m, fields);
      SyncedIsSettled(r, trim, m, fields);
    }
  }

  lemma ReadIsTold(x: Chars, r: Readers, m: Memory, line: string)
    requires Sound(x) && GoodReaders(r) && Clean(x, m) && ParseLine(x, line) == ParseLine(x, Line(x, m))
    ensures Read(x, r, m, line) == Settled(x, m) && Read(x, r, Settled(x, m), line) == Settled(x, m)
  {
    LineParses(x, m);
    TrimmerFixesRow(x, m);
    ParsedIsTold(r, Trimmer(x), m);
  }

  lemma LineIsPlain(x: Chars, r: Readers, m: Memory)
    requires Sound(x) && GoodReaders(r) && Clean(x, m)
    ensures Trim(x, Line(x, m)) != "" && r.marker(Trim(x, Line(x, m))).None?
  {
    TrimIsTrimmed(x, m.content);
    BracketedTrims(x, Meta(m), Trim(x, m.content));
    OpenedIsPlain(r, Body(Meta(m), Trim(x, m.content)));
  }

  lemma OpenedIsPlain(r: Readers, body: string)
    requires GoodReaders(r)
    ensures Opened(body) != "" && r.marker(Opened(body)).None?
  {
    assert Opened(body)[0] == '-';
  }

  lemma LineSplits(x: Chars, m: Memory)
    requires Sound(x) && Clean(x, m)
    ensures Lines(x.isBreak, Line(x, m)) == [Line(x, m)]
  {
    LineIsOne(x, m);
    assert Line(x, m)[0] == '-';
    LinesOfOne(x.isBreak, Line(x, m));
  }

  lemma RowTells(x: Chars, r: Readers, m: Memory, line: string)
    requires Sound(x) && GoodReaders(r) && Clean(x, m) && line == Trim(x, Line(x, m))
    ensures Tells(FormatOf(x, r), line, m)
  {
    ParseTrims(x, Line(x, m));
    ReadIsTold(x, r, m, line);
    SettledTwice(x, r, m);
  }

  lemma RowIsPlain(x: Chars, r: Readers, m: Memory)
    requires Sound(x) && GoodReaders(r) && Clean(x, m)
    ensures Plain(ToolsOf(x, r), Trim(x, Line(x, m)))
  {
    LineIsPlain(x, r, m);
    TrimTwice(x, Line(x, m));
  }

  lemma RowIsTold(x: Chars, r: Readers, m: Memory)
    requires Sound(x) && GoodReaders(r) && Clean(x, m)
    ensures ShowTells(FormatOf(x, r), m)
  {
    LineSplits(x, m);
    RowIsPlain(x, r, m);
    RowTells(x, r, m, Trim(x, Line(x, m)));
    SettledIsClean(x, r, m);
  }

  lemma StrippedLineReads(x: Chars, r: Readers, m: Memory, line: string)
    ensures ReadTrims(FormatOf(x, r), m, line)
  {
    ParseTrims(x, line);
  }

  lemma FormatIsFaithful(x: Chars, r: Readers)
    requires Sound(x) && GoodReaders(r)
    ensures Faithful(FormatOf(x, r))
  {
    var f := FormatOf(x, r);
    ToolsAreGood(x, r);
    forall m, line ensures ReadTrims(f, m, line) { StrippedLineReads(x, r, m, line); }
    forall m ensures f.read(m, "") == m { assert ParseLine(x, "") == None; }
    forall m ensures ShowTells(f, m) { if Clean(x, m) { RowIsTold(x, r, m); } }
  }

  // ---------------------------------------------------------------- the assumptions can be met

  const OPENING := "<!-- soulclaw:memory id="

  const CLOSING := " -->"

  function SampleMarker(s: string): Option<Id> {
    if |s| >= |OPENING| + |CLOSING| && OPENING <= s && s[|s| - |CLOSING|..] == CLOSING
    then Some(s[|OPENING|..|s| - |CLOSING|]) else None
  }

  function SampleFloat(s: string): Option<real> {
    if |s| == 4 then Some((100 * (s[0] as int - 48) + 10 * (s[2] as int - 48) + s[3] as int - 48) as real / 100.0) else None
  }

  lemma MarkerReadsBack(id: Id)
    ensures SampleMarker(MarkerText(id)) == Some(id)
  {
    var s := MarkerText(id);
    assert s == OPENING + id + CLOSING;
    assert s[|OPENING|..|s| - |CLOSING|] == id && s[|s| - |CLOSING|..] == CLOSING;
  }

  lemma FloatReadsBack(n: nat)
    requires n <= 100
    ensures SampleFloat(Show2(n)) == Some(n as real / 100.0)
  {
    DigitCode(n / 100);
    DigitCode(n / 10 % 10);
    DigitCode(n % 10);
    assert 100 * (n / 100) + 10 * (n / 10 % 10) + n % 10 == n;
  }

  /** Characters and readers with the assumed properties exist. */
  lemma GoodReadersExist()
    ensures
      var x, r := Chars(c => c == ' ' || c == '\n', c => c == '\n'), Readers(id => true, SampleMarker, SampleFloat);
      Sound(x) && GoodReaders(r)
  {
    forall id ensures SampleMarker(MarkerText(id)) == Some(id) { MarkerReadsBack(id); }
    forall n | 0 <= n <= 100 ensures SampleFloat(Show2(n)) == Some(n as real / 100.0) { FloatReadsBack(n); }
    forall s | SampleMarker(s).Some? ensures s != [] && s[0] == '<' { assert s[0] == OPENING[0]; }
  }

  // ---------------------------------------------------------------- what a read takes from a line

  /** A field that is present and not empty replaces the row's; scores are clamped; the archived flag follows the status. */
  lemma ReadMeaning(r: Readers, m: Memory, fields: FieldMap, content: string)
    ensures
      var m' := Synced(r, m, fields, content);
      && m'.kind == (if "kind" in fields && fields["kind"] != "" then fields["kind"] else m.kind)
      && m'.source == (if "source" in fields && fields["source"] != "" then fields["source"] else m.source)
      && m'.status == (if "status" in fields && fields["status"] != "" then fields["status"] else if m.status != "" then m.status else "active")
      && m'.archived == (m'.status == "archived" || m'.status == "superseded")
      && m'.content == (if content != "" then content else m.content)
      && ("importance" !in fields ==> m'.importance == m.importance) && ("confidence" !in fields ==> m'.confidence == m.confidence)
      && ("stability" !in fields ==> m'.stability == m.stability)
  {}

  /** A score that reads as a number is clamped to 0 and 1; one that does not is ignored. */
  lemma ScoreRead(r: Readers, fields: FieldMap, key: string, was: real)
    requires key in fields
    ensures
      var v := ReadScore(r, fields, key, was);
      match r.float(fields[key])
      case None => v == was
      case Some(n) => v == if n < 0.0 then 0.0 else if n > 1.0 then 1.0 else n
  {}
}
