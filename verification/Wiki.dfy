/** The wiki compiler: Markdown files in; page, source, link and error tables out. */
module Wiki {
  import opened Common
  import opened WikiKeys

  /** A parsed file; `columns` stands for the remaining page columns, all written the same way. */
  datatype ParsedPage = ParsedPage(key: string, title: string, path: string, uri: string, checksum: string,
                                   columns: string, aliases: seq<string>, links: seq<(string, string)>)

  /** A Markdown file and what parsing it gives; `Refused` is a parse exception. */
  datatype File = File(path: string, parsed: Outcome<ParsedPage>)

  datatype PageRow = PageRow(title: string, path: string, checksum: string, columns: string, aliases: seq<string>)

  datatype SourceRow = SourceRow(uri: string, checksum: string, pageKey: string)

  datatype Link = Link(src: string, dst: string, resolved: bool, anchor: string, target: string)

  datatype ErrorKind = CompileError | DuplicateKey | DanglingLink | LintFinding

  datatype Entry = Entry(kind: ErrorKind, pageKey: string, detail: string, anchor: string, open: bool)

  datatype Tables = Tables(pages: map<string, PageRow>, sources: map<string, SourceRow>, links: seq<Link>, errors: seq<Entry>)

  /** `normalize_page_key` as the compiler and the reader call it. */
  function Normalizer(u: Charset): string -> string { s => Normalize(u, s) }

  /** What `parse_markdown_page` guarantees about keys and links of the page it returns. */
  predicate WellParsed(f: File) {
    f.parsed.Ok? ==>
      var p := f.parsed.value;
      p.path == f.path && Canonical(p.key) && forall i :: 0 <= i < |p.links| ==> Canonical(p.links[i].0) && p.links[i].0 != ""
  }

  /** The directory listing: distinct paths, each parsed by the page parser. */
  ghost predicate Listing(files: seq<File>) {
    && (forall i :: 0 <= i < |files| ==> WellParsed(files[i]))
    && (forall i, j :: 0 <= i < j < |files| ==> files[i].path != files[j].path)
  }

  function RowOf(p: ParsedPage): PageRow { PageRow(p.title, p.path, p.checksum, p.columns, p.aliases) }

  function SourceOf(p: ParsedPage): SourceRow { SourceRow(p.uri, p.checksum, p.key) }

  // ---------------------------------------------------------------- the passes

  predicate HasKey(pages: seq<ParsedPage>, key: string) { exists i :: 0 <= i < |pages| && pages[i].key == key }

  /** First pass: the accepted pages and the errors, in file order. */
  function Scan(files: seq<File>): (r: (seq<ParsedPage>, seq<Entry>))
    ensures |r.0| + |r.1| == |files|
    ensures forall i, j :: 0 <= i < j < |r.0| ==> r.0[i].key != r.0[j].key
    ensures forall i :: 0 <= i < |r.1| ==> r.1[i].kind != DanglingLink
  {
    if files == [] then ([], [])
    else
      var n := |files| - 1;
      var (pages, errors) := Scan(files[..n]);
      match files[n].parsed
      case Refused(why) => (pages, errors + [Entry(CompileError, files[n].path, why, "", true)])
      case Ok(page) =>
        if HasKey(pages, page.key) then (pages, errors + [Entry(DuplicateKey, page.key, files[n].path, "", true)])
        else (pages + [page], errors)
  }

  function AddAliases(norm: string -> string, known: map<string, string>, aliases: seq<string>, key: string): map<string, string> {
    if aliases == [] then known
    else
      var n := |aliases| - 1;
      AddAliases(norm, known, aliases[..n], key)[norm(aliases[n]) := key]
  }

  /** Names under which pages can be linked; later pages win. */
  function Known(norm: string -> string, pages: seq<ParsedPage>): map<string, string> {
    if pages == [] then map[]
    else
      var n := |pages| - 1;
      var p := pages[n];
      AddAliases(norm, Known(norm, pages[..n])[p.key := p.key], p.aliases, p.key)[norm(p.title) := p.key]
  }

  /** A name that leads to a page with an empty key counts as unresolved. */
  predicate Resolves(known: map<string, string>, target: string) { target in known && known[target] != "" }

  function LinkOf(known: map<string, string>, src: string, link: (string, string)): Link {
    if Resolves(known, link.0) then Link(src, known[link.0], true, link.1, link.0)
    else Link(src, link.0, false, link.1, link.0)
  }

  function LinksFrom(known: map<string, string>, src: string, links: seq<(string, string)>): (r: seq<Link>)
    ensures |r| == |links| && forall i :: 0 <= i < |r| ==> r[i] == LinkOf(known, src, links[i])
  {
    seq(|links|, i requires 0 <= i < |links| => LinkOf(known, src, links[i]))
  }

  function LinksOf(known: map<string, string>, pages: seq<ParsedPage>): seq<Link> {
    if pages == [] then []
    else
      var n := |pages| - 1;
      LinksOf(known, pages[..n]) + LinksFrom(known, pages[n].key, pages[n].links)
  }

  function DanglingEntry(l: Link): Entry { Entry(DanglingLink, l.src, l.target, l.anchor, true) }

  /** One entry per unresolved link, in order. */
  function Dangling(links: seq<Link>): seq<Entry> {
    if links == [] then []
    else
      var n := |links| - 1;
      Dangling(links[..n]) + (if links[n].resolved then [] else [DanglingEntry(links[n])])
  }

  predicate Recompiled(k: ErrorKind) { k == DanglingLink || k == CompileError || k == DuplicateKey }

  /** Open entries of the compiler's own kinds become fixed. */
  function CloseOld(errors: seq<Entry>): (r: seq<Entry>)
    ensures |r| == |errors|
  {
    seq(|errors|, i requires 0 <= i < |errors| =>
      if Recompiled(errors[i].kind) && errors[i].open then errors[i].(open := false) else errors[i])
  }

  /** Rows written one after the other over a table. */
  function Upsert<V>(table: map<string, V>, rows: seq<(string, V)>): map<string, V> {
    if rows == [] then table
    else
      var n := |rows| - 1;
      Upsert(table, rows[..n])[rows[n].0 := rows[n].1]
  }

  predicate Writes<V>(rows: seq<(string, V)>, k: string) { exists i :: 0 <= i < |rows| && rows[i].0 == k }

  function PageRows(parsed: seq<ParsedPage>): (r: seq<(string, PageRow)>)
    ensures |r| == |parsed| && forall i :: 0 <= i < |r| ==> r[i] == (parsed[i].key, RowOf(parsed[i]))
  {
    seq(|parsed|, i requires 0 <= i < |parsed| => (parsed[i].key, RowOf(parsed[i])))
  }

  function SourceRows(parsed: seq<ParsedPage>): (r: seq<(string, SourceRow)>)
    ensures |r| == |parsed| && forall i :: 0 <= i < |r| ==> r[i] == (parsed[i].path, SourceOf(parsed[i]))
  {
    seq(|parsed|, i requires 0 <= i < |parsed| => (parsed[i].path, SourceOf(parsed[i])))
  }

  predicate HasPath(files: seq<File>, path: string) { exists i :: 0 <= i < |files| && files[i].path == path }

  /** The rows that survive the clean-up before the new rows are written. */
  function KeptPages(t: Tables, files: seq<File>): map<string, PageRow> {
    var (parsed, errors) := Scan(files);
    if errors == [] then (map k | k in t.pages && HasKey(parsed, k) :: t.pages[k]) else t.pages
  }

  function KeptSources(t: Tables, files: seq<File>): map<string, SourceRow> {
    if Scan(files).1 == [] then (map k | k in t.sources && HasPath(files, k) :: t.sources[k]) else t.sources
  }

  function CompiledLinks(norm: string -> string, files: seq<File>): seq<Link> {
    var parsed := Scan(files).0;
    LinksOf(Known(norm, parsed), parsed)
  }

  function Compile(norm: string -> string, t: Tables, files: seq<File>): Tables {
    var (parsed, errors) := Scan(files);
    var links := CompiledLinks(norm, files);
    Tables(Upsert(KeptPages(t, files), PageRows(parsed)), Upsert(KeptSources(t, files), SourceRows(parsed)),
           links, CloseOld(t.errors) + errors + Dangling(links))
  }

  function Read(norm: string -> string, t: Tables, key: string): Option<PageRow> {
    var k := norm(key);
    if k in t.pages then Some(t.pages[k]) else None
  }

  // ---------------------------------------------------------------- tables mirror the files

  lemma WritesSnoc<V>(rows: seq<(string, V)>, row: (string, V), k: string)
    ensures Writes(rows + [row], k) <==> Writes(rows, k) || row.0 == k
  {
    var all := rows + [row];
    assert all[|rows|] == row;
    if Writes(rows, k) {
      var i :| 0 <= i < |rows| && rows[i].0 == k;
      assert all[i] == rows[i];
    }
  }

  lemma {:induction false} UpsertAt<V>(table: map<string, V>, rows: seq<(string, V)>, k: string)
    ensures k in Upsert(table, rows) <==> k in table || Writes(rows, k)
    ensures k in table && !Writes(rows, k) ==> Upsert(table, rows)[k] == table[k]
  {
    if rows != [] {
      var n := |rows| - 1;
      UpsertAt(table, rows[..n], k);
      assert rows == rows[..n] + [rows[n]];
      WritesSnoc(rows[..n], rows[n], k);
    }
  }

  lemma {:induction false} UpsertRow<V>(table: map<string, V>, rows: seq<(string, V)>, i: nat)
    requires i < |rows| && forall j :: i < j < |rows| ==> rows[i].0 != rows[j].0
    ensures rows[i].0 in Upsert(table, rows) && Upsert(table, rows)[rows[i].0] == rows[i].1
  {
    if i + 1 < |rows| { UpsertRow(table, rows[..|rows| - 1], i); }
  }

  lemma UpsertExact<V>(table: map<string, V>, rows: seq<(string, V)>)
    requires forall i, j :: 0 <= i < j < |rows| ==> rows[i].0 != rows[j].0
    ensures forall k :: k in Upsert(table, rows) <==> k in table || Writes(rows, k)
    ensures forall i :: 0 <= i < |rows| ==> rows[i].0 in Upsert(table, rows) && Upsert(table, rows)[rows[i].0] == rows[i].1
    ensures forall k :: k in table && !Writes(rows, k) ==> Upsert(table, rows)[k] == table[k]
  {
    forall k ensures (k in Upsert(table, rows) <==> k in table || Writes(rows, k)) &&
                     (k in table && !Writes(rows, k) ==> Upsert(table, rows)[k] == table[k]) {
      UpsertAt(table, rows, k);
    }
    forall i | 0 <= i < |rows| ensures rows[i].0 in Upsert(table, rows) && Upsert(table, rows)[rows[i].0] == rows[i].1 {
      UpsertRow(table, rows, i);
    }
  }

  lemma UpsertTwice<V>(table: map<string, V>, rows: seq<(string, V)>)
    requires forall i, j :: 0 <= i < j < |rows| ==> rows[i].0 != rows[j].0
    ensures Upsert(Upsert(table, rows), rows) == Upsert(table, rows)
  {
    UpsertExact(table, rows);
    UpsertExact(Upsert(table, rows), rows);
    var a, b := Upsert(table, rows), Upsert(Upsert(table, rows), rows);
    forall k | k in a ensures k in b && a[k] == b[k] {
      if Writes(rows, k) { var i :| 0 <= i < |rows| && rows[i].0 == k; }
    }
    assert a.Keys == b.Keys;
  }

  /** Two tables whose keys are all overwritten end up the same. */
  lemma UpsertForgets<V>(a: map<string, V>, b: map<string, V>, rows: seq<(string, V)>)
    requires forall i, j :: 0 <= i < j < |rows| ==> rows[i].0 != rows[j].0
    requires (forall k :: k in a ==> Writes(rows, k)) && (forall k :: k in b ==> Writes(rows, k))
    ensures Upsert(a, rows) == Upsert(b, rows)
  {
    UpsertExact(a, rows);
    UpsertExact(b, rows);
    var x, y := Upsert(a, rows), Upsert(b, rows);
    forall k | k in x ensures k in y && x[k] == y[k] {
      var i :| 0 <= i < |rows| && rows[i].0 == k;
    }
    assert x.Keys == y.Keys;
  }

  ghost predicate From(files: seq<File>, page: ParsedPage) {
    exists j :: 0 <= j < |files| && files[j].parsed == Ok(page)
  }

  lemma {:induction false} ScanFrom(files: seq<File>)
    ensures forall p :: p in Scan(files).0 ==> From(files, p)
  {
    if files != [] {
      var n := |files| - 1;
      ScanFrom(files[..n]);
      forall p | p in Scan(files).0 ensures From(files, p) {
        if p in Scan(files[..n]).0 {
          var j :| 0 <= j < n && files[..n][j].parsed == Ok(p);
          assert files[j].parsed == Ok(p);
        } else {
          assert files[n].parsed == Ok(p);
        }
      }
    }
  }

  /** Accepted pages come from different files, so their paths differ. */
  lemma {:induction false} ScanPaths(files: seq<File>)
    requires Listing(files)
    ensures forall i, j :: 0 <= i < j < |Scan(files).0| ==> Scan(files).0[i].path != Scan(files).0[j].path
  {
    if files != [] {
      var n := |files| - 1;
      ScanPaths(files[..n]);
      ScanFrom(files[..n]);
      var before := Scan(files[..n]).0;
      forall i | 0 <= i < |before| ensures before[i].path != files[n].path {
        assert before[i] in before;
        var j :| 0 <= j < n && files[..n][j].parsed == Ok(before[i]);
        assert WellParsed(files[j]);
      }
      assert WellParsed(files[n]);
    }
  }

  lemma {:induction false} ErrorFreeScan(files: seq<File>)
    requires Scan(files).1 == []
    ensures |Scan(files).0| == |files|
    ensures forall i :: 0 <= i < |files| ==> files[i].parsed == Ok(Scan(files).0[i])
  {
    if files != [] {
      var n := |files| - 1;
      var (pages, errors) := Scan(files[..n]);
      assert errors == [];
      ErrorFreeScan(files[..n]);
      assert Scan(files).0 == pages + [files[n].parsed.value];
      forall i | 0 <= i < n ensures files[i].parsed == Ok(pages[i]) { assert files[..n][i] == files[i]; }
    }
  }

  lemma SourceKeys(files: seq<File>, k: string)
    requires Listing(files) && Scan(files).1 == []
    ensures Writes(SourceRows(Scan(files).0), k) <==> HasPath(files, k)
  {
    ErrorFreeScan(files);
    var rows := SourceRows(Scan(files).0);
    forall i | 0 <= i < |files| ensures rows[i].0 == files[i].path { assert WellParsed(files[i]); }
  }

  lemma PageKeys(parsed: seq<ParsedPage>, k: string)
    ensures Writes(PageRows(parsed), k) <==> HasKey(parsed, k)
  {
    if HasKey(parsed, k) {
      var i :| 0 <= i < |parsed| && parsed[i].key == k;
      assert PageRows(parsed)[i].0 == k;
    }
  }

  /** Without errors the page and source tables are what the files alone give, whatever they held before. */
  lemma ErrorFreeMirrorsPages(norm: string -> string, t: Tables, files: seq<File>)
    requires Listing(files) && Scan(files).1 == []
    ensures
      var pages := Compile(norm, t, files).pages;
      && (forall k :: k in pages <==> exists i :: 0 <= i < |files| && files[i].parsed.Ok? && files[i].parsed.value.key == k)
      && (forall i :: 0 <= i < |files| ==>
            files[i].parsed.Ok? && files[i].parsed.value.key in pages && pages[files[i].parsed.value.key] == RowOf(files[i].parsed.value))
  {
    var parsed := Scan(files).0;
    var pages := Compile(norm, t, files).pages;
    ErrorFreeScan(files);
    UpsertExact(KeptPages(t, files), PageRows(parsed));
    forall k ensures k in pages <==> exists i :: 0 <= i < |files| && files[i].parsed.Ok? && files[i].parsed.value.key == k {
      PageKeys(parsed, k);
      if HasKey(parsed, k) {
        var i :| 0 <= i < |parsed| && parsed[i].key == k;
        assert files[i].parsed == Ok(parsed[i]);
      }
    }
    forall i | 0 <= i < |files| ensures files[i].parsed.Ok? && files[i].parsed.value.key in pages && pages[files[i].parsed.value.key] == RowOf(files[i].parsed.value) {
      assert PageRows(parsed)[i] == (parsed[i].key, RowOf(parsed[i]));
    }
  }

  lemma ErrorFreeMirrorsSources(norm: string -> string, t: Tables, files: seq<File>)
    requires Listing(files) && Scan(files).1 == []
    ensures
      var sources := Compile(norm, t, files).sources;
      && (forall k :: k in sources <==> HasPath(files, k))
      && (forall i :: 0 <= i < |files| ==>
            files[i].parsed.Ok? && files[i].path in sources && sources[files[i].path] == SourceOf(files[i].parsed.value))
  {
    var parsed := Scan(files).0;
    var sources := Compile(norm, t, files).sources;
    ErrorFreeScan(files);
    ScanPaths(files);
    UpsertExact(KeptSources(t, files), SourceRows(parsed));
    forall k ensures k in sources <==> HasPath(files, k) { SourceKeys(files, k); }
    forall i | 0 <= i < |files| ensures files[i].parsed.Ok? && files[i].path in sources && sources[files[i].path] == SourceOf(files[i].parsed.value) {
      assert WellParsed(files[i]);
      assert SourceRows(parsed)[i] == (parsed[i].path, SourceOf(parsed[i]));
    }
  }

  /** Every accepted page, with or without errors, is stored with its own columns, and so is its source. */
  lemma AcceptedPagesAreStored(norm: string -> string, t: Tables, files: seq<File>, i: nat)
    requires Listing(files) && i < |Scan(files).0|
    ensures
      var p, r := Scan(files).0[i], Compile(norm, t, files);
      && p.key in r.pages && p.path in r.sources
      && var row, source := r.pages[p.key], r.sources[p.path];
      && row.title == p.title && row.path == p.path && row.checksum == p.checksum && row.columns == p.columns && row.aliases == p.aliases
      && source.uri == p.uri && source.checksum == p.checksum && source.pageKey == p.key
  {
    var parsed := Scan(files).0;
    ScanPaths(files);
    UpsertRow(KeptPages(t, files), PageRows(parsed), i);
    UpsertRow(KeptSources(t, files), SourceRows(parsed), i);
  }

  /** A file is accepted exactly when it parses and no earlier file with the same key was accepted; the others give one error each. */
  lemma {:induction false} ScanMeaning(files: seq<File>, i: nat)
    requires i < |files|
    ensures
      var before := Scan(files[..i]).0;
      var accepted := files[i].parsed.Ok? && !HasKey(before, files[i].parsed.value.key);
      && Scan(files[..i + 1]).0 == before + (if accepted then [files[i].parsed.value] else [])
      && |Scan(files[..i + 1]).1| == |Scan(files[..i]).1| + (if accepted then 0 else 1)
      && (!accepted ==>
            var e := Scan(files[..i + 1]).1[|Scan(files[..i]).1|];
            && e.open && (files[i].parsed.Refused? ==> e.kind == CompileError && e.pageKey == files[i].path)
            && (files[i].parsed.Ok? ==> e.kind == DuplicateKey && e.pageKey == files[i].parsed.value.key))
  {
    assert files[..i + 1][..i] == files[..i];
  }

  lemma ErrorFreeForgets(norm: string -> string, t: Tables, t': Tables, files: seq<File>)
    requires Listing(files) && Scan(files).1 == []
    ensures Compile(norm, t, files).pages == Compile(norm, t', files).pages
    ensures Compile(norm, t, files).sources == Compile(norm, t', files).sources
  {
    var parsed := Scan(files).0;
    ScanPaths(files);
    forall k ensures Writes(PageRows(parsed), k) <==> HasKey(parsed, k) { PageKeys(parsed, k); }
    UpsertForgets(KeptPages(t, files), KeptPages(t', files), PageRows(parsed));
    forall k ensures Writes(SourceRows(parsed), k) <==> HasPath(files, k) { SourceKeys(files, k); }
    UpsertForgets(KeptSources(t, files), KeptSources(t', files), SourceRows(parsed));
  }

  /** With errors no page or source row disappears; in every case files seen = pages indexed + errors. */
  lemma ErrorsDeleteNothing(norm: string -> string, t: Tables, files: seq<File>)
    requires Listing(files)
    ensures |files| == |Scan(files).0| + |Scan(files).1|
    ensures Scan(files).1 != [] ==>
      t.pages.Keys <= Compile(norm, t, files).pages.Keys && t.sources.Keys <= Compile(norm, t, files).sources.Keys
  {
    ScanPaths(files);
    UpsertExact(t.pages, PageRows(Scan(files).0));
    UpsertExact(t.sources, SourceRows(Scan(files).0));
  }

  /** Compiling again changes no page, source or link, with or without errors. */
  lemma RecompileChangesNothing(norm: string -> string, t: Tables, files: seq<File>)
    requires Listing(files)
    ensures
      var once := Compile(norm, t, files);
      var twice := Compile(norm, once, files);
      twice.pages == once.pages && twice.sources == once.sources && twice.links == once.links
  {
    if Scan(files).1 == [] {
      ErrorFreeForgets(norm, t, Compile(norm, t, files), files);
    } else {
      ScanPaths(files);
      UpsertTwice(t.pages, PageRows(Scan(files).0));
      UpsertTwice(t.sources, SourceRows(Scan(files).0));
    }
  }

  ghost predicate CanonicalKeys(t: Tables) { forall k :: k in t.pages ==> Canonical(k) }

  /** A compile, with or without errors, stores no key that is not normalized. */
  lemma KeysStayCanonical(norm: string -> string, t: Tables, files: seq<File>)
    requires Listing(files) && CanonicalKeys(t)
    ensures CanonicalKeys(Compile(norm, t, files))
  {
    var parsed := Scan(files).0;
    UpsertExact(KeptPages(t, files), PageRows(parsed));
    ScanFrom(files);
    forall k | k in Compile(norm, t, files).pages ensures Canonical(k) {
      PageKeys(parsed, k);
      if HasKey(parsed, k) {
        var i :| 0 <= i < |parsed| && parsed[i].key == k;
        assert From(files, parsed[i]);
        var j :| 0 <= j < |files| && files[j].parsed == Ok(parsed[i]);
        assert WellParsed(files[j]);
      }
    }
  }

  /** Any number of compiles, one after the other. */
  function CompileRun(norm: string -> string, t: Tables, listings: seq<seq<File>>): Tables {
    if listings == [] then t
    else Compile(norm, CompileRun(norm, t, listings[..|listings| - 1]), listings[|listings| - 1])
  }

  lemma {:induction false} RunKeepsCanonical(norm: string -> string, t: Tables, listings: seq<seq<File>>)
    requires CanonicalKeys(t) && forall i :: 0 <= i < |listings| ==> Listing(listings[i])
    ensures CanonicalKeys(CompileRun(norm, t, listings))
  {
    if listings != [] {
      var n := |listings| - 1;
      RunKeepsCanonical(norm, t, listings[..n]);
      KeysStayCanonical(norm, CompileRun(norm, t, listings[..n]), listings[n]);
    }
  }

  /** After any sequence of compiles, whatever their errors, `read` finds every stored page by its key. */
  lemma ReadFindsEveryKey(u: Charset, t: Tables, listings: seq<seq<File>>, key: string)
    requires Sane(u) && CanonicalKeys(t) && forall i :: 0 <= i < |listings| ==> Listing(listings[i])
    ensures
      var r := CompileRun(Normalizer(u), t, listings);
      key in r.pages ==> Read(Normalizer(u), r, key) == Some(r.pages[key])
  {
    RunKeepsCanonical(Normalizer(u), t, listings);
    if key in CompileRun(Normalizer(u), t, listings).pages { CanonicalIsFixed(u, key); }
  }

  /** And it finds nothing but the row under the normalized key: two spellings read the same row exactly when they normalize alike. */
  lemma ReadSeesTheNormalForm(u: Charset, t: Tables, key: string, other: string)
    requires Sane(u) && CanonicalKeys(t) && other in t.pages
    ensures Normalize(u, key) == other ==> Read(Normalizer(u), t, key) == Some(t.pages[other])
    ensures Read(Normalizer(u), t, Normalize(u, key)) == Read(Normalizer(u), t, key)
  {
    NormalizeIdempotent(u, key);
    SameNormSameRow(Normalizer(u), t, Normalize(u, key), key);
  }

  lemma SameNormSameRow(norm: string -> string, t: Tables, a: string, b: string)
    requires norm(a) == norm(b)
    ensures Read(norm, t, a) == Read(norm, t, b)
  {}

  // ---------------------------------------------------------------- links

  lemma {:induction false} AliasesLeadTo(norm: string -> string, known: map<string, string>, aliases: seq<string>, key: string, k: string)
    requires k in AddAliases(norm, known, aliases, key)
    ensures AddAliases(norm, known, aliases, key)[k] == key || (k in known && AddAliases(norm, known, aliases, key)[k] == known[k])
  {
    if aliases != [] {
      var n := |aliases| - 1;
      if k != norm(aliases[n]) { AliasesLeadTo(norm, known, aliases[..n], key, k); }
    }
  }

  lemma {:induction false} KnownLeadsToPages(norm: string -> string, pages: seq<ParsedPage>, k: string)
    requires k in Known(norm, pages)
    ensures HasKey(pages, Known(norm, pages)[k])
  {
    var n := |pages| - 1;
    var p := pages[n];
    assert HasKey(pages, p.key);
    if k != norm(p.title) {
      var before := Known(norm, pages[..n]);
      AliasesLeadTo(norm, before[p.key := p.key], p.aliases, p.key, k);
      if Known(norm, pages)[k] != p.key {
        KnownLeadsToPages(norm, pages[..n], k);
        var i :| 0 <= i < n && pages[..n][i].key == before[k];
        assert pages[i].key == before[k];
      }
    }
  }

  /** A link row as the compiler writes it: from a compiled page, and resolved only to a compiled page. */
  ghost predicate LinkOk(pages: seq<ParsedPage>, l: Link) {
    HasKey(pages, l.src) && (l.resolved ==> HasKey(pages, l.dst)) && (!l.resolved ==> l.dst == l.target)
  }

  lemma {:induction false} LinksLead(norm: string -> string, pages: seq<ParsedPage>, n: nat)
    requires n <= |pages|
    ensures forall l :: l in LinksOf(Known(norm, pages), pages[..n]) ==> LinkOk(pages, l)
  {
    if n > 0 {
      LinksLead(norm, pages, n - 1);
      assert pages[..n][..n - 1] == pages[..n - 1];
      var known := Known(norm, pages);
      var p := pages[n - 1];
      assert HasKey(pages, p.key);
      forall l | l in LinksFrom(known, p.key, p.links) ensures LinkOk(pages, l) {
        var i :| 0 <= i < |p.links| && l == LinkOf(known, p.key, p.links[i]);
        if Resolves(known, p.links[i].0) { KnownLeadsToPages(norm, pages, p.links[i].0); }
      }
    }
  }

  /** Where the links of page i begin in the table. */
  function LinksBefore(pages: seq<ParsedPage>): nat {
    if pages == [] then 0 else LinksBefore(pages[..|pages| - 1]) + |pages[|pages| - 1].links|
  }

  lemma {:induction false} LinkTableSize(known: map<string, string>, pages: seq<ParsedPage>)
    ensures |LinksOf(known, pages)| == LinksBefore(pages)
  {
    if pages != [] { LinkTableSize(known, pages[..|pages| - 1]); }
  }

  /** The j-th link of page i: its row says where it starts, what was written, and where the name leads. */
  lemma {:induction false} LinkRow(known: map<string, string>, pages: seq<ParsedPage>, i: nat, j: nat)
    requires i < |pages| && j < |pages[i].links|
    ensures
      var n := LinksBefore(pages[..i]) + j;
      && n < |LinksOf(known, pages)|
      && var l, (target, anchor) := LinksOf(known, pages)[n], pages[i].links[j];
      && l.src == pages[i].key && l.target == target && l.anchor == anchor
      && (l.resolved <==> target in known && known[target] != "")
      && l.dst == if l.resolved then known[target] else target
  {
    var last := |pages| - 1;
    LinkTableSize(known, pages[..last]);
    if i < last {
      LinkRow(known, pages[..last], i, j);
      assert pages[..last][..i] == pages[..i];
    }
  }

  /** The dangling entry of an unresolved link names its page, its target and its anchor. */
  lemma DanglingEntryMeaning(l: Link)
    ensures
      var e := DanglingEntry(l);
      e.kind == DanglingLink && e.pageKey == l.src && e.detail == l.target && e.anchor == l.anchor && e.open
  {}

  /** Closing: exactly the open entries of the three compile kinds become fixed; nothing else about any entry changes. */
  lemma ClosedMeaning(errors: seq<Entry>, i: nat)
    requires i < |errors|
    ensures
      var e, e' := errors[i], CloseOld(errors)[i];
      && e' == e.(open := e'.open)
      && (e'.open <==> e.open && e.kind != DanglingLink && e.kind != CompileError && e.kind != DuplicateKey)
  {}

  function OpenDangling(errors: seq<Entry>): seq<Entry> {
    if errors == [] then []
    else
      var n := |errors| - 1;
      OpenDangling(errors[..n]) + (if errors[n].open && errors[n].kind == DanglingLink then [errors[n]] else [])
  }

  lemma {:induction false} OpenDanglingConcat(a: seq<Entry>, b: seq<Entry>)
    ensures OpenDangling(a + b) == OpenDangling(a) + OpenDangling(b)
  {
    if b == [] {
      assert a + b == a;
    } else {
      var n := |b| - 1;
      assert (a + b)[..|a| + n] == a + b[..n];
      OpenDanglingConcat(a, b[..n]);
    }
  }

  lemma {:induction false} NoneOpen(errors: seq<Entry>)
    requires forall i :: 0 <= i < |errors| ==> !(errors[i].open && errors[i].kind == DanglingLink)
    ensures OpenDangling(errors) == []
  {
    if errors != [] { NoneOpen(errors[..|errors| - 1]); }
  }

  lemma {:induction false} AllOpen(links: seq<Link>)
    ensures OpenDangling(Dangling(links)) == Dangling(links)
  {
    if links != [] {
      var n := |links| - 1;
      AllOpen(links[..n]);
      var before, entry := Dangling(links[..n]), DanglingEntry(links[n]);
      if links[n].resolved {
        assert Dangling(links) == before;
      } else {
        assert (before + [entry])[..|before|] == before;
      }
    }
  }

  /** After any compile every link starts at a stored page, and resolved ones end at one. */
  lemma LinksPointAtPages(norm: string -> string, t: Tables, files: seq<File>, l: Link)
    requires l in Compile(norm, t, files).links
    ensures l.src in Compile(norm, t, files).pages
    ensures l.resolved ==> l.dst in Compile(norm, t, files).pages
  {
    var parsed := Scan(files).0;
    LinksLead(norm, parsed, |parsed|);
    assert parsed[..|parsed|] == parsed;
    UpsertExact(KeptPages(t, files), PageRows(parsed));
    PageKeys(parsed, l.src);
    PageKeys(parsed, l.dst);
  }

  /** Open dangling-link entries are the unresolved links, one for one and in order. */
  lemma DanglingMatchesUnresolved(norm: string -> string, t: Tables, files: seq<File>)
    ensures OpenDangling(Compile(norm, t, files).errors) == Dangling(Compile(norm, t, files).links)
  {
    var links, errors := CompiledLinks(norm, files), Scan(files).1;
    var old' := CloseOld(t.errors);
    OpenDanglingConcat(old' + errors, Dangling(links));
    OpenDanglingConcat(old', errors);
    NoneOpen(old');
    NoneOpen(errors);
    AllOpen(links);
    assert [] + [] + Dangling(links) == Dangling(links);
  }

  // ---------------------------------------------------------------- who owns a name

  predicate AliasNames(norm: string -> string, aliases: seq<string>, k: string) {
    exists i :: 0 <= i < |aliases| && norm(aliases[i]) == k
  }

  /** The page can be linked under the name by its title or an alias. */
  predicate Names(norm: string -> string, p: ParsedPage, k: string) { norm(p.title) == k || AliasNames(norm, p.aliases, k) }

  predicate Claims(norm: string -> string, p: ParsedPage, k: string) { p.key == k || Names(norm, p, k) }

  lemma AliasNamesSnoc(norm: string -> string, aliases: seq<string>, last: string, k: string)
    ensures AliasNames(norm, aliases + [last], k) <==> AliasNames(norm, aliases, k) || norm(last) == k
  {
    var all := aliases + [last];
    assert all[|aliases|] == last;
    if AliasNames(norm, aliases, k) {
      var i :| 0 <= i < |aliases| && norm(aliases[i]) == k;
      assert all[i] == aliases[i];
    }
  }

  lemma {:induction false} AliasesClaim(norm: string -> string, known: map<string, string>, aliases: seq<string>, key: string, k: string)
    ensures
      var r := AddAliases(norm, known, aliases, key);
      if AliasNames(norm, aliases, k) then k in r && r[k] == key
      else (k in r <==> k in known) && (k in known ==> r[k] == known[k])
  {
    if aliases != [] {
      var n := |aliases| - 1;
      AliasesClaim(norm, known, aliases[..n], key, k);
      assert aliases == aliases[..n] + [aliases[n]];
      AliasNamesSnoc(norm, aliases[..n], aliases[n], k);
    }
  }

  /** What one more page does to a name. */
  lemma KnownStep(norm: string -> string, pages: seq<ParsedPage>, k: string)
    requires pages != []
    ensures
      var p, before, after := pages[|pages| - 1], Known(norm, pages[..|pages| - 1]), Known(norm, pages);
      if Claims(norm, p, k) then k in after && after[k] == p.key
      else (k in after <==> k in before) && (k in before ==> after[k] == before[k])
  {
    var p, before := pages[|pages| - 1], Known(norm, pages[..|pages| - 1]);
    AliasesClaim(norm, before[p.key := p.key], p.aliases, p.key, k);
  }

  /** A name leads to the last page that claims it by key, alias or title. */
  lemma {:induction false} LastClaimWins(norm: string -> string, pages: seq<ParsedPage>, k: string, i: nat)
    requires i < |pages| && Claims(norm, pages[i], k) && forall j :: i < j < |pages| ==> !Claims(norm, pages[j], k)
    ensures k in Known(norm, pages) && Known(norm, pages)[k] == pages[i].key
  {
    KnownStep(norm, pages, k);
    var n := |pages| - 1;
    if i < n { LastClaimWins(norm, pages[..n], k, i); }
  }

  lemma {:induction false} NoClaimNoName(norm: string -> string, pages: seq<ParsedPage>, k: string)
    requires forall j :: 0 <= j < |pages| ==> !Claims(norm, pages[j], k)
    ensures k !in Known(norm, pages)
  {
    if pages != [] {
      KnownStep(norm, pages, k);
      NoClaimNoName(norm, pages[..|pages| - 1], k);
    }
  }

  lemma {:induction false} LastClaim(norm: string -> string, pages: seq<ParsedPage>, k: string, i: nat) returns (l: nat)
    requires i < |pages| && Claims(norm, pages[i], k)
    ensures i <= l < |pages| && Claims(norm, pages[l], k) && forall j :: l < j < |pages| ==> !Claims(norm, pages[j], k)
    decreases |pages| - i
  {
    if next :| i < next < |pages| && Claims(norm, pages[next], k) {
      l := LastClaim(norm, pages, k, next);
    } else {
      l := i;
    }
  }

  /** A page keeps its own key exactly when no later page has a title or alias that normalizes to it. */
  lemma KeyStaysIff(norm: string -> string, pages: seq<ParsedPage>, i: nat)
    requires i < |pages| && forall j, l :: 0 <= j < l < |pages| ==> pages[j].key != pages[l].key
    ensures pages[i].key in Known(norm, pages)
    ensures Known(norm, pages)[pages[i].key] == pages[i].key <==> forall j :: i < j < |pages| ==> !Names(norm, pages[j], pages[i].key)
  {
    var k := pages[i].key;
    var l := LastClaim(norm, pages, k, i);
    LastClaimWins(norm, pages, k, l);
    if l == i {
      forall j | i < j < |pages| ensures !Names(norm, pages[j], k) { assert !Claims(norm, pages[j], k); }
    } else {
      assert pages[i].key != pages[l].key;
    }
  }

  /** After a compile, a link to a page's key arrives at that page exactly under the same condition. */
  lemma LinkArrivesIff(norm: string -> string, files: seq<File>, i: nat, src: string, anchor: string)
    requires i < |Scan(files).0| && Scan(files).0[i].key != ""
    ensures
      var parsed := Scan(files).0;
      var l := LinkOf(Known(norm, parsed), src, (parsed[i].key, anchor));
      (l.resolved && l.dst == parsed[i].key) <==> forall j :: i < j < |parsed| ==> !Names(norm, parsed[j], parsed[i].key)
  {
    KeyStaysIff(norm, Scan(files).0, i);
  }

  lemma ScanTwo(a: ParsedPage, b: ParsedPage)
    requires a.key != b.key
    ensures Scan([File(a.path, Ok(a)), File(b.path, Ok(b))]) == ([a, b], [])
  {
    var f, g := File(a.path, Ok(a)), File(b.path, Ok(b));
    assert [f, g][..1] == [f];
    assert Scan([f]) == ([a], []) by {
      assert [f][..0] == [];
      assert Scan([]) == ([], []);
      assert !HasKey([], a.key);
      assert [] + [a] == [a];
    }
    assert [a] + [b] == [a, b];
  }

  lemma LinksOfTwo(known: map<string, string>, a: ParsedPage, b: ParsedPage, link: (string, string))
    requires a.links == [] && b.links == [link]
    ensures LinksOf(known, [a, b]) == [LinkOf(known, b.key, link)]
  {
    assert [a, b][..1] == [a] && [a][..0] == [];
    assert LinksOf(known, [a]) == LinksFrom(known, a.key, a.links) == [];
    assert LinksFrom(known, b.key, b.links) == [LinkOf(known, b.key, link)];
  }

  const FIRST := ParsedPage("a", "First", "a.md", "", "", "", [], [])

  const SECOND := ParsedPage("b", "Second", "b.md", "", "", "", ["a"], [("a", "see")])

  lemma TwoFilesAreAListing()
    ensures Listing([File("a.md", Ok(FIRST)), File("b.md", Ok(SECOND))])
  {
    assert Canonical("a") && Canonical("b");
  }

  /** Two pages: the second has the first one's key as an alias, and its link to that key arrives at itself. */
  lemma AliasTakesOverAKey(norm: string -> string)
    requires forall s :: Canonical(s) ==> norm(s) == s
    ensures
      var files := [File("a.md", Ok(FIRST)), File("b.md", Ok(SECOND))];
      var r := Compile(norm, Tables(map[], map[], [], []), files);
      Listing(files) && "a" in r.pages && r.links == [Link("b", "b", true, "see", "a")]
  {
    var files := [File("a.md", Ok(FIRST)), File("b.md", Ok(SECOND))];
    TwoFilesAreAListing();
    ScanTwo(FIRST, SECOND);
    var pages := [FIRST, SECOND];
    assert Names(norm, SECOND, "a") by {
      assert Canonical("a");
      assert norm(SECOND.aliases[0]) == "a";
    }
    LastClaimWins(norm, pages, "a", 1);
    LinksOfTwo(Known(norm, pages), FIRST, SECOND, ("a", "see"));
    assert PageRows(pages)[0].0 == "a";
    UpsertExact(KeptPages(Tables(map[], map[], [], []), files), PageRows(pages));
  }
}
