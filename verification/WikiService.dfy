/** The compiler as it runs, table by table, and the link counts the search ranking uses. */
module WikiServices {
  import opened Common
  import opened Wiki

  // ---------------------------------------------------------------- counting links

  function Bump(l: Link, key: string, inbound: bool): nat {
    if l.resolved && (if inbound then l.dst else l.src) == key then 1 else 0
  }

  /** Resolved links into or out of a page. */
  function Count(links: seq<Link>, key: string, inbound: bool): nat {
    if links == [] then 0
    else Count(links[..|links| - 1], key, inbound) + Bump(links[|links| - 1], key, inbound)
  }

  function ResolvedCount(links: seq<Link>): nat {
    if links == [] then 0
    else ResolvedCount(links[..|links| - 1]) + (if links[|links| - 1].resolved then 1 else 0)
  }

  ghost function Pick(keys: set<string>): (k: string)
    requires keys != {}
    ensures k in keys
  {
    var k :| k in keys; k
  }

  ghost function Total(keys: set<string>, links: seq<Link>, inbound: bool): nat {
    if keys == {} then 0
    else Count(links, Pick(keys), inbound) + Total(keys - {Pick(keys)}, links, inbound)
  }

  lemma {:induction false} TotalSnoc(keys: set<string>, links: seq<Link>, l: Link, inbound: bool)
    ensures Total(keys, links + [l], inbound)
         == Total(keys, links, inbound) + (if l.resolved && (if inbound then l.dst else l.src) in keys then 1 else 0)
  {
    assert (links + [l])[..|links|] == links;
    if keys != {} {
      TotalSnoc(keys - {Pick(keys)}, links, l, inbound);
    }
  }

  lemma {:induction false} TotalOfNone(keys: set<string>, inbound: bool)
    ensures Total(keys, [], inbound) == 0
  {
    if keys != {} {
      TotalOfNone(keys - {Pick(keys)}, inbound);
    }
  }

  /** Over any set of pages that covers the links, inbound and outbound totals are the number of resolved links. */
  lemma {:induction false} TotalsAgree(keys: set<string>, links: seq<Link>, inbound: bool)
    requires forall l :: l in links && l.resolved ==> l.src in keys && l.dst in keys
    ensures Total(keys, links, inbound) == ResolvedCount(links)
  {
    if links == [] {
      TotalOfNone(keys, inbound);
    } else {
      var n := |links| - 1;
      TotalsAgree(keys, links[..n], inbound);
      TotalSnoc(keys, links[..n], links[n], inbound);
      assert links[..n] + [links[n]] == links;
      assert links[n] in links;
    }
  }

  /** After any compile, over the stored pages. */
  lemma CompiledTotalsAgree(norm: string -> string, t: Tables, files: seq<File>, inbound: bool)
    ensures
      var r := Compile(norm, t, files);
      Total(r.pages.Keys, r.links, inbound) == ResolvedCount(r.links)
  {
    var r := Compile(norm, t, files);
    forall l | l in r.links && l.resolved ensures l.src in r.pages.Keys && l.dst in r.pages.Keys {
      LinksPointAtPages(norm, t, files, l);
    }
    TotalsAgree(r.pages.Keys, r.links, inbound);
  }

  // ---------------------------------------------------------------- the service

  class WikiService {
    var pages: map<string, PageRow>
    var sources: map<string, SourceRow>
    var links: seq<Link>
    var errors: seq<Entry>

    ghost function Model(): Tables
      reads this
    {
      Tables(pages, sources, links, errors)
    }

    constructor (t: Tables)
      ensures Model() == t
    {
      pages, sources, links, errors := t.pages, t.sources, t.links, t.errors;
    }

    method ScanFiles(files: seq<File>) returns (parsed: seq<ParsedPage>, found: seq<Entry>)
      ensures (parsed, found) == Scan(files)
    {
      parsed, found := [], [];
      var seen: set<string> := {};
      for n := 0 to |files|
        invariant (parsed, found) == Scan(files[..n])
        invariant forall k :: k in seen <==> HasKey(parsed, k)
      {
        assert files[..n + 1][..n] == files[..n];
        if files[n].parsed.Refused? {
          found := found + [Entry(CompileError, files[n].path, files[n].parsed.reason, "", true)];
        } else {
          var page := files[n].parsed.value;
          if page.key in seen {
            found := found + [Entry(DuplicateKey, page.key, files[n].path, "", true)];
          } else {
            GrowKeys(parsed, page);
            seen := seen + {page.key};
            parsed := parsed + [page];
          }
        }
      }
      assert files[..|files|] == files;
    }

    method BuildKnown(norm: string -> string, parsed: seq<ParsedPage>) returns (known: map<string, string>)
      ensures known == Known(norm, parsed)
    {
      known := map[];
      for n := 0 to |parsed|
        invariant known == Known(norm, parsed[..n])
      {
        assert parsed[..n + 1][..n] == parsed[..n];
        var page := parsed[n];
        known := known[page.key := page.key];
        ghost var base := known;
        for m := 0 to |page.aliases|
          invariant known == AddAliases(norm, base, page.aliases[..m], page.key)
        {
          assert page.aliases[..m + 1][..m] == page.aliases[..m];
          known := known[norm(page.aliases[m]) := page.key];
        }
        assert page.aliases[..|page.aliases|] == page.aliases;
        known := known[norm(page.title) := page.key];
      }
      assert parsed[..|parsed|] == parsed;
    }

    method CloseOldErrors()
      modifies this`errors
      ensures errors == CloseOld(old(errors))
    {
      for n := 0 to |errors|
        invariant |errors| == |old(errors)|
        invariant forall k :: 0 <= k < n ==> errors[k] == CloseOld(old(errors))[k]
        invariant forall k :: n <= k < |errors| ==> errors[k] == old(errors)[k]
      {
        if Recompiled(errors[n].kind) && errors[n].open {
          errors := errors[n := errors[n].(open := false)];
        }
      }
    }

    /** Adds one link row, and a dangling entry when its name leads to no page. */
    method AddLink(known: map<string, string>, src: string, target: string, anchor: string)
      modifies this`links, this`errors
      ensures links == old(links) + [LinkOf(known, src, (target, anchor))]
      ensures errors == old(errors) + DanglingOf(LinkOf(known, src, (target, anchor)))
    {
      if target in known && known[target] != "" {
        links := links + [Link(src, known[target], true, anchor, target)];
      } else {
        links := links + [Link(src, target, false, anchor, target)];
        errors := errors + [Entry(DanglingLink, src, target, anchor, true)];
      }
    }

    method AddLinks(known: map<string, string>, page: ParsedPage, ghost base: seq<Entry>)
      requires errors == base + Dangling(links)
      modifies this`links, this`errors
      ensures links == old(links) + LinksFrom(known, page.key, page.links)
      ensures errors == base + Dangling(links)
    {
      ghost var start, rows := links, LinksFrom(known, page.key, page.links);
      for m := 0 to |page.links|
        invariant links == start + rows[..m]
        invariant errors == base + Dangling(links)
      {
        LinksGrow(start, rows, m);
        DanglingGrows(base, links, rows[m]);
        AddLink(known, page.key, page.links[m].0, page.links[m].1);
      }
      assert rows[..|rows|] == rows;
    }

    method WritePages(known: map<string, string>, parsed: seq<ParsedPage>)
      requires links == []
      modifies this
      ensures pages == Upsert(old(pages), PageRows(parsed))
      ensures sources == Upsert(old(sources), SourceRows(parsed))
      ensures links == LinksOf(known, parsed)
      ensures errors == old(errors) + Dangling(links)
    {
      ghost var base := errors;
      for n := 0 to |parsed|
        invariant pages == Upsert(old(pages), PageRows(parsed)[..n])
        invariant sources == Upsert(old(sources), SourceRows(parsed)[..n])
        invariant links == LinksOf(known, parsed[..n])
        invariant errors == base + Dangling(links)
      {
        var page := parsed[n];
        RowsGrow(parsed, n, old(pages), old(sources));
        LinksOfNext(known, parsed, n);
        sources := sources[page.path := SourceOf(page)];
        pages := pages[page.key := RowOf(page)];
        AddLinks(known, page, base);
      }
      assert PageRows(parsed)[..|parsed|] == PageRows(parsed) && SourceRows(parsed)[..|parsed|] == SourceRows(parsed);
      assert parsed[..|parsed|] == parsed;
    }

    /** `compile`: the tables become the compiled ones, and every file is accounted for. */
    method CompileAll(norm: string -> string, files: seq<File>) returns (ok: bool, seen: nat, indexed: nat, failed: nat)
      modifies this
      ensures Model() == Compile(norm, old(Model()), files)
      ensures seen == |files| && seen == indexed + failed && (ok <==> failed == 0)
      ensures indexed == |Scan(files).0|
    {
      var parsed, found := ScanFiles(files);
      var known := BuildKnown(norm, parsed);
      links := [];
      CloseOldErrors();
      errors := errors + found;
      if found == [] {
        pages := map k | k in pages && HasKey(parsed, k) :: pages[k];
        sources := map k | k in sources && HasPath(files, k) :: sources[k];
      }
      WritePages(known, parsed);
      ok, seen, indexed, failed := found == [], |files|, |parsed|, |found|;
    }

    method ReadPage(norm: string -> string, key: string) returns (row: Option<PageRow>)
      ensures row == Read(norm, Model(), key)
    {
      var k := norm(key);
      row := if k in pages then Some(pages[k]) else None;
    }

    /** `_link_counts`. */
    method LinkCounts() returns (counts: map<string, (nat, nat)>)
      ensures counts == CountsOf(links)
    {
      counts := map[];
      for n := 0 to |links|
        invariant counts == CountsOf(links[..n])
      {
        assert links[..n + 1][..n] == links[..n];
        if links[n].resolved {
          counts := Incremented(counts, links[n].dst, 1, 0);
          counts := Incremented(counts, links[n].src, 0, 1);
        }
      }
      assert links[..|links|] == links;
    }
  }

  /** The dictionary after all links: each resolved one adds to its target and to its source. */
  function CountsOf(links: seq<Link>): map<string, (nat, nat)> {
    if links == [] then map[]
    else
      var l := links[|links| - 1];
      var before := CountsOf(links[..|links| - 1]);
      if l.resolved then Incremented(Incremented(before, l.dst, 1, 0), l.src, 0, 1) else before
  }

  /** A page has an entry exactly when a resolved link touches it, and the entry holds its two counts. */
  lemma {:induction false} CountsAreExact(links: seq<Link>, k: string)
    ensures k in CountsOf(links) <==> Count(links, k, true) + Count(links, k, false) > 0
    ensures k in CountsOf(links) ==> CountsOf(links)[k] == (Count(links, k, true), Count(links, k, false))
  {
    if links != [] { CountsAreExact(links[..|links| - 1], k); }
  }

  function DanglingOf(l: Link): seq<Entry> { if l.resolved then [] else [DanglingEntry(l)] }

  lemma DanglingGrows(base: seq<Entry>, links: seq<Link>, l: Link)
    ensures base + Dangling(links + [l]) == base + Dangling(links) + DanglingOf(l)
  {
    assert (links + [l])[..|links|] == links;
  }

  lemma LinksGrow(start: seq<Link>, rows: seq<Link>, m: nat)
    requires m < |rows|
    ensures start + rows[..m + 1] == start + rows[..m] + [rows[m]]
  {}

  /** The tables after one more page. */
  lemma RowsGrow(parsed: seq<ParsedPage>, n: nat, pages: map<string, PageRow>, sources: map<string, SourceRow>)
    requires n < |parsed|
    ensures Upsert(pages, PageRows(parsed)[..n + 1]) == Upsert(pages, PageRows(parsed)[..n])[parsed[n].key := RowOf(parsed[n])]
    ensures Upsert(sources, SourceRows(parsed)[..n + 1]) == Upsert(sources, SourceRows(parsed)[..n])[parsed[n].path := SourceOf(parsed[n])]
  {
    assert PageRows(parsed)[..n + 1][..n] == PageRows(parsed)[..n];
    assert SourceRows(parsed)[..n + 1][..n] == SourceRows(parsed)[..n];
  }

  lemma LinksOfNext(known: map<string, string>, parsed: seq<ParsedPage>, n: nat)
    requires n < |parsed|
    ensures LinksOf(known, parsed[..n + 1]) == LinksOf(known, parsed[..n]) + LinksFrom(known, parsed[n].key, parsed[n].links)
  {
    assert parsed[..n + 1][..n] == parsed[..n];
  }

  function Incremented(counts: map<string, (nat, nat)>, k: string, ins: nat, outs: nat): map<string, (nat, nat)> {
    var (a, b) := if k in counts then counts[k] else (0, 0);
    counts[k := (a + ins, b + outs)]
  }

  lemma GrowKeys(parsed: seq<ParsedPage>, page: ParsedPage)
    ensures forall k :: HasKey(parsed + [page], k) <==> HasKey(parsed, k) || k == page.key
  {
    var all := parsed + [page];
    forall k ensures HasKey(all, k) <==> HasKey(parsed, k) || k == page.key {
      if HasKey(parsed, k) {
        var i :| 0 <= i < |parsed| && parsed[i].key == k;
        assert all[i].key == k;
      }
      assert all[|parsed|].key == page.key;
    }
  }
}
