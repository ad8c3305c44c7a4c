/** Rows whose text lines a shared file carries: what reading the file back does, whatever the rows are. */
module MirroredRows {
  import opened Common
  import opened MarkedLines

  /** How a row prints, how a line updates it, and what one read of its own line makes of it. */
  datatype Format<!Row(!new)> = Format(k: Tools, clean: Row -> bool, show: Row -> string, read: (Row, string) -> Row, settled: Row -> Row)

  /** The line carries the row: reading it settles the row, and reading it again changes nothing. */
  ghost predicate Tells<Row(!new)>(f: Format<Row>, line: string, m: Row) {
    && f.read(m, line) == f.settled(m)
    && f.read(f.settled(m), line) == f.settled(m)
    && f.settled(f.settled(m)) == f.settled(m)
  }

  ghost predicate ReadTrims<Row(!new)>(f: Format<Row>, m: Row, line: string) { f.read(m, f.k.trim(line)) == f.read(m, line) }

  /** A clean row's line carries it. */
  ghost predicate ShowTells<Row(!new)>(f: Format<Row>, m: Row) {
    f.clean(m) ==> f.k.split(f.show(m)) == [f.show(m)] && Plain(f.k, f.k.trim(f.show(m))) && Tells(f, f.k.trim(f.show(m)), m) && f.clean(f.settled(m))
  }

  ghost predicate Faithful<Row(!new)>(f: Format<Row>) {
    && Good(f.k)
    && (forall m, line :: ReadTrims(f, m, line))
    && (forall m :: f.read(m, "") == m)
    && (forall m :: ShowTells(f, m))
  }

  /** The file mirrors lines that carry the rows. */
  ghost predicate AgreesBy<Row(!new)>(f: Format<Row>, lines: seq<string>, rows: map<Id, Row>, want: map<Id, string>) {
    && want.Keys == rows.Keys
    && (forall id :: id in rows ==> f.clean(rows[id]) && Tells(f, want[id], rows[id]))
    && Mirrors(f.k, Trims(f.k, lines), want)
  }

  ghost predicate Agrees<Row(!new)>(f: Format<Row>, lines: seq<string>, rows: map<Id, Row>) {
    exists want :: AgreesBy(f, lines, rows, want)
  }

  // ---------------------------------------------------------------- writing

  /** Changing one row together with its mirrored line. */
  lemma PutAgrees<Row(!new)>(f: Format<Row>, lines: seq<string>, rows: map<Id, Row>, want: map<Id, string>, id: Id, m: Row, line: string)
    requires want.Keys == rows.Keys && (forall id :: id in rows ==> f.clean(rows[id]) && Tells(f, want[id], rows[id]))
    requires f.clean(m) && Tells(f, line, m) && Mirrors(f.k, Trims(f.k, lines), want[id := line])
    ensures Agrees(f, lines, rows[id := m])
  {
    var rows', want' := rows[id := m], want[id := line];
    forall i | i in rows' ensures f.clean(rows'[i]) && Tells(f, want'[i], rows'[i]) {
      if i != id { assert f.clean(rows[i]) && Tells(f, want[i], rows[i]); }
    }
    assert want'.Keys == rows'.Keys;
    assert AgreesBy(f, lines, rows', want');
  }

  lemma AddAgrees<Row(!new)>(f: Format<Row>, lines: seq<string>, rows: map<Id, Row>, id: Id, m: Row)
    requires Faithful(f) && Agrees(f, lines, rows) && f.k.isId(id) && Unseen(f.k, lines, id) && f.clean(m)
    ensures Agrees(f, Added(f.k, lines, id, f.show(m)), rows[id := m])
  {
    var want :| AgreesBy(f, lines, rows, want);
    assert ShowTells(f, m);
    var lines' := Added(f.k, lines, id, f.show(m));
    assert Mirrors(f.k, Trims(f.k, lines'), want[id := f.k.trim(f.show(m))]) by { AddKeeps(f.k, lines, want, id, f.show(m)); }
    PutAgrees(f, lines', rows, want, id, m, f.k.trim(f.show(m)));
  }

  lemma RewriteAgrees<Row(!new)>(f: Format<Row>, lines: seq<string>, rows: map<Id, Row>, id: Id, m: Row)
    requires Faithful(f) && Agrees(f, lines, rows) && id in rows && f.clean(m)
    ensures Agrees(f, Rewritten(f.k, lines, id, f.show(m)), rows[id := m])
  {
    var want :| AgreesBy(f, lines, rows, want);
    assert ShowTells(f, m);
    var lines' := Rewritten(f.k, lines, id, f.show(m));
    assert Mirrors(f.k, Trims(f.k, lines'), want[id := f.k.trim(f.show(m))]) by { RewriteKeeps(f.k, lines, want, id, f.show(m)); }
    PutAgrees(f, lines', rows, want, id, m, f.k.trim(f.show(m)));
  }

  // ---------------------------------------------------------------- reading

  /** What the entry announced by line p does to a row. */
  function ReadAt<Row(!new)>(f: Format<Row>, lines: seq<string>, p: nat, m: Row): Row {
    if p + 1 < |lines| then f.read(m, lines[p + 1]) else m
  }

  function MarkAt<Row(!new)>(f: Format<Row>, lines: seq<string>, p: nat): Option<Id>
    requires p < |lines|
  {
    f.k.marker(f.k.trim(lines[p]))
  }

  /** The rows after the first n lines were read. */
  function SyncTo<Row(!new)>(f: Format<Row>, lines: seq<string>, n: nat, rows: map<Id, Row>): map<Id, Row>
    requires n <= |lines|
  {
    if n == 0 then rows
    else
      var before := SyncTo(f, lines, n - 1, rows);
      var id := MarkAt(f, lines, n - 1);
      if id.Some? && id.value in before then before[id.value := ReadAt(f, lines, n - 1, before[id.value])] else before
  }

  ghost predicate Announced<Row(!new)>(f: Format<Row>, lines: seq<string>, n: nat, id: Id)
    requires n <= |lines|
  {
    exists p :: 0 <= p < n && MarkAt(f, lines, p) == Some(id)
  }

  /** In an agreeing file an announced row's entry settles it, and no earlier line announces the row. */
  lemma EntryTells<Row(!new)>(f: Format<Row>, lines: seq<string>, rows: map<Id, Row>, want: map<Id, string>, p: nat, id: Id)
    requires Faithful(f) && AgreesBy(f, lines, rows, want) && p < |lines| && MarkAt(f, lines, p) == Some(id) && id in rows
    ensures ReadAt(f, lines, p, rows[id]) == f.settled(rows[id]) && !Announced(f, lines, p, id)
  {
    var t := Trims(f.k, lines);
    assert Marks(f.k, t, p, want) && EntryAt(f.k, t, p, want);
    assert ReadTrims(f, rows[id], lines[p + 1]);
    forall q | 0 <= q < p ensures MarkAt(f, lines, q) != Some(id) {
      assert f.k.marker(t[q]) == MarkAt(f, lines, q);
    }
  }

  lemma {:induction false} SyncKeys<Row(!new)>(f: Format<Row>, lines: seq<string>, n: nat, rows: map<Id, Row>)
    requires n <= |lines|
    ensures SyncTo(f, lines, n, rows).Keys == rows.Keys
  {
    if n > 0 { SyncKeys(f, lines, n - 1, rows); }
  }

  lemma {:induction false} SyncOne<Row(!new)>(f: Format<Row>, lines: seq<string>, n: nat, rows: map<Id, Row>, want: map<Id, string>, id: Id)
    requires Faithful(f) && AgreesBy(f, lines, rows, want) && n <= |lines| && id in rows
    ensures id in SyncTo(f, lines, n, rows)
    ensures SyncTo(f, lines, n, rows)[id] == if Announced(f, lines, n, id) then f.settled(rows[id]) else rows[id]
  {
    if n > 0 {
      SyncOne(f, lines, n - 1, rows, want, id);
      AnnouncedNext(f, lines, n, id);
      if MarkAt(f, lines, n - 1) == Some(id) { EntryTells(f, lines, rows, want, n - 1, id); }
    }
  }

  /** Reading the first n lines settles the rows announced there and leaves the others. */
  lemma SyncSettles<Row(!new)>(f: Format<Row>, lines: seq<string>, n: nat, rows: map<Id, Row>)
    requires Faithful(f) && Agrees(f, lines, rows) && n <= |lines|
    ensures
      var after := SyncTo(f, lines, n, rows);
      && after.Keys == rows.Keys
      && forall id :: id in rows ==> after[id] == if Announced(f, lines, n, id) then f.settled(rows[id]) else rows[id]
  {
    var want :| AgreesBy(f, lines, rows, want);
    SyncKeys(f, lines, n, rows);
    forall id | id in rows
      ensures SyncTo(f, lines, n, rows)[id] == if Announced(f, lines, n, id) then f.settled(rows[id]) else rows[id]
    {
      SyncOne(f, lines, n, rows, want, id);
    }
  }

  lemma AnnouncedNext<Row(!new)>(f: Format<Row>, lines: seq<string>, n: nat, id: Id)
    requires 0 < n <= |lines|
    ensures Announced(f, lines, n, id) <==> Announced(f, lines, n - 1, id) || MarkAt(f, lines, n - 1) == Some(id)
  {
    if Announced(f, lines, n, id) {
      var p :| 0 <= p < n && MarkAt(f, lines, p) == Some(id);
    }
  }

  /** A sync keeps the agreement, so that it may happen at any point of a run. */
  lemma SyncAgrees<Row(!new)>(f: Format<Row>, lines: seq<string>, rows: map<Id, Row>)
    requires Faithful(f) && Agrees(f, lines, rows)
    ensures Agrees(f, lines, SyncTo(f, lines, |lines|, rows))
  {
    var want :| AgreesBy(f, lines, rows, want);
    var after := SyncTo(f, lines, |lines|, rows);
    SyncSettles(f, lines, |lines|, rows);
    forall id | id in after ensures f.clean(after[id]) && Tells(f, want[id], after[id]) {
      assert ShowTells(f, rows[id]);
    }
    assert AgreesBy(f, lines, after, want);
  }

  /** A second sync changes nothing. */
  lemma SyncTwice<Row(!new)>(f: Format<Row>, lines: seq<string>, rows: map<Id, Row>)
    requires Faithful(f) && Agrees(f, lines, rows)
    ensures
      var after := SyncTo(f, lines, |lines|, rows);
      SyncTo(f, lines, |lines|, after) == after
  {
    var after := SyncTo(f, lines, |lines|, rows);
    SyncSettles(f, lines, |lines|, rows);
    SyncAgrees(f, lines, rows);
    SyncSettles(f, lines, |lines|, after);
    forall id | id in rows ensures f.settled(f.settled(rows[id])) == f.settled(rows[id]) {
      assert ShowTells(f, rows[id]);
    }
  }

  /**
   In any file and for any new text, rewriting one entry leaves what every other entry says; only a marker right under
   the rewritten one is lost.
   */
  lemma RewriteLeavesOthers<Row(!new)>(f: Format<Row>, lines: seq<string>, id: Id, line: string, q: nat, m: Row)
    requires Faithful(f) && q < |lines| && f.k.isId(id) && FindMarker(f.k, lines, id) < |lines|
    requires MarkAt(f, lines, q).Some? && MarkAt(f, lines, q) != Some(id) && q != FindMarker(f.k, lines, id) + 1
    ensures
      var after, q' := Rewritten(f.k, lines, id, line), Moved(f.k, lines, id, line, q);
      0 <= q' < |after| && MarkAt(f, after, q') == MarkAt(f, lines, q) && ReadAt(f, after, q', m) == ReadAt(f, lines, q, m)
  {
    var p, after := FindMarker(f.k, lines, id), Rewritten(f.k, lines, id, line);
    assert q != p;
    RewriteTouchesOneLine(f.k, lines, id, line, q);
    if q + 1 < |lines| {
      RewriteTouchesOneLine(f.k, lines, id, line, q + 1);
      var next := Moved(f.k, lines, id, line, q + 1);
      assert ReadTrims(f, m, lines[q + 1]);
      if next < |after| { assert ReadTrims(f, m, after[next]); }
    } else {
      RewriteGrowsOnlyAtMarker(f.k, lines, id, line);
    }
  }

  // ---------------------------------------------------------------- every row stays in the file

  ghost predicate AllAnnounced<Row(!new)>(f: Format<Row>, lines: seq<string>, rows: map<Id, Row>) {
    forall id :: id in rows ==> Announced(f, lines, |lines|, id)
  }

  /** Creating an entry announces its row and keeps every other announcement. */
  lemma AddAnnounces<Row(!new)>(f: Format<Row>, lines: seq<string>, rows: map<Id, Row>, id: Id, m: Row)
    requires Faithful(f) && f.k.isId(id) && !MarkerInText(f.k, lines, id) && AllAnnounced(f, lines, rows)
    ensures AllAnnounced(f, Added(f.k, lines, id, f.show(m)), rows[id := m])
  {
    var after := Added(f.k, lines, id, f.show(m));
    forall i | i in rows[id := m] ensures Announced(f, after, |after|, i) {
      if i == id {
        AppendEnds(f.k, lines, id, f.show(m));
        assert MarkAt(f, after, |after| - |f.k.split(f.show(m))| - 1) == Some(id);
      } else {
        var p :| 0 <= p < |lines| && MarkAt(f, lines, p) == Some(i);
        AppendTouchesNothing(f.k, lines, id, f.show(m), p);
        assert MarkAt(f, after, p) == Some(i);
      }
    }
  }

  lemma MarkerStays<Row(!new)>(f: Format<Row>, lines: seq<string>, id: Id, line: string, i: Id, q: nat)
    requires Faithful(f) && FindMarker(f.k, lines, id) < |lines| && q != FindMarker(f.k, lines, id) + 1 && f.k.split(line) == [line]
    requires q < |lines| && MarkAt(f, lines, q) == Some(i)
    ensures
      var after := Rewritten(f.k, lines, id, line);
      Announced(f, after, |after|, i)
  {
    var after := Rewritten(f.k, lines, id, line);
    RewriteTouchesOneLine(f.k, lines, id, line, q);
    assert MarkAt(f, after, q) == Some(i);
  }

  lemma RewriteAnnounces<Row(!new)>(f: Format<Row>, lines: seq<string>, rows: map<Id, Row>, id: Id, m: Row)
    requires Faithful(f) && Agrees(f, lines, rows) && id in rows && f.clean(m) && AllAnnounced(f, lines, rows)
    ensures AllAnnounced(f, Rewritten(f.k, lines, id, f.show(m)), rows[id := m])
  {
    var want :| AgreesBy(f, lines, rows, want);
    assert ShowTells(f, m);
    var line := f.show(m);
    var after := Rewritten(f.k, lines, id, line);
    if FindMarker(f.k, lines, id) < |lines| {
      forall i | i in rows ensures Announced(f, after, |after|, i) {
        var q :| 0 <= q < |lines| && MarkAt(f, lines, q) == Some(i);
        NotUnderMarker(f, lines, rows, want, id, i, q);
        MarkerStays(f, lines, id, line, i, q);
      }
    }
  }

  /** In an agreeing file the line under a row's marker is its text, not another marker. */
  lemma NotUnderMarker<Row(!new)>(f: Format<Row>, lines: seq<string>, rows: map<Id, Row>, want: map<Id, string>, id: Id, i: Id, q: nat)
    requires Faithful(f) && AgreesBy(f, lines, rows, want) && id in rows && FindMarker(f.k, lines, id) < |lines|
    requires q < |lines| && MarkAt(f, lines, q) == Some(i)
    ensures q != FindMarker(f.k, lines, id) + 1
  {
    var t, p := Trims(f.k, lines), FindMarker(f.k, lines, id);
    assert t[p] == f.k.text(id);
    assert Marks(f.k, t, p, want) && EntryAt(f.k, t, p, want);
    assert f.k.marker(t[p + 1]).None?;
    assert f.k.marker(t[q]) == Some(i);
  }
}
