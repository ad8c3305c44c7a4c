/** A text file of lines in which marker lines announce entries: appending, rewriting in place, and what stays. */
module MarkedLines {
  import opened Common

  type Id = string

  /** How a text splits into lines, how lines are cut at the end, stripped, recognised as markers, and how a marker is printed. */
  datatype Tools = Tools(split: string -> seq<string>, cut: string -> string, trim: string -> string, isId: Id -> bool, marker: string -> Option<Id>, text: Id -> string)

  /** Cutting blanks at the end does not change what stripping gives, and empties exactly the blank lines. */
  ghost predicate CutOk(k: Tools, s: string) { k.trim(k.cut(s)) == k.trim(s) && (k.cut(s) == "" <==> k.trim(s) == "") }

  ghost predicate Good(k: Tools) {
    && (forall s :: CutOk(k, s))
    && (forall id :: k.isId(id) ==> k.marker(k.text(id)) == Some(id))
    && (forall id :: k.trim(k.text(id)) == k.text(id))
    && k.marker("").None? && k.trim("") == ""
  }

  /** What `rstrip` does to a text given as lines: blank lines at the end go, the last line loses trailing blanks. */
  function RStrip(k: Tools, lines: seq<string>): seq<string> {
    if lines == [] then []
    else
      var n := |lines| - 1;
      if k.cut(lines[n]) == "" then RStrip(k, lines[..n]) else lines[..n] + [k.cut(lines[n])]
  }

  /** `_append_to_memory_file` when the marker is not in the file. */
  function Appended(k: Tools, lines: seq<string>, id: Id, line: string): seq<string> {
    var base := RStrip(k, lines);
    (if base == [] then [""] else base) + ["", k.text(id)] + k.split(line)
  }

  /** The first line that is the marker, or the number of lines. */
  function FindMarker(k: Tools, lines: seq<string>, id: Id): (p: nat)
    ensures p <= |lines| && (p < |lines| ==> k.trim(lines[p]) == k.text(id))
    ensures forall q :: 0 <= q < p ==> k.trim(lines[q]) != k.text(id)
  {
    if lines == [] then 0
    else
      var n := |lines| - 1;
      var p := FindMarker(k, lines[..n], id);
      assert forall q :: 0 <= q < n ==> lines[..n][q] == lines[q];
      if p < n then p else if k.trim(lines[n]) == k.text(id) then n else n + 1
  }

  /** The text put in place of the line after line p, or at the end. */
  function Replaced(k: Tools, lines: seq<string>, p: nat, line: string): seq<string>
    requires p < |lines|
  {
    lines[..p + 1] + k.split(line) + (if p + 1 < |lines| then lines[p + 2..] else [])
  }

  /** `_rewrite_memory_file_entry`. */
  function Rewritten(k: Tools, lines: seq<string>, id: Id, line: string): seq<string> {
    var p := FindMarker(k, lines, id);
    if p == |lines| then lines else RStrip(k, Replaced(k, lines, p, line))
  }

  predicate Contains(s: string, t: string) { exists i :: 0 <= i <= |s| && t <= s[i..] }

  predicate MarkerInText(k: Tools, lines: seq<string>, id: Id) {
    exists p :: 0 <= p < |lines| && Contains(lines[p], k.text(id))
  }

  function Added(k: Tools, lines: seq<string>, id: Id, line: string): seq<string> {
    if MarkerInText(k, lines, id) then Rewritten(k, lines, id, line) else Appended(k, lines, id, line)
  }

  function Trims(k: Tools, lines: seq<string>): (t: seq<string>)
    ensures |t| == |lines| && forall i :: 0 <= i < |t| ==> t[i] == k.trim(lines[i])
  {
    seq(|lines|, i requires 0 <= i < |lines| => k.trim(lines[i]))
  }

  /** `rstrip` keeps a prefix of the lines up to stripping and only drops blank ones. */
  lemma {:induction false} RStripTrims(k: Tools, lines: seq<string>)
    requires Good(k)
    ensures |RStrip(k, lines)| <= |lines|
    ensures forall i :: 0 <= i < |RStrip(k, lines)| ==> k.trim(RStrip(k, lines)[i]) == k.trim(lines[i])
    ensures forall i :: |RStrip(k, lines)| <= i < |lines| ==> k.trim(lines[i]) == ""
  {
    if lines != [] {
      var n := |lines| - 1;
      assert CutOk(k, lines[n]);
      if k.cut(lines[n]) == "" { RStripTrims(k, lines[..n]); }
    }
  }

  /** The result ends in a line that is not blank and has no blanks at its end, or is empty. */
  lemma {:induction false} RStripEnds(k: Tools, lines: seq<string>)
    requires Good(k)
    ensures
      var r := RStrip(k, lines);
      && |r| <= |lines| && (forall i :: 0 <= i < |r| - 1 ==> r[i] == lines[i])
      && (r != [] ==> r[|r| - 1] == k.cut(lines[|r| - 1]) && k.trim(lines[|r| - 1]) != "")
  {
    if lines != [] {
      var n := |lines| - 1;
      assert CutOk(k, lines[n]);
      if k.cut(lines[n]) == "" { RStripEnds(k, lines[..n]); }
    }
  }

  // ---------------------------------------------------------------- the mirror

  /** The trimmed lines carry, for each wanted id, at most one marker, exactly as printed, followed by the wanted line. */
  ghost predicate Mirrors(k: Tools, t: seq<string>, want: map<Id, string>) {
    && (forall id :: id in want ==> k.isId(id) && Plain(k, want[id]))
    && (forall p :: 0 <= p < |t| && Marks(k, t, p, want) ==> EntryAt(k, t, p, want))
    && (forall p, q :: 0 <= p < |t| && 0 <= q < |t| && Marks(k, t, p, want) && k.marker(t[p]) == k.marker(t[q]) ==> p == q)
  }

  /** A line that is neither blank nor a marker. */
  ghost predicate Plain(k: Tools, line: string) { line != "" && k.marker(line).None? && k.trim(line) == line }

  ghost predicate Marks(k: Tools, t: seq<string>, p: nat, want: map<Id, string>) {
    p < |t| && k.marker(t[p]).Some? && k.marker(t[p]).value in want
  }

  ghost predicate EntryAt(k: Tools, t: seq<string>, p: nat, want: map<Id, string>)
    requires Marks(k, t, p, want)
  {
    var id := k.marker(t[p]).value;
    p + 1 < |t| && t[p] == k.text(id) && t[p + 1] == want[id]
  }

  /** Dropping empty lines at the end keeps the mirror. */
  lemma PrefixMirrors(k: Tools, t: seq<string>, u: seq<string>, want: map<Id, string>)
    requires Good(k) && Mirrors(k, t, want) && u <= t && forall i :: |u| <= i < |t| ==> t[i] == ""
    ensures Mirrors(k, u, want)
  {
    forall p | 0 <= p < |u| && Marks(k, u, p, want) ensures EntryAt(k, u, p, want) {
      assert u[p] == t[p];
      assert EntryAt(k, t, p, want);
      assert t[p + 1] != "";
      assert u[p + 1] == t[p + 1];
    }
    forall p, q | 0 <= p < |u| && 0 <= q < |u| && Marks(k, u, p, want) && k.marker(u[p]) == k.marker(u[q]) ensures p == q {
      assert u[p] == t[p] && u[q] == t[q];
      assert Marks(k, t, p, want);
    }
  }

  lemma StripMirrors(k: Tools, lines: seq<string>, want: map<Id, string>)
    requires Good(k) && Mirrors(k, Trims(k, lines), want)
    ensures Mirrors(k, Trims(k, RStrip(k, lines)), want)
  {
    RStripTrims(k, lines);
    var t, u := Trims(k, lines), Trims(k, RStrip(k, lines));
    assert u == t[..|u|];
    PrefixMirrors(k, t, u, want);
  }

  /** A new entry at the end. */
  lemma AppendMirrors(k: Tools, u: seq<string>, want: map<Id, string>, id: Id, line: string)
    requires Good(k) && Mirrors(k, u, want) && k.isId(id) && Plain(k, line)
    requires forall p :: 0 <= p < |u| ==> k.marker(u[p]) != Some(id)
    ensures Mirrors(k, u + ["", k.text(id), line], want[id := line])
  {
    var t, want', n := u + ["", k.text(id), line], want[id := line], |u|;
    assert t[n] == "" && t[n + 1] == k.text(id) && t[n + 2] == line;
    forall p | 0 <= p < |t| && Marks(k, t, p, want') ensures EntryAt(k, t, p, want') {
      if p < n {
        assert t[p] == u[p];
        assert Marks(k, u, p, want) && EntryAt(k, u, p, want);
        assert t[p + 1] == u[p + 1];
      }
    }
    forall p, q | 0 <= p < |t| && 0 <= q < |t| && Marks(k, t, p, want') && k.marker(t[p]) == k.marker(t[q]) ensures p == q {
      if p < n { assert t[p] == u[p] && Marks(k, u, p, want); }
      if q < n { assert t[q] == u[q]; }
    }
  }

  /** A rewritten entry: its own line changes, every other wanted entry keeps its line. */
  lemma ReplaceMirrors(k: Tools, t: seq<string>, want: map<Id, string>, id: Id, line: string, p: nat)
    requires Good(k) && Mirrors(k, t, want) && id in want && Plain(k, line) && p < |t| && t[p] == k.text(id)
    ensures p + 1 < |t| && Mirrors(k, t[p + 1 := line], want[id := line])
    ensures forall q :: 0 <= q < |t| && Marks(k, t, q, want) && k.marker(t[q]) != Some(id) ==>
      q + 1 < |t| && t[p + 1 := line][q + 1] == t[q + 1]
  {
    assert Marks(k, t, p, want) && EntryAt(k, t, p, want);
    var t', want' := t[p + 1 := line], want[id := line];
    assert k.marker(t[p + 1]).None? && k.marker(t'[p + 1]).None?;
    forall q | 0 <= q < |t'| && Marks(k, t', q, want') ensures EntryAt(k, t', q, want') {
      assert t'[q] == t[q];
      assert Marks(k, t, q, want) && EntryAt(k, t, q, want);
      if q + 1 == p + 1 { assert k.marker(t[q]) == Some(id); }
    }
    forall q, s | 0 <= q < |t'| && 0 <= s < |t'| && Marks(k, t', q, want') && k.marker(t'[q]) == k.marker(t'[s]) ensures q == s {
      assert t'[q] == t[q] && t'[s] == t[s];
      assert Marks(k, t, q, want);
    }
    forall q | 0 <= q < |t| && Marks(k, t, q, want) && k.marker(t[q]) != Some(id) ensures q + 1 < |t| && t'[q + 1] == t[q + 1] {
      assert EntryAt(k, t, q, want);
    }
  }

  /** A changed row without an entry in the file. */
  lemma AbsentMirrors(k: Tools, t: seq<string>, want: map<Id, string>, id: Id, line: string)
    requires Mirrors(k, t, want) && k.isId(id) && Plain(k, line) && forall p :: 0 <= p < |t| ==> k.marker(t[p]) != Some(id)
    ensures Mirrors(k, t, want[id := line])
  {
    var want' := want[id := line];
    forall p | 0 <= p < |t| && Marks(k, t, p, want') ensures EntryAt(k, t, p, want') {
      assert Marks(k, t, p, want) && EntryAt(k, t, p, want);
    }
    forall p, q | 0 <= p < |t| && 0 <= q < |t| && Marks(k, t, p, want') && k.marker(t[p]) == k.marker(t[q]) ensures p == q {
      assert Marks(k, t, p, want);
    }
  }

  // ---------------------------------------------------------------- the file operations keep it

  lemma RewriteKeeps(k: Tools, lines: seq<string>, want: map<Id, string>, id: Id, line: string)
    requires Good(k) && Mirrors(k, Trims(k, lines), want) && id in want && Plain(k, k.trim(line)) && k.split(line) == [line]
    ensures Mirrors(k, Trims(k, Rewritten(k, lines, id, line)), want[id := k.trim(line)])
  {
    var t, p := Trims(k, lines), FindMarker(k, lines, id);
    if p == |lines| {
      NoMarker(k, t, want, id);
      AbsentMirrors(k, t, want, id, k.trim(line));
    } else {
      ReplaceMirrors(k, t, want, id, k.trim(line), p);
      var lines' := lines[p + 1 := line];
      assert Replaced(k, lines, p, line) == lines';
      assert Trims(k, lines') == t[p + 1 := k.trim(line)];
      StripMirrors(k, lines', want[id := k.trim(line)]);
    }
  }

  lemma NoMarker(k: Tools, t: seq<string>, want: map<Id, string>, id: Id)
    requires Mirrors(k, t, want) && id in want && forall q :: 0 <= q < |t| ==> t[q] != k.text(id)
    ensures forall q :: 0 <= q < |t| ==> k.marker(t[q]) != Some(id)
  {
    forall q | 0 <= q < |t| ensures k.marker(t[q]) != Some(id) {
      assert Marks(k, t, q, want) ==> EntryAt(k, t, q, want);
    }
  }

  lemma BlankMirrors(k: Tools, want: map<Id, string>)
    requires Good(k) && forall id :: id in want ==> k.isId(id) && Plain(k, want[id])
    ensures Mirrors(k, [""], want)
  {}

  /** No line announces the id. */
  ghost predicate Unseen(k: Tools, lines: seq<string>, id: Id) {
    forall p :: 0 <= p < |lines| ==> k.marker(k.trim(lines[p])) != Some(id)
  }

  lemma AppendKeeps(k: Tools, lines: seq<string>, want: map<Id, string>, id: Id, line: string)
    requires Good(k) && Mirrors(k, Trims(k, lines), want) && k.isId(id) && Plain(k, k.trim(line)) && k.split(line) == [line] && Unseen(k, lines, id)
    ensures Mirrors(k, Trims(k, Appended(k, lines, id, line)), want[id := k.trim(line)])
  {
    StripMirrors(k, lines, want);
    RStripTrims(k, lines);
    var base := RStrip(k, lines);
    var padded := if base == [] then [""] else base;
    var u := Trims(k, padded);
    if base == [] {
      assert u == [""];
      BlankMirrors(k, want);
    }
    AppendMirrors(k, u, want, id, k.trim(line));
    assert Appended(k, lines, id, line) == padded + ["", k.text(id), line];
    assert Trims(k, padded + ["", k.text(id), line]) == u + ["", k.text(id), k.trim(line)];
  }

  /** Creating an entry for an id the file does not announce, also when its marker text occurs inside some line. */
  lemma AddKeeps(k: Tools, lines: seq<string>, want: map<Id, string>, id: Id, line: string)
    requires Good(k) && Mirrors(k, Trims(k, lines), want) && k.isId(id) && Plain(k, k.trim(line)) && k.split(line) == [line] && Unseen(k, lines, id)
    ensures Mirrors(k, Trims(k, Added(k, lines, id, line)), want[id := k.trim(line)])
  {
    if MarkerInText(k, lines, id) {
      var p := FindMarker(k, lines, id);
      assert p == |lines|;
      AbsentMirrors(k, Trims(k, lines), want, id, k.trim(line));
    } else {
      AppendKeeps(k, lines, want, id, line);
    }
  }

  /** Where line q of a file is after a rewrite: lines below the rewritten one move when its text has several lines. */
  function Moved(k: Tools, lines: seq<string>, id: Id, line: string, q: nat): int {
    if q <= FindMarker(k, lines, id) then q else q + |k.split(line)| - 1
  }

  /** In any file and for any text, a rewrite keeps every line but the rewritten one, up to blanks at the end of the file. */
  lemma RewriteTouchesOneLine(k: Tools, lines: seq<string>, id: Id, line: string, q: nat)
    requires Good(k) && q < |lines| && q != FindMarker(k, lines, id) + 1 && FindMarker(k, lines, id) < |lines|
    ensures
      var after, q' := Rewritten(k, lines, id, line), Moved(k, lines, id, line, q);
      0 <= q' && if q' < |after| then k.trim(after[q']) == k.trim(lines[q]) else k.trim(lines[q]) == ""
  {
    var p := FindMarker(k, lines, id);
    var all, q' := Replaced(k, lines, p, line), Moved(k, lines, id, line, q);
    RStripTrims(k, all);
    if q > p { assert all[q'] == lines[p + 2..][q - p - 2]; }
    assert all[q'] == lines[q];
  }

  lemma RewriteGrowsOnlyAtMarker(k: Tools, lines: seq<string>, id: Id, line: string)
    requires Good(k) && FindMarker(k, lines, id) + 1 < |lines|
    ensures |Rewritten(k, lines, id, line)| <= |lines| + |k.split(line)| - 1
  {
    RStripTrims(k, Replaced(k, lines, FindMarker(k, lines, id), line));
  }

  /** Appending keeps every line that is not blank where it was, and ends with a blank line, the marker and the text. */
  lemma AppendTouchesNothing(k: Tools, lines: seq<string>, id: Id, line: string, q: nat)
    requires Good(k) && q < |lines|
    ensures
      var after := Appended(k, lines, id, line);
      k.trim(lines[q]) != "" ==> q < |after| && k.trim(after[q]) == k.trim(lines[q])
  {
    RStripTrims(k, lines);
  }

  lemma AppendEnds(k: Tools, lines: seq<string>, id: Id, line: string)
    ensures
      var after, n := Appended(k, lines, id, line), |k.split(line)|;
      && |after| >= n + 2 && after[|after| - n - 1] == k.text(id) && after[|after| - n - 2] == "" && after[|after| - n..] == k.split(line)
  {}
}
