/** The memory service in its own form: rows and file updated in place, tied to the run functions. */
module MemoryServices {
  import opened Common
  import opened MemoryLine
  import opened MarkedLines
  import opened MirroredRows
  import opened MemoryMirror
  import opened MemoryRuns
  import opened MemoryWrites

  class MemoryService {
    const f: Mirror
    var lines: seq<string>
    var rows: Rows
    var history: seq<(Id, Memory)>

    constructor (f: Mirror, lines: seq<string>)
      ensures this.f == f && State() == Store(lines, map[], [])
      ensures Consistent(f, State())
    {
      this.f, this.lines, this.rows, this.history := f, lines, map[], [];
      AnyFileStarts(f, lines);
    }

    ghost function State(): Store
      reads this
    {
      Store(lines, rows, history)
    }

    method RewriteMemoryFileEntry(id: Id, m: Memory)
      modifies this`lines
      ensures lines == Rewritten(f.k, old(lines), id, f.show(m))
    {
      var n := |lines|;
      for index := 0 to n
        invariant lines == old(lines)
        invariant forall q :: 0 <= q < index ==> f.k.trim(lines[q]) != f.k.text(id)
      {
        if f.k.trim(lines[index]) == f.k.text(id) {
          var edited := lines[..index + 1] + f.k.split(f.show(m));
          if index + 1 < |lines| {
            edited := edited + lines[index + 2..];
          }
          assert FindMarker(f.k, old(lines), id) == index;
          assert edited == Replaced(f.k, lines, index, f.show(m));
          lines := RStrip(f.k, edited);
          return;
        }
      }
    }

    method AppendToMemoryFile(id: Id, m: Memory)
      modifies this`lines
      ensures lines == Added(f.k, old(lines), id, f.show(m))
    {
      if MarkerInText(f.k, lines, id) {
        RewriteMemoryFileEntry(id, m);
      } else {
        lines := Appended(f.k, lines, id, f.show(m));
      }
    }

    /** File and rows agree and the step brings nothing that would break the agreement. */
    ghost predicate Ready(step: Step)
      reads this
    {
      Faithful(f) && CleanIsSturdy(f) && Consistent(f, State()) && Allowed(f, State(), step)
    }

    method CreateMemory(id: Id, draft: Draft)
      modifies this
      ensures State() == After(f, old(State()), Create(id, draft)) && CreateEffect(old(State()), State(), id, draft)
      ensures old(Ready(Create(id, draft))) ==> Consistent(f, State())
    {
      if Ready(Create(id, draft)) { StepKeeps(f, State(), Create(id, draft)); }
      InsertMemory(id, draft);
    }

    method InsertMemory(id: Id, draft: Draft)
      modifies this
      ensures State() == CreateRow(f, old(State()), id, Born(draft))
    {
      var m := Born(draft);
      rows := rows[id := m];
      AppendToMemoryFile(id, m);
      history := history + [(id, m)];
    }

    method SupersedeMemory(id: Id, newId: Id, rep: Replacement) returns (found: bool)
      modifies this
      ensures found == (id in old(rows))
      ensures State() == After(f, old(State()), Supersede(id, newId, rep))
      ensures found && newId !in old(rows) ==> SupersedeEffect(old(State()), State(), id, newId, rep)
      ensures old(Ready(Supersede(id, newId, rep))) ==> Consistent(f, State())
    {
      if Ready(Supersede(id, newId, rep)) { StepKeeps(f, State(), Supersede(id, newId, rep)); }
      if id in rows && newId !in rows { SupersedeWrites(f, State(), id, newId, rep); }
      found := Replace(id, newId, rep);
    }

    method Replace(id: Id, newId: Id, rep: Replacement) returns (found: bool)
      modifies this
      ensures found == (id in old(rows)) && State() == After(f, old(State()), Supersede(id, newId, rep))
    {
      if id !in rows { return false; }
      var before := rows[id];
      var draft := Successor(before, rep);
      rows := rows[id := Retired(before, "superseded")];
      history := history + [(id, rows[id])];
      InsertMemory(newId, draft);
      RewriteMemoryFileEntry(id, Retired(before, "superseded"));
      RewriteMemoryFileEntry(newId, Born(draft));
      history := history + [(id, before)];
      return true;
    }

    /** The common end of archive, verify and restore. */
    method Change(id: Id, m: Memory, before: Memory)
      modifies this
      ensures State() == ChangeRow(f, old(State()), id, m, before)
    {
      rows := rows[id := m];
      RewriteMemoryFileEntry(id, m);
      history := history + [(id, before)];
    }

    method ArchiveMemory(id: Id) returns (found: bool)
      modifies this
      ensures found == (id in old(rows))
      ensures State() == After(f, old(State()), Archive(id)) && (found ==> ArchiveEffect(old(State()), State(), id))
      ensures old(Ready(Archive(id))) ==> Consistent(f, State())
    {
      if Ready(Archive(id)) { StepKeeps(f, State(), Archive(id)); }
      if id !in rows { return false; }
      Change(id, rows[id].(archived := true, status := "archived"), rows[id]);
      return true;
    }

    method MarkVerified(id: Id, delta: real) returns (found: bool)
      modifies this
      ensures found == (id in old(rows))
      ensures State() == After(f, old(State()), Verify(id, delta)) && (found ==> VerifyEffect(old(State()), State(), id, delta))
      ensures old(Ready(Verify(id, delta))) ==> Consistent(f, State())
    {
      if Ready(Verify(id, delta)) { StepKeeps(f, State(), Verify(id, delta)); }
      if id !in rows { return false; }
      Change(id, Verified(rows[id], delta), rows[id]);
      return true;
    }

    method RestoreMemory(entry: nat) returns (found: bool)
      modifies this
      ensures found == (entry < |old(history)|)
      ensures State() == After(f, old(State()), Restore(entry)) && (found ==> RestoreEffect(old(State()), State(), entry))
      ensures found && Whole(old(history)[entry].1) ==>
        var (id, snap) := old(history)[entry];
        OnlyRow(old(rows), rows, {id}) && rows[id] == snap
      ensures old(Ready(Restore(entry))) ==> Consistent(f, State())
    {
      if Ready(Restore(entry)) { StepKeeps(f, State(), Restore(entry)); }
      ghost var before := State();
      if entry >= |history| { return false; }
      var (id, snap) := history[entry];
      var m := if id in rows then rows[id] else Revived(snap);
      Change(id, Restored(m, snap), m);
      RestoreWrites(f, before, entry);
      if Whole(snap) { WholeComesBack(m, snap, rows[id]); }
      return true;
    }

    method SyncFromMemoryFile() returns (missing: nat)
      modifies this`rows
      ensures State() == After(f, old(State()), Sync)
      ensures old(Ready(Sync)) ==> Consistent(f, State())
      ensures missing == Missing(f, lines, old(rows), |lines|)
    {
      if Ready(Sync) { StepKeeps(f, State(), Sync); }
      missing := ReadLines();
    }

    method ReadLines() returns (missing: nat)
      modifies this`rows
      ensures rows == SyncTo(f, lines, |lines|, old(rows)) && missing == Missing(f, lines, old(rows), |lines|)
    {
      missing := 0;
      for index := 0 to |lines|
        invariant rows == SyncTo(f, lines, index, old(rows)) && rows.Keys == old(rows).Keys
        invariant missing == Missing(f, lines, old(rows), index)
      {
        var mark := MarkAt(f, lines, index);
        if mark.None? { continue; }
        if mark.value !in rows {
          missing := missing + 1;
          continue;
        }
        if index + 1 < |lines| {
          rows := rows[mark.value := f.read(rows[mark.value], lines[index + 1])];
        } else {
          assert rows[mark.value := rows[mark.value]] == rows;
        }
      }
    }
  }

  /** How many of the first n lines announce a row the table does not have. */
  ghost function Missing(f: Mirror, lines: seq<string>, rows: Rows, n: nat): nat
    requires n <= |lines|
  {
    if n == 0 then 0
    else
      var mark := MarkAt(f, lines, n - 1);
      Missing(f, lines, rows, n - 1) + if mark.Some? && mark.value !in rows then 1 else 0
  }
}
