/** What each memory operation writes, field by field, and what a history entry can bring back at any later time. */
module MemoryWrites {
  import opened Common
  import opened MemoryLine
  import opened MarkedLines
  import opened MirroredRows
  import opened MemoryMirror
  import opened MemoryRuns

  /** The score kept within 0 and 1. */
  predicate Within(score: real, wanted: real) {
    if wanted < 0.0 then score == 0.0 else if wanted > 1.0 then score == 1.0 else score == wanted
  }

  // ---------------------------------------------------------------- rows

  predicate Created(m: Memory, kind: string, content: string, source: string, importance: real, confidence: real, stability: real) {
    && m.kind == kind && m.content == content && m.source == source && m.status == "active" && !m.archived
    && Within(m.importance, importance) && Within(m.confidence, confidence) && Within(m.stability, stability)
  }

  predicate SameText(m: Memory, m': Memory) { m'.kind == m.kind && m'.content == m.content && m'.source == m.source }

  predicate SameScores(m: Memory, m': Memory) {
    m'.importance == m.importance && m'.confidence == m.confidence && m'.stability == m.stability
  }

  /** The row that supersedes another: what the replacement leaves open comes from the row it replaces. */
  predicate Succeeds(m: Memory, previous: Memory, rep: Replacement) {
    Created(m, if rep.kind == "" then previous.kind else rep.kind, rep.content,
            match rep.source { case Some(s) => s case None => "supersede" },
            match rep.importance { case Some(v) => v case None => previous.importance },
            match rep.confidence { case Some(v) => v case None => previous.confidence },
            match rep.stability { case Some(v) => v case None => previous.stability })
  }

  /** The row takes back the snapshot; an empty text field falls back to the row's own, then to a constant. */
  predicate TakesBack(m: Memory, snap: Memory, m': Memory) {
    && m'.kind == (if snap.kind != "" then snap.kind else if m.kind != "" then m.kind else "agent_note")
    && m'.content == (if snap.content != "" then snap.content else m.content)
    && m'.source == (if snap.source != "" then snap.source else if m.source != "" then m.source else "restore")
    && m'.status == (if snap.status != "" then snap.status else "active") && m'.archived == snap.archived
    && Within(m'.importance, snap.importance) && Within(m'.confidence, snap.confidence) && Within(m'.stability, snap.stability)
  }

  /** Only the listed rows differ. */
  predicate OnlyRow(rows: Rows, rows': Rows, ids: set<Id>) {
    rows'.Keys == rows.Keys + ids && forall id :: id in rows && id !in ids ==> rows'[id] == rows[id]
  }

  ghost predicate CreateEffect(s: Store, s': Store, id: Id, d: Draft) {
    && OnlyRow(s.rows, s'.rows, {id})
    && Created(s'.rows[id], d.kind, d.content, d.source, d.importance, d.confidence, d.stability)
    && s'.history == s.history + [(id, s'.rows[id])]
  }

  ghost predicate ArchiveEffect(s: Store, s': Store, id: Id)
    requires id in s.rows
  {
    && OnlyRow(s.rows, s'.rows, {id}) && SameText(s.rows[id], s'.rows[id]) && SameScores(s.rows[id], s'.rows[id])
    && s'.rows[id].status == "archived" && s'.rows[id].archived && s'.history == s.history + [(id, s.rows[id])]
  }

  ghost predicate VerifyEffect(s: Store, s': Store, id: Id, delta: real)
    requires id in s.rows
  {
    var m := s.rows[id];
    && OnlyRow(s.rows, s'.rows, {id})
    && var m' := s'.rows[id];
    && SameText(m, m') && m'.status == m.status && m'.archived == m.archived && m'.importance == m.importance
    && Within(m'.confidence, m.confidence + delta) && Within(m'.stability, m.stability + delta / 2.0)
    && s'.history == s.history + [(id, m)]
  }

  ghost predicate SupersedeEffect(s: Store, s': Store, id: Id, newId: Id, rep: Replacement)
    requires id in s.rows
  {
    && OnlyRow(s.rows, s'.rows, {id, newId})
    && var m, m' := s.rows[id], s'.rows[id];
    && SameText(m, m') && SameScores(m, m') && m'.status == "superseded" && m'.archived
    && Succeeds(s'.rows[newId], m, rep) && s'.history == s.history + [(id, m'), (newId, s'.rows[newId]), (id, m)]
  }

  ghost predicate RestoreEffect(s: Store, s': Store, entry: nat)
    requires entry < |s.history|
  {
    var (id, snap) := s.history[entry];
    && OnlyRow(s.rows, s'.rows, {id}) && |s'.history| == |s.history| + 1
    && var (id', m) := s'.history[|s.history|];
    && id' == id && s'.history == s.history + [(id, m)] && (id in s.rows ==> m == s.rows[id]) && TakesBack(m, snap, s'.rows[id])
  }

  lemma CreateWrites(f: Mirror, s: Store, id: Id, d: Draft)
    ensures CreateEffect(s, After(f, s, Create(id, d)), id, d)
  {}

  lemma ArchiveWrites(f: Mirror, s: Store, id: Id)
    requires id in s.rows
    ensures ArchiveEffect(s, After(f, s, Archive(id)), id)
  {}

  lemma VerifyWrites(f: Mirror, s: Store, id: Id, delta: real)
    requires id in s.rows
    ensures VerifyEffect(s, After(f, s, Verify(id, delta)), id, delta)
  {}

  lemma SupersedeWrites(f: Mirror, s: Store, id: Id, newId: Id, rep: Replacement)
    requires id in s.rows && newId !in s.rows
    ensures SupersedeEffect(s, After(f, s, Supersede(id, newId, rep)), id, newId, rep)
  {
    var s' := After(f, s, Supersede(id, newId, rep));
    var m := s.rows[id];
    assert s'.history == s.history + [(id, s'.rows[id])] + [(newId, s'.rows[newId])] + [(id, m)];
  }

  lemma RestoreWrites(f: Mirror, s: Store, entry: nat)
    requires entry < |s.history|
    ensures RestoreEffect(s, After(f, s, Restore(entry)), entry)
  {}

  /** A refused operation changes nothing: unknown rows and unknown history entries. */
  lemma RefusedChangesNothing(f: Mirror, s: Store, step: Step)
    requires
      || (step.Archive? && step.id !in s.rows) || (step.Verify? && step.id !in s.rows)
      || (step.Supersede? && step.id !in s.rows) || (step.Restore? && step.entry >= |s.history|)
    ensures Apply(f, s, step).Refused? && After(f, s, step) == s
  {}

  // ---------------------------------------------------------------- undo

  /** A row a snapshot brings back whole. */
  predicate Whole(m: Memory) {
    && m.kind != "" && m.content != "" && m.source != "" && m.status != "" && Scored(m)
  }

  lemma WholeComesBack(m: Memory, snap: Memory, m': Memory)
    requires Whole(snap) && TakesBack(m, snap, m')
    ensures m' == snap
  {}

  lemma HistoryGrowsOnly(f: Mirror, s: Store, step: Step)
    ensures s.history <= After(f, s, step).history
  {}

  lemma {:induction false} HistoryStays(f: Mirror, s: Store, steps: seq<Step>)
    ensures s.history <= Run(f, s, steps).history
    decreases |steps|
  {
    if steps != [] {
      HistoryGrowsOnly(f, s, steps[0]);
      HistoryStays(f, After(f, s, steps[0]), steps[1..]);
    }
  }

  /** Whatever happened since, restoring an entry with a whole snapshot gives back exactly that row and touches no other. */
  lemma RestoreAfterAnything(f: Mirror, s: Store, entry: nat, more: seq<Step>)
    requires entry < |s.history| && Whole(s.history[entry].1)
    ensures
      var now := Run(f, s, more);
      var then' := After(f, now, Restore(entry));
      OnlyRow(now.rows, then'.rows, {s.history[entry].0}) && then'.rows[s.history[entry].0] == s.history[entry].1
  {
    var now := Run(f, s, more);
    HistoryStays(f, s, more);
    assert now.history[entry] == s.history[entry];
    RestoreWrites(f, now, entry);
    var then' := After(f, now, Restore(entry));
    var m := then'.history[|now.history|].1;
    WholeComesBack(m, s.history[entry].1, then'.rows[s.history[entry].0]);
  }

  /** The index of the entry in which an operation remembers the row as it was before. */
  function EntryOf(s: Store, step: Step): nat { if step.Supersede? then |s.history| + 2 else |s.history| }

  /** Archive, verify and supersede are undone, at any later time, by restoring the entry they appended. */
  lemma UndoAfterAnything(f: Mirror, s: Store, step: Step, more: seq<Step>, id: Id)
    requires (step.Archive? && step.id == id) || (step.Verify? && step.id == id) || (step.Supersede? && step.id == id && step.newId !in s.rows)
    requires id in s.rows && Whole(s.rows[id])
    ensures
      var now := Run(f, After(f, s, step), more);
      var undone := After(f, now, Restore(EntryOf(s, step)));
      OnlyRow(now.rows, undone.rows, {id}) && undone.rows[id] == s.rows[id]
  {
    var s1 := After(f, s, step);
    if step.Supersede? { SupersedeWrites(f, s, id, step.newId, step.by'); }
    assert EntryOf(s, step) < |s1.history| && s1.history[EntryOf(s, step)] == (id, s.rows[id]);
    RestoreAfterAnything(f, s1, EntryOf(s, step), more);
  }
}
