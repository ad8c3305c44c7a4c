/** Runs of memory operations: create, supersede, archive, verify, restore and file sync, in any order. */
module MemoryRuns {
  import opened Common
  import opened Strings
  import opened MemoryLine
  import opened MarkedLines
  import opened MirroredRows
  import opened MemoryMirror

  type Rows = map<Id, Memory>

  /** The file, the rows, and the snapshot each history entry can restore. */
  datatype Store = Store(lines: seq<string>, rows: Rows, history: seq<(Id, Memory)>)

  datatype Draft = Draft(kind: string, content: string, source: string, importance: real, confidence: real, stability: real)

  /** What a caller may override when superseding. */
  datatype Replacement = Replacement(kind: string, content: string, source: Option<string>,
                                     importance: Option<real>, confidence: Option<real>, stability: Option<real>)

  datatype Step =
    | Create(id: Id, draft: Draft)
    | Supersede(id: Id, newId: Id, by': Replacement)
    | Archive(id: Id)
    | Verify(id: Id, delta: real)
    | Restore(entry: nat)
    | Sync

  type Mirror = Format<Memory>

  // ---------------------------------------------------------------- rows

  function Born(d: Draft): Memory {
    Memory(d.kind, d.content, d.source, "active", false, Clamp(d.importance), Clamp(d.confidence), Clamp(d.stability))
  }

  function Retired(m: Memory, status: string): Memory { m.(status := status, archived := true) }

  function Verified(m: Memory, delta: real): Memory {
    m.(confidence := Clamp(m.confidence + delta), stability := Clamp(m.stability + delta / 2.0))
  }

  function Or<T>(given: Option<T>, default: T): T { if given.Some? then given.value else default }

  function FirstOf(a: string, b: string, c: string): string { if a != "" then a else if b != "" then b else c }

  function Successor(previous: Memory, rep: Replacement): Draft {
    Draft(FirstOf(rep.kind, previous.kind, ""), rep.content, Or(rep.source, "supersede"),
          Or(rep.importance, previous.importance), Or(rep.confidence, previous.confidence), Or(rep.stability, previous.stability))
  }

  /** `_apply_snapshot`. */
  function Restored(m: Memory, snap: Memory): Memory {
    Memory(FirstOf(snap.kind, m.kind, "agent_note"), FirstOf(snap.content, m.content, ""), FirstOf(snap.source, m.source, "restore"),
           FirstOf(snap.status, "active", ""), snap.archived, Clamp(snap.importance), Clamp(snap.confidence), Clamp(snap.stability))
  }

  /** The row `restore` adds when the memory itself is gone. */
  function Revived(snap: Memory): Memory {
    Memory(FirstOf(snap.kind, "agent_note", ""), snap.content, "", "", false, 0.5, 0.5, 0.5)
  }

  // ---------------------------------------------------------------- operations

  function CreateRow(f: Mirror, s: Store, id: Id, m: Memory): Store {
    Store(Added(f.k, s.lines, id, f.show(m)), s.rows[id := m], s.history + [(id, m)])
  }

  /** A changed row: its entry is rewritten and its earlier form remembered. */
  function ChangeRow(f: Mirror, s: Store, id: Id, m: Memory, before: Memory): Store {
    Store(Rewritten(f.k, s.lines, id, f.show(m)), s.rows[id := m], s.history + [(id, before)])
  }

  function NotFound(): Outcome<Store> { Refused("memory not found") }

  function SupersedeRow(f: Mirror, s: Store, id: Id, newId: Id, rep: Replacement): Outcome<Store> {
    if id !in s.rows then NotFound()
    else
      var before := s.rows[id];
      var retired := Retired(before, "superseded");
      var m := Born(Successor(before, rep));
      var s1 := s.(rows := s.rows[id := retired], history := s.history + [(id, retired)]);
      var s2 := CreateRow(f, s1, newId, m);
      var lines := Rewritten(f.k, Rewritten(f.k, s2.lines, id, f.show(retired)), newId, f.show(m));
      Ok(Store(lines, s2.rows, s2.history + [(id, before)]))
  }

  function RestoreRow(f: Mirror, s: Store, entry: nat): Outcome<Store> {
    if entry >= |s.history| then Refused("memory history not found")
    else
      var (id, snap) := s.history[entry];
      var m := if id in s.rows then s.rows[id] else Revived(snap);
      Ok(ChangeRow(f, s, id, Restored(m, snap), m))
  }

  function SyncRows(f: Mirror, s: Store): Store { s.(rows := SyncTo(f, s.lines, |s.lines|, s.rows)) }

  function Apply(f: Mirror, s: Store, step: Step): Outcome<Store> {
    match step
    case Create(id, d) => Ok(CreateRow(f, s, id, Born(d)))
    case Supersede(id, newId, rep) => SupersedeRow(f, s, id, newId, rep)
    case Archive(id) => if id !in s.rows then NotFound() else Ok(ChangeRow(f, s, id, Retired(s.rows[id], "archived"), s.rows[id]))
    case Verify(id, delta) => if id !in s.rows then NotFound() else Ok(ChangeRow(f, s, id, Verified(s.rows[id], delta), s.rows[id]))
    case Restore(entry) => RestoreRow(f, s, entry)
    case Sync => Ok(SyncRows(f, s))
  }

  function After(f: Mirror, s: Store, step: Step): Store {
    var r := Apply(f, s, step);
    if r.Ok? then r.value else s
  }

  function Run(f: Mirror, s: Store, steps: seq<Step>): Store
    decreases |steps|
  {
    if steps == [] then s else Run(f, After(f, s, steps[0]), steps[1..])
  }

  // ---------------------------------------------------------------- what callers bring

  /** A new id: a valid one that no row has and no line announces. */
  ghost predicate NewId(f: Mirror, s: Store, id: Id) { f.k.isId(id) && id !in s.rows && Unseen(f.k, s.lines, id) }

  /** New rows have single-line content and no delimiters in kind and source. */
  ghost predicate Allowed(f: Mirror, s: Store, step: Step) {
    match step
    case Create(id, d) => NewId(f, s, id) && f.clean(Born(d))
    case Supersede(id, newId, rep) => id in s.rows ==> NewId(f, s, newId) && f.clean(Born(Successor(s.rows[id], rep)))
    case _ => true
  }

  ghost predicate AllAllowed(f: Mirror, s: Store, steps: seq<Step>)
    decreases |steps|
  {
    steps == [] || (Allowed(f, s, steps[0]) && AllAllowed(f, After(f, s, steps[0]), steps[1..]))
  }

  ghost predicate Consistent(f: Mirror, s: Store) {
    Agrees(f, s.lines, s.rows) && HistoryOk(f, s.history, s.rows)
  }

  /** What cleanliness must survive: the constants and clamps the operations apply. */
  ghost predicate Sturdy(f: Mirror, m: Memory) {
    f.clean(m) ==>
    && f.clean(Retired(m, "archived")) && f.clean(Retired(m, "superseded"))
    && (forall delta :: f.clean(Verified(m, delta)))
    && (forall snap :: f.clean(snap) ==> f.clean(Restored(m, snap)))
  }

  ghost predicate CleanIsSturdy(f: Mirror) { forall m :: Sturdy(f, m) }

  // ---------------------------------------------------------------- every step keeps the mirror

  lemma RowsAreClean(f: Mirror, s: Store, id: Id)
    requires Agrees(f, s.lines, s.rows) && id in s.rows
    ensures f.clean(s.rows[id])
  {
    var want :| AgreesBy(f, s.lines, s.rows, want);
  }

  lemma CreateKeeps(f: Mirror, s: Store, id: Id, m: Memory)
    requires Faithful(f) && Consistent(f, s) && f.k.isId(id) && Unseen(f.k, s.lines, id) && f.clean(m)
    ensures Consistent(f, CreateRow(f, s, id, m))
  {
    AddAgrees(f, s.lines, s.rows, id, m);
  }

  lemma ChangeKeeps(f: Mirror, s: Store, id: Id, m: Memory, before: Memory)
    requires Faithful(f) && Consistent(f, s) && id in s.rows && f.clean(m) && f.clean(before)
    ensures Consistent(f, ChangeRow(f, s, id, m, before))
  {
    RewriteAgrees(f, s.lines, s.rows, id, m);
  }

  /** The file after superseding: the successor's entry is added, then both entries are rewritten. */
  lemma SupersedeAgrees(f: Mirror, lines: seq<string>, rows: Rows, id: Id, newId: Id, retired: Memory, m: Memory)
    requires Faithful(f) && Agrees(f, lines, rows) && id in rows && newId !in rows && f.k.isId(newId) && Unseen(f.k, lines, newId)
    requires f.clean(retired) && f.clean(m)
    ensures Agrees(f, Rewritten(f.k, Rewritten(f.k, Added(f.k, lines, newId, f.show(m)), id, f.show(retired)), newId, f.show(m)),
                   rows[id := retired][newId := m])
  {
    var lines1, rows1 := Added(f.k, lines, newId, f.show(m)), rows[newId := m];
    assert Agrees(f, lines1, rows1) by { AddAgrees(f, lines, rows, newId, m); }
    RewriteBoth(f, lines1, rows1, id, newId, retired, m);
    OrderIsFree(rows, newId, m, id, retired);
  }

  lemma OrderIsFree<K, V>(rows: map<K, V>, a: K, x: V, b: K, y: V)
    requires a != b
    ensures rows[a := x][b := y][a := x] == rows[b := y][a := x]
  {}

  lemma RewriteBoth(f: Mirror, lines: seq<string>, rows: Rows, id: Id, newId: Id, retired: Memory, m: Memory)
    requires Faithful(f) && Agrees(f, lines, rows) && id in rows && newId in rows && f.clean(retired) && f.clean(m)
    ensures Agrees(f, Rewritten(f.k, Rewritten(f.k, lines, id, f.show(retired)), newId, f.show(m)), rows[id := retired][newId := m])
  {
    RewriteAgrees(f, lines, rows, id, retired);
    RewriteAgrees(f, Rewritten(f.k, lines, id, f.show(retired)), rows[id := retired], newId, m);
  }

  lemma SupersedeKeeps(f: Mirror, s: Store, id: Id, newId: Id, rep: Replacement)
    requires Faithful(f) && Consistent(f, s) && id in s.rows && NewId(f, s, newId) && f.clean(s.rows[id])
    requires f.clean(Born(Successor(s.rows[id], rep))) && f.clean(Retired(s.rows[id], "superseded"))
    ensures Consistent(f, SupersedeRow(f, s, id, newId, rep).value)
  {
    SupersedeAgrees(f, s.lines, s.rows, id, newId, Retired(s.rows[id], "superseded"), Born(Successor(s.rows[id], rep)));
    SupersedeRemembers(f, s, id, newId, rep);
  }

  ghost predicate HistoryOk(f: Mirror, history: seq<(Id, Memory)>, rows: Rows) {
    forall k :: 0 <= k < |history| ==> history[k].0 in rows && f.clean(history[k].1)
  }

  lemma SupersedeRemembers(f: Mirror, s: Store, id: Id, newId: Id, rep: Replacement)
    requires HistoryOk(f, s.history, s.rows) && id in s.rows && f.clean(s.rows[id])
    requires f.clean(Born(Successor(s.rows[id], rep))) && f.clean(Retired(s.rows[id], "superseded"))
    ensures
      var after := SupersedeRow(f, s, id, newId, rep).value;
      HistoryOk(f, after.history, after.rows)
  {
    var after := SupersedeRow(f, s, id, newId, rep).value;
    var more := [(id, Retired(s.rows[id], "superseded")), (newId, Born(Successor(s.rows[id], rep))), (id, s.rows[id])];
    assert after.history == s.history + more;
    HistoryGrows(f, s.history, more, after.rows);
  }

  lemma HistoryGrows(f: Mirror, history: seq<(Id, Memory)>, more: seq<(Id, Memory)>, rows: Rows)
    requires HistoryOk(f, history, rows) && HistoryOk(f, more, rows)
    ensures HistoryOk(f, history + more, rows)
  {}

  lemma RestoreKeeps(f: Mirror, s: Store, entry: nat)
    requires Faithful(f) && CleanIsSturdy(f) && Consistent(f, s) && entry < |s.history|
    ensures Consistent(f, RestoreRow(f, s, entry).value)
  {
    var id, snap := s.history[entry].0, s.history[entry].1;
    RowsAreClean(f, s, id);
    assert Sturdy(f, s.rows[id]);
    ChangeKeeps(f, s, id, Restored(s.rows[id], snap), s.rows[id]);
  }

  lemma SyncKeeps(f: Mirror, s: Store)
    requires Faithful(f) && Consistent(f, s)
    ensures Consistent(f, SyncRows(f, s))
  {
    SyncAgrees(f, s.lines, s.rows);
    SyncSettles(f, s.lines, |s.lines|, s.rows);
  }

  lemma StepKeeps(f: Mirror, s: Store, step: Step)
    requires Faithful(f) && CleanIsSturdy(f) && Consistent(f, s) && Allowed(f, s, step)
    ensures Consistent(f, After(f, s, step))
  {
    match step
    case Create(id, d) => CreateKeeps(f, s, id, Born(d));
    case Supersede(id, newId, rep) =>
      if id in s.rows {
        RowsAreClean(f, s, id);
        assert Sturdy(f, s.rows[id]);
        SupersedeKeeps(f, s, id, newId, rep);
      }
    case Archive(id) =>
      if id in s.rows {
        RowsAreClean(f, s, id);
        assert Sturdy(f, s.rows[id]);
        ChangeKeeps(f, s, id, Retired(s.rows[id], "archived"), s.rows[id]);
      }
    case Verify(id, delta) =>
      if id in s.rows {
        RowsAreClean(f, s, id);
        assert Sturdy(f, s.rows[id]);
        ChangeKeeps(f, s, id, Verified(s.rows[id], delta), s.rows[id]);
      }
    case Restore(entry) => if entry < |s.history| { RestoreKeeps(f, s, entry); }
    case Sync => SyncKeeps(f, s);
  }

  lemma {:induction false} RunKeeps(f: Mirror, s: Store, steps: seq<Step>)
    requires Faithful(f) && CleanIsSturdy(f) && Consistent(f, s) && AllAllowed(f, s, steps)
    ensures Consistent(f, Run(f, s, steps))
    decreases |steps|
  {
    if steps != [] {
      StepKeeps(f, s, steps[0]);
      RunKeeps(f, After(f, s, steps[0]), steps[1..]);
    }
  }

  // ---------------------------------------------------------------- the concrete format

  lemma WordIsField(x: Chars, s: string)
    requires Sound(x) && s != "" && forall i :: 0 <= i < |s| ==> '_' <= s[i] <= 'z'
    ensures Field(x, s) && Trimmed(x, s) && Without(s, '=')
  {
    assert '_' <= s[0] <= 'z' && '_' <= s[|s| - 1] <= 'z';
  }

  lemma RetiredIsClean(x: Chars, m: Memory, status: string)
    requires Sound(x) && Clean(x, m) && Hidden(status)
    ensures Clean(x, Retired(m, status))
  {
    WordIsField(x, status);
  }

  lemma RestoredIsClean(x: Chars, m: Memory, snap: Memory)
    requires Sound(x) && Clean(x, m) && Clean(x, snap)
    ensures Clean(x, Restored(m, snap))
  {
    WordIsField(x, "agent_note");
    WordIsField(x, "restore");
  }

  lemma FormatIsSturdy(x: Chars, r: Readers)
    requires Sound(x)
    ensures CleanIsSturdy(FormatOf(x, r))
  {
    var f := FormatOf(x, r);
    forall m | Clean(x, m) ensures Sturdy(f, m) {
      RetiredIsClean(x, m, "archived");
      RetiredIsClean(x, m, "superseded");
      forall snap | f.clean(snap) ensures f.clean(Restored(m, snap)) { RestoredIsClean(x, m, snap); }
    }
  }

  /** A draft with single-line content and delimiter-free kind and source is born clean. */
  lemma BornIsClean(x: Chars, d: Draft)
    requires Sound(x) && Field(x, d.kind) && Without(d.kind, '=') && Field(x, d.source) && OneLine(x.isBreak, d.content)
    ensures Clean(x, Born(d))
  {
    WordIsField(x, "active");
  }

  /**
   * After any run a file sync changes no status and no archived flag; it changes kind, content and source only by
   * stripping blanks at their ends, so not at all when they have none, and scores by at most half a hundredth.
   * A further sync changes nothing.
   */
  lemma SyncAfterAnyRun(x: Chars, r: Readers, start: Store, steps: seq<Step>, id: Id)
    requires Sound(x) && GoodReaders(r)
    requires Consistent(FormatOf(x, r), start) && AllAllowed(FormatOf(x, r), start, steps)
    requires id in Run(FormatOf(x, r), start, steps).rows
    ensures
      var f := FormatOf(x, r);
      var s := Run(f, start, steps);
      var s' := SyncRows(f, s);
      && s'.rows.Keys == s.rows.Keys && SyncRows(f, s') == s'
      && Mild(x, s.rows[id], s'.rows[id])
  {
    var f := FormatOf(x, r);
    var s := Run(f, start, steps);
    FormatIsFaithful(x, r);
    FormatIsSturdy(x, r);
    RunKeeps(f, start, steps);
    SyncMeaning(f, s, id);
    MildOrSame(x, s.rows[id]);
  }

  lemma SyncMeaning(f: Mirror, s: Store, id: Id)
    requires Faithful(f) && Consistent(f, s) && id in s.rows
    ensures
      var s' := SyncRows(f, s);
      && s'.rows.Keys == s.rows.Keys && SyncRows(f, s') == s'
      && (s'.rows[id] == s.rows[id] || s'.rows[id] == f.settled(s.rows[id]))
  {
    SyncSettles(f, s.lines, |s.lines|, s.rows);
    SyncTwice(f, s.lines, s.rows);
  }

  // ---------------------------------------------------------------- every row is read

  /** The new id's marker text does not occur in the file either. */
  ghost predicate FreshText(f: Mirror, s: Store, step: Step) {
    match step
    case Create(id, _) => !MarkerInText(f.k, s.lines, id)
    case Supersede(_, newId, _) => !MarkerInText(f.k, s.lines, newId)
    case _ => true
  }

  ghost predicate AllFresh(f: Mirror, s: Store, steps: seq<Step>)
    decreases |steps|
  {
    steps == [] || (FreshText(f, s, steps[0]) && AllFresh(f, After(f, s, steps[0]), steps[1..]))
  }

  ghost predicate Filed(f: Mirror, s: Store) { Consistent(f, s) && AllAnnounced(f, s.lines, s.rows) }

  lemma SupersedeFiles(f: Mirror, lines: seq<string>, rows: Rows, id: Id, newId: Id, retired: Memory, m: Memory)
    requires Faithful(f) && Agrees(f, lines, rows) && id in rows && newId !in rows && f.k.isId(newId) && Unseen(f.k, lines, newId)
    requires f.clean(retired) && f.clean(m) && !MarkerInText(f.k, lines, newId) && AllAnnounced(f, lines, rows)
    ensures AllAnnounced(f, Rewritten(f.k, Rewritten(f.k, Added(f.k, lines, newId, f.show(m)), id, f.show(retired)), newId, f.show(m)),
                         rows[id := retired][newId := m])
  {
    var lines1, rows1 := Added(f.k, lines, newId, f.show(m)), rows[newId := m];
    AddAgrees(f, lines, rows, newId, m);
    AddAnnounces(f, lines, rows, newId, m);
    RewriteBothAnnounces(f, lines1, rows1, id, newId, retired, m);
    OrderIsFree(rows, newId, m, id, retired);
  }

  lemma RewriteBothAnnounces(f: Mirror, lines: seq<string>, rows: Rows, id: Id, newId: Id, retired: Memory, m: Memory)
    requires Faithful(f) && Agrees(f, lines, rows) && id in rows && newId in rows && f.clean(retired) && f.clean(m)
    requires AllAnnounced(f, lines, rows)
    ensures AllAnnounced(f, Rewritten(f.k, Rewritten(f.k, lines, id, f.show(retired)), newId, f.show(m)), rows[id := retired][newId := m])
  {
    RewriteAgrees(f, lines, rows, id, retired);
    RewriteAnnounces(f, lines, rows, id, retired);
    RewriteAnnounces(f, Rewritten(f.k, lines, id, f.show(retired)), rows[id := retired], newId, m);
  }

  lemma ChangeFiles(f: Mirror, s: Store, id: Id, m: Memory, before: Memory)
    requires Faithful(f) && Filed(f, s) && id in s.rows && f.clean(m)
    ensures AllAnnounced(f, ChangeRow(f, s, id, m, before).lines, ChangeRow(f, s, id, m, before).rows)
  {
    RewriteAnnounces(f, s.lines, s.rows, id, m);
  }

  lemma StepFiles(f: Mirror, s: Store, step: Step)
    requires Faithful(f) && CleanIsSturdy(f) && Filed(f, s) && Allowed(f, s, step) && FreshText(f, s, step)
    ensures Filed(f, After(f, s, step))
  {
    StepKeeps(f, s, step);
    match step
    case Create(id, d) => AddAnnounces(f, s.lines, s.rows, id, Born(d));
    case Supersede(id, newId, rep) =>
      if id in s.rows {
        RowsAreClean(f, s, id);
        assert Sturdy(f, s.rows[id]);
        SupersedeFiles(f, s.lines, s.rows, id, newId, Retired(s.rows[id], "superseded"), Born(Successor(s.rows[id], rep)));
      }
    case Archive(id) =>
      if id in s.rows {
        RowsAreClean(f, s, id);
        assert Sturdy(f, s.rows[id]);
        ChangeFiles(f, s, id, Retired(s.rows[id], "archived"), s.rows[id]);
      }
    case Verify(id, delta) =>
      if id in s.rows {
        RowsAreClean(f, s, id);
        assert Sturdy(f, s.rows[id]);
        ChangeFiles(f, s, id, Verified(s.rows[id], delta), s.rows[id]);
      }
    case Restore(entry) =>
      if entry < |s.history| {
        var id, snap := s.history[entry].0, s.history[entry].1;
        RowsAreClean(f, s, id);
        assert Sturdy(f, s.rows[id]);
        ChangeFiles(f, s, id, Restored(s.rows[id], snap), s.rows[id]);
      }
    case Sync => SyncSettles(f, s.lines, |s.lines|, s.rows);
  }

  lemma {:induction false} RunFiles(f: Mirror, s: Store, steps: seq<Step>)
    requires Faithful(f) && CleanIsSturdy(f) && Filed(f, s) && AllAllowed(f, s, steps) && AllFresh(f, s, steps)
    ensures Filed(f, Run(f, s, steps))
    decreases |steps|
  {
    if steps != [] {
      StepFiles(f, s, steps[0]);
      RunFiles(f, After(f, s, steps[0]), steps[1..]);
    }
  }

  /** After any run every row is in the file, and a sync reads every one of them: it makes of each what its own line says. */
  lemma SyncReadsEveryRow(x: Chars, r: Readers, start: Store, steps: seq<Step>, id: Id)
    requires Sound(x) && GoodReaders(r) && Filed(FormatOf(x, r), start)
    requires AllAllowed(FormatOf(x, r), start, steps) && AllFresh(FormatOf(x, r), start, steps)
    requires id in Run(FormatOf(x, r), start, steps).rows
    ensures
      var f := FormatOf(x, r);
      var s := Run(f, start, steps);
      SyncRows(f, s).rows.Keys == s.rows.Keys && SyncRows(f, s).rows[id] == Settled(x, s.rows[id])
  {
    var f := FormatOf(x, r);
    FormatIsFaithful(x, r);
    FormatIsSturdy(x, r);
    RunFiles(f, start, steps);
    SyncReadsFiled(f, Run(f, start, steps), id);
  }

  lemma SyncReadsFiled(f: Mirror, s: Store, id: Id)
    requires Faithful(f) && Filed(f, s) && id in s.rows
    ensures SyncRows(f, s).rows.Keys == s.rows.Keys && SyncRows(f, s).rows[id] == f.settled(s.rows[id])
  {
    SyncSettles(f, s.lines, |s.lines|, s.rows);
  }

  predicate Near(a: real, b: real) { -0.005 <= a - b <= 0.005 }

  /** m' differs from m only by stripped ends and rounded scores. */
  predicate Mild(x: Chars, m: Memory, m': Memory) {
    && m'.status == m.status && m'.archived == m.archived
    && (m'.content == m.content || m'.content == Trim(x, m.content)) && (Trimmed(x, m.content) ==> m'.content == m.content)
    && (m'.kind == m.kind || m'.kind == Trim(x, m.kind)) && (Trimmed(x, m.kind) ==> m'.kind == m.kind)
    && (m'.source == m.source || m'.source == Trim(x, m.source)) && (Trimmed(x, m.source) ==> m'.source == m.source)
    && Near(m'.importance, m.importance) && Near(m'.confidence, m.confidence) && Near(m'.stability, m.stability)
  }

  lemma MildOrSame(x: Chars, m: Memory)
    ensures Mild(x, m, m) && Mild(x, m, Settled(x, m))
  {
    SettledMeaning(x, m);
  }

  /** Any file without rows and history is a consistent start. */
  lemma AnyFileStarts(f: Mirror, lines: seq<string>)
    ensures Consistent(f, Store(lines, map[], []))
  {
    var none: map<Id, string> := map[];
    assert AgreesBy(f, lines, map[], none);
  }
}
