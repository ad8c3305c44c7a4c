/** Skill proposals: checked against the files they were written for, applied, and rolled back. */
module Skills {
  import opened Common

  type Files = map<string, string>

  // ---------------------------------------------------------------- the checksum

  const NUL := '\0'

  predicate NulFree(s: string) { NUL !in s }

  ghost predicate NulFreeFiles(m: Files) { forall p :: p in m ==> NulFree(p) && NulFree(m[p]) }

  /** What the digest is fed: path, NUL, content, NUL for each file in the given order. */
  function Encode(order: seq<string>, m: Files): string
    requires forall i :: 0 <= i < |order| ==> order[i] in m
  {
    if order == [] then "" else order[0] + [NUL] + m[order[0]] + [NUL] + Encode(order[1..], m)
  }

  function Cut(s: string): (n: nat)
    ensures n <= |s| && NulFree(s[..n]) && (n < |s| ==> s[n] == NUL)
  {
    if s == [] || s[0] == NUL then 0
    else
      var n := Cut(s[1..]);
      assert s[..n + 1] == [s[0]] + s[1..][..n];
      n + 1
  }

  function Decode(s: string): Files
    decreases |s|
  {
    var i := Cut(s);
    if i == |s| then map[]
    else
      var rest := s[i + 1..];
      var j := Cut(rest);
      if j == |rest| then map[] else Decode(rest[j + 1..])[s[..i] := rest[..j]]
  }

  lemma {:induction false} CutAt(a: string, b: string)
    requires NulFree(a)
    ensures Cut(a + [NUL] + b) == |a|
  {
    var s := a + [NUL] + b;
    if a != [] {
      assert s[1..] == a[1..] + [NUL] + b;
      CutAt(a[1..], b);
    }
  }

  /** Each file once, in some order. */
  ghost predicate Lists(order: seq<string>, keys: set<string>) {
    && (forall i, j :: 0 <= i < j < |order| ==> order[i] != order[j])
    && (forall k :: k in keys <==> k in order)
  }

  lemma DecodeChunk(p: string, c: string, tail: string)
    requires NulFree(p) && NulFree(c)
    ensures Decode(p + [NUL] + c + [NUL] + tail) == Decode(tail)[p := c]
  {
    var after := c + [NUL] + tail;
    var s := p + [NUL] + after;
    assert p + [NUL] + c + [NUL] + tail == s;
    CutParts(p, after, s);
    CutParts(c, tail, after);
  }

  lemma CutParts(a: string, b: string, s: string)
    requires NulFree(a) && s == a + [NUL] + b
    ensures Cut(s) == |a| && |a| < |s| && s[..|a|] == a && s[|a| + 1..] == b
  {
    CutAt(a, b);
  }

  lemma ListsRest(order: seq<string>, keys: set<string>)
    requires order != [] && Lists(order, keys)
    ensures order[0] in keys && Lists(order[1..], keys - {order[0]})
  {
    assert order[0] in order;
    forall k ensures k in keys - {order[0]} <==> k in order[1..] { assert k in order <==> k == order[0] || k in order[1..]; }
  }

  /** Taking the first file away leaves a list of the others that encodes to the rest. */
  lemma EncodeRest(order: seq<string>, m: Files, m': Files)
    requires order != [] && Lists(order, m.Keys) && (forall i :: 0 <= i < |order| ==> order[i] in m) && m' == m - {order[0]}
    ensures Lists(order[1..], m'.Keys) && (forall i :: 0 <= i < |order[1..]| ==> order[1..][i] in m')
    ensures Encode(order[1..], m) == Encode(order[1..], m')
  {
    ListsRest(order, m.Keys);
    assert m'.Keys == m.Keys - {order[0]};
    forall i | 0 <= i < |order[1..]| ensures order[1..][i] in m' { assert order[1..][i] == order[i + 1]; }
    EncodeSame(order[1..], m, m');
  }

  lemma {:induction false} DecodeEncode(order: seq<string>, m: Files)
    requires NulFreeFiles(m) && Lists(order, m.Keys)
    requires forall i :: 0 <= i < |order| ==> order[i] in m
    ensures Decode(Encode(order, m)) == m
  {
    if order == [] {
      assert m == map[];
    } else {
      var p := order[0];
      var m' := m - {p};
      EncodeRest(order, m, m');
      assert Decode(Encode(order[1..], m')) == m' by { DecodeEncode(order[1..], m'); }
      DecodeChunk(p, m[p], Encode(order[1..], m));
      assert m == m'[p := m[p]];
    }
  }

  lemma {:induction false} EncodeSame(order: seq<string>, m: Files, m': Files)
    requires forall i :: 0 <= i < |order| ==> order[i] in m && order[i] in m' && m[order[i]] == m'[order[i]]
    ensures Encode(order, m) == Encode(order, m')
  {
    if order != [] { EncodeSame(order[1..], m, m'); }
  }

  /** On NUL-free files the digest input determines the whole map. */
  lemma EncodeInjective(order: seq<string>, m: Files, order': seq<string>, m': Files)
    requires NulFreeFiles(m) && Lists(order, m.Keys) && NulFreeFiles(m') && Lists(order', m'.Keys)
    requires (forall i :: 0 <= i < |order| ==> order[i] in m) && (forall i :: 0 <= i < |order'| ==> order'[i] in m')
    requires Encode(order, m) == Encode(order', m')
    ensures m == m'
  {
    DecodeEncode(order, m);
    DecodeEncode(order', m');
  }

  /** SHA-256 over the sorted files. */
  datatype Hashing = Hashing(sorted: set<string> -> seq<string>, digest: string -> string)

  ghost predicate GoodHashing(h: Hashing) {
    && (forall keys :: Lists(h.sorted(keys), keys))
    && (forall s :: h.digest(s) != "")
    && (forall s, t :: h.digest(s) == h.digest(t) ==> s == t)
  }

  ghost function Listed(keys: set<string>): (order: seq<string>)
    ensures Lists(order, keys)
  {
    if keys == {} then []
    else
      var k :| k in keys;
      var rest := Listed(keys - {k});
      assert k !in rest;
      [k] + rest
  }

  /** The assumption on hashing can be met. */
  lemma GoodHashingExists() returns (h: Hashing)
    ensures GoodHashing(h)
  {
    h := Hashing(keys => Listed(keys), s => "#" + s);
    forall s, t | h.digest(s) == h.digest(t) ensures s == t { assert s == h.digest(s)[1..] && t == h.digest(t)[1..]; }
  }

  lemma OrderIsIn(order: seq<string>, m: Files)
    requires Lists(order, m.Keys)
    ensures forall i :: 0 <= i < |order| ==> order[i] in m
  {
    assert forall i :: 0 <= i < |order| ==> order[i] in order;
  }

  /** What the digest is fed for a file map. */
  function Input(h: Hashing, m: Files): string
    requires GoodHashing(h)
  {
    var order := h.sorted(m.Keys);
    assert Lists(order, m.Keys);
    OrderIsIn(order, m);
    Encode(order, m)
  }

  function Checksum(h: Hashing, m: Files): string
    requires GoodHashing(h)
  {
    h.digest(Input(h, m))
  }

  lemma ChecksumInjective(h: Hashing, m: Files, m': Files)
    requires GoodHashing(h) && NulFreeFiles(m) && NulFreeFiles(m') && Checksum(h, m) == Checksum(h, m')
    ensures m == m'
  {
    var a, b := h.sorted(m.Keys), h.sorted(m'.Keys);
    assert Lists(a, m.Keys) && Lists(b, m'.Keys);
    OrderIsIn(a, m);
    OrderIsIn(b, m');
    EncodeInjective(a, m, b, m');
  }

  // ---------------------------------------------------------------- when the checksum can be fooled

  /** Paths never contain a NUL; the text of a file may. */
  ghost predicate NulFreePaths(m: Files) { forall p :: p in m ==> NulFree(p) }

  function Nuls(s: string): nat { if s == [] then 0 else (if s[0] == NUL then 1 else 0) + Nuls(s[1..]) }

  lemma {:induction false} NulsAdd(a: string, b: string)
    ensures Nuls(a + b) == Nuls(a) + Nuls(b)
  {
    if a == [] {
      assert a + b == b;
    } else {
      assert (a + b)[1..] == a[1..] + b;
      NulsAdd(a[1..], b);
    }
  }

  lemma {:induction false} NoNuls(s: string)
    requires NulFree(s)
    ensures Nuls(s) == 0
  {
    if s != [] { NoNuls(s[1..]); }
  }

  lemma ChunkNuls(p: string, c: string, rest: string)
    ensures Nuls(p + [NUL] + c + [NUL] + rest) == Nuls(p) + Nuls(c) + 2 + Nuls(rest)
  {
    NulsAdd(p + [NUL] + c + [NUL], rest);
    NulsAdd(p + [NUL] + c, [NUL]);
    NulsAdd(p + [NUL], c);
    NulsAdd(p, [NUL]);
    assert [NUL][1..] == [];
  }

  /** Every file contributes at least two NULs. */
  lemma {:induction false} EncodeNuls(order: seq<string>, m: Files)
    requires forall i :: 0 <= i < |order| ==> order[i] in m
    ensures Nuls(Encode(order, m)) >= 2 * |order|
  {
    if order != [] {
      ChunkNuls(order[0], m[order[0]], Encode(order[1..], m));
      EncodeNuls(order[1..], m);
    }
  }

  lemma {:induction false} EncodeEnds(order: seq<string>, m: Files)
    requires order != [] && forall i :: 0 <= i < |order| ==> order[i] in m
    ensures Encode(order, m) != "" && Encode(order, m)[|Encode(order, m)| - 1] == NUL
  {
    if |order| > 1 { EncodeEnds(order[1..], m); }
  }

  lemma EncodeOne(p: string, m: Files)
    requires p in m
    ensures Encode([p], m) == p + [NUL] + m[p] + [NUL]
  {
    assert [p][1..] == [];
  }

  lemma ListsOne(order: seq<string>, p: string)
    requires Lists(order, {p})
    ensures order == [p]
  {
    ListsSize(order, {p});
    assert order[0] in order;
  }

  lemma {:induction false} ListsSize(order: seq<string>, keys: set<string>)
    requires Lists(order, keys)
    ensures |order| == |keys|
  {
    if order == [] {
      assert keys == {};
    } else {
      ListsRest(order, keys);
      ListsSize(order[1..], keys - {order[0]});
    }
  }

  /** The one-file map that swallows everything after the first path. */
  function Swallowed(order: seq<string>, m: Files): Files
    requires |order| >= 2 && forall i :: 0 <= i < |order| ==> order[i] in m
  {
    var tail := Encode(order[1..], m);
    map[order[0] := m[order[0]] + [NUL] + (if tail == "" then "" else tail[..|tail| - 1])]
  }

  lemma SwallowedCollides(order: seq<string>, m: Files)
    requires |order| >= 2 && forall i :: 0 <= i < |order| ==> order[i] in m
    ensures Encode([order[0]], Swallowed(order, m)) == Encode(order, m)
  {
    var p, tail := order[0], Encode(order[1..], m);
    EncodeEnds(order[1..], m);
    EncodeOne(p, Swallowed(order, m));
    Reassociate(p, m[p], tail[..|tail| - 1]);
    assert tail == tail[..|tail| - 1] + [NUL];
  }

  lemma Reassociate(p: string, c: string, rest: string)
    ensures p + [NUL] + (c + [NUL] + rest) + [NUL] == p + [NUL] + c + [NUL] + (rest + [NUL])
  {}

  /** Another map with the same digest input. */
  ghost predicate Collides(h: Hashing, m: Files, m': Files)
    requires GoodHashing(h)
  {
    m' != m && NulFreePaths(m') && Checksum(h, m') == Checksum(h, m)
  }

  lemma BigMapCollides(h: Hashing, m: Files) returns (m': Files)
    requires GoodHashing(h) && NulFreeFiles(m) && |m| >= 2
    ensures Collides(h, m, m')
  {
    var order := h.sorted(m.Keys);
    assert Lists(order, m.Keys);
    OrderIsIn(order, m);
    ListsSize(order, m.Keys);
    assert |m.Keys| == |m|;
    m' := Swallowed(order, m);
    assert m'.Keys == {order[0]};
    assert |m'| == 1;
    var single := h.sorted(m'.Keys);
    assert Lists(single, m'.Keys);
    ListsOne(single, order[0]);
    SwallowedCollides(order, m);
  }

  lemma SmallMapIsSafe(h: Hashing, m: Files, m': Files)
    requires GoodHashing(h) && NulFreeFiles(m) && |m| <= 1 && NulFreePaths(m') && Checksum(h, m') == Checksum(h, m)
    ensures m' == m
  {
    var a, b := h.sorted(m.Keys), h.sorted(m'.Keys);
    assert Lists(a, m.Keys) && Lists(b, m'.Keys);
    OrderIsIn(a, m);
    OrderIsIn(b, m');
    ListsSize(a, m.Keys);
    ListsSize(b, m'.Keys);
    assert |m.Keys| == |m| && |m'.Keys| == |m'|;
    assert Encode(a, m) == Encode(b, m');
    if a == [] {
      EncodeNuls(b, m');
      assert m'.Keys == {} && m.Keys == {};
    } else {
      assert a == [a[0]];
      OneFileIsSafe(a[0], m, b, m');
    }
  }

  lemma OneFileIsSafe(p: string, m: Files, b: seq<string>, m': Files)
    requires p in m && m.Keys == {p} && NulFree(p) && NulFree(m[p]) && NulFreePaths(m')
    requires Lists(b, m'.Keys) && (forall i :: 0 <= i < |b| ==> b[i] in m') && Encode(b, m') == Encode([p], m)
    ensures m' == m
  {
    EncodeOne(p, m);
    assert b != [];
    assert |b| == 1 by {
      OneChunkNuls(p, m[p]);
      EncodeNuls(b, m');
    }
    var q := b[0];
    assert b == [q] && q in b;
    assert forall k :: k in m'.Keys <==> k == q;
    EncodeOne(q, m');
    SamePart(p, m[p], q, m'[q]);
  }

  lemma OneChunkNuls(p: string, c: string)
    requires NulFree(p) && NulFree(c)
    ensures Nuls(p + [NUL] + c + [NUL]) == 2
  {
    NoNuls(p);
    NoNuls(c);
    ChunkNuls(p, c, "");
    assert p + [NUL] + c + [NUL] + "" == p + [NUL] + c + [NUL];
  }

  lemma SamePart(p: string, c: string, q: string, d: string)
    requires NulFree(p) && NulFree(q) && p + [NUL] + c + [NUL] == q + [NUL] + d + [NUL]
    ensures p == q && c == d
  {
    var s := p + [NUL] + c + [NUL];
    assert |p| == |q| by {
      assert s == p + [NUL] + (c + [NUL]) == q + [NUL] + (d + [NUL]);
      CutAt(p, c + [NUL]);
      CutAt(q, d + [NUL]);
    }
    assert p == s[..|p|] && q == s[..|q|];
    assert c == s[|p| + 1..|s| - 1] && d == s[|q| + 1..|s| - 1];
  }

  /** A NUL-free file map shares its checksum with another map exactly when it has two files or more. */
  lemma CollisionIff(h: Hashing, m: Files)
    requires GoodHashing(h) && NulFreeFiles(m)
    ensures (exists m' :: Collides(h, m, m')) <==> |m| >= 2
  {
    if |m| >= 2 {
      var m' := BigMapCollides(h, m);
    } else {
      forall m' | Collides(h, m, m') ensures false { SmallMapIsSafe(h, m, m'); }
    }
  }

  // ---------------------------------------------------------------- proposals and history

  datatype ProposalStatus = Pending | Approved | Applied | Stale | Rejected

  /** `base` is the payload's base_checksum, `target` the checksum taken when the proposal was created. */
  datatype Proposal = Proposal(key: string, files: Files, base: string, target: string, status: ProposalStatus)

  datatype Entry = Entry(key: string, before: Files, after: Files)

  datatype Store = Store(disk: map<string, Files>, history: seq<Entry>, proposals: map<nat, Proposal>)

  function Dir(s: Store, key: string): Files { if key in s.disk then s.disk[key] else map[] }

  /** `create_proposal`; `base` is None unless the caller put a base_checksum in the payload. */
  function Created(h: Hashing, s: Store, id: nat, key: string, files: Files, base: Option<string>): Store
    requires GoodHashing(h)
  {
    var sum := Checksum(h, Dir(s, key));
    s.(proposals := s.proposals[id := Proposal(key, files, if base.Some? then base.value else sum, sum, Pending)])
  }

  predicate Applyable(p: Proposal) { p.status == Pending || p.status == Approved }

  function Expected(p: Proposal): string { if p.base != "" then p.base else p.target }

  function SetStatus(s: Store, id: nat, status: ProposalStatus): Store
    requires id in s.proposals
  {
    s.(proposals := s.proposals[id := s.proposals[id].(status := status)])
  }

  /** Writing the proposal's files over the directory, with its history entry. */
  function Written(s: Store, id: nat): Store
    requires id in s.proposals
  {
    var p := s.proposals[id];
    var before := Dir(s, p.key);
    var after := before + p.files;
    Store(s.disk[p.key := after], s.history + [Entry(p.key, before, after)], s.proposals[id := p.(status := Applied)])
  }

  /** `apply_proposal` on an existing, applyable proposal. */
  function ApplyTo(h: Hashing, s: Store, id: nat, lint: Files -> bool, tests: Files -> bool): Store
    requires GoodHashing(h) && id in s.proposals
  {
    var p := s.proposals[id];
    if !lint(p.files) then SetStatus(s, id, Rejected)
    else if Expected(p) != "" && Checksum(h, Dir(s, p.key)) != Expected(p) then SetStatus(s, id, Stale)
    else if !tests(p.files) then SetStatus(s, id, Rejected)
    else Written(s, id)
  }

  function LastEntry(history: seq<Entry>, key: string): Option<Entry> {
    if history == [] then None
    else if history[|history| - 1].key == key then Some(history[|history| - 1])
    else LastEntry(history[..|history| - 1], key)
  }

  /** `rollback`: files of the last snapshot are written back; files added since stay. */
  function RolledBack(s: Store, key: string): Store
    requires LastEntry(s.history, key).Some?
  {
    var before := LastEntry(s.history, key).value.before;
    var current := Dir(s, key);
    s.(disk := s.disk[key := current + before], history := s.history + [Entry(key, current, before)])
  }

  // ---------------------------------------------------------------- updates lose nothing

  /** A proposal without a caller's checksum is applied only to the files it was created against. */
  lemma AppliedOnlyIfUnchanged(h: Hashing, s0: Store, s: Store, id: nat, key: string, files: Files, lint: Files -> bool, tests: Files -> bool)
    requires GoodHashing(h) && NulFreeFiles(Dir(s0, key)) && NulFreeFiles(Dir(s, key))
    requires id in s.proposals && s.proposals[id] == Created(h, s0, id, key, files, None).proposals[id]
    ensures
      var r := ApplyTo(h, s, id, lint, tests);
      && (r.proposals[id].status == Applied ==> Dir(s, key) == Dir(s0, key) && Dir(r, key) == Dir(s0, key) + files)
      && (r.proposals[id].status != Applied ==> r.disk == s.disk && r.history == s.history)
  {
    if Checksum(h, Dir(s, key)) == Checksum(h, Dir(s0, key)) { ChecksumInjective(h, Dir(s, key), Dir(s0, key)); }
  }

  /** With passing checks it is applied exactly when the files are unchanged; otherwise it goes stale. */
  lemma AppliedIff(h: Hashing, s0: Store, s: Store, id: nat, key: string, files: Files, lint: Files -> bool, tests: Files -> bool)
    requires GoodHashing(h) && NulFreeFiles(Dir(s0, key)) && NulFreeFiles(Dir(s, key)) && lint(files) && tests(files)
    requires id in s.proposals && s.proposals[id] == Created(h, s0, id, key, files, None).proposals[id]
    ensures ApplyTo(h, s, id, lint, tests).proposals[id].status == (if Dir(s, key) == Dir(s0, key) then Applied else Stale)
  {
    if Checksum(h, Dir(s, key)) == Checksum(h, Dir(s0, key)) { ChecksumInjective(h, Dir(s, key), Dir(s0, key)); }
  }

  /** The store with other files in the skill's directory. */
  function Edited(s: Store, key: string, files: Files): Store { s.(disk := s.disk[key := files]) }

  /**
   What that means for `apply_proposal`: a directory that changed after the proposal was created can still be
   overwritten exactly when it held two files or more.
   */
  lemma ChangedDirectoryAppliedIff(h: Hashing, s: Store, id: nat, key: string, files: Files, lint: Files -> bool, tests: Files -> bool)
    requires GoodHashing(h) && NulFreeFiles(Dir(s, key)) && lint(files) && tests(files)
    ensures
      var s1 := Created(h, s, id, key, files, None);
      (exists dir :: dir != Dir(s, key) && NulFreePaths(dir) && ApplyTo(h, Edited(s1, key, dir), id, lint, tests).proposals[id].status == Applied)
      <==> |Dir(s, key)| >= 2
  {
    var s1 := Created(h, s, id, key, files, None);
    assert forall dir :: ApplyTo(h, Edited(s1, key, dir), id, lint, tests).proposals[id].status == Applied <==>
                         Checksum(h, dir) == Checksum(h, Dir(s, key));
    CollisionIff(h, Dir(s, key));
    if |Dir(s, key)| >= 2 {
      var dir :| Collides(h, Dir(s, key), dir);
      assert ApplyTo(h, Edited(s1, key, dir), id, lint, tests).proposals[id].status == Applied;
    } else {
      forall dir | dir != Dir(s, key) && NulFreePaths(dir)
        ensures ApplyTo(h, Edited(s1, key, dir), id, lint, tests).proposals[id].status != Applied
      {
        assert !Collides(h, Dir(s, key), dir);
      }
    }
  }

  /** Every outcome of `apply_proposal`: lint first, then the comparison, then the tests; only applying touches files and history. */
  lemma ApplyOutcome(h: Hashing, s: Store, id: nat, lint: Files -> bool, tests: Files -> bool)
    requires GoodHashing(h) && id in s.proposals
    ensures
      var p, r := s.proposals[id], ApplyTo(h, s, id, lint, tests);
      var expected := if p.base != "" then p.base else p.target;
      var status := if !lint(p.files) then Rejected
                    else if expected != "" && Checksum(h, Dir(s, p.key)) != expected then Stale
                    else if !tests(p.files) then Rejected else Applied;
      && r.proposals == s.proposals[id := Proposal(p.key, p.files, p.base, p.target, status)]
      && (status != Applied ==> r.disk == s.disk && r.history == s.history)
      && (status == Applied ==>
            && (forall key :: key != p.key ==> Dir(r, key) == Dir(s, key))
            && (forall path :: path in Dir(r, p.key) <==> path in Dir(s, p.key) || path in p.files)
            && (forall path :: path in Dir(r, p.key) ==> Dir(r, p.key)[path] == if path in p.files then p.files[path] else Dir(s, p.key)[path])
            && r.history == s.history + [Entry(p.key, Dir(s, p.key), Dir(r, p.key))])
  {}

  /** A created proposal is pending and remembers the checksum of the files it was made for. */
  lemma CreateOutcome(h: Hashing, s: Store, id: nat, key: string, files: Files, base: Option<string>)
    requires GoodHashing(h)
    ensures
      var r, sum := Created(h, s, id, key, files, base), Checksum(h, Dir(s, key));
      && r.disk == s.disk && r.history == s.history
      && r.proposals == s.proposals[id := Proposal(key, files, match base { case Some(b) => b case None => sum }, sum, Pending)]
  {}

  /** Rollback writes back the newest entry's earlier files and remembers what it replaced; other skills stay. */
  lemma RollbackOutcome(s: Store, key: string, other: string)
    requires LastEntry(s.history, key).Some?
    ensures
      var r := RolledBack(s, key);
      && (other != key ==> Dir(r, other) == Dir(s, other)) && r.proposals == s.proposals
      && |r.history| == |s.history| + 1 && r.history[..|s.history|] == s.history
      && r.history[|s.history|].key == key && r.history[|s.history|].before == Dir(s, key)
  {}

  /** The newest entry of the skill. */
  lemma {:induction false} LastEntryIs(history: seq<Entry>, key: string, i: nat)
    requires i < |history| && history[i].key == key && forall j :: i < j < |history| ==> history[j].key != key
    ensures LastEntry(history, key) == Some(history[i])
  {
    if i < |history| - 1 { LastEntryIs(history[..|history| - 1], key, i); }
  }

  lemma RollbackRestores(s: Store, key: string, path: string)
    requires LastEntry(s.history, key).Some?
    ensures
      var before, r := LastEntry(s.history, key).value.before, Dir(RolledBack(s, key), key);
      && (path in before ==> path in r && r[path] == before[path])
      && (path !in before ==> (path in r <==> path in Dir(s, key)) && (path in r ==> r[path] == Dir(s, key)[path]))
  {}

  /** Two rollbacks in a row give back the same files exactly when none of the snapshot's files has gone missing. */
  lemma TwoRollbacksIff(s: Store, key: string)
    requires LastEntry(s.history, key).Some?
    ensures LastEntry(RolledBack(s, key).history, key).Some?
    ensures Dir(RolledBack(RolledBack(s, key), key), key) == Dir(s, key)
            <==> LastEntry(s.history, key).value.before.Keys <= Dir(s, key).Keys
  {
    var before, current := LastEntry(s.history, key).value.before, Dir(s, key);
    var once := RolledBack(s, key);
    var twice := RolledBack(once, key);
    assert Dir(twice, key) == current + before + current;
    if before.Keys <= current.Keys {
      assert current + before + current == current;
    } else {
      var k :| k in before.Keys && k !in current.Keys;
      assert k in current + before + current;
    }
  }

  /** A snapshot file deleted outside the service: two rollbacks bring it back instead of undoing each other. */
  lemma MissingFileComesBack()
    ensures
      var s := Store(map["k" := map["b" := "2"]], [Entry("k", map["a" := "1"], map["b" := "2"])], map[]);
      LastEntry(s.history, "k").Some? && LastEntry(RolledBack(s, "k").history, "k").Some?
      && Dir(RolledBack(RolledBack(s, "k"), "k"), "k") != Dir(s, "k")
  {
    var s := Store(map["k" := map["b" := "2"]], [Entry("k", map["a" := "1"], map["b" := "2"])], map[]);
    assert "a" in LastEntry(s.history, "k").value.before.Keys && "a" !in Dir(s, "k").Keys;
    TwoRollbacksIff(s, "k");
  }

  // ---------------------------------------------------------------- runs of the service

  datatype Step =
    | Create(id: nat, key: string, files: Files, base: Option<string>)
    | Apply(id: nat)
    | Rollback(key: string)

  function Next(h: Hashing, s: Store, step: Step, lint: Files -> bool, tests: Files -> bool): Store
    requires GoodHashing(h)
  {
    match step
    case Create(id, key, files, base) => Created(h, s, id, key, files, base)
    case Apply(id) => if id in s.proposals && Applyable(s.proposals[id]) then ApplyTo(h, s, id, lint, tests) else s
    case Rollback(key) => if LastEntry(s.history, key).Some? then RolledBack(s, key) else s
  }

  function Run(h: Hashing, s: Store, steps: seq<Step>, lint: Files -> bool, tests: Files -> bool): Store
    requires GoodHashing(h)
    decreases |steps|
  {
    if steps == [] then s else Run(h, Next(h, s, steps[0], lint, tests), steps[1..], lint, tests)
  }

  /** Every file any snapshot mentions is still there. */
  ghost predicate NothingMissing(s: Store) {
    forall i :: 0 <= i < |s.history| ==> s.history[i].before.Keys <= Dir(s, s.history[i].key).Keys
  }

  lemma NothingGoesMissing(h: Hashing, s: Store, step: Step, lint: Files -> bool, tests: Files -> bool)
    requires GoodHashing(h) && NothingMissing(s)
    ensures NothingMissing(Next(h, s, step, lint, tests))
  {
    var s' := Next(h, s, step, lint, tests);
    assert forall key :: Dir(s, key).Keys <= Dir(s', key).Keys;
  }

  lemma {:induction false} LastEntryIsOne(history: seq<Entry>, key: string)
    requires LastEntry(history, key).Some?
    ensures exists i :: 0 <= i < |history| && history[i] == LastEntry(history, key).value && history[i].key == key
  {
    var n := |history| - 1;
    if history[n].key != key {
      LastEntryIsOne(history[..n], key);
      var i :| 0 <= i < n && history[..n][i] == LastEntry(history, key).value && history[..n][i].key == key;
      assert history[i] == LastEntry(history, key).value;
    }
  }

  /** In any run of the service, from a fresh history, rollback twice changes no file. */
  lemma {:induction false} UndoRedo(h: Hashing, s: Store, steps: seq<Step>, lint: Files -> bool, tests: Files -> bool, key: string)
    requires GoodHashing(h) && NothingMissing(s)
    ensures
      var e := Run(h, s, steps, lint, tests);
      LastEntry(e.history, key).Some? ==>
        && LastEntry(RolledBack(e, key).history, key).Some?
        && Dir(RolledBack(RolledBack(e, key), key), key) == Dir(e, key)
    decreases |steps|
  {
    if steps == [] {
      if LastEntry(s.history, key).Some? {
        LastEntryIsOne(s.history, key);
        TwoRollbacksIff(s, key);
      }
    } else {
      NothingGoesMissing(h, s, steps[0], lint, tests);
      UndoRedo(h, Next(h, s, steps[0], lint, tests), steps[1..], lint, tests, key);
    }
  }

  // ---------------------------------------------------------------- the service

  /** The files that are not left to write. */
  ghost function Done(files: Files, left: set<string>): Files { map p | p in files && p !in left :: files[p] }

  lemma NothingLeft(files: Files)
    ensures Done(files, {}) == files && Done(files, files.Keys) == map[]
  {}

  lemma OneMoreWritten(before: Files, files: Files, left: set<string>, p: string)
    requires p in left && p in files
    ensures (before + Done(files, left))[p := files[p]] == before + Done(files, left - {p})
  {}

  class SkillService {
    var disk: map<string, Files>
    var history: seq<Entry>
    var proposals: map<nat, Proposal>

    ghost function Model(): Store
      reads this
    {
      Store(disk, history, proposals)
    }

    constructor (disk: map<string, Files>)
      ensures Model() == Store(disk, [], map[])
    {
      this.disk, history, proposals := disk, [], map[];
    }

    method Snapshot(key: string) returns (files: Files)
      ensures files == Dir(Model(), key)
    {
      files := if key in disk then disk[key] else map[];
    }

    /** `snapshot_checksum`'s digest input, fed file by file. */
    method DigestInput(order: seq<string>, files: Files) returns (input: string)
      requires forall i :: 0 <= i < |order| ==> order[i] in files
      ensures input == Encode(order, files)
    {
      input := "";
      for n := 0 to |order|
        invariant Encode(order, files) == input + Encode(order[n..], files)
      {
        assert order[n..][1..] == order[n + 1..];
        var chunk := order[n] + [NUL] + files[order[n]] + [NUL];
        assert Encode(order[n..], files) == chunk + Encode(order[n + 1..], files);
        input := input + chunk;
      }
    }

    method SnapshotChecksum(h: Hashing, files: Files) returns (sum: string)
      requires GoodHashing(h)
      ensures sum == Checksum(h, files)
    {
      var order := h.sorted(files.Keys);
      assert Lists(order, files.Keys);
      OrderIsIn(order, files);
      var input := DigestInput(order, files);
      sum := h.digest(input);
    }

    /** Writes files one by one over the skill's directory. */
    method WriteAll(key: string, files: Files)
      modifies this`disk
      ensures disk == old(disk)[key := Dir(old(Model()), key) + files]
    {
      var left := files.Keys;
      ghost var before := Dir(Model(), key);
      var current := Snapshot(key);
      NothingLeft(files);
      assert before + map[] == before;
      while left != {}
        invariant disk == old(disk) && left <= files.Keys
        invariant current == before + Done(files, left)
        decreases |left|
      {
        var p :| p in left;
        OneMoreWritten(before, files, left, p);
        current := current[p := files[p]];
        left := left - {p};
      }
      assert current == before + files;
      assert before == Dir(old(Model()), key);
      disk := disk[key := current];
      assert disk == old(disk)[key := current];
    }

    method CreateProposal(h: Hashing, id: nat, key: string, files: Files, base: Option<string>)
      requires GoodHashing(h)
      modifies this`proposals
      ensures Model() == Created(h, old(Model()), id, key, files, base)
    {
      var current := Snapshot(key);
      var sum := SnapshotChecksum(h, current);
      var payload := if base.Some? then base.value else sum;
      proposals := proposals[id := Proposal(key, files, payload, sum, Pending)];
    }

    /** `apply_proposal`: refused, rejected, stale or applied. */
    method ApplyProposal(h: Hashing, id: nat, lint: Files -> bool, tests: Files -> bool) returns (r: Outcome<ProposalStatus>)
      requires GoodHashing(h)
      modifies this
      ensures r.Ok? <==> id in old(proposals) && (old(proposals)[id].status == Pending || old(proposals)[id].status == Approved)
      ensures r.Refused? ==> Model() == old(Model())
      ensures r.Ok? ==> Model() == ApplyTo(h, old(Model()), id, lint, tests) && r.value == proposals[id].status
    {
      if id !in proposals { return Refused("proposal not found"); }
      var p := proposals[id];
      if p.status != Pending && p.status != Approved { return Refused("proposal is not applyable"); }
      if !lint(p.files) {
        proposals := proposals[id := p.(status := Rejected)];
        return Ok(Rejected);
      }
      var before := Snapshot(p.key);
      var sum := SnapshotChecksum(h, before);
      var expected := if p.base != "" then p.base else p.target;
      if expected != "" && sum != expected {
        proposals := proposals[id := p.(status := Stale)];
        return Ok(Stale);
      }
      if !tests(p.files) {
        proposals := proposals[id := p.(status := Rejected)];
        return Ok(Rejected);
      }
      WriteAll(p.key, p.files);
      var after := Snapshot(p.key);
      history := history + [Entry(p.key, before, after)];
      proposals := proposals[id := p.(status := Applied)];
      return Ok(Applied);
    }

    method FindLast(key: string) returns (entry: Option<Entry>)
      ensures entry == LastEntry(history, key)
    {
      var n := |history|;
      assert history[..n] == history;
      while n > 0
        invariant 0 <= n <= |history| && LastEntry(history[..n], key) == LastEntry(history, key)
      {
        if history[n - 1].key == key { return Some(history[n - 1]); }
        assert history[..n][..n - 1] == history[..n - 1];
        n := n - 1;
      }
      return None;
    }

    method RollbackSkill(key: string) returns (ok: bool)
      modifies this
      ensures ok <==> LastEntry(old(history), key).Some?
      ensures Model() == if ok then RolledBack(old(Model()), key) else old(Model())
    {
      var last := FindLast(key);
      if last.None? { return false; }
      var current := Snapshot(key);
      WriteAll(key, last.value.before);
      history := history + [Entry(key, current, last.value.before)];
      return true;
    }
  }
}
