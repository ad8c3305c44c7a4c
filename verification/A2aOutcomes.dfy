/** What a delegation leaves behind, read off the remote agent's behaviour alone. */
module A2aOutcomes {
  import opened Common
  import opened A2aTasks

  predicate Ends(status: string) {
    status == "completed" || status == "failed" || status == "canceled" || status == "rejected" || status == "input-required"
  }

  // ---------------------------------------------------------------- one mark

  /** What `mark_task` writes and what it leaves. */
  predicate Marked(t: Task, t': Task, status: string, error: string, now: Time) {
    && t'.status == status && t'.error == error
    && t'.startedAt == (if t.status == "submitted" && (status == "working" || status == "input-required") && t.startedAt == None
                        then Some(now) else t.startedAt)
    && t'.finishedAt == (if status == "completed" || status == "failed" || status == "canceled" || status == "rejected"
                         then Some(now) else t.finishedAt)
    && |t'.events| == |t.events| + 1 && t'.events[..|t.events|] == t.events && t'.events[|t.events|].kind == StatusChange(status, t.status)
  }

  lemma MarkWrites(t: Task, status: string, error: string, now: Time)
    ensures Marked(t, Mark(t, status, error, now), status, error, now)
  {}

  // ---------------------------------------------------------------- the stream

  /** The status in force after item i: the last one reported, or the one before the stream. */
  function Heard(status: string, items: seq<Item>, i: nat): string
    requires i < |items|
  {
    if items[i].status != "" then items[i].status else if i == 0 then status else Heard(status, items, i - 1)
  }

  /** Item i is the first after which a settled status is in force. */
  ghost predicate SettlesFirst(status: string, items: seq<Item>, i: nat) {
    i < |items| && Ends(Heard(status, items, i)) && forall k :: 0 <= k < i ==> !Ends(Heard(status, items, k))
  }

  ghost predicate NeverSettles(status: string, items: seq<Item>) { forall k :: 0 <= k < |items| ==> !Ends(Heard(status, items, k)) }

  function NoteNames(events: seq<Event>): seq<string> {
    if events == [] then []
    else
      var n := |events| - 1;
      NoteNames(events[..n]) + if events[n].kind.Note? then [events[n].kind.name] else []
  }

  function NotesOf(items: seq<Item>): seq<string> { if items == [] then [] else items[0].notes + NotesOf(items[1..]) }

  lemma NoteNamesSnoc(events: seq<Event>, e: Event)
    ensures NoteNames(events + [e]) == NoteNames(events) + if e.kind.Note? then [e.kind.name] else []
  {
    assert (events + [e])[..|events|] == events;
  }

  lemma AddLogs(t: Task, kind: Kind)
    ensures Add(t, kind) == t.(events := Add(t, kind).events)
    ensures NoteNames(Add(t, kind).events) == NoteNames(t.events) + if kind.Note? then [kind.name] else []
  {
    var e := Add(t, kind).events[|t.events|];
    NoteNamesSnoc(t.events, e);
    assert Add(t, kind).events == t.events + [e];
  }

  lemma {:induction false} NotesAreLogged(t: Task, notes: seq<string>)
    ensures NoteNames(AddNotes(t, notes).events) == NoteNames(t.events) + notes
    ensures AddNotes(t, notes) == t.(events := AddNotes(t, notes).events)
  {
    if notes == [] {
      assert NoteNames(t.events) + [] == NoteNames(t.events);
    } else {
      var n := |notes| - 1;
      NotesAreLogged(t, notes[..n]);
      AddLogs(AddNotes(t, notes[..n]), Note(notes[n]));
      OneMore(NoteNames(t.events), notes);
    }
  }

  lemma OneMore(a: seq<string>, notes: seq<string>)
    requires notes != []
    ensures a + notes[..|notes| - 1] + [notes[|notes| - 1]] == a + notes
  {}

  lemma MarkLogsNoNote(t: Task, status: string, error: string, now: Time)
    ensures NoteNames(Mark(t, status, error, now).events) == NoteNames(t.events)
  {
    var t' := Mark(t, status, error, now);
    NoteNamesSnoc(t.events, t'.events[|t.events|]);
    assert t'.events == t.events + [t'.events[|t.events|]];
  }

  lemma {:induction false} HeardShifts(status: string, items: seq<Item>, i: nat)
    requires 0 < i < |items|
    ensures Heard(status, items, i) == Heard(Heard(status, items, 0), items[1..], i - 1)
  {
    if items[i].status == "" && i > 1 { HeardShifts(status, items, i - 1); }
  }

  /** The task after one item. */
  function Took(t: Task, status: string, item: Item, now: Time): Task {
    Mark(AddNotes(t, item.notes), Shown(Either(item.status, status)), "", now)
  }

  lemma TookMeans(t: Task, status: string, item: Item, now: Time)
    ensures
      var t', s := Took(t, status, item, now), if item.status != "" then item.status else status;
      && t'.status == (if Ends(s) then s else "working") && t'.error == ""
      && NoteNames(t'.events) == NoteNames(t.events) + item.notes
      && (t.startedAt.Some? ==> t'.startedAt == t.startedAt)
  {
    NotesAreLogged(t, item.notes);
    MarkLogsNoNote(AddNotes(t, item.notes), Shown(Either(item.status, status)), "", now);
  }

  /** The stream stops at the first settled status and no earlier; the notes of the items taken are logged in order. */
  lemma {:induction false} StreamMeans(t: Task, status: string, items: seq<Item>, now: Time, taken: nat)
    requires t.startedAt.Some? && taken <= |items|
    requires if taken == |items| && NeverSettles(status, items) then true else taken > 0 && SettlesFirst(status, items, taken - 1)
    ensures
      var (t', s, settled) := Stream(t, status, items, now);
      && settled == (taken > 0 && Ends(Heard(status, items, taken - 1)))
      && s == (if taken == 0 then status else Heard(status, items, taken - 1))
      && NoteNames(t'.events) == NoteNames(t.events) + NotesOf(items[..taken])
      && t'.startedAt == t.startedAt && (taken > 0 ==> t'.status == (if Ends(s) then s else "working") && t'.error == "")
      && (taken == 0 ==> t' == t)
    decreases |items|
  {
    if items == [] {
      assert NoteNames(t.events) + [] == NoteNames(t.events);
      assert items[..taken] == [];
    } else {
      var s := Heard(status, items, 0);
      var t1 := Took(t, status, items[0], now);
      TookMeans(t, status, items[0], now);
      NotesOfTaken(items, taken);
      if !Ends(s) {
        StreamShifts(status, items, taken);
        StreamMeans(t1, s, items[1..], now, taken - 1);
        Regroup(NoteNames(t.events), items[0].notes, NotesOf(items[1..][..taken - 1]));
      } else {
        assert taken == 1;
        assert items[1..][..0] == [];
        assert items[0].notes + [] == items[0].notes;
      }
    }
  }

  lemma Regroup(a: seq<string>, b: seq<string>, c: seq<string>)
    ensures a + b + c == a + (b + c)
  {}

  lemma NotesOfTaken(items: seq<Item>, taken: nat)
    requires 0 < taken <= |items|
    ensures NotesOf(items[..taken]) == items[0].notes + NotesOf(items[1..][..taken - 1])
  {
    assert items[..taken][1..] == items[1..][..taken - 1];
  }

  lemma StreamShifts(status: string, items: seq<Item>, taken: nat)
    requires 0 < taken <= |items| && !Ends(Heard(status, items, 0))
    requires if taken == |items| && NeverSettles(status, items) then true else SettlesFirst(status, items, taken - 1)
    ensures
      var s, rest := Heard(status, items, 0), items[1..];
      if taken - 1 == |rest| && NeverSettles(s, rest) then true else taken > 1 && SettlesFirst(s, rest, taken - 2)
    ensures taken > 1 ==> Heard(Heard(status, items, 0), items[1..], taken - 2) == Heard(status, items, taken - 1)
  {
    var s, rest := Heard(status, items, 0), items[1..];
    forall k | 0 <= k < |rest| ensures Heard(s, rest, k) == Heard(status, items, k + 1) { HeardShifts(status, items, k + 1); }
  }

  // ---------------------------------------------------------------- the whole delegation

  /** The status a blocking exchange ends in. */
  function Replied(reply: Reply): string {
    match reply
    case NoAnswer => "failed"
    case Answer(item) => if Ends(item.status) then item.status else "working"
  }

  function ReplyNotes(reply: Reply): seq<string> { if reply.Answer? then reply.item.notes else [] }

  /** A refused stream the client retries without streaming. */
  predicate Refuses(e: Ending) {
    || e == HttpError(400) || e == HttpError(404) || e == HttpError(405) || e == HttpError(501) || e == RpcError(true)
  }

  /** The status a delegation must end in, when the stream, if any, was taken up to `taken`. */
  ghost function Outcome(remote: Remote, taken: nat): string
    requires taken <= |remote.items|
  {
    var last := if taken == 0 then "working" else Heard("working", remote.items, taken - 1);
    if !remote.streaming then Replied(remote.reply)
    else if Ends(last) then last
    else if remote.ending.Closed? then "working"
    else if Refuses(remote.ending) then Replied(remote.reply)
    else "failed"
  }

  ghost function Logged(remote: Remote, taken: nat): seq<string>
    requires taken <= |remote.items|
  {
    var last := if taken == 0 then "working" else Heard("working", remote.items, taken - 1);
    if !remote.streaming then ReplyNotes(remote.reply)
    else
      NotesOf(remote.items[..taken]) +
      if !Ends(last) && Refuses(remote.ending) then ["a2a.streaming_fallback"] + ReplyNotes(remote.reply) else []
  }

  /** How much of the stream is read: up to the first settled status, or all of it. */
  ghost predicate Takes(items: seq<Item>, taken: nat) {
    taken <= |items| && if taken == |items| && NeverSettles("working", items) then true else taken > 0 && SettlesFirst("working", items, taken - 1)
  }

  /** How much of a stream is read is determined, and there is always an answer. */
  lemma {:induction false} TakesSomething(items: seq<Item>, n: nat) returns (taken: nat)
    requires n <= |items| && forall k :: 0 <= k < n ==> !Ends(Heard("working", items, k))
    ensures Takes(items, taken)
    decreases |items| - n
  {
    if n == |items| {
      taken := n;
    } else if Ends(Heard("working", items, n)) {
      taken := n + 1;
    } else {
      taken := TakesSomething(items, n + 1);
    }
  }

  lemma SendMeans(t: Task, reply: Reply, now: Time)
    requires t.startedAt.Some?
    ensures
      var r := Send(t, reply, now);
      && (r.Refused? <==> reply.NoAnswer?)
      && (r.Ok? ==> r.value.status == Replied(reply) && r.value.error == "" && r.value.startedAt == t.startedAt
                    && NoteNames(r.value.events) == NoteNames(t.events) + ReplyNotes(reply))
  {
    if reply.Answer? {
      NotesAreLogged(t, reply.item.notes);
      MarkLogsNoNote(AddNotes(t, reply.item.notes), Shown(reply.item.status), "", now);
    }
  }

  ghost predicate Delivers(t: Task, t': Task, raised: bool, status: string, notes: seq<string>) {
    && (raised ==> status == "failed") && (!raised ==> t'.status == status && t'.error == "")
    && NoteNames(t'.events) == NoteNames(t.events) + notes && t'.startedAt == t.startedAt
  }

  lemma PlainExchange(t: Task, remote: Remote, now: Time)
    requires t.startedAt.Some? && !remote.streaming
    ensures
      var (t', raised) := Exchange(t, remote, now);
      Delivers(t, t', raised, Replied(remote.reply), ReplyNotes(remote.reply)) && (raised <==> remote.reply.NoAnswer?)
  {
    SendMeans(t, remote.reply, now);
    assert NoteNames(t.events) + [] == NoteNames(t.events);
  }

  /** The blocking exchange after a refused stream. */
  lemma FallbackSend(t: Task, t1: Task, notes: seq<string>, reply: Reply, now: Time)
    requires t.startedAt.Some? && t1.startedAt == t.startedAt && NoteNames(t1.events) == NoteNames(t.events) + notes
    ensures
      var t2 := Add(t1, Note("a2a.streaming_fallback"));
      var all := notes + (["a2a.streaming_fallback"] + ReplyNotes(reply));
      match Send(t2, reply, now)
      case Ok(t3) => Delivers(t, t3, false, Replied(reply), all)
      case Refused(_) => Delivers(t, t2, true, Replied(reply), all)
  {
    var t2 := Add(t1, Note("a2a.streaming_fallback"));
    AddLogs(t1, Note("a2a.streaming_fallback"));
    SendMeans(t2, reply, now);
    Regroup4(NoteNames(t.events), notes, ["a2a.streaming_fallback"], ReplyNotes(reply));
    assert reply.NoAnswer? ==> ReplyNotes(reply) == [];
    NothingMore(NoteNames(t.events) + notes + ["a2a.streaming_fallback"]);
  }

  lemma Regroup4(a: seq<string>, b: seq<string>, c: seq<string>, d: seq<string>)
    ensures a + b + c + d == a + (b + (c + d))
  {}

  lemma NothingMore(a: seq<string>)
    ensures a + [] == a
  {}

  lemma StreamEnds(t: Task, t1: Task, s: string, notes: seq<string>, now: Time)
    requires t1.startedAt == t.startedAt && t.startedAt.Some? && NoteNames(t1.events) == NoteNames(t.events) + notes
    ensures Delivers(t, Mark(t1, Shown(s), "", now), false, if Ends(s) then s else "working", notes)
  {
    MarkLogsNoNote(t1, Shown(s), "", now);
  }

  lemma StreamedExchange(t: Task, remote: Remote, now: Time, taken: nat)
    requires t.startedAt.Some? && remote.streaming && Takes(remote.items, taken)
    ensures
      var (t', raised) := Exchange(t, remote, now);
      Delivers(t, t', raised, Outcome(remote, taken), Logged(remote, taken))
  {
    StreamMeans(t, "working", remote.items, now, taken);
    var (t1, s, settled) := Stream(t, "working", remote.items, now);
    var notes := NotesOf(remote.items[..taken]);
    NothingMore(notes);
    AfterStream(t, t1, s, settled, notes, remote, now);
  }

  /** From the end of the stream on. */
  lemma AfterStream(t: Task, t1: Task, s: string, settled: bool, notes: seq<string>, remote: Remote, now: Time)
    requires remote.streaming && Stream(t, "working", remote.items, now) == (t1, s, settled) && (settled <==> Ends(s))
    requires t1.startedAt == t.startedAt && t.startedAt.Some? && NoteNames(t1.events) == NoteNames(t.events) + notes
    ensures
      var (t', raised) := Exchange(t, remote, now);
      Delivers(t, t', raised,
               if Ends(s) then s else if remote.ending.Closed? then "working" else if Refuses(remote.ending) then Replied(remote.reply) else "failed",
               notes + if !Ends(s) && Refuses(remote.ending) then ["a2a.streaming_fallback"] + ReplyNotes(remote.reply) else [])
  {
    NothingMore(notes);
    assert FallsBack(remote.ending) <==> Refuses(remote.ending);
    if settled || remote.ending.Closed? {
      StreamEnds(t, t1, s, notes, now);
    } else if FallsBack(remote.ending) {
      FallbackSend(t, t1, notes, remote.reply, now);
    }
  }

  /**
   A delegation ends in the status the remote agent's first settled report, its blocking reply or its failure calls for;
   it started when it was delegated, has an error exactly when it failed locally, and logs every report it took, in order.
   */
  lemma DelegationOutcome(remote: Remote, now: Time, taken: nat)
    requires Takes(remote.items, taken)
    ensures
      var t := Delegate(remote, now);
      && t.status == Outcome(remote, taken) && t.startedAt == Some(now) && NoteNames(t.events) == Logged(remote, taken)
      && (t.error == "" || (t.error == "delegation failed" && t.status == "failed"))
  {
    var t0 := Mark(NewTask(), "working", "", now);
    MarkLogsNoNote(NewTask(), "working", "", now);
    NoteNamesSnoc([], NewTask().events[0]);
    assert [] + [NewTask().events[0]] == NewTask().events;
    if remote.streaming { StreamedExchange(t0, remote, now, taken); } else { PlainExchange(t0, remote, now); }
    var (t1, raised) := Exchange(t0, remote, now);
    assert [] + Logged(remote, taken) == Logged(remote, taken);
    if raised { MarkLogsNoNote(t1, "failed", "delegation failed", now); }
  }

  /** Cancelling: a task that is not terminal becomes canceled exactly when the remote agent could be told. */
  lemma CancelOutcome(t: Task, remoteOk: bool, now: Time)
    ensures
      var t' := Cancel(t, remoteOk, now);
      if !Terminal(t.status) && remoteOk then Marked(t, t', "canceled", "", now) else t' == t
  {}
}
