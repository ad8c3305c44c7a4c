/** Delegated tasks: the status lifecycle, the gapless event log, and paging through it. */
module A2aTasks {
  import opened Common

  type Time = int

  datatype Kind = StatusChange(status: string, previous: string) | Note(name: string)

  datatype Event = Event(sequence: int, kind: Kind)

  datatype Task = Task(status: string, startedAt: Option<Time>, finishedAt: Option<Time>, error: string, events: seq<Event>)

  predicate Terminal(status: string) {
    status == "completed" || status == "failed" || status == "canceled" || status == "rejected"
  }

  predicate Settles(status: string) { Terminal(status) || status == "input-required" }

  // ---------------------------------------------------------------- the service

  function Add(t: Task, kind: Kind): Task {
    var n := |t.events|;
    t.(events := t.events + [Event(if n > 0 then t.events[n - 1].sequence + 1 else 1, kind)])
  }

  function NewTask(): Task { Add(Task("submitted", None, None, "", []), StatusChange("submitted", "")) }

  /** `mark_task`: no guard on the status it replaces. */
  function Mark(t: Task, status: string, error: string, now: Time): Task {
    var started := if t.status == "submitted" && (status == "working" || status == "input-required") && t.startedAt.None?
                   then Some(now) else t.startedAt;
    var finished := if Terminal(status) then Some(now) else t.finishedAt;
    Add(t.(status := status, startedAt := started, finishedAt := finished, error := error), StatusChange(status, t.status))
  }

  // ---------------------------------------------------------------- the runtime

  /** A streamed result: the status it reports ("" for none), and how many log entries it adds before that. */
  datatype Item = Item(status: string, notes: seq<string>)

  datatype Ending = Closed | HttpError(code: int) | RpcError(unsupported: bool) | OtherError

  datatype Reply = Answer(item: Item) | NoAnswer

  /** Everything the remote agent does during one delegation. */
  datatype Remote = Remote(streaming: bool, items: seq<Item>, ending: Ending, reply: Reply)

  function AddNotes(t: Task, notes: seq<string>): Task {
    if notes == [] then t else Add(AddNotes(t, notes[..|notes| - 1]), Note(notes[|notes| - 1]))
  }

  function Shown(status: string): string { if Settles(status) then status else "working" }

  function Either(a: string, b: string): string { if a != "" then a else b }

  /** The streaming loop: returns the task, the last status, and whether the loop broke off on a settled status. */
  function Stream(t: Task, status: string, items: seq<Item>, now: Time): (Task, string, bool)
    decreases |items|
  {
    if items == [] then (t, status, false)
    else
      var s := Either(items[0].status, status);
      var t1 := Mark(AddNotes(t, items[0].notes), Shown(s), "", now);
      if Settles(s) then (t1, s, true) else Stream(t1, s, items[1..], now)
  }

  predicate FallsBack(e: Ending) {
    match e
    case HttpError(code) => code == 400 || code == 404 || code == 405 || code == 501
    case RpcError(unsupported) => unsupported
    case _ => false
  }

  /** `SendMessage`, after streaming was refused or is not offered. */
  function Send(t: Task, reply: Reply, now: Time): Outcome<Task> {
    match reply
    case NoAnswer => Refused("request failed")
    case Answer(item) => Ok(Mark(AddNotes(t, item.notes), Shown(item.status), "", now))
  }

  /** The task as the failed or finished delegation leaves it, and whether an exception came out. */
  function Exchange(t: Task, remote: Remote, now: Time): (Task, bool) {
    if !remote.streaming then
      match Send(t, remote.reply, now)
      case Ok(t1) => (t1, false)
      case Refused(_) => (t, true)
    else
      var (t1, status, settled) := Stream(t, "working", remote.items, now);
      if settled || remote.ending.Closed? then (Mark(t1, Shown(status), "", now), false)
      else if !FallsBack(remote.ending) then (t1, true)
      else
        var t2 := Add(t1, Note("a2a.streaming_fallback"));
        match Send(t2, remote.reply, now)
        case Ok(t3) => (t3, false)
        case Refused(_) => (t2, true)
  }

  function Delegate(remote: Remote, now: Time): Task {
    var (t, raised) := Exchange(Mark(NewTask(), "working", "", now), remote, now);
    if raised then Mark(t, "failed", "delegation failed", now) else t
  }

  /** `cancel_task`; `remoteOk` says whether telling the remote agent succeeded. */
  function Cancel(t: Task, remoteOk: bool, now: Time): Task {
    if Terminal(t.status) || !remoteOk then t else Mark(t, "canceled", "", now)
  }

  // ---------------------------------------------------------------- lifecycle

  ghost predicate Gapless(events: seq<Event>) { forall i :: 0 <= i < |events| ==> events[i].sequence == i + 1 }

  /** Once a terminal status is logged, every later status entry repeats it. */
  ghost predicate NeverLeft(events: seq<Event>) {
    forall i, j :: 0 <= i < j < |events| ==>
      events[i].kind.StatusChange? && events[j].kind.StatusChange? && Terminal(events[i].kind.status) ==>
      events[j].kind.status == events[i].kind.status
  }

  /** The log agrees with the task: a terminal entry is the task's status. */
  ghost predicate LogAgrees(t: Task) {
    forall i :: 0 <= i < |t.events| && t.events[i].kind.StatusChange? && Terminal(t.events[i].kind.status)
      ==> t.events[i].kind.status == t.status
  }

  ghost predicate Good(t: Task) {
    Gapless(t.events) && NeverLeft(t.events) && LogAgrees(t) && (t.finishedAt.Some? <==> Terminal(t.status))
  }

  lemma MarkKeeps(t: Task, status: string, error: string, now: Time)
    requires Good(t) && (Terminal(t.status) ==> status == t.status)
    ensures Good(Mark(t, status, error, now))
  {}

  lemma {:induction false} NotesKeep(t: Task, notes: seq<string>)
    requires Good(t)
    ensures Good(AddNotes(t, notes)) && AddNotes(t, notes).status == t.status
  {
    if notes != [] { NotesKeep(t, notes[..|notes| - 1]); }
  }

  lemma {:induction false} StreamKeeps(t: Task, status: string, items: seq<Item>, now: Time)
    requires Good(t) && !Terminal(t.status) && !Settles(status)
    ensures
      var (t1, s, settled) := Stream(t, status, items, now);
      && Good(t1) && (settled <==> Settles(s)) && (settled ==> t1.status == s) && (!settled ==> !Terminal(t1.status))
    decreases |items|
  {
    if items != [] {
      NotesKeep(t, items[0].notes);
      var s := Either(items[0].status, status);
      MarkKeeps(AddNotes(t, items[0].notes), Shown(s), "", now);
      if !Settles(s) { StreamKeeps(Mark(AddNotes(t, items[0].notes), Shown(s), "", now), s, items[1..], now); }
    }
  }

  lemma SendKeeps(t: Task, reply: Reply, now: Time)
    requires Good(t) && !Terminal(t.status)
    ensures Send(t, reply, now).Ok? ==> Good(Send(t, reply, now).value)
  {
    if reply.Answer? {
      NotesKeep(t, reply.item.notes);
      MarkKeeps(AddNotes(t, reply.item.notes), Shown(reply.item.status), "", now);
    }
  }

  /** An exception can only come out while the task is not terminal. */
  lemma ExchangeKeeps(t: Task, remote: Remote, now: Time)
    requires Good(t) && t.status == "working"
    ensures
      var (t1, raised) := Exchange(t, remote, now);
      Good(t1) && (raised ==> !Terminal(t1.status))
  {
    if !remote.streaming {
      SendKeeps(t, remote.reply, now);
    } else {
      StreamKeeps(t, "working", remote.items, now);
      var (t1, status, settled) := Stream(t, "working", remote.items, now);
      if settled || remote.ending.Closed? {
        MarkKeeps(t1, Shown(status), "", now);
      } else if FallsBack(remote.ending) {
        SendKeeps(Add(t1, Note("a2a.streaming_fallback")), remote.reply, now);
      }
    }
  }

  lemma DelegateIsGood(remote: Remote, now: Time)
    ensures Good(Delegate(remote, now))
  {
    MarkKeeps(NewTask(), "working", "", now);
    var t := Mark(NewTask(), "working", "", now);
    ExchangeKeeps(t, remote, now);
    var (t1, raised) := Exchange(t, remote, now);
    if raised { MarkKeeps(t1, "failed", "delegation failed", now); }
  }

  datatype Step = Delegating(id: string, remote: Remote) | Cancelling(id: string, remoteOk: bool)

  function Next(tasks: map<string, Task>, step: Step, now: Time): map<string, Task> {
    match step
    case Delegating(id, remote) => if id in tasks then tasks else tasks[id := Delegate(remote, now)]
    case Cancelling(id, ok) => if id in tasks then tasks[id := Cancel(tasks[id], ok, now)] else tasks
  }

  function Run(tasks: map<string, Task>, steps: seq<(Step, Time)>): map<string, Task>
    decreases |steps|
  {
    if steps == [] then tasks else Run(Next(tasks, steps[0].0, steps[0].1), steps[1..])
  }

  /** Over any sequential run, for any remote behaviour: terminal statuses stay, finish times fit, logs have no gaps. */
  lemma {:induction false} LifecycleHolds(tasks: map<string, Task>, steps: seq<(Step, Time)>)
    requires forall id :: id in tasks ==> Good(tasks[id])
    ensures forall id :: id in Run(tasks, steps) ==> Good(Run(tasks, steps)[id])
    decreases |steps|
  {
    if steps != [] {
      var (step, now) := steps[0];
      var tasks1 := Next(tasks, step, now);
      forall id | id in tasks1 ensures Good(tasks1[id]) {
        if step.Delegating? && id == step.id && id !in tasks { DelegateIsGood(step.remote, now); }
        if step.Cancelling? && id == step.id { MarkKeeps(tasks[id], if Terminal(tasks[id].status) then tasks[id].status else "canceled", "", now); }
      }
      LifecycleHolds(tasks1, steps[1..]);
    }
  }

  /** `mark_task` by itself does not keep the lifecycle: exactly the marks that leave a terminal status break it. */
  lemma MarkKeepsIff(t: Task, status: string, error: string, now: Time)
    requires Good(t) && exists i :: 0 <= i < |t.events| && t.events[i].kind.StatusChange? && t.events[i].kind.status == t.status
    ensures Good(Mark(t, status, error, now)) <==> (Terminal(t.status) ==> status == t.status)
  {
    if Terminal(t.status) && status != t.status {
      var i :| 0 <= i < |t.events| && t.events[i].kind.StatusChange? && t.events[i].kind.status == t.status;
      var t1 := Mark(t, status, error, now);
      assert t1.events[i] == t.events[i];
      assert t1.events[|t.events|].kind == StatusChange(status, t.status);
      assert !NeverLeft(t1.events);
    } else {
      MarkKeeps(t, status, error, now);
    }
  }

  // ---------------------------------------------------------------- paging

  function PageSize(limit: int): nat { Max(1, Min(limit, 1000)) }

  /** Events after the cursor, in log order. */
  function After(events: seq<Event>, cursor: int): (r: seq<Event>)
    ensures |r| <= |events|
  {
    if events == [] then []
    else (if events[0].sequence > cursor then [events[0]] else []) + After(events[1..], cursor)
  }

  /** `list_events`. */
  function Page(events: seq<Event>, cursor: int, limit: int): seq<Event> {
    var rest := After(events, cursor);
    if |rest| <= PageSize(limit) then rest else rest[..PageSize(limit)]
  }

  lemma {:induction false} AfterIsSuffix(events: seq<Event>, first: int, cursor: int)
    requires forall i :: 0 <= i < |events| ==> events[i].sequence == first + i
    ensures
      var k := Max(0, Min(|events|, cursor - first + 1));
      After(events, cursor) == events[k..]
  {
    if events != [] {
      AfterIsSuffix(events[1..], first + 1, cursor);
    }
  }

  lemma PageIsSlice(events: seq<Event>, cursor: nat, limit: int)
    requires Gapless(events) && cursor <= |events|
    ensures Page(events, cursor, limit) == events[cursor..Min(|events|, cursor + (if limit < 1 then 1 else if limit > 1000 then 1000 else limit))]
  {
    AfterIsSuffix(events, 1, cursor);
    assert After(events, cursor) == events[cursor..];
  }

  /** Following the cursor from page to page until one is empty. */
  ghost function AllPages(events: seq<Event>, cursor: nat, limit: int): seq<Event>
    requires Gapless(events) && cursor <= |events|
    decreases |events| - cursor
  {
    PageIsSlice(events, cursor, limit);
    var page := Page(events, cursor, limit);
    if page == [] then [] else page + AllPages(events, page[|page| - 1].sequence, limit)
  }

  lemma AllPagesStep(events: seq<Event>, cursor: nat, limit: int, next: nat)
    requires Gapless(events) && cursor < |events| && next == Min(|events|, cursor + PageSize(limit))
    ensures AllPages(events, cursor, limit) == events[cursor..next] + AllPages(events, next, limit)
  {
    PageEnds(events, cursor, limit, next);
  }

  /** A page that is not empty ends at the cursor of the next one. */
  lemma PageEnds(events: seq<Event>, cursor: nat, limit: int, next: nat)
    requires Gapless(events) && cursor < |events| && next == Min(|events|, cursor + PageSize(limit))
    ensures
      var page := Page(events, cursor, limit);
      page == events[cursor..next] && page != [] && page[|page| - 1].sequence == next
  {
    PageIsSlice(events, cursor, limit);
    var page := events[cursor..next];
    assert page[|page| - 1] == events[next - 1];
  }

  lemma Sliced(events: seq<Event>, cursor: nat, next: nat, tail: seq<Event>)
    requires cursor <= next <= |events| && tail == events[next..]
    ensures events[cursor..next] + tail == events[cursor..]
  {}

  /** Paging with any page size returns the rest of the log exactly once and in order. */
  lemma {:induction false} PagingIsExact(events: seq<Event>, cursor: nat, limit: int)
    requires Gapless(events) && cursor <= |events|
    ensures AllPages(events, cursor, limit) == events[cursor..]
    decreases |events| - cursor
  {
    if cursor == |events| {
      PageIsSlice(events, cursor, limit);
    } else {
      var next: nat := Min(|events|, cursor + PageSize(limit));
      AllPagesStep(events, cursor, limit, next);
      PagingIsExact(events, next, limit);
      Sliced(events, cursor, next, AllPages(events, next, limit));
    }
  }

  // ---------------------------------------------------------------- the runtime as it runs

  /** One task row with its event log; the runtime's calls update it in place. */
  class A2aTask {
    var status: string
    var startedAt: Option<Time>
    var finishedAt: Option<Time>
    var error: string
    var events: seq<Event>

    ghost function Model(): Task
      reads this
    {
      Task(status, startedAt, finishedAt, error, events)
    }

    /** `create_task`. */
    constructor ()
      ensures Model() == NewTask()
    {
      status, startedAt, finishedAt, error := "submitted", None, None, "";
      events := [Event(1, StatusChange("submitted", ""))];
    }

    method AddEvent(kind: Kind)
      modifies this
      ensures Model() == Add(old(Model()), kind)
    {
      var sequence := 1;
      if |events| > 0 {
        sequence := events[|events| - 1].sequence + 1;
      }
      events := events + [Event(sequence, kind)];
    }

    method MarkTask(newStatus: string, newError: string, now: Time)
      modifies this
      ensures Model() == Mark(old(Model()), newStatus, newError, now)
    {
      var previous := status;
      status, error := newStatus, newError;
      if previous == "submitted" && (newStatus == "working" || newStatus == "input-required") && startedAt.None? {
        startedAt := Some(now);
      }
      if Terminal(newStatus) {
        finishedAt := Some(now);
      }
      AddEvent(StatusChange(newStatus, previous));
    }

    method LogNotes(notes: seq<string>)
      modifies this
      ensures Model() == AddNotes(old(Model()), notes)
    {
      for n := 0 to |notes|
        invariant Model() == AddNotes(old(Model()), notes[..n])
      {
        assert notes[..n + 1][..n] == notes[..n];
        AddEvent(Note(notes[n]));
      }
      assert notes[..|notes|] == notes;
    }

    /** One streamed result. */
    method TakeItem(item: Item, current: string, now: Time) returns (next: string)
      modifies this
      ensures next == Either(item.status, current)
      ensures Model() == Mark(AddNotes(old(Model()), item.notes), Shown(next), "", now)
    {
      next := if item.status != "" then item.status else current;
      LogNotes(item.notes);
      MarkTask(if Settles(next) then next else "working", "", now);
    }

    /** The streaming loop, with the status variable it carries from item to item. */
    method StreamMessage(items: seq<Item>, now: Time) returns (current: string, settled: bool)
      modifies this
      ensures (Model(), current, settled) == Stream(old(Model()), "working", items, now)
    {
      current := "working";
      for n := 0 to |items|
        invariant Stream(Model(), current, items[n..], now) == Stream(old(Model()), "working", items, now)
      {
        assert items[n..][0] == items[n] && items[n..][1..] == items[n + 1..];
        current := TakeItem(items[n], current, now);
        if Settles(current) {
          return current, true;
        }
      }
      settled := false;
    }

    method SendMessage(reply: Reply, now: Time) returns (ok: bool)
      modifies this
      ensures ok <==> reply.Answer?
      ensures Model() == if ok then Send(old(Model()), reply, now).value else old(Model())
    {
      if reply.NoAnswer? { return false; }
      LogNotes(reply.item.notes);
      MarkTask(if Settles(reply.item.status) then reply.item.status else "working", "", now);
      return true;
    }

    /** `_send_a2a_message`; the result says whether an exception came out. */
    method Talk(remote: Remote, now: Time) returns (raised: bool)
      modifies this
      ensures (Model(), raised) == Exchange(old(Model()), remote, now)
    {
      if remote.streaming {
        var current, settled := StreamMessage(remote.items, now);
        if settled || remote.ending.Closed? {
          MarkTask(if Settles(current) then current else "working", "", now);
          return false;
        }
        if !FallsBack(remote.ending) { return true; }
        AddEvent(Note("a2a.streaming_fallback"));
      }
      var ok := SendMessage(remote.reply, now);
      raised := !ok;
    }

    /** `delegate`, on the task just created. */
    method DelegateTo(remote: Remote, now: Time)
      requires Model() == NewTask()
      modifies this
      ensures Model() == Delegate(remote, now) && Good(Model())
    {
      MarkTask("working", "", now);
      var raised := Talk(remote, now);
      if raised {
        MarkTask("failed", "delegation failed", now);
      }
      DelegateIsGood(remote, now);
    }

    method CancelTask(remoteOk: bool, now: Time) returns (ok: bool)
      modifies this
      ensures Model() == Cancel(old(Model()), remoteOk, now)
      ensures ok <==> Terminal(status)
    {
      if Terminal(status) { return true; }
      if !remoteOk { return false; }
      MarkTask("canceled", "", now);
      return true;
    }

    method ListEvents(cursor: int, limit: int) returns (page: seq<Event>)
      ensures page == Page(events, cursor, limit)
    {
      page := [];
      for n := 0 to |events|
        invariant After(events, cursor) == page + After(events[n..], cursor)
      {
        assert events[n..][0] == events[n] && events[n..][1..] == events[n + 1..];
        if events[n].sequence > cursor { page := page + [events[n]]; }
      }
      var size := Max(1, Min(limit, 1000));
      if |page| > size { page := page[..size]; }
    }
  }
}
