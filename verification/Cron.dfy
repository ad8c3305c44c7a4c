/** The cron scheduler: one tick dispatches, retries and enqueues; keys make a minute enqueue once. */
module Cron {
  import opened Common
  import opened Decimal
  import opened Jobs
  import opened JobProtocol
  import opened JobWrites
  import opened JobStores

  /** A value of the row's metadata: its JSON text, whether it is truthy, and what `int` makes of it, if anything. */
  datatype Setting = Setting(json: string, truthy: bool, whole: Option<int>)

  datatype Metadata = Metadata(systemTask: string, windowHours: Setting, limit: Setting, taskName: string, payload: Option<string>)

  datatype CronRow = CronRow(
    id: string, name: string, metadata: Metadata, enabled: bool,
    nextRunAt: Option<Time>, backoffUntil: Option<Time>, failureCount: nat, runCount: nat,
    lastRunAt: Option<Time>, lastStatus: string, lastEnqueueKey: string)

  /** What the enqueue key digests: the row, its metadata and the minute of the tick. */
  datatype KeyInput = KeyInput(cronJobId: string, name: string, minute: int, metadata: Metadata)

  function Minute(now: Time): int { now / 60 }

  function CronKey(digest: KeyInput -> string, row: CronRow, now: Time): string {
    "cron:" + row.name + ":" + digest(KeyInput(row.id, row.name, Minute(now), row.metadata))
  }

  /** `int(value or default)`, which raises when the value is truthy and no number. */
  function IntOr(v: Setting, default: int): Option<int> { if v.truthy then v.whole else Some(default) }

  function ReviewPayload(hours: int, limit: int): string { "window_hours=" + ShowInt(hours) + ",limit=" + ShowInt(limit) }

  /** What the row enqueues; a setting that is no number raises before anything is enqueued. */
  function CronRequest(row: CronRow): Outcome<Request> {
    var m := row.metadata;
    var trigger := "cron:" + row.name;
    if m.systemTask == "dream_review" then
      var hours, limit := IntOr(m.windowHours, 24), IntOr(m.limit, 50);
      if hours.None? || limit.None? then Refused("invalid setting")
      else Ok(Request("dream_review", ReviewPayload(hours.value, limit.value), trigger, row.id))
    else if m.systemTask == "heartbeat" then
      Ok(Request("heartbeat_check", "", trigger, row.id))
    else
      Ok(Request(if m.taskName == "" then "dream_review" else m.taskName, if m.payload.Some? then m.payload.value else "", trigger, row.id))
  }

  function CronBackoff(failures: nat): nat {
    var shift: nat := Min(Max(1, failures), 10);
    Min(900, Pow2(shift))
  }

  predicate CronDue(row: CronRow, now: Time) {
    row.enabled && Due(row.nextRunAt, now) && Due(row.backoffUntil, now)
  }

  /** The row after `_run_job`; the failure count is never reset by a success. */
  function Ran(row: CronRow, enqueued: bool, key: string, now: Time, next: Time): CronRow {
    var r :=
      if enqueued then row.(lastStatus := "succeeded", backoffUntil := None, lastEnqueueKey := key)
      else row.(lastStatus := "failed", failureCount := row.failureCount + 1,
                backoffUntil := Some(now + CronBackoff(row.failureCount + 1)));
    r.(lastRunAt := Some(now), runCount := r.runCount + 1, nextRunAt := Some(next))
  }

  /** Seconds a row backs off after its n-th failure. */
  function BackoffSeconds(n: nat): nat {
    if n <= 1 then 2 else if n == 2 then 4 else if n == 3 then 8 else if n == 4 then 16 else if n == 5 then 32
    else if n == 6 then 64 else if n == 7 then 128 else if n == 8 then 256 else if n == 9 then 512 else 900
  }

  lemma BackoffInSeconds(n: nat)
    ensures CronBackoff(n) == BackoffSeconds(n)
  {
    PowersOfTwo();
    assert Pow2(9) == 2 * Pow2(8) && Pow2(10) == 2 * Pow2(9);
  }

  /** After a run the row is due again exactly when its next run has come and, after a failure, the backoff is over. */
  lemma DueAgainIff(row: CronRow, enqueued: bool, key: string, now: Time, next: Time, later: Time)
    ensures CronDue(Ran(row, enqueued, key, now, next), later) <==>
            row.enabled && later >= next && (!enqueued ==> later >= now + BackoffSeconds(row.failureCount + 1))
  {
    BackoffInSeconds(row.failureCount + 1);
  }

  /** What a run records about the row, and what it leaves. */
  predicate Records(row: CronRow, row': CronRow, enqueued: bool, key: string, now: Time, next: Time) {
    && row'.id == row.id && row'.name == row.name && row'.metadata == row.metadata && row'.enabled == row.enabled
    && row'.lastRunAt == Some(now) && row'.runCount == row.runCount + 1 && row'.nextRunAt == Some(next)
    && (enqueued ==> row'.lastStatus == "succeeded" && row'.backoffUntil == None && row'.lastEnqueueKey == key && row'.failureCount == row.failureCount)
    && (!enqueued ==>
          && row'.lastStatus == "failed" && row'.failureCount == row.failureCount + 1 && row'.lastEnqueueKey == row.lastEnqueueKey
          && row'.backoffUntil == Some(now + BackoffSeconds(row.failureCount + 1)))
  }

  /** The request names the row, and its task and settings come from the metadata with the defaults 24 and 50. */
  lemma RequestMeaning(row: CronRow)
    ensures
      var m, r := row.metadata, CronRequest(row);
      && (r.Refused? <==> m.systemTask == "dream_review" &&
                          ((m.windowHours.truthy && m.windowHours.whole.None?) || (m.limit.truthy && m.limit.whole.None?)))
      && (r.Ok? ==> r.value.triggeredBy == "cron:" + row.name && r.value.cronJobId == row.id)
      && (m.systemTask == "heartbeat" ==> r.value.taskName == "heartbeat_check" && r.value.payload == "")
      && (m.systemTask != "heartbeat" && m.systemTask != "dream_review" ==>
            && r.value.taskName == (if m.taskName != "" then m.taskName else "dream_review")
            && r.value.payload == (match m.payload case Some(p) => p case None => ""))
      && (m.systemTask == "dream_review" && !m.windowHours.truthy && !m.limit.truthy ==>
            r.value.taskName == "dream_review" && r.value.payload == "window_hours=24,limit=50")
  {
    assert Show(24) == "24" && Show(50) == "50" by { TwoDigits(); }
    assert "window_hours=" + "24" + ",limit=" + "50" == "window_hours=24,limit=50";
  }

  lemma TwoDigits()
    ensures Show(24) == "24" && Show(50) == "50"
  {
    assert Show(2) == "2" && Show(5) == "5";
    assert Show(24) == Show(2) + ['4'] && Show(50) == Show(5) + ['0'];
  }

  /** Two dream-review requests are equal exactly when rows, hours and limit are. */
  lemma SettingsAreKept(a: CronRow, b: CronRow)
    requires a.metadata.systemTask == "dream_review" && b.metadata.systemTask == "dream_review"
    requires CronRequest(a).Ok? && CronRequest(b).Ok?
    ensures CronRequest(a) == CronRequest(b) <==>
      && a.name == b.name && a.id == b.id
      && IntOr(a.metadata.windowHours, 24) == IntOr(b.metadata.windowHours, 24)
      && IntOr(a.metadata.limit, 50) == IntOr(b.metadata.limit, 50)
  {
    if CronRequest(a) == CronRequest(b) {
      assert a.name == CronRequest(a).value.triggeredBy[5..] && b.name == CronRequest(b).value.triggeredBy[5..];
      PayloadInjective(IntOr(a.metadata.windowHours, 24).value, IntOr(a.metadata.limit, 50).value,
                       IntOr(b.metadata.windowHours, 24).value, IntOr(b.metadata.limit, 50).value);
    }
  }

  lemma PayloadInjective(h: int, l: int, h': int, l': int)
    requires ReviewPayload(h, l) == ReviewPayload(h', l')
    ensures h == h' && l == l'
  {
    PayloadTail(h, l);
    PayloadTail(h', l');
    NoComma(h);
    NoComma(h');
    FirstSeparator(',', ShowInt(h), "limit=" + ShowInt(l), ShowInt(h'), "limit=" + ShowInt(l'));
    ShowIntInjective(h, h');
    assert ShowInt(l) == ("limit=" + ShowInt(l))[6..] && ShowInt(l') == ("limit=" + ShowInt(l'))[6..];
    ShowIntInjective(l, l');
  }

  lemma PayloadTail(h: int, l: int)
    ensures |ReviewPayload(h, l)| >= 13 && ReviewPayload(h, l)[13..] == ShowInt(h) + [','] + ("limit=" + ShowInt(l))
  {}

  lemma NoComma(n: int)
    ensures ',' !in ShowInt(n)
  {
    assert n >= 0 ==> AllDigits(Show(n));
    assert n < 0 ==> AllDigits(Show(-n));
  }

  /** SHA-256 in hexadecimal, as far as the scheduler relies on it: no colon, and no two inputs alike. */
  ghost predicate GoodDigest(digest: KeyInput -> string) {
    && (forall a :: ':' !in digest(a))
    && (forall a, b :: digest(a) == digest(b) ==> a == b)
  }

  /** Two enqueue keys agree exactly when row identity, name, metadata and minute agree. */
  lemma CronKeyIff(digest: KeyInput -> string, a: CronRow, now: Time, b: CronRow, later: Time)
    requires GoodDigest(digest)
    ensures CronKey(digest, a, now) == CronKey(digest, b, later) <==>
            a.id == b.id && a.name == b.name && a.metadata == b.metadata && now / 60 == later / 60
  {
    var x := KeyInput(a.id, a.name, Minute(now), a.metadata);
    var y := KeyInput(b.id, b.name, Minute(later), b.metadata);
    if CronKey(digest, a, now) == CronKey(digest, b, later) {
      LastColon("cron:" + a.name, digest(x), "cron:" + b.name, digest(y));
      assert digest(x) == digest(y);
    }
  }

  // ---------------------------------------------------------------- such a digest exists

  /** A string as character codes. */
  function Spelled(s: string): string { if s == [] then "" else Show(s[0] as int) + "." + Spelled(s[1..]) }

  function Packed(parts: seq<string>): string { if parts == [] then "" else Spelled(parts[0]) + "/" + Packed(parts[1..]) }

  function Maybe(s: Option<string>): string { if s.None? then "" else "s" + s.value }

  function SettingParts(v: Setting): seq<string> {
    [v.json, if v.truthy then "1" else "0", Maybe(if v.whole.None? then None else Some(ShowInt(v.whole.value)))]
  }

  function KeyParts(k: KeyInput): seq<string> {
    [k.cronJobId, k.name, ShowInt(k.minute), k.metadata.systemTask, k.metadata.taskName, Maybe(k.metadata.payload)]
    + SettingParts(k.metadata.windowHours) + SettingParts(k.metadata.limit)
  }

  function SampleDigest(): KeyInput -> string { k => Packed(KeyParts(k)) }

  lemma FirstSeparator(c: char, a: string, x: string, b: string, y: string)
    requires c !in a && c !in b && a + [c] + x == b + [c] + y
    ensures a == b && x == y
  {
    var s := a + [c] + x;
    assert s[|a|] == c && s[|b|] == c;
    SeparatorBound(c, a, x, s, |b|);
    SeparatorBound(c, b, y, s, |a|);
    assert a == s[..|a|] && b == s[..|b|];
    assert x == s[|a| + 1..] && y == s[|b| + 1..];
  }

  lemma SeparatorBound(c: char, a: string, x: string, s: string, i: nat)
    requires s == a + [c] + x && c !in a && i < |s| && s[i] == c
    ensures i >= |a|
  {}

  lemma {:induction false} SpelledIsPlain(s: string)
    ensures '/' !in Spelled(s) && ':' !in Spelled(s)
  {
    if s != [] {
      assert AllDigits(Show(s[0] as int));
      SpelledIsPlain(s[1..]);
    }
  }

  lemma {:induction false} SpelledInjective(s: string, t: string)
    requires Spelled(s) == Spelled(t)
    ensures s == t
  {
    if s != [] && t != [] {
      var m, n := s[0] as int, t[0] as int;
      assert AllDigits(Show(m)) && AllDigits(Show(n));
      FirstSeparator('.', Show(m), Spelled(s[1..]), Show(n), Spelled(t[1..]));
      ShowInjective(m, n);
      SpelledInjective(s[1..], t[1..]);
    }
  }

  lemma {:induction false} PackedInjective(a: seq<string>, b: seq<string>)
    requires Packed(a) == Packed(b)
    ensures a == b
  {
    if a != [] && b != [] {
      SpelledIsPlain(a[0]);
      SpelledIsPlain(b[0]);
      FirstSeparator('/', Spelled(a[0]), Packed(a[1..]), Spelled(b[0]), Packed(b[1..]));
      SpelledInjective(a[0], b[0]);
      PackedInjective(a[1..], b[1..]);
    }
  }

  lemma {:induction false} PackedIsPlain(parts: seq<string>)
    ensures ':' !in Packed(parts)
  {
    if parts != [] {
      SpelledIsPlain(parts[0]);
      PackedIsPlain(parts[1..]);
    }
  }

  lemma MaybeInjective(a: Option<string>, b: Option<string>)
    requires Maybe(a) == Maybe(b)
    ensures a == b
  {
    if a.Some? && b.Some? { assert a.value == Maybe(a)[1..] && b.value == Maybe(b)[1..]; }
  }

  lemma SettingInjective(a: Setting, b: Setting)
    requires SettingParts(a) == SettingParts(b)
    ensures a == b
  {
    var x, y := SettingParts(a), SettingParts(b);
    assert x[0] == y[0] && x[1] == y[1] && x[2] == y[2];
    assert x[1][0] == y[1][0];
    MaybeInjective(if a.whole.None? then None else Some(ShowInt(a.whole.value)), if b.whole.None? then None else Some(ShowInt(b.whole.value)));
    if a.whole.Some? { ShowIntInjective(a.whole.value, b.whole.value); }
  }

  lemma KeyPartsInjective(a: KeyInput, b: KeyInput)
    requires KeyParts(a) == KeyParts(b)
    ensures a == b
  {
    var x, y := KeyParts(a), KeyParts(b);
    assert x[0] == y[0] && x[1] == y[1] && x[2] == y[2] && x[3] == y[3] && x[4] == y[4] && x[5] == y[5];
    ShowIntInjective(a.minute, b.minute);
    MaybeInjective(a.metadata.payload, b.metadata.payload);
    assert x[6..9] == SettingParts(a.metadata.windowHours) && y[6..9] == SettingParts(b.metadata.windowHours);
    SettingInjective(a.metadata.windowHours, b.metadata.windowHours);
    assert x[9..] == SettingParts(a.metadata.limit) && y[9..] == SettingParts(b.metadata.limit);
    SettingInjective(a.metadata.limit, b.metadata.limit);
  }

  /** The assumption on digests can be met. */
  lemma GoodDigestExists()
    ensures GoodDigest(SampleDigest())
  {
    var digest := SampleDigest();
    forall a ensures ':' !in digest(a) { PackedIsPlain(KeyParts(a)); }
    forall a, b | digest(a) == digest(b) ensures a == b {
      PackedInjective(KeyParts(a), KeyParts(b));
      KeyPartsInjective(a, b);
    }
  }

  // ---------------------------------------------------------------- whole runs

  ghost predicate CronMade(digest: KeyInput -> string, key: string, request: Request) {
    exists row: CronRow, now: Time :: key == CronKey(digest, row, now) && CronRequest(row) == Ok(request)
  }

  /** Keys that begin with "cron:" come from the scheduler only; the service's own begin with "job:". */
  ghost predicate Honest(digest: KeyInput -> string, step: Step) {
    step.Enqueueing? && "cron:" <= step.key ==> CronMade(digest, step.key, step.request)
  }

  ghost predicate CronJobsOk(digest: KeyInput -> string, t: Tables) {
    forall id :: id in t.jobs && "cron:" <= t.jobs[id].key ==> CronMade(digest, t.jobs[id].key, t.jobs[id].request)
  }

  lemma CronJobsKeep(digest: KeyInput -> string, s: System, step: Step)
    requires CronJobsOk(digest, s.t) && Admissible(s, step) && Honest(digest, step)
    ensures CronJobsOk(digest, Next(s, step).t)
  {
    var t' := Next(s, step).t;
    JobsStay(s, step);
    forall id | id in t'.jobs && "cron:" <= t'.jobs[id].key ensures CronMade(digest, t'.jobs[id].key, t'.jobs[id].request) {
      if id !in s.t.jobs {
        assert step.Enqueueing? && step.id == id;
        assert t'.jobs[id].key == step.key && t'.jobs[id].request == step.request;
      }
    }
  }

  lemma {:induction false} CronJobsHold(digest: KeyInput -> string, s: System, steps: seq<Step>)
    requires CronJobsOk(digest, s.t) && forall k :: 0 <= k < |steps| ==> Honest(digest, steps[k])
    ensures CronJobsOk(digest, Run(s, steps).t)
    decreases |steps|
  {
    if steps != [] && Admissible(s, steps[0]) {
      CronJobsKeep(digest, s, steps[0]);
      CronJobsHold(digest, Next(s, steps[0]), steps[1..]);
    }
  }

  /** A tick is never refused: no cron enqueue conflicts with anything enqueued before it. */
  lemma CronNeverConflicts(digest: KeyInput -> string, s: System, steps: seq<Step>, row: CronRow, now: Time)
    requires GoodDigest(digest) && Initial(s) && forall k :: 0 <= k < |steps| ==> Honest(digest, steps[k])
    ensures CronRequest(row).Ok? ==> !Conflicts(Run(s, steps).t, CronKey(digest, row, now), CronRequest(row).value)
  {
    InvHolds(s, steps);
    CronJobsHold(digest, s, steps);
    if CronRequest(row).Ok? { NoConflict(digest, Run(s, steps).t, row, now); }
  }

  lemma NoConflict(digest: KeyInput -> string, t: Tables, row: CronRow, now: Time)
    requires GoodDigest(digest) && RecordsOk(t) && RecordsOwned(t) && CronJobsOk(digest, t) && CronRequest(row).Ok?
    ensures !Conflicts(t, CronKey(digest, row, now), CronRequest(row).value)
  {
    var key := CronKey(digest, row, now);
    if key in t.records {
      var id :| id in t.jobs && t.jobs[id].key == key;
      assert "cron:" <= key;
      var other: CronRow, earlier: Time :| key == CronKey(digest, other, earlier) && CronRequest(other) == Ok(t.jobs[id].request);
      CronKeyIff(digest, row, now, other, earlier);
    }
  }

  /** All ticks of one minute share one job per row: a later one is a replay that changes nothing. */
  lemma OneJobPerMinute(digest: KeyInput -> string, s: System, steps: seq<Step>, row: CronRow, now: Time, later: Time,
                        id: JobId, step: Step)
    requires GoodDigest(digest) && Initial(s) && now / 60 == later / 60
    requires forall k :: 0 <= k < |steps| ==> Honest(digest, steps[k])
    requires id in Run(s, steps).t.jobs && Run(s, steps).t.jobs[id].key == CronKey(digest, row, now)
    requires step.Enqueueing? && step.key == CronKey(digest, row, later) && CronRequest(row) == Ok(step.request)
    requires Admissible(Run(s, steps), step)
    ensures Next(Run(s, steps), step) == Run(s, steps)
    ensures forall other :: other in Run(s, steps).t.jobs && Run(s, steps).t.jobs[other].key == step.key ==> other == id
  {
    InvHolds(s, steps);
    CronKeyIff(digest, row, now, row, later);
    ReplayOrConflict(s, steps, id, step);
  }

  // ---------------------------------------------------------------- the tick itself

  /** The tables after one row's enqueue; a row whose request raises leaves them alone. */
  function EnqueueRow(t: Tables, id: JobId, row: CronRow, queueId: string, digest: KeyInput -> string, now: Time): (t': Tables)
    ensures t'.jobs.Keys <= t.jobs.Keys + {id}
  {
    var request := CronRequest(row);
    if request.Ok? then Enqueue(t, id, CronKey(digest, row, now), request.value, 3, queueId) else t
  }

  /** Enqueueing for the picked rows in order. */
  function EnqueueAll(t: Tables, rows: seq<CronRow>, picked: seq<nat>, ids: seq<JobId>, queueIds: JobId -> string,
                      digest: KeyInput -> string, now: Time): (t': Tables)
    requires |ids| == |picked| && forall k :: 0 <= k < |picked| ==> picked[k] < |rows|
    ensures t'.jobs.Keys <= t.jobs.Keys + (set k | 0 <= k < |ids| :: ids[k])
  {
    if picked == [] then t
    else
      var n := |picked| - 1;
      var u := EnqueueAll(t, rows, picked[..n], ids[..n], queueIds, digest, now);
      EnqueueRow(u, ids[n], rows[picked[n]], queueIds(ids[n]), digest, now)
  }

  function RowSteps(id: JobId, row: CronRow, queueId: string, digest: KeyInput -> string, now: Time): seq<Step> {
    var request := CronRequest(row);
    if request.Ok? then [Enqueueing(id, CronKey(digest, row, now), request.value, 3, queueId)] else []
  }

  function EnqueueSteps(rows: seq<CronRow>, picked: seq<nat>, ids: seq<JobId>, queueIds: JobId -> string,
                        digest: KeyInput -> string, now: Time): (steps: seq<Step>)
    requires |ids| == |picked| && forall k :: 0 <= k < |picked| ==> picked[k] < |rows|
  {
    if picked == [] then []
    else RowSteps(ids[0], rows[picked[0]], queueIds(ids[0]), digest, now)
         + EnqueueSteps(rows, picked[1..], ids[1..], queueIds, digest, now)
  }

  lemma {:induction false} EnqueueAllFront(t: Tables, rows: seq<CronRow>, picked: seq<nat>, ids: seq<JobId>,
                                           queueIds: JobId -> string, digest: KeyInput -> string, now: Time)
    requires |ids| == |picked| > 0 && forall k :: 0 <= k < |picked| ==> picked[k] < |rows|
    ensures EnqueueAll(t, rows, picked, ids, queueIds, digest, now)
         == EnqueueAll(EnqueueRow(t, ids[0], rows[picked[0]], queueIds(ids[0]), digest, now),
                       rows, picked[1..], ids[1..], queueIds, digest, now)
  {
    var n := |picked| - 1;
    if n == 0 {
      assert picked[..0] == [] && picked[1..] == [] && ids[..0] == [];
    } else {
      EnqueueAllFront(t, rows, picked[..n], ids[..n], queueIds, digest, now);
      assert picked[..n][1..] == picked[1..][..n - 1] && ids[..n][1..] == ids[1..][..n - 1];
      assert picked[1..][n - 1] == picked[n] && ids[1..][n - 1] == ids[n];
    }
  }

  /** One row's enqueue is a run of at most one step. */
  lemma RowIsARun(s: System, id: JobId, row: CronRow, queueId: string, digest: KeyInput -> string, now: Time, more: seq<Step>)
    requires id !in s.t.jobs
    ensures Run(s, RowSteps(id, row, queueId, digest, now) + more) == Run(s.(t := EnqueueRow(s.t, id, row, queueId, digest, now)), more)
  {
    var steps := RowSteps(id, row, queueId, digest, now);
    if CronRequest(row).Ok? {
      assert (steps + more)[0] == steps[0] && (steps + more)[1..] == more;
    } else {
      assert steps + more == more;
    }
  }

  /** The enqueue loop of a tick is a run of enqueue steps. */
  lemma {:induction false} EnqueueIsARun(s: System, rows: seq<CronRow>, picked: seq<nat>, ids: seq<JobId>,
                                         queueIds: JobId -> string, digest: KeyInput -> string, now: Time)
    requires |ids| == |picked| && forall k :: 0 <= k < |picked| ==> picked[k] < |rows|
    requires forall k :: 0 <= k < |ids| ==> ids[k] !in s.t.jobs
    requires forall k, l :: 0 <= k < l < |ids| ==> ids[k] != ids[l]
    ensures Run(s, EnqueueSteps(rows, picked, ids, queueIds, digest, now))
         == s.(t := EnqueueAll(s.t, rows, picked, ids, queueIds, digest, now))
    decreases |picked|
  {
    if picked != [] {
      var s1 := s.(t := EnqueueRow(s.t, ids[0], rows[picked[0]], queueIds(ids[0]), digest, now));
      forall k | 0 <= k < |ids[1..]| ensures ids[1..][k] !in s1.t.jobs { assert ids[1..][k] == ids[k + 1]; }
      RowIsARun(s, ids[0], rows[picked[0]], queueIds(ids[0]), digest, now,
                EnqueueSteps(rows, picked[1..], ids[1..], queueIds, digest, now));
      EnqueueIsARun(s1, rows, picked[1..], ids[1..], queueIds, digest, now);
      EnqueueAllFront(s.t, rows, picked, ids, queueIds, digest, now);
    }
  }

  /** So a whole tick keeps the protocol's invariant, whichever due rows, ready jobs and cron rows its queries return. */
  lemma TickKeepsInv(s: System, due: seq<nat>, t: Tables, rows: seq<CronRow>, broker: nat -> bool, error: string,
                     retryIds: seq<JobId>, picked: seq<nat>, ids: seq<JobId>, queueIds: JobId -> string, digest: KeyInput -> string)
    requires Inv(s)
    requires forall k :: 0 <= k < |due| ==> due[k] < |s.t.outbox| && RowDue(s.t.outbox[due[k]], s.clock)
    requires forall k, l :: 0 <= k < l < |due| ==> due[k] < due[l]
    requires t == DispatchAll(s.t, due, broker, error, s.clock)
    requires forall k :: 0 <= k < |retryIds| ==> retryIds[k] in t.jobs && ReadyForRetry(t.jobs[retryIds[k]], s.clock)
    requires forall k, l :: 0 <= k < l < |retryIds| ==> retryIds[k] != retryIds[l]
    requires |ids| == |picked| && forall k :: 0 <= k < |picked| ==> picked[k] < |rows|
    requires forall k :: 0 <= k < |ids| ==> ids[k] !in s.t.jobs
    requires forall k, l :: 0 <= k < l < |ids| ==> ids[k] != ids[l]
    ensures Inv(s.(t := EnqueueAll(RetryAll(t, retryIds, queueIds), rows, picked, ids, queueIds, digest, s.clock)))
  {
    DispatchKeepsInv(s, due, broker, error);
    RestOfTick(s.(t := t), rows, retryIds, picked, ids, queueIds, digest);
  }

  lemma RestOfTick(s: System, rows: seq<CronRow>, retryIds: seq<JobId>, picked: seq<nat>, ids: seq<JobId>,
                   queueIds: JobId -> string, digest: KeyInput -> string)
    requires Inv(s)
    requires forall k :: 0 <= k < |retryIds| ==> retryIds[k] in s.t.jobs && ReadyForRetry(s.t.jobs[retryIds[k]], s.clock)
    requires forall k, l :: 0 <= k < l < |retryIds| ==> retryIds[k] != retryIds[l]
    requires |ids| == |picked| && forall k :: 0 <= k < |picked| ==> picked[k] < |rows|
    requires forall k :: 0 <= k < |ids| ==> ids[k] !in s.t.jobs
    requires forall k, l :: 0 <= k < l < |ids| ==> ids[k] != ids[l]
    ensures Inv(s.(t := EnqueueAll(RetryAll(s.t, retryIds, queueIds), rows, picked, ids, queueIds, digest, s.clock)))
  {
    RetryKeepsInv(s, retryIds, s.clock, queueIds);
    EnqueueKeepsInv(s.(t := RetryAll(s.t, retryIds, queueIds)), rows, picked, ids, queueIds, digest, s.clock);
  }

  lemma DispatchKeepsInv(s: System, rows: seq<nat>, broker: nat -> bool, error: string)
    requires Inv(s)
    requires forall k :: 0 <= k < |rows| ==> rows[k] < |s.t.outbox| && RowDue(s.t.outbox[rows[k]], s.clock)
    requires forall k, l :: 0 <= k < l < |rows| ==> rows[k] < rows[l]
    ensures Inv(s.(t := DispatchAll(s.t, rows, broker, error, s.clock)))
  {
    DispatchIsARun(s, rows, broker, error);
    InvHolds(s, DispatchSteps(rows, broker, error));
  }

  lemma RetryKeepsInv(s: System, ids: seq<JobId>, now: Time, queueIds: JobId -> string)
    requires Inv(s)
    requires forall k :: 0 <= k < |ids| ==> ids[k] in s.t.jobs && ReadyForRetry(s.t.jobs[ids[k]], now)
    requires forall k, l :: 0 <= k < l < |ids| ==> ids[k] != ids[l]
    ensures Inv(s.(t := RetryAll(s.t, ids, queueIds)))
  {
    RetryIsARun(s, ids, now, queueIds);
    InvHolds(s, RetrySteps(ids, now, queueIds));
  }

  lemma EnqueueKeepsInv(s: System, rows: seq<CronRow>, picked: seq<nat>, ids: seq<JobId>,
                        queueIds: JobId -> string, digest: KeyInput -> string, now: Time)
    requires Inv(s) && |ids| == |picked| && forall k :: 0 <= k < |picked| ==> picked[k] < |rows|
    requires forall k :: 0 <= k < |ids| ==> ids[k] !in s.t.jobs
    requires forall k, l :: 0 <= k < l < |ids| ==> ids[k] != ids[l]
    ensures Inv(s.(t := EnqueueAll(s.t, rows, picked, ids, queueIds, digest, now)))
  {
    EnqueueIsARun(s, rows, picked, ids, queueIds, digest, now);
    InvHolds(s, EnqueueSteps(rows, picked, ids, queueIds, digest, now));
  }

  /** The first n picked rows are not due again; all other rows are as before. */
  ghost predicate Handled(before: seq<CronRow>, rows: seq<CronRow>, picked: seq<nat>, n: nat, now: Time)
    requires n <= |picked| && forall k :: 0 <= k < |picked| ==> picked[k] < |before|
  {
    && |rows| == |before|
    && (forall k :: n <= k < |picked| ==> rows[picked[k]] == before[picked[k]])
    && (forall k :: 0 <= k < n ==> !CronDue(rows[picked[k]], now))
    && (forall i :: 0 <= i < |rows| && i !in picked ==> rows[i] == before[i])
  }

  lemma HandledNext(before: seq<CronRow>, rows: seq<CronRow>, picked: seq<nat>, n: nat, now: Time, row: CronRow)
    requires n < |picked| && forall k :: 0 <= k < |picked| ==> picked[k] < |before|
    requires forall k, l :: 0 <= k < l < |picked| ==> picked[k] != picked[l]
    requires Handled(before, rows, picked, n, now) && !CronDue(row, now)
    ensures Handled(before, rows[picked[n] := row], picked, n + 1, now)
  {}

  /** Ids that are new to the tables and different from each other stay new until they are used. */
  lemma StillNew(t: Tables, rows: seq<CronRow>, picked: seq<nat>, ids: seq<JobId>, n: nat, queueIds: JobId -> string,
                 digest: KeyInput -> string, now: Time)
    requires n < |ids| == |picked| && (forall k :: 0 <= k < |picked| ==> picked[k] < |rows|) && ids[n] !in t.jobs
    requires forall k, l :: 0 <= k < l < |ids| ==> ids[k] != ids[l]
    ensures ids[n] !in EnqueueAll(t, rows, picked[..n], ids[..n], queueIds, digest, now).jobs
  {
    assert forall k :: 0 <= k < n ==> ids[..n][k] == ids[k];
  }

  /** The row's job exists, unless its request raised or its key belongs to another request. */
  ghost predicate Served(t: Tables, row: CronRow, digest: KeyInput -> string, now: Time) {
    var key := CronKey(digest, row, now);
    CronRequest(row).Ok? ==> Conflicts(t, key, CronRequest(row).value) || KeyTaken(t, key)
  }

  lemma ServedHere(t: Tables, id: JobId, row: CronRow, queueId: string, digest: KeyInput -> string, now: Time)
    ensures Served(EnqueueRow(t, id, row, queueId, digest, now), row, digest, now)
  {
    var t' := EnqueueRow(t, id, row, queueId, digest, now);
    var key := CronKey(digest, row, now);
    if CronRequest(row).Ok? && !Conflicts(t, key, CronRequest(row).value) {
      if KeyTaken(t, key) {
        var other :| other in t.jobs && t.jobs[other].key == key;
        assert t'.jobs[other].key == key;
      } else {
        assert id in t'.jobs && t'.jobs[id].key == key;
      }
    }
  }

  lemma ServedStays(t: Tables, id: JobId, row: CronRow, queueId: string, digest: KeyInput -> string, now: Time, other: CronRow)
    requires Served(t, other, digest, now) && id !in t.jobs
    ensures Served(EnqueueRow(t, id, row, queueId, digest, now), other, digest, now)
  {
    var t', key := EnqueueRow(t, id, row, queueId, digest, now), CronKey(digest, other, now);
    if KeyTaken(t, key) {
      var j :| j in t.jobs && t.jobs[j].key == key;
      assert t'.jobs[j].key == key;
    }
  }

  lemma {:induction false} AllServed(t: Tables, rows: seq<CronRow>, picked: seq<nat>, ids: seq<JobId>, queueIds: JobId -> string,
                                     digest: KeyInput -> string, now: Time)
    requires |ids| == |picked| && (forall k :: 0 <= k < |picked| ==> picked[k] < |rows|)
    requires (forall k :: 0 <= k < |ids| ==> ids[k] !in t.jobs) && (forall k, l :: 0 <= k < l < |ids| ==> ids[k] != ids[l])
    ensures forall k :: 0 <= k < |picked| ==> Served(EnqueueAll(t, rows, picked, ids, queueIds, digest, now), rows[picked[k]], digest, now)
  {
    if picked != [] {
      var n := |picked| - 1;
      AllServed(t, rows, picked[..n], ids[..n], queueIds, digest, now);
      StillNew(t, rows, picked, ids, n, queueIds, digest, now);
      var u := EnqueueAll(t, rows, picked[..n], ids[..n], queueIds, digest, now);
      ServedHere(u, ids[n], rows[picked[n]], queueIds(ids[n]), digest, now);
      forall k | 0 <= k < n ensures Served(EnqueueAll(t, rows, picked, ids, queueIds, digest, now), rows[picked[k]], digest, now) {
        assert picked[..n][k] == picked[k];
        ServedStays(u, ids[n], rows[picked[n]], queueIds(ids[n]), digest, now, rows[picked[k]]);
      }
    }
  }

  class Scheduler {
    var rows: seq<CronRow>
    const store: JobStore

    constructor (rows: seq<CronRow>, store: JobStore)
      ensures this.rows == rows && this.store == store
    {
      this.rows, this.store := rows, store;
    }

    /** `_run_job`: an invalid setting and a key conflict both fail the row and leave the job tables alone. */
    method RunCronJob(i: nat, newId: JobId, queueId: string, digest: KeyInput -> string, now: Time, next: Time)
      requires i < |rows| && newId !in store.jobs
      modifies this, store
      ensures
        var row, key := old(rows)[i], CronKey(digest, old(rows)[i], now);
        var failed := CronRequest(row).Refused? || Conflicts(old(store.Model()), key, CronRequest(row).value);
        && store.Model() == EnqueueRow(old(store.Model()), newId, row, queueId, digest, now)
        && (failed ==> store.Model() == old(store.Model()))
        && |rows| == |old(rows)| && rows == old(rows)[i := rows[i]] && Records(row, rows[i], !failed, key, now, next)
        && rows[i] == Ran(row, !failed, key, now, next)
        && (!failed ==> KeyTaken(store.Model(), key))
    {
      BackoffInSeconds(rows[i].failureCount + 1);
      var row := rows[i];
      var key := CronKey(digest, row, now);
      var request := CronRequest(row);
      var failed := request.Refused?;
      if !failed {
        var r := store.EnqueueJob(newId, key, request.value, 3, queueId);
        failed := r.Refused?;
      }
      if failed {
        row := row.(lastStatus := "failed", failureCount := row.failureCount + 1);
        row := row.(backoffUntil := Some(now + CronBackoff(row.failureCount)));
      } else {
        row := row.(lastStatus := "succeeded", backoffUntil := None, lastEnqueueKey := key);
      }
      row := row.(lastRunAt := Some(now), runCount := row.runCount + 1, nextRunAt := Some(next));
      rows := rows[i := row];
    }

    /** The enqueue loop of a tick: no picked row is due again at the same time, no other row changes. */
    method EnqueuePicked(now: Time, picked: seq<nat>, ids: seq<JobId>, queueIds: JobId -> string,
                         digest: KeyInput -> string, nextRun: CronRow -> Time)
      requires forall k :: 0 <= k < |picked| ==> picked[k] < |rows|
      requires forall k, l :: 0 <= k < l < |picked| ==> picked[k] != picked[l]
      requires |ids| == |picked| && forall k :: 0 <= k < |ids| ==> ids[k] !in store.jobs
      requires forall k, l :: 0 <= k < l < |ids| ==> ids[k] != ids[l]
      requires forall row :: nextRun(row) > now
      modifies this, store
      ensures |rows| == |old(rows)|
      ensures store.Model() == EnqueueAll(old(store.Model()), old(rows), picked, ids, queueIds, digest, now)
      ensures forall k :: 0 <= k < |picked| ==> Served(store.Model(), old(rows)[picked[k]], digest, now)
      ensures forall k :: 0 <= k < |picked| ==> !CronDue(rows[picked[k]], now)
      ensures forall i :: 0 <= i < |rows| && i !in picked ==> rows[i] == old(rows)[i]
    {
      ghost var t := store.Model();
      for n := 0 to |picked|
        invariant store.Model() == EnqueueAll(t, old(rows), picked[..n], ids[..n], queueIds, digest, now)
        invariant Handled(old(rows), rows, picked, n, now)
      {
        assert picked[..n + 1][..n] == picked[..n] && ids[..n + 1][..n] == ids[..n];
        StillNew(t, old(rows), picked, ids, n, queueIds, digest, now);
        ghost var before := rows;
        RunCronJob(picked[n], ids[n], queueIds(ids[n]), digest, now, nextRun(rows[picked[n]]));
        HandledNext(old(rows), before, picked, n, now, rows[picked[n]]);
      }
      assert picked[..|picked|] == picked && ids[..|ids|] == ids;
      AllServed(t, old(rows), picked, ids, queueIds, digest, now);
    }

    /** `tick`; `retryIds` and `picked` are what the two queries return inside the transaction. */
    method Tick(now: Time, broker: nat -> bool, error: string, retryIds: seq<JobId>, picked: seq<nat>,
                ids: seq<JobId>, queueIds: JobId -> string, digest: KeyInput -> string, nextRun: CronRow -> Time)
      returns (count: nat)
      requires
        var t := DispatchAll(store.Model(), Prefix(DueRows(store.outbox, now, 0), 100), broker, error, now);
        forall k :: 0 <= k < |retryIds| ==> retryIds[k] in t.jobs && ReadyForRetry(t.jobs[retryIds[k]], now)
      requires forall k, l :: 0 <= k < l < |retryIds| ==> retryIds[k] != retryIds[l]
      requires forall k :: 0 <= k < |picked| ==> picked[k] < |rows| && CronDue(rows[picked[k]], now)
      requires forall k, l :: 0 <= k < l < |picked| ==> picked[k] != picked[l]
      requires |ids| == |picked| && forall k :: 0 <= k < |ids| ==> ids[k] !in store.jobs
      requires forall k, l :: 0 <= k < l < |ids| ==> ids[k] != ids[l]
      requires forall row :: nextRun(row) > now
      modifies this, store
      ensures count == |picked| && |rows| == |old(rows)|
      ensures
        var t := DispatchAll(old(store.Model()), Prefix(DueRows(old(store.outbox), now, 0), 100), broker, error, now);
        && (forall k :: 0 <= k < |retryIds| ==> retryIds[k] in t.jobs)
        && store.Model() == EnqueueAll(RetryAll(t, retryIds, queueIds), old(rows), picked, ids, queueIds, digest, now)
      ensures forall k :: 0 <= k < |picked| ==> !CronDue(rows[picked[k]], now)
      ensures forall i :: 0 <= i < |rows| && i !in picked ==> rows[i] == old(rows)[i]
    {
      var _, _, _, _ := store.DispatchOutbox(now, 100, broker, error);
      store.DispatchRetryable(retryIds, now, queueIds);
      EnqueuePicked(now, picked, ids, queueIds, digest, nextRun);
      count := |picked|;
    }
  }
}
