/** The service as it runs: methods that update the tables in place, proved against the table functions. */
module JobStores {
  import opened Common
  import opened Decimal
  import opened Jobs
  import opened JobProtocol
  import opened JobWrites

  // ---------------------------------------------------------------- loops as functions

  function PageSize(limit: int): nat { Max(1, Min(limit, 500)) }

  /** Indices of due rows from `start` on, in creation order. */
  function DueRows(rows: seq<Row>, now: Time, start: nat): (r: seq<nat>)
    requires start <= |rows|
    ensures forall k :: 0 <= k < |r| ==> start <= r[k] < |rows| && RowDue(rows[r[k]], now)
    ensures forall k, l :: 0 <= k < l < |r| ==> r[k] < r[l]
    decreases |rows| - start
  {
    if start == |rows| then []
    else (if RowDue(rows[start], now) then [start] else []) + DueRows(rows, now, start + 1)
  }

  function Prefix<T>(s: seq<T>, n: nat): seq<T> { if |s| <= n then s else s[..n] }

  function DispatchAll(t: Tables, rows: seq<nat>, broker: nat -> bool, error: string, now: Time): (t': Tables)
    requires forall k :: 0 <= k < |rows| ==> rows[k] < |t.outbox|
    ensures |t'.outbox| == |t.outbox| && t'.jobs.Keys == t.jobs.Keys
  {
    if rows == [] then t
    else
      var n := |rows| - 1;
      Dispatch(DispatchAll(t, rows[..n], broker, error, now), rows[n], broker(rows[n]), error, now)
  }

  /** How many indices of a list satisfy a test. */
  function CountWhere(rows: seq<nat>, p: nat -> bool): nat {
    if rows == [] then 0 else CountWhere(rows[..|rows| - 1], p) + if p(rows[|rows| - 1]) then 1 else 0
  }

  /** The row's last failed attempt. */
  predicate GivesUp(r: Row, sent: bool) { !sent && r.attempts + 1 >= r.maxAttempts }

  function Losing(outbox: seq<Row>, broker: nat -> bool): nat -> bool { (i: nat) => i < |outbox| && GivesUp(outbox[i], broker(i)) }

  lemma BatchStep(t: Tables, rows: seq<nat>, n: nat, broker: nat -> bool, error: string, now: Time)
    requires n < |rows| && forall k :: 0 <= k < |rows| ==> rows[k] < |t.outbox|
    ensures DispatchAll(t, rows[..n + 1], broker, error, now)
         == Dispatch(DispatchAll(t, rows[..n], broker, error, now), rows[n], broker(rows[n]), error, now)
    ensures forall p: nat -> bool :: CountWhere(rows[..n + 1], p) == CountWhere(rows[..n], p) + if p(rows[n]) then 1 else 0
  {
    assert rows[..n + 1][..n] == rows[..n];
  }

  function RetryAll(t: Tables, ids: seq<JobId>, queueIds: JobId -> string): (t': Tables)
    requires forall k :: 0 <= k < |ids| ==> ids[k] in t.jobs
    ensures t'.jobs.Keys == t.jobs.Keys
  {
    if ids == [] then t
    else
      var n := |ids| - 1;
      var u := RetryAll(t, ids[..n], queueIds);
      Schedule(u, ids[n], queueIds(ids[n]), "retry:" + Show(u.jobs[ids[n]].attempts))
  }

  // ---------------------------------------------------------------- which rows a dispatch scans

  /** Rows between two indices that may be tried. */
  ghost function DueIn(rows: seq<Row>, now: Time, from: nat, until: nat): set<nat>
    requires until <= |rows|
  {
    set j: nat | from <= j < until && Sendable(rows[j], now)
  }

  /** The row may be tried and fewer than max(1, min(limit, 500)) such rows were created before it. */
  ghost predicate Scans(rows: seq<Row>, now: Time, limit: int, i: nat) {
    && i < |rows| && Sendable(rows[i], now)
    && |DueIn(rows, now, 0, i)| < (if limit < 1 then 1 else if limit > 500 then 500 else limit)
  }

  ghost function Scanned(rows: seq<Row>, now: Time, limit: int): set<nat> { set i: nat | i < |rows| && Scans(rows, now, limit, i) }

  lemma DueInStep(rows: seq<Row>, now: Time, from: nat, until: nat)
    requires from < until <= |rows|
    ensures DueIn(rows, now, from, until) == DueIn(rows, now, from + 1, until) + (if Sendable(rows[from], now) then {from} else {})
    ensures from !in DueIn(rows, now, from + 1, until)
  {}

  /** The k-th due row has k due rows before it. */
  lemma {:induction false} RankOfDue(rows: seq<Row>, now: Time, start: nat, k: nat)
    requires start <= |rows| && k < |DueRows(rows, now, start)|
    ensures |DueIn(rows, now, start, DueRows(rows, now, start)[k])| == k
    decreases |rows| - start
  {
    var due := DueRows(rows, now, start);
    if RowDue(rows[start], now) && k == 0 {
      assert due[0] == start;
      assert DueIn(rows, now, start, start) == {};
    } else {
      var k' := if RowDue(rows[start], now) then k - 1 else k;
      assert due[k] == DueRows(rows, now, start + 1)[k'];
      RankOfDue(rows, now, start + 1, k');
      DueInStep(rows, now, start, due[k]);
    }
  }

  /** No due row is missed. */
  lemma {:induction false} DueRowsComplete(rows: seq<Row>, now: Time, start: nat, i: nat) returns (k: nat)
    requires start <= i < |rows| && Sendable(rows[i], now)
    ensures k < |DueRows(rows, now, start)| && DueRows(rows, now, start)[k] == i
    decreases |rows| - start
  {
    if i == start { return 0; }
    k := DueRowsComplete(rows, now, start + 1, i);
    if RowDue(rows[start], now) { k := k + 1; }
  }

  /** The prefix of the due rows is exactly what is to be scanned. */
  lemma PrefixIsScanned(rows: seq<Row>, now: Time, limit: int, i: nat)
    ensures i in Prefix(DueRows(rows, now, 0), PageSize(limit)) <==> i in Scanned(rows, now, limit)
  {
    var due, n := DueRows(rows, now, 0), PageSize(limit);
    if i in Prefix(due, n) {
      var k :| 0 <= k < |Prefix(due, n)| && Prefix(due, n)[k] == i;
      assert due[k] == i;
      RankOfDue(rows, now, 0, k);
    }
    if Scans(rows, now, limit, i) {
      var k := DueRowsComplete(rows, now, 0, i);
      RankOfDue(rows, now, 0, k);
      assert Prefix(due, n)[k] == i;
    }
  }

  lemma {:induction false} DistinctSize(rows: seq<nat>, all: set<nat>)
    requires (forall k, l :: 0 <= k < l < |rows| ==> rows[k] != rows[l]) && forall i: nat :: i in rows <==> i in all
    ensures |all| == |rows|
  {
    if rows == [] {
      assert all == {};
    } else {
      var n := |rows| - 1;
      assert rows[n] in rows;
      forall i: nat ensures i in rows[..n] <==> i in all - {rows[n]} { assert i in rows <==> i in rows[..n] || i == rows[n]; }
      DistinctSize(rows[..n], all - {rows[n]});
    }
  }

  /** Some row of the batch gives up on the job. */
  ghost predicate Doomed(outbox: seq<Row>, rows: seq<nat>, broker: nat -> bool, id: JobId)
    requires forall k :: 0 <= k < |rows| ==> rows[k] < |outbox|
  {
    exists k :: 0 <= k < |rows| && outbox[rows[k]].jobId == id && GivesUp(outbox[rows[k]], broker(rows[k]))
  }

  lemma DispatchOne(t: Tables, i: nat, sent: bool, error: string, now: Time)
    requires i < |t.outbox|
    ensures
      var t' := Dispatch(t, i, sent, error, now);
      && |t'.outbox| == |t.outbox| && t'.outbox == t.outbox[i := t'.outbox[i]] && Tried(t.outbox[i], t'.outbox[i], sent, error, now)
      && t'.jobs.Keys == t.jobs.Keys
      && forall id :: id in t.jobs ==>
           if t.outbox[i].jobId == id && GivesUp(t.outbox[i], sent)
           then Shows(t'.jobs[id], Buried(error, now)) && Spares(t.jobs[id], t'.jobs[id], Buried(error, now))
           else t'.jobs[id] == t.jobs[id]
  {
    DelayInSeconds(t.outbox[i].attempts + 1);
  }

  /** A batch tries each of its rows once and no other row. */
  lemma {:induction false} BatchTries(t: Tables, rows: seq<nat>, broker: nat -> bool, error: string, now: Time, i: nat)
    requires (forall k :: 0 <= k < |rows| ==> rows[k] < |t.outbox|) && (forall k, l :: 0 <= k < l < |rows| ==> rows[k] != rows[l])
    requires i < |t.outbox|
    ensures
      var t' := DispatchAll(t, rows, broker, error, now);
      if i in rows then Tried(t.outbox[i], t'.outbox[i], broker(i), error, now) else t'.outbox[i] == t.outbox[i]
  {
    if rows != [] {
      var n := |rows| - 1;
      BatchTries(t, rows[..n], broker, error, now, i);
      var u := DispatchAll(t, rows[..n], broker, error, now);
      DispatchOne(u, rows[n], broker(rows[n]), error, now);
      assert i in rows <==> i in rows[..n] || i == rows[n];
      if i == rows[n] { assert i !in rows[..n]; }
    }
  }

  lemma DoomedSnoc(outbox: seq<Row>, rows: seq<nat>, broker: nat -> bool, id: JobId)
    requires rows != [] && forall k :: 0 <= k < |rows| ==> rows[k] < |outbox|
    ensures
      var n := |rows| - 1;
      Doomed(outbox, rows, broker, id) <==>
      Doomed(outbox, rows[..n], broker, id) || (outbox[rows[n]].jobId == id && GivesUp(outbox[rows[n]], broker(rows[n])))
  {
    var n := |rows| - 1;
    if Doomed(outbox, rows[..n], broker, id) {
      var k :| 0 <= k < n && outbox[rows[..n][k]].jobId == id && GivesUp(outbox[rows[..n][k]], broker(rows[..n][k]));
      assert rows[k] == rows[..n][k];
    }
    if Doomed(outbox, rows, broker, id) {
      var k :| 0 <= k < |rows| && outbox[rows[k]].jobId == id && GivesUp(outbox[rows[k]], broker(rows[k]));
      assert k < n ==> rows[..n][k] == rows[k];
    }
  }

  /** A batch buries exactly the jobs some row gives up on, and writes no other. */
  lemma {:induction false} BatchBuries(t: Tables, rows: seq<nat>, broker: nat -> bool, error: string, now: Time, id: JobId)
    requires (forall k :: 0 <= k < |rows| ==> rows[k] < |t.outbox|) && (forall k, l :: 0 <= k < l < |rows| ==> rows[k] != rows[l])
    requires id in t.jobs
    ensures
      var t' := DispatchAll(t, rows, broker, error, now);
      if Doomed(t.outbox, rows, broker, id)
      then Shows(t'.jobs[id], Buried(error, now)) && Spares(t.jobs[id], t'.jobs[id], Buried(error, now))
      else t'.jobs[id] == t.jobs[id]
  {
    if rows != [] {
      var n := |rows| - 1;
      BatchBuries(t, rows[..n], broker, error, now, id);
      var u := DispatchAll(t, rows[..n], broker, error, now);
      DispatchOne(u, rows[n], broker(rows[n]), error, now);
      BatchTries(t, rows[..n], broker, error, now, rows[n]);
      assert rows[n] !in rows[..n];
      DoomedSnoc(t.outbox, rows, broker, id);
    }
  }

  ghost function Among(rows: set<nat>, p: nat -> bool): set<nat> { set i | i in rows && p(i) }

  ghost predicate RowsTried(rows: seq<Row>, rows': seq<Row>, now: Time, limit: int, broker: nat -> bool, error: string) {
    |rows'| == |rows| && forall i :: 0 <= i < |rows| ==>
      if Scans(rows, now, limit, i) then Tried(rows[i], rows'[i], broker(i), error, now) else rows'[i] == rows[i]
  }

  /** Some scanned row gives up on the job. */
  ghost predicate Lost(rows: seq<Row>, now: Time, limit: int, broker: nat -> bool, id: JobId) {
    exists i: nat :: Scans(rows, now, limit, i) && rows[i].jobId == id && GivesUp(rows[i], broker(i))
  }

  ghost predicate LostBuried(t: Tables, jobs': map<JobId, Job>, now: Time, limit: int, broker: nat -> bool, error: string) {
    jobs'.Keys == t.jobs.Keys && forall id :: id in t.jobs ==>
      if Lost(t.outbox, now, limit, broker, id)
      then Shows(jobs'[id], Buried(error, now)) && Spares(t.jobs[id], jobs'[id], Buried(error, now))
      else jobs'[id] == t.jobs[id]
  }

  lemma ScannedAre(t: Tables, rows: seq<nat>, now: Time, limit: int)
    requires rows == Prefix(DueRows(t.outbox, now, 0), PageSize(limit))
    ensures forall i: nat :: i in rows <==> i in Scanned(t.outbox, now, limit)
  {
    forall i: nat ensures i in rows <==> i in Scanned(t.outbox, now, limit) { PrefixIsScanned(t.outbox, now, limit, i); }
  }

  lemma ScannedTried(t: Tables, rows: seq<nat>, now: Time, limit: int, broker: nat -> bool, error: string)
    requires rows == Prefix(DueRows(t.outbox, now, 0), PageSize(limit))
    ensures RowsTried(t.outbox, DispatchAll(t, rows, broker, error, now).outbox, now, limit, broker, error)
  {
    ScannedAre(t, rows, now, limit);
    var t' := DispatchAll(t, rows, broker, error, now);
    forall i | 0 <= i < |t.outbox|
      ensures if Scans(t.outbox, now, limit, i) then Tried(t.outbox[i], t'.outbox[i], broker(i), error, now) else t'.outbox[i] == t.outbox[i]
    {
      BatchTries(t, rows, broker, error, now, i);
      assert i in rows <==> i in Scanned(t.outbox, now, limit);
    }
  }

  lemma ScannedBury(t: Tables, rows: seq<nat>, now: Time, limit: int, broker: nat -> bool, error: string)
    requires rows == Prefix(DueRows(t.outbox, now, 0), PageSize(limit))
    ensures LostBuried(t, DispatchAll(t, rows, broker, error, now).jobs, now, limit, broker, error)
  {
    ScannedAre(t, rows, now, limit);
    var t' := DispatchAll(t, rows, broker, error, now);
    forall id | id in t.jobs
      ensures
        if Lost(t.outbox, now, limit, broker, id)
        then Shows(t'.jobs[id], Buried(error, now)) && Spares(t.jobs[id], t'.jobs[id], Buried(error, now))
        else t'.jobs[id] == t.jobs[id]
    {
      BatchBuries(t, rows, broker, error, now, id);
      DoomedIff(t.outbox, rows, Scanned(t.outbox, now, limit), broker, id);
    }
  }

  lemma ScannedCounts(t: Tables, rows: seq<nat>, now: Time, limit: int, broker: nat -> bool)
    requires rows == Prefix(DueRows(t.outbox, now, 0), PageSize(limit))
    ensures |rows| == |Scanned(t.outbox, now, limit)|
    ensures forall p: nat -> bool :: CountWhere(rows, p) == |Among(Scanned(t.outbox, now, limit), p)|
  {
    ScannedAre(t, rows, now, limit);
    DistinctSize(rows, Scanned(t.outbox, now, limit));
    forall p: nat -> bool ensures CountWhere(rows, p) == |Among(Scanned(t.outbox, now, limit), p)| {
      CountIsSize(rows, Scanned(t.outbox, now, limit), p);
    }
  }

  lemma DoomedIff(outbox: seq<Row>, rows: seq<nat>, all: set<nat>, broker: nat -> bool, id: JobId)
    requires (forall k :: 0 <= k < |rows| ==> rows[k] < |outbox|) && (forall i :: i in all ==> i < |outbox|)
    requires forall i: nat :: i in rows <==> i in all
    ensures Doomed(outbox, rows, broker, id) <==> exists i: nat :: i in all && outbox[i].jobId == id && GivesUp(outbox[i], broker(i))
  {
    if Doomed(outbox, rows, broker, id) {
      var k :| 0 <= k < |rows| && outbox[rows[k]].jobId == id && GivesUp(outbox[rows[k]], broker(rows[k]));
      assert rows[k] in rows;
    }
    if i: nat :| i in all && outbox[i].jobId == id && GivesUp(outbox[i], broker(i)) {
      var k :| 0 <= k < |rows| && rows[k] == i;
    }
  }

  lemma {:induction false} CountIsSize(rows: seq<nat>, all: set<nat>, p: nat -> bool)
    requires (forall k, l :: 0 <= k < l < |rows| ==> rows[k] != rows[l]) && (forall i: nat :: i in rows <==> i in all)
    ensures CountWhere(rows, p) == |Among(all, p)|
  {
    if rows == [] {
      assert Among(all, p) == {};
    } else {
      var n := |rows| - 1;
      var i, rest := rows[n], all - {rows[n]};
      assert i in rows;
      forall j: nat ensures j in rows[..n] <==> j in rest { assert j in rows <==> j in rows[..n] || j == i; }
      CountIsSize(rows[..n], rest, p);
      AmongStep(all, rest, i, p);
    }
  }

  lemma AmongStep(all: set<nat>, rest: set<nat>, i: nat, p: nat -> bool)
    requires i in all && rest == all - {i}
    ensures |Among(all, p)| == |Among(rest, p)| + if p(i) then 1 else 0
  {
    assert Among(all, p) == Among(rest, p) + (if p(i) then {i} else {});
  }

  /** Exactly the listed jobs are queued again, each under its new queue id. */
  ghost predicate AllRequeued(jobs: map<JobId, Job>, jobs': map<JobId, Job>, ids: seq<JobId>, queueIds: JobId -> string) {
    jobs'.Keys == jobs.Keys && forall id :: id in jobs ==>
      if id in ids then Shows(jobs'[id], Requeued(queueIds(id))) && Spares(jobs[id], jobs'[id], Requeued(queueIds(id)))
      else jobs'[id] == jobs[id]
  }

  lemma {:induction false} RetryRequeuesOne(t: Tables, ids: seq<JobId>, queueIds: JobId -> string, id: JobId)
    requires (forall k :: 0 <= k < |ids| ==> ids[k] in t.jobs) && (forall k, l :: 0 <= k < l < |ids| ==> ids[k] != ids[l]) && id in t.jobs
    ensures
      var j, j' := t.jobs[id], RetryAll(t, ids, queueIds).jobs[id];
      if id in ids then Shows(j', Requeued(queueIds(id))) && Spares(j, j', Requeued(queueIds(id))) else j' == j
  {
    if ids != [] {
      var n := |ids| - 1;
      RetryRequeuesOne(t, ids[..n], queueIds, id);
      assert id in ids <==> id in ids[..n] || id == ids[n];
      if id == ids[n] { assert id !in ids[..n]; }
    }
  }

  lemma RetryRequeues(t: Tables, ids: seq<JobId>, queueIds: JobId -> string)
    requires (forall k :: 0 <= k < |ids| ==> ids[k] in t.jobs) && (forall k, l :: 0 <= k < l < |ids| ==> ids[k] != ids[l])
    ensures AllRequeued(t.jobs, RetryAll(t, ids, queueIds).jobs, ids, queueIds)
  {
    var jobs' := RetryAll(t, ids, queueIds).jobs;
    forall id | id in t.jobs
      ensures
        if id in ids then Shows(jobs'[id], Requeued(queueIds(id))) && Spares(t.jobs[id], jobs'[id], Requeued(queueIds(id)))
        else jobs'[id] == t.jobs[id]
    {
      RetryRequeuesOne(t, ids, queueIds, id);
    }
  }

  class JobStore {
    var jobs: map<JobId, Job>
    var outbox: seq<Row>
    var records: map<string, Record>

    ghost function Model(): Tables
      reads this
    {
      Tables(jobs, outbox, records)
    }

    constructor ()
      ensures Model() == Tables(map[], [], map[])
    {
      jobs, outbox, records := map[], [], map[];
    }

    method SetStarted(id: JobId, owner: string, now: Time) returns (r: Outcome<Job>)
      modifies this
      ensures id !in old(jobs) ==> r.Refused? && Model() == old(Model())
      ensures id in old(jobs) ==>
        r == Ok(MarkStarted(old(jobs)[id], owner, now)) && Model() == PutJob(old(Model()), id, r.value)
    {
      if id !in jobs { return Refused("background job not found"); }
      var job := jobs[id];
      if Terminal(job.status) {
        assert jobs == jobs[id := job];
        return Ok(job);
      }
      job := job.(status := Running, attempts := job.attempts + 1);
      job := job.(startedAt := Some(now), finishedAt := None, error := "");
      job := job.(lockedAt := Some(now), lockOwner := owner);
      jobs := jobs[id := job];
      return Ok(job);
    }

    method CompleteIdempotency(job: Job, status: RecordStatus)
      modifies this`records
      ensures records == Complete(old(records), job, status)
    {
      if job.key == "" { return; }
      if job.key !in records {
        records := records[job.key := Record(None, Processing, None)];
      }
      records := records[job.key := records[job.key].(status := status, response := Some(job))];
    }

    method SetSucceeded(id: JobId, result: string, now: Time) returns (r: Outcome<Job>)
      modifies this
      ensures id !in old(jobs) ==> r.Refused? && Model() == old(Model())
      ensures id in old(jobs) ==> r.Ok? && Model() == Succeed(old(Model()), id, result, now)
    {
      if id !in jobs { return Refused("background job not found"); }
      var job := MarkSucceeded(jobs[id], result, now);
      jobs := jobs[id := job];
      CompleteIdempotency(job, RecordSucceeded);
      return Ok(job);
    }

    method SetRetrying(id: JobId, error: string, now: Time) returns (r: Outcome<Job>)
      modifies this
      ensures id !in old(jobs) ==> r.Refused? && Model() == old(Model())
      ensures id in old(jobs) ==>
        r == Ok(MarkRetrying(old(jobs)[id], error, now)) && Model() == PutJob(old(Model()), id, r.value)
    {
      if id !in jobs { return Refused("background job not found"); }
      var job := jobs[id];
      var delay := RetryDelay(job.attempts);
      job := job.(status := Retrying, error := error, nextRetryAt := Some(now + delay), lockedAt := None, lockOwner := "");
      jobs := jobs[id := job];
      return Ok(job);
    }

    method SetDeadLetter(id: JobId, error: string, now: Time) returns (r: Outcome<Job>)
      modifies this
      ensures id !in old(jobs) ==> r.Refused? && Model() == old(Model())
      ensures id in old(jobs) ==> r.Ok? && Model() == Bury(old(Model()), id, error, now)
    {
      if id !in jobs { return Refused("background job not found"); }
      var job := MarkDeadLetter(jobs[id], error, now);
      jobs := jobs[id := job];
      CompleteIdempotency(job, RecordFailed);
      return Ok(job);
    }

    method CancelJob(id: JobId, now: Time) returns (r: Outcome<Job>)
      modifies this
      ensures r.Ok? <==> id in old(jobs) && Cancellable(old(jobs)[id])
      ensures r.Refused? ==> Model() == old(Model())
      ensures r.Ok? ==> Model() == PutJob(old(Model()), id, MarkCancelled(old(jobs)[id], now)) && r.value == jobs[id]
    {
      if id !in jobs { return Refused("background job not found"); }
      var job := jobs[id];
      if job.status != Queued && job.status != Retrying && job.status != Running {
        return Refused("job is not cancellable");
      }
      job := job.(status := Cancelled, finishedAt := Some(now), lockedAt := None, lockOwner := "");
      jobs := jobs[id := job];
      return Ok(job);
    }

    method CreateOutbox(id: JobId, queueId: string, key: string)
      modifies this`outbox
      ensures outbox == AddRow(old(outbox), id, queueId, key)
    {
      for i := 0 to |outbox|
        invariant outbox == old(outbox)
        invariant forall k :: 0 <= k < i ==> outbox[k].key != key
      {
        if outbox[i].key == key { return; }
      }
      outbox := outbox + [Row(id, queueId, key, Pending, 0, 5, None, "")];
    }

    method ScheduleDispatch(id: JobId, queueId: string, reason: string)
      requires id in jobs
      modifies this
      ensures Model() == Schedule(old(Model()), id, queueId, reason)
    {
      var job := MarkEnqueued(jobs[id], queueId);
      jobs := jobs[id := job];
      CreateOutbox(id, queueId, DispatchKey(KeyBase(id, job), reason, job.attempts));
    }

    method RescheduleJob(id: JobId, queueId: string, reason: string) returns (ok: bool)
      requires id in jobs
      modifies this
      ensures ok <==> old(jobs)[id].status == Queued || old(jobs)[id].status == Retrying
      ensures Model() == if ok then Schedule(old(Model()), id, queueId, reason) else old(Model())
    {
      if jobs[id].status != Queued && jobs[id].status != Retrying { return false; }
      ScheduleDispatch(id, queueId, reason);
      return true;
    }

    /** Looks for a job under the key, as the unique lookup in the database does. */
    method FindByKey(key: string) returns (found: Option<JobId>)
      ensures found.None? <==> !KeyTaken(Model(), key)
      ensures found.Some? ==> found.value in jobs && jobs[found.value].key == key
    {
      var left := jobs.Keys;
      while left != {}
        invariant left <= jobs.Keys
        invariant forall id :: id in jobs && id !in left ==> jobs[id].key != key
        decreases |left|
      {
        var id :| id in left;
        if jobs[id].key == key { return Some(id); }
        left := left - {id};
      }
      return None;
    }

    /** `enqueue_background_job`; refused exactly when the key is used with another request. */
    method EnqueueJob(newId: JobId, key: string, request: Request, maxAttempts: int, queueId: string)
      returns (r: Outcome<JobId>)
      requires newId !in jobs
      modifies this
      ensures Model() == Enqueue(old(Model()), newId, key, request, maxAttempts, queueId)
      ensures r.Refused? <==> Conflicts(old(Model()), key, request)
      ensures r.Ok? ==> r.value in jobs && jobs[r.value].key == key && (r.value == newId <==> !KeyTaken(old(Model()), key))
    {
      if key != "" {
        if key !in records {
          records := records[key := Record(Some(request), Processing, None)];
        } else if records[key].digest.Some? && records[key].digest.value != request {
          return Refused("idempotency key reused with different payload");
        }
      }
      var existing := FindByKey(key);
      if existing.Some? { return Ok(existing.value); }
      jobs := jobs[newId := NewJob(request, key, maxAttempts)];
      ScheduleDispatch(newId, queueId, "enqueue");
      return Ok(newId);
    }

    method DispatchRow(i: nat, sent: bool, error: string, now: Time)
      requires i < |outbox|
      modifies this
      ensures Model() == Dispatch(old(Model()), i, sent, error, now)
      ensures outbox == old(outbox)[i := outbox[i]]
      ensures !sent ==> (outbox[i].status == Dead <==> old(outbox)[i].attempts + 1 >= old(outbox)[i].maxAttempts)
    {
      var row := outbox[i];
      row := row.(attempts := row.attempts + 1);
      if sent {
        outbox := outbox[i := row.(status := Dispatched, lastError := "", nextAttemptAt := None)];
        return;
      }
      row := row.(lastError := error);
      if row.attempts >= row.maxAttempts {
        outbox := outbox[i := row.(status := Dead)];
        var _ := SetDeadLetter(row.jobId, error, now);
      } else {
        outbox := outbox[i := row.(status := RetryLater, nextAttemptAt := Some(now + RetryDelay(row.attempts)))];
      }
    }

    method DispatchBatch(rows: seq<nat>, now: Time, broker: nat -> bool, error: string)
      returns (dispatched: nat, failed: nat, dead: nat)
      requires forall k :: 0 <= k < |rows| ==> rows[k] < |outbox|
      requires forall k, l :: 0 <= k < l < |rows| ==> rows[k] != rows[l]
      modifies this
      ensures Model() == DispatchAll(old(Model()), rows, broker, error, now)
      ensures dispatched + failed == |rows| && dead <= failed && dead == CountWhere(rows, Losing(old(outbox), broker))
      ensures dispatched == CountWhere(rows, broker)
    {
      ghost var was := Model();
      dispatched, failed, dead := 0, 0, 0;
      for n := 0 to |rows|
        invariant Model() == DispatchAll(was, rows[..n], broker, error, now)
        invariant dispatched + failed == n && dead <= failed && dispatched == CountWhere(rows[..n], broker)
        invariant dead == CountWhere(rows[..n], Losing(was.outbox, broker))
        invariant forall k :: n <= k < |rows| ==> outbox[rows[k]] == was.outbox[rows[k]]
      {
        BatchStep(was, rows, n, broker, error, now);
        assert rows[..n + 1][..n] == rows[..n];
        var sent := broker(rows[n]);
        DispatchRow(rows[n], sent, error, now);
        if sent {
          dispatched := dispatched + 1;
        } else {
          failed := failed + 1;
          if outbox[rows[n]].status == Dead { dead := dead + 1; }
        }
      }
      assert rows[..|rows|] == rows;
    }

    /**
     `dispatch_outbox`: the first max(1, min(limit, 500)) rows that may be tried are tried once, no other row changes,
     jobs are buried exactly when such a row gives up on them, and the counters are exact.
     */
    method DispatchOutbox(now: Time, limit: int, broker: nat -> bool, error: string)
      returns (scanned: nat, dispatched: nat, failed: nat, dead: nat)
      modifies this
      ensures Model() == DispatchAll(old(Model()), Prefix(DueRows(old(outbox), now, 0), PageSize(limit)), broker, error, now)
      ensures RowsTried(old(outbox), outbox, now, limit, broker, error)
      ensures LostBuried(old(Model()), jobs, now, limit, broker, error)
      ensures scanned == |Scanned(old(outbox), now, limit)| && failed == scanned - dispatched
      ensures dispatched == |Among(Scanned(old(outbox), now, limit), broker)|
      ensures dead == |Among(Scanned(old(outbox), now, limit), Losing(old(outbox), broker))|
    {
      ghost var was := Model();
      var rows := Prefix(DueRows(outbox, now, 0), PageSize(limit));
      scanned := |rows|;
      dispatched, failed, dead := DispatchBatch(rows, now, broker, error);
      ScannedTried(was, rows, now, limit, broker, error);
      ScannedBury(was, rows, now, limit, broker, error);
      ScannedCounts(was, rows, now, limit, broker);
    }

    /** `_dispatch_retryable_jobs` over the ids that the retry query returned. */
    method DispatchRetryable(ids: seq<JobId>, now: Time, queueIds: JobId -> string)
      requires forall k :: 0 <= k < |ids| ==> ids[k] in jobs && ReadyForRetry(jobs[ids[k]], now)
      requires forall k, l :: 0 <= k < l < |ids| ==> ids[k] != ids[l]
      modifies this
      ensures Model() == RetryAll(old(Model()), ids, queueIds)
      ensures AllRequeued(old(jobs), jobs, ids, queueIds)
    {
      for n := 0 to |ids|
        invariant Model() == RetryAll(old(Model()), ids[..n], queueIds)
        invariant forall k :: n <= k < |ids| ==> ids[k] in jobs && jobs[ids[k]] == old(jobs)[ids[k]]
      {
        assert ids[..n + 1][..n] == ids[..n];
        var _ := RescheduleJob(ids[n], queueIds(ids[n]), "retry:" + Show(jobs[ids[n]].attempts));
      }
      assert ids[..|ids|] == ids;
      RetryRequeues(old(Model()), ids, queueIds);
    }

    /** First transaction of `_run_job`: claim the job or skip it. */
    method ClaimJob(id: JobId, owner: string, now: Time) returns (flight: Option<Flight>)
      modifies this
      ensures flight.Some? <==> id in old(jobs) && ShouldRun(old(jobs)[id], now)
      ensures flight.None? ==> Model() == old(Model())
      ensures flight.Some? ==>
        var j := MarkStarted(old(jobs)[id], owner, now);
        Model() == PutJob(old(Model()), id, j) && flight.value == Flight(id, j.attempts, j.maxAttempts, owner)
    {
      if id !in jobs || !ShouldRun(jobs[id], now) { return None; }
      var started := SetStarted(id, owner, now);
      return Some(Flight(id, started.value.attempts, started.value.maxAttempts, owner));
    }

    /** Last transaction of `_run_job`; the outcome is the result of the task or its exception. */
    method FinishJob(flight: Flight, outcome: Outcome<string>, now: Time)
      requires flight.jobId in jobs
      modifies this
      ensures Model() ==
        if outcome.Ok? then Succeed(old(Model()), flight.jobId, outcome.value, now)
        else Fail(old(Model()), flight, outcome.reason, now)
    {
      if outcome.Ok? {
        var _ := SetSucceeded(flight.jobId, outcome.value, now);
      } else if flight.attempt >= flight.maxAttempts {
        var _ := SetDeadLetter(flight.jobId, outcome.reason, now);
      } else {
        var _ := SetRetrying(flight.jobId, outcome.reason, now);
      }
    }
  }

  // ---------------------------------------------------------------- batches are runs of the protocol

  function DispatchSteps(rows: seq<nat>, broker: nat -> bool, error: string): (steps: seq<Step>)
    ensures |steps| == |rows|
  {
    if rows == [] then [] else [Dispatching(rows[0], broker(rows[0]), error)] + DispatchSteps(rows[1..], broker, error)
  }

  lemma {:induction false} DispatchAllFront(t: Tables, rows: seq<nat>, broker: nat -> bool, error: string, now: Time)
    requires rows != [] && forall k :: 0 <= k < |rows| ==> rows[k] < |t.outbox|
    ensures DispatchAll(t, rows, broker, error, now)
         == DispatchAll(Dispatch(t, rows[0], broker(rows[0]), error, now), rows[1..], broker, error, now)
  {
    var n := |rows| - 1;
    if n == 0 {
      assert rows[..0] == [] && rows[1..] == [];
    } else {
      DispatchAllFront(t, rows[..n], broker, error, now);
      assert rows[..n][1..] == rows[1..][..n - 1];
      assert rows[1..][n - 1] == rows[n];
    }
  }

  /** One `dispatch_outbox` call is a run of dispatch steps, so every protocol guarantee covers it. */
  lemma {:induction false} DispatchIsARun(s: System, rows: seq<nat>, broker: nat -> bool, error: string)
    requires forall k :: 0 <= k < |rows| ==> rows[k] < |s.t.outbox| && RowDue(s.t.outbox[rows[k]], s.clock)
    requires forall k, l :: 0 <= k < l < |rows| ==> rows[k] < rows[l]
    ensures Run(s, DispatchSteps(rows, broker, error)) == s.(t := DispatchAll(s.t, rows, broker, error, s.clock))
    decreases |rows|
  {
    if rows != [] {
      var step := Dispatching(rows[0], broker(rows[0]), error);
      var steps := DispatchSteps(rows, broker, error);
      assert steps[0] == step && steps[1..] == DispatchSteps(rows[1..], broker, error);
      var s' := Next(s, step);
      DispatchIsARun(s', rows[1..], broker, error);
      DispatchAllFront(s.t, rows, broker, error, s.clock);
    }
  }

  function RetrySteps(ids: seq<JobId>, now: Time, queueIds: JobId -> string): (steps: seq<Step>)
    ensures |steps| == |ids|
  {
    if ids == [] then [] else [Retry(ids[0], now, queueIds(ids[0]))] + RetrySteps(ids[1..], now, queueIds)
  }

  lemma {:induction false} RetryAllFront(t: Tables, ids: seq<JobId>, queueIds: JobId -> string)
    requires ids != [] && forall k :: 0 <= k < |ids| ==> ids[k] in t.jobs
    ensures RetryAll(t, ids, queueIds)
         == RetryAll(Schedule(t, ids[0], queueIds(ids[0]), "retry:" + Show(t.jobs[ids[0]].attempts)), ids[1..], queueIds)
  {
    var n := |ids| - 1;
    if n == 0 {
      assert ids[..0] == [] && ids[1..] == [];
    } else {
      RetryAllFront(t, ids[..n], queueIds);
      assert ids[..n][1..] == ids[1..][..n - 1];
      assert ids[1..][n - 1] == ids[n];
    }
  }

  lemma {:induction false} RetryIsARun(s: System, ids: seq<JobId>, now: Time, queueIds: JobId -> string)
    requires forall k :: 0 <= k < |ids| ==> ids[k] in s.t.jobs && ReadyForRetry(s.t.jobs[ids[k]], now)
    requires forall k, l :: 0 <= k < l < |ids| ==> ids[k] != ids[l]
    ensures Run(s, RetrySteps(ids, now, queueIds)) == s.(t := RetryAll(s.t, ids, queueIds))
    decreases |ids|
  {
    if ids != [] {
      var step := Retry(ids[0], now, queueIds(ids[0]));
      var steps := RetrySteps(ids, now, queueIds);
      assert steps[0] == step && steps[1..] == RetrySteps(ids[1..], now, queueIds);
      RetryIsARun(Next(s, step), ids[1..], now, queueIds);
      RetryAllFront(s.t, ids, queueIds);
    }
  }
}
