/**
 The job, outbox and idempotency tables, and what each service call does to them.
 Every function here is one call inside a transaction: table contents in, table contents out.
 */
module Jobs {
  import opened Common
  import opened Decimal

  type JobId = nat
  type Time = int

  datatype JobStatus = Queued | Running | Retrying | Succeeded | Failed | DeadLetter | Cancelled

  predicate Terminal(s: JobStatus) {
    s == Succeeded || s == Failed || s == DeadLetter || s == Cancelled
  }

  /** What the caller asked for. */
  datatype Request = Request(taskName: string, payload: string, triggeredBy: string, cronJobId: string)

  datatype Job = Job(
    request: Request, key: string, status: JobStatus, queueId: string,
    attempts: nat, maxAttempts: nat, nextRetryAt: Option<Time>,
    startedAt: Option<Time>, finishedAt: Option<Time>,
    lockedAt: Option<Time>, lockOwner: string,
    result: string, error: string, deadLetterReason: string)

  datatype RowStatus = Pending | RetryLater | Dispatched | Dead

  datatype Row = Row(jobId: JobId, queueId: string, key: string, status: RowStatus,
                     attempts: nat, maxAttempts: nat, nextAttemptAt: Option<Time>, lastError: string)

  datatype RecordStatus = Processing | RecordSucceeded | RecordFailed

  /** The stored request digest is modelled by its preimage; None is the empty digest. */
  datatype Record = Record(digest: Option<Request>, status: RecordStatus, response: Option<Job>)

  /** The three tables. The outbox is in creation order and only ever grows. */
  datatype Tables = Tables(jobs: map<JobId, Job>, outbox: seq<Row>, records: map<string, Record>)

  // ---------------------------------------------------------------- delays and keys

  function Pow2(n: nat): nat { if n == 0 then 1 else 2 * Pow2(n - 1) }

  function RetryDelay(attempts: nat): nat {
    var shift: nat := Min(Max(1, attempts), 8);
    Min(300, Pow2(shift))
  }

  function DispatchKey(base: string, reason: string, attempts: nat): string {
    "dispatch:" + base + ":" + reason + ":" + Show(attempts)
  }

  function EnqueueKey(base: string): string { DispatchKey(base, "enqueue", 0) }

  /** The key the scheduler uses: the attempt number is in the reason and again at the end. */
  function RetryKey(base: string, attempts: nat): string {
    DispatchKey(base, "retry:" + Show(attempts), attempts)
  }

  lemma RetryKeyInjective(a: string, n: nat, b: string, m: nat)
    requires RetryKey(a, n) == RetryKey(b, m)
    ensures a == b && n == m
  {
    var p, q := "dispatch:" + a + ":retry:" + Show(n), "dispatch:" + b + ":retry:" + Show(m);
    assert "dispatch:" + a + ":" + ("retry:" + Show(n)) == p;
    assert "dispatch:" + b + ":" + ("retry:" + Show(m)) == q;
    DigitsHaveNoColon(Show(n));
    DigitsHaveNoColon(Show(m));
    LastColon(p, Show(n), q, Show(m));
    ShowInjective(n, m);
    var x, y := "dispatch:" + a, "dispatch:" + b;
    var suffix := ":retry:" + Show(n);
    assert p == x + suffix && q == y + suffix;
    assert x == p[..|p| - |suffix|] && y == q[..|q| - |suffix|];
    assert a == x[9..] && b == y[9..];
  }

  lemma EnqueueKeyInjective(a: string, b: string)
    requires EnqueueKey(a) == EnqueueKey(b)
    ensures a == b
  {
    var s := EnqueueKey(a);
    assert a == s[9..|s| - 10] && b == s[9..|s| - 10];
  }

  lemma EnqueueKeyIsNoRetryKey(a: string, b: string, n: nat)
    ensures EnqueueKey(a) != RetryKey(b, n)
  {
    if EnqueueKey(a) == RetryKey(b, n) {
      var p, q := "dispatch:" + a + ":enqueue", "dispatch:" + b + ":" + ("retry:" + Show(n));
      DigitsHaveNoColon(Show(0));
      DigitsHaveNoColon(Show(n));
      LastColon(p, Show(0), q, Show(n));
      assert p[|p| - 1] == 'e';
      assert q[|q| - 1] == Show(n)[|Show(n)| - 1];
      assert false;
    }
  }

  // ---------------------------------------------------------------- job rows

  function MarkEnqueued(j: Job, queueId: string): Job {
    j.(queueId := queueId, status := Queued)
  }

  function MarkStarted(j: Job, owner: string, now: Time): Job {
    if Terminal(j.status) then j
    else j.(status := Running, attempts := j.attempts + 1, startedAt := Some(now), finishedAt := None,
            error := "", lockedAt := Some(now), lockOwner := owner)
  }

  function MarkSucceeded(j: Job, result: string, now: Time): Job {
    j.(status := Succeeded, result := result, finishedAt := Some(now), nextRetryAt := None,
       deadLetterReason := "", lockedAt := None, lockOwner := "")
  }

  function MarkRetrying(j: Job, error: string, now: Time): Job {
    j.(status := Retrying, error := error, nextRetryAt := Some(now + RetryDelay(j.attempts)),
       lockedAt := None, lockOwner := "")
  }

  function MarkDeadLetter(j: Job, error: string, now: Time): Job {
    j.(status := DeadLetter, error := error, deadLetterReason := error, finishedAt := Some(now),
       nextRetryAt := None, lockedAt := None, lockOwner := "")
  }

  function MarkCancelled(j: Job, now: Time): Job {
    j.(status := Cancelled, finishedAt := Some(now), lockedAt := None, lockOwner := "")
  }

  predicate Due(at: Option<Time>, now: Time) { at.None? || at.value <= now }

  predicate ShouldRun(j: Job, now: Time) {
    !Terminal(j.status) && j.status != Running && Due(j.nextRetryAt, now)
  }

  predicate Cancellable(j: Job) { j.status == Queued || j.status == Retrying || j.status == Running }

  predicate ReadyForRetry(j: Job, now: Time) { j.status == Retrying && Due(j.nextRetryAt, now) }

  function NewJob(request: Request, key: string, maxAttempts: int): Job {
    Job(request, key, Queued, "", 0, Max(1, if maxAttempts == 0 then 3 else maxAttempts), None, None, None,
        None, "", "", "", "")
  }

  // ---------------------------------------------------------------- table updates

  function PutJob(t: Tables, id: JobId, j: Job): Tables { t.(jobs := t.jobs[id := j]) }

  /** `complete_idempotency`: the record is created when it is missing. */
  function Complete(records: map<string, Record>, j: Job, status: RecordStatus): map<string, Record> {
    if j.key == "" then records
    else if j.key in records then records[j.key := records[j.key].(status := status, response := Some(j))]
    else records[j.key := Record(None, status, Some(j))]
  }

  function Succeed(t: Tables, id: JobId, result: string, now: Time): Tables
    requires id in t.jobs
  {
    var j := MarkSucceeded(t.jobs[id], result, now);
    t.(jobs := t.jobs[id := j], records := Complete(t.records, j, RecordSucceeded))
  }

  function Bury(t: Tables, id: JobId, error: string, now: Time): Tables
    requires id in t.jobs
  {
    var j := MarkDeadLetter(t.jobs[id], error, now);
    t.(jobs := t.jobs[id := j], records := Complete(t.records, j, RecordFailed))
  }

  predicate HasKey(outbox: seq<Row>, key: string) {
    exists i :: 0 <= i < |outbox| && outbox[i].key == key
  }

  /** `create_outbox`: an existing row under the key is returned as it is. */
  function AddRow(outbox: seq<Row>, id: JobId, queueId: string, key: string): seq<Row> {
    if HasKey(outbox, key) then outbox
    else outbox + [Row(id, queueId, key, Pending, 0, 5, None, "")]
  }

  function KeyBase(id: JobId, j: Job): string {
    if j.key != "" then j.key else "job:" + Show(id)
  }

  /** `schedule_dispatch`: the job gets the new queue id even when the row is an old one. */
  function Schedule(t: Tables, id: JobId, queueId: string, reason: string): Tables
    requires id in t.jobs
  {
    var j := MarkEnqueued(t.jobs[id], queueId);
    t.(jobs := t.jobs[id := j],
       outbox := AddRow(t.outbox, id, queueId, DispatchKey(KeyBase(id, j), reason, j.attempts)))
  }

  predicate KeyTaken(t: Tables, key: string) { exists id :: id in t.jobs && t.jobs[id].key == key }

  predicate Conflicts(t: Tables, key: string, request: Request) {
    key != "" && key in t.records && t.records[key].digest.Some? && t.records[key].digest.value != request
  }

  function OpenRecord(records: map<string, Record>, key: string, request: Request): map<string, Record> {
    if key == "" || key in records then records
    else records[key := Record(Some(request), Processing, None)]
  }

  /** `enqueue_background_job` once the key is known; `id` is the primary key a new row would get. */
  function Enqueue(t: Tables, id: JobId, key: string, request: Request, maxAttempts: int, queueId: string): Tables
  {
    if Conflicts(t, key, request) then t
    else
      var t1 := t.(records := OpenRecord(t.records, key, request));
      if KeyTaken(t, key) then t1
      else Schedule(PutJob(t1, id, NewJob(request, key, maxAttempts)), id, queueId, "enqueue")
  }

  // ---------------------------------------------------------------- dispatching

  predicate RowDue(r: Row, now: Time) {
    (r.status == Pending || r.status == RetryLater) && Due(r.nextAttemptAt, now)
  }

  /** The row after one call to the broker; `sent` says whether the call returned. */
  function Attempted(r: Row, sent: bool, error: string, now: Time): Row {
    if sent then
      r.(attempts := r.attempts + 1, status := Dispatched, lastError := "", nextAttemptAt := None)
    else if r.attempts + 1 >= r.maxAttempts then
      r.(attempts := r.attempts + 1, status := Dead, lastError := error)
    else
      r.(attempts := r.attempts + 1, status := RetryLater, lastError := error,
         nextAttemptAt := Some(now + RetryDelay(r.attempts + 1)))
  }

  /** `_dispatch_outbox_message`: the last failure buries the job whatever its status is. */
  function Dispatch(t: Tables, i: nat, sent: bool, error: string, now: Time): Tables
    requires i < |t.outbox|
  {
    var r := Attempted(t.outbox[i], sent, error, now);
    var t1 := t.(outbox := t.outbox[i := r]);
    if r.status == Dead && r.jobId in t.jobs then Bury(t1, r.jobId, error, now) else t1
  }
}
