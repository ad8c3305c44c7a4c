/** What the rows say: over any run each job shows the last write to it, and each outbox row the last attempt to send it. */
module JobWrites {
  import opened Common
  import opened Decimal
  import opened Jobs
  import opened JobProtocol

  /** Seconds until the next attempt after attempt k failed. */
  function RetrySeconds(k: nat): nat {
    if k <= 1 then 2 else if k == 2 then 4 else if k == 3 then 8 else if k == 4 then 16
    else if k == 5 then 32 else if k == 6 then 64 else if k == 7 then 128 else 256
  }

  lemma PowersOfTwo()
    ensures Pow2(1) == 2 && Pow2(2) == 4 && Pow2(3) == 8 && Pow2(4) == 16
    ensures Pow2(5) == 32 && Pow2(6) == 64 && Pow2(7) == 128 && Pow2(8) == 256
  {
    assert Pow2(1) == 2 * Pow2(0) && Pow2(2) == 2 * Pow2(1) && Pow2(3) == 2 * Pow2(2) && Pow2(4) == 2 * Pow2(3);
    assert Pow2(5) == 2 * Pow2(4) && Pow2(6) == 2 * Pow2(5) && Pow2(7) == 2 * Pow2(6) && Pow2(8) == 2 * Pow2(7);
  }

  lemma DelayInSeconds(k: nat)
    ensures RetryDelay(k) == RetrySeconds(k)
  {
    PowersOfTwo();
  }

  // ---------------------------------------------------------------- writes to job rows

  /** A write to a job's row, as the transaction that makes it knows it. */
  datatype Write =
    | Created(request: Request, key: string, maxAttempts: nat, queueId: string)
    | Requeued(queueId: string)
    | Started(owner: string, at: Time)
    | Finished(result: string, at: Time)
    | Postponed(error: string, at: Time)
    | Buried(error: string, at: Time)
    | CalledOff(at: Time)

  predicate Open(status: JobStatus) { status == Queued || status == Retrying }

  predicate Reached(at: Option<Time>, now: Time) { at == None || (at.Some? && at.value <= now) }

  /** The write a step makes to the job, if any: who may write, and when. */
  ghost function WriteOf(s: System, step: Step, id: JobId): Option<Write> {
    match step
    case Enqueueing(newId, key, request, maxAttempts, queueId) =>
      if newId == id && (forall other :: other in s.t.jobs ==> s.t.jobs[other].key != key) && key !in s.t.records
      then Some(Created(request, key, if maxAttempts == 0 then 3 else if maxAttempts < 1 then 1 else maxAttempts, queueId)) else None
    case Dispatching(row, sent, error) =>
      if row < |s.t.outbox| && s.t.outbox[row].jobId == id && id in s.t.jobs && !sent
         && (s.t.outbox[row].status == Pending || s.t.outbox[row].status == RetryLater)
         && Reached(s.t.outbox[row].nextAttemptAt, s.clock) && s.t.outbox[row].attempts + 1 >= s.t.outbox[row].maxAttempts
      then Some(Buried(error, s.clock)) else None
    case Claim(_, jobId, owner) =>
      if jobId == id && id in s.t.jobs && Open(s.t.jobs[id].status) && Reached(s.t.jobs[id].nextRetryAt, s.clock)
      then Some(Started(owner, s.clock)) else None
    case FinishOk(w, result) =>
      if w in s.flights && s.flights[w].jobId == id && id in s.t.jobs then Some(Finished(result, s.clock)) else None
    case FinishFail(w, error) =>
      if w in s.flights && s.flights[w].jobId == id && id in s.t.jobs then
        if s.flights[w].attempt < s.flights[w].maxAttempts then Some(Postponed(error, s.clock)) else Some(Buried(error, s.clock))
      else None
    case Cancel(jobId) =>
      if jobId == id && id in s.t.jobs && (Open(s.t.jobs[id].status) || s.t.jobs[id].status == Running)
      then Some(CalledOff(s.clock)) else None
    case Retry(jobId, tickTime, queueId) =>
      if jobId == id && id in s.t.jobs && s.t.jobs[id].status == Retrying && Reached(s.t.jobs[id].nextRetryAt, tickTime)
      then Some(Requeued(queueId)) else None
    case Crash(_) => None
    case Pass(_) => None
  }

  predicate Unlocked(j: Job) { j.lockedAt == None && j.lockOwner == "" }

  /** What the row shows after the write. */
  predicate Shows(j: Job, w: Write) {
    match w
    case Created(request, key, maxAttempts, queueId) =>
      && j.status == Queued && j.request == request && j.key == key && j.maxAttempts == maxAttempts && j.queueId == queueId
      && j.attempts == 0 && j.nextRetryAt == None && j.startedAt == None && j.finishedAt == None && Unlocked(j)
      && j.result == "" && j.error == "" && j.deadLetterReason == ""
    case Requeued(queueId) => j.status == Queued && j.queueId == queueId
    case Started(owner, at) =>
      j.status == Running && j.lockOwner == owner && j.lockedAt == Some(at) && j.startedAt == Some(at) && j.finishedAt == None && j.error == ""
    case Finished(result, at) =>
      j.status == Succeeded && j.result == result && j.finishedAt == Some(at) && j.nextRetryAt == None && j.deadLetterReason == "" && Unlocked(j)
    case Postponed(error, at) =>
      j.status == Retrying && j.error == error && j.nextRetryAt == Some(at + RetrySeconds(j.attempts)) && Unlocked(j)
    case Buried(error, at) =>
      && j.status == DeadLetter && j.error == error && j.deadLetterReason == error && j.finishedAt == Some(at) && j.nextRetryAt == None
      && Unlocked(j)
    case CalledOff(at) => j.status == Cancelled && j.finishedAt == Some(at) && Unlocked(j)
  }

  /** What the write does not touch. */
  predicate Spares(j: Job, j': Job, w: Write) {
    && j'.request == j.request && j'.key == j.key && j'.maxAttempts == j.maxAttempts
    && j'.attempts == j.attempts + (if w.Started? then 1 else 0)
    && (!w.Requeued? ==> j'.queueId == j.queueId)
    && (!w.Started? ==> j'.startedAt == j.startedAt)
    && (!w.Finished? ==> j'.result == j.result)
    && (w.Requeued? || w.Postponed? ==> j'.finishedAt == j.finishedAt)
    && (w.Requeued? || w.Started? || w.CalledOff? ==> j'.nextRetryAt == j.nextRetryAt)
    && (w.Requeued? || w.Finished? || w.CalledOff? ==> j'.error == j.error)
    && (w.Requeued? || w.Started? || w.Postponed? || w.CalledOff? ==> j'.deadLetterReason == j.deadLetterReason)
    && (w.Requeued? ==> j'.lockedAt == j.lockedAt && j'.lockOwner == j.lockOwner)
  }

  /** A terminal write also closes the job's idempotency record, with the row as its response. */
  predicate Closes(t: Tables, j: Job, w: Write) {
    && (w.Finished? ==> j.key in t.records && t.records[j.key].status == RecordSucceeded && t.records[j.key].response == Some(j))
    && (w.Buried? ==> j.key in t.records && t.records[j.key].status == RecordFailed && t.records[j.key].response == Some(j))
  }

  ghost predicate Written(s: System, s': System, id: JobId, w: Option<Write>) {
    if w.None? then
      (id in s'.t.jobs <==> id in s.t.jobs) && (id in s.t.jobs ==> s'.t.jobs[id] == s.t.jobs[id])
    else
      && id in s'.t.jobs && Shows(s'.t.jobs[id], w.value) && Closes(s'.t, s'.t.jobs[id], w.value)
      && (id in s.t.jobs <==> !w.value.Created?) && (id in s.t.jobs ==> Spares(s.t.jobs[id], s'.t.jobs[id], w.value))
  }

  lemma EnqueueWrites(s: System, step: Step, id: JobId)
    requires step.Enqueueing? && Admissible(s, step) && RecordsOk(s.t) && RecordsOwned(s.t)
    ensures Written(s, Next(s, step), id, WriteOf(s, step, id))
  {
    if step.key in s.t.records { assert KeyTaken(s.t, step.key); }
  }

  lemma DispatchWrites(s: System, step: Step, id: JobId)
    requires step.Dispatching? && KeysOk(s.t)
    ensures Written(s, Next(s, step), id, WriteOf(s, step, id))
  {}

  lemma FinishWrites(s: System, step: Step, id: JobId)
    requires (step.FinishOk? || step.FinishFail?) && KeysOk(s.t)
    ensures Written(s, Next(s, step), id, WriteOf(s, step, id))
  {
    if id in s.t.jobs { DelayInSeconds(s.t.jobs[id].attempts); }
  }

  lemma OtherWrites(s: System, step: Step, id: JobId)
    requires Admissible(s, step) && !step.Enqueueing? && !step.Dispatching? && !step.FinishOk? && !step.FinishFail?
    ensures Written(s, Next(s, step), id, WriteOf(s, step, id))
  {}

  /** Every step makes exactly the write it should, and none to any other job. */
  lemma StepWrites(s: System, step: Step, id: JobId)
    requires Inv(s) && Admissible(s, step)
    ensures Written(s, Next(s, step), id, WriteOf(s, step, id))
  {
    if step.Enqueueing? {
      EnqueueWrites(s, step, id);
    } else if step.Dispatching? {
      DispatchWrites(s, step, id);
    } else if step.FinishOk? || step.FinishFail? {
      FinishWrites(s, step, id);
    } else {
      OtherWrites(s, step, id);
    }
  }

  /** The last write to the job in a run, if any. */
  ghost function LastWrite(s: System, steps: seq<Step>, id: JobId): Option<Write>
    decreases |steps|
  {
    if steps == [] || !Admissible(s, steps[0]) then None
    else
      var later := LastWrite(Next(s, steps[0]), steps[1..], id);
      if later.Some? then later else WriteOf(s, steps[0], id)
  }

  /** In any run a job that was written shows its last write, and one that was not is as it was. */
  lemma {:induction false} RowShowsLastWrite(s: System, steps: seq<Step>, id: JobId)
    requires Inv(s)
    ensures
      var e, w := Run(s, steps), LastWrite(s, steps, id);
      && (w.Some? ==> id in e.t.jobs && Shows(e.t.jobs[id], w.value))
      && (w.None? ==> (id in e.t.jobs <==> id in s.t.jobs) && (id in s.t.jobs ==> e.t.jobs[id] == s.t.jobs[id]))
    decreases |steps|
  {
    if steps != [] && Admissible(s, steps[0]) {
      InvKeeps(s, steps[0]);
      StepWrites(s, steps[0], id);
      RowShowsLastWrite(Next(s, steps[0]), steps[1..], id);
    }
  }

  /** From empty tables: a job is in a status exactly when its last write put it there. */
  lemma StatusIsLastWrite(s: System, steps: seq<Step>, id: JobId)
    requires Initial(s)
    ensures
      var e, w := Run(s, steps), LastWrite(s, steps, id);
      && (id in e.t.jobs <==> w.Some?)
      && (id in e.t.jobs ==>
            var j := e.t.jobs[id];
            && Shows(j, w.value)
            && (j.status == Succeeded <==> w.value.Finished?) && (j.status == DeadLetter <==> w.value.Buried?)
            && (j.status == Cancelled <==> w.value.CalledOff?) && (j.status == Retrying <==> w.value.Postponed?)
            && (j.status == Running <==> w.value.Started?))
  {
    RowShowsLastWrite(s, steps, id);
  }

  /** The log of a run holds every start and every failure, with attempt and time, and nothing else. */
  lemma StepLogs(s: System, step: Step)
    requires Admissible(s, step) && FlightsOk(s)
    ensures
      var s' := Next(s, step);
      s'.log == s.log +
        (if step.Claim? && WriteOf(s, step, step.jobId).Some? then [Start(step.jobId, s.t.jobs[step.jobId].attempts + 1, s.clock)]
         else if step.FinishFail? && step.worker in s.flights then
           [Failure(s.flights[step.worker].jobId, s.t.jobs[s.flights[step.worker].jobId].attempts, s.clock)]
         else [])
  {
    assert s.log + [] == s.log;
    if step.FinishFail? && step.worker in s.flights { assert FlightOk(s, s.flights[step.worker]); }
  }

  /** After attempt k failed, the job may be taken again from exactly 2, 4, 8, ... 256 seconds later on. */
  lemma RetryOpensExactly(s: System, step: Step, id: JobId, now: Time)
    requires step.FinishFail? && WriteOf(s, step, id) == Some(Postponed(step.error, s.clock))
    ensures
      var j := Next(s, step).t.jobs[id];
      ShouldRun(j, now) <==> now >= s.clock + RetrySeconds(s.t.jobs[id].attempts)
  {
    DelayInSeconds(s.t.jobs[id].attempts);
  }

  /** The retry windows of whole runs, in seconds. */
  lemma RetryWindowsInSeconds(s: System, steps: seq<Step>, i: nat, j: nat)
    requires Initial(s) && i < |Run(s, steps).log| && j < |Run(s, steps).log|
    requires
      var e, f := Run(s, steps).log[i], Run(s, steps).log[j];
      e.Failure? && f.Start? && e.jobId == f.jobId && f.attempt == e.attempt + 1
    ensures
      var e, f := Run(s, steps).log[i], Run(s, steps).log[j];
      f.at >= e.at + RetrySeconds(e.attempt)
  {
    RetryWindows(s, steps, i, j);
    DelayInSeconds(Run(s, steps).log[i].attempt);
  }

  // ---------------------------------------------------------------- outbox rows

  /** The row may be tried now. */
  predicate Sendable(r: Row, now: Time) { (r.status == Pending || r.status == RetryLater) && Reached(r.nextAttemptAt, now) }

  /** The row after one attempt to send it. */
  predicate Tried(r: Row, r': Row, sent: bool, error: string, now: Time) {
    && r'.jobId == r.jobId && r'.queueId == r.queueId && r'.key == r.key && r'.maxAttempts == r.maxAttempts
    && r'.attempts == r.attempts + 1
    && (sent ==> r'.status == Dispatched && r'.lastError == "" && r'.nextAttemptAt == None)
    && (!sent ==> r'.lastError == error)
    && (!sent && r'.attempts >= r.maxAttempts ==> r'.status == Dead && r'.nextAttemptAt == r.nextAttemptAt)
    && (!sent && r'.attempts < r.maxAttempts ==> r'.status == RetryLater && r'.nextAttemptAt == Some(now + RetrySeconds(r'.attempts)))
  }

  /** A new row: pending, untried, five attempts, under the dispatch key. */
  predicate Fresh(r: Row, id: JobId, j: Job, reason: string) {
    && r.jobId == id && r.queueId == j.queueId && r.status == Pending && r.attempts == 0 && r.maxAttempts == 5
    && r.nextAttemptAt == None && r.lastError == ""
    && r.key == "dispatch:" + j.key + ":" + reason + ":" + Show(j.attempts)
  }

  /** A dispatch step tries exactly the row it names, if that may be tried. */
  lemma DispatchTries(s: System, step: Step)
    requires step.Dispatching?
    ensures
      var rows, rows' := s.t.outbox, Next(s, step).t.outbox;
      && |rows'| == |rows|
      && forall i :: 0 <= i < |rows| ==>
           if i == step.row && Sendable(rows[i], s.clock) then Tried(rows[i], rows'[i], step.sent, step.error, s.clock) else rows'[i] == rows[i]
  {
    if step.row < |s.t.outbox| { DelayInSeconds(s.t.outbox[step.row].attempts + 1); }
  }

  ghost predicate AddsFresh(rows: seq<Row>, s': System, id: JobId, reason: string) {
    var rows' := s'.t.outbox;
    |rows'| == |rows| + 1 && rows'[..|rows|] == rows && id in s'.t.jobs && Fresh(rows'[|rows|], id, s'.t.jobs[id], reason)
  }

  /** An accepted enqueue adds one fresh row. */
  lemma EnqueueAddsRow(s: System, step: Step, id: JobId)
    requires KeysOk(s.t) && RowsOk(s) && Admissible(s, step) && step.Enqueueing? && WriteOf(s, step, id).Some?
    ensures AddsFresh(s.t.outbox, Next(s, step), id, "enqueue")
  {
    assert !KeyTaken(s.t, step.key);
    KeyIsFresh(s, step.key, "enqueue", 0);
  }

  /** So does an accepted retry, under a key with the attempt number. */
  lemma RetryAddsRow(s: System, step: Step, id: JobId)
    requires FlightsOk(s) && KeysOk(s.t) && RowsOk(s) && step.Retry? && WriteOf(s, step, id).Some?
    ensures id in s.t.jobs && AddsFresh(s.t.outbox, Next(s, step), id, "retry:" + Show(s.t.jobs[id].attempts))
  {
    RetryIsFresh(s, id);
  }

  /** No other step adds or changes a row. */
  lemma OthersKeepRows(s: System, step: Step)
    requires Admissible(s, step) && !step.Dispatching?
    requires step.Enqueueing? || step.Retry? ==> forall id :: WriteOf(s, step, id).None?
    requires RecordsOk(s.t) && RecordsOwned(s.t)
    ensures Next(s, step).t.outbox == s.t.outbox
  {
    if step.Enqueueing? {
      assert WriteOf(s, step, step.id).None?;
      if step.key in s.t.records { assert KeyTaken(s.t, step.key); }
    }
    if step.Retry? { assert WriteOf(s, step, step.jobId).None?; }
  }
}
