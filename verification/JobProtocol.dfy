/**
 The background-job protocol as a step system. Each step is one database transaction of the service,
 the worker or the scheduler; the broker may deliver any job at any time and any number of times.
 */
module JobProtocol {
  import opened Common
  import opened Decimal
  import opened Jobs

  type WorkerId = nat

  /** A worker between its claim and its finishing write, with the variables it captured. */
  datatype Flight = Flight(jobId: JobId, attempt: nat, maxAttempts: nat, owner: string)

  datatype Event =
    | Start(jobId: JobId, attempt: nat, at: Time)
    | Failure(jobId: JobId, attempt: nat, at: Time)

  datatype System = System(t: Tables, flights: map<WorkerId, Flight>, clock: Time, log: seq<Event>)

  datatype Step =
    | Enqueueing(id: JobId, key: string, request: Request, maxAttempts: int, queueId: string)
    | Dispatching(row: nat, sent: bool, error: string)
    | Claim(worker: WorkerId, jobId: JobId, owner: string)
    | FinishOk(worker: WorkerId, result: string)
    | FinishFail(worker: WorkerId, error: string)
    | Crash(worker: WorkerId)
    | Cancel(jobId: JobId)
    | Retry(jobId: JobId, tickTime: Time, queueId: string)
    | Pass(seconds: nat)

  /** Primary keys, worker ids and lock owners are fresh; enqueue keys are never empty. */
  predicate Admissible(s: System, step: Step) {
    match step
    case Enqueueing(id, key, _, _, _) => id !in s.t.jobs && key != ""
    case Claim(worker, _, owner) => worker !in s.flights && owner != ""
    case _ => true
  }

  function Fail(t: Tables, f: Flight, error: string, now: Time): Tables
    requires f.jobId in t.jobs
  {
    if f.attempt >= f.maxAttempts then Bury(t, f.jobId, error, now)
    else PutJob(t, f.jobId, MarkRetrying(t.jobs[f.jobId], error, now))
  }

  function Next(s: System, step: Step): System {
    match step
    case Enqueueing(id, key, request, maxAttempts, queueId) =>
      s.(t := Enqueue(s.t, id, key, request, maxAttempts, queueId))
    case Dispatching(row, sent, error) =>
      if row < |s.t.outbox| && RowDue(s.t.outbox[row], s.clock)
      then s.(t := Dispatch(s.t, row, sent, error, s.clock)) else s
    case Claim(worker, id, owner) =>
      if id in s.t.jobs && ShouldRun(s.t.jobs[id], s.clock) then
        var j := MarkStarted(s.t.jobs[id], owner, s.clock);
        s.(t := PutJob(s.t, id, j),
           flights := s.flights[worker := Flight(id, j.attempts, j.maxAttempts, owner)],
           log := s.log + [Start(id, j.attempts, s.clock)])
      else s
    case FinishOk(worker, result) =>
      if worker in s.flights && s.flights[worker].jobId in s.t.jobs then
        s.(t := Succeed(s.t, s.flights[worker].jobId, result, s.clock), flights := s.flights - {worker})
      else s
    case FinishFail(worker, error) =>
      if worker in s.flights && s.flights[worker].jobId in s.t.jobs then
        var f := s.flights[worker];
        s.(t := Fail(s.t, f, error, s.clock), flights := s.flights - {worker},
           log := s.log + [Failure(f.jobId, f.attempt, s.clock)])
      else s
    case Crash(worker) => s.(flights := s.flights - {worker})
    case Cancel(id) =>
      if id in s.t.jobs && Cancellable(s.t.jobs[id])
      then s.(t := PutJob(s.t, id, MarkCancelled(s.t.jobs[id], s.clock))) else s
    case Retry(id, tickTime, queueId) =>
      if id in s.t.jobs && ReadyForRetry(s.t.jobs[id], tickTime)
      then s.(t := Schedule(s.t, id, queueId, "retry:" + Show(s.t.jobs[id].attempts))) else s
    case Pass(seconds) => s.(clock := s.clock + seconds)
  }

  predicate Initial(s: System) {
    s.t == Tables(map[], [], map[]) && s.flights == map[] && s.log == []
  }

  /** Runs a list of steps; a step that is not admissible ends the run. */
  function Run(s: System, steps: seq<Step>): System
    decreases |steps|
  {
    if steps == [] || !Admissible(s, steps[0]) then s else Run(Next(s, steps[0]), steps[1..])
  }

  // ---------------------------------------------------------------- the invariant

  ghost predicate InFlight(s: System, id: JobId) { exists w :: w in s.flights && s.flights[w].jobId == id }

  /** Attempt numbers below the bound already have a retry row. */
  ghost function RetryBound(s: System, id: JobId): nat
    requires id in s.t.jobs
  {
    if s.t.jobs[id].status == Retrying || InFlight(s, id) then s.t.jobs[id].attempts
    else s.t.jobs[id].attempts + 1
  }

  ghost predicate RowKeyOf(key: string, base: string, bound: nat) {
    key == EnqueueKey(base) || exists n: nat :: n < bound && key == RetryKey(base, n)
  }

  ghost predicate LiveRow(t: Tables, id: JobId, i: nat)
    requires id in t.jobs
  {
    i < |t.outbox| && t.outbox[i].jobId == id && t.outbox[i].queueId == t.jobs[id].queueId && t.outbox[i].status != Dead
  }

  ghost predicate Attempts(j: Job) {
    && j.attempts <= j.maxAttempts
    && (j.status == Queued || j.status == Retrying ==> j.attempts < j.maxAttempts)
  }

  ghost predicate Locks(j: Job) {
    && (j.lockedAt.Some? <==> j.status == Running)
    && (j.lockOwner != "" <==> j.status == Running)
  }

  ghost predicate FlightOk(s: System, f: Flight) {
    && f.jobId in s.t.jobs
    && var j := s.t.jobs[f.jobId];
    && (j.status == Running || j.status == Cancelled || j.status == DeadLetter)
    && f.attempt == j.attempts && f.maxAttempts == j.maxAttempts
    && (j.status == Running ==> j.lockOwner == f.owner)
  }

  ghost predicate JobsOk(s: System) {
    forall id :: id in s.t.jobs ==> Attempts(s.t.jobs[id]) && Locks(s.t.jobs[id])
  }

  ghost predicate FlightsOk(s: System) {
    && (forall w :: w in s.flights ==> FlightOk(s, s.flights[w]))
    && (forall w, v :: w in s.flights && v in s.flights && s.flights[w].jobId == s.flights[v].jobId ==> w == v)
  }

  ghost predicate KeysOk(t: Tables) {
    && (forall id :: id in t.jobs ==> t.jobs[id].key != "")
    && (forall a, b :: a in t.jobs && b in t.jobs && t.jobs[a].key == t.jobs[b].key ==> a == b)
  }

  ghost predicate RecordsOk(t: Tables) {
    && (forall id :: id in t.jobs ==>
          t.jobs[id].key in t.records && t.records[t.jobs[id].key].digest == Some(t.jobs[id].request))
    && (forall id :: id in t.jobs ==>
          (t.records[t.jobs[id].key].status == RecordSucceeded <==> t.jobs[id].status == Succeeded))
  }

  ghost predicate RecordsOwned(t: Tables) { forall k :: k in t.records ==> KeyTaken(t, k) }

  ghost predicate RowCounts(r: Row) {
    r.attempts <= r.maxAttempts && (r.status == Pending || r.status == RetryLater ==> r.attempts < r.maxAttempts)
  }

  ghost predicate RowsOk(s: System) {
    forall i :: 0 <= i < |s.t.outbox| ==>
      var r := s.t.outbox[i];
      && r.jobId in s.t.jobs
      && RowKeyOf(r.key, s.t.jobs[r.jobId].key, RetryBound(s, r.jobId))
      && RowCounts(r)
  }

  ghost predicate QueuedOk(s: System) {
    forall id :: id in s.t.jobs && s.t.jobs[id].status == Queued ==> exists i :: LiveRow(s.t, id, i)
  }

  ghost predicate LogOk(s: System) {
    && (forall e :: e in s.log ==> e.jobId in s.t.jobs && e.attempt <= s.t.jobs[e.jobId].attempts)
    && (forall e :: e in s.log && e.Failure? && e.attempt == s.t.jobs[e.jobId].attempts ==>
          && !InFlight(s, e.jobId)
          && var j := s.t.jobs[e.jobId];
          && (j.status == Queued || j.status == Retrying ==>
                j.nextRetryAt.Some? && j.nextRetryAt.value >= e.at + RetryDelay(e.attempt)))
    && (forall e, f :: e in s.log && f in s.log && e.Failure? && f.Start? && e.jobId == f.jobId && f.attempt == e.attempt + 1
          ==> f.at >= e.at + RetryDelay(e.attempt))
  }

  ghost predicate Inv(s: System) {
    JobsOk(s) && FlightsOk(s) && KeysOk(s.t) && RecordsOk(s.t) && RecordsOwned(s.t) && RowsOk(s) && QueuedOk(s) && LogOk(s)
  }

  // ---------------------------------------------------------------- every step keeps it

  lemma JobsKeep(s: System, step: Step)
    requires JobsOk(s) && FlightsOk(s) && Admissible(s, step)
    ensures JobsOk(Next(s, step))
  {
    forall id | id in Next(s, step).t.jobs ensures Attempts(Next(s, step).t.jobs[id]) && Locks(Next(s, step).t.jobs[id]) {
      JobKeeps(s, step, id);
    }
  }

  lemma JobKeeps(s: System, step: Step, id: JobId)
    requires FlightsOk(s) && Admissible(s, step) && id in Next(s, step).t.jobs
    requires id in s.t.jobs ==> Attempts(s.t.jobs[id]) && Locks(s.t.jobs[id])
    ensures Attempts(Next(s, step).t.jobs[id]) && Locks(Next(s, step).t.jobs[id])
  {
    if step.Dispatching? {
      DispatchKeepsJob(s, step, id);
    } else if step.FinishFail? || step.FinishOk? {
      FinishKeepsJob(s, step, id);
    } else {
      OtherKeepsJob(s, step, id);
    }
  }

  lemma DispatchKeepsJob(s: System, step: Step, id: JobId)
    requires step.Dispatching? && id in Next(s, step).t.jobs
    requires id in s.t.jobs ==> Attempts(s.t.jobs[id]) && Locks(s.t.jobs[id])
    ensures Attempts(Next(s, step).t.jobs[id]) && Locks(Next(s, step).t.jobs[id])
  {}

  lemma FinishKeepsJob(s: System, step: Step, id: JobId)
    requires FlightsOk(s) && (step.FinishFail? || step.FinishOk?) && id in Next(s, step).t.jobs
    requires id in s.t.jobs ==> Attempts(s.t.jobs[id]) && Locks(s.t.jobs[id])
    ensures Attempts(Next(s, step).t.jobs[id]) && Locks(Next(s, step).t.jobs[id])
  {}

  lemma OtherKeepsJob(s: System, step: Step, id: JobId)
    requires Admissible(s, step) && !step.Dispatching? && !step.FinishFail? && !step.FinishOk? && id in Next(s, step).t.jobs
    requires id in s.t.jobs ==> Attempts(s.t.jobs[id]) && Locks(s.t.jobs[id])
    ensures Attempts(Next(s, step).t.jobs[id]) && Locks(Next(s, step).t.jobs[id])
  {}

  lemma FlightsKeep(s: System, step: Step)
    requires FlightsOk(s) && Admissible(s, step)
    ensures FlightsOk(Next(s, step))
  {
    if step.Claim? {
      ClaimKeepsFlights(s, step);
    } else if step.FinishOk? || step.FinishFail? || step.Crash? {
      LandingKeepsFlights(s, step);
    } else if step.Dispatching? {
      DispatchKeepsFlights(s, step);
    } else {
      OtherKeepsFlights(s, step);
    }
  }

  lemma ClaimKeepsFlights(s: System, step: Step)
    requires FlightsOk(s) && Admissible(s, step) && step.Claim?
    ensures FlightsOk(Next(s, step))
  {}

  lemma LandingKeepsFlights(s: System, step: Step)
    requires FlightsOk(s) && (step.FinishOk? || step.FinishFail? || step.Crash?)
    ensures FlightsOk(Next(s, step))
  {}

  lemma DispatchKeepsFlights(s: System, step: Step)
    requires FlightsOk(s) && step.Dispatching?
    ensures FlightsOk(Next(s, step))
  {}

  lemma OtherKeepsFlights(s: System, step: Step)
    requires FlightsOk(s) && Admissible(s, step)
    requires step.Enqueueing? || step.Cancel? || step.Retry? || step.Pass?
    ensures FlightsOk(Next(s, step))
  {}

  lemma KeysKeep(s: System, step: Step)
    requires KeysOk(s.t) && Admissible(s, step)
    ensures KeysOk(Next(s, step).t)
  {
    if step.Enqueueing? {
      EnqueueKeepsKeys(s, step);
    } else {
      OtherKeepsKeys(s, step);
    }
  }

  lemma EnqueueKeepsKeys(s: System, step: Step)
    requires KeysOk(s.t) && Admissible(s, step) && step.Enqueueing?
    ensures KeysOk(Next(s, step).t)
  {}

  lemma OtherKeepsKeys(s: System, step: Step)
    requires KeysOk(s.t) && Admissible(s, step) && !step.Enqueueing?
    ensures KeysOk(Next(s, step).t)
  {
    JobsStay(s, step);
    NoNewJob(s, step);
  }

  lemma NoNewJob(s: System, step: Step)
    requires !step.Enqueueing?
    ensures Next(s, step).t.jobs.Keys == s.t.jobs.Keys
  {}

  /** The same job, no fewer attempts. */
  ghost predicate Carried(j: Job, j': Job) {
    j'.key == j.key && j'.request == j.request && j'.maxAttempts == j.maxAttempts && j'.attempts >= j.attempts
  }

  lemma JobStays(s: System, step: Step, id: JobId)
    requires Admissible(s, step) && id in s.t.jobs
    ensures id in Next(s, step).t.jobs && Carried(s.t.jobs[id], Next(s, step).t.jobs[id])
  {}

  /** No step removes a job, renames it, changes its request or lowers its attempt count. */
  lemma JobsStay(s: System, step: Step)
    requires Admissible(s, step)
    ensures forall id :: id in s.t.jobs ==> id in Next(s, step).t.jobs && Carried(s.t.jobs[id], Next(s, step).t.jobs[id])
  {
    forall id | id in s.t.jobs ensures id in Next(s, step).t.jobs && Carried(s.t.jobs[id], Next(s, step).t.jobs[id]) {
      JobStays(s, step, id);
    }
  }

  lemma TakenStays(s: System, step: Step, k: string)
    requires Admissible(s, step) && KeyTaken(s.t, k)
    ensures KeyTaken(Next(s, step).t, k)
  {
    JobsStay(s, step);
    var id :| id in s.t.jobs && s.t.jobs[id].key == k;
    assert Next(s, step).t.jobs[id].key == k;
  }

  lemma RecordsKeep(s: System, step: Step)
    requires KeysOk(s.t) && FlightsOk(s) && RecordsOk(s.t) && RecordsOwned(s.t) && Admissible(s, step)
    ensures RecordsOk(Next(s, step).t)
  {
    if step.Enqueueing? {
      assert KeyTaken(s.t, step.key) <==> step.key in s.t.records;
      EnqueueKeepsRecords(s, step);
    } else {
      OtherKeepsRecords(s, step);
    }
  }

  lemma EnqueueKeepsRecords(s: System, step: Step)
    requires RecordsOk(s.t) && Admissible(s, step) && step.Enqueueing?
    requires KeyTaken(s.t, step.key) <==> step.key in s.t.records
    ensures RecordsOk(Next(s, step).t)
  {}

  /** Writing a job row keeps the records in step as long as `Succeeded` is neither entered nor left. */
  lemma PutKeepsRecords(t: Tables, id: JobId, j: Job, t': Tables)
    requires RecordsOk(t) && id in t.jobs && j.key == t.jobs[id].key && j.request == t.jobs[id].request
    requires t.jobs[id].status != Succeeded && j.status != Succeeded
    requires t'.jobs == t.jobs[id := j] && t'.records == t.records
    ensures RecordsOk(t')
  {}

  lemma BuryKeepsRecords(t: Tables, id: JobId, error: string, now: Time)
    requires KeysOk(t) && RecordsOk(t) && id in t.jobs
    ensures RecordsOk(Bury(t, id, error, now))
  {}

  lemma SucceedKeepsRecords(t: Tables, id: JobId, result: string, now: Time)
    requires KeysOk(t) && RecordsOk(t) && id in t.jobs
    ensures RecordsOk(Succeed(t, id, result, now))
  {}

  lemma DispatchKeepsRecords(t: Tables, i: nat, sent: bool, error: string, now: Time)
    requires KeysOk(t) && RecordsOk(t) && i < |t.outbox|
    ensures RecordsOk(Dispatch(t, i, sent, error, now))
  {
    var r := Attempted(t.outbox[i], sent, error, now);
    var t1 := t.(outbox := t.outbox[i := r]);
    if r.status == Dead && r.jobId in t.jobs { BuryKeepsRecords(t1, r.jobId, error, now); }
  }

  lemma FailKeepsRecords(t: Tables, f: Flight, error: string, now: Time)
    requires KeysOk(t) && RecordsOk(t) && f.jobId in t.jobs && t.jobs[f.jobId].status != Succeeded
    ensures RecordsOk(Fail(t, f, error, now))
  {
    if f.attempt >= f.maxAttempts {
      BuryKeepsRecords(t, f.jobId, error, now);
    } else {
      PutKeepsRecords(t, f.jobId, MarkRetrying(t.jobs[f.jobId], error, now), Fail(t, f, error, now));
    }
  }

  lemma OtherKeepsRecords(s: System, step: Step)
    requires KeysOk(s.t) && FlightsOk(s) && RecordsOk(s.t) && Admissible(s, step) && !step.Enqueueing?
    ensures RecordsOk(Next(s, step).t)
  {
    var t' := Next(s, step).t;
    if t' != s.t {
      match step
      case Dispatching(i, sent, error) => DispatchKeepsRecords(s.t, i, sent, error, s.clock);
      case Claim(_, id, _) => PutKeepsRecords(s.t, id, t'.jobs[id], t');
      case Cancel(id) => PutKeepsRecords(s.t, id, t'.jobs[id], t');
      case Retry(id, _, _) => PutKeepsRecords(s.t, id, t'.jobs[id], t');
      case FinishOk(w, result) => SucceedKeepsRecords(s.t, s.flights[w].jobId, result, s.clock);
      case FinishFail(w, error) => FailKeepsRecords(s.t, s.flights[w], error, s.clock);
    }
  }

  lemma OwnedKeep(s: System, step: Step)
    requires RecordsOk(s.t) && RecordsOwned(s.t) && Admissible(s, step)
    ensures RecordsOwned(Next(s, step).t)
  {
    forall k | k in Next(s, step).t.records ensures KeyTaken(Next(s, step).t, k) {
      if k in s.t.records {
        TakenStays(s, step, k);
      } else {
        assert step.Enqueueing? && Next(s, step).t.jobs[step.id].key == k;
      }
    }
  }

  lemma BoundGrows(s: System, step: Step, id: JobId)
    requires FlightsOk(s) && Admissible(s, step) && id in s.t.jobs
    ensures id in Next(s, step).t.jobs && RetryBound(s, id) <= RetryBound(Next(s, step), id)
  {}

  /** The scheduler's next retry key has never been used, and neither has a new job's enqueue key. */
  lemma KeyIsFresh(s: System, base: string, reason: string, attempts: nat)
    requires KeysOk(s.t) && RowsOk(s)
    requires || (!KeyTaken(s.t, base) && reason == "enqueue" && attempts == 0)
             || (exists id :: id in s.t.jobs && s.t.jobs[id].key == base && attempts >= RetryBound(s, id)
                              && reason == "retry:" + Show(attempts))
    ensures !HasKey(s.t.outbox, DispatchKey(base, reason, attempts))
  {
    forall i | 0 <= i < |s.t.outbox| ensures s.t.outbox[i].key != DispatchKey(base, reason, attempts) {
      var r := s.t.outbox[i];
      var own := s.t.jobs[r.jobId].key;
      if r.key == EnqueueKey(own) {
        EnqueueKeyIsNoRetryKey(own, base, attempts);
        if r.key == EnqueueKey(base) { EnqueueKeyInjective(own, base); }
      } else {
        var n: nat :| n < RetryBound(s, r.jobId) && r.key == RetryKey(own, n);
        EnqueueKeyIsNoRetryKey(base, own, n);
        if r.key == RetryKey(base, attempts) { RetryKeyInjective(own, n, base, attempts); }
      }
    }
  }

  /** Old rows keep their identity. */
  ghost predicate OldRowsStay(rows: seq<Row>, rows': seq<Row>) {
    |rows| <= |rows'| && forall i :: 0 <= i < |rows| ==>
      rows'[i].jobId == rows[i].jobId && rows'[i].key == rows[i].key && rows'[i].queueId == rows[i].queueId && RowCounts(rows'[i])
  }

  ghost predicate BoundsRise(s: System, s': System) {
    forall id :: id in s.t.jobs ==>
      id in s'.t.jobs && s'.t.jobs[id].key == s.t.jobs[id].key && RetryBound(s, id) <= RetryBound(s', id)
  }

  /** A new row is accounted for. */
  ghost predicate NewRowsOk(s: System, s': System) {
    forall i :: |s.t.outbox| <= i < |s'.t.outbox| ==>
      var r := s'.t.outbox[i];
      r.jobId in s'.t.jobs && RowKeyOf(r.key, s'.t.jobs[r.jobId].key, RetryBound(s', r.jobId)) && RowCounts(r)
  }

  /** What the proofs about rows need from a step. */
  ghost predicate RowsEvolve(s: System, s': System) {
    OldRowsStay(s.t.outbox, s'.t.outbox) && BoundsRise(s, s') && NewRowsOk(s, s')
  }

  lemma NewRow(s: System, step: Step)
    requires FlightsOk(s) && KeysOk(s.t) && Admissible(s, step) && |s.t.outbox| < |Next(s, step).t.outbox|
    ensures |Next(s, step).t.outbox| == |s.t.outbox| + 1
    ensures
      var s' := Next(s, step);
      var r := s'.t.outbox[|s.t.outbox|];
      r.jobId in s'.t.jobs && RowKeyOf(r.key, s'.t.jobs[r.jobId].key, RetryBound(s', r.jobId)) && r.attempts < r.maxAttempts
  {
    if step.Retry? {
      var n := s.t.jobs[step.jobId].attempts;
      assert !InFlight(s, step.jobId);
      assert Next(s, step).t.outbox[|s.t.outbox|].key == RetryKey(s.t.jobs[step.jobId].key, n);
    }
  }

  lemma OldRows(s: System, step: Step)
    requires Admissible(s, step)
    requires forall i :: 0 <= i < |s.t.outbox| ==> RowCounts(s.t.outbox[i])
    ensures OldRowsStay(s.t.outbox, Next(s, step).t.outbox)
  {
    if step.Dispatching? {
      DispatchedRows(s, step);
    } else {
      AddedRows(s, step);
    }
  }

  lemma DispatchedRows(s: System, step: Step)
    requires step.Dispatching? && forall i :: 0 <= i < |s.t.outbox| ==> RowCounts(s.t.outbox[i])
    ensures OldRowsStay(s.t.outbox, Next(s, step).t.outbox)
  {}

  lemma AddedRows(s: System, step: Step)
    requires !step.Dispatching? && forall i :: 0 <= i < |s.t.outbox| ==> RowCounts(s.t.outbox[i])
    ensures OldRowsStay(s.t.outbox, Next(s, step).t.outbox)
  {
    assert s.t.outbox <= Next(s, step).t.outbox;
  }

  lemma BoundsGrow(s: System, step: Step)
    requires FlightsOk(s) && Admissible(s, step)
    ensures BoundsRise(s, Next(s, step))
  {
    var s' := Next(s, step);
    forall id | id in s.t.jobs
      ensures id in s'.t.jobs && s'.t.jobs[id].key == s.t.jobs[id].key && RetryBound(s, id) <= RetryBound(s', id)
    {
      JobStays(s, step, id);
      BoundGrows(s, step, id);
    }
  }

  lemma NewRows(s: System, step: Step)
    requires FlightsOk(s) && KeysOk(s.t) && Admissible(s, step)
    ensures NewRowsOk(s, Next(s, step))
  {
    if |s.t.outbox| < |Next(s, step).t.outbox| { NewRow(s, step); }
  }

  lemma RowsEvolveFrom(s: System, step: Step)
    requires FlightsOk(s) && KeysOk(s.t) && RowsOk(s) && Admissible(s, step)
    ensures RowsEvolve(s, Next(s, step))
  {
    OldRows(s, step);
    BoundsGrow(s, step);
    NewRows(s, step);
  }

  lemma RowsKeepFrom(s: System, s': System)
    requires RowsOk(s) && RowsEvolve(s, s')
    ensures RowsOk(s')
  {
    forall i | 0 <= i < |s'.t.outbox|
      ensures var r := s'.t.outbox[i];
        r.jobId in s'.t.jobs && RowKeyOf(r.key, s'.t.jobs[r.jobId].key, RetryBound(s', r.jobId))
    {
      if i < |s.t.outbox| { assert s.t.outbox[i].jobId in s.t.jobs; }
    }
  }

  /** A job that is queued after a step and was not before got a fresh row in that step. */
  lemma NewlyQueued(s: System, step: Step, id: JobId)
    requires FlightsOk(s) && KeysOk(s.t) && RowsOk(s) && Admissible(s, step)
    requires id in Next(s, step).t.jobs && Next(s, step).t.jobs[id].status == Queued
    requires !(id in s.t.jobs && s.t.jobs[id].status == Queued)
    ensures LiveRow(Next(s, step).t, id, |s.t.outbox|)
  {
    OnlyTwoQueue(s, step, id);
    if step.Retry? { RetryQueues(s, step, id); } else { EnqueueQueues(s, step, id); }
  }

  lemma OnlyTwoQueue(s: System, step: Step, id: JobId)
    requires Admissible(s, step) && id in Next(s, step).t.jobs && Next(s, step).t.jobs[id].status == Queued
    requires !(id in s.t.jobs && s.t.jobs[id].status == Queued)
    ensures (step.Retry? && id in s.t.jobs) || (step.Enqueueing? && id !in s.t.jobs)
  {}

  lemma RetryQueues(s: System, step: Step, id: JobId)
    requires FlightsOk(s) && KeysOk(s.t) && RowsOk(s) && step.Retry?
    requires id in s.t.jobs && s.t.jobs[id].status != Queued && Next(s, step).t.jobs[id].status == Queued
    ensures LiveRow(Next(s, step).t, id, |s.t.outbox|)
  {
    RetryIsFresh(s, id);
  }

  lemma EnqueueQueues(s: System, step: Step, id: JobId)
    requires KeysOk(s.t) && RowsOk(s) && Admissible(s, step) && step.Enqueueing? && id !in s.t.jobs && id in Next(s, step).t.jobs
    ensures LiveRow(Next(s, step).t, id, |s.t.outbox|)
  {
    KeyIsFresh(s, step.key, "enqueue", 0);
  }

  lemma RetryIsFresh(s: System, id: JobId)
    requires FlightsOk(s) && KeysOk(s.t) && RowsOk(s) && id in s.t.jobs && s.t.jobs[id].status == Retrying
    ensures
      var j := s.t.jobs[id];
      !HasKey(s.t.outbox, DispatchKey(j.key, "retry:" + Show(j.attempts), j.attempts))
  {
    KeyIsFresh(s, s.t.jobs[id].key, "retry:" + Show(s.t.jobs[id].attempts), s.t.jobs[id].attempts);
  }

  lemma StillQueued(s: System, step: Step, id: JobId, i: nat)
    requires FlightsOk(s) && Admissible(s, step)
    requires id in s.t.jobs && s.t.jobs[id].status == Queued && LiveRow(s.t, id, i)
    ensures id in Next(s, step).t.jobs
    ensures Next(s, step).t.jobs[id].status == Queued ==> LiveRow(Next(s, step).t, id, i)
  {}

  lemma QueuedKeep(s: System, step: Step)
    requires FlightsOk(s) && KeysOk(s.t) && RowsOk(s) && QueuedOk(s) && Admissible(s, step)
    ensures QueuedOk(Next(s, step))
  {
    var s' := Next(s, step);
    forall id | id in s'.t.jobs && s'.t.jobs[id].status == Queued ensures exists i :: LiveRow(s'.t, id, i) {
      if id in s.t.jobs && s.t.jobs[id].status == Queued {
        var i :| LiveRow(s.t, id, i);
        StillQueued(s, step, id, i);
      } else {
        NewlyQueued(s, step, id);
      }
    }
  }

  lemma LogKeep(s: System, step: Step)
    requires FlightsOk(s) && LogOk(s) && Admissible(s, step)
    ensures LogOk(Next(s, step))
  {
    if step.Claim? {
      ClaimKeepsLog(s, step);
    } else if step.FinishFail? {
      FailKeepsLog(s, step);
    } else {
      OtherKeepsLog(s, step);
    }
  }

  lemma ClaimKeepsLog(s: System, step: Step)
    requires FlightsOk(s) && LogOk(s) && Admissible(s, step) && step.Claim?
    ensures LogOk(Next(s, step))
  {}

  lemma FailKeepsLog(s: System, step: Step)
    requires FlightsOk(s) && LogOk(s) && Admissible(s, step) && step.FinishFail?
    ensures LogOk(Next(s, step))
  {}

  lemma OtherKeepsLog(s: System, step: Step)
    requires FlightsOk(s) && LogOk(s) && Admissible(s, step) && !step.Claim? && !step.FinishFail?
    ensures LogOk(Next(s, step))
  {
    if step.Dispatching? || step.FinishOk? { BurialKeepsLog(s, step); } else { QuietKeepsLog(s, step); }
  }

  lemma BurialKeepsLog(s: System, step: Step)
    requires FlightsOk(s) && LogOk(s) && (step.Dispatching? || step.FinishOk?)
    ensures LogOk(Next(s, step))
  {}

  lemma QuietKeepsLog(s: System, step: Step)
    requires FlightsOk(s) && LogOk(s) && Admissible(s, step)
    requires step.Enqueueing? || step.Crash? || step.Cancel? || step.Retry? || step.Pass?
    ensures LogOk(Next(s, step))
  {}

  lemma InvKeeps(s: System, step: Step)
    requires Inv(s) && Admissible(s, step)
    ensures Inv(Next(s, step))
  {
    JobsKeep(s, step);
    FlightsKeep(s, step);
    KeysKeep(s, step);
    RecordsKeep(s, step);
    OwnedKeep(s, step);
    RowsEvolveFrom(s, step);
    RowsKeepFrom(s, Next(s, step));
    QueuedKeep(s, step);
    LogKeep(s, step);
  }

  /** Every reachable state satisfies the invariant. */
  lemma {:induction false} InvHolds(s: System, steps: seq<Step>)
    requires Inv(s)
    ensures Inv(Run(s, steps))
    decreases |steps|
  {
    if steps != [] && Admissible(s, steps[0]) {
      InvKeeps(s, steps[0]);
      InvHolds(Next(s, steps[0]), steps[1..]);
    }
  }

  // ---------------------------------------------------------------- what it means for whole runs

  /** At most one worker executes a job, and only while no delivery or retry can take it again. */
  lemma OneWorkerPerJob(s: System, steps: seq<Step>, w: WorkerId, v: WorkerId)
    requires Initial(s)
    requires var e := Run(s, steps); w in e.flights && v in e.flights && e.flights[w].jobId == e.flights[v].jobId
    ensures w == v
    ensures
      var e := Run(s, steps);
      var id := e.flights[w].jobId;
      && id in e.t.jobs
      && (forall now :: !ShouldRun(e.t.jobs[id], now) && !ReadyForRetry(e.t.jobs[id], now))
      && (e.t.jobs[id].status == Running ==> e.t.jobs[id].lockOwner == e.flights[w].owner)
  {
    InvHolds(s, steps);
  }

  lemma LocksFollowStatus(s: System, steps: seq<Step>, id: JobId)
    requires Initial(s) && id in Run(s, steps).t.jobs
    ensures
      var j := Run(s, steps).t.jobs[id];
      && (j.lockedAt.Some? <==> j.status == Running)
      && (j.lockOwner != "" <==> j.status == Running)
  {
    InvHolds(s, steps);
  }

  /** A queued job always has an outbox row with its queue id that can still reach the broker. */
  lemma NoLostDispatch(s: System, steps: seq<Step>, id: JobId)
    requires Initial(s) && id in Run(s, steps).t.jobs && Run(s, steps).t.jobs[id].status == Queued
    ensures exists i :: LiveRow(Run(s, steps).t, id, i)
  {
    InvHolds(s, steps);
  }

  /** No two jobs share a key, each key's record names its job's request, and it says succeeded exactly when the job does. */
  lemma OneJobPerKey(s: System, steps: seq<Step>, a: JobId, b: JobId)
    requires Initial(s)
    requires var e := Run(s, steps); a in e.t.jobs && b in e.t.jobs && e.t.jobs[a].key == e.t.jobs[b].key
    ensures a == b
    ensures
      var e := Run(s, steps);
      var j := e.t.jobs[a];
      && j.key in e.t.records && e.t.records[j.key].digest == Some(j.request)
      && (e.t.records[j.key].status == RecordSucceeded <==> j.status == Succeeded)
  {
    InvHolds(s, steps);
  }

  /** Enqueueing under a used key: the same request changes nothing, another request is refused. */
  lemma ReplayOrConflict(s: System, steps: seq<Step>, id: JobId, step: Step)
    requires Initial(s) && id in Run(s, steps).t.jobs && step.Enqueueing? && Admissible(Run(s, steps), step)
    requires step.key == Run(s, steps).t.jobs[id].key
    ensures Next(Run(s, steps), step) == Run(s, steps)
    ensures Conflicts(Run(s, steps).t, step.key, step.request) <==> step.request != Run(s, steps).t.jobs[id].request
  {
    InvHolds(s, steps);
    assert KeyTaken(Run(s, steps).t, step.key);
  }

  /** Attempt k + 1 starts no earlier than the failure of attempt k plus its delay. */
  lemma RetryWindows(s: System, steps: seq<Step>, i: nat, j: nat)
    requires Initial(s)
    requires i < |Run(s, steps).log| && j < |Run(s, steps).log|
    requires
      var e, f := Run(s, steps).log[i], Run(s, steps).log[j];
      e.Failure? && f.Start? && e.jobId == f.jobId && f.attempt == e.attempt + 1
    ensures
      var e, f := Run(s, steps).log[i], Run(s, steps).log[j];
      f.at >= e.at + RetryDelay(e.attempt)
  {
    InvHolds(s, steps);
  }

  // ---------------------------------------------------------------- what does not hold, and exactly when

  /** A finishing write has no status guard, so a cancelled job can end up succeeded. */
  lemma CancelCanBeOverwritten(request: Request)
    ensures
      var s := System(Tables(map[], [], map[]), map[], 0, []);
      var s1 := Next(s, Enqueueing(0, "k", request, 3, "q"));
      var s2 := Next(s1, Claim(0, 0, "w"));
      var s3 := Next(s2, Cancel(0));
      var s4 := Next(s3, FinishOk(0, "done"));
      && Initial(s) && Admissible(s, Enqueueing(0, "k", request, 3, "q")) && Admissible(s1, Claim(0, 0, "w"))
      && 0 in s3.t.jobs && s3.t.jobs[0].status == Cancelled
      && 0 in s4.t.jobs && s4.t.jobs[0].status == Succeeded
  {
    var s := System(Tables(map[], [], map[]), map[], 0, []);
    var s1 := Next(s, Enqueueing(0, "k", request, 3, "q"));
    assert s1.t.jobs[0].status == Queued && s1.t.jobs[0].nextRetryAt == None;
    var s2 := Next(s1, Claim(0, 0, "w"));
    assert s2.t.jobs[0].status == Running && s2.flights[0].jobId == 0;
  }

  /** The two writes that can replace a terminal status: a worker landing, and an outbox row giving up. */
  ghost predicate Overwrites(s: System, step: Step, id: JobId)
    requires id in s.t.jobs
  {
    match step
    case FinishOk(w, _) => w in s.flights && s.flights[w].jobId == id
    case FinishFail(w, _) =>
      w in s.flights && s.flights[w].jobId == id &&
      (s.flights[w].attempt < s.flights[w].maxAttempts || s.t.jobs[id].status != DeadLetter)
    case Dispatching(i, sent, _) =>
      i < |s.t.outbox| && RowDue(s.t.outbox[i], s.clock) && s.t.outbox[i].jobId == id && !sent &&
      s.t.outbox[i].attempts + 1 >= s.t.outbox[i].maxAttempts && s.t.jobs[id].status != DeadLetter
    case _ => false
  }

  lemma TerminalLeftIff(s: System, step: Step, id: JobId)
    requires FlightsOk(s) && Admissible(s, step) && id in s.t.jobs && Terminal(s.t.jobs[id].status)
    ensures id in Next(s, step).t.jobs
    ensures Next(s, step).t.jobs[id].status != s.t.jobs[id].status <==> Overwrites(s, step, id)
  {
    var j := s.t.jobs[id];
    if step.FinishOk? && Overwrites(s, step, id) { assert FlightOk(s, s.flights[step.worker]); }
    if step.FinishFail? && Overwrites(s, step, id) { assert FlightOk(s, s.flights[step.worker]); }
  }

  /**
   `reschedule_job` also accepts queued jobs. Under a fresh queue id the dispatch survives exactly
   when the key is new: a second call with the same reason and attempt strands the job.
   */
  lemma ScheduleKeepsDispatchIff(t: Tables, id: JobId, queueId: string, reason: string)
    requires id in t.jobs
    requires forall i :: 0 <= i < |t.outbox| ==> t.outbox[i].queueId != queueId
    ensures (exists i :: LiveRow(Schedule(t, id, queueId, reason), id, i)) <==>
            !HasKey(t.outbox, DispatchKey(KeyBase(id, t.jobs[id]), reason, t.jobs[id].attempts))
  {
    var t' := Schedule(t, id, queueId, reason);
    if !HasKey(t.outbox, DispatchKey(KeyBase(id, t.jobs[id]), reason, t.jobs[id].attempts)) {
      assert LiveRow(t', id, |t.outbox|);
    }
  }
}
