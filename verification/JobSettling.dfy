/** Every job settles: its effective steps use up a potential that only its own enqueue creates. */
module JobSettling {
  import opened Common
  import opened Decimal
  import opened Jobs
  import opened JobProtocol

  /** Broker calls a row may still make. */
  ghost function Left(r: Row): nat {
    if (r.status == Pending || r.status == RetryLater) && r.attempts < r.maxAttempts then r.maxAttempts - r.attempts else 0
  }

  ghost function LeftOf(rows: seq<Row>, id: JobId): nat {
    if rows == [] then 0
    else
      var r := rows[|rows| - 1];
      LeftOf(rows[..|rows| - 1], id) + (if r.jobId == id then Left(r) else 0)
  }

  ghost function Weight(status: JobStatus, inFlight: bool): nat {
    if inFlight then (if status == Running then 9 else 8)
    else match status
      case Retrying => 7
      case Queued => 1
      case Running => 1
      case _ => 0
  }

  ghost function Potential(s: System, id: JobId): nat
    requires id in s.t.jobs && Attempts(s.t.jobs[id])
  {
    var j := s.t.jobs[id];
    9 * (j.maxAttempts - j.attempts) + Weight(j.status, InFlight(s, id)) + LeftOf(s.t.outbox, id)
  }

  /** The step leaves the job's row, its worker and its outbox rows alone. */
  ghost predicate Untouched(s: System, s': System, id: JobId)
    requires id in s.t.jobs
  {
    && id in s'.t.jobs && s'.t.jobs[id] == s.t.jobs[id]
    && InFlight(s', id) == InFlight(s, id)
    && |s.t.outbox| <= |s'.t.outbox|
    && (forall i :: 0 <= i < |s.t.outbox| && s.t.outbox[i].jobId == id ==> s'.t.outbox[i] == s.t.outbox[i])
    && (forall i :: |s.t.outbox| <= i < |s'.t.outbox| ==> s'.t.outbox[i].jobId != id)
  }

  lemma {:induction false} LeftAfterUpdate(rows: seq<Row>, i: nat, r: Row, id: JobId)
    requires i < |rows| && r.jobId == rows[i].jobId
    ensures LeftOf(rows[i := r], id) + (if r.jobId == id then Left(rows[i]) else 0)
         == LeftOf(rows, id) + (if r.jobId == id then Left(r) else 0)
  {
    var n := |rows| - 1;
    if i < n {
      assert rows[i := r][..n] == rows[..n][i := r];
      LeftAfterUpdate(rows[..n], i, r, id);
    } else {
      assert rows[i := r][..n] == rows[..n];
    }
  }

  lemma LeftAfterAdd(rows: seq<Row>, r: Row, id: JobId)
    ensures LeftOf(rows + [r], id) == LeftOf(rows, id) + (if r.jobId == id then Left(r) else 0)
  {
    assert (rows + [r])[..|rows|] == rows;
  }

  /** The step leaves the job alone or takes from its potential. */
  ghost predicate Pays(s: System, s': System, id: JobId)
    requires id in s.t.jobs && Attempts(s.t.jobs[id])
  {
    && id in s'.t.jobs && Attempts(s'.t.jobs[id])
    && (Untouched(s, s', id) || Potential(s', id) < Potential(s, id))
  }

  /** One dispatch attempt uses up at least one of the row's broker calls and adds no weight to the job. */
  lemma DispatchPays(s: System, step: Step, id: JobId)
    requires step.Dispatching? && id in s.t.jobs && Attempts(s.t.jobs[id])
    requires step.row < |s.t.outbox| && RowDue(s.t.outbox[step.row], s.clock) && RowCounts(s.t.outbox[step.row])
    requires s.t.outbox[step.row].jobId == id
    ensures Pays(s, Next(s, step), id)
  {
    var r := Attempted(s.t.outbox[step.row], step.sent, step.error, s.clock);
    LeftAfterUpdate(s.t.outbox, step.row, r, id);
    assert Left(r) < Left(s.t.outbox[step.row]);
    assert Next(s, step).t.outbox == s.t.outbox[step.row := r];
    assert InFlight(Next(s, step), id) == InFlight(s, id);
  }

  lemma RetryPays(s: System, step: Step, id: JobId)
    requires KeysOk(s.t) && RowsOk(s) && FlightsOk(s) && step.Retry? && step.jobId == id && id in s.t.jobs
    requires Attempts(s.t.jobs[id]) && ReadyForRetry(s.t.jobs[id], step.tickTime)
    ensures Pays(s, Next(s, step), id)
  {
    RetryIsFresh(s, id);
    assert !InFlight(s, id);
    FreshRetryPays(s, step, id);
  }

  lemma FreshRetryPays(s: System, step: Step, id: JobId)
    requires step.Retry? && step.jobId == id && id in s.t.jobs && s.t.jobs[id].key != "" && !InFlight(s, id)
    requires Attempts(s.t.jobs[id]) && ReadyForRetry(s.t.jobs[id], step.tickTime)
    requires !HasKey(s.t.outbox, DispatchKey(s.t.jobs[id].key, "retry:" + Show(s.t.jobs[id].attempts), s.t.jobs[id].attempts))
    ensures Pays(s, Next(s, step), id)
  {
    var j := s.t.jobs[id];
    var row := Row(id, step.queueId, RetryKey(j.key, j.attempts), Pending, 0, 5, None, "");
    assert Next(s, step).t.outbox == s.t.outbox + [row];
    LeftAfterAdd(s.t.outbox, row, id);
    assert InFlight(Next(s, step), id) == InFlight(s, id);
  }

  lemma ClaimPays(s: System, step: Step, id: JobId)
    requires FlightsOk(s) && Admissible(s, step) && step.Claim? && id in s.t.jobs && Attempts(s.t.jobs[id])
    ensures Pays(s, Next(s, step), id)
  {
    var s' := Next(s, step);
    if s' != s && step.jobId == id {
      assert s'.flights[step.worker].jobId == id;
      assert !InFlight(s, id);
    } else {
      FlightElsewhere(s, s', step.worker, id);
    }
  }

  /** Finishing and crashing end the one flight of the job. */
  lemma LandingPays(s: System, step: Step, id: JobId)
    requires FlightsOk(s) && id in s.t.jobs && Attempts(s.t.jobs[id])
    requires step.FinishOk? || step.FinishFail? || step.Crash?
    ensures Pays(s, Next(s, step), id)
  {
    var s', w := Next(s, step), step.worker;
    if w in s.flights && s.flights[w].jobId == id {
      OwnLandingPays(s, step, id);
    } else {
      FlightElsewhere(s, s', w, id);
      OtherLandingPays(s, step, id);
    }
  }

  lemma OwnLandingPays(s: System, step: Step, id: JobId)
    requires FlightsOk(s) && id in s.t.jobs && Attempts(s.t.jobs[id])
    requires (step.FinishOk? || step.FinishFail? || step.Crash?) && step.worker in s.flights && s.flights[step.worker].jobId == id
    ensures Pays(s, Next(s, step), id)
  {
    assert FlightOk(s, s.flights[step.worker]);
    assert InFlight(s, id) && !InFlight(Next(s, step), id);
  }

  lemma OtherLandingPays(s: System, step: Step, id: JobId)
    requires id in s.t.jobs && Attempts(s.t.jobs[id]) && InFlight(Next(s, step), id) == InFlight(s, id)
    requires (step.FinishOk? || step.FinishFail? || step.Crash?) && (step.worker in s.flights ==> s.flights[step.worker].jobId != id)
    ensures Pays(s, Next(s, step), id)
  {}

  lemma CancelPays(s: System, step: Step, id: JobId)
    requires FlightsOk(s) && step.Cancel? && id in s.t.jobs && Attempts(s.t.jobs[id])
    ensures Pays(s, Next(s, step), id)
  {
    assert InFlight(Next(s, step), id) == InFlight(s, id);
  }

  /** Steps that are about another job. */
  lemma Elsewhere(s: System, step: Step, id: JobId)
    requires Admissible(s, step) && id in s.t.jobs && Attempts(s.t.jobs[id])
    requires step.Enqueueing? || step.Pass? || step.Dispatching? || step.Retry?
    requires step.Dispatching? && step.row < |s.t.outbox| ==> s.t.outbox[step.row].jobId != id || !RowDue(s.t.outbox[step.row], s.clock)
    requires step.Retry? ==> step.jobId != id || !ReadyForRetry(s.t.jobs[id], step.tickTime)
    ensures Pays(s, Next(s, step), id)
  {
    if step.Dispatching? { DispatchElsewhere(s, step, id); } else { ScheduleElsewhere(s, step, id); }
  }

  lemma DispatchElsewhere(s: System, step: Step, id: JobId)
    requires step.Dispatching? && id in s.t.jobs && Attempts(s.t.jobs[id])
    requires step.row < |s.t.outbox| ==> s.t.outbox[step.row].jobId != id || !RowDue(s.t.outbox[step.row], s.clock)
    ensures Pays(s, Next(s, step), id)
  {
    assert InFlight(Next(s, step), id) == InFlight(s, id);
  }

  lemma ScheduleElsewhere(s: System, step: Step, id: JobId)
    requires Admissible(s, step) && id in s.t.jobs && Attempts(s.t.jobs[id])
    requires step.Enqueueing? || step.Pass? || step.Retry?
    requires step.Retry? ==> step.jobId != id || !ReadyForRetry(s.t.jobs[id], step.tickTime)
    ensures Pays(s, Next(s, step), id)
  {
    assert InFlight(Next(s, step), id) == InFlight(s, id);
  }

  lemma FlightElsewhere(s: System, s': System, w: WorkerId, id: JobId)
    requires forall v :: v != w ==> (v in s'.flights <==> v in s.flights)
    requires forall v :: v != w && v in s.flights ==> s'.flights[v] == s.flights[v]
    requires w in s.flights ==> s.flights[w].jobId != id
    requires w in s'.flights ==> s'.flights[w].jobId != id
    ensures InFlight(s', id) == InFlight(s, id)
  {
    if InFlight(s, id) {
      var v :| v in s.flights && s.flights[v].jobId == id;
      assert v in s'.flights && s'.flights[v].jobId == id;
    }
    if InFlight(s', id) {
      var v :| v in s'.flights && s'.flights[v].jobId == id;
      assert v in s.flights && s.flights[v].jobId == id;
    }
  }

  /** Any step either leaves a job alone or takes from its potential. */
  lemma StepPays(s: System, step: Step, id: JobId)
    requires FlightsOk(s) && KeysOk(s.t) && RowsOk(s) && Admissible(s, step) && id in s.t.jobs && Attempts(s.t.jobs[id])
    ensures Pays(s, Next(s, step), id)
  {
    match step
    case Claim(_, _, _) => ClaimPays(s, step, id);
    case FinishOk(_, _) => LandingPays(s, step, id);
    case FinishFail(_, _) => LandingPays(s, step, id);
    case Crash(_) => LandingPays(s, step, id);
    case Cancel(_) => CancelPays(s, step, id);
    case Dispatching(i, _, _) =>
      if i < |s.t.outbox| && RowDue(s.t.outbox[i], s.clock) && s.t.outbox[i].jobId == id {
        DispatchPays(s, step, id);
      } else {
        Elsewhere(s, step, id);
      }
    case Retry(k, tickTime, _) =>
      if k == id && ReadyForRetry(s.t.jobs[id], tickTime) { RetryPays(s, step, id); } else { Elsewhere(s, step, id); }
    case _ => Elsewhere(s, step, id);
  }

  lemma {:induction false} LeftOfSame(rows: seq<Row>, rows': seq<Row>, id: JobId)
    requires |rows| <= |rows'|
    requires forall i :: 0 <= i < |rows| ==> rows'[i].jobId == rows[i].jobId
    requires forall i :: 0 <= i < |rows| && rows[i].jobId == id ==> rows'[i] == rows[i]
    requires forall i :: |rows| <= i < |rows'| ==> rows'[i].jobId != id
    ensures LeftOf(rows', id) == LeftOf(rows, id)
  {
    if rows' != [] {
      if |rows| == |rows'| {
        LeftOfSame(rows[..|rows| - 1], rows'[..|rows'| - 1], id);
      } else {
        LeftOfSame(rows, rows'[..|rows'| - 1], id);
      }
    }
  }

  /** How many steps of a run touch the job. */
  ghost function Touches(s: System, steps: seq<Step>, id: JobId): nat
    requires id in s.t.jobs
    decreases |steps|
  {
    if steps == [] || !Admissible(s, steps[0]) then 0
    else
      JobsStay(s, steps[0]);
      (if Untouched(s, Next(s, steps[0]), id) then 0 else 1) + Touches(Next(s, steps[0]), steps[1..], id)
  }

  lemma {:induction false} RunPays(s: System, steps: seq<Step>, id: JobId)
    requires Inv(s) && id in s.t.jobs
    ensures id in Run(s, steps).t.jobs && Attempts(Run(s, steps).t.jobs[id])
    ensures Touches(s, steps, id) + Potential(Run(s, steps), id) <= Potential(s, id)
    decreases |steps|
  {
    if steps != [] && Admissible(s, steps[0]) {
      var s' := Next(s, steps[0]);
      InvKeeps(s, steps[0]);
      StepPays(s, steps[0], id);
      OldRows(s, steps[0]);
      if Untouched(s, s', id) { LeftOfSame(s.t.outbox, s'.t.outbox, id); }
      RunPays(s', steps[1..], id);
    }
  }

  /** A job just enqueued starts with this much potential. */
  lemma InitialPotential(m: System, step: Step)
    requires KeysOk(m.t) && RowsOk(m) && FlightsOk(m) && RecordsOwned(m.t) && step.Enqueueing? && Admissible(m, step)
    requires step.id in Next(m, step).t.jobs
    ensures
      var j := Next(m, step).t.jobs[step.id];
      Attempts(j) && Potential(Next(m, step), step.id) == 9 * j.maxAttempts + 6
  {
    var e := Next(m, step);
    KeyIsFresh(m, step.key, "enqueue", 0);
    var row := Row(step.id, step.queueId, EnqueueKey(step.key), Pending, 0, 5, None, "");
    assert e.t.outbox == m.t.outbox + [row];
    LeftAfterAdd(m.t.outbox, row, step.id);
    NoRowsYet(m.t.outbox, step.id);
    assert !InFlight(e, step.id);
  }

  /**
   From the moment a job is enqueued, every later run of any length touches it at most
   9 * max_attempts + 6 times, and it starts at most max_attempts times.
   */
  lemma EveryJobSettles(s: System, before: seq<Step>, step: Step, after: seq<Step>)
    requires Initial(s) && step.Enqueueing?
    requires Admissible(Run(s, before), step) && step.id in Next(Run(s, before), step).t.jobs
    ensures
      var e := Next(Run(s, before), step);
      && Touches(e, after, step.id) <= 9 * e.t.jobs[step.id].maxAttempts + 6
      && step.id in Run(e, after).t.jobs
      && Run(e, after).t.jobs[step.id].attempts <= e.t.jobs[step.id].maxAttempts
  {
    InvHolds(s, before);
    InitialPotential(Run(s, before), step);
    InvKeeps(Run(s, before), step);
    RunPays(Next(Run(s, before), step), after, step.id);
    MaxAttemptsFixed(Next(Run(s, before), step), after, step.id);
  }

  lemma {:induction false} NoRowsYet(rows: seq<Row>, id: JobId)
    requires forall i :: 0 <= i < |rows| ==> rows[i].jobId != id
    ensures LeftOf(rows, id) == 0
  {
    if rows != [] { NoRowsYet(rows[..|rows| - 1], id); }
  }

  lemma {:induction false} MaxAttemptsFixed(s: System, steps: seq<Step>, id: JobId)
    requires id in s.t.jobs
    ensures id in Run(s, steps).t.jobs && Run(s, steps).t.jobs[id].maxAttempts == s.t.jobs[id].maxAttempts
    decreases |steps|
  {
    if steps != [] && Admissible(s, steps[0]) {
      JobsStay(s, steps[0]);
      MaxAttemptsFixed(Next(s, steps[0]), steps[1..], id);
    }
  }

  // ---------------------------------------------------------------- starts are counted

  ghost function Starts(log: seq<Event>, id: JobId): nat {
    if log == [] then 0
    else Starts(log[..|log| - 1], id) + (if log[|log| - 1].Start? && log[|log| - 1].jobId == id then 1 else 0)
  }

  ghost predicate StartsCounted(s: System) {
    && (forall id :: id in s.t.jobs ==> Starts(s.log, id) == s.t.jobs[id].attempts)
    && (forall e :: e in s.log ==> e.jobId in s.t.jobs)
  }

  lemma {:induction false} NoStarts(log: seq<Event>, id: JobId)
    requires forall e :: e in log ==> e.jobId != id
    ensures Starts(log, id) == 0
  {
    if log != [] { NoStarts(log[..|log| - 1], id); }
  }

  lemma StartsKeep(s: System, step: Step)
    requires FlightsOk(s) && StartsCounted(s) && Admissible(s, step)
    ensures StartsCounted(Next(s, step))
  {
    if step.Enqueueing? {
      NoStarts(s.log, step.id);
    } else if step.Claim? || step.FinishFail? {
      LoggedStartsKeep(s, step);
    }
  }

  lemma LoggedStartsKeep(s: System, step: Step)
    requires FlightsOk(s) && StartsCounted(s) && (step.Claim? || step.FinishFail?)
    ensures StartsCounted(Next(s, step))
  {
    var s' := Next(s, step);
    if s'.log != s.log {
      assert s'.log[..|s'.log| - 1] == s.log;
      forall id | id in s'.t.jobs ensures Starts(s'.log, id) == s'.t.jobs[id].attempts {
        assert Starts(s.log, id) == s.t.jobs[id].attempts;
      }
    }
  }

  /** The number of times workers started a job is its attempt count, and never exceeds max_attempts. */
  lemma {:induction false} StartsBounded(s: System, steps: seq<Step>)
    requires Inv(s) && StartsCounted(s)
    ensures StartsCounted(Run(s, steps))
    ensures forall id :: id in Run(s, steps).t.jobs ==>
      Starts(Run(s, steps).log, id) <= Run(s, steps).t.jobs[id].maxAttempts
    decreases |steps|
  {
    if steps != [] && Admissible(s, steps[0]) {
      InvKeeps(s, steps[0]);
      StartsKeep(s, steps[0]);
      StartsBounded(Next(s, steps[0]), steps[1..]);
    }
  }
}
