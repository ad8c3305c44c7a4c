/** When a terminal status is final: over every continuation of a run, with workers landing and outbox rows giving up. */
module JobEndings {
  import opened Common
  import opened Jobs
  import opened JobProtocol

  predicate Waiting(r: Row) { r.status == Pending || r.status == RetryLater }

  /** Row i belongs to the job and may still be tried. */
  predicate WaitsAt(t: Tables, id: JobId, i: nat) { i < |t.outbox| && t.outbox[i].jobId == id && Waiting(t.outbox[i]) }

  ghost predicate Undispatched(t: Tables, id: JobId) { exists i: nat :: WaitsAt(t, id, i) }

  /** Nobody is left who could write the job's status: no worker in flight, and no waiting row that would bury it. */
  ghost predicate Final(s: System, id: JobId) {
    && id in s.t.jobs && Terminal(s.t.jobs[id].status) && !InFlight(s, id)
    && (s.t.jobs[id].status == DeadLetter || !Undispatched(s.t, id))
  }

  ghost predicate StaysFinal(s: System, s': System, id: JobId)
    requires id in s.t.jobs
  {
    Final(s', id) && s'.t.jobs[id].status == s.t.jobs[id].status
  }

  lemma DispatchStaysFinal(s: System, step: Step, id: JobId)
    requires step.Dispatching? && Final(s, id)
    ensures StaysFinal(s, Next(s, step), id)
  {
    var s', i := Next(s, step), step.row;
    if i < |s.t.outbox| && RowDue(s.t.outbox[i], s.clock) && s.t.outbox[i].jobId == id { assert WaitsAt(s.t, id, i); }
    forall i: nat | WaitsAt(s'.t, id, i) ensures WaitsAt(s.t, id, i) {}
    assert InFlight(s', id) == InFlight(s, id);
  }

  lemma LandingStaysFinal(s: System, step: Step, id: JobId)
    requires (step.FinishOk? || step.FinishFail? || step.Crash?) && Final(s, id)
    ensures StaysFinal(s, Next(s, step), id)
  {
    var s' := Next(s, step);
    assert s'.t.outbox == s.t.outbox;
    forall i: nat | WaitsAt(s'.t, id, i) ensures WaitsAt(s.t, id, i) {}
  }

  lemma OtherStaysFinal(s: System, step: Step, id: JobId)
    requires Admissible(s, step) && Final(s, id) && !step.Dispatching? && !step.FinishOk? && !step.FinishFail? && !step.Crash?
    ensures StaysFinal(s, Next(s, step), id)
  {
    var s' := Next(s, step);
    forall i: nat | WaitsAt(s'.t, id, i) ensures WaitsAt(s.t, id, i) {}
  }

  lemma StepStaysFinal(s: System, step: Step, id: JobId)
    requires Admissible(s, step) && Final(s, id)
    ensures StaysFinal(s, Next(s, step), id)
  {
    if step.Dispatching? {
      DispatchStaysFinal(s, step, id);
    } else if step.FinishOk? || step.FinishFail? || step.Crash? {
      LandingStaysFinal(s, step, id);
    } else {
      OtherStaysFinal(s, step, id);
    }
  }

  /** The job's status after a continuation. */
  function StatusAfter(s: System, steps: seq<Step>, id: JobId): Option<JobStatus> {
    var e := Run(s, steps);
    if id in e.t.jobs then Some(e.t.jobs[id].status) else None
  }

  lemma {:induction false} FinalHolds(s: System, steps: seq<Step>, id: JobId)
    requires Final(s, id)
    ensures StatusAfter(s, steps, id) == Some(s.t.jobs[id].status)
    decreases |steps|
  {
    if steps != [] && Admissible(s, steps[0]) {
      StepStaysFinal(s, steps[0], id);
      FinalHolds(Next(s, steps[0]), steps[1..], id);
    }
  }

  lemma RunTwo(s: System, a: Step, b: Step, more: seq<Step>)
    requires Admissible(s, a) && Admissible(Next(s, a), b)
    ensures Run(s, [a, b] + more) == Run(Next(Next(s, a), b), more)
  {
    var steps := [a, b] + more;
    assert steps[0] == a && steps[1..] == [b] + more;
    assert ([b] + more)[0] == b && ([b] + more)[1..] == more;
  }

  /** Waiting until the row is due and failing to send it. */
  lemma FailOnce(s: System, id: JobId, i: nat) returns (wait: Step, fail: Step)
    requires id in s.t.jobs && WaitsAt(s.t, id, i)
    ensures wait.Pass? && fail.Dispatching?
    ensures
      var r, e := s.t.outbox[i], Next(Next(s, wait), fail);
      && id in e.t.jobs && |e.t.outbox| == |s.t.outbox|
      && e.t.outbox[i].jobId == id && e.t.outbox[i].maxAttempts == r.maxAttempts && e.t.outbox[i].attempts == r.attempts + 1
      && (r.attempts + 1 >= r.maxAttempts ==> e.t.jobs[id].status == DeadLetter)
      && (r.attempts + 1 < r.maxAttempts ==> WaitsAt(e.t, id, i))
  {
    var at := s.t.outbox[i].nextAttemptAt;
    wait := Pass(if at.Some? && at.value > s.clock then at.value - s.clock else 0);
    fail := Dispatching(i, false, "broker down");
    assert RowDue(s.t.outbox[i], Next(s, wait).clock);
  }

  /** A waiting row whose sends keep failing buries its job, whatever the job's status was. */
  lemma {:induction false} RowCanBury(s: System, id: JobId, i: nat) returns (steps: seq<Step>)
    requires id in s.t.jobs && WaitsAt(s.t, id, i) && s.t.outbox[i].attempts < s.t.outbox[i].maxAttempts
    ensures StatusAfter(s, steps, id) == Some(DeadLetter)
    decreases s.t.outbox[i].maxAttempts - s.t.outbox[i].attempts
  {
    var wait, fail := FailOnce(s, id, i);
    var e := Next(Next(s, wait), fail);
    var more := [];
    if s.t.outbox[i].attempts + 1 < s.t.outbox[i].maxAttempts { more := RowCanBury(e, id, i); }
    steps := [wait, fail] + more;
    RunTwo(s, wait, fail, more);
  }

  /** A worker in flight can still make the job succeed. */
  lemma WorkerCanLand(s: System, id: JobId) returns (steps: seq<Step>)
    requires FlightsOk(s) && id in s.t.jobs && InFlight(s, id)
    ensures StatusAfter(s, steps, id) == Some(Succeeded) && s.t.jobs[id].status != Succeeded
  {
    var w :| w in s.flights && s.flights[w].jobId == id;
    assert FlightOk(s, s.flights[w]);
    var step := FinishOk(w, "done");
    steps := [step];
    assert steps[1..] == [];
    assert Run(s, steps) == Next(s, step);
  }

  lemma RowsCount(s: System, i: nat)
    requires RowsOk(s) && i < |s.t.outbox|
    ensures RowCounts(s.t.outbox[i])
  {}

  /**
   In any state with the invariant's facts about workers and rows, a terminal status survives every continuation exactly when no worker
   is in flight for the job and it is dead-lettered or none of its rows is still waiting.
   */
  lemma TerminalIsFinalIff(s: System, id: JobId)
    requires FlightsOk(s) && RowsOk(s) && id in s.t.jobs && Terminal(s.t.jobs[id].status)
    ensures (forall steps :: StatusAfter(s, steps, id) == Some(s.t.jobs[id].status)) <==> Final(s, id)
  {
    if Final(s, id) {
      forall steps ensures StatusAfter(s, steps, id) == Some(s.t.jobs[id].status) { FinalHolds(s, steps, id); }
    } else if InFlight(s, id) {
      var steps := WorkerCanLand(s, id);
    } else {
      var i: nat :| WaitsAt(s.t, id, i);
      RowsCount(s, i);
      var steps := RowCanBury(s, id, i);
    }
  }

  /** The same for every state a run from empty tables can reach. */
  lemma ReachedTerminalIsFinalIff(s: System, before: seq<Step>, id: JobId)
    requires Initial(s) && id in Run(s, before).t.jobs && Terminal(Run(s, before).t.jobs[id].status)
    ensures
      var e := Run(s, before);
      (forall steps :: StatusAfter(e, steps, id) == Some(e.t.jobs[id].status)) <==> Final(e, id)
  {
    InvHolds(s, before);
    TerminalIsFinalIff(Run(s, before), id);
  }

  /** Enqueued once, then rescheduled twice with the same reason: the job is queued and no row carries its queue id. */
  lemma TwiceRescheduledIsStranded(request: Request)
    ensures
      var t1 := Enqueue(Tables(map[], [], map[]), 0, "k", request, 3, "q0");
      0 in t1.jobs &&
      var t2 := Schedule(t1, 0, "q1", "manual");
      var t3 := Schedule(t2, 0, "q2", "manual");
      t3.jobs[0].status == Queued && !exists i :: LiveRow(t3, 0, i)
  {
    var t1 := Enqueue(Tables(map[], [], map[]), 0, "k", request, 3, "q0");
    assert 0 in t1.jobs && t1.jobs[0].key == "k";
    var t2 := Schedule(t1, 0, "q1", "manual");
    var key := DispatchKey("k", "manual", 0);
    assert KeyBase(0, t1.jobs[0]) == "k" && KeyBase(0, t2.jobs[0]) == "k";
    assert HasKey(t2.outbox, key) by {
      if !HasKey(t1.outbox, key) { assert t2.outbox[|t1.outbox|].key == key; }
    }
    assert forall i :: 0 <= i < |t2.outbox| ==> t2.outbox[i].queueId != "q2";
    ScheduleKeepsDispatchIff(t2, 0, "q2", "manual");
  }
}
