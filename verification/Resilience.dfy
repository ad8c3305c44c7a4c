/** Retries with a circuit breaker: how often a call runs the function, and how fast failures can come. */
module Resilience {
  import opened Common

  type Time = real

  datatype Policy = Policy(name: string, maxAttempts: int, failureThreshold: int, recoverySeconds: real)

  datatype Circuit = Circuit(failures: nat, openedUntil: Option<Time>, lastError: string)

  const CLOSED := Circuit(0, None, "")

  /** One execution of the protected function; `retryable` is what `should_retry` says of the exception. */
  datatype Try = Good(value: string) | Bad(error: string, retryable: bool)

  function Threshold(p: Policy): nat { Max(1, p.failureThreshold) }

  function Recovery(p: Policy): real { if p.recoverySeconds >= 1.0 then p.recoverySeconds else 1.0 }

  predicate Blocked(c: Circuit, now: Time) { c.openedUntil.Some? && c.openedUntil.value > now }

  function RecordFailure(c: Circuit, p: Policy, error: string, now: Time): Circuit {
    var f := c.failures + 1;
    Circuit(f, if f >= Threshold(p) then Some(now + Recovery(p)) else c.openedUntil, error)
  }

  /** The attempt at which the retry loop stops. */
  function LastTry(p: Policy, script: nat -> Try, attempt: nat): (k: nat)
    requires 1 <= attempt <= Max(1, p.maxAttempts)
    ensures attempt <= k <= Max(1, p.maxAttempts)
    decreases Max(1, p.maxAttempts) - attempt
  {
    var t := script(attempt);
    if t.Bad? && t.retryable && attempt < p.maxAttempts then LastTry(p, script, attempt + 1) else attempt
  }

  /** Every attempt before the last one failed in a retryable way; the last one did not, or was the last allowed. */
  lemma {:induction false} LastTryIsFirstStop(p: Policy, script: nat -> Try, attempt: nat)
    requires 1 <= attempt <= Max(1, p.maxAttempts)
    ensures forall k :: attempt <= k < LastTry(p, script, attempt) ==> script(k).Bad? && script(k).retryable
    ensures
      var k := LastTry(p, script, attempt);
      script(k).Good? || !script(k).retryable || k == Max(1, p.maxAttempts)
    decreases Max(1, p.maxAttempts) - attempt
  {
    var t := script(attempt);
    if t.Bad? && t.retryable && attempt < p.maxAttempts { LastTryIsFirstStop(p, script, attempt + 1); }
  }

  /** A call as the breaker sees it: when it entered, when it ended, and how its last attempt went. */
  datatype Invocation = Invocation(now: Time, later: Time, last: Try)

  function Step(c: Circuit, p: Policy, call: Invocation): Circuit {
    if Blocked(c, call.now) then c
    else if call.last.Good? then CLOSED
    else RecordFailure(c.(openedUntil := None), p, call.last.error, call.later)
  }

  class ResilienceManager {
    var states: map<string, Circuit>

    constructor ()
      ensures states == map[]
    {
      states := map[];
    }

    /** `call`: refused without running while the circuit is open; otherwise the retry loop decides. */
    method Call(p: Policy, script: nat -> Try, now: Time, later: Time) returns (r: Outcome<string>, runs: nat)
      requires now <= later
      modifies this
      ensures
        var c := if p.name in old(states) then old(states)[p.name] else CLOSED;
        && runs <= Max(1, p.maxAttempts)
        && (runs == 0 <==> Blocked(c, now))
        && (Blocked(c, now) ==> r.Refused? && states == old(states))
        && (!Blocked(c, now) ==>
              && runs == LastTry(p, script, 1)
              && states == old(states)[p.name := Step(c, p, Invocation(now, later, script(runs)))]
              && r == match script(runs) case Good(v) => Ok(v) case Bad(e, _) => Refused(e))
    {
      var state := if p.name in states then states[p.name] else CLOSED;
      if state.openedUntil.Some? && state.openedUntil.value > now {
        return Refused("circuit open"), 0;
      }
      if state.openedUntil.Some? {
        state := state.(openedUntil := None);
      }
      var attempt := 1;
      while true
        invariant 1 <= attempt <= Max(1, p.maxAttempts)
        invariant LastTry(p, script, attempt) == LastTry(p, script, 1)
        decreases Max(1, p.maxAttempts) - attempt
      {
        match script(attempt)
        case Good(value) =>
          states := states[p.name := CLOSED];
          return Ok(value), attempt;
        case Bad(error, retryable) =>
          if !retryable || attempt >= p.maxAttempts {
            states := states[p.name := RecordFailure(state, p, error, later)];
            return Refused(error), attempt;
          }
          attempt := attempt + 1;
      }
    }
  }

  // ---------------------------------------------------------------- whole runs

  function Fold(c: Circuit, p: Policy, calls: seq<Invocation>): Circuit {
    if calls == [] then c else Step(Fold(c, p, calls[..|calls| - 1]), p, calls[|calls| - 1])
  }

  // ---------------------------------------------------------------- the rule, in calls and times alone

  /** Before call i: the failed calls that reached the function since the last success that did. */
  ghost function FailedSince(p: Policy, calls: seq<Invocation>, i: nat): set<nat>
    requires i <= |calls|
    decreases i, 0
  {
    set j: nat | j < i && !RefusedAt(p, calls, j) && forall k :: j <= k < i && !RefusedAt(p, calls, k) ==> calls[k].last.Bad?
  }

  ghost predicate IsLast(s: set<nat>, j: nat) { j in s && forall k :: k in s ==> k <= j }

  /**
   A call is refused: at least max(1, threshold) failures since the last success, and less than
   max(1, recovery_seconds) since the last of them ended.
   */
  ghost predicate RefusedAt(p: Policy, calls: seq<Invocation>, i: nat)
    requires i < |calls|
    decreases i, 1
  {
    var since := FailedSince(p, calls, i);
    && |since| >= (if p.failureThreshold < 1 then 1 else p.failureThreshold)
    && exists j: nat :: IsLast(since, j) && j < i && calls[i].now < calls[j].later + (if p.recoverySeconds < 1.0 then 1.0 else p.recoverySeconds)
  }

  lemma FailedSinceStep(p: Policy, calls: seq<Invocation>, i: nat)
    requires i < |calls|
    ensures
      var before, after := FailedSince(p, calls, i), FailedSince(p, calls, i + 1);
      && i !in before
      && after == if RefusedAt(p, calls, i) then before else if calls[i].last.Good? then {} else before + {i}
  {
    var before, after := FailedSince(p, calls, i), FailedSince(p, calls, i + 1);
    forall j: nat ensures j in after <==> j in (if RefusedAt(p, calls, i) then before else if calls[i].last.Good? then {} else before + {i}) {
      if j < i && j in before {
        assert forall k :: j <= k < i && !RefusedAt(p, calls, k) ==> calls[k].last.Bad?;
      }
    }
  }

  /** The circuit after a failed call that was the n-th in a row. */
  predicate Recorded(p: Policy, call: Invocation, n: nat, c: Circuit) {
    && call.last.Bad? && c.lastError == call.last.error
    && c.openedUntil == if n >= Max(1, p.failureThreshold)
                        then Some(call.later + (if p.recoverySeconds < 1.0 then 1.0 else p.recoverySeconds)) else None
  }

  /** What the stored circuit means, given the failed calls since the last success. */
  ghost predicate MeansBy(p: Policy, calls: seq<Invocation>, since: set<nat>, c: Circuit) {
    && c.failures == |since|
    && (since == {} ==> c.openedUntil == None && c.lastError == "")
    && (since != {} ==> exists j: nat :: IsLast(since, j) && j < |calls| && Recorded(p, calls[j], |since|, c))
  }

  ghost predicate Means(p: Policy, calls: seq<Invocation>, i: nat, c: Circuit)
    requires i <= |calls|
  {
    MeansBy(p, calls, FailedSince(p, calls, i), c)
  }

  lemma MeansRefused(p: Policy, calls: seq<Invocation>, i: nat, c: Circuit)
    requires i < |calls| && Means(p, calls, i, c)
    ensures Blocked(c, calls[i].now) <==> RefusedAt(p, calls, i)
  {
    var since := FailedSince(p, calls, i);
    if since == {} {
      assert |since| == 0;
    } else {
      var j: nat :| IsLast(since, j) && j < |calls| && Recorded(p, calls[j], |since|, c);
      assert forall k: nat :: IsLast(since, k) ==> k == j;
      assert j < i;
    }
  }

  lemma FailureRecorded(p: Policy, calls: seq<Invocation>, since: set<nat>, i: nat, c: Circuit)
    requires MeansBy(p, calls, since, c) && i < |calls| && i !in since && (forall k :: k in since ==> k < i)
    requires calls[i].last.Bad? && !Blocked(c, calls[i].now)
    ensures MeansBy(p, calls, since + {i}, Step(c, p, calls[i]))
  {
    var c' := Step(c, p, calls[i]);
    assert |since + {i}| == c'.failures;
    assert IsLast(since + {i}, i) && Recorded(p, calls[i], |since + {i}|, c');
  }

  lemma MeansStep(p: Policy, calls: seq<Invocation>, i: nat, c: Circuit)
    requires i < |calls| && Means(p, calls, i, c)
    ensures Means(p, calls, i + 1, Step(c, p, calls[i]))
  {
    var since := FailedSince(p, calls, i);
    assert forall k :: k in since ==> k < i;
    MeansRefused(p, calls, i, c);
    FailedSinceStep(p, calls, i);
    if !RefusedAt(p, calls, i) {
      if calls[i].last.Bad? { FailureRecorded(p, calls, since, i, c); }
    }
  }

  /** The failure count is the number of failed calls that reached the function since the last success. */
  lemma {:induction false} CircuitMeans(p: Policy, calls: seq<Invocation>, i: nat)
    requires i <= |calls|
    ensures Means(p, calls, i, Fold(CLOSED, p, calls[..i]))
  {
    if i == 0 {
      assert FailedSince(p, calls, 0) == {};
    } else {
      CircuitMeans(p, calls, i - 1);
      MeansStep(p, calls, i - 1, Fold(CLOSED, p, calls[..i - 1]));
      assert calls[..i][..i - 1] == calls[..i - 1];
    }
  }

  /** The breaker refuses a call exactly by the rule. */
  lemma RefusedIff(p: Policy, calls: seq<Invocation>, i: nat)
    requires i < |calls|
    ensures Blocked(Fold(CLOSED, p, calls[..i]), calls[i].now) <==> RefusedAt(p, calls, i)
  {
    CircuitMeans(p, calls, i);
    MeansRefused(p, calls, i, Fold(CLOSED, p, calls[..i]));
  }

  ghost predicate Ordered(calls: seq<Invocation>) {
    && (forall i :: 0 <= i < |calls| ==> calls[i].now <= calls[i].later)
    && (forall i :: 0 <= i < |calls| - 1 ==> calls[i].later <= calls[i + 1].now)
  }

  /** How many of the calls reached the function. */
  function Hits(c: Circuit, p: Policy, calls: seq<Invocation>): nat {
    if calls == [] then 0
    else
      var n := |calls| - 1;
      Hits(c, p, calls[..n]) + (if Blocked(Fold(c, p, calls[..n]), calls[n].now) then 0 else 1)
  }

  function Span(p: Policy, hits: nat): real { (hits - Threshold(p)) as real * Recovery(p) }

  lemma SpanGrows(p: Policy, hits: nat)
    ensures Span(p, hits + 1) == Span(p, hits) + Recovery(p)
    ensures hits <= Threshold(p) ==> Span(p, hits) <= 0.0
  {
    var d := (hits - Threshold(p)) as real;
    assert (hits + 1 - Threshold(p)) as real == d + 1.0;
    assert (d + 1.0) * Recovery(p) == d * Recovery(p) + Recovery(p);
  }

  /**
   In a stretch without success, N calls that reach the function take at least
   (N - threshold) * max(1, recovery_seconds), from any starting state of the circuit.
   */
  lemma {:induction false} FailureRateBound(c: Circuit, p: Policy, calls: seq<Invocation>)
    requires calls != [] && Ordered(calls) && forall i :: 0 <= i < |calls| ==> calls[i].last.Bad?
    ensures calls[|calls| - 1].later - calls[0].now >= Span(p, Hits(c, p, calls))
    ensures Fold(c, p, calls).failures >= Hits(c, p, calls)
    ensures Hits(c, p, calls) >= Threshold(p) ==>
      var until := Fold(c, p, calls).openedUntil;
      until.Some? && until.value >= calls[0].now + Span(p, Hits(c, p, calls)) + Recovery(p)
  {
    var n := |calls| - 1;
    var before := calls[..n];
    var hits := Hits(c, p, before);
    SpanGrows(p, hits);
    if n == 0 {
      assert before == [] && hits == 0;
      SpanGrows(p, 1);
    } else {
      FailureRateBound(c, p, before);
      if hits + 1 <= Threshold(p) { SpanGrows(p, hits + 1); LaterThanStart(calls, n); }
    }
  }

  lemma SpanIs(p: Policy, n: nat, threshold: int, recovery: real)
    requires threshold == Threshold(p) && recovery == Recovery(p)
    ensures Span(p, n) == (n - threshold) as real * recovery
  {}

  /** The same bound in the policy's own numbers. */
  lemma FailuresTakeTime(c: Circuit, p: Policy, calls: seq<Invocation>, n: nat, threshold: int, recovery: real)
    requires calls != [] && Ordered(calls) && (forall i :: 0 <= i < |calls| ==> calls[i].last.Bad?) && n == Hits(c, p, calls)
    requires threshold == (if p.failureThreshold < 1 then 1 else p.failureThreshold)
    requires recovery == (if p.recoverySeconds < 1.0 then 1.0 else p.recoverySeconds)
    ensures calls[|calls| - 1].later - calls[0].now >= (n - threshold) as real * recovery
  {
    SpanIs(p, n, threshold, recovery);
    RateBound(c, p, calls, n);
  }

  lemma RateBound(c: Circuit, p: Policy, calls: seq<Invocation>, n: nat)
    requires calls != [] && Ordered(calls) && (forall i :: 0 <= i < |calls| ==> calls[i].last.Bad?) && n == Hits(c, p, calls)
    ensures calls[|calls| - 1].later - calls[0].now >= Span(p, n)
  {
    FailureRateBound(c, p, calls);
  }

  lemma {:induction false} LaterThanStart(calls: seq<Invocation>, n: nat)
    requires Ordered(calls) && n < |calls|
    ensures calls[0].now <= calls[n].now
  {
    if n > 0 { LaterThanStart(calls, n - 1); }
  }
}
