/** Stop-and-resume against the uninterrupted loop in which every gate was approved beforehand. */
module AgentRefinement {
  import opened Common
  import opened Decimal
  import opened Agent

  // ---------------------------------------------------------------- what stop-and-resume amounts to

  /** A round with all gates approved; `gate` is the last gated index so far, or -1. */
  datatype Settled = Settled(results: seq<ToolResult>, history: History, gate: int) | Broken(history: History)

  /** After a gate an exception is no longer turned into a result. */
  function ApprovedRound(env: Env, calls: seq<Call>, i: nat, h: History, done: seq<ToolResult>, gate: int): (r: Settled)
    requires i <= |calls| && |done| == i && -1 <= gate < i
    ensures r.Settled? ==> |r.results| == |calls| && -1 <= r.gate < |calls|
    decreases |calls| - i
  {
    if i == |calls| then Settled(done, h, gate)
    else
      var inv := Invoke(calls[i]);
      var gated := env.gate(h, inv);
      var out := env.run(h, inv, gated);
      var h1 := h + [Ran(inv, gated)];
      var gate1 := if gated then i else gate;
      if out.Raised? && gate1 >= 0 then Broken(h1)
      else ApprovedRound(env, calls, i + 1, h1, done + [out.result], gate1)
  }

  function ApprovedLoop(env: Env, reply: Reply, messages: seq<Message>, all: seq<Call>, results: seq<ToolResult>, h: History, round: nat): (t: Turn)
    requires reply.Reply?
    ensures !t.Stopped?
    decreases MAX_ROUNDS - round, 1
  {
    if round >= MAX_ROUNDS then Ended(reply.content, all, MaxToolRounds, messages, results, h)
    else if reply.calls == [] then
      Ended(reply.content, all, if results == [] then Completed else CompletedWithTools, messages, results, h)
    else
      FinishRound(env, messages, reply.calls, all, results, round, ApprovedRound(env, reply.calls, 0, h, [], -1))
  }

  /** The calls as the transcript shows them: only the last gated call of a round has its arguments normalized. */
  function ShownAfter(calls: seq<Call>, gate: int): (r: seq<Call>)
    requires -1 <= gate < |calls|
    ensures |r| == |calls|
  {
    if gate >= 0 then calls[gate := Normalized(calls[gate])] else calls
  }

  function FinishRound(env: Env, messages: seq<Message>, calls: seq<Call>, all: seq<Call>, results: seq<ToolResult>, round: nat, r: Settled): (t: Turn)
    requires round < MAX_ROUNDS && (r.Settled? ==> |r.results| == |calls| && -1 <= r.gate < |calls|)
    ensures !t.Stopped?
    decreases MAX_ROUNDS - round, 0
  {
    match r
    case Broken(h) => Aborted(h)
    case Settled(rs, h, gate) =>
      var messages1 := Append(messages, ShownAfter(calls, gate), rs);
      var all1 := all + (if gate >= 0 then calls else WithIds(calls));
      var results1, h1 := results + rs, h + [Asked];
      var next := env.llm(messages1);
      if next.NoReply? then
        if gate >= 0 then Ended(FallbackAnswer("", |results1|), all1, LlmDown(CallFailed), messages1, results1, h1)
        else Ended("", all1, LlmDown(next.why), messages1, results1, h1)
      else ApprovedLoop(env, next, messages1, all1, results1, h1, round + 1)
  }

  lemma {:induction false} ExecuteVsApproved(env: Env, calls: seq<Call>, i: nat, h: History, done: seq<ToolResult>)
    requires i <= |calls| && |done| == i
    ensures
      match ExecuteCalls(env, calls, i, h, done)
      case Finished(rs, h1) => ApprovedRound(env, calls, i, h, done, -1) == Settled(rs, h1, -1)
      case Interrupted(rs, j, h1) => ApprovedRound(env, calls, i, h, done, -1) == ApprovedRound(env, calls, j, h1, rs, -1)
      case Blown(_) => false
    decreases |calls| - i
  {
    if i < |calls| && !env.gate(h, Invoke(calls[i])) {
      var inv := Invoke(calls[i]);
      ExecuteVsApproved(env, calls, i + 1, h + [Ran(inv, false)], done + [env.run(h, inv, false).result]);
    }
  }

  lemma {:induction false} ResumeVsApproved(env: Env, calls: seq<Call>, i: nat, h: History, done: seq<ToolResult>, gate: nat)
    requires i <= |calls| && |done| == i && gate < i
    ensures
      match ResumeCalls(env, calls, i, h, done)
      case Finished(rs, h1) => ApprovedRound(env, calls, i, h, done, gate) == Settled(rs, h1, gate)
      case Interrupted(rs, j, h1) => ApprovedRound(env, calls, i, h, done, gate) == ApprovedRound(env, calls, j, h1, rs, -1)
      case Blown(h1) => ApprovedRound(env, calls, i, h, done, gate) == Broken(h1)
    decreases |calls| - i
  {
    if i < |calls| && !env.gate(h, Invoke(calls[i])) {
      var inv := Invoke(calls[i]);
      var out := env.run(h, inv, false);
      if !out.Raised? { ResumeVsApproved(env, calls, i + 1, h + [Ran(inv, false)], done + [out.result], gate); }
    }
  }

  /** The calls before the pending round, whatever was appended for it. */
  ghost predicate Owns(cp: Checkpoint, all: seq<Call>, results: seq<ToolResult>) {
    cp.toolCalls == all + cp.roundCalls && PriorResults(cp) == results
  }

  lemma {:induction false} DriveStopped(env: Env, cp: Checkpoint, h: History, all: seq<Call>, results: seq<ToolResult>)
    requires WellFormed(cp) && Owns(cp, all, results) && env.gate(h, Invoke(cp.pending))
    ensures Drive(env, Stopped(cp, h)) ==
      FinishRound(env, cp.messages, cp.roundCalls, all, results, cp.roundIndex,
                  ApprovedRound(env, cp.roundCalls, cp.pendingIndex, h, cp.roundDone, -1))
    decreases MAX_ROUNDS - cp.roundIndex, 0, |cp.roundCalls| - cp.pendingIndex
  {
    var i := cp.pendingIndex;
    var inv := Invoke(cp.pending);
    var out := env.run(h, inv, true);
    var h1 := h + [Ran(inv, true)];
    if !out.Raised? {
      var done := cp.roundDone + [out.result];
      ResumeVsApproved(env, cp.roundCalls, i + 1, h1, done, i);
      match ResumeCalls(env, cp.roundCalls, i + 1, h1, done)
      case Blown(_) =>
      case Interrupted(rs, j, h2) =>
        var t := Resume(env, cp, h);
        assert PriorResults(t.cp) == PriorResults(cp);
        DriveStopped(env, t.cp, h2, all, results);
      case Finished(rs, h2) =>
        var shown := cp.roundCalls[i := Normalized(cp.pending)];
        var messages := Append(cp.messages, shown, rs);
        var next := env.llm(messages);
        if next.Reply? {
          DriveContinue(env, next, messages, cp.toolCalls, results + rs, h2 + [Asked], cp.roundIndex + 1);
        }
    }
  }

  /** Any chain of stops and approvals, within rounds and across them, is the approved loop. */
  lemma {:induction false} DriveContinue(env: Env, reply: Reply, messages: seq<Message>, all: seq<Call>, results: seq<ToolResult>, h: History, round: nat)
    requires reply.Reply?
    ensures Drive(env, Continue(env, reply, messages, all, results, h, round))
         == ApprovedLoop(env, reply, messages, all, results, h, round)
    decreases MAX_ROUNDS - round, 1, 0
  {
    if round < MAX_ROUNDS && reply.calls != [] {
      var calls := reply.calls;
      ExecuteVsApproved(env, calls, 0, h, []);
      match ExecuteCalls(env, calls, 0, h, [])
      case Interrupted(done, i, h1) =>
        var t := Continue(env, reply, messages, all, results, h, round);
        assert PriorResults(t.cp) == results;
        DriveStopped(env, t.cp, h1, all, results);
      case Finished(rs, h1) =>
        var messages1 := Append(messages, calls, rs);
        var next := env.llm(messages1);
        if next.Reply? {
          DriveContinue(env, next, messages1, all + WithIds(calls), results + rs, h1 + [Asked], round + 1);
        }
    }
  }

  // ---------------------------------------------------------------- the plain loop and the exact condition

  /** Every call runs once, with approval where a gate asks for it, and exceptions become results. */
  function PlainRound(env: Env, calls: seq<Call>, i: nat, h: History, done: seq<ToolResult>): (r: (seq<ToolResult>, History))
    requires i <= |calls| && |done| == i
    ensures |r.0| == |calls|
    decreases |calls| - i
  {
    if i == |calls| then (done, h)
    else
      var inv := Invoke(calls[i]);
      var gated := env.gate(h, inv);
      PlainRound(env, calls, i + 1, h + [Ran(inv, gated)], done + [env.run(h, inv, gated).result])
  }

  /** The run in which every gate was pre-approved: no stop, no resume. */
  function PlainLoop(env: Env, reply: Reply, messages: seq<Message>, all: seq<Call>, results: seq<ToolResult>, h: History, round: nat): (t: Turn)
    requires reply.Reply?
    ensures t.Ended?
    decreases MAX_ROUNDS - round
  {
    if round >= MAX_ROUNDS then Ended(reply.content, all, MaxToolRounds, messages, results, h)
    else if reply.calls == [] then
      Ended(reply.content, all, if results == [] then Completed else CompletedWithTools, messages, results, h)
    else
      var (rs, h1) := PlainRound(env, reply.calls, 0, h, []);
      var messages1 := Append(messages, reply.calls, rs);
      var all1, results1, h2 := all + WithIds(reply.calls), results + rs, h1 + [Asked];
      var next := env.llm(messages1);
      if next.NoReply? then Ended("", all1, LlmDown(next.why), messages1, results1, h2)
      else PlainLoop(env, next, messages1, all1, results1, h2, round + 1)
  }

  /** Some call at or after a gate of its round raises. */
  predicate RaisesAfterGate(env: Env, calls: seq<Call>, i: nat, h: History, seen: bool)
    requires i <= |calls|
    decreases |calls| - i
  {
    i < |calls| &&
    var inv := Invoke(calls[i]);
    var gated := env.gate(h, inv);
    (env.run(h, inv, gated).Raised? && (seen || gated)) || RaisesAfterGate(env, calls, i + 1, h + [Ran(inv, gated)], seen || gated)
  }

  /** The last gated call of a round, or -1. */
  function LastGate(env: Env, calls: seq<Call>, i: nat, h: History, gate: int): (g: int)
    requires i <= |calls| && -1 <= gate < i
    ensures -1 <= g < |calls|
    decreases |calls| - i
  {
    if i == |calls| then gate
    else
      var inv := Invoke(calls[i]);
      var gated := env.gate(h, inv);
      LastGate(env, calls, i + 1, h + [Ran(inv, gated)], if gated then i else gate)
  }

  /**
   In every round with a gate: no call at or after it raises, the last gated call's arguments print as an
   object (they are one, or are falsy), and the model call that follows the round returns.
   */
  predicate Smooth(env: Env, reply: Reply, messages: seq<Message>, h: History, round: nat)
    requires reply.Reply?
    decreases MAX_ROUNDS - round
  {
    if round >= MAX_ROUNDS || reply.calls == [] then true
    else
      var calls := reply.calls;
      var (rs, h1) := PlainRound(env, calls, 0, h, []);
      var gate := LastGate(env, calls, 0, h, -1);
      var messages1 := Append(messages, calls, rs);
      var next := env.llm(messages1);
      && !RaisesAfterGate(env, calls, 0, h, false)
      && (gate >= 0 ==> Printed(calls[gate].args) == Effective(calls[gate].args) && next.Reply?)
      && (next.Reply? ==> Smooth(env, next, messages1, h1 + [Asked], round + 1))
  }

  lemma {:induction false} ApprovedVsPlainRound(env: Env, calls: seq<Call>, i: nat, h: History, done: seq<ToolResult>, gate: int)
    requires i <= |calls| && |done| == i && -1 <= gate < i
    ensures ApprovedRound(env, calls, i, h, done, gate).Broken? <==> RaisesAfterGate(env, calls, i, h, gate >= 0)
    ensures
      var r := ApprovedRound(env, calls, i, h, done, gate);
      r.Settled? ==> PlainRound(env, calls, i, h, done) == (r.results, r.history) && r.gate == LastGate(env, calls, i, h, gate)
    decreases |calls| - i
  {
    if i < |calls| {
      var inv := Invoke(calls[i]);
      var gated := env.gate(h, inv);
      var out := env.run(h, inv, gated);
      var gate1 := if gated then i else gate;
      if !(out.Raised? && gate1 >= 0) {
        ApprovedVsPlainRound(env, calls, i + 1, h + [Ran(inv, gated)], done + [out.result], gate1);
      }
    }
  }

  lemma {:induction false} ApprovedExtends(env: Env, reply: Reply, messages: seq<Message>, all: seq<Call>, results: seq<ToolResult>, h: History, round: nat)
    requires reply.Reply?
    ensures
      var t := ApprovedLoop(env, reply, messages, all, results, h, round);
      t.Ended? ==> messages <= t.messages
    decreases MAX_ROUNDS - round
  {
    if round < MAX_ROUNDS && reply.calls != [] {
      var r := ApprovedRound(env, reply.calls, 0, h, [], -1);
      if r.Settled? {
        var messages1 := Append(messages, ShownAfter(reply.calls, r.gate), r.results);
        var next := env.llm(messages1);
        if next.Reply? {
          ApprovedExtends(env, next, messages1, all + (if r.gate >= 0 then reply.calls else WithIds(reply.calls)),
                          results + r.results, r.history + [Asked], round + 1);
        }
      }
    }
  }

  lemma {:induction false} PlainExtends(env: Env, reply: Reply, messages: seq<Message>, all: seq<Call>, results: seq<ToolResult>, h: History, round: nat)
    requires reply.Reply?
    ensures messages <= PlainLoop(env, reply, messages, all, results, h, round).messages
    decreases MAX_ROUNDS - round
  {
    if round < MAX_ROUNDS && reply.calls != [] {
      var (rs, h1) := PlainRound(env, reply.calls, 0, h, []);
      var messages1 := Append(messages, reply.calls, rs);
      var next := env.llm(messages1);
      if next.Reply? {
        PlainExtends(env, next, messages1, all + WithIds(reply.calls), results + rs, h1 + [Asked], round + 1);
      }
    }
  }

  /** What a user can see of a finished turn; call ids in the call list are not part of it. */
  ghost predicate SameTurn(a: Turn, b: Turn) {
    a.Ended? && b.Ended? && a.messages == b.messages && a.results == b.results && a.answer == b.answer
    && a.status == b.status && a.history == b.history
  }

  lemma ShownSame(messages: seq<Message>, calls: seq<Call>, gate: int, rs: seq<ToolResult>)
    requires -1 <= gate < |calls| && |rs| == |calls|
    requires gate >= 0 ==> Printed(calls[gate].args) == Effective(calls[gate].args)
    ensures Append(messages, ShownAfter(calls, gate), rs) == Append(messages, calls, rs)
  {
    assert Shown(ShownAfter(calls, gate)) == Shown(calls);
    assert ToolMessages(ShownAfter(calls, gate), rs) == ToolMessages(calls, rs);
  }

  lemma ShownDiffers(messages: seq<Message>, calls: seq<Call>, gate: nat, rs: seq<ToolResult>, a: seq<Message>, b: seq<Message>)
    requires gate < |calls| && |rs| == |calls| && Printed(calls[gate].args) != Effective(calls[gate].args)
    requires Append(messages, ShownAfter(calls, gate), rs) <= a && Append(messages, calls, rs) <= b
    ensures a != b
  {
    var n := |messages|;
    assert Shown(ShownAfter(calls, gate))[gate].arguments == Effective(calls[gate].args);
    assert Shown(calls)[gate].arguments == Printed(calls[gate].args);
    assert a[n] == Append(messages, ShownAfter(calls, gate), rs)[n] == Assistant(Shown(ShownAfter(calls, gate)));
    assert b[n] == Append(messages, calls, rs)[n] == Assistant(Shown(calls));
  }

  /** The approved loop shows the user the same turn as the plain loop exactly when the run is smooth. */
  lemma {:induction false} SameTurnIffSmooth(env: Env, reply: Reply, messages: seq<Message>, all: seq<Call>, all': seq<Call>,
                                             results: seq<ToolResult>, h: History, round: nat)
    requires reply.Reply?
    ensures SameTurn(ApprovedLoop(env, reply, messages, all, results, h, round), PlainLoop(env, reply, messages, all', results, h, round))
            <==> Smooth(env, reply, messages, h, round)
    decreases MAX_ROUNDS - round
  {
    if round < MAX_ROUNDS && reply.calls != [] {
      var calls := reply.calls;
      ApprovedVsPlainRound(env, calls, 0, h, [], -1);
      var r := ApprovedRound(env, calls, 0, h, [], -1);
      if r.Settled? {
        var all1 := all + (if r.gate >= 0 then calls else WithIds(calls));
        var results1, h1 := results + r.results, r.history + [Asked];
        if r.gate >= 0 && Printed(calls[r.gate].args) != Effective(calls[r.gate].args) {
          DifferentTranscripts(env, reply, messages, all, all', results, h, round, r);
        } else {
          ShownSame(messages, calls, r.gate, r.results);
          var messages1 := Append(messages, calls, r.results);
          var next := env.llm(messages1);
          if next.Reply? {
            SameTurnIffSmooth(env, next, messages1, all1, all' + WithIds(calls), results1, h1, round + 1);
          }
        }
      }
    }
  }

  lemma DifferentTranscripts(env: Env, reply: Reply, messages: seq<Message>, all: seq<Call>, all': seq<Call>,
                             results: seq<ToolResult>, h: History, round: nat, r: Settled)
    requires reply.Reply? && round < MAX_ROUNDS && reply.calls != []
    requires r == ApprovedRound(env, reply.calls, 0, h, [], -1) && r.Settled? && r.gate >= 0
    requires PlainRound(env, reply.calls, 0, h, []) == (r.results, r.history)
    requires Printed(reply.calls[r.gate].args) != Effective(reply.calls[r.gate].args)
    ensures !SameTurn(ApprovedLoop(env, reply, messages, all, results, h, round), PlainLoop(env, reply, messages, all', results, h, round))
  {
    var calls := reply.calls;
    var a := ApprovedLoop(env, reply, messages, all, results, h, round);
    var b := PlainLoop(env, reply, messages, all', results, h, round);
    var messagesA := Append(messages, ShownAfter(calls, r.gate), r.results);
    var messagesB := Append(messages, calls, r.results);
    var results1, h1 := results + r.results, r.history + [Asked];
    assert a == FinishRound(env, messages, calls, all, results, round, r);
    if env.llm(messagesA).Reply? {
      ApprovedExtends(env, env.llm(messagesA), messagesA, all + calls, results1, h1, round + 1);
    }
    if env.llm(messagesB).Reply? {
      PlainExtends(env, env.llm(messagesB), messagesB, all' + WithIds(calls), results1, h1, round + 1);
    }
    if a.Ended? { ShownDiffers(messages, calls, r.gate, r.results, a.messages, b.messages); }
  }

  // ---------------------------------------------------------------- whole turns

  /** The model call that opens a turn, then the loop. */
  function FirstReply(env: Env, messages: seq<Message>): Reply { env.llm(messages) }

  function RunTurn(env: Env, messages: seq<Message>): (t: Turn)
    ensures !t.Aborted? && (t.Stopped? ==> WellFormed(t.cp))
  {
    var reply := FirstReply(env, messages);
    if reply.NoReply? then Ended("", [], LlmDown(reply.why), messages, [], [Asked])
    else Continue(env, reply, messages, [], [], [Asked], 0)
  }

  function PlainTurn(env: Env, messages: seq<Message>): (t: Turn)
    ensures t.Ended?
  {
    var reply := FirstReply(env, messages);
    if reply.NoReply? then Ended("", [], LlmDown(reply.why), messages, [], [Asked])
    else PlainLoop(env, reply, messages, [], [], [Asked], 0)
  }

  predicate SmoothTurn(env: Env, messages: seq<Message>) {
    FirstReply(env, messages).Reply? ==> Smooth(env, FirstReply(env, messages), messages, [Asked], 0)
  }

  /** Approving every stop shows the user the turn that pre-approval would have, exactly on smooth runs. */
  lemma ResumeRefinesPlainTurnIff(env: Env, messages: seq<Message>)
    ensures SameTurn(Drive(env, RunTurn(env, messages)), PlainTurn(env, messages)) <==> SmoothTurn(env, messages)
  {
    var reply := FirstReply(env, messages);
    if reply.Reply? {
      DriveContinue(env, reply, messages, [], [], [Asked], 0);
      SameTurnIffSmooth(env, reply, messages, [], [], [], [Asked], 0);
    }
  }

  /** No tool raises, arguments are objects and the model always replies: the usual reading of the claim. */
  ghost predicate WellBehaved(env: Env) {
    && (forall h, inv, approved :: env.run(h, inv, approved).Done?)
    && (forall messages :: env.llm(messages).Reply?)
    && (forall messages, i :: 0 <= i < |env.llm(messages).calls| ==> env.llm(messages).calls[i].args.Dict?)
  }

  lemma {:induction false} WellBehavedNeverRaises(env: Env, calls: seq<Call>, i: nat, h: History, seen: bool)
    requires WellBehaved(env) && i <= |calls|
    ensures !RaisesAfterGate(env, calls, i, h, seen)
    decreases |calls| - i
  {
    if i < |calls| {
      var inv := Invoke(calls[i]);
      WellBehavedNeverRaises(env, calls, i + 1, h + [Ran(inv, env.gate(h, inv))], seen || env.gate(h, inv));
    }
  }

  lemma {:induction false} WellBehavedIsSmooth(env: Env, reply: Reply, messages: seq<Message>, h: History, round: nat)
    requires WellBehaved(env) && reply.Reply? && forall i :: 0 <= i < |reply.calls| ==> reply.calls[i].args.Dict?
    ensures Smooth(env, reply, messages, h, round)
    decreases MAX_ROUNDS - round
  {
    if round < MAX_ROUNDS && reply.calls != [] {
      WellBehavedNeverRaises(env, reply.calls, 0, h, false);
      var (rs, h1) := PlainRound(env, reply.calls, 0, h, []);
      var messages1 := Append(messages, reply.calls, rs);
      WellBehavedIsSmooth(env, env.llm(messages1), messages1, h1 + [Asked], round + 1);
    }
  }

  lemma ResumeRefinesPlainTurn(env: Env, messages: seq<Message>)
    requires WellBehaved(env)
    ensures SameTurn(Drive(env, RunTurn(env, messages)), PlainTurn(env, messages))
  {
    WellBehavedIsSmooth(env, FirstReply(env, messages), messages, [Asked], 0);
    ResumeRefinesPlainTurnIff(env, messages);
  }

  // ---------------------------------------------------------------- the answer text

  /** `run_turn` fills in an empty answer; `resume_turn` returns it as it is. */
  function FinalAnswer(t: Turn, context: string): string
    requires t.Ended?
  {
    if t.answer != "" then t.answer
    else if DegradedAnswer(t.status) != "" then DegradedAnswer(t.status)
    else FallbackAnswer(context, |t.results|)
  }

  /** On a smooth run that was stopped at least once, the two answers agree exactly when the model's last reply has text. */
  lemma AnswersAgreeIff(env: Env, messages: seq<Message>, context: string)
    requires SmoothTurn(env, messages) && RunTurn(env, messages).Stopped?
    ensures Drive(env, RunTurn(env, messages)).Ended?
    ensures Drive(env, RunTurn(env, messages)).answer == FinalAnswer(PlainTurn(env, messages), context)
            <==> PlainTurn(env, messages).answer != ""
  {
    ResumeRefinesPlainTurnIff(env, messages);
  }

  // ---------------------------------------------------------------- effects, transcript, budget

  /** Tool executions of a history, in order. */
  function Executed(h: History): seq<Invocation> {
    if h == [] then []
    else
      var e := h[|h| - 1];
      Executed(h[..|h| - 1]) + (if e.Ran? then [e.call] else [])
  }

  function Invocations(calls: seq<Call>): (r: seq<Invocation>)
    ensures |r| == |calls|
  {
    seq(|calls|, i requires 0 <= i < |calls| => Invoke(calls[i]))
  }

  lemma ExecutedSnoc(h: History, e: Event)
    ensures Executed(h + [e]) == Executed(h) + (if e.Ran? then [e.call] else [])
  {
    assert (h + [e])[..|h|] == h;
  }

  lemma {:induction false} RoundExecutes(env: Env, calls: seq<Call>, i: nat, h: History, done: seq<ToolResult>, gate: int)
    requires i <= |calls| && |done| == i && -1 <= gate < i
    ensures
      var r := ApprovedRound(env, calls, i, h, done, gate);
      r.Settled? ==> Executed(r.history) == Executed(h) + Invocations(calls[i..])
    decreases |calls| - i
  {
    if i == |calls| {
      assert Executed(h) + Invocations(calls[i..]) == Executed(h);
    } else {
      var inv := Invoke(calls[i]);
      var gated := env.gate(h, inv);
      var out := env.run(h, inv, gated);
      var gate1 := if gated then i else gate;
      if !(out.Raised? && gate1 >= 0) {
        RoundExecutes(env, calls, i + 1, h + [Ran(inv, gated)], done + [out.result], gate1);
        ExecutedSnoc(h, Ran(inv, gated));
        assert Invocations(calls[i..]) == [inv] + Invocations(calls[i + 1..]);
      }
    }
  }

  lemma {:induction false} ApprovedExecutes(env: Env, reply: Reply, messages: seq<Message>, all: seq<Call>, results: seq<ToolResult>, h: History, round: nat)
    requires reply.Reply? && Executed(h) == Invocations(all)
    ensures
      var t := ApprovedLoop(env, reply, messages, all, results, h, round);
      t.Ended? ==> Executed(t.history) == Invocations(t.calls)
    decreases MAX_ROUNDS - round, 1
  {
    if round < MAX_ROUNDS && reply.calls != [] {
      var calls := reply.calls;
      var r := ApprovedRound(env, calls, 0, h, [], -1);
      if r.Settled? {
        var all1, h1 := all + (if r.gate >= 0 then calls else WithIds(calls)), r.history + [Asked];
        RoundAdds(env, calls, h, all, r, all1, h1);
        FinishExecutes(env, messages, calls, all, results, round, r, all1, h1);
      }
    }
  }

  lemma InvocationsConcat(a: seq<Call>, b: seq<Call>)
    ensures Invocations(a + b) == Invocations(a) + Invocations(b)
  {}

  lemma InvocationsOfNamed(calls: seq<Call>)
    ensures Invocations(WithIds(calls)) == Invocations(calls)
  {}

  /** A round executes what it adds to the list. */
  lemma RoundAdds(env: Env, calls: seq<Call>, h: History, all: seq<Call>, r: Settled, all1: seq<Call>, h1: History)
    requires r == ApprovedRound(env, calls, 0, h, [], -1) && r.Settled? && Executed(h) == Invocations(all)
    requires all1 == all + (if r.gate >= 0 then calls else WithIds(calls)) && h1 == r.history + [Asked]
    ensures Executed(h1) == Invocations(all1)
  {
    RoundExecutes(env, calls, 0, h, [], -1);
    assert calls[0..] == calls;
    ExecutedSnoc(r.history, Asked);
    InvocationsOfNamed(calls);
    InvocationsConcat(all, if r.gate >= 0 then calls else WithIds(calls));
  }

  lemma {:induction false} FinishExecutes(env: Env, messages: seq<Message>, calls: seq<Call>, all: seq<Call>, results: seq<ToolResult>,
                                          round: nat, r: Settled, all1: seq<Call>, h1: History)
    requires round < MAX_ROUNDS && r.Settled? && |r.results| == |calls| && -1 <= r.gate < |calls|
    requires all1 == all + (if r.gate >= 0 then calls else WithIds(calls)) && h1 == r.history + [Asked]
    requires Executed(h1) == Invocations(all1)
    ensures
      var t := FinishRound(env, messages, calls, all, results, round, r);
      t.Ended? ==> Executed(t.history) == Invocations(t.calls)
    decreases MAX_ROUNDS - round, 0
  {
    var messages1 := Append(messages, ShownAfter(calls, r.gate), r.results);
    var next := env.llm(messages1);
    if next.Reply? { ApprovedExecutes(env, next, messages1, all1, results + r.results, h1, round + 1); }
  }

  /** Along any chain of stops and approvals every listed call runs exactly once, in the order listed. */
  lemma EachCallRunsOnce(env: Env, messages: seq<Message>)
    ensures
      var t := Drive(env, RunTurn(env, messages));
      t.Ended? ==> Executed(t.history) == Invocations(t.calls)
  {
    var reply := FirstReply(env, messages);
    ExecutedSnoc([], Asked);
    assert [] + [Asked] == [Asked];
    if reply.Reply? {
      DriveContinue(env, reply, messages, [], [], [Asked], 0);
      ApprovedExecutes(env, reply, messages, [], [], [Asked], 0);
    }
  }

  /** Each assistant message is answered by exactly one tool message per call, ids in order; tool messages occur nowhere else. */
  ghost predicate Transcript(m: seq<Message>) {
    && (m != [] ==> !m[0].Tool?)
    && (forall p :: 0 <= p < |m| - 1 && m[p].Note? ==> !m[p + 1].Tool?)
    && (forall p :: 0 <= p < |m| && m[p].Assistant? ==> Answered(m, p))
  }

  ghost predicate AnswerAt(m: seq<Message>, p: nat, i: nat) {
    p + 1 + i < |m| && m[p].Assistant? && i < |m[p].calls| && m[p + 1 + i].Tool? && m[p + 1 + i].id == m[p].calls[i].id
  }

  ghost predicate Answered(m: seq<Message>, p: nat)
    requires p < |m| && m[p].Assistant?
  {
    var k := |m[p].calls|;
    && p + k < |m|
    && (forall i :: 0 <= i < k ==> AnswerAt(m, p, i))
    && (p + k + 1 < |m| ==> !m[p + k + 1].Tool?)
  }

  lemma AppendKeepsTranscript(messages: seq<Message>, calls: seq<Call>, results: seq<ToolResult>)
    requires Transcript(messages) && |results| == |calls|
    ensures Transcript(Append(messages, calls, results))
  {
    var m, block := Append(messages, calls, results), [Assistant(Shown(calls))] + ToolMessages(calls, results);
    var n := |messages|;
    assert m == messages + block && m[n] == Assistant(Shown(calls));
    assert forall i :: 1 <= i < |block| ==> block[i].Tool?;
    forall p | 0 <= p < |m| && m[p].Assistant? ensures Answered(m, p) {
      if p < n { AnsweredBefore(messages, block, m, p); } else { AnsweredHere(messages, calls, results, m); }
    }
  }

  lemma AnsweredHere(messages: seq<Message>, calls: seq<Call>, results: seq<ToolResult>, m: seq<Message>)
    requires |results| == |calls| && m == Append(messages, calls, results)
    ensures |m| > |messages| && m[|messages|].Assistant? && Answered(m, |messages|)
  {
    var n := |messages|;
    assert m[n] == Assistant(Shown(calls));
    forall i | 0 <= i < |calls| ensures AnswerAt(m, n, i) { assert m[n + 1 + i] == Tool(IdOf(calls[i], i), results[i]); }
  }

  lemma AnsweredBefore(messages: seq<Message>, block: seq<Message>, m: seq<Message>, p: nat)
    requires m == messages + block && block != [] && !block[0].Tool?
    requires p < |messages| && messages[p].Assistant? && Answered(messages, p)
    ensures Answered(m, p)
  {
    forall i | 0 <= i < |m[p].calls| ensures AnswerAt(m, p, i) { assert AnswerAt(messages, p, i); }
  }

  function AskedCount(h: History): nat {
    if h == [] then 0 else AskedCount(h[..|h| - 1]) + (if h[|h| - 1].Asked? then 1 else 0)
  }

  function Rounds(m: seq<Message>): nat {
    if m == [] then 0 else Rounds(m[..|m| - 1]) + (if m[|m| - 1].Assistant? then 1 else 0)
  }

  lemma AskedSnoc(h: History, e: Event)
    ensures AskedCount(h + [e]) == AskedCount(h) + (if e.Asked? then 1 else 0)
  {
    assert (h + [e])[..|h|] == h;
  }

  lemma {:induction false} RoundAsksNothing(env: Env, calls: seq<Call>, i: nat, h: History, done: seq<ToolResult>, gate: int)
    requires i <= |calls| && |done| == i && -1 <= gate < i
    ensures AskedCount(ApprovedRound(env, calls, i, h, done, gate).history) == AskedCount(h)
    decreases |calls| - i
  {
    if i < |calls| {
      var inv := Invoke(calls[i]);
      var gated := env.gate(h, inv);
      var out := env.run(h, inv, gated);
      var gate1 := if gated then i else gate;
      AskedSnoc(h, Ran(inv, gated));
      if !(out.Raised? && gate1 >= 0) {
        RoundAsksNothing(env, calls, i + 1, h + [Ran(inv, gated)], done + [out.result], gate1);
      }
    }
  }

  lemma {:induction false} RoundsAfter(messages: seq<Message>, block: seq<Message>)
    requires block != [] && block[0].Assistant? && forall i :: 1 <= i < |block| ==> block[i].Tool?
    ensures Rounds(messages + block) == Rounds(messages) + 1
  {
    var n := |block| - 1;
    assert (messages + block)[..|messages| + n] == messages + block[..n];
    if n == 0 {
      assert messages + block[..0] == messages;
    } else {
      RoundsAfter(messages, block[..n]);
    }
  }

  lemma AppendAddsARound(messages: seq<Message>, calls: seq<Call>, results: seq<ToolResult>)
    requires |results| == |calls|
    ensures Rounds(Append(messages, calls, results)) == Rounds(messages) + 1
  {
    var block := [Assistant(Shown(calls))] + ToolMessages(calls, results);
    assert Append(messages, calls, results) == messages + block;
    RoundsAfter(messages, block);
  }

  lemma {:induction false} ApprovedAsks(env: Env, reply: Reply, messages: seq<Message>, all: seq<Call>, results: seq<ToolResult>, h: History, round: nat)
    requires reply.Reply? && round <= MAX_ROUNDS
    ensures AskedCount(ApprovedLoop(env, reply, messages, all, results, h, round).history) <= AskedCount(h) + MAX_ROUNDS - round
    decreases MAX_ROUNDS - round, 1
  {
    if round < MAX_ROUNDS && reply.calls != [] {
      var r := ApprovedRound(env, reply.calls, 0, h, [], -1);
      RoundAsksNothing(env, reply.calls, 0, h, [], -1);
      if r.Settled? {
        AskedSnoc(r.history, Asked);
        FinishAsks(env, messages, reply.calls, all, results, round, r);
      }
    }
  }

  lemma {:induction false} FinishAsks(env: Env, messages: seq<Message>, calls: seq<Call>, all: seq<Call>, results: seq<ToolResult>, round: nat, r: Settled)
    requires round < MAX_ROUNDS && r.Settled? && |r.results| == |calls| && -1 <= r.gate < |calls|
    ensures AskedCount(FinishRound(env, messages, calls, all, results, round, r).history)
         <= AskedCount(r.history + [Asked]) + MAX_ROUNDS - round - 1
    decreases MAX_ROUNDS - round, 0
  {
    var messages1 := Append(messages, ShownAfter(calls, r.gate), r.results);
    var next := env.llm(messages1);
    if next.Reply? {
      ApprovedAsks(env, next, messages1, all + (if r.gate >= 0 then calls else WithIds(calls)),
                   results + r.results, r.history + [Asked], round + 1);
    }
  }

  ghost predicate WithinRounds(m: seq<Message>, rounds: nat) { Transcript(m) && Rounds(m) <= rounds }

  lemma {:induction false} ApprovedTranscript(env: Env, reply: Reply, messages: seq<Message>, all: seq<Call>, results: seq<ToolResult>, h: History, round: nat)
    requires reply.Reply? && round <= MAX_ROUNDS && Transcript(messages)
    ensures
      var t := ApprovedLoop(env, reply, messages, all, results, h, round);
      t.Ended? ==> WithinRounds(t.messages, Rounds(messages) + MAX_ROUNDS - round)
    decreases MAX_ROUNDS - round, 1
  {
    if round < MAX_ROUNDS && reply.calls != [] {
      var r := ApprovedRound(env, reply.calls, 0, h, [], -1);
      if r.Settled? {
        var shown := ShownAfter(reply.calls, r.gate);
        AppendKeepsTranscript(messages, shown, r.results);
        AppendAddsARound(messages, shown, r.results);
        FinishTranscript(env, messages, reply.calls, all, results, round, r, Append(messages, shown, r.results));
      }
    }
  }

  lemma {:induction false} FinishTranscript(env: Env, messages: seq<Message>, calls: seq<Call>, all: seq<Call>, results: seq<ToolResult>,
                                            round: nat, r: Settled, messages1: seq<Message>)
    requires round < MAX_ROUNDS && r.Settled? && |r.results| == |calls| && -1 <= r.gate < |calls|
    requires messages1 == Append(messages, ShownAfter(calls, r.gate), r.results) && Transcript(messages1)
    ensures
      var t := FinishRound(env, messages, calls, all, results, round, r);
      t.Ended? ==> WithinRounds(t.messages, Rounds(messages1) + MAX_ROUNDS - round - 1)
    decreases MAX_ROUNDS - round, 0
  {
    var next := env.llm(messages1);
    if next.Reply? {
      ApprovedTranscript(env, next, messages1, all + (if r.gate >= 0 then calls else WithIds(calls)),
                         results + r.results, r.history + [Asked], round + 1);
    }
  }

  /** However often a turn is stopped and approved: at most 4 tool rounds, 5 model calls, and a well-formed transcript. */
  lemma TurnBudget(env: Env, messages: seq<Message>)
    requires Transcript(messages) && Rounds(messages) == 0
    ensures
      var t := Drive(env, RunTurn(env, messages));
      && AskedCount(t.history) <= 5
      && (t.Ended? ==> Transcript(t.messages) && Rounds(t.messages) <= 4)
  {
    var reply := FirstReply(env, messages);
    AskedSnoc([], Asked);
    assert [] + [Asked] == [Asked];
    if reply.Reply? {
      DriveContinue(env, reply, messages, [], [], [Asked], 0);
      ApprovedAsks(env, reply, messages, [], [], [Asked], 0);
      ApprovedTranscript(env, reply, messages, [], [], [Asked], 0);
    }
  }

  // ---------------------------------------------------------------- a run that is not smooth

  /** One gated call that raises once approved: the plain loop reports a failed result, the resumed turn never ends. */
  lemma RaisingAfterApprovalDiffers(call: Call, error: ToolResult)
    ensures
      var env := Env((h, inv) => true, (h, inv, approved) => Raised(error),
                     messages => if |messages| <= 1 then Reply("", [call]) else Reply("done", []));
      var start := [Note("task")];
      && PlainTurn(env, start).answer == "done" && PlainTurn(env, start).results == [error]
      && Drive(env, RunTurn(env, start)).Aborted?
  {
    var env := Env((h, inv) => true, (h, inv, approved) => Raised(error),
                   messages => if |messages| <= 1 then Reply("", [call]) else Reply("done", []));
    var start := [Note("task")];
    var reply := FirstReply(env, start);
    assert reply.calls == [call];
    DriveContinue(env, reply, start, [], [], [Asked], 0);
    assert ApprovedRound(env, [call], 0, [Asked], [], -1).Broken?;
    var (rs, h1) := PlainRound(env, [call], 0, [Asked], []);
    assert rs == [error] by {
      assert [] + [error] == [error];
      assert PlainRound(env, [call], 0, [Asked], []) == PlainRound(env, [call], 1, [Asked] + [Ran(Invoke(call), true)], [error]);
    }
    var messages1 := Append(start, [call], rs);
    assert |messages1| == 3;
    assert env.llm(messages1) == Reply("done", []);
  }
}
