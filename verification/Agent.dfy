/**
 The agent's tool loop: model replies, tool rounds, approval stops with a saved checkpoint, and resuming.
 The model, the tools and the approval rules are oracles over what has happened so far in the turn.
 */
module Agent {
  import opened Common
  import opened Decimal

  const MAX_ROUNDS := 4

  /** Tool arguments as the model wrote them: a JSON object, or some other JSON value. */
  datatype Args = Dict(json: string) | Other(json: string, truthy: bool)

  datatype Call = Call(id: string, name: string, args: Args)

  /** What a tool receives: anything but an object is replaced by the empty object. */
  datatype Invocation = Invocation(name: string, json: string)

  datatype ToolResult = ToolResult(status: string, body: string)

  /** `Raised` carries the result that the ordinary round records for the exception. */
  datatype ToolOutcome = Done(result: ToolResult) | Raised(result: ToolResult)

  datatype ShownCall = ShownCall(id: string, name: string, arguments: string)

  datatype Message = Note(text: string) | Assistant(calls: seq<ShownCall>) | Tool(id: string, result: ToolResult)

  datatype LlmFailure = RateLimited | CircuitOpen | CallFailed

  datatype Reply = Reply(content: string, calls: seq<Call>) | NoReply(why: LlmFailure)

  /** One executed tool call, or one completed or failed model call. */
  datatype Event = Ran(call: Invocation, approved: bool) | Asked

  type History = seq<Event>

  datatype Env = Env(
    gate: (History, Invocation) -> bool,
    run: (History, Invocation, bool) -> ToolOutcome,
    llm: seq<Message> -> Reply)

  datatype Status = Completed | CompletedWithTools | MaxToolRounds | LlmDown(why: LlmFailure)

  datatype Checkpoint = Checkpoint(
    messages: seq<Message>, toolCalls: seq<Call>, toolResults: seq<ToolResult>,
    roundCalls: seq<Call>, roundDone: seq<ToolResult>, pending: Call, pendingIndex: nat, roundIndex: nat)

  datatype Turn =
    | Ended(answer: string, calls: seq<Call>, status: Status, messages: seq<Message>, results: seq<ToolResult>, history: History)
    | Stopped(cp: Checkpoint, history: History)
    | Aborted(history: History)

  // ---------------------------------------------------------------- messages

  function Effective(a: Args): string { if a.Dict? then a.json else "{}" }

  function Printed(a: Args): string { if a.Dict? || a.truthy then a.json else "{}" }

  function Normalized(c: Call): Call { c.(args := Dict(Effective(c.args))) }

  function Invoke(c: Call): Invocation { Invocation(c.name, Effective(c.args)) }

  function IdOf(c: Call, index: nat): string { if c.id != "" then c.id else "tool_call_" + Show(index) }

  function WithIds(calls: seq<Call>): (r: seq<Call>)
    ensures |r| == |calls|
  {
    seq(|calls|, i requires 0 <= i < |calls| => calls[i].(id := IdOf(calls[i], i)))
  }

  function Shown(calls: seq<Call>): (r: seq<ShownCall>)
    ensures |r| == |calls|
  {
    seq(|calls|, i requires 0 <= i < |calls| => ShownCall(IdOf(calls[i], i), calls[i].name, Printed(calls[i].args)))
  }

  function ToolMessages(calls: seq<Call>, results: seq<ToolResult>): (r: seq<Message>)
    requires |results| <= |calls|
    ensures |r| == |results|
  {
    seq(|results|, i requires 0 <= i < |results| => Tool(IdOf(calls[i], i), results[i]))
  }

  function Append(messages: seq<Message>, calls: seq<Call>, results: seq<ToolResult>): seq<Message>
    requires |results| <= |calls|
  {
    messages + [Assistant(Shown(calls))] + ToolMessages(calls, results)
  }

  function Marker(c: Call): ToolResult { ToolResult("approval_required", c.name) }

  function FallbackAnswer(context: string, results: nat): (s: string)
    ensures s != ""
  {
    "SoulClaw runtime is online." + context + (if results > 0 then " Executed " + Show(results) + " tool call(s)." else "")
  }

  function DegradedAnswer(status: Status): string {
    match status
    case LlmDown(CallFailed) => "The model call failed. The turn was recorded with trace context for troubleshooting."
    case LlmDown(RateLimited) => "The model call was rate limited. Please retry after the configured cooldown window."
    case LlmDown(CircuitOpen) => "The model circuit breaker is open. Please retry after the recovery window."
    case _ => ""
  }

  // ---------------------------------------------------------------- one round

  datatype RoundEnd =
    | Finished(results: seq<ToolResult>, history: History)
    | Interrupted(results: seq<ToolResult>, index: nat, history: History)
    | Blown(history: History)

  /** `_execute_tool_calls` from call `i` on: exceptions become results, an approval gate interrupts. */
  function ExecuteCalls(env: Env, calls: seq<Call>, i: nat, h: History, done: seq<ToolResult>): (r: RoundEnd)
    requires i <= |calls| && |done| == i
    ensures !r.Blown?
    ensures r.Finished? ==> |r.results| == |calls|
    ensures r.Interrupted? ==> i <= r.index < |calls| && |r.results| == r.index && env.gate(r.history, Invoke(calls[r.index]))
    decreases |calls| - i
  {
    if i == |calls| then Finished(done, h)
    else
      var inv := Invoke(calls[i]);
      if env.gate(h, inv) then Interrupted(done, i, h)
      else ExecuteCalls(env, calls, i + 1, h + [Ran(inv, false)], done + [env.run(h, inv, false).result])
  }

  /** The rest of a resumed round: here an exception is not caught. */
  function ResumeCalls(env: Env, calls: seq<Call>, i: nat, h: History, done: seq<ToolResult>): (r: RoundEnd)
    requires i <= |calls| && |done| == i
    ensures r.Finished? ==> |r.results| == |calls|
    ensures r.Interrupted? ==> i <= r.index < |calls| && |r.results| == r.index && env.gate(r.history, Invoke(calls[r.index]))
    decreases |calls| - i
  {
    if i == |calls| then Finished(done, h)
    else
      var inv := Invoke(calls[i]);
      if env.gate(h, inv) then Interrupted(done, i, h)
      else
        var out := env.run(h, inv, false);
        var h1 := h + [Ran(inv, false)];
        if out.Raised? then Blown(h1) else ResumeCalls(env, calls, i + 1, h1, done + [out.result])
  }

  // ---------------------------------------------------------------- the loop

  predicate WellFormed(cp: Checkpoint) {
    && cp.roundIndex < MAX_ROUNDS
    && cp.pendingIndex < |cp.roundCalls| && |cp.roundDone| == cp.pendingIndex
    && cp.pending == cp.roundCalls[cp.pendingIndex]
    && |cp.toolResults| > |cp.roundDone|
    && cp.toolResults[|cp.toolResults| - 1].status == "approval_required"
    && cp.toolResults[|cp.toolResults| - 1 - |cp.roundDone|..|cp.toolResults| - 1] == cp.roundDone
  }

  /** `_continue_llm_loop` from round `round` on. */
  function Continue(env: Env, reply: Reply, messages: seq<Message>, all: seq<Call>, results: seq<ToolResult>, h: History, round: nat): (t: Turn)
    requires reply.Reply?
    ensures !t.Aborted?
    ensures t.Stopped? ==> WellFormed(t.cp) && t.cp.roundIndex >= round && env.gate(t.history, Invoke(t.cp.pending))
    decreases MAX_ROUNDS - round
  {
    if round >= MAX_ROUNDS then Ended(reply.content, all, MaxToolRounds, messages, results, h)
    else if reply.calls == [] then
      Ended(reply.content, all, if results == [] then Completed else CompletedWithTools, messages, results, h)
    else
      var calls := reply.calls;
      match ExecuteCalls(env, calls, 0, h, [])
      case Interrupted(done, i, h1) =>
        Stopped(Checkpoint(messages, all + calls, results + done + [Marker(calls[i])], calls, done, calls[i], i, round), h1)
      case Finished(rs, h1) =>
        var messages1 := Append(messages, calls, rs);
        var all1, results1, h2 := all + WithIds(calls), results + rs, h1 + [Asked];
        var next := env.llm(messages1);
        if next.NoReply? then Ended("", all1, LlmDown(next.why), messages1, results1, h2)
        else Continue(env, next, messages1, all1, results1, h2, round + 1)
  }

  /** Results of earlier rounds, cut out of the stored list as `resume_turn` does. */
  function PriorResults(cp: Checkpoint): seq<ToolResult> {
    var n := |cp.toolResults|;
    var marks := if n > 0 && cp.toolResults[n - 1].status == "approval_required" then 1 else 0;
    cp.toolResults[..Max(0, n - |cp.roundDone| - marks)]
  }

  /** `resume_turn` with decision approve and no edited arguments. */
  function Resume(env: Env, cp: Checkpoint, h: History): (t: Turn)
    requires WellFormed(cp)
    ensures t.Stopped? ==>
      && WellFormed(t.cp) && env.gate(t.history, Invoke(t.cp.pending))
      && (t.cp.roundIndex > cp.roundIndex
          || (t.cp.roundIndex == cp.roundIndex && t.cp.roundCalls == cp.roundCalls && t.cp.pendingIndex > cp.pendingIndex))
  {
    var pending := Normalized(cp.pending);
    var out := env.run(h, Invoke(pending), true);
    var h1 := h + [Ran(Invoke(pending), true)];
    if out.Raised? then Aborted(h1)
    else
      match ResumeCalls(env, cp.roundCalls, cp.pendingIndex + 1, h1, cp.roundDone + [out.result])
      case Blown(h2) => Aborted(h2)
      case Interrupted(rs, i, h2) =>
        var results := PriorResults(cp) + rs + [Marker(cp.roundCalls[i])];
        assert results[|results| - 1 - |rs|..|results| - 1] == rs;
        Stopped(cp.(toolResults := results, roundDone := rs, pending := cp.roundCalls[i], pendingIndex := i), h2)
      case Finished(rs, h2) =>
        var messages := Append(cp.messages, cp.roundCalls[cp.pendingIndex := pending], rs);
        var results, h3 := PriorResults(cp) + rs, h2 + [Asked];
        var next := env.llm(messages);
        if next.NoReply? then
          Ended(FallbackAnswer("", |results|), cp.toolCalls, LlmDown(CallFailed), messages, results, h3)
        else Continue(env, next, messages, cp.toolCalls, results, h3, cp.roundIndex + 1)
  }

  function RoundsLeft(t: Turn): nat { if t.Stopped? && t.cp.roundIndex < MAX_ROUNDS then MAX_ROUNDS - t.cp.roundIndex else 0 }

  function CallsLeft(t: Turn): nat {
    if t.Stopped? && t.cp.pendingIndex < |t.cp.roundCalls| then |t.cp.roundCalls| - t.cp.pendingIndex else 0
  }

  /** Approves every stop, each once, until the turn ends. */
  function Drive(env: Env, t: Turn): Turn
    requires t.Stopped? ==> WellFormed(t.cp)
    decreases RoundsLeft(t), CallsLeft(t)
  {
    if t.Stopped? then Drive(env, Resume(env, t.cp, t.history)) else t
  }
}
