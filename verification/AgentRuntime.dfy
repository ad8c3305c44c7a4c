/** The runtime itself: loops over calls and rounds, a growing history, and stored approval checkpoints. */
module AgentRuntimes {
  import opened Common
  import opened Decimal
  import opened Agent
  import opened AgentRefinement

  function HistoryOf(t: Turn): History { t.history }

  class AgentRuntime {
    const env: Env
    var history: History
    var checkpoints: map<nat, Checkpoint>
    var nextApproval: nat

    /** Every stored checkpoint can be resumed. */
    ghost predicate Valid()
      reads this
    {
      forall id :: id in checkpoints ==> WellFormed(checkpoints[id])
    }

    constructor (env: Env)
      ensures Valid() && this.env == env && history == [] && checkpoints == map[] && nextApproval == 0
    {
      this.env := env;
      history, checkpoints, nextApproval := [], map[], 0;
    }

    method ExecuteToolCalls(calls: seq<Call>) returns (r: RoundEnd)
      modifies this`history
      ensures r == ExecuteCalls(env, calls, 0, old(history), []) && history == r.history
    {
      var results: seq<ToolResult> := [];
      var index := 0;
      while index < |calls|
        invariant 0 <= index <= |calls| && |results| == index
        invariant ExecuteCalls(env, calls, index, history, results) == ExecuteCalls(env, calls, 0, old(history), [])
      {
        var inv := Invoke(calls[index]);
        if env.gate(history, inv) {
          return Interrupted(results, index, history);
        }
        var out := env.run(history, inv, false);
        history := history + [Ran(inv, false)];
        results := results + [out.result];
        index := index + 1;
      }
      return Finished(results, history);
    }

    /** Fills in missing call ids in place while collecting what the transcript shows. */
    method NameCalls(calls: seq<Call>) returns (shown: seq<ShownCall>, named: seq<Call>)
      ensures shown == Shown(calls) && named == WithIds(calls)
    {
      shown, named := [], calls;
      for index := 0 to |calls|
        invariant |shown| == index && |named| == |calls|
        invariant forall k :: 0 <= k < index ==> shown[k] == Shown(calls)[k] && named[k] == WithIds(calls)[k]
        invariant forall k :: index <= k < |calls| ==> named[k] == calls[k]
      {
        var id := if named[index].id != "" then named[index].id else "tool_call_" + Show(index);
        named := named[index := named[index].(id := id)];
        shown := shown + [ShownCall(id, named[index].name, Printed(named[index].args))];
      }
    }

    method AppendToolMessages(messages: seq<Message>, calls: seq<Call>, results: seq<ToolResult>)
      returns (transcript: seq<Message>, named: seq<Call>)
      requires |results| == |calls|
      ensures transcript == Append(messages, calls, results) && named == WithIds(calls)
    {
      var shown;
      shown, named := NameCalls(calls);
      var tools: seq<Message> := [];
      for index := 0 to |results|
        invariant |tools| == index && forall k :: 0 <= k < index ==> tools[k] == ToolMessages(calls, results)[k]
      {
        tools := tools + [Tool(IdOf(named[index], index), results[index])];
      }
      assert tools == ToolMessages(calls, results);
      transcript := messages + [Assistant(shown)] + tools;
    }

    method Ask(messages: seq<Message>) returns (reply: Reply)
      modifies this`history
      ensures reply == env.llm(messages) && history == old(history) + [Asked]
    {
      history := history + [Asked];
      reply := env.llm(messages);
    }

    method ContinueLlmLoop(first: Reply, start: seq<Message>, calls0: seq<Call>, results0: seq<ToolResult>, startRound: nat)
      returns (t: Turn)
      requires first.Reply?
      modifies this`history
      ensures t == Continue(env, first, start, calls0, results0, old(history), startRound) && history == HistoryOf(t)
    {
      var reply, messages, all, results := first, start, calls0, results0;
      var round := startRound;
      while round < MAX_ROUNDS
        invariant reply.Reply?
        invariant Continue(env, reply, messages, all, results, history, round)
               == Continue(env, first, start, calls0, results0, old(history), startRound)
        decreases MAX_ROUNDS - round
      {
        var calls := reply.calls;
        if calls == [] {
          return Ended(reply.content, all, if results == [] then Completed else CompletedWithTools, messages, results, history);
        }
        var r := ExecuteToolCalls(calls);
        if r.Interrupted? {
          var cp := Checkpoint(messages, all + calls, results + r.results + [Marker(calls[r.index])],
                               calls, r.results, calls[r.index], r.index, round);
          return Stopped(cp, history);
        }
        results := results + r.results;
        var transcript, named := AppendToolMessages(messages, calls, r.results);
        messages, all := transcript, all + named;
        var next := Ask(messages);
        if next.NoReply? {
          return Ended("", all, LlmDown(next.why), messages, results, history);
        }
        reply, round := next, round + 1;
      }
      return Ended(reply.content, all, MaxToolRounds, messages, results, history);
    }

    method Save(cp: Checkpoint) returns (id: nat)
      modifies this`checkpoints, this`nextApproval
      ensures id == old(nextApproval) && nextApproval == id + 1 && checkpoints == old(checkpoints)[id := cp]
    {
      id := nextApproval;
      checkpoints := checkpoints[id := cp];
      nextApproval := id + 1;
    }

    /** The result is the turn so far and, when it stopped, the approval to resume it by. */
    method Run(messages: seq<Message>) returns (t: Turn, approval: Option<nat>)
      requires Valid() && history == []
      modifies this
      ensures Valid()
      ensures t == RunTurn(env, messages) && history == HistoryOf(t)
      ensures approval.Some? <==> t.Stopped?
      ensures t.Stopped? ==> approval.value in checkpoints && checkpoints[approval.value] == t.cp
      ensures t.Ended? ==> checkpoints == old(checkpoints)
    {
      approval := None;
      var reply := Ask(messages);
      assert [] + [Asked] == [Asked];
      if reply.NoReply? {
        return Ended("", [], LlmDown(reply.why), messages, [], history), None;
      }
      t := ContinueLlmLoop(reply, messages, [], [], 0);
      if t.Stopped? {
        var id := Save(t.cp);
        approval := Some(id);
      }
    }

    /** The part of a resumed round after the approved call; exceptions are not caught here. */
    method FinishResumedRound(calls: seq<Call>, first: nat, done: seq<ToolResult>) returns (r: RoundEnd)
      requires first <= |calls| && |done| == first
      modifies this`history
      ensures r == ResumeCalls(env, calls, first, old(history), done) && history == r.history
    {
      var results := done;
      var index := first;
      while index < |calls|
        invariant first <= index <= |calls| && |results| == index
        invariant ResumeCalls(env, calls, index, history, results) == ResumeCalls(env, calls, first, old(history), done)
      {
        var inv := Invoke(calls[index]);
        if env.gate(history, inv) {
          return Interrupted(results, index, history);
        }
        var out := env.run(history, inv, false);
        history := history + [Ran(inv, false)];
        if out.Raised? {
          return Blown(history);
        }
        results := results + [out.result];
        index := index + 1;
      }
      return Finished(results, history);
    }

    /** `resume_turn` with decision approve; an unknown approval is refused and changes nothing. */
    method Approve(id: nat) returns (r: Outcome<(Turn, Option<nat>)>)
      requires Valid()
      modifies this
      ensures Valid()
      ensures r.Ok? <==> id in old(checkpoints)
      ensures r.Refused? ==> history == old(history) && checkpoints == old(checkpoints)
      ensures r.Ok? ==>
        var (t, approval) := r.value;
        && t == Resume(env, old(checkpoints)[id], old(history)) && history == HistoryOf(t)
        && (approval.Some? <==> t.Stopped?)
        && (t.Stopped? ==> approval.value in checkpoints && checkpoints[approval.value] == t.cp)
    {
      if id !in checkpoints { return Refused("approval not found"); }
      var t, approval := ResumeTurn(id);
      return Ok((t, approval));
    }

    /** Rebuild the round from the stored checkpoint, run the approved call and go on. */
    method ResumeTurn(id: nat) returns (t: Turn, approval: Option<nat>)
      requires Valid() && id in checkpoints
      modifies this
      ensures Valid()
      ensures t == Resume(env, old(checkpoints)[id], old(history)) && history == HistoryOf(t)
      ensures approval.Some? <==> t.Stopped?
      ensures t.Stopped? ==> approval.value in checkpoints && checkpoints[approval.value] == t.cp
      ensures !t.Stopped? ==> checkpoints == old(checkpoints)
    {
      var cp := checkpoints[id];
      var pending := cp.pending.(args := Dict(Effective(cp.pending.args)));
      var prior := PriorResults(cp);
      var out := env.run(history, Invoke(pending), true);
      history := history + [Ran(Invoke(pending), true)];
      if out.Raised? {
        return Aborted(history), None;
      }
      var r := FinishResumedRound(cp.roundCalls, cp.pendingIndex + 1, cp.roundDone + [out.result]);
      if r.Blown? {
        return Aborted(history), None;
      }
      if r.Interrupted? {
        var nested := cp.(toolResults := prior + r.results + [Marker(cp.roundCalls[r.index])], roundDone := r.results,
                          pending := cp.roundCalls[r.index], pendingIndex := r.index);
        var saved := Save(nested);
        return Stopped(nested, history), Some(saved);
      }
      var shown := cp.roundCalls[cp.pendingIndex := pending];
      var messages, _ := AppendToolMessages(cp.messages, shown, r.results);
      var results := prior + r.results;
      var next := Ask(messages);
      if next.NoReply? {
        return Ended(FallbackAnswer("", |results|), cp.toolCalls, LlmDown(CallFailed), messages, results, history), None;
      }
      t := ContinueLlmLoop(next, messages, cp.toolCalls, results, cp.roundIndex + 1);
      approval := None;
      if t.Stopped? {
        var saved := Save(t.cp);
        approval := Some(saved);
      }
    }

    /** A user who approves every stop ends with the turn that pre-approval would have shown, on smooth runs. */
    method RunApprovingAll(messages: seq<Message>) returns (t: Turn)
      requires Valid() && history == []
      modifies this
      ensures t == Drive(env, RunTurn(env, messages))
      ensures SameTurn(t, PlainTurn(env, messages)) <==> SmoothTurn(env, messages)
      ensures t.Ended? ==> Executed(history) == Invocations(t.calls)
    {
      var approval;
      t, approval := Run(messages);
      while t.Stopped?
        invariant Valid()
        invariant t.Stopped? ==> WellFormed(t.cp) && approval.Some? && approval.value in checkpoints && checkpoints[approval.value] == t.cp
        invariant history == HistoryOf(t)
        invariant Drive(env, t) == Drive(env, RunTurn(env, messages))
        decreases RoundsLeft(t), CallsLeft(t)
      {
        var r := Approve(approval.value);
        t, approval := r.value.0, r.value.1;
      }
      ResumeRefinesPlainTurnIff(env, messages);
      EachCallRunsOnce(env, messages);
    }
  }
}
