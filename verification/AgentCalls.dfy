/** The list of calls a finished turn reports: what stop-and-resume changes in it, and exactly when it changes nothing. */
module AgentCalls {
  import opened Common
  import opened Agent
  import opened AgentRefinement

  /** The calls without their ids. */
  function NoIds(calls: seq<Call>): (r: seq<Call>)
    ensures |r| == |calls| && forall i :: 0 <= i < |r| ==> r[i] == calls[i].(id := "")
  {
    seq(|calls|, i requires 0 <= i < |calls| => calls[i].(id := ""))
  }

  predicate Named(calls: seq<Call>) { forall i :: 0 <= i < |calls| ==> calls[i].id != "" }

  lemma WithIdsIff(calls: seq<Call>)
    ensures NoIds(WithIds(calls)) == NoIds(calls)
    ensures WithIds(calls) == calls <==> Named(calls)
  {
    if WithIds(calls) == calls {
      forall i | 0 <= i < |calls| ensures calls[i].id != "" {
        assert calls[i].id == IdOf(calls[i], i);
        assert |"tool_call_"| == 10;
      }
    }
  }

  lemma NoIdsConcat(a: seq<Call>, b: seq<Call>)
    ensures NoIds(a + b) == NoIds(a) + NoIds(b)
  {}

  lemma ConcatSame(a: seq<Call>, x: seq<Call>, b: seq<Call>, y: seq<Call>)
    requires |a| == |b|
    ensures a + x == b + y <==> a == b && x == y
  {
    if a + x == b + y {
      assert a == (a + x)[..|a|] && b == (b + y)[..|b|];
      assert x == (a + x)[|a|..] && y == (b + y)[|b|..];
    }
  }

  /** In every round with a gate, the model gave each call an id. */
  predicate GatesNamed(env: Env, reply: Reply, messages: seq<Message>, h: History, round: nat)
    requires reply.Reply?
    decreases MAX_ROUNDS - round
  {
    if round >= MAX_ROUNDS || reply.calls == [] then true
    else
      var (rs, h1) := PlainRound(env, reply.calls, 0, h, []);
      var messages1 := Append(messages, reply.calls, rs);
      var next := env.llm(messages1);
      && (LastGate(env, reply.calls, 0, h, -1) >= 0 ==> Named(reply.calls))
      && (next.Reply? ==> GatesNamed(env, next, messages1, h1 + [Asked], round + 1))
  }

  /** What a round adds to the list, with and without a gate. */
  lemma RoundCalls(calls: seq<Call>, gate: int, all: seq<Call>, all': seq<Call>, all1: seq<Call>, all1': seq<Call>)
    requires NoIds(all) == NoIds(all')
    requires all1 == all + (if gate >= 0 then calls else WithIds(calls)) && all1' == all' + WithIds(calls)
    ensures NoIds(all1) == NoIds(all1')
    ensures all1 == all1' <==> all == all' && (gate >= 0 ==> Named(calls))
  {
    var added := if gate >= 0 then calls else WithIds(calls);
    assert |all| == |NoIds(all)| == |all'|;
    WithIdsIff(calls);
    NoIdsConcat(all, added);
    NoIdsConcat(all', WithIds(calls));
    ConcatSame(all, added, all', WithIds(calls));
  }

  /** On a smooth run both lists name the same calls with the same arguments; the ids agree exactly when gated rounds came with ids. */
  lemma {:induction false} SmoothCalls(env: Env, reply: Reply, messages: seq<Message>, all: seq<Call>, all': seq<Call>,
                                       results: seq<ToolResult>, h: History, round: nat)
    requires reply.Reply? && Smooth(env, reply, messages, h, round) && NoIds(all) == NoIds(all')
    ensures
      var a := ApprovedLoop(env, reply, messages, all, results, h, round);
      var b := PlainLoop(env, reply, messages, all', results, h, round);
      && a.Ended? && NoIds(a.calls) == NoIds(b.calls)
      && (a.calls == b.calls <==> all == all' && GatesNamed(env, reply, messages, h, round))
    decreases MAX_ROUNDS - round
  {
    if round < MAX_ROUNDS && reply.calls != [] {
      var calls := reply.calls;
      ApprovedVsPlainRound(env, calls, 0, h, [], -1);
      var r := ApprovedRound(env, calls, 0, h, [], -1);
      var all1, all1' := all + (if r.gate >= 0 then calls else WithIds(calls)), all' + WithIds(calls);
      RoundCalls(calls, r.gate, all, all', all1, all1');
      ShownSame(messages, calls, r.gate, r.results);
      var messages1 := Append(messages, calls, r.results);
      var next := env.llm(messages1);
      if next.Reply? {
        SmoothCalls(env, next, messages1, all1, all1', results + r.results, r.history + [Asked], round + 1);
      }
    }
  }

  predicate GatesNamedTurn(env: Env, messages: seq<Message>) {
    FirstReply(env, messages).Reply? ==> GatesNamed(env, FirstReply(env, messages), messages, [Asked], 0)
  }

  /** For whole turns, approving every stop: same calls always, same ids exactly when every gated round came with ids. */
  lemma ReportedCallsAgreeIff(env: Env, messages: seq<Message>)
    requires SmoothTurn(env, messages)
    ensures
      var a, b := Drive(env, RunTurn(env, messages)), PlainTurn(env, messages);
      && a.Ended? && NoIds(a.calls) == NoIds(b.calls)
      && (a.calls == b.calls <==> GatesNamedTurn(env, messages))
  {
    var reply := FirstReply(env, messages);
    if reply.Reply? {
      DriveContinue(env, reply, messages, [], [], [Asked], 0);
      SmoothCalls(env, reply, messages, [], [], [], [Asked], 0);
    }
  }
}
