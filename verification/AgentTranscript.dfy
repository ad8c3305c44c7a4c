/** What a finished turn contains: the model's replies, the tools' own results, and nothing else, in order. */
module AgentTranscript {
  import opened Common
  import opened Decimal
  import opened Agent
  import opened AgentRefinement

  // ---------------------------------------------------------------- one append

  /** How a call is shown: its name, its id or a numbered one, and its arguments unless they are falsy or were replaced. */
  predicate ShowsCall(s: ShownCall, c: Call, i: nat) {
    && s.name == c.name
    && s.id == (if c.id != "" then c.id else "tool_call_" + Show(i))
    && (c.args.Dict? ==> s.arguments == c.args.json)
    && (c.args.Other? ==> s.arguments == c.args.json || s.arguments == "{}")
  }

  predicate ShowsCalls(shown: seq<ShownCall>, calls: seq<Call>) {
    |shown| == |calls| && forall i :: 0 <= i < |calls| ==> ShowsCall(shown[i], calls[i], i)
  }

  /** The messages, then one assistant message, then one tool message per call with that call's id and result. */
  predicate Appends(m: seq<Message>, messages: seq<Message>, calls: seq<Call>, results: seq<ToolResult>) {
    var n := |messages|;
    && |results| == |calls| && |m| == n + 1 + |calls| && m[..n] == messages
    && m[n].Assistant? && ShowsCalls(m[n].calls, calls)
    && forall i :: 0 <= i < |calls| ==> CarriesAt(m, n, i, m[n].calls[i].id, results[i])
  }

  /** The i-th message after message n is a tool message with this id and result. */
  predicate CarriesAt(m: seq<Message>, n: nat, i: nat, id: string, result: ToolResult) {
    n + 1 + i < |m| && m[n + 1 + i] == Tool(id, result)
  }

  lemma ToolsFollow(m: seq<Message>, messages: seq<Message>, calls: seq<Call>, results: seq<ToolResult>, p: nat)
    requires Appends(m, messages, calls, results) && |messages| < p < |m|
    ensures m[p] == Tool(m[|messages|].calls[p - |messages| - 1].id, results[p - |messages| - 1])
  {
    var i := p - |messages| - 1;
    assert CarriesAt(m, |messages|, i, m[|messages|].calls[i].id, results[i]);
  }

  lemma AppendShape(messages: seq<Message>, calls: seq<Call>, results: seq<ToolResult>)
    requires |results| == |calls|
    ensures Appends(Append(messages, calls, results), messages, calls, results)
    ensures
      var shown := Append(messages, calls, results)[|messages|].calls;
      forall i :: 0 <= i < |calls| && calls[i].args.Other? ==> shown[i].arguments == if calls[i].args.truthy then calls[i].args.json else "{}"
  {
    var m, n := Append(messages, calls, results), |messages|;
    assert m[n] == Assistant(Shown(calls));
    forall i | 0 <= i < |calls| ensures CarriesAt(m, n, i, m[n].calls[i].id, results[i]) {
      assert m[n + 1 + i] == ToolMessages(calls, results)[i];
    }
  }

  /** The calls of a round with a gate, with the last gated one's arguments replaced, still show the model's calls. */
  lemma AppendShows(messages: seq<Message>, calls: seq<Call>, gate: int, results: seq<ToolResult>)
    requires -1 <= gate < |calls| && |results| == |calls|
    ensures Appends(Append(messages, ShownAfter(calls, gate), results), messages, calls, results)
  {
    var shown := ShownAfter(calls, gate);
    AppendShape(messages, shown, results);
    var m := Append(messages, shown, results);
    forall i | 0 <= i < |calls| ensures ShowsCall(m[|messages|].calls[i], calls[i], i) {
      assert ShowsCall(m[|messages|].calls[i], shown[i], i);
    }
  }

  // ---------------------------------------------------------------- reading a transcript

  /** The results the tool messages carry, in order. */
  function ToolResultsOf(m: seq<Message>): seq<ToolResult> {
    if m == [] then []
    else ToolResultsOf(m[..|m| - 1]) + if m[|m| - 1].Tool? then [m[|m| - 1].result] else []
  }

  /** The calls the assistant messages show, in order. */
  function ShownIn(m: seq<Message>): seq<ShownCall> {
    if m == [] then []
    else ShownIn(m[..|m| - 1]) + if m[|m| - 1].Assistant? then m[|m| - 1].calls else []
  }

  /** What the executed calls returned, in order. */
  function Outputs(env: Env, h: History): seq<ToolResult> {
    if h == [] then []
    else
      var n := |h| - 1;
      Outputs(env, h[..n]) + if h[n].Ran? then [env.run(h[..n], h[n].call, h[n].approved).result] else []
  }

  /** A call ran as approved exactly when a gate asked for approval. */
  ghost predicate GatesObeyed(env: Env, h: History) {
    forall k :: 0 <= k < |h| && h[k].Ran? ==> h[k].approved == env.gate(h[..k], h[k].call)
  }

  /** From `base` on, every assistant message shows the model's reply to exactly the messages before it. */
  ghost predicate Replies(env: Env, m: seq<Message>, base: nat) {
    forall p :: base <= p < |m| && m[p].Assistant? ==> env.llm(m[..p]).Reply? && ShowsCalls(m[p].calls, env.llm(m[..p]).calls)
  }

  /** The listed calls are the shown ones: names, arguments that are objects, and ids the model gave. */
  predicate Lists(shown: seq<ShownCall>, calls: seq<Call>) {
    |shown| == |calls| && forall k :: 0 <= k < |calls| ==>
      && shown[k].name == calls[k].name && (calls[k].args.Dict? ==> shown[k].arguments == calls[k].args.json)
      && (calls[k].id != "" ==> shown[k].id == calls[k].id)
  }

  lemma ReadSnoc(m: seq<Message>, x: Message)
    ensures ToolResultsOf(m + [x]) == ToolResultsOf(m) + if x.Tool? then [x.result] else []
    ensures ShownIn(m + [x]) == ShownIn(m) + if x.Assistant? then x.calls else []
  {
    assert (m + [x])[..|m|] == m;
  }

  lemma {:induction false} ResultsAppend(m: seq<Message>, messages: seq<Message>, calls: seq<Call>, results: seq<ToolResult>, k: nat)
    requires Appends(m, messages, calls, results) && k <= |results|
    ensures ToolResultsOf(m[..|messages| + 1 + k]) == ToolResultsOf(messages) + results[..k]
    ensures ShownIn(m[..|messages| + 1 + k]) == ShownIn(messages) + m[|messages|].calls
  {
    var n := |messages| + k;
    var before, x := m[..n], m[n];
    assert m[..n + 1] == before + [x];
    ReadSnoc(before, x);
    if k == 0 {
      assert before == messages && results[..0] == [];
    } else {
      ResultsAppend(m, messages, calls, results, k - 1);
      ToolsFollow(m, messages, calls, results, n);
      OneMoreResult(ToolResultsOf(messages), results, k);
    }
  }

  lemma OneMoreResult(a: seq<ToolResult>, results: seq<ToolResult>, k: nat)
    requires 0 < k <= |results|
    ensures a + results[..k - 1] + [results[k - 1]] == a + results[..k]
  {}

  lemma AppendResults(m: seq<Message>, messages: seq<Message>, calls: seq<Call>, results: seq<ToolResult>)
    requires Appends(m, messages, calls, results)
    ensures ToolResultsOf(m) == ToolResultsOf(messages) + results && ShownIn(m) == ShownIn(messages) + m[|messages|].calls
  {
    ResultsAppend(m, messages, calls, results, |results|);
    assert m[..|m|] == m && results[..|results|] == results;
  }

  lemma AppendReplies(env: Env, m: seq<Message>, messages: seq<Message>, calls: seq<Call>, results: seq<ToolResult>, base: nat)
    requires Appends(m, messages, calls, results) && Replies(env, messages, base) && env.llm(messages).Reply? && env.llm(messages).calls == calls
    ensures Replies(env, m, base)
  {
    var n := |messages|;
    forall p | n < p < |m| ensures m[p].Tool? { ToolsFollow(m, messages, calls, results, p); }
    forall p | base <= p < |m| && m[p].Assistant? ensures env.llm(m[..p]).Reply? && ShowsCalls(m[p].calls, env.llm(m[..p]).calls) {
      if p < n { assert m[p] == messages[p] && m[..p] == messages[..p]; }
    }
  }

  lemma SliceConcat<T>(a: seq<T>, b: seq<T>, n: nat)
    requires n <= |a|
    ensures (a + b)[n..] == a[n..] + b
  {}

  lemma Associate<T>(a: seq<T>, b: seq<T>, c: seq<T>)
    ensures a + b + c == a + (b + c)
  {}

  lemma ListsMore(shown: seq<ShownCall>, all: seq<Call>, more: seq<ShownCall>, calls: seq<Call>, added: seq<Call>)
    requires Lists(shown, all) && ShowsCalls(more, calls) && (added == calls || added == WithIds(calls))
    ensures Lists(shown + more, all + added)
  {
    var s, c := shown + more, all + added;
    forall k | 0 <= k < |c|
      ensures s[k].name == c[k].name && (c[k].args.Dict? ==> s[k].arguments == c[k].args.json) && (c[k].id != "" ==> s[k].id == c[k].id)
    {
      if k >= |all| { assert ShowsCall(more[k - |all|], calls[k - |all|], k - |all|); }
    }
  }

  // ---------------------------------------------------------------- one round

  lemma OutputsSnoc(env: Env, h: History, e: Event)
    ensures Outputs(env, h + [e]) == Outputs(env, h) + if e.Ran? then [env.run(h, e.call, e.approved).result] else []
  {
    assert (h + [e])[..|h|] == h;
  }

  lemma GatesSnoc(env: Env, h: History, e: Event)
    requires GatesObeyed(env, h) && (e.Ran? ==> e.approved == env.gate(h, e.call))
    ensures GatesObeyed(env, h + [e])
  {
    var h1 := h + [e];
    forall k | 0 <= k < |h1| && h1[k].Ran? ensures h1[k].approved == env.gate(h1[..k], h1[k].call) { assert h1[..k] == h[..k]; }
  }

  /** A round's results are what its tools returned, each call run with approval exactly where a gate asks. */
  lemma {:induction false} RoundOutputs(env: Env, calls: seq<Call>, i: nat, h: History, done: seq<ToolResult>, gate: int)
    requires i <= |calls| && |done| == i && -1 <= gate < i && GatesObeyed(env, h)
    ensures
      var r := ApprovedRound(env, calls, i, h, done, gate);
      && GatesObeyed(env, r.history)
      && (r.Settled? ==> r.results[..i] == done && Outputs(env, r.history) == Outputs(env, h) + r.results[i..])
    decreases |calls| - i
  {
    if i < |calls| {
      var inv := Invoke(calls[i]);
      var gated := env.gate(h, inv);
      var out := env.run(h, inv, gated);
      var e, gate1 := Ran(inv, gated), if gated then i else gate;
      OutputsSnoc(env, h, e);
      GatesSnoc(env, h, e);
      if !(out.Raised? && gate1 >= 0) {
        RoundOutputs(env, calls, i + 1, h + [e], done + [out.result], gate1);
        TakeOne(ApprovedRound(env, calls, i + 1, h + [e], done + [out.result], gate1), i, done, out.result);
      }
    } else {
      assert done[i..] == [] && done[..i] == done;
    }
  }

  lemma TakeOne(r: Settled, i: nat, done: seq<ToolResult>, x: ToolResult)
    requires r.Settled? ==> |r.results| > i && r.results[..i + 1] == done + [x] && |done| == i
    ensures r.Settled? ==> r.results[..i] == done && r.results[i..] == [x] + r.results[i + 1..]
  {
    if r.Settled? {
      assert r.results[..i] == r.results[..i + 1][..i];
      assert r.results[i] == r.results[..i + 1][i];
    }
  }

  // ---------------------------------------------------------------- whole turns

  /** Everything the loop has recorded so far fits together. */
  ghost predicate Sound(env: Env, start: seq<Message>, messages: seq<Message>, all: seq<Call>, results: seq<ToolResult>, h: History) {
    && start <= messages && Replies(env, messages, |start|) && Tallied(start, messages, all, results)
    && Outputs(env, h) == results && GatesObeyed(env, h)
  }

  /** Results read so far, and calls listed so far, against the start of the turn. */
  ghost predicate Tallied(start: seq<Message>, messages: seq<Message>, all: seq<Call>, results: seq<ToolResult>) {
    && ToolResultsOf(messages) == ToolResultsOf(start) + results
    && |ShownIn(messages)| >= |ShownIn(start)| && Lists(ShownIn(messages)[|ShownIn(start)|..], all)
  }

  lemma TallyMore(start: seq<Message>, messages: seq<Message>, all: seq<Call>, results: seq<ToolResult>,
                  calls: seq<Call>, rs: seq<ToolResult>, m: seq<Message>, added: seq<Call>)
    requires Tallied(start, messages, all, results) && Appends(m, messages, calls, rs) && (added == calls || added == WithIds(calls))
    ensures Tallied(start, m, all + added, results + rs)
  {
    AppendResults(m, messages, calls, rs);
    var n, more := |ShownIn(start)|, m[|messages|].calls;
    ListsMore(ShownIn(messages)[n..], all, more, calls, added);
    SliceConcat(ShownIn(messages), more, n);
    Associate(ToolResultsOf(start), results, rs);
  }

  lemma SoundHistory(env: Env, calls: seq<Call>, h: History, r: Settled, h1: History)
    requires GatesObeyed(env, h) && r == ApprovedRound(env, calls, 0, h, [], -1) && r.Settled? && h1 == r.history + [Asked]
    ensures GatesObeyed(env, h1) && Outputs(env, h1) == Outputs(env, h) + r.results
  {
    RoundOutputs(env, calls, 0, h, [], -1);
    assert r.results[0..] == r.results;
    OutputsSnoc(env, r.history, Asked);
    GatesSnoc(env, r.history, Asked);
  }

  lemma SoundRound(env: Env, start: seq<Message>, messages: seq<Message>, all: seq<Call>, results: seq<ToolResult>, h: History,
                   calls: seq<Call>, r: Settled, messages1: seq<Message>, all1: seq<Call>, h1: History)
    requires Sound(env, start, messages, all, results, h) && env.llm(messages).Reply? && env.llm(messages).calls == calls
    requires r == ApprovedRound(env, calls, 0, h, [], -1) && r.Settled? && h1 == r.history + [Asked]
    requires messages1 == Append(messages, ShownAfter(calls, r.gate), r.results)
    requires all1 == all + (if r.gate >= 0 then calls else WithIds(calls))
    ensures Sound(env, start, messages1, all1, results + r.results, h1)
  {
    AppendShows(messages, calls, r.gate, r.results);
    SoundHistory(env, calls, h, r, h1);
    TallyMore(start, messages, all, results, calls, r.results, messages1, if r.gate >= 0 then calls else WithIds(calls));
    AppendReplies(env, messages1, messages, calls, r.results, |start|);
    assert messages == messages1[..|messages|];
  }

  /** The turn ended on the model's reply to its own transcript, for the reason its status gives. */
  ghost predicate EndsWell(env: Env, t: Turn, rounds: nat)
    requires t.Ended?
  {
    var last := env.llm(t.messages);
    if last.NoReply? then Down(t, last.why)
    else
      && t.answer == last.content
      && t.status == (if Rounds(t.messages) >= rounds then MaxToolRounds else if t.results == [] then Completed else CompletedWithTools)
      && (t.status != MaxToolRounds ==> last.calls == [])
  }

  /** The model failed: the reason is reported with no answer, or, in a resumed round, as a failed call with the fallback answer. */
  predicate Down(t: Turn, why: LlmFailure)
    requires t.Ended?
  {
    || (t.status == LlmDown(why) && t.answer == "")
    || (t.status == LlmDown(CallFailed) && t.answer == FallbackAnswer("", |t.results|))
  }

  ghost predicate SoundEnd(env: Env, start: seq<Message>, t: Turn)
    requires t.Ended?
  {
    Sound(env, start, t.messages, t.calls, t.results, t.history) && EndsWell(env, t, Rounds(start) + 4)
  }

  lemma {:induction false} LoopIsSound(env: Env, start: seq<Message>, reply: Reply, messages: seq<Message>, all: seq<Call>,
                                       results: seq<ToolResult>, h: History, round: nat)
    requires reply.Reply? && reply == env.llm(messages) && round <= MAX_ROUNDS && Rounds(messages) == Rounds(start) + round
    requires Sound(env, start, messages, all, results, h)
    ensures
      var t := ApprovedLoop(env, reply, messages, all, results, h, round);
      t.Ended? ==> SoundEnd(env, start, t)
    decreases MAX_ROUNDS - round, 1
  {
    if round < MAX_ROUNDS && reply.calls != [] {
      var r := ApprovedRound(env, reply.calls, 0, h, [], -1);
      if r.Settled? {
        var messages1 := Append(messages, ShownAfter(reply.calls, r.gate), r.results);
        var all1 := all + (if r.gate >= 0 then reply.calls else WithIds(reply.calls));
        SoundRound(env, start, messages, all, results, h, reply.calls, r, messages1, all1, r.history + [Asked]);
        AppendAddsARound(messages, ShownAfter(reply.calls, r.gate), r.results);
        var t := FinishRound(env, messages, reply.calls, all, results, round, r);
        FinishUnfolds(env, messages, reply.calls, all, results, round, r, messages1, all1, results + r.results, r.history + [Asked]);
        EndIsSound(env, start, round, messages1, all1, results + r.results, r.history + [Asked], t);
      }
    }
  }

  /** The turn goes on with the model's next reply, or ends because there is none. */
  ghost predicate GoesOn(env: Env, round: nat, messages: seq<Message>, all: seq<Call>, results: seq<ToolResult>, h: History, t: Turn) {
    var next := env.llm(messages);
    && (next.NoReply? ==> t.Ended? && t.messages == messages && t.calls == all && t.results == results && t.history == h && Down(t, next.why))
    && (next.Reply? ==> t == ApprovedLoop(env, next, messages, all, results, h, round + 1))
  }

  lemma FinishUnfolds(env: Env, messages: seq<Message>, calls: seq<Call>, all: seq<Call>, results: seq<ToolResult>, round: nat, r: Settled,
                      messages1: seq<Message>, all1: seq<Call>, results1: seq<ToolResult>, h1: History)
    requires round < MAX_ROUNDS && r.Settled? && |r.results| == |calls| && -1 <= r.gate < |calls|
    requires messages1 == Append(messages, ShownAfter(calls, r.gate), r.results) && results1 == results + r.results
    requires all1 == all + (if r.gate >= 0 then calls else WithIds(calls)) && h1 == r.history + [Asked]
    ensures GoesOn(env, round, messages1, all1, results1, h1, FinishRound(env, messages, calls, all, results, round, r))
  {}

  lemma {:induction false} EndIsSound(env: Env, start: seq<Message>, round: nat, messages: seq<Message>, all: seq<Call>,
                                      results: seq<ToolResult>, h: History, t: Turn)
    requires round < MAX_ROUNDS && Rounds(messages) == Rounds(start) + round + 1 && Sound(env, start, messages, all, results, h)
    requires GoesOn(env, round, messages, all, results, h, t)
    ensures t.Ended? ==> SoundEnd(env, start, t)
    decreases MAX_ROUNDS - round, 0
  {
    var next := env.llm(messages);
    if next.Reply? { LoopIsSound(env, start, next, messages, all, results, h, round + 1); }
  }

  /**
   However often a turn is stopped and approved, when it ends: each assistant message shows the model's reply to the
   messages before it, the tool messages carry the turn's results in order, those are what the executed calls
   returned, gated calls and only those ran with approval, the listed calls are the shown ones, and the answer and
   status come from the model's reply to the whole transcript.
   */
  lemma TurnIsFaithful(env: Env, start: seq<Message>)
    ensures
      var t := Drive(env, RunTurn(env, start));
      t.Ended? ==> SoundEnd(env, start, t)
  {
    var reply := FirstReply(env, start);
    OutputsSnoc(env, [], Asked);
    GatesSnoc(env, [], Asked);
    assert [] + [Asked] == [Asked];
    assert ToolResultsOf(start) + [] == ToolResultsOf(start);
    assert ShownIn(start)[|ShownIn(start)|..] == [];
    if reply.Reply? {
      DriveContinue(env, reply, start, [], [], [Asked], 0);
      LoopIsSound(env, start, reply, start, [], [], [Asked], 0);
    }
  }

  /** Each executed call is the listed one: same tool, and the model's own arguments whenever they are an object. */
  lemma ToolsGetTheirArguments(env: Env, start: seq<Message>, k: nat)
    requires Drive(env, RunTurn(env, start)).Ended? && k < |Drive(env, RunTurn(env, start)).calls|
    ensures
      var t := Drive(env, RunTurn(env, start));
      && |Executed(t.history)| == |t.calls| && Executed(t.history)[k].name == t.calls[k].name
      && Executed(t.history)[k].json == (match t.calls[k].args case Dict(json) => json case Other(_, _) => "{}")
  {
    EachCallRunsOnce(env, start);
  }
}
