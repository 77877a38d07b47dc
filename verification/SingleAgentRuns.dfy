/** What every single-agent run keeps, and when the streamed run is the buffered one. */
module SingleAgentRuns {
  import opened Prelude
  import opened ToolCalls
  import opened SingleAgent

  // ----- Every run -----

  function IdsOfCalls(calls: seq<ToolCall>): seq<string> {
    if calls == [] then [] else IdsOfCalls(calls[..|calls| - 1]) + [calls[|calls| - 1].id]
  }

  function IdsAnswered(content: seq<Part>): seq<string> {
    if content == [] then []
    else
      var last := content[|content| - 1];
      IdsAnswered(content[..|content| - 1]) + if last.Answer? then [last.id] else []
  }

  /** The message after message i answers its tool calls, same ids, same order, and asks for none. */
  ghost predicate AnsweredAt(messages: seq<Message>, i: nat)
    requires i < |messages|
  {
    var calls := CallsIn(messages[i].content);
    calls != [] ==>
      && i + 1 < |messages|
      && messages[i + 1].role == User
      && IdsAnswered(messages[i + 1].content) == IdsOfCalls(calls)
      && CallsIn(messages[i + 1].content) == []
  }

  ghost predicate Answered(messages: seq<Message>, from: nat) {
    forall i :: from <= i < |messages| ==> AnsweredAt(messages, i)
  }

  /** A tool that ran had just been decided on, by a decision that does not stop; after a decision
      its tool runs at once, exactly when the decision does not stop, and a stop comes last. */
  ghost predicate Obeyed(actions: seq<Action>, j: nat)
    requires j < |actions|
  {
    match actions[j]
    case Invoked(call, _) =>
      j > 0 && actions[j - 1].Decided? && actions[j - 1].call == call && !Stops(actions[j - 1].decision)
    case Decided(call, d) =>
      && (!Stops(d) <==> j + 1 < |actions| && actions[j + 1].Invoked? && actions[j + 1].call == call)
      && (Stops(d) <==> j + 1 == |actions|)
  }

  ghost predicate PolicyFirst(env: Env, actions: seq<Action>) {
    env.policy.Some? ==> forall j :: 0 <= j < |actions| ==> Obeyed(actions, j)
  }

  /** No decision is pending. */
  predicate Settled(actions: seq<Action>) { actions == [] || actions[|actions| - 1].Invoked? }

  lemma {:induction false} ToolsAnswer(env: Env, step: nat, messages: seq<Message>, calls: seq<ToolCall>, n: nat)
    requires n <= |calls|
    ensures var t := UseTools(env, step, messages, calls, n);
            t.failure.None? ==> IdsAnswered(t.answers) == IdsOfCalls(calls[..n]) && CallsIn(t.answers) == []
  {
    if n > 0 {
      ToolsAnswer(env, step, messages, calls, n - 1);
      var before := UseTools(env, step, messages, calls, n - 1);
      assert UseTools(env, step, messages, calls, n) ==
        if before.failure.Some? then before else UseTool(env, step, n - 1, messages, calls[n - 1], before);
      hide *;
      IdsOneMore(calls, n);
      ToolAnswers(env, step, n - 1, messages, calls[n - 1], before);
    }
  }

  lemma {:induction false} IdsOneMore(calls: seq<ToolCall>, n: nat)
    requires 0 < n <= |calls|
    ensures IdsOfCalls(calls[..n]) == IdsOfCalls(calls[..n - 1]) + [calls[n - 1].id]
  {
    assert calls[..n][..n - 1] == calls[..n - 1];
  }

  lemma {:induction false} ToolAnswers(
      env: Env, step: nat, k: nat, messages: seq<Message>, call: ToolCall, before: Tooling)
    ensures var t := UseTool(env, step, k, messages, call, before);
            t.failure.None? && before.failure.None? ==>
              && IdsAnswered(t.answers) == IdsAnswered(before.answers) + [call.id]
              && CallsIn(t.answers) == CallsIn(before.answers)
  {
    hide Consult;
    var t := UseTool(env, step, k, messages, call, before);
    if t.failure.None? {
      assert t.answers[..|t.answers| - 1] == before.answers;
    }
  }

  lemma {:induction false} ToolsObey(env: Env, step: nat, messages: seq<Message>, calls: seq<ToolCall>, n: nat)
    requires n <= |calls|
    ensures var t := UseTools(env, step, messages, calls, n);
            PolicyFirst(env, t.actions) && (t.failure.None? ==> Settled(t.actions))
  {
    if n > 0 {
      ToolsObey(env, step, messages, calls, n - 1);
      var before := UseTools(env, step, messages, calls, n - 1);
      var v := Consult(env, step, messages, calls[n - 1]);
      VerdictObeys(env, step, n - 1, messages, calls[n - 1]);
      hide Consult, PolicyFirst;
      if before.failure.None? {
        if v.failure.None? {
          var invoked := Invoked(calls[n - 1], env.invoke(step, n - 1, calls[n - 1]));
          PolicyFirstAppends(env, before.actions, v.asked + [invoked]);
        } else {
          PolicyFirstAppends(env, before.actions, v.asked);
        }
      }
    }
  }

  lemma {:induction false} VerdictObeys(env: Env, step: nat, k: nat, messages: seq<Message>, call: ToolCall)
    ensures var v := Consult(env, step, messages, call);
            if v.failure.Some? then PolicyFirst(env, v.asked)
            else PolicyFirst(env, v.asked + [Invoked(call, env.invoke(step, k, call))])
  {
  }

  lemma {:induction false} PolicyFirstAppends(env: Env, a: seq<Action>, b: seq<Action>)
    requires PolicyFirst(env, a) && PolicyFirst(env, b) && Settled(a)
    ensures PolicyFirst(env, a + b)
    ensures b != [] && Settled(b) ==> Settled(a + b)
  {
    var all := a + b;
    if env.policy.Some? {
      forall j | 0 <= j < |all| ensures Obeyed(all, j) {
        if j < |a| { assert Obeyed(a, j); } else { assert Obeyed(b, j - |a|); }
      }
    }
  }

  /** The state at a step boundary; `base` messages were there before the run. */
  ghost predicate Sound(env: Env, base: nat, step: nat, s: State) {
    && base <= |s.messages|
    && PolicyFirst(env, s.actions)
    && (s.failure.None? ==> Answered(s.messages, base) && Settled(s.actions))
    && s.steps <= step <= env.maxSteps
    && (s.final.None? && s.failure.None? ==> s.steps == step)
    && (s.final.Some? ==> s.final.value in s.messages[base..])
    && (step == env.maxSteps > 0 ==> s.final.Some? || s.failure.Some?)
  }

  lemma {:induction false} AnsweredGrows(messages: seq<Message>, base: nat, more: seq<Message>)
    requires base <= |messages| && Answered(messages, base)
    requires forall i :: 0 <= i < |more| ==> AnsweredAt(more, i)
    ensures Answered(messages + more, base)
  {
    var all := messages + more;
    forall i | base <= i < |all| ensures AnsweredAt(all, i) {
      if i < |messages| { assert AnsweredAt(messages, i); } else { assert AnsweredAt(more, i - |messages|); }
    }
  }

  lemma {:induction false} SoundAfterReply(env: Env, base: nat, step: nat, s: State, reply: Reply)
    requires Sound(env, base, step, s) && step < env.maxSteps && s.final.None? && s.failure.None?
    ensures Sound(env, base, step + 1, Continue(env, step, s, reply))
  {
    var s' := Continue(env, step, s, reply);
    var calls, t := CallsIn(reply.message.content), ToolingFor(env, step, s, reply);
    if env.record(step, reply.usage).Ok? {
      assert s'.messages[|s.messages|] == reply.message;
      assert reply.message in s'.messages[base..];
      hide CallsIn, UseTools, PolicyFirst;
      if calls == [] {
        assert AnsweredAt([reply.message], 0);
        AnsweredGrows(s.messages, base, [reply.message]);
      } else {
        ToolsObey(env, step, s.messages + [reply.message], calls, |calls|);
        PolicyFirstAppends(env, s.actions, t.actions);
        if t.failure.None? {
          ToolsAnswer(env, step, s.messages + [reply.message], calls, |calls|);
          assert calls[..|calls|] == calls;
          var turn := [reply.message, Message(User, t.answers)];
          assert AnsweredAt(turn, 0) && AnsweredAt(turn, 1);
          AnsweredGrows(s.messages, base, turn);
          assert s'.messages == s.messages + turn;
        }
      }
    }
  }

  lemma {:induction false} SoundStep(env: Env, mode: Mode, base: nat, step: nat, s: State)
    requires Sound(env, base, step, s) && step < env.maxSteps && s.final.None? && s.failure.None?
    ensures Sound(env, base, step + 1, Step(env, mode, step, s))
  {
    var p := PickProvider(env, s.messages);
    if p.Ok? && env.preCheck(step, p.value, s.messages).Ok? {
      var r := ReplyTo(env, mode, step, p.value, s.messages);
      hide ReplyTo, PickProvider, Continue;
      if r.Ok? { SoundAfterReply(env, base, step, s, r.value); }
    }
  }

  ghost predicate SoundEnd(env: Env, base: nat, s: State) {
    exists last: nat :: Sound(env, base, last, s) && (last == env.maxSteps || s.final.Some? || s.failure.Some?)
  }

  lemma {:induction false} SoundFrom(env: Env, mode: Mode, base: nat, step: nat, s: State)
    requires Sound(env, base, step, s)
    ensures SoundEnd(env, base, AgentFrom(env, mode, step, s))
    decreases env.maxSteps - step
  {
    hide *;
    if step >= env.maxSteps || s.final.Some? || s.failure.Some? {
      RunOver(env, mode, base, step, s);
    } else {
      AgentOnce(env, mode, step, s);
      SoundStep(env, mode, base, step, s);
      SoundFrom(env, mode, base, step + 1, Step(env, mode, step, s));
    }
  }

  lemma {:induction false} RunOver(env: Env, mode: Mode, base: nat, step: nat, s: State)
    requires Sound(env, base, step, s) && (step >= env.maxSteps || s.final.Some? || s.failure.Some?)
    ensures SoundEnd(env, base, AgentFrom(env, mode, step, s))
  {
  }

  /** Every run, in either mode: tool calls are answered one by one; with a policy a tool runs
      exactly after a decision on it other than Deny and RequireApproval; at most `maxSteps`
      replies count; and a run that may take a step ends with a reply as its final message or
      with an error: the empty fallback message is never used. */
  lemma {:induction false} EveryRun(env: Env, mode: Mode, system: Option<string>, input: seq<Message>)
    ensures var opening := Start(system, input);
            var s := AgentFrom(env, mode, 0, opening);
            var base := |opening.messages|;
            && PolicyFirst(env, s.actions)
            && s.steps <= env.maxSteps
            && base <= |s.messages|
            && (s.failure.None? ==> Answered(s.messages, base))
            && (s.failure.None? && env.maxSteps > 0 ==> s.final.Some? && s.final.value in s.messages[base..])
  {
    var opening := Start(system, input);
    assert Sound(env, |opening.messages|, 0, opening);
    SoundFrom(env, mode, |opening.messages|, 0, opening);
  }

  /** One step; the provider asks for `call` and the policy answers ForceModel. */
  function ForcingEnv(call: ToolCall): Env {
    Env(1, Provider("p", false), [], None,
        (_, _, _) => Ok(Reply(Message(Assistant, [Call(call)]), ToolUse, NO_USAGE)),
        (_, _, _) => Err(""),
        (_, _, _) => Ok(Unit),
        (_, _) => Ok(Unit),
        Some((_, _, _) => Ok(ForceModel("other"))),
        (_, _, _) => Ok(EMPTY_OBJECT),
        _ => EMPTY_OBJECT,
        _ => None)
  }

  /** "No tool runs unless allowed" is false: under ForceModel the tool is invoked. */
  lemma {:induction false} ToolsRunWithoutAllow(call: ToolCall, mode: Mode)
    ensures var s := AgentFrom(ForcingEnv(call), mode, 0, Start(None, []));
            && s.failure.None?
            && s.actions == [Decided(call, ForceModel("other")), Invoked(call, Ok(EMPTY_OBJECT))]
  {
    var env, s, reply := ForcingEnv(call), Start(None, []), Reply(Message(Assistant, [Call(call)]), ToolUse, NO_USAGE);
    OneCall(call);
    assert ReplyTo(env, mode, 0, env.primary, s.messages) == Ok(reply);
    assert UseTools(env, 0, s.messages + [reply.message], [call], 0) == Tooling([], [], None);
    assert ToolingFor(env, 0, s, reply).actions ==
      [Decided(call, ForceModel("other")), Invoked(call, Ok(EMPTY_OBJECT))];
    hide CallsIn, UseTools;
    assert Step(env, mode, 0, s) == Continue(env, 0, s, reply);
  }

  lemma {:induction false} OneCall(call: ToolCall)
    ensures CallsIn([Call(call)]) == [call]
  {
    assert [Call(call)][..0] == [];
  }

  // ----- The streamed run against the buffered one -----

  function TextsOf(chunks: Chunks): string {
    if chunks == [] then ""
    else
      var c := chunks[|chunks| - 1];
      TextsOf(chunks[..|chunks| - 1])
      + if c.Ok? && c.value.DeltaChunk? && c.value.text.Some? then c.value.text.value else ""
  }

  function DeltasOf(chunks: Chunks): seq<Delta> {
    if chunks == [] then []
    else
      var c := chunks[|chunks| - 1];
      DeltasOf(chunks[..|chunks| - 1]) + if c.Ok? && c.value.DeltaChunk? then c.value.deltas else []
  }

  predicate OnlyDeltas(chunks: Chunks) {
    forall k :: 0 <= k < |chunks| ==> chunks[k].Ok? && chunks[k].value.DeltaChunk?
  }

  /** The chunks carry the reply: texts that concatenate to its text, tool calls in pieces, one
      End with its usage; or they break off with the same error. */
  ghost predicate Carries(env: Env, serialize: Json -> string, chunks: Chunks, r: Result<Reply, string>) {
    chunks != [] &&
    var n := |chunks| - 1;
    && OnlyDeltas(chunks[..n])
    && match r
       case Err(e) => chunks[n] == Err(e)
       case Ok(reply) =>
         var text, calls := TextOf(reply.message.content), CallsIn(reply.message.content);
         && chunks[n] == Ok(End(reply.finish, reply.usage))
         && reply.message == Message(Assistant, (if text != "" then [Text(text)] else []) + CallParts(calls))
         && TextsOf(chunks) == text
         && exists cut: seq<Indexed> ::
            Distinct(cut) && CallsOf(SortByIndex(cut)) == calls && Streams(serialize, DeltasOf(chunks), cut)
  }

  lemma {:induction false} GatherDeltas(step: nat, chunks: Chunks, n: nat)
    requires n <= |chunks| && OnlyDeltas(chunks[..n])
    ensures var g := Gather(step, chunks, n);
            && g.text == TextsOf(chunks[..n]) && g.deltas == DeltasOf(chunks[..n])
            && g.failure.None?
  {
    if n > 0 {
      assert chunks[..n][..n - 1] == chunks[..n - 1];
      assert OnlyDeltas(chunks[..n - 1]);
      assert chunks[..n][n - 1] == chunks[n - 1];
      GatherDeltas(step, chunks, n - 1);
    }
  }

  lemma {:induction false} CarriedReplyIsGathered(
      env: Env, serialize: Json -> string, step: nat, chunks: Chunks, r: Result<Reply, string>)
    requires RoundTrips(serialize, env.parse) && Carries(env, serialize, chunks, r)
    ensures Gathered(env, Gather(step, chunks, |chunks|)) == r
  {
    LastChunk(step, chunks);
    if r.Ok? {
      CallsReassembled(env, serialize, DeltasOf(chunks), CallsIn(r.value.message.content));
    }
    hide Gather, TextsOf, DeltasOf, Assembled, Streams, CallsOf, SortByIndex, Distinct, CallsIn, CallParts,
      TextOf, OnlyDeltas;
  }

  /** The last chunk alone decides how a gathering of deltas ends. */
  lemma {:induction false} LastChunk(step: nat, chunks: Chunks)
    requires chunks != [] && OnlyDeltas(chunks[..|chunks| - 1])
    ensures var last := chunks[|chunks| - 1];
            var g := Gather(step, chunks, |chunks|);
            && (last.Err? ==> g.failure == Some(last.error))
            && (last.Ok? && last.value.End? ==>
              && g.failure.None? && g.finish == last.value.finish && g.usage == last.value.usage
              && g.text == TextsOf(chunks) && g.deltas == DeltasOf(chunks))
  {
    GatherDeltas(step, chunks, |chunks| - 1);
    hide OnlyDeltas;
  }

  lemma {:induction false} CallsReassembled(env: Env, serialize: Json -> string, ds: seq<Delta>, calls: seq<ToolCall>)
    requires RoundTrips(serialize, env.parse)
    requires exists cut: seq<Indexed> ::
               Distinct(cut) && CallsOf(SortByIndex(cut)) == calls && Streams(serialize, ds, cut)
    ensures Assembled(env.parse, ds) == calls
  {
    var cut: seq<Indexed> :| Distinct(cut) && CallsOf(SortByIndex(cut)) == calls && Streams(serialize, ds, cut);
    ReassemblyRoundTrip(serialize, env.parse, ds, cut);
  }

  /** A provider that streams what it would have answered: whenever a stream starts, its chunks
      carry the buffered reply. */
  ghost predicate Faithful(env: Env, serialize: Json -> string) {
    && RoundTrips(serialize, env.parse)
    && forall step: nat, p: Provider, messages: seq<Message> ::
      p.streaming && env.stream(step, p, messages).Ok? ==>
        Carries(env, serialize, env.stream(step, p, messages).value, env.chat(step, p, messages))
  }

  /** Then the streamed run is the buffered run: same messages, same tool invocations with the
      same results, same usage, same outcome. */
  lemma {:induction false} StreamRefinesRun(env: Env, serialize: Json -> string, step: nat, s: State)
    requires Faithful(env, serialize)
    ensures AgentFrom(env, Streamed, step, s) == AgentFrom(env, Buffered, step, s)
    decreases env.maxSteps - step
  {
    if step < env.maxSteps && s.final.None? && s.failure.None? {
      StepsAgree(env, serialize, step, s);
      hide Step;
      StreamRefinesRun(env, serialize, step + 1, Step(env, Buffered, step, s));
    }
  }

  lemma {:induction false} StepsAgree(env: Env, serialize: Json -> string, step: nat, s: State)
    requires Faithful(env, serialize)
    ensures Step(env, Streamed, step, s) == Step(env, Buffered, step, s)
  {
    var p := PickProvider(env, s.messages);
    if p.Ok? && p.value.streaming {
      var chunks := env.stream(step, p.value, s.messages);
      if chunks.Ok? { CarriedReplyIsGathered(env, serialize, step, chunks.value, env.chat(step, p.value, s.messages)); }
    }
    hide Continue, Gather, Gathered, Carries, PickProvider;
  }

  // ----- What a consumer of the stream sees -----

  datatype Use = Use(name: string, id: string)

  function ShownBy(e: OrchEvent): seq<Use> { if e.ToolCallStart? then [Use(e.name, e.id)] else [] }

  function UsesShown(events: seq<OrchEvent>): seq<Use> { Collect(events, ShownBy) }

  function MadeBy(a: Action): seq<Use> { if a.Invoked? then [Use(a.call.name, a.call.id)] else [] }

  function UsesMade(actions: seq<Action>): seq<Use> { Collect(actions, MadeBy) }

  function FinalOf(e: OrchEvent): seq<Output> { if e.Final? then [e.output] else [] }

  function Finals(events: seq<OrchEvent>): seq<Output> { Collect(events, FinalOf) }

  lemma {:induction false} ShownConcat(a: seq<OrchEvent>, b: seq<OrchEvent>)
    ensures UsesShown(a + b) == UsesShown(a) + UsesShown(b) && Finals(a + b) == Finals(a) + Finals(b)
  {
    CollectConcat(a, b, ShownBy);
    CollectConcat(a, b, FinalOf);
  }

  lemma {:induction false} MadeConcat(a: seq<Action>, b: seq<Action>)
    ensures UsesMade(a + b) == UsesMade(a) + UsesMade(b)
  {
    CollectConcat(a, b, MadeBy);
  }

  lemma {:induction false} OneShown(e: OrchEvent)
    ensures UsesShown([e]) == ShownBy(e) && Finals([e]) == FinalOf(e)
  {
    CollectOne(e, ShownBy);
    CollectOne(e, FinalOf);
  }

  lemma {:induction false} PairShown(a: OrchEvent, b: OrchEvent)
    requires a.ToolCallStart? && b.ToolCallResult?
    ensures UsesShown([a, b]) == [Use(a.name, a.id)] && Finals([a, b]) == []
  {
    assert [a, b] == [a] + [b];
    ShownConcat([a], [b]);
    OneShown(a);
    OneShown(b);
  }

  lemma {:induction false} ActionsShown(env: Env, step: nat, actions: seq<Action>)
    ensures UsesShown(EventsOf(env, step, actions)) == UsesMade(actions) && Finals(EventsOf(env, step, actions)) == []
  {
    if actions != [] {
      var init, a := actions[..|actions| - 1], actions[|actions| - 1];
      ActionsShown(env, step, init);
      var answer := if a.Invoked? then AnswerTo(env, a.call, a.result) else OtherPart;
      var shown :=
        if a.Invoked? then
          [ToolCallStart(step, a.call.name, a.call.id), ToolCallResult(step, a.call.id, answer.result, answer.isError)]
        else [];
      assert EventsOf(env, step, actions) == EventsOf(env, step, init) + shown;
      hide UsesShown, Finals, EventsOf;
      ShownConcat(EventsOf(env, step, init), shown);
      if a.Invoked? { PairShown(shown[0], shown[1]); } else { NothingShown(); }
    }
  }

  lemma {:induction false} NothingShown()
    ensures UsesShown([]) == [] && Finals([]) == [] && UsesMade([]) == []
  {
  }

  lemma {:induction false} ChunksShowText(step: nat, chunks: Chunks, n: nat)
    requires n <= |chunks|
    ensures UsesShown(Gather(step, chunks, n).events) == [] && Finals(Gather(step, chunks, n).events) == []
  {
    if n > 0 {
      ChunksShowText(step, chunks, n - 1);
      var before, g := Gather(step, chunks, n - 1), Gather(step, chunks, n);
      if g.events != before.events {
        var e := g.events[|before.events|];
        assert g.events == before.events + [e];
        hide UsesShown, Finals, Gather;
        ShownConcat(before.events, [e]);
        OneShown(e);
      }
    }
  }

  lemma {:induction false} ReplyShowsText(env: Env, step: nat, p: Provider, messages: seq<Message>)
    ensures var events := ReplyEvents(env, step, p, messages); UsesShown(events) == [] && Finals(events) == []
  {
    var started := if p.streaming then env.stream(step, p, messages) else Err("");
    NothingShown();
    if started.Ok? { ChunksShowText(step, started.value, |started.value|); }
    else {
      var r := env.chat(step, p, messages);
      if r.Ok? { OneShown(AssistantText(step, TextOf(r.value.message.content))); }
    }
    hide Gather, UsesShown, Finals, TextOf;
  }

  lemma {:induction false} StepShown(env: Env, step: nat, s: State)
    ensures var made := Step(env, Streamed, step, s).actions;
            && UsesMade(made) == UsesMade(s.actions) + UsesShown(StepEvents(env, step, s))
            && Finals(StepEvents(env, step, s)) == []
  {
    hide *;
    var start := [StepStart(step)];
    var shown, actions := StepParts(env, step, s);
    OneShown(start[0]);
    StartIsSilent(start[0]);
    ActionsShown(env, step, actions);
    ShownConcat(shown, EventsOf(env, step, actions));
    ShownConcat(start, shown + EventsOf(env, step, actions));
    MadeConcat(s.actions, actions);
  }

  lemma {:induction false} StartIsSilent(e: OrchEvent)
    requires e.StepStart?
    ensures ShownBy(e) == [] && FinalOf(e) == []
  {
  }

  /** A step shows its start, then its reply, then its tools. */
  lemma {:induction false} StepParts(env: Env, step: nat, s: State)
    returns (shown: seq<OrchEvent>, actions: seq<Action>)
    ensures StepEvents(env, step, s) == [StepStart(step)] + (shown + EventsOf(env, step, actions))
    ensures Step(env, Streamed, step, s).actions == s.actions + actions
    ensures UsesShown(shown) == [] && Finals(shown) == []
  {
    NothingShown();
    shown, actions := [], [];
    var picked := PickProvider(env, s.messages);
    if picked.Ok? && env.preCheck(step, picked.value, s.messages).Ok? {
      var p := picked.value;
      var r := ReplyTo(env, Streamed, step, p, s.messages);
      shown := ReplyEvents(env, step, p, s.messages);
      ReplyShowsText(env, step, p, s.messages);
      if r.Ok? {
        actions := ToolingFor(env, step, s, r.value).actions;
        ActionsAdded(env, step, s, r.value);
      }
    }
    hide Continue, ReplyTo, ReplyEvents, ToolingFor, UsesShown, Finals, PickProvider;
  }

  lemma {:induction false} ActionsAdded(env: Env, step: nat, s: State, reply: Reply)
    ensures Continue(env, step, s, reply).actions == s.actions + ToolingFor(env, step, s, reply).actions
  {
  }

  /** The stream shows exactly the tools that were invoked, in order, and no early Final. */
  lemma {:induction false} ToolsAreShown(env: Env, step: nat, s: State)
    ensures UsesMade(AgentFrom(env, Streamed, step, s).actions) ==
            UsesMade(s.actions) + UsesShown(AgentEvents(env, step, s))
    ensures Finals(AgentEvents(env, step, s)) == []
    decreases env.maxSteps - step
  {
    hide *;
    if step >= env.maxSteps || s.final.Some? || s.failure.Some? {
      AgentIsOver(env, Streamed, step, s);
      NothingShown();
    } else {
      var s' := Step(env, Streamed, step, s);
      AgentOnce(env, Streamed, step, s);
      StepShown(env, step, s);
      ToolsAreShown(env, step + 1, s');
      var shown, rest := StepEvents(env, step, s), AgentEvents(env, step + 1, s');
      ShownConcat(shown, rest);
      ConcatAssoc(UsesMade(s.actions), UsesShown(shown), UsesShown(rest));
    }
  }

  /** With a faithful provider the stream shows the tools the buffered run invokes, in order,
      and ends with one Final, the output of the run, unless the run fails. */
  lemma {:induction false} StreamMatchesRun(
      env: Env, serialize: Json -> string, system: Option<string>, input: seq<Message>)
    requires Faithful(env, serialize)
    ensures var run := AgentFrom(env, Buffered, 0, Start(system, input));
            var events := StreamOf(env, system, input);
            && UsesShown(events) == UsesMade(run.actions)
            && Finals(events) == (if Outcome(run).Ok? then [Outcome(run).value] else [])
            && (Outcome(run).Ok? ==> events != [] && events[|events| - 1] == Final(Outcome(run).value))
  {
    var s := Start(system, input);
    StreamRefinesRun(env, serialize, 0, s);
    ToolsAreShown(env, 0, s);
    var r := Outcome(AgentFrom(env, Streamed, 0, s));
    var end := if r.Ok? then [Final(r.value)] else [];
    NothingShown();
    if r.Ok? { OneShown(Final(r.value)); }
    hide UsesMade, UsesShown, Finals, AgentFrom, AgentEvents, Outcome;
    ShownConcat(AgentEvents(env, 0, s), end);
  }
}
