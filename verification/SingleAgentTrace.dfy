/** What a single-agent run does, turn by turn, on what the environment answers: which provider is
    asked, what becomes of each tool call, how the conversation grows, and how the run ends. The
    functions of the loops are not used to say it. */
module SingleAgentTrace {
  import opened Prelude
  import opened ToolCalls
  import opened SingleAgent
  import opened SingleAgentRuns

  /** A completed turn: a reply that asks for tools, and their answers. */
  datatype Turn = Turn(provider: Provider, reply: Reply, answers: seq<Part>, actions: seq<Action>)

  /** The conversation after some turns: each adds the reply and one message with the answers. */
  ghost function After(opening: seq<Message>, turns: seq<Turn>): seq<Message> {
    if turns == [] then opening
    else
      var last := turns[|turns| - 1];
      After(opening, turns[..|turns| - 1]) + [last.reply.message] + [Message(User, last.answers)]
  }

  /** The tokens of the replies, not cut off. */
  ghost function Tokens(turns: seq<Turn>): (t: (nat, nat)) {
    if turns == [] then (0, 0)
    else
      var before, u := Tokens(turns[..|turns| - 1]), turns[|turns| - 1].reply.usage;
      (before.0 + u.inputTokens, before.1 + u.outputTokens)
  }

  /** Each total cut off at the largest u32. */
  ghost predicate IsUsage(u: Usage, inputTokens: nat, outputTokens: nat) {
    && u.inputTokens == (if inputTokens <= 0xFFFF_FFFF then inputTokens else 0xFFFF_FFFF)
    && u.outputTokens == (if outputTokens <= 0xFFFF_FFFF then outputTokens else 0xFFFF_FFFF)
  }

  // ----- The provider -----

  /** The router is asked only when there is one and it has a choice. */
  ghost predicate AsksRouter(env: Env) { env.route.Some? && env.candidates != [] }

  ghost function RouterSays(env: Env, before: seq<Message>): Result<string, string>
    requires AsksRouter(env)
  {
    var pool := [env.primary] + env.candidates;
    env.route.value(before, seq(|pool|, k requires 0 <= k < |pool| => pool[k].id))
  }

  ghost predicate Chosen(env: Env, before: seq<Message>, p: Provider) {
    if !AsksRouter(env) then p == env.primary
    else
      var pool := [env.primary] + env.candidates;
      exists k ::
        && 0 <= k < |pool| && pool[k] == p && RouterSays(env, before) == Ok(p.id)
        && forall j :: 0 <= j < k ==> pool[j].id != p.id
  }

  /** The router fails, or names a provider that is not in the pool. */
  ghost predicate NoneChosen(env: Env, before: seq<Message>, e: string) {
    && AsksRouter(env)
    && var pool := [env.primary] + env.candidates;
       match RouterSays(env, before)
       case Err(x) => e == x
       case Ok(id) =>
         && (forall k :: 0 <= k < |pool| ==> pool[k].id != id)
         && e == "SingleAgent: router chose unknown provider id `" + id + "`"
  }

  // ----- The reply -----

  /** A chunk that ends the reading of a stream, and the error it ends it with. */
  ghost function Break(chunk: Result<Chunk, string>): Option<string> {
    match chunk
    case Err(e) => Some(e)
    case Ok(ErrorChunk(message)) => Some("stream error: " + message)
    case _ => None
  }

  /** No chunk breaks: the texts joined, then the tool calls put together; the finish reason and
      usage of the last End, if any. */
  ghost predicate ReadsTo(env: Env, chunks: Chunks, reply: Reply) {
    && (forall k :: 0 <= k < |chunks| ==> Break(chunks[k]).None?)
    && reply.message.role == Assistant
    && reply.message.content ==
         (if TextsOf(chunks) == "" then [] else [Text(TextsOf(chunks))])
         + CallParts(Assembled(env.parse, DeltasOf(chunks)))
    && (forall k ::
          && 0 <= k < |chunks| && chunks[k].Ok? && chunks[k].value.End?
          && (forall j :: k < j < |chunks| ==> !(chunks[j].Ok? && chunks[j].value.End?))
          ==> reply.finish == chunks[k].value.finish && reply.usage == chunks[k].value.usage)
    && ((forall k :: 0 <= k < |chunks| ==> !(chunks[k].Ok? && chunks[k].value.End?)) ==>
          reply.finish == Stop && reply.usage == Usage(0, 0))
  }

  /** What reading the chunks of a stream comes to. */
  ghost predicate Gathers(env: Env, chunks: Chunks, r: Result<Reply, string>) {
    match r
    case Ok(reply) => ReadsTo(env, chunks, reply)
    case Err(e) =>
      exists k ::
        && 0 <= k < |chunks| && Break(chunks[k]) == Some(e)
        && forall j :: 0 <= j < k ==> Break(chunks[j]).None?
  }

  /** The provider streams only in streamed mode, when it can, and when it starts; else it chats. */
  ghost predicate Replies(
      env: Env, mode: Mode, i: nat, p: Provider, before: seq<Message>, r: Result<Reply, string>)
  {
    if mode == Streamed && p.streaming && env.stream(i, p, before).Ok? then
      Gathers(env, env.stream(i, p, before).value, r)
    else r == env.chat(i, p, before)
  }

  // ----- The tools -----

  /** The answer of a tool: its value, or its error as a value, marked as one. */
  ghost predicate AnswersCall(env: Env, call: ToolCall, result: Result<Json, string>, answer: Part) {
    && answer.Answer? && answer.id == call.id
    && match result
       case Ok(v) => answer.result == v && !answer.isError
       case Err(e) => answer.result == env.errorValue(e) && answer.isError
  }

  /** The policy, if there is one, decides neither Deny nor RequireApproval on this call. */
  ghost predicate Lets(env: Env, i: nat, conversation: seq<Message>, call: ToolCall) {
    env.policy.Some? ==>
      && env.policy.value(i, conversation, call).Ok?
      && !env.policy.value(i, conversation, call).value.Deny?
      && !env.policy.value(i, conversation, call).value.RequireApproval?
  }

  ghost predicate Refuses(env: Env, i: nat, conversation: seq<Message>, call: ToolCall, e: string) {
    && env.policy.Some?
    && match env.policy.value(i, conversation, call)
       case Err(x) => e == x
       case Ok(Deny(reason)) => e == "tool `" + call.name + "`: " + reason
       case Ok(RequireApproval(reason)) => e == "tool `" + call.name + "` requires approval: " + reason
       case _ => false
  }

  /** The first n calls of turn i are let through, invoked in order, and answered. Without a
      policy the actions are the invocations; with one each has its decision just before it. */
  ghost predicate ToolsRun(
      env: Env, i: nat, conversation: seq<Message>, calls: seq<ToolCall>, n: nat, answers: seq<Part>,
      actions: seq<Action>)
  {
    && n <= |calls| && |answers| == n
    && |actions| == (if env.policy.Some? then n + n else n)
    && forall j: nat :: j < n ==>
         && Lets(env, i, conversation, calls[j])
         && AnswersCall(env, calls[j], env.invoke(i, j, calls[j]), answers[j])
         && Acted(env, i, conversation, calls[j], j, actions)
  }

  ghost predicate Acted(
      env: Env, i: nat, conversation: seq<Message>, call: ToolCall, j: nat, actions: seq<Action>)
  {
    var invoked := Invoked(call, env.invoke(i, j, call));
    if env.policy.None? then j < |actions| && actions[j] == invoked
    else
      && j + j + 1 < |actions| && actions[j + j + 1] == invoked
      && env.policy.value(i, conversation, call).Ok?
      && actions[j + j] == Decided(call, env.policy.value(i, conversation, call).value)
  }

  // ----- A turn, and the ends of a run -----

  /** The provider is chosen, may be asked, replies, and the reply is paid for. */
  ghost predicate Paid(env: Env, mode: Mode, i: nat, before: seq<Message>, p: Provider, reply: Reply) {
    && Chosen(env, before, p) && env.preCheck(i, p, before).Ok?
    && Replies(env, mode, i, p, before, Ok(reply)) && env.record(i, reply.usage).Ok?
  }

  ghost predicate TurnHolds(env: Env, mode: Mode, i: nat, before: seq<Message>, turn: Turn) {
    var calls := CallsIn(turn.reply.message.content);
    && Paid(env, mode, i, before, turn.provider, turn.reply) && calls != []
    && ToolsRun(env, i, before + [turn.reply.message], calls, |calls|, turn.answers, turn.actions)
  }

  /** Why a run fails in turn i, before or after the reply; `actions` are those of that turn. */
  ghost predicate FailsAt(
      env: Env, mode: Mode, i: nat, before: seq<Message>, e: string, actions: seq<Action>)
  {
    || (NoneChosen(env, before, e) && actions == [])
    || (exists p :: Chosen(env, before, p) && FailsWith(env, mode, i, before, p, e) && actions == [])
    || exists p, reply, k: nat, answers, ran ::
         && Paid(env, mode, i, before, p, reply)
         && ToolRefused(env, i, before + [reply.message], CallsIn(reply.message.content), k, answers, ran, e, actions)
  }

  ghost predicate FailsWith(env: Env, mode: Mode, i: nat, before: seq<Message>, p: Provider, e: string) {
    || env.preCheck(i, p, before) == Err(e)
    || (&& env.preCheck(i, p, before).Ok?
        && (|| Replies(env, mode, i, p, before, Err(e))
            || exists reply :: Replies(env, mode, i, p, before, Ok(reply)) && env.record(i, reply.usage) == Err(e)))
  }

  /** Calls before k ran; call k is refused, and its decision, if one was reached, is the last action. */
  ghost predicate ToolRefused(
      env: Env, i: nat, conversation: seq<Message>, calls: seq<ToolCall>, k: nat, answers: seq<Part>,
      ran: seq<Action>, e: string, actions: seq<Action>)
  {
    && k < |calls| && ToolsRun(env, i, conversation, calls, k, answers, ran)
    && Refuses(env, i, conversation, calls[k], e)
    && actions == ran +
         if env.policy.Some? && env.policy.value(i, conversation, calls[k]).Ok? then
           [Decided(calls[k], env.policy.value(i, conversation, calls[k]).value)]
         else []
  }

  /** The run ends with a reply that asks for no tool. */
  ghost predicate Concludes(
      env: Env, mode: Mode, before: seq<Message>, turns: seq<Turn>, p: Provider, reply: Reply, out: Output)
  {
    && Paid(env, mode, |turns|, before, p, reply) && CallsIn(reply.message.content) == []
    && out.message == reply.message && out.steps == |turns| + 1
    && IsUsage(out.usage, Tokens(turns).0 + reply.usage.inputTokens, Tokens(turns).1 + reply.usage.outputTokens)
  }

  /** The run is cut at the step limit, with the reply of its last turn. */
  ghost predicate RunsOut(env: Env, turns: seq<Turn>, out: Output) {
    && |turns| == env.maxSteps && out.steps == |turns|
    && out.message == (if turns == [] then Message(Assistant, [Text("")]) else turns[|turns| - 1].reply.message)
    && IsUsage(out.usage, Tokens(turns).0, Tokens(turns).1)
  }

  ghost function ActionsOf(turns: seq<Turn>): seq<Action> {
    if turns == [] then [] else ActionsOf(turns[..|turns| - 1]) + turns[|turns| - 1].actions
  }

  ghost predicate TurnsHold(env: Env, mode: Mode, opening: seq<Message>, turns: seq<Turn>) {
    forall i: nat :: i < |turns| ==> TurnHolds(env, mode, i, After(opening, turns[..i]), turns[i])
  }

  /** A whole run: its turns, one after the other, then an error, a last reply, or the limit. */
  ghost predicate IsTrace(
      env: Env, mode: Mode, opening: seq<Message>, turns: seq<Turn>, r: Result<Output, string>,
      actions: seq<Action>)
  {
    && |turns| <= env.maxSteps && TurnsHold(env, mode, opening, turns)
    && match r
       case Err(e) =>
         && |turns| < env.maxSteps
         && exists last ::
              && FailsAt(env, mode, |turns|, After(opening, turns), e, last)
              && actions == ActionsOf(turns) + last
       case Ok(out) =>
         && out.text == TextOf(out.message.content) && actions == ActionsOf(turns)
         && (|| RunsOut(env, turns, out)
             || (&& |turns| < env.maxSteps
                 && exists p, reply :: Concludes(env, mode, After(opening, turns), turns, p, reply, out)))
  }

  // ----- What the stream shows -----

  /** The texts of the chunks that are not empty, one event each. */
  ghost function ShownTexts(i: nat, chunks: Chunks): seq<OrchEvent> {
    if chunks == [] then []
    else
      var c := chunks[|chunks| - 1];
      ShownTexts(i, chunks[..|chunks| - 1]) +
      if c.Ok? && c.value.DeltaChunk? && c.value.text.Some? && c.value.text.value != "" then
        [AssistantText(i, c.value.text.value)]
      else []
  }

  /** Of a stream, the texts before the first chunk that breaks it; of a reply, its whole text. */
  ghost predicate ShowsReply(env: Env, i: nat, p: Provider, before: seq<Message>, shown: seq<OrchEvent>) {
    if p.streaming && env.stream(i, p, before).Ok? then
      exists n ::
        && IsReadable(env.stream(i, p, before).value, n)
        && shown == ShownTexts(i, env.stream(i, p, before).value[..n])
    else
      match env.chat(i, p, before)
      case Err(_) => shown == []
      case Ok(reply) =>
        var text := TextOf(reply.message.content);
        shown == if text == "" then [] else [AssistantText(i, text)]
  }

  /** Chunk n is the first that breaks, or no chunk does and n is their number. */
  ghost predicate IsReadable(chunks: Chunks, n: int) {
    && 0 <= n <= |chunks| && (forall k :: 0 <= k < n ==> Break(chunks[k]).None?)
    && (n < |chunks| ==> Break(chunks[n]).Some?)
  }

  ghost predicate ShowsCall(i: nat, call: ToolCall, answer: Part, j: nat, shown: seq<OrchEvent>) {
    && j + j + 1 < |shown| && answer.Answer?
    && shown[j + j] == ToolCallStart(i, call.name, call.id)
    && shown[j + j + 1] == ToolCallResult(i, call.id, answer.result, answer.isError)
  }

  ghost predicate ShowsTools(i: nat, calls: seq<ToolCall>, answers: seq<Part>, shown: seq<OrchEvent>) {
    && |answers| <= |calls| && |shown| == |answers| + |answers|
    && forall j: nat :: j < |answers| ==> ShowsCall(i, calls[j], answers[j], j, shown)
  }

  /** The tools of a paid reply: those let through up to the first that is refused. */
  ghost predicate ShowsToolsOf(env: Env, i: nat, before: seq<Message>, reply: Reply, shown: seq<OrchEvent>) {
    var calls, conversation := CallsIn(reply.message.content), before + [reply.message];
    exists answers, ran ::
      && ToolsRun(env, i, conversation, calls, |answers|, answers, ran)
      && (|answers| < |calls| ==> exists e :: Refuses(env, i, conversation, calls[|answers|], e))
      && ShowsTools(i, calls, answers, shown)
  }

  /** All that step i shows: its StepStart; the reply, if the provider was asked; the tools, if the
      reply came and was paid for. */
  ghost predicate ShowsStep(env: Env, i: nat, before: seq<Message>, events: seq<OrchEvent>) {
    exists shown, tools ::
      && events == [StepStart(i)] + shown + tools
      && (|| (shown == tools == [] && forall p :: Chosen(env, before, p) ==> env.preCheck(i, p, before).Err?)
          || exists p :: ShowsAsked(env, i, before, p, shown, tools))
  }

  ghost predicate ShowsAsked(
      env: Env, i: nat, before: seq<Message>, p: Provider, shown: seq<OrchEvent>, tools: seq<OrchEvent>)
  {
    && Chosen(env, before, p) && env.preCheck(i, p, before).Ok? && ShowsReply(env, i, p, before, shown)
    && (|| (tools == [] && exists e :: Replies(env, Streamed, i, p, before, Err(e)))
        || exists reply ::
             && Replies(env, Streamed, i, p, before, Ok(reply))
             && if env.record(i, reply.usage).Err? then tools == [] else ShowsToolsOf(env, i, before, reply, tools))
  }

  ghost function Flat(parts: seq<seq<OrchEvent>>): seq<OrchEvent> {
    if parts == [] then [] else parts[0] + Flat(parts[1..])
  }

  /** The steps from `from` on: one for every turn, and the one the run ends in, if it takes it. */
  ghost predicate ShowsSteps(
      env: Env, opening: seq<Message>, turns: seq<Turn>, from: nat, parts: seq<seq<OrchEvent>>)
  {
    && from <= |turns| && |parts| == |turns| - from + (if |turns| < env.maxSteps then 1 else 0)
    && forall j: nat :: j < |parts| ==> ShowsStep(env, from + j, After(opening, turns[..from + j]), parts[j])
  }

  // ----- Each part of a step is what it should be -----

  /** How contents are read: part by part, in order. */
  lemma {:induction false} TextIsRead(a: seq<Part>, b: seq<Part>, p: Part)
    ensures TextOf(a + b) == TextOf(a) + TextOf(b)
    ensures TextOf([]) == "" && TextOf([p]) == if p.Text? then p.text else ""
  {
    assert [p][..0] == [];
    if b == [] {
      assert a + b == a;
    } else {
      var init := b[..|b| - 1];
      assert (a + b)[..|a + b| - 1] == a + init;
      TextIsRead(a, init, p);
    }
  }

  lemma {:induction false} CallsAreRead(a: seq<Part>, b: seq<Part>, p: Part)
    ensures CallsIn(a + b) == CallsIn(a) + CallsIn(b)
    ensures CallsIn([]) == [] && CallsIn([p]) == if p.Call? then [p.call] else []
  {
    assert [p][..0] == [];
    if b == [] {
      assert a + b == a;
    } else {
      var init := b[..|b| - 1];
      assert (a + b)[..|a + b| - 1] == a + init;
      CallsAreRead(a, init, p);
    }
  }

  lemma {:induction false} CallPartsAreCalls(calls: seq<ToolCall>)
    ensures |CallParts(calls)| == |calls| && forall k :: 0 <= k < |calls| ==> CallParts(calls)[k] == Call(calls[k])
  {
    if calls != [] { CallPartsAreCalls(calls[..|calls| - 1]); }
  }

  lemma {:induction false} GatherShows(i: nat, chunks: Chunks, n: nat) returns (m: nat)
    requires n <= |chunks|
    ensures IsReadable(chunks[..n], m) && Gather(i, chunks, n).events == ShownTexts(i, chunks[..n][..m])
    ensures Gather(i, chunks, n).failure.Some? <==> m < n
  {
    m := 0;
    if n > 0 {
      m := GatherShows(i, chunks, n - 1);
      var before, chunk := Gather(i, chunks, n - 1), chunks[n - 1];
      var after := Gather(i, chunks, n);
      assert chunks[..n] == chunks[..n - 1] + [chunk];
      assert after == if before.failure.Some? then before else GatherOne(before, i, chunk);
      assert before.failure.None? ==> after.failure == Break(chunk);
      ShownOneMore(i, chunks[..n - 1], chunk, before);
      hide Break, Gather, GatherOne, ShownTexts;
      if before.failure.None? && Break(chunk).None? {
        assert chunks[..n - 1][..n - 1] == chunks[..n - 1] && chunks[..n][..n] == chunks[..n];
        m := n;
      } else {
        assert chunks[..n][..m] == chunks[..n - 1][..m];
      }
    }
  }

  lemma {:induction false} ShownOneMore(i: nat, chunks: Chunks, chunk: Result<Chunk, string>, g: Gathering)
    ensures g.events == ShownTexts(i, chunks) && g.failure.None? && Break(chunk).None? ==>
              GatherOne(g, i, chunk).events == ShownTexts(i, chunks + [chunk])
    ensures Break(chunk).Some? ==> GatherOne(g, i, chunk).events == g.events
  {
    assert (chunks + [chunk])[..|chunks|] == chunks;
  }

  lemma {:induction false} ReplyShows(env: Env, i: nat, p: Provider, before: seq<Message>)
    ensures ShowsReply(env, i, p, before, ReplyEvents(env, i, p, before))
  {
    if p.streaming && env.stream(i, p, before).Ok? {
      var chunks := env.stream(i, p, before).value;
      var m := GatherShows(i, chunks, |chunks|);
      assert chunks[..|chunks|] == chunks;
      hide Gather, ShownTexts, IsReadable;
    }
  }

  lemma {:induction false} ToolsShow(env: Env, i: nat, conversation: seq<Message>, calls: seq<ToolCall>, n: nat)
    returns (answers: seq<Part>, ran: seq<Action>)
    requires n <= |calls|
    ensures var t := UseTools(env, i, conversation, calls, n);
            && ToolsRun(env, i, conversation, calls, |answers|, answers, ran)
            && ShowsTools(i, calls, answers, EventsOf(env, i, t.actions))
            && (if t.failure.None? then answers == t.answers && ran == t.actions && |answers| == n
                else |answers| < |calls| && Refuses(env, i, conversation, calls[|answers|], t.failure.value))
  {
    hide *;
    answers, ran := [], [];
    if n == 0 {
      NoToolsYet(env, i, conversation, calls);
    } else {
      answers, ran := ToolsShow(env, i, conversation, calls, n - 1);
      var before := UseTools(env, i, conversation, calls, n - 1);
      UseToolsOnce(env, i, conversation, calls, n);
      if before.failure.None? {
        var t := UseTool(env, i, n - 1, conversation, calls[n - 1], before);
        OneToolMore(env, i, conversation, calls, n - 1, before);
        OneToolShows(env, i, conversation, calls, n - 1, before);
        if t.failure.None? { answers, ran := t.answers, t.actions; }
      }
    }
  }

  lemma {:induction false} UseToolsOnce(
      env: Env, i: nat, conversation: seq<Message>, calls: seq<ToolCall>, n: nat)
    requires 0 < n <= |calls|
    ensures var before := UseTools(env, i, conversation, calls, n - 1);
            UseTools(env, i, conversation, calls, n) ==
            if before.failure.Some? then before else UseTool(env, i, n - 1, conversation, calls[n - 1], before)
  {
  }

  lemma {:induction false} NoToolsYet(env: Env, i: nat, conversation: seq<Message>, calls: seq<ToolCall>)
    ensures UseTools(env, i, conversation, calls, 0) == Tooling([], [], None)
    ensures ToolsRun(env, i, conversation, calls, 0, [], []) && ShowsTools(i, calls, [], EventsOf(env, i, []))
  {
  }

  lemma {:induction false} OneToolShows(
      env: Env, i: nat, conversation: seq<Message>, calls: seq<ToolCall>, n: nat, before: Tooling)
    requires n < |calls| && |before.answers| == n && before.failure.None?
    requires ShowsTools(i, calls, before.answers, EventsOf(env, i, before.actions))
    ensures var t := UseTool(env, i, n, conversation, calls[n], before);
            && (t.failure.None? ==>
                  |t.answers| == n + 1 && ShowsTools(i, calls, t.answers, EventsOf(env, i, t.actions)))
            && (t.failure.Some? ==> EventsOf(env, i, t.actions) == EventsOf(env, i, before.actions))
            && (t.failure.Some? ==> Refuses(env, i, conversation, calls[n], t.failure.value))
  {
    var call, result := calls[n], env.invoke(i, n, calls[n]);
    var v := Consult(env, i, conversation, call);
    var asked, answer := v.asked, AnswerTo(env, call, result);
    ConsultMeans(env, i, conversation, call);
    DecisionsAreSilent(env, i, before.actions, asked);
    InvocationShows(env, i, before.actions + asked, call, result);
    ConcatAssoc(before.actions, asked, [Invoked(call, result)]);
    if v.failure.None? {
      assert UseTool(env, i, n, conversation, call, before) ==
        before.(answers := before.answers + [answer], actions := before.actions + (asked + [Invoked(call, result)]));
      var shown := EventsOf(env, i, before.actions);
      var more := [ToolCallStart(i, call.name, call.id), ToolCallResult(i, call.id, answer.result, answer.isError)];
      assert answer.Answer?;
      hide EventsOf, Consult, AnswerTo, UseTool, Refuses, Lets;
      ShowsOneMore(i, calls, before.answers, shown, answer, more);
    } else {
      hide EventsOf, Consult, AnswerTo, ShowsTools, Refuses, Lets;
    }
  }

  lemma {:induction false} ShowsOneMore(
      i: nat, calls: seq<ToolCall>, answers: seq<Part>, shown: seq<OrchEvent>, answer: Part, more: seq<OrchEvent>)
    requires |answers| < |calls| && ShowsTools(i, calls, answers, shown) && answer.Answer?
    requires var call := calls[|answers|];
             more == [ToolCallStart(i, call.name, call.id), ToolCallResult(i, call.id, answer.result, answer.isError)]
    ensures ShowsTools(i, calls, answers + [answer], shown + more)
  {
    var n, all := |answers|, shown + more;
    assert ShowsCall(i, calls[n], answer, n, all);
    forall j: nat | j < n ensures ShowsCall(i, calls[j], answers[j], j, all) {
      assert ShowsCall(i, calls[j], answers[j], j, shown);
    }
    hide ShowsCall;
  }

  lemma {:induction false} DecisionsAreSilent(env: Env, i: nat, actions: seq<Action>, asked: seq<Action>)
    requires |asked| <= 1 && forall a :: a in asked ==> a.Decided?
    ensures EventsOf(env, i, actions + asked) == EventsOf(env, i, actions)
  {
    if asked == [] {
      assert actions + asked == actions;
    } else {
      assert asked[0].Decided?;
      assert (actions + asked)[..|actions|] == actions;
      assert EventsOf(env, i, actions) + [] == EventsOf(env, i, actions);
    }
  }

  lemma {:induction false} InvocationShows(
      env: Env, i: nat, actions: seq<Action>, call: ToolCall, result: Result<Json, string>)
    ensures var answer := AnswerTo(env, call, result);
            EventsOf(env, i, actions + [Invoked(call, result)]) ==
            EventsOf(env, i, actions)
            + [ToolCallStart(i, call.name, call.id), ToolCallResult(i, call.id, answer.result, answer.isError)]
  {
    assert (actions + [Invoked(call, result)])[..|actions|] == actions;
  }

  lemma {:induction false} PickIsChosen(env: Env, before: seq<Message>)
    ensures match PickProvider(env, before)
            case Ok(p) => Chosen(env, before, p)
            case Err(e) => NoneChosen(env, before, e)
  {
    var pool := [env.primary] + env.candidates;
    assert PoolOf(env) == pool;
    assert IdsOf(pool) == seq(|pool|, k requires 0 <= k < |pool| => pool[k].id);
    if AsksRouter(env) && RouterSays(env, before).Ok? {
      NamedError(pool, RouterSays(env, before).value);
    }
    hide Named;
  }

  lemma {:induction false} NamedError(pool: seq<Provider>, id: string)
    ensures Named(pool, id).Err? ==>
              Named(pool, id).error == "SingleAgent: router chose unknown provider id `" + id + "`"
  {
    if pool != [] { NamedError(pool[1..], id); }
  }

  /** What has been read of a stream so far. */
  ghost predicate GatheredSo(chunks: Chunks, g: Gathering) {
    if g.failure.Some? then
      exists k ::
        && 0 <= k < |chunks| && Break(chunks[k]) == g.failure
        && forall j :: 0 <= j < k ==> Break(chunks[j]).None?
    else
      && (forall k :: 0 <= k < |chunks| ==> Break(chunks[k]).None?)
      && g.text == TextsOf(chunks) && g.deltas == DeltasOf(chunks)
      && (forall k ::
            && 0 <= k < |chunks| && chunks[k].Ok? && chunks[k].value.End?
            && (forall j :: k < j < |chunks| ==> !(chunks[j].Ok? && chunks[j].value.End?))
            ==> g.finish == chunks[k].value.finish && g.usage == chunks[k].value.usage)
      && ((forall k :: 0 <= k < |chunks| ==> !(chunks[k].Ok? && chunks[k].value.End?)) ==>
            g.finish == Stop && g.usage == Usage(0, 0))
  }

  lemma {:induction false} GatherSo(step: nat, chunks: Chunks, n: nat)
    requires n <= |chunks|
    ensures GatheredSo(chunks[..n], Gather(step, chunks, n))
  {
    if n > 0 {
      GatherSo(step, chunks, n - 1);
      var before := Gather(step, chunks, n - 1);
      assert chunks[..n] == chunks[..n - 1] + [chunks[n - 1]];
      assert Gather(step, chunks, n) ==
        if before.failure.Some? then before else GatherOne(before, step, chunks[n - 1]);
      hide *;
      if before.failure.Some? {
        FailureIsKept(chunks[..n - 1], chunks[n - 1], before);
      } else {
        GatherOneSo(chunks[..n - 1], chunks[n - 1], before, step);
      }
    }
  }

  lemma {:induction false} FailureIsKept(chunks: Chunks, chunk: Result<Chunk, string>, g: Gathering)
    requires GatheredSo(chunks, g) && g.failure.Some?
    ensures GatheredSo(chunks + [chunk], g)
  {
    hide Break;
    var all := chunks + [chunk];
    assert forall k :: 0 <= k < |chunks| ==> all[k] == chunks[k];
  }

  lemma {:induction false} GatherOneSo(chunks: Chunks, chunk: Result<Chunk, string>, g: Gathering, step: nat)
    requires GatheredSo(chunks, g) && g.failure.None?
    ensures GatheredSo(chunks + [chunk], GatherOne(g, step, chunk))
  {
    var all, g' := chunks + [chunk], GatherOne(g, step, chunk);
    assert forall k :: 0 <= k < |chunks| ==> all[k] == chunks[k];
    assert all[..|chunks|] == chunks;
    assert TextsOf(all) ==
      TextsOf(chunks)
      + if chunk.Ok? && chunk.value.DeltaChunk? && chunk.value.text.Some? then chunk.value.text.value else "";
    assert DeltasOf(all) == DeltasOf(chunks) + if chunk.Ok? && chunk.value.DeltaChunk? then chunk.value.deltas else [];
    hide TextsOf, DeltasOf;
    assert Break(all[|chunks|]) == g'.failure;
  }

  lemma {:induction false} ReplyReplies(env: Env, mode: Mode, i: nat, p: Provider, before: seq<Message>)
    ensures Replies(env, mode, i, p, before, ReplyTo(env, mode, i, p, before))
  {
    if mode == Streamed && p.streaming && env.stream(i, p, before).Ok? {
      var chunks := env.stream(i, p, before).value;
      GatherSo(i, chunks, |chunks|);
      assert chunks[..|chunks|] == chunks;
      GatheredGathers(env, chunks, Gather(i, chunks, |chunks|));
    }
  }

  lemma {:induction false} GatheredGathers(env: Env, chunks: Chunks, g: Gathering)
    requires GatheredSo(chunks, g)
    ensures Gathers(env, chunks, Gathered(env, g))
  {
    hide Break, TextsOf, DeltasOf, Assembled, CallParts;
  }

  lemma {:induction false} ToolsRunThrough(
      env: Env, i: nat, conversation: seq<Message>, calls: seq<ToolCall>, n: nat)
    returns (k: nat, answers: seq<Part>, ran: seq<Action>)
    requires n <= |calls|
    ensures var t := UseTools(env, i, conversation, calls, n);
            match t.failure
            case None => ToolsRun(env, i, conversation, calls, n, t.answers, t.actions)
            case Some(e) => ToolRefused(env, i, conversation, calls, k, answers, ran, e, t.actions)
  {
    hide *;
    k, answers, ran := 0, [], [];
    if n == 0 {
      NoToolsYet(env, i, conversation, calls);
    } else {
      k, answers, ran := ToolsRunThrough(env, i, conversation, calls, n - 1);
      var before := UseTools(env, i, conversation, calls, n - 1);
      UseToolsOnce(env, i, conversation, calls, n);
      if before.failure.None? {
        k, answers, ran := n - 1, before.answers, before.actions;
        OneToolMore(env, i, conversation, calls, n - 1, before);
      }
    }
  }

  lemma {:induction false} OneToolMore(
      env: Env, i: nat, conversation: seq<Message>, calls: seq<ToolCall>, n: nat, before: Tooling)
    requires n < |calls| && before.failure.None?
    requires ToolsRun(env, i, conversation, calls, n, before.answers, before.actions)
    ensures var t := UseTool(env, i, n, conversation, calls[n], before);
            match t.failure
            case None => ToolsRun(env, i, conversation, calls, n + 1, t.answers, t.actions)
            case Some(e) => ToolRefused(env, i, conversation, calls, n, before.answers, before.actions, e, t.actions)
  {
    var call, result := calls[n], env.invoke(i, n, calls[n]);
    var t := UseTool(env, i, n, conversation, call, before);
    ConsultMeans(env, i, conversation, call);
    if t.failure.None? {
      var asked := Consult(env, i, conversation, call).asked;
      var answer := AnswerTo(env, call, result);
      assert AnswersCall(env, call, result, answer);
      assert t.answers == before.answers + [answer];
      assert t.actions == before.actions + (asked + [Invoked(call, result)]);
      hide Consult, AnswerTo, AnswersCall, Lets, Refuses, UseTool;
      ToolsRunLonger(env, i, conversation, calls, n, before.answers, before.actions, answer, asked);
    } else {
      hide AnswerTo, AnswersCall, Lets, Refuses, ToolsRun;
    }
  }

  lemma {:induction false} ConsultMeans(env: Env, i: nat, conversation: seq<Message>, call: ToolCall)
    ensures var v := Consult(env, i, conversation, call);
            && (match v.failure
                case None => Lets(env, i, conversation, call)
                case Some(e) => Refuses(env, i, conversation, call, e))
            && v.asked ==
               if env.policy.Some? && env.policy.value(i, conversation, call).Ok? then
                 [Decided(call, env.policy.value(i, conversation, call).value)]
               else []
  {
  }

  lemma {:induction false} ToolsRunLonger(
      env: Env, i: nat, conversation: seq<Message>, calls: seq<ToolCall>, n: nat, answers: seq<Part>,
      actions: seq<Action>, answer: Part, asked: seq<Action>)
    requires n < |calls| && ToolsRun(env, i, conversation, calls, n, answers, actions)
    requires Lets(env, i, conversation, calls[n])
    requires AnswersCall(env, calls[n], env.invoke(i, n, calls[n]), answer)
    requires asked ==
             if env.policy.Some? && env.policy.value(i, conversation, calls[n]).Ok? then
               [Decided(calls[n], env.policy.value(i, conversation, calls[n]).value)]
             else []
    ensures ToolsRun(env, i, conversation, calls, n + 1, answers + [answer],
                     actions + (asked + [Invoked(calls[n], env.invoke(i, n, calls[n]))]))
  {
    var invoked := Invoked(calls[n], env.invoke(i, n, calls[n]));
    var answers', actions' := answers + [answer], actions + (asked + [invoked]);
    assert env.policy.Some? ==> env.policy.value(i, conversation, calls[n]).Ok?;
    assert Acted(env, i, conversation, calls[n], n, actions');
    hide Lets, AnswersCall;
    forall j: nat | j < n
      ensures answers'[j] == answers[j] && Acted(env, i, conversation, calls[j], j, actions')
    {
      assert Acted(env, i, conversation, calls[j], j, actions);
    }
    hide Acted;
  }

  // ----- Runs -----

  /** The state of the loop after these turns. */
  ghost predicate Reached(env: Env, opening: seq<Message>, turns: seq<Turn>, s: State) {
    && s.messages == After(opening, turns) && s.steps == |turns| && s.failure.None?
    && IsUsage(s.usage, Tokens(turns).0, Tokens(turns).1)
    && s.actions == ActionsOf(turns)
    && s.final ==
         if |turns| == env.maxSteps && turns != [] then Some(turns[|turns| - 1].reply.message) else None
  }

  /** How a step leaves that state: with one more turn, with a last reply, or with an error. */
  ghost predicate Moves(
      env: Env, mode: Mode, opening: seq<Message>, turns: seq<Turn>, s': State, turn: Turn)
  {
    || (TurnHolds(env, mode, |turns|, After(opening, turns), turn) && Reached(env, opening, turns + [turn], s'))
    || (&& s'.failure.None? && s'.actions == ActionsOf(turns)
        && Concludes(env, mode, After(opening, turns), turns, turn.provider, turn.reply, OutputOf(s'))
        && s'.final == Some(turn.reply.message))
    || (&& s'.failure.Some?
        && FailsAt(env, mode, |turns|, After(opening, turns), s'.failure.value, turn.actions)
        && s'.actions == ActionsOf(turns) + turn.actions)
  }

  ghost function OutputOf(s: State): Output {
    var message := if s.final.Some? then s.final.value else Message(Assistant, [Text("")]);
    Output(TextOf(message.content), message, s.usage, s.steps)
  }

  lemma {:induction false} UsageAdds(a: Usage, inputTokens: nat, outputTokens: nat, b: Usage)
    requires IsUsage(a, inputTokens, outputTokens)
    ensures IsUsage(AddUsage(a, b), inputTokens + b.inputTokens, outputTokens + b.outputTokens)
  {
  }

  lemma {:induction false} OneTurnMore(opening: seq<Message>, turns: seq<Turn>, turn: Turn)
    ensures var more := turns + [turn];
            && After(opening, more) == After(opening, turns) + [turn.reply.message] + [Message(User, turn.answers)]
            && Tokens(more).0 == Tokens(turns).0 + turn.reply.usage.inputTokens
            && Tokens(more).1 == Tokens(turns).1 + turn.reply.usage.outputTokens
            && ActionsOf(more) == ActionsOf(turns) + turn.actions
  {
    assert (turns + [turn])[..|turns|] == turns;
  }

  const NO_REPLY := Reply(Message(Assistant, []), Stop, NO_USAGE)

  /** Every step from such a state is one of these. */
  lemma {:induction false} StepMoves(env: Env, mode: Mode, opening: seq<Message>, turns: seq<Turn>, s: State)
    returns (turn: Turn)
    requires Reached(env, opening, turns, s) && |turns| < env.maxSteps
    ensures Moves(env, mode, opening, turns, Step(env, mode, |turns|, s), turn)
  {
    var i, before := |turns|, s.messages;
    PickIsChosen(env, before);
    var picked := PickProvider(env, before);
    turn := Turn(env.primary, NO_REPLY, [], []);
    assert ActionsOf(turns) + [] == ActionsOf(turns);
    hide PickProvider, Chosen, NoneChosen, ReplyTo, Replies, Continue, After, ActionsOf, Tokens, IsUsage;
    if picked.Ok? {
      var p := picked.value;
      ReplyReplies(env, mode, i, p, before);
      var replied := ReplyTo(env, mode, i, p, before);
      if env.preCheck(i, p, before).Ok? && replied.Ok? {
        assert Step(env, mode, i, s) == Continue(env, i, s, replied.value);
        hide Moves, Step, Reached;
        turn := ReplyMoves(env, mode, opening, turns, s, p, replied.value);
      } else {
        assert FailsWith(env, mode, i, before, p, Step(env, mode, i, s).failure.value);
      }
    }
  }

  lemma {:induction false} ReplyMoves(
      env: Env, mode: Mode, opening: seq<Message>, turns: seq<Turn>, s: State, p: Provider, reply: Reply)
    returns (turn: Turn)
    requires Reached(env, opening, turns, s) && |turns| < env.maxSteps
    requires Chosen(env, s.messages, p) && env.preCheck(|turns|, p, s.messages).Ok?
    requires Replies(env, mode, |turns|, p, s.messages, Ok(reply))
    ensures Moves(env, mode, opening, turns, Continue(env, |turns|, s, reply), turn)
  {
    var i := |turns|;
    turn := Turn(p, reply, [], []);
    assert ActionsOf(turns) + [] == ActionsOf(turns);
    UsageAdds(s.usage, Tokens(turns).0, Tokens(turns).1, reply.usage);
    if env.record(i, reply.usage).Err? {
      hide Chosen, NoneChosen, Replies, After, ActionsOf, Tokens, IsUsage, CallsIn;
      assert FailsWith(env, mode, i, s.messages, p, env.record(i, reply.usage).error);
    } else if CallsIn(reply.message.content) == [] {
      hide Chosen, NoneChosen, Replies, After, ActionsOf, Tokens, IsUsage, CallsIn;
    } else {
      assert Paid(env, mode, i, s.messages, p, reply);
      hide Paid, Moves, Reached, Continue;
      turn := ToolsMove(env, mode, opening, turns, s, p, reply);
    }
  }

  lemma {:induction false} ToolsMove(
      env: Env, mode: Mode, opening: seq<Message>, turns: seq<Turn>, s: State, p: Provider, reply: Reply)
    returns (turn: Turn)
    requires Reached(env, opening, turns, s) && |turns| < env.maxSteps
    requires Paid(env, mode, |turns|, s.messages, p, reply) && CallsIn(reply.message.content) != []
    requires env.record(|turns|, reply.usage).Ok?
    ensures Moves(env, mode, opening, turns, Continue(env, |turns|, s, reply), turn)
  {
    var i, calls, conversation := |turns|, CallsIn(reply.message.content), s.messages + [reply.message];
    var t := UseTools(env, i, conversation, calls, |calls|);
    var k, answers, ran := ToolsRunThrough(env, i, conversation, calls, |calls|);
    turn := Turn(p, reply, t.answers, t.actions);
    assert ToolingFor(env, i, s, reply) == t;
    hide *;
    if t.failure.None? {
      TurnCompletes(env, mode, opening, turns, s, turn);
    } else {
      ToolFails(env, mode, opening, turns, s, turn, k, answers, ran);
    }
  }

  lemma {:induction false} TurnCompletes(
      env: Env, mode: Mode, opening: seq<Message>, turns: seq<Turn>, s: State, turn: Turn)
    requires Reached(env, opening, turns, s) && |turns| < env.maxSteps
    requires Paid(env, mode, |turns|, s.messages, turn.provider, turn.reply)
    requires env.record(|turns|, turn.reply.usage).Ok? && CallsIn(turn.reply.message.content) != []
    requires ToolingFor(env, |turns|, s, turn.reply) == Tooling(turn.answers, turn.actions, None)
    requires var calls := CallsIn(turn.reply.message.content);
             ToolsRun(env, |turns|, s.messages + [turn.reply.message], calls, |calls|, turn.answers, turn.actions)
    ensures Moves(env, mode, opening, turns, Continue(env, |turns|, s, turn.reply), turn)
  {
    UsageAdds(s.usage, Tokens(turns).0, Tokens(turns).1, turn.reply.usage);
    OneTurnMore(opening, turns, turn);
    hide Paid, ToolsRun, ToolingFor, CallsIn, IsUsage, After, Tokens, ActionsOf, FailsAt, Concludes;
    assert (turns + [turn])[|turns|] == turn;
  }

  lemma {:induction false} ToolFails(
      env: Env, mode: Mode, opening: seq<Message>, turns: seq<Turn>, s: State, turn: Turn, k: nat,
      answers: seq<Part>, ran: seq<Action>)
    requires Reached(env, opening, turns, s) && |turns| < env.maxSteps
    requires Paid(env, mode, |turns|, s.messages, turn.provider, turn.reply)
    requires env.record(|turns|, turn.reply.usage).Ok? && CallsIn(turn.reply.message.content) != []
    requires var t := ToolingFor(env, |turns|, s, turn.reply);
             && t.failure.Some? && t.actions == turn.actions
             && ToolRefused(env, |turns|, s.messages + [turn.reply.message], CallsIn(turn.reply.message.content), k,
                            answers, ran, t.failure.value, turn.actions)
    ensures Moves(env, mode, opening, turns, Continue(env, |turns|, s, turn.reply), turn)
  {
    hide Paid, ToolRefused, ToolingFor, CallsIn, IsUsage, After, Tokens, ActionsOf, Concludes, TurnHolds;
  }

  /** Every step of the streamed loop shows what it should. */
  lemma {:induction false} StepShows(env: Env, opening: seq<Message>, turns: seq<Turn>, s: State)
    requires Reached(env, opening, turns, s)
    ensures ShowsStep(env, |turns|, After(opening, turns), StepEvents(env, |turns|, s))
  {
    var i, before := |turns|, s.messages;
    PickIsChosen(env, before);
    var picked := PickProvider(env, before);
    assert before == After(opening, turns);
    if picked.Ok? && env.preCheck(i, picked.value, before).Ok? {
      hide Reached, After, PickProvider, Chosen, ReplyTo, Replies, ShowsReply, ReplyEvents, ToolingFor, ShowsToolsOf;
      AskedShows(env, i, s, picked.value);
    } else {
      if picked.Ok? { OnlyOneIsChosen(env, before, picked.value); } else { NoneIsChosen(env, before, picked.error); }
      hide Reached, After, PickProvider, Chosen, NoneChosen;
      assert StepEvents(env, i, s) == [StepStart(i)] + [] + [];
    }
  }

  lemma {:induction false} OnlyOneIsChosen(env: Env, before: seq<Message>, p: Provider)
    requires Chosen(env, before, p)
    ensures forall q :: Chosen(env, before, q) ==> q == p
  {
  }

  lemma {:induction false} NoneIsChosen(env: Env, before: seq<Message>, e: string)
    requires NoneChosen(env, before, e)
    ensures forall q :: !Chosen(env, before, q)
  {
  }

  lemma {:induction false} AskedShows(env: Env, i: nat, s: State, p: Provider)
    requires PickProvider(env, s.messages) == Ok(p) && Chosen(env, s.messages, p)
    requires env.preCheck(i, p, s.messages).Ok?
    ensures ShowsStep(env, i, s.messages, StepEvents(env, i, s))
  {
    var before := s.messages;
    ReplyShows(env, i, p, before);
    ReplyReplies(env, Streamed, i, p, before);
    var shown, replied := ReplyEvents(env, i, p, before), ReplyTo(env, Streamed, i, p, before);
    var tools := if replied.Ok? then EventsOf(env, i, ToolingFor(env, i, s, replied.value).actions) else [];
    AskedEvents(env, i, s, p);
    if replied.Ok? { PaidToolsShow(env, i, s, replied.value); }
    hide PickProvider, Chosen, ReplyTo, Replies, ShowsReply, ReplyEvents, ToolingFor, ShowsToolsOf, StepEvents,
      EventsOf;
    assert ShowsAsked(env, i, before, p, shown, tools);
    hide ShowsAsked;
  }

  lemma {:induction false} AskedEvents(env: Env, i: nat, s: State, p: Provider)
    requires PickProvider(env, s.messages) == Ok(p) && env.preCheck(i, p, s.messages).Ok?
    ensures var replied := ReplyTo(env, Streamed, i, p, s.messages);
            var tools := if replied.Ok? then EventsOf(env, i, ToolingFor(env, i, s, replied.value).actions) else [];
            StepEvents(env, i, s) == [StepStart(i)] + ReplyEvents(env, i, p, s.messages) + tools
  {
    hide PickProvider, ReplyTo, ReplyEvents, ToolingFor, EventsOf;
  }

  lemma {:induction false} PaidToolsShow(env: Env, i: nat, s: State, reply: Reply)
    ensures var tools := EventsOf(env, i, ToolingFor(env, i, s, reply).actions);
            if env.record(i, reply.usage).Err? then tools == []
            else ShowsToolsOf(env, i, s.messages, reply, tools)
  {
    if env.record(i, reply.usage).Ok? {
      var calls, conversation := CallsIn(reply.message.content), s.messages + [reply.message];
      var answers, ran := ToolsShow(env, i, conversation, calls, |calls|);
      hide UseTools, ToolsRun, Refuses, ShowsTools, CallsIn;
    }
  }

  /** The turns of a run from such a state on, and what its stream shows. */
  lemma {:induction false} TracedFrom(
      env: Env, mode: Mode, opening: seq<Message>, turns: seq<Turn>, s: State)
    returns (all: seq<Turn>, parts: seq<seq<OrchEvent>>)
    requires Reached(env, opening, turns, s) && |turns| <= env.maxSteps && TurnsHold(env, mode, opening, turns)
    ensures var end := AgentFrom(env, mode, |turns|, s);
            IsTrace(env, mode, opening, all, Outcome(end), end.actions)
    ensures |turns| <= |all| && all[..|turns|] == turns
    ensures mode == Streamed ==>
              ShowsSteps(env, opening, all, |turns|, parts) && AgentEvents(env, |turns|, s) == Flat(parts)
    decreases env.maxSteps - |turns|
  {
    hide *;
    all, parts := turns, [];
    if |turns| == env.maxSteps {
      AtTheLimit(env, mode, opening, turns, s);
      NothingToShow(env, opening, turns, s);
    } else {
      var s' := Step(env, mode, |turns|, s);
      StillOpen(env, opening, turns, s);
      AgentOnce(env, mode, |turns|, s);
      var turn := StepMoves(env, mode, opening, turns, s);
      if TurnHolds(env, mode, |turns|, After(opening, turns), turn) && Reached(env, opening, turns + [turn], s') {
        HoldsLonger(env, mode, opening, turns, turn);
        var rest;
        all, rest := TracedFrom(env, mode, opening, turns + [turn], s');
        parts := [StepEvents(env, |turns|, s)] + rest;
        assert all[..|turns|] == all[..|turns + [turn]|][..|turns|] == turns;
        StepShows(env, opening, turns, s);
        if mode == Streamed { ShowsOneStepMore(env, opening, all, |turns|, parts[0], rest); }
      } else {
        TraceEnds(env, mode, opening, turns, s', turn);
        parts := [StepEvents(env, |turns|, s)];
        StepShows(env, opening, turns, s);
        LastStepShows(env, opening, turns, s', turn, mode, parts[0]);
        assert turns[..|turns|] == turns;
      }
    }
  }

  lemma {:induction false} NothingToShow(env: Env, opening: seq<Message>, turns: seq<Turn>, s: State)
    requires |turns| == env.maxSteps
    ensures ShowsSteps(env, opening, turns, |turns|, []) && AgentEvents(env, |turns|, s) == Flat([])
    ensures turns[..|turns|] == turns
  {
  }

  lemma {:induction false} ShowsOneStepMore(
      env: Env, opening: seq<Message>, all: seq<Turn>, n: nat, part: seq<OrchEvent>, rest: seq<seq<OrchEvent>>)
    requires n < |all| && ShowsSteps(env, opening, all, n + 1, rest)
    requires ShowsStep(env, n, After(opening, all[..n]), part)
    ensures ShowsSteps(env, opening, all, n, [part] + rest) && Flat([part] + rest) == part + Flat(rest)
  {
    hide ShowsStep, After;
    var parts := [part] + rest;
    assert parts[1..] == rest;
    forall j: nat | j < |parts| ensures ShowsStep(env, n + j, After(opening, all[..n + j]), parts[j]) {
      if j > 0 { assert ShowsStep(env, n + 1 + (j - 1), After(opening, all[..n + 1 + (j - 1)]), rest[j - 1]); }
    }
  }

  lemma {:induction false} LastStepShows(
      env: Env, opening: seq<Message>, turns: seq<Turn>, s': State, turn: Turn, mode: Mode, part: seq<OrchEvent>)
    requires |turns| < env.maxSteps && Moves(env, mode, opening, turns, s', turn)
    requires !(TurnHolds(env, mode, |turns|, After(opening, turns), turn) && Reached(env, opening, turns + [turn], s'))
    requires ShowsStep(env, |turns|, After(opening, turns), part)
    ensures ShowsSteps(env, opening, turns, |turns|, [part])
    ensures part + AgentEvents(env, |turns| + 1, s') == Flat([part])
  {
    AgentIsOver(env, mode, |turns| + 1, s');
    hide ShowsStep, TurnHolds, Reached, FailsAt, Concludes, After;
    assert turns[..|turns|] == turns;
    assert [part][1..] == [];
    assert Flat([]) == [];
  }

  lemma {:induction false} StillOpen(env: Env, opening: seq<Message>, turns: seq<Turn>, s: State)
    requires Reached(env, opening, turns, s) && |turns| < env.maxSteps
    ensures s.final.None? && s.failure.None?
  {
    hide After, ActionsOf, IsUsage;
  }

  lemma {:induction false} AtTheLimit(env: Env, mode: Mode, opening: seq<Message>, turns: seq<Turn>, s: State)
    requires Reached(env, opening, turns, s) && |turns| == env.maxSteps && TurnsHold(env, mode, opening, turns)
    ensures var end := AgentFrom(env, mode, |turns|, s);
            IsTrace(env, mode, opening, turns, Outcome(end), end.actions)
  {
    AgentIsOver(env, mode, |turns|, s);
    hide TurnsHold, TurnHolds, IsUsage, After, ActionsOf, AgentFrom, TextOf;
  }

  lemma {:induction false} HoldsLonger(env: Env, mode: Mode, opening: seq<Message>, turns: seq<Turn>, turn: Turn)
    requires TurnsHold(env, mode, opening, turns) && TurnHolds(env, mode, |turns|, After(opening, turns), turn)
    ensures TurnsHold(env, mode, opening, turns + [turn])
  {
    hide TurnHolds, After;
    var more := turns + [turn];
    forall i: nat | i < |more| ensures TurnHolds(env, mode, i, After(opening, more[..i]), more[i]) {
      if i < |turns| {
        assert more[..i] == turns[..i];
      } else {
        assert more[..i] == turns;
      }
    }
  }

  lemma {:induction false} TraceEnds(
      env: Env, mode: Mode, opening: seq<Message>, turns: seq<Turn>, s': State, turn: Turn)
    requires |turns| < env.maxSteps && TurnsHold(env, mode, opening, turns)
    requires Moves(env, mode, opening, turns, s', turn)
    requires !(TurnHolds(env, mode, |turns|, After(opening, turns), turn) && Reached(env, opening, turns + [turn], s'))
    ensures var end := AgentFrom(env, mode, |turns| + 1, s');
            IsTrace(env, mode, opening, turns, Outcome(end), end.actions)
  {
    AgentIsOver(env, mode, |turns| + 1, s');
    hide TurnsHold, TurnHolds, Reached, FailsAt, After, ActionsOf, TextOf, IsUsage, Paid, Tokens;
  }

  /** Every run has a trace: in either mode, from the system prompt, if any, and the input. The
      stream of the same turns shows each of them as said, and ends with the output, if there is
      one. */
  lemma {:induction false} EveryRunHasATrace(env: Env, mode: Mode, system: Option<string>, input: seq<Message>)
    returns (turns: seq<Turn>, parts: seq<seq<OrchEvent>>)
    ensures var opening := (if system.Some? then [Message(System, [Text(system.value)])] else []) + input;
            var end := AgentFrom(env, mode, 0, Start(system, input));
            var r := Outcome(end);
            && IsTrace(env, mode, opening, turns, r, end.actions)
            && (mode == Streamed ==>
                  && ShowsSteps(env, opening, turns, 0, parts)
                  && StreamOf(env, system, input) == Flat(parts) + if r.Ok? then [Final(r.value)] else [])
  {
    var opening := (if system.Some? then [Message(System, [Text(system.value)])] else []) + input;
    var s := Start(system, input);
    assert Reached(env, opening, [], s);
    hide Reached, IsTrace, AgentFrom, AgentEvents, Outcome, ShowsSteps;
    turns, parts := TracedFrom(env, mode, opening, [], s);
  }
}
