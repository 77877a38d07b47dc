/** The two loops of the single agent, `run` and `stream`, statement by statement, proved to
    compute `AgentFrom` in their mode. */
module SingleAgentLoops {
  import opened Prelude
  import opened ToolCalls
  import opened SingleAgent

  method FindCalls(content: seq<Part>) returns (calls: seq<ToolCall>)
    ensures calls == CallsIn(content)
  {
    calls := [];
    for k := 0 to |content|
      invariant calls == CallsIn(content[..k])
    {
      assert content[..k + 1][..k] == content[..k];
      if content[k].Call? { calls := calls + [content[k].call]; }
    }
    assert content[..|content|] == content;
  }

  method JoinText(content: seq<Part>) returns (text: string)
    ensures text == TextOf(content)
  {
    text := "";
    for k := 0 to |content|
      invariant text == TextOf(content[..k])
    {
      assert content[..k + 1][..k] == content[..k];
      if content[k].Text? { text := text + content[k].text; }
    }
    assert content[..|content|] == content;
  }

  // ----- Tools -----

  method AskPolicy(env: Env, step: nat, messages: seq<Message>, call: ToolCall) returns (v: Verdict)
    ensures v == Consult(env, step, messages, call)
  {
    match env.policy
    case None => v := Verdict([], None);
    case Some(evaluate) =>
      var decided := evaluate(step, messages, call);
      match decided
      case Err(e) => v := Verdict([], Some(e));
      case Ok(d) =>
        v := Verdict([Decided(call, d)], None);
        match d {
          case Deny(reason) => v := v.(failure := Some("tool `" + call.name + "`: " + reason));
          case RequireApproval(reason) =>
            v := v.(failure := Some("tool `" + call.name + "` requires approval: " + reason));
          case _ =>
        }
  }

  lemma {:induction false} FailureStays(env: Env, step: nat, messages: seq<Message>, calls: seq<ToolCall>, n: nat)
    requires n <= |calls| && UseTools(env, step, messages, calls, n).failure.Some?
    ensures UseTools(env, step, messages, calls, |calls|) == UseTools(env, step, messages, calls, n)
    decreases |calls| - n
  {
    if n < |calls| { FailureStays(env, step, messages, calls, n + 1); }
  }

  lemma {:induction false} UseToolsOnce(env: Env, step: nat, messages: seq<Message>, calls: seq<ToolCall>, k: nat)
    requires k < |calls| && UseTools(env, step, messages, calls, k).failure.None?
    ensures var before, after := UseTools(env, step, messages, calls, k), UseTools(env, step, messages, calls, k + 1);
            var call, v, result := calls[k], Consult(env, step, messages, calls[k]), env.invoke(step, k, calls[k]);
            after == if v.failure.Some? then before.(actions := before.actions + v.asked, failure := v.failure)
                     else before.(answers := before.answers + [AnswerTo(env, call, result)],
                                  actions := before.actions + (v.asked + [Invoked(call, result)]))
  {
    hide Consult, AnswerTo;
  }

  /** The tool loop of `run`. */
  method AnswerCalls(env: Env, step: nat, messages: seq<Message>, calls: seq<ToolCall>) returns (t: Tooling)
    ensures t == UseTools(env, step, messages, calls, |calls|)
  {
    t := Tooling([], [], None);
    for k := 0 to |calls|
      invariant t == UseTools(env, step, messages, calls, k) && t.failure.None?
    {
      hide *;
      UseToolsOnce(env, step, messages, calls, k);
      var call := calls[k];
      var v := AskPolicy(env, step, messages, call);
      if v.failure.Some? {
        t := t.(actions := t.actions + v.asked, failure := v.failure);
        FailureStays(env, step, messages, calls, k + 1);
        return;
      }
      var result := env.invoke(step, k, call);
      t := t.(answers := t.answers + [AnswerTo(env, call, result)],
              actions := t.actions + (v.asked + [Invoked(call, result)]));
    }
  }

  /** The tool loop of `stream`: the same calls, with an event before and after each. */
  method AnswerCallsStreaming(env: Env, step: nat, messages: seq<Message>, calls: seq<ToolCall>)
    returns (t: Tooling, events: seq<OrchEvent>)
    ensures t == UseTools(env, step, messages, calls, |calls|)
    ensures events == EventsOf(env, step, t.actions)
  {
    t, events := Tooling([], [], None), [];
    assert t == UseTools(env, step, messages, calls, 0) && events == EventsOf(env, step, t.actions);
    hide *;
    for k := 0 to |calls|
      invariant t == UseTools(env, step, messages, calls, k) && t.failure.None?
      invariant events == EventsOf(env, step, t.actions)
    {
      UseOneMore(env, step, messages, calls, k);
      var shown;
      t, shown := AnswerOneStreaming(env, step, k, messages, calls[k], t);
      events := events + shown;
      if t.failure.Some? {
        FailureStays(env, step, messages, calls, k + 1);
        return;
      }
    }
  }

  lemma {:induction false} UseOneMore(env: Env, step: nat, messages: seq<Message>, calls: seq<ToolCall>, k: nat)
    requires k < |calls| && UseTools(env, step, messages, calls, k).failure.None?
    ensures UseTools(env, step, messages, calls, k + 1) ==
            UseTool(env, step, k, messages, calls[k], UseTools(env, step, messages, calls, k))
  {
  }

  method AnswerOneStreaming(env: Env, step: nat, k: nat, messages: seq<Message>, call: ToolCall, t: Tooling)
    returns (t': Tooling, shown: seq<OrchEvent>)
    requires t.failure.None?
    ensures t' == UseTool(env, step, k, messages, call, t)
    ensures EventsOf(env, step, t'.actions) == EventsOf(env, step, t.actions) + shown
  {
    hide Consult, EventsOf;
    var v := AskPolicy(env, step, messages, call);
    AskingIsSilent(env, step, messages, call, t.actions);
    if v.failure.Some? { return t.(actions := t.actions + v.asked, failure := v.failure), []; }
    shown := [ToolCallStart(step, call.name, call.id)];
    var result := env.invoke(step, k, call);
    var answer := AnswerTo(env, call, result);
    shown := shown + [ToolCallResult(step, call.id, answer.result, answer.isError)];
    InvokingShows(env, step, t.actions + v.asked, call, result);
    ConcatAssoc(t.actions, v.asked, [Invoked(call, result)]);
    t' := t.(answers := t.answers + [answer], actions := t.actions + (v.asked + [Invoked(call, result)]));
  }

  lemma {:induction false} AskingIsSilent(
      env: Env, step: nat, messages: seq<Message>, call: ToolCall, actions: seq<Action>)
    ensures EventsOf(env, step, actions + Consult(env, step, messages, call).asked) == EventsOf(env, step, actions)
  {
    var asked := Consult(env, step, messages, call).asked;
    if asked == [] {
      assert actions + asked == actions;
    } else {
      assert (actions + asked)[..|actions + asked| - 1] == actions;
    }
  }

  lemma {:induction false} InvokingShows(
      env: Env, step: nat, actions: seq<Action>, call: ToolCall, result: Result<Json, string>)
    ensures var answer := AnswerTo(env, call, result);
            EventsOf(env, step, actions + [Invoked(call, result)]) ==
            EventsOf(env, step, actions)
              + ([ToolCallStart(step, call.name, call.id)]
                 + [ToolCallResult(step, call.id, answer.result, answer.isError)])
  {
    assert (actions + [Invoked(call, result)])[..|actions|] == actions;
  }

  // ----- The reply -----

  method CallContent(text: string, calls: seq<ToolCall>) returns (content: seq<Part>)
    ensures content == (if text != "" then [Text(text)] else []) + CallParts(calls)
  {
    content := if text != "" then [Text(text)] else [];
    ghost var opening := content;
    for k := 0 to |calls|
      invariant content == opening + CallParts(calls[..k])
    {
      assert calls[..k + 1][..k] == calls[..k];
      content := content + [Call(calls[k])];
    }
    assert calls[..|calls|] == calls;
  }

  /** Reads a stream of chunks to its end or first error. */
  method ReadChunks(env: Env, step: nat, chunks: Chunks) returns (reply: Result<Reply, string>, events: seq<OrchEvent>)
    ensures var g := Gather(step, chunks, |chunks|); reply == Gathered(env, g) && events == g.events
  {
    var text, deltas, finish, usage := "", [], Stop, NO_USAGE;
    events := [];
    for n := 0 to |chunks|
      invariant Gather(step, chunks, n) == Gathering(text, deltas, finish, usage, None, events)
    {
      match chunks[n]
      case Err(e) =>
        ErrorStays(step, chunks, n + 1);
        return Err(e), events;
      case Ok(ErrorChunk(message)) =>
        ErrorStays(step, chunks, n + 1);
        return Err("stream error: " + message), events;
      case Ok(End(fr, u)) =>
        finish, usage := fr, u;
      case Ok(DeltaChunk(t, ds)) =>
        if t.Some? && t.value != "" {
          events := events + [AssistantText(step, t.value)];
          text := text + t.value;
        }
        deltas := deltas + ds;
    }
    var calls := AssembleToolCalls(env.parse, deltas);
    var content := CallContent(text, calls);
    reply := Ok(Reply(Message(Assistant, content), finish, usage));
  }

  lemma {:induction false} ErrorStays(step: nat, chunks: Chunks, n: nat)
    requires n <= |chunks| && Gather(step, chunks, n).failure.Some?
    ensures Gather(step, chunks, |chunks|) == Gather(step, chunks, n)
    decreases |chunks| - n
  {
    if n < |chunks| { ErrorStays(step, chunks, n + 1); }
  }

  method BufferedReply(env: Env, step: nat, p: Provider, messages: seq<Message>)
    returns (reply: Result<Reply, string>, events: seq<OrchEvent>)
    requires p.streaming ==> env.stream(step, p, messages).Err?
    ensures reply == ReplyTo(env, Streamed, step, p, messages) && events == ReplyEvents(env, step, p, messages)
  {
    reply := env.chat(step, p, messages);
    events := [];
    if reply.Ok? {
      var text := JoinText(reply.value.message.content);
      if text != "" { events := [AssistantText(step, text)]; }
    }
  }

  // ----- Steps and loops -----

  method RunStep(env: Env, step: nat, s: State) returns (s': State)
    ensures s' == Step(env, Buffered, step, s)
  {
    hide PickProvider, UseTools, CallsIn;
    s' := s;
    var picked := PickProvider(env, s.messages);
    if picked.Err? { return s'.(failure := Some(picked.error)); }
    var checked := env.preCheck(step, picked.value, s.messages);
    if checked.Err? { return s'.(failure := Some(checked.error)); }
    var replied := env.chat(step, picked.value, s.messages);
    if replied.Err? { return s'.(failure := Some(replied.error)); }
    var reply := replied.value;
    var recorded := env.record(step, reply.usage);
    if recorded.Err? { return s'.(failure := Some(recorded.error)); }
    var assistant := reply.message;
    s' := s'.(steps := s.steps + 1, usage := AddUsage(s.usage, reply.usage), messages := s.messages + [assistant]);
    var calls := FindCalls(assistant.content);
    if calls == [] || (reply.finish in {Stop, Length} && calls == []) { return s'.(final := Some(assistant)); }
    var t := AnswerCalls(env, step, s'.messages, calls);
    s' := s'.(actions := s.actions + t.actions);
    if t.failure.Some? { return s'.(failure := t.failure); }
    s' := s'.(messages := s'.messages + [Message(User, t.answers)]);
    if step + 1 == env.maxSteps { s' := s'.(final := Some(assistant)); }
  }

  method StreamStep(env: Env, step: nat, s: State) returns (s': State, events: seq<OrchEvent>)
    ensures s' == Step(env, Streamed, step, s) && events == StepEvents(env, step, s)
  {
    hide PickProvider, ReplyTo, ReplyEvents, Continue, ToolingFor, EventsOf;
    s', events := s, [StepStart(step)];
    var picked := PickProvider(env, s.messages);
    if picked.Err? { return s'.(failure := Some(picked.error)), events; }
    var provider := picked.value;
    var checked := env.preCheck(step, provider, s.messages);
    if checked.Err? { return s'.(failure := Some(checked.error)), events; }
    var replied, shown := StreamedReply(env, step, provider, s.messages);
    events := events + shown;
    if replied.Err? { return s'.(failure := Some(replied.error)), events; }
    var used;
    s', used := StreamContinue(env, step, s, replied.value);
    events := events + used;
  }

  /** Streams the reply, or falls back to the buffered call when streaming is not to be had. */
  method StreamedReply(env: Env, step: nat, p: Provider, messages: seq<Message>)
    returns (reply: Result<Reply, string>, events: seq<OrchEvent>)
    ensures reply == ReplyTo(env, Streamed, step, p, messages) && events == ReplyEvents(env, step, p, messages)
  {
    var started := if p.streaming then env.stream(step, p, messages) else Err("");
    match started {
      case Ok(chunks) => reply, events := ReadChunks(env, step, chunks);
      case Err(_) => reply, events := BufferedReply(env, step, p, messages);
    }
  }

  /** The rest of a streamed step, from the reply on. */
  method StreamContinue(env: Env, step: nat, s: State, reply: Reply) returns (s': State, events: seq<OrchEvent>)
    ensures s' == Continue(env, step, s, reply)
    ensures events == EventsOf(env, step, ToolingFor(env, step, s, reply).actions)
  {
    s', events := s, [];
    var recorded := env.record(step, reply.usage);
    if recorded.Err? { return s'.(failure := Some(recorded.error)), events; }
    var assistant := reply.message;
    s' := s'.(steps := s.steps + 1, usage := AddUsage(s.usage, reply.usage), messages := s.messages + [assistant]);
    var calls := FindCalls(assistant.content);
    if calls == [] || (reply.finish in {Stop, Length} && calls == []) { return s'.(final := Some(assistant)), events; }
    var t, used := AnswerCallsStreaming(env, step, s'.messages, calls);
    events := events + used;
    s' := s'.(actions := s.actions + t.actions);
    if t.failure.Some? { return s'.(failure := t.failure), events; }
    s' := s'.(messages := s'.messages + [Message(User, t.answers)]);
    if step + 1 == env.maxSteps { s' := s'.(final := Some(assistant)); }
  }

  method Run(env: Env, system: Option<string>, input: seq<Message>) returns (r: Result<Output, string>)
    ensures r == Outcome(AgentFrom(env, Buffered, 0, Start(system, input)))
  {
    var s := Start(system, input);
    for step := 0 to env.maxSteps
      invariant AgentFrom(env, Buffered, step, s) == AgentFrom(env, Buffered, 0, Start(system, input))
    {
      hide Step, Start;
      if s.final.Some? || s.failure.Some? { break; }
      s := RunStep(env, step, s);
    }
    r := Conclude(s);
  }

  method Conclude(s: State) returns (r: Result<Output, string>)
    ensures r == Outcome(s)
  {
    if s.failure.Some? { return Err(s.failure.value); }
    var message := if s.final.Some? then s.final.value else Message(Assistant, [Text("")]);
    var text := JoinText(message.content);
    r := Ok(Output(text, message, s.usage, s.steps));
  }

  method Stream(env: Env, system: Option<string>, input: seq<Message>)
    returns (events: seq<OrchEvent>, failure: Option<string>)
    ensures events == StreamOf(env, system, input)
    ensures failure == AgentFrom(env, Streamed, 0, Start(system, input)).failure
  {
    var s;
    s, events := StreamSteps(env, Start(system, input));
    var r := Conclude(s);
    failure := s.failure;
    if r.Ok? { events := events + [Final(r.value)]; }
  }

  method StreamSteps(env: Env, start: State) returns (s: State, events: seq<OrchEvent>)
    ensures s == AgentFrom(env, Streamed, 0, start) && events == AgentEvents(env, 0, start)
  {
    hide *;
    s, events := start, [];
    for step := 0 to env.maxSteps
      invariant AgentFrom(env, Streamed, step, s) == AgentFrom(env, Streamed, 0, start)
      invariant events + AgentEvents(env, step, s) == AgentEvents(env, 0, start)
    {
      if s.final.Some? || s.failure.Some? {
        AgentIsOver(env, Streamed, step, s);
        AgentIsOver(env, Streamed, env.maxSteps, s);
        break;
      }
      AgentOnce(env, Streamed, step, s);
      var s', shown := StreamStep(env, step, s);
      ConcatAssoc(events, shown, AgentEvents(env, step + 1, s'));
      events, s := events + shown, s';
    }
    AgentIsOver(env, Streamed, env.maxSteps, s);
  }
}
