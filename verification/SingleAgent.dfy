/** The single-agent tool loop as a function of its environment. A step picks a provider, gets
    its reply (buffered, or gathered from a stream of chunks), and answers the tool calls in
    it; `AgentFrom` iterates the step. Providers, router, policy, budget and tools are oracles. */
module SingleAgent {
  import opened Prelude
  import opened ToolCalls

  datatype Role = System | User | Assistant

  datatype Part =
    | Text(text: string)
    | Call(call: ToolCall)
    | Answer(id: string, result: Json, isError: bool)
    | OtherPart

  datatype Message = Message(role: Role, content: seq<Part>)

  datatype FinishReason = Stop | Length | ToolUse | ContentFilter | Failed | OtherReason

  datatype Reply = Reply(message: Message, finish: FinishReason, usage: Usage)

  datatype Chunk =
    | DeltaChunk(text: Option<string>, deltas: seq<Delta>)
    | ErrorChunk(message: string)
    | End(finish: FinishReason, usage: Usage)

  type Chunks = seq<Result<Chunk, string>>

  datatype Decision =
    | Allow
    | Deny(reason: string)
    | RedactMessages(mask: seq<string>)
    | RedactResponse(mask: seq<string>)
    | ForceModel(model: string)
    | RequireApproval(reason: string)

  /** The loops look for these two; every other decision lets the tool run. */
  predicate Stops(d: Decision) { d.Deny? || d.RequireApproval? }

  datatype Provider = Provider(id: string, streaming: bool)

  /** `chat` and `stream` answer for a step, a provider and a conversation; `stream` fails when
      the provider cannot start streaming. No budget attached is one that always says Ok. */
  datatype Env = Env(
    maxSteps: nat,
    primary: Provider,
    candidates: seq<Provider>,
    route: Option<(seq<Message>, seq<string>) -> Result<string, string>>,
    chat: (nat, Provider, seq<Message>) -> Result<Reply, string>,
    stream: (nat, Provider, seq<Message>) -> Result<Chunks, string>,
    preCheck: (nat, Provider, seq<Message>) -> Result<Unit, string>,
    record: (nat, Usage) -> Result<Unit, string>,
    policy: Option<(nat, seq<Message>, ToolCall) -> Result<Decision, string>>,
    invoke: (nat, nat, ToolCall) -> Result<Json, string>,
    errorValue: string -> Json,
    parse: string -> Option<Json>)

  // ----- Picking the provider -----

  function IdsOf(pool: seq<Provider>): (ids: seq<string>)
    ensures |ids| == |pool| && forall k :: 0 <= k < |pool| ==> ids[k] == pool[k].id
  {
    if pool == [] then [] else IdsOf(pool[..|pool| - 1]) + [pool[|pool| - 1].id]
  }

  /** r is the first provider of the pool with this id; an error if there is none. */
  predicate IsFirstNamed(pool: seq<Provider>, id: string, r: Result<Provider, string>) {
    if r.Ok? then
      exists k ::
        && 0 <= k < |pool| && pool[k] == r.value && r.value.id == id
        && forall j :: 0 <= j < k ==> pool[j].id != id
    else forall k :: 0 <= k < |pool| ==> pool[k].id != id
  }

  function Named(pool: seq<Provider>, id: string): (r: Result<Provider, string>)
    ensures IsFirstNamed(pool, id, r)
  {
    if pool == [] then Err("SingleAgent: router chose unknown provider id `" + id + "`")
    else if pool[0].id == id then Ok(pool[0])
    else
      var rest := pool[1..];
      assert forall k :: 0 < k < |pool| ==> pool[k] == rest[k - 1];
      Named(rest, id)
  }

  function PoolOf(env: Env): seq<Provider> { [env.primary] + env.candidates }

  /** What the router says of the pool, if it is asked: only when it is there and has a choice. */
  function Routed(env: Env, messages: seq<Message>): Option<Result<string, string>> {
    if env.route.None? || env.candidates == [] then None
    else Some(env.route.value(messages, IdsOf(PoolOf(env))))
  }

  /** The primary if the router is not asked, else the provider it names. */
  function PickProvider(env: Env, messages: seq<Message>): (r: Result<Provider, string>)
    ensures Routed(env, messages).None? ==> r == Ok(env.primary)
    ensures Routed(env, messages).Some? && Routed(env, messages).value.Err? ==>
            r == Err(Routed(env, messages).value.error)
    ensures Routed(env, messages).Some? && Routed(env, messages).value.Ok? ==>
            IsFirstNamed(PoolOf(env), Routed(env, messages).value.value, r)
  {
    match Routed(env, messages)
    case None => Ok(env.primary)
    case Some(Err(e)) => Err(e)
    case Some(Ok(id)) => Named(PoolOf(env), id)
  }

  // ----- The reply, buffered and streamed -----

  datatype Mode = Buffered | Streamed

  datatype OrchEvent =
    | StepStart(step: nat)
    | AssistantText(step: nat, delta: string)
    | ToolCallStart(step: nat, name: string, id: string)
    | ToolCallResult(step: nat, id: string, result: Json, isError: bool)
    | Final(output: Output)

  datatype Output = Output(text: string, message: Message, usage: Usage, steps: nat)

  datatype Gathering = Gathering(
      text: string, deltas: seq<Delta>, finish: FinishReason, usage: Usage, failure: Option<string>,
      events: seq<OrchEvent>)

  function GatherOne(g: Gathering, step: nat, chunk: Result<Chunk, string>): Gathering {
    match chunk
    case Err(e) => g.(failure := Some(e))
    case Ok(ErrorChunk(message)) => g.(failure := Some("stream error: " + message))
    case Ok(End(finish, usage)) => g.(finish := finish, usage := usage)
    case Ok(DeltaChunk(text, deltas)) =>
      var g' := g.(deltas := g.deltas + deltas);
      if text.Some? && text.value != "" then
        g'.(text := g.text + text.value, events := g.events + [AssistantText(step, text.value)])
      else g'
  }

  /** The first n chunks of a stream, up to its first error. */
  function Gather(step: nat, chunks: Chunks, n: nat): Gathering
    requires n <= |chunks|
  {
    if n == 0 then Gathering("", [], Stop, NO_USAGE, None, [])
    else
      var before := Gather(step, chunks, n - 1);
      if before.failure.Some? then before else GatherOne(before, step, chunks[n - 1])
  }

  function CallParts(calls: seq<ToolCall>): seq<Part> {
    if calls == [] then [] else CallParts(calls[..|calls| - 1]) + [Call(calls[|calls| - 1])]
  }

  function TextOf(content: seq<Part>): string {
    if content == [] then ""
    else
      var last := content[|content| - 1];
      TextOf(content[..|content| - 1]) + if last.Text? then last.text else ""
  }

  /** Text first, if any, then the reassembled calls by index. */
  function Gathered(env: Env, g: Gathering): Result<Reply, string> {
    if g.failure.Some? then Err(g.failure.value)
    else
      var content := (if g.text != "" then [Text(g.text)] else []) + CallParts(Assembled(env.parse, g.deltas));
      Ok(Reply(Message(Assistant, content), g.finish, g.usage))
  }

  function ReplyTo(env: Env, mode: Mode, step: nat, p: Provider, messages: seq<Message>): Result<Reply, string> {
    if mode.Buffered? || !p.streaming then env.chat(step, p, messages)
    else
      match env.stream(step, p, messages)
      case Err(_) => env.chat(step, p, messages)
      case Ok(chunks) => Gathered(env, Gather(step, chunks, |chunks|))
  }

  /** What the stream shows of a reply: its chunks, or the whole text of a buffered one. */
  function ReplyEvents(env: Env, step: nat, p: Provider, messages: seq<Message>): seq<OrchEvent> {
    match if p.streaming then env.stream(step, p, messages) else Err("")
    case Ok(chunks) => Gather(step, chunks, |chunks|).events
    case Err(_) =>
      match env.chat(step, p, messages)
      case Err(_) => []
      case Ok(reply) =>
        if TextOf(reply.message.content) != "" then [AssistantText(step, TextOf(reply.message.content))] else []
  }

  // ----- Tools -----

  datatype Action =
    | Decided(call: ToolCall, decision: Decision)
    | Invoked(call: ToolCall, result: Result<Json, string>)

  function CallsIn(content: seq<Part>): seq<ToolCall> {
    if content == [] then []
    else
      var last := content[|content| - 1];
      CallsIn(content[..|content| - 1]) + if last.Call? then [last.call] else []
  }

  function AnswerTo(env: Env, call: ToolCall, result: Result<Json, string>): Part {
    match result
    case Ok(v) => Answer(call.id, v, false)
    case Err(e) => Answer(call.id, env.errorValue(e), true)
  }

  datatype Tooling = Tooling(answers: seq<Part>, actions: seq<Action>, failure: Option<string>)

  function Denial(call: ToolCall, d: Decision): string
    requires Stops(d)
  {
    match d
    case Deny(reason) => "tool `" + call.name + "`: " + reason
    case RequireApproval(reason) => "tool `" + call.name + "` requires approval: " + reason
  }

  datatype Verdict = Verdict(asked: seq<Action>, failure: Option<string>)

  /** The policy, when one is set, is asked before every tool; Deny and RequireApproval end the run. */
  function Consult(env: Env, step: nat, messages: seq<Message>, call: ToolCall): Verdict {
    if env.policy.None? then Verdict([], None)
    else
      match env.policy.value(step, messages, call)
      case Err(e) => Verdict([], Some(e))
      case Ok(d) => Verdict([Decided(call, d)], if Stops(d) then Some(Denial(call, d)) else None)
  }

  function UseTool(env: Env, step: nat, k: nat, messages: seq<Message>, call: ToolCall, t: Tooling): Tooling {
    var v := Consult(env, step, messages, call);
    if v.failure.Some? then t.(actions := t.actions + v.asked, failure := v.failure)
    else
      var result := env.invoke(step, k, call);
      t.(answers := t.answers + [AnswerTo(env, call, result)],
         actions := t.actions + (v.asked + [Invoked(call, result)]))
  }

  function UseTools(env: Env, step: nat, messages: seq<Message>, calls: seq<ToolCall>, n: nat): Tooling
    requires n <= |calls|
  {
    if n == 0 then Tooling([], [], None)
    else
      var before := UseTools(env, step, messages, calls, n - 1);
      if before.failure.Some? then before else UseTool(env, step, n - 1, messages, calls[n - 1], before)
  }

  function EventsOf(env: Env, step: nat, actions: seq<Action>): seq<OrchEvent> {
    if actions == [] then []
    else
      var a := actions[|actions| - 1];
      EventsOf(env, step, actions[..|actions| - 1]) +
      if a.Decided? then []
      else
        var answer := AnswerTo(env, a.call, a.result);
        [ToolCallStart(step, a.call.name, a.call.id), ToolCallResult(step, a.call.id, answer.result, answer.isError)]
  }

  // ----- The loop -----

  datatype State = State(
      messages: seq<Message>, usage: Usage, steps: nat, final: Option<Message>, actions: seq<Action>,
      failure: Option<string>)

  function Start(system: Option<string>, messages: seq<Message>): State {
    var shown := if system.Some? then [Message(System, [Text(system.value)])] else [];
    State(shown + messages, NO_USAGE, 0, None, [], None)
  }

  function Step(env: Env, mode: Mode, step: nat, s: State): State {
    match PickProvider(env, s.messages)
    case Err(e) => s.(failure := Some(e))
    case Ok(p) =>
      match env.preCheck(step, p, s.messages)
      case Err(e) => s.(failure := Some(e))
      case Ok(_) =>
        match ReplyTo(env, mode, step, p, s.messages)
        case Err(e) => s.(failure := Some(e))
        case Ok(reply) => Continue(env, step, s, reply)
  }

  /** What the tool calls of a reply lead to; none if the budget fails first. */
  function ToolingFor(env: Env, step: nat, s: State, reply: Reply): Tooling {
    var calls := CallsIn(reply.message.content);
    if env.record(step, reply.usage).Err? then Tooling([], [], None)
    else UseTools(env, step, s.messages + [reply.message], calls, |calls|)
  }

  /** The step once the reply is there. */
  function Continue(env: Env, step: nat, s: State, reply: Reply): State {
    match env.record(step, reply.usage)
    case Err(e) => s.(failure := Some(e))
    case Ok(_) =>
      var s' := s.(messages := s.messages + [reply.message],
                   usage := AddUsage(s.usage, reply.usage), steps := s.steps + 1);
      if CallsIn(reply.message.content) == [] then s'.(final := Some(reply.message))
      else
        var t := ToolingFor(env, step, s, reply);
        var acted := s'.(actions := s.actions + t.actions);
        if t.failure.Some? then acted.(failure := t.failure)
        else
          acted.(messages := acted.messages + [Message(User, t.answers)],
                 final := if step + 1 == env.maxSteps then Some(reply.message) else s.final)
  }

  function StepEvents(env: Env, step: nat, s: State): seq<OrchEvent> {
    [StepStart(step)] +
    match PickProvider(env, s.messages)
    case Err(_) => []
    case Ok(p) =>
      if env.preCheck(step, p, s.messages).Err? then []
      else
        ReplyEvents(env, step, p, s.messages) +
        match ReplyTo(env, Streamed, step, p, s.messages)
        case Err(_) => []
        case Ok(reply) => EventsOf(env, step, ToolingFor(env, step, s, reply).actions)
  }

  function AgentFrom(env: Env, mode: Mode, step: nat, s: State): State
    decreases env.maxSteps - step
  {
    if step >= env.maxSteps || s.final.Some? || s.failure.Some? then s
    else AgentFrom(env, mode, step + 1, Step(env, mode, step, s))
  }

  function AgentEvents(env: Env, step: nat, s: State): seq<OrchEvent>
    decreases env.maxSteps - step
  {
    if step >= env.maxSteps || s.final.Some? || s.failure.Some? then []
    else StepEvents(env, step, s) + AgentEvents(env, step + 1, Step(env, Streamed, step, s))
  }

  lemma {:induction false} AgentOnce(env: Env, mode: Mode, step: nat, s: State)
    requires step < env.maxSteps && s.final.None? && s.failure.None?
    ensures AgentFrom(env, mode, step, s) == AgentFrom(env, mode, step + 1, Step(env, mode, step, s))
    ensures AgentEvents(env, step, s) ==
            StepEvents(env, step, s) + AgentEvents(env, step + 1, Step(env, Streamed, step, s))
  {
    hide Step, StepEvents;
  }

  lemma {:induction false} AgentIsOver(env: Env, mode: Mode, step: nat, s: State)
    requires step >= env.maxSteps || s.final.Some? || s.failure.Some?
    ensures AgentFrom(env, mode, step, s) == s && AgentEvents(env, step, s) == []
  {
  }

  function Outcome(s: State): Result<Output, string> {
    if s.failure.Some? then Err(s.failure.value)
    else
      var message := if s.final.Some? then s.final.value else Message(Assistant, [Text("")]);
      Ok(Output(TextOf(message.content), message, s.usage, s.steps))
  }

  function StreamOf(env: Env, system: Option<string>, input: seq<Message>): seq<OrchEvent> {
    var s := Start(system, input);
    var r := Outcome(AgentFrom(env, Streamed, 0, s));
    AgentEvents(env, 0, s) + if r.Ok? then [Final(r.value)] else []
  }
}
