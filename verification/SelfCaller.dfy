/** The self-caller: an inner orchestrator is retried with a revision prompt until a confidence
    guard accepts its output or the retries run out. The streamed form may stop an inner stream
    early. Text is UTF-8 bytes, because the guard's length check counts bytes. */
module SelfCaller {
  import opened Prelude

  type Text = seq<bv8>

  const U8_MAX: nat := 255

  datatype Role = System | User | Assistant

  datatype Message = Message(role: Role, text: Text)

  datatype Output = Output(text: Text, message: Message, usage: Usage, steps: nat)

  datatype OrchEvent =
    | AssistantText(step: nat, delta: Text)
    | Recursion(depth: nat, confidence: real)
    | Final(output: Output)
    | OtherEvent(tag: nat)

  type Inner = seq<Result<OrchEvent, string>>

  /** A guard may answer differently on the same text: it is asked for an inner call (offset and
      depth), and while that call streams, for the k-th time. */
  datatype Guard = Guard(
    evaluate: (nat, nat, Text) -> Result<real, string>,
    streaming: (nat, nat, nat, Text) -> Result<Option<real>, string>)

  /** `run` and `stream` are the inner orchestrator: which call, at which depth, on what. */
  datatype Caller = Caller(
    maxDepth: nat,
    startingDepth: nat,
    minConfidence: real,
    revision: Text,
    guard: Guard,
    run: (nat, nat, seq<Message>) -> Result<Output, string>,
    stream: (nat, nat, seq<Message>) -> Inner)

  const NO_FINAL := "SelfCaller: inner stream ended without Final event"

  /** A guard on length alone, with or without a pattern. */
  function RuleBased(minChars: nat, pattern: Option<Text -> bool>): Guard {
    Guard(
      (_, _, text) => Ok(if |text| < minChars then 0.0 else if pattern.Some? && !pattern.value(text) then 0.0 else 1.0),
      (_, _, _, text) => Ok(if |text| < minChars || (pattern.Some? && !pattern.value(text)) then None else Some(1.0)))
  }

  /** u8 addition that saturates. */
  function DepthAt(c: Caller, offset: nat): nat { SaturatingAdd(c.startingDepth, offset, U8_MAX) }

  function Revised(c: Caller, messages: seq<Message>, out: Output): seq<Message> {
    messages + [Message(Assistant, out.text), Message(User, c.revision)]
  }

  // ----- One inner call -----

  datatype Turn = Stop(result: Result<Output, string>) | Retry(out: Output)

  /** Accept at the threshold, or when there is no retry left. */
  function Judge(c: Caller, offset: nat, out: Output): Turn {
    match c.guard.evaluate(offset, DepthAt(c, offset), out.text)
    case Err(e) => Stop(Err(e))
    case Ok(conf) => if conf >= c.minConfidence || offset >= c.maxDepth then Stop(Ok(out)) else Retry(out)
  }

  function RunTurn(c: Caller, offset: nat, messages: seq<Message>): Turn {
    match c.run(offset, DepthAt(c, offset), messages)
    case Err(e) => Stop(Err(e))
    case Ok(out) => Judge(c, offset, out)
  }

  datatype Scan = Scan(
      accumulated: Text, asked: nat, captured: Option<Output>, early: Option<real>, failure: Option<string>,
      emitted: seq<OrchEvent>)

  predicate Over(s: Scan) { s.early.Some? || s.failure.Some? }

  function ScanOne(c: Caller, offset: nat, s: Scan, item: Result<OrchEvent, string>): Scan {
    match item
    case Err(e) => s.(failure := Some(e))
    case Ok(Final(out)) => s.(captured := Some(out))
    case Ok(AssistantText(step, delta)) =>
      var s' := s.(accumulated := s.accumulated + delta, asked := s.asked + 1,
                   emitted := s.emitted + [AssistantText(step, delta)]);
      (match c.guard.streaming(offset, DepthAt(c, offset), s.asked, s'.accumulated)
       case Err(e) => s'.(failure := Some(e))
       case Ok(None) => s'
       case Ok(Some(score)) => if score >= c.minConfidence then s'.(early := Some(score)) else s')
    case Ok(ev) => s.(emitted := s.emitted + [ev])
  }

  /** The first n items of an inner stream, up to an early stop or an error. */
  function ScanTo(c: Caller, offset: nat, items: Inner, n: nat): Scan
    requires n <= |items|
  {
    if n == 0 then Scan([], 0, None, None, None, [])
    else
      var before := ScanTo(c, offset, items, n - 1);
      if Over(before) then before else ScanOne(c, offset, before, items[n - 1])
  }

  function Synthesised(text: Text): Output { Output(text, Message(Assistant, text), NO_USAGE, 1) }

  datatype StreamedTurn = StreamedTurn(turn: Turn, events: seq<OrchEvent>)

  function Ended(turn: Turn, events: seq<OrchEvent>): StreamedTurn {
    StreamedTurn(turn, events + if turn.Stop? && turn.result.Ok? then [Final(turn.result.value)] else [])
  }

  function StreamTurn(c: Caller, offset: nat, messages: seq<Message>): StreamedTurn {
    var depth := DepthAt(c, offset);
    var items := c.stream(offset, depth, messages);
    var s := ScanTo(c, offset, items, |items|);
    if s.failure.Some? then StreamedTurn(Stop(Err(s.failure.value)), s.emitted)
    else if s.early.Some? then
      Ended(Stop(Ok(Synthesised(s.accumulated))), s.emitted + [Recursion(depth, s.early.value)])
    else
      match s.captured
      case None => StreamedTurn(Stop(Err(NO_FINAL)), s.emitted)
      case Some(out) =>
        match c.guard.evaluate(offset, depth, out.text)
        case Err(e) => StreamedTurn(Stop(Err(e)), s.emitted)
        case Ok(conf) => Ended(Judge(c, offset, out), s.emitted + [Recursion(depth, conf)])
  }

  // ----- The recursion -----

  datatype Mode = Buffered | Streamed

  function TurnOf(c: Caller, mode: Mode, offset: nat, messages: seq<Message>): Turn {
    if mode.Buffered? then RunTurn(c, offset, messages) else StreamTurn(c, offset, messages).turn
  }

  datatype InnerCall = InnerCall(depth: nat, messages: seq<Message>)

  datatype Outcome = Outcome(result: Result<Output, string>, calls: seq<InnerCall>)

  lemma {:induction false} LastTurnStops(c: Caller, mode: Mode, offset: nat, messages: seq<Message>)
    ensures offset >= c.maxDepth ==> TurnOf(c, mode, offset, messages).Stop?
  {
  }

  /** The calls from `offset` on and how they end. */
  function CallFrom(c: Caller, mode: Mode, offset: nat, messages: seq<Message>): Outcome
    requires offset <= c.maxDepth
    decreases c.maxDepth - offset
  {
    var here := InnerCall(DepthAt(c, offset), messages);
    match TurnOf(c, mode, offset, messages)
    case Stop(result) => Outcome(result, [here])
    case Retry(out) =>
      LastTurnStops(c, mode, offset, messages);
      var rest := CallFrom(c, mode, offset + 1, Revised(c, messages, out));
      rest.(calls := [here] + rest.calls)
  }

  function EventsFrom(c: Caller, offset: nat, messages: seq<Message>): seq<OrchEvent>
    requires offset <= c.maxDepth
    decreases c.maxDepth - offset
  {
    var t := StreamTurn(c, offset, messages);
    match t.turn
    case Stop(_) => t.events
    case Retry(out) =>
      LastTurnStops(c, Streamed, offset, messages);
      t.events + EventsFrom(c, offset + 1, Revised(c, messages, out))
  }

  lemma {:induction false} CallOnce(c: Caller, mode: Mode, offset: nat, messages: seq<Message>)
    requires offset <= c.maxDepth
    ensures var t, o := TurnOf(c, mode, offset, messages), CallFrom(c, mode, offset, messages);
            var here := InnerCall(DepthAt(c, offset), messages);
            match t
            case Stop(r) => o == Outcome(r, [here])
            case Retry(out) =>
              && offset < c.maxDepth
              && var rest := CallFrom(c, mode, offset + 1, Revised(c, messages, out));
                 o == Outcome(rest.result, [here] + rest.calls)
  {
    LastTurnStops(c, mode, offset, messages);
    hide TurnOf, Revised;
  }

  lemma {:induction false} EventsOnce(c: Caller, offset: nat, messages: seq<Message>)
    requires offset <= c.maxDepth
    ensures var t := StreamTurn(c, offset, messages);
            && TurnOf(c, Streamed, offset, messages) == t.turn
            && match t.turn
               case Stop(_) => EventsFrom(c, offset, messages) == t.events
               case Retry(out) =>
                 && offset < c.maxDepth
                 && EventsFrom(c, offset, messages) == t.events + EventsFrom(c, offset + 1, Revised(c, messages, out))
  {
    LastTurnStops(c, Streamed, offset, messages);
    hide StreamTurn, Revised;
  }

  // ----- The two loops -----

  /** Returns at the last offset at the latest: the code after the source's loop is dead. */
  method Run(c: Caller, input: seq<Message>) returns (r: Result<Output, string>, ghost calls: seq<InnerCall>)
    ensures r == CallFrom(c, Buffered, 0, input).result
    ensures calls == CallFrom(c, Buffered, 0, input).calls
  {
    var current, offset := input, 0;
    calls := [];
    while true
      invariant offset <= c.maxDepth
      invariant CallFrom(c, Buffered, 0, input) ==
        var rest := CallFrom(c, Buffered, offset, current); rest.(calls := calls + rest.calls)
      decreases c.maxDepth - offset
    {
      var depth := SaturatingAdd(c.startingDepth, offset, U8_MAX);
      calls := calls + [InnerCall(depth, current)];
      var ran := c.run(offset, depth, current);
      if ran.Err? { return Err(ran.error), calls; }
      var out := ran.value;
      var conf := c.guard.evaluate(offset, depth, out.text);
      if conf.Err? { return Err(conf.error), calls; }
      if conf.value >= c.minConfidence || offset >= c.maxDepth { return Ok(out), calls; }
      current := current + [Message(Assistant, out.text), Message(User, c.revision)];
      offset := offset + 1;
    }
  }

  /** Reads an inner stream until the guard is satisfied, it fails or it ends. */
  method ReadInner(c: Caller, offset: nat, items: Inner) returns (s: Scan)
    ensures s == ScanTo(c, offset, items, |items|)
  {
    s := Scan([], 0, None, None, None, []);
    for n := 0 to |items|
      invariant s == ScanTo(c, offset, items, n) && !Over(s)
    {
      match items[n] {
      case Err(e) => s := s.(failure := Some(e));
      case Ok(Final(out)) => s := s.(captured := Some(out));
      case Ok(AssistantText(step, delta)) =>
        var asked := c.guard.streaming(offset, DepthAt(c, offset), s.asked, s.accumulated + delta);
        s := s.(accumulated := s.accumulated + delta, asked := s.asked + 1,
                emitted := s.emitted + [AssistantText(step, delta)]);
        if asked.Err? {
          s := s.(failure := Some(asked.error));
        } else if asked.value.Some? && asked.value.value >= c.minConfidence {
          s := s.(early := asked.value);
        }
      case Ok(ev) => s := s.(emitted := s.emitted + [ev]);
      }
      if Over(s) {
        OverStays(c, offset, items, n + 1);
        return;
      }
    }
  }

  lemma {:induction false} OverStays(c: Caller, offset: nat, items: Inner, n: nat)
    requires n <= |items| && Over(ScanTo(c, offset, items, n))
    ensures ScanTo(c, offset, items, |items|) == ScanTo(c, offset, items, n)
    decreases |items| - n
  {
    if n < |items| { OverStays(c, offset, items, n + 1); }
  }

  /** The streamed loop around one inner call. */
  method StreamOnce(c: Caller, offset: nat, current: seq<Message>) returns (t: StreamedTurn)
    ensures t == StreamTurn(c, offset, current)
  {
    var depth := SaturatingAdd(c.startingDepth, offset, U8_MAX);
    var s := ReadInner(c, offset, c.stream(offset, depth, current));
    if s.failure.Some? { return StreamedTurn(Stop(Err(s.failure.value)), s.emitted); }
    if s.early.Some? {
      var out := Output(s.accumulated, Message(Assistant, s.accumulated), NO_USAGE, 1);
      return StreamedTurn(Stop(Ok(out)), s.emitted + [Recursion(depth, s.early.value)] + [Final(out)]);
    }
    if s.captured.None? { return StreamedTurn(Stop(Err(NO_FINAL)), s.emitted); }
    var out := s.captured.value;
    var conf := c.guard.evaluate(offset, depth, out.text);
    if conf.Err? { return StreamedTurn(Stop(Err(conf.error)), s.emitted); }
    var shown := s.emitted + [Recursion(depth, conf.value)];
    if conf.value >= c.minConfidence || offset >= c.maxDepth {
      return StreamedTurn(Stop(Ok(out)), shown + [Final(out)]);
    }
    t := StreamedTurn(Retry(out), shown);
    assert shown + [] == shown;
  }

  method Stream(c: Caller, input: seq<Message>)
    returns (events: seq<OrchEvent>, r: Result<Output, string>, ghost calls: seq<InnerCall>)
    ensures events == EventsFrom(c, 0, input)
    ensures r == CallFrom(c, Streamed, 0, input).result
    ensures calls == CallFrom(c, Streamed, 0, input).calls
  {
    hide *;
    var current, offset := input, 0;
    events, calls := [], [];
    while true
      invariant offset <= c.maxDepth
      invariant EventsFrom(c, 0, input) == events + EventsFrom(c, offset, current)
      invariant CallFrom(c, Streamed, 0, input) ==
        var rest := CallFrom(c, Streamed, offset, current); rest.(calls := calls + rest.calls)
      decreases c.maxDepth - offset
    {
      CallOnce(c, Streamed, offset, current);
      EventsOnce(c, offset, current);
      var t := StreamOnce(c, offset, current);
      calls := calls + [InnerCall(DepthAt(c, offset), current)];
      match t.turn {
        case Stop(result) => return events + t.events, result, calls;
        case Retry(out) =>
          var next := Revised(c, current, out);
          ConcatAssoc(events, t.events, EventsFrom(c, offset + 1, next));
          events := events + t.events;
          current := next;
          offset := offset + 1;
      }
    }
  }
}
