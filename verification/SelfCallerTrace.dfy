/** What a self-caller run does, inner call by inner call, on what the inner orchestrator and the
    guard answer. The functions of the loops are not used to say it. */
module SelfCallerTrace {
  import opened Prelude
  import opened SelfCaller
  import opened SelfCallerRuns

  /** The input after some rejected outputs: each is appended as the assistant's, and the revision
      prompt after it as the user's. */
  ghost function After(c: Caller, input: seq<Message>, outs: seq<Output>): seq<Message> {
    if outs == [] then input
    else
      After(c, input, outs[..|outs| - 1])
      + [Message(Assistant, outs[|outs| - 1].text)] + [Message(User, c.revision)]
  }

  /** The depth of inner call i, which a u8 holds. */
  ghost function Depth(c: Caller, i: nat): nat {
    if c.startingDepth + i <= 255 then c.startingDepth + i else 255
  }

  // ----- One inner call -----

  /** Rejected below the threshold while there is a retry left, accepted otherwise. */
  ghost predicate Judged(c: Caller, i: nat, out: Output, t: Turn) {
    match c.guard.evaluate(i, Depth(c, i), out.text)
    case Err(e) => t == Stop(Err(e))
    case Ok(x) => if x < c.minConfidence && i < c.maxDepth then t == Retry(out) else t == Stop(Ok(out))
  }

  ghost predicate Ran(c: Caller, i: nat, messages: seq<Message>, t: Turn) {
    match c.run(i, Depth(c, i), messages)
    case Err(e) => t == Stop(Err(e))
    case Ok(out) => Judged(c, i, out, t)
  }

  /** What the guard says of the text up to and with delta `items[j]`. */
  ghost function Asked(c: Caller, i: nat, items: Inner, j: nat): Result<Option<real>, string>
    requires j < |items|
  {
    c.guard.streaming(i, Depth(c, i), |DeltasTo(items, j)|, Concat(DeltasTo(items, j + 1)))
  }

  ghost predicate IsDelta(item: Result<OrchEvent, string>) { item.Ok? && item.value.AssistantText? }

  /** Reading goes on after item j: no error, and no delta that satisfies the guard or fails it. */
  ghost predicate GoesOn(c: Caller, i: nat, items: Inner, j: nat)
    requires j < |items|
  {
    && items[j].Ok?
    && (IsDelta(items[j]) ==>
          && Asked(c, i, items, j).Ok?
          && (Asked(c, i, items, j).value.Some? ==> Asked(c, i, items, j).value.value < c.minConfidence))
  }

  /** What is passed on of the first n items: everything but the inner Finals. */
  ghost function PassedOn(items: Inner, n: nat): seq<OrchEvent>
    requires n <= |items|
  {
    if n == 0 then []
    else PassedOn(items, n - 1) + if items[n - 1].Ok? && !items[n - 1].value.Final? then [items[n - 1].value] else []
  }

  /** Item n is the first after which reading does not go on. */
  ghost predicate StopsAt(c: Caller, i: nat, items: Inner, n: nat, t: Turn, events: seq<OrchEvent>)
    requires n < |items|
  {
    && (forall j: nat :: j < n ==> GoesOn(c, i, items, j))
    && if items[n].Err? then t == Stop(Err(items[n].error)) && events == PassedOn(items, n)
       else
         && IsDelta(items[n])
         && match Asked(c, i, items, n)
            case Err(e) => t == Stop(Err(e)) && events == PassedOn(items, n + 1)
            case Ok(None) => false
            case Ok(Some(x)) =>
              var text := Concat(DeltasTo(items, n + 1));
              var out := Output(text, Message(Assistant, text), Usage(0, 0), 1);
              && x >= c.minConfidence && t == Stop(Ok(out))
              && events == PassedOn(items, n + 1) + [Recursion(Depth(c, i), x)] + [Final(out)]
  }

  /** The whole inner stream is read: its last Final, if it had one, is judged. */
  ghost predicate ReadsAll(c: Caller, i: nat, items: Inner, t: Turn, events: seq<OrchEvent>) {
    && (forall j: nat :: j < |items| ==> GoesOn(c, i, items, j))
    && var finals := FinalsTo(items, |items|);
       if finals == [] then
         t == Stop(Err("SelfCaller: inner stream ended without Final event")) && events == PassedOn(items, |items|)
       else
         var out := finals[|finals| - 1];
         && Judged(c, i, out, t)
         && events == PassedOn(items, |items|)
              + (match c.guard.evaluate(i, Depth(c, i), out.text)
                 case Err(_) => []
                 case Ok(x) => [Recursion(Depth(c, i), x)] + if t.Stop? then [Final(out)] else [])
  }

  ghost predicate Streamed(c: Caller, i: nat, messages: seq<Message>, t: Turn, events: seq<OrchEvent>) {
    var items := c.stream(i, Depth(c, i), messages);
    || ReadsAll(c, i, items, t, events)
    || exists n: nat :: n < |items| && StopsAt(c, i, items, n, t, events)
  }

  lemma {:induction false} JudgeJudges(c: Caller, i: nat, out: Output)
    ensures Depth(c, i) == DepthAt(c, i) && Judged(c, i, out, Judge(c, i, out))
  {
  }

  lemma {:induction false} RunTurnRan(c: Caller, i: nat, messages: seq<Message>)
    ensures Ran(c, i, messages, RunTurn(c, i, messages))
  {
    assert Depth(c, i) == DepthAt(c, i);
    if c.run(i, DepthAt(c, i), messages).Ok? { JudgeJudges(c, i, c.run(i, DepthAt(c, i), messages).value); }
    hide Judged, Judge;
  }

  // ----- Reading an inner stream -----

  /** After n items, all of which it went on after. */
  ghost predicate Reading(c: Caller, i: nat, items: Inner, n: nat, s: Scan)
    requires n <= |items|
  {
    && !Over(s) && (forall j: nat :: j < n ==> GoesOn(c, i, items, j))
    && s.accumulated == Concat(DeltasTo(items, n)) && s.asked == |DeltasTo(items, n)|
    && s.captured == LastOf(FinalsTo(items, n)) && s.emitted == PassedOn(items, n)
  }

  /** It stopped at item n. */
  ghost predicate Stopped(c: Caller, i: nat, items: Inner, n: nat, s: Scan)
    requires n < |items|
  {
    && (forall j: nat :: j < n ==> GoesOn(c, i, items, j))
    && if items[n].Err? then s.failure == Some(items[n].error) && s.emitted == PassedOn(items, n)
       else
         && IsDelta(items[n]) && s.emitted == PassedOn(items, n + 1)
         && s.accumulated == Concat(DeltasTo(items, n + 1))
         && match Asked(c, i, items, n)
            case Err(e) => s.failure == Some(e)
            case Ok(None) => false
            case Ok(Some(x)) => x >= c.minConfidence && s.failure.None? && s.early == Some(x)
  }

  lemma {:induction false} ScanReads(c: Caller, i: nat, items: Inner, n: nat) returns (at: nat)
    requires n <= |items|
    ensures var s := ScanTo(c, i, items, n);
            if Over(s) then at < n && Stopped(c, i, items, at, s) else Reading(c, i, items, n, s)
  {
    at := 0;
    if n > 0 {
      at := ScanReads(c, i, items, n - 1);
      ScanToOnce(c, i, items, n);
      var before := ScanTo(c, i, items, n - 1);
      hide *;
      if !Over(before) {
        at := n - 1;
        ReadOneMore(c, i, items, n - 1, before);
      }
    } else {
      assert Concat([]) == [];
      hide GoesOn;
    }
  }

  lemma {:induction false} ReadOneMore(c: Caller, i: nat, items: Inner, n: nat, s: Scan)
    requires n < |items| && Reading(c, i, items, n, s)
    ensures var s' := ScanOne(c, i, s, items[n]);
            if Over(s') then Stopped(c, i, items, n, s') else Reading(c, i, items, n + 1, s')
  {
    var item := items[n];
    assert Depth(c, i) == DepthAt(c, i);
    OneItemMore(items, n);
    hide DeltasTo, FinalsTo, PassedOn, Concat;
    if IsDelta(item) {
      assert item == Ok(AssistantText(item.value.step, item.value.delta));
      assert s.accumulated + item.value.delta == Concat(DeltasTo(items, n + 1));
      assert Asked(c, i, items, n) == c.guard.streaming(i, DepthAt(c, i), s.asked, s.accumulated + item.value.delta);
    }
  }

  lemma {:induction false} OneItemMore(items: Inner, n: nat)
    requires n < |items|
    ensures var item := items[n];
            && (IsDelta(item) ==>
                  && Concat(DeltasTo(items, n + 1)) == Concat(DeltasTo(items, n)) + item.value.delta
                  && |DeltasTo(items, n + 1)| == |DeltasTo(items, n)| + 1)
            && (!IsDelta(item) ==> DeltasTo(items, n + 1) == DeltasTo(items, n))
            && LastOf(FinalsTo(items, n + 1)) ==
               (if item.Ok? && item.value.Final? then Some(item.value.output) else LastOf(FinalsTo(items, n)))
            && PassedOn(items, n + 1) ==
               PassedOn(items, n) + if item.Ok? && !item.value.Final? then [item.value] else []
  {
    if IsDelta(items[n]) { EnoughOneMore(DeltasTo(items, n), items[n].value.delta, 0); }
    hide Concat, Enough;
  }

  lemma {:induction false} StreamTurnStreamed(c: Caller, i: nat, messages: seq<Message>)
    ensures Streamed(c, i, messages, StreamTurn(c, i, messages).turn, StreamTurn(c, i, messages).events)
  {
    var items := c.stream(i, DepthAt(c, i), messages);
    var s := ScanTo(c, i, items, |items|);
    var at := ScanReads(c, i, items, |items|);
    assert Depth(c, i) == DepthAt(c, i);
    if Over(s) {
      StoppedTurn(c, i, messages, items, at, s);
    } else {
      AllRead(c, i, messages, items, s);
    }
    hide ScanTo, StreamTurn, ReadsAll, StopsAt, Reading, Stopped;
  }

  lemma {:induction false} StoppedTurn(c: Caller, i: nat, messages: seq<Message>, items: Inner, n: nat, s: Scan)
    requires items == c.stream(i, DepthAt(c, i), messages) && s == ScanTo(c, i, items, |items|)
    requires n < |items| && Over(s) && Stopped(c, i, items, n, s)
    ensures var t := StreamTurn(c, i, messages); StopsAt(c, i, items, n, t.turn, t.events)
  {
    assert Depth(c, i) == DepthAt(c, i);
    hide ScanTo, GoesOn, PassedOn, DeltasTo, Concat, Asked;
    if s.failure.None? {
      var text, score := s.accumulated, Recursion(Depth(c, i), s.early.value);
      var t := StreamTurn(c, i, messages);
      assert t.events == (s.emitted + [score]) + [Final(Synthesised(text))];
    }
  }

  lemma {:induction false} AllRead(c: Caller, i: nat, messages: seq<Message>, items: Inner, s: Scan)
    requires items == c.stream(i, DepthAt(c, i), messages) && s == ScanTo(c, i, items, |items|)
    requires Reading(c, i, items, |items|, s)
    ensures var t := StreamTurn(c, i, messages); ReadsAll(c, i, items, t.turn, t.events)
  {
    assert Depth(c, i) == DepthAt(c, i);
    if s.captured.Some? {
      JudgeJudges(c, i, s.captured.value);
      JudgedEvents(c, i, s.captured.value, s.emitted);
    }
    hide ScanTo, GoesOn, PassedOn, DeltasTo, FinalsTo, Concat, Asked, Judged, Judge;
  }

  lemma {:induction false} JudgedEvents(c: Caller, i: nat, out: Output, emitted: seq<OrchEvent>)
    ensures match c.guard.evaluate(i, DepthAt(c, i), out.text)
            case Err(e) => Judge(c, i, out) == Stop(Err(e)) && emitted + [] == emitted
            case Ok(x) =>
              var t, score := Judge(c, i, out), Recursion(DepthAt(c, i), x);
              && (t.Stop? ==> t == Stop(Ok(out)))
              && Ended(t, emitted + [score]).events == emitted + ([score] + if t.Stop? then [Final(out)] else [])
  {
  }

  // ----- Whole runs -----

  ghost predicate Turned(
      c: Caller, mode: Mode, i: nat, messages: seq<Message>, t: Turn, events: seq<OrchEvent>)
  {
    if mode.Buffered? then Ran(c, i, messages, t) else Streamed(c, i, messages, t, events)
  }

  /** The rejected outputs, the last turn, and what each turn shows on a stream. */
  ghost predicate IsTrace(
      c: Caller, mode: Mode, input: seq<Message>, outs: seq<Output>, parts: seq<seq<OrchEvent>>,
      r: Result<Output, string>, calls: seq<InnerCall>)
  {
    && |outs| <= c.maxDepth && |parts| == |calls| == |outs| + 1
    && (forall i: nat :: i <= |outs| ==> calls[i] == InnerCall(Depth(c, i), After(c, input, outs[..i])))
    && (forall i: nat :: i < |outs| ==> Turned(c, mode, i, After(c, input, outs[..i]), Retry(outs[i]), parts[i]))
    && Turned(c, mode, |outs|, After(c, input, outs), Stop(r), parts[|outs|])
  }

  ghost function Flat(parts: seq<seq<OrchEvent>>): seq<OrchEvent> {
    if parts == [] then [] else parts[0] + Flat(parts[1..])
  }

  lemma {:induction false} TurnTurned(c: Caller, mode: Mode, i: nat, messages: seq<Message>)
    ensures Turned(c, mode, i, messages, TurnOf(c, mode, i, messages), StreamTurn(c, i, messages).events)
  {
    RunTurnRan(c, i, messages);
    StreamTurnStreamed(c, i, messages);
    hide RunTurn, StreamTurn, Ran, Streamed;
  }

  /** The rest of a run after some rejected outputs. */
  ghost predicate IsTail(
      c: Caller, mode: Mode, input: seq<Message>, outs: seq<Output>, from: nat, parts: seq<seq<OrchEvent>>,
      r: Result<Output, string>, calls: seq<InnerCall>)
  {
    && from <= |outs| <= c.maxDepth && |parts| == |calls| == |outs| - from + 1
    && (forall i: nat :: from <= i <= |outs| ==>
          calls[i - from] == InnerCall(Depth(c, i), After(c, input, outs[..i])))
    && (forall i: nat :: from <= i < |outs| ==>
          Turned(c, mode, i, After(c, input, outs[..i]), Retry(outs[i]), parts[i - from]))
    && Turned(c, mode, |outs|, After(c, input, outs), Stop(r), parts[|outs| - from])
  }

  lemma {:induction false} TailFrom(c: Caller, mode: Mode, input: seq<Message>, outs: seq<Output>)
    returns (all: seq<Output>, parts: seq<seq<OrchEvent>>)
    requires |outs| <= c.maxDepth
    ensures var o := CallFrom(c, mode, |outs|, After(c, input, outs));
            IsTail(c, mode, input, all, |outs|, parts, o.result, o.calls)
    ensures |outs| <= |all| && all[..|outs|] == outs
    ensures mode.Streamed? ==> EventsFrom(c, |outs|, After(c, input, outs)) == Flat(parts)
    decreases c.maxDepth - |outs|
  {
    hide *;
    var i, messages := |outs|, After(c, input, outs);
    var t, part := TurnOf(c, mode, i, messages), StreamTurn(c, i, messages).events;
    CallOnce(c, mode, i, messages);
    EventsOnce(c, i, messages);
    TurnTurned(c, mode, i, messages);
    all, parts := outs, [part];
    assert outs[..i] == outs;
    if t.Stop? {
      TailEnds(c, mode, input, outs, t.result, part);
    } else {
      OneRejected(c, input, outs, t.out);
      var rest;
      all, rest := TailFrom(c, mode, input, outs + [t.out]);
      parts := [part] + rest;
      assert all[..i] == all[..|outs + [t.out]|][..i] == outs;
      assert all[i] == all[..|outs + [t.out]|][i] == t.out;
      var o := CallFrom(c, mode, i + 1, Revised(c, messages, t.out));
      TailLonger(c, mode, input, all, i, part, rest, o);
    }
  }

  lemma {:induction false} OneRejected(c: Caller, input: seq<Message>, outs: seq<Output>, out: Output)
    ensures After(c, input, outs + [out]) == Revised(c, After(c, input, outs), out)
  {
    assert (outs + [out])[..|outs|] == outs;
    var before := After(c, input, outs);
    assert before + [Message(Assistant, out.text)] + [Message(User, c.revision)] ==
      before + [Message(Assistant, out.text), Message(User, c.revision)];
  }

  lemma {:induction false} TailEnds(
      c: Caller, mode: Mode, input: seq<Message>, outs: seq<Output>, r: Result<Output, string>, part: seq<OrchEvent>)
    requires |outs| <= c.maxDepth && Turned(c, mode, |outs|, After(c, input, outs), Stop(r), part)
    ensures IsTail(c, mode, input, outs, |outs|, [part], r, [InnerCall(DepthAt(c, |outs|), After(c, input, outs))])
    ensures Flat([part]) == part
  {
    hide Turned, After;
    assert outs[..|outs|] == outs;
    assert [part][1..] == [] && Flat([]) == [];
  }

  lemma {:induction false} TailLonger(
      c: Caller, mode: Mode, input: seq<Message>, all: seq<Output>, i: nat, part: seq<OrchEvent>,
      rest: seq<seq<OrchEvent>>, o: Outcome)
    requires i < |all| && IsTail(c, mode, input, all, i + 1, rest, o.result, o.calls)
    requires Turned(c, mode, i, After(c, input, all[..i]), Retry(all[i]), part)
    ensures IsTail(c, mode, input, all, i, [part] + rest, o.result,
                   [InnerCall(DepthAt(c, i), After(c, input, all[..i]))] + o.calls)
    ensures Flat([part] + rest) == part + Flat(rest)
  {
    hide Turned, After;
    var parts, calls := [part] + rest, [InnerCall(DepthAt(c, i), After(c, input, all[..i]))] + o.calls;
    assert parts[1..] == rest;
    assert calls[1..] == o.calls;
  }

  /** Every run has a trace: at most maxDepth + 1 inner calls, at depths that saturate, on the input
      and what each rejection adds to it; each call is read, judged and shown as said. */
  lemma {:induction false} EveryRunHasATrace(c: Caller, mode: Mode, input: seq<Message>)
    returns (outs: seq<Output>, parts: seq<seq<OrchEvent>>)
    ensures var o := CallFrom(c, mode, 0, input);
            && IsTrace(c, mode, input, outs, parts, o.result, o.calls)
            && (mode.Streamed? ==> EventsFrom(c, 0, input) == Flat(parts))
  {
    assert After(c, input, []) == input;
    hide CallFrom, EventsFrom, Turned, After;
    outs, parts := TailFrom(c, mode, input, []);
  }
}
