/** What every self-caller run keeps, and how far its streamed form agrees with the buffered
    one when the guard looks at length alone. */
module SelfCallerRuns {
  import opened Prelude
  import opened SelfCaller

  // ----- Every run -----

  /** At most maxDepth + 1 inner calls, whatever depth the caller started at; each retry extends
      the previous input by its rejected answer and the revision prompt; the last call decides. */
  lemma {:induction false} EveryRun(c: Caller, mode: Mode, offset: nat, messages: seq<Message>)
    requires offset <= c.maxDepth
    ensures Legal(c, mode, offset, messages, CallFrom(c, mode, offset, messages))
    decreases c.maxDepth - offset
  {
    CallOnce(c, mode, offset, messages);
    var t, here := TurnOf(c, mode, offset, messages), InnerCall(DepthAt(c, offset), messages);
    if t.Stop? {
      hide TurnOf, CallFrom;
    } else {
      hide *;
      var next := Revised(c, messages, t.out);
      EveryRun(c, mode, offset + 1, next);
      LegalBefore(c, mode, offset, messages, here, CallFrom(c, mode, offset + 1, next));
    }
  }

  ghost predicate Legal(c: Caller, mode: Mode, offset: nat, messages: seq<Message>, o: Outcome) {
    && 1 <= |o.calls| <= c.maxDepth - offset + 1
    && o.calls[0].messages == messages
    && (forall i :: 0 <= i < |o.calls| ==> o.calls[i].depth == DepthAt(c, offset + i))
    && (forall i :: 0 < i < |o.calls| ==> Follows(c, mode, offset, o.calls, i))
    && TurnOf(c, mode, offset + |o.calls| - 1, o.calls[|o.calls| - 1].messages) == Stop(o.result)
  }

  lemma {:induction false} LegalBefore(
      c: Caller, mode: Mode, offset: nat, messages: seq<Message>, here: InnerCall, rest: Outcome)
    requires TurnOf(c, mode, offset, messages).Retry? && here == InnerCall(DepthAt(c, offset), messages)
    requires Legal(c, mode, offset + 1, Revised(c, messages, TurnOf(c, mode, offset, messages).out), rest)
    ensures Legal(c, mode, offset, messages, Outcome(rest.result, [here] + rest.calls))
  {
    hide TurnOf, Revised, DepthAt, Follows;
    FollowsOn(c, mode, offset, offset + 1, messages, rest.calls);
    forall i | 0 <= i < |rest.calls| + 1 ensures ([here] + rest.calls)[i].depth == DepthAt(c, offset + i) {
      if i > 0 { assert rest.calls[i - 1].depth == DepthAt(c, offset + 1 + (i - 1)); }
    }
  }

  lemma {:induction false} FollowsOn(
      c: Caller, mode: Mode, offset: nat, later: nat, messages: seq<Message>, rest: seq<InnerCall>)
    requires later == offset + 1 && rest != [] && TurnOf(c, mode, offset, messages).Retry?
    requires rest[0].messages == Revised(c, messages, TurnOf(c, mode, offset, messages).out)
    requires forall i :: 0 < i < |rest| ==> Follows(c, mode, later, rest, i)
    ensures var calls := [InnerCall(DepthAt(c, offset), messages)] + rest;
            forall i :: 0 < i < |calls| ==> Follows(c, mode, offset, calls, i)
  {
    hide TurnOf;
    var calls := [InnerCall(DepthAt(c, offset), messages)] + rest;
    forall i | 0 < i < |calls| ensures Follows(c, mode, offset, calls, i) {
      if i > 1 { assert Follows(c, mode, later, rest, i - 1); }
    }
  }

  ghost predicate Follows(c: Caller, mode: Mode, offset: nat, calls: seq<InnerCall>, i: nat)
    requires 0 < i < |calls|
  {
    var t := TurnOf(c, mode, offset + i - 1, calls[i - 1].messages);
    && t.Retry?
    && calls[i].messages == calls[i - 1].messages + [Message(Assistant, t.out.text), Message(User, c.revision)]
  }

  function FinalOf(e: OrchEvent): seq<Output> { if e.Final? then [e.output] else [] }

  function Finals(events: seq<OrchEvent>): seq<Output> { Collect(events, FinalOf) }

  lemma {:induction false} ScanEmits(c: Caller, offset: nat, s: Scan, item: Result<OrchEvent, string>)
    ensures var s' := ScanOne(c, offset, s, item);
            s'.emitted == s.emitted || exists e: OrchEvent :: !e.Final? && s'.emitted == s.emitted + [e]
  {
  }

  lemma {:induction false} InnerFinalsHeld(c: Caller, offset: nat, items: Inner, n: nat)
    requires n <= |items|
    ensures Finals(ScanTo(c, offset, items, n).emitted) == []
  {
    if n == 0 {
      CollectOne(Recursion(0, 0.0), FinalOf);
    } else {
      InnerFinalsHeld(c, offset, items, n - 1);
      ScanToOnce(c, offset, items, n);
      var before, s := ScanTo(c, offset, items, n - 1), ScanTo(c, offset, items, n);
      hide *;
      if !Over(before) {
        ScanEmits(c, offset, before, items[n - 1]);
        if s.emitted != before.emitted {
          var e: OrchEvent :| !e.Final? && s.emitted == before.emitted + [e];
          CollectConcat(before.emitted, [e], FinalOf);
          CollectOne(e, FinalOf);
        }
      }
    }
  }

  lemma {:induction false} ScanToOnce(c: Caller, offset: nat, items: Inner, n: nat)
    requires 0 < n <= |items|
    ensures var before := ScanTo(c, offset, items, n - 1);
            ScanTo(c, offset, items, n) == if Over(before) then before else ScanOne(c, offset, before, items[n - 1])
  {
    hide ScanOne;
  }

  lemma {:induction false} TurnFinals(c: Caller, offset: nat, messages: seq<Message>)
    ensures var t := StreamTurn(c, offset, messages);
            Finals(t.events) == if t.turn.Stop? && t.turn.result.Ok? then [t.turn.result.value] else []
  {
    var t := StreamTurn(c, offset, messages);
    var items := c.stream(offset, DepthAt(c, offset), messages);
    var s := ScanTo(c, offset, items, |items|);
    InnerFinalsHeld(c, offset, items, |items|);
    if t.events != s.emitted {
      var score := t.events[|s.emitted|];
      var end := if t.turn.Stop? && t.turn.result.Ok? then [Final(t.turn.result.value)] else [];
      assert t.events == s.emitted + [score] + end;
      hide StreamTurn, ScanTo, Collect;
      CollectConcat(s.emitted + [score], end, FinalOf);
      CollectConcat(s.emitted, [score], FinalOf);
      CollectOne(score, FinalOf);
      if end != [] { CollectOne(end[0], FinalOf); }
    }
  }

  /** The stream ends with one Final, the result, if there is one; none otherwise. */
  lemma {:induction false} OneFinalAtTheEnd(c: Caller, offset: nat, messages: seq<Message>)
    requires offset <= c.maxDepth
    ensures var r := CallFrom(c, Streamed, offset, messages).result;
            var events := EventsFrom(c, offset, messages);
            && Finals(events) == (if r.Ok? then [r.value] else [])
            && (r.Ok? ==> events != [] && events[|events| - 1] == Final(r.value))
    decreases c.maxDepth - offset
  {
    hide *;
    CallOnce(c, Streamed, offset, messages);
    EventsOnce(c, offset, messages);
    TurnFinals(c, offset, messages);
    var t := StreamTurn(c, offset, messages);
    if t.turn.Retry? {
      var next := Revised(c, messages, t.turn.out);
      OneFinalAtTheEnd(c, offset + 1, next);
      FinalsJoined(t.events, EventsFrom(c, offset + 1, next));
    } else {
      LastIsFinal(c, offset, messages);
    }
  }

  lemma {:induction false} FinalsJoined(a: seq<OrchEvent>, b: seq<OrchEvent>)
    ensures Finals(a + b) == Finals(a) + Finals(b)
    ensures b != [] ==> (a + b)[|a + b| - 1] == b[|b| - 1]
  {
    CollectConcat(a, b, FinalOf);
  }

  lemma {:induction false} LastIsFinal(c: Caller, offset: nat, messages: seq<Message>)
    ensures var t := StreamTurn(c, offset, messages);
            t.turn.Stop? && t.turn.result.Ok? ==>
              t.events != [] && t.events[|t.events| - 1] == Final(t.turn.result.value)
  {
    hide ScanTo;
  }

  // ----- A guard on length alone -----

  ghost predicate LengthOnly(g: Guard, minChars: nat) {
    && (forall offset: nat, depth: nat, text: Text ::
         g.evaluate(offset, depth, text) == Ok(if |text| < minChars then 0.0 else 1.0))
    && (forall offset: nat, depth: nat, k: nat, text: Text ::
         g.streaming(offset, depth, k, text) == Ok(if |text| < minChars then None else Some(1.0)))
  }

  lemma {:induction false} RuleBasedIsLengthOnly(minChars: nat)
    ensures LengthOnly(RuleBased(minChars, None), minChars)
  {
  }

  function Concat(deltas: seq<Text>): Text {
    if deltas == [] then [] else Concat(deltas[..|deltas| - 1]) + deltas[|deltas| - 1]
  }

  /** The deltas among the first n items. */
  function DeltasTo(items: Inner, n: nat): seq<Text>
    requires n <= |items|
  {
    if n == 0 then []
    else
      var item := items[n - 1];
      DeltasTo(items, n - 1) + if item.Ok? && item.value.AssistantText? then [item.value.delta] else []
  }

  function FinalsTo(items: Inner, n: nat): seq<Output>
    requires n <= |items|
  {
    if n == 0 then []
    else
      var item := items[n - 1];
      FinalsTo(items, n - 1) + if item.Ok? && item.value.Final? then [item.value.output] else []
  }

  /** The least number of deltas, at least one, that are long enough together. */
  function Enough(deltas: seq<Text>, minChars: nat): Option<nat> {
    if deltas == [] then None
    else
      var before := Enough(deltas[..|deltas| - 1], minChars);
      if before.Some? then before
      else if |Concat(deltas)| >= minChars then Some(|deltas|) else None
  }

  lemma {:induction false} EnoughIsLeast(deltas: seq<Text>, minChars: nat)
    ensures match Enough(deltas, minChars)
            case Some(m) =>
              && 1 <= m <= |deltas| && |Concat(deltas[..m])| >= minChars
              && forall j :: 1 <= j < m ==> |Concat(deltas[..j])| < minChars
            case None => forall j :: 1 <= j <= |deltas| ==> |Concat(deltas[..j])| < minChars
  {
    if deltas != [] {
      var init := deltas[..|deltas| - 1];
      EnoughIsLeast(init, minChars);
      assert forall j :: 0 <= j <= |init| ==> deltas[..j] == init[..j];
      assert deltas[..|deltas|] == deltas;
      hide Concat;
    }
  }

  lemma {:induction false} EnoughInRange(deltas: seq<Text>, minChars: nat)
    ensures Enough(deltas, minChars).Some? ==> 1 <= Enough(deltas, minChars).value <= |deltas|
  {
    if deltas != [] { EnoughInRange(deltas[..|deltas| - 1], minChars); }
  }

  /** Where a stream of these deltas is cut off, if anywhere: a score of 1 must be acceptable. */
  function CutAt(c: Caller, deltas: seq<Text>, minChars: nat): (m: Option<nat>)
    ensures m.Some? ==> 1 <= m.value <= |deltas|
  {
    EnoughInRange(deltas, minChars);
    if c.minConfidence <= 1.0 then Enough(deltas, minChars) else None
  }

  lemma {:induction false} EnoughOneMore(deltas: seq<Text>, d: Text, minChars: nat)
    ensures Concat(deltas + [d]) == Concat(deltas) + d
    ensures Enough(deltas + [d], minChars) ==
            if Enough(deltas, minChars).Some? then Enough(deltas, minChars)
            else if |Concat(deltas) + d| >= minChars then Some(|deltas| + 1) else None
  {
    assert (deltas + [d])[..|deltas|] == deltas;
  }

  function LastOf(outs: seq<Output>): Option<Output> { if outs == [] then None else Some(outs[|outs| - 1]) }

  /** What has been read agrees with the deltas and finals so far. */
  ghost predicate Read(c: Caller, minChars: nat, s: Scan, deltas: seq<Text>, finals: seq<Output>) {
    && s.failure.None?
    && match CutAt(c, deltas, minChars)
       case Some(m) => s.early == Some(1.0) && s.accumulated == Concat(deltas[..m])
       case None => s.early.None? && s.accumulated == Concat(deltas) && s.captured == LastOf(finals)
  }

  lemma {:induction false} ReadDelta(
      c: Caller, minChars: nat, offset: nat, s: Scan, deltas: seq<Text>, finals: seq<Output>, step: nat, d: Text)
    requires LengthOnly(c.guard, minChars) && Read(c, minChars, s, deltas, finals)
    ensures var s' := if Over(s) then s else ScanOne(c, offset, s, Ok(AssistantText(step, d)));
            Read(c, minChars, s', deltas + [d], finals)
  {
    EnoughOneMore(deltas, d, minChars);
    var m := CutAt(c, deltas, minChars);
    if m.Some? {
      assert (deltas + [d])[..m.value] == deltas[..m.value];
    } else {
      assert (deltas + [d])[..|deltas| + 1] == deltas + [d];
      assert c.guard.streaming(offset, DepthAt(c, offset), s.asked, s.accumulated + d) ==
        Ok(if |s.accumulated + d| < minChars then None else Some(1.0));
    }
    hide Enough, Concat;
  }

  lemma {:induction false} ReadOther(
      c: Caller, minChars: nat, offset: nat, s: Scan, deltas: seq<Text>, finals: seq<Output>,
      item: Result<OrchEvent, string>)
    requires Read(c, minChars, s, deltas, finals) && item.Ok? && !item.value.AssistantText?
    ensures var s' := if Over(s) then s else ScanOne(c, offset, s, item);
            Read(c, minChars, s', deltas, finals + if item.value.Final? then [item.value.output] else [])
  {
    hide Enough, Concat;
  }

  lemma {:induction false} ScanCuts(c: Caller, minChars: nat, offset: nat, items: Inner, n: nat)
    requires LengthOnly(c.guard, minChars) && n <= |items|
    requires forall k :: 0 <= k < n ==> items[k].Ok?
    ensures Read(c, minChars, ScanTo(c, offset, items, n), DeltasTo(items, n), FinalsTo(items, n))
  {
    if n > 0 {
      ScanCuts(c, minChars, offset, items, n - 1);
      hide *;
      ReadOnce(c, minChars, offset, items, n);
    }
  }

  lemma {:induction false} ReadOnce(c: Caller, minChars: nat, offset: nat, items: Inner, n: nat)
    requires LengthOnly(c.guard, minChars) && 0 < n <= |items| && items[n - 1].Ok?
    requires Read(c, minChars, ScanTo(c, offset, items, n - 1), DeltasTo(items, n - 1), FinalsTo(items, n - 1))
    ensures Read(c, minChars, ScanTo(c, offset, items, n), DeltasTo(items, n), FinalsTo(items, n))
  {
    ScanToOnce(c, offset, items, n);
    var item := items[n - 1];
    var s, deltas, finals := ScanTo(c, offset, items, n - 1), DeltasTo(items, n - 1), FinalsTo(items, n - 1);
    assert DeltasTo(items, n) == if item.value.AssistantText? then deltas + [item.value.delta] else deltas;
    assert FinalsTo(items, n) == finals + if item.value.Final? then [item.value.output] else [];
    assert item.value.AssistantText? ==> FinalsTo(items, n) == finals;
    assert item.value.AssistantText? ==> item == Ok(AssistantText(item.value.step, item.value.delta));
    hide *;
    if item.value.AssistantText? {
      ReadDelta(c, minChars, offset, s, deltas, finals, item.value.step, item.value.delta);
    } else {
      ReadOther(c, minChars, offset, s, deltas, finals, item);
    }
  }

  // ----- Agreement -----

  /** An inner orchestrator whose stream tells what its run returns: deltas that concatenate to
      the text and one Final, or a break-off with the same error. */
  ghost predicate Faithful(c: Caller) {
    forall offset: nat, depth: nat, messages: seq<Message> ::
      Tells(c.stream(offset, depth, messages), c.run(offset, depth, messages))
  }

  ghost predicate Tells(items: Inner, r: Result<Output, string>) {
    match r
    case Ok(out) =>
      && (forall k :: 0 <= k < |items| ==> items[k].Ok?)
      && Concat(DeltasTo(items, |items|)) == out.text
      && FinalsTo(items, |items|) == [out]
    case Err(e) =>
      && items != [] && items[|items| - 1] == Err(e)
      && forall k :: 0 <= k < |items| - 1 ==> items[k].Ok?
  }

  /** What the stream answers where the run answers `r` on the same input: the deltas up to the
      cut, if they reach it. */
  function StreamedAnswer(c: Caller, minChars: nat, items: Inner, r: Result<Output, string>): Result<Output, string> {
    var deltas := DeltasTo(items, |items|);
    match CutAt(c, deltas, minChars)
    case Some(m) => Ok(Synthesised(Concat(deltas[..m])))
    case None => r
  }

  lemma {:induction false} ConcatGrows(deltas: seq<Text>, m: nat)
    requires m <= |deltas|
    ensures |Concat(deltas[..m])| <= |Concat(deltas)|
    decreases |deltas|
  {
    if m < |deltas| {
      var init := deltas[..|deltas| - 1];
      assert init[..m] == deltas[..m];
      ConcatGrows(init, m);
    } else {
      assert deltas[..m] == deltas;
    }
  }

  /** The streamed call ends as the buffered one does, cut short where the cut comes first. */
  lemma {:induction false} TurnsAgree(c: Caller, minChars: nat, offset: nat, messages: seq<Message>)
    requires LengthOnly(c.guard, minChars) && Faithful(c)
    ensures var r, items := c.run(offset, DepthAt(c, offset), messages), c.stream(offset, DepthAt(c, offset), messages);
            match TurnOf(c, Buffered, offset, messages)
            case Stop(result) =>
              result == r && TurnOf(c, Streamed, offset, messages) == Stop(StreamedAnswer(c, minChars, items, r))
            case Retry(out) => r == Ok(out) && TurnOf(c, Streamed, offset, messages) == Retry(out)
  {
    var depth := DepthAt(c, offset);
    var r, items := c.run(offset, depth, messages), c.stream(offset, depth, messages);
    assert Tells(items, r);
    if r.Ok? {
      assert c.guard.evaluate(offset, depth, r.value.text) == Ok(if |r.value.text| < minChars then 0.0 else 1.0);
      ScanOfTold(c, minChars, offset, items, r.value);
    } else {
      ScanOfBroken(c, minChars, offset, items, r.error);
    }
    hide ScanTo, LengthOnly, Faithful, StreamedAnswer, Tells;
  }

  /** An early stop only happens where the whole text would have been accepted. */
  lemma {:induction false} ScanOfTold(c: Caller, minChars: nat, offset: nat, items: Inner, out: Output)
    requires LengthOnly(c.guard, minChars) && Tells(items, Ok(out))
    ensures var s, answer := ScanTo(c, offset, items, |items|), StreamedAnswer(c, minChars, items, Ok(out));
            && s.failure.None?
            && (s.early.Some? ==>
               answer == Ok(Synthesised(s.accumulated)) && c.minConfidence <= 1.0 && |out.text| >= minChars)
            && (s.early.None? ==> answer == Ok(out) && s.captured == Some(out))
  {
    ScanCuts(c, minChars, offset, items, |items|);
    var deltas := DeltasTo(items, |items|);
    var m := CutAt(c, deltas, minChars);
    if m.Some? {
      EnoughIsLeast(deltas, minChars);
      ConcatGrows(deltas, m.value);
    }
    hide ScanTo, Enough, Concat, DeltasTo, LengthOnly;
  }

  lemma {:induction false} ScanOfBroken(c: Caller, minChars: nat, offset: nat, items: Inner, e: string)
    requires LengthOnly(c.guard, minChars) && Tells(items, Err(e))
    ensures var s, answer := ScanTo(c, offset, items, |items|), StreamedAnswer(c, minChars, items, Err(e));
            && (s.early.Some? ==> s.failure.None? && answer == Ok(Synthesised(s.accumulated)))
            && (s.early.None? ==> s.failure == Some(e) && answer == Err(e))
  {
    var n := |items| - 1;
    ScanCuts(c, minChars, offset, items, n);
    ScanToOnce(c, offset, items, n + 1);
    assert DeltasTo(items, n + 1) == DeltasTo(items, n);
    hide ScanTo, Enough, Concat, DeltasTo, FinalsTo, LengthOnly;
  }

  /** With a length-only guard and a faithful inner orchestrator, a run and its stream make the
      same inner calls, and the stream answers what the run answers or, where the cut comes
      first, the shortest long-enough prefix made of whole deltas. A run that fails in its last
      inner call may so have a stream that succeeds, exactly when the cut precedes the failure. */
  lemma {:induction false} StreamAgreesWithRun(c: Caller, minChars: nat, offset: nat, messages: seq<Message>)
    requires offset <= c.maxDepth && LengthOnly(c.guard, minChars) && Faithful(c)
    ensures Agree(c, minChars, offset, CallFrom(c, Buffered, offset, messages), CallFrom(c, Streamed, offset, messages))
    decreases c.maxDepth - offset
  {
    hide *;
    CallOnce(c, Buffered, offset, messages);
    CallOnce(c, Streamed, offset, messages);
    TurnsAgree(c, minChars, offset, messages);
    var t, here := TurnOf(c, Buffered, offset, messages), InnerCall(DepthAt(c, offset), messages);
    if t.Stop? {
      AgreeAtOnce(c, minChars, offset, here, t.result, TurnOf(c, Streamed, offset, messages).result);
    } else {
      var next := Revised(c, messages, t.out);
      StreamAgreesWithRun(c, minChars, offset + 1, next);
      AgreeBefore(c, minChars, offset, CallFrom(c, Buffered, offset + 1, next),
        CallFrom(c, Streamed, offset + 1, next), here);
    }
  }

  /** Same inner calls; on what the last of them streams, the answers compare as said. */
  ghost predicate Agree(c: Caller, minChars: nat, offset: nat, run: Outcome, streamed: Outcome) {
    && run.calls != [] && streamed.calls == run.calls
    && var last := run.calls[|run.calls| - 1];
       var at := offset + |run.calls| - 1;
       && run.result == c.run(at, last.depth, last.messages)
       && streamed.result == StreamedAnswer(c, minChars, c.stream(at, last.depth, last.messages), run.result)
  }

  lemma {:induction false} AgreeAtOnce(
      c: Caller, minChars: nat, offset: nat, here: InnerCall, run: Result<Output, string>,
      streamed: Result<Output, string>)
    requires run == c.run(offset, here.depth, here.messages)
    requires streamed == StreamedAnswer(c, minChars, c.stream(offset, here.depth, here.messages), run)
    ensures Agree(c, minChars, offset, Outcome(run, [here]), Outcome(streamed, [here]))
  {
    hide StreamedAnswer;
  }

  lemma {:induction false} AgreeBefore(
      c: Caller, minChars: nat, offset: nat, run: Outcome, streamed: Outcome, here: InnerCall)
    requires Agree(c, minChars, offset + 1, run, streamed)
    ensures Agree(c, minChars, offset, run.(calls := [here] + run.calls), streamed.(calls := [here] + streamed.calls))
  {
    hide StreamedAnswer;
  }

  /** An inner orchestrator that streams `text` and then breaks off, at every call. */
  function BreakingOff(minChars: nat, maxDepth: nat, text: Text, error: string): Caller {
    Caller(maxDepth, 0, 1.0, [], RuleBased(minChars, None), (_, _, _) => Err(error),
           (_, _, _) => [Ok(AssistantText(0, text)), Err(error)])
  }

  /** Where it breaks off, the run fails; the stream succeeds exactly when the text before the
      break is long enough. */
  lemma {:induction false} AFailedRunCanStream(
      minChars: nat, maxDepth: nat, text: Text, error: string, messages: seq<Message>)
    ensures var c := BreakingOff(minChars, maxDepth, text, error);
            && Faithful(c) && LengthOnly(c.guard, minChars)
            && CallFrom(c, Buffered, 0, messages).result == Err(error)
            && CallFrom(c, Streamed, 0, messages).result ==
               if |text| >= minChars then Ok(Synthesised(text)) else Err(error)
  {
    var c := BreakingOff(minChars, maxDepth, text, error);
    RuleBasedIsLengthOnly(minChars);
    CallOnce(c, Buffered, 0, messages);
    CallOnce(c, Streamed, 0, messages);
    var items := c.stream(0, DepthAt(c, 0), messages);
    ScanToOnce(c, 0, items, 1);
    ScanToOnce(c, 0, items, 2);
    assert [] + text == text;
    hide CallFrom;
  }
}
