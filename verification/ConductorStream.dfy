/** The consumer side of a streamed fan-out: the recv loop and the events one coordinator turn
    emits, tied to the runs of `Fanout`. */
module ConductorStream {
  import opened Prelude
  import opened Fanout
  import opened FanoutProtocol
  import opened FanoutProgress

  /** The optional verifier: a partial score per text so far, a final score per result. */
  datatype Verifier = Verifier(partial: string -> Option<real>, score: string -> real)

  /** `step{step}-{idx}`. */
  datatype CallId = CallId(step: nat, index: nat)

  datatype OrchEvent =
    | ToolCallStart(id: CallId, worker: string)
    | VerifierScore(step: nat, branch: nat, value: real)
    | ToolCallResult(id: CallId, worker: string, outcome: Outcome)

  function Clamp(x: real): (y: real)
    ensures 0.0 <= y <= 1.0
    ensures (x <= 0.0 ==> y == 0.0) && (0.0 <= x <= 1.0 ==> y == x) && (x >= 1.0 ==> y == 1.0)
  {
    if x < 0.0 then 0.0 else if x > 1.0 then 1.0 else x
  }

  /** Loop variables of the recv loop. */
  datatype Inbox = Inbox(slots: seq<Option<Outcome>>, doneCount: nat, scores: seq<OrchEvent>)

  function EmptyInbox(n: nat): Inbox { Inbox(seq(n, _ => None), 0, []) }

  function PartialScore(step: nat, verifier: Option<Verifier>, e: Event): seq<OrchEvent> {
    if e.Delta? && verifier.Some? && verifier.value.partial(e.cumulative).Some? then
      [VerifierScore(step, e.task + 1, Clamp(verifier.value.partial(e.cumulative).value))]
    else []
  }

  function Take(n: nat, step: nat, verifier: Option<Verifier>, b: Inbox, e: Event): Inbox {
    if e.Done? then
      b.(slots := if e.task < |b.slots| then b.slots[e.task := Some(e.outcome)] else b.slots,
         doneCount := b.doneCount + 1)
    else b.(scores := b.scores + PartialScore(step, verifier, e))
  }

  /** The loop after receiving `events`, ignoring whatever comes after the n-th `Done`. */
  function Received(n: nat, step: nat, verifier: Option<Verifier>, events: seq<Event>): Inbox {
    if events == [] then EmptyInbox(n)
    else
      var b := Received(n, step, verifier, events[..|events| - 1]);
      if b.doneCount == n then b else Take(n, step, verifier, b, events[|events| - 1])
  }

  function Starts(step: nat, plan: seq<string>): seq<OrchEvent> {
    if plan == [] then []
    else Starts(step, plan[..|plan| - 1]) + [ToolCallStart(CallId(step, |plan| - 1), plan[|plan| - 1])]
  }

  /** Result i, and its final score if there is a verifier and a text. */
  function ResultEvents(step: nat, verifier: Option<Verifier>, plan: seq<string>, results: seq<Outcome>): seq<OrchEvent>
    requires |results| <= |plan|
  {
    if results == [] then []
    else
      var i := |results| - 1;
      var r := results[i];
      ResultEvents(step, verifier, plan, results[..i]) + [ToolCallResult(CallId(step, i), plan[i], r)]
      + if verifier.Some? && r.Text? then [VerifierScore(step, i + 1, Clamp(verifier.value.score(r.text)))] else []
  }

  method ReceiveAll(n: nat, step: nat, verifier: Option<Verifier>, delivered: seq<Event>) returns (inbox: Inbox)
    requires n > 0
    ensures inbox == Received(n, step, verifier, delivered)
  {
    var slots: seq<Option<Outcome>> := seq(n, _ => None);
    var doneCount := 0;
    var scores := [];
    var k := 0;
    while k < |delivered|
      invariant 0 <= k <= |delivered| && doneCount < n
      invariant Inbox(slots, doneCount, scores) == Received(n, step, verifier, delivered[..k])
    {
      var e := delivered[k];
      assert delivered[..k + 1][..k] == delivered[..k];
      match e {
        case Delta(task, cumulative) =>
          if verifier.Some? {
            var score := verifier.value.partial(cumulative);
            if score.Some? { scores := scores + [VerifierScore(step, task + 1, Clamp(score.value))]; }
          }
        case Done(task, outcome) =>
          if task < |slots| { slots := slots[task := Some(outcome)]; }
          doneCount := doneCount + 1;
          if doneCount == n {
            StoppedStays(n, step, verifier, delivered, k + 1);
            return Inbox(slots, doneCount, scores);
          }
      }
      k := k + 1;
    }
    assert delivered[..k] == delivered;
    return Inbox(slots, doneCount, scores);
  }

  lemma {:induction false} StoppedStays(n: nat, step: nat, verifier: Option<Verifier>, events: seq<Event>, k: nat)
    requires k <= |events| && Received(n, step, verifier, events[..k]).doneCount == n
    ensures Received(n, step, verifier, events) == Received(n, step, verifier, events[..k])
  {
    if k < |events| {
      assert events[..|events| - 1][..k] == events[..k];
      StoppedStays(n, step, verifier, events[..|events| - 1], k);
    } else {
      assert events[..k] == events;
    }
  }

  /** One dispatching turn of `Conductor::stream`, given what the channel delivers. */
  method StreamTurn(step: nat, plan: seq<string>, verifier: Option<Verifier>, delivered: seq<Event>)
    returns (emitted: seq<OrchEvent>, results: seq<Outcome>)
    requires |plan| > 0
    ensures results == Flatten(Received(|plan|, step, verifier, delivered).slots) && |results| <= |plan|
    ensures emitted == Starts(step, plan) + Received(|plan|, step, verifier, delivered).scores
                       + ResultEvents(step, verifier, plan, results)
  {
    var starts := EmitStarts(step, plan);
    var inbox := ReceiveAll(|plan|, step, verifier, delivered);
    SlotsCounted(|plan|, step, verifier, delivered);
    FlattenShorter(inbox.slots);
    results := Flatten(inbox.slots);
    var tail := EmitResults(step, verifier, plan, results);
    emitted := starts + inbox.scores + tail;
  }

  method EmitStarts(step: nat, plan: seq<string>) returns (starts: seq<OrchEvent>)
    ensures starts == Starts(step, plan)
  {
    starts := [];
    for i := 0 to |plan|
      invariant starts == Starts(step, plan[..i])
    {
      assert plan[..i + 1][..i] == plan[..i];
      starts := starts + [ToolCallStart(CallId(step, i), plan[i])];
    }
    assert plan[..|plan|] == plan;
  }

  method EmitResults(step: nat, verifier: Option<Verifier>, plan: seq<string>, results: seq<Outcome>)
    returns (tail: seq<OrchEvent>)
    requires |results| <= |plan|
    ensures tail == ResultEvents(step, verifier, plan, results)
  {
    tail := [];
    for i := 0 to |results|
      invariant tail == ResultEvents(step, verifier, plan, results[..i])
    {
      assert results[..i + 1][..i] == results[..i];
      tail := tail + [ToolCallResult(CallId(step, i), plan[i], results[i])];
      if verifier.Some? && results[i].Text? {
        tail := tail + [VerifierScore(step, i + 1, Clamp(verifier.value.score(results[i].text)))];
      }
    }
    assert results[..|results|] == results;
  }

  lemma {:induction false} SlotsCounted(n: nat, step: nat, verifier: Option<Verifier>, events: seq<Event>)
    ensures |Received(n, step, verifier, events).slots| == n
  {
    if events != [] { SlotsCounted(n, step, verifier, events[..|events| - 1]); }
  }

  lemma {:induction false} FlattenShorter(slots: seq<Option<Outcome>>)
    ensures |Flatten(slots)| <= |slots|
  {
    if slots != [] { FlattenShorter(slots[..|slots| - 1]); }
  }

  /** The recv loop's variables are the machine's, at every point of every run. */
  lemma {:induction false} LoopIsTheConsumer(
      cfg: Config, run: seq<State>, k: nat, step: nat, verifier: Option<Verifier>)
    requires IsRun(cfg, run) && k < |run|
    ensures var b := Received(|cfg.tasks|, step, verifier, run[k].consumed);
            b.slots == run[k].slots && b.doneCount == run[k].doneCount
  {
    if k > 0 {
      LoopIsTheConsumer(cfg, run, k - 1, step, verifier);
      assert Next(cfg, run[k - 1], run[k]);
      ConsumerStep(cfg, run[k - 1], run[k], step, verifier);
    }
  }

  lemma {:induction false} ConsumerStep(cfg: Config, s: State, s': State, step: nat, verifier: Option<Verifier>)
    requires Next(cfg, s, s')
    requires var b := Received(|cfg.tasks|, step, verifier, s.consumed);
             b.slots == s.slots && b.doneCount == s.doneCount
    ensures var b := Received(|cfg.tasks|, step, verifier, s'.consumed);
            b.slots == s'.slots && b.doneCount == s'.doneCount
  {
    if Receive(cfg, s, s') {
      hide TaskStep;
      ReceivedOneMore(|cfg.tasks|, step, verifier, s.consumed, s.channel[0]);
      hide Received, PartialScore;
    } else {
      var i: nat :| TaskStep(cfg, s, s', i);
      hide *;
      SameConsumer(cfg, s, s', i);
    }
  }

  lemma {:induction false} ReceivedOneMore(n: nat, step: nat, verifier: Option<Verifier>, events: seq<Event>, e: Event)
    ensures var b := Received(n, step, verifier, events);
            Received(n, step, verifier, events + [e]) == if b.doneCount == n then b else Take(n, step, verifier, b, e)
  {
    assert (events + [e])[..|events|] == events;
    hide Take;
  }

  lemma {:induction false} SameConsumer(cfg: Config, s: State, s': State, i: nat)
    requires TaskStep(cfg, s, s', i)
    ensures s'.consumed == s.consumed && s'.slots == s.slots && s'.doneCount == s.doneCount
  {
  }

  // ----- What a turn emits, event by event -----

  lemma {:induction false} StartsAre(step: nat, plan: seq<string>)
    ensures |Starts(step, plan)| == |plan|
    ensures forall i :: 0 <= i < |plan| ==> Starts(step, plan)[i] == ToolCallStart(CallId(step, i), plan[i])
  {
    if plan != [] { StartsAre(step, plan[..|plan| - 1]); }
  }

  /** y is x brought into 0..1. */
  ghost predicate IsClamped(x: real, y: real) {
    0.0 <= y <= 1.0 && (x < 0.0 ==> y == 0.0) && (x > 1.0 ==> y == 1.0) && (0.0 <= x <= 1.0 ==> y == x)
  }

  /** The events from position p on are result i of worker `name`, and behind it the score of its
      text if there is a verifier and a text. */
  ghost predicate ShowsResult(
      step: nat, verifier: Option<Verifier>, name: string, r: Outcome, i: nat, events: seq<OrchEvent>, p: nat, q: nat)
  {
    && p < q <= |events| && events[p] == ToolCallResult(CallId(step, i), name, r)
    && if verifier.Some? && r.Text? then
         && q == p + 2 && events[p + 1].VerifierScore? && events[p + 1].step == step && events[p + 1].branch == i + 1
         && IsClamped(verifier.value.score(r.text), events[p + 1].value)
       else q == p + 1
  }

  /** `at[i]` is where result i stands: the tail of a turn is the results in dispatch order, each
      with its score, and nothing else. */
  ghost predicate ShowsResults(
      step: nat, verifier: Option<Verifier>, plan: seq<string>, results: seq<Outcome>, events: seq<OrchEvent>,
      at: seq<nat>)
    requires |results| <= |plan|
  {
    && |at| == |results| + 1 && at[0] == 0 && at[|results|] == |events|
    && forall i :: 0 <= i < |results| ==> ShowsResult(step, verifier, plan[i], results[i], i, events, at[i], at[i + 1])
  }

  lemma {:induction false} ResultEventsAre(
      step: nat, verifier: Option<Verifier>, plan: seq<string>, results: seq<Outcome>)
    returns (at: seq<nat>)
    requires |results| <= |plan|
    ensures ShowsResults(step, verifier, plan, results, ResultEvents(step, verifier, plan, results), at)
  {
    at := [0];
    if results != [] {
      var n := |results| - 1;
      var before := ResultEventsAre(step, verifier, plan, results[..n]);
      var events, all := ResultEvents(step, verifier, plan, results[..n]), ResultEvents(step, verifier, plan, results);
      at := before + [|all|];
      assert all[..|events|] == events;
      hide ResultEvents;
      forall i | 0 <= i < n
        ensures ShowsResult(step, verifier, plan[i], results[i], i, all, at[i], at[i + 1])
      {
        assert ShowsResult(step, verifier, plan[i], results[..n][i], i, events, before[i], before[i + 1]);
        hide ShowsResult;
        StillShows(step, verifier, plan[i], results[i], i, events, all, before[i], before[i + 1]);
      }
    }
  }

  lemma {:induction false} StillShows(
      step: nat, verifier: Option<Verifier>, name: string, r: Outcome, i: nat, events: seq<OrchEvent>,
      all: seq<OrchEvent>, p: nat, q: nat)
    requires |events| <= |all| && all[..|events|] == events
    requires ShowsResult(step, verifier, name, r, i, events, p, q)
    ensures ShowsResult(step, verifier, name, r, i, all, p, q)
  {
    assert forall j :: 0 <= j < |events| ==> all[j] == all[..|events|][j];
  }

  /** `at[j]` is the position of the delta that partial score j scores; deltas whose text so far
      gets no score have none. */
  ghost predicate Scores(
      step: nat, verifier: Option<Verifier>, events: seq<Event>, scores: seq<OrchEvent>, at: seq<nat>)
  {
    && |at| == |scores|
    && (forall j :: 0 <= j < |at| ==> at[j] < |events| && ScoresDelta(step, verifier, events[at[j]], scores[j]))
    && (forall j, k :: 0 <= j < k < |at| ==> at[j] < at[k])
    && forall p: nat :: p < |events| && p !in at ==>
         !(events[p].Delta? && verifier.Some? && verifier.value.partial(events[p].cumulative).Some?)
  }

  ghost predicate ScoresDelta(step: nat, verifier: Option<Verifier>, e: Event, score: OrchEvent) {
    && e.Delta? && verifier.Some? && verifier.value.partial(e.cumulative).Some?
    && score.VerifierScore? && score.step == step && score.branch == e.task + 1
    && IsClamped(verifier.value.partial(e.cumulative).value, score.value)
  }

  ghost function DoneEvents(events: seq<Event>): nat {
    if events == [] then 0
    else DoneEvents(events[..|events| - 1]) + if events[|events| - 1].Done? then 1 else 0
  }

  lemma {:induction false} ScoresAre(n: nat, step: nat, verifier: Option<Verifier>, events: seq<Event>)
    returns (at: seq<nat>)
    requires events != [] ==> DoneEvents(events[..|events| - 1]) < n
    ensures Scores(step, verifier, events, Received(n, step, verifier, events).scores, at)
    ensures Received(n, step, verifier, events).doneCount == DoneEvents(events)
    decreases |events|
  {
    at := [];
    if events != [] {
      var init, e := events[..|events| - 1], events[|events| - 1];
      FewerBefore(n, events);
      at := ScoresAre(n, step, verifier, init);
      var b := Received(n, step, verifier, init);
      assert DoneEvents(events) == DoneEvents(init) + if e.Done? then 1 else 0;
      hide Received, DoneEvents, Scores, PartialScore, EmptyInbox;
      InitLast(events);
      ReceivedOneMore(n, step, verifier, init, e);
      at := ScoresOneMore(step, verifier, init, e, b.scores, at);
      if e.Done? { NoPartialScore(step, verifier, b.scores, e); }
    }
  }

  lemma {:induction false} NoPartialScore(step: nat, verifier: Option<Verifier>, scores: seq<OrchEvent>, e: Event)
    requires e.Done?
    ensures scores + PartialScore(step, verifier, e) == scores
  {
  }

  lemma {:induction false} FewerBefore(n: nat, events: seq<Event>)
    requires events != [] && DoneEvents(events[..|events| - 1]) < n
    ensures var init := events[..|events| - 1]; init != [] ==> DoneEvents(init[..|init| - 1]) < n
  {
  }

  lemma {:induction false} ScoresOneMore(
      step: nat, verifier: Option<Verifier>, init: seq<Event>, e: Event, scores: seq<OrchEvent>, at: seq<nat>)
    returns (at': seq<nat>)
    requires Scores(step, verifier, init, scores, at)
    ensures Scores(step, verifier, init + [e], scores + PartialScore(step, verifier, e), at')
  {
    var more := PartialScore(step, verifier, e);
    if more == [] {
      at' := at;
      assert scores + more == scores;
      assert !(e.Delta? && verifier.Some? && verifier.value.partial(e.cumulative).Some?);
      hide PartialScore;
      ScoresSkip(step, verifier, init, e, scores, at);
    } else {
      at' := at + [|init|];
      assert ScoresDelta(step, verifier, e, more[0]) && more == [more[0]];
      hide PartialScore;
      ScoresAppend(step, verifier, init, e, scores, at, more[0]);
    }
  }

  lemma {:induction false} ScoresSkip(
      step: nat, verifier: Option<Verifier>, init: seq<Event>, e: Event, scores: seq<OrchEvent>, at: seq<nat>)
    requires Scores(step, verifier, init, scores, at)
    requires !(e.Delta? && verifier.Some? && verifier.value.partial(e.cumulative).Some?)
    ensures Scores(step, verifier, init + [e], scores, at)
  {
    hide ScoresDelta;
    assert forall p: nat :: p < |init| ==> (init + [e])[p] == init[p];
  }

  lemma {:induction false} ScoresAppend(
      step: nat, verifier: Option<Verifier>, init: seq<Event>, e: Event, scores: seq<OrchEvent>, at: seq<nat>,
      score: OrchEvent)
    requires Scores(step, verifier, init, scores, at) && ScoresDelta(step, verifier, e, score)
    ensures Scores(step, verifier, init + [e], scores + [score], at + [|init|])
  {
    hide ScoresDelta;
    var all, at' := init + [e], at + [|init|];
    forall p: nat | p < |all| && p !in at'
      ensures !(all[p].Delta? && verifier.Some? && verifier.value.partial(all[p].cumulative).Some?)
    {
      assert at'[|at|] == |init| && p != |init|;
      assert p !in at;
      assert all[p] == init[p];
    }
    assert forall j :: 0 <= j < |at| ==> all[at[j]] == init[at[j]];
  }

  /** The ids of the events of one kind, in order. */
  function StartIds(events: seq<OrchEvent>): seq<CallId> {
    if events == [] then []
    else
      var last := events[|events| - 1];
      StartIds(events[..|events| - 1]) + if last.ToolCallStart? then [last.id] else []
  }

  function ResultIds(events: seq<OrchEvent>): seq<CallId> {
    if events == [] then []
    else
      var last := events[|events| - 1];
      ResultIds(events[..|events| - 1]) + if last.ToolCallResult? then [last.id] else []
  }

  function Ids(step: nat, n: nat): seq<CallId> { if n == 0 then [] else Ids(step, n - 1) + [CallId(step, n - 1)] }

  ghost predicate DoneSoFar(cfg: Config, s: State) {
    && DoneEvents(s.consumed) == s.doneCount
    && (s.consumed != [] ==> DoneEvents(s.consumed[..|s.consumed| - 1]) < |cfg.tasks|)
  }

  lemma {:induction false} DoneSoFarKept(cfg: Config, s: State, s': State)
    requires DoneSoFar(cfg, s) && Next(cfg, s, s')
    ensures DoneSoFar(cfg, s')
  {
    if Receive(cfg, s, s') {
      hide TaskStep;
      assert (s.consumed + [s.channel[0]])[..|s.consumed|] == s.consumed;
    } else {
      var i: nat :| TaskStep(cfg, s, s', i);
      SameConsumer(cfg, s, s', i);
      hide TaskStep;
    }
  }

  /** In every state of every run the partial scores emitted are those of the deltas consumed. */
  lemma {:induction false} EveryRunScores(cfg: Config, run: seq<State>, k: nat, step: nat, verifier: Option<Verifier>)
    returns (at: seq<nat>)
    requires IsRun(cfg, run) && k < |run|
    ensures Scores(step, verifier, run[k].consumed,
                   Received(|cfg.tasks|, step, verifier, run[k].consumed).scores, at)
  {
    ConsumedSoFar(cfg, run, k);
    hide DoneEvents, Received, Next;
    at := ScoresAre(|cfg.tasks|, step, verifier, run[k].consumed);
  }

  lemma {:induction false} ConsumedSoFar(cfg: Config, run: seq<State>, k: nat)
    requires IsRun(cfg, run) && k < |run|
    ensures DoneSoFar(cfg, run[k])
  {
    if k > 0 {
      hide DoneSoFar, Next;
      ConsumedSoFar(cfg, run, k - 1);
      DoneSoFarKept(cfg, run[k - 1], run[k]);
    }
  }

  /** Every completed fan-out, however interleaved, leaves the same results: result i is what
      the Done of dispatch i carried, which came last of that branch; a text is the whole text, by
      what the branch's deltas say; and the ids of the ToolCallResults are those of the
      ToolCallStarts, in the same order. */
  lemma {:induction false} ResultsMatchStarts(
      cfg: Config, run: seq<State>, k: nat, step: nat, plan: seq<string>, verifier: Option<Verifier>)
    requires IsRun(cfg, run) && k < |run| && !CanContinue(cfg, run[k])
    requires |plan| == |cfg.tasks|
    ensures var results := Flatten(Received(|plan|, step, verifier, run[k].consumed).slots);
            && |results| == |plan|
            && (forall i :: 0 <= i < |plan| ==>
                  var own := Of(run[k].consumed, i);
                  && Reads(cfg.tasks[i], own, i) && own != [] && own[|own| - 1] == Done(i, results[i]))
            && ResultIds(ResultEvents(step, verifier, plan, results))
               == StartIds(Starts(step, plan)) == Ids(step, |plan|)
  {
    RunsEndComplete(cfg, run, k);
    LoopIsTheConsumer(cfg, run, k, step, verifier);
    assert run[k].consumed + run[k].channel == run[k].consumed;
    forall i: nat | i < |plan| ensures Reads(cfg.tasks[i], Of(run[k].consumed, i), i) {
      EveryBranchReads(cfg, run, k, i);
    }
    hide Reads, Received, Deltas, Next, CanContinue;
    ResultIdsAre(step, verifier, plan, Flatten(run[k].slots));
    StartIdsAre(step, plan);
  }

  lemma {:induction false} StartIdsAre(step: nat, plan: seq<string>)
    ensures StartIds(Starts(step, plan)) == Ids(step, |plan|)
  {
    if plan != [] {
      var n := |plan| - 1;
      StartIdsAre(step, plan[..n]);
      var before := Starts(step, plan[..n]);
      assert (before + [ToolCallStart(CallId(step, n), plan[n])])[..|before|] == before;
    }
  }

  lemma {:induction false} ResultIdsOneMore(before: seq<OrchEvent>, e: OrchEvent)
    ensures ResultIds(before + [e]) == ResultIds(before) + if e.ToolCallResult? then [e.id] else []
  {
    assert (before + [e])[..|before|] == before;
  }

  lemma {:induction false} ResultIdsAre(step: nat, verifier: Option<Verifier>, plan: seq<string>, results: seq<Outcome>)
    requires |results| <= |plan|
    ensures ResultIds(ResultEvents(step, verifier, plan, results)) == Ids(step, |results|)
  {
    if results != [] {
      var i := |results| - 1;
      var before := ResultEvents(step, verifier, plan, results[..i]);
      var e := ToolCallResult(CallId(step, i), plan[i], results[i]);
      ResultIdsAre(step, verifier, plan, results[..i]);
      ResultIdsOneMore(before, e);
      if verifier.Some? && results[i].Text? {
        ResultIdsOneMore(before + [e], VerifierScore(step, i + 1, Clamp(verifier.value.score(results[i].text))));
      } else {
        assert before + [e] + [] == before + [e];
      }
    }
  }
}
