/** What a consumer of an AB-MCTS stream sees. */
module AbMctsStream {
  import opened Prelude
  import opened AbMctsTree
  import opened AbMcts
  import opened AbMctsSearch
  import opened AbMctsRuns

  predicate OfStep(e: OrchEvent, i: nat) { !e.Final? && e.step == i }

  function IfOfStep(i: nat): OrchEvent -> seq<OrchEvent> { e => if OfStep(e, i) then [e] else [] }

  /** The events of iteration i. */
  function At(events: seq<OrchEvent>, i: nat): seq<OrchEvent> { Collect(events, IfOfStep(i)) }

  function FinalOf(e: OrchEvent): seq<OrchEvent> { if e.Final? then [e] else [] }

  function Finals(events: seq<OrchEvent>): seq<OrchEvent> { Collect(events, FinalOf) }

  lemma {:induction false} OneStepOnly(events: seq<OrchEvent>, j: nat, i: nat)
    requires forall e :: e in events ==> OfStep(e, j)
    ensures At(events, i) == if i == j then events else []
    ensures Finals(events) == []
  {
    if events != [] {
      var n := |events| - 1;
      assert OfStep(events[n], j);
      OneStepOnly(events[..n], j, i);
    }
  }

  lemma {:induction false} RelayedOfStep(i: nat, events: seq<RolloutEvent>)
    ensures forall e :: e in Relayed(i, events) ==> OfStep(e, i)
  {
    if events != [] { RelayedOfStep(i, events[1..]); }
  }

  lemma {:induction false} TriedOfStep(cfg: Config, o: Oracle, root: seq<Message>, h: History, k: nat)
    requires WellFormed(h)
    ensures forall e :: e in Try(cfg, o, root, h, k).events ==> OfStep(e, |h|)
    ensures var a := Try(cfg, o, root, h, k);
            a.step.Ok? ==> a.events == EventsOf(|h|, a.step.value)
  {
    var nodes := ArenaOf(root, h);
    RepresentedInOrder(nodes, root, h);
    DescentShape(cfg, o, nodes, [0], k);
    var d := Descend(cfg, o, nodes, [0], k);
    var r := o.rollout(|h|, MessagesOf(root, h, Last(d.path)));
    hide Descend, MessagesOf, Relayed;
    RelayedOfStep(|h|, if r.Broke? then r.surfaced
      else if r.rollout.streamed.Some? then r.rollout.streamed.value else []);
  }

  /** A completed iteration opens with its StepStart and closes with the score of its leaf. */
  function EventsOf(i: nat, step: Step): seq<OrchEvent> {
    [StepStart(i)] + Surfaced(i, Completed(step.rollout)) + [VerifierScore(i, i + 1, step.score)]
  }

  /** What a rollout that streams puts on the stream, event by event. */
  ghost predicate ShowsRelayed(i: nat, surfaced: seq<RolloutEvent>, shown: seq<OrchEvent>) {
    && |shown| == |surfaced|
    && forall j :: 0 <= j < |surfaced| ==>
         match surfaced[j]
         case TextDelta(t) => shown[j] == AssistantText(i, t)
         case PartialScore(x) => shown[j] == VerifierScore(i, i + 1, x)
  }

  /** A completed rollout: relayed if it streams, else its text as one delta, unless it is empty. */
  ghost predicate ShowsRollout(i: nat, rollout: Rollout, shown: seq<OrchEvent>) {
    match rollout.streamed
    case Some(surfaced) => ShowsRelayed(i, surfaced, shown)
    case None => if rollout.text == "" then shown == [] else shown == [AssistantText(i, rollout.text)]
  }

  /** A completed iteration: its StepStart, its rollout, the score of its leaf. */
  ghost predicate ShowsIteration(i: nat, step: Step, shown: seq<OrchEvent>) {
    && |shown| >= 2 && shown[0] == StepStart(i) && shown[|shown| - 1] == VerifierScore(i, i + 1, step.score)
    && ShowsRollout(i, step.rollout, shown[1..|shown| - 1])
  }

  /** A failing iteration: its StepStart and what its rollout, from some node, still surfaced. */
  ghost predicate ShowsFailure(o: Oracle, root: seq<Message>, h: History, shown: seq<OrchEvent>)
    requires WellFormed(h)
  {
    && shown != [] && shown[0] == StepStart(|h|)
    && exists parent: nat ::
         && parent <= |h|
         && match o.rollout(|h|, MessagesOf(root, h, parent))
            case Broke(_, surfaced) => ShowsRelayed(|h|, surfaced, shown[1..])
            case Completed(rollout) => ShowsRollout(|h|, rollout, shown[1..])
  }

  lemma {:induction false} RelayedShows(i: nat, surfaced: seq<RolloutEvent>)
    ensures ShowsRelayed(i, surfaced, Relayed(i, surfaced))
  {
    if surfaced != [] { RelayedShows(i, surfaced[1..]); }
  }

  lemma {:induction false} EventsShow(i: nat, step: Step)
    ensures ShowsIteration(i, step, EventsOf(i, step))
  {
    var events := EventsOf(i, step);
    assert events[1..|events| - 1] == Surfaced(i, Completed(step.rollout));
    if step.rollout.streamed.Some? { RelayedShows(i, step.rollout.streamed.value); }
    hide Relayed;
  }

  lemma {:induction false} FailureShows(cfg: Config, o: Oracle, root: seq<Message>, h: History, k: nat)
    requires WellFormed(h) && Try(cfg, o, root, h, k).step.Err?
    ensures ShowsFailure(o, root, h, Try(cfg, o, root, h, k).events)
  {
    var parent := TriedDescends(cfg, o, root, h, k);
    var shown := Try(cfg, o, root, h, k).events;
    var r := o.rollout(|h|, MessagesOf(root, h, parent));
    hide Try, MessagesOf, Relayed, ChildrenOf, DescendsTo;
    assert shown[1..] == Surfaced(|h|, r);
    if r.Broke? { RelayedShows(|h|, r.surfaced); }
    else if r.rollout.streamed.Some? { RelayedShows(|h|, r.rollout.streamed.value); }
  }

  /** Each completed iteration shows on the stream exactly once, and no Final comes early. */
  lemma {:induction false} SearchEvents(cfg: Config, o: Oracle, root: seq<Message>, h: History, k: nat, i: nat)
    requires WellFormed(h)
    ensures var e := SearchFrom(cfg, o, root, h, k);
            && |h| <= |e.h| && e.h[..|h|] == h
            && Finals(e.events) == []
            && (i < |h| ==> At(e.events, i) == [])
            && (|h| <= i < |e.h| ==>
                  At(e.events, i) == EventsOf(i, e.h[i]) && ShowsIteration(i, e.h[i], At(e.events, i)))
    decreases cfg.maxIterations - |h|
  {
    hide Try, Satisfied, EventsOf, Collect, IfOfStep, ShowsIteration;
    if |h| < cfg.maxIterations && !Satisfied(cfg, h) {
      var a := Try(cfg, o, root, h, k);
      TriedOfStep(cfg, o, root, h, k);
      OneStepOnly(a.events, |h|, i);
      if a.step.Ok? {
        var h' := h + [a.step.value];
        SearchEvents(cfg, o, root, h', a.draws, i);
        var rest := SearchFrom(cfg, o, root, h', a.draws);
        CollectConcat(a.events, rest.events, IfOfStep(i));
        CollectConcat(a.events, rest.events, FinalOf);
        EventsShow(|h|, a.step.value);
        assert rest.h[..|h|] == rest.h[..|h'|][..|h|] == h;
        assert rest.h[|h|] == rest.h[..|h'|][|h|] == a.step.value;
      }
    } else {
      assert At([], i) == [] && Finals([]) == [] by { OneStepOnly([], 0, i); }
    }
  }

  /** The events of the completed iterations, one iteration after the other. */
  function AllEvents(h: History): seq<OrchEvent> {
    if h == [] then [] else AllEvents(h[..|h| - 1]) + EventsOf(|h| - 1, h[|h| - 1])
  }

  lemma {:induction false} TriedStarts(cfg: Config, o: Oracle, root: seq<Message>, h: History, k: nat)
    requires WellFormed(h)
    ensures var a := Try(cfg, o, root, h, k);
            && a.events != [] && a.events[0] == StepStart(|h|)
            && (forall e :: e in a.events ==> OfStep(e, |h|))
            && (a.step.Ok? ==> AllEvents(h + [a.step.value]) == AllEvents(h) + a.events)
  {
    TriedOfStep(cfg, o, root, h, k);
    var a := Try(cfg, o, root, h, k);
    if a.step.Ok? { assert (h + [a.step.value])[..|h|] == h; }
    hide Descend, Surfaced;
  }

  /** A whole stream, in order: the events of iteration after iteration; then, if the search
      fails, those of the failing iteration, and nothing else. */
  lemma {:induction false} StreamInOrder(cfg: Config, o: Oracle, root: seq<Message>, h: History, k: nat)
    returns (tail: seq<OrchEvent>)
    requires WellFormed(h)
    ensures var e := SearchFrom(cfg, o, root, h, k);
            && AllEvents(h) + e.events == AllEvents(e.h) + tail
            && (e.failure.None? ==> tail == [])
            && (e.failure.Some? ==>
                  ShowsFailure(o, root, e.h, tail) && forall x :: x in tail ==> OfStep(x, |e.h|))
    decreases cfg.maxIterations - |h|
  {
    hide Try, Satisfied, AllEvents, ShowsFailure;
    if |h| >= cfg.maxIterations || Satisfied(cfg, h) {
      tail := [];
    } else {
      var a := Try(cfg, o, root, h, k);
      TriedStarts(cfg, o, root, h, k);
      if a.step.Ok? {
        var h' := h + [a.step.value];
        tail := StreamInOrder(cfg, o, root, h', a.draws);
        ConcatAssoc(AllEvents(h), a.events, SearchFrom(cfg, o, root, h', a.draws).events);
      } else {
        FailureShows(cfg, o, root, h, k);
        tail := a.events;
      }
    }
  }

  /** The stream of a whole search against the result of the buffered run: one Final, last and
      equal to it, when the run succeeds, none when it fails; before it the iterations, each
      shown in full. The "no rollout" error needs an iteration limit of 0. */
  lemma {:induction false} StreamMatchesRun(cfg: Config, o: Oracle, root: seq<Message>, i: nat)
    ensures var e := SearchFrom(cfg, o, root, [], 0);
            var r := ResultOf(e);
            && Finals(StreamOf(e)) == (if r.Ok? then [Final(r.value)] else [])
            && (r.Ok? ==> StreamOf(e) != [] && StreamOf(e)[|StreamOf(e)| - 1] == Final(r.value))
            && (i < |e.h| ==> ShowsIteration(i, e.h[i], At(StreamOf(e), i)))
            && (cfg.maxIterations >= 1 && e.failure.None? ==> r.Ok?)
  {
    var e := SearchFrom(cfg, o, root, [], 0);
    hide *;
    SearchEvents(cfg, o, root, [], 0, i);
    FinalAtTheEnd(e, i);
    if cfg.maxIterations >= 1 { NothingBeforeTheFirst(cfg, o, root); }
    if e.failure.None? && e.h != [] { FoundIsReturned(e); }
  }

  lemma {:induction false} FinalAtTheEnd(e: SearchEnd, i: nat)
    requires Finals(e.events) == []
    ensures var r := ResultOf(e);
            && Finals(StreamOf(e)) == (if r.Ok? then [Final(r.value)] else [])
            && (r.Ok? ==> StreamOf(e) != [] && StreamOf(e)[|StreamOf(e)| - 1] == Final(r.value))
            && At(StreamOf(e), i) == At(e.events, i)
  {
    hide OutputOf;
    if ResultOf(e).Ok? {
      var end := [Final(ResultOf(e).value)];
      CollectConcat(e.events, end, IfOfStep(i));
      CollectConcat(e.events, end, FinalOf);
      CollectOne(end[0], IfOfStep(i));
      CollectOne(end[0], FinalOf);
    }
  }

  lemma {:induction false} FoundIsReturned(e: SearchEnd)
    requires e.failure.None? && e.h != []
    ensures ResultOf(e).Ok?
  {
    hide OutputOf;
  }

  lemma {:induction false} NothingBeforeTheFirst(cfg: Config, o: Oracle, root: seq<Message>)
    requires cfg.maxIterations >= 1
    ensures var e := SearchFrom(cfg, o, root, [], 0); e.failure.None? ==> e.h != []
  {
    var a := Try(cfg, o, root, [], 0);
    if a.step.Ok? {
      SearchEvents(cfg, o, root, [a.step.value], a.draws, 0);
      assert [] + [a.step.value] == [a.step.value];
    }
    hide Try;
  }
}
