/** Whole AB-MCTS searches. `SearchFrom` says recursively which history a search ends with and
    what a stream of it emits; `Run` and `Stream` are the two loops of the source, each proved
    to compute it. */
module AbMctsRuns {
  import opened Prelude
  import opened AbMctsTree
  import opened AbMcts
  import opened AbMctsSearch

  const NO_ROLLOUT := "AbMcts: no rollout completed (try increasing max_iterations)"

  /** The step of the best leaf: the first one attaining the maximum score. */
  function Best(h: History): (b: nat)
    requires h != []
    ensures b < |h|
    ensures forall j :: 0 <= j < |h| ==> h[j].score <= h[b].score
    ensures forall j :: 0 <= j < b ==> h[j].score < h[b].score
  {
    var n := |h| - 1;
    if n == 0 then 0
    else
      var before := Best(h[..n]);
      assert forall j :: 0 <= j < n ==> h[j] == h[..n][j];
      if h[n].score > h[before].score then n else before
  }

  function TotalUsage(h: History): Usage {
    if h == [] then NO_USAGE else AddUsage(TotalUsage(h[..|h| - 1]), h[|h| - 1].rollout.usage)
  }

  function Tokens(h: History): (t: (nat, nat)) {
    if h == [] then (0, 0)
    else
      var before, u := Tokens(h[..|h| - 1]), h[|h| - 1].rollout.usage;
      (before.0 + u.inputTokens, before.1 + u.outputTokens)
  }

  /** Adding with saturation step by step is the true total, saturated once. */
  lemma {:induction false} UsageSaturatesOnce(h: History)
    ensures TotalUsage(h) == Usage(Min(Tokens(h).0, U32_MAX), Min(Tokens(h).1, U32_MAX))
  {
    if h != [] { UsageSaturatesOnce(h[..|h| - 1]); }
  }

  function OutputOf(h: History): Output
    requires h != []
  {
    var best := h[Best(h)].rollout;
    Output(best.text, best.message, TotalUsage(h), best.steps)
  }

  predicate Satisfied(cfg: Config, h: History) { h != [] && h[Best(h)].score >= cfg.minConfidence }

  datatype SearchEnd = SearchEnd(h: History, failure: Option<string>, events: seq<OrchEvent>)

  ghost function SearchFrom(cfg: Config, o: Oracle, root: seq<Message>, h: History, k: nat): (e: SearchEnd)
    requires WellFormed(h)
    ensures WellFormed(e.h)
    decreases cfg.maxIterations - |h|
  {
    if |h| >= cfg.maxIterations || Satisfied(cfg, h) then SearchEnd(h, None, [])
    else
      var a := Try(cfg, o, root, h, k);
      match a.step
      case Err(e) => SearchEnd(h, Some(e), a.events)
      case Ok(step) =>
        var rest := SearchFrom(cfg, o, root, h + [step], a.draws);
        rest.(events := a.events + rest.events)
  }

  ghost function ResultOf(e: SearchEnd): Result<Output, string> {
    match e.failure
    case Some(f) => Err(f)
    case None => if e.h == [] then Err(NO_ROLLOUT) else Ok(OutputOf(e.h))
  }

  ghost function StreamOf(e: SearchEnd): seq<OrchEvent> {
    match ResultOf(e)
    case Ok(output) => e.events + [Final(output)]
    case Err(_) => e.events
  }

  // ----- One iteration, buffered and streamed -----

  ghost predicate Holds(cfg: Config, nodes: seq<Node>, root: seq<Message>, h: History) {
    Represents(nodes, root, h) && Branching(h, Room(cfg))
  }

  method Iterate(cfg: Config, o: Oracle, nodes: seq<Node>, k: nat, ghost root: seq<Message>, ghost h: History)
    returns (r: Result<Step, string>, grown: seq<Node>, draws: nat)
    requires Holds(cfg, nodes, root, h)
    ensures var a := Try(cfg, o, root, h, k); r == a.step && draws == a.draws
    ensures if r.Ok? then Holds(cfg, grown, root, h + [r.value]) else grown == nodes
  {
    grown := nodes;
    RepresentedInOrder(nodes, root, h);
    var path;
    path, draws := Select(cfg, o, nodes, k);
    Selected(cfg, o, nodes, root, h, k, path, draws);
    hide *;
    var parent := path[|path| - 1];
    var rolled := o.rollout(|nodes| - 1, nodes[parent].messages);
    match rolled
    case Broke(e, _) => return Err(e), grown, draws;
    case Completed(rollout) =>
      var scored := o.score(|nodes| - 1, rollout.text);
      match scored
      case Err(e) => return Err(e), grown, draws;
      case Ok(s) =>
        var step := Step(parent, rollout, Clamp(s));
        grown := Grow(nodes, path, step);
        Grown(cfg, nodes, grown, path, step, root, h);
        return Ok(step), grown, draws;
  }

  /** What the descent hands to the rest of an iteration. */
  lemma {:induction false} Selected(
      cfg: Config, o: Oracle, nodes: seq<Node>, root: seq<Message>, h: History, k: nat, path: seq<nat>, draws: nat)
    requires Holds(cfg, nodes, root, h) && InOrder(nodes)
    requires Descent(path, draws) == Descend(cfg, o, nodes, [0], k)
    ensures WellFormed(h) && |nodes| == |h| + 1
    ensures IsPath(nodes, path) && Increasing(path) && path[|path| - 1] == Last(path) < |nodes|
    ensures |nodes[Last(path)].children| < Room(cfg)
    ensures Try(cfg, o, root, h, k) == TryAt(o, |h|, Last(path), nodes[Last(path)].messages, draws)
  {
    ArenaIsUnique(nodes, root, h);
    DescentShape(cfg, o, nodes, [0], k);
    hide Descend, Choose, TryAt, InOrder, Increasing;
  }

  lemma {:induction false} Grown(
      cfg: Config, before: seq<Node>, after: seq<Node>, path: seq<nat>, step: Step, root: seq<Message>, h: History)
    requires Holds(cfg, before, root, h) && WellFormed(h)
    requires IsGrown(before, after, path, step) && 0.0 <= step.score <= 1.0
    requires IsPath(before, path) && Last(path) == step.parent && |before[Last(path)].children| < Room(cfg)
    ensures Holds(cfg, after, root, h + [step])
  {
    PathIsDownward(before, root, h, path);
    GrownRepresents(before, after, path, step, root, h);
    assert before[step.parent].children == ChildrenOf(h, step.parent);
    RoomKept(h, step, Room(cfg));
  }

  /** The same iteration on a stream: every event is emitted as soon as it is known. */
  method IterateStreaming(cfg: Config, o: Oracle, nodes: seq<Node>, k: nat, ghost root: seq<Message>, ghost h: History)
    returns (r: Result<Step, string>, grown: seq<Node>, draws: nat, emitted: seq<OrchEvent>)
    requires Holds(cfg, nodes, root, h)
    ensures Attempt(r, emitted, draws) == Try(cfg, o, root, h, k)
    ensures if r.Ok? then Holds(cfg, grown, root, h + [r.value]) else grown == nodes
  {
    var iteration := |nodes| - 1;
    emitted := [StepStart(iteration)];
    grown := nodes;
    RepresentedInOrder(nodes, root, h);
    var path;
    path, draws := Select(cfg, o, nodes, k);
    Selected(cfg, o, nodes, root, h, k, path, draws);
    hide *;
    var parent, branch := path[|path| - 1], |nodes|;
    var rolled := o.rollout(iteration, nodes[parent].messages);
    var surfaced := Relay(iteration, branch, rolled);
    emitted := emitted + surfaced;
    match rolled
    case Broke(e, _) => r := Err(e);
    case Completed(rollout) =>
      var scored := o.score(iteration, rollout.text);
      match scored
      case Err(e) => r := Err(e);
      case Ok(s) =>
        var step := Step(parent, rollout, Clamp(s));
        emitted := emitted + [VerifierScore(iteration, branch, step.score)];
        grown := Grow(nodes, path, step);
        Grown(cfg, nodes, grown, path, step, root, h);
        r := Ok(step);
  }

  /** Forwards what a rollout surfaces: its own events while it streams, else its text once. */
  method Relay(iteration: nat, branch: nat, rolled: RolloutResult) returns (out: seq<OrchEvent>)
    requires branch == iteration + 1
    ensures out == Surfaced(iteration, rolled)
  {
    out := [];
    var events := match rolled
      case Broke(_, surfaced) => surfaced
      case Completed(rollout) => if rollout.streamed.Some? then rollout.streamed.value else [];
    for i := 0 to |events|
      invariant out + Relayed(iteration, events[i..]) == Relayed(iteration, events)
    {
      RelayedOnce(iteration, events[i..]);
      match events[i]
      case TextDelta(delta) => out := out + [AssistantText(iteration, delta)];
      case PartialScore(value) => out := out + [VerifierScore(iteration, branch, value)];
    }
    if rolled.Completed? && rolled.rollout.streamed.None? && rolled.rollout.text != "" {
      out := [AssistantText(iteration, rolled.rollout.text)];
    }
  }

  lemma {:induction false} RelayedOnce(i: nat, events: seq<RolloutEvent>)
    requires events != []
    ensures forall before ::
      before + Relayed(i, events) ==
      before
      + [if events[0].TextDelta? then AssistantText(i, events[0].text) else VerifierScore(i, i + 1, events[0].value)]
      + Relayed(i, events[1..])
  {
  }

  // ----- The two loops -----

  lemma {:induction false} SearchStops(cfg: Config, o: Oracle, root: seq<Message>, h: History, k: nat)
    requires WellFormed(h) && (|h| >= cfg.maxIterations || Satisfied(cfg, h))
    ensures SearchFrom(cfg, o, root, h, k) == SearchEnd(h, None, [])
  {
  }

  /** The search goes on from history h as the whole search does, having emitted `emitted`. */
  ghost predicate OnTrack(cfg: Config, o: Oracle, root: seq<Message>, h: History, k: nat, emitted: seq<OrchEvent>) {
    && WellFormed(h)
    && var rest := SearchFrom(cfg, o, root, h, k);
       SearchFrom(cfg, o, root, [], 0) == rest.(events := emitted + rest.events)
  }

  lemma {:induction false} SearchOnce(
      cfg: Config, o: Oracle, root: seq<Message>, h: History, k: nat, emitted: seq<OrchEvent>)
    requires OnTrack(cfg, o, root, h, k, emitted) && |h| < cfg.maxIterations && !Satisfied(cfg, h)
    ensures WellFormed(h)
    ensures var a := Try(cfg, o, root, h, k);
            match a.step
            case Err(e) =>
              && SearchFrom(cfg, o, root, [], 0) == SearchEnd(h, Some(e), emitted + a.events)
              && ResultOf(SearchFrom(cfg, o, root, [], 0)) == Err(e)
            case Ok(step) => OnTrack(cfg, o, root, h + [step], a.draws, emitted + a.events)
  {
    hide Try, Best, Satisfied;
    var a := Try(cfg, o, root, h, k);
    if a.step.Ok? {
      var rest := SearchFrom(cfg, o, root, h + [a.step.value], a.draws);
      assert emitted + (a.events + rest.events) == emitted + a.events + rest.events;
    }
  }

  /** The loop variables of both loops after history h. */
  datatype Tally = Tally(bestLeaf: Option<nat>, bestScore: real, usage: Usage)

  function TallyOf(h: History): Tally {
    if h == [] then Tally(None, -1.0, NO_USAGE) else Tally(Some(Best(h) + 1), h[Best(h)].score, TotalUsage(h))
  }

  lemma {:induction false} CountOnce(h: History, step: Step)
    requires WellFormed(h + [step])
    ensures var h' := h + [step];
            var was := TallyOf(h);
            TallyOf(h') == Tally(
              if step.score > was.bestScore then Some(|h| + 1) else was.bestLeaf,
              if step.score > was.bestScore then step.score else was.bestScore,
              AddUsage(was.usage, step.rollout.usage))
  {
    var h' := h + [step];
    assert h'[..|h|] == h && h'[|h|] == step;
    assert 0.0 <= h'[|h|].score;
    assert TotalUsage(h') == AddUsage(TotalUsage(h), step.rollout.usage);
    if h != [] {
      assert h'[Best(h)] == h[Best(h)];
      assert Best(h') == if step.score > h[Best(h)].score then |h| else Best(h);
    }
  }

  method Count(t: Tally, leaf: nat, step: Step, ghost h: History) returns (t': Tally)
    requires t == TallyOf(h) && leaf == |h| + 1 && WellFormed(h + [step])
    ensures t' == TallyOf(h + [step])
  {
    CountOnce(h, step);
    t' := t.(usage := AddUsage(t.usage, step.rollout.usage));
    if step.score > t.bestScore { t' := t'.(bestScore := step.score, bestLeaf := Some(leaf)); }
  }

  /** The best leaf of the arena, read back. */
  method Conclude(cfg: Config, nodes: seq<Node>, t: Tally, ghost root: seq<Message>, ghost h: History)
    returns (r: Result<Output, string>)
    requires Holds(cfg, nodes, root, h) && t == TallyOf(h)
    ensures forall events :: r == ResultOf(SearchEnd(h, None, events))
  {
    match t.bestLeaf
    case None => return Err(NO_ROLLOUT);
    case Some(leaf) =>
      var best := nodes[leaf].output.value;
      return Ok(Output(best.text, best.message, t.usage, best.steps));
  }

  const NO_TALLY := Tally(None, -1.0, NO_USAGE)

  /** Where both loops start. */
  lemma {:induction false} SearchStarts(cfg: Config, o: Oracle, root: seq<Message>)
    ensures Holds(cfg, [Node(root, 1.0, 1.0, [], None)], root, []) && TallyOf([]) == NO_TALLY
    ensures OnTrack(cfg, o, root, [], 0, []) && !Satisfied(cfg, [])
  {
  }

  lemma {:induction false} TallySatisfies(cfg: Config, h: History)
    requires h != []
    ensures TallyOf(h).bestScore >= cfg.minConfidence <==> Satisfied(cfg, h)
  {
  }

  lemma {:induction false} EndsOnTrack(
      cfg: Config, o: Oracle, root: seq<Message>, h: History, k: nat, emitted: seq<OrchEvent>)
    requires OnTrack(cfg, o, root, h, k, emitted) && (|h| >= cfg.maxIterations || Satisfied(cfg, h))
    ensures SearchFrom(cfg, o, root, [], 0) == SearchEnd(h, None, emitted)
  {
    SearchStops(cfg, o, root, h, k);
  }

  /** `nodes` and `h` are the arena the search built and its history. */
  method Run(cfg: Config, o: Oracle, root: seq<Message>)
    returns (r: Result<Output, string>, ghost nodes: seq<Node>, ghost h: History)
    ensures r == ResultOf(SearchFrom(cfg, o, root, [], 0))
    ensures r.Ok? ==> ReturnsTheBest(h, r.value)
    ensures h == SearchFrom(cfg, o, root, [], 0).h
    ensures Represents(nodes, root, h) && Conserved(nodes, h) && Branching(h, Room(cfg))
  {
    hide *;
    SearchStarts(cfg, o, root);
    var arena, k, t := [Node(root, 1.0, 1.0, [], None)], 0, NO_TALLY;
    ghost var emitted := [];
    h := [];
    for iteration := 0 to cfg.maxIterations
      invariant |h| == iteration && Holds(cfg, arena, root, h) && t == TallyOf(h)
      invariant OnTrack(cfg, o, root, h, k, emitted) && !Satisfied(cfg, h)
    {
      SearchOnce(cfg, o, root, h, k, emitted);
      emitted := emitted + Try(cfg, o, root, h, k).events;
      var tried, draws;
      tried, arena, draws := Iterate(cfg, o, arena, k, root, h);
      k := draws;
      match tried
      case Err(e) =>
        Searched(cfg, arena, root, h);
        return Err(e), arena, h;
      case Ok(step) =>
        t := Count(t, iteration + 1, step, h);
        h := h + [step];
        TallySatisfies(cfg, h);
        if t.bestScore >= cfg.minConfidence { break; }
    }
    EndsOnTrack(cfg, o, root, h, k, emitted);
    r := Conclude(cfg, arena, t, root, h);
    nodes := arena;
    Searched(cfg, nodes, root, h);
    ResultReturnsTheBest(SearchFrom(cfg, o, root, [], 0));
  }

  lemma {:induction false} Searched(cfg: Config, nodes: seq<Node>, root: seq<Message>, h: History)
    requires Holds(cfg, nodes, root, h)
    ensures Represents(nodes, root, h) && Conserved(nodes, h) && Branching(h, Room(cfg))
  {
    RepresentedIsConserved(nodes, root, h);
  }

  method Stream(cfg: Config, o: Oracle, root: seq<Message>)
    returns (events: seq<OrchEvent>, failure: Option<string>, ghost nodes: seq<Node>, ghost h: History)
    ensures var e := SearchFrom(cfg, o, root, [], 0);
            && events == StreamOf(e)
            && failure == (if ResultOf(e).Ok? then None else Some(ResultOf(e).error))
    ensures failure.None? ==>
              && events != [] && events[|events| - 1].Final?
              && ReturnsTheBest(h, events[|events| - 1].output)
    ensures h == SearchFrom(cfg, o, root, [], 0).h
    ensures Represents(nodes, root, h) && Conserved(nodes, h) && Branching(h, Room(cfg))
  {
    var r;
    events, r, nodes, h := StreamIterations(cfg, o, root);
    ResultReturnsTheBest(SearchFrom(cfg, o, root, [], 0));
    hide ReturnsTheBest, SearchFrom, OutputOf, Represents, Conserved, Branching;
    failure := None;
    match r
    case Ok(output) => events := events + [Final(output)];
    case Err(error) => failure := Some(error);
  }

  method StreamIterations(cfg: Config, o: Oracle, root: seq<Message>)
    returns (events: seq<OrchEvent>, r: Result<Output, string>, ghost nodes: seq<Node>, ghost h: History)
    ensures var e := SearchFrom(cfg, o, root, [], 0); events == e.events && r == ResultOf(e)
    ensures h == SearchFrom(cfg, o, root, [], 0).h
    ensures Represents(nodes, root, h) && Conserved(nodes, h) && Branching(h, Room(cfg))
  {
    hide *;
    SearchStarts(cfg, o, root);
    var arena, k, t := [Node(root, 1.0, 1.0, [], None)], 0, NO_TALLY;
    events, h := [], [];
    for iteration := 0 to cfg.maxIterations
      invariant |h| == iteration && Holds(cfg, arena, root, h) && t == TallyOf(h)
      invariant OnTrack(cfg, o, root, h, k, events) && !Satisfied(cfg, h)
    {
      SearchOnce(cfg, o, root, h, k, events);
      var tried, draws, emitted;
      tried, arena, draws, emitted := IterateStreaming(cfg, o, arena, k, root, h);
      k := draws;
      events := events + emitted;
      match tried
      case Err(e) =>
        Searched(cfg, arena, root, h);
        return events, Err(e), arena, h;
      case Ok(step) =>
        t := Count(t, iteration + 1, step, h);
        h := h + [step];
        TallySatisfies(cfg, h);
        if t.bestScore >= cfg.minConfidence { break; }
    }
    EndsOnTrack(cfg, o, root, h, k, events);
    r := Conclude(cfg, arena, t, root, h);
    nodes := arena;
    Searched(cfg, nodes, root, h);
  }

  // ----- What every search does -----

  /** Iteration i of history h, with k samples drawn before it and k' after it: no score so far was
      good enough; the descent took at every node what its samples call for and ended at the
      parent; the rollout continued the messages of the parent's path; the score is the
      verifier's, brought into 0..1. */
  ghost predicate IsIteration(cfg: Config, o: Oracle, root: seq<Message>, h: History, i: nat, k: nat, k': nat)
    requires WellFormed(h) && i < |h|
  {
    && (forall j :: 0 <= j < i ==> h[j].score < cfg.minConfidence)
    && DescendsTo(cfg, o, root, h[..i], h[i].parent, k, k')
    && o.rollout(i, MessagesOf(root, h[..i], h[i].parent)) == Completed(h[i].rollout)
    && exists x ::
         && o.score(i, h[i].rollout.text) == Ok(x)
         && (x < 0.0 ==> h[i].score == 0.0) && (x > 1.0 ==> h[i].score == 1.0)
         && (0.0 <= x <= 1.0 ==> h[i].score == x)
  }

  /** A descent in the arena of h leads to `parent`, and draws samples k up to k'. */
  ghost predicate DescendsTo(
      cfg: Config, o: Oracle, root: seq<Message>, h: History, parent: nat, k: nat, k': nat)
    requires WellFormed(h)
  {
    && InOrder(ArenaOf(root, h))
    && exists path, ks ::
         && IsDescent(cfg, o, ArenaOf(root, h), path, ks)
         && path[|path| - 1] == parent && ks[0] == k && ks[|path|] == k'
  }

  /** After history h and k samples the next iteration fails with `error`: its rollout, from the
      node the descent leads to, breaks off, or the verifier fails on it. */
  ghost predicate FailsNext(cfg: Config, o: Oracle, root: seq<Message>, h: History, k: nat, error: string)
    requires WellFormed(h)
  {
    exists parent: nat, k': nat ::
      && parent <= |h| && DescendsTo(cfg, o, root, h, parent, k, k')
      && match o.rollout(|h|, MessagesOf(root, h, parent))
         case Broke(e, _) => e == error
         case Completed(rollout) => o.score(|h|, rollout.text) == Err(error)
  }

  lemma {:induction false} SatisfiedMeans(cfg: Config, h: History)
    ensures Satisfied(cfg, h) <==> exists j :: 0 <= j < |h| && h[j].score >= cfg.minConfidence
  {
  }

  lemma {:induction false} TriedDescends(cfg: Config, o: Oracle, root: seq<Message>, h: History, k: nat)
    returns (parent: nat)
    requires WellFormed(h)
    ensures parent <= |h| && |ChildrenOf(h, parent)| < Room(cfg)
    ensures var a := Try(cfg, o, root, h, k);
            && a == TryAt(o, |h|, parent, MessagesOf(root, h, parent), a.draws)
            && DescendsTo(cfg, o, root, h, parent, k, a.draws)
  {
    var nodes := ArenaOf(root, h);
    RepresentedInOrder(nodes, root, h);
    DescentShape(cfg, o, nodes, [0], k);
    var d := Descend(cfg, o, nodes, [0], k);
    hide Descend, IsDescent, Decides, InOrder, TryAt, MessagesOf;
    var ks := DescentFollowsTheSamples(cfg, o, nodes, [0], [k]) by { StartsAtTheRoot(cfg, o, nodes, k); }
    parent := Last(d.path);
    assert nodes[parent].children == ChildrenOf(h, parent);
    DescentLength(cfg, o, nodes, d.path, ks);
  }

  lemma {:induction false} StartsAtTheRoot(cfg: Config, o: Oracle, nodes: seq<Node>, k: nat)
    requires InOrder(nodes) && nodes != []
    ensures IsPartialDescent(cfg, o, nodes, [0], [k])
  {
  }

  lemma {:induction false} DescentLength(cfg: Config, o: Oracle, nodes: seq<Node>, path: seq<nat>, ks: seq<nat>)
    requires InOrder(nodes) && IsDescent(cfg, o, nodes, path, ks)
    ensures path != [] && |ks| == |path| + 1
  {
  }

  lemma {:induction false} TriedStep(cfg: Config, o: Oracle, root: seq<Message>, h: History, k: nat, step: Step)
    requires WellFormed(h) && Branching(h, Room(cfg)) && !Satisfied(cfg, h)
    requires Try(cfg, o, root, h, k).step == Ok(step)
    ensures WellFormed(h + [step]) && Branching(h + [step], Room(cfg))
    ensures IsIteration(cfg, o, root, h + [step], |h|, k, Try(cfg, o, root, h, k).draws)
  {
    var parent := TriedDescends(cfg, o, root, h, k);
    SatisfiedMeans(cfg, h);
    var h' := h + [step];
    assert h'[..|h|] == h && h'[|h|] == step;
    hide Try, ChildrenOf, Branching, Satisfied, MessagesOf, DescendsTo;
    RoomKept(h, step, Room(cfg));
    assert forall j :: 0 <= j < |h| ==> h'[j] == h[j];
  }

  lemma {:induction false} TriedFails(cfg: Config, o: Oracle, root: seq<Message>, h: History, k: nat)
    requires WellFormed(h) && Try(cfg, o, root, h, k).step.Err?
    ensures FailsNext(cfg, o, root, h, k, Try(cfg, o, root, h, k).step.error)
  {
    var parent := TriedDescends(cfg, o, root, h, k);
    hide Try, DescendsTo, MessagesOf;
  }

  /** d[i] samples are drawn before iteration i. A search stops at the first score that reaches
      `minConfidence`, at the iteration limit, or at the iteration that fails; every iteration
      before is as said; and no node gets more children than there is room for. */
  lemma {:induction false} SearchShape(cfg: Config, o: Oracle, root: seq<Message>, h: History, d: seq<nat>)
    returns (all: seq<nat>)
    requires WellFormed(h) && |h| <= cfg.maxIterations && Branching(h, Room(cfg)) && |d| == |h| + 1
    requires forall i :: 0 <= i < |h| ==> IsIteration(cfg, o, root, h, i, d[i], d[i + 1])
    ensures var e := SearchFrom(cfg, o, root, h, d[|h|]);
            && |e.h| <= cfg.maxIterations && Branching(e.h, Room(cfg)) && |all| == |e.h| + 1
            && (forall i :: 0 <= i < |e.h| ==> IsIteration(cfg, o, root, e.h, i, all[i], all[i + 1]))
            && (match e.failure
                case None =>
                  || |e.h| == cfg.maxIterations
                  || exists j :: 0 <= j < |e.h| && e.h[j].score >= cfg.minConfidence
                case Some(f) => FailsNext(cfg, o, root, e.h, all[|e.h|], f))
    decreases cfg.maxIterations - |h|
  {
    all := d;
    SatisfiedMeans(cfg, h);
    hide Try, Best, Satisfied, Branching, IsIteration, FailsNext;
    if |h| < cfg.maxIterations && !Satisfied(cfg, h) {
      var a := Try(cfg, o, root, h, d[|h|]);
      if a.step.Ok? {
        var step := a.step.value;
        TriedStep(cfg, o, root, h, d[|h|], step);
        var d' := d + [a.draws];
        forall i | 0 <= i < |h| ensures IsIteration(cfg, o, root, h + [step], i, d'[i], d'[i + 1]) {
          IterationStable(cfg, o, root, h, step, i, d[i], d[i + 1]);
        }
        all := SearchShape(cfg, o, root, h + [step], d');
      } else {
        TriedFails(cfg, o, root, h, d[|h|]);
      }
    }
  }

  lemma {:induction false} IterationStable(
      cfg: Config, o: Oracle, root: seq<Message>, h: History, step: Step, i: nat, k: nat, k': nat)
    requires WellFormed(h + [step]) && WellFormed(h) && i < |h| && IsIteration(cfg, o, root, h, i, k, k')
    ensures IsIteration(cfg, o, root, h + [step], i, k, k')
  {
    assert (h + [step])[..i] == h[..i] && (h + [step])[i] == h[i];
    assert forall j :: 0 <= j < i ==> (h + [step])[j] == h[j];
    hide DescendsTo, MessagesOf;
  }

  // ----- What a search returns -----

  /** The output is that of the first of the best-scored leaves, with the tokens of all
      iterations, each total cut off at the largest u32. */
  ghost predicate ReturnsTheBest(h: History, out: Output) {
    && (exists b: nat ::
          && b < |h|
          && (forall j :: 0 <= j < |h| ==> h[j].score <= h[b].score)
          && (forall j :: 0 <= j < b ==> h[j].score < h[b].score)
          && out.text == h[b].rollout.text && out.message == h[b].rollout.message && out.steps == h[b].rollout.steps)
    && out.usage.inputTokens == (if Tokens(h).0 <= 0xFFFF_FFFF then Tokens(h).0 else 0xFFFF_FFFF)
    && out.usage.outputTokens == (if Tokens(h).1 <= 0xFFFF_FFFF then Tokens(h).1 else 0xFFFF_FFFF)
  }

  lemma {:induction false} ResultReturnsTheBest(e: SearchEnd)
    ensures match ResultOf(e)
            case Ok(out) => e.failure.None? && ReturnsTheBest(e.h, out)
            case Err(f) => e.failure == Some(f) || (e.failure.None? && e.h == [] && f == NO_ROLLOUT)
  {
    UsageSaturatesOnce(e.h);
    hide Tokens, TotalUsage, Best;
  }
}
