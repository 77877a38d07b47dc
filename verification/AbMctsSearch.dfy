/** One AB-MCTS iteration on the arena: the selection loop, what an attempt comes to, and the
    in-place insertion and back-propagation. */
module AbMctsSearch {
  import opened Prelude
  import opened AbMctsTree
  import opened AbMcts

  // ----- What one iteration does to the arena -----

  function Bumped(n: Node, score: real): Node { n.(alpha := n.alpha + score, beta := n.beta + (1.0 - score)) }

  /** `after` is `before` with the leaf inserted and the path, leaf included, back-propagated. */
  ghost predicate IsGrown(before: seq<Node>, after: seq<Node>, path: seq<nat>, step: Step) {
    && step.parent < |before|
    && |after| == |before| + 1
    && after[|before|] ==
       Node(before[step.parent].messages + [step.rollout.message],
            1.0 + step.score, 1.0 + (1.0 - step.score), [], Some(step.rollout))
    && forall v :: 0 <= v < |before| ==>
      var node := if v in path then Bumped(before[v], step.score) else before[v];
      after[v] == node.(children := before[v].children + if v == step.parent then [|before|] else [])
  }

  /** Growing along the ancestry of the parent keeps the arena the one its history describes. */
  lemma {:induction false} GrownRepresents(
      before: seq<Node>, after: seq<Node>, path: seq<nat>, step: Step, root: seq<Message>, h: History)
    requires Represents(before, root, h) && IsGrown(before, after, path, step) && 0.0 <= step.score <= 1.0
    requires IsDownward(h, path) && path != [] && path[0] == 0 && Last(path) == step.parent
    ensures Represents(after, root, h + [step])
  {
    NewNode(root, h, step);
    forall v: nat | v < |before| ensures after[v] == NodeOf(root, h + [step], v) {
      hide Represents, Under, IsDownward, WellFormed, MessagesOf, SubtreeScore, SubtreeSize, ChildrenOf;
      OldNodeGrows(root, h, step, v);
      DownwardIsAncestry(h, path, v);
    }
  }

  lemma {:induction false} RoomKept(h: History, step: Step, factor: nat)
    requires Branching(h, factor) && |ChildrenOf(h, step.parent)| < factor
    ensures Branching(h + [step], factor)
  {
    var h' := h + [step];
    assert h'[..|h|] == h;
    forall v: nat ensures |ChildrenOf(h', v)| <= factor {
      assert |ChildrenOf(h, v)| <= factor;
    }
  }

  ghost function ArenaOf(root: seq<Message>, h: History): (nodes: seq<Node>)
    requires WellFormed(h)
    ensures Represents(nodes, root, h)
  {
    seq(|h| + 1, v requires 0 <= v <= |h| => NodeOf(root, h, v))
  }

  lemma {:induction false} ArenaIsUnique(nodes: seq<Node>, root: seq<Message>, h: History)
    requires Represents(nodes, root, h)
    ensures nodes == ArenaOf(root, h)
  {
  }

  datatype Attempt = Attempt(step: Result<Step, string>, events: seq<OrchEvent>, draws: nat)

  /** What a rollout puts on the stream: its own deltas and partial scores when the provider
      streams, else its text once, unless empty. */
  function Surfaced(i: nat, r: RolloutResult): seq<OrchEvent> {
    match r
    case Broke(_, surfaced) => Relayed(i, surfaced)
    case Completed(rollout) =>
      match rollout.streamed
      case Some(events) => Relayed(i, events)
      case None => if rollout.text == "" then [] else [AssistantText(i, rollout.text)]
  }

  function Relayed(i: nat, events: seq<RolloutEvent>): seq<OrchEvent> {
    if events == [] then []
    else
      var e := events[0];
      [if e.TextDelta? then AssistantText(i, e.text) else VerifierScore(i, i + 1, e.value)] + Relayed(i, events[1..])
  }

  /** Iteration i once the descent has chosen `parent`, whose messages are given. */
  function TryAt(o: Oracle, i: nat, parent: nat, messages: seq<Message>, draws: nat): (a: Attempt)
    ensures a.step.Ok? ==> a.step.value.parent == parent && 0.0 <= a.step.value.score <= 1.0
  {
    var r := o.rollout(i, messages);
    var events := [StepStart(i)] + Surfaced(i, r);
    match r
    case Broke(e, _) => Attempt(Err(e), events, draws)
    case Completed(rollout) =>
      match o.score(i, rollout.text)
      case Err(e) => Attempt(Err(e), events, draws)
      case Ok(s) => Attempt(Ok(Step(parent, rollout, Clamp(s))), events + [VerifierScore(i, i + 1, Clamp(s))], draws)
  }

  /** Iteration |h|, after history h and k samples. */
  ghost function Try(cfg: Config, o: Oracle, root: seq<Message>, h: History, k: nat): (a: Attempt)
    requires WellFormed(h)
    ensures a.step.Ok? ==> WellFormed(h + [a.step.value])
  {
    var nodes := ArenaOf(root, h);
    RepresentedInOrder(nodes, root, h);
    var d := Descend(cfg, o, nodes, [0], k);
    DescentShape(cfg, o, nodes, [0], k);
    var parent := Last(d.path);
    TryAt(o, |h|, parent, MessagesOf(root, h, parent), d.draws)
  }

  lemma {:induction false} DescendStops(cfg: Config, o: Oracle, nodes: seq<Node>, path: seq<nat>, k: nat)
    requires InOrder(nodes) && path != [] && Last(path) < |nodes|
    requires Choose(cfg, o, nodes, Last(path), k) == Expand
    ensures Descend(cfg, o, nodes, path, k) == Descent(path, k + 1 + |nodes[Last(path)].children|)
  {
    hide Choose;
  }

  lemma {:induction false} DescendGoes(cfg: Config, o: Oracle, nodes: seq<Node>, path: seq<nat>, k: nat, c: nat)
    requires InOrder(nodes) && path != [] && Last(path) < |nodes|
    requires Choose(cfg, o, nodes, Last(path), k) == Go(c)
    ensures c < |nodes| && Last(path + [c]) == c
    ensures Descend(cfg, o, nodes, path, k) == Descend(cfg, o, nodes, path + [c], k + 1 + |nodes[Last(path)].children|)
  {
    hide Choose;
  }

  // ----- Selection -----

  lemma {:induction false} BestChildOnce(o: Oracle, nodes: seq<Node>, current: nat, k: nat, i: nat)
    requires InOrder(nodes) && current < |nodes| && 0 < i < |nodes[current].children|
    ensures var m := BestChild(o, nodes, current, k, i);
            BestChild(o, nodes, current, k, i + 1) ==
              if Sample(o, nodes, current, k, i) > Sample(o, nodes, current, k, m) then i else m
  {
  }

  /** One node of the descent: draws the samples and keeps the first best child. */
  method Pick(cfg: Config, o: Oracle, nodes: seq<Node>, current: nat, k: nat) returns (choice: Choice, draws: nat)
    requires InOrder(nodes) && current < |nodes|
    ensures choice == Choose(cfg, o, nodes, current, k)
    ensures draws == k + 1 + |nodes[current].children|
  {
    var children := nodes[current].children;
    var newSample := o.draw(k, 1.0, 1.0);
    if children == [] { return Expand, k + 1; }
    var best, bestSample := BestOf(o, nodes, current, k);
    draws := k + 1 + |children|;
    if |children| < cfg.branchingFactor && newSample > bestSample {
      choice := Expand;
    } else {
      choice := Go(children[best]);
    }
  }

  /** Draws a sample per child; keeps the first best. */
  method BestOf(o: Oracle, nodes: seq<Node>, current: nat, k: nat) returns (best: nat, bestSample: real)
    requires InOrder(nodes) && current < |nodes| && nodes[current].children != []
    ensures best == BestChild(o, nodes, current, k, |nodes[current].children|)
    ensures bestSample == Sample(o, nodes, current, k, best)
  {
    best, bestSample := 0, Sample(o, nodes, current, k, 0);
    for i := 1 to |nodes[current].children|
      invariant best == BestChild(o, nodes, current, k, i)
      invariant bestSample == Sample(o, nodes, current, k, best)
    {
      BestChildOnce(o, nodes, current, k, i);
      hide *;
      var s := Sample(o, nodes, current, k, i);
      if s > bestSample { bestSample, best := s, i; }
    }
  }

  /** The descent from the root. */
  method Select(cfg: Config, o: Oracle, nodes: seq<Node>, k: nat) returns (path: seq<nat>, draws: nat)
    requires nodes != [] && InOrder(nodes)
    ensures Descent(path, draws) == Descend(cfg, o, nodes, [0], k)
  {
    hide *;
    path, draws := [0], k;
    LastOfOne(0);
    while true
      invariant path != [] && Last(path) < |nodes|
      invariant Descend(cfg, o, nodes, path, draws) == Descend(cfg, o, nodes, [0], k)
      decreases |nodes| - Last(path)
    {
      ghost var k' := draws;
      var choice;
      choice, draws := Pick(cfg, o, nodes, Last(path), draws);
      match choice
      case Expand =>
        DescendStops(cfg, o, nodes, path, k');
        return;
      case Go(next) =>
        DescendGoes(cfg, o, nodes, path, k', next);
        path := path + [next];
    }
  }

  lemma {:induction false} LastOfOne(v: nat)
    ensures Last([v]) == v
  {
  }

  // ----- Insertion and back-propagation -----

  method Grow(nodes: seq<Node>, path: seq<nat>, step: Step) returns (grown: seq<Node>)
    requires Increasing(path) && path != [] && Last(path) == step.parent < |nodes|
    ensures IsGrown(nodes, grown, path, step)
  {
    var leaf := |nodes|;
    var parent := step.parent;
    grown := nodes + [Node(nodes[parent].messages + [step.rollout.message], 1.0, 1.0, [], Some(step.rollout))];
    grown := grown[parent := grown[parent].(children := grown[parent].children + [leaf])];
    ghost var inserted := grown;
    var route := path + [leaf];
    for i := 0 to |route|
      invariant |grown| == |inserted|
      invariant forall v: nat :: v < |grown| ==>
        grown[v] == if v in route[..i] then Bumped(inserted[v], step.score) else inserted[v]
    {
      hide Bumped;
      var n := route[i];
      ghost var was := grown;
      assert n !in route[..i];
      grown := grown[n := Bumped(grown[n], step.score)];
      forall v: nat | v < |grown|
        ensures grown[v] == if v in route[..i + 1] then Bumped(inserted[v], step.score) else inserted[v]
      {
        InPrefix(route, i, v);
      }
    }
    assert route[..|route|] == route;
    assert forall v :: v in route <==> v in path || v == leaf;
    assert leaf !in path;
  }

  lemma {:induction false} InPrefix(route: seq<nat>, i: nat, v: nat)
    requires i < |route|
    ensures v in route[..i + 1] <==> v in route[..i] || v == route[i]
  {
    assert route[..i + 1] == route[..i] + [route[i]];
  }
}
