/** AB-MCTS selection: the oracles of a search, and Thompson sampling from the root down to the
    node to expand. Beta samples, rollouts and verifier scores are oracles; f32 is real. */
module AbMcts {
  import opened Prelude
  import opened AbMctsTree

  datatype Config = Config(maxIterations: nat, branchingFactor: nat, minConfidence: real)

  datatype RolloutResult = Completed(rollout: Rollout) | Broke(error: string, surfaced: seq<RolloutEvent>)

  /** `draw(k, a, b)`: the k-th sample, from Beta(a, b). `rollout` and `score` are what the
      picked provider and the verifier do in a given iteration. */
  datatype Oracle = Oracle(
    draw: (nat, real, real) -> real,
    rollout: (nat, seq<Message>) -> RolloutResult,
    score: (nat, string) -> Result<real, string>)

  datatype Output = Output(text: string, message: Message, usage: Usage, steps: nat)

  datatype OrchEvent =
    | StepStart(step: nat)
    | AssistantText(step: nat, delta: string)
    | VerifierScore(step: nat, branch: nat, value: real)
    | Final(output: Output)

  function Clamp(x: real): (y: real)
    ensures 0.0 <= y <= 1.0
    ensures (x <= 0.0 ==> y == 0.0) && (0.0 <= x <= 1.0 ==> y == x) && (x >= 1.0 ==> y == 1.0)
  {
    if x < 0.0 then 0.0 else if x > 1.0 then 1.0 else x
  }

  // ----- Selection -----

  predicate InOrder(nodes: seq<Node>) {
    forall v, j :: 0 <= v < |nodes| && 0 <= j < |nodes[v].children| ==> v < nodes[v].children[j] < |nodes|
  }

  /** The sample drawn for child j of `current`, k samples having been drawn before it arrived there. */
  function Sample(o: Oracle, nodes: seq<Node>, current: nat, k: nat, j: nat): real
    requires InOrder(nodes) && current < |nodes| && j < |nodes[current].children|
  {
    var child := nodes[nodes[current].children[j]];
    o.draw(k + 1 + j, child.alpha, child.beta)
  }

  /** Which of the first n children has the best sample; later ties do not win. */
  function BestChild(o: Oracle, nodes: seq<Node>, current: nat, k: nat, n: nat): (m: nat)
    requires InOrder(nodes) && current < |nodes| && 0 < n <= |nodes[current].children|
    ensures m < n
    ensures forall j :: 0 <= j < n ==> Sample(o, nodes, current, k, j) <= Sample(o, nodes, current, k, m)
    ensures forall j :: 0 <= j < m ==> Sample(o, nodes, current, k, j) < Sample(o, nodes, current, k, m)
  {
    if n == 1 then 0
    else
      var before := BestChild(o, nodes, current, k, n - 1);
      if Sample(o, nodes, current, k, n - 1) > Sample(o, nodes, current, k, before) then n - 1 else before
  }

  /** What the samples drawn at a node decide: open a new branch, or go down to a child. */
  datatype Choice = Expand | Go(child: nat)

  function Choose(cfg: Config, o: Oracle, nodes: seq<Node>, current: nat, k: nat): (c: Choice)
    requires InOrder(nodes) && current < |nodes|
    ensures c.Go? ==> c.child in nodes[current].children && current < c.child < |nodes|
    ensures c.Expand? ==> |nodes[current].children| < Room(cfg)
  {
    var children := nodes[current].children;
    if children == [] then Expand
    else
      var best := BestChild(o, nodes, current, k, |children|);
      if |children| < cfg.branchingFactor && o.draw(k, 1.0, 1.0) > Sample(o, nodes, current, k, best) then Expand
      else Go(children[best])
  }

  /** The sample of child j of v when k samples were drawn before its parent's own. */
  ghost function ChildDraw(o: Oracle, nodes: seq<Node>, v: nat, k: nat, j: int): real
    requires InOrder(nodes) && v < |nodes| && 0 <= j < |nodes[v].children|
  {
    var c := nodes[v].children[j];
    o.draw(k + 1 + j, nodes[c].alpha, nodes[c].beta)
  }

  /** What happens at node v when k samples were drawn before, on the samples alone: sample k is
      that of a new branch, sample k + 1 + j that of child j. A new branch (None) needs a node
      without children, or room and a sample above all theirs; otherwise the first child with the
      largest sample is next. */
  ghost predicate Decides(cfg: Config, o: Oracle, nodes: seq<Node>, v: nat, k: nat, next: Option<nat>)
    requires InOrder(nodes) && v < |nodes|
  {
    var cs := nodes[v].children;
    match next
    case None =>
      || cs == []
      || (&& |cs| < cfg.branchingFactor
          && forall j :: 0 <= j < |cs| ==> o.draw(k, 1.0, 1.0) > ChildDraw(o, nodes, v, k, j))
    case Some(c) =>
      exists m ::
        && 0 <= m < |cs| && cs[m] == c
        && (forall j :: 0 <= j < |cs| ==> ChildDraw(o, nodes, v, k, j) <= ChildDraw(o, nodes, v, k, m))
        && (forall j :: 0 <= j < m ==> ChildDraw(o, nodes, v, k, j) < ChildDraw(o, nodes, v, k, m))
        && (|cs| >= cfg.branchingFactor || o.draw(k, 1.0, 1.0) <= ChildDraw(o, nodes, v, k, m))
  }

  /** The whole descent to `path`, the samples drawn before each node being ks. */
  ghost predicate IsDescent(cfg: Config, o: Oracle, nodes: seq<Node>, path: seq<nat>, ks: seq<nat>)
    requires InOrder(nodes)
  {
    && path != [] && path[0] == 0 && |ks| == |path| + 1
    && (forall i :: 0 <= i < |path| ==> path[i] < |nodes| && ks[i + 1] == ks[i] + 1 + |nodes[path[i]].children|)
    && forall i :: 0 <= i < |path| ==>
         Decides(cfg, o, nodes, path[i], ks[i], if i + 1 < |path| then Some(path[i + 1]) else None)
  }

  lemma {:induction false} ChoiceDecides(cfg: Config, o: Oracle, nodes: seq<Node>, v: nat, k: nat)
    requires InOrder(nodes) && v < |nodes|
    ensures match Choose(cfg, o, nodes, v, k)
            case Expand => Decides(cfg, o, nodes, v, k, None)
            case Go(c) => Decides(cfg, o, nodes, v, k, Some(c))
  {
    var cs := nodes[v].children;
    if cs != [] {
      var m := BestChild(o, nodes, v, k, |cs|);
      SamplesAreDraws(o, nodes, v, k);
      hide BestChild, Sample, ChildDraw, InOrder;
    }
  }

  lemma {:induction false} SamplesAreDraws(o: Oracle, nodes: seq<Node>, v: nat, k: nat)
    requires InOrder(nodes) && v < |nodes|
    ensures forall j :: 0 <= j < |nodes[v].children| ==> Sample(o, nodes, v, k, j) == ChildDraw(o, nodes, v, k, j)
  {
  }

  /** The part of a descent that is behind: `path` so far, with no decision yet at its end. */
  ghost predicate IsPartialDescent(cfg: Config, o: Oracle, nodes: seq<Node>, path: seq<nat>, ks: seq<nat>)
    requires InOrder(nodes)
  {
    && path != [] && path[0] == 0 && |ks| == |path|
    && (forall i :: 0 <= i < |path| ==> path[i] < |nodes|)
    && (forall i :: 0 <= i < |path| - 1 ==> ks[i + 1] == ks[i] + 1 + |nodes[path[i]].children|)
    && forall i :: 0 <= i < |path| - 1 ==> Decides(cfg, o, nodes, path[i], ks[i], Some(path[i + 1]))
  }

  /** The descent takes at every node the decision its samples call for. */
  lemma {:induction false} DescentFollowsTheSamples(
      cfg: Config, o: Oracle, nodes: seq<Node>, path: seq<nat>, ks: seq<nat>)
    returns (all: seq<nat>)
    requires InOrder(nodes) && IsPartialDescent(cfg, o, nodes, path, ks)
    ensures path != [] && Last(path) < |nodes|
    ensures var d := Descend(cfg, o, nodes, path, ks[|ks| - 1]);
            IsDescent(cfg, o, nodes, d.path, all) && |all| > 1 && all[0] == ks[0] && all[|all| - 1] == d.draws
    decreases |nodes| - Last(path)
  {
    hide *;
    PartialShape(cfg, o, nodes, path, ks);
    var v, k := Last(path), ks[|ks| - 1];
    ChoiceDecides(cfg, o, nodes, v, k);
    all := ks + [k + 1 + |nodes[v].children|];
    match Choose(cfg, o, nodes, v, k)
    case Expand =>
      DescentEnds(cfg, o, nodes, path, ks);
    case Go(c) =>
      DescentGoesOn(cfg, o, nodes, path, ks, c);
      all := DescentFollowsTheSamples(cfg, o, nodes, path + [c], all);
  }

  lemma {:induction false} PartialShape(cfg: Config, o: Oracle, nodes: seq<Node>, path: seq<nat>, ks: seq<nat>)
    requires InOrder(nodes) && IsPartialDescent(cfg, o, nodes, path, ks)
    ensures path != [] && Last(path) < |nodes| && |ks| == |path|
  {
  }

  lemma {:induction false} DescentEnds(cfg: Config, o: Oracle, nodes: seq<Node>, path: seq<nat>, ks: seq<nat>)
    requires InOrder(nodes) && IsPartialDescent(cfg, o, nodes, path, ks)
    requires var k := ks[|ks| - 1];
             Choose(cfg, o, nodes, Last(path), k) == Expand && Decides(cfg, o, nodes, Last(path), k, None)
    ensures var k' := ks[|ks| - 1] + 1 + |nodes[Last(path)].children|;
            && Descend(cfg, o, nodes, path, ks[|ks| - 1]) == Descent(path, k')
            && IsDescent(cfg, o, nodes, path, ks + [k'])
  {
    hide Choose, Decides, InOrder;
  }

  lemma {:induction false} DescentGoesOn(
      cfg: Config, o: Oracle, nodes: seq<Node>, path: seq<nat>, ks: seq<nat>, c: nat)
    requires InOrder(nodes) && IsPartialDescent(cfg, o, nodes, path, ks)
    requires var k := ks[|ks| - 1];
             Choose(cfg, o, nodes, Last(path), k) == Go(c) && Decides(cfg, o, nodes, Last(path), k, Some(c))
    ensures var k' := ks[|ks| - 1] + 1 + |nodes[Last(path)].children|;
            && c < |nodes| && Last(path) < Last(path + [c])
            && Descend(cfg, o, nodes, path, ks[|ks| - 1]) == Descend(cfg, o, nodes, path + [c], k')
            && IsPartialDescent(cfg, o, nodes, path + [c], ks + [k'])
  {
    hide Choose, Decides, InOrder;
  }

  /** A node that has no child always expands, even under a branching factor of 0. */
  function Room(cfg: Config): (room: nat)
    ensures room == if cfg.branchingFactor == 0 then 1 else cfg.branchingFactor
  {
    Max(1, cfg.branchingFactor)
  }

  datatype Descent = Descent(path: seq<nat>, draws: nat)

  function Last(path: seq<nat>): nat
    requires path != []
  {
    path[|path| - 1]
  }

  /** A way down the arena: it starts at the root and each node is a child of the one before. */
  predicate IsPath(nodes: seq<Node>, path: seq<nat>) {
    && path != [] && path[0] == 0
    && (forall i :: 0 <= i < |path| ==> path[i] < |nodes|)
    && (forall i :: 0 < i < |path| ==> path[i] in nodes[path[i - 1]].children)
  }

  /** The descent continued from the end of `path`, with k samples already drawn. */
  function Descend(cfg: Config, o: Oracle, nodes: seq<Node>, path: seq<nat>, k: nat): Descent
    requires InOrder(nodes) && path != [] && Last(path) < |nodes|
    decreases |nodes| - Last(path)
  {
    var current := Last(path);
    var k' := k + 1 + |nodes[current].children|;
    match Choose(cfg, o, nodes, current, k)
    case Expand => Descent(path, k')
    case Go(c) => Descend(cfg, o, nodes, path + [c], k')
  }

  lemma {:induction false} RepresentedInOrder(nodes: seq<Node>, root: seq<Message>, h: History)
    requires Represents(nodes, root, h)
    ensures InOrder(nodes)
  {
    forall v, j | 0 <= v < |nodes| && 0 <= j < |nodes[v].children| ensures v < nodes[v].children[j] < |nodes| {
      ChildrenAfter(h, v);
      assert nodes[v].children[j] in ChildrenOf(h, v);
    }
  }

  /** A descent is a path to a node with room, and arena order strictly increases along it. */
  lemma {:induction false} DescentShape(cfg: Config, o: Oracle, nodes: seq<Node>, path: seq<nat>, k: nat)
    requires InOrder(nodes) && IsPath(nodes, path)
    ensures var p := Descend(cfg, o, nodes, path, k).path;
            IsPath(nodes, p) && Increasing(p) && |nodes[Last(p)].children| < Room(cfg)
    decreases |nodes| - Last(path)
  {
    hide Choose, Increasing;
    match Choose(cfg, o, nodes, Last(path), k)
    case Expand => PathIncreases(nodes, path);
    case Go(c) =>
      PathExtended(nodes, path, c);
      DescentShape(cfg, o, nodes, path + [c], k + 1 + |nodes[Last(path)].children|);
  }

  lemma {:induction false} PathExtended(nodes: seq<Node>, path: seq<nat>, c: nat)
    requires IsPath(nodes, path) && c in nodes[Last(path)].children && c < |nodes|
    ensures IsPath(nodes, path + [c]) && Last(path + [c]) == c
  {
  }

  ghost predicate Increasing(path: seq<nat>) {
    forall i, j :: 0 <= i < j < |path| ==> path[i] < path[j]
  }

  lemma {:induction false} PathIncreases(nodes: seq<Node>, path: seq<nat>)
    requires InOrder(nodes) && IsPath(nodes, path)
    ensures Increasing(path)
  {
    var n := |path| - 1;
    if n > 0 {
      PathIncreases(nodes, path[..n]);
      assert forall i, j :: 0 <= i < j < n ==> path[..n][i] < path[..n][j];
      assert forall i :: 0 <= i < n - 1 ==> path[..n][i] < path[..n][n - 1];
      assert path[n - 1] < path[n];
    }
  }

  /** Every node on the path is a child of the one before it. */
  ghost predicate IsDownward(h: History, path: seq<nat>) {
    && (forall i :: 0 <= i < |path| ==> path[i] <= |h|)
    && forall i :: 0 < i < |path| ==> 0 < path[i] && h[path[i] - 1].parent == path[i - 1]
  }

  lemma {:induction false} PathIsDownward(nodes: seq<Node>, root: seq<Message>, h: History, path: seq<nat>)
    requires Represents(nodes, root, h) && IsPath(nodes, path)
    ensures IsDownward(h, path)
  {
    forall i | 0 < i < |path| ensures 0 < path[i] && h[path[i] - 1].parent == path[i - 1] {
      ChildrenAfter(h, path[i - 1]);
      assert path[i] in ChildrenOf(h, path[i - 1]);
    }
  }

  /** Such a path from the root is the ancestry of the node it ends at. */
  lemma {:induction false} DownwardIsAncestry(h: History, path: seq<nat>, v: nat)
    requires WellFormed(h) && IsDownward(h, path) && path != [] && path[0] == 0
    ensures Under(h, v, Last(path)) <==> v in path
  {
    var n := |path| - 1;
    if n > 0 {
      var init := path[..n];
      InitLast(path);
      DownwardIsAncestry(h, init, v);
      if Under(h, v, path[n - 1]) { UnderBelow(h, v, path[n - 1]); }
    }
  }

  lemma {:induction false} UnderBelow(h: History, v: nat, w: nat)
    requires WellFormed(h) && w <= |h| && Under(h, v, w)
    ensures v <= w
  {
  }
}
