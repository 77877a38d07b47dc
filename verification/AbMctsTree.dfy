/** The AB-MCTS search tree as a function of its history. A history lists, iteration by
    iteration, the parent chosen, the rollout and its score; node v > 0 of the arena is the
    one inserted by iteration v - 1. What each node must hold is defined here from the history
    alone; `AbMcts` proves that the in-place updates of the arena keep exactly that. */
module AbMctsTree {
  import opened Prelude

  datatype Role = System | User | Assistant

  datatype Message = Message(role: Role, text: string)

  /** What a rollout surfaces while it runs on a streaming provider. */
  datatype RolloutEvent = TextDelta(text: string) | PartialScore(value: real)

  /** `streamed` is None when the picked provider does not stream. */
  datatype Rollout = Rollout(
      message: Message, text: string, usage: Usage, steps: nat, streamed: Option<seq<RolloutEvent>>)

  datatype Node = Node(
    messages: seq<Message>,
    alpha: real,
    beta: real,
    children: seq<nat>,
    output: Option<Rollout>)

  datatype Step = Step(parent: nat, rollout: Rollout, score: real)

  type History = seq<Step>

  /** Every parent was in the arena when its child was inserted; scores are clamped. */
  ghost predicate WellFormed(h: History) {
    forall i :: 0 <= i < |h| ==> h[i].parent <= i && 0.0 <= h[i].score <= 1.0
  }

  /** Node w is v or a descendant of v. */
  ghost predicate Under(h: History, v: nat, w: nat)
    requires WellFormed(h) && w <= |h|
  {
    w == v || (w > v && Under(h, v, h[w - 1].parent))
  }

  /** Sum of the scores in the subtree of v (the root itself has none). */
  ghost function SubtreeScore(h: History, v: nat): real
    requires WellFormed(h)
    decreases |h|
  {
    if h == [] then 0.0
    else SubtreeScore(h[..|h| - 1], v) + if Under(h, v, |h|) then h[|h| - 1].score else 0.0
  }

  /** How many scored nodes the subtree of v has. */
  ghost function SubtreeSize(h: History, v: nat): nat
    requires WellFormed(h)
    decreases |h|
  {
    if h == [] then 0 else SubtreeSize(h[..|h| - 1], v) + if Under(h, v, |h|) then 1 else 0
  }

  ghost function ChildrenOf(h: History, v: nat): seq<nat> {
    if h == [] then [] else ChildrenOf(h[..|h| - 1], v) + if h[|h| - 1].parent == v then [|h|] else []
  }

  /** The root's messages, then one rollout message per node on the way down to v. */
  ghost function MessagesOf(root: seq<Message>, h: History, v: nat): seq<Message>
    requires WellFormed(h) && v <= |h|
  {
    if v == 0 then root else MessagesOf(root, h, h[v - 1].parent) + [h[v - 1].rollout.message]
  }

  /** What node v holds: a Beta(1, 1) prior plus the scores and misses of its subtree. */
  ghost function NodeOf(root: seq<Message>, h: History, v: nat): Node
    requires WellFormed(h) && v <= |h|
  {
    Node(
      MessagesOf(root, h, v),
      1.0 + SubtreeScore(h, v),
      1.0 + SubtreeSize(h, v) as real - SubtreeScore(h, v),
      ChildrenOf(h, v),
      if v == 0 then None else Some(h[v - 1].rollout))
  }

  /** The arena after history h. */
  ghost predicate Represents(nodes: seq<Node>, root: seq<Message>, h: History) {
    && WellFormed(h)
    && |nodes| == |h| + 1
    && forall v :: 0 <= v < |nodes| ==> nodes[v] == NodeOf(root, h, v)
  }

  ghost predicate Branching(h: History, factor: nat) {
    forall v: nat :: |ChildrenOf(h, v)| <= factor
  }

  // ----- What one more step changes -----

  lemma {:induction false} UnderStable(h: History, step: Step, v: nat, w: nat)
    requires WellFormed(h + [step]) && w <= |h|
    ensures WellFormed(h) && Under(h + [step], v, w) == Under(h, v, w)
  {
    assert forall i :: 0 <= i < |h| ==> (h + [step])[i] == h[i];
    if w > v { UnderStable(h, step, v, h[w - 1].parent); }
  }

  lemma {:induction false} MessagesStable(root: seq<Message>, h: History, step: Step, v: nat)
    requires WellFormed(h + [step]) && v <= |h|
    ensures WellFormed(h) && MessagesOf(root, h + [step], v) == MessagesOf(root, h, v)
  {
    assert forall i :: 0 <= i < |h| ==> (h + [step])[i] == h[i];
    if v > 0 { MessagesStable(root, h, step, h[v - 1].parent); }
  }

  /** An old node after one more step: exactly the ancestors of the new leaf gain its score
      and one observation, and exactly its parent gains a child. */
  lemma {:induction false} OldNodeGrows(root: seq<Message>, h: History, step: Step, v: nat)
    requires WellFormed(h) && step.parent <= |h| && 0.0 <= step.score <= 1.0 && v <= |h|
    ensures WellFormed(h + [step])
    ensures var before := NodeOf(root, h, v);
            var hit := Under(h, v, step.parent);
            NodeOf(root, h + [step], v) ==
            before.(alpha := before.alpha + if hit then step.score else 0.0,
                    beta := before.beta + if hit then 1.0 - step.score else 0.0,
                    children := before.children + if v == step.parent then [|h| + 1] else [])
  {
    var h' := h + [step];
    assert WellFormed(h');
    assert h'[..|h|] == h;
    MessagesStable(root, h, step, v);
    UnderStable(h, step, v, step.parent);
    assert Under(h', v, |h'|) == Under(h, v, step.parent);
    assert v > 0 ==> h'[v - 1] == h[v - 1];
  }

  /** The new leaf starts at Beta(1, 1) updated by its own score. */
  lemma {:induction false} NewNode(root: seq<Message>, h: History, step: Step)
    requires WellFormed(h) && step.parent <= |h| && 0.0 <= step.score <= 1.0
    ensures WellFormed(h + [step])
    ensures NodeOf(root, h + [step], |h| + 1) ==
            Node(NodeOf(root, h, step.parent).messages + [step.rollout.message],
                 1.0 + step.score, 2.0 - step.score, [], Some(step.rollout))
  {
    var h', leaf := h + [step], |h| + 1;
    assert h'[..|h|] == h;
    MessagesStable(root, h, step, step.parent);
    NothingAbove(h, leaf);
  }

  lemma {:induction false} NothingAbove(h: History, v: nat)
    requires WellFormed(h) && v > |h|
    ensures SubtreeScore(h, v) == 0.0 && SubtreeSize(h, v) == 0 && ChildrenOf(h, v) == []
  {
    if h != [] { NothingAbove(h[..|h| - 1], v); }
  }

  lemma {:induction false} EverythingUnderRoot(h: History, w: nat)
    requires WellFormed(h) && w <= |h|
    ensures Under(h, 0, w)
  {
    if w > 0 { EverythingUnderRoot(h, h[w - 1].parent); }
  }

  /** Children come after their parents: the measure of the descent. */
  lemma {:induction false} ChildrenAfter(h: History, v: nat)
    requires WellFormed(h)
    ensures forall c :: c in ChildrenOf(h, v) ==> v < c <= |h| && h[c - 1].parent == v
  {
    if h != [] { ChildrenAfter(h[..|h| - 1], v); }
  }

  /** Posterior conservation: at every node alpha counts the scores of the subtree and
      alpha + beta its size; at the root, over all iterations. */
  ghost predicate Conserved(nodes: seq<Node>, h: History) {
    && WellFormed(h) && |nodes| == |h| + 1
    && (forall v :: 0 <= v < |nodes| ==>
         && nodes[v].alpha == 1.0 + SubtreeScore(h, v)
         && nodes[v].alpha + nodes[v].beta == 2.0 + SubtreeSize(h, v) as real
         && nodes[v].alpha >= 1.0 && nodes[v].beta >= 1.0)
    && SubtreeSize(h, 0) == |h|
  }

  lemma {:induction false} RepresentedIsConserved(nodes: seq<Node>, root: seq<Message>, h: History)
    requires Represents(nodes, root, h)
    ensures Conserved(nodes, h)
  {
    RootSeesAll(h);
    forall v: nat | v < |nodes| ensures 0.0 <= SubtreeScore(h, v) <= SubtreeSize(h, v) as real {
      ScoreWithinSize(h, v);
    }
  }

  lemma {:induction false} RootSeesAll(h: History)
    requires WellFormed(h)
    ensures SubtreeSize(h, 0) == |h|
  {
    if h != [] {
      EverythingUnderRoot(h, |h|);
      RootSeesAll(h[..|h| - 1]);
    }
  }

  lemma {:induction false} ScoreWithinSize(h: History, v: nat)
    requires WellFormed(h)
    ensures 0.0 <= SubtreeScore(h, v) <= SubtreeSize(h, v) as real
  {
    if h != [] { ScoreWithinSize(h[..|h| - 1], v); }
  }
}
