/** The freshness anchor of `KeylessVerifier::verify_bundle` under concurrency: any number of
    calls share one atomic, each runs a load, compare, compare_exchange_weak loop, and the
    owner may re-seed it with a plain store. Every interleaving is linearizable. */
module FreshnessAnchor {
  import opened Prelude

  /** A call about to return to its caller keeps what it decided; `start` is how much of the
      history existed when it was invoked. */
  datatype Call =
    | Observed(size: nat, prev: nat, start: nat)
    | Accepted(size: nat, start: nat)
    | Rejected(size: nat, observed: nat, start: nat)

  /** The operations of the sequential object, in linearization order. */
  datatype Op =
    | Seeded(value: nat)
    | Passed(call: nat, size: nat)
    | Failed(call: nat, size: nat, observed: nat)

  datatype State = State(anchor: nat, calls: map<nat, Call>, history: seq<Op>)

  /** A load, or the value a failed exchange reports. A call that sees an anchor above its
      checkpoint is bound to reject, so that observation is its linearization point. */
  function Observe(s: State, t: nat, size: nat, start: nat): State {
    s.(calls := s.calls[t := Observed(size, s.anchor, start)],
       history := if size < s.anchor then s.history + [Failed(t, size, s.anchor)] else s.history)
  }

  ghost predicate Invoke(s: State, s': State, t: nat, size: nat) {
    t !in s.calls && s' == Observe(s, t, size, |s.history|)
  }

  /** `checkpoint.tree_size < prev`: return an error. */
  ghost predicate Reject(s: State, s': State, t: nat) {
    && t in s.calls && s.calls[t].Observed? && s.calls[t].size < s.calls[t].prev
    && s' == s.(calls := s.calls[t := Rejected(s.calls[t].size, s.calls[t].prev, s.calls[t].start)])
  }

  /** The exchange finds `prev` and stores `size.max(prev)`. */
  ghost predicate ExchangeSucceeds(s: State, s': State, t: nat) {
    && t in s.calls && s.calls[t].Observed? && s.calls[t].size >= s.calls[t].prev == s.anchor
    && s' == State(Max(s.calls[t].size, s.calls[t].prev),
                   s.calls[t := Accepted(s.calls[t].size, s.calls[t].start)],
                   s.history + [Passed(t, s.calls[t].size)])
  }

  /** The exchange fails, spuriously or not, and reports the current value. */
  ghost predicate ExchangeFails(s: State, s': State, t: nat) {
    && t in s.calls && s.calls[t].Observed? && s.calls[t].size >= s.calls[t].prev
    && s' == Observe(s, t, s.calls[t].size, s.calls[t].start)
  }

  /** `set_rekor_min_tree_size`: a plain store. */
  ghost predicate Seed(s: State, s': State, n: nat) {
    s' == s.(anchor := n, history := s.history + [Seeded(n)])
  }

  ghost predicate Next(s: State, s': State) {
    || (exists t, size :: Invoke(s, s', t, size))
    || (exists t :: Reject(s, s', t) || ExchangeSucceeds(s, s', t) || ExchangeFails(s, s', t))
    || (exists n :: Seed(s, s', n))
  }

  ghost predicate IsRun(run: seq<State>) {
    && run != []
    && run[0].calls == map[] && run[0].history == []
    && forall i :: 0 <= i < |run| - 1 ==> Next(run[i], run[i + 1])
  }

  /** The sequential object: what each operation needs and what it leaves. */
  function Apply(anchor: nat, op: Op): Option<nat> {
    match op
    case Seeded(n) => Some(n)
    case Passed(_, size) => if size >= anchor then Some(size) else None
    case Failed(_, size, observed) => if size < anchor == observed then Some(anchor) else None
  }

  function Replay(anchor: nat, history: seq<Op>): Option<nat> {
    if history == [] then Some(anchor)
    else
      match Replay(anchor, history[..|history| - 1])
      case None => None
      case Some(a) => Apply(a, history[|history| - 1])
  }

  predicate OpOf(op: Op, t: nat) { !op.Seeded? && op.call == t }

  /** The operation a decided call performed. */
  predicate Matches(op: Op, t: nat, c: Call) {
    match c
    case Observed(size, prev, _) => op == Failed(t, size, prev)
    case Accepted(size, _) => op == Passed(t, size)
    case Rejected(size, observed, _) => op == Failed(t, size, observed)
  }

  predicate Undecided(c: Call) { c.Observed? && c.size >= c.prev }

  /** A decided call has exactly one operation, placed after its invocation; an undecided
      or unborn one has none. */
  ghost predicate CallLinearized(s: State, t: nat) {
    if t !in s.calls || Undecided(s.calls[t]) then
      && (forall i :: 0 <= i < |s.history| ==> !OpOf(s.history[i], t))
      && (t in s.calls ==> s.calls[t].start <= |s.history|)
    else
      exists i :: && s.calls[t].start <= i < |s.history| && Matches(s.history[i], t, s.calls[t])
                  && forall j :: 0 <= j < |s.history| && OpOf(s.history[j], t) ==> j == i
  }

  /** Linearizability: the operations so far, in the order of their linearization points, are
      a legal run of the sequential object that ends at the current anchor. */
  ghost predicate Linearized(initial: nat, s: State) {
    && Replay(initial, s.history) == Some(s.anchor)
    && forall t: nat :: CallLinearized(s, t)
  }

  lemma {:induction false} ReplayOneMore(initial: nat, history: seq<Op>, op: Op)
    requires Replay(initial, history).Some?
    ensures Replay(initial, history + [op]) == Apply(Replay(initial, history).value, op)
  {
    assert (history + [op])[..|history|] == history;
  }

  /** A step that appends t's operation, or nothing, keeps the other calls in place. */
  lemma {:induction false} OtherCallsKept(s: State, s': State, t: nat, u: nat)
    requires u != t && CallLinearized(s, u)
    requires s'.calls.Keys - {t} == s.calls.Keys - {t} && (u in s.calls ==> u in s'.calls && s'.calls[u] == s.calls[u])
    requires s'.history == s.history ||
             (|s'.history| == |s.history| + 1 && s'.history[..|s.history|] == s.history &&
              !OpOf(s'.history[|s.history|], u))
    ensures CallLinearized(s', u)
  {
    assert u in s'.calls <==> u in s'.calls.Keys - {t};
    assert u in s.calls <==> u in s.calls.Keys - {t};
    assert forall j :: 0 <= j < |s.history| ==> s'.history[j] == s.history[..][j];
    if u in s.calls && !Undecided(s.calls[u]) {
      var i :| s.calls[u].start <= i < |s.history| && Matches(s.history[i], u, s.calls[u])
               && forall j :: 0 <= j < |s.history| && OpOf(s.history[j], u) ==> j == i;
      assert Matches(s'.history[i], u, s'.calls[u]);
    }
  }

  lemma {:induction false} ObserveKeeps(initial: nat, s: State, t: nat, size: nat, start: nat)
    requires Linearized(initial, s) && start <= |s.history|
    requires t in s.calls ==> Undecided(s.calls[t])
    ensures Linearized(initial, Observe(s, t, size, start))
  {
    var s' := Observe(s, t, size, start);
    assert CallLinearized(s, t);
    ReplayOneMore(initial, s.history, Failed(t, size, s.anchor));
    forall u: nat ensures CallLinearized(s', u) {
      if u != t { OtherCallsKept(s, s', t, u); }
      else if size < s.anchor { assert Matches(s'.history[|s.history|], t, s'.calls[t]); }
    }
  }

  lemma {:induction false} ExchangeKeeps(initial: nat, s: State, s': State, t: nat)
    requires Linearized(initial, s) && ExchangeSucceeds(s, s', t)
    ensures Linearized(initial, s')
  {
    assert CallLinearized(s, t);
    ReplayOneMore(initial, s.history, Passed(t, s.calls[t].size));
    forall u: nat ensures CallLinearized(s', u) {
      if u != t { OtherCallsKept(s, s', t, u); } else { assert Matches(s'.history[|s.history|], t, s'.calls[t]); }
    }
  }

  lemma {:induction false} RejectKeeps(initial: nat, s: State, s': State, t: nat)
    requires Linearized(initial, s) && Reject(s, s', t)
    ensures Linearized(initial, s')
  {
    forall u: nat ensures CallLinearized(s', u) {
      if u != t { OtherCallsKept(s, s', t, u); }
      else {
        assert CallLinearized(s, t);
        var i :| s.calls[t].start <= i < |s.history| && Matches(s.history[i], t, s.calls[t])
                 && forall j :: 0 <= j < |s.history| && OpOf(s.history[j], t) ==> j == i;
        assert Matches(s'.history[i], t, s'.calls[t]);
      }
    }
  }

  lemma {:induction false} SeedKeeps(initial: nat, s: State, s': State, n: nat)
    requires Linearized(initial, s) && Seed(s, s', n)
    ensures Linearized(initial, s')
  {
    ReplayOneMore(initial, s.history, Seeded(n));
    forall u: nat ensures CallLinearized(s', u) { OtherCallsKept(s, s', u + 1, u); }
  }

  /** Every step keeps the history a legal run and the call u, whichever it is, in its place. */
  lemma {:induction false} StepKeeps(initial: nat, s: State, s': State, u: nat)
    requires Linearized(initial, s) && Next(s, s')
    ensures Replay(initial, s'.history) == Some(s'.anchor) && CallLinearized(s', u)
  {
    if t, size :| Invoke(s, s', t, size) {
      ObserveKeeps(initial, s, t, size, |s.history|);
    } else if t :| Reject(s, s', t) {
      RejectKeeps(initial, s, s', t);
    } else if t :| ExchangeSucceeds(s, s', t) {
      ExchangeKeeps(initial, s, s', t);
    } else if t :| ExchangeFails(s, s', t) {
      assert CallLinearized(s, t);
      ObserveKeeps(initial, s, t, s.calls[t].size, s.calls[t].start);
    } else {
      var n :| Seed(s, s', n);
      SeedKeeps(initial, s, s', n);
    }
  }

  /** Every state of every run is linearized. */
  lemma {:induction false} EveryRunLinearizes(run: seq<State>, k: nat)
    requires IsRun(run) && k < |run|
    ensures Linearized(run[0].anchor, run[k])
  {
    if k > 0 {
      EveryRunLinearizes(run, k - 1);
      forall u: nat ensures Replay(run[0].anchor, run[k].history) == Some(run[k].anchor) && CallLinearized(run[k], u) {
        StepKeeps(run[0].anchor, run[k - 1], run[k], u);
      }
    }
  }

  // ----- Calls do decide -----

  /** A call that runs on its own, from any state: it is accepted exactly when its size is at least
      the anchor, which then becomes its size; else it is rejected and the anchor stays. */
  lemma {:induction false} CallAloneDecides(s: State, t: nat, size: nat) returns (s1: State, s2: State)
    requires t !in s.calls
    ensures Next(s, s1) && Next(s1, s2) && t in s2.calls && s2.calls.Keys == s.calls.Keys + {t}
    ensures if size >= s.anchor then s2.anchor == size && s2.calls[t] == Accepted(size, |s.history|)
            else s2.anchor == s.anchor && s2.calls[t] == Rejected(size, s.anchor, |s.history|)
  {
    s1 := Observe(s, t, size, |s.history|);
    assert Invoke(s, s1, t, size);
    s2 := DecidesAtOnce(s1, t);
  }

  lemma {:induction false} DecidesAtOnce(s: State, t: nat) returns (s': State)
    requires t in s.calls && s.calls[t].Observed? && s.calls[t].prev == s.anchor
    ensures Next(s, s') && s'.calls.Keys == s.calls.Keys
    ensures var c := s.calls[t];
            if c.size >= s.anchor then s'.anchor == c.size && s'.calls[t] == Accepted(c.size, c.start)
            else s'.anchor == s.anchor && s'.calls[t] == Rejected(c.size, s.anchor, c.start)
  {
    var c := s.calls[t];
    if c.size >= s.anchor {
      s' := State(Max(c.size, c.prev), s.calls[t := Accepted(c.size, c.start)], s.history + [Passed(t, c.size)]);
      assert ExchangeSucceeds(s, s', t);
    } else {
      s' := s.(calls := s.calls[t := Rejected(c.size, c.prev, c.start)]);
      assert Reject(s, s', t);
    }
  }

  /** Wherever it stands, an open call left alone ends within two steps, whatever has happened to
      the anchor since it looked: it rejects at once if it saw a larger anchor; else its
      exchange, once it has failed, sees the anchor as it is, and decides on that. */
  lemma {:induction false} OpenCallDecides(s: State, t: nat) returns (s1: State, s2: State)
    requires t in s.calls && s.calls[t].Observed?
    ensures Next(s, s1) && (s2 == s1 || Next(s1, s2)) && t in s2.calls
    ensures var c := s.calls[t];
            if c.size < c.prev then s2.anchor == s.anchor && s2.calls[t] == Rejected(c.size, c.prev, c.start)
            else if c.size >= s.anchor then s2.anchor == c.size && s2.calls[t] == Accepted(c.size, c.start)
            else s2.anchor == s.anchor && s2.calls[t] == Rejected(c.size, s.anchor, c.start)
  {
    var c := s.calls[t];
    if c.size < c.prev {
      s1 := s.(calls := s.calls[t := Rejected(c.size, c.prev, c.start)]);
      assert Reject(s, s1, t);
      s2 := s1;
    } else {
      s1 := Observe(s, t, c.size, c.start);
      assert ExchangeFails(s, s1, t);
      s2 := DecidesAtOnce(s1, t);
    }
  }

  /** The owner can seed any value at any time. */
  lemma {:induction false} SeedIsPossible(s: State, n: nat) returns (s': State)
    ensures Next(s, s') && s'.anchor == n && s'.calls == s.calls
  {
    s' := s.(anchor := n, history := s.history + [Seeded(n)]);
    assert Seed(s, s', n);
  }

  function MaxPassed(anchor: nat, history: seq<Op>): nat {
    if history == [] then anchor
    else
      var op := history[|history| - 1];
      var before := MaxPassed(anchor, history[..|history| - 1]);
      if op.Passed? then Max(before, op.size) else before
  }

  /** Operations without a seed that take the anchor from `start` to `end`: it is the maximum of
      its start and every accepted size, accepted sizes never decrease, and whatever was rejected
      was below an anchor that really stood and is below the anchor still. */
  ghost predicate Orderly(start: nat, ops: seq<Op>, end: nat) {
    && end == MaxPassed(start, ops) >= start
    && (forall i :: 0 <= i < |ops| && ops[i].Passed? ==> start <= ops[i].size <= end)
    && (forall i, j :: 0 <= i < j < |ops| && ops[i].Passed? && ops[j].Passed? ==> ops[i].size <= ops[j].size)
    && (forall i :: 0 <= i < |ops| && ops[i].Failed? ==> ops[i].size < ops[i].observed <= end)
  }

  lemma {:induction false} BetweenSeeds(anchor: nat, history: seq<Op>)
    requires Replay(anchor, history).Some?
    requires forall i :: 0 <= i < |history| ==> !history[i].Seeded?
    ensures Orderly(anchor, history, Replay(anchor, history).value)
  {
    if history != [] {
      var init := history[..|history| - 1];
      assert forall i :: 0 <= i < |init| ==> init[i] == history[i];
      BetweenSeeds(anchor, init);
    }
  }

  lemma {:induction false} ReplaySplit(anchor: nat, before: seq<Op>, after: seq<Op>)
    requires Replay(anchor, before + after).Some?
    ensures Replay(anchor, before).Some?
    ensures Replay(Replay(anchor, before).value, after) == Replay(anchor, before + after)
  {
    if after == [] {
      assert before + after == before;
    } else {
      assert (before + after)[..|before + after| - 1] == before + after[..|after| - 1];
      ReplaySplit(anchor, before, after[..|after| - 1]);
    }
  }

  /** The stretch [from, to) of a history that starts at `initial` is orderly. */
  ghost predicate Accounted(initial: nat, h: seq<Op>, from: nat, to: nat)
    requires from <= to <= |h|
  {
    var before, after := Replay(initial, h[..from]), Replay(initial, h[..to]);
    before.Some? && after.Some? && Orderly(before.value, h[from..to], after.value)
  }

  lemma {:induction false} StretchAccounted(initial: nat, h: seq<Op>, from: nat, to: nat)
    requires from <= to <= |h| && Replay(initial, h).Some?
    requires forall i :: from <= i < to ==> !h[i].Seeded?
    ensures Accounted(initial, h, from, to)
  {
    hide Replay, Orderly;
    assert h[..to] + h[to..] == h && h[..from] + h[from..to] == h[..to];
    ReplaySplit(initial, h[..to], h[to..]);
    ReplaySplit(initial, h[..from], h[from..to]);
    BetweenSeeds(Replay(initial, h[..from]).value, h[from..to]);
  }

  /** Any stretch of any run without a seed in it, be it from the start, after a seed, or between
      two: the anchor after it is the maximum of the anchor before it and the sizes accepted in
      it, these never decrease, and what was rejected in it was below an anchor seen in it. The
      anchor before it is the seed's value if a seed precedes it. */
  lemma {:induction false} EveryStretchBetweenSeeds(run: seq<State>, k: nat, from: nat, to: nat)
    requires IsRun(run) && k < |run| && from <= to <= |run[k].history|
    requires forall i :: from <= i < to ==> !run[k].history[i].Seeded?
    ensures var h, initial := run[k].history, run[0].anchor;
            && Accounted(initial, h, from, to)
            && (from == 0 ==> Replay(initial, h[..from]) == Some(initial))
            && (from > 0 && h[from - 1].Seeded? ==> Replay(initial, h[..from]) == Some(h[from - 1].value))
            && (to == |h| ==> Replay(initial, h[..to]) == Some(run[k].anchor))
  {
    var h, initial := run[k].history, run[0].anchor;
    EveryRunLinearizes(run, k);
    hide IsRun, CallLinearized;
    StretchAccounted(initial, h, from, to);
    hide Accounted;
    if from > 0 && h[from - 1].Seeded? {
      StretchAccounted(initial, h, from, from);
      ReplayAt(initial, h, from);
    }
    if to == |h| { assert h[..to] == h; }
  }

  lemma {:induction false} ReplayAt(initial: nat, h: seq<Op>, from: nat)
    requires 0 < from <= |h| && Accounted(initial, h, from, from) && h[from - 1].Seeded?
    ensures Replay(initial, h[..from]) == Some(h[from - 1].value)
  {
    assert h[..from][..from - 1] == h[..from - 1] && h[..from][from - 1] == h[from - 1];
  }

  /** A seed starts the account afresh: what came before no longer matters. */
  lemma {:induction false} SeedRestarts(anchor: nat, before: seq<Op>, n: nat, after: seq<Op>)
    requires Replay(anchor, before).Some?
    ensures Replay(anchor, before + [Seeded(n)] + after) == Replay(n, after)
  {
    if after == [] {
      assert before + [Seeded(n)] + after == before + [Seeded(n)];
      ReplayOneMore(anchor, before, Seeded(n));
    } else {
      var whole := before + [Seeded(n)] + after;
      assert whole[..|whole| - 1] == before + [Seeded(n)] + after[..|after| - 1];
      SeedRestarts(anchor, before, n, after[..|after| - 1]);
    }
  }

  /** So accepted sizes can fall across a seed, and do exactly when it lowers the anchor:
      then the very next checkpoint accepted may be smaller than one accepted before. */
  lemma {:induction false} OnlyALoweringSeedForgets(anchor: nat, before: seq<Op>, n: nat)
    requires Replay(anchor, before).Some?
    ensures var stood := Replay(anchor, before).value;
            (forall t: nat, size: nat :: Replay(anchor, before + [Seeded(n)] + [Passed(t, size)]).Some? ==>
              size >= stood)
            <==> n >= stood
  {
    var stood := Replay(anchor, before).value;
    forall t: nat, size: nat
      ensures Replay(anchor, before + [Seeded(n)] + [Passed(t, size)]).Some? <==> size >= n
    {
      SeedRestarts(anchor, before, n, [Passed(t, size)]);
      ReplayOneMore(n, [], Passed(t, size));
      assert [] + [Passed(t, size)] == [Passed(t, size)];
    }
    assert Replay(anchor, before + [Seeded(n)] + [Passed(0, n)]).Some?;
  }

  /** A call invoked after another had returned starts behind everything that one did. */
  lemma {:induction false} LaterCallsStartLater(run: seq<State>, k: nat, k': nat, u: nat)
    requires IsRun(run) && k <= k' < |run|
    requires u !in run[k].calls
    ensures |run[k].history| <= |run[k'].history| && run[k'].history[..|run[k].history|] == run[k].history
    ensures u in run[k'].calls ==> run[k'].calls[u].start >= |run[k].history|
  {
    if k < k' {
      LaterCallsStartLater(run, k, k' - 1, u);
      var s, s' := run[k' - 1], run[k'];
      assert Next(s, s');
      HistoryGrows(s, s', u);
      assert s'.history[..|run[k].history|] == s'.history[..|s.history|][..|run[k].history|];
    }
  }

  lemma {:induction false} HistoryGrows(s: State, s': State, u: nat)
    requires Next(s, s')
    ensures |s.history| <= |s'.history| && s'.history[..|s.history|] == s.history
    ensures u in s.calls && u in s'.calls ==> s'.calls[u].start == s.calls[u].start
    ensures u !in s.calls && u in s'.calls ==> s'.calls[u].start == |s.history|
  {
  }

  /** Real-time order: if call t had decided before call u was invoked, t's operation comes
      before u's in the history. */
  lemma {:induction false} RealTimeOrder(run: seq<State>, k: nat, k': nat, t: nat, u: nat) returns (i: nat, j: nat)
    requires IsRun(run) && k <= k' < |run|
    requires t in run[k].calls && !Undecided(run[k].calls[t])
    requires u !in run[k].calls && u in run[k'].calls && !Undecided(run[k'].calls[u])
    ensures i < j < |run[k'].history|
    ensures Matches(run[k'].history[i], t, run[k].calls[t]) && Matches(run[k'].history[j], u, run[k'].calls[u])
  {
    EveryRunLinearizes(run, k);
    EveryRunLinearizes(run, k');
    assert CallLinearized(run[k], t) && CallLinearized(run[k'], u);
    i :| run[k].calls[t].start <= i < |run[k].history| && Matches(run[k].history[i], t, run[k].calls[t]);
    j :| run[k'].calls[u].start <= j < |run[k'].history| && Matches(run[k'].history[j], u, run[k'].calls[u]);
    LaterCallsStartLater(run, k, k', u);
    assert run[k'].history[i] == run[k'].history[..|run[k].history|][i];
  }
}
