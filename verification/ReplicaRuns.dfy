/** Replicas that share one anchor store: each boots a fresh verifier from `seed`, verifies
    bundles, and `persist`s its high-water mark. All interleavings, for both stores. */
module ReplicaRuns {
  import opened Prelude
  import opened AnchorStore

  /** What a running `persist` has read but not saved, and how long the log was when it read. */
  datatype Reading = Reading(value: nat, at: nat)

  /** A live verifier: its anchor, and its running `persist` calls, any number at once. A process
      that restarts while a request of its old verifier still travels to Redis is two replicas:
      the old one, which takes no step but that save, and a new one. */
  datatype Replica = Replica(anchor: nat, readings: map<nat, Reading>)

  datatype Event =
    | Booted(replica: nat)
    | Accepted(replica: nat, size: nat)
    | Persisted(replica: nat, value: nat)

  datatype State = State(stored: Option<nat>, replicas: map<nat, Replica>, log: seq<Event>)

  /** `seed` on a fresh verifier (a new one, or one after a crash). */
  ghost predicate Boot(s: State, s': State, r: nat) {
    s' == s.(replicas := s.replicas[r := Replica(Loaded(s.stored), map[])], log := s.log + [Booted(r)])
  }

  ghost predicate Crash(s: State, s': State, r: nat) {
    s' == s.(replicas := s.replicas - {r})
  }

  /** A bundle passes the freshness check and advances the anchor. */
  ghost predicate Accept(s: State, s': State, r: nat, size: nat) {
    && r in s.replicas && size >= s.replicas[r].anchor
    && s' == s.(replicas := s.replicas[r := s.replicas[r].(anchor := size)], log := s.log + [Accepted(r, size)])
  }

  /** Call p of `persist` reads the anchor and later saves it; any steps may come in between,
      other calls of the same replica included. */
  ghost predicate ReadAnchor(s: State, s': State, r: nat, p: nat) {
    && r in s.replicas && p !in s.replicas[r].readings
    && var replica := s.replicas[r];
       var reading := Reading(replica.anchor, |s.log|);
       s' == s.(replicas := s.replicas[r := replica.(readings := replica.readings[p := reading])])
  }

  ghost predicate SaveRead(kind: Kind, s: State, s': State, r: nat, p: nat) {
    && r in s.replicas && p in s.replicas[r].readings
    && var replica := s.replicas[r];
       var n := replica.readings[p].value;
       s' == State(Some(Saved(kind, s.stored, n)),
                   s.replicas[r := replica.(readings := replica.readings - {p})],
                   s.log + [Persisted(r, n)])
  }

  ghost predicate Next(kind: Kind, s: State, s': State) {
    || (exists r :: Boot(s, s', r) || Crash(s, s', r))
    || (exists r, p :: ReadAnchor(s, s', r, p))
    || (exists r, p :: SaveRead(kind, s, s', r, p))
    || (exists r, size :: Accept(s, s', r, size))
  }

  ghost predicate IsRun(kind: Kind, run: seq<State>) {
    && run != [] && run[0] == State(None, map[], [])
    && forall i :: 0 <= i < |run| - 1 ==> Next(kind, run[i], run[i + 1])
  }

  /** A live replica accepts exactly the checkpoints from its anchor on. */
  lemma {:induction false} AcceptsFromTheAnchor(s: State, r: nat, size: nat)
    requires r in s.replicas
    ensures (exists s' :: Accept(s, s', r, size)) <==> size >= s.replicas[r].anchor
    ensures forall s' :: Accept(s, s', r, size) ==>
              && s'.stored == s.stored && s'.replicas.Keys == s.replicas.Keys
              && s'.replicas[r] == s.replicas[r].(anchor := size)
  {
    if size >= s.replicas[r].anchor {
      var replica := s.replicas[r].(anchor := size);
      assert Accept(s, s.(replicas := s.replicas[r := replica], log := s.log + [Accepted(r, size)]), r, size);
    }
  }

  /** A replica can crash at any moment and start again: it then has what the store holds, and no
      call of its own is left. */
  lemma {:induction false} RestartReadsTheStore(kind: Kind, s: State, r: nat) returns (s1: State, s2: State)
    ensures Next(kind, s, s1) && Next(kind, s1, s2)
    ensures r !in s1.replicas && s1.stored == s.stored && s2.stored == s.stored
    ensures r in s2.replicas && s2.replicas[r] == Replica(if s.stored.Some? then s.stored.value else 0, map[])
    ensures forall q :: q != r && q in s.replicas ==> q in s2.replicas && s2.replicas[q] == s.replicas[q]
  {
    s1 := s.(replicas := s.replicas - {r});
    s2 := s1.(replicas := s1.replicas[r := Replica(Loaded(s1.stored), map[])], log := s1.log + [Booted(r)]);
    assert Crash(s, s1, r) && Boot(s1, s2, r);
  }

  /** A live replica can run a `persist` call: it stores what it reads, unless the Redis key then
      holds a larger double. */
  lemma {:induction false} PersistStores(kind: Kind, s: State, r: nat, p: nat) returns (s1: State, s2: State)
    requires r in s.replicas && p !in s.replicas[r].readings
    ensures Next(kind, s, s1) && Next(kind, s1, s2) && s2.replicas == s.replicas
    ensures var n := s.replicas[r].anchor;
            s2.stored ==
            if kind.Redis? && s.stored.Some? && ToDouble(n) < ToDouble(s.stored.value) then s.stored else Some(n)
  {
    var replica := s.replicas[r];
    var n := replica.anchor;
    s1 := s.(replicas := s.replicas[r := replica.(readings := replica.readings[p := Reading(n, |s.log|)])]);
    assert replica.readings[p := Reading(n, |s.log|)] - {p} == replica.readings;
    s2 := State(Some(Saved(kind, s1.stored, n)), s1.replicas[r := replica], s1.log + [Persisted(r, n)]);
    assert s2.replicas == s.replicas;
    assert ReadAnchor(s, s1, r, p) && SaveRead(kind, s1, s2, r, p);
    hide ToDouble;
  }

  /** `n` was persisted before replica r's boot number j in the log. */
  predicate PersistedBefore(log: seq<Event>, i: nat, j: nat, r: nat, n: nat) {
    i < j < |log| && log[i].Persisted? && log[i].value == n && log[j] == Booted(r)
  }

  /** What every Redis run keeps, in rounded values, for all u64. */
  ghost predicate Monotone(s: State) {
    && (forall i :: 0 <= i < |s.log| && s.log[i].Persisted? ==>
                      s.stored.Some? && ToDouble(s.log[i].value) <= ToDouble(s.stored.value))
    && (s.stored.Some? ==>
          exists i :: 0 <= i < |s.log| && s.log[i].Persisted? && s.log[i].value == s.stored.value)
    && (forall i: nat, j: nat, r: nat, n: nat :: PersistedBefore(s.log, i, j, r, n) && r in s.replicas ==>
          ToDouble(n) <= ToDouble(s.replicas[r].anchor))
    && (forall i: nat, j: nat, k: nat, r: nat, n: nat ::
          PersistedBefore(s.log, i, j, r, n) && j < k < |s.log| && s.log[k].Accepted? && s.log[k].replica == r ==>
            ToDouble(n) <= ToDouble(s.log[k].size))
  }

  lemma {:induction false} LogGrows(s: State, s': State, e: Event)
    requires s'.log == s.log + [e]
    ensures forall i :: 0 <= i < |s.log| ==> s'.log[i] == s.log[i]
    ensures s'.log[|s.log|] == e && |s'.log| == |s.log| + 1
    ensures forall i: nat, j: nat, r: nat, n: nat :: j < |s.log| ==>
            PersistedBefore(s'.log, i, j, r, n) == PersistedBefore(s.log, i, j, r, n)
    ensures !e.Booted? ==> forall i: nat, j: nat, r: nat, n: nat :: PersistedBefore(s'.log, i, j, r, n) ==> j < |s.log|
  {
  }

  lemma {:induction false} BootKeeps(s: State, s': State, r: nat)
    requires Monotone(s) && Boot(s, s', r)
    ensures Monotone(s')
  {
    hide ToDouble;
    LogGrows(s, s', Booted(r));
  }

  lemma {:induction false} AcceptKeeps(s: State, s': State, r: nat, size: nat)
    requires Monotone(s) && Accept(s, s', r, size)
    ensures Monotone(s')
  {
    hide ToDouble;
    LogGrows(s, s', Accepted(r, size));
    ToDoubleMonotone(s.replicas[r].anchor, size);
  }

  lemma {:induction false} SaveKeeps(s: State, s': State, r: nat, p: nat)
    requires Monotone(s) && SaveRead(Redis, s, s', r, p)
    ensures Monotone(s')
  {
    hide ToDouble;
    var n := s.replicas[r].readings[p].value;
    LogGrows(s, s', Persisted(r, n));
    if s.stored.Some? { RedisKeepsRoundedMaximum(s.stored.value, n); }
  }

  lemma {:induction false} StepKeeps(s: State, s': State)
    requires Monotone(s) && Next(Redis, s, s')
    ensures Monotone(s')
  {
    hide ToDouble;
    if r :| Boot(s, s', r) { BootKeeps(s, s', r); }
    else if r, p :| SaveRead(Redis, s, s', r, p) { SaveKeeps(s, s', r, p); }
    else if r, size :| Accept(s, s', r, size) { AcceptKeeps(s, s', r, size); }
  }

  lemma {:induction false} EveryRedisRun(run: seq<State>, k: nat)
    requires IsRun(Redis, run) && k < |run|
    ensures Monotone(run[k])
  {
    if k > 0 {
      EveryRedisRun(run, k - 1);
      StepKeeps(run[k - 1], run[k]);
    }
  }

  /** The cross-replica guarantee. In every run over Redis, a replica never accepts a
      checkpoint below a value persisted before it booted, for values up to 2^53; beyond
      that the guarantee holds for the doubles they round to. */
  lemma {:induction false} NoReplicaRollsBack(run: seq<State>, k: nat, i: nat, j: nat, l: nat)
    requires IsRun(Redis, run) && k < |run|
    requires i < j < l < |run[k].log|
    requires run[k].log[i].Persisted? && run[k].log[j].Booted?
    requires run[k].log[l].Accepted? && run[k].log[l].replica == run[k].log[j].replica
    ensures ToDouble(run[k].log[i].value) <= ToDouble(run[k].log[l].size)
    ensures run[k].log[i].value <= TWO_53 ==> run[k].log[i].value <= run[k].log[l].size
  {
    hide ToDouble;
    EveryRedisRun(run, k);
    var n, size := run[k].log[i].value, run[k].log[l].size;
    assert PersistedBefore(run[k].log, i, j, run[k].log[j].replica, n);
    ToDoubleMonotone(n, n);
    ToDoubleMonotone(size, n);
  }

  /** The key is the maximum of all saves as long as they stay within 2^53. */
  lemma {:induction false} KeyIsMaximumOfSaves(run: seq<State>, k: nat)
    requires IsRun(Redis, run) && k < |run|
    requires forall i :: 0 <= i < |run[k].log| && run[k].log[i].Persisted? ==> run[k].log[i].value <= TWO_53
    ensures run[k].stored.None? <==> forall i :: 0 <= i < |run[k].log| ==> !run[k].log[i].Persisted?
    ensures run[k].stored.Some? ==>
              && (exists i ::
                    0 <= i < |run[k].log| && run[k].log[i].Persisted? && run[k].log[i].value == run[k].stored.value)
              && (forall i :: 0 <= i < |run[k].log| && run[k].log[i].Persisted? ==>
                 run[k].log[i].value <= run[k].stored.value)
  {
    hide ToDouble;
    EveryRedisRun(run, k);
    forall i | 0 <= i < |run[k].log| && run[k].log[i].Persisted?
      ensures run[k].stored.Some? && run[k].log[i].value <= run[k].stored.value
    {
      ToDoubleMonotone(run[k].log[i].value, 0);
      ToDoubleMonotone(run[k].stored.value, 0);
    }
  }
}
