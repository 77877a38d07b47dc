/** The overspend bound is tight, for every number of permits and all caps: max_fanout workers
    that all pass their check before any of them records drive the spend up to it. */
module FanoutTightness {
  import opened Prelude
  import opened BudgetEnforcement
  import opened Fanout
  import opened FanoutBudget

  /** Every consecutive pair is a step. */
  ghost predicate Steps(cfg: Config, run: seq<State>) {
    run != [] && forall i :: 0 <= i < |run| - 1 ==> Next(cfg, run[i], run[i + 1])
  }

  lemma {:induction false} StepsOneMore(cfg: Config, run: seq<State>, s: State)
    requires Steps(cfg, run) && Next(cfg, run[|run| - 1], s)
    ensures Steps(cfg, run + [s])
  {
    hide Next;
  }

  function Repeat<T>(x: T, n: nat): (s: seq<T>)
    ensures |s| == n && forall j :: 0 <= j < n ==> s[j] == x
  {
    if n == 0 then [] else Repeat(x, n - 1) + [x]
  }

  /** The first i of n workers have moved from `before` to `after`. */
  function Mixed(before: Status, after: Status, i: nat, n: nat): (s: seq<Status>)
    requires i <= n
    ensures |s| == n && forall j :: 0 <= j < n ==> s[j] == if j < i then after else before
  {
    Repeat(after, i) + Repeat(before, n - i)
  }

  lemma {:induction false} MixedOnce(before: Status, after: Status, i: nat, n: nat)
    requires i < n
    ensures Mixed(before, after, i, n)[i] == before
    ensures Mixed(before, after, i, n)[i := after] == Mixed(before, after, i + 1, n)
  {
  }

  lemma {:induction false} MixedAll(before: Status, after: Status, n: nat, later: Status)
    ensures Mixed(before, after, n, n) == Mixed(after, later, 0, n)
  {
  }

  function Worker(e: real): Task { Buffered(e, "answer", true) }

  const ANSWERED := Recorded(0, Text("answer"))

  /** n workers of estimate e under n permits. */
  function Crowd(n: nat, day: real, request: Option<real>, e: real): Config {
    Config(Repeat(Worker(e), n), n, Some(Budget(request, Some(day), None, map[])), "tenant")
  }

  ghost function At(n: nat, spent: real, free: nat, status: seq<Status>): State {
    State(spent, free, status, [], [], Repeat(None, n), 0)
  }

  /** The spend once i of the workers have recorded; the first read found room for one. */
  function SpentAfter(day: real, e: real, i: nat): real { day - e + e * i as real }

  lemma {:induction false} SpentOneMore(day: real, e: real, i: nat)
    ensures SpentAfter(day, e, i + 1) == SpentAfter(day, e, i) + e
    ensures SpentAfter(day, e, 0) == day - e
  {
    Distribute(e, i as real, 1.0);
  }

  // ----- One step of each kind -----

  lemma {:induction false} AcquireStep(n: nat, day: real, request: Option<real>, e: real, i: nat)
    requires i < n
    ensures var cfg, spent := Crowd(n, day, request, e), day - e;
            Next(cfg, At(n, spent, n - i, Mixed(Queued, Holding, i, n)),
              At(n, spent, n - i - 1, Mixed(Queued, Holding, i + 1, n)))
  {
    var cfg, spent := Crowd(n, day, request, e), day - e;
    var s, s' := At(n, spent, n - i, Mixed(Queued, Holding, i, n)),
      At(n, spent, n - i - 1, Mixed(Queued, Holding, i + 1, n));
    MixedOnce(Queued, Holding, i, n);
    assert Acquire(cfg, s, s', i);
    assert TaskStep(cfg, s, s', i);
  }

  lemma {:induction false} ReadStep(n: nat, day: real, request: Option<real>, e: real, i: nat)
    requires i < n
    ensures var cfg, spent := Crowd(n, day, request, e), day - e;
            Next(cfg, At(n, spent, 0, Mixed(Holding, ReadUsage(spent), i, n)),
              At(n, spent, 0, Mixed(Holding, ReadUsage(spent), i + 1, n)))
  {
    var cfg, spent := Crowd(n, day, request, e), day - e;
    var s, s' := At(n, spent, 0, Mixed(Holding, ReadUsage(spent), i, n)),
      At(n, spent, 0, Mixed(Holding, ReadUsage(spent), i + 1, n));
    MixedOnce(Holding, ReadUsage(spent), i, n);
    assert Read(cfg, s, s', i);
    assert TaskStep(cfg, s, s', i);
  }

  lemma {:induction false} DecideStep(n: nat, day: real, request: Option<real>, e: real, i: nat)
    requires Affordable(request, e) && i < n
    ensures var cfg, spent := Crowd(n, day, request, e), day - e;
            Next(cfg, At(n, spent, 0, Mixed(ReadUsage(spent), Calling(0), i, n)),
              At(n, spent, 0, Mixed(ReadUsage(spent), Calling(0), i + 1, n)))
  {
    var cfg, spent := Crowd(n, day, request, e), day - e;
    var s, s' := At(n, spent, 0, Mixed(ReadUsage(spent), Calling(0), i, n)),
      At(n, spent, 0, Mixed(ReadUsage(spent), Calling(0), i + 1, n));
    MixedOnce(ReadUsage(spent), Calling(0), i, n);
    assert Passes(cfg, Worker(e), spent);
    assert Decide(cfg, s, s', i);
    assert TaskStep(cfg, s, s', i);
  }

  lemma {:induction false} RecordStep(n: nat, day: real, request: Option<real>, e: real, i: nat)
    requires i < n
    ensures Next(Crowd(n, day, request, e),
                 At(n, SpentAfter(day, e, i), 0, Mixed(Calling(0), ANSWERED, i, n)),
                 At(n, SpentAfter(day, e, i + 1), 0, Mixed(Calling(0), ANSWERED, i + 1, n)))
  {
    var cfg := Crowd(n, day, request, e);
    var s, s' := At(n, SpentAfter(day, e, i), 0, Mixed(Calling(0), ANSWERED, i, n)),
      At(n, SpentAfter(day, e, i + 1), 0, Mixed(Calling(0), ANSWERED, i + 1, n));
    MixedOnce(Calling(0), ANSWERED, i, n);
    SpentOneMore(day, e, i);
    assert Record(cfg, s, s', i);
    assert TaskStep(cfg, s, s', i);
  }

  // ----- All acquire, all read, all decide, all record -----

  /** A run that starts like `run` and ends in `last`. */
  ghost predicate Extends(cfg: Config, first: State, run: seq<State>, last: State) {
    Steps(cfg, run) && run[0] == first && run[|run| - 1] == last
  }

  lemma {:induction false} AllAcquire(n: nat, day: real, request: Option<real>, e: real, i: nat)
    returns (run: seq<State>)
    requires i <= n
    ensures var spent := day - e;
            Extends(Crowd(n, day, request, e), At(n, spent, n, Mixed(Queued, Holding, 0, n)), run,
              At(n, spent, n - i, Mixed(Queued, Holding, i, n)))
  {
    var spent := day - e;
    hide Next, Mixed, Crowd;
    if i == 0 {
      run := [At(n, spent, n, Mixed(Queued, Holding, 0, n))];
    } else {
      run := AllAcquire(n, day, request, e, i - 1);
      AcquireStep(n, day, request, e, i - 1);
      StepsOneMore(Crowd(n, day, request, e), run, At(n, spent, n - i, Mixed(Queued, Holding, i, n)));
      run := run + [At(n, spent, n - i, Mixed(Queued, Holding, i, n))];
    }
  }

  lemma {:induction false} AllRead(n: nat, day: real, request: Option<real>, e: real, i: nat) returns (run: seq<State>)
    requires i <= n
    ensures var spent := day - e;
            Extends(Crowd(n, day, request, e), At(n, spent, n, Mixed(Queued, Holding, 0, n)), run,
              At(n, spent, 0, Mixed(Holding, ReadUsage(spent), i, n)))
  {
    var spent := day - e;
    hide Next, Mixed, Crowd;
    if i == 0 {
      run := AllAcquire(n, day, request, e, n);
      MixedAll(Queued, Holding, n, ReadUsage(spent));
    } else {
      run := AllRead(n, day, request, e, i - 1);
      ReadStep(n, day, request, e, i - 1);
      StepsOneMore(Crowd(n, day, request, e), run, At(n, spent, 0, Mixed(Holding, ReadUsage(spent), i, n)));
      run := run + [At(n, spent, 0, Mixed(Holding, ReadUsage(spent), i, n))];
    }
  }

  lemma {:induction false} AllDecide(n: nat, day: real, request: Option<real>, e: real, i: nat)
    returns (run: seq<State>)
    requires Affordable(request, e) && i <= n
    ensures var spent := day - e;
            Extends(Crowd(n, day, request, e), At(n, spent, n, Mixed(Queued, Holding, 0, n)), run,
              At(n, spent, 0, Mixed(ReadUsage(spent), Calling(0), i, n)))
  {
    var spent := day - e;
    hide Next, Mixed, Crowd;
    if i == 0 {
      run := AllRead(n, day, request, e, n);
      MixedAll(Holding, ReadUsage(spent), n, Calling(0));
    } else {
      run := AllDecide(n, day, request, e, i - 1);
      DecideStep(n, day, request, e, i - 1);
      StepsOneMore(Crowd(n, day, request, e), run, At(n, spent, 0, Mixed(ReadUsage(spent), Calling(0), i, n)));
      run := run + [At(n, spent, 0, Mixed(ReadUsage(spent), Calling(0), i, n))];
    }
  }

  lemma {:induction false} AllRecord(n: nat, day: real, request: Option<real>, e: real, i: nat)
    returns (run: seq<State>)
    requires Affordable(request, e) && i <= n
    ensures Extends(Crowd(n, day, request, e), At(n, day - e, n, Mixed(Queued, Holding, 0, n)), run,
                    At(n, SpentAfter(day, e, i), 0, Mixed(Calling(0), ANSWERED, i, n)))
  {
    hide Next, Mixed, Crowd;
    if i == 0 {
      run := AllDecide(n, day, request, e, n);
      MixedAll(ReadUsage(day - e), Calling(0), n, ANSWERED);
      SpentOneMore(day, e, 0);
    } else {
      run := AllRecord(n, day, request, e, i - 1);
      RecordStep(n, day, request, e, i - 1);
      var s := At(n, SpentAfter(day, e, i), 0, Mixed(Calling(0), ANSWERED, i, n));
      StepsOneMore(Crowd(n, day, request, e), run, s);
      run := run + [s];
    }
  }

  predicate Affordable(request: Option<real>, e: real) { request.Some? ==> e <= request.value }

  /** For every number of permits, every request cap or none, and every start there is a run that
      begins at or above the start and spends the whole bound. (It needs a request cap that lets
      something through, or there is nothing to spend.) */
  lemma {:induction false} BoundIsReached(maxFanout: nat, day: real, start: real, request: Option<real>)
    returns (cfg: Config, run: seq<State>)
    requires maxFanout >= 1 && start <= day && (request.Some? ==> request.value >= 0.0)
    ensures cfg.maxFanout == maxFanout && Capped(cfg, day) && cfg.budget.value.maxUsdPerRequest == request
    ensures IsRun(cfg, run) && run != [] && start <= run[0].spent <= day
    ensures run[|run| - 1].spent == Bound(cfg, day, start)
  {
    var e := LargestOf(request, day, start);
    cfg := Crowd(maxFanout, day, request, e);
    run := AllRecord(maxFanout, day, request, e, maxFanout);
    assert Init(cfg, run[0]);
    hide Next;
    Distribute(e, maxFanout as real - 1.0, 1.0);
  }

  /** Every fan-out under these caps that starts between `start` and the daily cap stays within it. */
  ghost predicate CapIsKept(maxFanout: nat, day: real, start: real, request: Option<real>) {
    forall cfg: Config, run: seq<State>, k: nat ::
      && cfg.maxFanout == maxFanout && Capped(cfg, day) && cfg.budget.value.maxUsdPerRequest == request
      && IsRun(cfg, run) && k < |run| && start <= run[0].spent <= day
      ==> run[k].spent <= day
  }

  /** The daily cap itself is kept exactly with one permit, with nothing left to spend from the
      start, or with a request cap that lets nothing through that costs. */
  lemma {:induction false} CapIsKeptExactly(maxFanout: nat, day: real, start: real, request: Option<real>)
    requires maxFanout >= 1 && start <= day
    ensures CapIsKept(maxFanout, day, start, request) <==>
            maxFanout == 1 || start == day || (request.Some? && request.value <= 0.0)
  {
    hide IsRun, InFlight, Overspend;
    var cap := LargestOf(request, day, start);
    if maxFanout == 1 || cap == 0.0 {
      forall cfg: Config, run: seq<State>, k: nat
        | && cfg.maxFanout == maxFanout && Capped(cfg, day) && cfg.budget.value.maxUsdPerRequest == request
          && IsRun(cfg, run) && k < |run| && start <= run[0].spent <= day
        ensures run[k].spent <= day
      {
        NothingOver(cap, maxFanout);
        OverspendBound(cfg, day, start, run, k);
      }
    } else {
      var cfg, run := BoundIsReached(maxFanout, day, start, request);
      SomethingOver(cap, maxFanout);
      assert run[|run| - 1].spent > day;
    }
  }

  lemma {:induction false} NothingOver(cap: real, permits: nat)
    requires permits == 1 || cap == 0.0
    ensures Overspend(cap, permits) == 0.0
  {
  }

  lemma {:induction false} SomethingOver(cap: real, permits: nat)
    requires permits > 1 && cap > 0.0
    ensures Overspend(cap, permits) > 0.0
  {
    ScaleMonotone(cap, 1.0, permits as real - 1.0);
    assert cap * 1.0 == cap;
  }
}
