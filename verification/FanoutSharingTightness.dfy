/** The bound of several Conductor runs is tight: runs of one permit each that all pass their
    check before any of them records drive the spend up to it. */
module FanoutSharingTightness {
  import opened Prelude
  import opened BudgetEnforcement
  import opened Fanout
  import opened FanoutBudget
  import opened FanoutTightness
  import opened FanoutSharing

  function CrowdTenancy(n: nat, day: real, request: Option<real>): Tenancy {
    Tenancy(Budget(request, Some(day), None, map[]), "tenant", Repeat(1, n))
  }

  /** A run of one worker, at the given spend and status. */
  ghost function Run(day: real, request: Option<real>, e: real, spent: real, free: nat, status: Status): Member {
    Busy(Crowd(1, day, request, e), At(1, spent, free, [status]))
  }

  /** The first i of n runs are at `after`, the others at `before`. */
  function Split(before: Member, after: Member, i: nat, n: nat): (ms: seq<Member>)
    requires i <= n
    ensures |ms| == n && forall r :: 0 <= r < n ==> ms[r] == if r < i then after else before
  {
    Repeat(after, i) + Repeat(before, n - i)
  }

  /** Run i on its own, between the runs behind it and those before it. */
  function Between(before: Member, here: Member, after: Member, i: nat, n: nat): (ms: seq<Member>)
    requires i < n
  {
    Split(before, after, i, n)[i := here]
  }

  lemma {:induction false} SplitEnds(before: Member, after: Member, i: nat, n: nat)
    requires i < n
    ensures Between(before, before, after, i, n) == Split(before, after, i, n)
    ensures Between(before, after, after, i, n) == Split(before, after, i + 1, n)
  {
  }

  lemma {:induction false} SplitStarts(before: Member, after: Member, other: Member, n: nat)
    ensures Split(before, after, 0, n) == Split(before, other, 0, n)
  {
  }

  lemma {:induction false} SplitTurns(before: Member, after: Member, n: nat, later: Member)
    ensures Split(before, after, n, n) == Split(after, later, 0, n)
  {
  }

  ghost predicate JointSteps(t: Tenancy, run: seq<Joint>, first: Joint, last: Joint) {
    && run != [] && run[0] == first && run[|run| - 1] == last
    && forall i :: 0 <= i < |run| - 1 ==> JointNext(t, run[i], run[i + 1])
  }

  lemma {:induction false} OneMore(t: Tenancy, run: seq<Joint>, first: Joint, last: Joint, j: Joint)
    requires JointSteps(t, run, first, last) && JointNext(t, last, j)
    ensures JointSteps(t, run + [j], first, j)
  {
    hide JointNext;
  }

  lemma {:induction false} BeginStep(n: nat, day: real, request: Option<real>, e: real, after: Member, i: nat)
    requires i < n && e >= 0.0
    ensures JointNext(CrowdTenancy(n, day, request),
                      Joint(day - e, Between(Idle, Idle, after, i, n)),
                      Joint(day - e, Between(Idle, Run(day, request, e, day - e, 1, Queued), after, i, n)))
  {
    var t, cfg, s := CrowdTenancy(n, day, request), Crowd(1, day, request, e), At(1, day - e, 1, [Queued]);
    assert Begin(t, Joint(day - e, Between(Idle, Idle, after, i, n)),
                 Joint(day - e, Between(Idle, Busy(cfg, s), after, i, n)), i, cfg, s);
  }

  /** A step of run i alone, from one spend and status to the next. */
  lemma {:induction false} WorkStep(
      n: nat, day: real, request: Option<real>, e: real, before: Member, after: Member, i: nat, old_: real,
      spent: real, free: nat, status: Status, spent': real, free': nat, status': Status)
    requires i < n
    requires Next(Crowd(1, day, request, e), At(1, spent, free, [status]), At(1, spent', free', [status']))
    ensures JointNext(CrowdTenancy(n, day, request),
                      Joint(spent, Between(before, Run(day, request, e, old_, free, status), after, i, n)),
                      Joint(spent', Between(before, Run(day, request, e, spent', free', status'), after, i, n)))
  {
    hide Next, Crowd;
    var t := CrowdTenancy(n, day, request);
    var j := Joint(spent, Between(before, Run(day, request, e, old_, free, status), after, i, n));
    var j' := Joint(spent', Between(before, Run(day, request, e, spent', free', status'), after, i, n));
    assert Work(t, j, j', i, At(1, spent', free', [status']));
  }

  lemma {:induction false} FinishStep(
      n: nat, day: real, request: Option<real>, spent: real, before: Member, here: Member, i: nat)
    requires i < n
    ensures JointNext(CrowdTenancy(n, day, request), Joint(spent, Between(before, here, Idle, i, n)),
                      Joint(spent, Between(before, Idle, Idle, i, n)))
  {
    assert Finish(CrowdTenancy(n, day, request), Joint(spent, Between(before, here, Idle, i, n)),
                  Joint(spent, Between(before, Idle, Idle, i, n)), i);
  }

  lemma {:induction false} SingleSteps(day: real, request: Option<real>, e: real, x: real)
    requires Affordable(request, e)
    ensures var cfg, s := Crowd(1, day, request, e), day - e;
            && Next(cfg, At(1, s, 1, [Queued]), At(1, s, 0, [Holding]))
            && Next(cfg, At(1, s, 0, [Holding]), At(1, s, 0, [ReadUsage(s)]))
            && Next(cfg, At(1, s, 0, [ReadUsage(s)]), At(1, s, 0, [Calling(0)]))
            && Next(cfg, At(1, x, 0, [Calling(0)]), At(1, x + e, 0, [ANSWERED]))
  {
    var cfg, s := Crowd(1, day, request, e), day - e;
    assert Passes(cfg, Worker(e), s);
    assert TaskStep(cfg, At(1, s, 1, [Queued]), At(1, s, 0, [Holding]), 0) by {
      assert Acquire(cfg, At(1, s, 1, [Queued]), At(1, s, 0, [Holding]), 0);
    }
    assert TaskStep(cfg, At(1, s, 0, [Holding]), At(1, s, 0, [ReadUsage(s)]), 0) by {
      assert Read(cfg, At(1, s, 0, [Holding]), At(1, s, 0, [ReadUsage(s)]), 0);
    }
    assert TaskStep(cfg, At(1, s, 0, [ReadUsage(s)]), At(1, s, 0, [Calling(0)]), 0) by {
      assert Decide(cfg, At(1, s, 0, [ReadUsage(s)]), At(1, s, 0, [Calling(0)]), 0);
    }
    assert TaskStep(cfg, At(1, x, 0, [Calling(0)]), At(1, x + e, 0, [ANSWERED]), 0) by {
      assert Record(cfg, At(1, x, 0, [Calling(0)]), At(1, x + e, 0, [ANSWERED]), 0);
    }
  }

  ghost function Start(n: nat, day: real, e: real): Joint { Joint(day - e, Split(Idle, Idle, 0, n)) }

  /** The first i runs have passed their check, and nothing is recorded. */
  lemma {:induction false} AllPass(n: nat, day: real, request: Option<real>, e: real, i: nat) returns (run: seq<Joint>)
    requires i <= n && e >= 0.0 && Affordable(request, e)
    ensures JointSteps(CrowdTenancy(n, day, request), run, Start(n, day, e),
                       Joint(day - e, Split(Idle, Run(day, request, e, day - e, 0, Calling(0)), i, n)))
  {
    var t, s, first := CrowdTenancy(n, day, request), day - e, Start(n, day, e);
    var calling := Run(day, request, e, s, 0, Calling(0));
    if i == 0 {
      run := [first];
      SplitStarts(Idle, Idle, calling, n);
    } else {
      var r := i - 1;
      run := AllPass(n, day, request, e, r);
      hide *;
      SplitEnds(Idle, calling, r, n);
      SingleSteps(day, request, e, s);
      BeginStep(n, day, request, e, calling, r);
      WorkStep(n, day, request, e, Idle, calling, r, s, s, 1, Queued, s, 0, Holding);
      WorkStep(n, day, request, e, Idle, calling, r, s, s, 0, Holding, s, 0, ReadUsage(s));
      WorkStep(n, day, request, e, Idle, calling, r, s, s, 0, ReadUsage(s), s, 0, Calling(0));
      var j0 := Joint(s, Between(Idle, Idle, calling, r, n));
      var j1 := Joint(s, Between(Idle, Run(day, request, e, s, 1, Queued), calling, r, n));
      var j2 := Joint(s, Between(Idle, Run(day, request, e, s, 0, Holding), calling, r, n));
      var j3 := Joint(s, Between(Idle, Run(day, request, e, s, 0, ReadUsage(s)), calling, r, n));
      var j4 := Joint(s, Between(Idle, calling, calling, r, n));
      OneMore(t, run, first, j0, j1);
      OneMore(t, run + [j1], first, j1, j2);
      OneMore(t, run + [j1] + [j2], first, j2, j3);
      OneMore(t, run + [j1] + [j2] + [j3], first, j3, j4);
      run := run + [j1] + [j2] + [j3] + [j4];
    }
  }

  /** Then the first i runs record and end. */
  lemma {:induction false} AllSpend(n: nat, day: real, request: Option<real>, e: real, i: nat) returns (run: seq<Joint>)
    requires i <= n && e >= 0.0 && Affordable(request, e)
    ensures JointSteps(CrowdTenancy(n, day, request), run, Start(n, day, e),
                       Joint(SpentAfter(day, e, i), Split(Run(day, request, e, day - e, 0, Calling(0)), Idle, i, n)))
  {
    hide *;
    var t, s, first := CrowdTenancy(n, day, request), day - e, Start(n, day, e);
    var calling := Run(day, request, e, s, 0, Calling(0));
    if i == 0 {
      run := AllPass(n, day, request, e, n);
      SplitTurns(Idle, calling, n, Idle);
      SpentOneMore(day, e, 0);
    } else {
      var r := i - 1;
      run := AllSpend(n, day, request, e, r);
      var x := SpentAfter(day, e, r);
      SpentOneMore(day, e, r);
      SplitEnds(calling, Idle, r, n);
      SingleSteps(day, request, e, x);
      WorkStep(n, day, request, e, calling, Idle, r, s, x, 0, Calling(0), x + e, 0, ANSWERED);
      FinishStep(n, day, request, x + e, calling, Run(day, request, e, x + e, 0, ANSWERED), r);
      var j0 := Joint(x, Between(calling, calling, Idle, r, n));
      var j1 := Joint(x + e, Between(calling, Run(day, request, e, x + e, 0, ANSWERED), Idle, r, n));
      var j2 := Joint(x + e, Between(calling, Idle, Idle, r, n));
      OneMore(t, run, first, j0, j1);
      OneMore(t, run + [j1], first, j1, j2);
      run := run + [j1] + [j2];
    }
  }

  lemma {:induction false} OnePermitEach(n: nat)
    ensures PermitSum(Repeat(1, n)) == n
  {
    if n > 0 {
      OnePermitEach(n - 1);
      assert Repeat(1, n)[..n - 1] == Repeat(1, n - 1);
    }
  }

  lemma {:induction false} AllSpent(day: real, e: real, n: nat)
    ensures SpentAfter(day, e, n) == day + Overspend(e, n)
  {
    Distribute(e, n as real - 1.0, 1.0);
  }

  lemma {:induction false} LargestIsAffordable(request: Option<real>, day: real, start: real)
    requires start <= day && (request.Some? ==> request.value >= 0.0)
    ensures Affordable(request, LargestOf(request, day, start)) && LargestOf(request, day, start) <= day - start
  {
  }

  /** For every number of runs of one permit each there is a joint run that begins at or above the
      start and spends the whole bound: one permit each does not keep the cap. */
  lemma {:induction false} SharedBoundIsReached(n: nat, day: real, start: real, request: Option<real>)
    returns (t: Tenancy, run: seq<Joint>)
    requires start <= day && (request.Some? ==> request.value >= 0.0)
    ensures t.permits == Repeat(1, n) && PermitSum(t.permits) == n && t.budget.maxUsdPerRequest == request
    ensures Capped(Config([], 1, Some(t.budget), t.tenant), day)
    ensures IsJointRun(t, run) && run != [] && start <= run[0].spent <= day
    ensures run[|run| - 1].spent == day + Overspend(Cap(t, day, start), n)
  {
    hide JointNext, SpentAfter, Overspend, PermitSum, Run, LargestOf;
    var e := LargestOf(request, day, start);
    LargestIsAffordable(request, day, start);
    t := CrowdTenancy(n, day, request);
    run := AllSpend(n, day, request, e, n);
    OnePermitEach(n);
    AllSpent(day, e, n);
  }
}
