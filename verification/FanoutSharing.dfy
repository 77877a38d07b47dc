/** Several Conductor runs of one tenant at once: they share the spend, but each has a semaphore
    of its own. A run is idle, in a fan-out, or in a coordinator turn, which is a fan-out of one
    worker under one permit. The overspend bound holds with the sum of their permits. */
module FanoutSharing {
  import opened Prelude
  import opened BudgetEnforcement
  import opened Fanout
  import opened FanoutBudget

  datatype Member = Idle | Busy(cfg: Config, state: State)

  datatype Joint = Joint(spent: real, members: seq<Member>)

  /** What the members have in common, and how many permits each may hand out. */
  datatype Tenancy = Tenancy(budget: Budget, tenant: string, permits: seq<nat>)

  ghost predicate Belongs(t: Tenancy, r: nat, cfg: Config)
    requires r < |t.permits|
  {
    && cfg.budget == Some(t.budget) && cfg.tenant == t.tenant && cfg.maxFanout <= t.permits[r]
    && forall i :: 0 <= i < |cfg.tasks| ==> cfg.tasks[i].Unknown? || cfg.tasks[i].estimate >= 0.0
  }

  ghost predicate Begin(t: Tenancy, j: Joint, j': Joint, r: nat, cfg: Config, s: State) {
    && r < |j.members| == |t.permits| && j.members[r].Idle? && Belongs(t, r, cfg) && Init(cfg, s)
    && j' == j.(members := j.members[r := Busy(cfg, s)])
  }

  /** The turn is over, or was dropped half-way. */
  ghost predicate Finish(t: Tenancy, j: Joint, j': Joint, r: nat) {
    r < |j.members| == |t.permits| && j' == j.(members := j.members[r := Idle])
  }

  /** A step of member r on the spend as it stands. */
  ghost predicate Work(t: Tenancy, j: Joint, j': Joint, r: nat, s': State) {
    && r < |j.members| == |t.permits| && j.members[r].Busy?
    && Next(j.members[r].cfg, j.members[r].state.(spent := j.spent), s')
    && j' == Joint(s'.spent, j.members[r := Busy(j.members[r].cfg, s')])
  }

  ghost predicate JointNext(t: Tenancy, j: Joint, j': Joint) {
    || (exists r, cfg, s :: Begin(t, j, j', r, cfg, s))
    || (exists r :: Finish(t, j, j', r))
    || (exists r, s' :: Work(t, j, j', r, s'))
  }

  ghost predicate IsJointRun(t: Tenancy, run: seq<Joint>) {
    && run != [] && |run[0].members| == |t.permits|
    && (forall r :: 0 <= r < |t.permits| ==> run[0].members[r].Idle?)
    && forall i :: 0 <= i < |run| - 1 ==> JointNext(t, run[i], run[i + 1])
  }

  // ----- Sums over the members -----

  function Sum(xs: seq<real>): real {
    if xs == [] then 0.0 else Sum(xs[..|xs| - 1]) + xs[|xs| - 1]
  }

  lemma {:induction false} SumUpdate(xs: seq<real>, i: nat, x: real)
    requires i < |xs|
    ensures Sum(xs[i := x]) == Sum(xs) - xs[i] + x
  {
    var n := |xs| - 1;
    if i < n {
      SumUpdate(xs[..n], i, x);
      assert xs[i := x][..n] == xs[..n][i := x];
    } else {
      assert xs[i := x][..n] == xs[..n];
    }
  }

  function PermitSum(permits: seq<nat>): nat {
    if permits == [] then 0 else PermitSum(permits[..|permits| - 1]) + permits[|permits| - 1]
  }

  function Times(cap: real, permits: nat): real { cap * permits as real }

  lemma {:induction false} TimesAdds(cap: real, few: nat, more: nat)
    ensures Times(cap, few + more) == Times(cap, few) + Times(cap, more)
  {
    Distribute(cap, few as real, more as real);
  }

  lemma {:induction false} OverspendIsOneLess(cap: real, permits: nat)
    ensures Overspend(cap, permits) == Times(cap, permits) - cap
  {
    Distribute(cap, permits as real, -1.0);
  }

  /** If each amount is at most `cap` per permit, so is the sum; and one cap less, if one amount is
      one cap less. */
  lemma {:induction false} SumWithinPermits(cap: real, xs: seq<real>, permits: seq<nat>, i: nat)
    requires |xs| == |permits| && i < |xs|
    requires forall r :: 0 <= r < |xs| ==> xs[r] <= Times(cap, permits[r])
    ensures Sum(xs) <= Times(cap, PermitSum(permits))
    ensures xs[i] <= Overspend(cap, permits[i]) ==> Sum(xs) <= Overspend(cap, PermitSum(permits))
  {
    hide Times, Overspend;
    var n := |xs| - 1;
    TimesAdds(cap, PermitSum(permits[..n]), permits[n]);
    OverspendIsOneLess(cap, permits[i]);
    OverspendIsOneLess(cap, PermitSum(permits));
    if n > 0 {
      SumWithinPermits(cap, xs[..n], permits[..n], if i < n then i else 0);
      if i < n { OverspendIsOneLess(cap, PermitSum(permits[..n])); }
    } else {
      assert xs[..n] == [] && permits[..n] == [];
      NoPermits(cap);
    }
  }

  lemma {:induction false} NoPermits(cap: real)
    ensures Times(cap, 0) == 0.0
  {
  }

  ghost function FlightOf(m: Member): real {
    if m.Busy? && Shape(m.cfg, m.state) then InFlight(m.cfg, m.state) else 0.0
  }

  ghost function Flights(members: seq<Member>): (xs: seq<real>)
    ensures |xs| == |members| && forall r :: 0 <= r < |members| ==> xs[r] == FlightOf(members[r])
  {
    if members == [] then []
    else Flights(members[..|members| - 1]) + [FlightOf(members[|members| - 1])]
  }

  // ----- The bound -----

  function Cap(t: Tenancy, day: real, start: real): (c: real)
    ensures c >= 0.0
  {
    LargestOf(t.budget.maxUsdPerRequest, day, start)
  }

  ghost predicate MemberSound(t: Tenancy, day: real, start: real, r: nat, m: Member)
    requires r < |t.permits|
  {
    m.Busy? ==> Belongs(t, r, m.cfg) && Sound(m.cfg, day, start, m.state)
  }

  ghost predicate JointSound(t: Tenancy, day: real, start: real, j: Joint) {
    && |j.members| == |t.permits| && j.spent >= start
    && (forall r :: 0 <= r < |t.permits| ==> MemberSound(t, day, start, r, j.members[r]))
    && j.spent + Sum(Flights(j.members)) <= day + Overspend(Cap(t, day, start), PermitSum(t.permits))
  }

  lemma {:induction false} BelongingIsCapped(t: Tenancy, day: real, start: real, r: nat, cfg: Config)
    requires r < |t.permits| && Belongs(t, r, cfg) && Capped(Config([], 1, Some(t.budget), t.tenant), day)
    ensures Capped(cfg, day) && Largest(cfg, day, start) == Cap(t, day, start)
  {
  }

  lemma {:induction false} FlightIsBounded(t: Tenancy, day: real, start: real, r: nat, m: Member)
    requires r < |t.permits| && Capped(Config([], 1, Some(t.budget), t.tenant), day) && MemberSound(t, day, start, r, m)
    ensures 0.0 <= FlightOf(m) <= Times(Cap(t, day, start), t.permits[r])
    ensures m.Busy? && (exists i :: 0 <= i < |m.cfg.tasks| && i < |m.state.status| && m.state.status[i].Holding?) ==>
              FlightOf(m) <= Overspend(Cap(t, day, start), t.permits[r])
  {
    var cap := Cap(t, day, start);
    ScaleMonotone(cap, 0.0, t.permits[r] as real);
    hide Cap, InFlight, Capped, Overspend, Sound;
    if m.Busy? {
      BelongingIsCapped(t, day, start, r, m.cfg);
      ExposureIsBounded(m.cfg, day, start, m.state);
      assert Largest(m.cfg, day, start) == cap;
      MorePermits(cap, FlightOf(m), m.cfg.maxFanout, t.permits[r]);
    }
  }

  lemma {:induction false} MorePermits(cap: real, e: real, few: nat, many: nat)
    requires cap >= 0.0 && few <= many
    ensures e <= cap * few as real ==> e <= cap * many as real
    ensures e <= Overspend(cap, few) ==> e <= Overspend(cap, many)
  {
    ScaleMonotone(cap, few as real, many as real);
    ScaleMonotone(cap, few as real - 1.0, many as real - 1.0);
  }

  lemma {:induction false} FlightsAreBounded(t: Tenancy, day: real, start: real, members: seq<Member>, i: nat)
    requires Capped(Config([], 1, Some(t.budget), t.tenant), day) && |members| == |t.permits| && i < |members|
    requires forall r :: 0 <= r < |t.permits| ==> MemberSound(t, day, start, r, members[r])
    requires members[i].Busy?
    requires exists k ::
               0 <= k < |members[i].cfg.tasks| && k < |members[i].state.status| && members[i].state.status[k].Holding?
    ensures Sum(Flights(members)) <= Overspend(Cap(t, day, start), PermitSum(t.permits))
  {
    hide Cap, MemberSound, FlightOf, Overspend, Times, Capped;
    forall r | 0 <= r < |members| ensures Flights(members)[r] <= Times(Cap(t, day, start), t.permits[r]) {
      FlightIsBounded(t, day, start, r, members[r]);
    }
    FlightIsBounded(t, day, start, i, members[i]);
    SumWithinPermits(Cap(t, day, start), Flights(members), t.permits, i);
  }

  lemma {:induction false} FlightsUpdate(members: seq<Member>, r: nat, m: Member)
    requires r < |members|
    ensures Flights(members[r := m]) == Flights(members)[r := FlightOf(m)]
    ensures Sum(Flights(members[r := m])) == Sum(Flights(members)) - FlightOf(members[r]) + FlightOf(m)
  {
    SumUpdate(Flights(members), r, FlightOf(m));
  }

  lemma {:induction false} BeginKeeps(
      t: Tenancy, day: real, start: real, j: Joint, j': Joint, r: nat, cfg: Config, s: State)
    requires JointSound(t, day, start, j) && Begin(t, j, j', r, cfg, s)
    ensures JointSound(t, day, start, j')
  {
    SoundStarts(cfg, day, start, s);
    FlightsUpdate(j.members, r, Busy(cfg, s));
    hide Sound, InFlight, Init, Overspend, Cap, Flights, Sum, Belongs;
  }

  lemma {:induction false} FinishKeeps(t: Tenancy, day: real, start: real, j: Joint, j': Joint, r: nat)
    requires Capped(Config([], 1, Some(t.budget), t.tenant), day)
    requires JointSound(t, day, start, j) && Finish(t, j, j', r)
    ensures JointSound(t, day, start, j')
  {
    FlightIsBounded(t, day, start, r, j.members[r]);
    FlightsUpdate(j.members, r, Idle);
    hide Sound, InFlight, Overspend, Cap, Flights, Sum, Belongs, Capped;
  }

  lemma {:induction false} WorkKeeps(t: Tenancy, day: real, start: real, j: Joint, j': Joint, r: nat, s': State)
    requires Capped(Config([], 1, Some(t.budget), t.tenant), day)
    requires JointSound(t, day, start, j) && Work(t, j, j', r, s')
    ensures JointSound(t, day, start, j')
  {
    var cfg, s := j.members[r].cfg, j.members[r].state.(spent := j.spent);
    assert MemberSound(t, day, start, r, j.members[r]);
    BelongingIsCapped(t, day, start, r, cfg);
    assert Sound(cfg, day, start, s);
    StepPays(cfg, day, start, s, s');
    FlightsUpdate(j.members, r, Busy(cfg, s'));
    assert InFlight(cfg, s) == FlightOf(j.members[r]);
    hide Sound, InFlight, Overspend, Cap, Flights, Sum, Belongs, Capped, Next;
    if i :| 0 <= i < |cfg.tasks| && s.status[i].Holding? && s'.spent + InFlight(cfg, s') <= day + InFlight(cfg, s) {
      FlightsAreBounded(t, day, start, j.members, r);
    }
  }

  lemma {:induction false} EveryJointRunWithinBound(t: Tenancy, day: real, start: real, run: seq<Joint>, k: nat)
    requires Capped(Config([], 1, Some(t.budget), t.tenant), day)
    requires IsJointRun(t, run) && k < |run|
    requires start <= run[0].spent <= day + Overspend(Cap(t, day, start), PermitSum(t.permits))
    ensures JointSound(t, day, start, run[k])
  {
    if k == 0 {
      NothingInFlight(run[0].members);
      hide Overspend;
    } else {
      hide Capped, Overspend, JointSound, Begin, Finish, Work;
      EveryJointRunWithinBound(t, day, start, run, k - 1);
      var j, j' := run[k - 1], run[k];
      if r, cfg, s :| Begin(t, j, j', r, cfg, s) { BeginKeeps(t, day, start, j, j', r, cfg, s); }
      else if r :| Finish(t, j, j', r) { FinishKeeps(t, day, start, j, j', r); }
      else if r, s' :| Work(t, j, j', r, s') { WorkKeeps(t, day, start, j, j', r, s'); }
    }
  }

  lemma {:induction false} NothingInFlight(members: seq<Member>)
    requires forall r :: 0 <= r < |members| ==> members[r].Idle?
    ensures Sum(Flights(members)) == 0.0
  {
    if members != [] {
      var n := |members| - 1;
      NothingInFlight(members[..n]);
      assert Flights(members)[..n] == Flights(members[..n]);
    }
  }

  /** However many Conductor runs of a tenant there are at once, and in whatever turns: the spend
      stays within the daily cap plus, for all their permits but one, the largest estimate that
      can pass. One run with one permit, alone, keeps the cap. */
  lemma {:induction false} SharedBound(t: Tenancy, day: real, start: real, run: seq<Joint>, k: nat)
    requires Capped(Config([], 1, Some(t.budget), t.tenant), day)
    requires IsJointRun(t, run) && k < |run|
    requires start <= run[0].spent <= day + Overspend(Cap(t, day, start), PermitSum(t.permits))
    ensures run[k].spent <= day + Overspend(Cap(t, day, start), PermitSum(t.permits))
    ensures PermitSum(t.permits) == 1 ==> run[k].spent <= day
  {
    EveryJointRunWithinBound(t, day, start, run, k);
    FlightsNonNegative(t, day, start, run[k].members);
    hide JointSound, IsJointRun, Capped, Cap, Flights, Sum;
    if PermitSum(t.permits) == 1 { OverspendNonNegative(Cap(t, day, start), 1); }
  }

  lemma {:induction false} FlightsNonNegative(t: Tenancy, day: real, start: real, members: seq<Member>)
    requires Capped(Config([], 1, Some(t.budget), t.tenant), day) && |members| <= |t.permits|
    requires forall r :: 0 <= r < |members| ==> MemberSound(t, day, start, r, members[r])
    ensures Sum(Flights(members)) >= 0.0
  {
    if members != [] {
      var n := |members| - 1;
      FlightsNonNegative(t, day, start, members[..n]);
      FlightIsBounded(t, day, start, n, members[n]);
      assert Flights(members)[..n] == Flights(members[..n]);
      hide Cap, MemberSound, FlightOf, Capped;
    }
  }
}
