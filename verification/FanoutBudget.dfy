/** Permits and money: in every run at most `max_fanout` permits are out, and recorded spend
    plus the estimates of calls in flight stays under the daily cap plus max_fanout - 1
    requests. */
module FanoutBudget {
  import opened Prelude
  import opened BudgetEnforcement
  import opened Fanout

  predicate HoldsPermit(p: Status) { p.Holding? || p.ReadUsage? || p.Calling? || p.Recorded? }

  ghost function Permit(t: Task, p: Status): real { if HoldsPermit(p) then 1.0 else 0.0 }

  /** Permits are conserved, and only registered workers hold one. */
  ghost predicate Permits(cfg: Config, s: State) {
    && Shape(cfg, s)
    && s.free as real + Total(Permit, cfg.tasks, s.status) == cfg.maxFanout as real
    && forall i :: 0 <= i < |cfg.tasks| ==> cfg.tasks[i].Unknown? ==> !HoldsPermit(s.status[i])
  }

  lemma {:induction false} NoneHeld(tasks: seq<Task>, status: seq<Status>, w: (Task, Status) -> real)
    requires |tasks| == |status|
    requires forall i :: 0 <= i < |tasks| ==> w(tasks[i], status[i]) == 0.0
    ensures Total(w, tasks, status) == 0.0
  {
    if tasks != [] { NoneHeld(tasks[..|tasks| - 1], status[..|tasks| - 1], w); }
  }

  lemma {:induction false} PermitsStart(cfg: Config, s: State)
    requires Init(cfg, s)
    ensures Permits(cfg, s)
  {
    NoneHeld(cfg.tasks, s.status, Permit);
  }

  lemma {:induction false} PermitsKept(cfg: Config, s: State, s': State)
    requires Permits(cfg, s) && Next(cfg, s, s')
    ensures Permits(cfg, s')
  {
    if !Receive(cfg, s, s') {
      var i: nat :| TaskStep(cfg, s, s', i);
      PermitMoves(cfg, s, s', i);
      TotalMove(Permit, cfg.tasks, s.status, i, s'.status[i]);
    }
  }

  /** A task step changes one status, and moves a permit between that task and the pool. */
  lemma {:induction false} PermitMoves(cfg: Config, s: State, s': State, i: nat)
    requires Shape(cfg, s) && TaskStep(cfg, s, s', i)
    ensures Shape(cfg, s') && i < |cfg.tasks| && s'.status == s.status[i := s'.status[i]]
    ensures s'.free as real + Permit(cfg.tasks[i], s'.status[i]) == s.free as real + Permit(cfg.tasks[i], s.status[i])
    ensures cfg.tasks[i].Unknown? && !HoldsPermit(s.status[i]) ==> !HoldsPermit(s'.status[i])
  {
    hide Passes, Concat, FullText;
  }

  /** The cap that binds this tenant: the global daily cap or the tenant's own. */
  predicate DailyCapIs(cfg: Config, day: real) {
    && cfg.budget.Some?
    && (|| cfg.budget.value.maxUsdPerDay == Some(day)
        || (cfg.tenant in cfg.budget.value.maxUsdPerTenantPerDay
            && cfg.budget.value.maxUsdPerTenantPerDay[cfg.tenant] == day))
  }

  /** What the theorems ask of the configuration: a daily cap, and no negative estimate. */
  predicate Capped(cfg: Config, day: real) {
    && DailyCapIs(cfg, day)
    && forall i :: 0 <= i < |cfg.tasks| ==> cfg.tasks[i].Unknown? || cfg.tasks[i].estimate >= 0.0
  }

  /** The largest estimate that passes the checks once the spend is at least `start`: the request
      cap, if there is one, but never more than the day has left. */
  function LargestOf(request: Option<real>, day: real, start: real): (e: real)
    ensures e >= 0.0
  {
    var left := if start <= day then day - start else 0.0;
    if request.None? || left <= request.value then left
    else if request.value >= 0.0 then request.value else 0.0
  }

  function Largest(cfg: Config, day: real, start: real): (e: real)
    ensures e >= 0.0
  {
    LargestOf(if cfg.budget.Some? then cfg.budget.value.maxUsdPerRequest else None, day, start)
  }

  lemma {:induction false} PassingIsBounded(cfg: Config, day: real, start: real, i: nat, usdToday: real)
    requires Capped(cfg, day) && i < |cfg.tasks| && !cfg.tasks[i].Unknown?
    requires start <= usdToday && Passes(cfg, cfg.tasks[i], usdToday)
    ensures cfg.tasks[i].estimate <= Largest(cfg, day, start)
    ensures usdToday + cfg.tasks[i].estimate <= day
  {
  }

  /** The estimate of a call that `pre_check` let through, or is about to, from the moment
      the usage was read until the spend is recorded. */
  ghost function Exposed(cfg: Config, t: Task, p: Status): real {
    if !t.Unknown? && (p.Calling? || (p.ReadUsage? && Passes(cfg, t, p.usdToday))) then t.estimate else 0.0
  }

  ghost function Exposure(cfg: Config): (Task, Status) -> real { (t, p) => Exposed(cfg, t, p) }

  /** The exposed estimates of a whole fan-out. */
  ghost function InFlight(cfg: Config, s: State): real
    requires Shape(cfg, s)
  {
    Total(Exposure(cfg), cfg.tasks, s.status)
  }

  /** What a permit could still expose when no estimate passes `cap`. */
  ghost function Slack(cfg: Config, cap: real): (Task, Status) -> real {
    (t, p) => (if HoldsPermit(p) then cap else 0.0) - Exposed(cfg, t, p)
  }

  lemma {:induction false} SlackTotal(cfg: Config, cap: real, tasks: seq<Task>, status: seq<Status>)
    requires |tasks| == |status|
    ensures Total(Slack(cfg, cap), tasks, status) ==
            cap * Total(Permit, tasks, status) - Total(Exposure(cfg), tasks, status)
  {
    if tasks != [] {
      var n := |tasks| - 1;
      SlackTotal(cfg, cap, tasks[..n], status[..n]);
      Distribute(cap, Total(Permit, tasks[..n], status[..n]), Permit(tasks[n], status[n]));
    }
  }

  lemma {:induction false} Distribute(a: real, x: real, y: real)
    ensures a * (x + y) == a * x + a * y
  {
  }

  lemma {:induction false} ScaleMonotone(a: real, x: real, y: real)
    requires a >= 0.0 && x <= y
    ensures a * x <= a * y
  {
  }

  /** What all permits but one may spend beyond the day. */
  function Overspend(cap: real, permits: nat): real { cap * (permits as real - 1.0) }

  lemma {:induction false} OverspendNonNegative(cap: real, permits: nat)
    requires cap >= 0.0 && permits >= 1
    ensures Overspend(cap, permits) >= 0.0
    ensures permits == 1 ==> Overspend(cap, permits) == 0.0
  {
    ScaleMonotone(cap, 0.0, permits as real - 1.0);
  }

  /** What a fan-out keeps while the spend never falls below `start`, whoever else spends: its
      permits, and that no check it made was of an older or larger estimate. */
  ghost predicate Sound(cfg: Config, day: real, start: real, s: State) {
    && Permits(cfg, s)
    && forall i :: 0 <= i < |cfg.tasks| && !cfg.tasks[i].Unknown? ==>
         && (s.status[i].ReadUsage? ==> s.status[i].usdToday >= start)
         && (s.status[i].Calling? ==> cfg.tasks[i].estimate <= Largest(cfg, day, start))
  }

  lemma {:induction false} SoundStarts(cfg: Config, day: real, start: real, s: State)
    requires Init(cfg, s)
    ensures Sound(cfg, day, start, s) && InFlight(cfg, s) == 0.0
  {
    PermitsStart(cfg, s);
    NoneHeld(cfg.tasks, s.status, Exposure(cfg));
  }

  lemma {:induction false} SlackNonNegative(cfg: Config, day: real, start: real, s: State, i: nat)
    requires Capped(cfg, day) && Sound(cfg, day, start, s) && i < |cfg.tasks|
    ensures 0.0 <= Exposed(cfg, cfg.tasks[i], s.status[i])
    ensures Exposed(cfg, cfg.tasks[i], s.status[i]) <=
            if HoldsPermit(s.status[i]) then Largest(cfg, day, start) else 0.0
  {
    var t, p := cfg.tasks[i], s.status[i];
    if !t.Unknown? && p.ReadUsage? && Passes(cfg, t, p.usdToday) {
      PassingIsBounded(cfg, day, start, i, p.usdToday);
    }
    hide Passes, Largest, Permits;
  }

  lemma {:induction false} ExposureWithinHeld(cfg: Config, day: real, start: real, s: State)
    requires Capped(cfg, day) && Sound(cfg, day, start, s)
    ensures 0.0 <= InFlight(cfg, s) <= Largest(cfg, day, start) * Total(Permit, cfg.tasks, s.status)
    ensures forall i :: 0 <= i < |cfg.tasks| && s.status[i].Holding? ==>
              Largest(cfg, day, start) * Total(Permit, cfg.tasks, s.status) - InFlight(cfg, s)
              >= Largest(cfg, day, start)
  {
    var cap := Largest(cfg, day, start);
    hide Total, Largest, Passes, Capped;
    forall j | 0 <= j < |cfg.tasks|
      ensures Slack(cfg, cap)(cfg.tasks[j], s.status[j]) >= 0.0
      ensures Exposure(cfg)(cfg.tasks[j], s.status[j]) >= 0.0
    {
      SlackNonNegative(cfg, day, start, s, j);
    }
    SlackTotal(cfg, cap, cfg.tasks, s.status);
    AllNonNegative(Slack(cfg, cap), cfg.tasks, s.status);
    AllNonNegative(Exposure(cfg), cfg.tasks, s.status);
    forall i | 0 <= i < |cfg.tasks| && s.status[i].Holding?
      ensures cap * Total(Permit, cfg.tasks, s.status) - InFlight(cfg, s) >= cap
    {
      TotalBounds(Slack(cfg, cap), cfg.tasks, s.status, i);
    }
  }

  /** A fan-out exposes at most one estimate per permit, and one less while a task holds a permit
      it has not yet checked for. */
  lemma {:induction false} ExposureIsBounded(cfg: Config, day: real, start: real, s: State)
    requires Capped(cfg, day) && Sound(cfg, day, start, s)
    ensures 0.0 <= InFlight(cfg, s) <= Largest(cfg, day, start) * cfg.maxFanout as real
    ensures forall i :: 0 <= i < |cfg.tasks| && s.status[i].Holding? ==>
              InFlight(cfg, s) <= Overspend(Largest(cfg, day, start), cfg.maxFanout)
  {
    ExposureWithinHeld(cfg, day, start, s);
    hide Total, Largest, InFlight, Capped, Overspend;
    var cap, held := Largest(cfg, day, start), Total(Permit, cfg.tasks, s.status);
    assert held <= cfg.maxFanout as real;
    WithinAll(cap, held, InFlight(cfg, s), cfg.maxFanout as real);
    if i :| 0 <= i < |cfg.tasks| && s.status[i].Holding? {
      OneRequestLess(cap, held, InFlight(cfg, s), cfg.maxFanout);
    }
  }

  lemma {:induction false} AllNonNegative(w: (Task, Status) -> real, tasks: seq<Task>, status: seq<Status>)
    requires |tasks| == |status|
    requires forall j :: 0 <= j < |tasks| ==> w(tasks[j], status[j]) >= 0.0
    ensures Total(w, tasks, status) >= 0.0
  {
    if tasks != [] { AllNonNegative(w, tasks[..|tasks| - 1], status[..|tasks| - 1]); }
  }

  lemma {:induction false} WithinAll(cap: real, held: real, exposed: real, fanout: real)
    requires cap >= 0.0 && held <= fanout && exposed <= cap * held
    ensures exposed <= cap * fanout
  {
    ScaleMonotone(cap, held, fanout);
  }

  lemma {:induction false} OneRequestLess(cap: real, held: real, exposed: real, fanout: nat)
    requires cap >= 0.0 && held <= fanout as real && cap * held - exposed >= cap
    ensures exposed <= Overspend(cap, fanout)
  {
    Distribute(cap, held - 1.0, 1.0);
    ScaleMonotone(cap, held - 1.0, fanout as real - 1.0);
  }

  /** What one step does to the money: it adds no exposure, unless some task holding an unchecked
      permit reads the usage, and then what it adds still fits the day. */
  ghost predicate Pays(cfg: Config, day: real, s: State, s': State)
    requires Shape(cfg, s) && Shape(cfg, s')
  {
    && s'.spent >= s.spent
    && (|| s'.spent + InFlight(cfg, s') <= s.spent + InFlight(cfg, s)
        || exists i ::
             && 0 <= i < |cfg.tasks| && s.status[i].Holding?
             && s'.spent + InFlight(cfg, s') <= day + InFlight(cfg, s))
  }

  lemma {:induction false} StepPays(cfg: Config, day: real, start: real, s: State, s': State)
    requires Capped(cfg, day) && Sound(cfg, day, start, s) && s.spent >= start && Next(cfg, s, s')
    ensures Sound(cfg, day, start, s') && Pays(cfg, day, s, s')
  {
    PermitsKept(cfg, s, s');
    if !Receive(cfg, s, s') {
      var i: nat :| TaskStep(cfg, s, s', i);
      PermitMoves(cfg, s, s', i);
      MoneyMoves(cfg, day, start, s, s', i);
      TotalMove(Exposure(cfg), cfg.tasks, s.status, i, s'.status[i]);
      hide TaskStep, Total, Largest, Passes, Permits;
    }
  }

  /** Only the read of the usage adds exposure, and then the check already holds. */
  lemma {:induction false} MoneyMoves(cfg: Config, day: real, start: real, s: State, s': State, i: nat)
    requires Capped(cfg, day) && Shape(cfg, s) && i < |cfg.tasks| && TaskStep(cfg, s, s', i)
    requires Sound(cfg, day, start, s) && s.spent >= start
    ensures s'.spent >= s.spent
    ensures !s.status[i].Holding? ==>
              s'.spent + Exposed(cfg, cfg.tasks[i], s'.status[i]) <= s.spent + Exposed(cfg, cfg.tasks[i], s.status[i])
    ensures s.status[i].Holding? ==>
              && s'.spent == s.spent && Exposed(cfg, cfg.tasks[i], s.status[i]) == 0.0
              && (|| Exposed(cfg, cfg.tasks[i], s'.status[i]) == 0.0
                  || s.spent + Exposed(cfg, cfg.tasks[i], s'.status[i]) <= day)
    ensures !cfg.tasks[i].Unknown? ==>
              && (s'.status[i].ReadUsage? ==> s'.status[i].usdToday >= start)
              && (s'.status[i].Calling? ==> cfg.tasks[i].estimate <= Largest(cfg, day, start))
  {
    if s.status[i].ReadUsage? && !cfg.tasks[i].Unknown? && Passes(cfg, cfg.tasks[i], s.status[i].usdToday) {
      PassingIsBounded(cfg, day, start, i, s.status[i].usdToday);
    }
    hide Concat, FullText, Largest, Permits;
  }

  ghost function Bound(cfg: Config, day: real, start: real): real {
    day + Overspend(Largest(cfg, day, start), cfg.maxFanout)
  }

  ghost predicate WithinBound(cfg: Config, day: real, start: real, s: State) {
    && Sound(cfg, day, start, s) && s.spent >= start
    && s.spent + InFlight(cfg, s) <= Bound(cfg, day, start)
  }

  lemma {:induction false} BoundKept(cfg: Config, day: real, start: real, s: State, s': State)
    requires Capped(cfg, day) && WithinBound(cfg, day, start, s) && Next(cfg, s, s')
    ensures WithinBound(cfg, day, start, s')
  {
    hide Next, InFlight, Largest, Capped, Permits, Overspend;
    StepPays(cfg, day, start, s, s');
    ExposureIsBounded(cfg, day, start, s);
  }

  lemma {:induction false} EveryRunWithinBound(cfg: Config, day: real, start: real, run: seq<State>, k: nat)
    requires IsRun(cfg, run) && k < |run| && Capped(cfg, day)
    requires start <= run[0].spent <= Bound(cfg, day, start)
    ensures WithinBound(cfg, day, start, run[k])
  {
    hide Next, Capped, Init, Bound, Sound, InFlight, Shape, Overspend;
    if k == 0 {
      SoundStarts(cfg, day, start, run[0]);
    } else {
      EveryRunWithinBound(cfg, day, start, run, k - 1);
      BoundKept(cfg, day, start, run[k - 1], run[k]);
    }
  }

  /** The overspend bound, in every state of every run: recorded spend, plus the estimates of
      calls between their check and their record, stays within the daily cap plus max_fanout - 1
      of the largest estimates that can pass; with max_fanout = 1, within the cap itself. The run
      may start above `start` and above the cap, where earlier spending within the bound left it. */
  lemma {:induction false} OverspendBound(cfg: Config, day: real, start: real, run: seq<State>, k: nat)
    requires IsRun(cfg, run) && k < |run| && Capped(cfg, day)
    requires start <= run[0].spent <= day + Overspend(Largest(cfg, day, start), cfg.maxFanout)
    ensures Shape(cfg, run[k])
    ensures run[k].spent + InFlight(cfg, run[k]) <= day + Overspend(Largest(cfg, day, start), cfg.maxFanout)
    ensures cfg.maxFanout == 1 ==> run[k].spent + InFlight(cfg, run[k]) <= day
    ensures InFlight(cfg, run[k]) >= 0.0 && run[k].spent >= start
  {
    if cfg.maxFanout == 1 { OverspendNonNegative(Largest(cfg, day, start), 1); }
    hide Next, Init, IsRun, Largest, InFlight, Overspend;
    EveryRunWithinBound(cfg, day, start, run, k);
    ExposureIsBounded(cfg, day, start, run[k]);
  }

  /** It never exceeds the request cap, so the bound is at most day + (max_fanout - 1) * request. */
  lemma {:induction false} LargestWithinRequest(cfg: Config, day: real, start: real, request: real)
    requires cfg.budget.Some? && cfg.budget.value.maxUsdPerRequest == Some(request) && request >= 0.0
    ensures Largest(cfg, day, start) <= request
    ensures start <= day && request <= day - start ==> Largest(cfg, day, start) == request
  {
  }

  /** At most max_fanout permits are ever out. */
  lemma {:induction false} PermitsInEveryRun(cfg: Config, run: seq<State>, k: nat)
    requires IsRun(cfg, run) && k < |run|
    ensures Permits(cfg, run[k]) && 0 <= run[k].free <= cfg.maxFanout
  {
    if k == 0 {
      PermitsStart(cfg, run[0]);
    } else {
      PermitsInEveryRun(cfg, run, k - 1);
      PermitsKept(cfg, run[k - 1], run[k]);
    }
    if |cfg.tasks| > 0 { TotalBounds(Permit, cfg.tasks, run[k].status, 0); }
  }

  /** One coordinator turn or one fan-out of a Conductor run. */
  datatype Turn = Coordinator(estimate: real) | Dispatch(cfg: Config, run: seq<State>)

  /** The spend before and after a turn of a Conductor run that has the tenant to itself. A
      coordinator turn is alone at work: it checks, calls and records, or fails and records
      nothing; workers have all been joined by then. */
  ghost predicate TurnMoves(maxFanout: nat, budget: Budget, tenant: string, before: real, turn: Turn, after: real) {
    match turn
    case Coordinator(estimate) =>
      || after == before
      || (PreCheck(budget, tenant, TenantUsage(before, 0), estimate, 0).Ok? && after == before + estimate)
    case Dispatch(cfg, run) =>
      && cfg.maxFanout == maxFanout && cfg.budget == Some(budget) && cfg.tenant == tenant
      && (forall i :: 0 <= i < |cfg.tasks| ==> cfg.tasks[i].Unknown? || cfg.tasks[i].estimate >= 0.0)
      && IsRun(cfg, run) && run[0].spent == before && run[|run| - 1].spent == after
  }

  /** A whole Conductor run, coordinator turns and fan-outs in any number and order, keeps the
      tenant's spend within the same bound. `spent[i]` is the spend before turn i. */
  lemma {:induction false} WholeRunBound(
      maxFanout: nat, budget: Budget, tenant: string, day: real, request: real,
      turns: seq<Turn>, spent: seq<real>, k: nat)
    requires maxFanout >= 1 && |spent| == |turns| + 1 && k < |spent|
    requires Capped(Config([], maxFanout, Some(budget), tenant), day)
    requires budget.maxUsdPerRequest == Some(request) && request >= 0.0
    requires spent[0] <= day
    requires forall i :: 0 <= i < |turns| ==> TurnMoves(maxFanout, budget, tenant, spent[i], turns[i], spent[i + 1])
    ensures spent[k] <= day + Overspend(request, maxFanout)
  {
    OverspendNonNegative(request, maxFanout);
    hide Overspend;
    if k > 0 {
      hide TurnMoves, Capped;
      WholeRunBound(maxFanout, budget, tenant, day, request, turns, spent, k - 1);
      TurnWithinBound(maxFanout, budget, tenant, day, request, spent[k - 1], turns[k - 1], spent[k]);
    }
  }

  lemma {:induction false} DispatchWithinBound(cfg: Config, day: real, start: real, request: real, run: seq<State>)
    requires IsRun(cfg, run) && Capped(cfg, day) && Largest(cfg, day, start) == request
    requires start <= run[0].spent <= day + Overspend(request, cfg.maxFanout)
    ensures run[|run| - 1].spent <= day + Overspend(request, cfg.maxFanout)
  {
    assert run != [];
    hide IsRun, Capped, Largest, InFlight, Overspend;
    OverspendBound(cfg, day, start, run, |run| - 1);
  }

  lemma {:induction false} TurnWithinBound(
      maxFanout: nat, budget: Budget, tenant: string, day: real, request: real, before: real, turn: Turn, after: real)
    requires maxFanout >= 1 && request >= 0.0
    requires Capped(Config([], maxFanout, Some(budget), tenant), day) && budget.maxUsdPerRequest == Some(request)
    requires TurnMoves(maxFanout, budget, tenant, before, turn, after)
    requires before <= day + Overspend(request, maxFanout)
    ensures after <= day + Overspend(request, maxFanout)
  {
    OverspendNonNegative(request, maxFanout);
    hide Next, Init, Total, Largest, InFlight, Overspend;
    if turn.Dispatch? {
      var start := if before <= day - request then before else day - request;
      LargestWithinRequest(turn.cfg, day, start, request);
      assert Largest(turn.cfg, day, start) == request && turn.cfg.maxFanout == maxFanout;
      DispatchWithinBound(turn.cfg, day, start, request, turn.run);
    }
  }
}
