/** Why each worker of a fan-out ended as it did, and that the spend is that of the calls made. */
module FanoutCauses {
  import opened Prelude
  import opened BudgetEnforcement
  import opened Fanout
  import opened FanoutBudget

  // ----- Outcomes -----

  /** While i held its permit the spend was such that its estimate was within every cap. */
  ghost predicate Checked(cfg: Config, run: seq<State>, k: nat, i: nat)
    requires k < |run| && i < |cfg.tasks| && !cfg.tasks[i].Unknown?
  {
    exists j ::
      && 0 <= j < k && i < |run[j].status| && run[j].status[i].Holding?
      && (cfg.budget.Some? ==> Fits(cfg.budget.value, cfg.tenant, run[j].spent, cfg.tasks[i].estimate, 0))
  }

  /** While i held its permit the spend was such that its estimate went over a cap. */
  ghost predicate Refused(cfg: Config, run: seq<State>, k: nat, i: nat)
    requires k < |run| && i < |cfg.tasks| && !cfg.tasks[i].Unknown?
  {
    exists j ::
      && 0 <= j < k && i < |run[j].status| && run[j].status[i].Holding?
      && cfg.budget.Some? && !Fits(cfg.budget.value, cfg.tenant, run[j].spent, cfg.tasks[i].estimate, 0)
  }

  /** The call of i broke off: a timeout or an error. */
  ghost predicate BrokeOff(run: seq<State>, k: nat, i: nat)
    requires k < |run|
  {
    exists j ::
      && 0 <= j < k && i < |run[j].status| && run[j].status[i].Calling?
      && i < |run[j + 1].status| && run[j + 1].status[i].Returning?
  }

  ghost predicate HasCause(cfg: Config, run: seq<State>, k: nat, i: nat)
    requires k < |run| && i < |cfg.tasks| && i < |run[k].status|
  {
    var t := cfg.tasks[i];
    match run[k].status[i]
    case Queued => true
    case Holding => !t.Unknown?
    case ReadUsage(usd) =>
      && !t.Unknown?
      && exists j :: 0 <= j < k && i < |run[j].status| && run[j].status[i].Holding? && usd == run[j].spent
    case Calling(_) => !t.Unknown? && Checked(cfg, run, k, i)
    case Recorded(_, o) => !t.Unknown? && Checked(cfg, run, k, i) && (o.Text? <==> t.finishOk)
    case Returning(_, o) => Ends(cfg, run, k, i, o)
    case Finished(_, o) => Ends(cfg, run, k, i, o)
  }

  /** A text needs a registered worker, a check that held, and a normal finish. A failure is an
      unknown worker, a check that did not hold, a call that broke off, or an abnormal finish. */
  ghost predicate Ends(cfg: Config, run: seq<State>, k: nat, i: nat, o: Outcome)
    requires k < |run| && i < |cfg.tasks|
  {
    var t := cfg.tasks[i];
    if o.Text? then !t.Unknown? && Checked(cfg, run, k, i) && t.finishOk
    else t.Unknown? || Refused(cfg, run, k, i) || BrokeOff(run, k, i) || (Checked(cfg, run, k, i) && !t.finishOk)
  }

  lemma {:induction false} CauseStays(cfg: Config, run: seq<State>, k: nat, i: nat)
    requires k + 1 < |run| && i < |cfg.tasks| && i < |run[k].status| && HasCause(cfg, run, k, i)
    requires i < |run[k + 1].status| && run[k + 1].status[i] == run[k].status[i]
    ensures HasCause(cfg, run, k + 1, i)
  {
    hide Fits;
  }

  /** What a step of task i does to its own status, and what it saw of the spend. */
  lemma {:induction false} CauseOfStep(cfg: Config, run: seq<State>, k: nat, i: nat)
    requires k + 1 < |run| && IsTask(cfg, run[k], i) && TaskStep(cfg, run[k], run[k + 1], i)
    requires HasCause(cfg, run, k, i)
    ensures i < |run[k + 1].status| && HasCause(cfg, run, k + 1, i)
  {
    var s, s' := run[k], run[k + 1];
    hide Concat, FullText, Fits, Checked, Refused, BrokeOff, PreCheck;
    if !cfg.tasks[i].Unknown? { StillChecked(cfg, run, k, i); }
    StillBroke(run, k, i);
    if s.status[i].ReadUsage? && !cfg.tasks[i].Unknown? {
      DecisionHasCause(cfg, run, k, i, s.status[i].usdToday);
    } else if Abort(cfg, s, s', i) {
      BrokeNow(run, k, i);
    }
  }

  lemma {:induction false} StillChecked(cfg: Config, run: seq<State>, k: nat, i: nat)
    requires k + 1 < |run| && i < |cfg.tasks| && !cfg.tasks[i].Unknown?
    ensures Checked(cfg, run, k, i) ==> Checked(cfg, run, k + 1, i)
    ensures Refused(cfg, run, k, i) ==> Refused(cfg, run, k + 1, i)
  {
    hide Fits;
  }

  lemma {:induction false} StillBroke(run: seq<State>, k: nat, i: nat)
    requires k + 1 < |run|
    ensures BrokeOff(run, k, i) ==> BrokeOff(run, k + 1, i)
  {
  }

  lemma {:induction false} BrokeNow(run: seq<State>, k: nat, i: nat)
    requires k + 1 < |run| && i < |run[k].status| && run[k].status[i].Calling?
    requires i < |run[k + 1].status| && run[k + 1].status[i].Returning?
    ensures BrokeOff(run, k + 1, i)
  {
  }

  lemma {:induction false} DecisionHasCause(cfg: Config, run: seq<State>, k: nat, i: nat, usd: real)
    requires k + 1 < |run| && i < |cfg.tasks| && !cfg.tasks[i].Unknown?
    requires exists j :: 0 <= j < k && i < |run[j].status| && run[j].status[i].Holding? && usd == run[j].spent
    ensures Passes(cfg, cfg.tasks[i], usd) ==> Checked(cfg, run, k + 1, i)
    ensures !Passes(cfg, cfg.tasks[i], usd) ==> Refused(cfg, run, k + 1, i)
  {
    hide Fits;
  }

  /** In every state of every run, every worker's status has its cause. */
  lemma {:induction false} EveryOutcomeHasItsCause(cfg: Config, run: seq<State>, k: nat, i: nat)
    requires IsRun(cfg, run) && k < |run| && i < |cfg.tasks|
    ensures Shape(cfg, run[k]) && HasCause(cfg, run, k, i)
  {
    if k > 0 {
      EveryOutcomeHasItsCause(cfg, run, k - 1, i);
      assert Next(cfg, run[k - 1], run[k]);
      hide *;
      NextHasItsCause(cfg, run, k - 1, i);
    }
  }

  lemma {:induction false} NextHasItsCause(cfg: Config, run: seq<State>, k: nat, i: nat)
    requires k + 1 < |run| && Next(cfg, run[k], run[k + 1]) && i < |cfg.tasks|
    requires Shape(cfg, run[k]) && HasCause(cfg, run, k, i)
    ensures Shape(cfg, run[k + 1]) && HasCause(cfg, run, k + 1, i)
  {
    hide HasCause, Forward, Abort, Passes;
    var s, s' := run[k], run[k + 1];
    if Receive(cfg, s, s') {
      CauseStays(cfg, run, k, i);
    } else {
      var t: nat :| TaskStep(cfg, s, s', t);
      hide Receive, TaskStep;
      OnlyItsOwn(cfg, s, s', t);
      if t == i { CauseOfStep(cfg, run, k, i); } else { CauseStays(cfg, run, k, i); }
    }
  }

  lemma {:induction false} OnlyItsOwn(cfg: Config, s: State, s': State, t: nat)
    requires Shape(cfg, s) && TaskStep(cfg, s, s', t)
    ensures Shape(cfg, s') && IsTask(cfg, s, t)
    ensures forall i :: 0 <= i < |cfg.tasks| && i != t ==> s'.status[i] == s.status[i]
  {
    hide Concat, FullText, Passes;
  }

  /** A call can break off at any moment, whatever it has sent: its permit is back, its worker has
      failed, and nothing is recorded. */
  lemma {:induction false} CallsCanBreakOff(cfg: Config, s: State, i: nat) returns (s': State)
    requires Shape(cfg, s) && i < |cfg.tasks| && s.status[i].Calling?
    ensures Next(cfg, s, s') && s'.status == s.status[i := Returning(s.status[i].sent, Failed)]
    ensures s'.free == s.free + 1 && s'.spent == s.spent && s'.channel == s.channel
  {
    s' := Move(s, i, Returning(s.status[i].sent, Failed)).(free := s.free + 1);
    assert Abort(cfg, s, s', i);
    assert TaskStep(cfg, s, s', i);
  }

  // ----- The spend -----

  /** Certainly recorded: its call is, or it ended with a text. */
  ghost function SureSpend(t: Task, p: Status): real {
    if !t.Unknown? && (p.Recorded? || ((p.Returning? || p.Finished?) && p.outcome.Text?)) then t.estimate else 0.0
  }

  /** Possibly recorded: these, and calls that end in failure though they may have been answered. */
  ghost function PossibleSpend(t: Task, p: Status): real {
    if !t.Unknown? && (p.Recorded? || ((p.Returning? || p.Finished?) && (p.outcome.Text? || !t.finishOk)))
    then t.estimate else 0.0
  }

  ghost predicate Accounted(cfg: Config, before: real, s: State) {
    && Shape(cfg, s)
    && (cfg.budget.None? ==> s.spent == before)
    && (cfg.budget.Some? ==>
          before + Total(SureSpend, cfg.tasks, s.status) <= s.spent <=
          before + Total(PossibleSpend, cfg.tasks, s.status))
  }

  lemma {:induction false} StepSpends(cfg: Config, s: State, s': State, i: nat)
    requires Shape(cfg, s) && IsTask(cfg, s, i) && TaskStep(cfg, s, s', i)
    requires !cfg.tasks[i].Unknown? ==> cfg.tasks[i].estimate >= 0.0
    requires s.status[i].Recorded? ==> (s.status[i].outcome.Text? <==> !cfg.tasks[i].Unknown? && cfg.tasks[i].finishOk)
    ensures Shape(cfg, s') && s'.status == s.status[i := s'.status[i]]
    ensures cfg.budget.None? ==> s'.spent == s.spent
    ensures var t := cfg.tasks[i];
            cfg.budget.Some? ==>
              SureSpend(t, s'.status[i]) - SureSpend(t, s.status[i]) <= s'.spent - s.spent <=
              PossibleSpend(t, s'.status[i]) - PossibleSpend(t, s.status[i])
  {
    hide Concat, FullText, Passes;
  }

  /** In every run over a budget the spend has grown by at least the estimates of the workers that
      ended with a text, and at most by those and the estimates of the ones that finished abnormally. */
  lemma {:induction false} SpendIsAccounted(cfg: Config, run: seq<State>, k: nat)
    requires IsRun(cfg, run) && k < |run|
    requires forall i :: 0 <= i < |cfg.tasks| && !cfg.tasks[i].Unknown? ==> cfg.tasks[i].estimate >= 0.0
    ensures Accounted(cfg, run[0].spent, run[k])
  {
    if k == 0 {
      NoneHeld(cfg.tasks, run[0].status, SureSpend);
      NoneHeld(cfg.tasks, run[0].status, PossibleSpend);
    } else {
      hide Total, HasCause;
      SpendIsAccounted(cfg, run, k - 1);
      var s, s' := run[k - 1], run[k];
      if !Receive(cfg, s, s') {
        hide Receive, Forward, Abort;
        var i: nat :| TaskStep(cfg, s, s', i);
        OnlyItsOwn(cfg, s, s', i);
        RecordedAsFinished(cfg, run, k - 1, i);
        StepSpends(cfg, s, s', i);
        TotalMove(SureSpend, cfg.tasks, s.status, i, s'.status[i]);
        TotalMove(PossibleSpend, cfg.tasks, s.status, i, s'.status[i]);
      }
    }
  }

  lemma {:induction false} RecordedAsFinished(cfg: Config, run: seq<State>, k: nat, i: nat)
    requires IsRun(cfg, run) && k < |run| && i < |cfg.tasks|
    ensures Shape(cfg, run[k])
    ensures var t, p := cfg.tasks[i], run[k].status[i];
            p.Recorded? ==> (p.outcome.Text? <==> !t.Unknown? && t.finishOk)
  {
    EveryOutcomeHasItsCause(cfg, run, k, i);
    hide Next, Checked;
  }

  /** When no worker can finish abnormally, the spend is exactly that of the recorded calls. */
  lemma {:induction false} SpendIsExact(cfg: Config, run: seq<State>, k: nat)
    requires IsRun(cfg, run) && k < |run| && cfg.budget.Some?
    requires forall i :: 0 <= i < |cfg.tasks| && !cfg.tasks[i].Unknown? ==>
               cfg.tasks[i].estimate >= 0.0 && cfg.tasks[i].finishOk
    ensures Shape(cfg, run[k])
    ensures run[k].spent == run[0].spent + Total(SureSpend, cfg.tasks, run[k].status)
  {
    hide Next;
    SpendIsAccounted(cfg, run, k);
    SameTotals(cfg.tasks, run[k].status);
  }

  lemma {:induction false} SameTotals(tasks: seq<Task>, status: seq<Status>)
    requires |tasks| == |status|
    requires forall i :: 0 <= i < |tasks| && !tasks[i].Unknown? ==> tasks[i].finishOk
    ensures Total(SureSpend, tasks, status) == Total(PossibleSpend, tasks, status)
  {
    if tasks != [] { SameTotals(tasks[..|tasks| - 1], status[..|tasks| - 1]); }
  }
}
