/** Liveness of one fan-out: no deadlock on the 64-slot channel, a bound on the length of
    every run, and completion of every maximal run. */
module FanoutProgress {
  import opened Prelude
  import opened Fanout
  import opened FanoutBudget
  import opened FanoutProtocol

  lemma {:induction false} SomeoneHolds(tasks: seq<Task>, status: seq<Status>) returns (j: nat)
    requires |tasks| == |status| && Total(Permit, tasks, status) > 0.0
    ensures j < |tasks| && HoldsPermit(status[j])
  {
    var n := |tasks| - 1;
    if HoldsPermit(status[n]) { j := n; } else { j := SomeoneHolds(tasks[..n], status[..n]); }
  }

  /** With the channel empty some task has not finished, unless the consumer is through. */
  lemma {:induction false} SomeoneUnfinished(cfg: Config, s: State) returns (i: nat)
    requires Ordered(cfg, s) && Filed(cfg, s) && s.channel == [] && s.doneCount < |cfg.tasks|
    ensures i < |cfg.tasks| && !s.status[i].Finished?
  {
    FilledBound(s.slots);
    i :| i < |s.slots| && s.slots[i].None?;
    assert s.consumed + s.channel == s.consumed;
    DonesOf(s.consumed, i);
    DonesPosted(cfg.tasks[i], s.status[i], i);
  }

  /** A finished worker can post its Done, and a streaming one its next text, exactly while fewer
      than 64 events wait. */
  lemma {:induction false} PostsBelow64(cfg: Config, s: State, i: nat)
    requires IsTask(cfg, s, i)
    ensures s.status[i].Returning? ==> ((exists s' :: PostDone(cfg, s, s', i)) <==> |s.channel| < 64)
    ensures var t, p := cfg.tasks[i], s.status[i];
            p.Calling? && t.Streaming? && p.sent < |t.chunks| && t.chunks[p.sent] != "" ==>
              ((exists s' :: Chunk(cfg, s, s', i)) <==> |s.channel| < 64)
  {
    hide Concat;
    var t, p := cfg.tasks[i], s.status[i];
    if p.Returning? && |s.channel| < 64 {
      assert PostDone(cfg, s, Post(s, i, Finished(p.sent, p.outcome), Done(i, p.outcome)), i);
    } else if p.Calling? && t.Streaming? && p.sent < |t.chunks| && t.chunks[p.sent] != "" && |s.channel| < 64 {
      assert Chunk(cfg, s, Post(s, i, Calling(p.sent + 1), Delta(i, Concat(t.chunks[..p.sent + 1]))), i);
    }
  }

  /** A task holding a permit can move on while the channel has room: no timeout is needed. */
  lemma {:induction false} HolderMoves(cfg: Config, s: State, j: nat) returns (s': State)
    requires Ordered(cfg, s) && Permits(cfg, s) && |s.channel| < WORKER_STREAM_BUFFER
    requires j < |cfg.tasks| && HoldsPermit(s.status[j])
    ensures Forward(cfg, s, s', j)
  {
    var t, p := cfg.tasks[j], s.status[j];
    assert IsTask(cfg, s, j) && !t.Unknown? && Honest(t, p);
    if p.Holding? {
      s' := Move(s, j, ReadUsage(s.spent));
      assert Read(cfg, s, s', j);
    } else if p.ReadUsage? {
      s' := DecisionMoves(cfg, s, j);
    } else if p.Recorded? {
      s' := Move(s, j, Returning(p.sent, p.outcome)).(free := s.free + 1);
      assert Release(cfg, s, s', j);
    } else {
      s' := CallMoves(cfg, s, j);
    }
    hide Concat, Passes, FullText, Honest, Ordered;
  }

  lemma {:induction false} DecisionMoves(cfg: Config, s: State, j: nat) returns (s': State)
    requires IsTask(cfg, s, j) && s.status[j].ReadUsage? && !cfg.tasks[j].Unknown?
    ensures Decide(cfg, s, s', j)
  {
    s' := if Passes(cfg, cfg.tasks[j], s.status[j].usdToday) then Move(s, j, Calling(0))
          else Move(s, j, Returning(0, Failed)).(free := s.free + 1);
    hide Passes;
  }

  lemma {:induction false} CallMoves(cfg: Config, s: State, j: nat) returns (s': State)
    requires IsTask(cfg, s, j) && s.status[j].Calling? && !cfg.tasks[j].Unknown? && Honest(cfg.tasks[j], s.status[j])
    requires |s.channel| < WORKER_STREAM_BUFFER
    ensures Chunk(cfg, s, s', j) || Record(cfg, s, s', j)
  {
    var t, p := cfg.tasks[j], s.status[j];
    if p.sent < ChunkCount(t) {
      s' := if t.chunks[p.sent] == "" then Move(s, j, Calling(p.sent + 1))
            else Post(s, j, Calling(p.sent + 1), Delta(j, Concat(t.chunks[..p.sent + 1])));
    } else {
      var outcome := if t.finishOk then Text(FullText(t)) else Failed;
      s' := Move(s, j, Recorded(p.sent, outcome)).(spent := if cfg.budget.Some? then s.spent + t.estimate else s.spent);
    }
    hide Concat, FullText;
  }

  /** No reachable state short of completion is stuck, even if no call ever fails. */
  lemma {:induction false} NeverStuck(cfg: Config, run: seq<State>, k: nat) returns (s': State)
    requires IsRun(cfg, run) && k < |run| && run[k].doneCount < |cfg.tasks|
    ensures Receive(cfg, run[k], s') || exists i: nat :: Forward(cfg, run[k], s', i)
  {
    hide Ordered, Filed, Forward, Next;
    var s := run[k];
    EveryRunOrdered(cfg, run, k);
    EveryRunFiled(cfg, run, k);
    PermitsInEveryRun(cfg, run, k);
    assert Shape(cfg, s);
    if s.channel != [] {
      s' := Consume(cfg, s);
    } else {
      var i := SomeoneUnfinished(cfg, s);
      s' := UnfinishedMoves(cfg, s, i);
    }
  }

  lemma {:induction false} Consume(cfg: Config, s: State) returns (s': State)
    requires Shape(cfg, s) && s.doneCount < |cfg.tasks| && s.channel != []
    ensures Receive(cfg, s, s')
  {
    var e := s.channel[0];
    var taken := s.(channel := s.channel[1..], consumed := s.consumed + [e]);
    s' := if e.Done? then
            taken.(slots := if e.task < |s.slots| then s.slots[e.task := Some(e.outcome)] else s.slots,
                   doneCount := s.doneCount + 1)
          else taken;
  }

  lemma {:induction false} UnfinishedMoves(cfg: Config, s: State, i: nat) returns (s': State)
    requires Ordered(cfg, s) && Permits(cfg, s) && s.channel == [] && cfg.maxFanout >= 1
    requires i < |cfg.tasks| && !s.status[i].Finished?
    ensures exists j: nat :: Forward(cfg, s, s', j)
  {
    var t, p := cfg.tasks[i], s.status[i];
    if p.Queued? && t.Unknown? {
      s' := Move(s, i, Returning(0, Failed));
      assert Refuse(cfg, s, s', i) && Forward(cfg, s, s', i);
    } else if p.Queued? && s.free > 0 {
      s' := Move(s, i, Holding).(free := s.free - 1);
      assert Acquire(cfg, s, s', i) && Forward(cfg, s, s', i);
    } else if p.Queued? {
      var j := SomeoneHolds(cfg.tasks, s.status);
      s' := HolderMoves(cfg, s, j);
    } else if p.Returning? {
      s' := Post(s, i, Finished(p.sent, p.outcome), Done(i, p.outcome));
      assert PostDone(cfg, s, s', i) && Forward(cfg, s, s', i);
    } else {
      s' := HolderMoves(cfg, s, i);
    }
  }

  // ----- Termination -----

  /** Steps a task still owes, counting two for each message it will post. */
  ghost function Owed(t: Task, p: Status): real {
    var c := 2.0 * (|Chunks(t)| as real);
    match p
    case Queued => c + 8.0
    case Holding => c + 7.0
    case ReadUsage(_) => c + 6.0
    case Calling(k) => c - 2.0 * (k as real) + 5.0
    case Recorded(_, _) => 4.0
    case Returning(_, _) => 3.0
    case Finished(_, _) => 0.0
  }

  ghost function Remaining(cfg: Config, s: State): real
    requires Shape(cfg, s)
  {
    Total(Owed, cfg.tasks, s.status) + |s.channel| as real
  }

  lemma {:induction false} TaskOwesLess(cfg: Config, s: State, s': State, i: nat)
    requires IsTask(cfg, s, i) && Honest(cfg.tasks[i], s.status[i]) && TaskStep(cfg, s, s', i)
    ensures |s'.status| == |s.status| && s'.status == s.status[i := s'.status[i]]
    ensures Owed(cfg.tasks[i], s'.status[i]) + |s'.channel| as real <=
            Owed(cfg.tasks[i], s.status[i]) + |s.channel| as real - 1.0
  {
    hide Passes, Concat, FullText;
  }

  lemma {:induction false} EveryStepPays(cfg: Config, s: State, s': State)
    requires Ordered(cfg, s) && Next(cfg, s, s')
    ensures Shape(cfg, s') && Remaining(cfg, s') <= Remaining(cfg, s) - 1.0
  {
    if !Receive(cfg, s, s') {
      hide TaskStep;
      var i: nat :| TaskStep(cfg, s, s', i);
      TaskInRange(cfg, s, s', i);
      var e := TaskPosts(cfg, s, s', i);
      TaskOwesLess(cfg, s, s', i);
      TotalMove(Owed, cfg.tasks, s.status, i, s'.status[i]);
    }
  }

  lemma {:induction false} OwedNonNegative(tasks: seq<Task>, status: seq<Status>)
    requires |tasks| == |status|
    requires forall i :: 0 <= i < |tasks| ==> Honest(tasks[i], status[i])
    ensures Total(Owed, tasks, status) >= 0.0
  {
    if tasks != [] { OwedNonNegative(tasks[..|tasks| - 1], status[..|tasks| - 1]); }
  }

  lemma {:induction false} StepsPaidFor(cfg: Config, run: seq<State>, k: nat)
    requires IsRun(cfg, run) && k < |run|
    ensures Shape(cfg, run[0]) && Shape(cfg, run[k])
    ensures Remaining(cfg, run[k]) <= Remaining(cfg, run[0]) - k as real
  {
    hide Next, Ordered, Remaining;
    EveryRunOrdered(cfg, run, k);
    if k > 0 {
      StepsPaidFor(cfg, run, k - 1);
      EveryRunOrdered(cfg, run, k - 1);
      EveryStepPays(cfg, run[k - 1], run[k]);
    }
    assert Shape(cfg, run[k]) by { OrderedShape(cfg, run[k]); }
  }

  lemma {:induction false} OrderedShape(cfg: Config, s: State)
    requires Ordered(cfg, s)
    ensures Shape(cfg, s) && Remaining(cfg, s) >= 0.0
  {
    OwedNonNegative(cfg.tasks, s.status);
  }

  /** No run is longer than two steps per chunk and eight per task. */
  lemma {:induction false} RunsAreFinite(cfg: Config, run: seq<State>)
    requires IsRun(cfg, run)
    ensures Shape(cfg, run[0]) && |run| as real - 1.0 <= Total(Owed, cfg.tasks, run[0].status)
  {
    var k := |run| - 1;
    StepsPaidFor(cfg, run, k);
    EveryRunOrdered(cfg, run, k);
    OrderedShape(cfg, run[k]);
  }

  ghost predicate CanContinue(cfg: Config, s: State) { exists s' :: Next(cfg, s, s') }

  /** A run can be extended exactly until the consumer has its last `Done`; a run that cannot
      has completed: all branches seen in full, results in dispatch order, channel empty. */
  lemma {:induction false} RunsEndComplete(cfg: Config, run: seq<State>, k: nat)
    requires IsRun(cfg, run) && k < |run|
    ensures CanContinue(cfg, run[k]) <==> run[k].doneCount < |cfg.tasks|
    ensures CanContinue(cfg, run[k]) || Complete(cfg, run[k])
  {
    EveryRunFiled(cfg, run, k);
    FilledBound(run[k].slots);
    if run[k].doneCount < |cfg.tasks| {
      hide Forward, Receive;
      var s' := NeverStuck(cfg, run, k);
      if i: nat :| Forward(cfg, run[k], s', i) { assert TaskStep(cfg, run[k], s', i); }
      assert Next(cfg, run[k], s');
    } else {
      CompleteWhenAllDone(cfg, run, k);
      forall i: nat, s' ensures !TaskStep(cfg, run[k], s', i) { CompleteIsStill(cfg, run[k], s', i); }
    }
  }

  lemma {:induction false} CompleteIsStill(cfg: Config, s: State, s': State, i: nat)
    requires Complete(cfg, s)
    ensures !TaskStep(cfg, s, s', i)
  {
    if i < |cfg.tasks| { assert s.status[i].Finished?; }
  }
}
