/** One worker fan-out of the Conductor as a state machine: spawned tasks share a semaphore of
    `max_fanout` permits, the tenant's budget and a bounded channel with one consumer. Each
    atomic action of the code is a step; any interleaving of steps is a run. */
module Fanout {
  import opened Prelude
  import opened BudgetEnforcement

  /** What the dispatched worker turns out to be. A streaming worker yields text chunks; one
      whose stream fails to start behaves as buffered. `finishOk`: finish reason Stop or
      ToolCalls. */
  datatype Task =
    | Unknown
    | Streaming(estimate: real, chunks: seq<string>, finishOk: bool)
    | Buffered(estimate: real, text: string, finishOk: bool)

  datatype Outcome = Text(text: string) | Failed

  /** Where a task stands. `sent` counts the chunks it has processed. */
  datatype Status =
    | Queued
    | Holding
    | ReadUsage(usdToday: real)
    | Calling(sent: nat)
    | Recorded(sent: nat, outcome: Outcome)
    | Returning(sent: nat, outcome: Outcome)
    | Finished(sent: nat, outcome: Outcome)

  /** Channel messages; `task` is the 0-based dispatch index (the code's branch minus one). */
  datatype Event = Delta(task: nat, cumulative: string) | Done(task: nat, outcome: Outcome)

  datatype Config = Config(tasks: seq<Task>, maxFanout: nat, budget: Option<Budget>, tenant: string)

  const WORKER_STREAM_BUFFER: nat := 64

  datatype State = State(
    spent: real,
    free: nat,
    status: seq<Status>,
    channel: seq<Event>,
    consumed: seq<Event>,
    slots: seq<Option<Outcome>>,
    doneCount: nat)

  function Concat(parts: seq<string>): string {
    if parts == [] then "" else Concat(parts[..|parts| - 1]) + parts[|parts| - 1]
  }

  function FullText(t: Task): string
    requires !t.Unknown?
  {
    if t.Streaming? then Concat(t.chunks) else t.text
  }

  function ChunkCount(t: Task): nat { if t.Streaming? then |t.chunks| else 0 }

  ghost predicate Init(cfg: Config, s: State) {
    && s.free == cfg.maxFanout >= 1
    && |s.status| == |cfg.tasks| == |s.slots|
    && (forall i :: 0 <= i < |s.status| ==> s.status[i] == Queued && s.slots[i] == None)
    && s.channel == s.consumed == [] && s.doneCount == 0
  }

  function Move(s: State, i: nat, next: Status): State
    requires i < |s.status|
  {
    s.(status := s.status[i := next])
  }

  function Post(s: State, i: nat, next: Status, e: Event): State
    requires i < |s.status|
  {
    Move(s, i, next).(channel := s.channel + [e])
  }

  predicate Shape(cfg: Config, s: State) { |s.status| == |cfg.tasks| == |s.slots| }

  predicate IsTask(cfg: Config, s: State, i: nat) { Shape(cfg, s) && i < |cfg.tasks| }

  predicate Passes(cfg: Config, t: Task, usdToday: real)
    requires !t.Unknown?
  {
    cfg.budget.Some? ==> PreCheck(cfg.budget.value, cfg.tenant, TenantUsage(usdToday, 0), t.estimate, 0).Ok?
  }

  /** A worker name that is not registered fails without a permit. */
  ghost predicate Refuse(cfg: Config, s: State, s': State, i: nat) {
    && IsTask(cfg, s, i) && s.status[i].Queued? && cfg.tasks[i].Unknown?
    && s' == Move(s, i, Returning(0, Failed))
  }

  ghost predicate Acquire(cfg: Config, s: State, s': State, i: nat) {
    && IsTask(cfg, s, i) && s.status[i].Queued? && !cfg.tasks[i].Unknown? && s.free > 0
    && s' == Move(s, i, Holding).(free := s.free - 1)
  }

  /** `pre_check` reads the usage here and compares later, without a lock. */
  ghost predicate Read(cfg: Config, s: State, s': State, i: nat) {
    && IsTask(cfg, s, i) && s.status[i].Holding?
    && s' == Move(s, i, ReadUsage(s.spent))
  }

  ghost predicate Decide(cfg: Config, s: State, s': State, i: nat) {
    && IsTask(cfg, s, i) && s.status[i].ReadUsage? && !cfg.tasks[i].Unknown?
    && s' == if Passes(cfg, cfg.tasks[i], s.status[i].usdToday) then Move(s, i, Calling(0))
             else Move(s, i, Returning(0, Failed)).(free := s.free + 1)
  }

  /** The next chunk: an empty one is skipped, any other is posted with the text so far and
      blocks while the channel is full. */
  ghost predicate Chunk(cfg: Config, s: State, s': State, i: nat) {
    && IsTask(cfg, s, i) && s.status[i].Calling? && cfg.tasks[i].Streaming?
    && var k := s.status[i].sent;
       && k < |cfg.tasks[i].chunks|
       && if cfg.tasks[i].chunks[k] == "" then s' == Move(s, i, Calling(k + 1))
          else |s.channel| < WORKER_STREAM_BUFFER
               && s' == Post(s, i, Calling(k + 1), Delta(i, Concat(cfg.tasks[i].chunks[..k + 1])))
  }

  /** The provider answered: its estimate is recorded as spend. */
  ghost predicate Record(cfg: Config, s: State, s': State, i: nat) {
    && IsTask(cfg, s, i) && s.status[i].Calling? && !cfg.tasks[i].Unknown?
    && s.status[i].sent == ChunkCount(cfg.tasks[i])
    && var outcome := if cfg.tasks[i].finishOk then Text(FullText(cfg.tasks[i])) else Failed;
       s' == Move(s, i, Recorded(s.status[i].sent, outcome)).(
               spent := if cfg.budget.Some? then s.spent + cfg.tasks[i].estimate else s.spent)
  }

  /** A timeout, a stream error or a provider error, at any moment of the call. */
  ghost predicate Abort(cfg: Config, s: State, s': State, i: nat) {
    && IsTask(cfg, s, i) && s.status[i].Calling?
    && s' == Move(s, i, Returning(s.status[i].sent, Failed)).(free := s.free + 1)
  }

  ghost predicate Release(cfg: Config, s: State, s': State, i: nat) {
    && IsTask(cfg, s, i) && s.status[i].Recorded?
    && s' == Move(s, i, Returning(s.status[i].sent, s.status[i].outcome)).(free := s.free + 1)
  }

  /** The permit is back before `Done` is sent. */
  ghost predicate PostDone(cfg: Config, s: State, s': State, i: nat) {
    && IsTask(cfg, s, i) && s.status[i].Returning? && |s.channel| < WORKER_STREAM_BUFFER
    && s' == Post(s, i, Finished(s.status[i].sent, s.status[i].outcome), Done(i, s.status[i].outcome))
  }

  /** The consumer: file `Done` results by dispatch index, stop after the last one. */
  ghost predicate Receive(cfg: Config, s: State, s': State) {
    && Shape(cfg, s) && s.doneCount < |cfg.tasks| && s.channel != []
    && var e := s.channel[0];
       var taken := s.(channel := s.channel[1..], consumed := s.consumed + [e]);
       s' == if e.Done? then
               taken.(slots := if e.task < |s.slots| then s.slots[e.task := Some(e.outcome)] else s.slots,
                      doneCount := s.doneCount + 1)
             else taken
  }

  /** A step of task i other than a failure of its call. */
  ghost predicate Forward(cfg: Config, s: State, s': State, i: nat) {
    || Refuse(cfg, s, s', i)
    || Acquire(cfg, s, s', i)
    || Read(cfg, s, s', i)
    || Decide(cfg, s, s', i)
    || Chunk(cfg, s, s', i)
    || Record(cfg, s, s', i)
    || Release(cfg, s, s', i)
    || PostDone(cfg, s, s', i)
  }

  ghost predicate TaskStep(cfg: Config, s: State, s': State, i: nat) {
    Forward(cfg, s, s', i) || Abort(cfg, s, s', i)
  }

  ghost predicate Next(cfg: Config, s: State, s': State) {
    Receive(cfg, s, s') || exists i: nat :: TaskStep(cfg, s, s', i)
  }

  ghost predicate IsRun(cfg: Config, run: seq<State>) {
    && run != [] && Init(cfg, run[0])
    && forall i :: 0 <= i < |run| - 1 ==> Next(cfg, run[i], run[i + 1])
  }

  // ----- Totals over tasks -----

  /** Sum of a weight over all tasks. */
  ghost function Total(w: (Task, Status) -> real, tasks: seq<Task>, status: seq<Status>): real
    requires |tasks| == |status|
  {
    if tasks == [] then 0.0
    else Total(w, tasks[..|tasks| - 1], status[..|tasks| - 1]) + w(tasks[|tasks| - 1], status[|tasks| - 1])
  }

  lemma {:induction false} TotalMove(
      w: (Task, Status) -> real, tasks: seq<Task>, status: seq<Status>, i: nat, next: Status)
    requires |tasks| == |status| && i < |tasks|
    ensures Total(w, tasks, status[i := next]) == Total(w, tasks, status) - w(tasks[i], status[i]) + w(tasks[i], next)
  {
    var n := |tasks| - 1;
    if i < n {
      TotalMove(w, tasks[..n], status[..n], i, next);
      assert status[i := next][..n] == status[..n][i := next];
    } else {
      assert status[i := next][..n] == status[..n];
    }
  }

  lemma {:induction false} TotalBounds(w: (Task, Status) -> real, tasks: seq<Task>, status: seq<Status>, i: nat)
    requires |tasks| == |status| && i < |tasks|
    requires forall j :: 0 <= j < |tasks| ==> w(tasks[j], status[j]) >= 0.0
    ensures Total(w, tasks, status) >= w(tasks[i], status[i])
  {
    var n := |tasks| - 1;
    if n > 0 {
      if i < n { TotalBounds(w, tasks[..n], status[..n], i); } else { TotalBounds(w, tasks[..n], status[..n], 0); }
    }
  }
}
