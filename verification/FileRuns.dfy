/** Replicas that share the file store: exactly which steps lower the file, and which saves do
    so in terms of what the log of a run shows. */
module FileRuns {
  import opened Prelude
  import opened AnchorStore
  import opened ReplicaRuns

  /** The file falls in a step if and only if the step saves a reading below it. */
  lemma {:induction false} FileFallsExactlyOnALowSave(s: State, s': State)
    requires Next(Json, s, s')
    ensures Loaded(s'.stored) < Loaded(s.stored) <==>
            exists r, p ::
              SaveRead(Json, s, s', r, p) && s.replicas[r].readings[p].value < Loaded(s.stored)
  {
  }

  /** Index of the last save in the log. */
  function LastSave(log: seq<Event>): (q: Option<nat>)
    ensures q.Some? ==> q.value < |log| && log[q.value].Persisted?
  {
    if log == [] then None
    else if log[|log| - 1].Persisted? then Some(|log| - 1)
    else LastSave(log[..|log| - 1])
  }

  /** Index of replica r's last boot. */
  function LastBoot(log: seq<Event>, r: nat): (b: Option<nat>)
    ensures b.Some? ==> b.value < |log| && log[b.value] == Booted(r)
  {
    if log == [] then None
    else if log[|log| - 1] == Booted(r) then Some(|log| - 1)
    else LastBoot(log[..|log| - 1], r)
  }

  /** Another replica saved last, after r had booted. */
  predicate SavedSince(log: seq<Event>, r: nat) {
    var q, b := LastSave(log), LastBoot(log, r);
    q.Some? && b.Some? && log[q.value].replica != r && b.value < q.value
  }

  /** The last save is one the reading knows nothing of: another replica's made after r booted,
      or anyone's, r's own included, made after the reading. */
  predicate Overtaken(log: seq<Event>, r: nat, reading: Reading) {
    var q := LastSave(log);
    SavedSince(log, r) || (q.Some? && reading.at <= q.value)
  }

  /** The file holds the last save; what is not overtaken is not below it. */
  ghost predicate FileInvariant(s: State) {
    && s.stored == (if LastSave(s.log).Some? then Some(s.log[LastSave(s.log).value].value) else None)
    && forall r :: r in s.replicas ==> Informed(s, r)
  }

  ghost predicate Informed(s: State, r: nat)
    requires r in s.replicas
  {
    var replica := s.replicas[r];
    && LastBoot(s.log, r).Some?
    && (!SavedSince(s.log, r) ==> Loaded(s.stored) <= replica.anchor)
    && forall p :: p in replica.readings ==>
         && replica.readings[p].value <= replica.anchor
         && replica.readings[p].at <= |s.log|
         && (!Overtaken(s.log, r, replica.readings[p]) ==>
               Loaded(s.stored) <= replica.readings[p].value)
  }

  lemma {:induction false} LogOneMore(log: seq<Event>, e: Event)
    ensures LastSave(log + [e]) == if e.Persisted? then Some(|log|) else LastSave(log)
    ensures forall r ::
              LastBoot(log + [e], r) == if e == Booted(r) then Some(|log|) else LastBoot(log, r)
  {
    assert (log + [e])[..|log|] == log;
  }

  lemma {:induction false} BootInforms(s: State, s': State, r: nat)
    requires FileInvariant(s) && Boot(s, s', r)
    ensures FileInvariant(s')
  {
    LogOneMore(s.log, Booted(r));
    hide LastSave, LastBoot;
  }

  lemma {:induction false} CrashInforms(s: State, s': State, r: nat)
    requires FileInvariant(s) && Crash(s, s', r)
    ensures FileInvariant(s')
  {
    hide LastSave, LastBoot;
  }

  lemma {:induction false} ReadInforms(s: State, s': State, r: nat, p: nat)
    requires FileInvariant(s) && ReadAnchor(s, s', r, p)
    ensures FileInvariant(s')
  {
    hide LastSave, LastBoot;
  }

  lemma {:induction false} SaveInforms(s: State, s': State, r: nat, p: nat)
    requires FileInvariant(s) && SaveRead(Json, s, s', r, p)
    ensures FileInvariant(s')
  {
    LogOneMore(s.log, Persisted(r, s.replicas[r].readings[p].value));
    hide LastSave, LastBoot;
  }

  lemma {:induction false} AcceptInforms(s: State, s': State, r: nat, size: nat)
    requires FileInvariant(s) && Accept(s, s', r, size)
    ensures FileInvariant(s')
  {
    LogOneMore(s.log, Accepted(r, size));
    hide LastSave, LastBoot;
  }

  lemma {:induction false} EveryFileRun(run: seq<State>, k: nat)
    requires IsRun(Json, run) && k < |run|
    ensures FileInvariant(run[k])
  {
    if k > 0 {
      hide FileInvariant, Boot, Crash, ReadAnchor, SaveRead, Accept;
      EveryFileRun(run, k - 1);
      var s, s' := run[k - 1], run[k];
      if r :| Boot(s, s', r) { BootInforms(s, s', r); }
      else if r :| Crash(s, s', r) { CrashInforms(s, s', r); }
      else if r, p :| ReadAnchor(s, s', r, p) { ReadInforms(s, s', r, p); }
      else if r, p :| SaveRead(Json, s, s', r, p) { SaveInforms(s, s', r, p); }
      else if r, size :| Accept(s, s', r, size) { AcceptInforms(s, s', r, size); }
    }
  }

  /** In every run over a file, call p of replica r lowers the file by its save exactly when the
      last save in the log is of a larger value and either is another replica's, made after r
      booted, or was made after p's read. */
  lemma {:induction false} SaveLowersExactlyWhenOvertaken(run: seq<State>, k: nat, r: nat, p: nat)
    requires IsRun(Json, run) && k + 1 < |run| && SaveRead(Json, run[k], run[k + 1], r, p)
    ensures var s := run[k];
            var reading := s.replicas[r].readings[p];
            Loaded(run[k + 1].stored) < Loaded(s.stored) <==>
            Overtaken(s.log, r, reading) && s.log[LastSave(s.log).value].value > reading.value
  {
    EveryFileRun(run, k);
    assert Informed(run[k], r);
    hide LastSave, LastBoot;
  }

  // ----- One replica -----

  /** Only replica 0 is ever live. */
  ghost predicate Lone(run: seq<State>) {
    forall i :: 0 <= i < |run| ==> run[i].replicas.Keys <= {0}
  }

  lemma {:induction false} LoneLog(run: seq<State>, k: nat)
    requires IsRun(Json, run) && Lone(run) && k < |run|
    ensures forall i :: 0 <= i < |run[k].log| && run[k].log[i].Persisted? ==> run[k].log[i].replica == 0
  {
    if k > 0 {
      LoneLog(run, k - 1);
      var s, s' := run[k - 1], run[k];
      if r, p :| SaveRead(Json, s, s', r, p) { assert r in s.replicas.Keys; }
    }
  }

  /** A lone replica, restarted any number of times, lowers the file exactly by a save whose
      read is older than the last save, and smaller. */
  lemma {:induction false} LoneReplicaLowersExactlyByOverlap(run: seq<State>, k: nat, p: nat)
    requires IsRun(Json, run) && Lone(run) && k + 1 < |run|
    requires SaveRead(Json, run[k], run[k + 1], 0, p)
    ensures var s := run[k];
            var q, reading := LastSave(s.log), s.replicas[0].readings[p];
            Loaded(run[k + 1].stored) < Loaded(s.stored) <==>
            q.Some? && reading.at <= q.value && s.log[q.value].value > reading.value
  {
    LoneLog(run, k);
    SaveLowersExactlyWhenOvertaken(run, k, 0, p);
    hide LastSave, LastBoot;
  }

  /** No two `persist` calls of a replica are ever in flight together. */
  ghost predicate OneAtATime(run: seq<State>) {
    forall i :: 0 <= i < |run| ==> AtMostOne(run[i])
  }

  ghost predicate AtMostOne(s: State) {
    forall r, p, p' ::
      r in s.replicas && p in s.replicas[r].readings && p' in s.replicas[r].readings ==> p == p'
  }

  /** A call in flight has seen every save there has been. */
  ghost predicate UpToDate(s: State) {
    forall r, p :: r in s.replicas && p in s.replicas[r].readings ==>
      LastSave(s.log).Some? ==> LastSave(s.log).value < s.replicas[r].readings[p].at
  }

  lemma {:induction false} LoneCallsAreUpToDate(run: seq<State>, k: nat)
    requires IsRun(Json, run) && Lone(run) && OneAtATime(run) && k < |run|
    ensures UpToDate(run[k])
  {
    if k > 0 {
      LoneCallsAreUpToDate(run, k - 1);
      var s, s' := run[k - 1], run[k];
      hide UpToDate, AtMostOne, Boot, Crash, ReadAnchor, SaveRead, Accept;
      assert Next(Json, s, s');
      if r :| Boot(s, s', r) { QuietStep(s, s', Booted(r)); }
      else if r, size :| Accept(s, s', r, size) { QuietStep(s, s', Accepted(r, size)); }
      else if r :| Crash(s, s', r) { SilentStep(s, s', r); }
      else if r, p :| ReadAnchor(s, s', r, p) { FreshReading(s, s', r, p); }
      else if r, p :| SaveRead(Json, s, s', r, p) { NothingLeft(s, s', r, p); }
    }
  }

  lemma {:induction false} QuietStep(s: State, s': State, e: Event)
    requires UpToDate(s) && !e.Persisted?
    requires if e.Booted? then Boot(s, s', e.replica) else Accept(s, s', e.replica, e.size)
    ensures UpToDate(s')
  {
    LogOneMore(s.log, e);
    hide LastSave;
  }

  lemma {:induction false} SilentStep(s: State, s': State, r: nat)
    requires UpToDate(s) && Crash(s, s', r)
    ensures UpToDate(s')
  {
    hide LastSave;
  }

  lemma {:induction false} FreshReading(s: State, s': State, r: nat, p: nat)
    requires UpToDate(s) && ReadAnchor(s, s', r, p)
    ensures UpToDate(s')
  {
    hide LastSave;
  }

  lemma {:induction false} NothingLeft(s: State, s': State, r: nat, p: nat)
    requires s.replicas.Keys <= {0} && AtMostOne(s) && SaveRead(Json, s, s', r, p)
    ensures UpToDate(s')
  {
    assert r in s.replicas.Keys;
    assert s'.replicas[0].readings.Keys == {};
    assert forall t :: t in s'.replicas ==> t in s'.replicas.Keys && t in s.replicas.Keys;
  }

  /** So a lone replica whose `persist` calls do not overlap never lowers the file. */
  lemma {:induction false} LoneReplicaNeverLowersTheFile(run: seq<State>, k: nat)
    requires IsRun(Json, run) && Lone(run) && OneAtATime(run) && k + 1 < |run|
    ensures Loaded(run[k].stored) <= Loaded(run[k + 1].stored)
  {
    var s, s' := run[k], run[k + 1];
    hide LastSave, LastBoot;
    if r, p :| SaveRead(Json, s, s', r, p) {
      assert r in s.replicas.Keys;
      LoneCallsAreUpToDate(run, k);
      LoneReplicaLowersExactlyByOverlap(run, k, p);
    }
  }

  // ----- Runs that lower the file -----

  /** Two replicas on one file do lose: the later, smaller save wins and a third boots low. */
  lemma {:induction false} TwoReplicasCanLowerTheFile() returns (run: seq<State>)
    ensures IsRun(Json, run)
    ensures exists i: nat, j: nat :: i < j < |run| && Loaded(run[j].stored) < Loaded(run[i].stored)
  {
    var s0 := State(None, map[], []);
    var s1 := s0.(replicas := map[0 := Replica(0, map[])], log := [Booted(0)]);
    var s2 := s1.(replicas := s1.replicas[1 := Replica(0, map[])], log := [Booted(0), Booted(1)]);
    var s3 := s2.(replicas := s2.replicas[0 := Replica(5, map[])], log := s2.log + [Accepted(0, 5)]);
    var s4 := s3.(replicas := s3.replicas[0 := Replica(5, map[0 := Reading(5, 3)])]);
    var s5 := State(Some(5), s4.replicas[0 := Replica(5, map[])], s4.log + [Persisted(0, 5)]);
    var s6 := s5.(replicas := s5.replicas[1 := Replica(0, map[0 := Reading(0, 4)])]);
    var s7 := State(Some(0), s6.replicas[1 := Replica(0, map[])], s6.log + [Persisted(1, 0)]);
    run := [s0, s1, s2, s3, s4, s5, s6, s7];
    assert map[0 := Reading(5, 3)] - {0} == map[] && map[0 := Reading(0, 4)] - {0} == map[];
    assert Boot(s0, s1, 0) && Boot(s1, s2, 1) && Accept(s2, s3, 0, 5);
    assert ReadAnchor(s3, s4, 0, 0) && SaveRead(Json, s4, s5, 0, 0);
    assert ReadAnchor(s5, s6, 1, 0) && SaveRead(Json, s6, s7, 1, 0);
    assert run[5] == s5 && run[7] == s7;
  }

  /** So does one replica with two `persist` calls in flight: it reads 5, then 9, saves 9, then 5. */
  lemma {:induction false} OverlappingPersistsCanLowerTheFile() returns (run: seq<State>)
    ensures IsRun(Json, run) && Lone(run)
    ensures exists i: nat, j: nat :: i < j < |run| && Loaded(run[i].stored) == 9 && Loaded(run[j].stored) == 5
  {
    var a, b := Reading(5, 2), Reading(9, 3);
    var s0 := State(None, map[], []);
    var s1 := State(None, map[0 := Replica(0, map[])], [Booted(0)]);
    var s2 := State(None, map[0 := Replica(5, map[])], s1.log + [Accepted(0, 5)]);
    var s3 := State(None, map[0 := Replica(5, map[0 := a])], s2.log);
    var s4 := State(None, map[0 := Replica(9, map[0 := a])], s3.log + [Accepted(0, 9)]);
    var s5 := State(None, map[0 := Replica(9, map[0 := a, 1 := b])], s4.log);
    var s6 := State(Some(9), map[0 := Replica(9, map[0 := a])], s5.log + [Persisted(0, 9)]);
    var s7 := State(Some(5), map[0 := Replica(9, map[])], s6.log + [Persisted(0, 5)]);
    run := [s0, s1, s2, s3, s4, s5, s6, s7];
    assert map[0 := a, 1 := b] - {1} == map[0 := a] && map[0 := a] - {0} == map[];
    assert Boot(s0, s1, 0) && Accept(s1, s2, 0, 5) && ReadAnchor(s2, s3, 0, 0);
    assert Accept(s3, s4, 0, 9) && ReadAnchor(s4, s5, 0, 1);
    assert SaveRead(Json, s5, s6, 0, 1) && SaveRead(Json, s6, s7, 0, 0);
    assert run[6] == s6 && run[7] == s7;
  }
}
