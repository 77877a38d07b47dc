/** The streaming protocol of one fan-out: what the consumer sees of each branch, and that the
    results come out in dispatch order. */
module FanoutProtocol {
  import opened Prelude
  import opened Fanout

  /** Events of one task, in order. */
  ghost function Of(events: seq<Event>, i: nat): seq<Event> {
    if events == [] then []
    else
      var e := events[|events| - 1];
      Of(events[..|events| - 1], i) + if e.task == i then [e] else []
  }

  lemma {:induction false} OfOneMore(events: seq<Event>, e: Event, i: nat)
    ensures Of(events + [e], i) == Of(events, i) + if e.task == i then [e] else []
  {
    assert (events + [e])[..|events|] == events;
  }

  lemma {:induction false} OfConcat(a: seq<Event>, b: seq<Event>, i: nat)
    ensures Of(a + b, i) == Of(a, i) + Of(b, i)
  {
    if b == [] {
      assert a + b == a;
    } else {
      var init, e := b[..|b| - 1], b[|b| - 1];
      OfConcat(a, init, i);
      InitLast(b);
      assert a + b == a + init + [e];
      OfOneMore(a + init, e, i);
      OfOneMore(init, e, i);
    }
  }

  ghost function Chunks(t: Task): seq<string> { if t.Streaming? then t.chunks else [] }

  /** The deltas of the first n chunks: one per non-empty chunk, each with the text so far. */
  ghost function Deltas(chunks: seq<string>, i: nat, n: nat): seq<Event>
    requires n <= |chunks|
  {
    if n == 0 then []
    else Deltas(chunks, i, n - 1) + if chunks[n - 1] == "" then [] else [Delta(i, Concat(chunks[..n]))]
  }

  ghost function Sent(p: Status): nat {
    match p
    case Calling(k) => k
    case Recorded(k, _) => k
    case Returning(k, _) => k
    case Finished(k, _) => k
    case _ => 0
  }

  /** Everything task i has posted so far: its deltas, then its one `Done`. */
  ghost function Posted(t: Task, p: Status, i: nat): seq<Event>
    requires Sent(p) <= |Chunks(t)|
  {
    Deltas(Chunks(t), i, Sent(p)) + if p.Finished? then [Done(i, p.outcome)] else []
  }

  /** A text outcome is the whole text, after every chunk. */
  ghost predicate Honest(t: Task, p: Status) {
    && Sent(p) <= |Chunks(t)|
    && ((p.Recorded? || p.Returning? || p.Finished?) && p.outcome.Text? ==>
          !t.Unknown? && t.finishOk && Sent(p) == |Chunks(t)| && p.outcome == Text(FullText(t)))
  }

  ghost predicate Ordered(cfg: Config, s: State) {
    && Shape(cfg, s)
    && |s.channel| <= WORKER_STREAM_BUFFER
    && (forall k :: 0 <= k < |s.channel| ==> s.channel[k].task < |cfg.tasks|)
    && forall i :: 0 <= i < |cfg.tasks| ==>
                     && Honest(cfg.tasks[i], s.status[i])
                     && Of(s.consumed + s.channel, i) == Posted(cfg.tasks[i], s.status[i], i)
  }

  lemma {:induction false} OrderedStarts(cfg: Config, s: State)
    requires Init(cfg, s)
    ensures Ordered(cfg, s)
  {
    assert s.consumed + s.channel == [];
  }

  /** What one task step does to its own status and to the channel: it posts `e`. */
  ghost predicate Posts(cfg: Config, s: State, s': State, i: nat, e: seq<Event>)
    requires IsTask(cfg, s, i) && Honest(cfg.tasks[i], s.status[i])
  {
    && |s'.status| == |s.status| && s'.status == s.status[i := s'.status[i]]
    && s'.channel == s.channel + e
    && (e == [] || (|e| == 1 && |s.channel| < WORKER_STREAM_BUFFER && e[0].task == i))
    && Honest(cfg.tasks[i], s'.status[i])
    && Posted(cfg.tasks[i], s'.status[i], i) == Posted(cfg.tasks[i], s.status[i], i) + e
    && s'.consumed == s.consumed && s'.slots == s.slots && s'.doneCount == s.doneCount
    && !s.status[i].Finished? && (s'.status[i].Finished? <==> e != [] && e[0].Done?)
  }

  lemma {:induction false} ChunkPosts(cfg: Config, s: State, s': State, i: nat) returns (e: seq<Event>)
    requires IsTask(cfg, s, i) && Honest(cfg.tasks[i], s.status[i]) && Chunk(cfg, s, s', i)
    ensures Posts(cfg, s, s', i, e)
  {
    hide Concat;
    var k := s.status[i].sent;
    e := if cfg.tasks[i].chunks[k] == "" then [] else [Delta(i, Concat(cfg.tasks[i].chunks[..k + 1]))];
    assert Deltas(cfg.tasks[i].chunks, i, k + 1) == Deltas(cfg.tasks[i].chunks, i, k) + e;
  }

  lemma {:induction false} TaskPosts(cfg: Config, s: State, s': State, i: nat) returns (e: seq<Event>)
    requires IsTask(cfg, s, i) && Honest(cfg.tasks[i], s.status[i]) && TaskStep(cfg, s, s', i)
    ensures Posts(cfg, s, s', i, e)
  {
    if Chunk(cfg, s, s', i) {
      e := ChunkPosts(cfg, s, s', i);
    } else {
      hide Passes, Concat, Deltas, FullText, Chunk;
      e := if s.status[i].Returning? then [Done(i, s.status[i].outcome)] else [];
    }
  }

  lemma {:induction false} OrderedKept(cfg: Config, s: State, s': State)
    requires Ordered(cfg, s) && Next(cfg, s, s')
    ensures Ordered(cfg, s')
  {
    if Receive(cfg, s, s') {
      assert s'.consumed + s'.channel == s.consumed + s.channel;
    } else {
      hide TaskStep, Ordered;
      var i: nat :| TaskStep(cfg, s, s', i);
      OrderedAfterTask(cfg, s, s', i);
    }
  }

  lemma {:induction false} OrderedAfterTask(cfg: Config, s: State, s': State, i: nat)
    requires Ordered(cfg, s) && TaskStep(cfg, s, s', i)
    ensures Ordered(cfg, s')
  {
    TaskInRange(cfg, s, s', i);
    var e := TaskPosts(cfg, s, s', i);
    hide TaskStep, Honest, Of, Posted, Posts, Ordered;
    OrderedAfterPost(cfg, s, s', i, e);
  }

  lemma {:induction false} OrderedAfterPost(cfg: Config, s: State, s': State, i: nat, e: seq<Event>)
    requires Ordered(cfg, s) && IsTask(cfg, s, i) && Honest(cfg.tasks[i], s.status[i]) && Posts(cfg, s, s', i, e)
    ensures Ordered(cfg, s')
  {
    hide Of, Posted;
    var events := s.consumed + s.channel;
    assert s'.consumed + s'.channel == events + e;
    forall j: nat | j < |cfg.tasks|
      ensures Honest(cfg.tasks[j], s'.status[j])
      ensures Of(s'.consumed + s'.channel, j) == Posted(cfg.tasks[j], s'.status[j], j)
    {
      OfMaybeOneMore(events, e, j);
      assert Of(events, j) == Posted(cfg.tasks[j], s.status[j], j);
      if e == [] || j != i { assert Posted(cfg.tasks[j], s.status[j], j) + [] == Posted(cfg.tasks[j], s.status[j], j); }
    }
  }

  lemma {:induction false} OfMaybeOneMore(events: seq<Event>, e: seq<Event>, j: nat)
    requires |e| <= 1
    ensures Of(events + e, j) == Of(events, j) + if e != [] && e[0].task == j then e else []
  {
    if e == [] {
      assert events + e == events;
    } else {
      OfOneMore(events, e[0], j);
      assert e == [e[0]];
    }
  }

  lemma {:induction false} TaskInRange(cfg: Config, s: State, s': State, i: nat)
    requires Shape(cfg, s) && TaskStep(cfg, s, s', i)
    ensures IsTask(cfg, s, i)
  {
  }

  lemma {:induction false} EveryRunOrdered(cfg: Config, run: seq<State>, k: nat)
    requires IsRun(cfg, run) && k < |run|
    ensures Ordered(cfg, run[k])
  {
    hide Next, Ordered, Init;
    if k == 0 {
      OrderedStarts(cfg, run[0]);
    } else {
      EveryRunOrdered(cfg, run, k - 1);
      OrderedKept(cfg, run[k - 1], run[k]);
    }
  }

  // ----- The texts, without `Concat` -----

  ghost function NonEmpty(chunks: seq<string>): seq<string> {
    if chunks == [] then []
    else NonEmpty(chunks[..|chunks| - 1]) + if chunks[|chunks| - 1] == "" then [] else [chunks[|chunks| - 1]]
  }

  /** The text a branch has shown before its event j. */
  ghost function TextBefore(own: seq<Event>, j: nat): string
    requires j <= |own|
  {
    if j == 0 || own[j - 1].Done? then "" else own[j - 1].cumulative
  }

  /** Event j is a delta of branch i whose text is that of the event before it and `text`. */
  ghost predicate AddsText(own: seq<Event>, j: nat, i: nat, text: string)
    requires j < |own|
  {
    own[j].Delta? && own[j].task == i && own[j].cumulative == TextBefore(own, j) + text
  }

  /** Event j of branch i, if it is its Done: it comes last, and a text is all of the text, of a
      worker that finished normally. */
  ghost predicate EndsText(t: Task, own: seq<Event>, j: nat, i: nat)
    requires j < |own|
  {
    && own[j].Done? && own[j].task == i && j == |own| - 1
    && (own[j].outcome.Text? ==>
          && !t.Unknown? && t.finishOk
          && (t.Streaming? ==> j == |NonEmpty(t.chunks)| && own[j].outcome.text == TextBefore(own, j))
          && (t.Buffered? ==> j == 0 && own[j].outcome.text == t.text))
  }

  /** What a branch posts, on its own: delta j carries the text before it and the j-th chunk that
      is not empty; a Done ends it. */
  ghost predicate Reads(t: Task, own: seq<Event>, i: nat) {
    forall j: nat :: j < |own| ==> ReadsAt(t, own, j, i)
  }

  ghost predicate ReadsAt(t: Task, own: seq<Event>, j: nat, i: nat)
    requires j < |own|
  {
    || (t.Streaming? && j < |NonEmpty(t.chunks)| && AddsText(own, j, i, NonEmpty(t.chunks)[j]))
    || EndsText(t, own, j, i)
  }

  lemma {:induction false} NonEmptyGrows(chunks: seq<string>, n: nat)
    requires n <= |chunks|
    ensures |NonEmpty(chunks[..n])| <= |NonEmpty(chunks)|
    ensures NonEmpty(chunks)[..|NonEmpty(chunks[..n])|] == NonEmpty(chunks[..n])
    decreases |chunks|
  {
    if n < |chunks| {
      assert chunks[..|chunks| - 1][..n] == chunks[..n];
      NonEmptyGrows(chunks[..|chunks| - 1], n);
    } else {
      assert chunks[..n] == chunks;
    }
  }

  /** Deltas of branch i, one per text, that come to `whole`. */
  ghost predicate Carry(own: seq<Event>, texts: seq<string>, i: nat, whole: string) {
    && |own| == |texts| && TextBefore(own, |own|) == whole
    && forall j: nat :: j < |own| ==> AddsText(own, j, i, texts[j])
  }

  lemma {:induction false} TextBeforeStays(own: seq<Event>, e: Event, j: nat)
    requires j <= |own|
    ensures TextBefore(own + [e], j) == TextBefore(own, j)
  {
  }

  lemma {:induction false} AddsTextStays(own: seq<Event>, e: Event, j: nat, i: nat, text: string)
    requires j < |own| && AddsText(own, j, i, text)
    ensures AddsText(own + [e], j, i, text)
  {
    TextBeforeStays(own, e, j);
    hide TextBefore;
  }

  lemma {:induction false} CarryOneMore(own: seq<Event>, texts: seq<string>, i: nat, whole: string, text: string)
    requires Carry(own, texts, i, whole)
    ensures Carry(own + [Delta(i, whole + text)], texts + [text], i, whole + text)
  {
    var e := Delta(i, whole + text);
    var all, texts' := own + [e], texts + [text];
    TextBeforeStays(own, e, |own|);
    assert TextBefore(all, |all|) == whole + text;
    hide TextBefore;
    assert AddsText(all, |own|, i, text);
    forall j: nat | j < |all| ensures AddsText(all, j, i, texts'[j]) {
      if j < |own| {
        assert AddsText(own, j, i, texts[j]);
        AddsTextStays(own, e, j, i, texts[j]);
      }
    }
    hide AddsText;
  }

  lemma {:induction false} DeltasRead(chunks: seq<string>, i: nat, n: nat)
    requires n <= |chunks|
    ensures Carry(Deltas(chunks, i, n), NonEmpty(chunks[..n]), i, Concat(chunks[..n]))
  {
    if n == 0 {
      NoDeltas(chunks, i);
    } else {
      DeltasRead(chunks, i, n - 1);
      DeltasOnce(chunks, i, n);
      hide *;
      CarryOneMore(Deltas(chunks, i, n - 1), NonEmpty(chunks[..n - 1]), i, Concat(chunks[..n - 1]), chunks[n - 1]);
    }
  }

  lemma {:induction false} NoDeltas(chunks: seq<string>, i: nat)
    ensures Carry(Deltas(chunks, i, 0), NonEmpty(chunks[..0]), i, Concat(chunks[..0]))
  {
  }

  lemma {:induction false} DeltasOnce(chunks: seq<string>, i: nat, n: nat)
    requires 0 < n <= |chunks|
    ensures var text, whole := chunks[n - 1], Concat(chunks[..n - 1]);
            && Concat(chunks[..n]) == whole + text
            && (text != "" ==>
                  && Deltas(chunks, i, n) == Deltas(chunks, i, n - 1) + [Delta(i, whole + text)]
                  && NonEmpty(chunks[..n]) == NonEmpty(chunks[..n - 1]) + [text])
            && (text == "" ==>
                  && Deltas(chunks, i, n) == Deltas(chunks, i, n - 1) && Concat(chunks[..n]) == whole
                  && NonEmpty(chunks[..n]) == NonEmpty(chunks[..n - 1]))
  {
    assert chunks[..n][..n - 1] == chunks[..n - 1];
  }

  lemma {:induction false} PostedReads(t: Task, p: Status, i: nat)
    requires Honest(t, p)
    ensures Reads(t, Posted(t, p, i), i)
  {
    var n, deltas := Sent(p), Deltas(Chunks(t), i, Sent(p));
    SentReads(t, i, n);
    if p.Finished? {
      WholeText(t, p, i);
      hide Deltas, NonEmpty, Concat, Chunks, FullText, Honest;
      DoneReads(t, deltas, i, p.outcome);
    } else {
      assert deltas + [] == deltas;
    }
  }

  lemma {:induction false} SentReads(t: Task, i: nat, n: nat)
    requires n <= |Chunks(t)|
    ensures Reads(t, Deltas(Chunks(t), i, n), i)
    ensures forall e :: e in Deltas(Chunks(t), i, n) ==> e.Delta?
  {
    if t.Streaming? {
      DeltasRead(t.chunks, i, n);
      NonEmptyGrows(t.chunks, n);
      var texts, own, whole := NonEmpty(t.chunks[..n]), Deltas(t.chunks, i, n), Concat(t.chunks[..n]);
      assert Chunks(t) == t.chunks;
      hide *;
      CarriedReads(t, own, texts, i, whole);
    }
  }

  lemma {:induction false} CarriedReads(t: Task, own: seq<Event>, texts: seq<string>, i: nat, whole: string)
    requires t.Streaming? && Carry(own, texts, i, whole)
    requires |texts| <= |NonEmpty(t.chunks)| && NonEmpty(t.chunks)[..|texts|] == texts
    ensures Reads(t, own, i) && forall e :: e in own ==> e.Delta?
  {
    assert forall j: nat :: j < |own| ==> AddsText(own, j, i, texts[j]) && own[j].Delta?;
    hide NonEmpty, TextBefore, AddsText;
    forall j: nat | j < |own| ensures AddsText(own, j, i, NonEmpty(t.chunks)[j]) {
      assert NonEmpty(t.chunks)[..|texts|][j] == texts[j];
    }
  }

  /** What a finished task with a text has sent: all of it. */
  lemma {:induction false} WholeText(t: Task, p: Status, i: nat)
    requires Honest(t, p) && p.Finished?
    ensures var own := Deltas(Chunks(t), i, Sent(p));
            p.outcome.Text? ==>
              && !t.Unknown? && t.finishOk
              && (t.Streaming? ==> |own| == |NonEmpty(t.chunks)| && p.outcome.text == TextBefore(own, |own|))
              && (t.Buffered? ==> own == [] && p.outcome.text == t.text)
  {
    if p.outcome.Text? && t.Streaming? {
      DeltasRead(t.chunks, i, |t.chunks|);
      assert t.chunks[..|t.chunks|] == t.chunks;
    }
  }

  lemma {:induction false} DoneReads(t: Task, own: seq<Event>, i: nat, o: Outcome)
    requires Reads(t, own, i) && forall e :: e in own ==> e.Delta?
    requires o.Text? ==>
               && !t.Unknown? && t.finishOk
               && (t.Streaming? ==> |own| == |NonEmpty(t.chunks)| && o.text == TextBefore(own, |own|))
               && (t.Buffered? ==> own == [] && o.text == t.text)
    ensures Reads(t, own + [Done(i, o)], i)
  {
    hide NonEmpty;
    var done := Done(i, o);
    var all := own + [done];
    TextBeforeStays(own, done, |own|);
    hide TextBefore;
    assert EndsText(t, all, |own|, i);
    forall j: nat | j < |own| ensures ReadsAt(t, all, j, i) {
      assert own[j] in own && ReadsAt(t, own, j, i);
      AddsTextStays(own, done, j, i, NonEmpty(t.chunks)[j]);
    }
    hide AddsText, EndsText;
  }

  /** In every state of every run each branch reads so, consumed and waiting events together; and
      what waits of all branches is never more than 64 events. */
  lemma {:induction false} EveryBranchReads(cfg: Config, run: seq<State>, k: nat, i: nat)
    requires IsRun(cfg, run) && k < |run| && i < |cfg.tasks|
    ensures Reads(cfg.tasks[i], Of(run[k].consumed + run[k].channel, i), i)
    ensures |run[k].channel| <= 64
  {
    EveryRunOrdered(cfg, run, k);
    PostedReads(cfg.tasks[i], run[k].status[i], i);
    hide Of, Posted, Honest, Reads;
  }

  // ----- The consumer's slots -----

  /** How many `Done` events of task i there are. */
  ghost function Dones(events: seq<Event>, i: nat): nat {
    if events == [] then 0
    else
      var e := events[|events| - 1];
      Dones(events[..|events| - 1], i) + if e.Done? && e.task == i then 1 else 0
  }

  lemma {:induction false} DonesOneMore(events: seq<Event>, e: Event, i: nat)
    ensures Dones(events + [e], i) == Dones(events, i) + if e.Done? && e.task == i then 1 else 0
  {
    assert (events + [e])[..|events|] == events;
  }

  lemma {:induction false} DonesConcat(a: seq<Event>, b: seq<Event>, i: nat)
    ensures Dones(a + b, i) == Dones(a, i) + Dones(b, i)
  {
    if b == [] {
      assert a + b == a;
    } else {
      var init, e := b[..|b| - 1], b[|b| - 1];
      DonesConcat(a, init, i);
      InitLast(b);
      assert a + b == a + init + [e];
      DonesOneMore(a + init, e, i);
      DonesOneMore(init, e, i);
    }
  }

  /** Only events of task i count, and of what it posts only its `Done` is one. */
  lemma {:induction false} DonesOf(events: seq<Event>, i: nat)
    ensures Dones(events, i) == Dones(Of(events, i), i)
  {
    if events != [] {
      var init, e := events[..|events| - 1], events[|events| - 1];
      DonesOf(init, i);
      if e.task == i { DonesOneMore(Of(init, i), e, i); } else { assert Of(init, i) + [] == Of(init, i); }
    }
  }

  lemma {:induction false} DeltasHaveNoDone(chunks: seq<string>, i: nat, n: nat)
    requires n <= |chunks|
    ensures Dones(Deltas(chunks, i, n), i) == 0
  {
    if n > 0 {
      DeltasHaveNoDone(chunks, i, n - 1);
      var before := Deltas(chunks, i, n - 1);
      if chunks[n - 1] == "" { assert before + [] == before; }
      else { DonesOneMore(before, Delta(i, Concat(chunks[..n])), i); }
    }
  }

  lemma {:induction false} DonesPosted(t: Task, p: Status, i: nat)
    requires Sent(p) <= |Chunks(t)|
    ensures Dones(Posted(t, p, i), i) == if p.Finished? then 1 else 0
  {
    var deltas := Deltas(Chunks(t), i, Sent(p));
    DeltasHaveNoDone(Chunks(t), i, Sent(p));
    if p.Finished? { DonesOneMore(deltas, Done(i, p.outcome), i); } else { assert deltas + [] == deltas; }
  }

  ghost function Filled(slots: seq<Option<Outcome>>): nat {
    if slots == [] then 0 else Filled(slots[..|slots| - 1]) + if slots[|slots| - 1].Some? then 1 else 0
  }

  lemma {:induction false} FilledUpdate(slots: seq<Option<Outcome>>, i: nat, o: Outcome)
    requires i < |slots| && slots[i].None?
    ensures Filled(slots[i := Some(o)]) == Filled(slots) + 1
  {
    var n := |slots| - 1;
    if i < n {
      FilledUpdate(slots[..n], i, o);
      assert slots[i := Some(o)][..n] == slots[..n][i := Some(o)];
    } else {
      assert slots[i := Some(o)][..n] == slots[..n];
    }
  }

  lemma {:induction false} FilledBound(slots: seq<Option<Outcome>>)
    ensures Filled(slots) <= |slots|
    ensures Filled(slots) == |slots| <==> forall i :: 0 <= i < |slots| ==> slots[i].Some?
  {
    if slots != [] { FilledBound(slots[..|slots| - 1]); }
  }

  /** A slot holds the outcome of the `Done` consumed for its task, and is empty before. */
  ghost predicate Filed(cfg: Config, s: State) {
    && Shape(cfg, s) && s.doneCount == Filled(s.slots)
    && forall i :: 0 <= i < |cfg.tasks| ==>
                     && Dones(s.consumed, i) == (if s.slots[i].Some? then 1 else 0)
                     && (s.slots[i].Some? ==> s.status[i].Finished? && s.slots[i] == Some(s.status[i].outcome))
  }

  lemma {:induction false} DoneIsPosted(events: seq<Event>, e: Event)
    requires e in events
    ensures e in Of(events, e.task)
  {
    if events[|events| - 1] != e { DoneIsPosted(events[..|events| - 1], e); }
  }

  lemma {:induction false} DeltasOnly(chunks: seq<string>, i: nat, n: nat, e: Event)
    requires n <= |chunks| && e.Done?
    ensures e !in Deltas(chunks, i, n)
  {
    if n > 0 { DeltasOnly(chunks, i, n - 1, e); }
  }

  /** The `Done` at the head of the channel is its task's only one: the slot is still empty
      and the outcome is the finished task's. */
  lemma {:induction false} HeadDone(cfg: Config, s: State)
    requires Ordered(cfg, s) && Filed(cfg, s) && s.channel != [] && s.channel[0].Done?
    ensures var e := s.channel[0];
            && e.task < |cfg.tasks| && s.slots[e.task].None?
            && s.status[e.task].Finished? && s.status[e.task].outcome == e.outcome
  {
    var e := s.channel[0];
    var i := e.task;
    var events := s.consumed + s.channel;
    assert events == s.consumed + [e] + s.channel[1..];
    DonesOneMore(s.consumed, e, i);
    DonesConcat(s.consumed + [e], s.channel[1..], i);
    DonesOf(events, i);
    DonesPosted(cfg.tasks[i], s.status[i], i);
    assert events[|s.consumed|] == e;
    DoneIsPosted(events, e);
    DeltasOnly(Chunks(cfg.tasks[i]), i, Sent(s.status[i]), e);
  }

  lemma {:induction false} FiledKept(cfg: Config, s: State, s': State)
    requires Ordered(cfg, s) && Filed(cfg, s) && Next(cfg, s, s')
    ensures Filed(cfg, s')
  {
    if Receive(cfg, s, s') {
      var e := s.channel[0];
      if e.Done? { HeadDone(cfg, s); FilledUpdate(s.slots, e.task, e.outcome); }
      forall i: nat | i < |cfg.tasks|
        ensures Dones(s'.consumed, i) == Dones(s.consumed, i) + if e.Done? && e.task == i then 1 else 0
      {
        DonesOneMore(s.consumed, e, i);
      }
    } else {
      hide TaskStep, Of;
      var i: nat :| TaskStep(cfg, s, s', i);
      TaskInRange(cfg, s, s', i);
      var e := TaskPosts(cfg, s, s', i);
    }
  }

  lemma {:induction false} EveryRunFiled(cfg: Config, run: seq<State>, k: nat)
    requires IsRun(cfg, run) && k < |run|
    ensures Filed(cfg, run[k])
  {
    if k == 0 {
      NoneFilled(run[0].slots);
    } else {
      hide Next, Ordered, Filed;
      EveryRunFiled(cfg, run, k - 1);
      EveryRunOrdered(cfg, run, k - 1);
      FiledKept(cfg, run[k - 1], run[k]);
    }
  }

  lemma {:induction false} NoneFilled(slots: seq<Option<Outcome>>)
    requires forall i :: 0 <= i < |slots| ==> slots[i].None?
    ensures Filled(slots) == 0
  {
    if slots != [] { NoneFilled(slots[..|slots| - 1]); }
  }

  /** `slots.into_iter().flatten()`. */
  function Flatten(slots: seq<Option<Outcome>>): (r: seq<Outcome>)
    ensures (forall i :: 0 <= i < |slots| ==> slots[i].Some?) ==>
              |r| == |slots| && forall i :: 0 <= i < |slots| ==> slots[i] == Some(r[i])
  {
    if slots == [] then []
    else Flatten(slots[..|slots| - 1]) + if slots[|slots| - 1].Some? then [slots[|slots| - 1].value] else []
  }

  /** When the consumer stops: nothing is left in the channel, every branch was seen as its
      deltas followed by its one `Done`, and the results are the tasks' outcomes in dispatch
      order, whatever order they finished in. */
  ghost predicate Complete(cfg: Config, s: State) {
    && s.channel == []
    && |Flatten(s.slots)| == |cfg.tasks| == |s.status|
    && forall i :: 0 <= i < |cfg.tasks| ==>
                     && s.status[i].Finished? && Honest(cfg.tasks[i], s.status[i])
                     && Flatten(s.slots)[i] == s.status[i].outcome
                     && Of(s.consumed, i) ==
                        Deltas(Chunks(cfg.tasks[i]), i, Sent(s.status[i])) + [Done(i, s.status[i].outcome)]
  }

  lemma {:induction false} CompleteWhenAllDone(cfg: Config, run: seq<State>, k: nat)
    requires IsRun(cfg, run) && k < |run| && run[k].doneCount == |cfg.tasks|
    ensures Complete(cfg, run[k])
  {
    var s := run[k];
    EveryRunOrdered(cfg, run, k);
    EveryRunFiled(cfg, run, k);
    FilledBound(s.slots);
    AllDoneDrainsChannel(cfg, s);
    assert s.consumed + [] == s.consumed;
  }

  lemma {:induction false} AllDoneDrainsChannel(cfg: Config, s: State)
    requires Ordered(cfg, s) && Filed(cfg, s)
    requires forall i :: 0 <= i < |s.slots| ==> s.slots[i].Some?
    ensures s.channel == []
  {
    if s.channel != [] {
      var e := s.channel[0];
      assert e.task < |cfg.tasks| && s.slots[e.task].Some?;
      hide *;
      NothingOfADoneTask(cfg, s, e.task);
      DoneIsPosted(s.channel, e);
    }
  }

  lemma {:induction false} NothingOfADoneTask(cfg: Config, s: State, i: nat)
    requires Ordered(cfg, s) && Filed(cfg, s) && i < |cfg.tasks| == |s.slots| && s.slots[i].Some?
    ensures Of(s.channel, i) == []
  {
    hide *;
    DoneIsLast(cfg, s, i);
    NoDoneLeft(cfg, s, i);
    if Of(s.channel, i) != [] { LastIsDone(Of(s.channel, i), i); }
  }

  lemma {:induction false} DoneIsLast(cfg: Config, s: State, i: nat)
    requires Ordered(cfg, s) && Filed(cfg, s) && i < |cfg.tasks| == |s.slots| && s.slots[i].Some?
    ensures var of := Of(s.channel, i); of == [] || (of[|of| - 1].Done? && of[|of| - 1].task == i)
  {
    hide Of, Dones, Honest, Deltas;
    OfConcat(s.consumed, s.channel, i);
    var all := Of(s.consumed, i) + Of(s.channel, i);
    assert all[|all| - 1] == Done(i, s.status[i].outcome);
  }

  lemma {:induction false} NoDoneLeft(cfg: Config, s: State, i: nat)
    requires Ordered(cfg, s) && Filed(cfg, s) && i < |cfg.tasks| == |s.slots| && s.slots[i].Some?
    ensures Dones(Of(s.channel, i), i) == 0
  {
    DonesPosted(cfg.tasks[i], s.status[i], i);
    hide Of, Dones, Honest, Posted;
    DonesOf(s.channel, i);
    DonesConcat(s.consumed, s.channel, i);
    DonesOf(s.consumed + s.channel, i);
  }

  lemma {:induction false} LastIsDone(events: seq<Event>, i: nat)
    requires events != [] && events[|events| - 1].Done? && events[|events| - 1].task == i
    ensures Dones(events, i) >= 1
  {
    InitLast(events);
    DonesOneMore(events[..|events| - 1], events[|events| - 1], i);
  }
}
