/** Reassembly of streamed tool calls: deltas keyed by index are folded into one entry per
    index, and the complete entries come out in index order. JSON is an oracle. */
module ToolCalls {
  import opened Prelude

  datatype Json = Json(text: string)

  const EMPTY_OBJECT := Json("{}")

  datatype Delta = Delta(index: nat, id: Option<string>, name: Option<string>, fragment: Option<string>)

  datatype ToolCall = ToolCall(id: string, name: string, args: Json)

  datatype Entry = Entry(id: Option<string>, name: Option<string>, args: string)

  const BLANK := Entry(None, None, "")

  function Absorb(e: Entry, d: Delta): Entry {
    Entry(
      if d.id.Some? then d.id else e.id,
      if d.name.Some? then d.name else e.name,
      if d.fragment.Some? then e.args + d.fragment.value else e.args)
  }

  /** The deltas of one index, in order. */
  function OfIndex(ds: seq<Delta>, i: nat): seq<Delta> {
    if ds == [] then []
    else
      var n := |ds| - 1;
      if ds[n].index == i then OfIndex(ds[..n], i) + [ds[n]] else OfIndex(ds[..n], i)
  }

  function Fold(ds: seq<Delta>): Entry {
    if ds == [] then BLANK else Absorb(Fold(ds[..|ds| - 1]), ds[|ds| - 1])
  }

  /** Empty arguments, and arguments that do not parse, become the empty object. */
  function Arguments(parse: string -> Option<Json>, text: string): Json {
    if text == "" then EMPTY_OBJECT else match parse(text) case Some(v) => v case None => EMPTY_OBJECT
  }

  /** An entry that never got an id or a name is dropped. */
  function Finish(parse: string -> Option<Json>, e: Entry): seq<ToolCall> {
    if e.id.Some? && e.name.Some? then [ToolCall(e.id.value, e.name.value, Arguments(parse, e.args))] else []
  }

  /** The calls of the indices below n, in index order. */
  function CallsBelow(parse: string -> Option<Json>, ds: seq<Delta>, n: nat): seq<ToolCall> {
    if n == 0 then [] else CallsBelow(parse, ds, n - 1) + Finish(parse, Fold(OfIndex(ds, n - 1)))
  }

  function IndexBound(ds: seq<Delta>): nat {
    if ds == [] then 0 else Max(IndexBound(ds[..|ds| - 1]), ds[|ds| - 1].index + 1)
  }

  function Assembled(parse: string -> Option<Json>, ds: seq<Delta>): seq<ToolCall> {
    CallsBelow(parse, ds, IndexBound(ds))
  }

  // ----- The algorithm -----

  method Accumulate(ds: seq<Delta>) returns (acc: map<nat, Entry>, bound: nat)
    ensures forall i: nat :: EntryOf(acc, i) == Fold(OfIndex(ds, i))
    ensures bound == IndexBound(ds)
  {
    acc, bound := map[], 0;
    for k := 0 to |ds|
      invariant forall i: nat :: EntryOf(acc, i) == Fold(OfIndex(ds[..k], i))
      invariant bound == IndexBound(ds[..k])
    {
      var d := ds[k];
      ghost var before := acc;
      AccumulateOnce(ds, k);
      hide OfIndex, Fold, Absorb, IndexBound;
      acc := acc[d.index := Absorb(EntryOf(acc, d.index), d)];
      bound := Max(bound, d.index + 1);
      assert forall i: nat :: i != d.index ==> EntryOf(acc, i) == EntryOf(before, i);
    }
    assert ds[..|ds|] == ds;
  }

  function EntryOf(acc: map<nat, Entry>, i: nat): Entry { if i in acc then acc[i] else BLANK }

  lemma {:induction false} AccumulateOnce(ds: seq<Delta>, k: nat)
    requires k < |ds|
    ensures forall i: nat :: i != ds[k].index ==> OfIndex(ds[..k + 1], i) == OfIndex(ds[..k], i)
    ensures Fold(OfIndex(ds[..k + 1], ds[k].index)) == Absorb(Fold(OfIndex(ds[..k], ds[k].index)), ds[k])
    ensures IndexBound(ds[..k + 1]) == Max(IndexBound(ds[..k]), ds[k].index + 1)
  {
    assert ds[..k + 1][..k] == ds[..k];
    var own := OfIndex(ds[..k], ds[k].index);
    assert (own + [ds[k]])[..|own|] == own;
  }

  /** The entries are visited by ascending index. */
  method AssembleToolCalls(parse: string -> Option<Json>, ds: seq<Delta>) returns (calls: seq<ToolCall>)
    ensures calls == Assembled(parse, ds)
  {
    var acc, bound := Accumulate(ds);
    calls := [];
    hide OfIndex, Fold;
    for i := 0 to bound
      invariant calls == CallsBelow(parse, ds, i)
    {
      if i in acc { calls := calls + Finish(parse, acc[i]); }
    }
  }

  // ----- What the calls are, on the deltas alone -----

  /** The last id, the last name given. */
  ghost predicate LastId(own: seq<Delta>, id: string) {
    exists k :: 0 <= k < |own| && own[k].id == Some(id) && forall j :: k < j < |own| ==> own[j].id.None?
  }

  ghost predicate LastName(own: seq<Delta>, name: string) {
    exists k :: 0 <= k < |own| && own[k].name == Some(name) && forall j :: k < j < |own| ==> own[j].name.None?
  }

  ghost function Fragments(own: seq<Delta>): string {
    if own == [] then ""
    else Fragments(own[..|own| - 1]) + if own[|own| - 1].fragment.Some? then own[|own| - 1].fragment.value else ""
  }

  /** The call the deltas of one index make: the last id and name, and the value of the joined
      argument fragments; no text, or one that does not parse, is the empty object. */
  ghost predicate IsCallOf(parse: string -> Option<Json>, own: seq<Delta>, call: ToolCall) {
    && LastId(own, call.id) && LastName(own, call.name)
    && (Fragments(own) != "" && parse(Fragments(own)).Some? ==> call.args == parse(Fragments(own)).value)
    && (Fragments(own) == "" || parse(Fragments(own)).None? ==> call.args == Json("{}"))
  }

  /** They make none if they never give an id, or never a name. */
  ghost predicate MakesNoCall(own: seq<Delta>) {
    || (forall k :: 0 <= k < |own| ==> own[k].id.None?)
    || (forall k :: 0 <= k < |own| ==> own[k].name.None?)
  }

  ghost predicate Folds(own: seq<Delta>, e: Entry) {
    && e.args == Fragments(own)
    && (match e.id case Some(id) => LastId(own, id) case None => forall k :: 0 <= k < |own| ==> own[k].id.None?)
    && match e.name case Some(name) => LastName(own, name) case None => forall k :: 0 <= k < |own| ==> own[k].name.None?
  }

  lemma {:induction false} FoldFolds(own: seq<Delta>)
    ensures Folds(own, Fold(own))
  {
    if own != [] {
      var init, d := own[..|own| - 1], own[|own| - 1];
      FoldFolds(init);
      AbsorbFolds(init, d, Fold(init));
      InitLast(own);
      hide Folds, Absorb, Fragments;
      assert Fold(own) == Absorb(Fold(init), d);
    }
  }

  lemma {:induction false} AbsorbFolds(own: seq<Delta>, d: Delta, e: Entry)
    requires Folds(own, e)
    ensures Folds(own + [d], Absorb(e, d))
  {
    var all := own + [d];
    assert all[..|own|] == own;
    assert Fragments(all) == Fragments(own) + if d.fragment.Some? then d.fragment.value else "";
    assert e.args + "" == e.args;
    hide Fragments;
    assert d.id.Some? ==> LastId(all, d.id.value) by { if d.id.Some? { assert all[|own|].id == d.id; } }
    assert d.name.Some? ==> LastName(all, d.name.value) by { if d.name.Some? { assert all[|own|].name == d.name; } }
    if d.id.None? && e.id.Some? { LastIdStays(own, d, e.id.value); }
    if d.name.None? && e.name.Some? { LastNameStays(own, d, e.name.value); }
    hide LastId, LastName;
  }

  lemma {:induction false} LastIdStays(own: seq<Delta>, d: Delta, id: string)
    requires LastId(own, id) && d.id.None?
    ensures LastId(own + [d], id)
  {
    var k :| 0 <= k < |own| && own[k].id == Some(id) && forall j :: k < j < |own| ==> own[j].id.None?;
    assert (own + [d])[k] == own[k];
  }

  lemma {:induction false} LastNameStays(own: seq<Delta>, d: Delta, name: string)
    requires LastName(own, name) && d.name.None?
    ensures LastName(own + [d], name)
  {
    var k :| 0 <= k < |own| && own[k].name == Some(name) && forall j :: k < j < |own| ==> own[j].name.None?;
    assert (own + [d])[k] == own[k];
  }

  lemma {:induction false} FinishMeans(parse: string -> Option<Json>, own: seq<Delta>)
    ensures var calls := Finish(parse, Fold(own));
            (calls == [] && MakesNoCall(own)) || (|calls| == 1 && IsCallOf(parse, own, calls[0]))
  {
    FoldFolds(own);
    hide Fold, LastId, LastName, Fragments;
  }

  /** Which index each call comes from. */
  ghost predicate ByIndex(parse: string -> Option<Json>, ds: seq<Delta>, n: nat, calls: seq<ToolCall>, at: seq<nat>) {
    && |at| == |calls|
    && (forall k :: 0 <= k < |at| ==> at[k] < n && IsCallOf(parse, OfIndex(ds, at[k]), calls[k]))
    && (forall j, k :: 0 <= j < k < |at| ==> at[j] < at[k])
    && forall i: nat :: i < n && i !in at ==> MakesNoCall(OfIndex(ds, i))
  }

  lemma {:induction false} CallsByIndex(parse: string -> Option<Json>, ds: seq<Delta>, n: nat) returns (at: seq<nat>)
    ensures ByIndex(parse, ds, n, CallsBelow(parse, ds, n), at)
  {
    hide *;
    at := [];
    if n > 0 {
      at := CallsByIndex(parse, ds, n - 1);
      CallsBelowOnce(parse, ds, n);
      FinishMeans(parse, OfIndex(ds, n - 1));
      var before, more := CallsBelow(parse, ds, n - 1), Finish(parse, Fold(OfIndex(ds, n - 1)));
      at := OneIndexMore(parse, ds, n - 1, before, at, more);
    } else {
      NoIndexYet(parse, ds);
    }
  }

  lemma {:induction false} CallsBelowOnce(parse: string -> Option<Json>, ds: seq<Delta>, n: nat)
    requires n > 0
    ensures CallsBelow(parse, ds, n) == CallsBelow(parse, ds, n - 1) + Finish(parse, Fold(OfIndex(ds, n - 1)))
  {
  }

  lemma {:induction false} NoIndexYet(parse: string -> Option<Json>, ds: seq<Delta>)
    ensures ByIndex(parse, ds, 0, CallsBelow(parse, ds, 0), [])
  {
  }

  lemma {:induction false} OneIndexMore(
      parse: string -> Option<Json>, ds: seq<Delta>, n: nat, calls: seq<ToolCall>, at: seq<nat>, more: seq<ToolCall>)
    returns (at': seq<nat>)
    requires ByIndex(parse, ds, n, calls, at)
    requires var own := OfIndex(ds, n);
             (more == [] && MakesNoCall(own)) || (|more| == 1 && IsCallOf(parse, own, more[0]))
    ensures ByIndex(parse, ds, n + 1, calls + more, at')
  {
    hide OfIndex, IsCallOf, MakesNoCall;
    if more == [] {
      assert calls + more == calls;
      at' := at;
    } else {
      at' := at + [n];
      assert at'[|at|] == n;
      assert forall i: nat :: i !in at' ==> i !in at && i != n;
    }
  }

  /** The calls come in the order of their indices, each made by the deltas of its own index;
      every other index makes none. */
  lemma {:induction false} AssembledByIndex(parse: string -> Option<Json>, ds: seq<Delta>, n: nat)
    returns (at: seq<nat>)
    requires forall k :: 0 <= k < |ds| ==> ds[k].index < n
    ensures ByIndex(parse, ds, n, Assembled(parse, ds), at)
  {
    BoundWithin(ds, n);
    NothingAbove(parse, ds, n);
    at := CallsByIndex(parse, ds, n);
  }

  lemma {:induction false} BoundWithin(ds: seq<Delta>, n: nat)
    requires forall k :: 0 <= k < |ds| ==> ds[k].index < n
    ensures IndexBound(ds) <= n
  {
    if ds != [] { BoundWithin(ds[..|ds| - 1], n); }
  }

  // ----- Only the order within an index matters -----

  lemma {:induction false} BoundIsBound(ds: seq<Delta>, i: nat)
    requires i >= IndexBound(ds)
    ensures OfIndex(ds, i) == []
  {
    if ds != [] { BoundIsBound(ds[..|ds| - 1], i); }
  }

  lemma {:induction false} NothingBetween(parse: string -> Option<Json>, ds: seq<Delta>, m: nat, n: nat)
    requires m <= n && forall i: nat :: m <= i < n ==> OfIndex(ds, i) == []
    ensures CallsBelow(parse, ds, n) == CallsBelow(parse, ds, m)
    decreases n
  {
    NoDeltaNoCall(parse);
    hide OfIndex, Fold, Finish;
    if m < n { NothingBetween(parse, ds, m, n - 1); }
  }

  lemma {:induction false} NothingAbove(parse: string -> Option<Json>, ds: seq<Delta>, n: nat)
    requires n >= IndexBound(ds)
    ensures CallsBelow(parse, ds, n) == Assembled(parse, ds)
  {
    hide OfIndex, CallsBelow;
    forall i: nat | IndexBound(ds) <= i < n ensures OfIndex(ds, i) == [] { BoundIsBound(ds, i); }
    NothingBetween(parse, ds, IndexBound(ds), n);
  }

  lemma {:induction false} SameBelow(parse: string -> Option<Json>, a: seq<Delta>, b: seq<Delta>, n: nat)
    requires forall i: nat :: OfIndex(a, i) == OfIndex(b, i)
    ensures CallsBelow(parse, a, n) == CallsBelow(parse, b, n)
  {
    hide OfIndex, Fold, Finish;
    if n > 0 { SameBelow(parse, a, b, n - 1); }
  }

  /** However the deltas of different indices are interleaved, the calls are the same. */
  lemma {:induction false} InterleavingIsIrrelevant(parse: string -> Option<Json>, a: seq<Delta>, b: seq<Delta>)
    requires forall i: nat :: OfIndex(a, i) == OfIndex(b, i)
    ensures Assembled(parse, a) == Assembled(parse, b)
  {
    var n := Max(IndexBound(a), IndexBound(b));
    SameBelow(parse, a, b, n);
    NothingAbove(parse, a, n);
    NothingAbove(parse, b, n);
  }

  // ----- Round trip -----

  datatype Indexed = Indexed(index: nat, call: ToolCall)

  function Text(ds: seq<Delta>): string {
    if ds == [] then ""
    else
      var d := ds[|ds| - 1];
      Text(ds[..|ds| - 1]) + if d.fragment.Some? then d.fragment.value else ""
  }

  /** The deltas carry the call's id and name at least once, and no other id or name, and the
      pieces of its arguments in order; empty-object arguments may go without any piece. */
  ghost predicate Splits(serialize: Json -> string, ds: seq<Delta>, c: ToolCall) {
    && (forall k :: 0 <= k < |ds| ==> ds[k].id in {None, Some(c.id)} && ds[k].name in {None, Some(c.name)})
    && (exists k :: 0 <= k < |ds| && ds[k].id == Some(c.id))
    && (exists k :: 0 <= k < |ds| && ds[k].name == Some(c.name))
    && (Text(ds) == serialize(c.args) || (Text(ds) == "" && c.args == EMPTY_OBJECT))
  }

  lemma {:induction false} FoldOfSplit(ds: seq<Delta>, id: string, name: string)
    requires forall k :: 0 <= k < |ds| ==> ds[k].id in {None, Some(id)} && ds[k].name in {None, Some(name)}
    ensures var e := Fold(ds);
            && e.args == Text(ds)
            && e.id == (if exists k :: 0 <= k < |ds| && ds[k].id == Some(id) then Some(id) else None)
            && e.name == (if exists k :: 0 <= k < |ds| && ds[k].name == Some(name) then Some(name) else None)
  {
    if ds != [] {
      FoldOfSplit(ds[..|ds| - 1], id, name);
      InitLast(ds);
    }
  }

  /** `ds` streams exactly these calls, each cut into pieces under its own index. */
  ghost predicate Streams(serialize: Json -> string, ds: seq<Delta>, calls: seq<Indexed>) {
    && (forall c :: c in calls ==> Splits(serialize, OfIndex(ds, c.index), c.call))
    && forall i: nat :: (forall c :: c in calls ==> c.index != i) ==> OfIndex(ds, i) == []
  }

  ghost predicate Ascending(calls: seq<Indexed>) {
    forall j, k :: 0 <= j < k < |calls| ==> calls[j].index < calls[k].index
  }

  ghost predicate Distinct(calls: seq<Indexed>) {
    forall j, k :: 0 <= j < k < |calls| ==> calls[j].index != calls[k].index
  }

  function CallsOf(calls: seq<Indexed>): seq<ToolCall> {
    if calls == [] then [] else CallsOf(calls[..|calls| - 1]) + [calls[|calls| - 1].call]
  }

  ghost predicate RoundTrips(serialize: Json -> string, parse: string -> Option<Json>) {
    forall v :: serialize(v) != "" && parse(serialize(v)) == Some(v)
  }

  lemma {:induction false} SplitFinishes(
      serialize: Json -> string, parse: string -> Option<Json>, ds: seq<Delta>, c: ToolCall)
    requires RoundTrips(serialize, parse) && Splits(serialize, ds, c)
    ensures Finish(parse, Fold(ds)) == [c]
  {
    FoldOfSplit(ds, c.id, c.name);
    hide Fold, Text;
    assert Arguments(parse, serialize(c.args)) == c.args;
  }

  lemma {:induction false} AscendingCallsBelow(
      serialize: Json -> string, parse: string -> Option<Json>, ds: seq<Delta>, calls: seq<Indexed>, n: nat, k: nat)
    requires RoundTrips(serialize, parse) && Streams(serialize, ds, calls) && Ascending(calls)
    requires k <= |calls| && forall j :: 0 <= j < |calls| ==> (calls[j].index < n <==> j < k)
    ensures CallsBelow(parse, ds, n) == CallsOf(calls[..k])
    decreases n
  {
    hide Splits, RoundTrips, OfIndex, Fold, Finish, CallsOf;
    if n == 0 {
      assert calls[..k] == [] && CallsOf([]) == [] by { CallsOfOnce(calls, 0); }
    } else if k > 0 && calls[k - 1].index == n - 1 {
      var c := calls[k - 1];
      AscendingCallsBelow(serialize, parse, ds, calls, n - 1, k - 1);
      assert c in calls;
      SplitFinishes(serialize, parse, OfIndex(ds, n - 1), c.call);
      CallsOfOnce(calls, k);
    } else {
      AscendingCallsBelow(serialize, parse, ds, calls, n - 1, k);
      assert OfIndex(ds, n - 1) == [];
      NoDeltaNoCall(parse);
    }
  }

  lemma {:induction false} CallsOfOnce(calls: seq<Indexed>, k: nat)
    requires k <= |calls|
    ensures k > 0 ==> CallsOf(calls[..k]) == CallsOf(calls[..k - 1]) + [calls[k - 1].call]
    ensures CallsOf([]) == []
  {
    if k > 0 { assert calls[..k][..k - 1] == calls[..k - 1]; }
  }

  lemma {:induction false} NoDeltaNoCall(parse: string -> Option<Json>)
    ensures Finish(parse, Fold([])) == []
  {
  }

  // ----- The order of the calls given -----

  function Insert(c: Indexed, calls: seq<Indexed>): (r: seq<Indexed>)
    ensures multiset(r) == multiset(calls) + multiset{c}
  {
    if calls == [] then [c]
    else
      assert calls == [calls[0]] + calls[1..];
      if c.index <= calls[0].index then [c] + calls else [calls[0]] + Insert(c, calls[1..])
  }

  function SortByIndex(calls: seq<Indexed>): (r: seq<Indexed>)
    ensures multiset(r) == multiset(calls)
  {
    if calls == [] then []
    else
      assert calls == [calls[0]] + calls[1..];
      Insert(calls[0], SortByIndex(calls[1..]))
  }

  lemma {:induction false} SameMembers(a: seq<Indexed>, b: seq<Indexed>)
    requires multiset(a) == multiset(b)
    ensures forall c :: c in a <==> c in b
  {
    forall c ensures c in a <==> c in b {
      assert c in a <==> c in multiset(a);
      assert c in b <==> c in multiset(b);
    }
  }

  lemma {:induction false} AscendingCons(c: Indexed, rest: seq<Indexed>)
    requires Ascending(rest) && forall d :: d in rest ==> c.index < d.index
    ensures Ascending([c] + rest)
  {
  }

  lemma {:induction false} InsertAscending(c: Indexed, calls: seq<Indexed>)
    requires Ascending(calls) && forall d :: d in calls ==> d.index != c.index
    ensures Ascending(Insert(c, calls))
  {
    if calls != [] && calls[0].index < c.index {
      var tail := calls[1..];
      InsertAscending(c, tail);
      SameMembers(Insert(c, tail), [c] + tail);
      assert forall d :: d in tail ==> calls[0].index < d.index;
      hide Ascending, Insert;
      AscendingCons(calls[0], Insert(c, tail));
      InsertPast(c, calls);
    } else if calls != [] {
      AscendingCons(c, calls);
    }
  }

  lemma {:induction false} InsertPast(c: Indexed, calls: seq<Indexed>)
    requires calls != [] && calls[0].index < c.index
    ensures Insert(c, calls) == [calls[0]] + Insert(c, calls[1..])
  {
  }

  lemma {:induction false} SortAscending(calls: seq<Indexed>)
    requires Distinct(calls)
    ensures Ascending(SortByIndex(calls))
  {
    if calls != [] {
      var rest := calls[1..];
      SortAscending(rest);
      SameMembers(SortByIndex(rest), rest);
      forall d | d in SortByIndex(rest) ensures d.index != calls[0].index {
        var k :| 0 <= k < |rest| && rest[k] == d;
        assert calls[k + 1] == d;
      }
      InsertAscending(calls[0], SortByIndex(rest));
    }
  }

  /** Cut calls with distinct indices into pieces, interleave the pieces in any way that keeps
      each index's own order: the calls come back, sorted by index. */
  lemma {:induction false} ReassemblyRoundTrip(
      serialize: Json -> string, parse: string -> Option<Json>, ds: seq<Delta>, calls: seq<Indexed>)
    requires RoundTrips(serialize, parse) && Distinct(calls) && Streams(serialize, ds, calls)
    ensures Assembled(parse, ds) == CallsOf(SortByIndex(calls))
  {
    var sorted := SortByIndex(calls);
    SortAscending(calls);
    SameMembers(sorted, calls);
    var n := CallBound(sorted, IndexBound(ds));
    AscendingCallsBelow(serialize, parse, ds, sorted, n, |sorted|);
    assert sorted[..|sorted|] == sorted;
    NothingAbove(parse, ds, n);
  }

  function CallBound(calls: seq<Indexed>, m: nat): (n: nat)
    ensures n >= m && forall k :: 0 <= k < |calls| ==> calls[k].index < n
  {
    if calls == [] then m
    else
      var last := |calls| - 1;
      var before := CallBound(calls[..last], m);
      assert forall k :: 0 <= k < last ==> calls[k] == calls[..last][k];
      Max(before, calls[last].index + 1)
  }
}
