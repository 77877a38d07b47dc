/** PII spans: validated candidates, sorted by (start, longest first), resolved greedily, and
    the text rewritten span by span. The regular expressions are oracles returning spans. */
module Pii {
  import opened Prelude
  import Luhn

  datatype Kind = Email | Phone | Ipv4 | AwsKey | Jwt | Ssn | CreditCard

  function Label(k: Kind): string {
    match k
    case Email => "EMAIL"
    case Phone => "PHONE"
    case Ipv4 => "IPV4"
    case AwsKey => "AWS_KEY"
    case Jwt => "JWT"
    case Ssn => "SSN"
    case CreditCard => "CREDIT_CARD"
  }

  datatype Hit = Hit(kind: Kind, start: nat, end: nat)

  /** What the matchers may return: any spans of the text, in any order. */
  ghost predicate InText(input: string, hits: seq<Hit>) {
    forall i :: 0 <= i < |hits| ==> hits[i].start <= hits[i].end <= |input|
  }

  predicate Validated(input: string, h: Hit)
    requires h.start <= h.end <= |input|
  {
    h.kind == CreditCard ==> Luhn.Accepts(input[h.start..h.end])
  }

  /** The candidates that pass their validator, in the order found. */
  function Candidates(input: string, found: seq<Hit>): seq<Hit>
    requires InText(input, found)
  {
    if found == [] then []
    else
      var n := |found| - 1;
      var before := Candidates(input, found[..n]);
      if Validated(input, found[n]) then before + [found[n]] else before
  }

  // ----- Sorting -----

  /** Earlier start first; at the same start, longer first. */
  predicate Before(a: Hit, b: Hit) {
    a.start < b.start || (a.start == b.start && a.end > b.end)
  }

  ghost predicate Sorted(hits: seq<Hit>) {
    forall i, j :: 0 <= i < j < |hits| ==> !Before(hits[j], hits[i])
  }

  /** The hits with the same sort key as `key`, in order. */
  function SameKey(hits: seq<Hit>, key: Hit): seq<Hit> {
    if hits == [] then []
    else
      var h := hits[|hits| - 1];
      SameKey(hits[..|hits| - 1], key) + if h.start == key.start && h.end == key.end then [h] else []
  }

  /** h goes behind everything that is not after it: the sort is stable. */
  function Insert(sorted: seq<Hit>, h: Hit): seq<Hit> {
    if sorted == [] then [h]
    else
      var n := |sorted| - 1;
      if Before(h, sorted[n]) then Insert(sorted[..n], h) + [sorted[n]] else sorted + [h]
  }

  function Sort(hits: seq<Hit>): seq<Hit> {
    if hits == [] then [] else Insert(Sort(hits[..|hits| - 1]), hits[|hits| - 1])
  }

  lemma {:induction false} InsertKeeps(sorted: seq<Hit>, h: Hit)
    ensures multiset(Insert(sorted, h)) == multiset(sorted) + multiset{h}
  {
    if sorted != [] {
      var n := |sorted| - 1;
      InsertKeeps(sorted[..n], h);
      InitLast(sorted);
    }
  }

  lemma {:induction false} InsertSorts(sorted: seq<Hit>, h: Hit)
    requires Sorted(sorted)
    ensures Sorted(Insert(sorted, h))
    ensures |Insert(sorted, h)| == |sorted| + 1
    ensures forall k :: 0 <= k <= |sorted| ==> Insert(sorted, h)[k] == h || Insert(sorted, h)[k] in sorted
  {
    if sorted != [] {
      var n := |sorted| - 1;
      if Before(h, sorted[n]) {
        InsertSorts(sorted[..n], h);
        hide Insert;
      }
    }
  }

  lemma {:induction false} InsertStable(sorted: seq<Hit>, h: Hit, key: Hit)
    requires Sorted(sorted)
    ensures SameKey(Insert(sorted, h), key) == SameKey(sorted + [h], key)
  {
    assert (sorted + [h])[..|sorted|] == sorted;
    if sorted != [] {
      var n := |sorted| - 1;
      if Before(h, sorted[n]) {
        var init := Insert(sorted[..n], h);
        InsertStable(sorted[..n], h, key);
        assert (init + [sorted[n]])[..|init|] == init;
        assert (sorted[..n] + [h])[..n] == sorted[..n];
      }
    }
  }

  /** Sorted, a permutation, and stable. */
  lemma {:induction false} SortSorts(hits: seq<Hit>, key: Hit)
    ensures Sorted(Sort(hits)) && multiset(Sort(hits)) == multiset(hits)
    ensures SameKey(Sort(hits), key) == SameKey(hits, key)
  {
    if hits != [] {
      var n := |hits| - 1;
      var init, h := hits[..n], hits[n];
      SortSorts(init, key);
      InsertKeeps(Sort(init), h);
      InsertSorts(Sort(init), h);
      InsertStable(Sort(init), h, key);
      InitLast(hits);
      assert (Sort(init) + [h])[..|Sort(init)|] == Sort(init);
      hide Sorted, Insert;
    }
  }

  // ----- Resolution -----

  datatype Kept = Kept(out: seq<Hit>, cursor: nat)

  /** The first n sorted hits: each is kept if it starts at or after the end of the last kept one. */
  function Resolve(hits: seq<Hit>, n: nat): Kept
    requires n <= |hits|
  {
    if n == 0 then Kept([], 0)
    else
      var before, h := Resolve(hits, n - 1), hits[n - 1];
      if h.start >= before.cursor then Kept(before.out + [h], h.end) else before
  }

  function Detected(input: string, found: seq<Hit>): seq<Hit>
    requires InText(input, found)
  {
    var sorted := Sort(Candidates(input, found));
    Resolve(sorted, |sorted|).out
  }

  method Detect(input: string, found: seq<Hit>) returns (out: seq<Hit>)
    requires InText(input, found)
    ensures out == Detected(input, found)
  {
    var hits: seq<Hit> := [];
    for k := 0 to |found|
      invariant hits == Candidates(input, found[..k])
    {
      assert found[..k + 1][..k] == found[..k];
      var ok := true;
      if found[k].kind == CreditCard { ok := Luhn.LuhnCheck(input[found[k].start..found[k].end]); }
      if ok { hits := hits + [found[k]]; }
    }
    assert found[..|found|] == found;
    hits := Sort(hits);
    out := [];
    var cursor := 0;
    for n := 0 to |hits|
      invariant Resolve(hits, n) == Kept(out, cursor)
    {
      if hits[n].start >= cursor {
        cursor := hits[n].end;
        out := out + [hits[n]];
      }
    }
  }

  /** What detection may keep: a span that is a Luhn number if it was found as a card number. */
  ghost predicate Admissible(input: string, h: Hit) {
    && h.start <= h.end <= |input|
    && (h.kind != CreditCard || Luhn.IsLuhnNumber(input[h.start..h.end]))
  }

  lemma {:induction false} ValidatedIsAdmissible(input: string, h: Hit)
    requires h.start <= h.end <= |input|
    ensures Validated(input, h) <==> Admissible(input, h)
  {
    Luhn.AcceptsLuhnNumbers(input[h.start..h.end]);
    hide Luhn.Accepts, Luhn.IsLuhnNumber;
  }

  /** h was found before any other admissible hit of the same span. */
  ghost predicate FoundFirst(input: string, found: seq<Hit>, h: Hit) {
    exists i ::
      && 0 <= i < |found| && found[i] == h
      && forall j :: 0 <= j < i && Admissible(input, found[j]) ==> found[j].start != h.start || found[j].end != h.end
  }

  ghost predicate Disjoint(hits: seq<Hit>) {
    forall i, j :: 0 <= i < j < |hits| ==> hits[i].end <= hits[j].start
  }

  /** h is kept, or it starts inside a kept hit that starts no later and, from the same start,
      is at least as long. */
  ghost predicate Accounted(kept: seq<Hit>, h: Hit) {
    || h in kept
    || exists k ::
         && 0 <= k < |kept| && kept[k].start <= h.start < kept[k].end
         && (kept[k].start == h.start ==> kept[k].end >= h.end)
  }

  /** Kept hits are disjoint, in order, and come from the sorted hits; the last one ends at the cursor. */
  lemma {:induction false} ResolveKeeps(input: string, hits: seq<Hit>, n: nat)
    requires InText(input, hits) && n <= |hits|
    ensures var r := Resolve(hits, n);
            && Disjoint(r.out) && InText(input, r.out)
            && r.cursor == (if r.out == [] then 0 else r.out[|r.out| - 1].end)
            && (forall k :: 0 <= k < |r.out| ==> r.out[k].end <= r.cursor && r.out[k] in hits[..n])
  {
    if n > 0 {
      ResolveKeeps(input, hits, n - 1);
      assert hits[..n] == hits[..n - 1] + [hits[n - 1]];
    }
  }

  lemma {:induction false} AccountedGrows(kept: seq<Hit>, more: seq<Hit>, h: Hit)
    requires Accounted(kept, h)
    ensures Accounted(kept + more, h)
  {
    if h !in kept {
      var k :| 0 <= k < |kept| && kept[k].start <= h.start < kept[k].end
        && (kept[k].start == h.start ==> kept[k].end >= h.end);
      assert (kept + more)[k] == kept[k];
    }
  }

  lemma {:induction false} DroppedIsAccounted(input: string, hits: seq<Hit>, n: nat)
    requires InText(input, hits) && Sorted(hits) && 0 < n <= |hits|
    ensures Accounted(Resolve(hits, n).out, hits[n - 1])
  {
    var before, h := Resolve(hits, n - 1), hits[n - 1];
    ResolveKeeps(input, hits, n - 1);
    if h.start < before.cursor {
      var last := before.out[|before.out| - 1];
      var j :| 0 <= j < n - 1 && hits[..n - 1][j] == last;
      assert !Before(h, hits[j]);
    }
  }

  lemma {:induction false} AllAccounted(input: string, hits: seq<Hit>, n: nat)
    requires InText(input, hits) && Sorted(hits) && n <= |hits|
    ensures forall j :: 0 <= j < n ==> Accounted(Resolve(hits, n).out, hits[j])
  {
    if n > 0 {
      AllAccounted(input, hits, n - 1);
      var before, after := Resolve(hits, n - 1).out, Resolve(hits, n).out;
      assert after == before + if hits[n - 1].start >= Resolve(hits, n - 1).cursor then [hits[n - 1]] else [];
      DroppedIsAccounted(input, hits, n);
      forall j | 0 <= j < n - 1 ensures Accounted(after, hits[j]) {
        AccountedGrows(before, after[|before|..], hits[j]);
      }
      hide Accounted, Sorted, InText;
    }
  }

  lemma {:induction false} CandidatesOf(input: string, found: seq<Hit>)
    requires InText(input, found)
    ensures InText(input, Candidates(input, found))
    ensures forall h: Hit :: h in Candidates(input, found) <==>
            h in found && h.start <= h.end <= |input| && Validated(input, h)
  {
    if found != [] {
      CandidatesOf(input, found[..|found| - 1]);
      InitLast(found);
      hide Validated;
    }
  }

  // ----- Of hits with one span, the first found -----

  /** The cursor is past the start of every hit seen that is not empty, so of the hits with one
      span only the first can be kept. */
  lemma {:induction false} CursorIsPast(input: string, hits: seq<Hit>, n: nat)
    requires InText(input, hits) && n <= |hits|
    ensures forall j :: 0 <= j < n && hits[j].start < hits[j].end ==> hits[j].start < Resolve(hits, n).cursor
  {
    if n > 0 { CursorIsPast(input, hits, n - 1); }
  }

  ghost predicate FirstOfItsSpan(hits: seq<Hit>, m: int, h: Hit) {
    && 0 <= m < |hits| && hits[m] == h
    && forall j :: 0 <= j < m ==> hits[j].start != h.start || hits[j].end != h.end
  }

  lemma {:induction false} KeptIsFirst(input: string, hits: seq<Hit>, n: nat, h: Hit)
    requires InText(input, hits) && n <= |hits| && h in Resolve(hits, n).out && h.start < h.end
    ensures exists m :: FirstOfItsSpan(hits, m, h)
  {
    if h in Resolve(hits, n - 1).out {
      KeptIsFirst(input, hits, n - 1, h);
    } else {
      CursorIsPast(input, hits, n - 1);
      assert FirstOfItsSpan(hits, n - 1, h);
    }
  }

  lemma {:induction false} FirstHeadsItsKey(hits: seq<Hit>, m: int, h: Hit)
    requires FirstOfItsSpan(hits, m, h)
    ensures SameKey(hits, h) != [] && SameKey(hits, h)[0] == h
  {
    var n := |hits| - 1;
    if m < n {
      assert FirstOfItsSpan(hits[..n], m, h);
      FirstHeadsItsKey(hits[..n], m, h);
    } else {
      NoneOfItsKey(hits[..n], h);
    }
  }

  lemma {:induction false} NoneOfItsKey(hits: seq<Hit>, h: Hit)
    requires forall j :: 0 <= j < |hits| ==> hits[j].start != h.start || hits[j].end != h.end
    ensures SameKey(hits, h) == []
  {
    if hits != [] { NoneOfItsKey(hits[..|hits| - 1], h); }
  }

  lemma {:induction false} HeadWasFoundFirst(input: string, found: seq<Hit>, h: Hit)
    requires InText(input, found)
    requires SameKey(Candidates(input, found), h) != [] && SameKey(Candidates(input, found), h)[0] == h
    ensures FoundFirst(input, found, h)
  {
    var n := |found| - 1;
    if found != [] {
      var init := found[..n];
      var before := Candidates(input, init);
      assert (before + [found[n]])[..|before|] == before;
      if SameKey(before, h) != [] {
        HeadWasFoundFirst(input, init, h);
        FoundEarlier(input, found, h);
      } else {
        NoAdmissibleOfItsKey(input, init, h);
        hide Admissible, Candidates;
        assert found[n] == h;
        assert forall j :: 0 <= j < n ==> found[j] == init[j];
      }
    }
  }

  lemma {:induction false} FoundEarlier(input: string, found: seq<Hit>, h: Hit)
    requires found != [] && FoundFirst(input, found[..|found| - 1], h)
    ensures FoundFirst(input, found, h)
  {
    hide Admissible;
    var init := found[..|found| - 1];
    assert forall j :: 0 <= j < |init| ==> found[j] == init[j];
  }

  lemma {:induction false} SameKeyOneMore(hits: seq<Hit>, last: Hit, h: Hit)
    ensures SameKey(hits + [last], h) ==
            SameKey(hits, h) + if last.start == h.start && last.end == h.end then [last] else []
  {
    assert (hits + [last])[..|hits|] == hits;
  }

  lemma {:induction false} NoAdmissibleOfItsKey(input: string, found: seq<Hit>, h: Hit)
    requires InText(input, found) && SameKey(Candidates(input, found), h) == []
    ensures forall j :: 0 <= j < |found| && Admissible(input, found[j]) ==>
              found[j].start != h.start || found[j].end != h.end
  {
    if found != [] {
      var n := |found| - 1;
      var before := Candidates(input, found[..n]);
      SameKeyOneMore(before, found[n], h);
      hide SameKey, Admissible;
      NoAdmissibleOfItsKey(input, found[..n], h);
      ValidatedIsAdmissible(input, found[n]);
      hide Validated, Candidates;
      assert forall j :: 0 <= j < n ==> found[j] == found[..n][j];
    }
  }

  /** Whatever spans the matchers return: the hits are disjoint and in order; each was found, is
      admissible and, unless empty, is the first found of its span; and every admissible hit left
      out starts inside a kept one that starts before it or is at least as long. */
  lemma {:induction false} DetectionResolves(input: string, found: seq<Hit>)
    requires InText(input, found)
    ensures var out := Detected(input, found);
            && Disjoint(out) && InText(input, out)
            && (forall k :: 0 <= k < |out| ==> out[k] in found && Admissible(input, out[k]))
            && (forall k :: 0 <= k < |out| && out[k].start < out[k].end ==> FoundFirst(input, found, out[k]))
            && (forall h: Hit :: h in found && Admissible(input, h) ==> Accounted(out, h))
  {
    hide *;
    DetectionAccounts(input, found);
    var out := Detected(input, found);
    forall k | 0 <= k < |out| && out[k].start < out[k].end ensures FoundFirst(input, found, out[k]) {
      KeptWasFoundFirst(input, found, out[k]);
    }
    forall h: Hit | h in found ensures h.start <= h.end <= |input| { FoundInText(input, found, h); }
    forall h: Hit | h.start <= h.end <= |input| ensures Validated(input, h) <==> Admissible(input, h) {
      ValidatedIsAdmissible(input, h);
    }
  }

  lemma {:induction false} FoundInText(input: string, found: seq<Hit>, h: Hit)
    requires InText(input, found) && h in found
    ensures h.start <= h.end <= |input|
  {
  }

  lemma {:induction false} KeptWasFoundFirst(input: string, found: seq<Hit>, h: Hit)
    requires InText(input, found) && h in Detected(input, found) && h.start < h.end
    ensures FoundFirst(input, found, h)
  {
    var c := Candidates(input, found);
    var sorted := Sort(c);
    CandidatesOf(input, found);
    SortSorts(c, h);
    SameHits(sorted, c);
    hide Sort, Candidates, Resolve, Sorted, Validated, SameKey, FoundFirst;
    KeptIsFirst(input, sorted, |sorted|, h);
    var m :| FirstOfItsSpan(sorted, m, h);
    FirstHeadsItsKey(sorted, m, h);
    HeadWasFoundFirst(input, found, h);
  }

  lemma {:induction false} DetectionAccounts(input: string, found: seq<Hit>)
    requires InText(input, found)
    ensures var out := Detected(input, found);
            && Disjoint(out) && InText(input, out)
            && (forall k :: 0 <= k < |out| ==>
                  && out[k] in found && out[k].start <= out[k].end <= |input| && Validated(input, out[k]))
            && (forall h: Hit :: h in found && h.start <= h.end <= |input| && Validated(input, h) ==> Accounted(out, h))
  {
    var c, key := Candidates(input, found), Hit(Email, 0, 0);
    var sorted := Sort(c);
    CandidatesOf(input, found);
    SortSorts(c, key);
    SameHits(sorted, c);
    hide Sort, Candidates, Resolve, Sorted, Validated, Accounted;
    ResolveKeeps(input, sorted, |sorted|);
    AllAccounted(input, sorted, |sorted|);
    assert sorted[..|sorted|] == sorted;
  }

  lemma {:induction false} SameHits(a: seq<Hit>, b: seq<Hit>)
    requires multiset(a) == multiset(b)
    ensures forall h :: h in a <==> h in b
    ensures forall input :: InText(input, b) ==> InText(input, a)
  {
    forall h ensures h in a <==> h in b {
      assert h in a <==> h in multiset(a);
      assert h in b <==> h in multiset(b);
    }
    forall input | InText(input, b) ensures InText(input, a) {
      forall i | 0 <= i < |a| ensures a[i].start <= a[i].end <= |input| {
        assert a[i] in b;
      }
    }
  }
}
