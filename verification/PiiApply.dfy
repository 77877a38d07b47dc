/** Rewriting the detected spans of a text, and what the rewriting leaves alone. */
module PiiApply {
  import opened Pii

  datatype Transform = Mask | HashSha256 | Redact

  function Stars(n: nat): (s: string)
    ensures |s| == n && forall k :: 0 <= k < n ==> s[k] == '*'
  {
    if n == 0 then "" else Stars(n - 1) + "*"
  }

  /** The text of a hit. */
  function Raw(input: string, h: Hit): string {
    if h.start <= h.end <= |input| then input[h.start..h.end] else ""
  }

  /** `digest` is the hex SHA-256 of a text. */
  function Replacement(t: Transform, digest: string -> string, input: string, h: Hit): string {
    match t
    case Mask => Stars(|Raw(input, h)|)
    case HashSha256 => digest(Raw(input, h))
    case Redact => "[REDACTED:" + Label(h.kind) + "]"
  }

  function EndOf(hits: seq<Hit>, n: nat): nat
    requires n <= |hits|
  {
    if n == 0 then 0 else hits[n - 1].end
  }

  /** The text up to the end of the n-th hit, with `x` put in place of each hit: the gaps between
      the hits are copied in order, whatever `x` is. */
  function Fill(input: string, hits: seq<Hit>, x: Hit -> string, n: nat): string
    requires Disjoint(hits) && InText(input, hits) && n <= |hits|
  {
    if n == 0 then ""
    else Fill(input, hits, x, n - 1) + input[EndOf(hits, n - 1)..hits[n - 1].start] + x(hits[n - 1])
  }

  function FillAll(input: string, hits: seq<Hit>, x: Hit -> string): string
    requires Disjoint(hits) && InText(input, hits)
  {
    Fill(input, hits, x, |hits|) + input[EndOf(hits, |hits|)..]
  }

  // ----- The same from the right, replacement by replacement -----

  /** Replacing the last hit first: everything behind it stays, everything before it is spliced
      next. No text is copied piece by piece. */
  ghost function Splice(input: string, hits: seq<Hit>, texts: seq<string>): string
    requires |texts| == |hits| && Disjoint(hits) && InText(input, hits)
    decreases |hits|
  {
    if hits == [] then input
    else
      var n := |hits| - 1;
      Splice(input[..hits[n].start], hits[..n], texts[..n]) + texts[n] + input[hits[n].end..]
  }

  /** What stands in place of a hit. */
  ghost predicate Replaces(t: Transform, digest: string -> string, input: string, h: Hit, text: string)
    requires h.start <= h.end <= |input|
  {
    match t
    case Mask => |text| == h.end - h.start && forall k :: 0 <= k < |text| ==> text[k] == '*'
    case HashSha256 => text == digest(input[h.start..h.end])
    case Redact =>
      text == match h.kind
        case Email => "[REDACTED:EMAIL]"
        case Phone => "[REDACTED:PHONE]"
        case Ipv4 => "[REDACTED:IPV4]"
        case AwsKey => "[REDACTED:AWS_KEY]"
        case Jwt => "[REDACTED:JWT]"
        case Ssn => "[REDACTED:SSN]"
        case CreditCard => "[REDACTED:CREDIT_CARD]"
  }

  lemma {:induction false} ReplacementReplaces(t: Transform, digest: string -> string, input: string, h: Hit)
    requires h.start <= h.end <= |input|
    ensures Replaces(t, digest, input, h, Replacement(t, digest, input, h))
  {
    hide Stars;
  }

  /** Filling the first n hits is splicing the text before hit n. */
  lemma {:induction false} FillIsSplice(
      input: string, hits: seq<Hit>, x: Hit -> string, n: nat, texts: seq<string>, end: nat)
    requires Disjoint(hits) && InText(input, hits) && n <= |hits| == |texts|
    requires forall i :: 0 <= i < n ==> texts[i] == x(hits[i])
    requires EndOf(hits, n) <= end <= |input|
    ensures Disjoint(hits[..n]) && InText(input[..end], hits[..n])
    ensures Fill(input, hits, x, n) + input[EndOf(hits, n)..end] == Splice(input[..end], hits[..n], texts[..n])
  {
    if n > 0 {
      var m, h := n - 1, hits[n - 1];
      EndsBefore(input, hits, n, end);
      FillIsSplice(input, hits, x, m, texts, h.start);
      SpliceOnce(input, hits, texts, n, end);
      FillOnce(input, hits, x, n);
      hide Fill, Splice, Disjoint, InText, EndOf;
      assert EndOf(hits, n) == h.end by { EndsBefore(input, hits, n, end); }
    } else {
      assert Fill(input, hits, x, 0) == "";
      assert input[0..end] == input[..end];
      hide Disjoint;
    }
  }

  lemma {:induction false} FillOnce(input: string, hits: seq<Hit>, x: Hit -> string, n: nat)
    requires Disjoint(hits) && InText(input, hits) && 0 < n <= |hits|
    ensures EndOf(hits, n - 1) <= hits[n - 1].start <= |input|
    ensures Fill(input, hits, x, n) ==
            (Fill(input, hits, x, n - 1) + input[EndOf(hits, n - 1)..hits[n - 1].start]) + x(hits[n - 1])
  {
  }

  lemma {:induction false} EndsBefore(input: string, hits: seq<Hit>, n: nat, end: nat)
    requires Disjoint(hits) && InText(input, hits) && 0 < n <= |hits| && EndOf(hits, n) <= end <= |input|
    ensures EndOf(hits, n) == hits[n - 1].end && EndOf(hits, n - 1) <= hits[n - 1].start <= hits[n - 1].end <= end
    ensures Disjoint(hits[..n]) && InText(input[..end], hits[..n])
    ensures Disjoint(hits[..n - 1]) && InText(input[..hits[n - 1].start], hits[..n - 1])
  {
  }

  lemma {:induction false} SpliceOnce(input: string, hits: seq<Hit>, texts: seq<string>, n: nat, end: nat)
    requires 0 < n <= |hits| == |texts| && hits[n - 1].start <= hits[n - 1].end <= end <= |input|
    requires Disjoint(hits[..n]) && InText(input[..end], hits[..n])
    requires Disjoint(hits[..n - 1]) && InText(input[..hits[n - 1].start], hits[..n - 1])
    ensures var h := hits[n - 1];
            Splice(input[..end], hits[..n], texts[..n]) ==
            (Splice(input[..h.start], hits[..n - 1], texts[..n - 1]) + texts[n - 1]) + input[h.end..end]
  {
    var h := hits[n - 1];
    assert hits[..n][..n - 1] == hits[..n - 1] && texts[..n][..n - 1] == texts[..n - 1];
    assert input[..end][..h.start] == input[..h.start] && input[..end][h.end..] == input[h.end..end];
  }

  /** The output is the text with every detected hit replaced, by a text that is as it should be. */
  ghost predicate IsRewritten(
      input: string, hits: seq<Hit>, t: Transform, digest: string -> string, texts: seq<string>, out: string)
  {
    && Disjoint(hits) && InText(input, hits) && |texts| == |hits|
    && (forall i :: 0 <= i < |hits| ==> Replaces(t, digest, input, hits[i], texts[i]))
    && out == Splice(input, hits, texts)
  }

  lemma {:induction false} FilledIsRewritten(input: string, hits: seq<Hit>, t: Transform, digest: string -> string)
    returns (texts: seq<string>)
    requires Disjoint(hits) && InText(input, hits)
    ensures IsRewritten(input, hits, t, digest, texts, FillAll(input, hits, h => Replacement(t, digest, input, h)))
  {
    var x := h => Replacement(t, digest, input, h);
    texts := seq(|hits|, i requires 0 <= i < |hits| => x(hits[i]));
    forall i | 0 <= i < |hits| ensures Replaces(t, digest, input, hits[i], texts[i]) {
      ReplacementReplaces(t, digest, input, hits[i]);
    }
    hide Replacement, Replaces, Fill, Splice;
    FillIsSplice(input, hits, x, |hits|, texts, |input|);
    assert input[..|input|] == input && hits[..|hits|] == hits && texts[..|hits|] == texts;
    assert input[EndOf(hits, |hits|)..|input|] == input[EndOf(hits, |hits|)..];
  }

  method Apply(input: string, found: seq<Hit>, t: Transform, digest: string -> string) returns (out: string)
    requires InText(input, found)
    ensures var hits := Detected(input, found);
            && Disjoint(hits) && InText(input, hits)
            && out == FillAll(input, hits, h => Replacement(t, digest, input, h))
            && exists texts :: IsRewritten(input, hits, t, digest, texts, out)
  {
    var hits := Detect(input, found);
    DetectionResolves(input, found);
    ghost var texts := FilledIsRewritten(input, hits, t, digest);
    hide Detected, IsRewritten, Replacement, Disjoint;
    if hits == [] {
      assert input[0..] == input;
      return input;
    }
    out := Rewrite(input, hits, t, digest);
  }

  method Rewrite(input: string, hits: seq<Hit>, t: Transform, digest: string -> string) returns (out: string)
    requires Disjoint(hits) && InText(input, hits)
    ensures out == FillAll(input, hits, h => Replacement(t, digest, input, h))
  {
    hide Label, Stars;
    var x := h => Replacement(t, digest, input, h);
    out := "";
    var cursor := 0;
    for n := 0 to |hits|
      invariant cursor == EndOf(hits, n)
      invariant out == Fill(input, hits, x, n)
    {
      var hit := hits[n];
      var gap := input[cursor..hit.start];
      var raw := input[hit.start..hit.end];
      var put;
      match t {
        case Mask => put := Stars(|raw|);
        case HashSha256 => put := digest(raw);
        case Redact => put := "[REDACTED:" + Label(hit.kind) + "]";
      }
      assert put == x(hit);
      out := out + gap + put;
      cursor := hit.end;
    }
    out := out + input[cursor..];
  }

  // ----- What stays -----

  lemma {:induction false} FillsBack(input: string, hits: seq<Hit>, n: nat)
    requires Disjoint(hits) && InText(input, hits) && n <= |hits|
    ensures Fill(input, hits, h => Raw(input, h), n) == input[..EndOf(hits, n)]
  {
    if n > 0 {
      FillsBack(input, hits, n - 1);
      ThreeParts(input, EndOf(hits, n - 1), hits[n - 1].start, hits[n - 1].end);
    }
  }

  lemma {:induction false} ThreeParts(s: string, a: nat, b: nat, c: nat)
    requires a <= b <= c <= |s|
    ensures s[..a] + s[a..b] + s[b..c] == s[..c]
  {
  }

  /** Put every hit back in its own place and the text is what it was: rewriting changes the
      hits and nothing else. */
  lemma {:induction false} OutsideIsKept(input: string, hits: seq<Hit>)
    requires Disjoint(hits) && InText(input, hits)
    ensures FillAll(input, hits, h => Raw(input, h)) == input
  {
    FillsBack(input, hits, |hits|);
  }

  ghost predicate Inside(hits: seq<Hit>, n: nat, k: nat)
    requires n <= |hits|
  {
    exists i :: 0 <= i < n && hits[i].start <= k < hits[i].end
  }

  /** `out` is the text up to the n-th hit with the hits starred. */
  ghost predicate Masked(input: string, hits: seq<Hit>, n: nat, out: string)
    requires InText(input, hits) && n <= |hits|
  {
    && |out| == EndOf(hits, n)
    && forall k: nat :: k < |out| ==> out[k] == if Inside(hits, n, k) then '*' else input[k]
  }

  lemma {:induction false} MaskOne(input: string, hits: seq<Hit>, n: nat, before: string)
    requires Disjoint(hits) && InText(input, hits) && 0 < n <= |hits| && Masked(input, hits, n - 1, before)
    ensures var h := hits[n - 1];
            Masked(input, hits, n, before + input[EndOf(hits, n - 1)..h.start] + Stars(h.end - h.start))
  {
    var h := hits[n - 1];
    var gap, stars := input[EndOf(hits, n - 1)..h.start], Stars(h.end - h.start);
    var out := before + gap + stars;
    forall k: nat | k < |out| ensures out[k] == if Inside(hits, n, k) then '*' else input[k] {
      InsideOnce(input, hits, n, k);
      hide Inside, Disjoint, InText;
      if k < |before| {
        assert out[k] == before[k];
      } else if k < h.start {
        assert out[k] == gap[k - |before|];
      } else {
        assert out[k] == stars[k - h.start];
      }
    }
  }

  lemma {:induction false} MaskTo(input: string, hits: seq<Hit>, x: Hit -> string, n: nat)
    requires Disjoint(hits) && InText(input, hits) && n <= |hits|
    requires forall i :: 0 <= i < |hits| ==> x(hits[i]) == Stars(hits[i].end - hits[i].start)
    ensures Masked(input, hits, n, Fill(input, hits, x, n))
  {
    if n > 0 {
      MaskTo(input, hits, x, n - 1);
      hide Masked, Inside, Disjoint, InText, Stars;
      MaskOne(input, hits, n, Fill(input, hits, x, n - 1));
    }
  }

  lemma {:induction false} InsideOnce(input: string, hits: seq<Hit>, n: nat, k: nat)
    requires Disjoint(hits) && InText(input, hits) && 0 < n <= |hits|
    ensures Inside(hits, n, k) <==> Inside(hits, n - 1, k) || hits[n - 1].start <= k < hits[n - 1].end
    ensures k >= EndOf(hits, n - 1) ==> !Inside(hits, n - 1, k)
    ensures k < EndOf(hits, n - 1) ==> k < hits[n - 1].start
  {
    if k >= EndOf(hits, n - 1) { NothingBeyond(input, hits, n - 1, k); }
  }

  lemma {:induction false} NothingBeyond(input: string, hits: seq<Hit>, n: nat, k: nat)
    requires Disjoint(hits) && InText(input, hits) && n <= |hits| && k >= EndOf(hits, n)
    ensures !Inside(hits, n, k)
  {
    forall i | 0 <= i < n ensures hits[i].end <= k {
      if i < n - 1 { assert hits[i].end <= hits[n - 1].start <= hits[n - 1].end; }
    }
  }

  /** Masking keeps every character in its place and stars exactly the hits. */
  lemma {:induction false} MaskStarsTheHits(input: string, digest: string -> string, hits: seq<Hit>)
    requires Disjoint(hits) && InText(input, hits)
    ensures var out := FillAll(input, hits, h => Replacement(Mask, digest, input, h));
            && |out| == |input|
            && forall k: nat :: k < |out| ==> out[k] == if Inside(hits, |hits|, k) then '*' else input[k]
  {
    MaskTo(input, hits, h => Replacement(Mask, digest, input, h), |hits|);
    hide Fill, Replacement, Inside;
    forall k: nat | EndOf(hits, |hits|) <= k < |input| ensures !Inside(hits, |hits|, k) {
      NothingBeyond(input, hits, |hits|, k);
    }
  }
}
