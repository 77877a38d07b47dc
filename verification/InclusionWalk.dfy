/** The bottom-up walk of section 2.1.3.2 of RFC 9162, the algorithm the verifier runs:
    two bit counters, fnode for the leaf's position and sn for the last leaf's, are shifted
    right once per sibling. Proved equal to the recursive fold of RFC 6962. */
module InclusionWalk {
  import opened Prelude
  import opened MerkleTree

  /** The inner shift loop: drop trailing zero bits of fnode, shifting sn along. */
  function StripZeros(fnode: nat, sn: nat): (p: (nat, nat))
    ensures p.0 <= fnode && p.1 <= sn
    ensures fnode <= sn ==> p.0 <= p.1
    ensures fnode > 0 ==> p.0 % 2 == 1
    ensures fnode == sn ==> p.0 == p.1
  {
    if fnode % 2 == 0 && fnode != 0 then StripZeros(fnode / 2, sn / 2) else (fnode, sn)
  }

  predicate SiblingOnLeft(fnode: nat, sn: nat) { fnode % 2 == 1 || fnode == sn }

  /** The counters after one sibling. */
  function NextNode(fnode: nat, sn: nat): (p: (nat, nat))
    ensures p.0 <= fnode / 2 && p.1 <= sn / 2
    ensures fnode <= sn ==> p.0 <= p.1
  {
    var (f, s) := if SiblingOnLeft(fnode, sn) then StripZeros(fnode, sn) else (fnode, sn);
    (f / 2, s / 2)
  }

  function NextDigest(H: Hasher, r: Digest, fnode: nat, sn: nat, p: Digest): Digest {
    if SiblingOnLeft(fnode, sn) then NodeHash(H, p, r) else NodeHash(H, r, p)
  }

  /** The whole walk. */
  function Walk(H: Hasher, r: Digest, fnode: nat, sn: nat, path: seq<Digest>): Folded
    decreases |path|
  {
    if path == [] then (if sn == 0 then Root(r) else TooShort)
    else if sn == 0 then TooLong
    else
      var (f, s) := NextNode(fnode, sn);
      Walk(H, NextDigest(H, r, fnode, sn, path[0]), f, s, path[1..])
  }

  lemma {:induction false} WalkOneMore(H: Hasher, r: Digest, fnode: nat, sn: nat, below: seq<Digest>, top: Digest)
    ensures sn == 0 ==> Walk(H, r, fnode, sn, below + [top]) == TooLong
    ensures sn > 0 && below != [] ==>
              Walk(H, r, fnode, sn, below + [top]) ==
              Walk(H, NextDigest(H, r, fnode, sn, below[0]), NextNode(fnode, sn).0, NextNode(fnode, sn).1,
                below[1..] + [top])
    ensures sn > 0 && below == [] ==>
              Walk(H, r, fnode, sn, below + [top]) ==
              if NextNode(fnode, sn).1 == 0 then Root(NextDigest(H, r, fnode, sn, top)) else TooShort
  {
    var path := below + [top];
    if below == [] {
      assert path[1..] == [];
    } else {
      assert path[1..] == below[1..] + [top];
    }
  }

  /** Outside a run of right-edge nodes a step is one shift. */
  lemma {:induction false} PlainShift(f: nat, s: nat)
    requires f % 2 == 1 || f != s
    ensures NextNode(f, s) == (f / 2, s / 2)
  {
  }

  function SiblingAfter(H: Hasher, inner: Folded, top: Digest): Folded {
    if inner.Root? then Root(NodeHash(H, inner.digest, top)) else inner
  }

  function SiblingBefore(H: Hasher, inner: Folded, top: Digest): Folded {
    if inner.Root? then Root(NodeHash(H, top, inner.digest)) else inner
  }

  /** Leaf in the left half of 2^e leaves: the walk never notices the right half until the
      topmost sibling, which it hashes on the right. */
  lemma {:induction false} LeftSubtree(H: Hasher, r: Digest, f: nat, s: nat, e: nat, below: seq<Digest>, top: Digest)
    requires f < Pow2(e) <= s < 2 * Pow2(e)
    ensures Walk(H, r, f, s, below + [top]) == SiblingAfter(H, Walk(H, r, f, Pow2(e) - 1, below), top)
    decreases |below|
  {
    WalkOneMore(H, r, f, s, below, top);
    if e == 0 {
      if below != [] { WalkOneMore(H, NextDigest(H, r, f, s, below[0]), 0, 0, below[1..], top); }
    } else {
      hide NextNode, SiblingOnLeft, Pow2;
      HalveLeft(f, s, e);
      if below != [] { LeftSubtree(H, NextDigest(H, r, f, s, below[0]), f / 2, s / 2, e - 1, below[1..], top); }
    }
  }

  lemma {:induction false} HalveLeft(f: nat, s: nat, e: nat)
    requires e > 0 && f < Pow2(e) <= s < 2 * Pow2(e)
    ensures f / 2 < Pow2(e - 1) <= s / 2 < 2 * Pow2(e - 1)
    ensures NextNode(f, s) == (f / 2, s / 2) && NextNode(f, Pow2(e) - 1) == (f / 2, Pow2(e - 1) - 1)
    ensures SiblingOnLeft(f, s) == SiblingOnLeft(f, Pow2(e) - 1)
  {
    PlainShift(f, s);
    PlainShift(f, Pow2(e) - 1);
  }

  /** Leaf in the right half: bit e is set in both counters until the topmost sibling, which
      is hashed on the left even when the run of right-edge nodes below it is skipped. */
  lemma {:induction false} RightSubtree(H: Hasher, r: Digest, f: nat, s: nat, e: nat, below: seq<Digest>, top: Digest)
    requires f <= s < Pow2(e)
    ensures Walk(H, r, Pow2(e) + f, Pow2(e) + s, below + [top]) == SiblingBefore(H, Walk(H, r, f, s, below), top)
    decreases |below|
  {
    hide NextNode, SiblingOnLeft, StripZeros;
    WalkOneMore(H, r, Pow2(e) + f, Pow2(e) + s, below, top);
    if s == 0 {
      StripPower(e);
      if below != [] { WalkOneMore(H, NextDigest(H, r, Pow2(e), Pow2(e), below[0]), 0, 0, below[1..], top); }
    } else {
      var e' := NextWithBit(f, s, e);
      if below != [] {
        RightSubtree(H, NextDigest(H, r, f, s, below[0]), NextNode(f, s).0, NextNode(f, s).1, e', below[1..], top);
      }
    }
  }

  /** The walk computes what the recursive fold computes: same digest, and the same
      too-long and too-short verdicts, for every hash, leaf, position, size and path. */
  lemma {:induction false} WalkIsFold(H: Hasher, r: Digest, m: nat, n: nat, path: seq<Digest>)
    requires m < n
    ensures Walk(H, r, m, n - 1, path) == FoldTopDown(H, r, m, n, path)
    decreases n, 1
  {
    if n > 1 && path != [] {
      InitLast(path);
      WalkIsFoldAtTop(H, r, m, n, path[..|path| - 1], path[|path| - 1]);
    }
  }

  lemma {:induction false} WalkIsFoldAtTop(H: Hasher, r: Digest, m: nat, n: nat, below: seq<Digest>, top: Digest)
    requires m < n && n > 1
    ensures Walk(H, r, m, n - 1, below + [top]) == FoldTopDown(H, r, m, n, below + [top])
    decreases n, 0
  {
    hide Walk, FoldTopDown;
    var e := SplitExponent(n);
    WalkIsFold(H, r, HalfIndex(m, n), HalfSize(m, n), below);
    FoldLast(H, r, m, n, below, top);
    if InLeft(m, n) {
      LeftSubtree(H, r, m, n - 1, e, below, top);
    } else {
      RightSubtree(H, r, m - Pow2(e), n - 1 - Pow2(e), e, below, top);
    }
  }

  lemma {:induction false} StripPower(e: nat)
    ensures StripZeros(Pow2(e), Pow2(e)) == (1, 1)
    ensures NextNode(Pow2(e), Pow2(e)) == (0, 0) && SiblingOnLeft(Pow2(e), Pow2(e))
  {
    if e > 0 { StripPower(e - 1); }
  }

  /** One step with bit e set in both counters is one step without it, plus a lower bit. */
  lemma {:induction false} NextWithBit(f: nat, s: nat, e: nat) returns (e': nat)
    requires f <= s < Pow2(e) && s > 0
    ensures NextNode(Pow2(e) + f, Pow2(e) + s) == (Pow2(e') + NextNode(f, s).0, Pow2(e') + NextNode(f, s).1)
    ensures NextNode(f, s).1 < Pow2(e')
    ensures SiblingOnLeft(Pow2(e) + f, Pow2(e) + s) == SiblingOnLeft(f, s)
  {
    hide StripZeros;
    HalveWithBit(Pow2(e), Pow2(e - 1), f);
    var t := e;
    if SiblingOnLeft(f, s) { t := StripWithBit(f, s, e); }
    e' := t - 1;
    var (f', s') := if SiblingOnLeft(f, s) then StripZeros(f, s) else (f, s);
    HalveWithBit(Pow2(t), Pow2(e'), f');
    HalveWithBit(Pow2(t), Pow2(e'), s');
  }

  /** Halving with a doubled bit added. */
  lemma {:induction false} HalveWithBit(p: nat, q: nat, f: nat)
    requires p == 2 * q
    ensures (p + f) / 2 == q + f / 2 && (p + f) % 2 == f % 2
  {
  }

  lemma {:induction false} StripOnce(f: nat, s: nat)
    requires f > 0
    ensures StripZeros(f, s) == if f % 2 == 0 then StripZeros(f / 2, s / 2) else (f, s)
  {
  }

  lemma {:induction false} StripWithBit(f: nat, s: nat, e: nat) returns (t: nat)
    requires 0 < f <= s < Pow2(e)
    ensures t > 0 && StripZeros(f, s).1 < Pow2(t)
    ensures StripZeros(Pow2(e) + f, Pow2(e) + s).0 == Pow2(t) + StripZeros(f, s).0
    ensures StripZeros(Pow2(e) + f, Pow2(e) + s).1 == Pow2(t) + StripZeros(f, s).1
  {
    Pow2Halves(e);
    hide StripZeros, Pow2;
    StripOnce(f, s);
    StripOnce(Pow2(e) + f, Pow2(e) + s);
    HalveWithBit(Pow2(e), Pow2(e - 1), f);
    if f % 2 == 0 {
      HalveWithBit(Pow2(e), Pow2(e - 1), s);
      t := StripWithBit(f / 2, s / 2, e - 1);
    } else {
      t := e;
    }
  }

  lemma {:induction false} Pow2Halves(e: nat)
    ensures if e == 0 then Pow2(e) == 1 else Pow2(e) == 2 * Pow2(e - 1)
  {
  }
}
