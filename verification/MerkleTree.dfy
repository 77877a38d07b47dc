/** The Merkle hash tree of RFC 6962: tree hash (section 2.1) and audit path (section 2.1.1).

    SHA-256 is a parameter: any function from byte strings to 32-byte digests. Nothing is
    assumed about it, so "the proof is sound" is always stated "or here is a collision". */
module MerkleTree {
  import opened Prelude

  type Digest = d: seq<byte> | |d| == 32 witness seq(32, _ => 0)

  type Hasher = seq<byte> -> Digest

  function LeafHash(H: Hasher, body: seq<byte>): Digest { H([0] + body) }

  function NodeHash(H: Hasher, left: Digest, right: Digest): Digest { H([1] + left + right) }

  /** The exponent of the largest power of two strictly below n. */
  function SplitExponent(n: nat): (e: nat)
    requires n >= 2
    ensures Pow2(e) < n <= 2 * Pow2(e)
  {
    if n == 2 then 0 else 1 + SplitExponent((n + 1) / 2)
  }

  function Split(n: nat): (k: nat)
    requires n >= 2
    ensures 0 < k < n <= 2 * k
  {
    Pow2(SplitExponent(n))
  }

  /** MTH(D[n]) of section 2.1, for a non-empty list. */
  function TreeHash(H: Hasher, D: seq<seq<byte>>): Digest
    requires |D| > 0
    decreases |D|
  {
    if |D| == 1 then LeafHash(H, D[0])
    else NodeHash(H, TreeHash(H, D[..Split(|D|)]), TreeHash(H, D[Split(|D|)..]))
  }

  /** Whether leaf m sits in the left half of a tree of n leaves. */
  predicate InLeft(m: nat, n: nat)
    requires m < n && n >= 2
  {
    m < Split(n)
  }

  /** Size of the half that holds leaf m, and the leaf's index there. */
  function HalfSize(m: nat, n: nat): (k: nat)
    requires m < n && n >= 2
    ensures 0 < k < n
  {
    if InLeft(m, n) then Split(n) else n - Split(n)
  }

  function HalfIndex(m: nat, n: nat): (i: nat)
    requires m < n && n >= 2
    ensures i < HalfSize(m, n)
  {
    if InLeft(m, n) then m else m - Split(n)
  }

  /** The half of D that holds leaf m, and the other half. */
  function Half(m: nat, D: seq<seq<byte>>): (half: seq<seq<byte>>)
    requires m < |D| && |D| >= 2
    ensures |half| == HalfSize(m, |D|) && half[HalfIndex(m, |D|)] == D[m]
  {
    if InLeft(m, |D|) then D[..Split(|D|)] else D[Split(|D|)..]
  }

  function OtherHalf(m: nat, D: seq<seq<byte>>): (half: seq<seq<byte>>)
    requires m < |D| && |D| >= 2
    ensures |half| > 0
  {
    if InLeft(m, |D|) then D[Split(|D|)..] else D[..Split(|D|)]
  }

  /** Joins the digest of leaf m's half with its sibling's, in tree order. */
  function Join(H: Hasher, m: nat, n: nat, inner: Digest, sibling: Digest): Digest
    requires m < n && n >= 2
  {
    if InLeft(m, n) then NodeHash(H, inner, sibling) else NodeHash(H, sibling, inner)
  }

  /** PATH(m, D[n]) of section 2.1.1, bottom-up. */
  function AuditPath(H: Hasher, m: nat, D: seq<seq<byte>>): (path: seq<Digest>)
    requires m < |D|
    ensures |path| == PathLength(m, |D|)
    decreases |D|
  {
    if |D| == 1 then []
    else AuditPath(H, HalfIndex(m, |D|), Half(m, D)) + [TreeHash(H, OtherHalf(m, D))]
  }

  /** The equations of sections 2.1 and 2.1.1, as the RFC writes them: a leaf is hashed after a
      zero byte, two subtrees after a one byte; k is the largest power of two below n. */
  lemma {:induction false} TreeIsRfc6962(H: Hasher, m: nat, D: seq<seq<byte>>, e: nat, k: nat)
    requires m < |D|
    ensures |D| == 1 ==> TreeHash(H, D) == H([0] + D[0]) && AuditPath(H, m, D) == []
    ensures k == Pow2(e) && k < |D| <= 2 * k ==>
              && TreeHash(H, D) == H([1] + TreeHash(H, D[..k]) + TreeHash(H, D[k..]))
              && AuditPath(H, m, D) ==
                 if m < k then AuditPath(H, m, D[..k]) + [TreeHash(H, D[k..])]
                 else AuditPath(H, m - k, D[k..]) + [TreeHash(H, D[..k])]
  {
    hide *;
    if |D| == 1 { OneLeaf(H, m, D); }
    if k == Pow2(e) && k < |D| <= 2 * k {
      SplitIsUnique(|D|, e);
      TreeHashOnce(H, D);
      AuditPathOnce(H, m, D);
      HalvesAt(m, D, k);
    }
  }

  lemma {:induction false} OneLeaf(H: Hasher, m: nat, D: seq<seq<byte>>)
    requires m < |D| == 1
    ensures TreeHash(H, D) == H([0] + D[0]) && AuditPath(H, m, D) == []
  {
  }

  lemma {:induction false} HalvesAt(m: nat, D: seq<seq<byte>>, k: nat)
    requires m < |D| && |D| >= 2 && Split(|D|) == k && k < |D|
    ensures m < k ==> Half(m, D) == D[..k] && OtherHalf(m, D) == D[k..] && HalfIndex(m, |D|) == m
    ensures m >= k ==> Half(m, D) == D[k..] && OtherHalf(m, D) == D[..k] && HalfIndex(m, |D|) == m - k
  {
    hide Split;
  }

  lemma {:induction false} TreeHashOnce(H: Hasher, D: seq<seq<byte>>)
    requires |D| >= 2
    ensures TreeHash(H, D) == H([1] + TreeHash(H, D[..Split(|D|)]) + TreeHash(H, D[Split(|D|)..]))
  {
    hide Split;
  }

  lemma {:induction false} SplitIsUnique(n: nat, e: nat)
    requires Pow2(e) < n <= 2 * Pow2(e)
    ensures n >= 2 && Split(n) == Pow2(e)
  {
    var s := SplitExponent(n);
    hide SplitExponent;
    Pow2Ordered(e, s);
    Pow2Ordered(s, e);
  }

  function PathLength(m: nat, n: nat): nat
    requires m < n
    decreases n
  {
    if n == 1 then 0 else PathLength(HalfIndex(m, n), HalfSize(m, n)) + 1
  }

  /** A path in a tree of at most 2^e leaves has at most e siblings (64 for a u64 size). */
  lemma {:induction false} PathLengthBound(m: nat, n: nat, e: nat)
    requires m < n <= Pow2(e)
    ensures PathLength(m, n) <= e
    decreases n
  {
    if n >= 2 {
      assert e > 0;
      Pow2Ordered(SplitExponent(n), e - 1);
      PathLengthBound(HalfIndex(m, n), HalfSize(m, n), e - 1);
    }
  }

  lemma {:induction false} Pow2Ordered(a: nat, b: nat)
    requires Pow2(a) < 2 * Pow2(b)
    ensures a <= b && Pow2(a) <= Pow2(b)
  {
    if a > 0 && b > 0 { Pow2Ordered(a - 1, b - 1); }
  }

  /** What folding a sibling list over a leaf hash can give. */
  datatype Folded = TooLong | TooShort | Root(digest: Digest)

  /** The reference verifier: undo section 2.1.1 by its own recursion, taking the last
      (topmost) sibling off and folding the rest inside the half that holds the leaf. */
  function FoldTopDown(H: Hasher, r: Digest, m: nat, n: nat, path: seq<Digest>): Folded
    requires m < n
    decreases n
  {
    if n == 1 then (if path == [] then Root(r) else TooLong)
    else if path == [] then TooShort
    else JoinFolded(H, m, n, FoldTopDown(H, r, HalfIndex(m, n), HalfSize(m, n), path[..|path| - 1]), path[|path| - 1])
  }

  function JoinFolded(H: Hasher, m: nat, n: nat, inner: Folded, sibling: Digest): Folded
    requires m < n && n >= 2
  {
    if inner.Root? then Root(Join(H, m, n, inner.digest, sibling)) else inner
  }

  /** Shape exactness: which of the three outcomes occurs depends on lengths alone, and
      exactly one length survives, the audit path's. */
  lemma {:induction false} FoldShape(H: Hasher, r: Digest, m: nat, n: nat, path: seq<Digest>)
    requires m < n
    ensures FoldTopDown(H, r, m, n, path).TooLong? <==> |path| > PathLength(m, n)
    ensures FoldTopDown(H, r, m, n, path).TooShort? <==> |path| < PathLength(m, n)
    ensures FoldTopDown(H, r, m, n, path).Root? <==> |path| == PathLength(m, n)
    decreases n
  {
    if n > 1 && path != [] {
      FoldShape(H, r, HalfIndex(m, n), HalfSize(m, n), path[..|path| - 1]);
    }
  }

  lemma {:induction false} FoldLast(H: Hasher, r: Digest, m: nat, n: nat, below: seq<Digest>, top: Digest)
    requires m < n && n > 1
    ensures FoldTopDown(H, r, m, n, below + [top]) ==
            JoinFolded(H, m, n, FoldTopDown(H, r, HalfIndex(m, n), HalfSize(m, n), below), top)
  {
    var path := below + [top];
    assert path[..|path| - 1] == below;
  }

  // ----- A claimed index and size against a list of any size -----

  /** Which half of D a turn selects, and the other one. */
  function Turn(left: bool, D: seq<seq<byte>>): (half: seq<seq<byte>>)
    requires |D| >= 2
    ensures 0 < |half| < |D|
  {
    if left then D[..Split(|D|)] else D[Split(|D|)..]
  }

  /** The left and right turns that lead to leaf m of n leaves, taken in a tree of `size` leaves:
      the leaf they end at, or None when they run out too early or too late. */
  function Reached(m: nat, n: nat, size: nat): (k: Option<nat>)
    requires m < n && size > 0
    ensures k.Some? ==> k.value < size
    decreases n
  {
    if n == 1 || size == 1 then (if n == size then Some(0) else None)
    else if InLeft(m, n) then Reached(HalfIndex(m, n), HalfSize(m, n), Split(size))
    else
      var k := Reached(HalfIndex(m, n), HalfSize(m, n), size - Split(size));
      if k.Some? then Some(k.value + Split(size)) else None
  }

  /** In a tree of the claimed size they end at the claimed leaf. */
  lemma {:induction false} ReachedAtItsSize(m: nat, n: nat)
    requires m < n
    ensures Reached(m, n, n) == Some(m)
    decreases n
  {
    hide Split;
    if n > 1 {
      var i, k := HalfIndex(m, n), HalfSize(m, n);
      ReachedAtItsSize(i, k);
      assert Reached(i, k, k) == Some(i);
    }
  }

  /** One turn: the claim and the reached leaf go the same way. */
  lemma {:induction false} ReachedOnce(m: nat, n: nat, D: seq<seq<byte>>)
    requires m < n && n >= 2 && |D| >= 2 && Reached(m, n, |D|).Some?
    ensures var k, left := Reached(m, n, |D|).value, InLeft(m, n);
            && InLeft(k, |D|) == left
            && Half(k, D) == Turn(left, D) && OtherHalf(k, D) == Turn(!left, D)
            && Reached(HalfIndex(m, n), HalfSize(m, n), |Turn(left, D)|) == Some(HalfIndex(k, |D|))
  {
  }

  /** Completeness: the entry the claim reaches, with its audit path, folds to the tree hash. */
  lemma {:induction false} FoldComplete(H: Hasher, m: nat, n: nat, D: seq<seq<byte>>)
    requires m < n && |D| > 0 && Reached(m, n, |D|).Some?
    ensures var k := Reached(m, n, |D|).value;
            FoldTopDown(H, LeafHash(H, D[k]), m, n, AuditPath(H, k, D)) == Root(TreeHash(H, D))
    decreases n
  {
    if n >= 2 {
      var k, i, half := Reached(m, n, |D|).value, HalfIndex(m, n), Turn(InLeft(m, n), D);
      ReachedOnce(m, n, D);
      FoldComplete(H, i, HalfSize(m, n), half);
      FoldLast(H, LeafHash(H, D[k]), m, n, AuditPath(H, HalfIndex(k, |D|), half), TreeHash(H, Turn(!InLeft(m, n), D)));
      TreeHashJoin(H, m, n, D);
    }
  }

  lemma {:induction false} TreeHashJoin(H: Hasher, m: nat, n: nat, D: seq<seq<byte>>)
    requires m < n && n >= 2 && |D| >= 2
    ensures TreeHash(H, D) == Join(H, m, n, TreeHash(H, Turn(InLeft(m, n), D)), TreeHash(H, Turn(!InLeft(m, n), D)))
  {
  }

  predicate IsCollision(H: Hasher, pair: (seq<byte>, seq<byte>)) {
    pair.0 != pair.1 && H(pair.0) == H(pair.1)
  }

  function LeafString(body: seq<byte>): seq<byte> { [0] + body }

  /** The string hashed at the node above leaf m's half. */
  function JoinString(m: nat, n: nat, inner: Digest, sibling: Digest): seq<byte>
    requires m < n && n >= 2
  {
    if InLeft(m, n) then [1] + inner + sibling else [1] + sibling + inner
  }

  /** Where a fold and the tree D part company: walks down from the root and stops at the first
      node whose two children are not the ones D has there, or where one of the two is already
      a leaf, giving the two strings hashed at that node. */
  function Divergence(H: Hasher, body: seq<byte>, m: nat, n: nat, D: seq<seq<byte>>, path: seq<Digest>)
    : (seq<byte>, seq<byte>)
    requires m < n && |D| > 0 && |path| == PathLength(m, n)
    decreases n
  {
    if n == 1 then
      (LeafString(body),
       if |D| == 1 then LeafString(D[0]) else [1] + TreeHash(H, Turn(true, D)) + TreeHash(H, Turn(false, D)))
    else
      var i, size := HalfIndex(m, n), HalfSize(m, n);
      var below, top := path[..|path| - 1], path[|path| - 1];
      var inner := FoldedDigest(H, body, i, size, below);
      if |D| == 1 then (JoinString(m, n, inner, top), LeafString(D[0]))
      else
        var half := Turn(InLeft(m, n), D);
        var inner', top' := TreeHash(H, half), TreeHash(H, Turn(!InLeft(m, n), D));
        if inner == inner' && top == top' then Divergence(H, body, i, size, half, below)
        else (JoinString(m, n, inner, top), JoinString(m, n, inner', top'))
  }

  function FoldedDigest(H: Hasher, body: seq<byte>, m: nat, n: nat, path: seq<Digest>): (d: Digest)
    requires m < n && |path| == PathLength(m, n)
    ensures FoldTopDown(H, LeafHash(H, body), m, n, path) == Root(d)
  {
    FoldShape(H, LeafHash(H, body), m, n, path);
    FoldTopDown(H, LeafHash(H, body), m, n, path).digest
  }

  /** Body and path are those of the entry of D that the claim (m, n) reaches. */
  ghost predicate Genuine(H: Hasher, body: seq<byte>, m: nat, n: nat, D: seq<seq<byte>>, path: seq<Digest>)
    requires m < n && |D| > 0
  {
    var k := Reached(m, n, |D|);
    k.Some? && body == D[k.value] && path == AuditPath(H, k.value, D)
  }

  /** Soundness: if a body and a path fold to the tree hash of a list D of any size, then they
      are those of the entry the claim reaches, or `Divergence` computes a collision of H. */
  lemma {:induction false} FoldSound(H: Hasher, body: seq<byte>, m: nat, n: nat, D: seq<seq<byte>>, path: seq<Digest>)
    requires m < n && |D| > 0 && |path| == PathLength(m, n)
    requires FoldedDigest(H, body, m, n, path) == TreeHash(H, D)
    ensures Genuine(H, body, m, n, D, path) || IsCollision(H, Divergence(H, body, m, n, D, path))
    decreases n
  {
    if n == 1 {
      ClaimEndsAtALeaf(H, body, m, D, path);
    } else if |D| == 1 {
      ListEndsAtALeaf(H, body, m, n, D, path);
    } else {
      var i, size, half := HalfIndex(m, n), HalfSize(m, n), Turn(InLeft(m, n), D);
      var below, top := path[..|path| - 1], path[|path| - 1];
      var inner, inner' := FoldedDigest(H, body, i, size, below), TreeHash(H, half);
      var top' := TreeHash(H, Turn(!InLeft(m, n), D));
      assert Join(H, m, n, inner, top) == Join(H, m, n, inner', top') by { TreeHashJoin(H, m, n, D); }
      if inner == inner' && top == top' {
        FoldSound(H, body, i, size, half, below);
        hide TreeHash, Reached, IsCollision, Turn, AuditPath;
        if Genuine(H, body, i, size, half, below) {
          GenuineAbove(H, m, n, D);
          InitLast(path);
        }
      } else {
        JoinInjective(m, n, inner, top, inner', top');
        hide Genuine, TreeHash, Turn;
      }
    }
  }

  lemma {:induction false} ClaimEndsAtALeaf(H: Hasher, body: seq<byte>, m: nat, D: seq<seq<byte>>, path: seq<Digest>)
    requires m < 1 && |D| > 0 && path == [] && LeafHash(H, body) == TreeHash(H, D)
    ensures Genuine(H, body, m, 1, D, path) || IsCollision(H, Divergence(H, body, m, 1, D, path))
  {
    if |D| == 1 {
      LeafInjective(body, D[0]);
    } else {
      assert LeafString(body)[0] == 0;
    }
    hide Split, Turn;
  }

  lemma {:induction false} ListEndsAtALeaf(
      H: Hasher, body: seq<byte>, m: nat, n: nat, D: seq<seq<byte>>, path: seq<Digest>)
    requires m < n && n >= 2 && |D| == 1 && |path| == PathLength(m, n)
    requires FoldedDigest(H, body, m, n, path) == TreeHash(H, D)
    ensures IsCollision(H, Divergence(H, body, m, n, D, path))
  {
    assert JoinString(m, n, FoldedDigest(H, body, HalfIndex(m, n), HalfSize(m, n), path[..|path| - 1]),
      path[|path| - 1])[0] == 1;
    assert LeafString(D[0])[0] == 0;
    hide InLeft, Split, Reached, Turn;
  }

  lemma {:induction false} AuditPathOnce(H: Hasher, k: nat, D: seq<seq<byte>>)
    requires k < |D| && |D| >= 2
    ensures AuditPath(H, k, D) == AuditPath(H, HalfIndex(k, |D|), Half(k, D)) + [TreeHash(H, OtherHalf(k, D))]
  {
  }

  /** One level up the entry reached is the same, and its path has one more sibling. */
  lemma {:induction false} GenuineAbove(H: Hasher, m: nat, n: nat, D: seq<seq<byte>>)
    requires m < n && n >= 2 && |D| >= 2 && Reached(HalfIndex(m, n), HalfSize(m, n), |Turn(InLeft(m, n), D)|).Some?
    ensures Reached(m, n, |D|).Some?
    ensures var half := Turn(InLeft(m, n), D);
            var i, k := Reached(HalfIndex(m, n), HalfSize(m, n), |half|).value, Reached(m, n, |D|).value;
            && D[k] == half[i]
            && AuditPath(H, k, D) == AuditPath(H, i, half) + [TreeHash(H, Turn(!InLeft(m, n), D))]
  {
    ReachedHalf(m, n, D);
    ReachedOnce(m, n, D);
    AuditPathOnce(H, Reached(m, n, |D|).value, D);
    hide TreeHash, AuditPath, Reached, Split, InLeft, Turn;
  }

  lemma {:induction false} ReachedHalf(m: nat, n: nat, D: seq<seq<byte>>)
    requires m < n && n >= 2 && |D| >= 2
    ensures Reached(m, n, |D|).Some? <==> Reached(HalfIndex(m, n), HalfSize(m, n), |Turn(InLeft(m, n), D)|).Some?
  {
  }

  lemma {:induction false} LeafInjective(body: seq<byte>, body': seq<byte>)
    ensures LeafString(body) == LeafString(body') ==> body == body'
  {
    assert LeafString(body)[1..] == body && LeafString(body')[1..] == body';
  }

  lemma {:induction false} JoinInjective(
      m: nat, n: nat, inner: Digest, sibling: Digest, inner': Digest, sibling': Digest)
    requires m < n && n >= 2
    ensures JoinString(m, n, inner, sibling) == JoinString(m, n, inner', sibling') ==>
            inner == inner' && sibling == sibling'
  {
    PairInjective(inner, sibling, inner', sibling');
    PairInjective(sibling, inner, sibling', inner');
  }

  lemma {:induction false} PairInjective(l: Digest, r: Digest, l': Digest, r': Digest)
    ensures [1] + l + r == [1] + l' + r' ==> l == l' && r == r'
  {
    var s, s' := [1] + l + r, [1] + l' + r';
    assert s[1..33] == l && s'[1..33] == l' && s[33..] == r && s'[33..] == r';
  }
}
