/** `verify_rekor_inclusion`: index checks, decoding, the bit walk, the root comparison. */
module RekorInclusion {
  import opened Prelude
  import opened MerkleTree
  import opened InclusionWalk

  /** The fields of `RekorEntry` and `RekorInclusionProof` the verification reads. */
  datatype Entry = Entry(logIndex: nat, canonicalizedBody: string)

  datatype Proof = Proof(hashesHex: seq<string>, treeSize: nat, logIndex: nat, rootHashHex: string)

  /** The trimming base64 and hex decoders, as parameters. */
  datatype Codecs = Codecs(base64: string -> Option<seq<byte>>, hex: string -> Option<seq<byte>>)

  datatype InclusionError =
    | IndexMismatch
    | IndexOutOfRange
    | BodyBase64
    | PathHex
    | PathHashLength
    | ProofTooLong
    | ProofTooShort
    | RootHex
    | RootMismatch

  /** The sibling list, decoded left to right: it decodes exactly when every item is the hex of
      32 bytes. */
  function DecodePath(codecs: Codecs, hashesHex: seq<string>): (r: Result<seq<Digest>, InclusionError>)
    ensures r.Ok? <==> forall i :: 0 <= i < |hashesHex| ==>
              codecs.hex(hashesHex[i]).Some? && |codecs.hex(hashesHex[i]).value| == 32
    ensures r.Ok? ==> |r.value| == |hashesHex|
    ensures r.Ok? ==> forall i :: 0 <= i < |hashesHex| ==> codecs.hex(hashesHex[i]) == Some(r.value[i])
  {
    if hashesHex == [] then Ok([])
    else
      match codecs.hex(hashesHex[0])
      case None => Err(PathHex)
      case Some(raw) =>
        if |raw| != 32 then Err(PathHashLength)
        else
          var rest := DecodePath(codecs, hashesHex[1..]);
          if rest.Ok? then Ok([raw] + rest.value) else rest
  }

  /** The first bad item decides the error: what is not hex, or else is not 32 bytes long. */
  lemma {:induction false} FirstBadItem(codecs: Codecs, hashesHex: seq<string>) returns (i: nat)
    requires DecodePath(codecs, hashesHex).Err?
    ensures i < |hashesHex|
    ensures forall j :: 0 <= j < i ==> codecs.hex(hashesHex[j]).Some? && |codecs.hex(hashesHex[j]).value| == 32
    ensures match codecs.hex(hashesHex[i])
            case None => DecodePath(codecs, hashesHex) == Err(PathHex)
            case Some(raw) => |raw| != 32 && DecodePath(codecs, hashesHex) == Err(PathHashLength)
  {
    i := 0;
    if codecs.hex(hashesHex[0]).Some? && |codecs.hex(hashesHex[0]).value| == 32 {
      var k := FirstBadItem(codecs, hashesHex[1..]);
      i := k + 1;
    }
  }

  /** The verdict in terms of RFC 6962's own recursion; the bit walk does not appear. */
  function Verdict(H: Hasher, codecs: Codecs, entry: Entry, proof: Proof): Result<Unit, InclusionError> {
    if proof.logIndex != entry.logIndex then Err(IndexMismatch)
    else if proof.treeSize == 0 || entry.logIndex >= proof.treeSize then Err(IndexOutOfRange)
    else
      match codecs.base64(entry.canonicalizedBody)
      case None => Err(BodyBase64)
      case Some(body) =>
        var path := DecodePath(codecs, proof.hashesHex);
        if path.Err? then Err(path.error)
        else
          match FoldTopDown(H, LeafHash(H, body), entry.logIndex, proof.treeSize, path.value)
          case TooLong => Err(ProofTooLong)
          case TooShort => Err(ProofTooShort)
          case Root(digest) =>
            match codecs.hex(proof.rootHashHex)
            case None => Err(RootHex)
            case Some(expected) => if expected == digest then Ok(Unit) else Err(RootMismatch)
  }

  /** The inner shift loop. Its `fnode != 0` guard never decides: wherever the verifier
      enters the loop fnode is positive, and it stays so. */
  method SkipRightEdge(fnode: nat, sn: nat) returns (f: nat, s: nat)
    requires 0 < fnode <= sn
    ensures (f, s) == StripZeros(fnode, sn) && 0 < f <= s
  {
    f, s := fnode, sn;
    while f % 2 == 0 && f != 0
      invariant 0 < f <= s && StripZeros(f, s) == StripZeros(fnode, sn)
    {
      f, s := f / 2, s / 2;
    }
  }

  method WalkProof(H: Hasher, leaf: Digest, logIndex: nat, treeSize: nat, path: seq<Digest>) returns (folded: Folded)
    requires logIndex < treeSize
    ensures folded == FoldTopDown(H, leaf, logIndex, treeSize, path)
  {
    WalkIsFold(H, leaf, logIndex, treeSize, path);
    var r, fnode: nat, sn: nat := leaf, logIndex, treeSize - 1;
    for i := 0 to |path|
      invariant fnode <= sn < treeSize
      invariant Walk(H, r, fnode, sn, path[i..]) == Walk(H, leaf, logIndex, treeSize - 1, path)
    {
      if sn == 0 { return TooLong; }
      assert path[i..][1..] == path[i + 1..];
      var p := path[i];
      if fnode % 2 == 1 || fnode == sn {
        r := NodeHash(H, p, r);
        fnode, sn := SkipRightEdge(fnode, sn);
      } else {
        r := NodeHash(H, r, p);
      }
      fnode, sn := fnode / 2, sn / 2;
    }
    if sn != 0 { return TooShort; }
    return Root(r);
  }

  method VerifyRekorInclusion(H: Hasher, codecs: Codecs, entry: Entry, proof: Proof)
    returns (result: Result<Unit, InclusionError>)
    ensures result == Verdict(H, codecs, entry, proof)
    ensures match result
            case Ok(_) =>
              Decodes(codecs, entry, proof) && |proof.hashesHex| == PathLength(entry.logIndex, proof.treeSize)
            case Err(e) => RejectedFor(codecs, entry, proof, e)
  {
    RejectionIsExplained(H, codecs, entry, proof);
    hide RejectedFor, Decodes, DecodePath, FoldTopDown;
    if proof.logIndex != entry.logIndex { return Err(IndexMismatch); }
    if proof.treeSize == 0 || entry.logIndex >= proof.treeSize { return Err(IndexOutOfRange); }
    var body := codecs.base64(entry.canonicalizedBody);
    if body.None? { return Err(BodyBase64); }
    var leaf := LeafHash(H, body.value);
    var path := DecodePath(codecs, proof.hashesHex);
    if path.Err? { return Err(path.error); }
    var folded := WalkProof(H, leaf, entry.logIndex, proof.treeSize, path.value);
    if folded.TooLong? { return Err(ProofTooLong); }
    if folded.TooShort? { return Err(ProofTooShort); }
    var expected := codecs.hex(proof.rootHashHex);
    if expected.None? { return Err(RootHex); }
    if expected.value != folded.digest { return Err(RootMismatch); }
    return Ok(Unit);
  }

  /** What the two index checks and the decoders ask for before any hashing. */
  predicate Decodes(codecs: Codecs, entry: Entry, proof: Proof) {
    && proof.logIndex == entry.logIndex < proof.treeSize
    && codecs.base64(entry.canonicalizedBody).Some?
    && PathDecodes(codecs, proof.hashesHex)
    && codecs.hex(proof.rootHashHex).Some?
  }

  /** Every sibling is the hex of 32 bytes. */
  predicate PathDecodes(codecs: Codecs, hashesHex: seq<string>) {
    forall i :: 0 <= i < |hashesHex| ==>
                  codecs.hex(hashesHex[i]).Some? && |codecs.hex(hashesHex[i]).value| == 32
  }

  /** Which error a rejected proof ends in: the first of these that applies, in this order. */
  ghost predicate RejectedFor(codecs: Codecs, entry: Entry, proof: Proof, e: InclusionError) {
    if proof.logIndex != entry.logIndex then e == IndexMismatch
    else if entry.logIndex >= proof.treeSize then e == IndexOutOfRange
    else if codecs.base64(entry.canonicalizedBody).None? then e == BodyBase64
    else if !PathDecodes(codecs, proof.hashesHex) then
      exists i ::
        && 0 <= i < |proof.hashesHex| && PathDecodes(codecs, proof.hashesHex[..i])
        && match codecs.hex(proof.hashesHex[i])
           case None => e == PathHex
           case Some(raw) => |raw| != 32 && e == PathHashLength
    else if |proof.hashesHex| > PathLength(entry.logIndex, proof.treeSize) then e == ProofTooLong
    else if |proof.hashesHex| < PathLength(entry.logIndex, proof.treeSize) then e == ProofTooShort
    else if codecs.hex(proof.rootHashHex).None? then e == RootHex
    else e == RootMismatch
  }

  lemma {:induction false} RejectionIsExplained(H: Hasher, codecs: Codecs, entry: Entry, proof: Proof)
    ensures match Verdict(H, codecs, entry, proof)
            case Ok(_) =>
              Decodes(codecs, entry, proof) && |proof.hashesHex| == PathLength(entry.logIndex, proof.treeSize)
            case Err(e) => RejectedFor(codecs, entry, proof, e)
  {
    var body := codecs.base64(entry.canonicalizedBody);
    if proof.logIndex == entry.logIndex < proof.treeSize && body.Some? {
      var path := DecodePath(codecs, proof.hashesHex);
      if path.Ok? {
        FoldShape(H, LeafHash(H, body.value), entry.logIndex, proof.treeSize, path.value);
      } else {
        var i := FirstBadItem(codecs, proof.hashesHex);
      }
      hide FoldTopDown, LeafHash, PathLength, DecodePath;
    }
  }

  /** A decodable proof whose root is the tree hash of some list D, of whatever size: the entry
      of D that the claimed index and size reach is accepted with its audit path, and anything
      else that is accepted hands over two strings on which the hash collides. */
  lemma {:induction false} AcceptedExactlyTheReachedEntry(
      H: Hasher, codecs: Codecs, entry: Entry, proof: Proof, D: seq<seq<byte>>)
    requires Decodes(codecs, entry, proof)
    requires |D| > 0 && codecs.hex(proof.rootHashHex) == Some(TreeHash(H, D))
    ensures var body := codecs.base64(entry.canonicalizedBody).value;
            var path := DecodePath(codecs, proof.hashesHex).value;
            var genuine := Genuine(H, body, entry.logIndex, proof.treeSize, D, path);
            && (genuine ==> Verdict(H, codecs, entry, proof).Ok?)
            && (Verdict(H, codecs, entry, proof).Ok? && !genuine ==>
                  && |path| == PathLength(entry.logIndex, proof.treeSize)
                  && IsCollision(H, Divergence(H, body, entry.logIndex, proof.treeSize, D, path)))
  {
    hide FoldTopDown, Divergence, AuditPath, TreeHash, LeafHash, IsCollision, DecodePath, Reached;
    var body := codecs.base64(entry.canonicalizedBody).value;
    var path := DecodePath(codecs, proof.hashesHex).value;
    var m, n := entry.logIndex, proof.treeSize;
    if Genuine(H, body, m, n, D, path) { FoldComplete(H, m, n, D); }
    FoldShape(H, LeafHash(H, body), m, n, path);
    if Verdict(H, codecs, entry, proof).Ok? { FoldSound(H, body, m, n, D, path); }
  }

  /** With the list's own size that entry is the one at the claimed index: the proof is accepted
      exactly when it is D's entry there and its audit path, up to a collision. */
  lemma {:induction false} AcceptedExactlyTheAuditPath(
      H: Hasher, codecs: Codecs, entry: Entry, proof: Proof, D: seq<seq<byte>>)
    requires Decodes(codecs, entry, proof)
    requires |D| == proof.treeSize && codecs.hex(proof.rootHashHex) == Some(TreeHash(H, D))
    ensures var body := codecs.base64(entry.canonicalizedBody).value;
            var path := DecodePath(codecs, proof.hashesHex).value;
            var genuine := body == D[entry.logIndex] && path == AuditPath(H, entry.logIndex, D);
            && (genuine ==> Verdict(H, codecs, entry, proof).Ok?)
            && (Verdict(H, codecs, entry, proof).Ok? && !genuine ==>
                  && |path| == PathLength(entry.logIndex, |D|)
                  && IsCollision(H, Divergence(H, body, entry.logIndex, |D|, D, path)))
  {
    hide *;
    DecodedSizes(codecs, entry, proof);
    ReachedAtItsSize(entry.logIndex, proof.treeSize);
    AcceptedExactlyTheReachedEntry(H, codecs, entry, proof, D);
    GenuineAtItsSize(H, codecs.base64(entry.canonicalizedBody).value, entry.logIndex, D,
      DecodePath(codecs, proof.hashesHex).value);
  }

  lemma {:induction false} DecodedSizes(codecs: Codecs, entry: Entry, proof: Proof)
    requires Decodes(codecs, entry, proof)
    ensures entry.logIndex < proof.treeSize
    ensures codecs.base64(entry.canonicalizedBody).Some? && PathDecodes(codecs, proof.hashesHex)
    ensures DecodePath(codecs, proof.hashesHex).Ok?
  {
  }

  lemma {:induction false} GenuineAtItsSize(H: Hasher, body: seq<byte>, m: nat, D: seq<seq<byte>>, path: seq<Digest>)
    requires m < |D|
    ensures Genuine(H, body, m, |D|, D, path) <==> body == D[m] && path == AuditPath(H, m, D)
  {
    ReachedAtItsSize(m, |D|);
    hide Reached, AuditPath;
  }

  /** The exact condition on the two sizes. Over a list of distinct entries, an accepted body is
      the one at the claimed index if and only if the claim reaches that index in a tree of the
      list's size: a test on three numbers, met when the sizes are equal. */
  lemma {:induction false} AcceptedAtItsIndexExactlyWhenReached(
      H: Hasher, codecs: Codecs, entry: Entry, proof: Proof, D: seq<seq<byte>>)
    requires Decodes(codecs, entry, proof) && Verdict(H, codecs, entry, proof).Ok?
    requires |D| > 0 && codecs.hex(proof.rootHashHex) == Some(TreeHash(H, D))
    requires forall i, j :: 0 <= i < j < |D| ==> D[i] != D[j]
    ensures var body := codecs.base64(entry.canonicalizedBody).value;
            var path := DecodePath(codecs, proof.hashesHex).value;
            var m, n := entry.logIndex, proof.treeSize;
            || (&& body in D
                && ((m < |D| && body == D[m]) <==> Reached(m, n, |D|) == Some(m)))
            || (|path| == PathLength(m, n) && IsCollision(H, Divergence(H, body, m, n, D, path)))
    ensures proof.treeSize == |D| ==> Reached(entry.logIndex, proof.treeSize, |D|) == Some(entry.logIndex)
  {
    hide Verdict, TreeHash, Divergence, IsCollision, AuditPath, DecodePath, Reached;
    AcceptedExactlyTheReachedEntry(H, codecs, entry, proof, D);
    if proof.treeSize == |D| { ReachedAtItsSize(entry.logIndex, |D|); }
  }

  /** Where another position is reached the failure is real: that entry, with its own audit path,
      is accepted under the claimed index and size. */
  lemma {:induction false} AcceptedAtAnotherIndex(
      H: Hasher, codecs: Codecs, entry: Entry, proof: Proof, D: seq<seq<byte>>, k: nat)
    requires Decodes(codecs, entry, proof) && |D| > 0
    requires Reached(entry.logIndex, proof.treeSize, |D|) == Some(k)
    requires codecs.hex(proof.rootHashHex) == Some(TreeHash(H, D))
    requires codecs.base64(entry.canonicalizedBody).value == D[k]
    requires DecodePath(codecs, proof.hashesHex).value == AuditPath(H, k, D)
    ensures Verdict(H, codecs, entry, proof).Ok?
  {
    hide Verdict, TreeHash, Divergence, IsCollision, AuditPath, DecodePath, Reached;
    AcceptedExactlyTheReachedEntry(H, codecs, entry, proof, D);
  }

  /** The length verdicts look at no hash: for each index and size one path length passes. */
  lemma {:induction false} LengthVerdicts(H: Hasher, codecs: Codecs, entry: Entry, proof: Proof)
    requires Decodes(codecs, entry, proof)
    ensures Verdict(H, codecs, entry, proof) == Err(ProofTooLong) <==>
            |proof.hashesHex| > PathLength(entry.logIndex, proof.treeSize)
    ensures Verdict(H, codecs, entry, proof) == Err(ProofTooShort) <==>
            |proof.hashesHex| < PathLength(entry.logIndex, proof.treeSize)
    ensures proof.treeSize <= U64_MAX ==> PathLength(entry.logIndex, proof.treeSize) <= 64
  {
    var body := codecs.base64(entry.canonicalizedBody).value;
    var path := DecodePath(codecs, proof.hashesHex).value;
    FoldShape(H, LeafHash(H, body), entry.logIndex, proof.treeSize, path);
    Pow2Of64();
    if proof.treeSize <= U64_MAX { PathLengthBound(entry.logIndex, proof.treeSize, 64); }
  }

  lemma {:induction false} Pow2Of64()
    ensures Pow2(64) == U64_MAX + 1
  {
    Pow2Sum(32, 32);
    Pow2Of32();
  }

  lemma {:induction false} Pow2Of32()
    ensures Pow2(32) == 4294967296
  {
    assert Pow2(4) == 16;
    Pow2Sum(4, 4);
    Pow2Sum(8, 8);
    Pow2Sum(16, 16);
  }
}
