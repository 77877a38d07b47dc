/** `KeylessVerifier::verify_bundle` as one sequential call: the order of its checks and when
    the freshness anchor moves. FreshnessAnchor treats the same anchor under concurrency. */
module Keyless {
  import opened Prelude
  import opened MerkleTree
  import opened RekorInclusion
  import CertChain

  datatype Checkpoint = Checkpoint(treeSize: nat, rootHashB64: string, signed: bool)

  datatype RekorView = RekorView(
    entry: Entry,
    setSigned: bool,
    inclusionProof: Option<Proof>,
    checkpoint: Option<Checkpoint>)

  /** A bundle with its decoding done. `identity` is the outcome of the leaf certificate,
      identity policy and manifest signature checks, which come first. */
  datatype Bundle = Bundle(
    identity: Result<CertChain.Certificate, VerifyError>,
    chainPem: Option<Option<seq<CertChain.Certificate>>>,
    rekor: Option<RekorView>,
    catalogueParses: bool)

  datatype VerifyError =
    | IdentityRefused
    | ChainPem
    | Chain(chain: CertChain.ChainError)
    | SetInvalid
    | Inclusion(inclusion: InclusionError)
    | CheckpointInvalid
    | CheckpointRootBase64
    | CheckpointRootHex
    | RootsDisagree
    | Rollback(size: nat, observed: nat)
    | CatalogueParse

  /** What the operator pinned, the clock, and the cryptography as functions. */
  datatype Config = Config(
    trustRoot: Option<CertChain.Context>,
    rekorKeyPinned: bool,
    hash: Hasher,
    codecs: Codecs)

  function ChainContext(root: CertChain.Context, bundle: Bundle): Option<CertChain.Context> {
    match bundle.chainPem
    case None => Some(root.(bundle := []))
    case Some(None) => None
    case Some(Some(certs)) => Some(root.(bundle := certs))
  }

  /** The checkpoint's signature, and its root against the proof's when there is a proof. */
  function CheckCheckpoint(codecs: Codecs, c: Checkpoint, proof: Option<Proof>): Result<Unit, VerifyError> {
    if !c.signed then Err(CheckpointInvalid)
    else if proof.None? then Ok(Unit)
    else
      match codecs.base64(c.rootHashB64)
      case None => Err(CheckpointRootBase64)
      case Some(actual) =>
        match codecs.hex(proof.value.rootHashHex)
        case None => Err(CheckpointRootHex)
        case Some(expected) => if actual == expected then Ok(Unit) else Err(RootsDisagree)
  }

  function CheckRekor(cfg: Config, r: RekorView): Result<Option<nat>, VerifyError> {
    if !r.setSigned then Err(SetInvalid)
    else
      var inclusion :=
        if r.inclusionProof.Some? then Verdict(cfg.hash, cfg.codecs, r.entry, r.inclusionProof.value) else Ok(Unit);
      if inclusion.Err? then Err(Inclusion(inclusion.error))
      else if r.checkpoint.None? then Ok(None)
      else
        var checked := CheckCheckpoint(cfg.codecs, r.checkpoint.value, r.inclusionProof);
        if checked.Err? then Err(checked.error) else Ok(Some(r.checkpoint.value.treeSize))
  }

  /** Everything before the anchor; the tree size to hold against it, if any. */
  function BeforeAnchor(cfg: Config, bundle: Bundle): Result<Option<nat>, VerifyError> {
    if bundle.identity.Err? then Err(bundle.identity.error)
    else
      var chain := ChainVerdict(cfg, bundle, bundle.identity.value);
      if chain.Err? then Err(chain.error)
      else if cfg.rekorKeyPinned && bundle.rekor.Some? then CheckRekor(cfg, bundle.rekor.value)
      else Ok(None)
  }

  function ChainVerdict(cfg: Config, bundle: Bundle, leaf: CertChain.Certificate): Result<Unit, VerifyError> {
    if cfg.trustRoot.None? then Ok(Unit)
    else
      match ChainContext(cfg.trustRoot.value, bundle)
      case None => Err(ChainPem)
      case Some(ctx) =>
        var r := CertChain.WalkFrom(ctx, leaf, 0, CertChain.MAX_HOPS);
        if r.Err? then Err(Chain(r.error)) else Ok(Unit)
  }

  class KeylessVerifier {
    const cfg: Config
    var rekorMinTreeSize: nat

    constructor (cfg: Config)
      ensures this.cfg == cfg && rekorMinTreeSize == 0
    {
      this.cfg := cfg;
      rekorMinTreeSize := 0;
    }

    method SetRekorMinTreeSize(n: nat)
      modifies this
      ensures rekorMinTreeSize == n
    {
      rekorMinTreeSize := n;
    }

    method RekorMaxTreeSize() returns (n: nat)
      ensures n == rekorMinTreeSize
    {
      n := rekorMinTreeSize;
    }

    /** `compare_exchange_weak`: may fail spuriously; reports the value it found. */
    method CompareExchangeWeak(prev: nat, next: nat, spurious: bool) returns (swapped: bool, observed: nat)
      modifies this
      ensures observed == old(rekorMinTreeSize)
      ensures swapped <==> old(rekorMinTreeSize) == prev && !spurious
      ensures rekorMinTreeSize == if swapped then next else old(rekorMinTreeSize)
    {
      observed := rekorMinTreeSize;
      swapped := rekorMinTreeSize == prev && !spurious;
      if swapped { rekorMinTreeSize := next; }
    }

    /** The advance loop with no other thread at work, after any number of spurious failures. */
    method AdvanceAnchor(size: nat, spuriousFailures: nat) returns (r: Result<Unit, VerifyError>)
      modifies this
      ensures r == if size < old(rekorMinTreeSize) then Err(Rollback(size, old(rekorMinTreeSize))) else Ok(Unit)
      ensures rekorMinTreeSize == Max(size, old(rekorMinTreeSize)) || r.Err?
      ensures r.Err? ==> rekorMinTreeSize == old(rekorMinTreeSize)
    {
      var prev := rekorMinTreeSize;
      var failures := spuriousFailures;
      while true
        invariant prev == rekorMinTreeSize == old(rekorMinTreeSize)
        decreases failures
      {
        if size < prev { return Err(Rollback(size, prev)); }
        var next := Max(size, prev);
        var swapped, observed := CompareExchangeWeak(prev, next, failures > 0);
        if swapped { return Ok(Unit); }
        prev := observed;
        failures := failures - 1;
      }
    }

    method VerifyBundle(bundle: Bundle, spuriousFailures: nat) returns (r: Result<Unit, VerifyError>)
      modifies this
      ensures (r, rekorMinTreeSize) == Outcome(cfg, old(rekorMinTreeSize), bundle)
      ensures r.Ok? <==> Established(cfg, old(rekorMinTreeSize), bundle) && bundle.catalogueParses
    {
      AcceptedExactlyWhenEstablished(cfg, rekorMinTreeSize, bundle);
      hide CertChain.WalkFrom, Verdict, CheckCheckpoint, Established, ChainIsTrusted, EntryIsLogged;
      if bundle.identity.Err? { return Err(bundle.identity.error); }
      var leaf := bundle.identity.value;
      if cfg.trustRoot.Some? {
        var ctx := ChainContext(cfg.trustRoot.value, bundle);
        if ctx.None? { return Err(ChainPem); }
        var chain := CertChain.VerifyChain(ctx.value, leaf);
        if chain.Err? { return Err(Chain(chain.error)); }
      }
      if cfg.rekorKeyPinned && bundle.rekor.Some? {
        var rekor := bundle.rekor.value;
        if !rekor.setSigned { return Err(SetInvalid); }
        if rekor.inclusionProof.Some? {
          var inclusion := VerifyRekorInclusion(cfg.hash, cfg.codecs, rekor.entry, rekor.inclusionProof.value);
          if inclusion.Err? { return Err(Inclusion(inclusion.error)); }
        }
        if rekor.checkpoint.Some? {
          var checked := CheckCheckpoint(cfg.codecs, rekor.checkpoint.value, rekor.inclusionProof);
          if checked.Err? { return checked; }
          var advanced := AdvanceAnchor(rekor.checkpoint.value.treeSize, spuriousFailures);
          if advanced.Err? { return advanced; }
        }
      }
      if !bundle.catalogueParses { return Err(CatalogueParse); }
      return Ok(Unit);
    }
  }

  /** Result and anchor after one call. */
  function Outcome(cfg: Config, anchor: nat, bundle: Bundle): (Result<Unit, VerifyError>, nat) {
    match BeforeAnchor(cfg, bundle)
    case Err(e) => (Err(e), anchor)
    case Ok(size) =>
      if size.Some? && size.value < anchor then (Err(Rollback(size.value, anchor)), anchor)
      else (if bundle.catalogueParses then Ok(Unit) else Err(CatalogueParse),
            if size.Some? then size.value else anchor)
  }

  /** What `verify_chain` promises of the leaf, among the certificates the bundle itself carries
      and the pinned ones: a pinned self-signed root in date, or a first-match path. */
  ghost predicate ChainIsTrusted(
      root: CertChain.Context, certs: seq<CertChain.Certificate>, leaf: CertChain.Certificate)
  {
    var ctx := CertChain.Context(root.now, certs, root.intermediates, root.roots, root.signed);
    if leaf.subject == leaf.issuer then CertChain.InDate(ctx, leaf) && CertChain.PinnedSelfSigned(ctx, leaf)
    else
      exists path ::
        && |path| <= 16
        && CertChain.IsPath(ctx, leaf, path, 0) && CertChain.FollowsFirstMatch(ctx, leaf, path)
  }

  /** What the log entry of an accepted bundle satisfies. */
  ghost predicate EntryIsLogged(cfg: Config, r: RekorView) {
    && r.setSigned
    && (r.inclusionProof.Some? ==> Verdict(cfg.hash, cfg.codecs, r.entry, r.inclusionProof.value) == Ok(Unit))
    && (r.checkpoint.Some? ==> r.checkpoint.value.signed)
    && (r.checkpoint.Some? && r.inclusionProof.Some? ==>
          && cfg.codecs.base64(r.checkpoint.value.rootHashB64).Some?
          && cfg.codecs.base64(r.checkpoint.value.rootHashB64) == cfg.codecs.hex(r.inclusionProof.value.rootHashHex))
  }

  /** Everything an accepted call has established about the bundle, the catalogue aside. */
  ghost predicate Established(cfg: Config, anchor: nat, bundle: Bundle) {
    && bundle.identity.Ok?
    && (cfg.trustRoot.Some? ==>
          && bundle.chainPem != Some(None)
          && ChainIsTrusted(cfg.trustRoot.value,
                            if bundle.chainPem.Some? then bundle.chainPem.value.value else [],
                            bundle.identity.value))
    && (cfg.rekorKeyPinned && bundle.rekor.Some? ==>
          && EntryIsLogged(cfg, bundle.rekor.value)
          && (bundle.rekor.value.checkpoint.Some? ==> bundle.rekor.value.checkpoint.value.treeSize >= anchor))
  }

  /** `verify_bundle` accepts exactly the bundles whose checks all hold; the anchor becomes the
      size of the checkpoint of a bundle that has one, as soon as all but the catalogue hold. */
  lemma {:induction false} AcceptedExactlyWhenEstablished(cfg: Config, anchor: nat, bundle: Bundle)
    ensures Outcome(cfg, anchor, bundle).0.Ok? <==> Established(cfg, anchor, bundle) && bundle.catalogueParses
    ensures Outcome(cfg, anchor, bundle).1 ==
            if Established(cfg, anchor, bundle) && cfg.rekorKeyPinned && bundle.rekor.Some?
               && bundle.rekor.value.checkpoint.Some?
            then bundle.rekor.value.checkpoint.value.treeSize else anchor
  {
    if bundle.identity.Ok? { ChainChecked(cfg, bundle, bundle.identity.value); }
    if bundle.rekor.Some? { EntryChecked(cfg, bundle.rekor.value); }
    hide ChainVerdict, CheckRekor, ChainIsTrusted, EntryIsLogged;
  }

  lemma {:induction false} ChainChecked(cfg: Config, bundle: Bundle, leaf: CertChain.Certificate)
    ensures ChainVerdict(cfg, bundle, leaf).Ok? <==>
            (cfg.trustRoot.Some? ==>
               && bundle.chainPem != Some(None)
               && ChainIsTrusted(cfg.trustRoot.value,
                                 if bundle.chainPem.Some? then bundle.chainPem.value.value else [], leaf))
  {
    hide CertChain.WalkFrom, CertChain.IsPath, CertChain.FollowsFirstMatch, CertChain.PinnedSelfSigned,
      CertChain.InDate;
    if cfg.trustRoot.Some? && bundle.chainPem != Some(None) {
      var root := cfg.trustRoot.value;
      var certs := if bundle.chainPem.Some? then bundle.chainPem.value.value else [];
      var ctx := CertChain.Context(root.now, certs, root.intermediates, root.roots, root.signed);
      assert ChainContext(root, bundle) == Some(ctx);
      CertChain.AcceptsExactlyFirstMatchPaths(ctx, leaf);
    }
  }

  lemma {:induction false} EntryChecked(cfg: Config, r: RekorView)
    ensures CheckRekor(cfg, r).Ok? <==> EntryIsLogged(cfg, r)
    ensures CheckRekor(cfg, r).Ok? ==>
              CheckRekor(cfg, r).value == if r.checkpoint.Some? then Some(r.checkpoint.value.treeSize) else None
  {
    if r.inclusionProof.Some? { RejectionIsExplained(cfg.hash, cfg.codecs, r.entry, r.inclusionProof.value); }
    hide Verdict;
  }

  /** Which error a refused bundle ends in: the first of these checks that fails, in this order. */
  ghost predicate RefusedFor(cfg: Config, anchor: nat, bundle: Bundle, e: VerifyError) {
    var certs := if bundle.chainPem.Some? && bundle.chainPem.value.Some? then bundle.chainPem.value.value else [];
    if bundle.identity.Err? then e == bundle.identity.error
    else if cfg.trustRoot.Some? && bundle.chainPem == Some(None) then e == ChainPem
    else if cfg.trustRoot.Some? && !ChainIsTrusted(cfg.trustRoot.value, certs, bundle.identity.value) then
      e.Chain? && ChainFault(cfg.trustRoot.value, certs, bundle.identity.value, e.chain)
    else if cfg.rekorKeyPinned && bundle.rekor.Some? && !EntryIsLogged(cfg, bundle.rekor.value) then
      EntryRefusedFor(cfg, bundle.rekor.value, e)
    else if
      && cfg.rekorKeyPinned && bundle.rekor.Some? && bundle.rekor.value.checkpoint.Some?
      && bundle.rekor.value.checkpoint.value.treeSize < anchor
    then e == Rollback(bundle.rekor.value.checkpoint.value.treeSize, anchor)
    else e == CatalogueParse
  }

  /** The walk went up a trail of issuers and met this fault, or went up sixteen. */
  ghost predicate ChainFault(
      root: CertChain.Context, certs: seq<CertChain.Certificate>, leaf: CertChain.Certificate, e: CertChain.ChainError)
  {
    var ctx := CertChain.Context(root.now, certs, root.intermediates, root.roots, root.signed);
    exists trail ::
      && CertChain.Trail(ctx, leaf, trail, 0)
      && if |trail| == 16 then e == CertChain.TooManyHops
         else |trail| < 16 && CertChain.Fault(ctx, CertChain.Child(leaf, trail, |trail|), |trail|, e)
  }

  lemma {:induction false} ChainExplained(cfg: Config, bundle: Bundle, leaf: CertChain.Certificate)
    requires cfg.trustRoot.Some?
    ensures match ChainVerdict(cfg, bundle, leaf)
            case Ok(_) => true
            case Err(e) =>
              if bundle.chainPem == Some(None) then e == ChainPem
              else
                && e.Chain?
                && ChainFault(cfg.trustRoot.value, if bundle.chainPem.Some? then bundle.chainPem.value.value else [],
                              leaf, e.chain)
  {
    hide CertChain.WalkFrom, CertChain.Trail, CertChain.Fault;
    if bundle.chainPem != Some(None) {
      var root := cfg.trustRoot.value;
      var certs := if bundle.chainPem.Some? then bundle.chainPem.value.value else [];
      var ctx := CertChain.Context(root.now, certs, root.intermediates, root.roots, root.signed);
      assert ChainContext(root, bundle) == Some(ctx);
      if CertChain.WalkFrom(ctx, leaf, 0, CertChain.MAX_HOPS).Err? {
        var trail := CertChain.RefusalIsExplained(ctx, leaf, 0, CertChain.MAX_HOPS);
      }
    }
  }

  ghost predicate EntryRefusedFor(cfg: Config, r: RekorView, e: VerifyError) {
    if !r.setSigned then e == SetInvalid
    else if r.inclusionProof.Some? && Verdict(cfg.hash, cfg.codecs, r.entry, r.inclusionProof.value).Err? then
      e == Inclusion(Verdict(cfg.hash, cfg.codecs, r.entry, r.inclusionProof.value).error)
    else
      && r.checkpoint.Some?
      && var c := r.checkpoint.value;
         if !c.signed then e == CheckpointInvalid
         else
           && r.inclusionProof.Some?
           && e == if cfg.codecs.base64(c.rootHashB64).None? then CheckpointRootBase64 else RootsDisagree
  }

  lemma {:induction false} RefusalIsExplained(cfg: Config, anchor: nat, bundle: Bundle)
    requires Outcome(cfg, anchor, bundle).0.Err?
    ensures RefusedFor(cfg, anchor, bundle, Outcome(cfg, anchor, bundle).0.error)
  {
    AcceptedExactlyWhenEstablished(cfg, anchor, bundle);
    if bundle.identity.Ok? { ChainChecked(cfg, bundle, bundle.identity.value); }
    if bundle.rekor.Some? { EntryChecked(cfg, bundle.rekor.value); }
    if bundle.rekor.Some? && !EntryIsLogged(cfg, bundle.rekor.value) { EntryExplained(cfg, bundle.rekor.value); }
    if bundle.identity.Ok? && cfg.trustRoot.Some? { ChainExplained(cfg, bundle, bundle.identity.value); }
    hide ChainFault, ChainIsTrusted, EntryIsLogged, EntryRefusedFor, CheckRekor, CertChain.WalkFrom;
  }

  lemma {:induction false} EntryExplained(cfg: Config, r: RekorView)
    requires CheckRekor(cfg, r).Err?
    ensures EntryRefusedFor(cfg, r, CheckRekor(cfg, r).error)
  {
    if r.inclusionProof.Some? { RejectionIsExplained(cfg.hash, cfg.codecs, r.entry, r.inclusionProof.value); }
    hide Verdict;
  }

  /** The anchor never falls, and a call moves it exactly when all earlier checks passed on a
      checkpoint larger than it; such a call still fails if only the catalogue is malformed. */
  lemma {:induction false} AnchorMovesBeforeTheCatalogueIsParsed(cfg: Config, anchor: nat, bundle: Bundle)
    ensures var (r, anchor') := Outcome(cfg, anchor, bundle);
            && anchor' >= anchor
            && (anchor' > anchor <==> exists size: nat :: BeforeAnchor(cfg, bundle) == Ok(Some(size)) && size > anchor)
            && (anchor' > anchor && r.Err? ==> r == Err(CatalogueParse))
            && (r.Ok? ==> BeforeAnchor(cfg, bundle).Ok? && bundle.catalogueParses)
  {
    var before := BeforeAnchor(cfg, bundle);
    if before.Ok? && before.value.Some? { assert before == Ok(Some(before.value.value)); }
  }

  /** What an accepted bundle that carries an inclusion proof proves, given a pinned log key: for
      any list D with the proof's root, the entry of D that the claimed index and size reach,
      with its audit path, up to a collision. */
  lemma {:induction false} AcceptedBundleIsLogged(cfg: Config, anchor: nat, bundle: Bundle, D: seq<seq<byte>>)
    requires Outcome(cfg, anchor, bundle).0.Ok? && cfg.rekorKeyPinned
    requires bundle.rekor.Some? && bundle.rekor.value.inclusionProof.Some?
    requires |D| > 0
    requires cfg.codecs.hex(bundle.rekor.value.inclusionProof.value.rootHashHex) == Some(TreeHash(cfg.hash, D))
    ensures var rekor := bundle.rekor.value;
            var proof := rekor.inclusionProof.value;
            && Decodes(cfg.codecs, rekor.entry, proof) && Verdict(cfg.hash, cfg.codecs, rekor.entry, proof).Ok?
            && var body := cfg.codecs.base64(rekor.entry.canonicalizedBody).value;
               var path := DecodePath(cfg.codecs, proof.hashesHex).value;
               var m, n := rekor.entry.logIndex, proof.treeSize;
               && |path| == PathLength(m, n)
               && (|| Genuine(cfg.hash, body, m, n, D, path)
                   || IsCollision(cfg.hash, Divergence(cfg.hash, body, m, n, D, path)))
  {
    hide TreeHash, AuditPath, Divergence, FoldTopDown, DecodePath, IsCollision, Reached;
    var rekor := bundle.rekor.value;
    var proof := rekor.inclusionProof.value;
    assert Verdict(cfg.hash, cfg.codecs, rekor.entry, proof).Ok?;
    assert Decodes(cfg.codecs, rekor.entry, proof);
    LengthVerdicts(cfg.hash, cfg.codecs, rekor.entry, proof);
    AcceptedExactlyTheReachedEntry(cfg.hash, cfg.codecs, rekor.entry, proof, D);
  }

  /** The same against the list the log signed, whose size is the checkpoint's: over distinct
      entries the accepted body is the signed list's entry at the claimed index if and only if
      the claim reaches that index in a tree of the signed size. Equal sizes are enough. */
  lemma {:induction false} LoggedAtItsIndexExactlyWhenReached(
      cfg: Config, anchor: nat, bundle: Bundle, D: seq<seq<byte>>)
    requires Outcome(cfg, anchor, bundle).0.Ok? && cfg.rekorKeyPinned
    requires bundle.rekor.Some? && bundle.rekor.value.inclusionProof.Some? && bundle.rekor.value.checkpoint.Some?
    requires var c := bundle.rekor.value.checkpoint.value;
             |D| == c.treeSize > 0 && cfg.codecs.base64(c.rootHashB64) == Some(TreeHash(cfg.hash, D))
    requires forall i, j :: 0 <= i < j < |D| ==> D[i] != D[j]
    ensures var rekor := bundle.rekor.value;
            var proof := rekor.inclusionProof.value;
            && Decodes(cfg.codecs, rekor.entry, proof)
            && var body := cfg.codecs.base64(rekor.entry.canonicalizedBody).value;
               var path := DecodePath(cfg.codecs, proof.hashesHex).value;
               var m, n := rekor.entry.logIndex, proof.treeSize;
               && (|| (&& body in D
                       && ((m < |D| && body == D[m]) <==> Reached(m, n, |D|) == Some(m)))
                   || (|path| == PathLength(m, n) && IsCollision(cfg.hash, Divergence(cfg.hash, body, m, n, D, path))))
               && (n == |D| ==> Reached(m, n, |D|) == Some(m))
  {
    hide TreeHash, AuditPath, Divergence, FoldTopDown, DecodePath, IsCollision, Reached;
    var rekor := bundle.rekor.value;
    var proof := rekor.inclusionProof.value;
    assert CheckCheckpoint(cfg.codecs, rekor.checkpoint.value, rekor.inclusionProof).Ok?;
    assert cfg.codecs.hex(proof.rootHashHex) == Some(TreeHash(cfg.hash, D));
    AcceptedBundleIsLogged(cfg, anchor, bundle, D);
    AcceptedAtItsIndexExactlyWhenReached(cfg.hash, cfg.codecs, rekor.entry, proof, D);
  }

  /** A log that signed the three entries a, b, c, and a proof that claims size 2 for c at index 1. */
  function MisplacedCodecs(H: Hasher, a: seq<byte>, b: seq<byte>, c: seq<byte>): Codecs {
    Codecs(
      s => if s == "body" then Some(c) else Some(TreeHash(H, [a, b, c])),
      s => if s == "sibling" then Some(NodeHash(H, LeafHash(H, a), LeafHash(H, b))) else Some(TreeHash(H, [a, b, c])))
  }

  const MISPLACED_ENTRY := Entry(1, "body")

  const MISPLACED_PROOF := Proof(["sibling"], 2, 1, "root")

  function MisplacedBundle(leaf: CertChain.Certificate): Bundle {
    Bundle(Ok(leaf), None,
      Some(RekorView(MISPLACED_ENTRY, true, Some(MISPLACED_PROOF), Some(Checkpoint(3, "root", true)))), true)
  }

  /** Unequal sizes can go wrong, whatever the hash: that bundle is accepted, though the log has
      b at index 1; the claim reaches index 2. */
  lemma {:induction false} TwoSizesCanMisplaceAnEntry(
      H: Hasher, a: seq<byte>, b: seq<byte>, c: seq<byte>, leaf: CertChain.Certificate)
    requires b != c
    ensures var cfg, bundle := Config(None, true, H, MisplacedCodecs(H, a, b, c)), MisplacedBundle(leaf);
            var D, rekor := [a, b, c], bundle.rekor.value;
            && Outcome(cfg, 0, bundle) == (Ok(Unit), 3)
            && rekor.checkpoint.value.treeSize == |D|
            && cfg.codecs.base64(rekor.checkpoint.value.rootHashB64) == Some(TreeHash(H, D))
            && cfg.codecs.base64(rekor.entry.canonicalizedBody) == Some(c) != Some(D[rekor.entry.logIndex])
            && Reached(rekor.entry.logIndex, rekor.inclusionProof.value.treeSize, |D|) == Some(2)
  {
    OneOfTwoReachesTwoOfThree(1, 2, 3);
    MisplacedPasses(H, a, b, c, leaf);
    hide TreeHash, Reached;
  }

  lemma {:induction false} MisplacedPasses(
      H: Hasher, a: seq<byte>, b: seq<byte>, c: seq<byte>, leaf: CertChain.Certificate)
    ensures BeforeAnchor(Config(None, true, H, MisplacedCodecs(H, a, b, c)), MisplacedBundle(leaf)) == Ok(Some(3))
  {
    var codecs := MisplacedCodecs(H, a, b, c);
    hide TreeHash, AuditPath, Reached, Verdict, DecodePath;
    OneOfTwoReachesTwoOfThree(1, 2, 3);
    LastOfThree(H, [a, b, c]);
    MisplacedPath(H, a, b, c);
    AcceptedAtAnotherIndex(H, codecs, MISPLACED_ENTRY, MISPLACED_PROOF, [a, b, c], 2);
    assert CheckCheckpoint(codecs, Checkpoint(3, "root", true), Some(MISPLACED_PROOF)) == Ok(Unit);
  }

  lemma {:induction false} MisplacedPath(H: Hasher, a: seq<byte>, b: seq<byte>, c: seq<byte>)
    ensures DecodePath(MisplacedCodecs(H, a, b, c), ["sibling"]) == Ok([NodeHash(H, LeafHash(H, a), LeafHash(H, b))])
  {
    var codecs := MisplacedCodecs(H, a, b, c);
    assert codecs.hex("sibling") == Some(NodeHash(H, LeafHash(H, a), LeafHash(H, b)));
    hide MisplacedCodecs, TreeHash;
    assert ["sibling"][1..] == [];
    assert DecodePath(codecs, []) == Ok([]);
    var raw := NodeHash(H, LeafHash(H, a), LeafHash(H, b));
    assert [raw] + [] == [raw];
    hide NodeHash, LeafHash;
  }

  lemma {:induction false} OneOfTwoReachesTwoOfThree(m: nat, n: nat, size: nat)
    requires m == 1 && n == 2 && size == 3
    ensures Reached(m, n, size) == Some(2)
  {
    SmallSplits(2);
    SmallSplits(3);
    hide Split;
  }

  lemma {:induction false} LastOfThree(H: Hasher, D: seq<seq<byte>>)
    requires |D| == 3
    ensures AuditPath(H, |D| - 1, D) == [NodeHash(H, LeafHash(H, D[0]), LeafHash(H, D[1]))]
  {
    SmallSplits(|D|);
    TwoEntries(H, D[..2]);
    AuditPathOnce(H, |D| - 1, D);
    assert AuditPath(H, 0, D[2..]) == [];
    hide Split, AuditPath, TreeHash;
  }

  lemma {:induction false} TwoEntries(H: Hasher, D: seq<seq<byte>>)
    requires |D| == 2
    ensures TreeHash(H, D) == NodeHash(H, LeafHash(H, D[0]), LeafHash(H, D[1]))
  {
    SmallSplits(|D|);
    hide Split;
    assert TreeHash(H, D[..1]) == LeafHash(H, D[0]) && TreeHash(H, D[1..]) == LeafHash(H, D[1]);
  }

  lemma {:induction false} SmallSplits(n: nat)
    requires 2 <= n <= 3
    ensures Split(n) == n - 1
  {
    assert SplitExponent(2) == 0;
    assert Pow2(0) == 1 && Pow2(1) == 2;
  }

  /** The two tree sizes are never compared: changing the checkpoint's size alone (under an
      equally valid signature) changes neither the verdict before the anchor nor, from a
      fresh verifier, the result; only the anchor it leaves. */
  lemma {:induction false} CheckpointSizeIsFree(cfg: Config, bundle: Bundle, size: nat)
    requires bundle.rekor.Some? && bundle.rekor.value.checkpoint.Some?
    ensures var rekor := bundle.rekor.value;
            var other := bundle.(rekor := Some(rekor.(checkpoint := Some(rekor.checkpoint.value.(treeSize := size)))));
            && Outcome(cfg, 0, other).0 == Outcome(cfg, 0, bundle).0
            && (BeforeAnchor(cfg, bundle).Ok? && cfg.rekorKeyPinned ==> Outcome(cfg, 0, other).1 == size)
  {
    hide Verdict;
    var rekor := bundle.rekor.value;
    var c := rekor.checkpoint.value.(treeSize := size);
    var other := bundle.(rekor := Some(rekor.(checkpoint := Some(c))));
    assert CheckCheckpoint(cfg.codecs, c, rekor.inclusionProof) ==
           CheckCheckpoint(cfg.codecs, rekor.checkpoint.value, rekor.inclusionProof);
    if bundle.identity.Ok? {
      assert ChainVerdict(cfg, other, bundle.identity.value) == ChainVerdict(cfg, bundle, bundle.identity.value);
    }
  }

  /** A call that fails on its catalogue alone has still moved the anchor, so an older checkpoint
      that would have been accepted before it is refused after it. */
  lemma {:induction false} MalformedCatalogueMovesTheAnchor(
      H: Hasher, a: seq<byte>, b: seq<byte>, c: seq<byte>, leaf: CertChain.Certificate, anchor: nat)
    requires anchor <= 2
    ensures var cfg, bundle := Config(None, true, H, MisplacedCodecs(H, a, b, c)), MisplacedBundle(leaf);
            var malformed := bundle.(catalogueParses := false);
            var older := bundle.(rekor := Some(bundle.rekor.value.(checkpoint := Some(Checkpoint(2, "root", true)))));
            && Outcome(cfg, anchor, malformed) == (Err(CatalogueParse), 3)
            && Outcome(cfg, anchor, older) == (Ok(Unit), 2)
            && Outcome(cfg, 3, older) == (Err(Rollback(2, 3)), 3)
  {
    hide MisplacedCodecs, Verdict, CheckCheckpoint;
    MisplacedPasses(H, a, b, c, leaf);
    CheckpointSizeIsFree(Config(None, true, H, MisplacedCodecs(H, a, b, c)), MisplacedBundle(leaf), 2);
  }
}
