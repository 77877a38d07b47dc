/** `verify_chain`: the walk from a leaf certificate through intermediates to a pinned root,
    against the certification-path conditions of sections 4.2 and 4.2.1.9 of RFC 5280. */
module CertChain {
  import opened Prelude

  datatype Oid =
    | BasicConstraintsOid
    | KeyUsageOid
    | ExtKeyUsageOid
    | SubjectAltNameOid
    | SubjectKeyIdentifierOid
    | AuthorityKeyIdentifierOid
    | FulcioIssuerV1Oid
    | FulcioIssuerV2Oid
    | OtherOid(dotted: string)

  datatype Extension = Extension(oid: Oid, critical: bool)

  datatype BasicConstraints = Unparsable | Absent | Present(ca: bool, pathLen: Option<nat>)

  /** `der` is None when the certificate does not re-encode. */
  datatype Certificate = Certificate(
    subject: string,
    issuer: string,
    notBefore: int,
    notAfter: int,
    der: Option<seq<byte>>,
    constraints: BasicConstraints,
    extensions: Option<seq<Extension>>)

  /** What one call sees: the clock, the candidate issuers, and a signature check
      `signed(child, issuer)` that is an arbitrary function. */
  datatype Context = Context(
    now: int,
    bundle: seq<Certificate>,
    intermediates: seq<Certificate>,
    roots: seq<Certificate>,
    signed: (Certificate, Certificate) -> bool)

  datatype ChainError =
    | NotYetValid
    | Expired
    | SelfSignedNotPinned
    | UnknownIssuer
    | SignatureInvalid
    | ConstraintsUnparsable
    | ConstraintsMissing
    | NotACertificateAuthority
    | UnknownCriticalExtension
    | PathLengthExceeded
    | TooManyHops

  const MAX_HOPS: nat := 16

  // ----- What a certification path is: conditions on the certificates, no check is named -----

  ghost predicate InDate(ctx: Context, c: Certificate) { c.notBefore <= ctx.now && ctx.now <= c.notAfter }

  /** Some pinned root has the same encoding. */
  ghost predicate InRoots(ctx: Context, c: Certificate) {
    exists r :: r in ctx.roots && r.der.Some? && r.der == c.der
  }

  /** A CA certificate whose critical extensions are all among the eight that are understood. */
  ghost predicate MayIssue(c: Certificate) {
    && (exists budget :: c.constraints == Present(true, budget))
    && forall e :: c.extensions.Some? && e in c.extensions.value && e.critical ==>
         e.oid in {BasicConstraintsOid, KeyUsageOid, ExtKeyUsageOid, SubjectAltNameOid, SubjectKeyIdentifierOid,
                   AuthorityKeyIdentifierOid, FulcioIssuerV1Oid, FulcioIssuerV2Oid}
  }

  /** One hop holds: signature, CA, extensions, path-length budget. */
  ghost predicate HopHolds(ctx: Context, child: Certificate, issuer: Certificate, below: nat) {
    && ctx.signed(child, issuer) && MayIssue(issuer)
    && forall budget :: issuer.constraints == Present(true, Some(budget)) ==> below <= budget
  }

  /** A self-signed leaf that is itself a pinned root. */
  ghost predicate PinnedSelfSigned(ctx: Context, leaf: Certificate) {
    InRoots(ctx, leaf) && ctx.signed(leaf, leaf) && MayIssue(leaf)
  }

  /** Where issuers come from: the bundle, then the pinned intermediates, then the roots. */
  ghost function Pool(ctx: Context): seq<Certificate> { ctx.bundle + ctx.intermediates + ctx.roots }

  /** c is the first certificate of that subject there. */
  ghost predicate FirstNamed(ctx: Context, subject: string, c: Certificate) {
    exists i :: IsFirst(Pool(ctx), subject, i, c)
  }

  // ----- The checks -----

  function CheckValidity(ctx: Context, c: Certificate): Result<Unit, ChainError> {
    if ctx.now < c.notBefore then Err(NotYetValid)
    else if ctx.now > c.notAfter then Err(Expired)
    else Ok(Unit)
  }

  function CheckIssuerIsCa(c: Certificate): Result<Option<nat>, ChainError> {
    match c.constraints
    case Unparsable => Err(ConstraintsUnparsable)
    case Absent => Err(ConstraintsMissing)
    case Present(ca, pathLen) => if ca then Ok(pathLen) else Err(NotACertificateAuthority)
  }

  predicate CriticalExtensionsKnown(c: Certificate) {
    c.extensions.Some? ==>
      forall i :: 0 <= i < |c.extensions.value| ==>
                    c.extensions.value[i].critical ==> !c.extensions.value[i].oid.OtherOid?
  }

  predicate CertEq(a: Certificate, b: Certificate) { a.der.Some? && a.der == b.der }

  predicate Pinned(ctx: Context, c: Certificate): (b: bool)
    ensures b <==> InRoots(ctx, c)
  {
    exists i :: 0 <= i < |ctx.roots| && CertEq(ctx.roots[i], c)
  }

  predicate SelfIssued(c: Certificate) { c.subject == c.issuer }

  function FirstWithSubject(pool: seq<Certificate>, subject: string): (r: Option<Certificate>)
    ensures r.Some? ==> r.value in pool && r.value.subject == subject
    ensures r.None? <==> forall c :: c in pool ==> c.subject != subject
  {
    if pool == [] then None
    else if pool[0].subject == subject then Some(pool[0])
    else FirstWithSubject(pool[1..], subject)
  }

  lemma {:induction false} FirstIsFirst(pool: seq<Certificate>, subject: string)
    requires FirstWithSubject(pool, subject).Some?
    ensures exists i :: IsFirst(pool, subject, i, FirstWithSubject(pool, subject).value)
  {
    if pool[0].subject == subject {
      assert IsFirst(pool, subject, 0, pool[0]);
    } else {
      FirstIsFirst(pool[1..], subject);
      var c := FirstWithSubject(pool[1..], subject).value;
      var i :| IsFirst(pool[1..], subject, i, c);
      assert IsFirst(pool, subject, i + 1, c);
    }
  }

  ghost predicate IsFirst(pool: seq<Certificate>, subject: string, i: int, c: Certificate) {
    0 <= i < |pool| && pool[i] == c && c.subject == subject && forall j :: 0 <= j < i ==> pool[j].subject != subject
  }

  /** First match by subject in the bundle, then the pinned intermediates, then the roots. */
  function FindIssuer(ctx: Context, subject: string): Option<Certificate> {
    var fromBundle := FirstWithSubject(ctx.bundle, subject);
    var fromIntermediates := FirstWithSubject(ctx.intermediates, subject);
    if fromBundle.Some? then fromBundle
    else if fromIntermediates.Some? then fromIntermediates
    else FirstWithSubject(ctx.roots, subject)
  }

  /** The search finds the first pool certificate of the subject, or there is none. */
  lemma {:induction false} FindIssuerFinds(ctx: Context, subject: string)
    ensures var r := FindIssuer(ctx, subject);
            && (r.Some? ==>
                  && r.value in Pool(ctx) && r.value.subject == subject
                  && FirstNamed(ctx, subject, r.value)
                  && forall c :: FirstNamed(ctx, subject, c) ==> c == r.value)
            && (r.None? ==> forall c :: c in Pool(ctx) ==> c.subject != subject)
  {
    FirstOfTwo(ctx.bundle, ctx.intermediates, subject);
    FirstOfTwo(ctx.bundle + ctx.intermediates, ctx.roots, subject);
    hide FirstWithSubject;
    if FindIssuer(ctx, subject).Some? { FirstIsFirst(Pool(ctx), subject); }
  }

  lemma {:induction false} FirstOfTwo(a: seq<Certificate>, b: seq<Certificate>, subject: string)
    ensures FirstWithSubject(a + b, subject) ==
            if FirstWithSubject(a, subject).Some? then FirstWithSubject(a, subject) else FirstWithSubject(b, subject)
  {
    if a == [] {
      assert a + b == b;
    } else {
      assert (a + b)[1..] == a[1..] + b;
      FirstOfTwo(a[1..], b, subject);
    }
  }

  /** The checks on one hop from `current` to its chosen issuer, in the order they are made. */
  function CheckHop(ctx: Context, current: Certificate, issuer: Certificate, below: nat): (r: Result<Unit, ChainError>)
    ensures r.Ok? <==> HopHolds(ctx, current, issuer, below)
  {
    if !ctx.signed(current, issuer) then Err(SignatureInvalid)
    else
      match CheckIssuerIsCa(issuer)
      case Err(e) => Err(e)
      case Ok(budget) =>
        if !CriticalExtensionsKnown(issuer) then Err(UnknownCriticalExtension)
        else if budget.Some? && below > budget.value then Err(PathLengthExceeded)
        else Ok(Unit)
  }

  function CheckSelfSigned(ctx: Context, current: Certificate): (r: Result<Unit, ChainError>)
    ensures r.Ok? <==> PinnedSelfSigned(ctx, current)
  {
    if !Pinned(ctx, current) then Err(SelfSignedNotPinned)
    else if !ctx.signed(current, current) then Err(SignatureInvalid)
    else
      match CheckIssuerIsCa(current)
      case Err(e) => Err(e)
      case Ok(_) => if CriticalExtensionsKnown(current) then Ok(Unit) else Err(UnknownCriticalExtension)
  }

  /** The walk from `current` with `below` intermediates walked and `hops` hops left. */
  function WalkFrom(ctx: Context, current: Certificate, below: nat, hops: nat): Result<Unit, ChainError>
    decreases hops
  {
    if hops == 0 then Err(TooManyHops)
    else if CheckValidity(ctx, current).Err? then CheckValidity(ctx, current)
    else if SelfIssued(current) then CheckSelfSigned(ctx, current)
    else
      match FindIssuer(ctx, current.issuer)
      case None => Err(UnknownIssuer)
      case Some(issuer) =>
        var hop := CheckHop(ctx, current, issuer, below);
        if hop.Err? then hop
        else if Pinned(ctx, issuer) then CheckValidity(ctx, issuer)
        else WalkFrom(ctx, issuer, below + 1, hops - 1)
  }

  method VerifyChain(ctx: Context, leaf: Certificate) returns (r: Result<Unit, ChainError>)
    ensures r == WalkFrom(ctx, leaf, 0, MAX_HOPS)
    ensures r.Ok? <==>
            if leaf.subject == leaf.issuer then InDate(ctx, leaf) && PinnedSelfSigned(ctx, leaf)
            else exists path :: |path| <= 16 && IsPath(ctx, leaf, path, 0) && FollowsFirstMatch(ctx, leaf, path)
  {
    AcceptsExactlyFirstMatchPaths(ctx, leaf);
    hide CheckHop, FindIssuer, Pinned, CheckSelfSigned, IsPath, FollowsFirstMatch, InDate, PinnedSelfSigned;
    var current := leaf;
    var intermediatesBelowNextIssuer := 0;
    for hop := 0 to MAX_HOPS
      invariant intermediatesBelowNextIssuer == hop
      invariant WalkFrom(ctx, current, hop, MAX_HOPS - hop) == WalkFrom(ctx, leaf, 0, MAX_HOPS)
    {
      var validity := CheckValidity(ctx, current);
      if validity.Err? { return validity; }
      if SelfIssued(current) { return CheckSelfSigned(ctx, current); }
      var issuer := FindIssuer(ctx, current.issuer);
      if issuer.None? { return Err(UnknownIssuer); }
      var checked := CheckHop(ctx, current, issuer.value, intermediatesBelowNextIssuer);
      if checked.Err? { return checked; }
      if Pinned(ctx, issuer.value) { return CheckValidity(ctx, issuer.value); }
      intermediatesBelowNextIssuer := SaturatingAdd(intermediatesBelowNextIssuer, 1, U32_MAX);
      current := issuer.value;
    }
    return Err(TooManyHops);
  }

  function Child(leaf: Certificate, path: seq<Certificate>, i: nat): Certificate
    requires i <= |path|
  {
    if i == 0 then leaf else path[i - 1]
  }

  /** path[i] comes from the pool, is in date, and may issue the certificate below it with
      `below + i` intermediates underneath. */
  ghost predicate Link(ctx: Context, leaf: Certificate, path: seq<Certificate>, below: nat, i: nat)
    requires i < |path|
  {
    && path[i] in Pool(ctx)
    && path[i].subject == Child(leaf, path, i).issuer
    && InDate(ctx, path[i])
    && HopHolds(ctx, Child(leaf, path, i), path[i], below + i)
  }

  /** A certification path: path[0] issued the leaf, path[i] issued path[i - 1], every
      certificate is in date, and the last issuer is a pinned root. */
  ghost predicate IsPath(ctx: Context, leaf: Certificate, path: seq<Certificate>, below: nat) {
    && path != []
    && InDate(ctx, leaf)
    && InRoots(ctx, path[|path| - 1])
    && forall i :: 0 <= i < |path| ==> Link(ctx, leaf, path, below, i)
  }

  /** The walk commits to the first pool certificate of each subject. */
  ghost predicate FollowsFirstMatch(ctx: Context, leaf: Certificate, path: seq<Certificate>) {
    forall i :: 0 <= i < |path| ==> FirstNamed(ctx, Child(leaf, path, i).issuer, path[i])
  }

  lemma {:induction false} FirstNamedIsFound(ctx: Context, subject: string, c: Certificate)
    ensures FirstNamed(ctx, subject, c) <==> FindIssuer(ctx, subject) == Some(c)
  {
    FindIssuerFinds(ctx, subject);
    hide FindIssuer;
    if FirstNamed(ctx, subject, c) {
      var i :| IsFirst(Pool(ctx), subject, i, c);
      assert c in Pool(ctx) && c.subject == subject;
    }
  }

  lemma {:induction false} LinkShift(ctx: Context, leaf: Certificate, path: seq<Certificate>, below: nat, i: nat)
    requires i + 1 < |path|
    ensures Child(path[0], path[1..], i) == Child(leaf, path, i + 1) && path[1..][i] == path[i + 1]
    ensures Link(ctx, path[0], path[1..], below + 1, i) == Link(ctx, leaf, path, below, i + 1)
  {
  }

  lemma {:induction false} PathTail(ctx: Context, leaf: Certificate, path: seq<Certificate>, below: nat)
    requires |path| > 1 && IsPath(ctx, leaf, path, below) && FollowsFirstMatch(ctx, leaf, path)
    ensures IsPath(ctx, path[0], path[1..], below + 1) && FollowsFirstMatch(ctx, path[0], path[1..])
  {
    hide FirstNamed, InRoots, HopHolds;
    assert Link(ctx, leaf, path, below, 0);
    forall i: nat | i < |path[1..]|
      ensures Link(ctx, path[0], path[1..], below + 1, i)
      ensures FirstNamed(ctx, Child(path[0], path[1..], i).issuer, path[1..][i])
    {
      LinkShift(ctx, leaf, path, below, i);
    }
  }

  lemma {:induction false} PathCons(ctx: Context, leaf: Certificate, path: seq<Certificate>, below: nat)
    requires |path| > 1 && InDate(ctx, leaf) && Link(ctx, leaf, path, below, 0)
    requires FirstNamed(ctx, leaf.issuer, path[0])
    requires IsPath(ctx, path[0], path[1..], below + 1) && FollowsFirstMatch(ctx, path[0], path[1..])
    ensures IsPath(ctx, leaf, path, below) && FollowsFirstMatch(ctx, leaf, path)
  {
    hide Link, FirstNamed, InRoots;
    forall i: nat | i < |path|
      ensures Link(ctx, leaf, path, below, i)
      ensures FirstNamed(ctx, Child(leaf, path, i).issuer, path[i])
    {
      if i > 0 {
        LinkShift(ctx, leaf, path, below, i - 1);
        assert Link(ctx, path[0], path[1..], below + 1, i - 1);
      }
    }
  }

  /** Soundness of the walk: an accepted certificate is a pinned self-signed root in date, or it
      is not self-issued and there is a path of at most `hops` issuers whose only pinned issuer is
      the last one and none of whose other issuers is self-issued (so the self-signed branch
      accepts only a leaf). */
  lemma {:induction false} WalkFindsPath(ctx: Context, current: Certificate, below: nat, hops: nat)
    returns (path: seq<Certificate>)
    requires WalkFrom(ctx, current, below, hops).Ok?
    ensures current.subject == current.issuer ==> InDate(ctx, current) && PinnedSelfSigned(ctx, current)
    ensures current.subject != current.issuer ==>
            |path| <= hops && IsPath(ctx, current, path, below) && FollowsFirstMatch(ctx, current, path)
    ensures forall i :: 0 <= i < |path| - 1 ==> !InRoots(ctx, path[i]) && path[i].subject != path[i].issuer
    decreases hops
  {
    if SelfIssued(current) { return []; }
    hide FindIssuer, CriticalExtensionsKnown, Pinned, CheckHop, HopHolds, InRoots, FirstNamed;
    var issuer := FindIssuer(ctx, current.issuer).value;
    FindIssuerFinds(ctx, current.issuer);
    if Pinned(ctx, issuer) {
      path := [issuer];
    } else {
      var rest := WalkFindsPath(ctx, issuer, below + 1, hops - 1);
      path := [issuer] + rest;
      assert path[1..] == rest;
      assert InDate(ctx, issuer);
      PathCons(ctx, current, path, below);
      forall i | 0 <= i < |path| - 1 ensures !InRoots(ctx, path[i]) && path[i].subject != path[i].issuer {
        if i > 0 { assert path[i] == rest[i - 1]; }
      }
    }
  }

  /** A self-issued certificate's first match is itself, so on such a path it is pinned. */
  lemma {:induction false} SelfIssuedIsPinned(ctx: Context, current: Certificate, path: seq<Certificate>, below: nat)
    requires IsPath(ctx, current, path, below) && FollowsFirstMatch(ctx, current, path)
    requires FirstNamed(ctx, current.subject, current) && SelfIssued(current)
    ensures InRoots(ctx, current)
    decreases |path|
  {
    hide FindIssuer, HopHolds, InRoots, FirstNamed;
    assert Link(ctx, current, path, below, 0);
    FindIssuerFinds(ctx, current.issuer);
    assert FirstNamed(ctx, Child(current, path, 0).issuer, path[0]);
    assert path[0] == current;
    if |path| > 1 {
      PathTail(ctx, current, path, below);
      SelfIssuedIsPinned(ctx, path[0], path[1..], below + 1);
    }
  }

  lemma {:induction false} NotSelfIssuedIsFound(
      ctx: Context, current: Certificate, path: seq<Certificate>, below: nat, hops: nat)
    requires IsPath(ctx, current, path, below) && FollowsFirstMatch(ctx, current, path) && |path| <= hops
    requires !SelfIssued(current)
    ensures WalkFrom(ctx, current, below, hops).Ok?
    decreases hops
  {
    hide FindIssuer, CheckHop, HopHolds, Pinned, InRoots, FirstNamed;
    assert Link(ctx, current, path, below, 0);
    assert FirstNamed(ctx, Child(current, path, 0).issuer, path[0]);
    FirstNamedIsFound(ctx, current.issuer, path[0]);
    if !Pinned(ctx, path[0]) {
      PathTail(ctx, current, path, below);
      if SelfIssued(path[0]) { SelfIssuedIsPinned(ctx, path[0], path[1..], below + 1); }
      NotSelfIssuedIsFound(ctx, path[0], path[1..], below + 1, hops - 1);
    }
  }

  lemma {:induction false} SelfIssuedWalk(ctx: Context, current: Certificate, below: nat, hops: nat)
    requires SelfIssued(current) && hops > 0
    ensures WalkFrom(ctx, current, below, hops).Ok? <==> InDate(ctx, current) && PinnedSelfSigned(ctx, current)
  {
    hide FindIssuer, CheckHop;
  }

  /** Completeness of the walk: a first-match path short enough is found, unless it starts at a
      self-issued certificate: that one must be a pinned self-signed root itself. */
  lemma {:induction false} PathIsFound(
      ctx: Context, current: Certificate, path: seq<Certificate>, below: nat, hops: nat)
    requires IsPath(ctx, current, path, below) && FollowsFirstMatch(ctx, current, path) && |path| <= hops
    ensures WalkFrom(ctx, current, below, hops).Ok? <==>
            (current.subject == current.issuer ==> InDate(ctx, current) && PinnedSelfSigned(ctx, current))
  {
    hide WalkFrom, PinnedSelfSigned, InDate;
    if SelfIssued(current) {
      SelfIssuedWalk(ctx, current, below, hops);
    } else {
      NotSelfIssuedIsFound(ctx, current, path, below, hops);
    }
  }

  /** `verify_chain` accepts exactly the pinned self-signed roots in date and the leaves with
      a path of at most 16 issuers, each issuer being the first of its subject. */
  lemma {:induction false} AcceptsExactlyFirstMatchPaths(ctx: Context, leaf: Certificate)
    ensures WalkFrom(ctx, leaf, 0, MAX_HOPS).Ok? <==>
            if leaf.subject == leaf.issuer then InDate(ctx, leaf) && PinnedSelfSigned(ctx, leaf)
            else exists path :: |path| <= 16 && IsPath(ctx, leaf, path, 0) && FollowsFirstMatch(ctx, leaf, path)
  {
    if !SelfIssued(leaf) {
      if WalkFrom(ctx, leaf, 0, MAX_HOPS).Ok? {
        var path := WalkFindsPath(ctx, leaf, 0, MAX_HOPS);
      }
      if path :| |path| <= MAX_HOPS && IsPath(ctx, leaf, path, 0) && FollowsFirstMatch(ctx, leaf, path) {
        PathIsFound(ctx, leaf, path, 0, MAX_HOPS);
      }
    }
  }

  // ----- Why a certificate is refused -----

  /** Who must answer for `c`: itself if it is self-issued and pinned, else its first namesake issuer. */
  ghost predicate AnswersFor(ctx: Context, c: Certificate, issuer: Certificate) {
    if c.subject == c.issuer then InRoots(ctx, c) && issuer == c else FirstNamed(ctx, c.issuer, issuer)
  }

  /** What is wrong at `c`, or at its issuer, when the walk stops there with error e. */
  ghost predicate Fault(ctx: Context, c: Certificate, below: nat, e: ChainError) {
    if c.notBefore > ctx.now then e == NotYetValid
    else if c.notAfter < ctx.now then e == Expired
    else if c.subject == c.issuer && !InRoots(ctx, c) then e == SelfSignedNotPinned
    else if c.subject != c.issuer && c.issuer !in Subjects(Pool(ctx)) then e == UnknownIssuer
    else exists issuer :: AnswersFor(ctx, c, issuer) && IssuerFault(ctx, c, issuer, below, e)
  }

  ghost function Subjects(pool: seq<Certificate>): set<string> { set c | c in pool :: c.subject }

  ghost predicate IssuerFault(ctx: Context, c: Certificate, issuer: Certificate, below: nat, e: ChainError) {
    if !ctx.signed(c, issuer) then e == SignatureInvalid
    else if issuer.constraints == Unparsable then e == ConstraintsUnparsable
    else if issuer.constraints == Absent then e == ConstraintsMissing
    else if !issuer.constraints.ca then e == NotACertificateAuthority
    else if !MayIssue(issuer) then e == UnknownCriticalExtension
    else if !HopHolds(ctx, c, issuer, below) then c.subject != c.issuer && e == PathLengthExceeded
    else
      && c.subject != c.issuer && InRoots(ctx, issuer)
      && (if issuer.notBefore > ctx.now then e == NotYetValid else issuer.notAfter < ctx.now && e == Expired)
  }

  /** The issuers walked through before the walk stops: each the first of its name, in date,
      holding its hop, neither pinned nor self-issued. */
  ghost predicate Trail(ctx: Context, c: Certificate, trail: seq<Certificate>, below: nat) {
    && FollowsFirstMatch(ctx, c, trail)
    && (forall i :: 0 <= i < |trail| ==> HopHolds(ctx, Child(c, trail, i), trail[i], below + i))
    && forall i :: 0 <= i < |trail| ==>
         && Child(c, trail, i).subject != Child(c, trail, i).issuer && InDate(ctx, Child(c, trail, i))
         && !InRoots(ctx, trail[i])
  }

  /** Every refusal: the walk went up such a trail and met the fault it names there, or it went
      up as many issuers as it may. */
  lemma {:induction false} RefusalIsExplained(ctx: Context, c: Certificate, below: nat, hops: nat)
    returns (trail: seq<Certificate>)
    requires WalkFrom(ctx, c, below, hops).Err?
    ensures Trail(ctx, c, trail, below)
    ensures var e := WalkFrom(ctx, c, below, hops).error;
            if |trail| == hops then e == TooManyHops
            else |trail| < hops && Fault(ctx, Child(c, trail, |trail|), below + |trail|, e)
    decreases hops
  {
    hide *;
    trail := [];
    NoTrail(ctx, c, below);
    if hops == 0 {
      NoHopLeft(ctx, c, below);
    } else {
      if StopsHere(ctx, c, below) {
        FaultHere(ctx, c, below, hops);
      } else {
        GoesUp(ctx, c, below, hops);
        var issuer := FindIssuer(ctx, c.issuer).value;
        var rest := RefusalIsExplained(ctx, issuer, below + 1, hops - 1);
        trail := [issuer] + rest;
        TrailCons(ctx, c, issuer, rest, below);
      }
    }
  }

  lemma {:induction false} NoTrail(ctx: Context, c: Certificate, below: nat)
    ensures Trail(ctx, c, [], below) && Child(c, [], 0) == c
  {
  }

  lemma {:induction false} NoHopLeft(ctx: Context, c: Certificate, below: nat)
    ensures WalkFrom(ctx, c, below, 0) == Err(TooManyHops)
  {
  }

  /** The walk ends at c, with success or with an error of its own. */
  predicate StopsHere(ctx: Context, c: Certificate, below: nat) {
    || CheckValidity(ctx, c).Err? || SelfIssued(c) || FindIssuer(ctx, c.issuer).None?
    || CheckHop(ctx, c, FindIssuer(ctx, c.issuer).value, below).Err?
    || Pinned(ctx, FindIssuer(ctx, c.issuer).value)
  }

  lemma {:induction false} GoesUp(ctx: Context, c: Certificate, below: nat, hops: nat)
    requires !StopsHere(ctx, c, below) && hops > 0
    ensures var issuer := FindIssuer(ctx, c.issuer);
            && issuer.Some? && WalkFrom(ctx, c, below, hops) == WalkFrom(ctx, issuer.value, below + 1, hops - 1)
            && FirstNamed(ctx, c.issuer, issuer.value) && HopHolds(ctx, c, issuer.value, below)
            && InDate(ctx, c) && c.subject != c.issuer && !InRoots(ctx, issuer.value)
  {
    FindIssuerFinds(ctx, c.issuer);
    hide FindIssuer, FirstNamed, InRoots, HopHolds;
  }

  lemma {:induction false} FaultHere(ctx: Context, c: Certificate, below: nat, hops: nat)
    requires StopsHere(ctx, c, below) && hops > 0 && WalkFrom(ctx, c, below, hops).Err?
    ensures Fault(ctx, c, below, WalkFrom(ctx, c, below, hops).error)
  {
    FindIssuerFinds(ctx, c.issuer);
    var e, found := WalkFrom(ctx, c, below, hops).error, FindIssuer(ctx, c.issuer);
    hide FindIssuer, FirstNamed, InRoots, Pool, Pinned;
    if CheckValidity(ctx, c).Ok? && SelfIssued(c) && Pinned(ctx, c) {
      assert AnswersFor(ctx, c, c) && IssuerFault(ctx, c, c, below, e);
    } else if CheckValidity(ctx, c).Ok? && !SelfIssued(c) && found.Some? {
      assert AnswersFor(ctx, c, found.value) && IssuerFault(ctx, c, found.value, below, e);
    }
  }

  lemma {:induction false} TrailCons(
      ctx: Context, c: Certificate, issuer: Certificate, rest: seq<Certificate>, below: nat)
    requires FirstNamed(ctx, c.issuer, issuer) && HopHolds(ctx, c, issuer, below)
    requires InDate(ctx, c) && c.subject != c.issuer && !InRoots(ctx, issuer)
    requires Trail(ctx, issuer, rest, below + 1)
    ensures Trail(ctx, c, [issuer] + rest, below)
    ensures Child(c, [issuer] + rest, |rest| + 1) == Child(issuer, rest, |rest|)
  {
    hide FirstNamed, HopHolds, InRoots, InDate;
    var trail := [issuer] + rest;
    forall i | 0 < i < |trail|
      ensures Child(c, trail, i) == Child(issuer, rest, i - 1) && trail[i] == rest[i - 1]
      ensures HopHolds(ctx, Child(c, trail, i), trail[i], below + i)
    {
      assert HopHolds(ctx, Child(issuer, rest, i - 1), rest[i - 1], below + 1 + (i - 1));
    }
  }

  /** A namesake of a root is not a root: a chain to a self-issued certificate that carries a
      root's name but not its encoding is refused. */
  lemma {:induction false} NamesakeOfARootIsRefused(ctx: Context, leaf: Certificate, namesake: Certificate)
    requires leaf.subject != leaf.issuer && FirstNamed(ctx, leaf.issuer, namesake)
    requires namesake.subject == namesake.issuer
    requires forall r :: r in ctx.roots ==> r.der != namesake.der
    ensures WalkFrom(ctx, leaf, 0, MAX_HOPS).Err?
    ensures InDate(ctx, leaf) && InDate(ctx, namesake) && HopHolds(ctx, leaf, namesake, 0) ==>
              WalkFrom(ctx, leaf, 0, MAX_HOPS) == Err(SelfSignedNotPinned)
  {
    FirstNamedIsFound(ctx, leaf.issuer, namesake);
    hide FindIssuer, FirstNamed, HopHolds, CheckHop;
    assert !Pinned(ctx, namesake);
    assert WalkFrom(ctx, namesake, 1, 15).Err?;
  }

  ghost predicate DistinctSubjects(ctx: Context) {
    forall a, b :: a in Pool(ctx) && b in Pool(ctx) && a.subject == b.subject ==> a == b
  }

  /** With distinct subjects in the pool no path is missed; a self-issued leaf is accepted only
      as a pinned self-signed root in date, whatever paths it has. */
  lemma {:induction false} DistinctSubjectsMissNoPath(ctx: Context, leaf: Certificate)
    requires DistinctSubjects(ctx)
    ensures WalkFrom(ctx, leaf, 0, MAX_HOPS).Ok? <==>
            if leaf.subject == leaf.issuer then InDate(ctx, leaf) && PinnedSelfSigned(ctx, leaf)
            else exists path :: |path| <= MAX_HOPS && IsPath(ctx, leaf, path, 0)
  {
    AcceptsExactlyFirstMatchPaths(ctx, leaf);
    forall path: seq<Certificate> | IsPath(ctx, leaf, path, 0) ensures FollowsFirstMatch(ctx, leaf, path) {
      forall i | 0 <= i < |path| ensures FirstNamed(ctx, Child(leaf, path, i).issuer, path[i]) {
        assert Link(ctx, leaf, path, 0, i);
        FindIssuerFinds(ctx, path[i].subject);
      }
    }
  }

  /** Otherwise one can be: an expired copy in the bundle hides a pinned root of its name. */
  lemma {:induction false} FirstMatchCanHideARoot() returns (ctx: Context, leaf: Certificate, root: Certificate)
    ensures IsPath(ctx, leaf, [root], 0) && WalkFrom(ctx, leaf, 0, MAX_HOPS) == Err(Expired)
  {
    root := Certificate("ca", "ca", 0, 10, Some([1]), Present(true, None), None);
    var stale := root.(notAfter := 1, der := Some([2]));
    leaf := Certificate("leaf", "ca", 0, 10, Some([3]), Absent, None);
    ctx := Context(5, [stale], [], [root], (c, i) => true);
    assert ctx.roots[0] == root;
    assert root in Pool(ctx);
    assert Link(ctx, leaf, [root], 0, 0);
    assert WalkFrom(ctx, leaf, 0, 16) == WalkFrom(ctx, stale, 1, 15);
  }
}
