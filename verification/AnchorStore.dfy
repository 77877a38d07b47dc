/** The two stores that carry the freshness anchor across restarts and replicas: the Redis
    script, which compares through Lua doubles, and the JSON file, which overwrites. */
module AnchorStore {
  import opened Prelude

  const TWO_53: nat := 9007199254740992

  /** n rounded to a multiple of `unit`, to nearest, ties to an even multiple. */
  function RoundTo(n: nat, unit: nat): nat
    requires unit > 0
  {
    Nearest(n / unit, n % unit, unit) * unit
  }

  function Nearest(quotient: nat, rest: nat, unit: nat): nat {
    if 2 * rest < unit || (2 * rest == unit && quotient % 2 == 0) then quotient else quotient + 1
  }

  /** `tonumber`: the IEEE double nearest to n. Up to 2^53 doubles are spaced 1 apart, then
      2 apart up to 2^54, and so on. */
  function ToDoubleFrom(n: nat, spacing: nat): nat
    requires spacing > 0
    decreases n - spacing
  {
    if n <= TWO_53 * spacing then RoundTo(n, spacing) else ToDoubleFrom(n, 2 * spacing)
  }

  function ToDouble(n: nat): nat { ToDoubleFrom(n, 1) }

  lemma {:induction false} RoundToBounds(n: nat, unit: nat)
    requires unit > 0
    ensures (n / unit) * unit <= RoundTo(n, unit) <= (n / unit + 1) * unit
    ensures n % unit == 0 ==> RoundTo(n, unit) == n
  {
  }

  lemma {:induction false} ProductMonotone(a: nat, b: nat, c: nat)
    requires a <= b
    ensures a * c <= b * c
  {
  }

  lemma {:induction false} RoundToMonotone(a: nat, b: nat, unit: nat)
    requires unit > 0 && a <= b
    ensures RoundTo(a, unit) <= RoundTo(b, unit)
  {
    NearestMonotone(a, b, unit);
    hide Nearest;
    ProductMonotone(Nearest(a / unit, a % unit, unit), Nearest(b / unit, b % unit, unit), unit);
  }

  lemma {:induction false} NearestMonotone(a: nat, b: nat, unit: nat)
    requires unit > 0 && a <= b
    ensures Nearest(a / unit, a % unit, unit) <= Nearest(b / unit, b % unit, unit)
  {
    if a / unit >= b / unit { SameQuotient(a, b, unit); }
  }

  lemma {:induction false} SameQuotient(a: nat, b: nat, unit: nat)
    requires unit > 0 && a <= b && a / unit >= b / unit
    ensures a / unit == b / unit && a % unit <= b % unit
  {
    DivMod(a, unit);
    DivMod(b, unit);
    if b / unit < a / unit { ProductMonotone(b / unit + 1, a / unit, unit); }
  }

  lemma {:induction false} DivMod(n: nat, unit: nat)
    requires unit > 0
    ensures n == (n / unit) * unit + n % unit && 0 <= n % unit < unit
  {
  }

  /** Above 2^53 * spacing no double is below that power. */
  lemma {:induction false} ToDoubleFromBelow(n: nat, spacing: nat)
    requires spacing > 0 && n >= TWO_53 * spacing
    ensures ToDoubleFrom(n, 2 * spacing) >= TWO_53 * spacing
    decreases n - spacing
  {
    if n <= TWO_53 * (2 * spacing) {
      var half, unit := TWO_53 / 2, 2 * spacing;
      assert half * unit == TWO_53 * spacing;
      MultipleBelow(n, unit, half);
      ProductMonotone(half, n / unit, unit);
      RoundToBounds(n, unit);
    } else {
      ToDoubleFromBelow(n, 2 * spacing);
    }
  }

  lemma {:induction false} MultipleBelow(n: nat, unit: nat, k: nat)
    requires unit > 0 && k * unit <= n
    ensures k <= n / unit
  {
    if n / unit < k { ProductMonotone(n / unit + 1, k, unit); }
  }

  lemma {:induction false} ToDoubleFromMonotone(a: nat, b: nat, spacing: nat)
    requires spacing > 0 && a <= b
    ensures ToDoubleFrom(a, spacing) <= ToDoubleFrom(b, spacing)
    decreases b - spacing
  {
    if b <= TWO_53 * spacing {
      RoundToMonotone(a, b, spacing);
    } else if a <= TWO_53 * spacing {
      ToDoubleFromBelow(b, spacing);
      RoundToMonotone(a, TWO_53 * spacing, spacing);
      MultipleRoundsToItself(TWO_53, spacing);
    } else {
      ToDoubleFromMonotone(a, b, 2 * spacing);
    }
  }

  lemma {:induction false} MultipleRoundsToItself(k: nat, unit: nat)
    requires unit > 0
    ensures RoundTo(k * unit, unit) == k * unit
  {
    DivMod(k * unit, unit);
    MultipleBelow(k * unit, unit, k);
    if k < (k * unit) / unit { ProductMonotone(k + 1, (k * unit) / unit, unit); }
  }

  /** The comparison the script makes is monotone, and exact up to 2^53. */
  lemma {:induction false} ToDoubleMonotone(a: nat, b: nat)
    ensures a <= b ==> ToDouble(a) <= ToDouble(b)
    ensures a <= TWO_53 ==> ToDouble(a) == a
  {
    if a <= b { ToDoubleFromMonotone(a, b, 1); }
  }

  /** d is a multiple of u nearest to n; halfway between two, it is the even multiple. */
  ghost predicate IsNearest(n: nat, u: nat, d: nat)
    requires u > 0
  {
    exists q: nat ::
      && d == q * u && 2 * (n - q * u) <= u && 2 * (q * u - n) <= u
      && (2 * (n - q * u) == u || 2 * (q * u - n) == u ==> q % 2 == 0)
  }

  /** Rounding as IEEE 754 has it for 53-bit significands: the spacing is the least power of two
      that keeps n within 2^53 spacings, and the double is the nearest multiple of it, to even. */
  lemma {:induction false} ToDoubleIsNearest(n: nat) returns (e: nat)
    ensures n <= 9007199254740992 * Pow2(e)
    ensures e > 0 ==> n > 9007199254740992 * Pow2(e - 1)
    ensures IsNearest(n, Pow2(e), ToDouble(n))
  {
    e := NearestFrom(n, 0);
  }

  lemma {:induction false} NearestFrom(n: nat, from: nat) returns (e: nat)
    requires from > 0 ==> n > TWO_53 * Pow2(from - 1)
    ensures n <= TWO_53 * Pow2(e)
    ensures e > 0 ==> n > TWO_53 * Pow2(e - 1)
    ensures IsNearest(n, Pow2(e), ToDoubleFrom(n, Pow2(from)))
    decreases n - Pow2(from)
  {
    if n <= TWO_53 * Pow2(from) {
      e := from;
      RoundToIsNearest(n, Pow2(from));
    } else {
      assert Pow2(from + 1) == 2 * Pow2(from);
      e := NearestFrom(n, from + 1);
    }
  }

  lemma {:induction false} RoundToIsNearest(n: nat, u: nat)
    requires u > 0
    ensures IsNearest(n, u, RoundTo(n, u))
  {
    var k, rest := n / u, n % u;
    DivMod(n, u);
    var q := Nearest(k, rest, u);
    OneMoreUnit(k, u);
    assert RoundTo(n, u) == q * u;
  }

  lemma {:induction false} OneMoreUnit(k: nat, u: nat)
    ensures (k + 1) * u == k * u + u
  {
  }

  datatype Kind = Redis | Json

  /** What the store holds after `save(n)`. The script sets the key when
      `tonumber(ARGV[1]) >= tonumber(raw) or 0`; the file is replaced whatever it held. */
  function Saved(kind: Kind, stored: Option<nat>, n: nat): nat {
    if kind.Json? || stored.None? || ToDouble(n) >= ToDouble(stored.value) then n else stored.value
  }

  /** `load`: a missing key or file reads as 0, "no constraint". */
  function Loaded(stored: Option<nat>): nat { if stored.Some? then stored.value else 0 }

  class Store {
    const kind: Kind
    var stored: Option<nat>

    constructor (kind: Kind)
      ensures this.kind == kind && stored == None
    {
      this.kind := kind;
      stored := None;
    }

    method Load() returns (n: nat)
      ensures n == Loaded(stored)
    {
      n := match stored { case None => 0 case Some(v) => v };
    }

    /** Both backends: the Redis script and the file replacement. */
    method Save(n: nat)
      modifies this
      ensures stored == Some(Saved(kind, old(stored), n))
    {
      if kind.Json? {
        stored := Some(n);
      } else {
        var cur := Load();
        ToDoubleMonotone(0, n);
        if ToDouble(n) >= ToDouble(cur) { stored := Some(n); }
      }
    }
  }

  /** The script keeps the maximum of the rounded values. It lowers the key exactly when a
      smaller value rounds to the same double, which needs a value of 2^53 or more. */
  lemma {:induction false} RedisKeepsRoundedMaximum(stored: nat, n: nat)
    ensures ToDouble(Saved(Redis, Some(stored), n)) == Max(ToDouble(stored), ToDouble(n))
    ensures Saved(Redis, Some(stored), n) < stored <==> n < stored && ToDouble(n) == ToDouble(stored)
    ensures Saved(Redis, Some(stored), n) == Max(stored, n) <==> !(n < stored && ToDouble(n) == ToDouble(stored))
    ensures n < stored && ToDouble(n) == ToDouble(stored) ==> n >= TWO_53
  {
    hide ToDouble;
    ToDoubleMonotone(stored, n);
    ToDoubleMonotone(n, stored);
    ToDoubleMonotone(TWO_53, stored);
    ToDoubleMonotone(TWO_53, n);
  }

  /** It does happen: 2^53 replaces 2^53 + 1. */
  lemma {:induction false} RedisCanLowerTheKey()
    ensures Saved(Redis, Some(TWO_53 + 1), TWO_53) == TWO_53 < TWO_53 + 1
  {
    assert ToDoubleFrom(TWO_53 + 1, 1) == ToDoubleFrom(TWO_53 + 1, 2) == RoundTo(TWO_53 + 1, 2) == TWO_53;
    assert ToDoubleFrom(TWO_53, 1) == RoundTo(TWO_53, 1) == TWO_53;
  }
}
