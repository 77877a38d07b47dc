/** Option and Result, the shapes the Rust code returns everywhere, and the byte types. */
module Prelude {
  datatype Option<+T> = None | Some(value: T)

  datatype Result<+T, +E> = Ok(value: T) | Err(error: E)

  datatype Unit = Unit

  type byte = b: int | 0 <= b < 256

  /** `u64::MAX` and `u32::MAX`. */
  const U64_MAX: nat := 0xFFFF_FFFF_FFFF_FFFF
  const U32_MAX: nat := 0xFFFF_FFFF

  function Min(a: nat, b: nat): nat { if a <= b then a else b }

  function Max(a: nat, b: nat): nat { if a <= b then b else a }

  function SaturatingAdd(a: nat, b: nat, max: nat): nat { Min(a + b, max) }

  /** Token usage; totals saturate at `u32::MAX`. */
  datatype Usage = Usage(inputTokens: nat, outputTokens: nat)

  const NO_USAGE := Usage(0, 0)

  function AddUsage(a: Usage, b: Usage): Usage {
    Usage(SaturatingAdd(a.inputTokens, b.inputTokens, U32_MAX), SaturatingAdd(a.outputTokens, b.outputTokens, U32_MAX))
  }

  function Pow2(e: nat): (p: nat)
    ensures p >= 1
  {
    if e == 0 then 1 else 2 * Pow2(e - 1)
  }

  lemma {:induction false} Pow2Sum(a: nat, b: nat)
    ensures Pow2(a + b) == Pow2(a) * Pow2(b)
  {
    if a > 0 { Pow2Sum(a - 1, b); }
  }

  lemma {:induction false} InitLast<T>(s: seq<T>)
    requires s != []
    ensures s == s[..|s| - 1] + [s[|s| - 1]]
  {
  }

  lemma {:induction false} ConcatAssoc<T>(a: seq<T>, b: seq<T>, c: seq<T>)
    ensures (a + b) + c == a + (b + c)
  {
  }

  /** What `f` takes from each element, in order. */
  function Collect<T, U>(s: seq<T>, f: T -> seq<U>): seq<U> {
    if s == [] then [] else Collect(s[..|s| - 1], f) + f(s[|s| - 1])
  }

  lemma {:induction false} CollectConcat<T, U>(a: seq<T>, b: seq<T>, f: T -> seq<U>)
    ensures Collect(a + b, f) == Collect(a, f) + Collect(b, f)
  {
    if b == [] {
      assert a + b == a;
    } else {
      assert (a + b)[..|a + b| - 1] == a + b[..|b| - 1];
      CollectConcat(a, b[..|b| - 1], f);
    }
  }

  lemma {:induction false} CollectOne<T, U>(e: T, f: T -> seq<U>)
    ensures Collect([e], f) == f(e)
    ensures Collect([], f) == []
  {
    assert [e][..0] == [];
  }
}
