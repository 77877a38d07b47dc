/** The Luhn check on text with separators, and the typing errors it catches. */
module Luhn {
  predicate IsDigit(c: char) { '0' <= c <= '9' }

  function Value(c: char): nat
    requires IsDigit(c)
  {
    c as int - '0' as int
  }

  type Digit = d: nat | d < 10

  function Digits(s: string): seq<Digit> {
    if s == "" then []
    else
      var n := |s| - 1;
      if IsDigit(s[n]) then Digits(s[..n]) + [Value(s[n])] else Digits(s[..n])
  }

  /** A digit in an odd place from the right counts double, cast out to one digit. */
  function Weight(place: nat, d: Digit): Digit {
    if place % 2 == 0 then d else if 2 * d > 9 then 2 * d - 9 else 2 * d
  }

  /** Weighted sum of digits that `after` more digits follow. */
  function Sum(ds: seq<Digit>, after: nat): nat {
    if ds == [] then 0 else Sum(ds[..|ds| - 1], after + 1) + Weight(after, ds[|ds| - 1])
  }

  predicate Accepts(s: string) {
    var ds := Digits(s);
    13 <= |ds| <= 19 && Sum(ds, 0) % 10 == 0
  }

  // ----- The textbook rule, from the left -----

  ghost function NumeralOf(c: char): seq<Digit> {
    match c
    case '0' => [0]
    case '1' => [1]
    case '2' => [2]
    case '3' => [3]
    case '4' => [4]
    case '5' => [5]
    case '6' => [6]
    case '7' => [7]
    case '8' => [8]
    case '9' => [9]
    case _ => []
  }

  /** The decimal digits of a text, whatever else is in it. */
  ghost function Numerals(s: string): seq<Digit> {
    if s == "" then [] else NumeralOf(s[0]) + Numerals(s[1..])
  }

  /** Every second digit counted from the right is doubled, and the decimal digits of the double
      are added up: the leftmost of an even number of digits is one of those. */
  ghost function Textbook(ds: seq<Digit>): nat {
    if ds == [] then 0
    else (if |ds| % 2 == 0 then (2 * ds[0]) / 10 + (2 * ds[0]) % 10 else ds[0]) + Textbook(ds[1..])
  }

  ghost predicate IsLuhnNumber(s: string) {
    13 <= |Numerals(s)| <= 19 && Textbook(Numerals(s)) % 10 == 0
  }

  lemma {:induction false} DigitsAreNumerals(s: string)
    ensures Digits(s) == Numerals(s)
  {
    if s != "" {
      OneNumeral(s[0]);
      hide Digits, NumeralOf;
      assert s == [s[0]] + s[1..];
      DigitsConcat([s[0]], s[1..]);
      DigitsAreNumerals(s[1..]);
    }
  }

  lemma {:induction false} OneNumeral(c: char)
    ensures Digits([c]) == NumeralOf(c)
  {
    assert [c][..0] == "";
  }

  lemma {:induction false} SumIsTextbook(ds: seq<Digit>)
    ensures Sum(ds, 0) == Textbook(ds)
  {
    if ds != [] {
      var rest := ds[1..];
      assert ds == [ds[0]] + rest;
      SumOfOne(ds[0], |rest|);
      hide Sum;
      SumConcat([ds[0]], rest, 0);
      SumIsTextbook(rest);
    }
  }

  lemma {:induction false} SumOfOne(d: Digit, after: nat)
    ensures Sum([d], after) == if after % 2 == 1 then (2 * d) / 10 + (2 * d) % 10 else d
  {
    assert [d][..0] == [];
  }

  /** The check accepts exactly the Luhn numbers of the textbook. */
  lemma {:induction false} AcceptsLuhnNumbers(s: string)
    ensures Accepts(s) <==> IsLuhnNumber(s)
  {
    DigitsAreNumerals(s);
    SumIsTextbook(Digits(s));
    hide Digits, Sum, Numerals, Textbook;
  }

  method LuhnCheck(s: string) returns (ok: bool)
    ensures ok <==> IsLuhnNumber(s)
    ensures ok == Accepts(s)
  {
    AcceptsLuhnNumbers(s);
    hide IsLuhnNumber;
    var digits: seq<Digit> := [];
    for k := 0 to |s|
      invariant digits == Digits(s[..k])
    {
      assert s[..k + 1][..k] == s[..k];
      if IsDigit(s[k]) { digits := digits + [Value(s[k])]; }
    }
    assert s[..|s|] == s;
    if |digits| < 13 || |digits| > 19 { return false; }
    ok := CheckSum(digits);
  }

  method CheckSum(digits: seq<Digit>) returns (ok: bool)
    ensures ok == (Sum(digits, 0) % 10 == 0)
  {
    var sum: nat := 0;
    assert digits[..|digits|] == digits;
    for i := 0 to |digits|
      invariant Sum(digits, 0) == Sum(digits[..|digits| - i], i) + sum
    {
      var last := |digits| - 1 - i;
      var x: nat := digits[last];
      assert digits[..|digits| - i][..last] == digits[..last];
      if i % 2 == 1 {
        x := x * 2;
        if x > 9 { x := x - 9; }
      }
      sum := sum + x;
    }
    ok := sum % 10 == 0;
  }

  // ----- The sum over a text cut in pieces -----

  lemma {:induction false} DigitsConcat(a: string, b: string)
    ensures Digits(a + b) == Digits(a) + Digits(b)
  {
    if b == "" {
      assert a + b == a;
    } else {
      assert (a + b)[..|a + b| - 1] == a + b[..|b| - 1];
      DigitsConcat(a, b[..|b| - 1]);
    }
  }

  lemma {:induction false} SumConcat(a: seq<Digit>, b: seq<Digit>, after: nat)
    ensures Sum(a + b, after) == Sum(a, |b| + after) + Sum(b, after)
  {
    if b == [] {
      assert a + b == a;
    } else {
      assert (a + b)[..|a + b| - 1] == a + b[..|b| - 1];
      SumConcat(a, b[..|b| - 1], after + 1);
    }
  }

  /** What one digit contributes, wherever it stands. */
  lemma {:induction false} OneDigit(a: string, c: char, b: string)
    requires IsDigit(c)
    ensures var n := |Digits(b)|;
            && |Digits(a + [c] + b)| == |Digits(a)| + 1 + n
            && Sum(Digits(a + [c] + b), 0) == Sum(Digits(a), 1 + n) + Weight(n, Value(c)) + Sum(Digits(b), 0)
  {
    var ac, n := a + [c], |Digits(b)|;
    assert ac[..|a|] == a;
    var x := Digits(a) + [Value(c)];
    assert Digits(ac) == x && x[..|x| - 1] == Digits(a);
    assert Sum(x, n) == Sum(Digits(a), n + 1) + Weight(n, Value(c));
    hide Digits, Sum;
    DigitsConcat(ac, b);
    SumConcat(x, Digits(b), 0);
  }

  /** Doubling and casting out is a permutation of the digits. */
  lemma {:induction false} WeightInjective(place: nat, d: Digit, e: Digit)
    requires Weight(place, d) == Weight(place, e)
    ensures d == e
  {
  }

  /** A single mistyped digit is always caught. */
  lemma {:induction false} SingleErrorCaught(a: string, c: char, d: char, b: string)
    requires IsDigit(c) && IsDigit(d) && Accepts(a + [c] + b)
    ensures Accepts(a + [d] + b) <==> c == d
  {
    OneDigit(a, c, b);
    OneDigit(a, d, b);
    var n := |Digits(b)|;
    hide Digits, Sum, Weight;
    Remainders(Sum(Digits(a), 1 + n) + Sum(Digits(b), 0), Weight(n, Value(c)), Weight(n, Value(d)));
    if Accepts(a + [d] + b) { WeightInjective(n, Value(c), Value(d)); }
  }

  lemma {:induction false} Remainders(rest: nat, p: nat, q: nat)
    requires (rest + p) % 10 == 0
    ensures (rest + q) % 10 == 0 <==> (p - q) % 10 == 0
    ensures p < 10 && q < 10 ==> ((p - q) % 10 == 0 <==> p == q)
  {
  }

  /** Two neighbouring digits, with only separators between them, swapped: caught exactly when
      they differ and are not 0 and 9. */
  lemma {:induction false} SwapCaught(a: string, c: char, gap: string, d: char, b: string)
    requires IsDigit(c) && IsDigit(d) && Digits(gap) == []
    requires Accepts(a + [c] + gap + [d] + b)
    ensures Accepts(a + [d] + gap + [c] + b) <==> c == d || {c, d} == {'0', '9'}
  {
    hide Digits, Sum, Weight;
    var n, u, v := |Digits(b)|, Value(c), Value(d);
    TwoDigits(a, c, gap, d, b);
    TwoDigits(a, d, gap, c, b);
    SwapWeights(n, u, v);
    assert {c, d} == {'0', '9'} <==> (c == '0' && d == '9') || (c == '9' && d == '0');
    Remainders(Sum(Digits(a), 2 + n) + Sum(Digits(b), 0),
               Weight(n + 1, u) + Weight(n, v), Weight(n + 1, v) + Weight(n, u));
  }

  lemma {:induction false} TwoDigits(a: string, c: char, gap: string, d: char, b: string)
    requires IsDigit(c) && IsDigit(d) && Digits(gap) == []
    ensures var n := |Digits(b)|;
            var s := a + [c] + gap + [d] + b;
            && |Digits(s)| == |Digits(a)| + 2 + n
            && Sum(Digits(s), 0) ==
               Sum(Digits(a), 2 + n) + Weight(n + 1, Value(c)) + Weight(n, Value(d)) + Sum(Digits(b), 0)
  {
    var rest := gap + [d] + b;
    OneDigit(a, c, rest);
    OneDigit(gap, d, b);
    assert a + [c] + rest == a + [c] + gap + [d] + b;
  }

  lemma {:induction false} SwapWeights(n: nat, c: Digit, d: Digit)
    ensures ((Weight(n + 1, c) + Weight(n, d)) - (Weight(n + 1, d) + Weight(n, c))) % 10 == 0 <==>
            c == d || (c == 0 && d == 9) || (c == 9 && d == 0)
  {
    if n % 2 == 0 {
      assert (n + 1) % 2 == 1;
    } else {
      assert (n + 1) % 2 == 0;
    }
  }
}
