/** The rule guard counts bytes where its documentation counts characters: where the two readings
    differ, and for which lengths they never do. */
module SelfCallerGuard {
  import opened Prelude
  import opened SelfCaller

  /** In UTF-8 the bytes of a character after its first are 10xxxxxx. */
  predicate Continues(b: bv8) { b & 0xC0 == 0x80 }

  function Characters(text: Text): nat {
    if text == [] then 0
    else Characters(text[..|text| - 1]) + if Continues(text[|text| - 1]) then 0 else 1
  }

  /** The guard as documented. */
  function RuleBasedOnCharacters(minChars: nat, pattern: Option<Text -> bool>): Guard {
    Guard(
      (_, _, text) =>
        Ok(if Characters(text) < minChars then 0.0
           else if pattern.Some? && !pattern.value(text) then 0.0 else 1.0),
      (_, _, _, text) =>
        Ok(if Characters(text) < minChars || (pattern.Some? && !pattern.value(text)) then None else Some(1.0)))
  }

  lemma {:induction false} CharactersWithinBytes(text: Text)
    ensures Characters(text) <= |text|
    ensures text != [] && !Continues(text[0]) ==> Characters(text) >= 1
  {
    if text != [] {
      CharactersWithinBytes(text[..|text| - 1]);
    }
  }

  /** A text is good enough when it is long enough and matches the pattern, if there is one; the
      answer while a call streams is "go on" exactly where the answer at its end is 0. */
  lemma {:induction false} RuleBasedAnswers(
      minChars: nat, pattern: Option<Text -> bool>, offset: nat, depth: nat, k: nat, text: Text)
    ensures var g, good := RuleBased(minChars, pattern), |text| >= minChars && (pattern == None || pattern.value(text));
            && g.evaluate(offset, depth, text) == Ok(if good then 1.0 else 0.0)
            && g.streaming(offset, depth, k, text) == if good then Ok(Some(1.0)) else Ok(None)
  {
  }

  ghost predicate SameAnswers(g: Guard, g': Guard, text: Text) {
    && (forall offset: nat, depth: nat :: g.evaluate(offset, depth, text) == g'.evaluate(offset, depth, text))
    && forall offset: nat, depth: nat, k: nat ::
         g.streaming(offset, depth, k, text) == g'.streaming(offset, depth, k, text)
  }

  /** The readings differ exactly on a text of too few characters and enough bytes that matches
      the pattern, if there is one; the code then accepts what the documentation rejects. */
  lemma {:induction false} ReadingsDifferExactly(minChars: nat, pattern: Option<Text -> bool>, text: Text)
    ensures !SameAnswers(RuleBased(minChars, pattern), RuleBasedOnCharacters(minChars, pattern), text) <==>
            Characters(text) < minChars <= |text| && (pattern.Some? ==> pattern.value(text))
    ensures !SameAnswers(RuleBased(minChars, pattern), RuleBasedOnCharacters(minChars, pattern), text) ==>
              && RuleBased(minChars, pattern).evaluate(0, 0, text) == Ok(1.0)
              && RuleBasedOnCharacters(minChars, pattern).evaluate(0, 0, text) == Ok(0.0)
  {
    CharactersWithinBytes(text);
    var g, g' := RuleBased(minChars, pattern), RuleBasedOnCharacters(minChars, pattern);
    hide Characters;
    if Characters(text) < minChars <= |text| && (pattern.Some? ==> pattern.value(text)) {
      assert g.evaluate(0, 0, text) != g'.evaluate(0, 0, text);
    }
  }

  /** n times the letter e with an acute accent, two bytes each. */
  function Accented(n: nat): Text { if n == 0 then [] else Accented(n - 1) + [0xC3] + [0xA9] }

  lemma {:induction false} AccentedLengths(n: nat)
    ensures Characters(Accented(n)) == n && |Accented(n)| == 2 * n
    ensures n > 0 ==> !Continues(Accented(n)[0])
  {
    if n > 0 {
      AccentedLengths(n - 1);
      var first := Accented(n - 1) + [0xC3];
      assert first[..|first| - 1] == Accented(n - 1);
      assert Accented(n)[..|Accented(n)| - 1] == first;
      assert Characters(first) == Characters(Accented(n - 1)) + 1;
    }
  }

  /** Without a pattern the readings agree on every text that starts a character, as every UTF-8
      text does, exactly when the guard asks for at most one character. */
  lemma {:induction false} ReadingsAgreeExactlyUpToOne(minChars: nat)
    ensures (forall text: Text | text == [] || !Continues(text[0]) ::
               SameAnswers(RuleBased(minChars, None), RuleBasedOnCharacters(minChars, None), text))
            <==> minChars <= 1
    ensures minChars > 1 ==>
              !SameAnswers(RuleBased(minChars, None), RuleBasedOnCharacters(minChars, None), Accented(minChars - 1))
  {
    hide SameAnswers;
    if minChars <= 1 {
      forall text: Text | text == [] || !Continues(text[0])
        ensures SameAnswers(RuleBased(minChars, None), RuleBasedOnCharacters(minChars, None), text)
      {
        CharactersWithinBytes(text);
        ReadingsDifferExactly(minChars, None, text);
      }
    } else {
      AccentedLengths(minChars - 1);
      ReadingsDifferExactly(minChars, None, Accented(minChars - 1));
    }
  }
}
