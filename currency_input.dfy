/**
 * The currency field (src/components/currency-input.tsx): typed text is
 * reduced to its digits and parsed as a whole number; a number outside the
 * field's min/max bounds is ignored, and an empty field clears the value.
 */
module CurrencyInput {
  import opened JsNumber
  import opened JsText

  /** parseNumber: the digits of the text as a number, `None` (undefined) without any. */
  function ParseNumber(str: string): Option<int>
  {
    var cleaned := OnlyDigits(str);
    if cleaned == "" then None
    else ParseInt(cleaned)
  }

  /** The field's display: blank, or a number formatted with toLocaleString. */
  datatype Display = Blank | Formatted(n: int)

  /** An accepted edit: the new display and the value passed to onChange. */
  datatype Change = Change(display: Display, value: Option<int>)

  /**
   * handleChange with the props as received: an absent min is 0, an absent
   * max is no bound.  `None` means the edit is ignored (no display update and
   * no onChange).
   */
  function HandleChange(input: string, minProp: Option<real>, max: Option<real>): Option<Change>
  {
    var min := minProp.GetOr(0.0);
    var num := ParseNumber(input);
    if num.Some? && num.value as real < min then None
    else if num.Some? && max.Some? && num.value as real > max.value then None
    else Some(Change(if num.Some? then Formatted(num.value) else Blank, num))
  }

  // ---------------------------------------------------------------------------
  // Properties

  lemma {:induction false} OnlyDigitsEmpty(s: string)
    ensures OnlyDigits(s) == [] <==> forall k :: 0 <= k < |s| ==> !IsDigit(s[k])
  {
    if s != [] {
      OnlyDigitsEmpty(s[1..]);
      assert forall k :: 1 <= k < |s| ==> s[k] == s[1..][k - 1];
    }
  }

  /** Keeping the digits distributes over concatenation. */
  lemma {:induction false} OnlyDigitsAppend(a: string, b: string)
    ensures OnlyDigits(a + b) == OnlyDigits(a) + OnlyDigits(b)
  {
    if a == [] {
      assert a + b == b;
    } else {
      assert (a + b)[0] == a[0];
      assert (a + b)[1..] == a[1..] + b;
      OnlyDigitsAppend(a[1..], b);
    }
  }

  /** The digits kept are the input's digits, in order. */
  lemma {:induction false} OnlyDigitsMembers(s: string)
    ensures forall c :: c in OnlyDigits(s) <==> c in s && IsDigit(c)
  {
    if s != [] {
      OnlyDigitsMembers(s[1..]);
      assert s == [s[0]] + s[1..];
    }
  }

  /** parseInt reads a non-empty run of digits whole. */
  lemma ParseIntOfDigits(d: string)
    requires d != [] && AllDigits(d)
    ensures ParseInt(d) == Some(DigitsValue(d))
  {
    assert !IsJsSpace(d[0]);
    assert TrimStart(d) == d;
    assert SignlessPart(d) == d;
    AllDigitsLeading(d);
  }

  /**
   * parseNumber gives undefined exactly for text without a digit, and
   * otherwise the decimal value of all its digits taken together, never negative.
   */
  lemma ParseNumberValue(str: string)
    ensures ParseNumber(str).None? <==> forall k :: 0 <= k < |str| ==> !IsDigit(str[k])
    ensures ParseNumber(str).Some? ==>
              ParseNumber(str).value == DigitsValue(OnlyDigits(str)) && ParseNumber(str).value >= 0
  {
    OnlyDigitsEmpty(str);
    var cleaned := OnlyDigits(str);
    if cleaned != "" {
      ParseIntOfDigits(cleaned);
    }
  }

  lemma OnlyDigitsSkips(a: string, c: char, b: string)
    requires !IsDigit(c)
    ensures OnlyDigits(a + [c] + b) == OnlyDigits(a + b)
  {
    OnlyDigitsAppend(a + [c], b);
    OnlyDigitsAppend(a, [c]);
    OnlyDigitsAppend(a, b);
    assert OnlyDigits([c]) == [];
  }

  /** Separators, a dollar sign or any other non-digit make no difference anywhere in the text. */
  lemma ParseNumberIgnoresNonDigits(a: string, c: char, b: string)
    requires !IsDigit(c)
    ensures ParseNumber(a + [c] + b) == ParseNumber(a + b)
  {
    OnlyDigitsSkips(a, c, b);
  }

  /**
   * An edit without digits always goes through and clears the value; a parsed
   * number is ignored exactly when it is below min or above max, and
   * otherwise is shown and passed on.
   */
  lemma HandleChangeGate(input: string, minProp: Option<real>, max: Option<real>)
    ensures ParseNumber(input).None? ==> HandleChange(input, minProp, max) == Some(Change(Blank, None))
    ensures ParseNumber(input).Some? ==>
      var n := ParseNumber(input).value;
      && (HandleChange(input, minProp, max).None? <==>
            (n as real) < minProp.GetOr(0.0) || (max.Some? && n as real > max.value))
      && (HandleChange(input, minProp, max).Some? ==>
            HandleChange(input, minProp, max).value == Change(Formatted(n), Some(n)))
  {
  }

  /** With the default min of 0 only max can turn an edit away, since parsed numbers are never negative. */
  lemma DefaultMinNeverRejects(input: string, max: Option<real>)
    ensures HandleChange(input, None, max).None? <==>
              ParseNumber(input).Some? && max.Some? && ParseNumber(input).value as real > max.value
  {
    ParseNumberValue(input);
  }

  /** "$1,250" and "1250" are the same number. */
  lemma ParseNumberExample()
    ensures ParseNumber("$1,250") == ParseNumber("1250")
  {
    assert "$1,250" == [] + ['$'] + "1,250";
    OnlyDigitsSkips([], '$', "1,250");
    assert "1,250" == "1" + [','] + "250";
    OnlyDigitsSkips("1", ',', "250");
    assert [] + "1,250" == "1,250";
    assert "1" + "250" == "1250";
  }
}
