/**
 * The three Python string built-ins the extractor applies to regular-expression
 * captures: `s.replace(',', '')`, `float(s)` and `s.strip()`.
 */
module PyText {
  import opened Wrappers

  /** Python's `ValueError: could not convert string to float: <text>`. */
  datatype ValueError = CouldNotConvert(text: string)

  predicate IsDigit(c: char) {
    '0' <= c <= '9'
  }

  predicate AllDigits(s: string) {
    forall i :: 0 <= i < |s| ==> IsDigit(s[i])
  }

  /** Only digits and thousands separators: what a `[\d,]+` capture holds. */
  predicate DigitsAndCommas(s: string) {
    forall i :: 0 <= i < |s| ==> IsDigit(s[i]) || s[i] == ','
  }

  function Pow10(n: nat): (p: nat)
    ensures p >= 1
  {
    if n == 0 then 1 else 10 * Pow10(n - 1)
  }

  /** The decimal value of a digit string, most significant digit first. */
  function DigitsValue(s: string): (v: nat)
    requires AllDigits(s)
    ensures v < Pow10(|s|)
  {
    if s == [] then 0
    else 10 * DigitsValue(s[..|s| - 1]) + (s[|s| - 1] as int - '0' as int)
  }

  lemma {:induction false} DigitsValueConcat(a: string, b: string)
    requires AllDigits(a) && AllDigits(b)
    ensures AllDigits(a + b)
    ensures DigitsValue(a + b) == DigitsValue(a) * Pow10(|b|) + DigitsValue(b)
  {
    assert AllDigits(a + b) by {
      forall i | 0 <= i < |a + b| ensures IsDigit((a + b)[i]) {
        if i < |a| { assert (a + b)[i] == a[i]; } else { assert (a + b)[i] == b[i - |a|]; }
      }
    }
    if b == [] {
      assert a + b == a;
    } else {
      var b' := b[..|b| - 1];
      assert (a + b)[..|a + b| - 1] == a + b';
      assert (a + b)[|a + b| - 1] == b[|b| - 1];
      DigitsValueConcat(a, b');
      ShiftDigit(DigitsValue(a), Pow10(|b'|), DigitsValue(b'), b[|b| - 1] as int - '0' as int);
    }
  }

  lemma ShiftDigit(x: int, p: int, y: int, d: int)
    ensures 10 * (x * p + y) + d == x * (10 * p) + (10 * y + d)
  {
  }

  /**
   * `float(s)` on the strings a digit capture can produce. A non-empty string of
   * decimal digits converts to its value; anything else (in particular the empty
   * string) raises ValueError.
   */
  function ParseFloat(s: string): (r: Result<real, ValueError>)
    ensures r.Success? <==> s != [] && AllDigits(s)
    ensures r.Failure? ==> r.error == CouldNotConvert(s)
    ensures r.Success? ==> 0.0 <= r.value < Pow10(|s|) as real
  {
    if s != [] && AllDigits(s) then Success(DigitsValue(s) as real) else Failure(CouldNotConvert(s))
  }

  /** `s.replace(',', '')`. */
  function StripCommas(s: string): (r: string)
    ensures forall i :: 0 <= i < |r| ==> r[i] != ','
    ensures |r| <= |s|
  {
    if s == [] then []
    else if s[|s| - 1] == ',' then StripCommas(s[..|s| - 1])
    else StripCommas(s[..|s| - 1]) + [s[|s| - 1]]
  }

  /** Removing commas distributes over concatenation... */
  lemma {:induction false} StripCommasConcat(a: string, b: string)
    ensures StripCommas(a + b) == StripCommas(a) + StripCommas(b)
  {
    if b != [] {
      assert (a + b)[..|a + b| - 1] == a + b[..|b| - 1];
      StripCommasConcat(a, b[..|b| - 1]);
    } else {
      assert a + b == a;
    }
  }

  /** ...leaves a string without commas as it is... */
  lemma {:induction false} StripCommasNoComma(s: string)
    requires forall i :: 0 <= i < |s| ==> s[i] != ','
    ensures StripCommas(s) == s
  {
    if s != [] {
      StripCommasNoComma(s[..|s| - 1]);
    }
  }

  /** ...and keeps exactly the digits of a digits-and-commas string. */
  lemma {:induction false} StripCommasDigits(s: string)
    requires DigitsAndCommas(s)
    ensures AllDigits(StripCommas(s))
    ensures StripCommas(s) == [] <==> forall i :: 0 <= i < |s| ==> s[i] == ','
  {
    if s != [] {
      StripCommasDigits(s[..|s| - 1]);
    }
  }

  lemma NoCommaInDigits(s: string)
    requires AllDigits(s)
    ensures forall i :: 0 <= i < |s| ==> s[i] != ','
  {
  }

  /** `float(s.replace(',', ''))`: the conversion the extractor applies to a numeric capture. */
  function ParseAmount(s: string): Result<real, ValueError> {
    ParseFloat(StripCommas(s))
  }

  /**
   * On a `[\d,]+` capture the conversion fails exactly when the capture holds no
   * digit at all, and never produces a negative value.
   */
  lemma ParseAmountFailsIffNoDigit(s: string)
    requires DigitsAndCommas(s)
    ensures ParseAmount(s).Failure? <==> forall i :: 0 <= i < |s| ==> s[i] == ','
    ensures ParseAmount(s).Success? ==> ParseAmount(s).value >= 0.0
  {
    StripCommasDigits(s);
  }

  lemma StripCommasSeparator(a: string, b: string)
    requires AllDigits(a) && AllDigits(b)
    ensures StripCommas(a + "," + b) == a + b
  {
    assert StripCommas(",") == [] by {
      assert ","[..0] == [];
    }
    StripCommasConcat(a, ",");
    StripCommasConcat(a + ",", b);
    NoCommaInDigits(a);
    NoCommaInDigits(b);
    StripCommasNoComma(a);
    StripCommasNoComma(b);
  }

  /** A thousands separator is ignored: the value of `a,b` is the value of the digits `ab`. */
  lemma ParseAmountThousands(a: string, b: string)
    requires a != [] && AllDigits(a) && AllDigits(b)
    ensures AllDigits(a + b)
    ensures ParseAmount(a + "," + b) == Success(DigitsValue(a + b) as real)
    ensures DigitsValue(a + b) == DigitsValue(a) * Pow10(|b|) + DigitsValue(b)
  {
    StripCommasSeparator(a, b);
    DigitsValueConcat(a, b);
  }

  /** The example of a thousands-separated amount: `float("1,234".replace(',', '')) == 1234.0`. */
  lemma ParseAmountExample()
    ensures ParseAmount("1,234") == Success(1234.0)
  {
    ParseAmountThousands("1", "234");
    assert "1" + "," + "234" == "1,234";
  }

  /** The whitespace `str.strip()` removes, as far as the Latin-1 range goes. */
  predicate IsSpace(c: char) {
    c == ' ' || '\t' <= c <= '\r' || '\U{1C}' <= c <= '\U{1F}' || c == '\U{85}' || c == '\U{A0}'
  }

  /** `s.lstrip()`: the longest suffix of `s` that does not start with whitespace. */
  function TrimStart(s: string): (r: string)
    ensures |r| <= |s| && r == s[|s| - |r|..]
    ensures forall k :: 0 <= k < |s| - |r| ==> IsSpace(s[k])
    ensures r != [] ==> !IsSpace(r[0])
  {
    if s != [] && IsSpace(s[0]) then TrimStart(s[1..]) else s
  }

  /** `s.rstrip()`: the longest prefix of `s` that does not end with whitespace. */
  function TrimEnd(s: string): (r: string)
    ensures |r| <= |s| && r == s[..|r|]
    ensures forall k :: |r| <= k < |s| ==> IsSpace(s[k])
    ensures r != [] ==> !IsSpace(r[|r| - 1])
  {
    if s != [] && IsSpace(s[|s| - 1]) then TrimEnd(s[..|s| - 1]) else s
  }

  /** `s.strip()`: whitespace removed at both ends. */
  function Strip(s: string): string {
    TrimEnd(TrimStart(s))
  }

  /** How many whitespace characters `lstrip` removes from the front of `s`. */
  function Lead(s: string): nat {
    |s| - |TrimStart(s)|
  }

  /**
   * What `strip` leaves is the slice of `s` between its leading and its
   * trailing whitespace, and it neither starts nor ends with whitespace.
   */
  lemma StripIsTrimmedSlice(s: string)
    ensures Strip(s) != [] ==> !IsSpace(Strip(s)[0]) && !IsSpace(Strip(s)[|Strip(s)| - 1])
    ensures Lead(s) + |Strip(s)| <= |s| && Strip(s) == s[Lead(s)..Lead(s) + |Strip(s)|]
    ensures forall k :: 0 <= k < Lead(s) ==> IsSpace(s[k])
    ensures forall k :: Lead(s) + |Strip(s)| <= k < |s| ==> IsSpace(s[k])
  {
    StripEnds(s);
    StripSlice(s);
  }

  lemma StripEnds(s: string)
    ensures Strip(s) != [] ==> !IsSpace(Strip(s)[0]) && !IsSpace(Strip(s)[|Strip(s)| - 1])
  {
    var t := TrimStart(s);
    var r := TrimEnd(t);
    if r != [] {
      assert r[0] == t[0];
    }
  }

  lemma StripSlice(s: string)
    ensures Lead(s) + |Strip(s)| <= |s| && Strip(s) == s[Lead(s)..Lead(s) + |Strip(s)|]
    ensures forall k :: Lead(s) + |Strip(s)| <= k < |s| ==> IsSpace(s[k])
  {
    var t := TrimStart(s);
    var r := TrimEnd(t);
    SuffixPrefix(s, Lead(s), t, r);
    TrailingSpace(s, Lead(s), t, |r|);
  }

  lemma SuffixPrefix(s: string, i: nat, t: string, r: string)
    requires i <= |s| && t == s[i..] && |r| <= |t| && r == t[..|r|]
    ensures i + |r| <= |s| && r == s[i..i + |r|]
  {
  }

  lemma TrailingSpace(s: string, i: nat, t: string, n: nat)
    requires i <= |s| && t == s[i..] && n <= |t|
    requires forall k :: n <= k < |t| ==> IsSpace(t[k])
    ensures forall k :: i + n <= k < |s| ==> IsSpace(s[k])
  {
    assert forall k :: i + n <= k < |s| ==> s[k] == t[k - i];
  }

  /** Stripping a string that neither starts nor ends with whitespace changes nothing. */
  lemma StripUntrimmed(s: string)
    requires s != [] ==> !IsSpace(s[0]) && !IsSpace(s[|s| - 1])
    ensures Strip(s) == s
  {
  }

  /** Hence `strip` is idempotent. */
  lemma StripIdempotent(s: string)
    ensures Strip(Strip(s)) == Strip(s)
  {
    StripUntrimmed(Strip(s));
  }
}
