/** Python's `int(s)` on strings, and the decimal rendering `f"{n}"`
    used in flash messages. */
module Ints {
  import opened Wrappers
  import Text

  predicate IsDigit(c: char) {
    '0' <= c <= '9'
  }

  predicate AllDigits(s: string) {
    forall i :: 0 <= i < |s| ==> IsDigit(s[i])
  }

  function DigitValue(c: char): nat
    requires IsDigit(c)
  {
    c as int - '0' as int
  }

  /** The base-ten value of a digit string, most significant digit first. */
  function DigitsValue(s: string): nat
    requires AllDigits(s)
  {
    if |s| == 0 then 0 else DigitsValue(s[..|s| - 1]) * 10 + DigitValue(s[|s| - 1])
  }

  /** An integer literal: an optional sign followed by at least one digit. */
  predicate IsIntLiteral(s: string) {
    if |s| > 0 && (s[0] == '+' || s[0] == '-') then |s| > 1 && AllDigits(s[1..])
    else |s| > 0 && AllDigits(s)
  }

  /** Parses a literal; `None` plays the part of the `ValueError` `int()` raises. */
  function ParseLiteral(s: string): (r: Option<int>)
    ensures r.Some? <==> IsIntLiteral(s)
    ensures r.Some? && s[0] == '-' ==> r.value <= 0
    ensures r.Some? && s[0] != '-' ==> r.value >= 0
  {
    if |s| > 0 && s[0] == '-' then
      if |s| > 1 && AllDigits(s[1..]) then Some(-(DigitsValue(s[1..]) as int)) else None
    else if |s| > 0 && s[0] == '+' then
      if |s| > 1 && AllDigits(s[1..]) then Some(DigitsValue(s[1..])) else None
    else if |s| > 0 && AllDigits(s) then Some(DigitsValue(s))
    else None
  }

  /** The ASCII information separators U+001C..U+001F. `str.isspace()` counts
      them as whitespace, but `int()` does not skip them. */
  predicate IsInfoSeparator(c: char) {
    '\U{1C}' <= c <= '\U{1F}'
  }

  /** The whitespace `int()` skips around a literal. */
  predicate IsIntSpace(c: char) {
    Text.IsSpace(c) && !IsInfoSeparator(c)
  }

  predicate AllIntSpace(s: string) {
    forall i :: 0 <= i < |s| ==> IsIntSpace(s[i])
  }

  /** `s[lo..hi]` has nothing but `int()` whitespace around it. */
  predicate IntPadding(s: string, lo: int, hi: int) {
    0 <= lo <= hi <= |s| && AllIntSpace(s[..lo]) && AllIntSpace(s[hi..])
  }

  predicate HasInfoSeparator(s: string) {
    exists i :: 0 <= i < |s| && IsInfoSeparator(s[i])
  }

  /** Python's `int(s)` on a string. Surrounding whitespace is skipped,
      except the information separators: a string holding one of those is
      never a literal, whether the separator is in the padding or inside. */
  function ParseInt(s: string): (r: Option<int>)
    ensures r.Some? <==> IsIntLiteral(Text.Strip(s)) && !HasInfoSeparator(s)
  {
    if HasInfoSeparator(s) then None else ParseLiteral(Text.Strip(s))
  }

  /** A literal has no whitespace at either end and no separator inside. */
  lemma LiteralShape(lit: string)
    requires IsIntLiteral(lit)
    ensures Text.IsStripped(lit) && |lit| > 0 && !HasInfoSeparator(lit)
  {
    assert IsDigit(lit[|lit| - 1]) by {
      if lit[0] == '+' || lit[0] == '-' { assert lit[|lit| - 1] == lit[1..][|lit| - 2]; }
    }
    forall i | 0 <= i < |lit| ensures !IsInfoSeparator(lit[i]) {
      if i > 0 && (lit[0] == '+' || lit[0] == '-') { assert lit[i] == lit[1..][i - 1]; }
    }
  }

  /** `int(s)` succeeds exactly when `s` is a literal padded with the
      whitespace `int()` skips, and then it reads that literal. */
  lemma ParseIntSpec(s: string)
    ensures ParseInt(s).Some? <==> exists lo, hi :: IntPadding(s, lo, hi) && IsIntLiteral(s[lo..hi])
    ensures forall lo, hi :: IntPadding(s, lo, hi) && IsIntLiteral(s[lo..hi]) ==>
              ParseInt(s) == ParseLiteral(s[lo..hi])
  {
    forall lo, hi | IntPadding(s, lo, hi) && IsIntLiteral(s[lo..hi])
      ensures ParseInt(s) == ParseLiteral(s[lo..hi])
    {
      var a, lit, b := s[..lo], s[lo..hi], s[hi..];
      assert s == a + lit + b;
      LiteralShape(lit);
      Text.StripPadded(a, lit, b);
      forall i | 0 <= i < |s| ensures !IsInfoSeparator(s[i]) {
        if i < lo { assert s[i] == a[i]; }
        else if i < hi { assert s[i] == lit[i - lo]; }
        else { assert s[i] == b[i - hi]; }
      }
    }
    if ParseInt(s).Some? {
      Text.StripIsTrim(s);
      var lo, hi :| 0 <= lo <= hi <= |s| && Text.Strip(s) == s[lo..hi]
                    && Text.AllSpace(s[..lo]) && Text.AllSpace(s[hi..]);
      forall i | 0 <= i < lo ensures IsIntSpace(s[..lo][i]) {
        assert s[..lo][i] == s[i];
      }
      forall i | 0 <= i < |s| - hi ensures IsIntSpace(s[hi..][i]) {
        assert s[hi..][i] == s[hi + i];
      }
      assert IntPadding(s, lo, hi);
    }
  }

  function DigitChar(d: nat): (c: char)
    requires d < 10
    ensures IsDigit(c) && DigitValue(c) == d
  {
    ('0' as int + d) as char
  }

  /** Decimal digits of `n`, without leading zeros. */
  function FormatNat(n: nat): (r: string)
    ensures |r| > 0 && AllDigits(r)
    ensures |r| > 1 ==> r[0] != '0'
  {
    if n < 10 then [DigitChar(n)] else FormatNat(n / 10) + [DigitChar(n % 10)]
  }

  /** `str(n)` / `f"{n}"` for an integer. */
  function FormatInt(n: int): (r: string)
    ensures |r| > 0
    ensures n >= 0 ==> AllDigits(r) && (|r| > 1 ==> r[0] != '0')
    ensures n < 0 ==> |r| > 1 && r[0] == '-' && AllDigits(r[1..]) && (|r| > 2 ==> r[1] != '0')
  {
    if n < 0 then "-" + FormatNat(-n) else FormatNat(n)
  }

  lemma {:induction false} DigitsRoundTrip(n: nat)
    ensures DigitsValue(FormatNat(n)) == n
  {
    if n >= 10 {
      var s := FormatNat(n);
      assert s[..|s| - 1] == FormatNat(n / 10);
      DigitsRoundTrip(n / 10);
    }
  }

  /** The literal parser reads a rendered integer back. */
  lemma ParseLiteralFormat(n: int)
    ensures ParseLiteral(FormatInt(n)) == Some(n)
  {
    if n < 0 {
      var s := FormatInt(n);
      assert s[1..] == FormatNat(-n);
      DigitsRoundTrip(-n);
    } else {
      DigitsRoundTrip(n);
    }
  }

  /** `int(str(n)) == n`: parsing undoes formatting. */
  lemma ParseFormat(n: int)
    ensures ParseInt(FormatInt(n)) == Some(n)
  {
    FormatIntStripped(n);
    Text.StripStripped(FormatInt(n));
    ParseLiteralFormat(n);
  }

  /** A digit string, also behind a sign or a zero, has no surrounding
      whitespace, so `int()` reads it as it is. */
  lemma DigitsStripped(d: string)
    requires |d| > 0 && AllDigits(d)
    ensures Text.Strip(d) == d
    ensures Text.Strip("+" + d) == "+" + d
    ensures Text.Strip("-" + d) == "-" + d
    ensures Text.Strip("0" + d) == "0" + d
  {
    Text.StripStripped(d);
    Text.StripStripped("+" + d);
    Text.StripStripped("-" + d);
    Text.StripStripped("0" + d);
  }

  /** A leading zero adds nothing to a digit string's value. */
  lemma {:induction false} LeadingZeroValue(d: string)
    requires AllDigits(d)
    ensures AllDigits("0" + d) && DigitsValue("0" + d) == DigitsValue(d)
  {
    if |d| > 0 {
      var z := "0" + d;
      assert z[..|z| - 1] == "0" + d[..|d| - 1];
      LeadingZeroValue(d[..|d| - 1]);
    }
  }

  /** A digit string is read as its base-ten value. */
  lemma ParseDigits(d: string)
    requires |d| > 0 && AllDigits(d)
    ensures ParseInt(d) == Some(DigitsValue(d) as int)
  {
    DigitsStripped(d);
  }

  /** `int("0" + d) == int(d)`: leading zeros are accepted and ignored. */
  lemma ParseLeadingZero(d: string)
    requires |d| > 0 && AllDigits(d)
    ensures ParseInt("0" + d) == ParseInt(d)
  {
    DigitsStripped(d);
    LeadingZeroValue(d);
  }

  /** `int("+" + d) == int(d)`: a plus sign changes nothing. */
  lemma ParsePlus(d: string)
    requires |d| > 0 && AllDigits(d)
    ensures ParseInt("+" + d) == ParseInt(d)
  {
    DigitsStripped(d);
    assert ("+" + d)[1..] == d;
  }

  /** `int("-" + d) == -int(d)`: a minus sign negates. */
  lemma ParseMinus(d: string)
    requires |d| > 0 && AllDigits(d)
    ensures ParseInt(d).Some?
    ensures ParseInt("-" + d) == Some(-ParseInt(d).value)
  {
    DigitsStripped(d);
    assert ("-" + d)[1..] == d;
  }

  /** `int()` reads a literal the same with or without the whitespace it
      skips around it. */
  lemma ParsePadded(a: string, lit: string, b: string)
    requires AllIntSpace(a) && AllIntSpace(b) && IsIntLiteral(lit)
    ensures ParseInt(a + lit + b) == ParseInt(lit)
  {
    var s := a + lit + b;
    assert s[..|a|] == a && s[|a|..|a| + |lit|] == lit && s[|a| + |lit|..] == b;
    assert IntPadding(s, |a|, |a| + |lit|);
    ParseIntSpec(s);
    assert lit[..0] == [] && lit[|lit|..] == [] && lit[0..|lit|] == lit;
    assert IntPadding(lit, 0, |lit|);
    ParseIntSpec(lit);
  }

  /** `strip()` drops a leading U+001C, but `int()` rejects it. */
  lemma SeparatorNotSkipped()
    ensures Text.Strip("\U{1C}5") == "5"
    ensures ParseInt("\U{1C}5") == None
  {
    assert Text.AllSpace("\U{1C}");
    Text.StripPadded("\U{1C}", "5", "");
    assert "\U{1C}" + "5" + "" == "\U{1C}5";
    assert IsInfoSeparator("\U{1C}5"[0]);
  }

  /** A rendered integer has no surrounding whitespace. */
  lemma FormatIntStripped(n: int)
    ensures Text.IsStripped(FormatInt(n))
  {
  }
}
