/** Character-level helpers: ASCII case folding and decimal rendering of integers. */
module Text {
  import opened Common

  predicate IsUpper(c: char) { 'A' <= c <= 'Z' }

  function LowerChar(c: char): char
  {
    if IsUpper(c) then (c as int - 'A' as int + 'a' as int) as char else c
  }

  /** ASCII `toLower`: every upper-case letter replaced by its lower-case form. */
  function ToLower(s: string): (r: string)
    ensures |r| == |s|
    ensures forall i :: 0 <= i < |s| ==> r[i] == LowerChar(s[i]) && !IsUpper(r[i])
  {
    if s == [] then [] else [LowerChar(s[0])] + ToLower(s[1..])
  }

  predicate IsDigit(c: char) { '0' <= c <= '9' }

  predicate AllDigits(s: string) { forall i :: 0 <= i < |s| ==> IsDigit(s[i]) }

  function DigitChar(d: int): (c: char)
    requires 0 <= d < 10
    ensures IsDigit(c) && c as int - '0' as int == d
  {
    ('0' as int + d) as char
  }

  /** The decimal digits of `n`, most significant first, without leading zeros. */
  function NatText(n: nat): (s: string)
    ensures |s| >= 1 && AllDigits(s)
    ensures s[0] == '0' <==> n == 0
    ensures n == 0 ==> s == "0"
  {
    if n < 10 then [DigitChar(n)] else NatText(n / 10) + [DigitChar(n % 10)]
  }

  /**
   * The canonical form of a decimal integer: no leading zero except in "0"
   * itself, and no minus sign in front of a zero.
   */
  predicate CanonicalDecimal(s: string)
  {
    && |s| >= 1
    && (s[0] == '0' ==> s == "0")
    && (s[0] == '-' ==> |s| >= 2 && s[1] != '0')
  }

  /** `QString::number(n)`: an optional minus sign followed by the digits of `|n|`. */
  function DecimalText(n: int): (s: string)
    ensures CanonicalDecimal(s)
  {
    if n < 0 then "-" + NatText(-n) else NatText(n)
  }

  /** The value of a string of decimal digits. */
  function DigitsValue(s: string): nat
    requires AllDigits(s)
  {
    if s == [] then 0 else DigitsValue(s[..|s| - 1]) * 10 + (s[|s| - 1] as int - '0' as int)
  }

  /** Reads a decimal integer back: an optional minus sign and at least one digit. */
  function ParseDecimal(s: string): Option<int>
  {
    if |s| >= 2 && s[0] == '-' && AllDigits(s[1..]) then Some(0 - DigitsValue(s[1..]) as int)
    else if |s| >= 1 && AllDigits(s) then Some(DigitsValue(s) as int)
    else None
  }

  lemma {:induction false} NatTextValue(n: nat)
    ensures DigitsValue(NatText(n)) == n
  {
    if n >= 10 {
      var s := NatText(n);
      assert s[..|s| - 1] == NatText(n / 10);
      NatTextValue(n / 10);
    }
  }

  /** Reading the decimal rendering of any integer gives the integer back. */
  lemma DecimalRoundTrip(n: int)
    ensures ParseDecimal(DecimalText(n)) == Some(n)
  {
    if n < 0 {
      var digits := NatText(-n);
      var s := DecimalText(n);
      assert s == "-" + digits;
      assert |s| >= 2 && s[0] == '-' && s[1..] == digits;
      NatTextValue(-n);
      assert ParseDecimal(s) == Some(0 - DigitsValue(digits) as int);
    } else {
      var s := NatText(n);
      assert DecimalText(n) == s;
      assert IsDigit(s[0]);
      NatTextValue(n);
      assert ParseDecimal(s) == Some(DigitsValue(s) as int);
    }
  }

  /** A string of digits that does not start with `0` has a positive value. */
  lemma {:induction false} DigitsValuePositive(s: string)
    requires AllDigits(s) && |s| >= 1 && s[0] != '0'
    ensures DigitsValue(s) >= 1
    decreases |s|
  {
    if |s| > 1 {
      DigitsValuePositive(s[..|s| - 1]);
    }
  }

  /** A canonical string of digits is the rendering of its own value. */
  lemma {:induction false} CanonicalDigitsText(s: string)
    requires AllDigits(s) && |s| >= 1 && (s[0] == '0' ==> s == "0")
    ensures NatText(DigitsValue(s)) == s
    decreases |s|
  {
    var init := s[..|s| - 1];
    var d := s[|s| - 1] as int - '0' as int;
    if |s| == 1 {
      assert DigitsValue(s) == DigitsValue(init) * 10 + d;
      assert init == [];
    } else {
      assert init[0] == s[0];
      DigitsValuePositive(init);
      CanonicalDigitsText(init);
      var n := DigitsValue(s);
      assert n == DigitsValue(init) * 10 + d;
      assert n / 10 == DigitsValue(init) && n % 10 == d;
      assert s == init + [s[|s| - 1]];
    }
  }

  /**
   * A canonical text that reads as `n` is exactly the rendering of `n`:
   * together with `DecimalRoundTrip`, this pins `DecimalText` down.
   */
  lemma CanonicalParse(s: string)
    requires CanonicalDecimal(s) && ParseDecimal(s).Some?
    ensures s == DecimalText(ParseDecimal(s).value)
  {
    if |s| >= 2 && s[0] == '-' && AllDigits(s[1..]) {
      DigitsValuePositive(s[1..]);
      CanonicalDigitsText(s[1..]);
      assert s == "-" + s[1..];
    } else {
      CanonicalDigitsText(s);
    }
  }
}
