/** Decimal text of non-negative integers, as Python's `str(n)` writes it,
    and the six-digit one-time passcodes built from it. */
module DecimalFormat {

  predicate IsDigit(c: char) {
    '0' <= c <= '9'
  }

  predicate AllDigits(s: string) {
    forall i :: 0 <= i < |s| ==> IsDigit(s[i])
  }

  function DigitChar(d: nat): (c: char)
    requires d < 10
    ensures IsDigit(c)
    ensures c == '0' <==> d == 0
  {
    ('0' as int + d) as char
  }

  function DigitValue(c: char): (d: nat)
    requires IsDigit(c)
    ensures d < 10
    ensures DigitChar(d) == c
  {
    c as int - '0' as int
  }

  function Pow10(k: nat): (p: nat)
    ensures p >= 1
  {
    if k == 0 then 1 else 10 * Pow10(k - 1)
  }

  /** Canonical decimal text: at least one digit and no leading zero unless
      the text is exactly "0". */
  predicate Canonical(s: string) {
    && |s| >= 1
    && AllDigits(s)
    && (s[0] == '0' ==> |s| == 1)
  }

  /** Python's `str(n)` for `n >= 0`. */
  function ToDecimal(n: nat): (s: string)
    ensures Canonical(s)
    ensures s[0] == '0' <==> n == 0
  {
    if n < 10 then [DigitChar(n)]
    else ToDecimal(n / 10) + [DigitChar(n % 10)]
  }

  /** The value of a string of decimal digits (most significant first). */
  function ParseDecimal(s: string): nat
    requires AllDigits(s)
  {
    if |s| == 0 then 0
    else 10 * ParseDecimal(s[..|s| - 1]) + DigitValue(s[|s| - 1])
  }

  /** Reading back what `ToDecimal` wrote gives the number. */
  lemma {:induction false} ParseToDecimal(n: nat)
    ensures ParseDecimal(ToDecimal(n)) == n
  {
    var s := ToDecimal(n);
    if n < 10 {
      assert s[..0] == [];
    } else {
      ParseToDecimal(n / 10);
      assert s[..|s| - 1] == ToDecimal(n / 10);
    }
  }

  /** A number with `k + 1` digits is written with exactly `k + 1` characters. */
  lemma {:induction false} ToDecimalLength(n: nat, k: nat)
    requires Pow10(k) <= n < Pow10(k + 1)
    ensures |ToDecimal(n)| == k + 1
  {
    if k == 0 {
    } else {
      ToDecimalLength(n / 10, k - 1);
    }
  }

  /** The value of `s` is below `10^|s|`, and at least `10^(|s|-1)` when `s`
      does not start with a zero. */
  lemma {:induction false} ParseBounds(s: string)
    requires AllDigits(s)
    ensures ParseDecimal(s) < Pow10(|s|)
    ensures |s| >= 1 && s[0] != '0' ==> Pow10(|s| - 1) <= ParseDecimal(s)
  {
    if |s| > 0 {
      var init := s[..|s| - 1];
      ParseBounds(init);
      if |init| >= 1 {
        assert init[0] == s[0];
      } else if s[0] != '0' {
        assert DigitChar(DigitValue(s[0])) == s[0];
      }
    }
  }

  /** Writing out the value of canonical text gives the text back. */
  lemma {:induction false} ToDecimalOfParse(s: string)
    requires Canonical(s)
    ensures ToDecimal(ParseDecimal(s)) == s
  {
    var init := s[..|s| - 1];
    var n := ParseDecimal(s);
    if |s| == 1 {
      assert init == [];
    } else {
      assert init[0] == s[0];
      assert Canonical(init);
      ToDecimalOfParse(init);
      ParseBounds(init);
      assert n / 10 == ParseDecimal(init);
      assert n % 10 == DigitValue(s[|s| - 1]);
      assert s == init + [s[|s| - 1]];
    }
  }

  /** The lower and upper bound of `random.randint(100000, 999999)`. */
  const OtpLow: nat := 100000
  const OtpHigh: nat := 999999

  /** A passcode as the reset flow issues it: six digits, no leading zero. */
  predicate IsOtpString(s: string) {
    && |s| == 6
    && AllDigits(s)
    && s[0] != '0'
  }

  /** `str(random.randint(100000, 999999))`, given the drawn integer. */
  function OtpString(draw: int): (s: string)
    requires OtpLow <= draw <= OtpHigh
    ensures IsOtpString(s)
    ensures ParseDecimal(s) == draw
  {
    ToDecimalLength(draw, 5);
    ParseToDecimal(draw);
    ToDecimal(draw)
  }

  /** Every six-digit passcode without a leading zero is the text of exactly
      one possible draw. */
  lemma OtpStringsAreDraws(s: string)
    requires IsOtpString(s)
    ensures OtpLow <= ParseDecimal(s) <= OtpHigh
    ensures OtpString(ParseDecimal(s)) == s
  {
    ParseBounds(s);
    ToDecimalOfParse(s);
  }

}
