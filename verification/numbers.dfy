/**
 * Numeric text: the subset of Python's `int(s)` and `float(s)` that the
 * sales file uses (an optional sign, decimal digits, one optional decimal
 * point), their inverses for round trips, and `round(x, 2)`.
 * Prices are exact rationals (`real`), not binary floating point.
 */
module Numbers {
  import opened Wrappers
  import opened Text

  predicate AllDigits(s: string) {
    forall i :: 0 <= i < |s| ==> IsDigit(s[i])
  }

  function DigitValue(c: char): (d: nat)
    requires IsDigit(c)
    ensures d < 10
  {
    c as int - '0' as int
  }

  function DigitChar(d: nat): (c: char)
    requires d < 10
    ensures IsDigit(c) && DigitValue(c) == d
  {
    ('0' as int + d) as char
  }

  /** The number a string of decimal digits denotes; leading zeros are allowed ("007" is 7). */
  function DigitsValue(s: string): nat
    requires AllDigits(s)
  {
    if |s| == 0 then 0 else DigitsValue(s[..|s| - 1]) * 10 + DigitValue(s[|s| - 1])
  }

  /** The shortest decimal text of `n`. */
  function NatToString(n: nat): (s: string)
    ensures |s| >= 1 && AllDigits(s)
  {
    if n < 10 then [DigitChar(n)] else NatToString(n / 10) + [DigitChar(n % 10)]
  }

  function IntToString(n: int): string {
    if n < 0 then "-" + NatToString(-n) else NatToString(n)
  }

  function Pow10(k: nat): (p: nat)
    ensures p >= 1
  {
    if k == 0 then 1 else 10 * Pow10(k - 1)
  }

  /** `int(s)` for an optional sign followed by at least one digit; anything else is a ValueError. */
  function ParseInt(s: string): Option<int> {
    if |s| > 0 && (s[0] == '-' || s[0] == '+') then
      var body := s[1..];
      if |body| > 0 && AllDigits(body) then
        Some(if s[0] == '-' then -(DigitsValue(body) as int) else DigitsValue(body))
      else None
    else if |s| > 0 && AllDigits(s) then Some(DigitsValue(s))
    else None
  }

  /** The value of `whole.frac` for digit strings `whole` and `frac`. */
  function DecimalValue(whole: string, frac: string): real
    requires AllDigits(whole) && AllDigits(frac)
  {
    DigitsValue(whole) as real + DigitsValue(frac) as real / Pow10(|frac|) as real
  }

  /** `float(s)` for an optional sign followed by digits with at most one decimal
      point and at least one digit ("12", "12.5", ".5", "5."); anything else is a ValueError. */
  function ParseDecimal(s: string): Option<real> {
    var negative := |s| > 0 && s[0] == '-';
    var body := if |s| > 0 && (s[0] == '-' || s[0] == '+') then s[1..] else s;
    var parts := Split(body, '.');
    if |parts| > 2 then None
    else
      var whole := parts[0];
      var frac := if |parts| == 2 then parts[1] else "";
      if |whole| + |frac| == 0 || !AllDigits(whole) || !AllDigits(frac) then None
      else
        var v := DecimalValue(whole, frac);
        Some(if negative then -v else v)
  }

  // ---------------------------------------------------------------------------
  // Round trips

  /** Reading back the decimal text of a number gives the number. */
  lemma {:induction false} NatToStringRoundTrip(n: nat)
    ensures DigitsValue(NatToString(n)) == n
  {
    if n >= 10 {
      NatToStringRoundTrip(n / 10);
      var s := NatToString(n);
      assert s[..|s| - 1] == NatToString(n / 10);
    }
  }

  /** A non-empty digit string reads as its value, with or without a minus sign. */
  lemma ParseIntDigits(body: string)
    requires |body| > 0 && AllDigits(body)
    ensures ParseInt(body) == Some(DigitsValue(body) as int)
    ensures ParseInt("-" + body) == Some(-(DigitsValue(body) as int))
  {
    assert IsDigit(body[0]);
    assert ("-" + body)[1..] == body;
  }

  /** Keeping the digits of a digit string keeps all of it. */
  lemma {:induction false} KeepDigitsOfDigits(s: string)
    requires AllDigits(s)
    ensures KeepDigits(s) == s
  {
    if |s| > 0 {
      KeepDigitsOfDigits(s[1..]);
      assert s == [s[0]] + s[1..];
    }
  }

  /** `int(str(n)) == n` for every integer. */
  lemma ParseIntRoundTrip(n: int)
    ensures ParseInt(IntToString(n)) == Some(n)
  {
    var body := NatToString(if n < 0 then -n else n);
    ParseIntDigits(body);
    NatToStringRoundTrip(if n < 0 then -n else n);
  }

  lemma {:induction false} DigitsHaveNoPoint(s: string)
    requires AllDigits(s)
    ensures Split(s, '.') == [s]
  {
    assert '.' !in s;
    JoinSplit([s], '.');
  }

  /** Whatever `int` accepts, `float` accepts with the same value. */
  lemma ParseDecimalExtendsParseInt(s: string)
    requires ParseInt(s).Some?
    ensures ParseDecimal(s) == Some(ParseInt(s).value as real)
  {
    var body := if |s| > 0 && (s[0] == '-' || s[0] == '+') then s[1..] else s;
    DigitsHaveNoPoint(body);
    assert DigitsValue("") == 0;
  }

  /** The digits of `c`, zero-padded to two places. */
  function TwoDigits(c: nat): (s: string)
    requires c < 100
    ensures AllDigits(s) && |s| == 2
  {
    [DigitChar(c / 10), DigitChar(c % 10)]
  }

  lemma TwoDigitsValue(c: nat)
    requires c < 100
    ensures DigitsValue(TwoDigits(c)) == c
  {
    var f := TwoDigits(c);
    assert f[..1] == [DigitChar(c / 10)];
    assert f[..1][..0] == "";
    assert DigitsValue(f[..1]) == c / 10;
  }

  /** Two digit strings around a decimal point read as `whole.frac`. */
  lemma ParseDecimalPoint(w: string, f: string)
    requires |w| > 0 && AllDigits(w) && AllDigits(f)
    ensures ParseDecimal(w + "." + f) == Some(DecimalValue(w, f))
  {
    assert '.' !in w by {
      assert forall i :: 0 <= i < |w| ==> IsDigit(w[i]);
    }
    assert '.' !in f by {
      assert forall i :: 0 <= i < |f| ==> IsDigit(f[i]);
    }
    JoinSplit([w, f], '.');
    assert Join([w, f], '.') == w + "." + f;
    var s := w + "." + f;
    assert s[0] != '-' && s[0] != '+' by {
      assert s[0] == w[0];
      assert IsDigit(w[0]);
    }
  }

  /** A price written with two decimals ("1200.50") reads back as that many cents. */
  lemma PriceRoundTrip(whole: nat, cents: nat)
    requires cents < 100
    ensures ParseDecimal(NatToString(whole) + "." + TwoDigits(cents))
            == Some(whole as real + cents as real / 100.0)
  {
    var w, f := NatToString(whole), TwoDigits(cents);
    ParseDecimalPoint(w, f);
    assert DecimalValue(w, f) == whole as real + cents as real / 100.0 by {
      NatToStringRoundTrip(whole);
      TwoDigitsValue(cents);
      assert Pow10(|f|) == 100;
    }
  }

  // ---------------------------------------------------------------------------
  // round(x, 2)

  /** `round(x, 2)`, rounding half up to the nearest cent. */
  function Round2(x: real): (r: real)
    ensures x - 0.005 < r <= x + 0.005
    ensures (r * 100.0).Floor as real == r * 100.0
  {
    ((x * 100.0 + 0.5).Floor as real) / 100.0
  }

  /** Rounding never reverses the order of two amounts. */
  lemma Round2Monotone(x: real, y: real)
    requires x <= y
    ensures Round2(x) <= Round2(y)
  {
    assert (x * 100.0 + 0.5).Floor <= (y * 100.0 + 0.5).Floor;
  }

  /** A rounded amount rounds to itself. */
  lemma Round2Idempotent(x: real)
    ensures Round2(Round2(x)) == Round2(x)
  {
    var k := (x * 100.0 + 0.5).Floor;
    assert Round2(x) * 100.0 + 0.5 == k as real + 0.5;
    assert (k as real + 0.5).Floor == k;
  }

  function Dist(a: real, b: real): real {
    if a <= b then b - a else a - b
  }

  /** No whole number of cents lies closer to `x` than `round(x, 2)` does. */
  lemma Round2Nearest(x: real, cents: int)
    ensures Dist(Round2(x), x) <= Dist(cents as real / 100.0, x)
  {
    var n := (x * 100.0 + 0.5).Floor;
    assert n as real - 0.5 <= x * 100.0 < n as real + 0.5;
    if cents < n {
      assert cents as real <= n as real - 1.0;
      assert cents as real / 100.0 <= x - 0.005;
    } else if cents > n {
      assert cents as real >= n as real + 1.0;
      assert cents as real / 100.0 > x + 0.005;
    }
  }

  /** A rounded non-negative amount is non-negative. */
  lemma Round2NonNegative(x: real)
    requires x >= 0.0
    ensures Round2(x) >= 0.0
  {
    assert (x * 100.0 + 0.5).Floor >= 0;
  }

  /** `count / total * 100` for `count` of `total` records. */
  lemma PercentOf(c: nat, n: nat)
    requires 0 < n && c <= n
    ensures 0.0 <= c as real / n as real * 100.0 <= 100.0
    ensures c == 0 ==> c as real / n as real * 100.0 == 0.0
    ensures c == n ==> c as real / n as real * 100.0 == 100.0
  {
    assert c as real / n as real <= 1.0;
  }

  /** Rounding keeps a percentage within 0 and 100, and keeps 0 and 100. */
  lemma Round2Percent(x: real)
    requires 0.0 <= x <= 100.0
    ensures 0.0 <= Round2(x) <= 100.0
    ensures x == 0.0 ==> Round2(x) == 0.0
    ensures x == 100.0 ==> Round2(x) == 100.0
  {
    Round2Monotone(0.0, x);
    Round2Monotone(x, 100.0);
    assert (0.0 * 100.0 + 0.5).Floor == 0;
    assert (100.0 * 100.0 + 0.5).Floor == 10000;
  }
}
