/** Invariant-culture integer and decimal text, and why each text names one number. */
module Numerals {
  import opened Prelude

  predicate IsDigit(c: char) { '0' <= c <= '9' }

  predicate AllDigits(s: string) { forall i :: 0 <= i < |s| ==> IsDigit(s[i]) }

  function DigitValue(c: char): nat
    requires IsDigit(c)
  {
    c as int - '0' as int
  }

  function Digit(d: nat): char
    requires d < 10
  {
    "0123456789"[d]
  }

  /** The decimal digits of `n`, without leading zeros. */
  function Digits(n: nat): string {
    if n < 10 then [Digit(n)] else Digits(n / 10) + [Digit(n % 10)]
  }

  function Value(s: string): nat
    requires AllDigits(s)
  {
    if s == "" then 0 else Value(s[..|s| - 1]) * 10 + DigitValue(s[|s| - 1])
  }

  /** Reading the digits of a number gives the number back. */
  lemma {:induction false} ValueOfDigits(n: nat)
    ensures Digits(n) != "" && AllDigits(Digits(n)) && Value(Digits(n)) == n
  {
    if n >= 10 {
      ValueOfDigits(n / 10);
      assert Digits(n)[..|Digits(n)| - 1] == Digits(n / 10);
    } else {
      assert Digits(n)[..0] == "";
    }
  }

  lemma DigitsInjective(m: nat, n: nat)
    requires Digits(m) == Digits(n)
    ensures m == n
  {
    ValueOfDigits(m);
    ValueOfDigits(n);
  }

  /** int.ToString(InvariantCulture). */
  function IntText(i: int): string {
    if i < 0 then "-" + Digits(-i) else Digits(i)
  }

  lemma IntTextSign(i: int)
    ensures IntText(i) != "" && (IntText(i)[0] == '-' <==> i < 0)
  {
    ValueOfDigits(if i < 0 then -i else i);
  }

  lemma IntTextInjective(i: int, j: int)
    requires IntText(i) == IntText(j)
    ensures i == j
  {
    IntTextSign(i);
    IntTextSign(j);
    if i < 0 {
      assert Digits(-i) == IntText(i)[1..] == IntText(j)[1..] == Digits(-j);
      DigitsInjective(-i, -j);
    } else {
      DigitsInjective(i, j);
    }
  }

  /** How many digits `s` starts with. */
  function LeadingDigits(s: string): (k: nat)
    ensures k <= |s| && AllDigits(s[..k])
    ensures k < |s| ==> !IsDigit(s[k])
  {
    if s == "" || !IsDigit(s[0]) then 0 else
      var k := LeadingDigits(s[1..]);
      assert s[..k + 1] == [s[0]] + s[1..][..k];
      k + 1
  }

  /** A digit run followed by anything else is read exactly. */
  lemma {:induction false} LeadingDigitsOf(d: string, rest: string)
    requires AllDigits(d) && (rest == "" || !IsDigit(rest[0]))
    ensures LeadingDigits(d + rest) == |d|
  {
    if d == "" {
      assert d + rest == rest;
    } else {
      LeadingDigitsOf(d[1..], rest);
      assert (d + rest)[1..] == d[1..] + rest;
    }
  }

  /** `n` zeros. */
  function Zeros(n: nat): string {
    if n == 0 then "" else Zeros(n - 1) + "0"
  }

  lemma {:induction false} ZerosAreZeros(n: nat)
    ensures |Zeros(n)| == n && forall i :: 0 <= i < n ==> Zeros(n)[i] == '0'
  {
    if n > 0 { ZerosAreZeros(n - 1); }
  }

  lemma {:induction false} ValueIgnoresLeadingZeros(n: nat, s: string)
    requires AllDigits(s)
    ensures AllDigits(Zeros(n) + s) && Value(Zeros(n) + s) == Value(s)
  {
    ZerosAreZeros(n);
    if s != "" {
      ValueIgnoresLeadingZeros(n, s[..|s| - 1]);
      assert (Zeros(n) + s)[..|Zeros(n) + s| - 1] == Zeros(n) + s[..|s| - 1];
    } else if n > 0 {
      ValueIgnoresLeadingZeros(n - 1, "");
      assert Zeros(n) + s == Zeros(n) && Zeros(n - 1) + "" == Zeros(n - 1);
      assert Zeros(n)[..n - 1] == Zeros(n - 1);
    } else {
      assert Zeros(0) + s == s;
    }
  }

  // ---- System.Decimal: mantissa / 10^scale, without negative zero ----

  datatype Decimal = Decimal(mantissa: int, scale: nat)

  function Pow10(n: nat): (p: nat)
    ensures p > 0
  {
    if n == 0 then 1 else 10 * Pow10(n - 1)
  }

  /** The two decimals denote the same number. */
  predicate SameAmount(a: Decimal, b: Decimal) {
    a.mantissa * Pow10(b.scale) == b.mantissa * Pow10(a.scale)
  }

  predicate Normal(d: Decimal) { d.scale == 0 || d.mantissa % 10 != 0 }

  /** Division by 1.000...m: the same number with no trailing fractional zero. */
  function Normalise(d: Decimal): Decimal
    decreases d.scale
  {
    if Normal(d) then d else Normalise(Decimal(d.mantissa / 10, d.scale - 1))
  }

  lemma {:induction false} NormaliseKeepsAmount(d: Decimal)
    ensures Normal(Normalise(d)) && SameAmount(d, Normalise(d))
    decreases d.scale
  {
    if !Normal(d) {
      var e := Decimal(d.mantissa / 10, d.scale - 1);
      NormaliseKeepsAmount(e);
      var n := Normalise(e);
      calc {
        d.mantissa * Pow10(n.scale);
        (10 * e.mantissa) * Pow10(n.scale);
        10 * (e.mantissa * Pow10(n.scale));
        10 * (n.mantissa * Pow10(e.scale));
        n.mantissa * (10 * Pow10(e.scale));
        n.mantissa * Pow10(d.scale);
      }
    }
  }

  lemma {:induction false} Pow10Adds(m: nat, n: nat)
    ensures Pow10(m + n) == Pow10(m) * Pow10(n)
  {
    if m > 0 {
      Pow10Adds(m - 1, n);
      assert Pow10(m + n) == 10 * (Pow10(m - 1) * Pow10(n)) == (10 * Pow10(m - 1)) * Pow10(n);
    }
  }

  lemma CancelFactor(x: int, y: int, k: nat)
    requires k > 0 && x * k == y * k
    ensures x == y
  {
    assert (x - y) * k == 0;
  }

  lemma SmallerScaleMakesMultiple(a: Decimal, b: Decimal)
    requires SameAmount(a, b) && a.scale < b.scale
    ensures b.mantissa % 10 == 0
  {
    var gap := b.scale - a.scale;
    var p, q := Pow10(gap), Pow10(a.scale);
    Pow10Adds(gap, a.scale);
    assert (a.mantissa * p) * q == a.mantissa * (p * q);
    CancelFactor(a.mantissa * p, b.mantissa, q);
    var r := Pow10(gap - 1);
    assert b.mantissa == a.mantissa * (10 * r) == 10 * (a.mantissa * r);
  }

  /** A normal form is determined by the number it denotes. */
  lemma NormalFormsAgree(a: Decimal, b: Decimal)
    requires Normal(a) && Normal(b) && SameAmount(a, b)
    ensures a == b
  {
    assert a.scale >= b.scale by { if a.scale < b.scale { SmallerScaleMakesMultiple(a, b); assert false; } }
    assert b.scale >= a.scale by { if b.scale < a.scale { SmallerScaleMakesMultiple(b, a); assert false; } }
    CancelFactor(a.mantissa, b.mantissa, Pow10(a.scale));
  }

  lemma SameAmountTransitive(a: Decimal, b: Decimal, c: Decimal)
    requires SameAmount(a, b) && SameAmount(b, c)
    ensures SameAmount(a, c)
  {
    var p, q, r := Pow10(a.scale), Pow10(b.scale), Pow10(c.scale);
    calc {
      (a.mantissa * r) * q;
      (a.mantissa * q) * r;
      (b.mantissa * p) * r;
      (b.mantissa * r) * p;
      (c.mantissa * q) * p;
      (c.mantissa * p) * q;
    }
    CancelFactor(a.mantissa * r, c.mantissa * p, q);
  }

  /** Trailing zeros never survive: two decimals normalise alike exactly when they are the same number. */
  lemma NormaliseDecidesAmount(a: Decimal, b: Decimal)
    ensures Normalise(a) == Normalise(b) <==> SameAmount(a, b)
  {
    var m, n := Normalise(a), Normalise(b);
    NormaliseKeepsAmount(a);
    NormaliseKeepsAmount(b);
    if m == n {
      SameAmountTransitive(a, m, b);
    }
    if SameAmount(a, b) {
      SameAmountTransitive(m, a, b);
      SameAmountTransitive(m, b, n);
      NormalFormsAgree(m, n);
    }
  }

  /** The digits of the mantissa, padded so at least one stands before the point. */
  function Padded(n: nat, scale: nat): string {
    var s := Digits(n);
    if |s| > scale then s else Zeros(scale + 1 - |s|) + s
  }

  lemma PaddedIsNumeral(n: nat, scale: nat)
    ensures |Padded(n, scale)| > scale && AllDigits(Padded(n, scale)) && Value(Padded(n, scale)) == n
  {
    var s := Digits(n);
    ValueOfDigits(n);
    if |s| <= scale {
      var pad := scale + 1 - |s|;
      ZerosAreZeros(pad);
      ValueIgnoresLeadingZeros(pad, s);
      assert Padded(n, scale) == Zeros(pad) + s;
    }
  }

  /** A digit run with a point set before its last `scale` digits. */
  function Pointed(s: string, scale: nat): string
    requires |s| > scale
  {
    s[..|s| - scale] + if scale == 0 then "" else "." + s[|s| - scale..]
  }

  /** decimal.ToString(InvariantCulture). */
  function DecimalText(d: Decimal): string {
    var n := if d.mantissa < 0 then -d.mantissa else d.mantissa;
    PaddedIsNumeral(n, d.scale);
    (if d.mantissa < 0 then "-" else "") + Pointed(Padded(n, d.scale), d.scale)
  }

  /** What a pointed text says about its digits and scale. */
  lemma PointedParts(s: string, scale: nat)
    requires AllDigits(s) && |s| > scale
    ensures var w := LeadingDigits(Pointed(s, scale));
            && w == |s| - scale
            && s[..w] == Pointed(s, scale)[..w]
            && (scale > 0 ==> w < |Pointed(s, scale)| && s[w..] == Pointed(s, scale)[w + 1..])
            && (scale == 0 ==> w == |Pointed(s, scale)|)
  {
    var a, c := s[..|s| - scale], if scale == 0 then "" else "." + s[|s| - scale..];
    assert Pointed(s, scale) == a + c;
    LeadingDigitsOf(a, c);
    assert (a + c)[..|a|] == a;
    assert scale > 0 ==> (a + c)[|a| + 1..] == s[|a|..];
  }

  lemma PointedInjective(s: string, m: nat, t: string, n: nat)
    requires AllDigits(s) && AllDigits(t) && |s| > m && |t| > n
    requires Pointed(s, m) == Pointed(t, n)
    ensures s == t && m == n
  {
    PointedParts(s, m);
    PointedParts(t, n);
    var w := |s| - m;
    assert s == s[..w] + s[w..] && t == t[..w] + t[w..];
  }

  lemma SignSplit(p: string, s: string, q: string, t: string)
    requires p in {"", "-"} && q in {"", "-"}
    requires s != "" && t != "" && IsDigit(s[0]) && IsDigit(t[0])
    requires p + s == q + t
    ensures p == q && s == t
  {
    assert (p + s)[0] == '-' <==> p == "-";
    assert (q + t)[0] == '-' <==> q == "-";
    SplitEqual(p, s, q, t);
  }

  /** The printed decimal determines mantissa and scale. */
  lemma DecimalTextInjective(a: Decimal, b: Decimal)
    requires DecimalText(a) == DecimalText(b)
    ensures a == b
  {
    var m := if a.mantissa < 0 then -a.mantissa else a.mantissa;
    var n := if b.mantissa < 0 then -b.mantissa else b.mantissa;
    PaddedIsNumeral(m, a.scale);
    PaddedIsNumeral(n, b.scale);
    var s, t := Padded(m, a.scale), Padded(n, b.scale);
    SignSplit(if a.mantissa < 0 then "-" else "", Pointed(s, a.scale),
              if b.mantissa < 0 then "-" else "", Pointed(t, b.scale));
    PointedInjective(s, a.scale, t, b.scale);
  }

  /** A point before the last `scale` digits, zeros in front where there are too few, a minus sign in front of all. */
  lemma DigitsExamples()
    ensures Digits(42) == "42" && Digits(1234) == "1234"
  {
    assert Digits(12) == "12" && Digits(123) == "123";
  }

  lemma IntTextExamples()
    ensures IntText(-42) == "-42" && IntText(0) == "0"
  {
    DigitsExamples();
  }

  lemma PointedFrom(whole: string, part: string)
    requires whole != ""
    ensures Pointed(whole + part, |part|) == whole + if part == "" then "" else "." + part
  {
    var s := whole + part;
    assert s[..|whole|] == whole && s[|whole|..] == part;
  }

  /** A decimal's text, from its digits before and after the point. */
  lemma DecimalTextFrom(d: Decimal, n: nat, sign: string, whole: string, part: string)
    requires n == (if d.mantissa < 0 then -d.mantissa else d.mantissa) && sign == (if d.mantissa < 0 then "-" else "")
    requires |part| == d.scale && whole != "" && Padded(n, d.scale) == whole + part
    ensures DecimalText(d) == sign + (whole + if part == "" then "" else "." + part)
  {
    PointedFrom(whole, part);
  }

  lemma LongExample()
    ensures Padded(1234, 2) == "12" + "34" && Padded(7, 0) == "7" + ""
  {
    DigitsExamples();
  }

  lemma ShortExample()
    ensures Padded(5, 3) == "0" + "005"
  {
    assert Zeros(3) == "000" && Digits(5) == "5";
  }

  lemma DecimalTextExamples()
    ensures DecimalText(Decimal(1234, 2)) == "12.34" && DecimalText(Decimal(-5, 3)) == "-0.005"
    ensures DecimalText(Decimal(7, 0)) == "7"
  {
    LongExample();
    ShortExample();
    DecimalTextFrom(Decimal(1234, 2), 1234, "", "12", "34");
    DecimalTextFrom(Decimal(-5, 3), 5, "-", "0", "005");
    DecimalTextFrom(Decimal(7, 0), 7, "", "7", "");
  }
}
