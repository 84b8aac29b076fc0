/** Numbers as the extraction engine produces them. Every amount is read by
    `parseFloat` from text made only of digits and dots (commas are removed
    first), so it is an exact decimal: `mantissa / 10^scale`. A read that finds
    no digit gives NaN.
 */
module Numbers {
  import opened Text

  datatype Decimal = Decimal(mantissa: nat, scale: nat)

  /** A JavaScript number as far as the engine can produce one. */
  datatype JsNumber = NaN | Finite(d: Decimal)

  function Pow10(n: nat): (r: nat)
    ensures r >= 1
  {
    if n == 0 then 1 else 10 * Pow10(n - 1)
  }

  /** The exact value a decimal denotes. */
  function Value(d: Decimal): real {
    d.mantissa as real / Pow10(d.scale) as real
  }

  /** JavaScript truthiness of a number: NaN and 0 are falsy. */
  predicate Truthy(n: JsNumber) {
    n.Finite? && n.d.mantissa != 0
  }

  lemma TruthyIsPositive(n: JsNumber)
    ensures Truthy(n) <==> n.Finite? && Value(n.d) > 0.0
  {}

  function DigitValue(c: char): nat
    requires IsDigit(c)
  {
    c as int - '0' as int
  }

  predicate AllDigits(s: string) { forall c :: c in s ==> IsDigit(c) }

  /** The number a string of decimal digits denotes ("" denotes 0). */
  function DigitsValue(s: string): nat
    requires AllDigits(s)
  {
    if s == [] then 0 else 10 * DigitsValue(s[..|s| - 1]) + DigitValue(s[|s| - 1])
  }

  lemma ShiftDigit(x: int, p: int, y: int, d: int)
    ensures 10 * (x * p + y) + d == x * (10 * p) + (10 * y + d)
  {
  }

  lemma {:induction false} DigitsValueConcat(a: string, b: string)
    requires AllDigits(a) && AllDigits(b)
    ensures AllDigits(a + b)
    ensures DigitsValue(a + b) == DigitsValue(a) * Pow10(|b|) + DigitsValue(b)
    decreases |b|
  {
    if b != [] {
      var b' := b[..|b| - 1];
      assert b == b' + [b[|b| - 1]];
      assert b[|b| - 1] in b;
      assert (a + b)[..|a + b| - 1] == a + b';
      assert (a + b)[|a + b| - 1] == b[|b| - 1];
      DigitsValueConcat(a, b');
      assert DigitsValue(a + b) == 10 * DigitsValue(a + b') + DigitValue(b[|b| - 1]);
      assert DigitsValue(b) == 10 * DigitsValue(b') + DigitValue(b[|b| - 1]);
      assert Pow10(|b|) == 10 * Pow10(|b'|);
      ShiftDigit(DigitsValue(a), Pow10(|b'|), DigitsValue(b'), DigitValue(b[|b| - 1]));
    } else {
      assert a + b == a;
    }
  }

  function DigitChar(n: nat): (c: char)
    requires n < 10
    ensures IsDigit(c) && DigitValue(c) == n
  {
    ('0' as int + n) as char
  }

  /** The decimal numeral of `n`, without leading zeros. */
  function DigitsOf(n: nat): (s: string)
    ensures |s| >= 1 && AllDigits(s)
  {
    if n < 10 then [DigitChar(n)] else DigitsOf(n / 10) + [DigitChar(n % 10)]
  }

  /** The numeral of `n` denotes `n`. */
  lemma {:induction false} DigitsOfValue(n: nat)
    ensures DigitsValue(DigitsOf(n)) == n
  {
    if n >= 10 {
      var s := DigitsOf(n);
      assert s[..|s| - 1] == DigitsOf(n / 10);
      DigitsOfValue(n / 10);
    }
  }

  lemma {:induction false} DigitsOfLength(n: nat, k: nat)
    requires k >= 1 && n < Pow10(k)
    ensures |DigitsOf(n)| <= k
    decreases k
  {
    if n >= 10 {
      assert k >= 2;
      DigitsOfLength(n / 10, k - 1);
    }
  }

  function Zeros(k: nat): (s: string)
    ensures |s| == k && AllDigits(s)
  {
    if k == 0 then "" else Zeros(k - 1) + "0"
  }

  lemma {:induction false} ZerosValue(k: nat)
    ensures DigitsValue(Zeros(k)) == 0
  {
    if k > 0 {
      var s := Zeros(k);
      assert s[..|s| - 1] == Zeros(k - 1);
      ZerosValue(k - 1);
    }
  }

  /** `padStart(k, "0")` on a numeral. */
  function PadDigits(s: string, k: nat): (r: string)
    requires AllDigits(s)
    ensures AllDigits(r)
    ensures |r| == if |s| >= k then |s| else k
  {
    if |s| >= k then s else Zeros(k - |s|) + s
  }

  lemma ZeroTimes(x: int, y: int)
    requires x == 0
    ensures x * y == 0
  {
  }

  /** Padding keeps the value. */
  lemma PadDigitsValue(s: string, k: nat)
    requires AllDigits(s)
    ensures DigitsValue(PadDigits(s, k)) == DigitsValue(s)
  {
    if |s| < k {
      var z := Zeros(k - |s|);
      assert PadDigits(s, k) == z + s;
      assert DigitsValue(z + s) == DigitsValue(s) by {
        ZerosValue(k - |s|);
        DigitsValueConcat(z, s);
        ZeroTimes(DigitsValue(z), Pow10(|s|));
      }
    }
  }

  /** `parseFloat` on text made of digits and dots: the longest prefix of the
      form digits, optional dot, digits, that holds at least one digit. */
  function ParseFloat(s: string): (r: JsNumber)
    ensures r.Finite? <==> (|s| > 0 && IsDigit(s[0])) || (|s| > 1 && s[0] == '.' && IsDigit(s[1]))
  {
    var a := RunEnd(s, 0, IsDigit);
    var frac := if a < |s| && s[a] == '.' then s[a + 1..RunEnd(s, a + 1, IsDigit)] else "";
    if a == 0 && |frac| == 0 then NaN
    else Finite(Decimal(DigitsValue(s[..a]) * Pow10(|frac|) + DigitsValue(frac), |frac|))
  }

  /** Reading a plain numeral gives its integer value. */
  lemma ParseFloatOfDigits(s: string)
    requires |s| >= 1 && AllDigits(s)
    ensures ParseFloat(s) == Finite(Decimal(DigitsValue(s), 0))
  {
    RunEndUnique(s, 0, |s|, IsDigit);
    assert s[..|s|] == s;
  }

  /** Reading "int.frac" gives the decimal with `|frac|` places. */
  lemma ParseFloatOfFraction(i: string, f: string)
    requires |i| >= 1 && AllDigits(i) && AllDigits(f)
    ensures ParseFloat(i + "." + f) == Finite(Decimal(DigitsValue(i) * Pow10(|f|) + DigitsValue(f), |f|))
  {
    var s := i + "." + f;
    assert s[..|i|] == i;
    assert s[|i| + 1..|s|] == f;
    assert s[|i|] == '.';
    assert forall k :: 0 <= k < |i| ==> s[k] == i[k];
    assert forall k :: |i| + 1 <= k < |s| ==> s[k] == f[k - |i| - 1];
    assert forall k :: 0 <= k < |i| ==> IsDigit(s[k]) by {
      forall k | 0 <= k < |i| ensures IsDigit(s[k]) { assert i[k] in i; }
    }
    assert forall k :: |i| + 1 <= k < |s| ==> IsDigit(s[k]) by {
      forall k | |i| + 1 <= k < |s| ensures IsDigit(s[k]) { assert f[k - |i| - 1] in f; }
    }
    RunEndUnique(s, 0, |i|, IsDigit);
    RunEndUnique(s, |i| + 1, |s|, IsDigit);
  }

  /** The decimal with trailing zeros of the fraction removed. */
  function Canonical(d: Decimal): (c: Decimal)
    ensures c.scale <= d.scale
    ensures c.scale > 0 ==> c.mantissa % 10 != 0
    decreases d.scale
  {
    if d.scale > 0 && d.mantissa % 10 == 0 then Canonical(Decimal(d.mantissa / 10, d.scale - 1))
    else d
  }

  /** Dropping a trailing zero of the fraction keeps the value. */
  lemma DropZeroValue(d: Decimal)
    requires d.scale > 0 && d.mantissa % 10 == 0
    ensures Value(Decimal(d.mantissa / 10, d.scale - 1)) == Value(d)
  {
    var p := Pow10(d.scale - 1) as real;
    assert Pow10(d.scale) as real == 10.0 * p;
    assert d.mantissa as real == 10.0 * (d.mantissa / 10) as real;
    assert (10.0 * (d.mantissa / 10) as real) / (10.0 * p) == (d.mantissa / 10) as real / p;
  }

  /** The canonical decimal has the same value. */
  lemma {:induction false} CanonicalValue(d: Decimal)
    ensures Value(Canonical(d)) == Value(d)
    decreases d.scale
  {
    if d.scale > 0 && d.mantissa % 10 == 0 {
      DropZeroValue(d);
      CanonicalValue(Decimal(d.mantissa / 10, d.scale - 1));
    }
  }

  /** `String(n)` for a finite number in plain (non-exponent) notation. */
  function NumberText(d: Decimal): (s: string)
    ensures ',' !in s && '"' !in s
  {
    DecimalText(Canonical(d))
  }

  /** The numeral of the mantissa, padded with zeros so that at least one
      digit stands before the point. */
  function Padded(c: Decimal): (t: string)
    ensures |t| > c.scale && AllDigits(t)
  {
    PadDigits(DigitsOf(c.mantissa), c.scale + 1)
  }

  lemma PaddedValue(c: Decimal)
    ensures DigitsValue(Padded(c)) == c.mantissa
  {
    DigitsOfValue(c.mantissa);
    PadDigitsValue(DigitsOf(c.mantissa), c.scale + 1);
  }

  /** The digits before the point of a decimal. */
  function IntPart(c: Decimal): (s: string)
    ensures |s| >= 1 && AllDigits(s)
  {
    var t := Padded(c);
    t[..|t| - c.scale]
  }

  /** The `scale` digits after the point of a decimal. */
  function FracPart(c: Decimal): (s: string)
    ensures |s| == c.scale && AllDigits(s)
  {
    var t := Padded(c);
    t[|t| - c.scale..]
  }

  /** The text of a decimal, before trailing zeros are dropped. */
  function DecimalText(c: Decimal): (s: string)
  {
    IntPart(c) + (if c.scale == 0 then "" else "." + FracPart(c))
  }

  lemma ParseDecimalText(c: Decimal)
    ensures ParseFloat(DecimalText(c)) == Finite(c)
  {
    var a, f := IntPart(c), FracPart(c);
    assert Padded(c) == a + f;
    PaddedValue(c);
    DigitsValueConcat(a, f);
    if c.scale == 0 {
      assert f == [] && a + f == a;
      ParseFloatOfDigits(a);
    } else {
      assert DecimalText(c) == a + "." + f;
      ParseFloatOfFraction(a, f);
      assert DigitsValue(a) * Pow10(|f|) + DigitsValue(f) == c.mantissa;
    }
  }

  /** `parseFloat(String(n))` gives the number back: the text a number is
      exported as reads back as the same decimal. */
  lemma ParseNumberText(d: Decimal)
    ensures ParseFloat(NumberText(d)) == Finite(Canonical(d))
    ensures Value(Canonical(d)) == Value(d)
  {
    ParseDecimalText(Canonical(d));
    CanonicalValue(d);
  }

  /** The value `parseFloat(x) * 1000` has for an exact decimal. */
  function Thousand(d: Decimal): (r: Decimal)
    ensures Value(r) == 1000.0 * Value(d)
  {
    var r := Decimal(d.mantissa * 1000, d.scale);
    assert r.mantissa as real == 1000.0 * d.mantissa as real;
    r
  }
}
