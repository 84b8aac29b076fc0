/** What the amount extractors give on the texts they are written for: a
    currency code followed by a printed number, a printed number followed by a
    currency, and the "k" shorthand; and what the prefix and suffix rules as
    written give instead on numbers of four or more digits.
 */
module AmountFacts {
  import opened Scan
  import opened Text
  import opened Numbers
  import opened Amounts

  /** A printed number starts with a digit and holds only digits and the point. */
  lemma NumberTextChars(d: Decimal)
    ensures |NumberText(d)| >= 1 && IsDigit(NumberText(d)[0])
    ensures forall c :: c in NumberText(d) ==> IsDigit(c) || c == '.'
  {
    var c := Canonical(d);
    var a := IntPart(c);
    var t := NumberText(d);
    assert t == DecimalText(c);
    if c.scale > 0 {
      var f := FracPart(c);
      assert t == a + "." + f;
      FractionChars(a, f);
    } else {
      assert t == a;
    }
  }

  lemma FractionChars(a: string, f: string)
    requires |a| >= 1 && AllDigits(a) && AllDigits(f)
    ensures var t := a + "." + f;
      IsDigit(t[0]) && forall c :: c in t ==> IsDigit(c) || c == '.'
  {
    var t := a + "." + f;
    assert t[0] == a[0] && a[0] in a;
    forall c | c in t ensures IsDigit(c) || c == '.' {
      var k :| 0 <= k < |t| && t[k] == c;
      if k < |a| {
        assert t[k] == a[k] && a[k] in a;
      } else if k > |a| {
        assert t[k] == f[k - |a| - 1] && f[k - |a| - 1] in f;
      }
    }
  }

  /** A printed number read by `[0-9,]+(?:\.[0-9]+)?` is read whole, when
      what follows it cannot continue a number. */
  lemma NumeralEndOfText(s: string, i: nat, d: Decimal)
    requires i + |NumberText(d)| <= |s| && s[i..i + |NumberText(d)|] == NumberText(d)
    requires i + |NumberText(d)| < |s| ==> !IsNumeralChar(s[i + |NumberText(d)|])
    ensures NumeralEnd(s, i) == i + |NumberText(d)|
  {
    NumeralEndOfDecimalText(s, i, Canonical(d));
  }

  lemma NumeralEndOfDecimalText(s: string, i: nat, c: Decimal)
    requires i + |DecimalText(c)| <= |s| && s[i..i + |DecimalText(c)|] == DecimalText(c)
    requires i + |DecimalText(c)| < |s| ==> !IsNumeralChar(s[i + |DecimalText(c)|])
    ensures NumeralEnd(s, i) == i + |DecimalText(c)|
  {
    var t := DecimalText(c);
    var a := IntPart(c);
    if c.scale > 0 {
      var f := FracPart(c);
      assert t == a + "." + f;
      assert s[i..i + |a|] == a && s[i + |a|] == '.' && s[i + |a| + 1..i + |a| + 1 + |f|] == f by {
        var u := s[i..i + |t|];
        FractionSlices(u, a, f);
        assert s[i..i + |a|] == u[..|a|] && s[i + |a|] == u[|a|];
        assert s[i + |a| + 1..i + |a| + 1 + |f|] == u[|a| + 1..];
      }
      NumeralEndOfFraction(s, i, a, f);
    } else {
      assert t == a;
      NumeralEndOfInteger(s, i, a);
    }
  }

  lemma FractionSlices(u: string, a: string, f: string)
    requires u == a + "." + f
    ensures u[..|a|] == a && u[|a|] == '.' && u[|a| + 1..] == f
  {
  }

  /** `NumeralEndOfText` for a printed integer `a`. */
  lemma NumeralEndOfInteger(s: string, i: nat, a: string)
    requires |a| >= 1 && AllDigits(a)
    requires i + |a| <= |s| && s[i..i + |a|] == a
    requires i + |a| < |s| ==> !IsNumeralChar(s[i + |a|])
    ensures NumeralEnd(s, i) == i + |a|
  {
    RunOver(s, i, a, IsDigitOrComma);
    var j := RunEnd(s, i, IsDigitOrComma);
    assert j == i + |a|;
    assert !(j + 1 < |s| && s[j] == '.');
  }

  /** `NumeralEndOfText` for a printed fraction `a.f`. */
  lemma NumeralEndOfFraction(s: string, i: nat, a: string, f: string)
    requires |a| >= 1 && AllDigits(a) && |f| >= 1 && AllDigits(f)
    requires i + |a| + 1 + |f| <= |s|
    requires s[i..i + |a|] == a && s[i + |a|] == '.' && s[i + |a| + 1..i + |a| + 1 + |f|] == f
    requires i + |a| + 1 + |f| < |s| ==> !IsNumeralChar(s[i + |a| + 1 + |f|])
    ensures NumeralEnd(s, i) == i + |a| + 1 + |f|
  {
    RunOver(s, i, a, IsDigitOrComma);
    assert s[i + |a| + 1] == f[0] && f[0] in f;
    RunOver(s, i + |a| + 1, f, IsDigit);
  }

  /** Reading a printed number back gives the number, without trailing zeros. */
  lemma AmountOfText(d: Decimal)
    ensures AmountOf(NumberText(d)) == Finite(Canonical(d))
  {
    KeepAll(NumberText(d), c => c != ',');
    ParseNumberText(d);
  }

  /** Reading a plain numeral gives its value. */
  lemma AmountOfDigits(n: string)
    requires |n| >= 1 && AllDigits(n)
    ensures AmountOf(n) == Finite(Decimal(DigitsValue(n), 0))
  {
    KeepAll(n, c => c != ',');
    ParseFloatOfDigits(n);
  }

  /** The numeral a shorthand candidate at `d` reads ends in a digit. */
  lemma ShorthandNumeralEndsInDigit(s: string, d: nat)
    requires d < |s| && IsDigit(s[d])
    ensures var n := FractionEnd(s, RunEnd(s, d, IsDigit)); d < n && IsDigit(s[n - 1])
  {
    var j := RunEnd(s, d, IsDigit);
    assert IsDigit(s[j - 1]);
  }

  /** No shorthand is found when no `k` or `K` directly follows a digit. */
  lemma NoShorthand(s: string)
    requires forall k :: 0 < k < |s| && IsK(s[k]) ==> !IsDigit(s[k - 1])
    ensures Shorthand(s) == None
  {
    forall d: nat | d <= |s| ensures ShorthandAt(s, d).None? {
      if d < |s| && IsDigit(s[d]) {
        ShorthandNumeralEndsInDigit(s, d);
      }
    }
  }

  /** A currency code needs a letter where it starts. */
  lemma NoCurrencyAtNonLetter(s: string, p: nat)
    requires p < |s| && !IsLetter(s[p])
    ensures !CurrencyAt(s, p)
  {
    forall lit: string | |lit| >= 1 && IsLower(lit[0]) ensures !AtCI(s, p, lit) {
      assert Lower(s[p + 0]) != Lower(lit[0]);
    }
  }

  /** A suffix currency needs a letter or a slash where it starts. */
  lemma NoSuffixAtDigit(s: string, i: nat)
    requires i < |s| && IsDigit(s[i])
    ensures !SuffixAt(s, i)
  {
    forall lit: string | |lit| >= 1 && !IsDigit(lit[0]) ensures !AtCI(s, i, lit) && !At(s, i, lit) {
      assert Lower(s[i + 0]) != Lower(lit[0]);
      assert s[i + 0] != lit[0];
    }
  }

  /** The codes the prefix rule accepts, as they are usually written. */
  predicate IsPrefixCode(c: string) {
    c == "Ksh" || c == "KES" || c == "USD" || c == "GBP" || c == "EUR" || c == "UGX" || c == "TZS"
  }

  /** A number text: a digit first, then digits, thousands commas and points. */
  predicate IsNumberLike(t: string) {
    |t| >= 1 && IsDigit(t[0]) && forall c :: c in t ==> IsDigit(c) || c == '.' || c == ','
  }

  /** The layout of `c + " " + t` for a three-letter code `c`. */
  lemma CodeSpaceText(c: string, t: string)
    requires |c| == 3
    ensures var s := c + " " + t;
      |s| == 4 + |t| && s[0..3] == c && s[3] == ' ' && s[4..] == t
      && forall k :: 4 <= k < |s| ==> s[k] == t[k - 4]
  {
  }

  lemma PrefixCodeAt(s: string, c: string)
    requires IsPrefixCode(c) && |s| >= 3 && s[0..3] == c
    ensures CurrencyAt(s, 0)
  {
    forall k | 0 <= k < 3 ensures s[k] == c[k] {
      assert s[0..3][k] == s[k];
    }
    if c == "Ksh" || c == "KES" {
      assert AtCI(s, 0, "ksh") || AtCI(s, 0, "kes");
    } else if c == "USD" || c == "GBP" {
      assert AtCI(s, 0, "usd") || AtCI(s, 0, "gbp");
    } else if c == "EUR" {
      assert AtCI(s, 0, "eur");
    } else {
      assert AtCI(s, 0, "ugx") || AtCI(s, 0, "tzs");
    }
  }

  /** In `c + " " + t` no shorthand is found and the prefix rule finds the
      code at 0 with its number starting at 4. */
  lemma PrefixTextFacts(c: string, t: string)
    requires IsPrefixCode(c) && IsNumberLike(t)
    ensures var s := c + " " + t;
      Shorthand(s) == None && 4 <= |s| && CurrencyAt(s, 0) && PrefixNumberStart(s, 0) == 4
  {
    var s := c + " " + t;
    assert |c| == 3;
    CodeSpaceText(c, t);
    PrefixCodeAt(s, c);
    assert Shorthand(s) == None by {
      forall k | 4 <= k < |s| ensures s[k] in t {
        assert s[k] == t[k - 4];
      }
      NoShorthand(s);
    }
    assert PrefixNumberStart(s, 0) == 4 by {
      assert s[4] == t[0];
      RunEndUnique(s, 3, 4, IsSpace);
    }
  }

  /** In `t + " Ksh"` neither the shorthand nor either prefix rule finds anything. */
  lemma SuffixTextFacts(t: string)
    requires IsNumberLike(t)
    ensures var s := t + " Ksh";
      Shorthand(s) == None && Prefix(s) == None && PrefixAsWritten(s) == None
  {
    var s := t + " Ksh";
    assert Shorthand(s) == None by {
      assert forall k :: 0 <= k < |t| ==> s[k] == t[k] && t[k] in t;
      assert s[|t|..] == " Ksh";
      NoShorthand(s);
    }
    forall p: nat | p <= |s| ensures PrefixAt(s, p).None? && PrefixAsWrittenAt(s, p).None? {
      NoPrefixBeforeKsh(t, p);
    }
  }

  /** No prefix rule matches at any start of `t + " Ksh"`. */
  lemma NoPrefixBeforeKsh(t: string, p: nat)
    requires IsNumberLike(t) && p <= |t| + 4
    ensures var s := t + " Ksh";
      PrefixAt(s, p).None? && PrefixAsWrittenAt(s, p).None?
  {
    var s := t + " Ksh";
    if p < |t| {
      assert s[p] == t[p] && t[p] in t;
      NoCurrencyAtNonLetter(s, p);
    } else if p == |t| {
      assert s[p] == ' ';
      NoCurrencyAtNonLetter(s, p);
    } else if p == |t| + 1 {
      assert s[|t|..] == " Ksh";
      assert PrefixNumberStart(s, p) == |s|;
    } else {
      assert s[|t|..] == " Ksh";
    }
  }

  /** A code at 0 whose number runs from 4 to the end is the amount found. */
  lemma PrefixAtStart(s: string, t: string, v: JsNumber)
    requires |s| >= 5 && Shorthand(s) == None && CurrencyAt(s, 0) && PrefixNumberStart(s, 0) == 4
    requires IsDigit(s[4]) && NumeralEnd(s, 4) == |s| && s[4..] == t && AmountOf(t) == v
    ensures FlexibleAmount(s) == Some(v)
  {
    assert s[4..|s|] == t;
    var f: nat -> Option<JsNumber> := (p: nat) => PrefixAt(s, p);
    assert f(0) == Some(v);
    FirstHitAt(0, |s|, f, 0);
  }

  /** Printed after a currency code, an amount is read back exactly. */
  lemma PrefixRoundTrip(c: string, d: Decimal)
    requires IsPrefixCode(c)
    ensures FlexibleAmount(c + " " + NumberText(d)) == Some(Finite(Canonical(d)))
  {
    var t := NumberText(d);
    var s := c + " " + t;
    assert |c| == 3;
    NumberTextChars(d);
    CodeSpaceText(c, t);
    assert Shorthand(s) == None && CurrencyAt(s, 0) && PrefixNumberStart(s, 0) == 4 by {
      PrefixTextFacts(c, t);
    }
    assert NumeralEnd(s, 4) == |s| by {
      assert s[4..4 + |t|] == t;
      NumeralEndOfText(s, 4, d);
    }
    assert AmountOf(t) == Finite(Canonical(d)) by {
      AmountOfText(d);
    }
    PrefixAtStart(s, t, Finite(Canonical(d)));
  }

  /** A number text read whole before " Ksh" is the amount found. */
  lemma SuffixReadsWhole(t: string)
    requires IsNumberLike(t) && NumeralEnd(t + " Ksh", 0) == |t|
    ensures FlexibleAmount(t + " Ksh") == Some(AmountOf(t))
  {
    var s := t + " Ksh";
    assert Shorthand(s) == None && Prefix(s) == None by {
      SuffixTextFacts(t);
    }
    var f: nat -> Option<JsNumber> := (p: nat) => SuffixAt'(s, p);
    assert f(0) == Some(AmountOf(t)) by {
      assert s[0..|t|] == t && s[0] == t[0];
      RunEndUnique(s, |t|, |t| + 1, IsSpace);
      KshSuffixAt(t);
    }
    FirstHitAt(0, |s|, f, 0);
  }

  /** The suffix "Ksh" stands after the space of `t + " Ksh"`. */
  lemma KshSuffixAt(t: string)
    ensures SuffixAt(t + " Ksh", |t| + 1)
  {
    var s := t + " Ksh";
    var i := |t| + 1;
    assert s[i] == 'K' && s[i + 1] == 's' && s[i + 2] == 'h';
    assert forall k :: 0 <= k < 3 ==> Lower(s[i + k]) == Lower("ksh"[k]);
    assert AtCI(s, i, "ksh");
  }

  /** Printed before "Ksh", an amount is read back exactly. */
  lemma SuffixRoundTrip(d: Decimal)
    ensures FlexibleAmount(NumberText(d) + " Ksh") == Some(Finite(Canonical(d)))
  {
    var t := NumberText(d);
    var s := t + " Ksh";
    NumberTextChars(d);
    assert s[0..|t|] == t && s[|t|] == ' ';
    NumeralEndOfText(s, 0, d);
    SuffixReadsWhole(t);
    AmountOfText(d);
  }

  /** The shorthand `<n>k` is worth a thousand times `n`. */
  lemma ShorthandValue(n: string)
    requires |n| >= 1 && AllDigits(n)
    ensures FlexibleAmount(n + "k") == Some(Finite(Decimal(DigitsValue(n) * 1000, 0)))
  {
    var s := n + "k";
    assert forall k :: 0 <= k < |n| ==> s[k] == n[k] && n[k] in n;
    RunEndUnique(s, 0, |n|, IsDigit);
    assert s[0..|n|] == n;
    ParseFloatOfDigits(n);
    assert ShorthandAt(s, 0).Some?;
  }

  /** A text without digits has no amount. */
  lemma NoDigitNoAmount(s: string)
    requires forall k :: 0 <= k < |s| ==> !IsDigit(s[k])
    ensures FlexibleAmount(s) == None && FlexibleAmountAsWritten(s) == None
  {
    assert forall p: nat :: ShorthandAt(s, p).None?;
    assert forall p: nat :: PrefixAt(s, p).None? && PrefixAsWrittenAt(s, p).None?;
    assert forall p: nat :: SuffixAt'(s, p).None? && SuffixAsWrittenAt(s, p).None?;
  }

  /** The prefix rule as written keeps only the first three digits of a
      numeral without thousands commas. */
  lemma PrefixAsWrittenCutsAtThree(c: string, n: string)
    requires IsPrefixCode(c) && |n| >= 4 && AllDigits(n)
    ensures FlexibleAmountAsWritten(c + " " + n) == Some(Finite(Decimal(DigitsValue(n[..3]), 0)))
  {
    var s := c + " " + n;
    assert n[0] in n;
    PrefixTextFacts(c, n);
    assert forall k :: 4 <= k < |s| ==> s[k] == n[k - 4] && n[k - 4] in n;
    RunEndUnique(s, 4, |s|, IsDigit);
    assert GroupedEnd(s, 4) == 7;
    assert s[4..7] == n[..3];
    assert forall ch :: ch in n[..3] ==> ch in n;
    AmountOfDigits(n[..3]);
    assert PrefixAsWrittenAt(s, 0).Some?;
  }

  /** The suffix rule as written keeps only the last three digits of a
      numeral without thousands commas. */
  lemma SuffixAsWrittenKeepsLastThree(n: string)
    requires |n| >= 4 && AllDigits(n)
    ensures FlexibleAmountAsWritten(n + " Ksh") == Some(Finite(Decimal(DigitsValue(n[|n| - 3..]), 0)))
  {
    var s := n + " Ksh";
    var m := |n| - 3;
    assert n[0] in n;
    SuffixTextFacts(n);
    var f: nat -> Option<JsNumber> := (p: nat) => SuffixAsWrittenAt(s, p);
    forall p: nat | p < m ensures f(p).None? {
      SuffixAsWrittenMissesInside(n, p);
    }
    SuffixAsWrittenAtLastThree(n);
    FirstHitAt(0, |s|, f, m);
  }

  lemma SuffixAsWrittenAtLastThree(n: string)
    requires |n| >= 4 && AllDigits(n)
    ensures SuffixAsWrittenAt(n + " Ksh", |n| - 3) == Some(Finite(Decimal(DigitsValue(n[|n| - 3..]), 0)))
  {
    var s := n + " Ksh";
    var m := |n| - 3;
    assert s[m..|n|] == n[m..];
    assert forall ch :: ch in n[m..] ==> ch in n;
    RunOver(s, m, n[m..], IsDigit);
    assert s[m] == n[m] && n[m] in n;
    assert s[|n|] == ' ';
    assert GroupedEnd(s, m) == |n|;
    RunEndUnique(s, |n|, |n| + 1, IsSpace);
    assert SuffixAt(s, |n| + 1);
    AmountOfDigits(n[m..]);
  }

  lemma SuffixAsWrittenMissesInside(n: string, p: nat)
    requires AllDigits(n) && p + 3 < |n|
    ensures SuffixAsWrittenAt(n + " Ksh", p).None?
  {
    var s := n + " Ksh";
    assert s[p..|n|] == n[p..];
    assert forall ch :: ch in n[p..] ==> ch in n;
    RunOver(s, p, n[p..], IsDigit);
    assert s[p + 3] == n[p + 3] && n[p + 3] in n;
    assert GroupedEnd(s, p) == p + 3;
    RunEndUnique(s, p + 3, p + 3, IsSpace);
    NoSuffixAtDigit(s, p + 3);
  }

  /** "Ksh 1000" is read as 100 and "1000 Ksh" as 0 by the rules as written. */
  lemma AsWrittenMisreadsThousand(c: string, n: string)
    requires c == "Ksh" && n == "1000"
    ensures FlexibleAmountAsWritten(c + " " + n) == Some(Finite(Decimal(100, 0)))
    ensures FlexibleAmountAsWritten(n + " " + c) == Some(Finite(Decimal(0, 0)))
  {
    AsWrittenPrefixThousand(c, n);
    AsWrittenSuffixThousand(c, n);
  }

  lemma ThousandDigits(n: string)
    requires n == "1000"
    ensures |n| == 4 && AllDigits(n)
    ensures DigitsValue(n[..3]) == 100 && DigitsValue(n[1..]) == 0
  {
    assert DigitsValue(n[..3]) == 100 by {
      assert DigitsOf(100) == "100" == n[..3];
      DigitsOfValue(100);
    }
    assert DigitsValue(n[1..]) == 0 by {
      assert n[1..] == Zeros(3);
      ZerosValue(3);
    }
  }

  lemma AsWrittenPrefixThousand(c: string, n: string)
    requires c == "Ksh" && n == "1000"
    ensures FlexibleAmountAsWritten(c + " " + n) == Some(Finite(Decimal(100, 0)))
  {
    ThousandDigits(n);
    PrefixAsWrittenCutsAtThree(c, n);
  }

  lemma AsWrittenSuffixThousand(c: string, n: string)
    requires c == "Ksh" && n == "1000"
    ensures FlexibleAmountAsWritten(n + " " + c) == Some(Finite(Decimal(0, 0)))
  {
    ThousandDigits(n);
    assert n + " " + c == n + " Ksh";
    SuffixAsWrittenKeepsLastThree(n);
  }

  /** "Ksh 1000" and "1000 Ksh" are both read as 1000 by the corrected rules. */
  lemma CorrectedReadsThousand(c: string, n: string)
    requires c == "Ksh" && n == "1000"
    ensures FlexibleAmount(c + " " + n) == Some(Finite(Decimal(1000, 0)))
    ensures FlexibleAmount(n + " " + c) == Some(Finite(Decimal(1000, 0)))
  {
    CorrectedPrefixThousand(c, n);
    CorrectedSuffixThousand(c, n);
  }

  lemma CorrectedPrefixThousand(c: string, n: string)
    requires c == "Ksh" && n == "1000"
    ensures FlexibleAmount(c + " " + n) == Some(Finite(Decimal(1000, 0)))
  {
    PrintedThousand(n);
    PrefixRoundTrip(c, Decimal(1000, 0));
  }

  lemma CorrectedSuffixThousand(c: string, n: string)
    requires c == "Ksh" && n == "1000"
    ensures FlexibleAmount(n + " " + c) == Some(Finite(Decimal(1000, 0)))
  {
    PrintedThousand(n);
    assert n + " " + c == n + " Ksh";
    SuffixRoundTrip(Decimal(1000, 0));
  }

  lemma PrintedThousand(n: string)
    requires n == "1000"
    ensures NumberText(Decimal(1000, 0)) == n
    ensures Canonical(Decimal(1000, 0)) == Decimal(1000, 0)
  {
    assert DigitsOf(1) == "1";
    assert DigitsOf(10) == "10";
    assert DigitsOf(100) == "100";
    assert DigitsOf(1000) == "1000";
  }

  // ---------------------------------------------------------------------
  // The shorthand wherever it stands, and the order of the rules
  // ---------------------------------------------------------------------

  /** The numeral of a shorthand: the digits `n`, then a point and the
      digits `f` when `f` is not empty. */
  function ShorthandText(n: string, f: string): string {
    if f == [] then n else n + "." + f
  }

  /** The decimal a shorthand numeral denotes before it is multiplied. */
  function ShorthandDecimal(n: string, f: string): Decimal
    requires AllDigits(n) && AllDigits(f)
  {
    Decimal(DigitsValue(n) * Pow10(|f|) + DigitsValue(f), |f|)
  }

  lemma ShorthandTextReads(n: string, f: string)
    requires |n| >= 1 && AllDigits(n) && AllDigits(f)
    ensures ParseFloat(ShorthandText(n, f)) == Finite(ShorthandDecimal(n, f))
  {
    if f == [] {
      ParseFloatOfDigits(n);
    } else {
      ParseFloatOfFraction(n, f);
    }
  }

  /** Text before a shorthand that holds no shorthand of its own: it ends in
      a space, and no `k` in it directly follows a digit. */
  predicate QuietLead(w: string) {
    (w == [] || IsSpace(w[|w| - 1]))
    && forall j :: 0 < j < |w| && IsK(w[j]) ==> !IsDigit(w[j - 1])
  }

  /** Where the numeral of a shorthand candidate ends. */
  function ShorthandEnd(s: string, d: nat): nat
    requires d <= |s|
  {
    FractionEnd(s, RunEnd(s, d, IsDigit))
  }

  /** A candidate inside the quiet lead ends before the lead's last space. */
  lemma LeadCandidateEnds(s: string, w: string, d: nat)
    requires |w| >= 1 && |w| <= |s| && s[..|w|] == w && IsSpace(w[|w| - 1]) && d < |w|
    ensures ShorthandEnd(s, d) < |w|
  {
    assert s[|w| - 1] == w[|w| - 1];
    var j := RunEnd(s, d, IsDigit);
    assert j < |w|;
  }

  /** No shorthand candidate inside a quiet lead succeeds. */
  lemma QuietLeadMisses(s: string, w: string, d: nat)
    requires QuietLead(w) && |w| <= |s| && s[..|w|] == w && d < |w|
    ensures ShorthandAt(s, d).None?
  {
    if IsDigit(s[d]) {
      LeadCandidateEnds(s, w, d);
      ShorthandNumeralEndsInDigit(s, d);
      var e := ShorthandEnd(s, d);
      assert s[e] == w[e] && s[e - 1] == w[e - 1];
    }
  }

  /** The layout of `w + ShorthandText(n, f) + [k] + rest`. */
  lemma ShorthandLaidOut(w: string, n: string, f: string, k: char, rest: string)
    ensures var t := ShorthandText(n, f); var s := w + t + [k] + rest;
      var e := |w| + |t|;
      |s| == e + 1 + |rest| && s[..|w|] == w && s[|w|..e] == t && s[e] == k && s[e + 1..] == rest
  {
  }

  /** The numeral of a shorthand at the start of its text is read to its end. */
  lemma ShorthandNumeralRead(s: string, m: nat, n: string, f: string)
    requires |n| >= 1 && AllDigits(n) && AllDigits(f)
    requires var e := m + |ShorthandText(n, f)|;
      e < |s| && s[m..e] == ShorthandText(n, f) && !IsDigit(s[e]) && s[e] != '.'
    ensures ShorthandEnd(s, m) == m + |ShorthandText(n, f)|
  {
    var t := ShorthandText(n, f);
    if f == [] {
      RunOver(s, m, n, IsDigit);
    } else {
      assert t == n + "." + f;
      assert s[m..m + |n|] == n && s[m + |n|] == '.' && s[m + |n| + 1..m + |t|] == f by {
        FractionSlices(s[m..m + |t|], n, f);
        assert s[m..m + |n|] == s[m..m + |t|][..|n|];
      }
      RunOver(s, m, n, IsDigit);
      assert s[m + |n| + 1] == f[0] && f[0] in f;
      RunOver(s, m + |n| + 1, f, IsDigit);
    }
  }

  /** A candidate at `m` whose numeral `s[m..e]` is followed by a `k` and a
      word boundary succeeds with a thousand times the numeral. */
  lemma ShorthandAtOf(s: string, m: nat, e: nat, v: Decimal)
    requires m < e < |s| && IsDigit(s[m]) && (m == 0 || !IsWordChar(s[m - 1]))
    requires ShorthandEnd(s, m) == e && IsK(s[e]) && (e + 1 == |s| || !IsWordChar(s[e + 1]))
    requires ParseFloat(s[m..e]) == Finite(v)
    ensures ShorthandAt(s, m) == Some(Finite(Thousand(v)))
  {
  }

  /** The shorthand laid out after the lead `w` is a candidate that succeeds. */
  lemma ShorthandHit(w: string, n: string, f: string, k: char, rest: string)
    requires (w == [] || IsSpace(w[|w| - 1])) && |n| >= 1 && AllDigits(n) && AllDigits(f) && IsK(k)
    requires rest == [] || !IsWordChar(rest[0])
    ensures ShorthandAt(w + ShorthandText(n, f) + [k] + rest, |w|) == Some(Finite(Thousand(ShorthandDecimal(n, f))))
  {
    var t := ShorthandText(n, f);
    var s := w + t + [k] + rest;
    var m, e := |w|, |w| + |t|;
    ShorthandLaidOut(w, n, f, k, rest);
    assert IsDigit(s[m]) by {
      assert s[m..e][0] == s[m];
      assert t[0] == n[0] && n[0] in n;
    }
    assert m == 0 || !IsWordChar(s[m - 1]) by {
      assert m > 0 ==> s[m - 1] == w[m - 1];
    }
    assert e + 1 == |s| || !IsWordChar(s[e + 1]) by {
      assert e + 1 < |s| ==> s[e + 1] == rest[0];
    }
    assert ShorthandEnd(s, m) == e by {
      ShorthandNumeralRead(s, m, n, f);
    }
    assert ParseFloat(s[m..e]) == Finite(ShorthandDecimal(n, f)) by {
      ShorthandTextReads(n, f);
    }
    ShorthandAtOf(s, m, e, ShorthandDecimal(n, f));
  }

  /** A shorthand after a quiet lead and before a non-word character is the
      one found, whatever currency the lead names. */
  lemma ShorthandAfterLead(w: string, n: string, f: string, k: char, rest: string)
    requires QuietLead(w) && |n| >= 1 && AllDigits(n) && AllDigits(f) && IsK(k)
    requires rest == [] || !IsWordChar(rest[0])
    ensures Shorthand(w + ShorthandText(n, f) + [k] + rest) == Some(Finite(Thousand(ShorthandDecimal(n, f))))
  {
    var s := w + ShorthandText(n, f) + [k] + rest;
    ShorthandLaidOut(w, n, f, k, rest);
    ShorthandHit(w, n, f, k, rest);
    var g: nat -> Option<JsNumber> := (d: nat) => ShorthandAt(s, d);
    forall d: nat | d < |w| ensures g(d).None? {
      QuietLeadMisses(s, w, d);
    }
    FirstHitAt(0, |s|, g, |w|);
  }

  /** The shorthand rule comes first: a shorthand after a quiet lead is the
      amount under both readers, even when the lead names a currency and a
      number. */
  lemma ShorthandWins(w: string, n: string, f: string, k: char, rest: string)
    requires QuietLead(w) && |n| >= 1 && AllDigits(n) && AllDigits(f) && IsK(k)
    requires rest == [] || !IsWordChar(rest[0])
    ensures var s := w + ShorthandText(n, f) + [k] + rest;
      var v := Some(Finite(Thousand(ShorthandDecimal(n, f))));
      FlexibleAmount(s) == v && FlexibleAmountAsWritten(s) == v
  {
    ShorthandAfterLead(w, n, f, k, rest);
  }

  /** "10.5K" is 10 500. */
  lemma FractionalShorthand()
    ensures FlexibleAmount("10.5K") == Some(Finite(Decimal(105000, 1)))
    ensures FlexibleAmountAsWritten("10.5K") == Some(Finite(Decimal(105000, 1)))
  {
    var n, f := "10", "5";
    assert "10.5K" == "" + ShorthandText(n, f) + ['K'] + "";
    assert DigitsValue(n) == 10 by {
      assert n[..1] == "1";
    }
    assert DigitsValue(f) == 5 by {
      assert f[..0] == "";
    }
    assert ShorthandDecimal(n, f) == Decimal(105, 1);
    ShorthandWins("", n, f, 'K', "");
  }

  /** A code at 0 whose number runs from 4 to `e` gives the prefix amount. */
  lemma PrefixFirst(s: string, e: nat, v: JsNumber)
    requires 4 < e <= |s| && CurrencyAt(s, 0) && PrefixNumberStart(s, 0) == 4 && IsDigit(s[4])
    requires NumeralEnd(s, 4) == e && AmountOf(s[4..e]) == v
    ensures Prefix(s) == Some(v)
  {
    var g: nat -> Option<JsNumber> := (p: nat) => PrefixAt(s, p);
    assert g(0) == Some(v);
    FirstHitAt(0, |s|, g, 0);
  }

  /** After a currency code, a plain numeral followed by a character that
      cannot continue it is what the prefix rule reads. */
  lemma PrefixBeforeRest(c: string, n: string, rest: string)
    requires IsPrefixCode(c) && |n| >= 1 && AllDigits(n)
    requires rest == [] || !IsNumeralChar(rest[0])
    ensures Prefix(c + " " + n + rest) == Some(Finite(Decimal(DigitsValue(n), 0)))
  {
    var s := c + " " + n + rest;
    PrefixLayout(c, n, rest);
    assert CurrencyAt(s, 0) by {
      PrefixCodeAt(s, c);
    }
    assert PrefixNumberStart(s, 0) == 4 by {
      RunEndUnique(s, 3, 4, IsSpace);
    }
    assert NumeralEnd(s, 4) == 4 + |n| by {
      NumeralEndOfInteger(s, 4, n);
    }
    assert AmountOf(s[4..4 + |n|]) == Finite(Decimal(DigitsValue(n), 0)) by {
      AmountOfDigits(n);
    }
    PrefixFirst(s, 4 + |n|, Finite(Decimal(DigitsValue(n), 0)));
  }

  /** The layout of `c + " " + n + rest` for a code `c` and a numeral `n`. */
  lemma PrefixLayout(c: string, n: string, rest: string)
    requires IsPrefixCode(c) && |n| >= 1 && AllDigits(n)
    requires rest == [] || !IsNumeralChar(rest[0])
    ensures var s := c + " " + n + rest;
      |s| == 4 + |n| + |rest| && s[0..3] == c && s[3] == ' ' && s[4..4 + |n|] == n && IsDigit(s[4])
      && (4 + |n| < |s| ==> !IsNumeralChar(s[4 + |n|]))
  {
    var s := c + " " + n + rest;
    assert |c| == 3;
    assert s[4] == n[0] && n[0] in n;
    assert 4 + |n| < |s| ==> s[4 + |n|] == rest[0];
  }

  /** In "Ksh 500 for 2k" the prefix rule alone would read 500, but the
      shorthand rule comes first and the amount is 2 000. */
  lemma ShorthandBeforePrefix()
    ensures Prefix("Ksh 500 for 2k") == Some(Finite(Decimal(500, 0)))
    ensures FlexibleAmount("Ksh 500 for 2k") == Some(Finite(Decimal(2000, 0)))
    ensures FlexibleAmountAsWritten("Ksh 500 for 2k") == Some(Finite(Decimal(2000, 0)))
  {
    FiveHundredByPrefix();
    TwoThousandByShorthand();
  }

  lemma FiveHundredByPrefix()
    ensures Prefix("Ksh 500 for 2k") == Some(Finite(Decimal(500, 0)))
  {
    var n := "500";
    assert DigitsValue(n) == 500 by {
      assert DigitsOf(5) == "5" && DigitsOf(50) == "50" && DigitsOf(500) == n;
      DigitsOfValue(500);
    }
    assert "Ksh 500 for 2k" == "Ksh" + " " + n + " for 2k";
    PrefixBeforeRest("Ksh", n, " for 2k");
  }

  lemma TwoThousandByShorthand()
    ensures FlexibleAmount("Ksh 500 for 2k") == Some(Finite(Decimal(2000, 0)))
    ensures FlexibleAmountAsWritten("Ksh 500 for 2k") == Some(Finite(Decimal(2000, 0)))
  {
    var w := "Ksh 500 for ";
    assert QuietLead(w) by {
      forall j | 0 < j < |w| ensures !IsK(w[j]) {}
    }
    assert "Ksh 500 for 2k" == w + ShorthandText("2", "") + ['k'] + "";
    assert ShorthandDecimal("2", "") == Decimal(2, 0);
    ShorthandWins(w, "2", "", 'k', "");
  }

  /** "AB20K9" holds no amount: the digits stand inside a word, so the
      shorthand rule does not see "20K", and no currency is named. */
  lemma NoShorthandInsideWord()
    ensures FlexibleAmount("AB20K9") == None && FlexibleAmountAsWritten("AB20K9") == None
  {
    var s := "AB20K9";
    forall d: nat | d <= |s| ensures ShorthandAt(s, d).None? {
      if d == 2 || d == 3 || d == 5 {
        assert IsWordChar(s[d - 1]);
      }
    }
    forall p: nat | p <= |s| ensures PrefixAt(s, p).None? && PrefixAsWrittenAt(s, p).None? {
      if p + 3 <= |s| {
        NoCurrencyAt(s, p);
      }
    }
    forall p: nat | p <= |s| ensures SuffixAt'(s, p).None? && SuffixAsWrittenAt(s, p).None? {
      if p < |s| && IsDigit(s[p]) {
        NoSuffixIn(s, p);
      }
    }
  }

  lemma NoCurrencyAt(s: string, p: nat)
    requires s == "AB20K9" && p + 3 <= |s|
    ensures !CurrencyAt(s, p)
  {
    if p == 0 || p == 1 {
      NoCurrencyAtNonLetter(s, p + 2);
      assert !IsLetter(s[p + 2]);
      forall lit: string | |lit| == 3 ensures !AtCI(s, p, lit) || Lower(s[p + 2]) == Lower(lit[2]) {}
    } else {
      assert !IsLetter(s[p]);
      NoCurrencyAtNonLetter(s, p);
    }
  }

  lemma NoSuffixIn(s: string, p: nat)
    requires s == "AB20K9" && p < |s| && IsDigit(s[p])
    ensures SuffixAt'(s, p).None? && SuffixAsWrittenAt(s, p).None?
  {
    if p == 5 {
      assert NumeralEnd(s, 5) == 6 && GroupedEnd(s, 5) == 6;
    } else {
      RunEndUnique(s, p, 4, IsDigitOrComma);
      RunEndUnique(s, p, 4, IsDigit);
      assert NumeralEnd(s, p) == 4 && GroupedEnd(s, p) == 4;
      RunEndUnique(s, 4, 4, IsSpace);
      assert !SuffixAt(s, 4);
    }
  }

  // ---------------------------------------------------------------------
  // Thousands commas
  // ---------------------------------------------------------------------

  /** Dropping the comma of `a,b` leaves `ab`. */
  lemma StripGroupComma(a: string, b: string)
    requires AllDigits(a) && AllDigits(b)
    ensures StripCommas(a + "," + b) == a + b
  {
    var keep := (c: char) => c != ',';
    assert Keep(a + ",", keep) == a by {
      KeepAppend(a, ",", keep);
      KeepAll(a, keep);
      assert ","[1..] == [];
    }
    assert Keep(b, keep) == b by {
      KeepAll(b, keep);
    }
    KeepAppend(a + ",", b, keep);
  }

  /** The commas of a grouped numeral are dropped before it is read. */
  lemma CommaTextReads(a: string, b: string)
    requires |a| >= 1 && AllDigits(a) && AllDigits(b)
    ensures AllDigits(a + b)
    ensures AmountOf(a + "," + b) == Finite(Decimal(DigitsValue(a + b), 0))
  {
    StripGroupComma(a, b);
    DigitsValueConcat(a, b);
    assert (a + b)[0] == a[0];
    ParseFloatOfDigits(a + b);
  }

  /** `a,b` is a number text. */
  lemma CommaTextLike(a: string, b: string)
    requires |a| >= 1 && AllDigits(a) && AllDigits(b)
    ensures IsNumberLike(a + "," + b)
    ensures forall c :: c in a + "," + b ==> IsDigitOrComma(c)
  {
    var t := a + "," + b;
    assert t[0] == a[0] && a[0] in a;
    forall c | c in t ensures IsDigitOrComma(c) {
      var k :| 0 <= k < |t| && t[k] == c;
      if k < |a| {
        assert t[k] == a[k] && a[k] in a;
      } else if k > |a| {
        assert t[k] == b[k - |a| - 1] && b[k - |a| - 1] in b;
      }
    }
  }

  /** `[0-9]{1,3}(?:,[0-9]{3})*` reads one to three digits and one comma
      group whole, and so does `[0-9,]+`. */
  lemma CommaGroupEnd(s: string, a: string, b: string)
    requires 1 <= |a| <= 3 && AllDigits(a) && |b| == 3 && AllDigits(b)
    requires |s| == 4 + |a| + 4 && s[4..] == a + "," + b
    ensures GroupedEnd(s, 4) == |s| && NumeralEnd(s, 4) == |s|
  {
    var t := a + "," + b;
    var j := 4 + |a|;
    assert s[4..j] == a && s[j] == ',' by {
      assert s[4..j] == t[..|a|] && s[j] == t[|a|];
    }
    RunOver(s, 4, a, IsDigit);
    assert LeadEnd(s, 4) == j;
    assert s[j + 1] == b[0] && s[j + 2] == b[1] && s[j + 3] == b[2] by {
      assert s[j + 1] == t[|a| + 1];
    }
    assert b[0] in b && b[1] in b && b[2] in b;
    assert CommaGroupsEnd(s, j) == |s|;
    CommaTextLike(a, b);
    assert s[4..4 + |t|] == t;
    RunOver(s, 4, t, IsDigitOrComma);
  }

  /** After a currency code, a numeral with a thousands comma is read whole
      and without the comma, by both readers: "Ksh 12,500" is 12 500. */
  lemma CommaGroupRead(c: string, a: string, b: string)
    requires IsPrefixCode(c) && 1 <= |a| <= 3 && AllDigits(a) && |b| == 3 && AllDigits(b)
    ensures AllDigits(a + b)
    ensures var v := Some(Finite(Decimal(DigitsValue(a + b), 0)));
      FlexibleAmount(c + " " + a + "," + b) == v && FlexibleAmountAsWritten(c + " " + a + "," + b) == v
  {
    CommaTextReads(a, b);
    CommaGroupCorrected(c, a, b);
    CommaGroupAsWritten(c, a, b);
  }

  /** The layout facts both readers need for `c + " " + a + "," + b`. */
  lemma CommaGroupFacts(c: string, a: string, b: string)
    requires IsPrefixCode(c) && 1 <= |a| <= 3 && AllDigits(a) && |b| == 3 && AllDigits(b)
    ensures var s := c + " " + a + "," + b; var t := a + "," + b;
      |s| >= 5 && s[4..] == t && IsDigit(s[4])
      && Shorthand(s) == None && CurrencyAt(s, 0) && PrefixNumberStart(s, 0) == 4
      && GroupedEnd(s, 4) == |s| && NumeralEnd(s, 4) == |s|
  {
    var t := a + "," + b;
    var s := c + " " + t;
    assert s == c + " " + a + "," + b;
    assert |c| == 3;
    CommaTextLike(a, b);
    PrefixTextFacts(c, t);
    CodeSpaceText(c, t);
    assert s[4] == t[0] == a[0] && a[0] in a;
    CommaGroupEnd(s, a, b);
  }

  lemma CommaGroupCorrected(c: string, a: string, b: string)
    requires IsPrefixCode(c) && 1 <= |a| <= 3 && AllDigits(a) && |b| == 3 && AllDigits(b)
    ensures AmountOf(a + "," + b).Finite?
    ensures FlexibleAmount(c + " " + a + "," + b) == Some(AmountOf(a + "," + b))
  {
    var s := c + " " + a + "," + b;
    CommaGroupFacts(c, a, b);
    assert a[0] in a;
    PrefixAtStart(s, a + "," + b, AmountOf(a + "," + b));
  }

  lemma CommaGroupAsWritten(c: string, a: string, b: string)
    requires IsPrefixCode(c) && 1 <= |a| <= 3 && AllDigits(a) && |b| == 3 && AllDigits(b)
    ensures FlexibleAmountAsWritten(c + " " + a + "," + b) == Some(AmountOf(a + "," + b))
  {
    var s := c + " " + a + "," + b;
    CommaGroupFacts(c, a, b);
    assert s[4..|s|] == a + "," + b;
    var g: nat -> Option<JsNumber> := (p: nat) => PrefixAsWrittenAt(s, p);
    assert g(0) == Some(AmountOf(a + "," + b));
    FirstHitAt(0, |s|, g, 0);
  }

  predicate IsTelegramCode(c: string) {
    c == "Ksh" || c == "KES" || c == "USD" || c == "EUR" || c == "GBP" || c == "ksh"
  }

  lemma TelegramCodeAt(s: string, c: string)
    requires IsTelegramCode(c) && |s| >= 3 && s[0..3] == c
    ensures TelegramCurrencyAt(s, 0)
  {
  }

  /** A Telegram code at 0 whose number runs from 4 to the end is the amount found. */
  lemma TelegramAtStart(s: string, t: string, v: JsNumber)
    requires |s| >= 5 && TelegramCurrencyAt(s, 0) && SkipSpaces(s, 3) == 4
    requires IsDigitOrComma(s[4]) && NumeralEnd(s, 4) == |s| && s[4..] == t && AmountOf(t) == v
    ensures TelegramAmount(s) == Some(v)
  {
    assert s[4..|s|] == t;
    var f: nat -> Option<JsNumber> := (p: nat) => TelegramAmountAt(s, p);
    assert f(0) == Some(v);
    FirstHitAt(0, |s|, f, 0);
  }

  /** Printed after a Telegram currency code, an amount is read back exactly. */
  lemma TelegramRoundTrip(c: string, d: Decimal)
    requires IsTelegramCode(c)
    ensures TelegramAmount(c + " " + NumberText(d)) == Some(Finite(Canonical(d)))
  {
    var t := NumberText(d);
    var s := c + " " + t;
    assert |c| == 3;
    NumberTextChars(d);
    CodeSpaceText(c, t);
    assert TelegramCurrencyAt(s, 0) by {
      TelegramCodeAt(s, c);
    }
    assert SkipSpaces(s, 3) == 4 by {
      assert s[4] == t[0];
      RunEndUnique(s, 3, 4, IsSpace);
    }
    assert NumeralEnd(s, 4) == |s| by {
      assert s[4..4 + |t|] == t;
      NumeralEndOfText(s, 4, d);
    }
    assert AmountOf(t) == Finite(Canonical(d)) by {
      AmountOfText(d);
    }
    TelegramAtStart(s, t, Finite(Canonical(d)));
  }
}
