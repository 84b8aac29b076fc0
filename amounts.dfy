/** Amount extraction (app/api/extract/route.ts): the WhatsApp extractor
    `extractFlexibleAmount` with its three rules tried in a fixed order, and the
    simpler Telegram extractor `extractAmount`.

    Each regular expression is modelled as a scanner that returns what the
    JavaScript engine returns: the match that starts leftmost (`FirstValue`
    over start positions) and, at that start, the first way of matching in
    backtracking order. The comment of each candidate function says why the
    backtracking collapses to the greedy reading it computes.
 */
module Amounts {
  import opened Scan
  import opened Text
  import opened Numbers

  predicate IsK(c: char) { c == 'k' || c == 'K' }
  predicate IsDigitOrComma(c: char) { IsDigit(c) || c == ',' }

  /** `parseFloat(t.replace(/,/g, ""))`. */
  function AmountOf(t: string): (n: JsNumber)
    ensures |t| > 0 && IsDigit(t[0]) ==> n.Finite?
  {
    var u := StripCommas(t);
    assert |t| > 0 && IsDigit(t[0]) ==> |u| > 0 && u[0] == t[0];
    ParseFloat(u)
  }

  /** `parseFloat(x) * 1000`. */
  function TimesThousand(n: JsNumber): (r: JsNumber)
    ensures r.Finite? <==> n.Finite?
    ensures r.Finite? ==> Value(r.d) == 1000.0 * Value(n.d)
  {
    match n
    case NaN => NaN
    case Finite(d) => Finite(Thousand(d))
  }

  /** Where an optional greedy `(?:\.[0-9]+)` that starts at `j` stops. */
  function FractionEnd(s: string, j: nat): (e: nat)
    requires j <= |s|
    ensures j <= e <= |s|
    ensures e > j ==> e > j + 1 && s[j] == '.' && forall k :: j < k < e ==> IsDigit(s[k])
    ensures e < |s| && e > j ==> !IsDigit(s[e])
  {
    if j + 1 < |s| && s[j] == '.' && IsDigit(s[j + 1]) then RunEnd(s, j + 1, IsDigit) else j
  }

  /** Where `[0-9,]+(?:\.[0-9]+)?` read greedily from `i` stops. Nothing after
      this group in any pattern that uses it can make the engine give a
      character back, so the greedy reading is the match. */
  function NumeralEnd(s: string, i: nat): (e: nat)
    requires i <= |s|
    ensures i <= e <= |s|
  {
    FractionEnd(s, RunEnd(s, i, IsDigitOrComma))
  }

  // ---------------------------------------------------------------------
  // Rule 1: "k" shorthand, (?:\b|\s|^)(\d+(?:\.\d+)?)[kK](?:\b|\s|$)
  // ---------------------------------------------------------------------

  /** The shorthand whose digits start at `d`. The leading alternatives all
      say that `d` starts a word (a `\s` before it is a non-word character),
      and a shorter `\d+` or fraction leaves a digit where `[kK]` must be,
      so only the greedy numeral can be followed by the `k`. */
  function ShorthandAt(s: string, d: nat): (r: Option<JsNumber>)
    ensures r.Some? ==> r.value.Finite?
  {
    if d < |s| && IsDigit(s[d]) && (d == 0 || !IsWordChar(s[d - 1])) then
      var n := FractionEnd(s, RunEnd(s, d, IsDigit));
      if n < |s| && IsK(s[n]) && (n + 1 == |s| || !IsWordChar(s[n + 1])) then
        Some(TimesThousand(ParseFloat(s[d..n])))
      else None
    else None
  }

  function Shorthand(s: string): (r: Option<JsNumber>)
    ensures r.Some? ==> r.value.Finite?
  {
    FirstValue(0, |s|, d => ShorthandAt(s, d))
  }

  // ---------------------------------------------------------------------
  // Rule 2: currency prefix, (?:Ksh|KES|USD|GBP|EUR|UGX|TZS)\.?\s*(NUM)/i
  // ---------------------------------------------------------------------

  /** One of the prefix currency codes starts at `p`, in any case. */
  predicate CurrencyAt(s: string, p: nat) {
    AtCI(s, p, "ksh") || AtCI(s, p, "kes") || AtCI(s, p, "usd") || AtCI(s, p, "gbp")
    || AtCI(s, p, "eur") || AtCI(s, p, "ugx") || AtCI(s, p, "tzs")
  }

  /** Where the number after a currency code at `p` starts: after an optional
      dot and the spaces. Giving back the dot or a space leaves a non-digit
      where the number must start, so this is the only candidate. */
  function PrefixNumberStart(s: string, p: nat): (r: nat)
    requires p + 3 <= |s|
    ensures p + 3 <= r <= |s|
  {
    var q := if p + 3 < |s| && s[p + 3] == '.' then p + 4 else p + 3;
    SkipSpaces(s, q)
  }

  /** `[0-9]{1,3}` read greedily from `i`. */
  function LeadEnd(s: string, i: nat): (e: nat)
    requires i <= |s|
    ensures i <= e <= |s| && e <= i + 3
  {
    var r := RunEnd(s, i, IsDigit);
    if r <= i + 3 then r else i + 3
  }

  /** `(?:,[0-9]{3})*` read greedily from `j`. */
  function CommaGroupsEnd(s: string, j: nat): (e: nat)
    requires j <= |s|
    ensures j <= e <= |s|
    decreases |s| - j
  {
    if j + 4 <= |s| && s[j] == ',' && IsDigit(s[j + 1]) && IsDigit(s[j + 2]) && IsDigit(s[j + 3])
    then CommaGroupsEnd(s, j + 4)
    else j
  }

  /** `[0-9]{1,3}(?:,[0-9]{3})*(?:\.[0-9]+)?` read greedily from `i`: the
      number the source's prefix and suffix rules capture. */
  function GroupedEnd(s: string, i: nat): (e: nat)
    requires i <= |s|
    ensures i <= e <= |s|
  {
    FractionEnd(s, CommaGroupsEnd(s, LeadEnd(s, i)))
  }

  /** The prefix rule as the source writes it: the captured number is cut
      after three digits unless thousands commas follow. */
  function PrefixAsWrittenAt(s: string, p: nat): (r: Option<JsNumber>)
    ensures r.Some? ==> r.value.Finite?
  {
    if p + 3 <= |s| && CurrencyAt(s, p) then
      var r := PrefixNumberStart(s, p);
      if r < |s| && IsDigit(s[r]) then Some(AmountOf(s[r..GroupedEnd(s, r)])) else None
    else None
  }

  /** The prefix rule with the number read as `[0-9][0-9,]*(?:\.[0-9]+)?`. */
  function PrefixAt(s: string, p: nat): (r: Option<JsNumber>)
    ensures r.Some? ==> r.value.Finite?
  {
    if p + 3 <= |s| && CurrencyAt(s, p) then
      var r := PrefixNumberStart(s, p);
      if r < |s| && IsDigit(s[r]) then Some(AmountOf(s[r..NumeralEnd(s, r)])) else None
    else None
  }

  function PrefixAsWritten(s: string): (r: Option<JsNumber>)
    ensures r.Some? ==> r.value.Finite?
  {
    FirstValue(0, |s|, p => PrefixAsWrittenAt(s, p))
  }

  function Prefix(s: string): (r: Option<JsNumber>)
    ensures r.Some? ==> r.value.Finite?
  {
    FirstValue(0, |s|, p => PrefixAt(s, p))
  }

  // ---------------------------------------------------------------------
  // Rule 3: currency suffix, (NUM)\s*(?:Ksh|KES|\/-|KSH)/i
  // ---------------------------------------------------------------------

  /** A suffix currency starts at `i`: Ksh or KES in any case, or "/-". */
  predicate SuffixAt(s: string, i: nat) {
    AtCI(s, i, "ksh") || AtCI(s, i, "kes") || At(s, i, "/-")
  }

  /** The suffix rule as the source writes it, at start `p`. A number cut
      short by backtracking is followed by a digit, a comma or a dot, never by
      a space or the first character of a suffix, so only the greedy number
      can be followed by the suffix. The start is not anchored, so it may
      fall inside a longer number. */
  function SuffixAsWrittenAt(s: string, p: nat): (r: Option<JsNumber>)
    ensures r.Some? ==> r.value.Finite?
  {
    if p < |s| && IsDigit(s[p]) then
      var e := GroupedEnd(s, p);
      if SuffixAt(s, SkipSpaces(s, e)) then Some(AmountOf(s[p..e])) else None
    else None
  }

  /** A character that can continue a number. */
  predicate IsNumeralChar(c: char) { IsDigitOrComma(c) || c == '.' }

  /** The suffix rule with the number read whole: it starts where no number
      character precedes it and runs as `[0-9][0-9,]*(?:\.[0-9]+)?`. */
  function SuffixAt'(s: string, p: nat): (r: Option<JsNumber>)
    ensures r.Some? ==> r.value.Finite?
  {
    if p < |s| && IsDigit(s[p]) && (p == 0 || !IsNumeralChar(s[p - 1])) then
      var e := NumeralEnd(s, p);
      if SuffixAt(s, SkipSpaces(s, e)) then Some(AmountOf(s[p..e])) else None
    else None
  }

  function SuffixAsWritten(s: string): (r: Option<JsNumber>)
    ensures r.Some? ==> r.value.Finite?
  {
    FirstValue(0, |s|, p => SuffixAsWrittenAt(s, p))
  }

  function Suffix(s: string): (r: Option<JsNumber>)
    ensures r.Some? ==> r.value.Finite?
  {
    FirstValue(0, |s|, p => SuffixAt'(s, p))
  }

  // ---------------------------------------------------------------------
  // extractFlexibleAmount
  // ---------------------------------------------------------------------

  /** `extractFlexibleAmount` exactly as written: the first rule that
      finds anything decides, wherever the other rules would match. */
  function FlexibleAmountAsWritten(s: string): (r: Option<JsNumber>)
    ensures r.Some? ==> r.value.Finite?
    ensures Shorthand(s).Some? ==> r == Shorthand(s)
    ensures Shorthand(s).None? && PrefixAsWritten(s).Some? ==> r == PrefixAsWritten(s)
    ensures Shorthand(s).None? && PrefixAsWritten(s).None? ==> r == SuffixAsWritten(s)
  {
    match Shorthand(s)
    case Some(v) => Some(v)
    case None =>
      match PrefixAsWritten(s)
      case Some(v) => Some(v)
      case None => SuffixAsWritten(s)
  }

  /** `extractFlexibleAmount` with whole numbers read by the currency rules:
      the first rule that finds anything decides. */
  function FlexibleAmount(s: string): (r: Option<JsNumber>)
    ensures r.Some? ==> r.value.Finite?
    ensures Shorthand(s).Some? ==> r == Shorthand(s)
    ensures Shorthand(s).None? && Prefix(s).Some? ==> r == Prefix(s)
    ensures Shorthand(s).None? && Prefix(s).None? ==> r == Suffix(s)
  {
    match Shorthand(s)
    case Some(v) => Some(v)
    case None =>
      match Prefix(s)
      case Some(v) => Some(v)
      case None => Suffix(s)
  }

  // ---------------------------------------------------------------------
  // extractAmount (Telegram): (?:Ksh|KES|USD|EUR|GBP|ksh)[\s]*([0-9,]+(?:\.[0-9]+)?)
  // ---------------------------------------------------------------------

  /** One of the Telegram currency codes starts at `p`, in exactly this case. */
  predicate TelegramCurrencyAt(s: string, p: nat) {
    At(s, p, "Ksh") || At(s, p, "KES") || At(s, p, "USD") || At(s, p, "EUR")
    || At(s, p, "GBP") || At(s, p, "ksh")
  }

  function TelegramAmountAt(s: string, p: nat): (r: Option<JsNumber>)
  {
    if p + 3 <= |s| && TelegramCurrencyAt(s, p) then
      var r := SkipSpaces(s, p + 3);
      if r < |s| && IsDigitOrComma(s[r]) then Some(AmountOf(s[r..NumeralEnd(s, r)])) else None
    else None
  }

  /** `extractAmount`: null when no currency code is followed by a number;
      a number made only of commas reads as NaN. */
  function TelegramAmount(s: string): (r: Option<JsNumber>)
    ensures r.Some? <==> exists p :: 0 <= p <= |s| && TelegramAmountAt(s, p).Some?
  {
    var f: nat -> Option<JsNumber> := (p: nat) => TelegramAmountAt(s, p);
    assert forall p :: f(p) == TelegramAmountAt(s, p);
    FirstValue(0, |s|, f)
  }
}
