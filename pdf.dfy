/** `extractPdfTransactions` (app/api/extract/route.ts): the file's bytes are
    filtered down to printable ASCII and line breaks, the text is cut at every
    `\n` and `\r`, and each trimmed line that holds a date and an amount token
    becomes one bank-statement record.
 */
module Pdf {
  import opened Scan
  import opened Text
  import opened Numbers
  import opened Amounts
  import opened Codes
  import opened Segmenter
  import opened Records

  newtype byte = b: int | 0 <= b < 256

  /** The bytes the filter keeps: 32 to 126, line feed and carriage return. */
  predicate Kept(b: byte) {
    (32 <= b <= 126) || b == 10 || b == 13
  }

  /** The text the filter builds from the first `n` bytes, one character per
      kept byte. */
  function Filtered(bytes: seq<byte>, n: nat): string
    requires n <= |bytes|
  {
    if n == 0 then ""
    else Filtered(bytes, n - 1) + (if Kept(bytes[n - 1]) then [bytes[n - 1] as int as char] else "")
  }

  /** The filtered text holds only printable ASCII and line breaks, no more
      characters than there were bytes, and every kept byte in order. */
  lemma {:induction false} FilteredChars(bytes: seq<byte>, n: nat)
    requires n <= |bytes|
    ensures |Filtered(bytes, n)| <= n
    ensures forall c :: c in Filtered(bytes, n) ==> (' ' <= c <= '~') || c == '\n' || c == '\r'
    ensures (forall k :: 0 <= k < n ==> Kept(bytes[k])) ==>
      |Filtered(bytes, n)| == n && forall k :: 0 <= k < n ==> Filtered(bytes, n)[k] == bytes[k] as int as char
  {
    if n > 0 {
      FilteredChars(bytes, n - 1);
    }
  }

  /** The byte loop: `text += String.fromCharCode(byte)` for each kept byte. */
  method FilterBytes(bytes: seq<byte>) returns (text: string)
    ensures text == Filtered(bytes, |bytes|)
  {
    text := "";
    var i := 0;
    while i < |bytes|
      invariant i <= |bytes|
      invariant text == Filtered(bytes, i)
    {
      if Kept(bytes[i]) {
        text := text + [bytes[i] as int as char];
      }
      i := i + 1;
    }
  }

  predicate IsBreak(c: char) { c == '\n' || c == '\r' }

  /** `\b` just after a digit at `e - 1`. */
  predicate WordEnds(s: string, e: nat) {
    e == |s| || (e < |s| && !IsWordChar(s[e]))
  }

  predicate DigitsAt(s: string, i: nat, n: nat) {
    i + n <= |s| && forall k :: i <= k < i + n ==> IsDigit(s[k])
  }

  /** The date pattern `\b(\d{1,2}\/\d{1,2}\/\d{4}|\d{1,2}-\d{1,2}-\d{4})\b`
      tried at `p`. Each `\d{1,2}` that a separator follows reads greedily
      (giving a digit back leaves a digit where the separator must be), so
      each alternative has at most one way to match. */
  function StatementDateAt(s: string, p: nat): (r: Option<nat>)
    ensures r.Some? ==> p < r.value <= |s|
  {
    if p < |s| && (p == 0 || !IsWordChar(s[p - 1])) then
      var slashed :=
        match ShortNumber(s, p, '/')
        case Some(a) =>
          (match ShortNumber(s, a, '/')
           case Some(b) => if DigitsAt(s, b, 4) && WordEnds(s, b + 4) then Some(b + 4) else None
           case None => None)
        case None => None;
      if slashed.Some? then slashed
      else
        match ShortNumber(s, p, '-')
        case Some(a) =>
          (match ShortNumber(s, a, '-')
           case Some(b) => if DigitsAt(s, b, 4) && WordEnds(s, b + 4) then Some(b + 4) else None
           case None => None)
        case None => None
    else None
  }

  /** `dateMatch[1]`, which is also `dateMatch[0]`: the leftmost date. */
  function StatementDate(s: string): (r: Option<string>)
    ensures r.Some? ==> r.value != []
  {
    var f: nat -> Option<nat> := (p: nat) => StatementDateAt(s, p);
    var h := FirstHit(0, |s|, f);
    if h.Some? then Some(s[h.value.pos..h.value.value]) else None
  }

  predicate Numeral(s: string, i: nat, e: nat) {
    i <= e <= |s| && forall k :: i <= k < e ==> IsNumeralChar(s[k])
  }

  /** The tail `(?:\.[0-9]{2})?\b` of the amount pattern at `j`, with the
      optional fraction tried first. */
  function FractionTail(s: string, j: nat): (r: Option<nat>)
    requires j <= |s|
    ensures r.Some? ==> Numeral(s, j, r.value)
  {
    if j < |s| && s[j] == '.' && DigitsAt(s, j + 1, 2) && WordEnds(s, j + 3) then Some(j + 3)
    else if WordEnds(s, j) then Some(j)
    else None
  }

  /** `(?:,?[0-9]{3})*` followed by the tail, from `j`, in the engine's
      order: one more group (with its comma first, then without) before
      none, each tried through to the end before the next. */
  function Groups(s: string, j: nat): (r: Option<nat>)
    requires j <= |s|
    ensures r.Some? ==> Numeral(s, j, r.value)
    decreases |s| - j
  {
    var withComma := if j < |s| && s[j] == ',' && DigitsAt(s, j + 1, 3) then Groups(s, j + 4) else None;
    if withComma.Some? then withComma
    else
      var plain := if DigitsAt(s, j, 3) then Groups(s, j + 3) else None;
      if plain.Some? then plain else FractionTail(s, j)
  }

  /** The amount pattern `\b([0-9]{1,3}(?:,?[0-9]{3})*(?:\.[0-9]{2})?)\b`
      at `p`: the leading group takes three digits, then two, then one. */
  function AmountTokenAt(s: string, p: nat): (r: Option<nat>)
    ensures r.Some? ==> p < r.value <= |s| && IsDigit(s[p]) && Numeral(s, p, r.value)
  {
    if p < |s| && IsDigit(s[p]) && (p == 0 || !IsWordChar(s[p - 1])) then
      var three := if DigitsAt(s, p, 3) then Groups(s, p + 3) else None;
      if three.Some? then three
      else
        var two := if DigitsAt(s, p, 2) then Groups(s, p + 2) else None;
        if two.Some? then two else Groups(s, p + 1)
    else None
  }

  /** `line.match(new RegExp(amountRegex, "g"))` from `from`: every match,
      left to right, each search resuming where the last match ended. */
  function AmountTokens(s: string, from: nat): (r: seq<string>)
    requires from <= |s|
    ensures forall t :: t in r ==> |t| > 0 && IsDigit(t[0]) && forall c :: c in t ==> IsNumeralChar(c)
    decreases |s| - from
  {
    var f: nat -> Option<nat> := (p: nat) => AmountTokenAt(s, p);
    var h := FirstHit(from, |s|, f);
    if h.None? then []
    else
      var p, e := h.value.pos, h.value.value;
      assert AmountTokenAt(s, p) == Some(e);
      [s[p..e]] + AmountTokens(s, e)
  }

  const StatementKind: string := "Bank Statement"
  const StatementPayer: string := "Bank"
  const StatementReference: string := "PDF"
  const StatementPurpose: string := "Bank Transaction"

  /** The line with its date and its amount token cut out, trimmed. */
  function Description(line: string, date: string, token: string): string {
    Trim(ReplaceFirst(ReplaceFirst(line, date, ""), token, ""))
  }

  /** The record a dated line makes from its last amount token, if that
      amount is above zero. The purpose is what is left of the line, or
      "Bank Transaction" when nothing is; the reference is the line's code,
      or "PDF" when it has none. */
  function TokenRecord(line: string, date: string, token: string): (r: Option<Txn>)
    ensures r.Some? <==> Truthy(AmountOf(token))
    ensures r.Some? ==> r.value.date == date && r.value.amount == AmountOf(token)
    ensures r.Some? ==> r.value.kind == StatementKind && r.value.paidBy == StatementPayer && r.value.paidTo == ""
    ensures r.Some? ==> r.value.purpose != "" && r.value.status.None?
    ensures r.Some? && Description(line, date, token) != "" ==> r.value.purpose == Description(line, date, token)
    ensures r.Some? && Description(line, date, token) == "" ==> r.value.purpose == StatementPurpose
    ensures r.Some? && ExtractCode(line).Some? ==> r.value.reference == ExtractCode(line).value
    ensures r.Some? && ExtractCode(line).None? ==> r.value.reference == StatementReference
  {
    var amount := AmountOf(token);
    if Truthy(amount) then
      var description := Description(line, date, token);
      Some(Txn(date, amount, StatementKind, ExtractCode(line).GetOr(StatementReference), StatementPayer, "",
               if description != "" then description else StatementPurpose, None))
    else None
  }

  /** The record of a trimmed line: a date, then the last amount token. */
  function LineRecord(line: string): (r: Option<Txn>)
  {
    RecordFrom(line, StatementDate(line), AmountTokens(line, 0))
  }

  /** The record of a line with date `d` and amount tokens `tokens`. */
  function RecordFrom(line: string, d: Option<string>, tokens: seq<string>): (r: Option<Txn>)
  {
    match d
    case None => None
    case Some(date) =>
      if tokens == [] then None else TokenRecord(line, date, tokens[|tokens| - 1])
  }

  /** The record of one line of the filtered text. */
  function StatementRecord(raw: string): Option<Txn> {
    var line := Trim(raw);
    if line == "" then None else LineRecord(line)
  }

  /** A trimmed line yields a record exactly when it holds a date and an
      amount token and its last amount token is above zero; the record
      carries the line's first date and that amount. */
  lemma LineRecordSpec(line: string)
    ensures var tokens := AmountTokens(line, 0);
      var r := LineRecord(line);
      (r.Some? <==> StatementDate(line).Some? && tokens != [] && Truthy(AmountOf(tokens[|tokens| - 1])))
      && (r.Some? ==> r.value.date == StatementDate(line).value && r.value.amount == AmountOf(tokens[|tokens| - 1]))
  {
    RecordFromSpec(line, StatementDate(line), AmountTokens(line, 0));
  }

  lemma RecordFromSpec(line: string, d: Option<string>, tokens: seq<string>)
    ensures var r := RecordFrom(line, d, tokens);
      (r.Some? <==> d.Some? && tokens != [] && Truthy(AmountOf(tokens[|tokens| - 1])))
      && (r.Some? ==> r.value.date == d.value && r.value.amount == AmountOf(tokens[|tokens| - 1]))
  {
  }

  /** The records the rule `recordOf` makes from the first `n` lines, in
      order. */
  function Collect(recordOf: string -> Option<Txn>, lines: seq<string>, n: nat): seq<Txn>
    requires n <= |lines|
  {
    if n == 0 then []
    else
      var r := recordOf(lines[n - 1]);
      Collect(recordOf, lines, n - 1) + (if r.Some? then [r.value] else [])
  }

  /** At most one record per line, and what every line's record satisfies,
      every collected record satisfies. */
  lemma {:induction false} CollectHolds(recordOf: string -> Option<Txn>, good: Txn -> bool, lines: seq<string>, n: nat)
    requires n <= |lines|
    requires forall l :: recordOf(l).Some? ==> good(recordOf(l).value)
    ensures |Collect(recordOf, lines, n)| <= n
    ensures forall r :: r in Collect(recordOf, lines, n) ==> good(r)
  {
    if n > 0 {
      CollectHolds(recordOf, good, lines, n - 1);
    }
  }

  lemma CollectStep(recordOf: string -> Option<Txn>, lines: seq<string>, i: nat, r: Option<Txn>)
    requires i < |lines| && r == recordOf(lines[i])
    ensures Collect(recordOf, lines, i + 1) == Collect(recordOf, lines, i) + (if r.Some? then [r.value] else [])
  {
  }

  function PdfRecords(bytes: seq<byte>): seq<Txn> {
    var lines := SplitWhere(Filtered(bytes, |bytes|), IsBreak);
    Collect(StatementRecord, lines, |lines|)
  }

  /** A bank-statement record: paid by "Bank", an amount above zero, a
      purpose, and the reference "PDF" or a standalone code. */
  predicate StatementShaped(r: Txn) {
    r.kind == StatementKind && r.paidBy == StatementPayer && r.paidTo == "" && r.purpose != ""
    && r.amount.Finite? && Value(r.amount.d) > 0.0
    && (r.reference == StatementReference || (8 <= |r.reference| <= 12 && forall c :: c in r.reference ==> IsCodeChar(c)))
  }

  lemma TokenRecordShaped(line: string, date: string, token: string)
    ensures TokenRecord(line, date, token).Some? ==> StatementShaped(TokenRecord(line, date, token).value)
  {
    TruthyIsPositive(AmountOf(token));
  }

  lemma LineRecordShaped(line: string)
    ensures LineRecord(line).Some? ==> StatementShaped(LineRecord(line).value)
  {
    RecordFromShaped(line, StatementDate(line), AmountTokens(line, 0));
  }

  lemma RecordFromShaped(line: string, d: Option<string>, tokens: seq<string>)
    ensures RecordFrom(line, d, tokens).Some? ==> StatementShaped(RecordFrom(line, d, tokens).value)
  {
    if d.Some? && tokens != [] {
      TokenRecordShaped(line, d.value, tokens[|tokens| - 1]);
    }
  }

  lemma StatementRecordShaped(raw: string)
    ensures StatementRecord(raw).Some? ==> StatementShaped(StatementRecord(raw).value)
  {
    LineRecordShaped(Trim(raw));
  }

  /** At most one record per line of the filtered text, each a
      bank-statement record. */
  lemma PdfRecordsShape(bytes: seq<byte>)
    ensures var lines := SplitWhere(Filtered(bytes, |bytes|), IsBreak);
      |PdfRecords(bytes)| <= |lines| && forall r :: r in PdfRecords(bytes) ==> StatementShaped(r)
  {
    var lines := SplitWhere(Filtered(bytes, |bytes|), IsBreak);
    forall l | StatementRecord(l).Some? ensures StatementShaped(StatementRecord(l).value) {
      StatementRecordShaped(l);
    }
    CollectHolds(StatementRecord, StatementShaped, lines, |lines|);
  }

  /** The body of the line loop. */
  method StatementRecordOf(raw: string) returns (r: Option<Txn>)
    ensures r == StatementRecord(raw)
  {
    var line := Trim(raw);
    if line == "" {
      return None;
    }
    r := LineRecord(line);
  }

  /** The loop body on line `i`, as one more step of the fold. */
  method StatementStep(lines: seq<string>, i: nat, records: seq<Txn>) returns (more: seq<Txn>)
    requires i < |lines| && records == Collect(StatementRecord, lines, i)
    ensures more == Collect(StatementRecord, lines, i + 1)
  {
    var r := StatementRecordOf(lines[i]);
    CollectStep(StatementRecord, lines, i, r);
    more := records + (if r.Some? then [r.value] else []);
  }

  /** The line loop. */
  method StatementLines(lines: seq<string>) returns (records: seq<Txn>)
    ensures records == Collect(StatementRecord, lines, |lines|)
  {
    records := [];
    var i := 0;
    while i < |lines|
      invariant i <= |lines|
      invariant records == Collect(StatementRecord, lines, i)
    {
      records := StatementStep(lines, i, records);
      i := i + 1;
    }
    assert i == |lines|;
  }

  /** `extractPdfTransactions`; the file name it receives is never used. */
  method ExtractPdfTransactions(bytes: seq<byte>) returns (records: seq<Txn>)
    ensures records == PdfRecords(bytes)
  {
    var text := FilterBytes(bytes);
    records := StatementLines(SplitWhere(text, IsBreak));
  }
}
