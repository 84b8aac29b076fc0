/** `extractEmailTransactions` (app/api/extract/route.ts): a line loop that
    tracks the last `Subject:`, `From:` and `Date:` headers and fills a
    pending record from labelled fields ("Amount: …", "Reference: …", …);
    once the pending record has an amount, a reference and a party it is
    emitted and emptied. When no record came out at all, the subject line
    alone may yield one.
 */
module Email {
  import opened Scan
  import opened Text
  import opened Numbers
  import opened Amounts
  import opened Codes
  import opened Classify
  import opened Records

  /** The five labelled fields, each found by its own case-insensitive
      pattern `(?:<labels>)[:=\s]+<value>`. */
  datatype Field = AmountField | ReferenceField | RecipientField | SenderField | StatusField

  function Labels(f: Field): seq<string> {
    match f
    case AmountField => ["amount", "transferred", "credited", "debited"]
    case ReferenceField => ["reference", "code", "transaction id", "confirmation"]
    case RecipientField => ["to", "recipient", "payee"]
    case SenderField => ["from", "sender", "account"]
    case StatusField => ["status"]
  }

  const Currencies: seq<string> := ["ksh", "kes", "usd", "eur", "gbp", "k"]
  const Statuses: seq<string> := ["success", "completed", "pending", "failed"]

  /** `[:=\s]` */
  predicate IsGap(c: char) { c == ':' || c == '=' || IsSpace(c) }

  predicate IsAmountChar(c: char) { IsDigitOrComma(c) }
  predicate IsNameChar(c: char) { IsLetter(c) || IsSpace(c) }
  predicate IsAccountChar(c: char) { IsLetter(c) || IsSpace(c) || IsDigit(c) }

  /** `[\s]*([0-9,]+(?:\.[0-9]+)?)` from `j`: the group. Giving back a
      space leaves a space where a digit or comma must be, so the greedy
      reading is the only one. */
  function NumberFrom(s: string, j: nat): (r: Option<string>)
    requires j <= |s|
  {
    var n := SkipSpaces(s, j);
    if n < |s| && IsAmountChar(s[n]) then Some(s[n..NumeralEnd(s, n)]) else None
  }

  /** `(?:Ksh|KES|USD|EUR|GBP|K)?` then the number, from `j`: each currency
      in turn, then none. */
  function AmountValue(s: string, j: nat, currencies: seq<string>): (r: Option<string>)
    requires j <= |s|
    decreases |currencies|
  {
    if currencies == [] then NumberFrom(s, j)
    else
      var c := currencies[0];
      var here := if AtCI(s, j, c) then NumberFrom(s, j + |c|) else None;
      if here.Some? then here else AmountValue(s, j, currencies[1..])
  }

  /** `(Success|Completed|Pending|Failed)` from `j`, as written in the line. */
  function StatusValue(s: string, j: nat, words: seq<string>): (r: Option<string>)
    requires j <= |s|
    ensures r.Some? ==> r.value != []
    decreases |words|
  {
    if words == [] then None
    else if words[0] != [] && AtCI(s, j, words[0]) then Some(s[j..j + |words[0]|])
    else StatusValue(s, j, words[1..])
  }

  /** A reference is 6 to 12 characters and a status is never empty. */
  predicate ValueOk(f: Field, v: string) {
    (f == ReferenceField ==> 6 <= |v| <= 12) && (f == StatusField ==> v != [])
  }

  /** The value pattern of a field at `j`: the captured group. */
  function Value(f: Field, s: string, j: nat): (r: Option<string>)
    requires j <= |s|
    ensures r.Some? ==> ValueOk(f, r.value)
  {
    match f
    case AmountField => AmountValue(s, j, Currencies)
    case ReferenceField =>
      // `([A-Z0-9]{6,12})` under the `i` flag: letters of either case.
      var e := RunEnd(s, j, IsAlnum);
      if e - j >= 6 then Some(s[j..if e - j > 12 then j + 12 else e]) else None
    case RecipientField =>
      var e := RunEnd(s, j, IsNameChar);
      if e > j then Some(s[j..e]) else None
    case SenderField =>
      var e := RunEnd(s, j, IsAccountChar);
      if e > j then Some(s[j..e]) else None
    case StatusField => StatusValue(s, j, Statuses)
  }

  /** `[:=\s]+` from `k` and then the value: the gap is read greedily and
      given back one character at a time until the value matches. The value
      may itself start with white space, which is why giving back matters:
      on "To: 42" the recipient is the single space before "42". */
  function AfterGap(f: Field, s: string, k: nat): (r: Option<string>)
    requires k <= |s|
    ensures r.Some? ==> ValueOk(f, r.value)
  {
    if k < |s| && IsGap(s[k]) then
      var g: nat -> Option<string> := (j: nat) => if j <= |s| then Value(f, s, j) else None;
      var h := FirstHitDown(RunEnd(s, k, IsGap), k + 1, g);
      if h.Some? then
        assert g(h.value.pos) == Some(h.value.value);
        Some(h.value.value)
      else None
    else None
  }

  /** The labels of a field tried in order at `p`. */
  function LabelledFrom(f: Field, s: string, p: nat, labels: seq<string>): (r: Option<string>)
    ensures r.Some? ==> ValueOk(f, r.value)
    decreases |labels|
  {
    if labels == [] then None
    else
      var here := if AtCI(s, p, labels[0]) then AfterGap(f, s, p + |labels[0]|) else None;
      if here.Some? then here else LabelledFrom(f, s, p, labels[1..])
  }

  /** `line.match(…)` for a field: the group of the leftmost match. */
  function FieldMatch(f: Field, s: string): (r: Option<string>)
    ensures r.Some? ==> ValueOk(f, r.value)
  {
    var g: nat -> Option<string> := (p: nat) => LabelledFrom(f, s, p, Labels(f));
    var h := FirstHit(0, |s|, g);
    if h.Some? then
      assert g(h.value.pos) == Some(h.value.value);
      Some(h.value.value)
    else None
  }

  /** The pending record; "" (or NaN) is an unset field. The source reads
      every field through its truthiness, so unset and falsy behave alike. */
  datatype Pending = Pending(amount: JsNumber, reference: string, paidTo: string, paidBy: string, status: string)

  const Empty := Pending(NaN, "", "", "", "")

  /** The last `Subject:`, `From:` and `Date:` values seen. */
  datatype Headers = Headers(subject: string, sender: string, date: string)

  /** `line.startsWith(name)` and `line.replace(name, "").trim()`: the
      first occurrence of the label is the one at the start. */
  function HeaderValue(line: string, name: string, last: string): string {
    if StartsWith(line, name) then Trim(line[|name|..]) else last
  }

  const SubjectHeader: string := "Subject:"
  const FromHeader: string := "From:"
  const DateHeader: string := "Date:"

  function ReadHeaders(h: Headers, line: string): Headers {
    Headers(HeaderValue(line, SubjectHeader, h.subject), HeaderValue(line, FromHeader, h.sender),
            HeaderValue(line, DateHeader, h.date))
  }

  /** The five field patterns applied to a line, in the source's order. */
  function Fill(p: Pending, line: string): Pending {
    Pending(
      (match FieldMatch(AmountField, line) case Some(g) => AmountOf(g) case None => p.amount),
      (match FieldMatch(ReferenceField, line) case Some(g) => g case None => p.reference),
      (match FieldMatch(RecipientField, line) case Some(g) => Trim(g) case None => p.paidTo),
      (match FieldMatch(SenderField, line) case Some(g) => Trim(g) case None => p.paidBy),
      (match FieldMatch(StatusField, line) case Some(g) => g case None => p.status))
  }

  /** The flush condition: an amount, a reference, and a payee or payer. */
  predicate Complete(p: Pending) {
    Truthy(p.amount) && p.reference != "" && (p.paidTo != "" || p.paidBy != "")
  }

  /** The record a complete pending record becomes; `now` stands for
      `new Date().toISOString()`. The reference is set, so its "EMAIL"
      default never applies. */
  function Emit(h: Headers, p: Pending, now: string): Txn {
    Txn(if h.date != "" then h.date else now, p.amount, DetectTransactionType(h.subject), p.reference,
        if p.paidBy != "" then p.paidBy else h.sender, p.paidTo, h.subject,
        Some(if p.status != "" then p.status else "Completed"))
  }

  datatype Inbox = Inbox(headers: Headers, pending: Pending, records: seq<Txn>)

  /** One line: headers first, then the fields, then the flush test. */
  function Step(now: string, st: Inbox, line: string): Inbox {
    var h := ReadHeaders(st.headers, line);
    var q := Fill(st.pending, line);
    if Complete(q) then Inbox(h, Empty, st.records + [Emit(h, q, now)]) else Inbox(h, q, st.records)
  }

  /** A line emits exactly when the filled pending record is complete, and
      then the pending record starts again empty; nothing else is added. */
  lemma StepSpec(now: string, st: Inbox, line: string)
    ensures var q := Fill(st.pending, line);
      var r := Step(now, st, line);
      r.headers == ReadHeaders(st.headers, line)
      && (Complete(q) ==> r.pending == Empty && r.records == st.records + [Emit(r.headers, q, now)])
      && (!Complete(q) ==> r.pending == q && r.records == st.records)
  {
  }

  /** A step over one line; the fold below is stated for any such step and
      used with `Step`. */
  type StepFn = (string, Inbox, string) -> Inbox

  const Start := Inbox(Headers("", "", ""), Empty, [])

  function Run(step: StepFn, now: string, lines: seq<string>, n: nat): Inbox
    requires n <= |lines|
  {
    if n == 0 then Start else step(now, Run(step, now, lines, n - 1), lines[n - 1])
  }

  /** A property of the state that the start has and every step keeps
      holds after every line, and a step that adds at most one record adds
      at most one per line. */
  lemma {:induction false} RunKeeps(step: StepFn, now: string, inv: Inbox -> bool, lines: seq<string>, n: nat)
    requires n <= |lines|
    requires inv(Start)
    requires forall st, l :: inv(st) ==> inv(step(now, st, l)) && |step(now, st, l).records| <= |st.records| + 1
    ensures inv(Run(step, now, lines, n)) && |Run(step, now, lines, n).records| <= n
  {
    if n > 0 {
      RunKeeps(step, now, inv, lines, n - 1);
    }
  }

  /** An email record: an amount, a 6 to 12 character reference, a party,
      and a status. */
  predicate EmailShaped(r: Txn) {
    Truthy(r.amount) && 6 <= |r.reference| <= 12 && (r.paidTo != "" || r.paidBy != "")
    && r.status.Some? && r.status.value != ""
  }

  /** The reference of a pending record is unset or 6 to 12 characters. */
  predicate ReferenceOk(p: Pending) { p.reference == "" || 6 <= |p.reference| <= 12 }

  lemma FillKeepsReference(p: Pending, line: string)
    requires ReferenceOk(p)
    ensures ReferenceOk(Fill(p, line))
  {
  }

  lemma EmitShaped(h: Headers, q: Pending, now: string)
    requires Complete(q) && ReferenceOk(q)
    ensures EmailShaped(Emit(h, q, now))
  {
  }

  /** A step keeps every record well formed and the pending reference
      sound, and leaves no complete pending record behind. */
  lemma StepShape(now: string, st: Inbox, line: string)
    requires ReferenceOk(st.pending) && forall r :: r in st.records ==> EmailShaped(r)
    ensures var next := Step(now, st, line);
      ReferenceOk(next.pending) && !Complete(next.pending)
      && |next.records| <= |st.records| + 1
      && forall r :: r in next.records ==> EmailShaped(r)
  {
    var q := Fill(st.pending, line);
    StepSpec(now, st, line);
    FillKeepsReference(st.pending, line);
    if Complete(q) {
      EmitShaped(ReadHeaders(st.headers, line), q, now);
    }
  }

  /** What holds of the state between lines. */
  predicate Sound(st: Inbox) {
    !Complete(st.pending) && ReferenceOk(st.pending) && forall r :: r in st.records ==> EmailShaped(r)
  }

  /** At most one record per line, every record well formed, and a
      complete pending record never outlives the line that completed it. */
  lemma RunShape(now: string, lines: seq<string>, n: nat)
    requires n <= |lines|
    ensures |Run(Step, now, lines, n).records| <= n && Sound(Run(Step, now, lines, n))
  {
    forall st, l | Sound(st) ensures Sound(Step(now, st, l)) && |Step(now, st, l).records| <= |st.records| + 1 {
      StepShape(now, st, l);
    }
    RunKeeps(Step, now, Sound, lines, n);
  }

  /** The subject pattern `([0-9,]+(?:\.[0-9]+)?)\s*(?:Ksh|KES|USD|EUR|GBP)?`:
      everything after the group is optional, so the match is the first
      digit or comma and the numeral it starts. */
  function SubjectAmount(s: string): (r: Option<string>)
    ensures r.Some? ==> r.value != [] && IsDigitOrComma(r.value[0])
  {
    var g: nat -> Option<string> := (p: nat) => if p < |s| && IsDigitOrComma(s[p]) then Some(s[p..NumeralEnd(s, p)]) else None;
    var r := FirstValue(0, |s|, g);
    assert r.Some? ==> exists p: nat :: g(p) == r && p < |s| && IsDigitOrComma(s[p]);
    r
  }

  /** The fallback record from the subject alone. Its amount is not checked for NaN:
      a subject whose first such run is only commas gives NaN. */
  function SubjectRecord(h: Headers, now: string): Option<Txn> {
    match SubjectAmount(h.subject)
    case Some(g) =>
      Some(Txn(if h.date != "" then h.date else now, AmountOf(g), DetectTransactionType(h.subject),
               ExtractCode(h.subject).GetOr("EMAIL"), h.sender, "", h.subject, Some("Completed")))
    case None => None
  }

  function Finish(st: Inbox, now: string): seq<Txn> {
    if st.records == [] && st.headers.subject != "" then
      match SubjectRecord(st.headers, now)
      case Some(r) => [r]
      case None => []
    else st.records
  }

  function EmailRecords(text: string, now: string): seq<Txn> {
    var lines := Split(text, '\n');
    Finish(Run(Step, now, lines, |lines|), now)
  }

  /** The fallback fires only when the loop produced nothing and a subject
      was seen; it then yields at most one "Completed" record with no payee,
      the subject as purpose and the sender address as payer. */
  lemma FinishSpec(st: Inbox, now: string)
    ensures st.records != [] ==> Finish(st, now) == st.records
    ensures st.headers.subject == "" ==> Finish(st, now) == st.records
    ensures st.records == [] ==> |Finish(st, now)| <= 1
    ensures st.records == [] ==> forall r :: r in Finish(st, now) ==>
      r.status == Some("Completed") && r.paidTo == "" && r.purpose == st.headers.subject
      && r.paidBy == st.headers.sender && (r.reference == "EMAIL" || ExtractCode(st.headers.subject) == Some(r.reference))
  {
  }

  /** The field tests of the loop body, each overwriting its field of the
      pending record when its pattern matches. */
  method FillFields(current: Pending, line: string) returns (next: Pending)
    ensures next == Fill(current, line)
  {
    next := current;
    var m := FieldMatch(AmountField, line);
    if m.Some? { next := next.(amount := AmountOf(m.value)); }
    m := FieldMatch(ReferenceField, line);
    if m.Some? { next := next.(reference := m.value); }
    m := FieldMatch(RecipientField, line);
    if m.Some? { next := next.(paidTo := Trim(m.value)); }
    m := FieldMatch(SenderField, line);
    if m.Some? { next := next.(paidBy := Trim(m.value)); }
    m := FieldMatch(StatusField, line);
    if m.Some? { next := next.(status := m.value); }
  }

  /** The three header tests of the loop body. */
  method HeaderLines(h: Headers, line: string) returns (next: Headers)
    ensures next == ReadHeaders(h, line)
  {
    next := h;
    if StartsWith(line, SubjectHeader) { next := next.(subject := Trim(line[|SubjectHeader|..])); }
    if StartsWith(line, FromHeader) { next := next.(sender := Trim(line[|FromHeader|..])); }
    if StartsWith(line, DateHeader) { next := next.(date := Trim(line[|DateHeader|..])); }
  }

  /** The loop body for one line. */
  method EmailLine(now: string, st: Inbox, line: string) returns (next: Inbox)
    ensures next == Step(now, st, line)
  {
    var h := HeaderLines(st.headers, line);
    var current := FillFields(st.pending, line);
    if Truthy(current.amount) && current.reference != "" && (current.paidTo != "" || current.paidBy != "") {
      next := Inbox(h, Empty, st.records + [Emit(h, current, now)]);
    } else {
      next := Inbox(h, current, st.records);
    }
  }

  /** The loop body on line `i`, as one more step of the run. */
  method EmailStep(now: string, lines: seq<string>, i: nat, st: Inbox) returns (next: Inbox)
    requires i < |lines| && st == Run(Step, now, lines, i)
    ensures next == Run(Step, now, lines, i + 1)
  {
    next := EmailLine(now, st, lines[i]);
  }

  /** The subject fallback after the loop. */
  method FinishRecords(st: Inbox, now: string) returns (records: seq<Txn>)
    ensures records == Finish(st, now)
  {
    records := st.records;
    if records == [] && st.headers.subject != "" {
      var g := SubjectAmount(st.headers.subject);
      if g.Some? {
        var h := st.headers;
        records := [Txn(if h.date != "" then h.date else now, AmountOf(g.value), DetectTransactionType(h.subject),
                        ExtractCode(h.subject).GetOr("EMAIL"), h.sender, "", h.subject, Some("Completed"))];
      }
    }
  }

  method ExtractEmailTransactions(text: string, now: string) returns (records: seq<Txn>)
    ensures records == EmailRecords(text, now)
  {
    var lines := Split(text, '\n');
    var st := Start;
    var i := 0;
    while i < |lines|
      invariant i <= |lines|
      invariant st == Run(Step, now, lines, i)
    {
      st := EmailStep(now, lines, i, st);
      i := i + 1;
    }
    assert i == |lines|;
    records := FinishRecords(st, now);
  }
}
