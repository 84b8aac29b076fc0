/** `extractWhatsAppTransactions` (app/api/extract/route.ts): the chat is cut
    into messages, and each message that passes the keyword gatekeeper and
    holds a non-zero amount becomes one record.
 */
module WhatsApp {
  import opened Scan
  import opened Text
  import opened Numbers
  import opened Amounts
  import opened Codes
  import opened Classify
  import opened Entities
  import opened Purpose
  import opened Segmenter
  import opened Records

  /** The zero-width space and the two direction marks the clean-up drops. */
  predicate Visible(c: char) { c != '\U{200B}' && c != '\U{200E}' && c != '\U{200F}' }

  /** The clean-up of a message's content: invisible marks dropped, runs of
      whitespace collapsed to one space, the ends trimmed. */
  function CleanContent(s: string): (r: string)
    ensures Clean(r)
  {
    Tidy(Keep(s, Visible))
  }

  const GateWords: seq<string> :=
    ["ksh", "kes", "usd", "sent to", "paid to", "received from", "deposited to", "confirmed.", "given to"]

  /** `\d+[kK]\b` matched with its last digit at `p`. */
  predicate ThousandsAt(s: string, p: nat) {
    p + 2 <= |s| && IsDigit(s[p]) && Lower(s[p + 1]) == 'k' && IsBoundary(s, p + 2)
  }

  /** The gatekeeper: a currency word, a "5k" amount, or a transfer phrase,
      in any case. */
  predicate IsTransaction(s: string) {
    AnyCI(s, GateWords) || exists p :: 0 <= p <= |s| && ThousandsAt(s, p)
  }

  /** An amount reader: `extractFlexibleAmount` as written
      (`FlexibleAmountAsWritten`) or with whole numbers read by the currency
      rules (`FlexibleAmount`). */
  type Reader = string -> Option<JsNumber>

  /** The amount of a message that counts: found and neither 0 nor NaN. */
  predicate HasAmount(read: Reader, s: string) {
    read(s).Some? && Truthy(read(s).value)
  }

  /** What one message yields, given the raw content of the message after
      it, if any: a record exactly when the cleaned content passes the
      gatekeeper and holds an amount that counts. Each field comes from its
      extractor: the amount read, the WhatsApp label, the first code or
      "MANUAL" when there is none, the two parties, the purpose. */
  function RecordWith(read: Reader, m: ChatMessage, next: Option<string>): (r: Option<Txn>)
    ensures var clean := CleanContent(m.content);
      r.Some? <==> IsTransaction(clean) && HasAmount(read, clean)
    ensures var clean := CleanContent(m.content);
      r.Some? ==>
        r.value.date == m.date
        && r.value.amount == read(clean).value
        && r.value.kind == WhatsAppType(clean)
        && r.value.reference == (if ExtractCode(clean).Some? then ExtractCode(clean).value else "MANUAL")
        && (r.value.paidBy, r.value.paidTo) == EntitiesOf(clean, m.sender)
        && r.value.purpose == PurposeFromContext(clean, next)
        && r.value.status.None?
    ensures r.Some? ==> Truthy(r.value.amount) && IsLabel(r.value.kind) && r.value.purpose == Trim(r.value.purpose)
    ensures r.Some? ==>
      r.value.reference == "MANUAL" || (8 <= |r.value.reference| <= 12 && forall c :: c in r.value.reference ==> IsCodeChar(c))
  {
    var clean := CleanContent(m.content);
    if IsTransaction(clean) && HasAmount(read, clean) then
      var entities := EntitiesOf(clean, m.sender);
      Some(Txn(m.date, read(clean).value, WhatsAppType(clean), ExtractCode(clean).GetOr("MANUAL"),
               entities.0, entities.1, PurposeFromContext(clean, next), None))
    else None
  }

  /** The record of a message with whole numbers read by the currency rules. */
  function RecordOf(m: ChatMessage, next: Option<string>): Option<Txn> {
    RecordWith(FlexibleAmount, m, next)
  }

  /** The record of a message as the program computes it. */
  function RecordAsWritten(m: ChatMessage, next: Option<string>): Option<Txn> {
    RecordWith(FlexibleAmountAsWritten, m, next)
  }

  /** The two readers change only the amount: when both yield a record the
      records differ at most in it, and a message with a "k" shorthand
      yields the same record under both. */
  lemma ReadersDifferOnlyInAmount(m: ChatMessage, next: Option<string>)
    ensures var r, w := RecordOf(m, next), RecordAsWritten(m, next);
      r.Some? && w.Some? ==> r.value == w.value.(amount := r.value.amount)
    ensures Shorthand(CleanContent(m.content)).Some? ==> RecordOf(m, next) == RecordAsWritten(m, next)
  {
    var clean := CleanContent(m.content);
    var r, w := RecordOf(m, next), RecordAsWritten(m, next);
    if r.Some? && w.Some? {
      var x, y := r.value, w.value;
      assert x.date == y.date && x.kind == y.kind && x.reference == y.reference && x.purpose == y.purpose;
      assert x.paidBy == y.paidBy && x.paidTo == y.paidTo && x.status == y.status;
    }
    if Shorthand(clean).Some? {
      SameReading(FlexibleAmount, FlexibleAmountAsWritten, m, next);
    }
  }

  /** Two readers that agree on a message's cleaned content give it the
      same record. */
  lemma SameReading(read1: Reader, read2: Reader, m: ChatMessage, next: Option<string>)
    requires read1(CleanContent(m.content)) == read2(CleanContent(m.content))
    ensures RecordWith(read1, m, next) == RecordWith(read2, m, next)
  {
  }

  /** `messages[i + 1]?.content`. */
  function NextContent(ms: seq<ChatMessage>, i: nat): Option<string>
    requires i < |ms|
  {
    if i + 1 < |ms| then Some(ms[i + 1].content) else None
  }

  /** What a message yields given the next message's content. The fold
      below is stated for any such rule and used with `RecordOf`. */
  type Rule = (ChatMessage, Option<string>) -> Option<Txn>

  function Yield(rule: Rule, ms: seq<ChatMessage>, i: nat): seq<Txn>
    requires i < |ms|
  {
    match rule(ms[i], NextContent(ms, i))
    case Some(t) => [t]
    case None => []
  }

  /** The records of the first `n` messages. */
  function RecordsUpTo(rule: Rule, ms: seq<ChatMessage>, n: nat): seq<Txn>
    requires n <= |ms|
  {
    if n == 0 then [] else RecordsUpTo(rule, ms, n - 1) + Yield(rule, ms, n - 1)
  }

  /** The positions of the first `n` messages that yield a record. */
  function Sources(rule: Rule, ms: seq<ChatMessage>, n: nat): seq<nat>
    requires n <= |ms|
  {
    if n == 0 then []
    else Sources(rule, ms, n - 1) + (if rule(ms[n - 1], NextContent(ms, n - 1)).Some? then [n - 1] else [])
  }

  /** One position per record, each below `n`. */
  lemma {:induction false} SourcesCount(rule: Rule, ms: seq<ChatMessage>, n: nat)
    requires n <= |ms|
    ensures |Sources(rule, ms, n)| == |RecordsUpTo(rule, ms, n)| <= n
    ensures forall k :: 0 <= k < |Sources(rule, ms, n)| ==> Sources(rule, ms, n)[k] < n
  {
    if n > 0 {
      SourcesCount(rule, ms, n - 1);
    }
  }

  /** The k-th record is what the message at the k-th position yields. */
  lemma {:induction false} SourcesMatch(rule: Rule, ms: seq<ChatMessage>, n: nat)
    requires n <= |ms|
    ensures |Sources(rule, ms, n)| == |RecordsUpTo(rule, ms, n)|
    ensures forall k :: 0 <= k < |Sources(rule, ms, n)| ==>
      Sources(rule, ms, n)[k] < |ms| && rule(ms[Sources(rule, ms, n)[k]], NextContent(ms, Sources(rule, ms, n)[k])) == Some(RecordsUpTo(rule, ms, n)[k])
  {
    SourcesCount(rule, ms, n);
    if n > 0 {
      SourcesMatch(rule, ms, n - 1);
      var prev, recs := Sources(rule, ms, n - 1), RecordsUpTo(rule, ms, n - 1);
      var src, all := Sources(rule, ms, n), RecordsUpTo(rule, ms, n);
      var r := rule(ms[n - 1], NextContent(ms, n - 1));
      if r.Some? {
        assert src == prev + [n - 1] && all == recs + [r.value];
        forall k | 0 <= k < |src|
          ensures src[k] < |ms| && rule(ms[src[k]], NextContent(ms, src[k])) == Some(all[k])
        {
          if k < |prev| {
            assert src[k] == prev[k] && all[k] == recs[k];
          } else {
            assert src[k] == n - 1 && all[k] == r.value;
          }
        }
      } else {
        assert src == prev && all == recs;
      }
    }
  }

  /** The positions increase strictly, and every message that yields a
      record is among them. */
  lemma {:induction false} SourcesOrdered(rule: Rule, ms: seq<ChatMessage>, n: nat)
    requires n <= |ms|
    ensures forall k, l :: 0 <= k < l < |Sources(rule, ms, n)| ==> Sources(rule, ms, n)[k] < Sources(rule, ms, n)[l]
    ensures forall i :: 0 <= i < n && rule(ms[i], NextContent(ms, i)).Some? ==> i in Sources(rule, ms, n)
  {
    SourcesCount(rule, ms, n);
    if n > 0 {
      SourcesOrdered(rule, ms, n - 1);
      SourcesCount(rule, ms, n - 1);
    }
  }

  /** One more message adds its record, if it yields one. */
  lemma YieldStep(rule: Rule, ms: seq<ChatMessage>, i: nat, r: Option<Txn>)
    requires i < |ms| && rule(ms[i], NextContent(ms, i)) == r
    ensures RecordsUpTo(rule, ms, i + 1) == RecordsUpTo(rule, ms, i) + (if r.Some? then [r.value] else [])
  {
  }

  /** The rule of a reader, in the form the fold takes. */
  function RuleOf(read: Reader): Rule {
    (m: ChatMessage, next: Option<string>) => RecordWith(read, m, next)
  }

  /** The records of a whole chat export under a reader. */
  function RecordsWith(read: Reader, text: string): seq<Txn> {
    var ms := Segment(Split(text, '\n'));
    RecordsUpTo(RuleOf(read), ms, |ms|)
  }

  /** The records of a whole chat export as the program computes them. */
  function WhatsAppRecordsAsWritten(text: string): seq<Txn> {
    RecordsWith(FlexibleAmountAsWritten, text)
  }

  /** The records of a whole chat export with whole numbers read. */
  function WhatsAppRecords(text: string): seq<Txn> {
    RecordsWith(FlexibleAmount, text)
  }

  /** The body of the loop of `extractWhatsAppTransactions` for one message. */
  method MessageRecord(read: Reader, msg: ChatMessage, next: Option<string>) returns (r: Option<Txn>)
    ensures r == RecordWith(read, msg, next)
  {
    r := None;
    var clean := CleanContent(msg.content);
    if IsTransaction(clean) {
      var amount := read(clean);
      if amount.Some? && Truthy(amount.value) {
        var reference := ExtractCode(clean).GetOr("MANUAL");
        var paidBy, paidTo := ExtractEntities(clean, msg.sender);
        var kind := WhatsAppType(clean);
        var purpose := PurposeFromContext(clean, next);
        r := Some(Txn(msg.date, amount.value, kind, reference, paidBy, paidTo, purpose, None));
      }
    }
  }

  /** `extractWhatsAppTransactions`, with the amount reader as a parameter. */
  method ExtractWhatsAppTransactions(text: string, read: Reader) returns (records: seq<Txn>)
    ensures records == RecordsWith(read, text)
  {
    var messages := ParseChatToObjects(text);
    records := [];
    var i := 0;
    while i < |messages|
      invariant i <= |messages|
      invariant records == RecordsUpTo(RuleOf(read), messages, i)
    {
      var next := if i + 1 < |messages| then Some(messages[i + 1].content) else None;
      var r := MessageRecord(read, messages[i], next);
      YieldStep(RuleOf(read), messages, i, r);
      if r.Some? {
        records := records + [r.value];
      }
      i := i + 1;
    }
  }
}
