/** `extractTelegramTransactions` (app/api/extract/route.ts): a line loop
    that keeps the most recent date line in `currentDate` and turns every
    money line seen after a date into a record.

    `extractTelegramUser`, the name the source looks up for the date, is a
    parameter: `user(d)` is what it returns for the date `d` of this text.
 */
module Telegram {
  import opened Scan
  import opened Text
  import opened Numbers
  import opened Amounts
  import opened Codes
  import opened Classify
  import opened Segmenter
  import opened Records

  predicate FourDigits(s: string, i: nat) {
    i + 4 <= |s| && forall k :: i <= k < i + 4 ==> IsDigit(s[k])
  }

  /** `\d{1,2}:\d{2}` from `k`: where it ends. */
  function TimeEnd(s: string, k: nat): (r: Option<nat>)
    ensures r.Some? ==> k < r.value <= |s|
  {
    match ShortNumber(s, k, ':')
    case Some(m) => if m + 1 < |s| && IsDigit(s[m]) && IsDigit(s[m + 1]) then Some(m + 2) else None
    case None => None
  }

  /** `.+?(\d{1,2}:\d{2})` from `q`: the lazy gap takes one character or
      more, never a line terminator, and stops at the first time. */
  function RestEnd(s: string, q: nat): (r: Option<nat>)
    requires q <= |s|
    ensures r.Some? ==> q < r.value <= |s|
  {
    var f: nat -> Option<nat> := (k: nat) => TimeEnd(s, k);
    var r := FirstValue(q + 1, RunEnd(s, q, NotLineTerminator), f);
    assert r.Some? ==> exists k :: q + 1 <= k && f(k) == r;
    r
  }

  function OrElse(a: Option<nat>, b: Option<nat>): Option<nat> {
    if a.Some? then a else b
  }

  /** The date pattern `(\d{1,2}\/\d{1,2}\/\d{4}|\d{4}-\d{1,2}-\d{1,2}).+?(\d{1,2}:\d{2})`
      tried at `p`: the end of the whole match. The first alternative is
      tried first. A `\d{1,2}` that a separator follows cannot give a digit
      back usefully, but the final day of the second alternative can: when no
      time follows its two digits, the engine retries with one. */
  function DateAt(s: string, p: nat): (r: Option<nat>)
    ensures r.Some? ==> p < r.value <= |s|
  {
    var slashed :=
      match ShortNumber(s, p, '/')
      case Some(a) =>
        (match ShortNumber(s, a, '/')
         case Some(b) => if FourDigits(s, b) then RestEnd(s, b + 4) else None
         case None => None)
      case None => None;
    var dashed :=
      if FourDigits(s, p) && p + 4 < |s| && s[p + 4] == '-' then
        match ShortNumber(s, p + 5, '-')
        case Some(c) =>
          if c < |s| && IsDigit(s[c]) then
            OrElse(if c + 1 < |s| && IsDigit(s[c + 1]) then RestEnd(s, c + 2) else None, RestEnd(s, c + 1))
          else None
        case None => None
      else None;
    OrElse(slashed, dashed)
  }

  /** `dateMatch[0]`: the leftmost match of the date pattern. */
  function DateMatch(s: string): (r: Option<string>)
    ensures r.Some? ==> r.value != []
    ensures r.Some? <==> exists p :: 0 <= p <= |s| && DateAt(s, p).Some?
  {
    var f: nat -> Option<nat> := (p: nat) => DateAt(s, p);
    assert forall p :: f(p) == DateAt(s, p);
    var h := FirstHit(0, |s|, f);
    if h.Some? then Some(s[h.value.pos..h.value.value]) else None
  }

  /** Blank lines and the export's banner lines are passed over. */
  const Banner: string := "Telegram export"

  predicate Skipped(line: string) {
    Trim(line) == "" || StartsWith(line, Banner) || StartsWith(line, "=")
  }

  const MoneyWords: seq<string> := ["amount", "ksh", "usd", "transfer", "sent", "received", "paid", "cash"]

  /** The date a line brings to the running date, if any. */
  function LineDate(line: string): (r: Option<string>)
    ensures r.Some? ==> r.value != []
  {
    if Skipped(line) then None else DateMatch(line)
  }

  /** The record of `line`, given the running date after it: a money word,
      an amount that is neither null, zero nor NaN, and a date seen so far. */
  function LineRecord(user: string -> string, line: string, date: string): Option<Txn>
  {
    if Skipped(line) || !AnyCI(line, MoneyWords) then None
    else match TelegramAmount(line)
      case Some(a) =>
        if Truthy(a) && date != "" then
          Some(Txn(date, a, DetectTransactionType(line), ExtractCode(line).GetOr("TG"),
                   if user(date) != "" then user(date) else "Telegram User", "", Trim(line), None))
        else None
      case None => None
  }

  /** When a line yields a record and what the record holds: the reference
      is the line's code, or "TG" when it has none. */
  lemma LineRecordSpec(user: string -> string, line: string, date: string)
    ensures var r := LineRecord(user, line, date);
      (r.Some? <==> !Skipped(line) && AnyCI(line, MoneyWords) && date != ""
                    && TelegramAmount(line).Some? && Truthy(TelegramAmount(line).value))
      && (r.Some? ==> r.value.date == date && r.value.amount == TelegramAmount(line).value
                      && r.value.paidTo == "" && r.value.purpose == Trim(line) && r.value.status.None?
                      && r.value.kind == DetectTransactionType(line)
                      && (ExtractCode(line).Some? ==> r.value.reference == ExtractCode(line).value)
                      && (ExtractCode(line).None? ==> r.value.reference == "TG")
                      && r.value.paidBy == (if user(date) != "" then user(date) else "Telegram User"))
  {
  }

  /** The running date after the first `n` lines: each dated line replaces it. */
  function DateUpTo(dateOf: string -> Option<string>, lines: seq<string>, n: nat): string
    requires n <= |lines|
  {
    if n == 0 then "" else dateOf(lines[n - 1]).GetOr(DateUpTo(dateOf, lines, n - 1))
  }

  /** The records of the first `n` lines; a line's record sees the running
      date as that line leaves it. */
  function RecordsUpTo<U>(dateOf: string -> Option<string>, recordOf: (U, string, string) -> Option<Txn>, u: U,
                          lines: seq<string>, n: nat): seq<Txn>
    requires n <= |lines|
  {
    if n == 0 then []
    else
      var r := recordOf(u, lines[n - 1], DateUpTo(dateOf, lines, n));
      RecordsUpTo(dateOf, recordOf, u, lines, n - 1) + (if r.Some? then [r.value] else [])
  }

  function TelegramRecords(text: string, user: string -> string): seq<Txn> {
    var lines := Split(text, '\n');
    RecordsUpTo(LineDate, LineRecord, user, lines, |lines|)
  }

  /** The running date is the date of the last dated line so far, and ""
      when there is none. */
  lemma {:induction false} DateIsLatest(dateOf: string -> Option<string>, lines: seq<string>, n: nat)
    requires n <= |lines|
    requires forall l :: dateOf(l).Some? ==> dateOf(l).value != ""
    ensures DateUpTo(dateOf, lines, n) == "" <==> forall i :: 0 <= i < n ==> dateOf(lines[i]).None?
    ensures DateUpTo(dateOf, lines, n) != "" ==>
      exists i :: 0 <= i < n && dateOf(lines[i]) == Some(DateUpTo(dateOf, lines, n))
                  && forall j :: i < j < n ==> dateOf(lines[j]).None?
  {
    if n > 0 {
      DateIsLatest(dateOf, lines, n - 1);
      if dateOf(lines[n - 1]).None? && DateUpTo(dateOf, lines, n) != "" {
        var i :| 0 <= i < n - 1 && dateOf(lines[i]) == Some(DateUpTo(dateOf, lines, n - 1))
                 && forall j :: i < j < n - 1 ==> dateOf(lines[j]).None?;
        assert forall j :: i < j < n ==> dateOf(lines[j]).None?;
      }
    }
  }

  /** At most one record per line. */
  lemma {:induction false} AtMostOnePerLine<U>(dateOf: string -> Option<string>, recordOf: (U, string, string) -> Option<Txn>,
                                              u: U, lines: seq<string>, n: nat)
    requires n <= |lines|
    ensures |RecordsUpTo(dateOf, recordOf, u, lines, n)| <= n
  {
    if n > 0 {
      AtMostOnePerLine(dateOf, recordOf, u, lines, n - 1);
    }
  }

  /** What every line's record satisfies, every record satisfies; and a
      rule that needs a date emits nothing before the first dated line. */
  lemma {:induction false} RecordsHold<U>(dateOf: string -> Option<string>, recordOf: (U, string, string) -> Option<Txn>,
                                         u: U, good: Txn -> bool, lines: seq<string>, n: nat)
    requires n <= |lines|
    requires forall l, d :: recordOf(u, l, d).Some? ==> good(recordOf(u, l, d).value)
    requires forall l :: recordOf(u, l, "").None?
    ensures forall r :: r in RecordsUpTo(dateOf, recordOf, u, lines, n) ==> good(r)
    ensures (forall i :: 0 <= i < n ==> dateOf(lines[i]).None?) ==>
      RecordsUpTo(dateOf, recordOf, u, lines, n) == [] && DateUpTo(dateOf, lines, n) == ""
  {
    if n > 0 {
      RecordsHold(dateOf, recordOf, u, good, lines, n - 1);
    }
  }

  /** Every record has a non-zero amount, a date, no payee, and the
      reference "TG" or a standalone code; at most one comes from each line,
      and none before the first dated line. */
  lemma TelegramRecordsWellFormed(text: string, user: string -> string)
    ensures var lines := Split(text, '\n');
      var rs := TelegramRecords(text, user);
      |rs| <= |lines|
      && (forall r :: r in rs ==>
            Truthy(r.amount) && r.date != "" && r.paidTo == ""
            && (r.reference == "TG" || (8 <= |r.reference| <= 12 && forall c :: c in r.reference ==> IsCodeChar(c))))
      && ((forall i :: 0 <= i < |lines| ==> LineDate(lines[i]).None?) ==> rs == [])
  {
    var lines := Split(text, '\n');
    var good := (r: Txn) => Truthy(r.amount) && r.date != "" && r.paidTo == ""
            && (r.reference == "TG" || (8 <= |r.reference| <= 12 && forall c :: c in r.reference ==> IsCodeChar(c)));
    forall l, d | LineRecord(user, l, d).Some? ensures good(LineRecord(user, l, d).value) {
      LineRecordSpec(user, l, d);
    }
    forall l ensures LineRecord(user, l, "").None? {
      LineRecordSpec(user, l, "");
    }
    AtMostOnePerLine(LineDate, LineRecord, user, lines, |lines|);
    RecordsHold(LineDate, LineRecord, user, good, lines, |lines|);
  }

  /** The running date of the source is the date of the last dated,
      non-skipped line read so far. */
  lemma RunningDate(lines: seq<string>, n: nat)
    requires n <= |lines|
    ensures DateUpTo(LineDate, lines, n) == "" <==> forall i :: 0 <= i < n ==> LineDate(lines[i]).None?
    ensures DateUpTo(LineDate, lines, n) != "" ==>
      exists i :: 0 <= i < n && !Skipped(lines[i]) && DateMatch(lines[i]) == Some(DateUpTo(LineDate, lines, n))
                  && forall j :: i < j < n ==> LineDate(lines[j]).None?
  {
    DateIsLatest(LineDate, lines, n);
  }

  /** The record test of the loop body, on the running date the line leaves. */
  method LineRecordOf(user: string -> string, line: string, date: string) returns (record: Option<Txn>)
    ensures record == LineRecord(user, line, date)
  {
    record := None;
    if Skipped(line) || !AnyCI(line, MoneyWords) {
      return;
    }
    var amount := TelegramAmount(line);
    if amount.Some? && Truthy(amount.value) && date != "" {
      var reference := ExtractCode(line);
      var paidBy := user(date);
      record := Some(Txn(date, amount.value, DetectTransactionType(line), reference.GetOr("TG"),
                         if paidBy != "" then paidBy else "Telegram User", "", Trim(line), None));
    }
  }

  /** One pass of the loop body: the new running date and the record. */
  method TelegramLine(user: string -> string, line: string, currentDate: string)
    returns (date: string, record: Option<Txn>)
    ensures date == LineDate(line).GetOr(currentDate)
    ensures record == LineRecord(user, line, date)
  {
    date := currentDate;
    if !Skipped(line) {
      var m := DateMatch(line);
      if m.Some? {
        date := m.value;
      }
    }
    record := LineRecordOf(user, line, date);
  }

  /** One more line: the fold takes the running date and record of its step. */
  lemma RecordsStep<U>(dateOf: string -> Option<string>, recordOf: (U, string, string) -> Option<Txn>, u: U,
                       lines: seq<string>, i: nat, date: string, record: Option<Txn>)
    requires i < |lines|
    requires date == dateOf(lines[i]).GetOr(DateUpTo(dateOf, lines, i))
    requires record == recordOf(u, lines[i], date)
    ensures DateUpTo(dateOf, lines, i + 1) == date
    ensures RecordsUpTo(dateOf, recordOf, u, lines, i + 1)
            == RecordsUpTo(dateOf, recordOf, u, lines, i) + (if record.Some? then [record.value] else [])
  {
  }

  /** The loop body on line `i`, as one more step of the fold. */
  method TelegramStep(user: string -> string, lines: seq<string>, i: nat, currentDate: string, records: seq<Txn>)
    returns (date: string, more: seq<Txn>)
    requires i < |lines|
    requires currentDate == DateUpTo(LineDate, lines, i)
    requires records == RecordsUpTo(LineDate, LineRecord, user, lines, i)
    ensures date == DateUpTo(LineDate, lines, i + 1)
    ensures more == RecordsUpTo(LineDate, LineRecord, user, lines, i + 1)
  {
    var record;
    date, record := TelegramLine(user, lines[i], currentDate);
    RecordsStep(LineDate, LineRecord, user, lines, i, date, record);
    more := records + (if record.Some? then [record.value] else []);
  }

  method ExtractTelegramTransactions(text: string, user: string -> string) returns (records: seq<Txn>)
    ensures records == TelegramRecords(text, user)
  {
    var lines := Split(text, '\n');
    records := [];
    var currentDate := "";
    var i := 0;
    while i < |lines|
      invariant i <= |lines|
      invariant currentDate == DateUpTo(LineDate, lines, i)
      invariant records == RecordsUpTo(LineDate, LineRecord, user, lines, i)
    {
      currentDate, records := TelegramStep(user, lines, i, currentDate, records);
      i := i + 1;
    }
    assert i == |lines|;
  }
}
