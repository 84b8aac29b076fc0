/** `extractWithCustomTemplate` (app/api/extract/route.ts): each non-blank
    line is tried against the template's five patterns, which fill a pending
    record; once the pending record has an amount and a date or reference it
    is emitted and the pending record starts again empty.

    The patterns are the user's own regular expressions. Compiling and
    matching them is a parameter: `Invalid` stands for a pattern the engine
    refuses (the source catches the error and skips that field).
 */
module CustomTemplate {
  import opened Scan
  import opened Text
  import opened Numbers
  import opened Records

  /** The outcome of `line.match(new RegExp(pattern, "i"))`: the whole match
      and the first group ("" when the pattern has none or it did not take
      part). */
  datatype Match = Invalid | NoMatch | Matched(whole: string, group1: string)

  type Matcher = (string, string) -> Match

  datatype Template = Template(
    name: string,
    datePattern: string,
    amountPattern: string,
    referencePattern: string,
    paidByPattern: string,
    paidToPattern: string)

  /** The pending record. An unset field is "" (or NaN for the amount): the
      source only ever reads these fields through their truthiness, so an
      unset field and one set to "" (or to NaN or 0) behave alike. */
  datatype Pending = Pending(date: string, amount: JsNumber, reference: string, paidBy: string, paidTo: string)

  const Empty := Pending("", NaN, "", "", "")

  /** `m[1] || m[0]`. */
  function Captured(whole: string, group1: string): string {
    if group1 != "" then group1 else whole
  }

  /** What one pattern gives for a line: `None` leaves the field as it is.
      An empty pattern is not tried. */
  function Try(matcher: Matcher, pattern: string, line: string): (r: Option<Match>)
    ensures r.Some? ==> r.value.Matched?
    ensures pattern == "" ==> r.None?
  {
    if pattern == "" then None
    else match matcher(pattern, line)
      case Matched(w, g) => Some(Matched(w, g))
      case _ => None
  }

  /** `Number.parseFloat(s.replace(/[^\d.]/g, ""))`. */
  function CustomAmount(s: string): JsNumber {
    ParseFloat(Keep(s, c => IsDigit(c) || c == '.'))
  }

  /** The five patterns applied to a line, in the source's order. */
  function Fill(t: Template, matcher: Matcher, p: Pending, line: string): (q: Pending)
    ensures t.amountPattern == "" ==> q.amount == p.amount
  {
    var date := match Try(matcher, t.datePattern, line)
      case Some(m) => m.whole
      case None => p.date;
    var amount := match Try(matcher, t.amountPattern, line)
      case Some(m) => CustomAmount(Captured(m.whole, m.group1))
      case None => p.amount;
    var reference := match Try(matcher, t.referencePattern, line)
      case Some(m) => Captured(m.whole, m.group1)
      case None => p.reference;
    var paidBy := match Try(matcher, t.paidByPattern, line)
      case Some(m) => Captured(m.whole, m.group1)
      case None => p.paidBy;
    var paidTo := match Try(matcher, t.paidToPattern, line)
      case Some(m) => Captured(m.whole, m.group1)
      case None => p.paidTo;
    Pending(date, amount, reference, paidBy, paidTo)
  }

  /** The flush condition: an amount, and a date or a reference. */
  predicate Complete(p: Pending) {
    Truthy(p.amount) && (p.date != "" || p.reference != "")
  }

  /** The record a complete pending record becomes on `line`; `now` stands
      for `new Date().toISOString()`. */
  function Emit(t: Template, p: Pending, line: string, now: string): (r: Txn)
    requires Complete(p)
    ensures r.kind == "Custom" && Truthy(r.amount) && r.amount == p.amount && r.status.None?
    ensures r.date == (if p.date != "" then p.date else now)
    ensures r.reference == (if p.reference != "" then p.reference else t.name)
    ensures r.paidBy == p.paidBy && r.paidTo == p.paidTo && r.purpose == Trim(line)
  {
    Txn(if p.date != "" then p.date else now, p.amount, "Custom",
        if p.reference != "" then p.reference else t.name, p.paidBy, p.paidTo, Trim(line), None)
  }

  /** What the extractor works with besides the text: the template, the
      pattern engine, and the time stamp `new Date().toISOString()` gives. */
  datatype Config = Config(t: Template, matcher: Matcher, now: string)

  /** One line: blank lines change nothing; otherwise the patterns fill the
      pending record, which is emitted and emptied once complete. */
  function Step(c: Config, p: Pending, line: string): (Pending, Option<Txn>)
  {
    if Trim(line) == "" then (p, None)
    else
      var q := Fill(c.t, c.matcher, p, line);
      if Complete(q) then (Empty, Some(Emit(c.t, q, line, c.now))) else (q, None)
  }

  /** A blank line changes nothing; any other line emits exactly when the
      filled pending record is complete, and the pending record is then
      reset to empty. */
  lemma StepSpec(c: Config, p: Pending, line: string)
    ensures var r := Step(c, p, line);
      (Trim(line) == "" ==> r == (p, None))
      && (Trim(line) != "" ==> (r.1.Some? <==> Complete(Fill(c.t, c.matcher, p, line))))
      && (r.1.Some? ==> r.0 == Empty && r.1.value == Emit(c.t, Fill(c.t, c.matcher, p, line), line, c.now))
      && (r.1.None? && Trim(line) != "" ==> r.0 == Fill(c.t, c.matcher, p, line))
  {
  }

  /** A step over one line: the new pending record and what is emitted.
      The fold below is stated for any such step and used with `Step`. */
  type StepFn = (Config, Pending, string) -> (Pending, Option<Txn>)

  /** The pending record and the records after the first `n` lines. */
  function Run(step: StepFn, c: Config, lines: seq<string>, n: nat): (r: (Pending, seq<Txn>))
    requires n <= |lines|
  {
    if n == 0 then (Empty, [])
    else
      var prev := Run(step, c, lines, n - 1);
      var r := step(c, prev.0, lines[n - 1]);
      (r.0, prev.1 + (if r.1.Some? then [r.1.value] else []))
  }

  function CustomRecords(text: string, c: Config): seq<Txn> {
    var lines := Split(text, '\n');
    Run(Step, c, lines, |lines|).1
  }

  /** At most one record per line. */
  lemma {:induction false} RunLength(step: StepFn, c: Config, lines: seq<string>, n: nat)
    requires n <= |lines|
    ensures |Run(step, c, lines, n).1| <= n
  {
    if n > 0 {
      RunLength(step, c, lines, n - 1);
    }
  }

  /** What every step emits, every run emits. */
  lemma {:induction false} RunEmits(step: StepFn, c: Config, good: Txn -> bool, lines: seq<string>, n: nat)
    requires n <= |lines|
    requires forall p, l :: step(c, p, l).1.Some? ==> good(step(c, p, l).1.value)
    ensures forall r :: r in Run(step, c, lines, n).1 ==> good(r)
  {
    if n > 0 {
      RunEmits(step, c, good, lines, n - 1);
    }
  }

  /** Every record of a template is of type "Custom" with a non-zero
      amount, and its reference is the captured one or the template name. */
  lemma CustomRecordsAreCustom(text: string, c: Config)
    ensures forall r :: r in CustomRecords(text, c) ==>
      r.kind == "Custom" && Truthy(r.amount) && (r.reference != "" || r.reference == c.t.name)
  {
    var good := (r: Txn) => r.kind == "Custom" && Truthy(r.amount) && (r.reference != "" || r.reference == c.t.name);
    forall p, l | Step(c, p, l).1.Some? ensures good(Step(c, p, l).1.value) {
      StepSpec(c, p, l);
    }
    var lines := Split(text, '\n');
    RunEmits(Step, c, good, lines, |lines|);
  }

  /** A step that keeps the amount unset and emits nothing from such a
      pending record keeps the whole run silent. */
  lemma {:induction false} RunSilent(step: StepFn, c: Config, lines: seq<string>, n: nat)
    requires n <= |lines|
    requires forall p: Pending, l: string :: p.amount == NaN ==> step(c, p, l).1.None? && step(c, p, l).0.amount == NaN
    ensures Run(step, c, lines, n).1 == [] && Run(step, c, lines, n).0.amount == NaN
  {
    if n > 0 {
      RunSilent(step, c, lines, n - 1);
    }
  }

  /** Without an amount pattern no amount is ever set, so nothing is ever
      emitted. */
  lemma NoAmountPatternNoRecords(text: string, c: Config)
    requires c.t.amountPattern == ""
    ensures CustomRecords(text, c) == []
  {
    forall p: Pending, l: string | p.amount == NaN ensures Step(c, p, l).1.None? && Step(c, p, l).0.amount == NaN {
      StepSpec(c, p, l);
      assert Fill(c.t, c.matcher, p, l).amount == NaN;
    }
    var lines := Split(text, '\n');
    RunSilent(Step, c, lines, |lines|);
  }

  /** The five pattern tests of the loop body, updating the pending record
      field by field. */
  method ApplyPatterns(t: Template, matcher: Matcher, current: Pending, line: string) returns (next: Pending)
    ensures next == Fill(t, matcher, current, line)
  {
    next := current;
    if t.datePattern != "" {
      var m := matcher(t.datePattern, line);
      if m.Matched? { next := next.(date := m.whole); }
    }
    if t.amountPattern != "" {
      var m := matcher(t.amountPattern, line);
      if m.Matched? { next := next.(amount := CustomAmount(Captured(m.whole, m.group1))); }
    }
    if t.referencePattern != "" {
      var m := matcher(t.referencePattern, line);
      if m.Matched? { next := next.(reference := Captured(m.whole, m.group1)); }
    }
    if t.paidByPattern != "" {
      var m := matcher(t.paidByPattern, line);
      if m.Matched? { next := next.(paidBy := Captured(m.whole, m.group1)); }
    }
    if t.paidToPattern != "" {
      var m := matcher(t.paidToPattern, line);
      if m.Matched? { next := next.(paidTo := Captured(m.whole, m.group1)); }
    }
  }

  /** The loop body of `extractWithCustomTemplate` for one line. */
  method LineStep(c: Config, current: Pending, line: string) returns (next: Pending, emitted: Option<Txn>)
    ensures (next, emitted) == Step(c, current, line)
  {
    next, emitted := current, None;
    if Trim(line) != "" {
      next := ApplyPatterns(c.t, c.matcher, current, line);
      if Truthy(next.amount) && (next.date != "" || next.reference != "") {
        emitted := Some(Emit(c.t, next, line, c.now));
        next := Empty;
      }
    }
  }

  /** One more line takes one step. */
  lemma RunStep(step: StepFn, c: Config, lines: seq<string>, i: nat, next: Pending, emitted: Option<Txn>)
    requires i < |lines| && step(c, Run(step, c, lines, i).0, lines[i]) == (next, emitted)
    ensures Run(step, c, lines, i + 1) == (next, Run(step, c, lines, i).1 + (if emitted.Some? then [emitted.value] else []))
  {
  }

  /** The state after the first `i` lines: the pending record and the
      records emitted so far. */
  ghost predicate After(c: Config, lines: seq<string>, i: nat, current: Pending, records: seq<Txn>)
  {
    i <= |lines| && (current, records) == Run(Step, c, lines, i)
  }

  /** The loop body on the line at `i`, stated as one more step of the run. */
  method RunLine(c: Config, lines: seq<string>, i: nat, current: Pending, records: seq<Txn>)
    returns (next: Pending, more: seq<Txn>)
    requires i < |lines| && After(c, lines, i, current, records)
    ensures After(c, lines, i + 1, next, more)
  {
    var emitted;
    next, emitted := LineStep(c, current, lines[i]);
    RunStep(Step, c, lines, i, next, emitted);
    more := records + (if emitted.Some? then [emitted.value] else []);
  }

  /** The loop of `extractWithCustomTemplate` over the lines. */
  method RunLines(c: Config, lines: seq<string>) returns (records: seq<Txn>)
    ensures records == Run(Step, c, lines, |lines|).1
  {
    records := [];
    var current := Empty;
    var i := 0;
    while i < |lines|
      invariant After(c, lines, i, current, records)
    {
      current, records := RunLine(c, lines, i, current, records);
      i := i + 1;
    }
    assert i == |lines|;
  }

  /** `extractWithCustomTemplate`. */
  method ExtractWithCustomTemplate(text: string, c: Config) returns (records: seq<Txn>)
    ensures records == CustomRecords(text, c)
  {
    records := RunLines(c, Split(text, '\n'));
  }
}
