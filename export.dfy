/** The CSV and JSON serialisation that components/preview-dashboard.tsx,
    components/export-options.tsx and components/smart-export-options.tsx
    each write out in the same words: one header line of column labels,
    then one line per transaction; a value is quoted, with its quotes
    doubled, when it holds a comma or a double quote.

    The reader `Fields`, used to prove the round trip, reads one line as
    section 2 of RFC 4180 describes (fields separated by commas; a field in
    double quotes may hold commas, and `""` inside it stands for one
    quote), and the lemmas show that it gives back what was written.
 */
module Export {
  import opened Scan
  import opened Text
  import opened Objects
  import Numbers

  /** JavaScript truthiness of a cell: `undefined`, `null`, `""` and 0 are falsy. */
  predicate Truthy(c: Cell) {
    match c
    case Str(s) => s != ""
    case Num(d) => d.mantissa != 0
    case _ => false
  }

  /** `String(value || "")`. */
  function Shown(c: Cell): string {
    match c
    case Str(s) => s
    case Num(d) => if d.mantissa == 0 then "" else Numbers.NumberText(d)
    case _ => ""
  }

  /** A falsy cell, the number 0 included, shows as the empty string; any
      other string shows as itself and any other number as its numeral,
      which never needs quotes. */
  lemma ShownSpec(c: Cell)
    ensures Shown(c) == "" <==> !Truthy(c)
    ensures c.Str? && Truthy(c) ==> Shown(c) == c.s
    ensures c.Num? && Truthy(c) ==> Shown(c) == Numbers.NumberText(c.d) && ',' !in Shown(c) && '"' !in Shown(c)
  {
  }

  predicate NeedsQuotes(s: string) { ',' in s || '"' in s }

  /** `s.replace(/"/g, '""')`. */
  function Doubled(s: string): string
    decreases |s|
  {
    if |s| == 0 then ""
    else (if s[0] == '"' then "\"\"" else [s[0]]) + Doubled(s[1..])
  }

  /** One CSV field as the components write it. */
  function Escaped(s: string): string {
    if NeedsQuotes(s) then "\"" + Doubled(s) + "\"" else s
  }

  function Escapes(vs: seq<string>): (r: seq<string>)
    ensures |r| == |vs|
  {
    seq(|vs|, i requires 0 <= i < |vs| => Escaped(vs[i]))
  }

  /** `columnHeaders[col] || col`, as a function of the column. */
  function HeaderName(headers: Obj<string>): string -> string {
    col => match Lookup(headers, col)
      case Some(h) => if h != "" then h else col
      case None => col
  }

  /** `tx[col]`, as a function of the column. */
  function CellOf(row: Row): string -> Cell {
    col => Get(row, col)
  }

  /** The header labels of the visible columns, in order. */
  function HeaderCells(headers: Obj<string>, cols: seq<string>): seq<string> {
    Renamed(cols, HeaderName(headers))
  }

  /** What a row shows in each visible column, before quoting. */
  function Cells(row: Row, cols: seq<string>): (r: seq<string>)
    ensures |r| == |cols|
  {
    seq(|cols|, i requires 0 <= i < |cols| => Shown(Get(row, cols[i])))
  }

  /** The header line: the labels joined by commas, without quoting. */
  function HeaderLine(headers: Obj<string>, cols: seq<string>): string {
    Join(HeaderCells(headers, cols), ",")
  }

  /** The line of one transaction: its quoted cells joined by commas. */
  function RowLine(row: Row, cols: seq<string>): string {
    Join(Escapes(Cells(row, cols)), ",")
  }

  function Lines(rows: seq<Row>, cols: seq<string>, headers: Obj<string>): (r: seq<string>)
    ensures |r| == |rows| + 1
  {
    [HeaderLine(headers, cols)] + seq(|rows|, i requires 0 <= i < |rows| => RowLine(rows[i], cols))
  }

  /** The CSV text: the header line and the transaction lines joined by "\n". */
  function CsvText(rows: seq<Row>, cols: seq<string>, headers: Obj<string>): string {
    Join(Lines(rows, cols, headers), "\n")
  }

  /** The JSON object of one transaction: the visible columns, each under
      its header label, holding the transaction's value. */
  function JsonObject(row: Row, cols: seq<string>, headers: Obj<string>): Obj<Cell> {
    Gather(cols, HeaderName(headers), CellOf(row))
  }

  function JsonObjects(rows: seq<Row>, cols: seq<string>, headers: Obj<string>): (r: seq<Obj<Cell>>)
    ensures |r| == |rows|
  {
    seq(|rows|, i requires 0 <= i < |rows| => JsonObject(rows[i], cols, headers))
  }

  // The reader.

  /** The position of the first comma in `s`, or `|s|` when there is none. */
  function CommaAt(s: string): (k: nat)
    ensures k <= |s|
    ensures k < |s| ==> s[k] == ','
    ensures forall i :: 0 <= i < k ==> s[i] != ','
    decreases |s|
  {
    if |s| == 0 || s[0] == ',' then 0 else 1 + CommaAt(s[1..])
  }

  /** The rest of a quoted field, read after its opening quote: the field's
      text, with each `""` read as one quote, and what follows the closing
      quote. None when the closing quote is missing. */
  function Unquote(s: string): (r: Option<(string, string)>)
    ensures r.Some? ==> |r.value.1| < |s|
    decreases |s|
  {
    if |s| == 0 then None
    else if s[0] == '"' then
      if |s| >= 2 && s[1] == '"' then
        match Unquote(s[2..])
        case None => None
        case Some((t, rest)) => Some(("\"" + t, rest))
      else Some(("", s[1..]))
    else
      match Unquote(s[1..])
      case None => None
      case Some((t, rest)) => Some(([s[0]] + t, rest))
  }

  /** The fields of one CSV line; None when a quoted field is not closed or
      is followed by something other than a comma. */
  function Fields(s: string): Option<seq<string>>
    decreases |s|
  {
    if |s| > 0 && s[0] == '"' then
      match Unquote(s[1..])
      case None => None
      case Some((t, rest)) =>
        if |rest| == 0 then Some([t])
        else if rest[0] != ',' then None
        else
          match Fields(rest[1..])
          case None => None
          case Some(fs) => Some([t] + fs)
    else
      var k := CommaAt(s);
      if k == |s| then Some([s])
      else
        match Fields(s[k + 1..])
        case None => None
        case Some(fs) => Some([s[..k]] + fs)
  }

  /** The reader undoes the quote doubling and stops at the closing quote. */
  lemma {:induction false} UnquoteDoubled(v: string, rest: string)
    requires rest == [] || rest[0] != '"'
    ensures Unquote(Doubled(v) + "\"" + rest) == Some((v, rest))
    decreases |v|
  {
    var s := Doubled(v) + "\"" + rest;
    if |v| == 0 {
      assert s == "\"" + rest;
      assert s[1..] == rest;
    } else if v[0] == '"' {
      UnquoteDoubled(v[1..], rest);
      assert s == "\"\"" + (Doubled(v[1..]) + "\"" + rest);
      assert s[2..] == Doubled(v[1..]) + "\"" + rest;
      assert "\"" + v[1..] == v;
    } else {
      UnquoteDoubled(v[1..], rest);
      assert s == [v[0]] + (Doubled(v[1..]) + "\"" + rest);
      assert s[1..] == Doubled(v[1..]) + "\"" + rest;
      assert [v[0]] + v[1..] == v;
    }
  }

  /** An unquoted field ends at the comma that follows it. */
  lemma {:induction false} CommaAfter(v: string, rest: string)
    requires ',' !in v
    requires rest == [] || rest[0] == ','
    ensures CommaAt(v + rest) == |v|
    decreases |v|
  {
    if |v| > 0 {
      assert (v + rest)[0] == v[0] && v[0] in v;
      assert (v + rest)[1..] == v[1..] + rest;
      assert forall x :: x in v[1..] ==> x in v;
      CommaAfter(v[1..], rest);
    } else {
      assert v + rest == rest;
    }
  }

  /** What may follow a field: the end of the line, or a comma and more
      fields that read as `more`. */
  predicate ReadsOn(rest: string, more: seq<string>) {
    (rest == [] && more == []) || (|rest| > 0 && rest[0] == ',' && Fields(rest[1..]) == Some(more))
  }

  lemma FieldsPlain(v: string, rest: string, more: seq<string>)
    requires !NeedsQuotes(v) && ReadsOn(rest, more)
    ensures Fields(v + rest) == Some([v] + more)
  {
    var s := v + rest;
    CommaAfter(v, rest);
    if |v| > 0 {
      assert s[0] == v[0] && v[0] in v;
    } else if rest != [] {
      assert s[0] == ',';
    }
    assert s[..|v|] == v;
    if rest != [] {
      assert s[|v| + 1..] == rest[1..];
      assert Fields(s[CommaAt(s) + 1..]) == Some(more);
    } else {
      assert s == v && [v] + more == [v];
    }
  }

  lemma FieldsQuoted(v: string, rest: string, more: seq<string>)
    requires ReadsOn(rest, more)
    ensures Fields("\"" + Doubled(v) + "\"" + rest) == Some([v] + more)
  {
    var s := "\"" + Doubled(v) + "\"" + rest;
    UnquoteDoubled(v, rest);
    assert s[0] == '"';
    assert s[1..] == Doubled(v) + "\"" + rest;
    if rest == [] {
      assert [v] + more == [v];
    }
  }

  /** Every written line reads back as the values that were written, when
      there is at least one column. */
  lemma {:induction false} FieldsOfEscaped(vs: seq<string>)
    requires |vs| >= 1
    ensures Fields(Join(Escapes(vs), ",")) == Some(vs)
    decreases |vs|
  {
    var v := vs[0];
    var es := Escapes(vs);
    var rest := if |vs| == 1 then "" else "," + Join(Escapes(vs[1..]), ",");
    var more := vs[1..];
    if |vs| > 1 {
      assert es[1..] == Escapes(vs[1..]);
      FieldsOfEscaped(vs[1..]);
      assert rest[1..] == Join(Escapes(vs[1..]), ",");
    }
    assert ReadsOn(rest, more);
    assert Join(es, ",") == Escaped(v) + rest;
    if NeedsQuotes(v) {
      FieldsQuoted(v, rest, more);
    } else {
      FieldsPlain(v, rest, more);
    }
    assert [v] + more == vs;
  }

  /** Each transaction line reads back as the values its visible columns
      show, commas and quotes included. */
  lemma RowLineFields(row: Row, cols: seq<string>)
    requires |cols| >= 1
    ensures Fields(RowLine(row, cols)) == Some(Cells(row, cols))
  {
    FieldsOfEscaped(Cells(row, cols));
  }

  /** The header line is written without quoting, so it reads back as the
      labels only while no label holds a comma or a quote. */
  lemma HeaderLineFields(headers: Obj<string>, cols: seq<string>)
    requires |cols| >= 1
    requires forall i :: 0 <= i < |cols| ==> !NeedsQuotes(HeaderCells(headers, cols)[i])
    ensures Fields(HeaderLine(headers, cols)) == Some(HeaderCells(headers, cols))
  {
    var hs := HeaderCells(headers, cols);
    assert Escapes(hs) == hs;
    FieldsOfEscaped(hs);
  }

  /** A label renamed to hold a comma splits its header cell in two. */
  lemma HeaderWithComma()
    ensures Fields(HeaderLine([("paidBy", "Paid, by")], ["paidBy"])) == Some(["Paid", " by"])
  {
    var headers := [("paidBy", "Paid, by")];
    var first, second := "Paid", " by";
    var line := first + "," + second;
    assert HeaderName(headers)("paidBy") == line;
    assert HeaderCells(headers, ["paidBy"]) == [line];
    assert HeaderLine(headers, ["paidBy"]) == line;
    FieldsPlain(second, "", []);
    assert second + "" == second;
    assert ("," + second)[1..] == second;
    FieldsPlain(first, "," + second, [second]);
    assert first + ("," + second) == line;
    assert [first] + [second] == ["Paid", " by"];
  }

  lemma {:induction false} JoinWithout(xs: seq<string>, sep: string, c: char)
    requires c !in sep
    requires forall i :: 0 <= i < |xs| ==> c !in xs[i]
    ensures c !in Join(xs, sep)
    decreases |xs|
  {
    if |xs| > 1 {
      JoinWithout(xs[1..], sep, c);
    }
  }

  lemma {:induction false} DoubledWithout(s: string, c: char)
    requires c != '"' && c !in s
    ensures c !in Doubled(s)
    decreases |s|
  {
    if |s| > 0 {
      assert s[0] in s;
      assert forall x :: x in s[1..] ==> x in s;
      DoubledWithout(s[1..], c);
    }
  }

  /** No label and no shown value holds a line break. */
  predicate NoLineBreaks(rows: seq<Row>, cols: seq<string>, headers: Obj<string>) {
    (forall i :: 0 <= i < |cols| ==> '\n' !in HeaderCells(headers, cols)[i])
    && (forall r, i :: 0 <= r < |rows| && 0 <= i < |cols| ==> '\n' !in Cells(rows[r], cols)[i])
  }

  /** When no label and no shown value holds a line break, the CSV text
      splits into the header line followed by exactly one line per
      transaction. (A value with a line break is not quoted, so it would
      split its own line.) */
  lemma CsvLines(rows: seq<Row>, cols: seq<string>, headers: Obj<string>)
    requires NoLineBreaks(rows, cols, headers)
    ensures Split(CsvText(rows, cols, headers), '\n') == Lines(rows, cols, headers)
    ensures |Lines(rows, cols, headers)| == |rows| + 1
  {
    var ls := Lines(rows, cols, headers);
    forall k | 0 <= k < |ls| ensures '\n' !in ls[k] {
      if k == 0 {
        JoinWithout(HeaderCells(headers, cols), ",", '\n');
      } else {
        assert ls[k] == RowLine(rows[k - 1], cols);
        EscapedWithout(Cells(rows[k - 1], cols));
      }
    }
    SplitJoin(ls, '\n');
  }

  /** Quoting adds no line break. */
  lemma EscapedWithout(cs: seq<string>)
    requires forall i :: 0 <= i < |cs| ==> '\n' !in cs[i]
    ensures '\n' !in Join(Escapes(cs), ",")
  {
    forall i | 0 <= i < |cs| ensures '\n' !in Escapes(cs)[i] {
      DoubledWithout(cs[i], '\n');
    }
    JoinWithout(Escapes(cs), ",", '\n');
  }

  /** Line `i + 1` of the CSV text reads back as what transaction `i`
      shows in the visible columns. */
  lemma CsvReadsBack(rows: seq<Row>, cols: seq<string>, headers: Obj<string>, i: nat)
    requires |cols| >= 1 && i < |rows|
    requires NoLineBreaks(rows, cols, headers)
    ensures |Split(CsvText(rows, cols, headers), '\n')| == |rows| + 1
    ensures Fields(Split(CsvText(rows, cols, headers), '\n')[i + 1]) == Some(Cells(rows[i], cols))
  {
    CsvLines(rows, cols, headers);
    RowLineFields(rows[i], cols);
  }

  /** The JSON object of a transaction has one key per distinct label of
      the visible columns, and nothing else; a label holds the value of the
      last visible column with that label, so with distinct labels every
      visible column's value is there, in column order. */
  lemma JsonObjectSpec(row: Row, cols: seq<string>, headers: Obj<string>)
    ensures var o := JsonObject(row, cols, headers);
      (forall k :: k in Keys(o) <==> k in HeaderCells(headers, cols))
      && (forall i :: 0 <= i < |cols| && (forall j :: i < j < |cols| ==> HeaderCells(headers, cols)[j] != HeaderCells(headers, cols)[i]) ==>
            Lookup(o, HeaderCells(headers, cols)[i]) == Some(Get(row, cols[i])))
      && (Distinct(HeaderCells(headers, cols)) ==> Keys(o) == HeaderCells(headers, cols))
  {
    GatherSpec(cols, HeaderName(headers), CellOf(row));
  }

  /** Two visible columns given the same label leave one key, holding the
      later column's value. */
  lemma JsonLabelClash()
    ensures JsonObject([("paidBy", Str("Ann")), ("paidTo", Str("Bob"))], ["paidBy", "paidTo"],
                       [("paidBy", "Party"), ("paidTo", "Party")])
            == [("Party", Str("Bob"))]
  {
    var row: Row := [("paidBy", Str("Ann")), ("paidTo", Str("Bob"))];
    var headers := [("paidBy", "Party"), ("paidTo", "Party")];
    var cols := ["paidBy", "paidTo"];
    assert HeaderName(headers)("paidBy") == "Party";
    assert HeaderName(headers)("paidTo") == "Party";
    assert cols[..1] == ["paidBy"] && cols[..1][..0] == [];
    assert Gather(cols[..1], HeaderName(headers), CellOf(row)) == [("Party", Str("Ann"))];
  }
}
