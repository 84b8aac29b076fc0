/** components/preview-dashboard.tsx: the labels the dashboard starts with,
    the projection of each transaction onto the visible columns, and the
    CSV download of the projected transactions.
 */
module PreviewDashboard {
  import opened Scan
  import opened Text
  import opened Objects
  import opened Export

  /** Every `_` read as a space (`replace(/_/g, " ")`). */
  function Spaced(s: string): (r: string)
    ensures |r| == |s|
    ensures forall i :: 0 <= i < |s| ==> r[i] == if s[i] == '_' then ' ' else s[i]
  {
    seq(|s|, i requires 0 <= i < |s| => if s[i] == '_' then ' ' else s[i])
  }

  /** The initial label of a key: `charAt(0).toUpperCase()` followed by the
      rest of the key with every `_` read as a space. */
  function Label(key: string): string {
    if |key| == 0 then "" else [Upper(key[0])] + Spaced(key[1..])
  }

  /** A label has the key's length, starts with the key's first character
      upper-cased and has no `_` after it; labelling a label changes
      nothing. */
  lemma LabelSpec(key: string)
    ensures |Label(key)| == |key|
    ensures |key| > 0 ==> Label(key)[0] == Upper(key[0])
    ensures forall i :: 0 < i < |key| ==> Label(key)[i] != '_'
    ensures Label(Label(key)) == Label(key)
  {
    if |key| > 0 {
      var l := Label(key);
      assert l[1..] == Spaced(key[1..]);
      assert Spaced(l[1..]) == l[1..];
    }
  }

  function Itself(k: string): string { k }

  /** The visible columns at the start: the keys of the first transaction. */
  function InitialColumns(transactions: seq<Row>): seq<string> {
    if |transactions| == 0 then [] else Keys(transactions[0])
  }

  /** The labels at the start: each key of the first transaction under its
      initial label. */
  function InitialHeaders(transactions: seq<Row>): Obj<string> {
    Gather(InitialColumns(transactions), Itself, Label)
  }

  lemma RenamedItself(cols: seq<string>)
    ensures Renamed(cols, Itself) == cols
  {
    assert forall i :: 0 <= i < |cols| ==> Renamed(cols, Itself)[i] == Itself(cols[i]);
  }

  /** The last place at which `k` occurs in `cols`. */
  lemma LastPlace(cols: seq<string>, k: string) returns (i: nat)
    requires k in cols
    ensures i < |cols| && cols[i] == k
    ensures forall j :: i < j < |cols| ==> cols[j] != k
  {
    i := |cols| - 1;
    while cols[i] != k
      invariant i < |cols|
      invariant k in cols[..i + 1]
      invariant forall j :: i < j < |cols| ==> cols[j] != k
      decreases i
    {
      assert cols[..i + 1] == cols[..i] + [cols[i]];
      i := i - 1;
    }
  }

  /** The labels start out as one entry per key of the first transaction,
      in the same order, each holding that key's initial label; with no
      transactions there are none. */
  lemma InitialHeadersSpec(transactions: seq<Row>)
    requires transactions != [] ==> Distinct(Keys(transactions[0]))
    ensures var h := InitialHeaders(transactions);
      Keys(h) == InitialColumns(transactions)
      && forall k :: k in Keys(h) ==> Lookup(h, k) == Some(Label(k))
  {
    var cols := InitialColumns(transactions);
    RenamedItself(cols);
    GatherSpec(cols, Itself, Label);
    forall k | k in Keys(InitialHeaders(transactions))
      ensures Lookup(InitialHeaders(transactions), k) == Some(Label(k))
    {
      var i := LastPlace(cols, k);
    }
  }

  /** One transaction reduced to the visible columns. */
  function Project(row: Row, cols: seq<string>): Row {
    Gather(cols, Itself, CellOf(row))
  }

  /** `filteredTransactions`. */
  function FilteredTransactions(transactions: seq<Row>, cols: seq<string>): (r: seq<Row>)
    ensures |r| == |transactions|
  {
    seq(|transactions|, i requires 0 <= i < |transactions| => Project(transactions[i], cols))
  }

  /** A projected transaction has exactly the visible columns as keys (in
      their order when they are distinct), each holding the transaction's
      own value, `undefined` included; it reads as undefined elsewhere. */
  lemma ProjectSpec(row: Row, cols: seq<string>)
    ensures var p := Project(row, cols);
      (forall k :: k in Keys(p) <==> k in cols)
      && (Distinct(cols) ==> Keys(p) == cols)
      && (forall k :: k in cols ==> Lookup(p, k) == Some(Get(row, k)))
      && (forall k :: Get(p, k) == if k in cols then Get(row, k) else Missing)
  {
    var p := Project(row, cols);
    RenamedItself(cols);
    GatherSpec(cols, Itself, CellOf(row));
    forall k | k in cols ensures Lookup(p, k) == Some(Get(row, k)) {
      var i := LastPlace(cols, k);
    }
    forall k | k !in cols ensures Lookup(p, k) == None {
      LookupPresent(p, k);
    }
  }

  /** `handleDownloadCSV`: nothing when there is no transaction, else the
      CSV of the projected transactions. */
  function DownloadCsv(transactions: seq<Row>, cols: seq<string>, headers: Obj<string>): Option<string> {
    var filtered := FilteredTransactions(transactions, cols);
    if |filtered| == 0 then None else Some(CsvText(filtered, cols, headers))
  }

  /** Projecting first does not change what the CSV says: the download is
      the CSV of the transactions themselves, and there is one exactly when
      there is a transaction. */
  lemma DownloadCsvSpec(transactions: seq<Row>, cols: seq<string>, headers: Obj<string>)
    ensures DownloadCsv(transactions, cols, headers)
      == if |transactions| == 0 then None else Some(CsvText(transactions, cols, headers))
  {
    var filtered := FilteredTransactions(transactions, cols);
    forall r | 0 <= r < |transactions| ensures Cells(filtered[r], cols) == Cells(transactions[r], cols) {
      ProjectSpec(transactions[r], cols);
    }
    assert Lines(filtered, cols, headers) == Lines(transactions, cols, headers);
  }
}
