/** components/smart-export-options.tsx: the CSV, JSON and "Excel" export
    buttons. Unlike the other export components there is no guard on an
    empty list, and the Excel button writes the CSV.
 */
module SmartExportOptions {
  import opened Scan
  import opened Text
  import opened Objects
  import opened Export

  /** `handleExportCSV`. */
  function HandleExportCsv(transactions: seq<Row>, cols: seq<string>, headers: Obj<string>): string {
    CsvText(transactions, cols, headers)
  }

  /** `handleExportJSON`. */
  function HandleExportJson(transactions: seq<Row>, cols: seq<string>, headers: Obj<string>): seq<Obj<Cell>> {
    JsonObjects(transactions, cols, headers)
  }

  /** `handleExportExcel`. */
  function HandleExportExcel(transactions: seq<Row>, cols: seq<string>, headers: Obj<string>): string {
    HandleExportCsv(transactions, cols, headers)
  }

  /** The Excel export is the CSV export. With no transaction the CSV is
      still written and holds the header line alone; otherwise it has one
      more line per transaction, each reading back as what the transaction
      shows (when nothing holds a line break). */
  lemma SmartExportSpec(transactions: seq<Row>, cols: seq<string>, headers: Obj<string>)
    requires |cols| >= 1 && NoLineBreaks(transactions, cols, headers)
    ensures HandleExportExcel(transactions, cols, headers) == HandleExportCsv(transactions, cols, headers)
    ensures transactions == [] ==> HandleExportCsv(transactions, cols, headers) == HeaderLine(headers, cols)
    ensures Split(HandleExportCsv(transactions, cols, headers), '\n') == Lines(transactions, cols, headers)
    ensures forall i :: 0 <= i < |transactions| ==>
      Fields(Split(HandleExportCsv(transactions, cols, headers), '\n')[i + 1]) == Some(Cells(transactions[i], cols))
  {
    CsvLines(transactions, cols, headers);
    forall i | 0 <= i < |transactions|
      ensures Fields(Split(HandleExportCsv(transactions, cols, headers), '\n')[i + 1]) == Some(Cells(transactions[i], cols))
    {
      CsvReadsBack(transactions, cols, headers, i);
    }
  }
}
