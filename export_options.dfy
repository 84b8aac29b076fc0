/** components/export-options.tsx: the export buttons. `handleExport` does
    nothing without transactions, and otherwise writes the CSV for the
    format "csv" and the JSON for any other.
 */
module ExportOptions {
  import opened Scan
  import opened Text
  import opened Objects
  import opened Export

  /** What an export hands to the browser to download. */
  datatype Download = CsvFile(text: string) | JsonFile(objects: seq<Obj<Cell>>)

  /** `exportAsCSV`. */
  function ExportAsCsv(transactions: seq<Row>, cols: seq<string>, headers: Obj<string>): Download {
    CsvFile(CsvText(transactions, cols, headers))
  }

  /** `exportAsJSON`. */
  function ExportAsJson(transactions: seq<Row>, cols: seq<string>, headers: Obj<string>): Download {
    JsonFile(JsonObjects(transactions, cols, headers))
  }

  /** `handleExport(format)`. */
  function HandleExport(format: string, transactions: seq<Row>, cols: seq<string>, headers: Obj<string>): Option<Download> {
    if |transactions| == 0 then None
    else if format == "csv" then Some(ExportAsCsv(transactions, cols, headers))
    else Some(ExportAsJson(transactions, cols, headers))
  }

  /** Nothing is exported without a transaction. With one, "csv" gives a
      CSV file with a header line and one line per transaction, each
      reading back as the values the transaction shows (when nothing holds
      a line break), and any other format gives one JSON object per
      transaction, holding the visible columns under their labels. */
  lemma HandleExportSpec(format: string, transactions: seq<Row>, cols: seq<string>, headers: Obj<string>)
    requires |cols| >= 1 && NoLineBreaks(transactions, cols, headers)
    ensures var d := HandleExport(format, transactions, cols, headers);
      (d.None? <==> |transactions| == 0)
      && (d.Some? ==> (d.value.CsvFile? <==> format == "csv"))
      && (d.Some? && d.value.CsvFile? ==>
            |Split(d.value.text, '\n')| == |transactions| + 1
            && forall i :: 0 <= i < |transactions| ==>
                 Fields(Split(d.value.text, '\n')[i + 1]) == Some(Cells(transactions[i], cols)))
      && (d.Some? && d.value.JsonFile? ==>
            |d.value.objects| == |transactions|
            && forall i, k :: 0 <= i < |transactions| ==>
                 (k in Keys(d.value.objects[i]) <==> k in HeaderCells(headers, cols)))
  {
    var d := HandleExport(format, transactions, cols, headers);
    if d.Some? && d.value.CsvFile? {
      CsvLines(transactions, cols, headers);
      forall i | 0 <= i < |transactions|
        ensures Fields(Split(d.value.text, '\n')[i + 1]) == Some(Cells(transactions[i], cols))
      {
        CsvReadsBack(transactions, cols, headers, i);
      }
    }
    if d.Some? && d.value.JsonFile? {
      forall i | 0 <= i < |transactions|
        ensures forall k :: k in Keys(d.value.objects[i]) <==> k in HeaderCells(headers, cols)
      {
        JsonObjectSpec(transactions[i], cols, headers);
      }
    }
  }
}
