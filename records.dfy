/** The transaction record every pipeline of app/api/extract/route.ts
    produces. The source types it as a string-keyed dictionary; the
    pipelines always fill the same seven keys, and the email pipeline adds
    "Status".
 */
module Records {
  import opened Scan
  import opened Numbers

  datatype Txn = Txn(
    date: string,
    amount: JsNumber,
    kind: string,
    reference: string,
    paidBy: string,
    paidTo: string,
    purpose: string,
    status: Option<string>)
}
