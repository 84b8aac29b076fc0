# Transaction extractor, modelled in Dafny

The system turns chat exports, email text and bank-statement PDFs into
transaction records. Each record has a date, an amount, a type, a
reference, a payer, a payee and a purpose. It also has a small React front
end that previews, sorts, renames and exports those records.

This project models the extraction route `app/api/extract/route.ts` and the
front-end components that handle the records:

- **Request dispatch.** `POST` chooses the extractor from the `source` field,
  or uses the custom template when one is sent (`dispatch.dfy`).
- **WhatsApp.** Chat lines are segmented into messages (`segmenter.dfy`,
  `segmenter_facts.dfy`). Each message then goes through the gatekeeper and
  the field extractors (`whatsapp.dfy`).
- **Shared helpers.**
  - The flexible and Telegram amount readers (`amounts.dfy`, `amount_facts.dfy`).
  - The reference-code scanner (`codes.dfy`) and the two type classifiers (`classify.dfy`).
  - The purpose heuristic (`purpose.dfy`) and `formatDateTime` (`datetime.dfy`).
  - The paybill and payer/payee anchors (`entities.dfy`, `entity_facts.dfy`).
- **The other extractors.** Custom templates (`custom_template.dfy`),
  Telegram (`telegram.dfy`), PDF statements (`pdf.dfy`) and email
  (`email.dfy`).
- **Front end.**
  - CSV and JSON export (`export.dfy`, `export_options.dfy`, `smart_export.dfy`).
  - The preview dashboard (`preview_dashboard.dfy`), the column customizer
    (`column_customizer.dfy`) and the sortable table (`transaction_table.dfy`).
  - The template builder (`template_builder.dfy`) and the multi-file upload
    queue (`multi_file_upload.dfy`).

Every regular expression of the core is written out as a scanner. Each
scanner follows JavaScript's leftmost match with backtracking: lazy
quantifiers take the shortest end that lets the rest match, and greedy ones
give characters back one at a time. `i`-flag matching folds ASCII letters
only, as JavaScript does without the `u` flag.

Amounts are exact decimals (`Numbers.Decimal`). A JavaScript number is
`NaN` or a finite decimal. `String(n)` and `parseFloat` are written out for
plain (non-exponent) notation.

Each loop of the source is a Dafny `method` proved equal to a function fold
over the lines. The properties are proved about that fold. State the
components keep between events (the template list, the upload queue) is a
`class` whose methods keep an invariant. The table sort is an insertion sort
on an `array`.

Shared modules:

- `scan.dfy`: leftmost search.
- `text.dfy`: split, join, trim, case folding.
- `numbers.dfy`: decimals, `parseFloat`, `String(n)`.
- `objects.dfy`: JavaScript objects as ordered key lists, and `Array.filter`.
- `records.dfy`: the transaction record.

## Model

| member | source | states |
|---|---|---|
| Dispatch.RespondSpec | app/api/extract/route.ts:29-66 | A malformed template string gives the 500 response. Otherwise a missing file gives the 400 response. Otherwise the transactions are the template's records when a template was sent; the PDF, Telegram, email or WhatsApp records for sources "pdf", "telegram", "email" and anything else |
| Dispatch.Post | app/api/extract/route.ts:29-66 | The handler's response is the one `Respond` describes |
| Dispatch.Extract | app/api/extract/route.ts:43-59 | The extractor call runs the extractor the template and source select, through each extractor's own loop |
| Segmenter.SegmentLines | app/api/extract/route.ts:132-172 | The line loop with the open message and its buffer yields exactly the blocks opened by the header lines |
| Segmenter.ParseChatToObjects | app/api/extract/route.ts:127-173 | The messages are the blocks of the text split at "\n" |
| Segmenter.OneMessagePerHeader | app/api/extract/route.ts:136-170 | Every header line opens exactly one message, in order, and no other line does; lines before the first header open nothing |
| Segmenter.BlockContent | app/api/extract/route.ts:139-170 | A message's content is the header's text after the match, then each following non-header line after a "\n"; its date and sender are the header's and its original string is the header line |
| Segmenter.BlocksSkip | app/api/extract/route.ts:158-163 | Lines that are not headers change nothing ahead of them |
| SegmenterFacts.CanonicalOpening | app/api/extract/route.ts:130-157 | "D/M/Y, H:MM - SENDER: TEXT" with 1–2 digit day and month, 2–4 digit year and a sender without colon or line break opens a message dated "Y-MM-DD H:MM", from SENDER, whose content starts with TEXT |
| DateTime.DayMonthYear | app/api/extract/route.ts:624-643 | A date of three parts split by "/" or "-" becomes year, padded month, padded day, then the cleaned time |
| DateTime.UndividedDate | app/api/extract/route.ts:638-644 | A date with no "/" or "-" is kept as it is before the cleaned time |
| DateTime.CleanTime | app/api/extract/route.ts:627-633 | The cleaned time has no dash, only plain spaces, and none at either end |
| DateTime.CleanTimeKeepsPlainTime | app/api/extract/route.ts:627-633 | A time that is already clean and names no informal phrase is unchanged |
| DateTime.AfternoonIsPM | app/api/extract/route.ts:625-633 | A clock reading followed by " in the afternoon" is cleaned to the reading followed by " PM" |
| DateTime.PadStart2 | app/api/extract/route.ts:642 | A value of two or more UTF-16 units is unchanged; a shorter one is left-filled with "0" to exactly two units and ends with the value |
| DateTime.TwoDigits | app/api/extract/route.ts:642 | A one- or two-digit day or month pads to exactly two digits |
| WhatsApp.CleanContent | app/api/extract/route.ts:81-84 | The cleaned content holds only single plain spaces, none at either end |
| WhatsApp.RecordWith | app/api/extract/route.ts:78-120 | Under a given amount reader, a message yields a record exactly when the cleaned content passes the gatekeeper and the reader finds a non-zero amount. The record has the message date, that amount, the WhatsApp label, the first code or "MANUAL" when there is none, the parties `EntitiesOf` gives, and the purpose `PurposeFromContext` gives |
| WhatsApp.ReadersDifferOnlyInAmount | app/api/extract/route.ts:78-120 | The records of the program as written (`RecordAsWritten`) and with whole numbers read (`RecordOf`) differ at most in the amount, and not at all when the message holds a "k" shorthand |
| WhatsApp.SameReading | app/api/extract/route.ts:78-120 | Two readers that read a message's cleaned content alike give it the same record |
| WhatsApp.MessageRecord | app/api/extract/route.ts:78-120 | The loop body for one message computes `RecordWith` under the reader it is given |
| WhatsApp.SourcesCount | app/api/extract/route.ts:77-121 | There is one source message per record, each before the end; there are never more records than messages |
| WhatsApp.SourcesMatch | app/api/extract/route.ts:77-121 | The k-th record is what its source message yields, given the raw content of the message after it |
| WhatsApp.SourcesOrdered | app/api/extract/route.ts:77-121 | The source positions increase strictly, and every message that yields a record is one of them |
| WhatsApp.ExtractWhatsAppTransactions | app/api/extract/route.ts:70-124 | The loop over the messages returns the records of the chat export under the reader it is given: `FlexibleAmountAsWritten` gives the program as written (`WhatsAppRecordsAsWritten`) |
| Amounts.FlexibleAmountAsWritten | app/api/extract/route.ts:175-197 | The first rule that finds anything decides: the shorthand, else the prefix rule as written, else the suffix rule as written; a value found is finite |
| Amounts.FlexibleAmount | app/api/extract/route.ts:175-197 | The same order of rules, with the corrected prefix and suffix rules |
| Amounts.TimesThousand | app/api/extract/route.ts:180 | Multiplying by 1000 keeps NaN as NaN and scales a finite value by exactly 1000 |
| Amounts.TelegramAmount | app/api/extract/route.ts:567-573 | The Telegram amount is null exactly when no currency code is followed by a number |
| AmountFacts.PrefixRoundTrip | app/api/extract/route.ts:183-188 | With the corrected rules, any amount printed after "Ksh", "KES", "USD", "GBP", "EUR", "UGX" or "TZS" and a space reads back as that amount |
| AmountFacts.SuffixReadsWhole | app/api/extract/route.ts:190-194 | With the corrected rules, a number text before " Ksh" is read whole |
| AmountFacts.SuffixRoundTrip | app/api/extract/route.ts:190-194 | With the corrected rules, any amount printed before " Ksh" reads back as that amount |
| AmountFacts.ShorthandValue | app/api/extract/route.ts:176-181 | "<digits>k" is worth 1000 times the digits |
| AmountFacts.ShorthandAfterLead | app/api/extract/route.ts:178 | A numeral with an optional fraction, then "k" or "K" and a non-word character or the end, after a lead that ends in a space and holds no earlier shorthand, is the shorthand found, and is worth 1000 times the numeral |
| AmountFacts.ShorthandWins | app/api/extract/route.ts:176-181 | Such a shorthand is the amount under both readers, whatever currency and number the lead names |
| AmountFacts.FractionalShorthand | app/api/extract/route.ts:176-181 | "10.5K" is 10500 under both readers |
| AmountFacts.ShorthandBeforePrefix | app/api/extract/route.ts:176-188 | In "Ksh 500 for 2k" the prefix rule alone reads 500, but the shorthand comes first and both readers give 2000 |
| AmountFacts.NoShorthandInsideWord | app/api/extract/route.ts:176-195 | "AB20K9" has no amount under either reader: the "20K" stands inside a word and no currency is named |
| AmountFacts.PrefixBeforeRest | app/api/extract/route.ts:185-188 | With the corrected rules, a plain numeral after a currency code and a space, followed by anything that cannot continue a numeral, is read whole |
| AmountFacts.StripGroupComma | app/api/extract/route.ts:187 | Removing the commas of "A,B" gives "AB" |
| AmountFacts.CommaTextReads | app/api/extract/route.ts:187 | A numeral with a thousands comma is read as its digits without the comma |
| AmountFacts.CommaGroupEnd | app/api/extract/route.ts:185 | One to three digits, a comma and three digits are matched whole by the grouped numeral pattern, and by the corrected one |
| AmountFacts.CommaGroupRead | app/api/extract/route.ts:185-188 | "CODE A,BBB" with a currency code reads as the number AB under both readers: "Ksh 12,500" is 12500 |
| AmountFacts.NoShorthand | app/api/extract/route.ts:178 | No shorthand is found unless a "k" or "K" directly follows a digit |
| AmountFacts.NoDigitNoAmount | app/api/extract/route.ts:175-197 | A text without digits has no amount, under both the rules as written and the corrected rules |
| AmountFacts.PrefixAsWrittenCutsAtThree | app/api/extract/route.ts:185-187 | As written, the prefix rule reads a plain numeral of four or more digits as its first three digits |
| AmountFacts.SuffixAsWrittenKeepsLastThree | app/api/extract/route.ts:191-193 | As written, the suffix rule reads a plain numeral of four or more digits as its last three digits |
| AmountFacts.AsWrittenMisreadsThousand | app/api/extract/route.ts:185-193 | As written, "Ksh 1000" reads as 100 and "1000 Ksh" as 0 |
| AmountFacts.CorrectedReadsThousand | app/api/extract/route.ts:185-193 | The corrected rules read both "Ksh 1000" and "1000 Ksh" as 1000 |
| AmountFacts.TelegramRoundTrip | app/api/extract/route.ts:567-573 | Any amount printed after a Telegram currency code and a space reads back as that amount |
| Codes.ExtractCode | app/api/extract/route.ts:575-578 | A code found is 8 to 12 capital letters and digits |
| Codes.CodeAtIsStandalone | app/api/extract/route.ts:576 | The scanner finds a code at a position exactly when 8–12 capitals and digits stand there with no word character on either side |
| Codes.ExtractCodeSpec | app/api/extract/route.ts:562-578 | A code is found exactly when a standalone code exists, and then it is the leftmost one |
| Codes.CodeFirstInMessage | app/api/extract/route.ts:575-578 | A message that starts with a code and a space yields that code |
| Classify.WhatsAppType | app/api/extract/route.ts:102-106 | The type is a label other than card or cheque. It is "M-PESA" exactly when an M-PESA word occurs. It is "Other" exactly when no keyword of any branch occurs |
| Classify.DetectTransactionType | app/api/extract/route.ts:553-560 | The type is a label other than "Cash". It is "Bank Transfer" exactly when a bank word occurs. It is "Other" exactly when no keyword of any branch occurs |
| Classify.ClassifiersDisagree | app/api/extract/route.ts:103-104 | A message naming both "mpesa" and "bank" is M-PESA for WhatsApp and a bank transfer for the shared classifier |
| Purpose.PurposeFromContext | app/api/extract/route.ts:198-223 | The purpose is trimmed. A "for" clause longer than three UTF-16 units wins, trimmed. Otherwise a present, non-empty next message that reads as a note once trimmed (no transaction words; shorter than 150 units or naming a purpose keyword) is the purpose, trimmed. Otherwise it is "General / See Reference" |
| Purpose.ForClauseFound | app/api/extract/route.ts:200 | In "W for CLAUSE", under the same conditions as below, the "for" pattern captures the whole clause |
| Purpose.ForClausePurpose | app/api/extract/route.ts:200-203 | In "W for CLAUSE", where W holds no "f" in either case and CLAUSE has at least four characters, no dot or line break, and starts with a non-space, the purpose is the trimmed clause, whatever the next message says |
| Entities.PaybillDestination | app/api/extract/route.ts:514-551 | A destination is found exactly when one of the two paybill patterns matches, and its account is one or more letters and digits. The first pattern wins, and its destination is the group trimmed, its whitespace collapsed, the first "Paybill Account" and then the first "Paybill" removed in either case, and trimmed again. Otherwise the second pattern's group is trimmed and collapsed |
| Entities.CleanDestination | app/api/extract/route.ts:521-528 | The cleaned destination has no space at either end |
| Entities.Directional | app/api/extract/route.ts:593-615 | A captured name is trimmed |
| Entities.Tidy | app/api/extract/route.ts:618-619 | Collapsing whitespace and trimming leaves only single plain spaces, none at either end |
| Entities.Directions | app/api/extract/route.ts:589-621 | Without a paybill match, the payer is the tidied "received from" name, else the tidied sender. The payee is the tidied "given to" name, else the "paid to" name, else the "sent to" name, else "". Both are tidy |
| Entities.EntitiesOf | app/api/extract/route.ts:580-622 | With a paybill match the payer is the sender and the payee is "DESTINATION - Account No: ACCOUNT". Without one the parties are those of `Directions` |
| Entities.ExtractEntities | app/api/extract/route.ts:580-622 | The anchors applied one after another give `EntitiesOf` |
| EntityFacts.CleanPlainName | app/api/extract/route.ts:525-528 | Cleaning leaves a plain name unchanged |
| EntityFacts.PaybillMessage | app/api/extract/route.ts:514-534 | "paid to NAME for account ACCOUNT" gives the sender as payer and "NAME - Account No: ACCOUNT" as payee, when ACCOUNT is letters and digits and NAME is letters and digits in which no two adjacent characters begin "LIMITED", "STORE", "BANK", "ACCOUNT", "for" or "Paybill" in either case |
| EntityFacts.CleanPaybillWord | app/api/extract/route.ts:521-528 | Cleaning "NAME Paybill" removes the word and leaves NAME, for such a name |
| EntityFacts.PaybillWordMessage | app/api/extract/route.ts:514-534 | "paid to NAME Paybill for account ACCOUNT" gives the sender as payer and "NAME - Account No: ACCOUNT" as payee |
| EntityFacts.KplcPaybill | app/api/extract/route.ts:584-587 | "paid to KPLC Paybill for account 123" gives the sender and "KPLC - Account No: 123" |
| CustomTemplate.Try | app/api/extract/route.ts:237-247 | An empty pattern is not tried |
| CustomTemplate.Fill | app/api/extract/route.ts:249-260 | Without an amount pattern the pending amount is unchanged |
| CustomTemplate.Emit | app/api/extract/route.ts:298-307 | The record is "Custom" with the pending non-zero amount. Its date falls back to the clock and its reference to the template name. Its purpose is the trimmed line |
| CustomTemplate.StepSpec | app/api/extract/route.ts:234-311 | A blank line changes nothing. Any other line fills the pending record. It emits exactly when the filled record is complete, and then the record starts again empty |
| CustomTemplate.RunLength | app/api/extract/route.ts:234-312 | At most one record per line |
| CustomTemplate.CustomRecordsAreCustom | app/api/extract/route.ts:298-310 | Every record is "Custom" with a non-zero amount |
| CustomTemplate.NoAmountPatternNoRecords | app/api/extract/route.ts:249-298 | A template without an amount pattern yields no records |
| CustomTemplate.ApplyPatterns | app/api/extract/route.ts:237-296 | The five pattern tests compute `Fill` |
| CustomTemplate.LineStep | app/api/extract/route.ts:235-311 | The loop body computes one step |
| CustomTemplate.RunLines | app/api/extract/route.ts:231-312 | The loop computes the fold of the steps over the lines |
| CustomTemplate.ExtractWithCustomTemplate | app/api/extract/route.ts:227-318 | The extractor returns the template's records for the text |
| Telegram.LineRecordSpec | app/api/extract/route.ts:328-353 | A line gives a record exactly when it is not skipped, names a money word, a date has been seen, and its amount is non-zero. The record has the running date, that amount, the shared classifier's type, the trimmed line as purpose, the line's first code or "TG" when it has none, and the user parameter or "Telegram User" |
| Telegram.DateIsLatest | app/api/extract/route.ts:324-333 | The running date is "" exactly when no line so far is dated. Otherwise it is the date of the last dated line |
| Telegram.RunningDate | app/api/extract/route.ts:328-333 | The running date is the date match of the last dated, non-skipped line read so far |
| Telegram.AtMostOnePerLine | app/api/extract/route.ts:326-355 | At most one record per line |
| Telegram.TelegramRecordsWellFormed | app/api/extract/route.ts:320-358 | Every record has a non-zero amount, a date, an empty payee, and "TG" or a standalone code as reference. A text without dated lines has no records |
| Telegram.TelegramLine | app/api/extract/route.ts:327-353 | The loop body updates the running date and computes the line's record |
| Telegram.ExtractTelegramTransactions | app/api/extract/route.ts:320-358 | The extractor returns the fold over the lines |
| Pdf.FilteredChars | app/api/extract/route.ts:363-371 | The text has no more characters than there were bytes, only printable ASCII, "\n" and "\r", and every byte in order when all are kept |
| Pdf.FilterBytes | app/api/extract/route.ts:363-371 | The byte loop builds the filtered text |
| Pdf.TokenRecord | app/api/extract/route.ts:386-401 | A record is made exactly when the last amount is above zero. It carries the date and that amount, "Bank Statement", "Bank" as payer and an empty payee. Its purpose is the line without the date and the token, trimmed, or "Bank Transaction" when that is empty. Its reference is the line's first code, or "PDF" when it has none |
| Pdf.LineRecordSpec | app/api/extract/route.ts:376-405 | A line gives a record exactly when it has a date and an amount token whose last one is above zero. The record carries the first date and the last amount |
| Pdf.PdfRecordsShape | app/api/extract/route.ts:360-409 | At most one record per line of the filtered text, each a bank-statement record |
| Pdf.StatementLines | app/api/extract/route.ts:373-406 | The line loop computes the fold of the line records |
| Pdf.ExtractPdfTransactions | app/api/extract/route.ts:360-409 | The extractor returns the records of the bytes |
| Email.StepSpec | app/api/extract/route.ts:420-477 | Headers are read first. A line emits exactly when the filled pending record is complete, and then the pending record starts again empty. Nothing else is added |
| Email.StepShape | app/api/extract/route.ts:431-477 | A step keeps every record well formed, keeps the pending reference 6–12 characters, and leaves no complete pending record behind |
| Email.RunShape | app/api/extract/route.ts:420-478 | At most one record per line, every record well formed, and no complete pending record outlives its line |
| Email.FinishSpec | app/api/extract/route.ts:480-495 | Records found in the body are kept as they are. Without any, at most one fallback record comes from the subject, with status "Completed", the subject as purpose, the sender address as payer, and "EMAIL" or the subject's code |
| Email.FillFields | app/api/extract/route.ts:431-457 | The five field tests compute `Fill` |
| Email.EmailLine | app/api/extract/route.ts:420-477 | The loop body computes one step |
| Email.FinishRecords | app/api/extract/route.ts:480-495 | The fallback code computes `Finish` |
| Email.ExtractEmailTransactions | app/api/extract/route.ts:411-498 | The extractor returns the records of the text |
| Numbers.ParseNumberText | app/api/extract/route.ts:187 | `parseFloat` of a printed number gives the number back |
| Objects.FilterSubsequence | components/column-customizer.tsx:29 | The filtered array is a subsequence of the array |
| Objects.FilterOut | components/column-customizer.tsx:29 | Filtering out one element between parts that pass leaves the two parts joined |
| Objects.PutSpec | components/preview-dashboard.tsx:39-42 | Assigning a property sets it, leaves every other one alone, and adds a key at the end only when the key is new |
| Objects.FilterSpec | components/column-customizer.tsx:29 | A filter keeps exactly the elements that pass, each as often as it was there, as a subsequence of the array (in the order they stand there). It never lengthens the array and keeps all of it exactly when every element passes |
| Export.ShownSpec | components/preview-dashboard.tsx:59 | A cell shows "" exactly when it is falsy. A truthy string shows itself. A truthy number shows its printed form, which has no comma or quote |
| Export.FieldsOfEscaped | components/export-options.tsx:32-40 | A line of quoted fields joined by commas reads back as the values written |
| Export.RowLineFields | components/export-options.tsx:31-41 | A transaction line reads back as the values its visible columns show, commas and quotes included |
| Export.HeaderLineFields | components/preview-dashboard.tsx:51-53 | The unquoted header line reads back as the labels when no label holds a comma or a quote |
| Export.HeaderWithComma | components/preview-dashboard.tsx:51-53 | A label "Paid, by" splits its header cell in two |
| Export.CsvLines | components/preview-dashboard.tsx:52-66 | Splitting the CSV text at "\n" gives the header line and one line per transaction, when nothing holds a line break |
| Export.CsvReadsBack | components/preview-dashboard.tsx:52-66 | Line i+1 of the CSV reads back as what transaction i shows |
| Export.JsonObjectSpec | components/export-options.tsx:56-64 | The keys are the visible labels. Each label not reused by a later column holds its column's value. With distinct labels the keys follow column order |
| Export.JsonLabelClash | components/export-options.tsx:57-60 | Two columns with the same label leave one key, holding the later value |
| ExportOptions.HandleExportSpec | components/export-options.tsx:17-64 | No transactions means no download. "csv" gives a CSV whose lines read back as the transactions. Any other format gives one JSON object per transaction, keyed by the labels |
| SmartExportOptions.SmartExportSpec | components/smart-export-options.tsx:28-69 | "Excel" is the CSV. With no transactions the CSV is the header line. Each CSV line reads back as its transaction |
| PreviewDashboard.LabelSpec | components/preview-dashboard.tsx:24-33 | A label keeps the key's length, capitalises the first character, and has no "_" after it. Labelling twice changes nothing |
| PreviewDashboard.InitialHeadersSpec | components/preview-dashboard.tsx:21-34 | The label object has the first transaction's keys, each under its label |
| PreviewDashboard.ProjectSpec | components/preview-dashboard.tsx:36-45 | A projected transaction has exactly the visible columns, each with the transaction's value, `undefined` included |
| PreviewDashboard.DownloadCsvSpec | components/preview-dashboard.tsx:47-66 | No transactions means no download, else the CSV of the transactions |
| ColumnCustomizer.HideSpec | components/column-customizer.tsx:23-29 | Hiding a column removes every occurrence and keeps every other column as often as it was there, in the order they were in |
| ColumnCustomizer.HideOne | components/column-customizer.tsx:23-29 | Hiding a column shown once between others leaves those before and after it as they were, joined |
| ColumnCustomizer.ShowSpec | components/column-customizer.tsx:30-34 | Showing a column gives the label keys that were visible or are that column, as a subsequence of the label keys |
| ColumnCustomizer.HideThenShow | components/column-customizer.tsx:23-35 | With columns in label order, hiding then showing a column restores the list |
| ColumnCustomizer.RenameSpec | components/column-customizer.tsx:37-42 | Renaming sets that label, keeps every other one, and adds a new key at the end |
| TransactionTable.NextSortCycle | components/transaction-table.tsx:31-38 | A new key sorts ascending, ascending turns descending, descending turns off, and three clicks restore the state |
| TransactionTable.SortedSpec | components/transaction-table.tsx:19-26 | The sorted rows are a permutation of the rows, and are ordered when the column holds one kind of value |
| TransactionTable.DisplayedSpec | components/transaction-table.tsx:16-29 | Without a sort the rows are unchanged. With one they are a permutation, non-decreasing for "asc" and non-increasing for "desc" |
| TransactionTable.InsertAt | components/transaction-table.tsx:19-26 | One insertion step places the next row into the sorted prefix and leaves the rest of the array alone |
| TransactionTable.SortInPlace | components/transaction-table.tsx:19-26 | Sorting the array in place gives `Sorted` of its old contents |
| TransactionTable.SortedTransactions | components/transaction-table.tsx:16-29 | A fresh copy, sorted when a sort is set |
| TemplateBuilder.FromFormSpec | components/template-builder.tsx:66-75 | A new template is never a built-in and carries the form's fields |
| TemplateBuilder.DeleteSpec | components/template-builder.tsx:90-96 | Deleting drops every template with that id, keeps each other one as often as it was there and in the order it was in, and keeps the built-ins at the front |
| TemplateBuilder.DeleteOne | components/template-builder.tsx:90-96 | Deleting the one template with an id leaves the templates before and after it as they were, joined |
| TemplateBuilder.AddThenDelete | components/template-builder.tsx:77-95 | Deleting a template just added, whose id is new, restores the list |
| TemplateBuilder.Builder.AddTemplate | components/template-builder.tsx:60-88 | An incomplete form raises the alert and changes nothing. A complete one is appended, and the form is emptied and closed. The built-ins stay at the front |
| TemplateBuilder.Builder.DeleteTemplate | components/template-builder.tsx:90-96 | A built-in id raises the alert and changes nothing. Any other id is filtered out |
| MultiFileUpload.SplitFormats | components/multi-file-upload.tsx:31-36 | Splitting the accepted formats at "," gives the source's extensions |
| MultiFileUpload.AcceptedSpec | components/multi-file-upload.tsx:66-69 | A file is accepted exactly when its name ends with ".txt" for WhatsApp; ".txt" or ".eml" for email; ".txt" or ".json" for Telegram; ".pdf" for PDF |
| MultiFileUpload.AcceptSpec | components/multi-file-upload.tsx:65-73 | The accepted files are exactly the offered files that pass, each as often as offered and in the order offered. Fewer are accepted than offered exactly when some offered file fails |
| MultiFileUpload.RemoveSpec | components/multi-file-upload.tsx:85-87 | Removing drops every entry with that id and keeps the others, in the queue's order |
| MultiFileUpload.Uploader.AddFiles | components/multi-file-upload.tsx:65-83 | Accepted files join the end of the queue in order as pending entries. The error is set only when a file was skipped |
| MultiFileUpload.Uploader.Drop | components/multi-file-upload.tsx:47-57 | The error is cleared first, then the files are added |
| MultiFileUpload.Uploader.ProcessFiles | components/multi-file-upload.tsx:89-93 | Nothing is handed on when the queue is empty; otherwise the whole queue is |

## Left out

- **File handling and I/O.**
  - Reading the upload, building the response, and the `console.error` logging are left out.
  - A file is given as its text and its bytes.
  - `file.text()`'s UTF-8 decoding is not modelled.
- **The clock.**
  - `new Date().toISOString()` is a string parameter `now`.
  - `Date.now()` is a number parameter.
  - `Math.random()` in upload ids is the parameter `ids`.
- **`JSON.parse` of the template field.** It is a parameter that returns a parsed template, no template, or a failure.
- **Template regular expressions.** The custom template's user-supplied patterns are an abstract matcher. It reports an invalid pattern, no match, or the whole match and first group. The built-in regular expressions are all written out.
- **`extractTelegramUser`.** It is the parameter `user`, from the running date to a name, because its pattern runs on the whole export text.
- **Number formatting.** IEEE floating-point rounding and `String(n)` in exponent notation are out of scope; amounts are exact decimals.
- **Case folding.** Case-insensitive matching and `toUpperCase` fold ASCII letters only. Beyond ASCII, `Label` keeps the character.
- **The table's comparator.**
  - Comparing a string with a number, `undefined` or `null` treats neither as smaller.
  - The sort is proved ordered only when the column holds one kind of value.
  - JavaScript's sort is replaced by a stable insertion sort, so equal rows keep their order.
  - `TransactionTable.StrLess` compares strings by code point. JavaScript compares UTF-16 code units, so characters above U+FFFF order differently from those in U+E000–U+FFFF.
- **`Object.keys`.** Keys come in insertion order; the integer-like-key reordering is not modelled.
- **Component rendering.**
  - React rendering, drag state, download links and `alert` are left out; handlers return the alert text or the download contents instead.
  - Modal, help, analytics, filters and page layout are not part of this model.
- Amounts.FlexibleAmount: reads whole numbers with the corrected prefix and suffix rules (see Findings). The rules exactly as written are `Amounts.FlexibleAmountAsWritten`.
- WhatsApp.RecordOf: reads amounts with the corrected rules, so "Ksh 1500 sent to Bob" has amount 1500 where the program reads 150. The record as written is `WhatsApp.RecordAsWritten`, and `WhatsApp.ReadersDifferOnlyInAmount` shows that only the amount can differ.
- WhatsApp.ExtractWhatsAppTransactions: `Dispatch` runs it with the corrected reader. Run with `Amounts.FlexibleAmountAsWritten` it computes `WhatsApp.WhatsAppRecordsAsWritten`, the program as written.
- Dispatch.RespondSpec: the WhatsApp branch gives `WhatsApp.WhatsAppRecords`, the records under the corrected amount rules.
- Email.ExtractEmailTransactions: the subject fallback (route.ts:480-495) emits a record even when the subject's first run of digits and commas is only commas. That record's amount is NaN, and the model keeps it.
- Pdf.LineRecordSpec: the statement date itself holds amount-shaped tokens. A line with only a date can yield a record whose amount is read from the year; the model follows the code.
- Telegram.LineRecordSpec: the type comes from the shared `detectTransactionType` (route.ts:340), so Telegram records carry its labels.
- Entities.Directional: the contract states only that the capture is trimmed. Where each anchor stops is defined by the scanners. The paybill cases are proved in `EntityFacts.PaybillMessage` and `EntityFacts.PaybillWordMessage`.
- Codes.ExtractCode: the contract states only the shape of the code. Leftmost and standalone are stated in `Codes.ExtractCodeSpec`.

## Findings

| source | as written | input that shows it | evidently intended | confidence | as-written member | corrected member |
|---|---|---|---|---|---|---|
| app/api/extract/route.ts:185-191 | The prefix and suffix rules capture `[0-9]{1,3}(?:,[0-9]{3})*` with no anchor. A numeral of four or more digits without thousands commas is cut to its first three digits after the code, or its last three before it | "Ksh 1000" gives 100; "1000 Ksh" gives 0 | Read the whole number: 1000 in both cases | not executed | AmountFacts.AsWrittenMisreadsThousand | AmountFacts.CorrectedReadsThousand |
