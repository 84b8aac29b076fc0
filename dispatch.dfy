/** The `POST` handler of app/api/extract/route.ts, reduced to its decision:
    which extractor runs on the uploaded file, and when the request fails.

    The form fields arrive already read. The file's text and its bytes are
    both given: decoding the bytes as UTF-8 is not part of this model. The
    JSON parse of the template field, the pattern engine, the clock and the
    Telegram user lookup are parameters.
 */
module Dispatch {
  import opened Scan
  import opened Records
  import CustomTemplate
  import Pdf
  import Telegram
  import Email
  import WhatsApp
  import Amounts

  datatype Upload = Upload(name: string, text: string, bytes: seq<Pdf.byte>)

  /** What `JSON.parse` makes of a non-empty template field: an exception,
      a falsy value (`null`, `false`, `0`, `""`), or a template object whose
      missing patterns read as "". */
  datatype ParsedTemplate = Malformed | Falsy | Parsed(t: CustomTemplate.Template)

  /** The form: the file if any, the `source` field ("" when absent) and
      the `template` field ("" when absent). */
  datatype Request = Request(file: Option<Upload>, source: string, template: string)

  datatype Response = Records(transactions: seq<Txn>) | Failure(status: int, error: string)

  datatype Env = Env(
    parse: string -> ParsedTemplate,
    matcher: CustomTemplate.Matcher,
    now: string,
    /** `extractTelegramUser(text, date)`. */
    user: (string, string) -> string)

  const NoFile := Failure(400, "No file provided")
  const Failed := Failure(500, "Failed to process file")

  /** `templateStr ? JSON.parse(templateStr) : null`. */
  function TemplateOf(env: Env, field: string): ParsedTemplate {
    if field == "" then Falsy else env.parse(field)
  }

  /** `source || "whatsapp"`. */
  function SourceOf(field: string): string {
    if field == "" then "whatsapp" else field
  }

  /** The Telegram user lookup on the uploaded text. */
  function UserOf(env: Env, f: Upload): string -> string {
    (d: string) => env.user(f.text, d)
  }

  /** The extractor a request with a file runs. */
  function Extracted(env: Env, t: ParsedTemplate, source: string, f: Upload): seq<Txn> {
    if t.Parsed? then CustomTemplate.CustomRecords(f.text, CustomTemplate.Config(t.t, env.matcher, env.now))
    else if source == "pdf" then Pdf.PdfRecords(f.bytes)
    else if source == "telegram" then Telegram.TelegramRecords(f.text, UserOf(env, f))
    else if source == "email" then Email.EmailRecords(f.text, env.now)
    else WhatsApp.WhatsAppRecords(f.text)
  }

  /** The response to a request. The template is parsed before the file
      is checked, so a malformed template fails with 500 even without a
      file. */
  function Respond(env: Env, req: Request): Response {
    var t := TemplateOf(env, req.template);
    if t.Malformed? then Failed
    else if req.file.None? then NoFile
    else Records(Extracted(env, t, SourceOf(req.source), req.file.value))
  }

  /** The decision: a malformed template fails with 500; otherwise a
      missing file fails with 400; otherwise the request succeeds, a parsed
      template takes precedence over the source, "pdf", "telegram" and
      "email" pick their extractors, and any source other than "pdf", "telegram" and
      "email" (an absent one included) means WhatsApp. */
  lemma RespondSpec(env: Env, req: Request)
    ensures var t := TemplateOf(env, req.template);
      var r := Respond(env, req);
      (r == Failed <==> t.Malformed?)
      && (r == NoFile <==> !t.Malformed? && req.file.None?)
      && (r.Records? <==> !t.Malformed? && req.file.Some?)
      && (r.Records? && t.Parsed? ==>
            r.transactions == CustomTemplate.CustomRecords(req.file.value.text, CustomTemplate.Config(t.t, env.matcher, env.now)))
      && (r.Records? && !t.Parsed? && req.source == "pdf" ==> r.transactions == Pdf.PdfRecords(req.file.value.bytes))
      && (r.Records? && !t.Parsed? && req.source == "telegram" ==>
            r.transactions == Telegram.TelegramRecords(req.file.value.text, UserOf(env, req.file.value)))
      && (r.Records? && !t.Parsed? && req.source == "email" ==>
            r.transactions == Email.EmailRecords(req.file.value.text, env.now))
      && (r.Records? && !t.Parsed? && req.source !in {"pdf", "telegram", "email"} ==>
            r.transactions == WhatsApp.WhatsAppRecords(req.file.value.text))
  {
    var t := TemplateOf(env, req.template);
    if !t.Malformed? && req.file.Some? && !t.Parsed? {
      var source := SourceOf(req.source);
      assert req.source !in {"pdf", "telegram", "email"} ==> source !in {"pdf", "telegram", "email"};
    }
  }

  /** The extractor call, through the extractors' own loops. */
  method Extract(env: Env, t: ParsedTemplate, source: string, f: Upload) returns (records: seq<Txn>)
    ensures records == Extracted(env, t, source, f)
  {
    if t.Parsed? {
      records := CustomTemplate.ExtractWithCustomTemplate(f.text, CustomTemplate.Config(t.t, env.matcher, env.now));
    } else if source == "pdf" {
      records := Pdf.ExtractPdfTransactions(f.bytes);
    } else if source == "telegram" {
      records := Telegram.ExtractTelegramTransactions(f.text, UserOf(env, f));
    } else if source == "email" {
      records := Email.ExtractEmailTransactions(f.text, env.now);
    } else {
      records := WhatsApp.ExtractWhatsAppTransactions(f.text, Amounts.FlexibleAmount);
    }
  }

  /** `POST`. */
  method Post(env: Env, req: Request) returns (response: Response)
    ensures response == Respond(env, req)
  {
    var t := TemplateOf(env, req.template);
    var source := SourceOf(req.source);
    if t.Malformed? {
      return Failed;
    }
    if req.file.None? {
      return NoFile;
    }
    var records := Extract(env, t, source, req.file.value);
    response := Records(records);
  }
}
