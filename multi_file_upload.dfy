/** components/multi-file-upload.tsx: the queue of files to process, the
    source they are read as, and the error shown when a file is skipped.
    A file is accepted when its name ends with one of the extensions the
    selected source takes.

    Only a file's name matters here. The id of a new entry
    (`${Date.now()}-${Math.random()}`) is a parameter: `ids(i)` is the id
    the `i`-th accepted file of one call gets.
 */
module MultiFileUpload {
  import opened Scan
  import opened Text
  import opened Objects

  datatype Source = WhatsAppSource | EmailSource | TelegramSource | PdfSource
  datatype Status = Pending | Processing | Done | Failed
  datatype File = File(name: string)
  datatype Entry = Entry(id: string, file: File, source: Source, status: Status)

  /** The source as the component names it. */
  function SourceName(s: Source): string {
    match s
    case WhatsAppSource => "whatsapp"
    case EmailSource => "email"
    case TelegramSource => "telegram"
    case PdfSource => "pdf"
  }

  const Txt := ".txt"
  const Eml := ".eml"
  const Json := ".json"
  const Pdf := ".pdf"

  /** The extensions a source takes, one piece per extension. */
  function Formats(s: Source): seq<string> {
    match s
    case WhatsAppSource => [Txt]
    case EmailSource => [Txt, Eml]
    case TelegramSource => [Txt, Json]
    case PdfSource => [Pdf]
  }

  /** `acceptedFormats`: ".txt", ".txt,.eml", ".txt,.json" or ".pdf". */
  function AcceptedFormats(s: Source): string {
    match s
    case WhatsAppSource => Txt
    case EmailSource => Txt + [','] + Eml
    case TelegramSource => Txt + [','] + Json
    case PdfSource => Pdf
  }

  /** `acceptedFormats.split(",").some((fmt) => name.endsWith(fmt))`. */
  predicate Accepted(s: Source, name: string) {
    var formats := Split(AcceptedFormats(s), ',');
    exists i :: 0 <= i < |formats| && EndsWith(name, formats[i])
  }

  /** Splitting the formats at the commas gives back the extensions. */
  lemma {:induction false} SplitFormats(s: Source)
    ensures Split(AcceptedFormats(s), ',') == Formats(s)
  {
    var pieces := Formats(s);
    assert Join(pieces, [',']) == AcceptedFormats(s);
    SplitJoin(pieces, ',');
  }

  /** A name is accepted exactly when it ends with one of the extensions
      the source takes: ".txt" for WhatsApp, ".txt" or ".eml" for email,
      ".txt" or ".json" for Telegram, ".pdf" for PDF. */
  lemma AcceptedSpec(s: Source, name: string)
    ensures Accepted(s, name) <==> exists i :: 0 <= i < |Formats(s)| && EndsWith(name, Formats(s)[i])
    ensures Accepted(s, name) <==> match s
      case WhatsAppSource => EndsWith(name, ".txt")
      case EmailSource => EndsWith(name, ".txt") || EndsWith(name, ".eml")
      case TelegramSource => EndsWith(name, ".txt") || EndsWith(name, ".json")
      case PdfSource => EndsWith(name, ".pdf")
  {
    SplitFormats(s);
    var f := Formats(s);
    assert EndsWith(name, f[0]) ==> Accepted(s, name);
    assert |f| == 2 ==> (EndsWith(name, f[1]) ==> Accepted(s, name));
  }

  function AcceptedBy(s: Source): File -> bool {
    (f: File) => Accepted(s, f.name)
  }

  /** The queue entries for newly accepted files. */
  function NewEntries(valid: seq<File>, s: Source, ids: nat -> string): (r: seq<Entry>)
    ensures |r| == |valid|
  {
    seq(|valid|, i requires 0 <= i < |valid| => Entry(ids(i), valid[i], s, Pending))
  }

  /** The message shown when a file is skipped. */
  function SkippedMessage(s: Source): string {
    "Some files were skipped. Only " + AcceptedFormats(s) + " files are accepted for " + SourceName(s) + "."
  }

  function OtherId(id: string): Entry -> bool {
    (e: Entry) => e.id != id
  }

  /** The accepted files are exactly the offered files whose names end
      with an accepted extension, each as often as it was offered and in the
      order offered; some file is skipped exactly when fewer are accepted
      than offered. */
  lemma AcceptSpec(newFiles: seq<File>, s: Source)
    ensures var valid := Filter(newFiles, AcceptedBy(s));
      (forall f :: multiset(valid)[f] == if Accepted(s, f.name) then multiset(newFiles)[f] else 0)
      && Subsequence(valid, newFiles)
      && (|valid| != |newFiles| <==> exists i :: 0 <= i < |newFiles| && !Accepted(s, newFiles[i].name))
  {
    FilterSpec(newFiles, AcceptedBy(s));
  }

  /** A removal drops every entry with that id and keeps the others, as
      often as they were there and in the queue's order. */
  lemma RemoveSpec(files: seq<Entry>, id: string)
    ensures var r := Filter(files, OtherId(id));
      (forall e :: multiset(r)[e] == if e.id == id then 0 else multiset(files)[e])
      && (forall e :: e in r ==> e.id != id)
      && Subsequence(r, files)
  {
    FilterSpec(files, OtherId(id));
  }

  class Uploader {
    var files: seq<Entry>
    var selectedSource: Source
    var error: string

    constructor()
      ensures files == [] && selectedSource == WhatsAppSource && error == ""
    {
      files := [];
      selectedSource := WhatsAppSource;
      error := "";
    }

    /** The source selector. */
    method SelectSource(s: Source)
      modifies this
      ensures selectedSource == s && files == old(files) && error == old(error)
    {
      selectedSource := s;
    }

    /** `addFiles`: the accepted files join the end of the queue, in the
      order offered, as pending entries of the selected source; the error
      is set when a file was skipped and left as it was otherwise. */
    method AddFiles(newFiles: seq<File>, ids: nat -> string)
      modifies this
      ensures var valid := Filter(newFiles, AcceptedBy(old(selectedSource)));
        files == old(files) + NewEntries(valid, old(selectedSource), ids)
        && error == (if |valid| != |newFiles| then SkippedMessage(old(selectedSource)) else old(error))
      ensures selectedSource == old(selectedSource)
    {
      var valid := Filter(newFiles, AcceptedBy(selectedSource));
      if |valid| != |newFiles| {
        error := SkippedMessage(selectedSource);
      }
      files := files + NewEntries(valid, selectedSource, ids);
    }

    /** `handleDrop`: the error is cleared before the files are added. */
    method Drop(newFiles: seq<File>, ids: nat -> string)
      modifies this
      ensures var valid := Filter(newFiles, AcceptedBy(old(selectedSource)));
        files == old(files) + NewEntries(valid, old(selectedSource), ids)
        && error == (if |valid| != |newFiles| then SkippedMessage(old(selectedSource)) else "")
      ensures selectedSource == old(selectedSource)
    {
      error := "";
      AddFiles(newFiles, ids);
    }

    /** `removeFile(id)`. */
    method RemoveFile(id: string)
      modifies this
      ensures files == Filter(old(files), OtherId(id))
      ensures selectedSource == old(selectedSource) && error == old(error)
    {
      files := Filter(files, OtherId(id));
    }

    /** `processFiles`: the queue handed on to be processed, or nothing when
      it is empty. */
    method ProcessFiles() returns (ready: Option<seq<Entry>>)
      ensures ready.None? <==> |files| == 0
      ensures ready.Some? ==> ready.value == files
    {
      if |files| == 0 {
        return None;
      }
      ready := Some(files);
    }
  }
}
