/** The `CVParserApp` object of the browser client (static/cv_script.js):
    file intake, the outcome of a processing request, and the exports. */
module CvClient {
  import opened Wrappers
  import opened Text
  import Markdown
  import opened Protocol

  /** The parts of a browser `File` the client looks at. */
  datatype FileInfo = FileInfo(name: string, size: nat)

  const AllowedTypes: seq<string> := [".pdf", ".docx", ".doc", ".png", ".jpg", ".jpeg", ".tiff", ".bmp"]

  /** 50 MiB. */
  const MaxSize: nat := 50 * 1024 * 1024

  // ---- file names ---------------------------------------------------------

  /** The index of the last `.` of `name` below `n`, or -1. */
  function LastDotBelow(name: string, n: nat): (k: int)
    requires n <= |name|
    ensures -1 <= k < n
    ensures k >= 0 ==> name[k] == '.'
    ensures forall j :: k < j < n ==> name[j] != '.'
    decreases n
  {
    if n == 0 then -1
    else if name[n - 1] == '.' then n - 1
    else LastDotBelow(name, n - 1)
  }

  /** The index of the first `.` of `name` at or after `i`, or `|name|`. */
  function FirstDotFrom(name: string, i: nat): (k: nat)
    requires i <= |name|
    ensures i <= k <= |name|
    ensures k < |name| ==> name[k] == '.'
    ensures forall j :: i <= j < k ==> name[j] != '.'
    decreases |name| - i
  {
    if i == |name| then i
    else if name[i] == '.' then i
    else FirstDotFrom(name, i + 1)
  }

  /** `name.split('.').pop()`: the text after the last `.`, or the whole name
      when there is none. */
  function AfterLastDot(name: string): string
  {
    name[LastDotBelow(name, |name|) + 1..]
  }

  /** `name.split('.')[0]`: the text before the first `.`, or the whole name
      when there is none. */
  function BeforeFirstDot(name: string): string
  {
    name[..FirstDotFrom(name, 0)]
  }

  /** The extension `handleFileSelect` checks. */
  function ExtensionOf(name: string): string
  {
    "." + Lower(AfterLastDot(name))
  }

  /** What `split('.').pop()` keeps: a tail of the name with no `.`, and a
      `.` (or the start of the name) right before it. */
  lemma AfterLastDotParts(name: string)
    ensures '.' !in AfterLastDot(name)
    ensures |AfterLastDot(name)| <= |name| && AfterLastDot(name) == name[|name| - |AfterLastDot(name)|..]
    ensures AfterLastDot(name) == name || name[|name| - |AfterLastDot(name)| - 1] == '.'
  {
    var k := LastDotBelow(name, |name|);
    var t := name[k + 1..];
    forall j | 0 <= j < |t| ensures t[j] != '.' {
      assert t[j] == name[k + 1 + j];
    }
    assert |t| == |name| - k - 1;
  }

  /** What `split('.')[0]` keeps: no `.`, and a `.` (or the end of the
      name) right after it. */
  lemma BeforeFirstDotParts(name: string)
    ensures '.' !in BeforeFirstDot(name)
    ensures BeforeFirstDot(name) <= name
    ensures BeforeFirstDot(name) == name || name[|BeforeFirstDot(name)|] == '.'
  {
    var f := FirstDotFrom(name, 0);
    var h := name[..f];
    forall j | 0 <= j < |h| ensures h[j] != '.' {
      assert h[j] == name[j];
    }
  }

  /** The extension is taken after the last `.` of the name. */
  lemma ExtensionAfterLastDot(base: string, ext: string)
    requires '.' !in ext
    ensures ExtensionOf(base + "." + ext) == "." + Lower(ext)
  {
    var name := base + "." + ext;
    var k := LastDotBelow(name, |name|);
    assert name[|base|] == '.';
    assert forall j :: |base| < j < |name| ==> name[j] == ext[j - |base| - 1];
    assert forall j :: |base| < j < |name| ==> name[j] != '.' by {
      forall j | |base| < j < |name| ensures name[j] != '.' {
        assert name[j] == ext[j - |base| - 1];
        assert ext[j - |base| - 1] in ext;
      }
    }
    assert k == |base|;
    assert name[k + 1..] == ext;
  }

  /** A name without a `.` counts as its own extension. */
  lemma ExtensionWithoutDot(name: string)
    requires '.' !in name
    ensures ExtensionOf(name) == "." + Lower(name)
  {
    var k := LastDotBelow(name, |name|);
    assert forall j :: 0 <= j < |name| ==> name[j] in name;
    assert k == -1;
  }

  /** Export names keep the text before the first `.` of the name. */
  lemma BaseBeforeFirstDot(base: string, rest: string)
    requires '.' !in base
    ensures BeforeFirstDot(base + "." + rest) == base
  {
    var name := base + "." + rest;
    var f := FirstDotFrom(name, 0);
    assert name[|base|] == '.';
    assert forall j :: 0 <= j < |base| ==> name[j] == base[j] && base[j] in base;
    assert f == |base|;
    assert name[..f] == base;
  }

  /** A name without a `.` is kept whole. */
  lemma BaseWithoutDot(name: string)
    requires '.' !in name
    ensures BeforeFirstDot(name) == name
  {
    var f := FirstDotFrom(name, 0);
    assert forall j :: 0 <= j < |name| ==> name[j] in name;
    assert f == |name|;
  }

  // ---- intake -------------------------------------------------------------

  datatype SelectError = UnsupportedType(extension: string) | FileTooLarge

  function SelectErrorMessage(e: SelectError): string
  {
    match e
    case UnsupportedType(ext) => "Nepodržan tip datoteke: " + ext
    case FileTooLarge => "Datoteka je prevelika. Maksimalna veličina je 50MB."
  }

  /** The two checks of `handleFileSelect`, extension first. */
  function CheckFile(f: FileInfo): (r: Option<SelectError>)
    ensures r.None? <==> ExtensionOf(f.name) in AllowedTypes && f.size <= MaxSize
    ensures ExtensionOf(f.name) !in AllowedTypes ==> r == Some(UnsupportedType(ExtensionOf(f.name)))
    ensures ExtensionOf(f.name) in AllowedTypes && f.size > MaxSize ==> r == Some(FileTooLarge)
  {
    var ext := ExtensionOf(f.name);
    if ext !in AllowedTypes then Some(UnsupportedType(ext))
    else if f.size > MaxSize then Some(FileTooLarge)
    else None
  }

  /** A size equal to the ceiling passes and one byte more fails, for any
      name whose last extension is allowed. */
  lemma SizeCeiling(base: string, ext: string)
    requires '.' !in ext && "." + Lower(ext) in AllowedTypes
    ensures CheckFile(FileInfo(base + "." + ext, MaxSize)) == None
    ensures CheckFile(FileInfo(base + "." + ext, MaxSize + 1)) == Some(FileTooLarge)
  {
    ExtensionAfterLastDot(base, ext);
  }

  lemma UpperPdfExtension()
    ensures ExtensionOf("PDF") == ".pdf"
  {
    ExtensionWithoutDot("PDF");
    assert Lower("PDF") == "pdf";
  }

  /** A file named just `PDF` counts as a PDF and is accepted at the ceiling. */
  lemma DotlessNameAccepted()
    ensures CheckFile(FileInfo("PDF", MaxSize)) == None
  {
    UpperPdfExtension();
    assert AllowedTypes[0] == ".pdf";
  }

  // ---- request outcome ----------------------------------------------------

  const NoFileMessage: string := "Molimo odaberite datoteku prvo."
  const DefaultFailureMessage: string := "Obrađa CV-a neuspješna"
  const NetworkErrorMessage: string := "Mrežna greška. Molimo pokušajte ponovo."

  /** `result.error || 'Obrađa CV-a neuspješna'`: an empty string is falsy. */
  function FailureMessage(body: ResponseBody): (m: string)
    ensures m != ""
    ensures body.error.Some? && body.error.value != "" ==> m == body.error.value
    ensures body.error.None? || body.error.value == "" ==> m == DefaultFailureMessage
  {
    match body.error
    case Some(e) => if e != "" then e else DefaultFailureMessage
    case None => DefaultFailureMessage
  }

  datatype Verdict = Store(body: ResponseBody) | Report(message: string)

  /** Which branch of `processCV` an outcome takes: the result is kept only
      when `response.ok && result.success`. */
  function Classify(outcome: RequestOutcome): (v: Verdict)
    ensures v.Store? <==> outcome.Responded? && outcome.ok && outcome.body.success
    ensures v.Store? ==> v.body == outcome.body
    ensures outcome.Threw? ==> v == Report(NetworkErrorMessage)
    ensures outcome.Responded? && v.Report? ==> v.message == FailureMessage(outcome.body)
  {
    match outcome
    case Threw => Report(NetworkErrorMessage)
    case Responded(ok, body) => if ok && body.success then Store(body) else Report(FailureMessage(body))
  }

  /** A server-reported error reaches the user word for word; without one, or
      with an empty one, the default text is shown. */
  lemma ReportedErrors(ok: bool, e: string)
    requires e != ""
    ensures Classify(Responded(ok, ErrorBody(e))) == Report(e)
    ensures Classify(Responded(ok, ErrorBody(""))) == Report(DefaultFailureMessage)
    ensures Classify(Responded(false, ResponseBody(true, None, None, None, None, None, None))) == Report(DefaultFailureMessage)
  {
  }

  /** What the three result panes show. */
  datatype ResultsView = ResultsView(processedHtml: string, rawData: Option<string>, text: Option<string>)

  /** What the user sees after `processCV`. */
  datatype ProcessReport = NotSent(message: string) | Displayed(view: ResultsView) | ErrorShown(message: string)

  // ---- exports ------------------------------------------------------------

  function MarkdownFileName(name: string): string { BeforeFirstDot(name) + "_processed.md" }
  function HtmlFileName(name: string): string { BeforeFirstDot(name) + "_profile.html" }

  /** Export names keep the text before the first `.` and nothing after it:
      `resume.pdf` gives `resume_processed.md` and `resume_profile.html`. */
  lemma ExportNames(base: string, rest: string)
    requires '.' !in base
    ensures MarkdownFileName(base + "." + rest) == base + "_processed.md"
    ensures HtmlFileName(base + "." + rest) == base + "_profile.html"
  {
    BaseBeforeFirstDot(base, rest);
  }

  lemma PdfAfterTwoDots()
    ensures ExtensionOf("my.cv.pdf") == ".pdf"
  {
    ExtensionAfterLastDot("my.cv", "pdf");
    assert "my.cv" + "." + "pdf" == "my.cv.pdf";
    assert Lower("pdf") == "pdf";
  }

  /** With two dots, the export name stops at the first one while the
      extension check reads past the last one. */
  lemma FirstDotAndLastDot()
    ensures MarkdownFileName("my.cv.pdf") == "my_processed.md"
    ensures ExtensionOf("my.cv.pdf") == ".pdf"
  {
    BaseBeforeFirstDot("my", "cv.pdf");
    PdfAfterTwoDots();
  }

  /** The document shell around the exported markup (lines 287-307). */
  const HtmlHead: string :=
    "\n<!DOCTYPE html>\n<html lang=\"hr\">\n<head>\n" +
    "    <meta charset=\"UTF-8\">\n" +
    "    <meta name=\"viewport\" content=\"width=device-width, initial-scale=1.0\">\n" +
    "    <title>CV Profil</title>\n" +
    "    <style>\n" +
    "        body { font-family: -apple-system, BlinkMacSystemFont, 'Segoe UI', Roboto, sans-serif; max-width: 800px; margin: 0 auto; padding: 2rem; line-height: 1.6; }\n" +
    "        h1 { color: #2563eb; border-bottom: 2px solid #2563eb; padding-bottom: 0.5rem; }\n" +
    "        h2 { color: #374151; margin-top: 2rem; }\n" +
    "        h3 { color: #6b7280; }\n" +
    "        ul { margin: 1rem 0; }\n" +
    "        li { margin-bottom: 0.5rem; }\n" +
    "        strong { color: #1f2937; }\n" +
    "    </style>\n</head>\n<body>\n    "
  const HtmlTail: string := "\n</body>\n</html>"

  /** The text a `Blob` holds for a JSON value: `null` becomes "null". */
  function BlobText(v: Option<string>): string
  {
    match v
    case Some(s) => s
    case None => "null"
  }

  /** What a download action hands to `downloadFile`, or that it does nothing
      or throws a TypeError. */
  datatype Export = NothingToExport | Exported(fileName: string, content: string, mimeType: string) | ExportThrew

  // ---- the application object ---------------------------------------------

  class CVParserApp {
    var selectedFile: Option<FileInfo>
    var processingResults: Option<ResponseBody>

    /** A selected file has always passed both checks. */
    ghost predicate Valid()
      reads this
    {
      selectedFile.Some? ==> CheckFile(selectedFile.value).None?
    }

    constructor()
      ensures Valid()
      ensures selectedFile == None && processingResults == None
    {
      selectedFile := None;
      processingResults := None;
    }

    /** `handleFileSelect(file)`; returns the message `showError` displays. */
    method HandleFileSelect(file: Option<FileInfo>) returns (shown: Option<string>)
      requires Valid()
      modifies this
      ensures Valid()
      ensures processingResults == old(processingResults)
      ensures file.None? ==> shown == None && selectedFile == old(selectedFile)
      ensures file.Some? && CheckFile(file.value).Some? ==>
        shown == Some(SelectErrorMessage(CheckFile(file.value).value)) && selectedFile == old(selectedFile)
      ensures file.Some? && CheckFile(file.value).None? ==> shown == None && selectedFile == file
    {
      if file.None? {
        return None;
      }
      var f := file.value;
      var fileExtension := "." + Lower(f.name[LastDotBelow(f.name, |f.name|) + 1..]);
      if fileExtension !in AllowedTypes {
        return Some("Nepodržan tip datoteke: " + fileExtension);
      }
      if f.size > MaxSize {
        return Some("Datoteka je prevelika. Maksimalna veličina je 50MB.");
      }
      selectedFile := Some(f);
      shown := None;
    }

    /** `removeFile()`: clears the selection and keeps the last result. */
    method RemoveFile()
      modifies this
      ensures Valid()
      ensures selectedFile == None
      ensures processingResults == old(processingResults)
    {
      selectedFile := None;
    }

    /** `displayResults(result)`: stores the result, then renders it. Rendering
        a `null` processed markdown throws (None). */
    method DisplayResults(result: ResponseBody) returns (view: Option<ResultsView>)
      requires Valid()
      modifies this
      ensures Valid()
      ensures selectedFile == old(selectedFile)
      ensures processingResults == Some(result)
      ensures result.processedMarkdown.None? ==> view == None
      ensures result.processedMarkdown.Some? ==>
        view == Some(ResultsView(Markdown.MarkdownToHtml(result.processedMarkdown.value), result.rawData, result.text))
    {
      processingResults := Some(result);
      match result.processedMarkdown
      case None =>
        view := None;
      case Some(markdown) =>
        view := Some(ResultsView(Markdown.MarkdownToHtml(markdown), result.rawData, result.text));
    }

    /** `processCV()`, with the outcome of the request it would issue given as
        `outcome`; with no file selected no request is issued and `outcome`
        is not consulted. */
    method ProcessCV(outcome: RequestOutcome) returns (report: ProcessReport)
      requires Valid()
      modifies this
      ensures Valid()
      ensures selectedFile == old(selectedFile)
      ensures old(selectedFile).None? ==>
        report == NotSent(NoFileMessage) && processingResults == old(processingResults)
      ensures old(selectedFile).Some? && Classify(outcome).Report? ==>
        report == ErrorShown(Classify(outcome).message) && processingResults == old(processingResults)
      ensures old(selectedFile).Some? && Classify(outcome).Store? ==>
        processingResults == Some(outcome.body)
      ensures old(selectedFile).Some? && Classify(outcome).Store? && outcome.body.processedMarkdown.None? ==>
        report == ErrorShown(NetworkErrorMessage)
      ensures old(selectedFile).Some? && Classify(outcome).Store? && outcome.body.processedMarkdown.Some? ==>
        report == Displayed(ResultsView(Markdown.MarkdownToHtml(outcome.body.processedMarkdown.value),
                                        outcome.body.rawData, outcome.body.text))
    {
      if selectedFile.None? {
        return NotSent(NoFileMessage);
      }
      match outcome
      case Threw =>
        report := ErrorShown(NetworkErrorMessage);
      case Responded(ok, result) =>
        if ok && result.success {
          var view := DisplayResults(result);
          if view.None? {
            // markdownToHtml(null) throws inside the try block
            report := ErrorShown(NetworkErrorMessage);
          } else {
            report := Displayed(view.value);
          }
        } else {
          var errorMessage := match result.error
            case Some(e) => if e != "" then e else DefaultFailureMessage
            case None => DefaultFailureMessage;
          report := ErrorShown(errorMessage);
        }
    }

    /** `downloadMarkdown()`. */
    method DownloadMarkdown() returns (e: Export)
      ensures processingResults.None? ==> e == NothingToExport
      ensures processingResults.Some? && selectedFile.None? ==> e == ExportThrew
      ensures processingResults.Some? && selectedFile.Some? ==>
        e == Exported(MarkdownFileName(selectedFile.value.name),
                      BlobText(processingResults.value.processedMarkdown), "text/markdown")
    {
      if processingResults.None? {
        return NothingToExport;
      }
      var content := processingResults.value.processedMarkdown;
      if selectedFile.None? {
        return ExportThrew;
      }
      var fileName := selectedFile.value.name[..FirstDotFrom(selectedFile.value.name, 0)] + "_processed.md";
      e := Exported(fileName, BlobText(content), "text/markdown");
    }

    /** `downloadHTML()`: the rendered markup inside the document shell. */
    method DownloadHtml() returns (e: Export)
      ensures processingResults.None? ==> e == NothingToExport
      ensures processingResults.Some? && (selectedFile.None? || processingResults.value.processedMarkdown.None?) ==>
        e == ExportThrew
      ensures processingResults.Some? && selectedFile.Some? && processingResults.value.processedMarkdown.Some? ==>
        e == Exported(HtmlFileName(selectedFile.value.name),
                      HtmlHead + Markdown.MarkdownToHtml(processingResults.value.processedMarkdown.value) + HtmlTail,
                      "text/html")
    {
      if processingResults.None? {
        return NothingToExport;
      }
      var markdown := processingResults.value.processedMarkdown;
      if markdown.None? {
        return ExportThrew;
      }
      var html := Markdown.MarkdownToHtml(markdown.value);
      var fullHtml := HtmlHead + html + HtmlTail;
      if selectedFile.None? {
        return ExportThrew;
      }
      var fileName := selectedFile.value.name[..FirstDotFrom(selectedFile.value.name, 0)] + "_profile.html";
      e := Exported(fileName, fullHtml, "text/html");
    }

    /** `copyToClipboard()`: the text handed to the clipboard, if any. */
    method CopyToClipboard() returns (copied: Option<string>)
      ensures processingResults.None? ==> copied == None
      ensures processingResults.Some? ==> copied == Some(BlobText(processingResults.value.processedMarkdown))
    {
      if processingResults.None? {
        return None;
      }
      copied := Some(BlobText(processingResults.value.processedMarkdown));
    }
  }
}
