/**
 * The summariser view: it keeps the input text, the summary, the summary
 * level, the chosen PDF files, an error message and a loading flag, and
 * sends the text, the level and the files to the summarisation service.
 */
module SummarizerView {
  import opened Base
  import opened Strings

  const DefaultLevel := "summary"
  const NetworkNotOk := "Network response was not ok"
  const ErrorPrefix := "Error: "
  const FileSeparator := ", "

  /** A PDF file chosen in the browser's file input. */
  datatype PdfFile = PdfFile(name: string)

  /** One entry of the multipart form. */
  datatype FormEntry = TextEntry(key: string, value: string) | FileEntry(key: string, file: PdfFile)

  /**
   * How the request ends: an ok reply with its `summary`, a reply that is
   * not ok with the `error` field of its body (absent or not), or an
   * exception with its name and message.
   */
  datatype SummarizeOutcome =
    | Succeeded(summary: string)
    | Rejected(error: Option<string>)
    | Threw(name: string, message: string)

  /** The names of the files, in order. */
  function FileNames(files: seq<PdfFile>): seq<string> {
    seq(|files|, i requires 0 <= i < |files| => files[i].name)
  }

  /** The message of the exception a failed request ends in. */
  function FailureMessage(outcome: SummarizeOutcome): (message: string)
    requires !outcome.Succeeded?
    ensures outcome.Rejected? ==> message != ""
    ensures message == "" ==> outcome == Threw("", "")
  {
    match outcome
    case Rejected(error) =>
      // `throw new Error(errorData.error || 'Network response was not ok')`
      if error.Some? && error.value != "" then error.value else NetworkNotOk
    case Threw(name, message) =>
      // `error.message || error`: an empty message shows the exception's name.
      if message != "" then message else name
  }

  /** The error text the view shows after a failed request. */
  function FailureText(outcome: SummarizeOutcome): (text: string)
    requires !outcome.Succeeded?
    ensures |text| >= |ErrorPrefix| && text[..|ErrorPrefix|] == ErrorPrefix
    ensures outcome.Rejected? ==> |text| > |ErrorPrefix|
    ensures outcome.Rejected? && (outcome.error == None || outcome.error == Some("")) ==> text == ErrorPrefix + NetworkNotOk
    ensures outcome.Rejected? && outcome.error.Some? && outcome.error.value != "" ==> text == ErrorPrefix + outcome.error.value
    ensures outcome.Threw? ==> text == ErrorPrefix + (if outcome.message != "" then outcome.message else outcome.name)
  {
    ErrorPrefix + FailureMessage(outcome)
  }

  /** The view's state. */
  class Summarizer {
    var text: string
    var summary: string
    var summaryLevel: string
    var pdfFiles: seq<PdfFile>
    var error: string
    var isLoading: bool

    constructor ()
      ensures text == "" && summary == "" && summaryLevel == DefaultLevel
      ensures pdfFiles == [] && error == "" && !isLoading
    {
      text, summary, summaryLevel := "", "", DefaultLevel;
      pdfFiles, error, isLoading := [], "", false;
    }

    /** The form `handleSummarize` sends: the text, the level, then one `pdf_files` entry per file. */
    method BuildForm() returns (form: seq<FormEntry>)
      ensures |form| == 2 + |pdfFiles|
      ensures form[0] == TextEntry("texts", text) && form[1] == TextEntry("summary_level", summaryLevel)
      ensures forall i :: 0 <= i < |pdfFiles| ==> form[2 + i] == FileEntry("pdf_files", pdfFiles[i])
    {
      form := [TextEntry("texts", text), TextEntry("summary_level", summaryLevel)];
      for i := 0 to |pdfFiles|
        invariant |form| == 2 + i
        invariant form[0] == TextEntry("texts", text) && form[1] == TextEntry("summary_level", summaryLevel)
        invariant forall k :: 0 <= k < i ==> form[2 + k] == FileEntry("pdf_files", pdfFiles[k])
      {
        form := form + [FileEntry("pdf_files", pdfFiles[i])];
      }
    }

    /** The start of `handleSummarize`, before the request is made. */
    method StartSummarize() returns (form: seq<FormEntry>)
      modifies this
      ensures error == "" && isLoading
      ensures text == old(text) && summary == old(summary) && summaryLevel == old(summaryLevel) && pdfFiles == old(pdfFiles)
      ensures |form| == 2 + |pdfFiles|
      ensures form[0] == TextEntry("texts", text) && form[1] == TextEntry("summary_level", summaryLevel)
      ensures forall i :: 0 <= i < |pdfFiles| ==> form[2 + i] == FileEntry("pdf_files", pdfFiles[i])
    {
      error := "";
      isLoading := true;
      form := BuildForm();
    }

    /** The end of `handleSummarize`, once the request has ended in `outcome`. */
    method FinishSummarize(outcome: SummarizeOutcome)
      modifies this
      ensures !isLoading
      ensures text == old(text) && summaryLevel == old(summaryLevel) && pdfFiles == old(pdfFiles)
      ensures outcome.Succeeded? ==> summary == outcome.summary && error == old(error)
      ensures !outcome.Succeeded? ==> summary == old(summary) && error == FailureText(outcome)
    {
      match outcome {
        case Succeeded(s) =>
          summary := s;
        case Rejected(_) =>
          error := FailureText(outcome);
        case Threw(_, _) =>
          error := FailureText(outcome);
      }
      isLoading := false;
    }

    /** `handleSummarize`: the form it sends, and the state once `outcome` is known. */
    method HandleSummarize(outcome: SummarizeOutcome) returns (form: seq<FormEntry>)
      modifies this
      ensures |form| == 2 + |pdfFiles|
      ensures form[0] == TextEntry("texts", text) && form[1] == TextEntry("summary_level", summaryLevel)
      ensures forall i :: 0 <= i < |pdfFiles| ==> form[2 + i] == FileEntry("pdf_files", pdfFiles[i])
      ensures !isLoading
      ensures text == old(text) && summaryLevel == old(summaryLevel) && pdfFiles == old(pdfFiles)
      ensures outcome.Succeeded? ==> summary == outcome.summary && error == ""
      ensures !outcome.Succeeded? ==> summary == old(summary) && error == FailureText(outcome)
    {
      form := StartSummarize();
      FinishSummarize(outcome);
    }

    /** `handleClearText`. */
    method HandleClearText()
      modifies this
      ensures text == "" && pdfFiles == []
      ensures summary == old(summary) && summaryLevel == old(summaryLevel)
      ensures error == old(error) && isLoading == old(isLoading)
    {
      text := "";
      pdfFiles := [];
    }

    /** `handleClearSummary`. */
    method HandleClearSummary()
      modifies this
      ensures summary == ""
      ensures text == old(text) && summaryLevel == old(summaryLevel) && pdfFiles == old(pdfFiles)
      ensures error == old(error) && isLoading == old(isLoading)
    {
      summary := "";
    }

    /** `handlePdfUpload`: the selection replaces the files and its names are appended to the text. */
    method HandlePdfUpload(files: seq<PdfFile>)
      modifies this
      ensures pdfFiles == files
      ensures text == old(text) + "\n" + Join(FileNames(files), FileSeparator)
      ensures summary == old(summary) && summaryLevel == old(summaryLevel)
      ensures error == old(error) && isLoading == old(isLoading)
    {
      pdfFiles := files;
      var fileNames := Join(FileNames(files), FileSeparator);
      text := text + "\n" + fileNames;
    }
  }
}
