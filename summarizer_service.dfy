/**
 * The `/summarizes` endpoint of the summarisation service: it maps the
 * requested summary level to a ratio, joins the user's texts with the text of
 * the uploaded PDFs, rejects input that is only whitespace, derives the length
 * bounds, cuts the text into chunks of 1000 characters, summarises every chunk
 * with bounds divided by the number of chunks, and joins the chunk summaries
 * with blank lines.
 */
module SummarizerService {
  import opened Base
  import opened Strings
  import opened Chunking

  /** The default `chunk_size` of `chunk_text`, the only one the endpoint uses. */
  const ChunkSize: nat := 1000
  const DefaultLevel := "summary"
  /** Share of the input length, in percent, per summary level. */
  const LevelToPercent: map<string, nat> := map["abstract" := 10, "summary" := 20, "article" := 30]
  /** The share an unrecognised level gets. */
  const DefaultPercent: nat := 20
  /** The floor of `min_length`. */
  const MinLengthFloor: nat := 30
  const EmptyInputError := "The combined text is empty. Please provide some text or PDF content."
  const ParagraphBreak := "\n\n"
  const ServerError: nat := 500

  /** The BART pipeline: a chunk, `min_length` and `max_length` give its `summary_text`. */
  type SummaryModel = (string, nat, nat) -> string

  /**
   * The form of a request: the `texts` entries, the optional `summary_level`,
   * and what extracting the `pdf_files` entries gave: their text, in order,
   * or the message of the exception the extraction raised.
   */
  datatype SummarizeRequest = SummarizeRequest(texts: seq<string>, level: Option<string>, pdfText: Result<string, string>)

  /** The JSON reply: `summary` and `no_chunks`, or `error` with its status. */
  datatype SummarizeResponse =
    | Summarized(summary: string, noChunks: nat)
    | Failed(status: nat, error: string)

  /** The share, in percent, of the input length that the summary should take. */
  function Percent(level: Option<string>): (p: nat)
    ensures p == 10 <==> level == Some("abstract")
    ensures p == 30 <==> level == Some("article")
    ensures p == 20 <==> level.None? || (level.value != "abstract" && level.value != "article")
  {
    var name := level.GetOr(DefaultLevel);
    if name in LevelToPercent then LevelToPercent[name] else DefaultPercent
  }

  /** `user_text + " " + pdf_text`, where `user_text` joins the texts with single spaces. */
  function CombinedText(texts: seq<string>, pdfText: string): (combined: string)
    ensures |combined| > |pdfText| && combined[|combined| - |pdfText|..] == pdfText
    ensures combined[|combined| - |pdfText| - 1] == ' '
    ensures |texts| > 0 ==> |combined| > |texts[0]| && combined[..|texts[0]|] == texts[0]
  {
    Join(texts, " ") + " " + pdfText
  }

  /** `target_length`: `percent` per cent of `inputLength`, rounded down. */
  function TargetLength(inputLength: nat, percent: nat): (target: nat)
    ensures target * 100 <= inputLength * percent < (target + 1) * 100
  {
    DivUnique(inputLength * percent, 100, inputLength * percent / 100, inputLength * percent % 100);
    inputLength * percent / 100
  }

  /** The pair (`min_length`, `max_length`) for an input of `inputLength` characters. */
  function LengthBounds(inputLength: nat, percent: nat): (bounds: (nat, nat))
    ensures bounds.1 == TargetLength(inputLength, percent)
    ensures bounds.0 >= MinLengthFloor && bounds.0 >= bounds.1 / 3
    ensures bounds.0 == MinLengthFloor || bounds.0 == bounds.1 / 3
  {
    var targetLength := TargetLength(inputLength, percent);
    (Max(MinLengthFloor, targetLength / 3), targetLength)
  }

  /** The bounds the endpoint derives for a request whose PDF text is `pdfText`. */
  function RequestBounds(req: SummarizeRequest, pdfText: string): (nat, nat) {
    LengthBounds(|CombinedText(req.texts, pdfText)|, Percent(req.level))
  }

  /** A length bound shared out among `noChunks` chunks (Python's `//`). */
  function PerChunk(bound: nat, noChunks: nat): (share: nat)
    requires noChunks > 0
    ensures share * noChunks <= bound < (share + 1) * noChunks
  {
    DivUnique(bound, noChunks, bound / noChunks, bound % noChunks);
    bound / noChunks
  }

  /** One summary per chunk, in chunk order, each asked for with the same bounds. */
  function ChunkSummaries(chunks: seq<string>, model: SummaryModel, minLength: nat, maxLength: nat): (r: seq<string>)
    ensures |r| == |chunks|
    ensures forall i :: 0 <= i < |chunks| ==> r[i] == model(chunks[i], minLength, maxLength)
    decreases |chunks|
  {
    if |chunks| == 0 then []
    else ChunkSummaries(chunks[..|chunks| - 1], model, minLength, maxLength)
         + [model(chunks[|chunks| - 1], minLength, maxLength)]
  }

  /** `chunk_text`: the slices `text[i:i + chunk_size]`, appended one by one. */
  method ChunkText(text: string, chunkSize: nat) returns (chunks: seq<string>)
    requires chunkSize > 0
    ensures chunks == Chunks(text, chunkSize)
  {
    chunks := [];
    var i := 0;
    while i < |text|
      invariant chunks + Chunks(text[Min(i, |text|)..], chunkSize) == Chunks(text, chunkSize)
    {
      var rest := text[i..];
      var end := Min(i + chunkSize, |text|);
      assert |rest| > chunkSize ==> rest[..chunkSize] == text[i..end] && rest[chunkSize..] == text[end..];
      assert |rest| <= chunkSize ==> rest == text[i..end] && text[end..] == [];
      chunks := chunks + [text[i..end]];
      i := i + chunkSize;
    }
  }

  /** The `/summarizes` handler. */
  method Summarize(req: SummarizeRequest, model: SummaryModel) returns (resp: SummarizeResponse)
    ensures req.pdfText.Failure? ==> resp == Failed(ServerError, req.pdfText.error)
    ensures req.pdfText.Success? && IsBlank(CombinedText(req.texts, req.pdfText.value)) ==>
      resp == Failed(ServerError, EmptyInputError)
    ensures req.pdfText.Success? && !IsBlank(CombinedText(req.texts, req.pdfText.value)) ==>
      var chunks := Chunks(CombinedText(req.texts, req.pdfText.value), ChunkSize);
      var (minLength, maxLength) := RequestBounds(req, req.pdfText.value);
      && resp.Summarized?
      && resp.noChunks == |chunks| >= 1
      && resp.summary == Join(ChunkSummaries(chunks, model, PerChunk(minLength, |chunks|), PerChunk(maxLength, |chunks|)), ParagraphBreak)
  {
    var percent := Percent(req.level);
    if req.pdfText.Failure? {
      return Failed(ServerError, req.pdfText.error);
    }
    var pdfText := req.pdfText.value;
    var userText := Join(req.texts, " ");
    var combinedText := userText + " " + pdfText;
    assert combinedText == CombinedText(req.texts, pdfText);
    var inputLength := |combinedText|;
    StripEmptyIffBlank(combinedText);
    if Strip(combinedText) == "" {
      return Failed(ServerError, EmptyInputError);
    }
    var (minLength, maxLength) := LengthBounds(inputLength, percent);
    assert (minLength, maxLength) == RequestBounds(req, pdfText);
    var chunks := ChunkText(combinedText, ChunkSize);
    assert |chunks| >= 1 by { assert |combinedText| > 0; }
    var noChunks := |chunks|;
    var chunkMin, chunkMax := PerChunk(minLength, noChunks), PerChunk(maxLength, noChunks);
    var summaries := [];
    for i := 0 to |chunks|
      invariant |summaries| == i
      invariant forall k :: 0 <= k < i ==> summaries[k] == model(chunks[k], chunkMin, chunkMax)
    {
      summaries := summaries + [model(chunks[i], chunkMin, chunkMax)];
    }
    assert summaries == ChunkSummaries(chunks, model, chunkMin, chunkMax);
    resp := Summarized(Join(summaries, ParagraphBreak), noChunks);
  }

  /**
   * The text handed to `chunk_text` is never empty, whatever the request:
   * the joining space is always there, so `no_chunks` is at least 1 and is
   * ceil(len(combined_text) / 1000).
   */
  lemma {:induction false} ChunkCountPositive(texts: seq<string>, pdfText: string)
    ensures |CombinedText(texts, pdfText)| >= 1
    ensures |Chunks(CombinedText(texts, pdfText), ChunkSize)| == (|CombinedText(texts, pdfText)| + ChunkSize - 1) / ChunkSize >= 1
  {
    ChunkCount(CombinedText(texts, pdfText), ChunkSize);
  }

  /** Concatenating the chunks gives back the combined text, and no chunk exceeds 1000 characters. */
  lemma {:induction false} ChunksCoverCombinedText(texts: seq<string>, pdfText: string)
    ensures Flatten(Chunks(CombinedText(texts, pdfText), ChunkSize)) == CombinedText(texts, pdfText)
    ensures forall i :: 0 <= i < |Chunks(CombinedText(texts, pdfText), ChunkSize)| ==> |Chunks(CombinedText(texts, pdfText), ChunkSize)[i]| <= ChunkSize
  {
    FlattenChunks(CombinedText(texts, pdfText), ChunkSize);
    ChunkLengths(CombinedText(texts, pdfText), ChunkSize);
  }

  /**
   * Below 100 characters of combined text the lower bound passed to the
   * model exceeds the upper one, whatever the level: `min_length` stays at
   * 30 while `max_length` is under 30.
   */
  lemma {:induction false} ShortInputInvertsBounds(req: SummarizeRequest, pdfText: string)
    requires |CombinedText(req.texts, pdfText)| < 100
    ensures RequestBounds(req, pdfText).0 > RequestBounds(req, pdfText).1
  {
    var n, p := |CombinedText(req.texts, pdfText)|, Percent(req.level);
    assert p <= 30;
    assert n * p <= n * 30 < 3000;
  }
}
