/**
 * The flashcard service behind `/uploads`: it splits the text of the first
 * page of an uploaded PDF into sentences, groups consecutive sentences into
 * chunks of `max(1, n // max_points)`, and turns every chunk into one
 * summary point with the T5 model.
 */
module FlashcardService {
  import opened Base
  import opened Strings
  import opened Chunking

  /** The default `max_points` of `summarize`. */
  /** The `max_points` the upload handler passes. */
  const UploadMaxPoints: nat := 10
  const SummarizePrefix := "summarize: "
  const NoFileUploaded := "No file uploaded"
  const BadRequest: nat := 400

  /** The T5 model: encode the prompt (truncated to 512 tokens), generate, decode. */
  type PointModel = string -> string
  /** `nltk.sent_tokenize`. */
  type SentenceSplitter = string -> seq<string>

  /** An uploaded file part; it is truthy exactly when its file name is not empty. */
  datatype FilePart = FilePart(filename: string)

  /** The JSON reply: the `summary` points, or `error` with its status. */
  datatype FlashcardResponse =
    | Points(summary: seq<string>)
    | Failed(status: nat, error: string)

  /** `chunk_size`: sentences per chunk, never below one. */
  function ChunkSize(numSentences: nat, maxPoints: nat): (size: nat)
    requires maxPoints > 0
    ensures size >= 1
    ensures numSentences < 2 * maxPoints ==> size == 1
    ensures numSentences >= maxPoints ==> size == numSentences / maxPoints
  {
    Max(1, numSentences / maxPoints)
  }

  /** The groups of consecutive sentences that become one point each. */
  function SentenceGroups(sentences: seq<string>, maxPoints: nat): seq<seq<string>>
    requires maxPoints > 0
  {
    Chunks(sentences, ChunkSize(|sentences|, maxPoints))
  }

  /** `chunks`: every group of sentences joined by single spaces. */
  function SentenceChunks(sentences: seq<string>, maxPoints: nat): (chunks: seq<string>)
    requires maxPoints > 0
    ensures chunks == [] <==> sentences == []
    ensures chunks != [] ==> chunks[0] == Join(sentences[..Min(ChunkSize(|sentences|, maxPoints), |sentences|)], " ")
  {
    var groups := SentenceGroups(sentences, maxPoints);
    if groups == [] then []
    else
      ChunkAt(sentences, ChunkSize(|sentences|, maxPoints), 0);
      seq(|groups|, i requires 0 <= i < |groups| => Join(groups[i], " "))
  }

  /**
   * The groups partition the sentence list in order: flattening them gives
   * it back, every group but the last holds exactly `chunk_size` sentences
   * and the last between 1 and `chunk_size`; there are ceil(n / chunk_size)
   * of them, so none for an empty list.
   */
  lemma {:induction false} GroupsPartitionSentences(sentences: seq<string>, maxPoints: nat)
    requires maxPoints > 0
    ensures var groups, size := SentenceGroups(sentences, maxPoints), ChunkSize(|sentences|, maxPoints);
      && Flatten(groups) == sentences
      && (forall i :: 0 <= i < |groups| - 1 ==> |groups[i]| == size)
      && (|groups| > 0 ==> 1 <= |groups[|groups| - 1]| <= size)
      && |groups| == (|sentences| + size - 1) / size
      && (|groups| == 0 <==> sentences == [])
      && |SentenceChunks(sentences, maxPoints)| == |groups|
  {
    var size := ChunkSize(|sentences|, maxPoints);
    FlattenChunks(sentences, size);
    ChunkLengths(sentences, size);
    ChunkCount(sentences, size);
  }

  /**
   * How many points come out: one per sentence below `max_points`
   * sentences, otherwise at least `max_points` and fewer than twice as many.
   */
  lemma {:induction false} PointCountBounds(sentences: seq<string>, maxPoints: nat)
    requires maxPoints > 0
    ensures |sentences| < maxPoints ==> |SentenceGroups(sentences, maxPoints)| == |sentences|
    ensures |sentences| >= maxPoints ==> maxPoints <= |SentenceGroups(sentences, maxPoints)| < 2 * maxPoints
  {
    var n, m := |sentences|, maxPoints;
    var q := ChunkSize(n, m);
    var c := |SentenceGroups(sentences, m)|;
    ChunkCount(sentences, q);
    if n >= m {
      assert n == q * m + n % m;
      CountAtLeast(n, m, q, c);
      CountBelow(n, m, q, c);
    }
  }

  /** A chunk count `c` with `n <= c * q` reaches `m` when `q * m <= n`. */
  lemma CountAtLeast(n: int, m: int, q: int, c: int)
    requires q >= 1 && q * m <= n <= c * q
    ensures m <= c
  {
    assert (m - 1) * q == q * m - q;
    if c < m {
      MulMonotone(c, m - 1, q);
    }
  }

  /** A chunk count `c` with `(c - 1) * q < n` stays below `2 * m` when `n < q * m + m`. */
  lemma CountBelow(n: int, m: int, q: int, c: int)
    requires q >= 1 && m >= 1 && (c - 1) * q < n < q * m + m
    ensures c < 2 * m
  {
    assert (2 * m - 1) * q == q * m + (m - 1) * q;
    MulAtLeastOne(m - 1, q);
    if c >= 2 * m {
      MulMonotone(2 * m - 1, c - 1, q);
    }
  }

  lemma MulMonotone(a: int, b: int, q: int)
    requires a <= b && q >= 0
    ensures a * q <= b * q
  {
    assert b * q - a * q == (b - a) * q;
  }

  lemma MulAtLeastOne(a: int, q: int)
    requires a >= 0 && q >= 1
    ensures a * q >= a
  {
    MulMonotone(1, q, a);
  }

  /** `summarize`: one point per chunk of sentences, in chunk order. */
  method Summarize(text: string, maxPoints: nat, splitSentences: SentenceSplitter, model: PointModel)
    returns (points: seq<string>)
    requires maxPoints > 0
    ensures var chunks := SentenceChunks(splitSentences(text), maxPoints);
      && |points| == |chunks|
      && forall i :: 0 <= i < |chunks| ==> points[i] == model(SummarizePrefix + chunks[i])
    ensures points == SummaryPoints(text, maxPoints, splitSentences, model)
  {
    var sentences := splitSentences(text);
    var chunks := SentenceChunks(sentences, maxPoints);
    points := [];
    for i := 0 to |chunks|
      invariant |points| == i
      invariant forall k :: 0 <= k < i ==> points[k] == model(SummarizePrefix + chunks[k])
    {
      var inputText := SummarizePrefix + chunks[i];
      var summary := model(inputText);
      points := points + [summary];
    }
  }

  /** The points `summarize` returns, as a value. */
  function SummaryPoints(text: string, maxPoints: nat, splitSentences: SentenceSplitter, model: PointModel): seq<string>
    requires maxPoints > 0
  {
    var chunks := SentenceChunks(splitSentences(text), maxPoints);
    seq(|chunks|, i requires 0 <= i < |chunks| => model(SummarizePrefix + chunks[i]))
  }

  /** The `/uploads` handler; `extract` is the text of the first page of the PDF. */
  method Upload(file: FilePart, extract: FilePart -> string, splitSentences: SentenceSplitter, model: PointModel)
    returns (resp: FlashcardResponse)
    ensures file.filename == "" ==> resp == Failed(BadRequest, NoFileUploaded)
    ensures file.filename != "" ==> resp == Points(SummaryPoints(extract(file), UploadMaxPoints, splitSentences, model))
  {
    if file.filename != "" {
      var text := extract(file);
      var summaryPoints := Summarize(text, UploadMaxPoints, splitSentences, model);
      return Points(summaryPoints);
    }
    return Failed(BadRequest, NoFileUploaded);
  }
}
