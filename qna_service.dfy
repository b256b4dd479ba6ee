/**
 * The question/answer service behind `/upload`: it cleans the text of an
 * uploaded PDF, generates up to 16 questions from its 512-character lines,
 * keeps the first question and a random sample of up to 5 of the others,
 * answers each selected question against the cleaned text, and formats
 * every answer.
 */
module QnaService {
  import opened Base
  import opened Strings

  /** The default `total_questions` of `generate_questions`. */
  const TotalQuestions: nat := 16
  /** How many questions besides the first one the selection samples at most. */
  const SampleSize: nat := 5
  const QuestionPrefix := "generate questions: "
  const NoFilePart := "No file part"
  const NoSelectedFile := "No selected file"
  const BadRequest: nat := 400
  const ServerError: nat := 500

  /** The T5 question generator: encode the prompt, generate, decode. */
  type QuestionModel = string -> string
  /** The RoBERTa question-answering pipeline: a question and a context give `result['answer']`. */
  type AnswerModel = (string, string) -> string
  /** `textwrap.wrap(text, width=512)`. */
  type Wrapper = string -> seq<string>
  /** `random.sample` on positions: a population size `n` and a count `k` give `k` positions. */
  type Sampler = (nat, nat) -> seq<nat>

  /** An uploaded file part; only its file name is looked at before extraction. */
  datatype FilePart = FilePart(filename: string)
  /** PDF text extraction: the text, or the message of the exception it raised. */
  type Extractor = FilePart -> Result<string, string>

  /** One entry of the `answers` list of the reply. */
  datatype QnA = QnA(question: string, answer: string)

  /** The JSON reply: `questions` and `answers`, or `error` with its status. */
  datatype QnaResponse =
    | Generated(questions: seq<string>, answers: seq<QnA>)
    | Failed(status: nat, error: string)

  /** `clean_text`: every line break becomes a space. */
  function CleanText(text: string): (r: string)
    ensures |r| == |text|
    ensures forall i :: 0 <= i < |text| ==> r[i] == (if text[i] == '\n' then ' ' else text[i])
    ensures '\n' !in r
    decreases |text|
  {
    if |text| == 0 then ""
    else [if text[0] == '\n' then ' ' else text[0]] + CleanText(text[1..])
  }

  /** Cleaning cleaned text changes nothing. */
  lemma CleanTextIdempotent(text: string)
    ensures CleanText(CleanText(text)) == CleanText(text)
  {
  }

  predicate EndsWithPeriod(s: string) {
    |s| > 0 && s[|s| - 1] == '.'
  }

  /** `format_answer`: a full stop appended when missing, then `capitalize`. */
  function FormatAnswer(answer: string): (r: string)
    ensures EndsWithPeriod(r)
    ensures |r| == if EndsWithPeriod(answer) then |answer| else |answer| + 1
    ensures forall i :: 0 <= i < |answer| ==> r[i] == if i == 0 then ToUpper(answer[0]) else ToLower(answer[i])
    ensures IsCapitalized(r)
  {
    var punctuated := if EndsWithPeriod(answer) then answer else answer + ".";
    CapitalizeNormalises(punctuated);
    Capitalize(punctuated)
  }

  /** Formatting a formatted answer changes nothing. */
  lemma {:induction false} FormatAnswerIdempotent(answer: string)
    ensures FormatAnswer(FormatAnswer(answer)) == FormatAnswer(answer)
  {
    var r := FormatAnswer(answer);
    CapitalizeNormalises(r);
  }

  function Prompt(line: string): string {
    QuestionPrefix + line
  }

  /** `generate_questions`: one question from each of the first `totalQuestions` wrapped lines. */
  method GenerateQuestions(wrapped: seq<string>, totalQuestions: nat, model: QuestionModel) returns (questions: seq<string>)
    ensures |questions| == Min(totalQuestions, |wrapped|)
    ensures forall i :: 0 <= i < |questions| ==> questions[i] == model(Prompt(wrapped[i]))
    ensures questions == Questions(wrapped, totalQuestions, model)
  {
    questions := [];
    for i := 0 to Min(totalQuestions, |wrapped|)
      invariant |questions| == i
      invariant forall k :: 0 <= k < i ==> questions[k] == model(Prompt(wrapped[k]))
    {
      var inputText := Prompt(wrapped[i]);
      var question := model(inputText);
      questions := questions + [question];
    }
  }

  /** The questions `generate_questions` returns, as a value. */
  function Questions(wrapped: seq<string>, totalQuestions: nat, model: QuestionModel): seq<string> {
    seq(Min(totalQuestions, |wrapped|), i requires 0 <= i < Min(totalQuestions, |wrapped|) => model(Prompt(wrapped[i])))
  }

  /** `answer_questions`: each question paired with its formatted answer, in order. */
  method AnswerQuestions(questions: seq<string>, context: string, model: AnswerModel) returns (answers: seq<QnA>)
    ensures |answers| == |questions|
    ensures forall i :: 0 <= i < |questions| ==>
      answers[i].question == questions[i] && answers[i].answer == FormatAnswer(model(questions[i], context))
    ensures answers == Answers(questions, context, model)
  {
    answers := [];
    for i := 0 to |questions|
      invariant |answers| == i
      invariant forall k :: 0 <= k < i ==> answers[k] == QnA(questions[k], FormatAnswer(model(questions[k], context)))
    {
      var result := model(questions[i], context);
      var formattedAnswer := FormatAnswer(result);
      answers := answers + [QnA(questions[i], formattedAnswer)];
    }
  }

  /** The answers `answer_questions` returns, as a value. */
  function Answers(questions: seq<string>, context: string, model: AnswerModel): seq<QnA> {
    seq(|questions|, i requires 0 <= i < |questions| => QnA(questions[i], FormatAnswer(model(questions[i], context))))
  }

  /** `k` pairwise distinct positions below `n`. */
  predicate IsSample(positions: seq<nat>, n: nat, k: nat) {
    && |positions| == k
    && (forall j :: 0 <= j < k ==> positions[j] < n)
    && (forall j, j' :: 0 <= j < j' < k ==> positions[j] != positions[j'])
  }

  /** What `random.sample` guarantees: `k` distinct positions of a population of `n`, for any `k <= n`. */
  ghost predicate IsSampler(sample: Sampler) {
    forall n: nat, k: nat :: k <= n ==> IsSample(sample(n, k), n, k)
  }

  /** The elements of `s` at `positions`, in the order of `positions`. */
  function Pick<T>(s: seq<T>, positions: seq<nat>): (r: seq<T>)
    requires forall j :: 0 <= j < |positions| ==> positions[j] < |s|
    ensures |r| == |positions|
  {
    seq(|positions|, j requires 0 <= j < |positions| => s[positions[j]])
  }

  /** Picking from distinct positions never uses an element of `s` more often than `s` holds it. */
  lemma {:induction false} PickSubMultiset<T>(s: seq<T>, positions: seq<nat>)
    requires IsSample(positions, |s|, |positions|)
    ensures multiset(Pick(s, positions)) <= multiset(s)
    decreases |s|
  {
    assert |positions| == 0 || positions[0] < |s|;
    if |s| > 0 {
      var last := |s| - 1;
      var init := s[..last];
      assert s == init + [s[last]];
      if j :| 0 <= j < |positions| && positions[j] == last {
        var before, after := positions[..j], positions[j + 1..];
        var rest := SampleWithout(positions, last, j);
        PickSubMultiset(init, rest);
        PickWithout(s, positions, j);
        PickRestrict(s, last, rest);
      } else {
        SampleBelowLast(positions, last);
        PickSubMultiset(init, positions);
        PickRestrict(s, last, positions);
      }
    }
  }

  /** Dropping the position `n` from a sample below `n + 1` leaves a sample below `n`. */
  lemma SampleWithout(positions: seq<nat>, n: nat, j: nat) returns (rest: seq<nat>)
    requires IsSample(positions, n + 1, |positions|)
    requires j < |positions| && positions[j] == n
    ensures rest == positions[..j] + positions[j + 1..]
    ensures IsSample(rest, n, |rest|)
  {
    rest := positions[..j] + positions[j + 1..];
    assert forall m :: 0 <= m < |rest| ==> rest[m] == positions[if m < j then m else m + 1];
  }

  /** A sample below `n + 1` that does not use `n` is a sample below `n`. */
  lemma SampleBelowLast(positions: seq<nat>, n: nat)
    requires IsSample(positions, n + 1, |positions|)
    requires forall j :: 0 <= j < |positions| ==> positions[j] != n
    ensures IsSample(positions, n, |positions|)
  {
  }

  /** Picking at `positions` is picking at the other positions, plus the element at `positions[j]`. */
  lemma PickWithout<T>(s: seq<T>, positions: seq<nat>, j: nat)
    requires forall m :: 0 <= m < |positions| ==> positions[m] < |s|
    requires j < |positions|
    ensures multiset(Pick(s, positions)) == multiset(Pick(s, positions[..j] + positions[j + 1..])) + multiset{s[positions[j]]}
  {
    var before, after := positions[..j], positions[j + 1..];
    assert positions == before + [positions[j]] + after;
    PickAppend(s, before + [positions[j]], after);
    PickAppend(s, before, [positions[j]]);
    PickAppend(s, before, after);
    assert Pick(s, [positions[j]]) == [s[positions[j]]];
  }

  lemma PickAppend<T>(s: seq<T>, a: seq<nat>, b: seq<nat>)
    requires forall j :: 0 <= j < |a| ==> a[j] < |s|
    requires forall j :: 0 <= j < |b| ==> b[j] < |s|
    ensures Pick(s, a + b) == Pick(s, a) + Pick(s, b)
  {
  }

  lemma PickRestrict<T>(s: seq<T>, n: nat, positions: seq<nat>)
    requires n <= |s|
    requires forall j :: 0 <= j < |positions| ==> positions[j] < n
    ensures Pick(s, positions) == Pick(s[..n], positions)
  {
  }

  /**
   * The question selection of `upload_file`: with more than one question,
   * the first one followed by a sample of `min(5, n - 1)` of the others;
   * otherwise all of them.
   */
  function SelectQuestions(all: seq<string>, sample: Sampler): (selected: seq<string>)
    requires IsSampler(sample)
    ensures |all| <= 1 ==> selected == all
    ensures |all| > 1 ==> && |selected| == 1 + Min(SampleSize, |all| - 1)
                          && selected[0] == all[0]
                          && multiset(selected[1..]) <= multiset(all[1..])
  {
    if |all| > 1 then
      var rest := all[1..];
      var positions := sample(|rest|, Min(SampleSize, |rest|));
      assert IsSample(positions, |rest|, Min(SampleSize, |rest|));
      PickSubMultiset(rest, positions);
      assert ([all[0]] + Pick(rest, positions))[1..] == Pick(rest, positions);
      [all[0]] + Pick(rest, positions)
    else
      all
  }

  /** What the handler answers once it has the text of the uploaded PDF. */
  function Answered(text: string, wrap: Wrapper, questionModel: QuestionModel, answerModel: AnswerModel, sample: Sampler): QnaResponse
    requires IsSampler(sample)
  {
    var cleanedText := CleanText(text);
    var selected := SelectQuestions(Questions(wrap(cleanedText), TotalQuestions, questionModel), sample);
    Generated(selected, Answers(selected, cleanedText, answerModel))
  }

  /** The `/upload` handler. */
  method UploadFile(files: map<string, FilePart>, extract: Extractor, wrap: Wrapper,
                    questionModel: QuestionModel, answerModel: AnswerModel, sample: Sampler)
    returns (resp: QnaResponse)
    requires IsSampler(sample)
    ensures "file" !in files ==> resp == Failed(BadRequest, NoFilePart)
    ensures "file" in files && files["file"].filename == "" ==> resp == Failed(BadRequest, NoSelectedFile)
    ensures "file" in files && files["file"].filename != "" ==>
      match extract(files["file"])
      case Failure(message) => resp == Failed(ServerError, message)
      case Success(text) => resp == Answered(text, wrap, questionModel, answerModel, sample)
    ensures resp.Generated? ==>
      && |resp.questions| <= 1 + SampleSize
      && |resp.answers| == |resp.questions|
      && forall i :: 0 <= i < |resp.questions| ==> resp.answers[i].question == resp.questions[i]
  {
    if "file" !in files {
      return Failed(BadRequest, NoFilePart);
    }
    var file := files["file"];
    if file.filename == "" {
      return Failed(BadRequest, NoSelectedFile);
    }
    // A file part with a non-empty name is truthy, so `if file:` always holds here.
    match extract(file)
    case Failure(message) =>
      resp := Failed(ServerError, message);
    case Success(text) =>
      var cleanedText := CleanText(text);
      var allQuestions := GenerateQuestions(wrap(cleanedText), TotalQuestions, questionModel);
      var selectedQuestions := SelectQuestions(allQuestions, sample);
      var answers := AnswerQuestions(selectedQuestions, cleanedText, answerModel);
      resp := Generated(selectedQuestions, answers);
  }
}
