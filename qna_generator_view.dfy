/**
 * The question/answer view: it keeps the selected file, the displayed
 * question/answer pairs and an error message, uploads the file to the
 * question/answer service, and pairs each returned question with the answer
 * at the same index.
 */
module QnAGeneratorView {
  import opened Base

  const NoFileSelected := "No file selected"
  const UploadFailed := "Error uploading file"

  /** A file chosen in the browser's file input. */
  datatype File = File(name: string)

  /** One pair on display. */
  datatype QnAPair = QnAPair(question: string, answer: string)

  /** One entry of the reply's `answers` list. */
  datatype AnswerEntry = AnswerEntry(question: string, answer: string)

  /** The parsed body of the service's reply. */
  datatype ReplyBody = ReplyBody(questions: seq<string>, answers: seq<AnswerEntry>, error: string)

  /**
   * How the request ends: a reply with its `ok` flag and parsed body, or an
   * exception (the network failed or the body was not JSON).
   */
  datatype UploadOutcome = Replied(ok: bool, body: ReplyBody) | Threw

  function PairQuestions(pairs: seq<QnAPair>): seq<string> {
    seq(|pairs|, i requires 0 <= i < |pairs| => pairs[i].question)
  }

  function PairAnswers(pairs: seq<QnAPair>): seq<string> {
    seq(|pairs|, i requires 0 <= i < |pairs| => pairs[i].answer)
  }

  function AnswerTexts(answers: seq<AnswerEntry>): seq<string> {
    seq(|answers|, i requires 0 <= i < |answers| => answers[i].answer)
  }

  /**
   * `questions.map((question, index) => ({question, answer: answers[index].answer}))`.
   * Pairing loses nothing: the pairs' questions are the reply's questions,
   * and their answers are the first `|questions|` answer texts, in order.
   */
  function CombineQnA(questions: seq<string>, answers: seq<AnswerEntry>): (pairs: seq<QnAPair>)
    requires |answers| >= |questions|
    ensures |pairs| == |questions|
    ensures PairQuestions(pairs) == questions
    ensures PairAnswers(pairs) == AnswerTexts(answers)[..|questions|]
  {
    seq(|questions|, i requires 0 <= i < |questions| => QnAPair(questions[i], answers[i].answer))
  }

  /** The view's state: `file`, `qnaPairs` and `error`. */
  class QnAGenerator {
    var file: Option<File>
    var qnaPairs: seq<QnAPair>
    var error: string

    constructor ()
      ensures file == None && qnaPairs == [] && error == ""
    {
      file := None;
      qnaPairs := [];
      error := "";
    }

    /** `handleFileChange`: the first selected file, or none when the selection is empty. */
    method HandleFileChange(selected: seq<File>)
      modifies this
      ensures file == if |selected| > 0 then Some(selected[0]) else None
      ensures qnaPairs == old(qnaPairs) && error == old(error)
    {
      file := if |selected| > 0 then Some(selected[0]) else None;
    }

    /**
     * `handleFileUpload`. `sent` is the file put in the request, `None` when
     * no request is made; `outcome` is how that request ends.
     */
    method HandleFileUpload(outcome: UploadOutcome) returns (sent: Option<File>)
      modifies this
      ensures file == old(file) && sent == old(file)
      ensures old(file).None? ==> error == NoFileSelected && qnaPairs == old(qnaPairs)
      ensures old(file).Some? && outcome.Threw? ==> error == UploadFailed && qnaPairs == old(qnaPairs)
      ensures old(file).Some? && outcome.Replied? && !outcome.ok ==>
        error == outcome.body.error && qnaPairs == old(qnaPairs)
      ensures old(file).Some? && outcome.Replied? && outcome.ok ==>
        var body := outcome.body;
        if |body.answers| >= |body.questions| then
          qnaPairs == CombineQnA(body.questions, body.answers) && error == ""
        else
          // `answers[index]` is undefined for some index; reading `.answer` throws.
          error == UploadFailed && qnaPairs == old(qnaPairs)
    {
      if file.None? {
        error := NoFileSelected;
        return None;
      }
      sent := file;
      match outcome
      case Threw =>
        error := UploadFailed;
      case Replied(ok, body) =>
        if ok {
          if |body.answers| >= |body.questions| {
            var combinedQnA := CombineQnA(body.questions, body.answers);
            qnaPairs := combinedQnA;
            error := "";
          } else {
            error := UploadFailed;
          }
        } else {
          error := body.error;
        }
    }
  }
}
