/** The boundary to the completion service: what each of the four calls is
    sent, and what it returns. The service itself is not modelled; a call's
    result reaches the session as an outcome parameter. */
module Gateway {
  import opened Types

  /** A settled gateway call: its parsed result, or a rejection. */
  datatype Outcome<+T> = Success(value: T) | Failure

  datatype Difficulty = Easy | Medium | Hard

  /** The result of grading the diagnostic quiz. */
  datatype Evaluation = Evaluation(level: Level, suggestion: string)

  /** The result of grading one answer. */
  datatype Feedback = Feedback(feedback: string, nextStepSuggestion: string)

  /** The four requests the session issues, with the values each carries. */
  datatype Request =
    | QuizRequest(topic: string)
    | EvaluationRequest(topic: string, quiz: seq<QuizQuestion>, answers: seq<string>)
    | ExerciseRequest(mainTopic: string, subTopic: string, level: Level, difficulty: Difficulty)
    | FeedbackRequest(subTopic: string, question: string, userAnswer: string, correctAnswer: string, timeTaken: real)

  /** One row of the graded quiz sent for evaluation; a missing answer is
      JavaScript's `undefined`. */
  datatype QuizItem = QuizItem(question: string, userAnswer: Option<string>, correctAnswer: string)

  /** `quiz.map((q, i) => ...)`: one row per question, in quiz order, pairing
      question i with answer i when there is one; reading past the end of the
      answers gives `undefined`. Read back, the answers column (with
      `undefined` left out) is every answer in order, and answers beyond the
      last question are dropped. */
  function QuizData(quiz: seq<QuizQuestion>, answers: seq<string>): (r: seq<QuizItem>)
    ensures |r| == |quiz|
    ensures forall i :: 0 <= i < |quiz| ==> r[i].question == quiz[i].question && r[i].correctAnswer == quiz[i].answer
    ensures forall i :: 0 <= i < |quiz| && i < |answers| ==> r[i].userAnswer == Some(answers[i])
    ensures |answers| <= |quiz| ==> AnswersOf(r) == answers
    ensures |answers| >= |quiz| ==> AnswersOf(r) == answers[..|quiz|]
  {
    var r := seq(|quiz|, i requires 0 <= i < |quiz| =>
      QuizItem(quiz[i].question, if i < |answers| then Some(answers[i]) else None, quiz[i].answer));
    RowsCarryAnswers(quiz, answers, r);
    r
  }

  /** The answers column of the rows, with `undefined` left out. */
  function AnswersOf(rows: seq<QuizItem>): seq<string>
  {
    if rows == [] then []
    else (match rows[0].userAnswer case Some(a) => [a] case None => []) + AnswersOf(rows[1..])
  }

  /** Rows that pair question i with answer i (`undefined` past the end of
      the answers) carry every answer in order when there are no more
      answers than questions, and drop the extra answers otherwise. */
  lemma {:induction false} RowsCarryAnswers(quiz: seq<QuizQuestion>, answers: seq<string>, rows: seq<QuizItem>)
    requires |rows| == |quiz|
    requires forall i :: 0 <= i < |quiz| ==>
      rows[i] == QuizItem(quiz[i].question, if i < |answers| then Some(answers[i]) else None, quiz[i].answer)
    ensures |answers| <= |quiz| ==> AnswersOf(rows) == answers
    ensures |answers| >= |quiz| ==> AnswersOf(rows) == answers[..|quiz|]
    decreases |quiz|
  {
    if quiz != [] {
      var rest := if answers == [] then [] else answers[1..];
      RowsCarryAnswers(quiz[1..], rest, rows[1..]);
      if answers != [] {
        assert answers == [answers[0]] + rest;
        if |answers| >= |quiz| {
          assert answers[..|quiz|] == [answers[0]] + rest[..|quiz| - 1];
        }
      }
    }
  }
}
