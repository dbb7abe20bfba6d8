/** The session state machine of the tutor's root component: its state
    variables as the fields of one object, and each event handler as a
    method that runs atomically, with the settled gateway call passed in as
    an outcome. Each handler returns the request it sends. */
module Session {
  import opened Types
  import opened Gateway
  import opened Progress

  const QuizError := "Failed to generate the quiz. Please try again."
  const EvaluationError := "Failed to evaluate your quiz. Please try again."
  const ExerciseError := "Failed to fetch the next exercise. Please try again."
  const FeedbackError := "Failed to get feedback. Please try again."

  /** The user line appended when the quiz is handed in. */
  const QuizFinished := "I've finished the quiz."

  /** The system line that opens the transcript of a quiz on `topic`. */
  function QuizIntro(topic: string): string
  {
    "Let's start with a quick quiz on " + topic + " to understand your level."
  }

  /** The agent line that reports the evaluation; it shows the suggestion in bold. */
  function EvaluationText(level: Level, goal: string, suggestion: string): string
  {
    "Great job on the quiz! It looks like you're at an " + LevelName(level) + " level for " + goal
    + ". Based on that, I suggest we start with: **" + suggestion + "**. Ready to begin?"
  }

  /** The agent line that introduces a new exercise on `subTopic`. */
  function ExerciseIntro(subTopic: string): string
  {
    "Here's an exercise on **" + subTopic + "**."
  }

  /** The agent line that carries the feedback and the next step. */
  function FeedbackText(f: Feedback): string
  {
    f.feedback + "\n\n" + f.nextStepSuggestion
  }

  /** Some transcript entry carries a non-empty suggestion. */
  predicate HasSuggestion(messages: seq<ChatMessage>)
  {
    exists i :: 0 <= i < |messages| && CarriesSuggestion(messages[i])
  }

  /** Appending entries keeps a suggestion that was there. */
  lemma SuggestionSurvivesAppend(messages: seq<ChatMessage>, more: seq<ChatMessage>)
    requires HasSuggestion(messages)
    ensures HasSuggestion(messages + more)
  {
    var i :| 0 <= i < |messages| && CarriesSuggestion(messages[i]);
    assert (messages + more)[i] == messages[i];
  }

  /** The root component `App`: its state variables and its handlers. */
  class App {
    var phase: Phase
    var userGoal: string
    var quiz: seq<QuizQuestion>
    var currentExercise: Option<Exercise>
    var progress: UserProgress
    var isLoading: bool
    var error: Option<string>
    var messages: seq<ChatMessage>
    var subTopic: string
    /** Every answer graded so far, oldest first. */
    ghost var graded: seq<Graded>

    /** The scoreboard is exactly the fold of the graded answers: as many
        questions as answers, the number judged correct, their mean time. */
    ghost predicate Valid()
      reads this
    {
      && progress.totalQuestions == |graded|
      && progress.correctAnswers == CountCorrect(graded)
      && progress.averageTime == MeanTime(graded)
      && progress.topicProgress == map[]
    }

    /** The state a page load starts with. */
    constructor ()
      ensures Valid()
      ensures phase == Welcome && userGoal == "" && quiz == [] && currentExercise == None
      ensures progress == InitialProgress && !isLoading && error == None && messages == [] && subTopic == ""
      ensures graded == []
    {
      phase := Welcome;
      userGoal := "";
      quiz := [];
      currentExercise := None;
      progress := InitialProgress;
      isLoading := false;
      error := None;
      messages := [];
      subTopic := "";
      graded := [];
    }

    /** The scoreboard never shows more correct answers than questions. */
    lemma CorrectNeverExceedsTotal()
      requires Valid()
      ensures progress.correctAnswers <= progress.totalQuestions
    {
    }

    /** The condition of the effect that fetches an exercise by itself: the
        learning phase, a sub-topic, no exercise pending, and a transcript
        entry that carries a suggestion. */
    predicate AutoFetchGuard()
      reads this
    {
      phase == Learning && subTopic != "" && currentExercise.None? && HasSuggestion(messages)
    }

    /** The guard holds only in the learning phase, with a sub-topic, no
        exercise pending and some transcript entry whose suggestion is
        non-empty: `messages.some(m => !!m.suggestion)`. */
    lemma AutoFetchGuardMeans()
      requires AutoFetchGuard()
      ensures phase == Learning && subTopic != "" && currentExercise.None?
      ensures exists m :: m in messages && m.suggestion.Some? && m.suggestion.value != ""
    {
      var i :| 0 <= i < |messages| && CarriesSuggestion(messages[i]);
      assert messages[i] in messages;
    }

    /** The converse: in the learning phase, with a sub-topic, no exercise
        pending and some transcript entry whose suggestion is non-empty, the
        guard holds. */
    lemma AutoFetchGuardFromSuggestion()
      requires phase == Learning && subTopic != "" && currentExercise.None?
      requires exists m :: m in messages && m.suggestion.Some? && m.suggestion.value != ""
      ensures AutoFetchGuard()
    {
      var m :| m in messages && m.suggestion.Some? && m.suggestion.value != "";
      var i :| 0 <= i < |messages| && messages[i] == m;
      assert CarriesSuggestion(messages[i]);
    }

    /** `handleStart`: the topic is recorded before the call, so it stays even
        when the call fails. A quiz replaces the transcript with one system
        line and opens the quiz phase; a failure keeps phase, quiz and
        transcript and sets the quiz error. */
    method HandleStart(topic: string, outcome: Outcome<seq<QuizQuestion>>) returns (request: Request)
      requires Valid()
      modifies this
      ensures Valid()
      ensures request == QuizRequest(topic)
      ensures userGoal == topic && !isLoading
      ensures outcome.Success? ==>
        && quiz == outcome.value
        && messages == [ChatMessage(System, QuizIntro(topic), None)]
        && phase == Quiz && error == None
      ensures outcome.Failure? ==>
        && quiz == old(quiz) && messages == old(messages) && phase == old(phase)
        && error == Some(QuizError)
      ensures currentExercise == old(currentExercise) && progress == old(progress)
      ensures subTopic == old(subTopic) && graded == old(graded)
    {
      isLoading := true;
      error := None;
      userGoal := topic;
      request := QuizRequest(topic);
      match outcome {
        case Success(generated) =>
          quiz := generated;
          messages := [ChatMessage(System, QuizIntro(topic), None)];
          phase := Quiz;
        case Failure =>
          error := Some(QuizError);
      }
      isLoading := false;
    }

    /** `handleQuizComplete`: sends the goal, the quiz and the answers. A
        result sets the level and the sub-topic, appends the user's line and
        then the agent's line carrying the suggestion, and opens the learning
        phase; a failure keeps phase, level and transcript and sets the
        evaluation error. */
    method HandleQuizComplete(answers: seq<string>, outcome: Outcome<Evaluation>) returns (request: Request)
      requires Valid()
      modifies this
      ensures Valid()
      ensures request == EvaluationRequest(old(userGoal), old(quiz), answers)
      ensures !isLoading
      ensures outcome.Success? ==>
        && progress == old(progress).(level := outcome.value.level)
        && subTopic == outcome.value.suggestion
        && messages == old(messages) + [
             ChatMessage(User, QuizFinished, None),
             ChatMessage(Agent, EvaluationText(outcome.value.level, userGoal, outcome.value.suggestion),
                         Some(outcome.value.suggestion))]
        && phase == Learning && error == None
      ensures outcome.Failure? ==>
        && progress == old(progress) && subTopic == old(subTopic) && messages == old(messages)
        && phase == old(phase) && error == Some(EvaluationError)
      ensures userGoal == old(userGoal) && quiz == old(quiz) && currentExercise == old(currentExercise)
      ensures graded == old(graded)
      ensures outcome.Success? && outcome.value.suggestion != "" && old(currentExercise).None? ==> AutoFetchGuard()
    {
      isLoading := true;
      error := None;
      request := EvaluationRequest(userGoal, quiz, answers);
      match outcome {
        case Success(Evaluation(level, suggestion)) =>
          progress := progress.(level := level);
          subTopic := suggestion;
          var agentLine := ChatMessage(Agent, EvaluationText(level, userGoal, suggestion), Some(suggestion));
          messages := messages + [ChatMessage(User, QuizFinished, None), agentLine];
          if suggestion != "" {
            assert messages[|messages| - 1] == agentLine;
          }
          phase := Learning;
        case Failure =>
          error := Some(EvaluationError);
      }
      isLoading := false;
    }

    /** `fetchNextExercise`: asks for an exercise on `topic` at the current
        level (medium difficulty unless told otherwise). A result becomes the
        pending exercise and one agent line is appended; a failure keeps the
        exercise and the transcript and sets the exercise error. */
    method FetchNextExercise(topic: string, outcome: Outcome<Exercise>, difficulty: Difficulty := Medium)
      returns (request: Request)
      requires Valid()
      modifies this
      ensures Valid()
      ensures request == ExerciseRequest(userGoal, topic, progress.level, difficulty)
      ensures !isLoading
      ensures outcome.Success? ==>
        && currentExercise == Some(outcome.value)
        && messages == old(messages) + [ChatMessage(Agent, ExerciseIntro(topic), None)]
        && error == None
      ensures outcome.Failure? ==>
        && currentExercise == old(currentExercise) && messages == old(messages)
        && error == Some(ExerciseError)
      ensures phase == old(phase) && userGoal == old(userGoal) && quiz == old(quiz)
      ensures progress == old(progress) && subTopic == old(subTopic) && graded == old(graded)
    {
      isLoading := true;
      error := None;
      request := ExerciseRequest(userGoal, topic, progress.level, difficulty);
      match outcome {
        case Success(exercise) =>
          currentExercise := Some(exercise);
          messages := messages + [ChatMessage(Agent, ExerciseIntro(topic), None)];
        case Failure =>
          error := Some(ExerciseError);
      }
      isLoading := false;
    }

    /** The effect at the root component: when its guard holds it fetches an
        exercise on the current sub-topic at medium difficulty; otherwise it
        does nothing. */
    method AutoFetch(outcome: Outcome<Exercise>) returns (request: Option<Request>)
      requires Valid()
      modifies this
      ensures Valid()
      ensures !old(AutoFetchGuard()) ==> request == None && unchanged(this)
      ensures old(AutoFetchGuard()) ==>
        && request == Some(ExerciseRequest(userGoal, subTopic, progress.level, Medium))
        && !isLoading
        && (outcome.Success? ==>
              currentExercise == Some(outcome.value)
              && messages == old(messages) + [ChatMessage(Agent, ExerciseIntro(subTopic), None)]
              && error == None)
        && (outcome.Failure? ==>
              currentExercise == old(currentExercise) && messages == old(messages)
              && error == Some(ExerciseError))
      ensures phase == old(phase) && userGoal == old(userGoal) && quiz == old(quiz)
      ensures progress == old(progress) && subTopic == old(subTopic) && graded == old(graded)
      ensures outcome.Failure? ==> AutoFetchGuard() == old(AutoFetchGuard())
    {
      if AutoFetchGuard() {
        var sent := FetchNextExercise(subTopic, outcome);
        request := Some(sent);
      } else {
        request := None;
      }
    }

    /** `handleAnswerSubmit`: nothing happens without a pending exercise.
        Otherwise the answer is appended as a user line before the call, so it
        stays even when the call fails. Feedback is folded into the scoreboard
        with the heuristic verdict, appended as one agent line, the exercise is
        cleared and a fetch of the next exercise on the same sub-topic is
        scheduled; a failure schedules nothing and sets the feedback error. */
    method HandleAnswerSubmit(answer: string, timeTaken: real, outcome: Outcome<Feedback>)
      returns (request: Option<Request>, scheduled: Option<string>)
      requires Valid()
      modifies this
      ensures Valid()
      ensures old(currentExercise).None? ==> request == None && scheduled == None && unchanged(this)
      ensures old(currentExercise).Some? ==>
        && request == Some(FeedbackRequest(subTopic, old(currentExercise).value.question, answer,
                                           old(currentExercise).value.answer, timeTaken))
        && !isLoading
        && (outcome.Success? ==>
              && progress == Fold(old(progress), IsCorrect(outcome.value.feedback), timeTaken)
              && graded == old(graded) + [Graded(IsCorrect(outcome.value.feedback), timeTaken)]
              && messages == old(messages) + [ChatMessage(User, answer, None),
                                              ChatMessage(Agent, FeedbackText(outcome.value), None)]
              && currentExercise == None && error == None
              && scheduled == Some(subTopic))
        && (outcome.Failure? ==>
              && progress == old(progress) && graded == old(graded)
              && messages == old(messages) + [ChatMessage(User, answer, None)]
              && currentExercise == old(currentExercise) && error == Some(FeedbackError)
              && scheduled == None)
      ensures phase == old(phase) && userGoal == old(userGoal) && quiz == old(quiz) && subTopic == old(subTopic)
      ensures (old(phase == Learning && subTopic != "" && currentExercise.Some? && HasSuggestion(messages))
               && outcome.Success?) ==> AutoFetchGuard()
    {
      if currentExercise.None? {
        return None, None;
      }
      var exercise := currentExercise.value;
      isLoading := true;
      error := None;
      messages := messages + [ChatMessage(User, answer, None)];
      request := Some(FeedbackRequest(subTopic, exercise.question, answer, exercise.answer, timeTaken));
      match outcome {
        case Success(f) =>
          var correct := IsCorrect(f.feedback);
          ScoreboardFollowsFold(progress, graded, correct, timeTaken);
          progress := Fold(progress, correct, timeTaken);
          graded := graded + [Graded(correct, timeTaken)];
          messages := messages + [ChatMessage(Agent, FeedbackText(f), None)];
          currentExercise := None;
          scheduled := Some(subTopic);
          if old(HasSuggestion(messages)) {
            SuggestionSurvivesAppend(old(messages), messages[|old(messages)|..]);
            assert old(messages) + messages[|old(messages)|..] == messages;
          }
        case Failure =>
          error := Some(FeedbackError);
          scheduled := None;
      }
      isLoading := false;
    }
  }

  /** Folding one more answer into a scoreboard that holds the count and
      the mean of the earlier answers gives the count and the mean of all. */
  lemma ScoreboardFollowsFold(p: UserProgress, gs: seq<Graded>, correct: bool, time: real)
    requires p.totalQuestions == |gs| && p.correctAnswers == CountCorrect(gs) && p.averageTime == MeanTime(gs)
    ensures Fold(p, correct, time).totalQuestions == |gs + [Graded(correct, time)]|
    ensures Fold(p, correct, time).correctAnswers == CountCorrect(gs + [Graded(correct, time)])
    ensures Fold(p, correct, time).averageTime == MeanTime(gs + [Graded(correct, time)])
  {
    var gs' := gs + [Graded(correct, time)];
    assert gs'[..|gs'| - 1] == gs;
    MeanTimesCount(gs);
    assert SumTimes(gs') == SumTimes(gs) + time;
  }

  /** The mean times the count gives back the sum. */
  lemma MeanTimesCount(gs: seq<Graded>)
    ensures MeanTime(gs) * (|gs| as real) == SumTimes(gs)
  {
    if gs != [] {
      var n := |gs| as real;
      assert (SumTimes(gs) / n) * n == SumTimes(gs);
    }
  }
}
