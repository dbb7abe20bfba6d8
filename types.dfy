/** The records the tutor passes around: the session phase, quiz questions,
    exercises, chat messages and the learner's progress scoreboard. */
module Types {

  /** The three coarse screens of a session. */
  datatype Phase = Welcome | Quiz | Learning

  /** The proficiency level the evaluation assigns. */
  datatype Level = Beginner | Intermediate | Advanced

  /** The level as it is spelled inside chat messages and requests. */
  function LevelName(l: Level): string
  {
    match l
    case Beginner => "Beginner"
    case Intermediate => "Intermediate"
    case Advanced => "Advanced"
  }

  /** The four labelled options of a diagnostic question. */
  datatype Options = Options(a: string, b: string, c: string, d: string)

  /** The option labels, in the order the options object lists them. */
  const OptionKeys: seq<string> := ["a", "b", "c", "d"]

  predicate IsOptionKey(k: string)
  {
    k in OptionKeys
  }

  /** A diagnostic quiz question; `answer` is the label of the correct option. */
  datatype QuizQuestion = QuizQuestion(question: string, options: Options, answer: string)

  datatype ExerciseKind = MultipleChoice | FillInTheBlank

  /** An exercise; `options` is present for multiple-choice exercises only. */
  datatype Exercise = Exercise(kind: ExerciseKind, question: string, options: Option<seq<string>>, answer: string)

  datatype Sender = User | Agent | System

  /** One transcript entry; only the evaluation message carries a suggestion. */
  datatype ChatMessage = ChatMessage(sender: Sender, text: string, suggestion: Option<string>)

  /** A JavaScript `!!m.suggestion`: present and not the empty string. */
  predicate CarriesSuggestion(m: ChatMessage)
  {
    m.suggestion.Some? && m.suggestion.value != ""
  }

  /** The per-topic breakdown declared by the progress record (never written). */
  datatype TopicScore = TopicScore(correct: nat, total: nat)

  /** The cumulative scoreboard; `averageTime` is in seconds. */
  datatype UserProgress = UserProgress(
    level: Level,
    correctAnswers: nat,
    totalQuestions: nat,
    averageTime: real,
    topicProgress: map<string, TopicScore>)

  /** The scoreboard a session starts with. */
  const InitialProgress: UserProgress := UserProgress(Beginner, 0, 0, 0.0, map[])

  /** What the answer area hands to the session: the answer and the seconds it took. */
  datatype Submission = Submission(answer: string, timeTaken: real)

  datatype Option<+T> = None | Some(value: T)
}
