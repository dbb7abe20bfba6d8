/** The progress tracker: the correctness heuristic applied to the feedback
    prose, and the fold of one graded answer into the scoreboard. */
module Progress {
  import opened Types
  import opened Text

  /** The heuristic judgement of a feedback text: the lower-cased prose
      mentions "correct" or "right" somewhere. */
  function IsCorrect(feedback: string): (r: bool)
    ensures r <==> ((exists i :: 0 <= i <= |feedback| && OccursAt(ToLower(feedback), "correct", i))
                    || (exists i :: 0 <= i <= |feedback| && OccursAt(ToLower(feedback), "right", i)))
  {
    Contains(ToLower(feedback), "correct") || Contains(ToLower(feedback), "right")
  }

  /** The heuristic is blind to negation: "Incorrect." and "That's not quite
      right, try again" are both judged correct, capitals do not matter, and
      praise that names neither word is judged wrong. */
  lemma IsCorrectExamples()
    ensures IsCorrect("Incorrect.")
    ensures IsCorrect("That's not quite right, try again")
    ensures IsCorrect("CORRECT!")
    ensures !IsCorrect("Well done!")
  {
    assert OccursAt(ToLower("Incorrect."), "correct", 2);
    assert OccursAt(ToLower("That's not quite right, try again"), "right", 17);
    assert OccursAt(ToLower("CORRECT!"), "correct", 0);
    var w := ToLower("Well done!");
    assert w == "well done!";
    assert forall i :: 0 <= i <= |w| ==> !OccursAt(w, "correct", i) && !OccursAt(w, "right", i) by {
      forall i | 0 <= i <= |w| ensures !OccursAt(w, "correct", i) && !OccursAt(w, "right", i) {
        if i + 5 <= |w| {
          assert w[i..i + 5][0] == w[i];
        }
      }
    }
  }

  /** One graded answer: the heuristic verdict and the seconds it took. */
  datatype Graded = Graded(correct: bool, time: real)

  /** Folds one graded answer into the scoreboard. The count of questions
      grows by one, the count of correct answers by one exactly when the
      answer was judged correct, and the mean is updated so that mean times
      count stays the total time; level and per-topic map are untouched. */
  function Fold(p: UserProgress, correct: bool, time: real): (r: UserProgress)
    ensures r.totalQuestions == p.totalQuestions + 1
    ensures r.correctAnswers == if correct then p.correctAnswers + 1 else p.correctAnswers
    ensures r.averageTime * (r.totalQuestions as real) == p.averageTime * (p.totalQuestions as real) + time
    ensures r.level == p.level && r.topicProgress == p.topicProgress
    ensures p.correctAnswers <= p.totalQuestions ==> r.correctAnswers <= r.totalQuestions
  {
    var totalQuestions := p.totalQuestions + 1;
    var correctAnswers := if correct then p.correctAnswers + 1 else p.correctAnswers;
    var totalTime := p.averageTime * (p.totalQuestions as real) + time;
    p.(totalQuestions := totalQuestions, correctAnswers := correctAnswers,
       averageTime := totalTime / (totalQuestions as real))
  }

  /** Successive folds of the answers in `gs`, oldest first. */
  function FoldAll(p: UserProgress, gs: seq<Graded>): UserProgress
  {
    if gs == [] then p
    else
      var last := gs[|gs| - 1];
      Fold(FoldAll(p, gs[..|gs| - 1]), last.correct, last.time)
  }

  /** The sum of the answer times in `gs`. */
  function SumTimes(gs: seq<Graded>): real
  {
    if gs == [] then 0.0 else SumTimes(gs[..|gs| - 1]) + gs[|gs| - 1].time
  }

  /** The arithmetic mean of the answer times in `gs`, 0 when there are none. */
  function MeanTime(gs: seq<Graded>): real
  {
    if gs == [] then 0.0 else SumTimes(gs) / (|gs| as real)
  }

  /** The number of answers in `gs` judged correct. */
  function CountCorrect(gs: seq<Graded>): (n: nat)
    ensures n <= |gs|
  {
    if gs == [] then 0 else CountCorrect(gs[..|gs| - 1]) + (if gs[|gs| - 1].correct then 1 else 0)
  }

  /** Folding a sequence counts its answers and its correct answers, keeps
      the total time, and touches neither level nor per-topic map. */
  lemma {:induction false} FoldAllTotals(p: UserProgress, gs: seq<Graded>)
    ensures FoldAll(p, gs).totalQuestions == p.totalQuestions + |gs|
    ensures FoldAll(p, gs).correctAnswers == p.correctAnswers + CountCorrect(gs)
    ensures FoldAll(p, gs).averageTime * (FoldAll(p, gs).totalQuestions as real)
            == p.averageTime * (p.totalQuestions as real) + SumTimes(gs)
    ensures FoldAll(p, gs).level == p.level && FoldAll(p, gs).topicProgress == p.topicProgress
  {
    if gs != [] {
      FoldAllTotals(p, gs[..|gs| - 1]);
    }
  }

  /** From a scoreboard that has seen no answers (average 0), the scoreboard
      after n folds holds n questions, the number judged correct (never more
      than n), and the arithmetic mean of the n times; the mean reads 0 when
      n is 0. */
  lemma {:induction false} FoldAllMean(p: UserProgress, gs: seq<Graded>)
    requires p.totalQuestions == 0 && p.correctAnswers == 0 && p.averageTime == 0.0
    ensures FoldAll(p, gs).totalQuestions == |gs|
    ensures FoldAll(p, gs).correctAnswers == CountCorrect(gs) <= |gs|
    ensures FoldAll(p, gs).averageTime == MeanTime(gs)
    ensures FoldAll(p, gs).level == p.level
  {
    FoldAllTotals(p, gs);
  }
}
