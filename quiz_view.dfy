/** The diagnostic quiz screen: it shows one question at a time, remembers
    the option the learner picked, and collects the picked labels in
    question order until the last question is answered. */
module QuizView {
  import opened Types

  /** The share of the quiz reached, shown as the width of the progress bar:
      question `index` of `count`, counting from one. */
  function ProgressPercent(index: nat, count: nat): (r: real)
    requires index < count
    ensures r * (count as real) == (index + 1) as real * 100.0
  {
    ((index + 1) as real / count as real) * 100.0
  }

  /** The bar is never empty and never overfull, and it is full exactly on
      the last question. */
  lemma ProgressPercentBounds(index: nat, count: nat)
    requires index < count
    ensures 0.0 < ProgressPercent(index, count) <= 100.0
    ensures ProgressPercent(index, count) == 100.0 <==> index == count - 1
  {
    var k := (index + 1) as real;
    var n := count as real;
    var f := k / n;
    assert f * n == k;
    assert 0.0 < f <= 1.0;
    assert ProgressPercent(index, count) == f * 100.0;
    if index < count - 1 {
      assert k < n;
      assert f < 1.0;
    } else {
      assert k == n;
      assert f == 1.0;
    }
  }

  class QuizStepper {
    const questions: seq<QuizQuestion>
    var index: nat
    var answers: seq<string>
    var selected: Option<string>

    /** The index stays on a question (or at zero for an empty quiz); until
        the quiz is handed in there is one answer per question passed, and
        answers beyond that only accumulate on the last question. Every
        answer and the selection are option labels. */
    ghost predicate Valid()
      reads this
    {
      && (index == 0 || index < |questions|)
      && index <= |answers|
      && (|answers| > index ==> index + 1 >= |questions|)
      && (forall i :: 0 <= i < |answers| ==> IsOptionKey(answers[i]))
      && (selected.Some? ==> IsOptionKey(selected.value))
    }

    /** The quiz has been handed in at least once. */
    ghost predicate Completed()
      reads this
    {
      |answers| > index
    }

    /** The screen as it first appears: the first question, nothing picked. */
    constructor (questions: seq<QuizQuestion>)
      ensures Valid() && !Completed()
      ensures this.questions == questions && index == 0 && answers == [] && selected == None
    {
      this.questions := questions;
      index := 0;
      answers := [];
      selected := None;
    }

    /** A click on one of the option buttons of the question shown. */
    method Select(key: string)
      requires Valid() && IsOptionKey(key)
      modifies this
      ensures Valid()
      ensures selected == Some(key) && index == old(index) && answers == old(answers)
    {
      selected := Some(key);
    }

    /** `handleNext`: without a pick nothing happens. With one, the pick is
        appended to the answers and cleared; before the last question the
        index moves on, and on the last the full answer list is handed to the
        completion callback, returned here. */
    method HandleNext() returns (completed: Option<seq<string>>)
      requires Valid()
      modifies this
      ensures Valid()
      ensures old(selected).None? ==> completed == None && unchanged(this)
      ensures old(selected).Some? ==>
        && answers == old(answers) + [old(selected).value]
        && selected == None
        && (if old(index) + 1 < |questions|
            then index == old(index) + 1 && completed == None
            else index == old(index) && completed == Some(answers))
      ensures !old(Completed()) && completed.None? ==> !Completed()
      ensures !old(Completed()) && completed.Some? && questions != [] ==> |completed.value| == |questions|
      ensures completed.Some? ==> forall i :: 0 <= i < |completed.value| ==> IsOptionKey(completed.value[i])
    {
      completed := None;
      if selected.Some? && selected.value != "" {
        var newAnswers := answers + [selected.value];
        answers := newAnswers;
        selected := None;
        if index < |questions| - 1 {
          index := index + 1;
        } else {
          completed := Some(newAnswers);
        }
      }
    }
  }
}
