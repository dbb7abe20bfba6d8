/** The answer area of the learning screen: the typed answer, the moment the
    current exercise was shown, and the two ways an answer is handed to the
    session. Clock readings are milliseconds and are passed in. */
module LearningView {
  import opened Types
  import opened Text

  /** `(end - start) / 1000`: the seconds between two clock readings, so
      that a thousand times the result is the milliseconds elapsed. */
  function ElapsedSeconds(startMs: int, endMs: int): (r: real)
    ensures r * 1000.0 == (endMs - startMs) as real
    ensures startMs <= endMs ==> 0.0 <= r
  {
    (endMs - startMs) as real / 1000.0
  }

  class AnswerBox {
    var userAnswer: string
    var startTime: int

    /** An empty input and a clock reading of zero. */
    constructor ()
      ensures userAnswer == "" && startTime == 0
    {
      userAnswer := "";
      startTime := 0;
    }

    /** Typing in the input, or a transcript from the voice button. */
    method Edit(text: string)
      modifies this
      ensures userAnswer == text && startTime == old(startTime)
    {
      userAnswer := text;
    }

    /** The effect on the exercise: the clock restarts whenever an exercise
        arrives, and not when it is cleared. */
    method ExerciseChanged(exercise: Option<Exercise>, now: int)
      modifies this
      ensures startTime == (if exercise.Some? then now else old(startTime))
      ensures userAnswer == old(userAnswer)
    {
      if exercise.Some? {
        startTime := now;
      }
    }

    /** `handleSubmit`: an input that is blank after trimming submits nothing
        and stays. Otherwise the trimmed text is submitted, never empty and
        without white space at either end, with the seconds since the
        exercise was shown, and the input is cleared. */
    method HandleSubmit(now: int) returns (submitted: Option<Submission>)
      modifies this
      ensures AllSpace(old(userAnswer)) ==> submitted == None && userAnswer == old(userAnswer)
      ensures !AllSpace(old(userAnswer)) ==>
        && submitted == Some(Submission(Trim(old(userAnswer)), ElapsedSeconds(startTime, now)))
        && userAnswer == ""
      ensures submitted.Some? ==>
        && submitted.value.answer != []
        && !IsSpace(submitted.value.answer[0])
        && !IsSpace(submitted.value.answer[|submitted.value.answer| - 1])
      ensures startTime == old(startTime)
    {
      submitted := None;
      if Trim(userAnswer) != [] {
        var timeTaken := ElapsedSeconds(startTime, now);
        submitted := Some(Submission(Trim(userAnswer), timeTaken));
        userAnswer := "";
      }
    }

    /** `handleOptionClick`: the option text is submitted as it is, without
        trimming and even when empty, with the seconds since the exercise was
        shown; nothing in the answer area changes. */
    method HandleOptionClick(option: string, now: int) returns (submitted: Submission)
      ensures submitted.answer == option
      ensures submitted.timeTaken * 1000.0 == (now - startTime) as real
    {
      var timeTaken := ElapsedSeconds(startTime, now);
      submitted := Submission(option, timeTaken);
    }
  }
}
