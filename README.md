# LingoLeap tutor: session state machine, quiz stepper and message markup

LingoLeap is a browser tutor for English grammar. A learner picks a topic,
takes a short diagnostic quiz, and then works through exercises one at a
time. A hosted language model writes the quiz, grades it, writes each
exercise and comments on each answer. This project models the deterministic
logic around those calls and proves properties of it in Dafny:

- **Session state machine** (`App.tsx`, module `Session`). The session is one
  `App` object whose fields are the root component's state variables:
  phase, goal topic, quiz, pending exercise, transcript, progress,
  sub-topic, loading flag and error. Each event handler is a method that runs
  as one atomic step. The settled gateway call is passed in as an
  `Outcome`: `Success(value)` or `Failure`. Each handler returns the request
  it sends (module `Gateway`). A ghost list of the answers graded so far ties
  the scoreboard to the progress fold.
- **Progress tracker** (`App.tsx`, module `Progress`). This holds the
  correctness heuristic (`IsCorrect`) and the fold of one graded answer into
  the scoreboard (`Fold`, `FoldAll`). They are pure functions with lemmas:
  the counters, the running mean equal to the arithmetic mean, and
  correct answers never exceeding total questions.
- **Quiz stepper** (`components/QuizView.tsx`, module `QuizView`). A
  `QuizStepper` object has the question index, the collected answers and the
  current pick. Its `Valid()` invariant says there is one answer per question
  passed until the quiz is handed in. The progress-bar percentage is a
  function with a lemma about its bounds.
- **Message markup and answer area** (`components/LearningView.tsx`, modules
  `Markup` and `LearningView`). `Split` models `text.split(/(\*\*.*?\*\*)/g)`
  step by step, following the splitting loop of `String.prototype.split`.
  The lazy pattern is `MatchAt` and `FindClose`, and it is proved equal to a
  declarative `LazyBold` reading. `ParseMessage` renders the parts. The
  `AnswerBox` object holds the typed answer and the exercise start time;
  `HandleSubmit` and `HandleOptionClick` are its submissions.
- Module `Text` models the JavaScript string operations used: `includes`,
  `toLowerCase` and `trim`. Module `Types` holds the records of `types.ts`.

Clock readings (`Date.now()`) are method parameters, in milliseconds. Answer
times and the mean are `real`.

Behaviour of `App.tsx` worth knowing (the model follows the code):

- `handleStart` *replaces* the transcript with one system line. It does not
  append. The transcript is therefore append-only only from the quiz phase on.
- The topic is recorded before the quiz call, so it stays after a failure.
- `"That's not quite right, try again"` contains "right", so the heuristic
  judges it correct (`Progress.IsCorrectExamples`). So does "Incorrect.".
- The auto-fetch guard is not "once per sub-topic". A successful submission
  clears the exercise, and the suggestion line is still in the transcript.
  So the guard holds again at once (`HandleAnswerSubmit`'s last ensures), and
  the effect fetches an exercise immediately, on top of the one the 2-second
  timer schedules.

## Model

| member | source | states |
|---|---|---|
| Text.Contains | App.tsx:106 | `s.includes(p)` is true exactly when `p` occurs at some position of `s` |
| Text.ToLower | App.tsx:106 | lower-casing keeps the length, leaves no ASCII capital, turns each capital into the letter 32 code points above it and keeps every other unit |
| Text.ToLowerIdempotent | App.tsx:106 | lower-casing twice is lower-casing once, and a text without capitals is unchanged |
| Text.Trim | components/LearningView.tsx:33-36 | the trimmed text is empty exactly when the input is all white space; otherwise it neither starts nor ends with white space, and the input is that text with only white space around it |
| Progress.IsCorrect | App.tsx:106 | the verdict is true exactly when the lower-cased feedback contains "correct" or "right" at some position |
| Progress.IsCorrectExamples | App.tsx:106 | "Incorrect." and "That's not quite right, try again" are judged correct, case does not matter, and "Well done!" is judged wrong |
| Progress.Fold | App.tsx:108-118 | total questions grows by exactly one, correct answers by one exactly when the verdict is correct; mean times count stays the total time; level and per-topic map are unchanged; correct <= total is preserved |
| Progress.CountCorrect | App.tsx:110 | the number of answers judged correct never exceeds the number of answers |
| Progress.FoldAllTotals | App.tsx:108-118 | after any sequence of folds, the counters grew by the number of answers and of correct answers, and the total time grew by the sum of the times; level and per-topic map are unchanged |
| Progress.FoldAllMean | App.tsx:15-21 | from the initial 0/0 scoreboard with mean 0, after n folds the scoreboard holds n questions, at most n correct (the number judged correct), and the arithmetic mean of the n times (0 when n is 0) |
| Session.SuggestionSurvivesAppend | App.tsx:84 | appending transcript entries never loses an entry that carries a suggestion |
| Session.ScoreboardFollowsFold | App.tsx:108-118 | folding one answer into a scoreboard that holds the count, correct count and mean of earlier answers gives those of all answers |
| Session.MeanTimesCount | App.tsx:111 | the mean times the count of answers is the sum of their times |
| Session.App.constructor | App.tsx:11-25 | a session starts in the welcome phase with empty goal, quiz, transcript and sub-topic, no exercise, no error, not loading, and the Beginner 0/0 scoreboard |
| Session.App.CorrectNeverExceedsTotal | App.tsx:15-21 | in every valid session the correct answers never exceed the total questions |
| Session.App.HandleStart | App.tsx:27-42 | the topic is recorded whatever the outcome; success sets the quiz, replaces the transcript with exactly one system line and enters the quiz phase; failure keeps phase, quiz and transcript and sets the quiz error; loading ends false; remaining fields unchanged |
| Session.App.HandleQuizComplete | App.tsx:44-65 | sends goal, quiz and answers; success sets level and sub-topic, appends exactly the user line and then the agent line carrying the suggestion, enters the learning phase, and (non-empty suggestion, no exercise pending) makes the auto-fetch guard hold; failure keeps phase, level, sub-topic and transcript and sets the evaluation error |
| Session.App.FetchNextExercise | App.tsx:67-80 | sends goal, the given sub-topic, the level and the difficulty (medium by default); success stores the exercise and appends exactly one agent line; failure keeps exercise and transcript and sets the exercise error; error cleared on success, loading ends false both ways |
| Session.App.AutoFetchGuard | App.tsx:84 | definition of the effect's condition `appState === 'learning' && currentSubTopic && !currentExercise && messages.some(m => !!m.suggestion)`; its meaning is proved by `AutoFetchGuardMeans` and `AutoFetchGuardFromSuggestion`, and `HandleQuizComplete` and `HandleAnswerSubmit` ensure when it holds |
| Session.App.AutoFetchGuardMeans | App.tsx:84 | when the condition holds, some transcript entry has a non-empty suggestion (`messages.some(m => !!m.suggestion)`) |
| Session.App.AutoFetchGuardFromSuggestion | App.tsx:84 | conversely, learning phase, a sub-topic, no exercise pending and an entry with a non-empty suggestion make the condition hold |
| Session.App.AutoFetch | App.tsx:82-88 | the effect fetches an exercise on the current sub-topic at medium difficulty exactly when phase is learning, the sub-topic is non-empty, no exercise is pending and some entry carries a suggestion; otherwise nothing changes; a failed fetch changes none of the effect's four dependencies, and the condition stays as it was |
| Session.App.HandleAnswerSubmit | App.tsx:91-132 | no-op without a pending exercise; otherwise the user's answer is appended before the call and stays on failure; success folds the heuristic verdict and the time into the scoreboard, appends one agent line "feedback, blank line, next step", clears the exercise, schedules a fetch on the same sub-topic and leaves the auto-fetch guard holding; failure schedules nothing and sets the feedback error |
| Gateway.QuizData | services/geminiService.ts:68-72 | one row per question, in quiz order, with that question's text and correct label, and answer i in row i when there is one; read back without the `undefined` rows, the answers column is every answer in order, with answers beyond the last question dropped |
| Gateway.RowsCarryAnswers | services/geminiService.ts:68-72 | rows pairing question i with answer i (`undefined` past the end) carry every answer in order when there are no more answers than questions, and drop the extra answers otherwise |
| QuizView.ProgressPercent | components/QuizView.tsx:36 | the percentage times the number of questions is one hundred times the question's one-based position |
| QuizView.ProgressPercentBounds | components/QuizView.tsx:36 | the percentage (index+1)/length*100 lies in (0, 100] and is 100 exactly on the last question |
| QuizView.QuizStepper.constructor | components/QuizView.tsx:13-15 | the stepper starts at question 0 with no answers and no pick |
| QuizView.QuizStepper.Select | components/QuizView.tsx:53-56 | a click on an option makes that label (one of a-d) the pick and changes nothing else |
| QuizView.QuizStepper.HandleNext | components/QuizView.tsx:17-29 | no pick: nothing changes; with a pick: the pick is appended to the answers and cleared; before the last question the index moves on, on the last the new answer list is handed out and the index stays; until the first hand-in answers.length == index, so the first hand-in carries exactly one label (a-d) per question |
| Markup.FindClose | components/LearningView.tsx:48 | the lazy tail `.*?\*\*` tried from k closes, when it closes, at a "\*\*" at or after k that fits in the text |
| Markup.MatchAt | components/LearningView.tsx:48 | a match of the pattern at p ends at least four units later, within the text, opens with "\*\*" at p and closes with "\*\*"; without "\*\*" at p there is no match |
| Markup.FindCloseIsFirstPair | components/LearningView.tsx:48 | the lazy tail closes exactly at the first "**" at or after its start, provided no line terminator comes first |
| Markup.MatchAtIsLazyBold | components/LearningView.tsx:48 | the pattern matches at p up to e exactly when the text from p to e is "**", a single line without "**", then "**" |
| Markup.PlainSegmentHasNoBold | components/LearningView.tsx:48 | a stretch where the pattern matches nowhere contains no complete bold span |
| Markup.SplitFromFacts | components/LearningView.tsx:48 | the splitting loop's parts join back to the rest of the text, their number is odd, each captured part is the match found where it starts and no match starts inside a plain part |
| Markup.Split | components/LearningView.tsx:48 | joining the parts of the split reproduces the message exactly, and there is an odd number of parts (plain first and last) |
| Markup.SplitCaptured | components/LearningView.tsx:48 | every captured (odd) part is a complete lazy match, and it is the match the pattern finds where that part starts in the message |
| Markup.SplitPlain | components/LearningView.tsx:48 | the pattern matches at no position inside a plain (even) part, so every match taken is the leftmost one left; no plain part contains a bold span |
| Markup.SplitPart | components/LearningView.tsx:48 | part i is the text found at its start position (the total length of the parts before it), and it lies where the splitting loop puts it |
| Markup.SplitLeftmostExample | components/LearningView.tsx:48 | "\*\*a\*\*b\*\*" splits into "", "\*\*a\*\*" and "b\*\*": the leftmost match is taken |
| Markup.SliceInner | components/LearningView.tsx:51 | `slice(2, -2)` of a part of four or more units is what lies between its first two and last two units; shorter parts give the empty text |
| Markup.Render | components/LearningView.tsx:50-53 | a part is shown bold exactly when it starts and ends with "\*\*", then as the text between the delimiters (empty when they overlap); otherwise it is shown unchanged |
| Markup.ParseMessage | components/LearningView.tsx:47-55 | one segment per part of the split, in order: a part is shown bold exactly when it starts and ends with "\*\*", so one without both delimiters is shown plain; a plain segment shows its part unchanged, a bold one shows the part without its two-unit delimiters (the empty text when they overlap), and every captured part is shown bold |
| Markup.CapturedPartsAreBold | components/LearningView.tsx:48-50 | every captured part starts and ends with "\*\*", so it is rendered bold |
| Markup.CapturedPartsRenderBold | components/LearningView.tsx:48-51 | every captured part is rendered bold as the text between its delimiters, and that text has no "**" and no line terminator |
| Markup.PlainPartsRenderBoldOnlyAcrossLines | components/LearningView.tsx:50-51 | a plain part is rendered bold only when it is shorter than four units or a line terminator sits between its "**" delimiters |
| Markup.FirstPairBold | components/LearningView.tsx:48 | a single-line text from "**" to "**" contains a complete bold span |
| Markup.SplitExample | components/LearningView.tsx:48 | "Try \*\*this\*\*." splits into "Try ", "\*\*this\*\*" and "." |
| Markup.ParseMessageExamples | components/LearningView.tsx:47-55 | "Try \*\*this\*\*." renders as plain "Try ", bold "this", plain "." |
| Markup.ParseMessageLoneDelimiter | components/LearningView.tsx:47-55 | a lone "\*\*" is one part with overlapping delimiters and renders as an empty bold segment |
| LearningView.ElapsedSeconds | components/LearningView.tsx:35 | a thousand times the elapsed seconds is the milliseconds between the two readings, never negative when the clock did not go back |
| LearningView.AnswerBox.constructor | components/LearningView.tsx:18-19 | the input starts empty and the start time at zero |
| LearningView.AnswerBox.Edit | components/LearningView.tsx:109 | typing (or a voice transcript) replaces the input and leaves the start time |
| LearningView.AnswerBox.ExerciseChanged | components/LearningView.tsx:26-30 | the start time is reset to now exactly when a new exercise arrives |
| LearningView.AnswerBox.HandleSubmit | components/LearningView.tsx:32-39 | submits only when the trimmed input is non-empty; the answer is the trimmed text, the time is the seconds since the exercise arrived, and the input is cleared; a blank input submits nothing and stays |
| LearningView.AnswerBox.HandleOptionClick | components/LearningView.tsx:41-45 | the option text is submitted verbatim, with no trimming or emptiness check, with the seconds since the exercise arrived |

## Left out

- Gateway calls (services/geminiService.ts): the model client, prompt texts and JSON parsing are left out. Each call is the request a handler returns plus the outcome passed to it. Results are taken as typed, as the cast does. The `console.error(e)` logging in each handler's failure path (App.tsx:38, 61, 76, 128) is output only and is left out.
- React scheduling: when an effect runs, batched state updates, and re-rendering are left out. Each handler is one atomic step. The in-flight state (loading true, error cleared, the user's answer shown) is not a separate state. `AutoFetch` is the effect. The environment runs it after a change of phase, sub-topic, pending exercise or transcript, the effect's four dependencies (App.tsx:88).
- Session.App.AutoFetch: the model does not record which dependencies changed, so it does not rule out running the effect again after a failed fetch. `AutoFetch`'s last ensures shows that a failure leaves the condition as it was but changes none of the four dependencies, so the program itself does not retry. The error screen (App.tsx:135-137) then replaces the view.
- Session.App.HandleAnswerSubmit: the 2000 ms timer appears only as the sub-topic the scheduled fetch is for. When it fires, its interleaving with other calls and stale closures are not modelled.
- Concurrency: two gateway calls in flight at once are not modelled. This includes the immediate auto-fetch and the timed fetch after a submission.
- Characters: a Dafny `char` is a Unicode scalar value, while JavaScript's `length`, `slice` and regex `.` count UTF-16 code units. Characters outside the Basic Multilingual Plane (two units in JavaScript, one here) and lone surrogates are not represented. Every delimiter, white-space unit and search string the model inspects is one such unit, so no stated result depends on this.
- Text.ToLower: maps only ASCII capitals, not the full Unicode case mapping of `toLowerCase`. Feedback prose outside ASCII can differ from the browser's.
- Floating point: answer times and the mean are exact reals. IEEE rounding and `toFixed` are not modelled.
- The error-first render branch (App.tsx:135-137) and all other rendering, styling and scrolling are left out. The error field that it shows is modelled.
- components/VoiceInputButton.tsx (browser speech API), components/WelcomeScreen.tsx (forwards the topic) and components/ProgressTracker.tsx (display only) are not part of this model. A voice transcript is an `Edit`.
- QuizView.QuizStepper.Select: requires an option label a-d, because the option buttons only offer the keys of the question's options object.
- The exercise option buttons are not modelled. `HandleOptionClick` takes the option text as a parameter.
- The `topicProgress` map is never written; it is kept empty and no behaviour is modelled for it.
