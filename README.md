# Quiz session engine, modelled in Dafny

This project models the quiz session engine of a Next.js quiz application.
The user picks a difficulty, themes, a question count and a time per question.
A language-model service generates multiple-choice questions. The user answers
each one against a countdown, and a results page scores and reviews the session.

The model covers the engine, not the React plumbing:

- **Session store** (`QuizContext`). `quizReducer` is the total function
  `Apply(state, action)` over `QuizData`. The getters `getCurrentQuestion`,
  `getProgress`, `getScore`, `isLastQuestion` and `isFirstQuestion` are also
  here. `getScore` keeps its counting loop as the method `GetScore`. The
  provider that owns the live state is the class `QuizStore`, and its only
  mutator is `Dispatch`.
- **Derived projections** (`QuizHooks`). These are the navigation flags, the
  answered count, the completion percentage and the time statistics. The one
  guarded transition, `goToNextWithValidation`, is here too.
- **Countdown** (`UseTimer`, `TimerView`). `Timer` holds the `timeLeft`,
  `totalTime` and `isRunning` cells. `Tick` stands for one interval callback.
  `TimerComponent` adds the flag that lets `onTimeUp` fire once per interval,
  and the reset and restart when the interval length changes.
- **Flow controller** (`QuizScreen`). `QuizPage` owns a timer keyed by the
  cursor, and its handlers turn selection, next, previous and expiry into
  dispatches. Each handler is tied to a pure function of the state it was
  rendered with (`SelectEffect`, `NextEffect`, `PreviousEffect`,
  `TimeUpEffect`).
- **Results and room creation** (`ResultScreen`, `CreateRoom`). These cover the
  score bands, the duration text, the review rows, the form schema, the theme
  toggle and the submit sequence. The generator's answer is a parameter.

`Math.round(a / b)` is written `(2a + b) / (2b)` (`Numeric.RoundDiv`). This is
the exact ratio rounded half up, because Dafny's `/` floors for a positive
divisor and `Math.round(x)` is `floor(x + 1/2)`. The application rounds an
IEEE double instead. For the percentages the two can differ by one at a .5
boundary (see "## Left out").

In these places the code does something a reader might not expect, and the model follows the code:

- `NEXT_QUESTION` with no questions sets the cursor to -1. The cursor invariant
  holds only in the weaker form `CursorInRange`, which allows -1 or 0 when there
  are no questions.
- `SET_QUESTIONS` resets neither the cursor nor `isCompleted`. A new quiz
  started without `RESET_QUIZ` keeps a stale cursor and completion flag, so
  `CursorStaysInRange` excludes `SET_QUESTIONS`.
- `startTimer` does not look at `timeLeft`, so starting an expired timer sets
  `isRunning`. No tick follows, because no interval runs at zero.
- Time running out on an unanswered question before the last one does not
  advance (`TimeUpUnansweredStays`). The validated "next" reads the slot from
  the state rendered before the event, and that slot is still empty. The timer
  is not remounted either, and its flag keeps it from firing again
  (`QuizPage.SecondsAfterStall`).
- Time-up stores the time the timer reports as spent. At expiry this is the
  whole interval (`QuizPage.Second`).

## Model

| member | source | states |
|---|---|---|
| `Numeric.RoundPercent` | src/contexts/QuizContext.tsx:203 | `Math.round(a/b*100)` on the exact ratio: the integer r with 2br <= 200a + b < 2br + 2b; it lies in [0,100] when 0 <= a <= b, and it is 100 at a = b and 0 at a = 0 |
| `QuizContext.Apply` | src/contexts/QuizContext.tsx:36-107 | each reducer step keeps the cursor at or above -1, never clears completion except on reset, and changes the questions and the slot count only through the loaders and the reset |
| `QuizContext.SetConfigAllocatesSlots` | src/contexts/QuizContext.tsx:38-46 | SET_CONFIG stores the config and makes `quantityQuestions` empty slots `{"",0}`; the questions, the cursor and the completion flag are unchanged |
| `QuizContext.SetQuestionsReallocatesSlots` | src/contexts/QuizContext.tsx:48-56 | SET_QUESTIONS makes one empty slot per question, whatever size the config set; the config, the cursor and the completion flag are unchanged |
| `QuizContext.NextQuestionClamps` | src/contexts/QuizContext.tsx:58-66 | the cursor becomes min(c+1, n-1): it stays in range for n >= 1, the last index is a fixed point, with no questions it becomes -1, and nothing else changes |
| `QuizContext.PreviousQuestionClamps` | src/contexts/QuizContext.tsx:68-73 | the cursor becomes max(c-1, 0), never negative, and nothing else changes |
| `QuizContext.GoToQuestionClamps` | src/contexts/QuizContext.tsx:86-93 | the cursor becomes max(0, min(i, n-1)): 0 for a negative i, i when in range, n-1 past the end, always in [0, max(0, n-1)]; nothing else changes |
| `QuizContext.SetAnswerOverwritesSlot` | src/contexts/QuizContext.tsx:75-84 | slot i becomes exactly `{answer, time}`; the length, every other slot and the rest of the state are unchanged |
| `QuizContext.CompleteQuizIdempotent` | src/contexts/QuizContext.tsx:95-99 | COMPLETE_QUIZ changes only `isCompleted`, and applying it twice equals applying it once |
| `QuizContext.ResetQuizFromAnyState` | src/contexts/QuizContext.tsx:101-102 | RESET_QUIZ returns the initial state from any state |
| `QuizContext.CursorStaysInRange` | src/contexts/QuizContext.tsx:36-107 | any run of actions without SET_QUESTIONS keeps the cursor on a question, or at -1 or 0 when there are none |
| `QuizContext.AlignmentKept` | src/contexts/QuizContext.tsx:38-56 | once slots and questions have equal length, any run of actions without SET_CONFIG keeps it so |
| `QuizContext.GetCurrentQuestion` | src/contexts/QuizContext.tsx:178-186 | none exactly when there are no questions or the cursor is off the list (past the end, or -1 which reads undefined), else the question under the cursor |
| `QuizContext.IsLastQuestion` | src/contexts/QuizContext.tsx:207-209 | true exactly on the cursors NEXT_QUESTION leaves in place (with no questions, the cursor -1); with questions it is the final question |
| `QuizContext.IsFirstQuestion` | src/contexts/QuizContext.tsx:211-213 | true exactly on the cursor PREVIOUS_QUESTION leaves in place; with questions it is the first question |
| `QuizContext.GetProgress` | src/contexts/QuizContext.tsx:188-193 | current is cursor+1, total is the question count; the percentage is 0 with no questions, in [0,100] for an in-range cursor, 100 on the last question |
| `QuizContext.CountCorrectIsCorrectIndices` | src/contexts/QuizContext.tsx:195-201 | the correct count is the number of indices whose slot answer equals the question's answer (a missing slot counts as wrong), at most the question count |
| `QuizContext.ScorePercentage` | src/contexts/QuizContext.tsx:202-204 | the score percentage lies in [0,100], is 0 with no questions or none correct, and 100 when all are correct |
| `QuizContext.GetScore` | src/contexts/QuizContext.tsx:195-205 | the forEach loop returns the number of correct indices, the question count and the rounded percentage in [0,100] |
| `QuizContext.QuizStore.constructor` | src/contexts/QuizContext.tsx:136-137 | the provider starts from the initial state |
| `QuizContext.QuizStore.Dispatch` | src/contexts/QuizContext.tsx:137-176 | a dispatch replaces the state by the reducer's result |
| `QuizHooks.CurrentSlot` | src/hooks/useQuizHooks.ts:46 | the slot under the cursor exists exactly when the cursor indexes the answers, and is that slot |
| `QuizHooks.CurrentAnswer` | src/hooks/useQuizHooks.ts:68 | non-empty exactly when the slot exists with a non-empty answer, and then that answer |
| `QuizHooks.CanGoNext` | src/hooks/useQuizHooks.ts:15-18 | true iff the slot under the cursor exists and its answer is non-empty |
| `QuizHooks.CanGoPrevious` | src/hooks/useQuizHooks.ts:33 | true iff the cursor is not 0 |
| `QuizHooks.GoToNextWithValidation` | src/hooks/useQuizHooks.ts:20-26 | dispatches NEXT_QUESTION and returns true exactly when the rendered state can go next; otherwise leaves the store alone and returns false |
| `QuizHooks.IsAnswerSelected` | src/hooks/useQuizHooks.ts:52-54 | true iff the current slot exists and holds exactly that answer; a selected non-empty answer enables next |
| `QuizHooks.HasAnsweredCurrentQuestion` | src/hooks/useQuizHooks.ts:56-58 | agrees with canGoNext on every state |
| `QuizHooks.AnsweredCount` | src/hooks/useQuizHooks.ts:60-64 | the answered count never exceeds the slot count |
| `QuizHooks.AnsweredCountIsNonEmptySlots` | src/hooks/useQuizHooks.ts:126-128 | the answered count is the number of slots whose answer is not "" |
| `QuizHooks.AnsweredCountAfterAnswer` | src/hooks/useQuizHooks.ts:60-64 | writing a non-empty answer adds one to the count if the slot was empty and nothing otherwise |
| `QuizHooks.CompletionPercentage` | src/hooks/useQuizHooks.ts:85-92 | 0 with no questions or no answers, in [0,100] while slots do not outnumber questions, 100 when every question is answered |
| `QuizHooks.IsQuizReady` | src/hooks/useQuizHooks.ts:94-96 | true iff there is a question; then an in-range cursor has a current question |
| `QuizHooks.TotalTimeSpent` | src/hooks/useQuizHooks.ts:102-106 | the summed time is at least every single slot's time, and 0 when no slot has time |
| `QuizHooks.TotalTimeSpentAppend` | src/hooks/useQuizHooks.ts:102-106 | the total time of joined slot lists is the sum of their totals, so every slot counts once, answered or not |
| `QuizHooks.TotalTimeSpentAfterWrite` | src/hooks/useQuizHooks.ts:102-106 | overwriting one slot swaps its time in the total and changes nothing else |
| `QuizHooks.TotalTimeSpentEmptySlots` | src/hooks/useQuizHooks.ts:102-106 | freshly allocated slots add up to no time |
| `QuizHooks.AverageTimePerQuestion` | src/hooks/useQuizHooks.ts:108-114 | 0 when nothing is answered, else the total over the answered count rounded half up |
| `UseTimer.Timer.constructor` | src/hooks/useTimer.ts:5-9 | both time cells start at the whole interval, stopped |
| `UseTimer.Timer.ChangeInitialMinutes` | src/hooks/useTimer.ts:11-20 | a new interval length resets both cells to it and stops, with no elapsed time carried over; the same length changes nothing |
| `UseTimer.Timer.Start` | src/hooks/useTimer.ts:22-24 | start only sets the running flag, whatever the time left |
| `UseTimer.Timer.Reset` | src/hooks/useTimer.ts:26-37 | both cells become 60 times the given minutes, or the hook's own minutes when the argument is absent or 0; stopped, nothing spent |
| `UseTimer.Timer.Tick` | src/hooks/useTimer.ts:56-66 | while running with time left, a tick at 1 second goes to 0 and stops, otherwise it takes exactly one second; time spent grows by one; with no interval nothing changes; time left stays in [0, total] |
| `UseTimer.Timer.TimeSpent` | src/hooks/useTimer.ts:39-41 | time spent plus time left is the total, and time spent lies in [0, total] |
| `UseTimer.Timer.ProgressPercentage` | src/hooks/useTimer.ts:51-54 | 0 with a zero interval or nothing spent, 100 at expiry, always in [0,100] |
| `UseTimer.Timer.IsTimeUp` | src/hooks/useTimer.ts:99 | time is up iff the whole interval has been spent, and the progress then reads 100 (0 for an empty interval) |
| `UseTimer.FormatTime` | src/hooks/useTimer.ts:43-49 | the text ends in a colon and two characters |
| `UseTimer.FormatTimeRoundTrip` | src/hooks/useTimer.ts:43-49 | the seconds field is two digits worth s mod 60, below 60, and reading the minutes and seconds back gives the input |
| `UseTimer.FiveSecondsAfterReset` | src/hooks/useTimer.ts:22-66 | after reset(2) nothing is spent; after start and five ticks, 5 seconds are spent and 115 remain |
| `TimerView.TimerComponent.constructor` | src/components/TimerComponent.tsx:31-58 | mounting creates the timer, clears the flag, resets to the interval and starts it when auto-start is set |
| `TimerView.TimerComponent.ChangeInterval` | src/components/TimerComponent.tsx:50-58 | the hook's own length becomes the new one in every case; a new length clears the flag, resets the timer to it and restarts it under auto-start; the same length changes nothing |
| `TimerView.TimerComponent.AfterRender` | src/components/TimerComponent.tsx:60-71 | onTimeUp fires iff there is a callback, the time is up and the flag is clear; it then sets the flag; a set flag suppresses firing; the flag clears only with time on the clock; at most one firing per interval |
| `TimerView.TimerComponent.Tick` | src/components/TimerComponent.tsx:33-43 | one interval callback of the owned timer: while running with time left, the last second goes to 0 and stops, any other takes one second off and keeps running, and a second is spent; otherwise nothing moves; the interval length and the one-firing invariant are kept |
| `TimerView.TimerComponent.GetTimeSpent` | src/components/TimerComponent.tsx:45-48 | the handle's getTimeSpent is the timer's own |
| `TimerView.TimerComponent.ResetTimer` | src/components/TimerComponent.tsx:45-48 | the handle's resetTimer is the timer's own: stopped, nothing spent, both cells at the given minutes or, when absent or 0, at the component's own interval; the hook's length and the flag stay; a new interval begins for the firing count |
| `TimerView.IsLowTime` | src/components/TimerComponent.tsx:80 | low time iff 0 < timeLeft <= 30 |
| `TimerView.IsCriticalTime` | src/components/TimerComponent.tsx:81 | critical iff 0 < timeLeft <= 10; critical implies low; never at 0 |
| `TimerView.StatusLabel` | src/components/TimerComponent.tsx:118-122 | "Em andamento" iff running, the expiry text iff stopped and expired, "Pausado" iff stopped with time left |
| `QuizScreen.SelectRecordsAnswer` | src/app/quiz/page.tsx:53-55 | selecting stores `{answer, elapsed}` in the current slot, leaves every other slot, the cursor and completion, and the answer then shows as selected |
| `QuizScreen.NextOnLastCompletes` | src/app/quiz/page.tsx:57-68 | next on the last question completes the quiz and keeps the cursor |
| `QuizScreen.NextAnsweredAdvances` | src/app/quiz/page.tsx:57-68 | next on an answered question before the last moves the cursor by one and re-saves the answer with the click's elapsed time |
| `QuizScreen.PreviousNeverCompletes` | src/app/quiz/page.tsx:70-75 | previous never changes completion, even on the last question, and steps the cursor to max(c-1, 0) |
| `QuizScreen.TimeUpOnLastCompletes` | src/app/quiz/page.tsx:77-91 | expiry on the last question saves the selection (or "") with the elapsed time and completes the quiz |
| `QuizScreen.TimeUpUnansweredStays` | src/app/quiz/page.tsx:77-91 | expiry on an unanswered question before the last stores `{"", elapsed}`, keeps the cursor and completion, and leaves next disabled |
| `QuizScreen.TimeUpAnsweredAdvances` | src/app/quiz/page.tsx:77-91 | expiry on an answered question before the last saves it with the elapsed time and moves on by one |
| `QuizScreen.ThreeQuestionScore` | src/app/quiz/page.tsx:77-91 | one right, one expired, one wrong out of three scores 1/3 = 33 percent; through the page the expired second question stalls the cursor at 1 with next disabled |
| `QuizScreen.SaveCurrentAnswer` | src/app/quiz/page.tsx:28-31 | only the slot under the cursor changes, and it then holds the answer with the elapsed time |
| `QuizScreen.NextEnabled` | src/app/quiz/page.tsx:185-188 | the next button is enabled iff the current slot exists and is answered |
| `QuizScreen.PreviousEnabled` | src/app/quiz/page.tsx:157-160 | the previous button is enabled iff the cursor is not 0 |
| `QuizScreen.QuizPage.Elapsed` | src/app/quiz/page.tsx:28-31 | the elapsed time is the mounted timer's time spent, or 0 with no timer |
| `QuizScreen.QuizPage.constructor` | src/app/quiz/page.tsx:33-51 | the page mounts a timer exactly when questions are loaded, fresh together with the countdown inside it, running, with the whole configured interval and the flag clear; with none it is the placeholder, with no timer, and every handler requires questions |
| `QuizScreen.QuizPage.Render` | src/app/quiz/page.tsx:120-126 | a changed cursor mounts a fresh running timer with the whole interval and a clear flag; an unchanged cursor keeps the mounted timer |
| `QuizScreen.QuizPage.HandleAnswerSelect` | src/app/quiz/page.tsx:53-55 | the store becomes SelectEffect of the rendered state and the elapsed time; the same timer stays with its time, running state and flag |
| `QuizScreen.QuizPage.HandleNext` | src/app/quiz/page.tsx:57-68 | the store becomes NextEffect of the rendered state; a moved cursor has a fresh running timer with the whole interval and the flag clear; an unmoved cursor keeps the timer with its time, running state and flag |
| `QuizScreen.QuizPage.HandlePrevious` | src/app/quiz/page.tsx:70-75 | the store becomes PreviousEffect of the rendered state; the timer is replaced or kept as for handleNext |
| `QuizScreen.QuizPage.HandleTimeUp` | src/app/quiz/page.tsx:77-91 | the store becomes TimeUpEffect of the rendered state; the timer is replaced or kept as for handleNext, so a stalled expiry keeps the set flag |
| `QuizScreen.QuizPage.Second` | src/app/quiz/page.tsx:120-126 | an expiry is reported iff the flag is clear and the tick reaches 0; it runs handleTimeUp with the whole interval as time spent, and if the cursor stays the timer keeps the set flag at 0; otherwise the store and the timer object stay, the timer takes its tick with its interval unchanged, and the flag stays set only while time is 0; the config never changes |
| `QuizScreen.QuizPage.SecondsAfterStall` | src/components/TimerComponent.tsx:60-71 | after an expiry that left the cursor in place, any number of seconds report nothing and leave the session and the timer at 0 with its flag set |
| `QuizScreen.QuizPage.TwoSeconds` | src/components/TimerComponent.tsx:60-71 | with an interval of a minute or more, two seconds in a row never both report an expiry |
| `ResultScreen.ShowsResults` | src/app/quiz/result/page.tsx:17-35 | the results show iff there are questions and the quiz is completed |
| `ResultScreen.LastQuestionShowsResults` | src/app/quiz/page.tsx:57-91 | "next" or an expiry on the last question of a loaded quiz completes it, so the results page shows |
| `ResultScreen.ScoreColor` | src/app/quiz/result/page.tsx:42-46 | green iff >= 80, yellow iff in [60,80), red iff < 60 |
| `ResultScreen.ScoreMessage` | src/app/quiz/result/page.tsx:48-52 | the excellent, good and keep-studying messages on the same three bands |
| `ResultScreen.ColorAndMessageAgree` | src/app/quiz/result/page.tsx:42-52 | colour and message always name the same band |
| `ResultScreen.FormatTimeRoundTrip` | src/app/quiz/result/page.tsx:54-58 | "{m}m {s}s" parses back to the input, with seconds below 60 recombining as m*60+s |
| `ResultScreen.TotalTimeLabel` | src/app/quiz/result/page.tsx:60-64 | the total-time badge reads back as the sum of every slot's time |
| `ResultScreen.Review` | src/app/quiz/result/page.tsx:110-160 | a row is correct iff getScore's test holds; the correct answer is shown only when wrong; an empty or missing answer shows "Não respondida"; the time reads back as the slot's time or 0 |
| `ResultScreen.ReviewAgreesWithScore` | src/app/quiz/result/page.tsx:112 | the rows marked correct are exactly as many as getScore counts |
| `ResultScreen.HandleNewQuiz` | src/app/quiz/result/page.tsx:37-40 | a new quiz resets the session, after which the results no longer show |
| `CreateRoom.ParseLevel` | src/app/create-room/page.tsx:39 | a level is accepted iff it is "fácil", "médio" or "difícil", and maps back to that label |
| `CreateRoom.SchemaAccepts` | src/app/create-room/page.tsx:38-49 | the four rules; an accepted level reads back as its label and accepted counts are natural numbers |
| `CreateRoom.SchemaErrors` | src/app/create-room/page.tsx:38-49 | no error iff all four rules hold; each message appears iff its rule fails, at most one per field |
| `CreateRoom.DefaultsLackOnlyThemes` | src/app/create-room/page.tsx:59-64 | the defaults fail only the themes rule, and any theme makes them valid |
| `CreateRoom.ToConfig` | src/app/create-room/page.tsx:69-74 | the stored config carries the form's level, themes, count and minutes, within the schema bounds |
| `CreateRoom.Without` | src/app/create-room/page.tsx:148 | the filter removes every copy of the theme and keeps every other one, as a multiset; a theme not present changes nothing |
| `CreateRoom.WithoutDistributes` | src/app/create-room/page.tsx:148 | the filter works piecewise over concatenation, so the kept themes keep their order |
| `CreateRoom.ToggleTheme` | src/app/create-room/page.tsx:144-149 | checking appends the theme; unchecking removes every copy and keeps the others |
| `CreateRoom.SubmitEffect` | src/app/create-room/page.tsx:67-89 | the session takes the form's config, keeps its cursor and flag, holds the generated questions on success and the old ones on failure, and has as many slots as questions iff generation succeeded or the old count equals the requested one |
| `CreateRoom.OnSubmit` | src/app/create-room/page.tsx:67-89 | SET_CONFIG is dispatched first, the generator is asked with the same level, themes and count, and SET_QUESTIONS follows only on success |
| `CreateRoom.SubmitFailureKeepsQuestions` | src/app/create-room/page.tsx:67-89 | after a failed generation the old questions stay, with the new config and its count of empty slots |
| `CreateRoom.SubmitSuccessLoadsQuestions` | src/app/create-room/page.tsx:67-89 | after a successful generation the questions are loaded with one empty slot each, whatever count was asked for |

## Left out

- QuizContext.Apply: SET_ANSWER requires an index inside the answer list. JavaScript would grow the array with holes, or set a property for a negative index. Answers are modelled as value sequences.
- JavaScript's `fill` shares one object across slots. The slots here are values, so sharing cannot be observed.
- `QuizConfig.quantityQuestions`, `timerMinutes` and `timeSpentSeconds` are natural numbers. `new Array(n)` throws for a negative n, and the form bounds both counts. Non-integer or NaN form input is not modelled.
- UseTimer.Timer: the hook's minutes argument is a natural number, so negative intervals are not modelled. Real scheduling with `setInterval`, the cleanup effects and `intervalRef` are replaced by the explicit `Tick` call, which does nothing unless an interval would be running.
- TimerView.TimerComponent.constructor: the 300 ms delay before the auto-start is collapsed into the mount. The expiry check that also runs at mount is left to the next `AfterRender`, and it only matters for a zero-length interval.
- QuizScreen.QuizPage.Second: a second that can expire requires an answer slot under the cursor. Expiry with the cursor past the answer list, left there by a shorter SET_QUESTIONS without RESET_QUIZ, would write out of range (see QuizContext.Apply). Seconds that cannot expire have no such requirement.
- TimerView.TimerComponent.AfterRender: React's dependency lists are approximated by running both effects after every render. The clearing effect would be a no-op on the renders it skips.
- The `onTimeChange` reporting effect (src/components/TimerComponent.tsx:73-77) is not modelled. The quiz page does not pass it.
- `useReducer`, context, `useImperativeHandle` and stale closures are not modelled, beyond each handler reading the state it was rendered with.
- Router navigation, toasts, `console.error`, JSX and CSS classes are not modelled. The warning icon and colour choices are only the `IsLowTime`/`IsCriticalTime` thresholds.
- The question generator is not modelled (src/app/api/generate/route.ts and src/services/quizService.ts). It is a network call to a language-model service. `CreateRoom.OnSubmit` takes its outcome as a parameter: questions, or a failure.
- zod and react-hook-form internals are not modelled. The schema is the `SchemaErrors` function. The looser `min={1}` on the quantity input is superseded by the schema.
- The provider's named wrappers (`setConfig` … `resetQuiz`) are not modelled separately, because each one only dispatches its action. The `timeSpentSeconds = 0` default of `setAnswer` is unused by the callers modelled here.
- `goToQuestion` is reachable only through the reducer. Its badge row in the quiz page is commented out.
- Numeric.RoundPercent: rounds the exact ratio 100a/b half up. The application computes `Math.round((a / b) * 100)` on IEEE doubles, where the product can fall just below a .5 boundary and round one lower. For 69 of 120 seconds, `(69 / 120) * 100` is 57.49999999999999 as a double, so the application gives 57 and the model 58. Ratios such as 23/40 behave the same way.
- UseTimer.Timer.ProgressPercentage: inherits that difference, since it goes through `RoundPercent`. On intervals of 1 to 10 minutes the value can be one higher than the application's at a .5 boundary.
- QuizContext.GetProgress: the same .5-boundary difference from `RoundPercent`, for question counts such as 23 of 40.
- QuizContext.ScorePercentage: the same .5-boundary difference from `RoundPercent`.
- QuizContext.GetScore: the same .5-boundary difference, through `ScorePercentage`.
- QuizHooks.CompletionPercentage: the same .5-boundary difference from `RoundPercent`.
- Floating point is not modelled otherwise. `QuizHooks.AverageTimePerQuestion` divides integers without the `* 100` step, and an exact .5 quotient is representable as a double, so it rounds the same way.
