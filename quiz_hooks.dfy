/** The derived projections of src/hooks/useQuizHooks.ts: navigation flags,
    answer lookups, counts, percentages and time statistics, all computed
    from the session state, plus the one guarded transition. */
module QuizHooks {
  import opened QuizTypes
  import opened Numeric
  import opened QuizContext

  /** `state.userAnswers[state.currentQuestionIndex]`, undefined when missing. */
  function CurrentSlot(s: QuizData): (r: Option<UserAnswer>)
    ensures r.Some? <==> 0 <= s.currentQuestionIndex < |s.userAnswers|
    ensures r.Some? ==> r.value == s.userAnswers[s.currentQuestionIndex]
  {
    if 0 <= s.currentQuestionIndex < |s.userAnswers| then Some(s.userAnswers[s.currentQuestionIndex])
    else None
  }

  /** `currentAnswer?.answer || ""`: the selected answer, "" when none. */
  function CurrentAnswer(s: QuizData): (r: string)
    ensures r != "" <==> CurrentSlot(s).Some? && CurrentSlot(s).value.answer != ""
    ensures r != "" ==> r == s.userAnswers[s.currentQuestionIndex].answer
  {
    match CurrentSlot(s)
    case Some(slot) => slot.answer
    case None => ""
  }

  // ---------------------------------------------------------------
  // useQuizNavigation
  // ---------------------------------------------------------------

  /** canGoNext: the slot under the cursor exists and holds an answer. */
  function CanGoNext(s: QuizData): (r: bool)
    ensures r <==> 0 <= s.currentQuestionIndex < |s.userAnswers|
                   && s.userAnswers[s.currentQuestionIndex].answer != ""
  {
    CurrentAnswer(s) != ""
  }

  /** canGoPrevious is `!isFirstQuestion()`. */
  function CanGoPrevious(s: QuizData): (r: bool)
    ensures r <==> s.currentQuestionIndex != 0
    ensures s.currentQuestionIndex > 0 ==> r
  {
    !IsFirstQuestion(s)
  }

  /** goToNextWithValidation: the check reads `view`, the state the handler
      was rendered with, while NEXT_QUESTION applies to the live state. */
  method GoToNextWithValidation(store: QuizStore, view: QuizData) returns (moved: bool)
    modifies store
    ensures moved == CanGoNext(view)
    ensures store.state == if moved then Apply(old(store.state), NextQuestion) else old(store.state)
  {
    if CanGoNext(view) {
      store.Dispatch(NextQuestion);
      return true;
    }
    return false;
  }

  // ---------------------------------------------------------------
  // useQuizAnswers
  // ---------------------------------------------------------------

  /** isAnswerSelected: the current slot exists and holds exactly `answer`. */
  function IsAnswerSelected(s: QuizData, answer: string): (r: bool)
    ensures r <==> 0 <= s.currentQuestionIndex < |s.userAnswers|
                   && s.userAnswers[s.currentQuestionIndex].answer == answer
    ensures r && answer != "" ==> CanGoNext(s)
  {
    CurrentSlot(s).Some? && CurrentSlot(s).value.answer == answer
  }

  /** hasAnsweredCurrentQuestion makes the same test as canGoNext. */
  function HasAnsweredCurrentQuestion(s: QuizData): (r: bool)
    ensures r <==> CanGoNext(s)
  {
    CurrentSlot(s).Some? && CurrentSlot(s).value.answer != ""
  }

  function AnsweredMarks(answers: seq<UserAnswer>): (m: seq<bool>)
    ensures |m| == |answers|
    ensures forall i :: 0 <= i < |m| ==> m[i] == (answers[i].answer != "")
  {
    seq(|answers|, i requires 0 <= i < |answers| => answers[i].answer != "")
  }

  /** `userAnswers.filter(a => a?.answer !== "").length`. */
  function AnsweredCount(answers: seq<UserAnswer>): (n: nat)
    ensures n <= |answers|
  {
    CountTrue(AnsweredMarks(answers))
  }

  /** The answered count is the number of non-empty slots. */
  lemma AnsweredCountIsNonEmptySlots(answers: seq<UserAnswer>)
    ensures AnsweredCount(answers) == |set i | 0 <= i < |answers| && answers[i].answer != ""|
  {
    var m := AnsweredMarks(answers);
    CountTrueIsCardinality(m);
    assert (set i | 0 <= i < |m| && m[i]) == (set i | 0 <= i < |answers| && answers[i].answer != "");
  }

  /** Answering an empty slot adds one to the count; overwriting an
      answered slot with an answer leaves it alone. */
  lemma {:induction false} AnsweredCountAfterAnswer(answers: seq<UserAnswer>, i: nat, a: UserAnswer)
    requires i < |answers| && a.answer != ""
    ensures AnsweredCount(answers[i := a]) ==
            AnsweredCount(answers) + (if answers[i].answer == "" then 1 else 0)
  {
    var after := answers[i := a];
    AnsweredCountIsNonEmptySlots(answers);
    AnsweredCountIsNonEmptySlots(after);
    var before := set j | 0 <= j < |answers| && answers[j].answer != "";
    var now := set j | 0 <= j < |after| && after[j].answer != "";
    if answers[i].answer == "" {
      assert now == before + {i};
    } else {
      assert now == before;
    }
  }

  // ---------------------------------------------------------------
  // useQuizStats
  // ---------------------------------------------------------------

  /** getCompletionPercentage: answered slots over questions, rounded. */
  function CompletionPercentage(s: QuizData): (p: int)
    ensures |s.questions| == 0 ==> p == 0
    ensures |s.userAnswers| <= |s.questions| ==> 0 <= p <= 100
    ensures |s.questions| > 0 && AnsweredCount(s.userAnswers) == |s.questions| ==> p == 100
    ensures AnsweredCount(s.userAnswers) == 0 ==> p == 0
  {
    var answered := AnsweredCount(s.userAnswers);
    if |s.questions| > 0 then RoundPercent(answered, |s.questions|) else 0
  }

  /** isQuizReady. */
  function IsQuizReady(s: QuizData): (r: bool)
    ensures r <==> |s.questions| > 0
    ensures r && CursorInRange(s) ==> GetCurrentQuestion(s).Some?
  {
    |s.questions| > 0
  }

  /** getTotalTimeSpent: the sum of every slot's time, answered or not. No
      slot's time exceeds the total, and slots without time add up to none. */
  function TotalTimeSpent(answers: seq<UserAnswer>): (r: nat)
    ensures forall i :: 0 <= i < |answers| ==> answers[i].timeSpentSeconds <= r
    ensures (forall i :: 0 <= i < |answers| ==> answers[i].timeSpentSeconds == 0) ==> r == 0
  {
    if answers == [] then 0
    else TotalTimeSpent(answers[..|answers| - 1]) + answers[|answers| - 1].timeSpentSeconds
  }

  /** The total splits over concatenation, so every slot contributes once. */
  lemma {:induction false} TotalTimeSpentAppend(a: seq<UserAnswer>, b: seq<UserAnswer>)
    ensures TotalTimeSpent(a + b) == TotalTimeSpent(a) + TotalTimeSpent(b)
    decreases |b|
  {
    if b != [] {
      assert (a + b)[..|a + b| - 1] == a + b[..|b| - 1];
      TotalTimeSpentAppend(a, b[..|b| - 1]);
    } else {
      assert a + b == a;
    }
  }

  /** Overwriting slot i replaces its time in the total and changes nothing else. */
  lemma TotalTimeSpentAfterWrite(answers: seq<UserAnswer>, i: nat, a: UserAnswer)
    requires i < |answers|
    ensures TotalTimeSpent(answers[i := a]) + answers[i].timeSpentSeconds
            == TotalTimeSpent(answers) + a.timeSpentSeconds
  {
    var pre, post := answers[..i], answers[i + 1..];
    assert answers == pre + [answers[i]] + post;
    assert answers[i := a] == pre + [a] + post;
    TotalTimeSpentAppend(pre + [answers[i]], post);
    TotalTimeSpentAppend(pre, [answers[i]]);
    TotalTimeSpentAppend(pre + [a], post);
    TotalTimeSpentAppend(pre, [a]);
    assert TotalTimeSpent([a]) == a.timeSpentSeconds by {
      assert [a][..0] == [];
    }
    assert TotalTimeSpent([answers[i]]) == answers[i].timeSpentSeconds by {
      assert [answers[i]][..0] == [];
    }
  }

  /** Freshly allocated slots carry no time. */
  lemma TotalTimeSpentEmptySlots(n: nat)
    ensures TotalTimeSpent(EmptySlots(n)) == 0
  {
  }

  /** getAverageTimePerQuestion: total time over answered slots, rounded; 0
      when nothing is answered. */
  function AverageTimePerQuestion(answers: seq<UserAnswer>): (r: int)
    ensures AnsweredCount(answers) == 0 ==> r == 0
    ensures AnsweredCount(answers) > 0 ==>
      var n := AnsweredCount(answers);
      2 * n * r <= 2 * TotalTimeSpent(answers) + n < 2 * n * r + 2 * n
    ensures r >= 0
  {
    var answered := AnsweredCount(answers);
    if answered == 0 then 0
    else
      var r := RoundDiv(TotalTimeSpent(answers), answered);
      RoundDivBounds(TotalTimeSpent(answers), answered, 0, r);
      r
  }
}
