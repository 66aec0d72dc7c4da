/** The session store (src/contexts/QuizContext.tsx): the reducer as a total
    function `Apply` over `QuizData`, the read-only getters, and the provider
    object that holds the live state and applies dispatched actions. */
module QuizContext {
  import opened QuizTypes
  import opened Numeric

  /** The state the provider starts from and RESET_QUIZ returns to. */
  const InitialState := QuizData(QuizConfig(Easy, [], 3, 1), [], 0, [], false)

  datatype Action =
    | SetConfig(config: QuizConfig)
    | SetQuestions(questions: seq<Question>)
    | NextQuestion
    | PreviousQuestion
    | SetAnswer(questionIndex: int, answer: string, timeSpentSeconds: nat)
    | GoToQuestion(index: int)
    | CompleteQuiz
    | ResetQuiz

  function Min(x: int, y: int): int { if x <= y then x else y }

  function Max(x: int, y: int): int { if x >= y then x else y }

  /** `new Array(n).fill({answer: "", timeSpentSeconds: 0})`. */
  function EmptySlots(n: nat): (r: seq<UserAnswer>)
    ensures |r| == n
    ensures forall i :: 0 <= i < n ==> r[i] == EmptyAnswer
  {
    seq(n, _ => EmptyAnswer)
  }

  /** SET_ANSWER writes an existing slot; every other action applies to any state. */
  predicate Applicable(s: QuizData, a: Action) {
    a.SetAnswer? ==> 0 <= a.questionIndex < |s.userAnswers|
  }

  /** quizReducer. */
  function Apply(s: QuizData, a: Action): (r: QuizData)
    requires Applicable(s, a)
    // the cursor never drops below -1
    ensures s.currentQuestionIndex >= -1 ==> r.currentQuestionIndex >= -1
    // only a reset takes back completion
    ensures s.isCompleted && !a.ResetQuiz? ==> r.isCompleted
    // only the loaders and the reset touch the question list and the slot count
    ensures !a.SetQuestions? && !a.ResetQuiz? ==> r.questions == s.questions
    ensures !a.SetConfig? && !a.SetQuestions? && !a.ResetQuiz? ==> |r.userAnswers| == |s.userAnswers|
  {
    match a
    case SetConfig(c) => s.(config := c, userAnswers := EmptySlots(c.quantityQuestions))
    case SetQuestions(qs) => s.(questions := qs, userAnswers := EmptySlots(|qs|))
    case NextQuestion =>
      s.(currentQuestionIndex := Min(s.currentQuestionIndex + 1, |s.questions| - 1))
    case PreviousQuestion =>
      s.(currentQuestionIndex := Max(s.currentQuestionIndex - 1, 0))
    case SetAnswer(i, ans, t) =>
      s.(userAnswers := s.userAnswers[i := UserAnswer(ans, t)])
    case GoToQuestion(i) =>
      s.(currentQuestionIndex := Max(0, Min(i, |s.questions| - 1)))
    case CompleteQuiz => s.(isCompleted := true)
    case ResetQuiz => InitialState
  }

  // ---------------------------------------------------------------
  // One lemma per action: what it changes and what it leaves alone
  // ---------------------------------------------------------------

  lemma SetConfigAllocatesSlots(s: QuizData, c: QuizConfig)
    ensures var r := Apply(s, SetConfig(c));
      && r.config == c
      && |r.userAnswers| == c.quantityQuestions
      && (forall i :: 0 <= i < |r.userAnswers| ==> r.userAnswers[i] == EmptyAnswer)
      && r.questions == s.questions
      && r.currentQuestionIndex == s.currentQuestionIndex
      && r.isCompleted == s.isCompleted
  {
  }

  /** The slots follow the question list, whatever size the config asked for;
      the cursor and the completion flag are kept, even when stale. */
  lemma SetQuestionsReallocatesSlots(s: QuizData, qs: seq<Question>)
    ensures var r := Apply(s, SetQuestions(qs));
      && r.questions == qs
      && |r.userAnswers| == |qs|
      && (forall i :: 0 <= i < |r.userAnswers| ==> r.userAnswers[i] == EmptyAnswer)
      && r.config == s.config
      && r.currentQuestionIndex == s.currentQuestionIndex
      && r.isCompleted == s.isCompleted
  {
  }

  lemma NextQuestionClamps(s: QuizData)
    ensures var r := Apply(s, NextQuestion);
      var c, n := s.currentQuestionIndex, |s.questions|;
      && r.currentQuestionIndex == Min(c + 1, n - 1)
      && (n >= 1 && 0 <= c < n ==> 0 <= r.currentQuestionIndex < n)
      && (n >= 1 && c == n - 1 ==> r == s)
      && (n == 0 && c >= -2 ==> r.currentQuestionIndex == -1)
      && r.(currentQuestionIndex := c) == s
  {
  }

  lemma PreviousQuestionClamps(s: QuizData)
    ensures var r := Apply(s, PreviousQuestion);
      && r.currentQuestionIndex == Max(s.currentQuestionIndex - 1, 0)
      && r.currentQuestionIndex >= 0
      && r.(currentQuestionIndex := s.currentQuestionIndex) == s
  {
  }

  lemma GoToQuestionClamps(s: QuizData, i: int)
    ensures var r := Apply(s, GoToQuestion(i));
      var n := |s.questions|;
      && 0 <= r.currentQuestionIndex <= Max(0, n - 1)
      && r.currentQuestionIndex == Max(0, Min(i, n - 1))
      && (i < 0 ==> r.currentQuestionIndex == 0)
      && (0 <= i < n ==> r.currentQuestionIndex == i)
      && (i >= n > 0 ==> r.currentQuestionIndex == n - 1)
      && r.(currentQuestionIndex := s.currentQuestionIndex) == s
  {
  }

  /** SET_ANSWER replaces the whole slot: nothing of the earlier answer or
      time survives, and no other slot moves. */
  lemma SetAnswerOverwritesSlot(s: QuizData, i: int, ans: string, t: nat)
    requires 0 <= i < |s.userAnswers|
    ensures var r := Apply(s, SetAnswer(i, ans, t));
      && |r.userAnswers| == |s.userAnswers|
      && r.userAnswers[i] == UserAnswer(ans, t)
      && (forall j :: 0 <= j < |s.userAnswers| && j != i ==> r.userAnswers[j] == s.userAnswers[j])
      && r.(userAnswers := s.userAnswers) == s
  {
  }

  lemma CompleteQuizIdempotent(s: QuizData)
    ensures Apply(s, CompleteQuiz) == s.(isCompleted := true)
    ensures Apply(Apply(s, CompleteQuiz), CompleteQuiz) == Apply(s, CompleteQuiz)
  {
  }

  lemma ResetQuizFromAnyState(s: QuizData)
    ensures Apply(s, ResetQuiz) == InitialState
    ensures Apply(s, ResetQuiz).questions == [] && Apply(s, ResetQuiz).userAnswers == []
  {
  }

  // ---------------------------------------------------------------
  // Sequences of actions and the invariants they keep
  // ---------------------------------------------------------------

  /** Every action of `acts` can be applied in turn from `s`. */
  predicate CanRun(s: QuizData, acts: seq<Action>)
    decreases |acts|
  {
    acts == [] || (Applicable(s, acts[0]) && CanRun(Apply(s, acts[0]), acts[1..]))
  }

  /** The state after dispatching `acts` in order. */
  function Run(s: QuizData, acts: seq<Action>): QuizData
    requires CanRun(s, acts)
    decreases |acts|
  {
    if acts == [] then s else Run(Apply(s, acts[0]), acts[1..])
  }

  /** The cursor points at a question, or sits at 0 or -1 when there is none. */
  predicate CursorInRange(s: QuizData) {
    var c, n := s.currentQuestionIndex, |s.questions|;
    if n == 0 then -1 <= c <= 0 else 0 <= c < n
  }

  /** No action other than SET_QUESTIONS can move the cursor out of range:
      SET_QUESTIONS keeps the old cursor even when the new list is shorter. */
  lemma {:induction false} CursorStaysInRange(s: QuizData, acts: seq<Action>)
    requires CanRun(s, acts) && CursorInRange(s)
    requires forall k :: 0 <= k < |acts| ==> !acts[k].SetQuestions?
    ensures CursorInRange(Run(s, acts))
    decreases |acts|
  {
    if acts != [] {
      var s1 := Apply(s, acts[0]);
      assert CursorInRange(s1);
      CursorStaysInRange(s1, acts[1..]);
    }
  }

  /** One answer slot per question. */
  predicate Aligned(s: QuizData) {
    |s.userAnswers| == |s.questions|
  }

  /** After SET_QUESTIONS the slots line up with the questions, and they stay
      lined up until the next SET_CONFIG resizes them to the configured count. */
  lemma {:induction false} AlignmentKept(s: QuizData, acts: seq<Action>)
    requires CanRun(s, acts) && Aligned(s)
    requires forall k :: 0 <= k < |acts| ==> !acts[k].SetConfig?
    ensures Aligned(Run(s, acts))
    decreases |acts|
  {
    if acts != [] {
      AlignmentKept(Apply(s, acts[0]), acts[1..]);
    }
  }

  // ---------------------------------------------------------------
  // Getters
  // ---------------------------------------------------------------

  /** getCurrentQuestion: null with no questions or a cursor past the end;
      a cursor of -1 reads `questions[-1]`, which is undefined, also None here. */
  function GetCurrentQuestion(s: QuizData): (r: Option<Question>)
    ensures r.None? <==> |s.questions| == 0 || s.currentQuestionIndex >= |s.questions| || s.currentQuestionIndex < 0
    ensures r.Some? ==> r.value == s.questions[s.currentQuestionIndex]
  {
    if |s.questions| == 0 || s.currentQuestionIndex >= |s.questions| then None
    else if s.currentQuestionIndex < 0 then None
    else Some(s.questions[s.currentQuestionIndex])
  }

  /** isLastQuestion: exactly the cursors NEXT_QUESTION cannot move, which
      with no questions includes the cursor -1. */
  function IsLastQuestion(s: QuizData): (r: bool)
    ensures r <==> Apply(s, NextQuestion).currentQuestionIndex == s.currentQuestionIndex
    ensures r && |s.questions| > 0 ==> GetCurrentQuestion(s) == Some(s.questions[|s.questions| - 1])
  {
    s.currentQuestionIndex == |s.questions| - 1
  }

  /** isFirstQuestion: exactly the cursor PREVIOUS_QUESTION cannot move. */
  function IsFirstQuestion(s: QuizData): (r: bool)
    ensures r <==> Apply(s, PreviousQuestion).currentQuestionIndex == s.currentQuestionIndex
    ensures r && |s.questions| > 0 ==> GetCurrentQuestion(s) == Some(s.questions[0])
  {
    s.currentQuestionIndex == 0
  }

  datatype Progress = Progress(current: int, total: nat, percentage: int)

  /** getProgress: 1-based position, question count, and rounded percentage. */
  function GetProgress(s: QuizData): (r: Progress)
    ensures r.current == s.currentQuestionIndex + 1 && r.total == |s.questions|
    ensures r.total == 0 ==> r.percentage == 0
    ensures CursorInRange(s) ==> 0 <= r.percentage <= 100
    ensures IsLastQuestion(s) && r.total > 0 ==> r.percentage == 100
  {
    var current := s.currentQuestionIndex + 1;
    var total := |s.questions|;
    Progress(current, total, if total > 0 then RoundPercent(current, total) else 0)
  }

  /** The comparison getScore makes for question i; a missing slot is wrong. */
  predicate IsCorrectAt(s: QuizData, i: nat)
    requires i < |s.questions|
  {
    i < |s.userAnswers| && s.userAnswers[i].answer == s.questions[i].answer
  }

  function CorrectMarks(s: QuizData): (m: seq<bool>)
    ensures |m| == |s.questions|
    ensures forall i :: 0 <= i < |m| ==> m[i] == IsCorrectAt(s, i)
  {
    seq(|s.questions|, i requires 0 <= i < |s.questions| => IsCorrectAt(s, i))
  }

  /** The number of questions answered correctly. */
  function CountCorrect(s: QuizData): nat {
    CountTrue(CorrectMarks(s))
  }

  /** CountCorrect counts exactly the indices whose slot matches the answer. */
  lemma CountCorrectIsCorrectIndices(s: QuizData)
    ensures CountCorrect(s) == |set i | 0 <= i < |s.questions| && IsCorrectAt(s, i)|
    ensures CountCorrect(s) <= |s.questions|
  {
    var m := CorrectMarks(s);
    CountTrueIsCardinality(m);
    assert (set i | 0 <= i < |m| && m[i]) == (set i | 0 <= i < |s.questions| && IsCorrectAt(s, i));
  }

  datatype Score = Score(correct: nat, total: nat, percentage: int)

  /** The percentage getScore reports for `correct` out of `total`. */
  function ScorePercentage(correct: nat, total: nat): (p: int)
    requires correct <= total
    ensures 0 <= p <= 100
    ensures total == 0 ==> p == 0
    ensures total > 0 && correct == total ==> p == 100
    ensures correct == 0 ==> p == 0
  {
    if total > 0 then RoundPercent(correct, total) else 0
  }

  /** getScore, with its forEach loop over the questions. */
  method GetScore(s: QuizData) returns (score: Score)
    ensures score.correct == CountCorrect(s)
    ensures score.correct == |set i | 0 <= i < |s.questions| && IsCorrectAt(s, i)|
    ensures score.total == |s.questions| && score.correct <= score.total
    ensures score.percentage == ScorePercentage(score.correct, score.total)
    ensures 0 <= score.percentage <= 100
  {
    var marks := CorrectMarks(s);
    var correct := 0;
    var index := 0;
    while index < |s.questions|
      invariant 0 <= index <= |s.questions|
      invariant correct == CountTrue(marks[..index])
    {
      assert marks[..index + 1][..index] == marks[..index];
      if index < |s.userAnswers| && s.userAnswers[index].answer == s.questions[index].answer {
        correct := correct + 1;
      }
      index := index + 1;
    }
    assert marks[..index] == marks;
    CountCorrectIsCorrectIndices(s);
    var total := |s.questions|;
    score := Score(correct, total, ScorePercentage(correct, total));
  }

  /** The provider: the one live session, changed only by dispatching actions. */
  class QuizStore {
    var state: QuizData

    constructor ()
      ensures state == InitialState
    {
      state := InitialState;
    }

    method Dispatch(a: Action)
      requires Applicable(state, a)
      modifies this
      ensures state == Apply(old(state), a)
    {
      state := Apply(state, a);
    }
  }
}
