/** The logic of src/app/quiz/result/page.tsx: when the results show, the
    score bands, the "Xm Ys" durations, the total time, and the per-question
    review rows. */
module ResultScreen {
  import opened QuizTypes
  import opened Numeric
  import opened QuizContext
  import opened QuizHooks
  import QuizScreen

  /** The results appear only for a completed quiz that has questions;
      otherwise the "Quiz não encontrado" placeholder does. */
  function ShowsResults(s: QuizData): (r: bool)
    ensures r <==> |s.questions| > 0 && s.isCompleted
    ensures r ==> IsQuizReady(s)
  {
    !(|s.questions| == 0 || !s.isCompleted)
  }

  /** Finishing a loaded quiz reaches the results: "next" or an expiry on
      the last question completes it and keeps its questions. */
  lemma LastQuestionShowsResults(view: QuizData, elapsed: nat)
    requires IsQuizReady(view) && IsLastQuestion(view)
    ensures ShowsResults(QuizScreen.NextEffect(view, elapsed))
    ensures QuizScreen.SlotExists(view) ==> ShowsResults(QuizScreen.TimeUpEffect(view, elapsed))
  {
  }

  const Green := "text-green-500"
  const Yellow := "text-yellow-500"
  const Red := "text-red-500"

  const Excellent := "Excelente! Você domina bem esses conceitos!"
  const GoodJob := "Bom trabalho! Continue praticando!"
  const KeepStudying := "Continue estudando, você vai conseguir!"

  /** getScoreColor. */
  function ScoreColor(percentage: int): (r: string)
    ensures r == Green <==> percentage >= 80
    ensures r == Yellow <==> 60 <= percentage < 80
    ensures r == Red <==> percentage < 60
  {
    if percentage >= 80 then Green
    else if percentage >= 60 then Yellow
    else Red
  }

  /** getScoreMessage. */
  function ScoreMessage(percentage: int): (r: string)
    ensures r == Excellent <==> percentage >= 80
    ensures r == GoodJob <==> 60 <= percentage < 80
    ensures r == KeepStudying <==> percentage < 60
  {
    if percentage >= 80 then Excellent
    else if percentage >= 60 then GoodJob
    else KeepStudying
  }

  /** The colour and the message always name the same band. */
  lemma ColorAndMessageAgree(percentage: int)
    ensures ScoreColor(percentage) == Green <==> ScoreMessage(percentage) == Excellent
    ensures ScoreColor(percentage) == Yellow <==> ScoreMessage(percentage) == GoodJob
    ensures ScoreColor(percentage) == Red <==> ScoreMessage(percentage) == KeepStudying
  {
  }

  /** formatTime of the result page: "{minutes}m {seconds}s", unpadded. */
  function FormatTime(seconds: nat): string {
    ShowNat(seconds / 60) + "m " + ShowNat(seconds % 60) + "s"
  }

  /** Reads an "Xm Ys" text back into seconds. */
  function ParseDuration(t: string): Option<nat> {
    var m := DigitPrefix(t);
    var rest := t[|m|..];
    if |m| > 0 && |rest| >= 2 && rest[..2] == "m " then
      var tail := rest[2..];
      var sec := DigitPrefix(tail);
      if |sec| > 0 && tail == sec + "s" then Some(ParseNat(m) * 60 + ParseNat(sec)) else None
    else None
  }

  /** The two numbers recombine to the input, with seconds below 60. */
  lemma {:induction false} FormatTimeRoundTrip(seconds: nat)
    ensures ParseDuration(FormatTime(seconds)) == Some(seconds)
    ensures FormatTime(seconds) == ShowNat(seconds / 60) + "m " + ShowNat(seconds % 60) + "s"
    ensures seconds % 60 < 60 && (seconds / 60) * 60 + seconds % 60 == seconds
  {
    var mins, secs := ShowNat(seconds / 60), ShowNat(seconds % 60);
    var t := FormatTime(seconds);
    assert t == mins + ("m " + secs + "s");
    DigitPrefixOf(mins, "m " + secs + "s");
    assert t[|mins|..] == "m " + secs + "s";
    assert t[|mins|..][2..] == secs + "s";
    DigitPrefixOf(secs, "s");
    ParseShowNat(seconds / 60);
    ParseShowNat(seconds % 60);
  }

  /** The "Tempo total gasto" badge: the sum of every slot's time, formatted. */
  function TotalTimeLabel(s: QuizData): (r: string)
    ensures ParseDuration(r) == Some(TotalTimeSpent(s.userAnswers))
  {
    FormatTimeRoundTrip(TotalTimeSpent(s.userAnswers));
    FormatTime(TotalTimeSpent(s.userAnswers))
  }

  const NotAnswered := "Não respondida"

  /** What the review shows for one question. */
  datatype ReviewRow = ReviewRow(
    isCorrect: bool,
    shownAnswer: string,
    correctAnswer: Option<string>,
    timeLabel: string)

  /** The review row of question i. */
  function Review(s: QuizData, i: nat): (r: ReviewRow)
    requires i < |s.questions|
    ensures r.isCorrect == IsCorrectAt(s, i)
    ensures r.correctAnswer.Some? <==> !r.isCorrect
    ensures r.correctAnswer.Some? ==> r.correctAnswer.value == s.questions[i].answer
    ensures i >= |s.userAnswers| || s.userAnswers[i].answer == "" ==> r.shownAnswer == NotAnswered
    ensures i < |s.userAnswers| && s.userAnswers[i].answer != "" ==> r.shownAnswer == s.userAnswers[i].answer
    ensures ParseDuration(r.timeLabel) ==
      Some(if i < |s.userAnswers| then s.userAnswers[i].timeSpentSeconds else 0)
  {
    var slot := if i < |s.userAnswers| then Some(s.userAnswers[i]) else None;
    var isCorrect := slot.Some? && slot.value.answer == s.questions[i].answer;
    var shown := if slot.Some? && slot.value.answer != "" then slot.value.answer else NotAnswered;
    var time := if slot.Some? then slot.value.timeSpentSeconds else 0;
    FormatTimeRoundTrip(time);
    ReviewRow(isCorrect, shown, if isCorrect then None else Some(s.questions[i].answer), FormatTime(time))
  }

  /** The rows marked correct are exactly as many as the score counts. */
  lemma ReviewAgreesWithScore(s: QuizData)
    ensures |set i | 0 <= i < |s.questions| && Review(s, i).isCorrect| == CountCorrect(s)
  {
    CountCorrectIsCorrectIndices(s);
    assert (set i | 0 <= i < |s.questions| && Review(s, i).isCorrect)
        == (set i | 0 <= i < |s.questions| && IsCorrectAt(s, i));
  }

  /** handleNewQuiz resets the session before leaving for the room form. */
  method HandleNewQuiz(store: QuizStore)
    modifies store
    ensures store.state == InitialState
    ensures !ShowsResults(store.state)
  {
    store.Dispatch(ResetQuiz);
  }
}
