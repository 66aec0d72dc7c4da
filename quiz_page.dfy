/** The flow controller of src/app/quiz/page.tsx: the event handlers that
    turn answer selection, "next", "previous" and timer expiry into store
    transitions, reading the elapsed time from the timer keyed by the
    cursor. Every handler reads the state it was rendered with (`view`
    below); the dispatched actions then apply to the live store. */
module QuizScreen {
  import opened QuizTypes
  import opened Numeric
  import opened QuizContext
  import opened QuizHooks
  import opened UseTimer
  import opened TimerView

  /** The answer slot under the cursor exists, so SET_ANSWER can write it. */
  predicate SlotExists(s: QuizData) {
    0 <= s.currentQuestionIndex < |s.userAnswers|
  }

  /** saveCurrentAnswerWithTime. */
  function SaveCurrentAnswer(s: QuizData, answer: string, elapsed: nat): (r: QuizData)
    requires SlotExists(s)
    ensures r == s.(userAnswers := s.userAnswers[s.currentQuestionIndex := UserAnswer(answer, elapsed)])
    ensures SlotExists(r) && CurrentSlot(r) == Some(UserAnswer(answer, elapsed))
  {
    Apply(s, SetAnswer(s.currentQuestionIndex, answer, elapsed))
  }

  /** The tail of handleNext and handleTimeUp: on the last question complete
      the quiz, otherwise the validated next, judged on the rendered state. */
  function CompleteOrAdvance(view: QuizData, s: QuizData): QuizData {
    if IsLastQuestion(view) then Apply(s, CompleteQuiz)
    else if CanGoNext(view) then Apply(s, NextQuestion)
    else s
  }

  /** handleAnswerSelect. */
  function SelectEffect(view: QuizData, answer: string, elapsed: nat): QuizData
    requires SlotExists(view)
  {
    SaveCurrentAnswer(view, answer, elapsed)
  }

  /** handleNext: re-save a selected answer with the current time, then
      complete or advance. */
  function NextEffect(view: QuizData, elapsed: nat): QuizData {
    var saved := if CurrentAnswer(view) != "" then SaveCurrentAnswer(view, CurrentAnswer(view), elapsed) else view;
    CompleteOrAdvance(view, saved)
  }

  /** handlePrevious: re-save a selected answer, then step back. */
  function PreviousEffect(view: QuizData, elapsed: nat): QuizData {
    var saved := if CurrentAnswer(view) != "" then SaveCurrentAnswer(view, CurrentAnswer(view), elapsed) else view;
    Apply(saved, PreviousQuestion)
  }

  /** handleTimeUp: save the selection, or an empty answer, with the time
      spent; then complete or advance exactly as handleNext does. */
  function TimeUpEffect(view: QuizData, elapsed: nat): QuizData
    requires SlotExists(view)
  {
    var saved := if CurrentAnswer(view) != "" then SaveCurrentAnswer(view, CurrentAnswer(view), elapsed)
                 else Apply(view, SetAnswer(view.currentQuestionIndex, "", elapsed));
    CompleteOrAdvance(view, saved)
  }

  // ---------------------------------------------------------------
  // What each handler does to the session
  // ---------------------------------------------------------------

  lemma SelectRecordsAnswer(view: QuizData, answer: string, elapsed: nat)
    requires SlotExists(view)
    ensures var r := SelectEffect(view, answer, elapsed);
      && r.userAnswers[view.currentQuestionIndex] == UserAnswer(answer, elapsed)
      && |r.userAnswers| == |view.userAnswers|
      && (forall j :: 0 <= j < |r.userAnswers| && j != view.currentQuestionIndex ==> r.userAnswers[j] == view.userAnswers[j])
      && r.currentQuestionIndex == view.currentQuestionIndex
      && r.isCompleted == view.isCompleted
      && IsAnswerSelected(r, answer)
  {
  }

  /** "Next" on the last question completes without moving the cursor. */
  lemma NextOnLastCompletes(view: QuizData, elapsed: nat)
    requires IsLastQuestion(view)
    ensures var r := NextEffect(view, elapsed);
      r.isCompleted && r.currentQuestionIndex == view.currentQuestionIndex
  {
  }

  /** "Next" with an answer before the last question moves one step on and
      keeps the answer with the time of the click. */
  lemma NextAnsweredAdvances(view: QuizData, elapsed: nat)
    requires IsQuizReady(view) && CursorInRange(view) && !IsLastQuestion(view) && CanGoNext(view)
    ensures var r := NextEffect(view, elapsed);
      && r.currentQuestionIndex == view.currentQuestionIndex + 1
      && r.userAnswers[view.currentQuestionIndex] == UserAnswer(CurrentAnswer(view), elapsed)
      && r.isCompleted == view.isCompleted
  {
  }

  /** "Previous" never completes the quiz, even from the last question. */
  lemma PreviousNeverCompletes(view: QuizData, elapsed: nat)
    ensures var r := PreviousEffect(view, elapsed);
      && r.isCompleted == view.isCompleted
      && r.currentQuestionIndex == Max(view.currentQuestionIndex - 1, 0)
      && r.questions == view.questions
  {
  }

  /** Time running out on the last question completes the quiz. */
  lemma TimeUpOnLastCompletes(view: QuizData, elapsed: nat)
    requires SlotExists(view) && IsLastQuestion(view)
    ensures var r := TimeUpEffect(view, elapsed);
      && r.isCompleted
      && r.userAnswers[view.currentQuestionIndex] == UserAnswer(CurrentAnswer(view), elapsed)
  {
  }

  /** Time running out on an unanswered question before the last one records
      an empty answer but does not advance: the validation reads the rendered
      state, whose slot is still empty. */
  lemma TimeUpUnansweredStays(view: QuizData, elapsed: nat)
    requires SlotExists(view) && !IsLastQuestion(view) && CurrentAnswer(view) == ""
    ensures var r := TimeUpEffect(view, elapsed);
      && r.currentQuestionIndex == view.currentQuestionIndex
      && r.userAnswers[view.currentQuestionIndex] == UserAnswer("", elapsed)
      && r.isCompleted == view.isCompleted
      && !CanGoNext(r)
  {
  }

  /** Time running out on an answered question before the last one advances. */
  lemma TimeUpAnsweredAdvances(view: QuizData, elapsed: nat)
    requires IsQuizReady(view) && CursorInRange(view) && !IsLastQuestion(view) && CurrentAnswer(view) != ""
    ensures var r := TimeUpEffect(view, elapsed);
      && r.currentQuestionIndex == view.currentQuestionIndex + 1
      && r.userAnswers[view.currentQuestionIndex] == UserAnswer(CurrentAnswer(view), elapsed)
  {
  }

  /** Three questions, the first answered correctly, the second left to
      expire unanswered, the third answered wrongly, then completed: one
      correct out of three, 33 percent. The second and third steps are
      dispatched directly, since the page itself cannot leave an expired,
      unanswered question (TimeUpUnansweredStays). */
  method ThreeQuestionScore() returns (score: Score, stalled: QuizData)
    ensures score == Score(1, 3, 33)
    ensures stalled.currentQuestionIndex == 1 && !NextEnabled(stalled)
  {
    var qs := [Question("1+1?", ["2", "3"], "2"), Question("2+2?", ["4", "5"], "4"),
               Question("3+3?", ["6", "7"], "6")];
    var s := Apply(InitialState, SetConfig(QuizConfig(Easy, ["A"], 3, 1)));
    s := Apply(s, SetQuestions(qs));
    s := SelectEffect(s, "2", 10);
    s := NextEffect(s, 10);
    assert s.currentQuestionIndex == 1;
    stalled := TimeUpEffect(s, 60);
    s := Apply(s, SetAnswer(1, "", 60));
    s := Apply(s, NextQuestion);
    s := Apply(s, SetAnswer(2, "7", 20));
    s := Apply(s, CompleteQuiz);
    assert CorrectMarks(s) == [true, false, false];
    assert CountTrue([true, false, false][..2]) == 1 by {
      assert [true, false, false][..2][..1] == [true];
      assert [true][..0] == [];
    }
    score := GetScore(s);
  }

  /** The "Próxima"/"Finalizar" button is enabled only on an answered slot. */
  function NextEnabled(s: QuizData): (r: bool)
    ensures r <==> SlotExists(s) && s.userAnswers[s.currentQuestionIndex].answer != ""
  {
    HasAnsweredCurrentQuestion(s)
  }

  /** The "Anterior" button is enabled off the first question. */
  function PreviousEnabled(s: QuizData): (r: bool)
    ensures r <==> s.currentQuestionIndex != 0
  {
    CanGoPrevious(s)
  }

  /** The page object: the shared store, and the timer component it mounts,
      keyed by the cursor. With no questions it shows only a placeholder,
      so there is no timer and no control. */
  class QuizPage {
    const store: QuizStore
    var timer: TimerComponent?
    /** The cursor value the mounted timer was created for. */
    var timerKey: int

    ghost function TimerObjects(): set<object>
      reads this
    {
      if timer == null then {} else {timer, timer.timer}
    }

    /** The mounted timer is sound and was mounted by this page. */
    ghost predicate TimerValid()
      reads this, TimerObjects()
    {
      timer != null ==> timer.Valid() && timer.autoStart && timer.hasOnTimeUp
    }

    /** A timer is mounted exactly when there are questions, for the current
        cursor and the configured interval. */
    ghost predicate Valid()
      reads this, store, TimerObjects()
    {
      && TimerValid()
      && (timer == null <==> !IsQuizReady(store.state))
      && (timer != null ==>
            && timerKey == store.state.currentQuestionIndex
            && timer.timeInMinutes == store.state.config.timerMinutes)
    }

    /** `timerRef.current?.getTimeSpent() || 0`. */
    function Elapsed(): (r: nat)
      reads this, TimerObjects()
      requires TimerValid()
      ensures timer == null ==> r == 0
      ensures timer != null ==> r == timer.timer.TimeSpent()
    {
      if timer == null then 0 else timer.GetTimeSpent()
    }

    /** Mounting: with questions a fresh timer starts on the whole interval;
        without them the placeholder shows, with no timer and no control. */
    constructor (store: QuizStore)
      ensures Valid() && this.store == store
      ensures store.state == old(store.state)
      ensures timer == null <==> !IsQuizReady(store.state)
      ensures fresh(TimerObjects())
      ensures timer != null ==>
        && fresh(timer) && timer.timer.isRunning && !timer.timeUpCalled
        && timer.timer.timeLeft == 60 * store.state.config.timerMinutes && timer.timer.TimeSpent() == 0
    {
      this.store := store;
      timer := null;
      timerKey := 0;
      new;
      Render();
    }

    /** Re-rendering after the session changed: the placeholder drops the
        timer; a new cursor value mounts a fresh timer (the key changed),
        started and with the whole interval left; otherwise the mounted
        one is kept and told the configured interval length. */
    method Render()
      requires TimerValid()
      modifies this, TimerObjects()
      ensures Valid() && store.state == old(store.state)
      ensures fresh(TimerObjects() - old(TimerObjects()))
      ensures timer != null && (old(timer) == null || old(timerKey) != store.state.currentQuestionIndex) ==>
        && fresh(timer) && timer.timer.isRunning && !timer.timeUpCalled
        && timer.timer.timeLeft == 60 * store.state.config.timerMinutes && timer.timer.TimeSpent() == 0
      ensures old(timer) != null && timer != null && old(timerKey) == store.state.currentQuestionIndex ==>
        timer == old(timer)
      ensures old(timer) != null && timer != null && old(timerKey) == store.state.currentQuestionIndex
              && old(timer.timeInMinutes) == store.state.config.timerMinutes ==>
        && timer.timeUpCalled == old(timer.timeUpCalled)
        && timer.timer.timeLeft == old(timer.timer.timeLeft)
        && timer.timer.totalTime == old(timer.timer.totalTime)
        && timer.timer.isRunning == old(timer.timer.isRunning)
    {
      if !IsQuizReady(store.state) {
        timer := null;
      } else if timer == null || timerKey != store.state.currentQuestionIndex {
        timer := new TimerComponent(store.state.config.timerMinutes, true, true);
        timerKey := store.state.currentQuestionIndex;
      } else {
        timer.ChangeInterval(store.state.config.timerMinutes);
      }
    }

    /** handleAnswerSelect: the choice is stored with the time spent so far;
        the cursor, and so the timer, stay. */
    method HandleAnswerSelect(answer: string)
      requires Valid() && IsQuizReady(store.state) && SlotExists(store.state)
      modifies this, store, TimerObjects()
      ensures Valid()
      ensures store.state == SelectEffect(old(store.state), answer, old(Elapsed()))
      ensures timer == old(timer) && timer != null
      ensures && timer.timer.timeLeft == old(timer.timer.timeLeft)
              && timer.timer.totalTime == old(timer.timer.totalTime)
              && timer.timer.isRunning == old(timer.timer.isRunning)
              && timer.timeUpCalled == old(timer.timeUpCalled)
    {
      var view := store.state;
      var elapsed := Elapsed();
      store.Dispatch(SetAnswer(view.currentQuestionIndex, answer, elapsed));
      Render();
    }

    /** handleNext. A changed cursor gets a fresh, running timer. */
    method HandleNext()
      requires Valid() && IsQuizReady(store.state)
      modifies this, store, TimerObjects()
      ensures Valid()
      ensures store.state == NextEffect(old(store.state), old(Elapsed()))
      ensures fresh(TimerObjects() - old(TimerObjects())) && timer != null
      ensures store.state.currentQuestionIndex != old(store.state.currentQuestionIndex) ==>
        && fresh(timer) && timer.timer.isRunning && !timer.timeUpCalled
        && timer.timer.timeLeft == 60 * store.state.config.timerMinutes && timer.timer.TimeSpent() == 0
      ensures store.state.currentQuestionIndex == old(store.state.currentQuestionIndex) ==>
        && timer == old(timer)
        && timer.timer.timeLeft == old(timer.timer.timeLeft)
        && timer.timer.totalTime == old(timer.timer.totalTime)
        && timer.timer.isRunning == old(timer.timer.isRunning)
        && timer.timeUpCalled == old(timer.timeUpCalled)
    {
      var view := store.state;
      var elapsed := Elapsed();
      var current := CurrentAnswer(view);
      if current != "" {
        store.Dispatch(SetAnswer(view.currentQuestionIndex, current, elapsed));
      }
      if IsLastQuestion(view) {
        store.Dispatch(CompleteQuiz);
      } else {
        var moved := GoToNextWithValidation(store, view);
      }
      Render();
    }

    /** handlePrevious. A changed cursor gets a fresh, running timer. */
    method HandlePrevious()
      requires Valid() && IsQuizReady(store.state)
      modifies this, store, TimerObjects()
      ensures Valid()
      ensures store.state == PreviousEffect(old(store.state), old(Elapsed()))
      ensures fresh(TimerObjects() - old(TimerObjects())) && timer != null
      ensures store.state.currentQuestionIndex != old(store.state.currentQuestionIndex) ==>
        && fresh(timer) && timer.timer.isRunning && !timer.timeUpCalled
        && timer.timer.timeLeft == 60 * store.state.config.timerMinutes && timer.timer.TimeSpent() == 0
      ensures store.state.currentQuestionIndex == old(store.state.currentQuestionIndex) ==>
        && timer == old(timer)
        && timer.timer.timeLeft == old(timer.timer.timeLeft)
        && timer.timer.totalTime == old(timer.timer.totalTime)
        && timer.timer.isRunning == old(timer.timer.isRunning)
        && timer.timeUpCalled == old(timer.timeUpCalled)
    {
      var view := store.state;
      var elapsed := Elapsed();
      var current := CurrentAnswer(view);
      if current != "" {
        store.Dispatch(SetAnswer(view.currentQuestionIndex, current, elapsed));
      }
      store.Dispatch(PreviousQuestion);
      Render();
    }

    /** handleTimeUp. */
    method HandleTimeUp()
      requires Valid() && IsQuizReady(store.state) && SlotExists(store.state)
      modifies this, store, TimerObjects()
      ensures Valid()
      ensures store.state == TimeUpEffect(old(store.state), old(Elapsed()))
      ensures fresh(TimerObjects() - old(TimerObjects())) && timer != null
      ensures store.state.currentQuestionIndex != old(store.state.currentQuestionIndex) ==>
        && fresh(timer) && timer.timer.isRunning && !timer.timeUpCalled
        && timer.timer.timeLeft == 60 * store.state.config.timerMinutes && timer.timer.TimeSpent() == 0
      ensures store.state.currentQuestionIndex == old(store.state.currentQuestionIndex) ==>
        && timer == old(timer)
        && timer.timer.timeLeft == old(timer.timer.timeLeft)
        && timer.timer.totalTime == old(timer.timer.totalTime)
        && timer.timer.isRunning == old(timer.timer.isRunning)
        && timer.timeUpCalled == old(timer.timeUpCalled)
    {
      var view := store.state;
      var elapsed := Elapsed();
      var current := CurrentAnswer(view);
      if current != "" {
        store.Dispatch(SetAnswer(view.currentQuestionIndex, current, elapsed));
      } else {
        store.Dispatch(SetAnswer(view.currentQuestionIndex, "", elapsed));
      }
      if IsLastQuestion(view) {
        store.Dispatch(CompleteQuiz);
      } else {
        var moved := GoToNextWithValidation(store, view);
      }
      Render();
    }

    /** One second of wall-clock time: the mounted timer ticks, the
        component's effects run, and an expiry calls handleTimeUp with the
        whole interval as the time spent. A timer whose expiry was already
        reported does not report it again; after a report that leaves the
        cursor in place the flag stays set, so the next second is silent.
        Only a second that can expire needs an answer slot to write. */
    method Second() returns (timeUp: bool)
      requires Valid() && timer != null
      requires !timer.timeUpCalled && (timer.timer.timeLeft == 0 || (timer.timer.isRunning && timer.timer.timeLeft <= 1))
               ==> SlotExists(store.state)
      modifies this, store, TimerObjects()
      ensures Valid() && timer != null && fresh(TimerObjects() - old(TimerObjects()))
      ensures timeUp ==> SlotExists(old(store.state))
      ensures timeUp <==>
        && !old(timer.timeUpCalled)
        && (old(timer.timer.timeLeft) == 0 || (old(timer.timer.isRunning) && old(timer.timer.timeLeft) <= 1))
      ensures timeUp ==> store.state == TimeUpEffect(old(store.state), old(timer.timer.totalTime))
      ensures timeUp && store.state.currentQuestionIndex == old(store.state.currentQuestionIndex) ==>
        && timer == old(timer) && timer.timeUpCalled
        && timer.timer.timeLeft == 0 && timer.timer.totalTime == old(timer.timer.totalTime)
      ensures timeUp && store.state.currentQuestionIndex != old(store.state.currentQuestionIndex) ==>
        && fresh(timer) && timer.timer.isRunning && !timer.timeUpCalled
        && timer.timer.timeLeft == 60 * store.state.config.timerMinutes
      ensures store.state.config == old(store.state.config)
      ensures !timeUp ==> store.state == old(store.state) && timer == old(timer)
      ensures !timeUp ==>
        && timer.timer.totalTime == old(timer.timer.totalTime)
        && timer.timeUpCalled == (old(timer.timeUpCalled) && timer.timer.timeLeft == 0)
      ensures !timeUp && old(timer.timer.isRunning) && old(timer.timer.timeLeft) > 0 ==>
        if old(timer.timer.timeLeft) <= 1 then timer.timer.timeLeft == 0 && !timer.timer.isRunning
        else timer.timer.timeLeft == old(timer.timer.timeLeft) - 1 && timer.timer.isRunning
      ensures !timeUp && !(old(timer.timer.isRunning) && old(timer.timer.timeLeft) > 0) ==>
        timer.timer.timeLeft == old(timer.timer.timeLeft) && timer.timer.isRunning == old(timer.timer.isRunning)
    {
      timer.Tick();
      timeUp := timer.AfterRender();
      if timeUp {
        HandleTimeUp();
      }
    }

    /** Two seconds in a row report at most one expiry, when the interval
        is at least a minute: a report that keeps the cursor leaves the flag
        set, and one that moves it mounts a fresh timer with a full minute
        or more on the clock. */
    method TwoSeconds() returns (first: bool, second: bool)
      requires Valid() && timer != null && SlotExists(store.state)
      requires store.state.config.timerMinutes > 0
      modifies this, store, TimerObjects()
      ensures Valid()
      ensures first ==> !second
    {
      first := Second();
      second := Second();
    }

    /** After an expiry that left the cursor in place, the timer stays at 0
        with its flag set: however many seconds pass, none reports it again
        and the session does not change. */
    method SecondsAfterStall(seconds: nat) returns (reported: bool)
      requires Valid() && timer != null && timer.timeUpCalled && timer.timer.timeLeft == 0
      modifies this, store, TimerObjects()
      ensures Valid() && !reported
      ensures store.state == old(store.state) && timer == old(timer)
      ensures timer.timeUpCalled && timer.timer.timeLeft == 0
    {
      reported := false;
      var k := 0;
      while k < seconds
        invariant 0 <= k <= seconds
        invariant Valid() && timer != null && timer == old(timer) && !reported
        invariant timer.timeUpCalled && timer.timer.timeLeft == 0
        invariant store.state == old(store.state)
        invariant TimerObjects() == old(TimerObjects())
      {
        var timeUp := Second();
        reported := reported || timeUp;
        k := k + 1;
      }
    }
  }
}
