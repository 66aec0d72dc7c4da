/** src/components/TimerComponent.tsx: the countdown widget wrapped around a
    `Timer`. It keeps a flag (`timeUpCalledRef`) so that `onTimeUp` fires at
    most once per interval, resets and restarts the timer when the interval
    length changes, and derives the warning thresholds and status label. */
module TimerView {
  import opened QuizTypes
  import opened UseTimer

  class TimerComponent {
    /** The timer the component's `useTimer` call owns. */
    const timer: Timer
    var timeInMinutes: nat
    const autoStart: bool
    /** Whether the parent passed an `onTimeUp` callback. */
    const hasOnTimeUp: bool
    /** `timeUpCalledRef.current`. */
    var timeUpCalled: bool
    /** How many times `onTimeUp` fired since the interval was last reset. */
    ghost var firings: nat

    /** The hook is called with the component's own interval length. A
        firing sets the flag at zero time left, and nothing can fire again
        before the flag is cleared, which needs time back on the clock. */
    ghost predicate Valid()
      reads this, timer
    {
      timer.Valid()
      && timer.initialMinutes == timeInMinutes
      && firings <= 1
      && (firings == 1 ==> timeUpCalled && timer.timeLeft == 0)
    }

    /** Mounting: the timer is created for the interval, the mount effect
        clears the flag, resets to the interval and (the 300 ms delay
        aside) starts it when `autoStart` is set. */
    constructor (timeInMinutes: nat, autoStart: bool, hasOnTimeUp: bool)
      ensures Valid() && fresh(timer)
      ensures this.timeInMinutes == timeInMinutes && this.autoStart == autoStart
      ensures this.hasOnTimeUp == hasOnTimeUp
      ensures timer.initialMinutes == timeInMinutes
      ensures timer.timeLeft == timer.totalTime == 60 * timeInMinutes
      ensures timer.isRunning == autoStart
      ensures !timeUpCalled && firings == 0
    {
      timer := new Timer(timeInMinutes);
      this.timeInMinutes := timeInMinutes;
      this.autoStart := autoStart;
      this.hasOnTimeUp := hasOnTimeUp;
      timeUpCalled := false;
      firings := 0;
      new;
      timer.Reset(Some(timeInMinutes));
      if autoStart {
        timer.Start();
      }
    }

    /** A render with a different `timeInMinutes`: the hook's own effect resets
        to the new length, then the component's effect clears the flag, resets
        again and restarts. The same length changes nothing. */
    method ChangeInterval(minutes: nat)
      requires Valid()
      modifies this, timer
      ensures Valid() && timeInMinutes == minutes && timer.initialMinutes == minutes
      ensures minutes != old(timeInMinutes) ==>
        && !timeUpCalled && firings == 0
        && timer.timeLeft == timer.totalTime == 60 * minutes
        && timer.isRunning == autoStart
      ensures minutes == old(timeInMinutes) ==>
        && timeUpCalled == old(timeUpCalled) && firings == old(firings)
        && timer.timeLeft == old(timer.timeLeft) && timer.totalTime == old(timer.totalTime)
        && timer.isRunning == old(timer.isRunning)
    {
      if minutes != timeInMinutes {
        timeInMinutes := minutes;
        timer.ChangeInitialMinutes(minutes);
        timeUpCalled := false;
        timer.Reset(Some(minutes));
        firings := 0;
        if autoStart {
          timer.Start();
        }
      }
    }

    /** The effects that follow a render: first the expiry check (which
        fires `onTimeUp` and sets the flag), then the flag is cleared if
        there is time on the clock. The timer itself is not touched. */
    method AfterRender() returns (fired: bool)
      requires Valid()
      modifies this`timeUpCalled, this`firings
      ensures Valid()
      ensures fired <==> hasOnTimeUp && timer.IsTimeUp() && !old(timeUpCalled)
      ensures old(timeUpCalled) ==> !fired
      ensures firings == old(firings) + (if fired then 1 else 0)
      ensures timeUpCalled == (fired || (old(timeUpCalled) && timer.timeLeft == 0))
    {
      fired := false;
      if timer.IsTimeUp() && hasOnTimeUp && !timeUpCalled {
        timeUpCalled := true;
        firings := firings + 1;
        fired := true;
      }
      if timer.timeLeft > 0 && timeUpCalled {
        timeUpCalled := false;
      }
    }

    /** One second of the running interval. */
    method Tick()
      requires Valid()
      modifies timer
      ensures Valid()
      ensures timer.totalTime == old(timer.totalTime) && timer.initialMinutes == old(timer.initialMinutes)
      ensures old(timer.isRunning) && old(timer.timeLeft) > 0 ==>
        if old(timer.timeLeft) <= 1 then timer.timeLeft == 0 && !timer.isRunning
        else timer.timeLeft == old(timer.timeLeft) - 1 && timer.isRunning
      ensures old(timer.isRunning) && old(timer.timeLeft) > 0 ==>
        timer.TimeSpent() == old(timer.TimeSpent()) + 1
      ensures !(old(timer.isRunning) && old(timer.timeLeft) > 0) ==>
        timer.timeLeft == old(timer.timeLeft) && timer.isRunning == old(timer.isRunning)
    {
      timer.Tick();
    }

    /** The handle's getTimeSpent is the timer's own. */
    function GetTimeSpent(): (r: int)
      reads this, timer
      requires Valid()
      ensures r == timer.TimeSpent() && 0 <= r <= timer.totalTime
    {
      timer.TimeSpent()
    }

    /** The handle's resetTimer is the timer's own; a new interval begins. */
    method ResetTimer(newTimeInMinutes: Option<nat>)
      requires Valid()
      modifies this`firings, timer
      ensures Valid() && firings == 0 && !timer.isRunning && timer.TimeSpent() == 0
      ensures timeUpCalled == old(timeUpCalled) && timer.initialMinutes == old(timer.initialMinutes)
      ensures newTimeInMinutes.Some? && newTimeInMinutes.value != 0 ==>
        timer.timeLeft == timer.totalTime == 60 * newTimeInMinutes.value
      ensures newTimeInMinutes.None? || newTimeInMinutes.value == 0 ==>
        timer.timeLeft == timer.totalTime == 60 * timeInMinutes
    {
      timer.Reset(newTimeInMinutes);
      firings := 0;
    }
  }

  /** isLowTime: 30 seconds or less, but not expired. */
  function IsLowTime(timeLeft: int): (r: bool)
    ensures r <==> 0 < timeLeft <= 30
  {
    timeLeft <= 30 && timeLeft > 0
  }

  /** isCriticalTime: 10 seconds or less, but not expired; always also low. */
  function IsCriticalTime(timeLeft: int): (r: bool)
    ensures r ==> IsLowTime(timeLeft)
    ensures timeLeft == 0 ==> !r
    ensures r <==> 0 < timeLeft <= 10
  {
    timeLeft <= 10 && timeLeft > 0
  }

  const RunningLabel := "Em andamento"
  const TimeUpLabel := "⏰ Tempo esgotado!"
  const PausedLabel := "Pausado"

  /** The status line: running wins over expired, which wins over paused. */
  function StatusLabel(isRunning: bool, isTimeUp: bool): (r: string)
    ensures r == RunningLabel <==> isRunning
    ensures r == TimeUpLabel <==> !isRunning && isTimeUp
    ensures r == PausedLabel <==> !isRunning && !isTimeUp
  {
    if isRunning then RunningLabel else if isTimeUp then TimeUpLabel else PausedLabel
  }
}
