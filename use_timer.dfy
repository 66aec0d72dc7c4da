/** The countdown of src/hooks/useTimer.ts: three state cells (`timeLeft`,
    `totalTime`, `isRunning`) changed by reset, start and the one-second
    interval callback, which `Tick` stands in for. */
module UseTimer {
  import opened QuizTypes
  import opened Numeric

  class Timer {
    /** The hook's `initialTimeInMinutes` argument. */
    var initialMinutes: nat
    var timeLeft: int
    var totalTime: int
    var isRunning: bool

    /** Time left never goes below 0 nor above the interval. */
    ghost predicate Valid()
      reads this
    {
      0 <= timeLeft <= totalTime
    }

    /** The first render: both cells start at the whole interval, stopped. */
    constructor (initialTimeInMinutes: nat)
      ensures Valid() && initialMinutes == initialTimeInMinutes
      ensures timeLeft == totalTime == 60 * initialTimeInMinutes && !isRunning
    {
      initialMinutes := initialTimeInMinutes;
      timeLeft := 60 * initialTimeInMinutes;
      totalTime := 60 * initialTimeInMinutes;
      isRunning := false;
    }

    /** The effect on `initialTimeInMinutes`: a new interval length resets
        both cells to it and stops; no elapsed time carries over. */
    method ChangeInitialMinutes(minutes: nat)
      requires Valid()
      modifies this
      ensures Valid() && initialMinutes == minutes
      ensures minutes != old(initialMinutes) ==>
        timeLeft == totalTime == 60 * minutes && !isRunning
      ensures minutes == old(initialMinutes) ==>
        timeLeft == old(timeLeft) && totalTime == old(totalTime) && isRunning == old(isRunning)
    {
      if minutes != initialMinutes {
        initialMinutes := minutes;
        timeLeft := 60 * minutes;
        totalTime := 60 * minutes;
        isRunning := false;
      }
    }

    /** startTimer only sets the flag; it does not look at `timeLeft`. */
    method Start()
      modifies this
      ensures isRunning
      ensures timeLeft == old(timeLeft) && totalTime == old(totalTime)
      ensures initialMinutes == old(initialMinutes)
    {
      isRunning := true;
    }

    /** resetTimer: an absent or zero argument falls back to the hook's own
        interval; the timer is stopped either way. */
    method Reset(newTimeInMinutes: Option<nat>)
      modifies this
      ensures Valid() && !isRunning && initialMinutes == old(initialMinutes)
      ensures newTimeInMinutes.Some? && newTimeInMinutes.value != 0 ==>
        timeLeft == totalTime == 60 * newTimeInMinutes.value
      ensures newTimeInMinutes.None? || newTimeInMinutes.value == 0 ==>
        timeLeft == totalTime == 60 * initialMinutes
      ensures TimeSpent() == 0
    {
      var newTime := if newTimeInMinutes.Some? && newTimeInMinutes.value != 0
                     then newTimeInMinutes.value * 60 else initialMinutes * 60;
      timeLeft := newTime;
      totalTime := newTime;
      isRunning := false;
    }

    /** One interval callback. The interval exists only while the timer runs
        with time left, so otherwise nothing happens. */
    method Tick()
      requires Valid()
      modifies this
      ensures Valid() && totalTime == old(totalTime) && initialMinutes == old(initialMinutes)
      ensures old(isRunning) && old(timeLeft) > 0 ==>
        if old(timeLeft) <= 1 then timeLeft == 0 && !isRunning
        else timeLeft == old(timeLeft) - 1 && isRunning
      ensures old(isRunning) && old(timeLeft) > 0 ==> TimeSpent() == old(TimeSpent()) + 1
      ensures !(old(isRunning) && old(timeLeft) > 0) ==>
        timeLeft == old(timeLeft) && isRunning == old(isRunning)
    {
      if isRunning && timeLeft > 0 {
        if timeLeft <= 1 {
          isRunning := false;
          timeLeft := 0;
        } else {
          timeLeft := timeLeft - 1;
        }
      }
    }

    /** getTimeSpent. */
    function TimeSpent(): (r: int)
      reads this
      requires Valid()
      ensures 0 <= r <= totalTime
      ensures r + timeLeft == totalTime
    {
      totalTime - timeLeft
    }

    /** getProgressPercentage: the share of the interval already spent. */
    function ProgressPercentage(): (r: int)
      reads this
      requires Valid()
      ensures 0 <= r <= 100
      ensures totalTime == 0 || timeLeft == totalTime ==> r == 0
      ensures totalTime > 0 && timeLeft == 0 ==> r == 100
    {
      if totalTime == 0 then 0 else RoundPercent(totalTime - timeLeft, totalTime)
    }

    /** isTimeUp: the whole interval has been spent. */
    function IsTimeUp(): (r: bool)
      reads this
      ensures Valid() ==> (r <==> TimeSpent() == totalTime)
      ensures Valid() && r ==> ProgressPercentage() == (if totalTime == 0 then 0 else 100)
    {
      timeLeft == 0
    }
  }

  /** formatTime: zero-padded minutes, a colon, zero-padded seconds. */
  function FormatTime(seconds: nat): (r: string)
    ensures |r| >= 5 && r[|r| - 3] == ':'
  {
    PadStart2(ShowNat(seconds / 60)) + ":" + PadStart2(ShowNat(seconds % 60))
  }

  /** Reads a "mm:ss" text back into seconds. */
  function ParseClock(t: string): Option<nat> {
    var m := DigitPrefix(t);
    if |t| == |m| + 3 && t[|m|] == ':' && AllDigits(t[|m| + 1..])
    then Some(ParseNat(m) * 60 + ParseNat(t[|m| + 1..]))
    else None
  }

  /** formatTime loses nothing: the seconds field has two digits below 60,
      and minutes * 60 + seconds gives the input back. */
  lemma FormatTimeRoundTrip(seconds: nat)
    ensures var r := FormatTime(seconds);
      && AllDigits(r[|r| - 2..])
      && ParseNat(r[|r| - 2..]) == seconds % 60 < 60
      && ParseClock(r) == Some(seconds)
  {
    var mins, secs := PadStart2(ShowNat(seconds / 60)), PadStart2(ShowNat(seconds % 60));
    var r := mins + ":" + secs;
    ParsePadStart2(ShowNat(seconds / 60));
    ParsePadStart2(ShowNat(seconds % 60));
    ParseShowNat(seconds / 60);
    ParseShowNat(seconds % 60);
    assert |secs| == 2;
    DigitPrefixOf(mins, ":" + secs);
    assert r == mins + (":" + secs);
    assert r[|mins| + 1..] == secs;
    assert r[|r| - 2..] == secs;
  }

  /** Reset to two minutes, start, and let five seconds pass. */
  method FiveSecondsAfterReset() returns (spentAtReset: int, spent: int, left: int)
    ensures spentAtReset == 0 && spent == 5 && left == 115
  {
    var t := new Timer(3);
    t.Reset(Some(2));
    spentAtReset := t.TimeSpent();
    t.Start();
    t.Tick();
    t.Tick();
    t.Tick();
    t.Tick();
    t.Tick();
    spent := t.TimeSpent();
    left := t.timeLeft;
  }
}
