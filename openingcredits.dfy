// The stop watch that keeps the opening credits on screen for a minimum
// time while the rest of the maze loads. The clock is a parameter.
module OpeningCredits {
  /** How long the opening credits stay up, in milliseconds. */
  const StopWatchDuration: int := 4500

  /** The time left on a stop watch started at startTime (-1: not started), read at now. */
  function TimeRemaining(startTime: int, now: int): (r: int)
    ensures startTime == -1 ==> r == StopWatchDuration
    ensures startTime != -1 && now - startTime > StopWatchDuration ==> r == 0
    ensures startTime != -1 && now >= startTime ==> 0 <= r <= StopWatchDuration
    ensures startTime != -1 && now - startTime <= StopWatchDuration ==> r + (now - startTime) == StopWatchDuration
  {
    if startTime == -1 then StopWatchDuration
    else
      var runningTime := now - startTime;
      if runningTime > StopWatchDuration then 0 else StopWatchDuration - runningTime
  }

  /** For a fixed start, the time left never goes up as the clock runs. */
  lemma RemainingNonIncreasing(startTime: int, t1: int, t2: int)
    requires t1 <= t2
    ensures TimeRemaining(startTime, t2) <= TimeRemaining(startTime, t1)
  {
  }

  class OpeningCredits {
    var startTime: int

    constructor()
      ensures startTime == -1
    {
      startTime := -1;
    }

    /** `startTheStopWatch()` at clock reading now. */
    method StartTheStopWatch(now: int)
      modifies this
      ensures startTime == now
    {
      startTime := now;
    }

    /** `getStopWatchTimeRemaining()` at clock reading now. */
    method GetStopWatchTimeRemaining(now: int) returns (r: int)
      ensures r == TimeRemaining(startTime, now)
    {
      if startTime == -1 {
        return StopWatchDuration;
      }
      var curTime := now;
      var runningTime := curTime - startTime;
      if runningTime > StopWatchDuration {
        return 0;
      }
      return StopWatchDuration - runningTime;
    }
  }

  /** Before the stop watch is started the full duration remains, whatever the clock says. */
  lemma NotStartedFullDuration(now: int)
    ensures TimeRemaining(-1, now) == 4500
  {
  }
}
