/** The bounded restart loop around the live loop (agent/ops/watchdog.py:29-56). */
module Watchdog {
  datatype LifeEnd = Returned | Cancelled | Raised
  datatype RunEnd = Killed | Completed | CancelledOut | GaveUp

  /** `killAtStart(i)` and `killAfter(i)` are what the kill file shows before life `i` and after its exception;
      `life(i)` is how life `i` ends. The run reports how it ended and how many lives it gave. */
  method RunWithWatchdog(killAtStart: nat -> bool, killAfter: nat -> bool, life: nat -> LifeEnd, maxRestarts: nat)
    returns (end: RunEnd, lives: nat)
    ensures lives <= maxRestarts + 1
    ensures forall i | 0 <= i < lives :: !killAtStart(i) && (i < lives - 1 ==> life(i) == Raised && !killAfter(i))
    ensures end == GaveUp <==> lives == maxRestarts + 1 && life(lives - 1) == Raised
    ensures end == Completed <==> lives > 0 && life(lives - 1) == Returned
    ensures end == CancelledOut <==> lives > 0 && life(lives - 1) == Cancelled
    ensures end == Killed <==>
            && lives <= maxRestarts && (lives > 0 ==> life(lives - 1) == Raised)
            && (killAtStart(lives) || (lives > 0 && killAfter(lives - 1)))
  {
    var restarts := 0;
    lives := 0;
    while !killAtStart(lives)
      invariant lives == restarts <= maxRestarts
      invariant forall i | 0 <= i < lives :: !killAtStart(i) && life(i) == Raised && !killAfter(i)
      decreases maxRestarts - restarts
    {
      lives := lives + 1;
      match life(lives - 1)
      case Returned => return Completed, lives;
      case Cancelled => return CancelledOut, lives;
      case Raised =>
        restarts := restarts + 1;
        if restarts > maxRestarts {
          return GaveUp, lives;
        }
        if killAfter(lives - 1) {
          return Killed, lives;
        }
    }
    return Killed, lives;
  }
}
