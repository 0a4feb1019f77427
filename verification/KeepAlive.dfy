/** The client's waiting loop: a tick a second until the hosts are done, the
    context ends, or the configured duration is over by 20 seconds. */
module KeepAlive {
  import opened Records

  const GRACE: nat := 20

  datatype Outcome = TimedOut | ContextEnded | TickerStopped | HostsFinished

  /** What the loop reads, by the number of iterations that are over: whether the
      context has ended at its head and after the sleep, the time since the start
      after the sleep, whether the ticker asks to stop, and the counter of hosts
      doing work. */
  datatype World = World(
    endedBefore: nat -> bool, clock: nat -> nat, endedAfter: nat -> bool, stops: nat -> bool, working: nat -> int)

  /** It sleeps at least a second in each iteration. */
  ghost predicate Ticks(w: World) {
    w.clock(0) >= SECOND && forall k: nat :: w.clock(k + 1) >= w.clock(k) + SECOND
  }

  /** Nothing that iteration k reads makes the loop end. */
  predicate GoesOn(w: World, duration: int, k: nat) {
    && !w.endedBefore(k) && w.clock(k) <= (duration + 20) * SECOND && !w.endedAfter(k) && !w.stops(k)
    && w.working(k) > 0
  }

  /** The reason why the loop ends when it has come to iteration k, in the order
      in which it looks. */
  function Reason(w: World, duration: int, k: nat): Outcome {
    if w.endedBefore(k) then ContextEnded
    else if w.clock(k) > (duration + 20) * SECOND then TimedOut
    else if w.endedAfter(k) then ContextEnded
    else if w.stops(k) then TickerStopped
    else HostsFinished
  }

  /** Whatever it reads, the loop ends at the first iteration that has a reason
      to, for that reason: a counter that is not positive, the context, the
      ticker, or more than duration + 20 seconds. So it comes to at most
      duration + 21 iterations (one for durations below -20), and leaves for the
      hosts' sake at the first reading of the counter that is not positive. */
  method KeepAliveLoop(duration: int, w: World) returns (iterations: nat, outcome: Outcome)
    requires Ticks(w)
    ensures forall k: nat :: k < iterations ==> GoesOn(w, duration, k)
    ensures !GoesOn(w, duration, iterations) && outcome == Reason(w, duration, iterations)
    ensures outcome == TimedOut <==>
      !w.endedBefore(iterations) && w.clock(iterations) > (duration + 20) * SECOND
    ensures outcome == TickerStopped ==>
      w.clock(iterations) <= (duration + 20) * SECOND && !w.endedAfter(iterations) && w.stops(iterations)
    ensures outcome == HostsFinished ==>
      w.clock(iterations) <= (duration + 20) * SECOND && !w.endedAfter(iterations) && !w.stops(iterations)
      && w.working(iterations) <= 0
    ensures iterations + 1 <= if duration + 20 < 0 then 1 else duration + 21
  {
    iterations := 0;
    while true
      invariant forall k: nat :: k < iterations ==> GoesOn(w, duration, k)
      invariant (iterations + 1) * SECOND <= w.clock(iterations)
      invariant iterations > 0 ==> iterations * SECOND <= (duration + GRACE) * SECOND
      decreases (duration + GRACE) * SECOND - iterations * SECOND, iterations == 0
    {
      if w.endedBefore(iterations) {
        return iterations, ContextEnded;
      }
      if w.clock(iterations) > (duration + GRACE) * SECOND {
        return iterations, TimedOut;
      }
      if w.endedAfter(iterations) {
        return iterations, ContextEnded;
      }
      if w.stops(iterations) {
        return iterations, TickerStopped;
      }
      if w.working(iterations) <= 0 {
        return iterations, HostsFinished;
      }
      iterations := iterations + 1;
    }
  }
}
