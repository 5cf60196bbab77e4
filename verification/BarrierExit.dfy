/**
How the timer ends (src/timer.c): once every device has detached, it makes the tick that it is
waiting for or the one of the next round, if any, and leaves its loop, whatever `main` does.
*/
module BarrierExit {
  import opened Barrier
  import opened BarrierTheorems

  /** The ticks that are still to come when every device has detached. */
  function TicksLeft(t: Timer, stop: bool): nat {
    if Gathering(t.pc) then 1
    else if t.pc == TDone || stop then 0
    else if t.pc == LoopHead || t.fsh != t.event then 1
    else 0
  }

  /** A timer step counts one tick of those to come, exactly when it makes one. */
  lemma TimerStepTicks(s: State)
    requires Inv(s) && AllFsh(s.devs, |s.devs|) && Enabled(s, TimerStep)
    ensures var s' := TimerNext(s);
            && s'.time + TicksLeft(s'.timer, s'.stop) == s.time + TicksLeft(s.timer, s.stop)
            && AllFsh(s'.devs, |s'.devs|)
  {
  }

  /** No other step makes a tick, or adds one to those to come. */
  lemma OtherStepTicks(s: State, step: Step)
    requires Inv(s) && AllFsh(s.devs, |s.devs|) && Enabled(s, step) && step != TimerStep
    ensures var s' := Next(s, step);
            && s'.time == s.time && TicksLeft(s'.timer, s'.stop) <= TicksLeft(s.timer, s.stop)
            && AllFsh(s'.devs, |s'.devs|)
  {
  }

  /** When every device has detached, at most one more tick happens in any continuation; none, if the timer has
      counted all of them in this round or finds `timer_stop` set before the next one. */
  lemma {:induction false} LastTick(s: State, steps: seq<Step>)
    requires Inv(s) && AllFsh(s.devs, |s.devs|) && Feasible(s, steps)
    ensures Exec(s, steps).time <= s.time + TicksLeft(s.timer, s.stop) <= s.time + 1
    decreases |steps|
  {
    if steps != [] {
      StepInv(s, steps[0]);
      if steps[0] == TimerStep {
        TimerStepTicks(s);
      } else {
        OtherStepTicks(s, steps[0]);
      }
      LastTick(Next(s, steps[0]), steps[1..]);
    }
  }

  /** `n` steps of the timer alone. */
  function TimerOnly(n: nat): (steps: seq<Step>)
    ensures |steps| == n
  {
    if n == 0 then [] else [TimerStep] + TimerOnly(n - 1)
  }

  lemma GoneTimerIsReady(s: State)
    requires Inv(s) && AllGone(s.devs) && s.timer.pc != TDone
    ensures Enabled(s, TimerStep) && AllFsh(s.devs, |s.devs|) && AllGone(TimerNext(s).devs)
  {
    assert forall d :: 0 <= d < |s.devs| ==> DevInv(s.time, s.timer, d, s.devs[d]);
  }

  /** When all device threads are gone, the timer ends by its own steps, with exactly the ticks to come, also
      if nobody ever sets `timer_stop`. */
  lemma {:induction false} TimerEndsAlone(s: State) returns (n: nat)
    requires Inv(s) && AllGone(s.devs)
    ensures Feasible(s, TimerOnly(n))
    ensures var s' := Exec(s, TimerOnly(n));
            s'.timer.pc == TDone && s'.stop == s.stop && s'.time == s.time + TicksLeft(s.timer, s.stop)
    decreases TicksLeft(s.timer, s.stop), Rank(s)
  {
    n := 0;
    if s.timer.pc != TDone {
      GoneTimerIsReady(s);
      StepInv(s, TimerStep);
      RankBounded(s);
      TimerStepTicks(s);
      if s.timer.pc != Tick {
        TimerLowersRank(s);
      }
      var m := TimerEndsAlone(TimerNext(s));
      n := m + 1;
      assert TimerOnly(n)[1..] == TimerOnly(m);
    }
  }
}
