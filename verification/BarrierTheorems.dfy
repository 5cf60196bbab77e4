/**
What the slot barrier guarantees in every run: lockstep, a stable clock during
slot work, no lost wakeup, no deadlock, and a bound on the steps between ticks.
*/
module BarrierTheorems {
  import opened Barrier

  // ----- Runs

  predicate Feasible(s: State, steps: seq<Step>)
    requires Shape(s)
    decreases |steps|
  {
    steps == [] || (Enabled(s, steps[0]) && Feasible(Next(s, steps[0]), steps[1..]))
  }

  function Exec(s: State, steps: seq<Step>): (s': State)
    requires Shape(s) && Feasible(s, steps)
    ensures |s'.devs| == |s.devs| && Shape(s')
    decreases |steps|
  {
    if steps == [] then s else Exec(Next(s, steps[0]), steps[1..])
  }

  lemma {:induction false} ExecInv(s: State, steps: seq<Step>)
    requires Inv(s) && Feasible(s, steps)
    ensures Inv(Exec(s, steps))
    decreases |steps|
  {
    if steps != [] {
      StepInv(s, steps[0]);
      ExecInv(Next(s, steps[0]), steps[1..]);
    }
  }

  /** The devices whose `detach_event` has not taken effect. */
  predicate Live(v: Dev) {
    !v.fsh
  }

  /** Not inside `next_slot` with `done` already reported: the device is using its slot. */
  predicate UsingSlot(pc: DevPc) {
    Busy(pc) || pc.LockEventFsh? || pc.SetFsh?
  }

  // ----- Lockstep

  /** Any two live devices have completed numbers of slots that differ by at most one,
      and a device that is using its slot sees a clock equal to its own number of completed slots. */
  lemma Lockstep(n: nat, steps: seq<Step>)
    requires n >= 1 && Feasible(Init(n), steps)
    ensures
      var s := Exec(Init(n), steps);
      && (forall d, e :: 0 <= d < n && 0 <= e < n && Live(s.devs[d]) && Live(s.devs[e]) ==>
            s.devs[d].slots <= s.devs[e].slots + 1)
      && (forall d :: 0 <= d < n && UsingSlot(s.devs[d].pc) ==> s.devs[d].slots == s.time)
      && (forall d :: 0 <= d < n ==> s.devs[d].slots <= s.time)
  {
    InitInv(n);
    ExecInv(Init(n), steps);
    var s := Exec(Init(n), steps);
    assert forall d :: 0 <= d < n ==> DevInv(s.time, s.timer, d, s.devs[d]);
  }

  /** The clock moves only by one, only by the timer, and only while every live device waits inside
      `next_slot` for exactly this tick. */
  lemma ClockMovesOnlyAtTheBarrier(s: State, step: Step)
    requires Inv(s) && Enabled(s, step) && Next(s, step).time != s.time
    ensures step == TimerStep && Next(s, step).time == s.time + 1
    ensures forall d :: 0 <= d < |s.devs| && Live(s.devs[d]) ==>
              Waiting(s.devs[d].pc) && s.devs[d].done && s.devs[d].slots == s.time
  {
    assert forall d :: 0 <= d < |s.devs| ==> DevInv(s.time, s.timer, d, s.devs[d]);
  }

  // ----- Wakeups

  /** No wakeup is lost, although `done` is set under one lock and cleared under the other: whenever a
      sleeper's condition already holds, the signal that wakes it is still to come and cannot be blocked. */
  lemma NoLostWakeup(n: nat, steps: seq<Step>, d: nat)
    requires n >= 1 && Feasible(Init(n), steps) && d < n
    ensures
      var s := Exec(Init(n), steps);
      var v := s.devs[d];
      && (s.timer.pc == TAsleep && s.timer.k == d && (v.done || v.fsh) ==>
            Enabled(s, DevStep(d)) && Next(s, DevStep(d)).timer.pc == TRelock)
      && (v.pc == Asleep && !v.done ==>
            Enabled(s, TimerStep) && Next(s, TimerStep).devs[d].pc == Relock)
  {
    InitInv(n);
    ExecInv(Init(n), steps);
    var s := Exec(Init(n), steps);
    assert DevInv(s.time, s.timer, d, s.devs[d]);
  }

  // ----- Deadlock freedom

  predicate Finished(s: State) {
    s.timer.pc == TDone && AllGone(s.devs) && s.main == MainDone
  }

  /** A live device that is not asleep for a coming tick can move, or the timer holds its lock. */
  lemma DeviceCanMove(s: State, d: nat) returns (step: Step)
    requires Inv(s) && d < |s.devs|
    requires s.devs[d].pc != Gone
    requires s.devs[d].pc == Asleep ==> !s.devs[d].done
    requires !TimerHoldsEvent(s.timer, d) && !TimerHoldsTimer(s.timer, d)
    ensures Enabled(s, step) && !IsSpurious(step)
  {
    assert DevInv(s.time, s.timer, d, s.devs[d]);
    step := if s.devs[d].pc == Work then BeginWait(d) else DevStep(d);
  }

  /** In every state of the invariant with an unfinished thread, some thread can take a step
      that is not a spurious wakeup. */
  lemma NoDeadlock(s: State) returns (step: Step)
    requires Inv(s) && !Finished(s)
    ensures Enabled(s, step) && !IsSpurious(step)
  {
    var k := s.timer.k;
    assert DevInv(s.time, s.timer, k, s.devs[k]);
    if TimerReady(s.timer.pc, s.devs[k]) {
      step := TimerStep;
    } else if s.timer.pc == TDone {
      if AllGone(s.devs) {
        step := MainStep;
      } else {
        var d :| 0 <= d < |s.devs| && s.devs[d].pc != Gone;
        assert DevInv(s.time, s.timer, d, s.devs[d]);
        assert s.devs[d].fsh;
        step := DeviceCanMove(s, d);
      }
    } else {
      step := DeviceCanMove(s, k);
    }
  }

  // ----- Progress to the next tick

  /** Steps a device can still take before the next tick; waking a sleeper costs the waker what the sleeper gains. */
  function DevRank(v: Dev, time: nat): nat {
    (match v.pc
     case Work => 14
     case LockEvent => 10
     case SetDone => 9
     case SignalEvent => 8
     case UnlockEvent => 4
     case LockTimer => 3
     case Relock => 3
     case TestDone => 2
     case EnterWait => 1
     case Asleep => 0
     case UnlockTimer => 0
     case LockEventFsh => 7
     case SetFsh => 6
     case SignalFsh => 5
     case UnlockFsh => 1
     case Gone => 0)
    + (if Waiting(v.pc) && v.slots < time then 15 else 0)
  }

  /** Steps the timer can still take before its next tick among `n` devices. */
  function TimerRank(t: Timer, n: nat): int {
    match t.pc
    case TDone => 0
    case Tick => 0
    case TUnlockEvent => 6 * (n - 1 - t.k) + 1
    case TCount => 6 * (n - 1 - t.k) + 2
    case TAsleep => 6 * (n - 1 - t.k) + 2
    case TEnterWait => 6 * (n - 1 - t.k) + 3
    case TTest => 6 * (n - 1 - t.k) + 4
    case TRelock => 6 * (n - 1 - t.k) + 5
    case TLockEvent => 6 * (n - 1 - t.k) + 5
    case LoopHead => 6 * n
    case LoopEnd => 6 * n + 1
    case TUnlockTimer => 6 * n + 8 * (n - 1 - t.k) + 2
    case TSignal => 6 * n + 8 * (n - 1 - t.k) + 7
    case TClear => 6 * n + 8 * (n - 1 - t.k) + 8
    case TLockTimer => 6 * n + 8 * (n - 1 - t.k) + 9
  }

  function MainRank(m: MainPc): nat {
    match m case JoinDevices => 3 case StopTimer => 2 case JoinTimer => 1 case MainDone => 0
  }

  function DevsRank(devs: seq<Dev>, time: nat): (r: nat)
    ensures r <= 18 * |devs|
  {
    if devs == [] then 0 else DevRank(devs[0], time) + DevsRank(devs[1..], time)
  }

  function Rank(s: State): int {
    DevsRank(s.devs, s.time) + TimerRank(s.timer, |s.devs|) + MainRank(s.main)
  }

  /** The rank is never negative and linear in the number of devices. */
  lemma RankBounded(s: State)
    requires Inv(s)
    ensures 0 <= Rank(s) <= 32 * |s.devs| + 4
  {
  }

  lemma {:induction false} RankOfUpdate(devs: seq<Dev>, time: nat, d: nat, v: Dev)
    requires d < |devs|
    ensures DevsRank(devs[d := v], time) == DevsRank(devs, time) - DevRank(devs[d], time) + DevRank(v, time)
  {
    if d == 0 {
      assert devs[d := v][1..] == devs[1..];
    } else {
      assert devs[d := v][1..] == devs[1..][d - 1 := v];
      RankOfUpdate(devs[1..], time, d - 1, v);
    }
  }

  /** A device's own step pays for the timer it may wake. */
  lemma OwnStepLowersRank(time: nat, t: Timer, d: nat, v: Dev, n: nat)
    requires DevInv(time, t, d, v) && DevEnabled(v) && t.k < n
    ensures DevRank(DevAfter(v), time) + TimerRank(TimerSignalled(t, d, v.pc), n) < DevRank(v, time) + TimerRank(t, n)
  {
  }

  /** A timer step other than the tick pays for the device it may wake. */
  lemma TimerStepLowersRank(time: nat, t: Timer, v: Dev, n: nat, stop: bool)
    requires DevInv(time, t, t.k, v) && t.k < n
    requires t.pc != Tick && t.pc != TAsleep && t.pc != TDone
    requires t.pc == LoopEnd ==> t.k == 0
    ensures DevRank(VisitedAfter(t, v), time) + TimerRank(TimerAfter(t, v, n, stop), n) < DevRank(v, time) + TimerRank(t, n)
  {
  }

  lemma TimerLowersRank(s: State)
    requires Inv(s) && Enabled(s, TimerStep) && s.timer.pc != Tick
    ensures Rank(Next(s, TimerStep)) < Rank(s)
  {
    var k := s.timer.k;
    assert DevInv(s.time, s.timer, k, s.devs[k]);
    TimerStepLowersRank(s.time, s.timer, s.devs[k], |s.devs|, s.stop);
    RankOfUpdate(s.devs, s.time, k, VisitedAfter(s.timer, s.devs[k]));
  }

  lemma DeviceLowersRank(s: State, d: nat)
    requires Inv(s) && Enabled(s, DevStep(d))
    ensures Rank(Next(s, DevStep(d))) < Rank(s)
  {
    assert DevInv(s.time, s.timer, d, s.devs[d]);
    OwnStepLowersRank(s.time, s.timer, d, s.devs[d], |s.devs|);
    RankOfUpdate(s.devs, s.time, d, DevAfter(s.devs[d]));
  }

  lemma MoveRank(s: State, d: nat, pc: DevPc)
    requires d < |s.devs|
    ensures Rank(MoveTo(s, d, pc)) == Rank(s) - DevRank(s.devs[d], s.time) + DevRank(s.devs[d].(pc := pc), s.time)
  {
    RankOfUpdate(s.devs, s.time, d, s.devs[d].(pc := pc));
  }

  /** The end of its slot work brings a device closer to the tick. */
  lemma BeginRank(s: State, d: nat, pc: DevPc)
    requires d < |s.devs| && s.devs[d].pc == Work && (pc == LockEvent || pc == LockEventFsh)
    ensures Rank(MoveTo(s, d, pc)) < Rank(s)
  {
    MoveRank(s, d, pc);
  }

  lemma SpuriousDevRank(s: State, d: nat)
    requires d < |s.devs| && s.devs[d].pc == Asleep
    ensures Rank(MoveTo(s, d, Relock)) <= Rank(s) + 3
  {
    MoveRank(s, d, Relock);
  }

  lemma SpuriousTimerRank(s: State)
    requires s.timer.pc == TAsleep
    ensures Rank(s.(timer := s.timer.(pc := TRelock))) <= Rank(s) + 3
  {
  }

  lemma MainLowersRank(s: State)
    requires MainEnabled(s)
    ensures Rank(MainNext(s)) < Rank(s)
  {
  }

  /** Every step that is not a spurious wakeup lowers the rank as long as the clock stands still;
      a spurious wakeup raises it by at most three. */
  lemma StepLowersRank(s: State, step: Step)
    requires Inv(s) && Enabled(s, step) && Next(s, step).time == s.time
    ensures !IsSpurious(step) ==> Rank(Next(s, step)) < Rank(s)
    ensures Rank(Next(s, step)) <= Rank(s) + 3
  {
    match step
    case TimerStep => TimerLowersRank(s);
    case DevStep(d) => DeviceLowersRank(s, d);
    case BeginWait(d) => BeginRank(s, d, LockEvent);
    case BeginDetach(d) => BeginRank(s, d, LockEventFsh);
    case SpuriousTimer => SpuriousTimerRank(s);
    case SpuriousDev(d) => SpuriousDevRank(s, d);
    case MainStep => MainLowersRank(s);
  }

  /** A run in which the clock never moves. */
  predicate ClockStill(s: State, steps: seq<Step>)
    requires Shape(s) && Feasible(s, steps)
    decreases |steps|
  {
    steps == [] || (Next(s, steps[0]).time == s.time && ClockStill(Next(s, steps[0]), steps[1..]))
  }

  function SpuriousCount(steps: seq<Step>): nat {
    if steps == [] then 0 else (if IsSpurious(steps[0]) then 1 else 0) + SpuriousCount(steps[1..])
  }

  /** Between two ticks the threads can take only boundedly many steps, linear in the number of devices
      plus what spurious wakeups cause; with NoDeadlock, the clock keeps moving until every thread is done. */
  lemma {:induction false} NoEndlessSlot(s: State, steps: seq<Step>)
    requires Inv(s) && Feasible(s, steps) && ClockStill(s, steps)
    ensures |steps| <= Rank(s) + 4 * SpuriousCount(steps)
    decreases |steps|
  {
    RankBounded(s);
    if steps != [] {
      StepLowersRank(s, steps[0]);
      StepInv(s, steps[0]);
      NoEndlessSlot(Next(s, steps[0]), steps[1..]);
    }
  }

  /** When `main` is done, no thread holds a lock that `stop_timer` destroys, and nobody sleeps on one of its conditions. */
  lemma LocksFreeAtTheEnd(n: nat, steps: seq<Step>, d: nat)
    requires n >= 1 && Feasible(Init(n), steps) && d < n
    requires Exec(Init(n), steps).main == MainDone
    ensures var s := Exec(Init(n), steps);
            && s.devs[d].eventLock == Free && s.devs[d].timerLock == Free
            && s.devs[d].pc == Gone && s.timer.pc == TDone
  {
    InitInv(n);
    ExecInv(Init(n), steps);
    var s := Exec(Init(n), steps);
    assert DevInv(s.time, s.timer, d, s.devs[d]);
  }
}
