/**
When the simulation ends: the loader sets `done` in the slot after its last add, a CPU that then finds nothing stops
in that slot, and a configuration with at least as many long processes as CPUs ends in every run.
*/
module OsTermination {
  import opened Options
  import B = Barrier
  import T = BarrierTheorems
  import X = BarrierExit
  import M = MultiLevelQueue
  import opened Os
  import opened OsInv
  import opened OsTheorems
  import opened OsQuantum
  import opened OsIdle
  import opened OsCompletion
  import opened OsOverload

  // ----- The loader

  /** A live device has not fallen behind the clock, nor run ahead of it. */
  lemma SlotsAndClock(b: B.State, d: nat)
    requires B.Inv(b) && d < |b.devs|
    ensures b.devs[d].slots <= b.time
    ensures !B.Detaching(b.devs[d].pc) ==> b.time <= WorkSlot(b.devs[d])
    ensures b.devs[d].pc == B.Work ==> b.devs[d].slots == b.time
  {
    assert B.DevInv(b.time, b.timer, d, b.devs[d]);
  }

  lemma LoadedBy(cfg: Config, time: nat, v: B.Dev, ld: LdPc, i: nat, addedAt: seq<nat>, done: bool, j: nat)
    requires LoaderOk(cfg, time, v, ld, i, addedAt, done) && j < |cfg.jobs|
    requires v.slots <= time && (!B.Detaching(v.pc) ==> time <= WorkSlot(v)) && (v.pc == B.Work ==> v.slots == time)
    ensures time > AddTime(cfg, j) ==> j < i
    ensures j < i ==> time >= AddTime(cfg, j)
  {
    if i <= j {
      AddTimeMonotone(cfg, i, j);
    } else {
      AddTimeMonotone(cfg, j, i - 1);
    }
  }

  lemma DoneBy(cfg: Config, time: nat, v: B.Dev, ld: LdPc, i: nat, addedAt: seq<nat>, done: bool)
    requires LoaderOk(cfg, time, v, ld, i, addedAt, done)
    requires !B.Detaching(v.pc) ==> time <= WorkSlot(v)
    ensures time > DoneSlot(cfg) ==> done
    ensures done ==> time >= DoneSlot(cfg)
  {
    if ld == Adding {
      AddTimeMonotone(cfg, i, |cfg.jobs| - 1);
    } else if ld == Scan && i < |cfg.jobs| {
      AddTimeMonotone(cfg, i, |cfg.jobs| - 1);
    }
  }

  /** Process `j` is added in the slot of the load-time law, neither earlier nor later. */
  lemma LoadedOnTime(cfg: Config, s: Sys, j: nat)
    requires Reachable(cfg, s) && j < |cfg.jobs|
    ensures s.b.time > AddTime(cfg, j) ==> j < s.i
    ensures j < s.i ==> s.b.time >= AddTime(cfg, j)
  {
    SlotsAndClock(s.b, cfg.ncpu);
    LoadedBy(cfg, s.b.time, s.b.devs[cfg.ncpu], s.ld, s.i, s.addedAt, s.done, j);
  }

  lemma DoneInTime(cfg: Config, s: Sys)
    requires Dims(cfg, s) && B.Inv(s.b)
    requires LoaderOk(cfg, s.b.time, s.b.devs[cfg.ncpu], s.ld, s.i, s.addedAt, s.done)
    ensures s.b.time > DoneSlot(cfg) ==> s.done
    ensures s.done ==> s.b.time >= DoneSlot(cfg)
  {
    SlotsAndClock(s.b, cfg.ncpu);
    DoneBy(cfg, s.b.time, s.b.devs[cfg.ncpu], s.ld, s.i, s.addedAt, s.done);
  }

  /** The loader sets `done` in the slot after its last add, or in slot 0 if there is nothing to load, whatever the
      CPUs do. */
  lemma DoneOnTime(cfg: Config, s: Sys)
    requires Reachable(cfg, s)
    ensures s.b.time > DoneSlot(cfg) ==> s.done
    ensures s.done ==> s.b.time >= DoneSlot(cfg)
  {
    DoneInTime(cfg, s);
  }

  // ----- A CPU that stops

  /** The fetch of CPU `c` came back empty, after `done` was set, or it has stopped since. */
  predicate Stopping(s: Sys, c: nat) {
    c < |s.cpus| && s.done && s.cpus[c].proc.None? && (s.cpus[c].pc == Check || s.cpus[c].pc == Stopped)
  }

  lemma OwnStepStops(cfg: Config, s: Sys, c: nat)
    requires Steady(cfg, s, c) && s.b.devs[c].pc == B.Work && Stopping(s, c)
    ensures var s' := Next(cfg, s, Act(c)); Stopping(s', c) && s'.cpus[c].pc == Stopped
  {
  }

  lemma OtherStepStopping(cfg: Config, s: Sys, step: Step, c: nat)
    requires Shape(cfg, s) && Enabled(cfg, s, step) && step != Act(c) && Stopping(s, c)
    ensures Stopping(Next(cfg, s, step), c)
  {
    OtherStep(cfg, s, step, c);
    assert Next(cfg, s, step).done;
  }

  /** Once `done` is set, a CPU whose fetch comes back empty has stopped by the next tick. */
  lemma {:induction false} StopsThisSlot(cfg: Config, s: Sys, steps: seq<Step>, c: nat)
    requires Inv(cfg, s) && Feasible(cfg, s, steps) && Stopping(s, c)
    ensures Stopping(Exec(cfg, s, steps), c)
    ensures Exec(cfg, s, steps).b.time > s.b.time || s.cpus[c].pc == Stopped ==> Exec(cfg, s, steps).cpus[c].pc == Stopped
    decreases |steps|
  {
    if steps != [] {
      var s1 := Next(cfg, s, steps[0]);
      StepInv(cfg, s, steps[0]);
      assert Steady(cfg, s, c);
      if steps[0] == Act(c) {
        OwnStepStops(cfg, s, c);
      } else {
        OtherStep(cfg, s, steps[0], c);
        OtherStepStopping(cfg, s, steps[0], c);
        if s1.b.time != s.b.time && s.cpus[c].pc != Stopped {
          TickOnCpu(cfg, s, steps[0], c);
        }
      }
      StopsThisSlot(cfg, s1, steps[1..], c);
    }
  }

  // ----- As many long processes as CPUs

  /** `xs` are at least as many processes as there are CPUs, which no queue can lose, and which are too long to end
      before the loader is done. */
  predicate EnoughWork(cfg: Config, xs: set<nat>) {
    && cfg.ncpu >= 1 && |xs| >= cfg.ncpu
    && forall x :: x in xs ==> x < |cfg.jobs| && HasRoom(cfg, cfg.jobs[x].prio) && Size(cfg, x) > LastLoad(cfg) + 2
  }

  /** The CPUs hold fewer processes than there are CPUs if one of them holds none. */
  lemma OneCpuFree(cpus: seq<Cpu>, place: seq<Place>, xs: set<nat>, c: nat)
    requires c < |cpus| && cpus[c].proc.None?
    requires forall x :: x in xs ==>
               x < |place| && place[x].OnCpu? && place[x].c < |cpus| && cpus[place[x].c].proc == Some(x)
    ensures |xs| < |cpus|
  {
    var before := set x | x in xs && place[x].c < c;
    var behind := xs - before;
    OnCpus(cpus, place, before, 0, c);
    OnCpus(cpus, place, behind, c + 1, |cpus|);
    assert |xs| <= |before| + |behind|;
  }

  /** While such processes are unfinished and loaded, a CPU without a process finds one waiting. */
  lemma SomeoneWaits(cfg: Config, s: Sys, xs: set<nat>, c: nat)
    requires Inv(cfg, s) && LossesExplained(cfg, s) && EnoughWork(cfg, xs) && c < cfg.ncpu && s.cpus[c].proc.None?
    requires s.i == |cfg.jobs| && s.b.time <= LastLoad(cfg) + 1
    ensures !M.AllEmpty(s.mlq.queues)
  {
    if M.AllEmpty(s.mlq.queues) {
      forall x | x in xs ensures s.place[x].OnCpu? {
        SlotsLimitProgress(cfg, s, x);
      }
      OneCpuFree(s.cpus, s.place, xs, c);
    }
  }

  /** What a CPU without a process may still do. */
  predicate NotBehind(cfg: Config, u: Cpu, v: B.Dev, done: bool) {
    u.proc.None? ==>
      && (u.pc == Head ==> WorkSlot(v) <= LastLoad(cfg) + 1)
      && (u.pc == Check ==> done || WorkSlot(v) <= LastLoad(cfg))
  }

  /** A CPU's own step does not leave it behind, if it finds a process whenever everything is loaded but `done` is
      not set yet. */
  lemma OwnStepNotBehind(cfg: Config, s: Sys, c: nat)
    requires Steady(cfg, s, c) && s.b.devs[c].pc == B.Work && s.b.devs[c].slots == s.b.time
    requires NotBehind(cfg, s.cpus[c], s.b.devs[c], s.done) && (s.b.time > LastLoad(cfg) + 1 ==> s.done)
    requires s.b.time == LastLoad(cfg) + 1 && s.cpus[c].proc.None? ==> !M.AllEmpty(s.mlq.queues)
    ensures var s' := Next(cfg, s, Act(c));
            && |s'.cpus| == |s.cpus| && |s'.b.devs| == |s.b.devs|
            && NotBehind(cfg, s'.cpus[c], s'.b.devs[c], s'.done)
  {
  }

  ghost predicate NoneBehind(cfg: Config, s: Sys)
    requires |s.cpus| == cfg.ncpu && |s.b.devs| == cfg.ncpu + 1
  {
    forall c :: 0 <= c < cfg.ncpu ==> NotBehind(cfg, s.cpus[c], s.b.devs[c], s.done)
  }

  /** The loader has more to do only up to `DoneSlot`, so a CPU finds a process in that slot. */
  lemma OwnStepFinds(cfg: Config, s: Sys, xs: set<nat>, c: nat)
    requires Inv(cfg, s) && LossesExplained(cfg, s) && EnoughWork(cfg, xs) && c < cfg.ncpu
    ensures s.b.time > LastLoad(cfg) + 1 ==> s.done
    ensures s.b.time == LastLoad(cfg) + 1 && s.cpus[c].proc.None? ==> !M.AllEmpty(s.mlq.queues)
  {
    assert cfg.jobs != [] by {
      var x :| x in xs;
    }
    DoneInTime(cfg, s);
    if s.b.time == LastLoad(cfg) + 1 && s.cpus[c].proc.None? {
      AllLoaded(cfg, s);
      SomeoneWaits(cfg, s, xs, c);
    }
  }

  lemma DoneStays(cfg: Config, s: Sys, step: Step)
    requires Shape(cfg, s) && Enabled(cfg, s, step) && s.done
    ensures Next(cfg, s, step).done
  {
  }

  lemma OtherStepWorkSlot(cfg: Config, s: Sys, step: Step, c: nat)
    requires B.Inv(s.b) && Shape(cfg, s) && Enabled(cfg, s, step) && c < cfg.ncpu && step != Act(c)
    requires !B.Detaching(s.b.devs[c].pc)
    ensures var s' := Next(cfg, s, step); |s'.b.devs| == cfg.ncpu + 1 && WorkSlot(s'.b.devs[c]) == WorkSlot(s.b.devs[c])
  {
    match step
    case Sync(bs) => SyncDev(s.b, bs, c);
    case Act(d) =>
  }

  lemma OtherStepNotBehind(cfg: Config, s: Sys, step: Step, c: nat)
    requires Inv(cfg, s) && Shape(cfg, s) && Enabled(cfg, s, step) && c < cfg.ncpu && step != Act(c)
    requires NotBehind(cfg, s.cpus[c], s.b.devs[c], s.done) && Inv(cfg, Next(cfg, s, step))
    ensures var s' := Next(cfg, s, step);
            && |s'.cpus| == cfg.ncpu && |s'.b.devs| == cfg.ncpu + 1
            && NotBehind(cfg, s'.cpus[c], s'.b.devs[c], s'.done)
  {
    OtherStep(cfg, s, step, c);
    if s.done {
      DoneStays(cfg, s, step);
    }
    assert Steady(cfg, s, c);
    if s.cpus[c].pc != Stopped {
      OtherStepWorkSlot(cfg, s, step, c);
    }
  }

  lemma NoneBehindStep(cfg: Config, s: Sys, xs: set<nat>, step: Step)
    requires Inv(cfg, s) && Shape(cfg, s) && Enabled(cfg, s, step) && Inv(cfg, Next(cfg, s, step))
    requires LossesExplained(cfg, s) && EnoughWork(cfg, xs) && NoneBehind(cfg, s)
    ensures NoneBehind(cfg, Next(cfg, s, step))
  {
    var s' := Next(cfg, s, step);
    forall c | 0 <= c < cfg.ncpu ensures NotBehind(cfg, s'.cpus[c], s'.b.devs[c], s'.done) {
      if step == Act(c) {
        assert Steady(cfg, s, c);
        WorkingDev(s.b, c);
        OwnStepFinds(cfg, s, xs, c);
        OwnStepNotBehind(cfg, s, c);
      } else {
        OtherStepNotBehind(cfg, s, step, c);
      }
    }
  }

  // ----- The last tick

  lemma StoppedAtTick(cfg: Config, s: Sys, step: Step, c: nat)
    requires Inv(cfg, s) && Shape(cfg, s) && Enabled(cfg, s, step) && Next(cfg, s, step).b.time != s.b.time
    requires c < cfg.ncpu && s.cpus[c].proc.None? && s.b.time > LastLoad(cfg)
    requires NotBehind(cfg, s.cpus[c], s.b.devs[c], s.done)
    ensures B.Detaching(s.b.devs[c].pc)
  {
    assert Steady(cfg, s, c);
    if s.cpus[c].pc != Stopped {
      TickOnCpu(cfg, s, step, c);
    }
  }

  lemma LoaderDetached(cfg: Config, s: Sys)
    requires Inv(cfg, s) && s.b.time > DoneSlot(cfg)
    ensures B.Detaching(s.b.devs[cfg.ncpu].pc)
  {
    DoneInTime(cfg, s);
  }

  lemma NobodyHolds(cfg: Config, s: Sys)
    requires Inv(cfg, s) && Shape(cfg, s) && CompletionInv(cfg, s) && s.b.time > Deadline(cfg)
    ensures forall c :: 0 <= c < cfg.ncpu ==> s.cpus[c].proc.None?
  {
    EveryProcessEnds(cfg, s);
    AllLoaded(cfg, s);
    EndedIsQuiet(cfg, s);
  }

  lemma DetachedAtTick(cfg: Config, s: Sys, step: Step, d: nat)
    requires Inv(cfg, s) && Shape(cfg, s) && NoneBehind(cfg, s) && d <= cfg.ncpu
    requires forall c :: 0 <= c < cfg.ncpu ==> s.cpus[c].proc.None?
    requires Enabled(cfg, s, step) && Next(cfg, s, step).b.time != s.b.time
    requires s.b.time > DoneSlot(cfg) >= LastLoad(cfg)
    ensures B.Detaching(s.b.devs[d].pc)
  {
    if d < cfg.ncpu {
      StoppedAtTick(cfg, s, step, d);
    } else {
      LoaderDetached(cfg, s);
    }
  }

  /** A tick after the deadline finds every thread detached. */
  lemma AllDetachedAtTick(cfg: Config, s: Sys, step: Step)
    requires Inv(cfg, s) && Shape(cfg, s) && CompletionInv(cfg, s) && NoneBehind(cfg, s)
    requires Enabled(cfg, s, step) && Next(cfg, s, step).b.time != s.b.time && s.b.time > Deadline(cfg) >= DoneSlot(cfg)
    ensures B.AllFsh(s.b.devs, |s.b.devs|)
  {
    NobodyHolds(cfg, s);
    forall d | 0 <= d <= cfg.ncpu ensures B.Detaching(s.b.devs[d].pc) {
      DetachedAtTick(cfg, s, step, d);
    }
    T.ClockMovesOnlyAtTheBarrier(s.b, step.b);
  }

  /** The clock is not past the slot after the deadline, or the last tick is due. */
  predicate ClockBounded(cfg: Config, b: B.State) {
    || b.time <= Deadline(cfg) + 1
    || (B.AllFsh(b.devs, |b.devs|) && b.time + X.TicksLeft(b.timer, b.stop) <= Deadline(cfg) + 2)
  }

  lemma WorkingLive(b: B.State, d: nat)
    requires B.Inv(b) && d < |b.devs| && b.devs[d].pc == B.Work
    ensures !b.devs[d].fsh
  {
    assert B.DevInv(b.time, b.timer, d, b.devs[d]);
  }

  lemma DetachedStep(cfg: Config, s: Sys, step: Step)
    requires B.Inv(s.b) && Shape(cfg, s) && Enabled(cfg, s, step) && B.AllFsh(s.b.devs, |s.b.devs|)
    ensures var b := Next(cfg, s, step).b;
            && B.AllFsh(b.devs, |b.devs|)
            && b.time + X.TicksLeft(b.timer, b.stop) <= s.b.time + X.TicksLeft(s.b.timer, s.b.stop)
  {
    match step
    case Act(d) =>
      WorkingLive(s.b, d);
      assert false;
    case Sync(bs) =>
      if bs == B.TimerStep {
        X.TimerStepTicks(s.b);
      } else {
        X.OtherStepTicks(s.b, bs);
      }
  }

  lemma ClockBoundedStep(cfg: Config, s: Sys, step: Step)
    requires Inv(cfg, s) && Shape(cfg, s) && CompletionInv(cfg, s) && NoneBehind(cfg, s) && Enabled(cfg, s, step)
    requires ClockBounded(cfg, s.b) && Deadline(cfg) >= DoneSlot(cfg)
    ensures ClockBounded(cfg, Next(cfg, s, step).b)
  {
    if Next(cfg, s, step).b.time != s.b.time {
      OneTick(cfg, s, step);
      if s.b.time == Deadline(cfg) + 1 {
        AllDetachedAtTick(cfg, s, step);
      }
    }
    if B.AllFsh(s.b.devs, |s.b.devs|) {
      DetachedStep(cfg, s, step);
    }
  }

  // ----- Every run ends

  ghost predicate EndInv(cfg: Config, s: Sys) {
    Inv(cfg, s) && Shape(cfg, s) && LossesExplained(cfg, s) && CompletionInv(cfg, s) && NoneBehind(cfg, s)
    && ClockBounded(cfg, s.b)
  }

  lemma EndStep(cfg: Config, s: Sys, xs: set<nat>, step: Step)
    requires EnoughWork(cfg, xs) && Deadline(cfg) >= DoneSlot(cfg) && EndInv(cfg, s) && Enabled(cfg, s, step)
    ensures EndInv(cfg, Next(cfg, s, step))
  {
    StepInv(cfg, s, step);
    InvShape(cfg, Next(cfg, s, step));
    LossStep(cfg, s, step);
    StepCompletionInv(cfg, s, step);
    NoneBehindStep(cfg, s, xs, step);
    ClockBoundedStep(cfg, s, step);
  }

  lemma {:induction false} EndRun(cfg: Config, s: Sys, xs: set<nat>, steps: seq<Step>)
    requires EnoughWork(cfg, xs) && Deadline(cfg) >= DoneSlot(cfg) && EndInv(cfg, s) && Feasible(cfg, s, steps)
    ensures EndInv(cfg, Exec(cfg, s, steps))
    decreases |steps|
  {
    if steps != [] {
      EndStep(cfg, s, xs, steps[0]);
      EndRun(cfg, Next(cfg, s, steps[0]), xs, steps[1..]);
    }
  }

  lemma DeadlineAfterDone(cfg: Config)
    ensures Deadline(cfg) >= DoneSlot(cfg)
  {
  }

  lemma InitEnd(cfg: Config)
    ensures EndInv(cfg, Init(cfg))
  {
    InitInv(cfg);
    InvShape(cfg, Init(cfg));
    InitCompletion(cfg);
  }

  /** The steps that any run of such a configuration can take, spurious wakeups aside. */
  function MostSteps(cfg: Config): nat {
    MaxRank(cfg) + Budget(MaxRank(cfg) + 1, 0, Deadline(cfg) + 2)
  }

  lemma ClockInTime(cfg: Config, b: B.State)
    requires ClockBounded(cfg, b)
    ensures b.time <= Deadline(cfg) + 2
  {
  }

  lemma FewSteps(cfg: Config, n: nat, rank: int, time: nat, spurious: nat)
    requires InBudget(n, MaxRank(cfg) + 1, rank, 0, time, spurious)
    requires rank <= MaxRank(cfg) && time <= Deadline(cfg) + 2
    ensures n <= MostSteps(cfg) + 4 * spurious
  {
    BudgetMonotone(MaxRank(cfg) + 1, 0, time, Deadline(cfg) + 2);
  }

  lemma EndsFrom(cfg: Config, s: Sys, xs: set<nat>, steps: seq<Step>)
    requires EnoughWork(cfg, xs) && EndInv(cfg, s) && s.b.time == 0 && Feasible(cfg, s, steps)
    ensures Exec(cfg, s, steps).b.time <= Deadline(cfg) + 2
    ensures |steps| <= MostSteps(cfg) + 4 * SpuriousCount(steps)
  {
    var s' := Exec(cfg, s, steps);
    DeadlineAfterDone(cfg);
    EndRun(cfg, s, xs, steps);
    ClockInTime(cfg, s'.b);
    StepsBounded(cfg, s, steps, s'.b.time);
    RankBounded(cfg, s);
    FewSteps(cfg, |steps|, Rank(s), s'.b.time, SpuriousCount(steps));
  }

  /** With at least as many long processes as CPUs, in queues that can hold them, every run ends: in every
      interleaving it has boundedly many steps, and the clock stops within two slots of the deadline. */
  lemma EveryRunEnds(cfg: Config, xs: set<nat>, steps: seq<Step>)
    requires EnoughWork(cfg, xs) && Feasible(cfg, Init(cfg), steps)
    ensures Exec(cfg, Init(cfg), steps).b.time <= Deadline(cfg) + 2
    ensures |steps| <= MostSteps(cfg) + 4 * SpuriousCount(steps)
  {
    InitEnd(cfg);
    EndsFrom(cfg, Init(cfg), xs, steps);
  }

  /** And it ends with every thread finished: there are such runs, also without spurious wakeups, and every run that
      cannot go on is one. They have completed every process that was not refused, those in `xs` in any case. */
  lemma FinishingRun(cfg: Config, xs: set<nat>) returns (steps: seq<Step>)
    requires EnoughWork(cfg, xs)
    ensures Feasible(cfg, Init(cfg), steps) && SpuriousCount(steps) == 0
    ensures var s := Exec(cfg, Init(cfg), steps);
            && T.Finished(s.b)
            && |s.pc| == |s.place| == |cfg.jobs|
            && (forall x :: 0 <= x < |cfg.jobs| ==> Completed(cfg, s, x) || Refused(cfg, s, x))
            && (forall x :: x in xs ==> Completed(cfg, s, x))
  {
    InitInv(cfg);
    steps := GoOn(cfg, Init(cfg), MostSteps(cfg) + 1);
    EveryRunEnds(cfg, xs, steps);
    var s := Exec(cfg, Init(cfg), steps);
    ExecInv(cfg, Init(cfg), steps);
    InvShape(cfg, s);
    StuckIff(cfg, s);
    EveryFullRunCompletes(cfg, steps);
  }
}
