/**
What a CPU does with the processes it holds (`cpu_routine` in src/os.c): how many instructions of a process it
executes from the moment it fetches the process to the moment it gives it up, in which slots, and when a CPU may
leave a slot unused.
*/
module OsQuantum {
  import opened Options
  import opened Sequences
  import B = Barrier
  import T = BarrierTheorems
  import M = MultiLevelQueue
  import opened Os
  import opened OsInv
  import opened OsTheorems

  // ----- The end of a dispatch

  /** At its loop head a CPU without a process has no time left over from the last one. */
  lemma NoProcessNoTime(cfg: Config, s: Sys, c: nat)
    requires Reachable(cfg, s) && c < cfg.ncpu && s.cpus[c].pc == Head && s.cpus[c].proc.None?
    ensures s.cpus[c].timeLeft == 0
  {
    assert CpuOk(cfg, c, s.cpus[c], s.b.devs[c].pc, s.pc, s.place, s.done);
  }

  /** The instructions of one dispatch: the time slice or what is left of the code; a time slice
      that is not positive is never used up. */
  function Quantum(timeSlot: int, left: nat): nat {
    if timeSlot < 1 || left < timeSlot then left else timeSlot
  }

  lemma {:induction false} TraceHas(log: seq<Ran>, x: nat, ip: nat) returns (k: nat)
    requires ip in Trace(log, x)
    ensures k < |log| && log[k].proc == x && log[k].ip == ip
  {
    var last := |log| - 1;
    if log[last].proc == x && log[last].ip == ip {
      k := last;
    } else {
      k := TraceHas(log[..last], x, ip);
    }
  }

  /** CPU `c` executed instruction `ip` of its process, in the slot that is as far from the slot of the
      dispatch as `ip` is from the instruction the dispatch began with. */
  predicate RanInTurn(log: seq<Ran>, c: nat, u: Cpu, ip: nat)
    requires u.proc.Some? && u.from <= ip
  {
    Ran(u.since + (ip - u.from), c, u.proc.value, ip) in log
  }

  lemma DispatchDone(cfg: Config, c: nat, u: Cpu, v: B.Dev, pcx: nat, log: seq<Ran>)
    requires u.proc.Some? && u.pc == Head && HoldOk(cfg, c, u, v, log) && Trace(log, u.proc.value) == UpTo(pcx)
    ensures forall ip :: u.from <= ip < pcx ==> RanInTurn(log, c, u, ip)
  {
    forall ip | u.from <= ip < pcx ensures RanInTurn(log, c, u, ip) {
      assert UpTo(pcx)[ip] == ip;
      var k := TraceHas(log, u.proc.value, ip);
      assert log[k] == Ran(u.since + (ip - u.from), c, u.proc.value, ip);
    }
  }

  /** CPU `c` holds process `x`. */
  predicate Holds(s: Sys, c: nat, x: nat) {
    c < |s.cpus| && s.cpus[c].proc == Some(x)
  }

  /** The CPU has executed a whole quantum of the process it holds, counted from instruction `from` on. */
  predicate QuantumUsed(cfg: Config, s: Sys, x: nat, from: nat)
    requires x < |cfg.jobs| && x < |s.pc|
  {
    from <= s.pc[x] <= Size(cfg, x) && s.pc[x] - from == Quantum(cfg.timeSlot, Size(cfg, x) - from)
  }

  /** What CPU `c` does depends on its own locals and processes only as the invariant says. */
  predicate Steady(cfg: Config, s: Sys, c: nat) {
    Shape(cfg, s) && c < cfg.ncpu && CpuOk(cfg, c, s.cpus[c], s.b.devs[c].pc, s.pc, s.place, s.done)
  }

  lemma OtherStep(cfg: Config, s: Sys, step: Step, c: nat)
    requires Shape(cfg, s) && Enabled(cfg, s, step) && c < cfg.ncpu && step != Act(c)
    ensures var s' := Next(cfg, s, step); |s'.cpus| == cfg.ncpu && s'.cpus[c] == s.cpus[c]
  {
  }

  lemma OwnStepPastHead(cfg: Config, s: Sys, c: nat, x: nat)
    requires Steady(cfg, s, c) && s.b.devs[c].pc == B.Work && Holds(s, c, x) && s.cpus[c].pc != Head
    ensures Holds(Next(cfg, s, Act(c)), c, x)
  {
  }

  /** A process leaves its CPU only by that CPU's own step, at the loop head. */
  lemma LeavesAtHead(cfg: Config, s: Sys, step: Step, c: nat, x: nat)
    requires Inv(cfg, s) && Shape(cfg, s) && Enabled(cfg, s, step) && Holds(s, c, x)
    requires !Holds(Next(cfg, s, step), c, x)
    ensures step == Act(c) && c < cfg.ncpu && s.cpus[c].pc == Head && s.b.devs[c].pc == B.Work
  {
    assert Steady(cfg, s, c);
    if step != Act(c) {
      OtherStep(cfg, s, step, c);
    } else if s.cpus[c].pc != Head {
      OwnStepPastHead(cfg, s, c, x);
    }
  }

  /** At its loop head a CPU gives its process up if and only if the quantum is used; the process has then ended if
      and only if its code has. */
  lemma GivesUpIff(cfg: Config, s: Sys, c: nat, x: nat)
    requires Inv(cfg, s) && Shape(cfg, s) && Holds(s, c, x) && s.cpus[c].pc == Head && s.b.devs[c].pc == B.Work
    ensures x < |cfg.jobs| && c < cfg.ncpu
    ensures var s' := Next(cfg, s, Act(c));
            && (!Holds(s', c, x) <==> QuantumUsed(cfg, s, x, s.cpus[c].from))
            && |s'.place| == |s'.pc| == |cfg.jobs| && s'.pc[x] == s.pc[x]
            && (s'.place[x] == Finished <==> s.pc[x] == Size(cfg, x))
  {
    assert CpuOk(cfg, c, s.cpus[c], s.b.devs[c].pc, s.pc, s.place, s.done);
  }

  /** Whenever a step takes a process off its CPU, exactly its quantum has been executed since the dispatch, on that
      CPU, one instruction in each of the consecutive slots from the dispatch on. */
  lemma QuantumLaw(cfg: Config, s: Sys, step: Step, c: nat, x: nat)
    requires Reachable(cfg, s) && Enabled(cfg, s, step) && Holds(s, c, x) && !Holds(Next(cfg, s, step), c, x)
    ensures x < |cfg.jobs| && QuantumUsed(cfg, s, x, s.cpus[c].from)
    ensures forall ip :: s.cpus[c].from <= ip < s.pc[x] ==> RanInTurn(s.log, c, s.cpus[c], ip)
  {
    LeavesAtHead(cfg, s, step, c, x);
    GivesUpIff(cfg, s, c, x);
    assert HoldOk(cfg, c, s.cpus[c], s.b.devs[c], s.log);
    DispatchDone(cfg, c, s.cpus[c], s.b.devs[c], s.pc[x], s.log);
  }

  /** Until then the quantum is not used up: a CPU that is about to run a dispatched process has part of it left. */
  lemma QuantumLeft(cfg: Config, s: Sys, c: nat, x: nat)
    requires Reachable(cfg, s) && Holds(s, c, x) && s.cpus[c].pc == Check && s.cpus[c].timeLeft != 0
    ensures x < |cfg.jobs| && s.cpus[c].from <= s.pc[x] < Size(cfg, x)
    ensures s.pc[x] - s.cpus[c].from < Quantum(cfg.timeSlot, Size(cfg, x) - s.cpus[c].from)
  {
    assert CpuOk(cfg, c, s.cpus[c], s.b.devs[c].pc, s.pc, s.place, s.done);
  }

  // ----- A whole dispatch

  /** CPU `c` holds `x`, which was at instruction `start` when it was fetched. */
  predicate Since(s: Sys, c: nat, x: nat, start: nat) {
    && Holds(s, c, x) && x < |s.pc|
    && (if s.cpus[c].pc == Check && s.cpus[c].timeLeft == 0 then s.pc[x] == start else s.cpus[c].from == start)
  }

  lemma OwnStepFetches(cfg: Config, s: Sys, c: nat, x: nat)
    requires Steady(cfg, s, c) && s.b.devs[c].pc == B.Work && !Holds(s, c, x) && Holds(Next(cfg, s, Act(c)), c, x)
    ensures x < |s.pc| && Since(Next(cfg, s, Act(c)), c, x, s.pc[x])
  {
  }

  lemma FetchStarts(cfg: Config, s: Sys, step: Step, c: nat, x: nat)
    requires Inv(cfg, s) && Shape(cfg, s) && Enabled(cfg, s, step) && c < cfg.ncpu
    requires !Holds(s, c, x) && Holds(Next(cfg, s, step), c, x)
    ensures x < |s.pc| && Since(Next(cfg, s, step), c, x, s.pc[x])
  {
    assert Steady(cfg, s, c);
    if step != Act(c) {
      OtherStep(cfg, s, step, c);
    } else {
      OwnStepFetches(cfg, s, c, x);
    }
  }

  lemma OwnStepSince(cfg: Config, s: Sys, c: nat, x: nat, start: nat)
    requires Steady(cfg, s, c) && s.b.devs[c].pc == B.Work
    requires Since(s, c, x, start) && Holds(Next(cfg, s, Act(c)), c, x)
    ensures Since(Next(cfg, s, Act(c)), c, x, start)
  {
  }

  /** Another thread's step does not advance a process that CPU `c` holds. */
  lemma OtherStepPc(cfg: Config, s: Sys, step: Step, c: nat, x: nat)
    requires Steady(cfg, s, c) && Enabled(cfg, s, step) && step != Act(c) && Holds(s, c, x)
    requires step.Act? && step.d < cfg.ncpu ==> Steady(cfg, s, step.d)
    ensures var s' := Next(cfg, s, step); |s'.pc| == |s.pc| && s'.pc[x] == s.pc[x]
  {
  }

  lemma StepSince(cfg: Config, s: Sys, step: Step, c: nat, x: nat, start: nat)
    requires Inv(cfg, s) && Shape(cfg, s) && Enabled(cfg, s, step)
    requires Since(s, c, x, start) && Holds(Next(cfg, s, step), c, x)
    ensures Since(Next(cfg, s, step), c, x, start)
  {
    assert Steady(cfg, s, c);
    if step == Act(c) {
      OwnStepSince(cfg, s, c, x, start);
    } else {
      assert step.Act? && step.d < cfg.ncpu ==> Steady(cfg, s, step.d);
      OtherStep(cfg, s, step, c);
      OtherStepPc(cfg, s, step, c, x);
    }
  }

  /** CPU `c` holds `x` in every state of the run but the last. */
  predicate HeldUntilEnd(cfg: Config, s: Sys, steps: seq<Step>, c: nat, x: nat)
    requires Feasible(cfg, s, steps)
    decreases |steps|
  {
    if steps == [] then !Holds(s, c, x)
    else Holds(s, c, x) && HeldUntilEnd(cfg, Next(cfg, s, steps[0]), steps[1..], c, x)
  }

  lemma {:induction false} HeldRun(cfg: Config, s: Sys, steps: seq<Step>, c: nat, x: nat, start: nat)
    requires Inv(cfg, s) && Feasible(cfg, s, steps) && steps != []
    requires HeldUntilEnd(cfg, s, steps, c, x) && Since(s, c, x, start)
    ensures x < |cfg.jobs| && x < |Exec(cfg, s, steps).pc| && QuantumUsed(cfg, Exec(cfg, s, steps), x, start)
    decreases |steps|
  {
    var s1 := Next(cfg, s, steps[0]);
    StepInv(cfg, s, steps[0]);
    if steps[1..] == [] {
      LeavesAtHead(cfg, s, steps[0], c, x);
      GivesUpIff(cfg, s, c, x);
    } else {
      StepSince(cfg, s, steps[0], c, x, start);
      HeldRun(cfg, s1, steps[1..], c, x, start);
    }
  }

  /** From the step in which a CPU fetches a process to the step in which it gives the process up, the process
      executes exactly min(`time_slot`, what is left of its code) instructions, whatever other threads do. */
  lemma DispatchLaw(cfg: Config, s: Sys, step: Step, steps: seq<Step>, c: nat, x: nat)
    requires Reachable(cfg, s) && Enabled(cfg, s, step) && Feasible(cfg, Next(cfg, s, step), steps) && c < cfg.ncpu
    requires !Holds(s, c, x) && Holds(Next(cfg, s, step), c, x) && HeldUntilEnd(cfg, Next(cfg, s, step), steps, c, x)
    ensures x < |cfg.jobs| && x < |Exec(cfg, Next(cfg, s, step), steps).pc|
    ensures QuantumUsed(cfg, Exec(cfg, Next(cfg, s, step), steps), x, s.pc[x])
  {
    StepInv(cfg, s, step);
    FetchStarts(cfg, s, step, c, x);
    HeldRun(cfg, Next(cfg, s, step), steps, c, x, s.pc[x]);
  }

  // ----- No slot is wasted

  /** When the clock ticks, a CPU that has not stopped is at its loop head and waits for this tick. */
  lemma TickOnCpu(cfg: Config, s: Sys, step: Step, c: nat)
    requires Inv(cfg, s) && Shape(cfg, s) && Enabled(cfg, s, step) && Next(cfg, s, step).b.time != s.b.time && c < cfg.ncpu
    requires s.cpus[c].pc != Stopped
    ensures s.cpus[c].pc == Head && WorkSlot(s.b.devs[c]) == s.b.time + 1
  {
    assert step.Sync?;
    T.ClockMovesOnlyAtTheBarrier(s.b, step.b);
    assert CpuOk(cfg, c, s.cpus[c], s.b.devs[c].pc, s.pc, s.place, s.done);
    assert B.DevInv(s.b.time, s.b.timer, c, s.b.devs[c]);
  }

  /** A process never executes two instructions in one slot, so two CPUs never run it at the same time;
      over all CPUs its instructions run in the order of its code, each once. */
  lemma OneInstructionPerSlot(cfg: Config, s: Sys)
    requires Reachable(cfg, s)
    ensures forall j, k :: 0 <= j < k < |s.log| && s.log[j].proc == s.log[k].proc ==> s.log[j].time < s.log[k].time
    ensures forall x :: 0 <= x < |cfg.jobs| ==> |s.pc| == |cfg.jobs| && Trace(s.log, x) == UpTo(s.pc[x])
  {
  }

  /** CPU `c` executed the last instruction of `x` so far, in the current slot. */
  predicate RanNow(s: Sys, c: nat, x: nat)
    requires x < |s.pc|
  {
    s.pc[x] > 0 && Ran(s.b.time, c, x, s.pc[x] - 1) in s.log
  }

  lemma RanInThisSlot(cfg: Config, s: Sys, c: nat, x: nat)
    requires Steady(cfg, s, c) && Holds(s, c, x) && s.cpus[c].pc == Head && WorkSlot(s.b.devs[c]) == s.b.time + 1
    requires HoldOk(cfg, c, s.cpus[c], s.b.devs[c], s.log) && Trace(s.log, x) == UpTo(s.pc[x])
    ensures RanNow(s, c, x) || Size(cfg, x) == 0
  {
    if Size(cfg, x) > 0 {
      assert UpTo(s.pc[x])[s.pc[x] - 1] == s.pc[x] - 1;
      var k := TraceHas(s.log, x, s.pc[x] - 1);
      assert s.log[k] == Ran(s.b.time, c, x, s.pc[x] - 1);
    }
  }

  /** When a slot ends, every CPU that holds a process has executed an instruction of it in that slot, unless the
      process has no instructions at all. */
  lemma NoSlotWasted(cfg: Config, s: Sys, step: Step, c: nat, x: nat)
    requires Reachable(cfg, s) && Enabled(cfg, s, step) && Next(cfg, s, step).b.time != s.b.time && Holds(s, c, x)
    ensures x < |cfg.jobs| && x < |s.pc| && (RanNow(s, c, x) || Size(cfg, x) == 0)
  {
    assert Steady(cfg, s, c);
    TickOnCpu(cfg, s, step, c);
    assert HoldOk(cfg, c, s.cpus[c], s.b.devs[c], s.log);
    RanInThisSlot(cfg, s, c, x);
  }

  /** A process waits in a queue only while it has instructions left, or none at all. */
  lemma QueuedHasWork(cfg: Config, s: Sys, x: nat)
    requires Reachable(cfg, s) && x < |cfg.jobs| && s.place[x] == Queued
    ensures s.pc[x] < Size(cfg, x) || Size(cfg, x) == 0
  {
  }

  /** A CPU without a process takes the one that `get_proc` returns, at its loop head as well as after it gave one
      up. At its loop head it gives the slot up exactly when all queues are empty. */
  lemma TakesWhatThereIs(cfg: Config, s: Sys, c: nat)
    requires Shape(cfg, s) && Enabled(cfg, s, Act(c)) && c < cfg.ncpu && s.cpus[c].proc.None?
    requires s.cpus[c].pc == Head || s.cpus[c].pc == Fetch
    ensures M.Get(s.mlq).1.None? <==> M.AllEmpty(s.mlq.queues)
    ensures var s' := Next(cfg, s, Act(c));
            && |s'.b.devs| == |s.b.devs| && |s'.cpus| == |s.cpus|
            && s'.cpus[c].proc == M.Get(s.mlq).1
            && (s'.b.devs[c].pc != B.Work <==> s.cpus[c].pc == Head && M.AllEmpty(s.mlq.queues))
  {
  }
}
