/**
The whole simulation as a step system: the CPU threads and the loader of src/os.c,
the scheduler calls they make, and the slot barrier that keeps them in step.

A thread's own steps between two barrier calls happen at the barrier's program
point `Work`; one step is one call of `get_proc`, `put_proc` or `add_proc`, one access
to the shared flag `done`, or one instruction. `get_proc` and `put_proc` are atomic.
Device `c` is CPU `c`; the device after the last CPU is the loader.
*/
module Os {
  import opened Options
  import B = Barrier
  import M = MultiLevelQueue

  datatype Inst =
    | Calc
    | Alloc(size: nat, reg: nat)
    | Free(reg: nat)
    | Read(source: nat, offset: nat, destination: nat)
    | Write(data: nat, destination: nat, offset: nat)

  /** A line of the configuration file with the program it names. */
  datatype Job = Job(start: nat, prio: nat, code: seq<Inst>)

  datatype Config = Config(ncpu: nat, timeSlot: int, jobs: seq<Job>)

  /** Where a process is. This is history; `ProcsOk` ties it to the queues and the CPUs. */
  datatype Place = Unloaded | Queued | OnCpu(c: nat) | Finished | Dropped

  /** Program points of `cpu_routine`: the loop head, the second `get_proc`, the recheck after it. */
  datatype CpuPc = Head | Fetch | Check | Stopped

  /** The locals of `cpu_routine`. `from` and `since` are history: the process's `pc` and the slot when it was dispatched. */
  datatype Cpu = Cpu(pc: CpuPc, proc: Option<nat>, timeLeft: int, from: nat, since: nat)

  /** Program points of `ld_routine`: its loop heads, just before `add_proc`, after `done = 1`. */
  datatype LdPc = Scan | Adding | Exited

  /** History: CPU `cpu` executed instruction `ip` of process `proc` in slot `time`. */
  datatype Ran = Ran(time: nat, cpu: nat, proc: nat, ip: nat)

  datatype Sys = Sys(
    b: B.State, cpus: seq<Cpu>, ld: LdPc, i: nat, addedAt: seq<nat>, mlq: M.Mlq, done: bool,
    pc: seq<nat>, place: seq<Place>, log: seq<Ran>)

  /** What a thread does after its step: go on, call `next_slot`, or call `detach_event`. */
  datatype Outcome = GoesOn | CallsNextSlot | CallsDetach

  datatype Step = Act(d: nat) | Sync(b: B.Step)

  function Size(cfg: Config, x: nat): nat
    requires x < |cfg.jobs|
  {
    |cfg.jobs[x].code|
  }

  predicate Shape(cfg: Config, s: Sys) {
    && B.Shape(s.b) && |s.b.devs| == cfg.ncpu + 1
    && |s.cpus| == cfg.ncpu
    && |s.pc| == |s.place| == |cfg.jobs|
    && s.i <= |cfg.jobs| && |s.addedAt| == s.i
    && (s.ld == Adding ==> s.i < |cfg.jobs|)
    && M.Valid(s.mlq)
    && (forall c :: 0 <= c < cfg.ncpu && s.cpus[c].proc.Some? ==> s.cpus[c].proc.value < |cfg.jobs|)
    && (forall p, j :: 0 <= p < M.MAX_PRIO && 0 <= j < |s.mlq.queues[p]| ==> s.mlq.queues[p][j] < |cfg.jobs|)
  }

  function Init(cfg: Config): Sys {
    Sys(B.Init(cfg.ncpu + 1), seq(cfg.ncpu, c => Cpu(Head, None, 0, 0, 0)), Scan, 0, [], M.Init(), false,
        seq(|cfg.jobs|, x => 0), seq(|cfg.jobs|, x => Unloaded), [])
  }

  // ----- A step of a CPU

  /** `proc = get_proc ()`, with CPU `c` holding no process. */
  function Take(cfg: Config, s: Sys, c: nat): Sys
    requires Shape(cfg, s) && c < cfg.ncpu
  {
    var u := s.cpus[c];
    match M.Get(s.mlq).1
    case None => s.(cpus := s.cpus[c := u.(pc := Check)])
    case Some(x) =>
      s.(mlq := M.Get(s.mlq).0, place := s.place[x := OnCpu(c)],
         cpus := s.cpus[c := u.(pc := Check, proc := Some(x))])
  }

  /** The process of CPU `c` has reached the end of its code. */
  function Finish(cfg: Config, s: Sys, c: nat): Sys
    requires Shape(cfg, s) && c < cfg.ncpu && s.cpus[c].proc.Some?
  {
    s.(place := s.place[s.cpus[c].proc.value := Finished],
       cpus := s.cpus[c := s.cpus[c].(pc := Fetch, proc := None, timeLeft := 0)])
  }

  /** The quantum of the process of CPU `c` is used up: `put_proc`. */
  function PutBack(cfg: Config, s: Sys, c: nat): Sys
    requires Shape(cfg, s) && c < cfg.ncpu && s.cpus[c].proc.Some?
  {
    var x := s.cpus[c].proc.value;
    var prio := cfg.jobs[x].prio;
    s.(mlq := M.Put(s.mlq, x, prio),
       place := s.place[x := if M.Accepts(s.mlq, prio) then Queued else Dropped],
       cpus := s.cpus[c := s.cpus[c].(pc := Fetch, proc := None)])
  }

  /** Dispatch if the process is new on this CPU, then `run` one instruction. */
  function RunOne(cfg: Config, s: Sys, c: nat): Sys
    requires Shape(cfg, s) && c < cfg.ncpu && s.cpus[c].proc.Some?
  {
    var u := s.cpus[c];
    var x := u.proc.value;
    var u' := if u.timeLeft == 0 then u.(timeLeft := cfg.timeSlot, from := s.pc[x], since := s.b.time) else u;
    var runs := s.pc[x] < Size(cfg, x);
    s.(cpus := s.cpus[c := u'.(pc := Head, timeLeft := u'.timeLeft - 1)],
       pc := if runs then s.pc[x := s.pc[x] + 1] else s.pc,
       log := if runs then s.log + [Ran(s.b.time, c, x, s.pc[x])] else s.log)
  }

  function MoveCpu(s: Sys, c: nat, pc: CpuPc): Sys
    requires c < |s.cpus|
  {
    s.(cpus := s.cpus[c := s.cpus[c].(pc := pc)])
  }

  function CpuAct(cfg: Config, s: Sys, c: nat): (Sys, Outcome)
    requires Shape(cfg, s) && c < cfg.ncpu
  {
    var u := s.cpus[c];
    match u.pc
    case Head =>
      if u.proc.None? then
        if M.AllEmpty(s.mlq.queues) then (s, CallsNextSlot) else (Take(cfg, s, c), GoesOn)
      else if s.pc[u.proc.value] == Size(cfg, u.proc.value) then (Finish(cfg, s, c), GoesOn)
      else if u.timeLeft == 0 then (PutBack(cfg, s, c), GoesOn)
      else (MoveCpu(s, c, Check), GoesOn)
    case Fetch => (Take(cfg, s, c), GoesOn)
    case Check =>
      if u.proc.Some? then (RunOne(cfg, s, c), CallsNextSlot)
      else if s.done then (MoveCpu(s, c, Stopped), CallsDetach)
      else (MoveCpu(s, c, Head), CallsNextSlot)
    case Stopped => (s, GoesOn)
  }

  // ----- A step of the loader

  /** `add_proc` for process `i`. */
  function Add(cfg: Config, s: Sys): Sys
    requires Shape(cfg, s) && s.i < |cfg.jobs|
  {
    var prio := cfg.jobs[s.i].prio;
    s.(mlq := M.Put(s.mlq, s.i, prio),
       place := s.place[s.i := if M.Accepts(s.mlq, prio) then Queued else Dropped],
       i := s.i + 1, addedAt := s.addedAt + [s.b.time], ld := Scan)
  }

  function LdAct(cfg: Config, s: Sys): (Sys, Outcome)
    requires Shape(cfg, s)
  {
    match s.ld
    case Scan =>
      if s.i == |cfg.jobs| then (s.(done := true, ld := Exited), CallsDetach)
      else if s.b.time < cfg.jobs[s.i].start then (s, CallsNextSlot)
      else (s.(ld := Adding), GoesOn)
    case Adding => (Add(cfg, s), CallsNextSlot)
    case Exited => (s, GoesOn)
  }

  // ----- Steps of the system

  predicate Enabled(cfg: Config, s: Sys, step: Step)
    requires Shape(cfg, s)
  {
    match step
    case Act(d) => d <= cfg.ncpu && s.b.devs[d].pc == B.Work
    case Sync(bs) => !bs.BeginWait? && !bs.BeginDetach? && B.Enabled(s.b, bs)
  }

  function Barred(b: B.State, d: nat, o: Outcome): B.State
    requires d < |b.devs|
  {
    match o
    case GoesOn => b
    case CallsNextSlot => B.MoveTo(b, d, B.LockEvent)
    case CallsDetach => B.MoveTo(b, d, B.LockEventFsh)
  }

  function Next(cfg: Config, s: Sys, step: Step): Sys
    requires Shape(cfg, s) && Enabled(cfg, s, step)
  {
    match step
    case Act(d) =>
      var (s', o) := if d < cfg.ncpu then CpuAct(cfg, s, d) else LdAct(cfg, s);
      s'.(b := Barred(s.b, d, o))
    case Sync(bs) => s.(b := B.Next(s.b, bs))
  }
}
