/** What the simulation guarantees in every interleaving of its threads. */
module OsTheorems {
  import opened Options
  import opened Sequences
  import B = Barrier
  import T = BarrierTheorems
  import M = MultiLevelQueue
  import Q = ProcQueue
  import opened Os
  import opened OsInv

  // ----- Runs

  predicate Feasible(cfg: Config, s: Sys, steps: seq<Step>)
    decreases |steps|
  {
    steps == [] ||
    (Shape(cfg, s) && Enabled(cfg, s, steps[0]) && Feasible(cfg, Next(cfg, s, steps[0]), steps[1..]))
  }

  function Exec(cfg: Config, s: Sys, steps: seq<Step>): Sys
    requires Feasible(cfg, s, steps)
    decreases |steps|
  {
    if steps == [] then s else Exec(cfg, Next(cfg, s, steps[0]), steps[1..])
  }

  lemma {:induction false} ExecInv(cfg: Config, s: Sys, steps: seq<Step>)
    requires Inv(cfg, s) && Feasible(cfg, s, steps)
    ensures Inv(cfg, Exec(cfg, s, steps))
    decreases |steps|
  {
    if steps != [] {
      StepInv(cfg, s, steps[0]);
      ExecInv(cfg, Next(cfg, s, steps[0]), steps[1..]);
    }
  }

  lemma AllRunsInv(cfg: Config)
    ensures forall steps :: Feasible(cfg, Init(cfg), steps) ==>
              Inv(cfg, Exec(cfg, Init(cfg), steps)) && Shape(cfg, Exec(cfg, Init(cfg), steps))
  {
    InitInv(cfg);
    forall steps | Feasible(cfg, Init(cfg), steps)
      ensures Inv(cfg, Exec(cfg, Init(cfg), steps)) && Shape(cfg, Exec(cfg, Init(cfg), steps))
    {
      ExecInv(cfg, Init(cfg), steps);
      InvShape(cfg, Exec(cfg, Init(cfg), steps));
    }
  }

  /** The states of all runs of the simulation. */
  ghost predicate Reachable(cfg: Config, s: Sys)
    ensures Reachable(cfg, s) ==> Inv(cfg, s) && Shape(cfg, s)
  {
    AllRunsInv(cfg);
    exists steps :: Feasible(cfg, Init(cfg), steps) && s == Exec(cfg, Init(cfg), steps)
  }

  // ----- Processes that no queue can lose

  function SamePrio(cfg: Config, p: nat): set<nat> {
    set x | 0 <= x < |cfg.jobs| && cfg.jobs[x].prio == p
  }

  /** The queue of priority `p` exists and can hold all its processes at once. */
  predicate HasRoom(cfg: Config, p: nat) {
    p < M.MAX_PRIO && |SamePrio(cfg, p)| < Q.MAX_QUEUE_SIZE
  }

  /** A sequence without duplicates is no longer than a set that contains its elements. */
  lemma {:induction false} NoDupSize(q: seq<nat>, all: set<nat>)
    requires NoDup(q) && forall k :: 0 <= k < |q| ==> q[k] in all
    ensures |q| <= |all|
  {
    if q != [] {
      var last := |q| - 1;
      NoDupSize(q[..last], all - {q[last]});
    }
  }

  lemma RoomAccepts(cfg: Config, m: M.Mlq, place: seq<Place>, x: nat)
    requires M.Valid(m) && |place| == |cfg.jobs| && QueuesOk(cfg, m, place)
    requires x < |place| && place[x] != Queued && HasRoom(cfg, cfg.jobs[x].prio)
    ensures M.Accepts(m, cfg.jobs[x].prio)
  {
    var p := cfg.jobs[x].prio;
    forall k | 0 <= k < |m.queues[p]| ensures m.queues[p][k] in SamePrio(cfg, p) - {x} {
      assert m.queues[p][k] in m.queues[p];
    }
    NoDupSize(m.queues[p], SamePrio(cfg, p) - {x});
    assert x in SamePrio(cfg, p);
  }

  /** `x` was dropped, and its queue could not hold all the processes of its priority. */
  predicate Refused(cfg: Config, s: Sys, x: nat)
    requires x < |cfg.jobs| && x < |s.place|
  {
    s.place[x] == Dropped && !HasRoom(cfg, cfg.jobs[x].prio)
  }

  predicate LossesExplained(cfg: Config, s: Sys) {
    forall x :: 0 <= x < |cfg.jobs| && x < |s.place| && s.place[x] == Dropped ==> Refused(cfg, s, x)
  }

  lemma LossCpuStep(cfg: Config, s: Sys, c: nat)
    requires Shape(cfg, s) && c < cfg.ncpu && LossesExplained(cfg, s)
    requires QueuesOk(cfg, s.mlq, s.place)
    requires s.cpus[c].proc.Some? ==> s.place[s.cpus[c].proc.value] == OnCpu(c)
    ensures LossesExplained(cfg, CpuAct(cfg, s, c).0)
  {
    if s.cpus[c].proc.Some? && HasRoom(cfg, cfg.jobs[s.cpus[c].proc.value].prio) {
      RoomAccepts(cfg, s.mlq, s.place, s.cpus[c].proc.value);
    }
  }

  lemma LossStep(cfg: Config, s: Sys, step: Step)
    requires Inv(cfg, s) && Shape(cfg, s) && Enabled(cfg, s, step) && LossesExplained(cfg, s)
    ensures LossesExplained(cfg, Next(cfg, s, step))
  {
    if step.Act? && step.d < cfg.ncpu {
      assert CpuOk(cfg, step.d, s.cpus[step.d], s.b.devs[step.d].pc, s.pc, s.place, s.done);
      LossCpuStep(cfg, s, step.d);
    } else if step.Act? && s.ld == Adding && HasRoom(cfg, cfg.jobs[s.i].prio) {
      RoomAccepts(cfg, s.mlq, s.place, s.i);
    }
  }

  lemma {:induction false} LossRun(cfg: Config, s: Sys, steps: seq<Step>)
    requires Inv(cfg, s) && Feasible(cfg, s, steps) && LossesExplained(cfg, s)
    ensures LossesExplained(cfg, Exec(cfg, s, steps))
    decreases |steps|
  {
    if steps != [] {
      StepInv(cfg, s, steps[0]);
      LossStep(cfg, s, steps[0]);
      LossRun(cfg, Next(cfg, s, steps[0]), steps[1..]);
    }
  }

  /** A process is dropped only if its own priority is out of range or at least ten processes share it. */
  lemma LossNeedsOverfullPriority(cfg: Config, s: Sys, x: nat)
    requires Reachable(cfg, s) && x < |cfg.jobs| && s.place[x] == Dropped
    ensures Refused(cfg, s, x)
    ensures cfg.jobs[x].prio >= M.MAX_PRIO || |SamePrio(cfg, cfg.jobs[x].prio)| >= 10
  {
    var steps :| Feasible(cfg, Init(cfg), steps) && s == Exec(cfg, Init(cfg), steps);
    InitInv(cfg);
    LossRun(cfg, Init(cfg), steps);
  }

  /** A process whose priority is out of range is lost as soon as it is added, and never runs. */
  lemma OutOfRangeIsLost(cfg: Config, s: Sys, x: nat)
    requires Reachable(cfg, s) && x < |cfg.jobs| && cfg.jobs[x].prio >= M.MAX_PRIO
    ensures x < s.i ==> s.place[x] == Dropped
    ensures s.pc[x] == 0 && Trace(s.log, x) == []
  {
    assert Trace(s.log, x) == UpTo(s.pc[x]);
  }

  // ----- Exclusive ownership

  /** `x` is at position `j` of the queue of priority `p`. */
  predicate AtPosition(s: Sys, x: nat, p: nat, j: nat) {
    p < |s.mlq.queues| && j < |s.mlq.queues[p]| && s.mlq.queues[p][j] == x
  }

  predicate InQueue(s: Sys, x: nat) {
    exists p :: 0 <= p < |s.mlq.queues| && x in s.mlq.queues[p]
  }

  predicate OnSomeCpu(s: Sys, x: nat) {
    exists c :: 0 <= c < |s.cpus| && s.cpus[c].proc == Some(x)
  }

  predicate Ended(pl: Place) {
    pl == Finished || pl == Dropped
  }

  /** A loaded process is in exactly one place: one position of the queue of its priority, one CPU, or
      ended; a process that is not loaded yet is nowhere. */
  lemma ExactlyOnePlace(cfg: Config, s: Sys, x: nat)
    requires Reachable(cfg, s) && x < |cfg.jobs|
    ensures x < s.i ==> InQueue(s, x) || OnSomeCpu(s, x) || Ended(s.place[x])
    ensures !(InQueue(s, x) && OnSomeCpu(s, x)) && !(InQueue(s, x) && Ended(s.place[x]))
            && !(OnSomeCpu(s, x) && Ended(s.place[x]))
    ensures x >= s.i ==> !InQueue(s, x) && !OnSomeCpu(s, x) && !Ended(s.place[x])
    ensures forall p: nat, j: nat, q: nat, k: nat | AtPosition(s, x, p, j) && AtPosition(s, x, q, k) ::
              p == q == cfg.jobs[x].prio && j == k
    ensures forall c, d | 0 <= c < cfg.ncpu && 0 <= d < cfg.ncpu && s.cpus[c].proc == Some(x) && s.cpus[d].proc == Some(x) ::
              c == d
  {
    forall c | 0 <= c < cfg.ncpu && s.cpus[c].proc == Some(x) ensures s.place[x] == OnCpu(c) {
      assert CpuOk(cfg, c, s.cpus[c], s.b.devs[c].pc, s.pc, s.place, s.done);
    }
    forall p: nat, j: nat | AtPosition(s, x, p, j)
      ensures s.place[x] == Queued && p == cfg.jobs[x].prio
    {
      assert x in s.mlq.queues[p];
    }
  }

  // ----- Shutdown

  predicate AllStopped(s: Sys) {
    forall c :: 0 <= c < |s.cpus| ==> s.cpus[c].pc == Stopped
  }

  /** The process has executed its whole code, in order, each instruction once. */
  predicate Completed(cfg: Config, s: Sys, x: nat)
    requires x < |cfg.jobs| && x < |s.pc|
  {
    s.pc[x] == Size(cfg, x) && Trace(s.log, x) == UpTo(Size(cfg, x))
  }

  /** Once every CPU has stopped, all processes have been added, all queues are empty, and every process
      has run to its end or was refused: for a priority out of range, or by a queue that ten or more share. */
  lemma ShutdownComplete(cfg: Config, s: Sys)
    requires cfg.ncpu >= 1 && Reachable(cfg, s) && AllStopped(s)
    ensures s.i == |cfg.jobs| && M.AllEmpty(s.mlq.queues)
    ensures |s.place| == |s.pc| == |cfg.jobs|
    ensures forall x :: 0 <= x < |cfg.jobs| ==> Completed(cfg, s, x) || Refused(cfg, s, x)
  {
    forall c | 0 <= c < cfg.ncpu ensures s.done && s.cpus[c].proc.None? {
      assert CpuOk(cfg, c, s.cpus[c], s.b.devs[c].pc, s.pc, s.place, s.done);
    }
    assert s.done by {
      assert s.cpus[0].proc.None?;
    }
    forall x | 0 <= x < |cfg.jobs| && s.place[x] == Dropped ensures Refused(cfg, s, x) {
      LossNeedsOverfullPriority(cfg, s, x);
    }
  }

  // ----- Load times

  /** Process 0 is added in its start slot, every other in its start slot or the slot after its predecessor,
      whichever is later. */
  lemma LoadTimeLaw(cfg: Config, s: Sys, j: nat)
    requires Reachable(cfg, s) && j < s.i
    ensures |s.addedAt| == s.i <= |cfg.jobs|
    ensures j == 0 ==> s.addedAt[j] == cfg.jobs[0].start
    ensures j > 0 ==> s.addedAt[j] == if cfg.jobs[j].start > s.addedAt[j - 1] then cfg.jobs[j].start else s.addedAt[j - 1] + 1
  {
  }

  /** When the loader is about to call `add_proc`, the clock shows exactly the law's slot. */
  lemma AddsOnTime(cfg: Config, s: Sys)
    requires Reachable(cfg, s) && s.ld == Adding
    ensures s.i < |cfg.jobs| && s.b.time == AddTime(cfg, s.i)
  {
  }

  // ----- Progress

  lemma CanGoOn(cfg: Config, s: Sys) returns (step: Step)
    requires Inv(cfg, s) && Shape(cfg, s) && !T.Finished(s.b)
    ensures Enabled(cfg, s, step)
    ensures step.Sync? ==> !B.IsSpurious(step.b)
  {
    var bs := T.NoDeadlock(s.b);
    step := match bs
      case BeginWait(d) => Act(d)
      case BeginDetach(d) => Act(d)
      case _ => Sync(bs);
  }

  /** No reachable state with an unfinished thread is stuck. */
  lemma NoDeadlock(cfg: Config, s: Sys) returns (step: Step)
    requires Reachable(cfg, s) && !T.Finished(s.b)
    ensures Enabled(cfg, s, step)
    ensures step.Sync? ==> !B.IsSpurious(step.b)
  {
    step := CanGoOn(cfg, s);
  }

  /** No thread can take a step that is not a spurious wakeup. */
  ghost predicate Stuck(cfg: Config, s: Sys) {
    Shape(cfg, s) && forall step :: Enabled(cfg, s, step) ==> step.Sync? && B.IsSpurious(step.b)
  }

  lemma NothingLeft(cfg: Config, s: Sys, step: Step)
    requires Shape(cfg, s) && T.Finished(s.b)
    ensures !Enabled(cfg, s, step)
  {
  }

  /** A run cannot go on exactly when every thread has finished. */
  lemma StuckIff(cfg: Config, s: Sys)
    requires Inv(cfg, s) && Shape(cfg, s)
    ensures Stuck(cfg, s) <==> T.Finished(s.b)
  {
    if T.Finished(s.b) {
      forall step ensures !Enabled(cfg, s, step) {
        NothingLeft(cfg, s, step);
      }
    } else {
      var step := CanGoOn(cfg, s);
    }
  }

  /** When every thread has finished, every CPU has stopped. */
  lemma FinishedIsStopped(cfg: Config, s: Sys)
    requires Inv(cfg, s) && T.Finished(s.b)
    ensures AllStopped(s)
  {
    forall c | 0 <= c < |s.cpus| ensures s.cpus[c].pc == Stopped {
      assert CpuOk(cfg, c, s.cpus[c], s.b.devs[c].pc, s.pc, s.place, s.done);
    }
  }

  function CpuLeft(u: Cpu): nat {
    match u.pc case Head => 2 case Fetch => 1 case Check => 0 case Stopped => 0
  }

  function CpusLeft(cpus: seq<Cpu>): (r: nat)
    ensures r <= 2 * |cpus|
  {
    if cpus == [] then 0 else CpuLeft(cpus[0]) + CpusLeft(cpus[1..])
  }

  lemma {:induction false} CpusLeftUpdate(cpus: seq<Cpu>, c: nat, u: Cpu)
    requires c < |cpus|
    ensures CpusLeft(cpus[c := u]) == CpusLeft(cpus) - CpuLeft(cpus[c]) + CpuLeft(u)
  {
    if c == 0 {
      assert cpus[c := u][1..] == cpus[1..];
    } else {
      assert cpus[c := u][1..] == cpus[1..][c - 1 := u];
      CpusLeftUpdate(cpus[1..], c - 1, u);
    }
  }

  /** What the threads can still do in this slot. */
  function Rank(s: Sys): int {
    T.Rank(s.b) + CpusLeft(s.cpus) + (if s.ld == Scan then 1 else 0)
  }

  /** A CPU that goes on gets closer to its next barrier call; one that calls the barrier starts over. */
  lemma CpuActLeft(cfg: Config, s: Sys, c: nat)
    requires Shape(cfg, s) && c < cfg.ncpu && s.cpus[c].pc != Stopped
    ensures var (s', o) := CpuAct(cfg, s, c);
            && s'.b == s.b && s'.ld == s.ld && s'.cpus == s.cpus[c := s'.cpus[c]]
            && CpuLeft(s'.cpus[c]) <= CpuLeft(s.cpus[c]) + (if o == GoesOn then -1 else 2)
  {
  }

  /** Ending its slot work costs a device more than its thread can regain by it. */
  lemma BarredRank(b: B.State, d: nat, o: Outcome)
    requires B.Inv(b) && d < |b.devs| && b.devs[d].pc == B.Work
    ensures T.Rank(Barred(b, d, o)) <= T.Rank(b) - (if o == GoesOn then 0 else 4)
  {
    T.MoveRank(b, d, B.LockEvent);
    T.MoveRank(b, d, B.LockEventFsh);
  }

  lemma CpuActRank(cfg: Config, s: Sys, c: nat)
    requires B.Inv(s.b) && Shape(cfg, s) && AtWork(cfg, s, c) && s.cpus[c].pc != Stopped
    ensures Rank(Next(cfg, s, Act(c))) < Rank(s)
  {
    var (s', o) := CpuAct(cfg, s, c);
    CpuActLeft(cfg, s, c);
    CpusLeftUpdate(s.cpus, c, s'.cpus[c]);
    BarredRank(s.b, c, o);
  }

  lemma LdActRank(cfg: Config, s: Sys)
    requires B.Inv(s.b) && Shape(cfg, s) && s.b.devs[cfg.ncpu].pc == B.Work && s.ld != Exited
    ensures Rank(Next(cfg, s, Act(cfg.ncpu))) < Rank(s)
  {
    BarredRank(s.b, cfg.ncpu, LdAct(cfg, s).1);
  }

  lemma ActRank(cfg: Config, s: Sys, d: nat)
    requires Inv(cfg, s) && Shape(cfg, s) && Enabled(cfg, s, Act(d))
    ensures Rank(Next(cfg, s, Act(d))) < Rank(s)
  {
    if d < cfg.ncpu {
      assert CpuOk(cfg, d, s.cpus[d], s.b.devs[d].pc, s.pc, s.place, s.done);
      CpuActRank(cfg, s, d);
    } else {
      LdActRank(cfg, s);
    }
  }

  lemma SyncRank(s: Sys, bs: B.Step)
    requires B.Inv(s.b) && B.Enabled(s.b, bs) && B.Next(s.b, bs).time == s.b.time
    ensures var s' := s.(b := B.Next(s.b, bs));
            && (!B.IsSpurious(bs) ==> Rank(s') < Rank(s))
            && Rank(s') <= Rank(s) + 3
  {
    T.StepLowersRank(s.b, bs);
  }

  lemma StepRank(cfg: Config, s: Sys, step: Step)
    requires Inv(cfg, s) && Shape(cfg, s) && Enabled(cfg, s, step) && Next(cfg, s, step).b.time == s.b.time
    ensures !(step.Sync? && B.IsSpurious(step.b)) ==> Rank(Next(cfg, s, step)) < Rank(s)
    ensures Rank(Next(cfg, s, step)) <= Rank(s) + 3
  {
    match step
    case Sync(bs) => SyncRank(s, bs);
    case Act(d) => ActRank(cfg, s, d);
  }

  /** A run in which the clock never moves. */
  predicate ClockStill(cfg: Config, s: Sys, steps: seq<Step>)
    requires Feasible(cfg, s, steps)
    decreases |steps|
  {
    steps == [] || (Next(cfg, s, steps[0]).b.time == s.b.time && ClockStill(cfg, Next(cfg, s, steps[0]), steps[1..]))
  }

  function SpuriousCount(steps: seq<Step>): nat {
    if steps == [] then 0 else
      (if steps[0].Sync? && B.IsSpurious(steps[0].b) then 1 else 0) + SpuriousCount(steps[1..])
  }

  /** The most that all threads together can do in one slot. */
  function MaxRank(cfg: Config): nat {
    34 * (cfg.ncpu + 1) + 5
  }

  lemma RankBounded(cfg: Config, s: Sys)
    requires B.Inv(s.b) && |s.b.devs| == cfg.ncpu + 1 && |s.cpus| == cfg.ncpu
    ensures 0 <= Rank(s) <= MaxRank(cfg)
  {
    T.RankBounded(s.b);
  }

  /** Without spurious wakeups all threads together take boundedly many steps per slot, whatever the
      interleaving; with NoDeadlock, the clock keeps moving until every thread is done. */
  lemma {:induction false} NoEndlessSlot(cfg: Config, s: Sys, steps: seq<Step>)
    requires Inv(cfg, s) && Feasible(cfg, s, steps) && ClockStill(cfg, s, steps)
    ensures |steps| <= Rank(s) + 4 * SpuriousCount(steps) <= MaxRank(cfg) + 4 * SpuriousCount(steps)
    decreases |steps|
  {
    RankBounded(cfg, s);
    if steps != [] {
      StepRank(cfg, s, steps[0]);
      StepInv(cfg, s, steps[0]);
      NoEndlessSlot(cfg, Next(cfg, s, steps[0]), steps[1..]);
    }
  }
}
