/**
Bounded waiting in the whole simulation: in every interleaving, a process in a queue gets a CPU within a bounded
number of `get_proc` calls of all the CPUs, however many processes are put back or added in between.
*/
module OsFairness {
  import opened Options
  import F = Fairness
  import M = MultiLevelQueue
  import opened Os
  import opened OsInv
  import opened OsTheorems
  import opened OsQuantum

  /** The step is a call of `get_proc`. */
  predicate Fetches(s: Sys, step: Step) {
    && step.Act? && step.d < |s.cpus| && s.cpus[step.d].proc.None?
    && (s.cpus[step.d].pc == Head || s.cpus[step.d].pc == Fetch)
  }

  /** The step leaves the queues alone, or puts one process into them. */
  ghost predicate PutsOrKeeps(m: M.Mlq, m': M.Mlq)
    requires M.Sized(m)
  {
    m' == m || exists x: nat, prio: nat :: m' == M.Put(m, x, prio)
  }

  /** What a step of the simulation is for the scheduler. */
  lemma SchedulerStep(cfg: Config, s: Sys, step: Step)
    requires Shape(cfg, s) && Enabled(cfg, s, step)
    requires step.Act? && step.d < cfg.ncpu ==> Steady(cfg, s, step.d)
    ensures Fetches(s, step) ==> Next(cfg, s, step).mlq == M.Get(s.mlq).0
    ensures !Fetches(s, step) ==> PutsOrKeeps(s.mlq, Next(cfg, s, step).mlq)
  {
    if step.Act? && step.d < cfg.ncpu && s.cpus[step.d].proc.Some? {
      var x := s.cpus[step.d].proc.value;
      assert CpuAct(cfg, s, step.d).0.mlq == s.mlq || CpuAct(cfg, s, step.d).0.mlq == M.Put(s.mlq, x, cfg.jobs[x].prio);
    } else if step.Act? && step.d == cfg.ncpu && s.ld == Adding {
      assert Add(cfg, s).mlq == M.Put(s.mlq, s.i, cfg.jobs[s.i].prio);
    }
  }

  /** The calls of `get_proc` in a run. */
  function FetchCount(cfg: Config, s: Sys, steps: seq<Step>): nat
    requires Feasible(cfg, s, steps)
    decreases |steps|
  {
    if steps == [] then 0 else
      (if Fetches(s, steps[0]) then 1 else 0) + FetchCount(cfg, Next(cfg, s, steps[0]), steps[1..])
  }

  /** In the course of the run a CPU takes `x`, by one of the first `gets` calls of `get_proc`. */
  predicate Taken(cfg: Config, s: Sys, steps: seq<Step>, x: nat, gets: int)
    requires Feasible(cfg, s, steps)
    decreases |steps|
  {
    steps != [] &&
    var s1 := Next(cfg, s, steps[0]);
    var left := if Fetches(s, steps[0]) then gets - 1 else gets;
    (left >= 0 && OnSomeCpu(s1, x)) || Taken(cfg, s1, steps[1..], x, left)
  }

  /** The first process of the priority that `get_proc` serves goes to the CPU that calls it. */
  lemma FetchHolds(cfg: Config, s: Sys, step: Step, p: nat)
    requires Shape(cfg, s) && Enabled(cfg, s, step) && Fetches(s, step) && F.Serves(s.mlq, F.GetCall, p)
    ensures OnSomeCpu(Next(cfg, s, step), s.mlq.queues[p][0])
  {
    TakesWhatThereIs(cfg, s, step.d);
  }

  /** A step that does not hand the process out brings it closer to its dispatch, if it is a `get_proc`. */
  lemma StepShortensWait(cfg: Config, s: Sys, step: Step, p: nat, k: nat) returns (k': nat)
    requires Shape(cfg, s) && Enabled(cfg, s, step) && M.Valid(Next(cfg, s, step).mlq)
    requires step.Act? && step.d < cfg.ncpu ==> Steady(cfg, s, step.d)
    requires p < M.MAX_PRIO && k < |s.mlq.queues[p]|
    requires !(Fetches(s, step) && F.Serves(s.mlq, F.GetCall, p) && k == 0)
    ensures var m' := Next(cfg, s, step).mlq;
            && k' < |m'.queues[p]| && m'.queues[p][k'] == s.mlq.queues[p][k]
            && F.Wait(m', p, k') + (if Fetches(s, step) then 1 else 0) <= F.Wait(s.mlq, p, k)
  {
    var m' := Next(cfg, s, step).mlq;
    SchedulerStep(cfg, s, step);
    if Fetches(s, step) {
      F.CallShortensWait(s.mlq, F.GetCall, p, k);
      k' := F.Position(s.mlq, F.GetCall, p, k);
    } else {
      k' := k;
      if m' != s.mlq {
        var x: nat, prio: nat :| m' == M.Put(s.mlq, x, prio);
        F.CallShortensWait(s.mlq, F.PutCall(x, prio), p, k);
      }
    }
  }

  lemma {:induction false} TakenEarlier(cfg: Config, s: Sys, steps: seq<Step>, x: nat, gets: int, more: int)
    requires Feasible(cfg, s, steps) && Taken(cfg, s, steps, x, gets) && gets <= more
    ensures Taken(cfg, s, steps, x, more)
    decreases |steps|
  {
    var s1 := Next(cfg, s, steps[0]);
    var left := if Fetches(s, steps[0]) then gets - 1 else gets;
    if !(left >= 0 && OnSomeCpu(s1, x)) {
      TakenEarlier(cfg, s1, steps[1..], x, left, if Fetches(s, steps[0]) then more - 1 else more);
    }
  }

  lemma TakenLater(cfg: Config, s: Sys, steps: seq<Step>, x: nat, left: int, gets: int)
    requires Feasible(cfg, s, steps) && steps != [] && Taken(cfg, Next(cfg, s, steps[0]), steps[1..], x, left)
    requires left + (if Fetches(s, steps[0]) then 1 else 0) <= gets
    ensures Taken(cfg, s, steps, x, gets)
  {
    TakenEarlier(cfg, Next(cfg, s, steps[0]), steps[1..], x, left, if Fetches(s, steps[0]) then gets - 1 else gets);
  }

  lemma TakenNow(cfg: Config, s: Sys, steps: seq<Step>, p: nat, gets: int)
    requires Feasible(cfg, s, steps) && steps != [] && Fetches(s, steps[0]) && F.Serves(s.mlq, F.GetCall, p) && gets >= 1
    ensures Taken(cfg, s, steps, s.mlq.queues[p][0], gets)
  {
    FetchHolds(cfg, s, steps[0], p);
  }

  lemma FirstSteady(cfg: Config, s: Sys, step: Step)
    requires Inv(cfg, s) && Shape(cfg, s) && Enabled(cfg, s, step)
    ensures step.Act? && step.d < cfg.ncpu ==> Steady(cfg, s, step.d)
    ensures M.Valid(Next(cfg, s, step).mlq)
  {
    StepInv(cfg, s, step);
  }

  lemma {:induction false} TakenWithinWait(cfg: Config, s: Sys, steps: seq<Step>, p: nat, k: nat)
    requires Inv(cfg, s) && Feasible(cfg, s, steps) && p < M.MAX_PRIO && k < |s.mlq.queues[p]|
    requires FetchCount(cfg, s, steps) >= F.Wait(s.mlq, p, k)
    ensures Taken(cfg, s, steps, s.mlq.queues[p][k], F.Wait(s.mlq, p, k))
    decreases |steps|
  {
    F.WaitPositive(s.mlq, p, k);
    FirstSteady(cfg, s, steps[0]);
    if Fetches(s, steps[0]) && F.Serves(s.mlq, F.GetCall, p) && k == 0 {
      TakenNow(cfg, s, steps, p, F.Wait(s.mlq, p, k));
    } else {
      var k' := StepShortensWait(cfg, s, steps[0], p, k);
      StepInv(cfg, s, steps[0]);
      TakenWithinWait(cfg, Next(cfg, s, steps[0]), steps[1..], p, k');
      TakenLater(cfg, s, steps, s.mlq.queues[p][k], F.Wait(Next(cfg, s, steps[0]).mlq, p, k'), F.Wait(s.mlq, p, k));
    }
  }

  /** In every interleaving, a process at position `k` of any queue is on a CPU after at most `(k + 2) * 9870` calls of
      `get_proc` by all the CPUs together. */
  lemma BoundedWaiting(cfg: Config, s: Sys, steps: seq<Step>, p: nat, k: nat)
    requires Reachable(cfg, s) && Feasible(cfg, s, steps) && p < M.MAX_PRIO && k < |s.mlq.queues[p]|
    requires FetchCount(cfg, s, steps) >= (k + 2) * F.ROUND
    ensures Taken(cfg, s, steps, s.mlq.queues[p][k], (k + 2) * F.ROUND)
  {
    F.WaitBounded(s.mlq, p, k);
    TakenWithinWait(cfg, s, steps, p, k);
    TakenEarlier(cfg, s, steps, s.mlq.queues[p][k], F.Wait(s.mlq, p, k), (k + 2) * F.ROUND);
  }
}
