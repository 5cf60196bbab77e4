/**
When a queue does lose processes. A priority that more processes share than its queue and the CPUs can hold, all
of them too long to finish before the last one is loaded, loses at least one of them in every interleaving.
*/
module OsOverload {
  import opened Options
  import opened Sequences
  import M = MultiLevelQueue
  import Q = ProcQueue
  import opened Os
  import opened OsInv
  import opened OsTheorems
  import opened OsCompletion

  // ----- At most one instruction per slot

  lemma {:induction false} TraceShort(log: seq<Ran>, x: nat, last: int)
    requires last >= -1
    requires forall j, k :: 0 <= j < k < |log| && log[j].proc == log[k].proc ==> log[j].time < log[k].time
    requires forall k :: 0 <= k < |log| && log[k].proc == x ==> log[k].time <= last
    ensures |Trace(log, x)| <= last + 1
  {
    if log != [] {
      var e := log[|log| - 1];
      TraceShort(log[..|log| - 1], x, if e.proc == x then e.time - 1 else last);
    }
  }

  /** A process has executed no more instructions than there have been slots. */
  lemma SlotsLimitProgress(cfg: Config, s: Sys, x: nat)
    requires Inv(cfg, s) && x < |cfg.jobs|
    ensures s.pc[x] <= s.b.time + 1
  {
    forall k | 0 <= k < |s.log| ensures s.log[k].time <= s.b.time {
      assert EntryOk(cfg, s.b.time, s.b.devs, s.place, s.log[k]);
    }
    assert Trace(s.log, x) == UpTo(s.pc[x]);
    TraceShort(s.log, x, s.b.time);
  }

  // ----- The places where a process can be

  /** A set is no larger than a sequence that has all its elements. */
  lemma {:induction false} InSequence(xs: set<nat>, q: seq<nat>)
    requires forall x :: x in xs ==> x in q
    ensures |xs| <= |q|
  {
    if q == [] {
      assert xs == {};
    } else {
      forall x | x in xs - {q[0]} ensures x in q[1..] {
        var j :| 0 <= j < |q| && q[j] == x;
        assert q[1..][j - 1] == x;
      }
      InSequence(xs - {q[0]}, q[1..]);
    }
  }

  /** CPUs hold no more processes than there are CPUs; here those from `lo` up to before `hi`. */
  lemma {:induction false} OnCpus(cpus: seq<Cpu>, place: seq<Place>, xs: set<nat>, lo: nat, hi: nat)
    requires lo <= hi <= |cpus|
    requires forall x :: x in xs ==>
               x < |place| && place[x].OnCpu? && lo <= place[x].c < hi && cpus[place[x].c].proc == Some(x)
    ensures |xs| <= hi - lo
    decreases hi
  {
    if hi == lo {
      assert xs == {};
    } else if cpus[hi - 1].proc.Some? {
      OnCpus(cpus, place, xs - {cpus[hi - 1].proc.value}, lo, hi - 1);
    } else {
      OnCpus(cpus, place, xs, lo, hi - 1);
    }
  }

  /** `xs` are processes of priority `p`, more than its queue and the CPUs can hold. */
  predicate Crowd(cfg: Config, xs: set<nat>, p: nat) {
    && (forall x :: x in xs ==> x < |cfg.jobs| && cfg.jobs[x].prio == p)
    && |xs| > cfg.ncpu + Q.MAX_QUEUE_SIZE - 1
  }

  lemma NoPlaceForAll(cfg: Config, s: Sys, xs: set<nat>, p: nat)
    requires Inv(cfg, s) && Crowd(cfg, xs, p)
    requires forall x :: x in xs ==> x < s.i && Size(cfg, x) > s.b.time + 1
    ensures exists x :: x in xs && s.place[x] == Dropped
  {
    if forall x :: x in xs ==> s.place[x] != Dropped {
      var queued := set x | x in xs && s.place[x] == Queued;
      var running := xs - queued;
      forall x | x in running ensures s.place[x].OnCpu? {
        SlotsLimitProgress(cfg, s, x);
      }
      OnCpus(s.cpus, s.place, running, 0, cfg.ncpu);
      assert |xs| <= |queued| + |running|;
      if queued != {} {
        var y :| y in queued;
        InSequence(queued, s.mlq.queues[p]);
      }
    }
  }

  // ----- Every run

  lemma DroppedStaysCpu(cfg: Config, s: Sys, c: nat, x: nat)
    requires Shape(cfg, s) && c < cfg.ncpu && QueuesOk(cfg, s.mlq, s.place)
    requires s.cpus[c].proc.Some? ==> s.place[s.cpus[c].proc.value] == OnCpu(c)
    requires x < |s.place| && s.place[x] == Dropped
    ensures var s' := CpuAct(cfg, s, c).0; |s'.place| == |s.place| && s'.place[x] == Dropped
  {
    if !M.AllEmpty(s.mlq.queues) {
      QueuesTake(cfg, s.mlq, s.place, c);
    }
  }

  lemma DroppedStays(cfg: Config, s: Sys, step: Step, x: nat)
    requires Inv(cfg, s) && Shape(cfg, s) && Enabled(cfg, s, step) && x < |s.place| && s.place[x] == Dropped
    ensures var s' := Next(cfg, s, step); |s'.place| == |s.place| && s'.place[x] == Dropped
  {
    if step.Act? && step.d < cfg.ncpu {
      assert CpuOk(cfg, step.d, s.cpus[step.d], s.b.devs[step.d].pc, s.pc, s.place, s.done);
      DroppedStaysCpu(cfg, s, step.d, x);
    }
  }

  lemma {:induction false} DroppedForever(cfg: Config, s: Sys, steps: seq<Step>, x: nat)
    requires Inv(cfg, s) && Feasible(cfg, s, steps) && x < |s.place| && s.place[x] == Dropped
    ensures x < |Exec(cfg, s, steps).place| && Exec(cfg, s, steps).place[x] == Dropped
    decreases |steps|
  {
    if steps != [] {
      StepInv(cfg, s, steps[0]);
      DroppedStays(cfg, s, steps[0], x);
      DroppedForever(cfg, Next(cfg, s, steps[0]), steps[1..], x);
    }
  }

  /** No process of `xs` can finish before all processes are loaded. */
  predicate Long(cfg: Config, xs: set<nat>) {
    forall x :: x in xs && x < |cfg.jobs| ==> Size(cfg, x) > LastLoad(cfg) + 2
  }

  lemma {:induction false} LossWhenLoaded(cfg: Config, s: Sys, steps: seq<Step>, xs: set<nat>, p: nat) returns (x: nat)
    requires Inv(cfg, s) && Feasible(cfg, s, steps) && Crowd(cfg, xs, p) && Long(cfg, xs)
    requires s.b.time <= LastLoad(cfg) + 1 <= Exec(cfg, s, steps).b.time
    ensures x in xs && x < |Exec(cfg, s, steps).place| && Exec(cfg, s, steps).place[x] == Dropped
    decreases |steps|
  {
    if s.b.time == LastLoad(cfg) + 1 {
      AllLoaded(cfg, s);
      NoPlaceForAll(cfg, s, xs, p);
      x :| x in xs && s.place[x] == Dropped;
      DroppedForever(cfg, s, steps, x);
    } else {
      var s1 := Next(cfg, s, steps[0]);
      StepInv(cfg, s, steps[0]);
      if s1.b.time != s.b.time {
        OneTick(cfg, s, steps[0]);
      }
      x := LossWhenLoaded(cfg, s1, steps[1..], xs, p);
    }
  }

  /** Every run that is long or cannot be extended has lost a process of such a crowd. */
  lemma OverloadLoses(cfg: Config, steps: seq<Step>, xs: set<nat>, p: nat) returns (x: nat)
    requires cfg.ncpu >= 1 && FullRun(cfg, steps) && Crowd(cfg, xs, p) && Long(cfg, xs)
    ensures x in xs && x < |Exec(cfg, Init(cfg), steps).place| && Refused(cfg, Exec(cfg, Init(cfg), steps), x)
  {
    var s := Exec(cfg, Init(cfg), steps);
    InitInv(cfg);
    assert Reachable(cfg, s);
    if s.b.time > LastLoad(cfg) {
      x := LossWhenLoaded(cfg, Init(cfg), steps, xs, p);
    } else {
      if LongRun(cfg, steps) {
        DeadlinePassed(cfg, Init(cfg), steps);
      }
      StuckIff(cfg, s);
      FinishedIsStopped(cfg, s);
      ShutdownComplete(cfg, s);
      NoPlaceForAll(cfg, s, xs, p);
      x :| x in xs && s.place[x] == Dropped;
    }
    LossNeedsOverfullPriority(cfg, s, x);
  }

  // ----- Such configurations exist

  /** Ten processes more than there are CPUs, all of priority `p` and equally long, all started at once. */
  predicate Crowded(cfg: Config, p: nat) {
    && cfg.ncpu >= 1 && |cfg.jobs| == cfg.ncpu + 10
    && forall x :: 0 <= x < |cfg.jobs| ==>
         cfg.jobs[x].start == 0 && cfg.jobs[x].prio == p && |cfg.jobs[x].code| == cfg.ncpu + 12
  }

  lemma {:induction false} LoadedOnePerSlot(cfg: Config, j: nat)
    requires j < |cfg.jobs| && forall x :: 0 <= x < |cfg.jobs| ==> cfg.jobs[x].start == 0
    ensures AddTime(cfg, j) == j
  {
    if j > 0 {
      LoadedOnePerSlot(cfg, j - 1);
    }
  }

  function Below(n: nat): (xs: set<nat>)
    ensures |xs| == n && forall x: nat :: x in xs <==> x < n
  {
    if n == 0 then {} else Below(n - 1) + {n - 1}
  }

  lemma CrowdedIsCrowd(cfg: Config, p: nat)
    requires Crowded(cfg, p)
    ensures Crowd(cfg, Below(|cfg.jobs|), p) && Long(cfg, Below(|cfg.jobs|))
  {
    LoadedOnePerSlot(cfg, |cfg.jobs| - 1);
  }

  lemma CrowdedLoses(cfg: Config, p: nat) returns (steps: seq<Step>, x: nat)
    requires Crowded(cfg, p)
    ensures Feasible(cfg, Init(cfg), steps) && SpuriousCount(steps) == 0
    ensures x < |cfg.jobs| && x < |Exec(cfg, Init(cfg), steps).place| && Exec(cfg, Init(cfg), steps).place[x] == Dropped
  {
    CrowdedIsCrowd(cfg, p);
    steps := FullRunExists(cfg);
    x := OverloadLoses(cfg, steps, Below(|cfg.jobs|), p);
  }

  /** A full queue really drops a process: for any number of CPUs, any priority in range and any time slice there
      are a configuration and a run of it in which a process of that priority is lost. */
  lemma QueueFullLossOccurs(ncpu: nat, p: nat, timeSlot: int) returns (cfg: Config, steps: seq<Step>, x: nat)
    requires ncpu >= 1 && p < M.MAX_PRIO
    ensures cfg.ncpu == ncpu && cfg.timeSlot == timeSlot && Feasible(cfg, Init(cfg), steps)
    ensures x < |cfg.jobs| && cfg.jobs[x].prio == p
    ensures x < |Exec(cfg, Init(cfg), steps).place| && Exec(cfg, Init(cfg), steps).place[x] == Dropped
  {
    var job := Job(0, p, seq(ncpu + 12, _ => Calc));
    cfg := Config(ncpu, timeSlot, seq(ncpu + 10, _ => job));
    steps, x := CrowdedLoses(cfg, p);
  }
}
