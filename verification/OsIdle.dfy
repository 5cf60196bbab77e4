/**
The program need not end, even when all its work is done: a CPU that comes to its loop head and
finds neither a process nor a queue to take one from keeps waiting and never tests `done`.
*/
module OsIdle {
  import opened Options
  import B = Barrier
  import T = BarrierTheorems
  import M = MultiLevelQueue
  import opened Os
  import opened OsInv
  import opened OsTheorems

  // ----- A CPU that never stops

  /** Every process has been added and has ended. */
  predicate AllEnded(cfg: Config, s: Sys) {
    s.i == |cfg.jobs| && forall x :: 0 <= x < |s.place| ==> Ended(s.place[x])
  }

  /** The CPU is at its loop head without a process. */
  predicate Idle(s: Sys, c: nat) {
    c < |s.cpus| && s.cpus[c].pc == Head && s.cpus[c].proc.None?
  }

  /** Nothing is queued and no CPU holds a process. */
  predicate AllQuiet(s: Sys) {
    M.AllEmpty(s.mlq.queues) && forall c :: 0 <= c < |s.cpus| ==> s.cpus[c].proc.None?
  }

  lemma EmptyOrNot(q: seq<nat>)
    ensures q == [] || exists x: nat :: x in q
  {
    if q != [] {
      assert q[0] in q;
    }
  }

  lemma EndedIsQuiet(cfg: Config, s: Sys)
    requires Inv(cfg, s) && AllEnded(cfg, s)
    ensures AllQuiet(s)
  {
    forall p | 0 <= p < M.MAX_PRIO ensures s.mlq.queues[p] == [] {
      EmptyOrNot(s.mlq.queues[p]);
    }
    forall c | 0 <= c < |s.cpus| ensures s.cpus[c].proc.None? {
      assert CpuOk(cfg, c, s.cpus[c], s.b.devs[c].pc, s.pc, s.place, s.done);
    }
  }

  lemma EndedStep(cfg: Config, s: Sys, step: Step, c: nat)
    requires Shape(cfg, s) && Enabled(cfg, s, step) && AllEnded(cfg, s) && AllQuiet(s) && Idle(s, c)
    ensures AllEnded(cfg, Next(cfg, s, step)) && Idle(Next(cfg, s, step), c)
  {
    var s' := Next(cfg, s, step);
    assert s'.place == s.place && s'.i == s.i;
  }

  /** When all work is done, a CPU that is idle at its loop head stays there in every continuation, so the
      program does not end. */
  lemma {:induction false} IdleForever(cfg: Config, s: Sys, steps: seq<Step>, c: nat)
    requires Inv(cfg, s) && Feasible(cfg, s, steps) && AllEnded(cfg, s) && Idle(s, c)
    ensures Idle(Exec(cfg, s, steps), c) && !T.Finished(Exec(cfg, s, steps).b)
    decreases |steps|
  {
    if steps == [] {
      assert CpuOk(cfg, c, s.cpus[c], s.b.devs[c].pc, s.pc, s.place, s.done);
    } else {
      EndedIsQuiet(cfg, s);
      EndedStep(cfg, s, steps[0], c);
      StepInv(cfg, s, steps[0]);
      IdleForever(cfg, Next(cfg, s, steps[0]), steps[1..], c);
    }
  }

  /** A configuration with CPUs and without processes: none of its runs ends. */
  lemma NoJobsNoEnd(cfg: Config, steps: seq<Step>, c: nat)
    requires cfg.jobs == [] && c < cfg.ncpu && Feasible(cfg, Init(cfg), steps)
    ensures Idle(Exec(cfg, Init(cfg), steps), c) && !T.Finished(Exec(cfg, Init(cfg), steps).b)
  {
    InitInv(cfg);
    IdleForever(cfg, Init(cfg), steps, c);
  }

  // ----- When a CPU can still stop

  lemma OneMore(cfg: Config, s: Sys, step: Step, rest: seq<Step>)
    requires Shape(cfg, s) && Enabled(cfg, s, step) && Feasible(cfg, Next(cfg, s, step), rest)
    ensures Feasible(cfg, s, [step] + rest)
    ensures Exec(cfg, s, [step] + rest) == Exec(cfg, Next(cfg, s, step), rest)
  {
    assert ([step] + rest)[1..] == rest;
  }

  ghost predicate MayStop(cfg: Config, s: Sys, c: nat)
    requires c < |s.cpus|
  {
    exists steps :: Feasible(cfg, s, steps) && c < |Exec(cfg, s, steps).cpus| && Exec(cfg, s, steps).cpus[c].pc == Stopped
  }

  lemma StopsFromCheck(cfg: Config, s: Sys, c: nat)
    requires Shape(cfg, s) && c < cfg.ncpu && s.b.devs[c].pc == B.Work
    requires s.done && s.cpus[c].pc == Check && s.cpus[c].proc.None?
    ensures MayStop(cfg, s, c)
  {
    var s1 := Next(cfg, s, Act(c));
    assert Feasible(cfg, s1, []) && Exec(cfg, s1, []) == s1;
    OneMore(cfg, s, Act(c), []);
  }

  lemma StopsFromFetch(cfg: Config, s: Sys, c: nat)
    requires Shape(cfg, s) && AllQuiet(s) && c < cfg.ncpu && s.b.devs[c].pc == B.Work
    requires s.done && s.cpus[c].pc == Fetch && Shape(cfg, Next(cfg, s, Act(c)))
    ensures MayStop(cfg, s, c)
  {
    var s1 := Next(cfg, s, Act(c));
    StopsFromCheck(cfg, s1, c);
    var rest :| Feasible(cfg, s1, rest) && c < |Exec(cfg, s1, rest).cpus| && Exec(cfg, s1, rest).cpus[c].pc == Stopped;
    OneMore(cfg, s, Act(c), rest);
  }

  lemma StopsPastHead(cfg: Config, s: Sys, c: nat)
    requires Inv(cfg, s) && Shape(cfg, s) && s.done && AllQuiet(s) && c < |s.cpus| && s.cpus[c].pc != Head
    ensures MayStop(cfg, s, c)
  {
    assert CpuOk(cfg, c, s.cpus[c], s.b.devs[c].pc, s.pc, s.place, s.done);
    match s.cpus[c].pc
    case Stopped => assert Feasible(cfg, s, []) && Exec(cfg, s, []) == s;
    case Check => StopsFromCheck(cfg, s, c);
    case Fetch =>
      StepInv(cfg, s, Act(c));
      InvShape(cfg, Next(cfg, s, Act(c)));
      StopsFromFetch(cfg, s, c);
  }

  /** When all work is done and the loader has said so, a CPU can still stop if and only if it is past its
      loop head. */
  lemma StopsUnlessIdle(cfg: Config, s: Sys, c: nat)
    requires Reachable(cfg, s) && AllEnded(cfg, s) && s.done && c < |s.cpus|
    ensures MayStop(cfg, s, c) <==> s.cpus[c].pc != Head
  {
    EndedIsQuiet(cfg, s);
    if s.cpus[c].pc == Head {
      forall steps | Feasible(cfg, s, steps) ensures Idle(Exec(cfg, s, steps), c) {
        IdleForever(cfg, s, steps, c);
      }
    } else {
      StopsPastHead(cfg, s, c);
    }
  }

  /** The loader's last step changes nothing for the CPUs. */
  lemma LoaderEnds(cfg: Config, s: Sys, c: nat)
    requires Shape(cfg, s) && AllEnded(cfg, s) && Idle(s, c)
    requires s.ld == Scan && Enabled(cfg, s, Act(cfg.ncpu))
    ensures var s' := Next(cfg, s, Act(cfg.ncpu)); AllEnded(cfg, s') && s'.done && Idle(s', c)
  {
  }

  lemma OneStepReached(cfg: Config, step: Step)
    requires Shape(cfg, Init(cfg)) && Enabled(cfg, Init(cfg), step)
    ensures Reachable(cfg, Next(cfg, Init(cfg), step))
  {
    var s' := Next(cfg, Init(cfg), step);
    assert Feasible(cfg, s', []) && Exec(cfg, s', []) == s';
    OneMore(cfg, Init(cfg), step, []);
  }

  /** Such states are reached: with CPUs and without processes, after the first step of the loader. */
  lemma IdleIsReached(cfg: Config, c: nat) returns (s: Sys)
    requires cfg.jobs == [] && c < cfg.ncpu
    ensures Reachable(cfg, s) && AllEnded(cfg, s) && s.done && Idle(s, c)
  {
    var s0 := Init(cfg);
    InitInv(cfg);
    InvShape(cfg, s0);
    LoaderEnds(cfg, s0, c);
    OneStepReached(cfg, Act(cfg.ncpu));
    s := Next(cfg, s0, Act(cfg.ncpu));
  }
}
