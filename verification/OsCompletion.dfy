/**
Every process completes, by a slot that can be computed from the configuration.

Once all processes are loaded, the work that is left shrinks in every slot: as long as it
has not shrunk in the current slot, some CPU that still has to do its part of the slot holds
a process that can run, or will find one in a queue.
*/
module OsCompletion {
  import opened Options
  import B = Barrier
  import T = BarrierTheorems
  import M = MultiLevelQueue
  import opened Os
  import opened OsInv
  import opened OsTheorems

  // ----- The work that is left

  /** The instructions a process still has to execute, one for its end, and, for a process without
      instructions, one for its dispatch. */
  function Weight(size: nat, pc: nat, pl: Place): nat {
    if Ended(pl) then 0
    else (if pc < size then size - pc else 0) + 1 + (if size == 0 && !pl.OnCpu? then 1 else 0)
  }

  /** The work left in the first `n` processes. */
  function Work(cfg: Config, pc: seq<nat>, place: seq<Place>, n: nat): nat
    requires n <= |cfg.jobs| && |pc| == |place| == |cfg.jobs|
  {
    if n == 0 then 0 else Work(cfg, pc, place, n - 1) + Weight(Size(cfg, n - 1), pc[n - 1], place[n - 1])
  }

  /** The work of the first `n` processes before they run, as far as the configuration tells. */
  function TotalWork(cfg: Config, n: nat): nat
    requires n <= |cfg.jobs|
  {
    if n == 0 then 0 else TotalWork(cfg, n - 1) + Size(cfg, n - 1) + 2
  }

  lemma {:induction false} WorkBounded(cfg: Config, pc: seq<nat>, place: seq<Place>, n: nat)
    requires n <= |cfg.jobs| && |pc| == |place| == |cfg.jobs|
    ensures Work(cfg, pc, place, n) <= TotalWork(cfg, n)
  {
    if n > 0 {
      WorkBounded(cfg, pc, place, n - 1);
    }
  }

  /** A step that changes one process changes the work by the change of its weight. */
  lemma {:induction false} WorkOfUpdate(cfg: Config, pc: seq<nat>, place: seq<Place>, x: nat, pcx: nat, pl: Place, n: nat)
    requires n <= |cfg.jobs| && |pc| == |place| == |cfg.jobs| && x < |pc|
    ensures Work(cfg, pc[x := pcx], place[x := pl], n) ==
            Work(cfg, pc, place, n)
            + if x < n then Weight(Size(cfg, x), pcx, pl) - Weight(Size(cfg, x), pc[x], place[x]) else 0
  {
    if n > 0 {
      WorkOfUpdate(cfg, pc, place, x, pcx, pl, n - 1);
    }
  }

  lemma {:induction false} SomeoneLeft(cfg: Config, pc: seq<nat>, place: seq<Place>, n: nat) returns (x: nat)
    requires n <= |cfg.jobs| && |pc| == |place| == |cfg.jobs| && Work(cfg, pc, place, n) > 0
    ensures x < n && !Ended(place[x])
  {
    if Ended(place[n - 1]) {
      x := SomeoneLeft(cfg, pc, place, n - 1);
    } else {
      x := n - 1;
    }
  }

  lemma {:induction false} NobodyLeft(cfg: Config, pc: seq<nat>, place: seq<Place>, n: nat)
    requires n <= |cfg.jobs| && |pc| == |place| == |cfg.jobs| && Work(cfg, pc, place, n) == 0
    ensures forall x :: 0 <= x < n ==> Ended(place[x])
  {
    if n > 0 {
      NobodyLeft(cfg, pc, place, n - 1);
    }
  }

  // ----- The invariant

  /** CPU `c` has not done its part of the current slot yet, and will shrink the work when it does:
      it holds a process that can go on, or will take one from a queue. */
  predicate Due(cfg: Config, time: nat, u: Cpu, v: B.Dev, pc: seq<nat>, m: M.Mlq)
    requires |pc| == |cfg.jobs| && (u.proc.Some? ==> u.proc.value < |pc|)
  {
    && u.pc != Stopped && WorkSlot(v) == time
    && (if u.proc.Some? then u.pc == Check ==> pc[u.proc.value] < Size(cfg, u.proc.value)
        else u.pc != Check && !M.AllEmpty(m.queues))
  }

  predicate SomeoneDue(cfg: Config, s: Sys)
    requires Shape(cfg, s)
  {
    exists c :: 0 <= c < cfg.ncpu && Due(cfg, s.b.time, s.cpus[c], s.b.devs[c], s.pc, s.mlq)
  }

  function WorkLeft(cfg: Config, s: Sys): nat
    requires Shape(cfg, s)
  {
    Work(cfg, s.pc, s.place, |cfg.jobs|)
  }

  /** The slots since the last process was added. */
  function SlotsSince(s: Sys): int
    requires |s.addedAt| == s.i
  {
    if s.i == 0 then s.b.time else s.b.time - s.addedAt[s.i - 1]
  }

  /** All the work that is left, and the slots used since loading, do not exceed the total; in the current
      slot it has shrunk already, or somebody is still due to shrink it. */
  predicate CompletionInv(cfg: Config, s: Sys)
    requires Shape(cfg, s)
  {
    s.i == |cfg.jobs| && SlotsSince(s) > 0 && WorkLeft(cfg, s) > 0 ==>
      && WorkLeft(cfg, s) + SlotsSince(s) - 1 <= TotalWork(cfg, |cfg.jobs|)
      && (WorkLeft(cfg, s) + SlotsSince(s) <= TotalWork(cfg, |cfg.jobs|) || SomeoneDue(cfg, s))
  }

  lemma InitCompletion(cfg: Config)
    requires Inv(cfg, Init(cfg)) && Shape(cfg, Init(cfg))
    ensures CompletionInv(cfg, Init(cfg))
  {
  }

  /** What a step must show: the work does not grow, and if it does not shrink either, a CPU that was due
      remains due or another one is. */
  lemma StepCompletion(cfg: Config, s: Sys, s': Sys)
    requires Shape(cfg, s) && Shape(cfg, s') && CompletionInv(cfg, s)
    requires s'.i == s.i && s'.addedAt == s.addedAt && s'.b.time == s.b.time
    requires WorkLeft(cfg, s') <= WorkLeft(cfg, s)
    requires WorkLeft(cfg, s') == WorkLeft(cfg, s) && SomeoneDue(cfg, s) ==> SomeoneDue(cfg, s')
    ensures CompletionInv(cfg, s')
  {
  }

  // ----- Barrier steps

  lemma StillDue(cfg: Config, s: Sys, bs: B.Step, c: nat)
    requires Inv(cfg, s) && Shape(cfg, s) && Enabled(cfg, s, Sync(bs)) && B.Next(s.b, bs).time == s.b.time
    requires c < cfg.ncpu && Due(cfg, s.b.time, s.cpus[c], s.b.devs[c], s.pc, s.mlq)
    ensures Due(cfg, s.b.time, s.cpus[c], B.Next(s.b, bs).devs[c], s.pc, s.mlq)
  {
    assert CpuOk(cfg, c, s.cpus[c], s.b.devs[c].pc, s.pc, s.place, s.done);
    SyncDev(s.b, bs, c);
  }

  lemma OneSlotOn(cfg: Config, s: Sys, s': Sys)
    requires Shape(cfg, s) && Shape(cfg, s') && CompletionInv(cfg, s) && !SomeoneDue(cfg, s)
    requires s' == s.(b := s'.b) && s'.b.time == s.b.time + 1
    requires s.i == |cfg.jobs| && WorkLeft(cfg, s) > 0 ==> SomeoneDue(cfg, s')
    ensures CompletionInv(cfg, s')
  {
    WorkBounded(cfg, s.pc, s.place, |cfg.jobs|);
  }

  lemma TickedCpu(cfg: Config, s: Sys, bs: B.Step, c: nat)
    requires Inv(cfg, s) && Shape(cfg, s) && Enabled(cfg, s, Sync(bs)) && B.Next(s.b, bs).time != s.b.time && c < cfg.ncpu
    requires T.Live(s.b.devs[c]) ==> B.Waiting(s.b.devs[c].pc) && s.b.devs[c].slots == s.b.time
    ensures s.cpus[c].pc != Stopped ==>
              && WorkSlot(s.b.devs[c]) != s.b.time && s.cpus[c].pc == Head
              && WorkSlot(B.Next(s.b, bs).devs[c]) == B.Next(s.b, bs).time
  {
    assert CpuOk(cfg, c, s.cpus[c], s.b.devs[c].pc, s.pc, s.place, s.done);
    assert B.DevInv(s.b.time, s.b.timer, c, s.b.devs[c]);
    SyncDev(s.b, bs, c);
  }

  lemma NoneDueAtTick(cfg: Config, s: Sys, bs: B.Step)
    requires Inv(cfg, s) && Shape(cfg, s) && Enabled(cfg, s, Sync(bs)) && B.Next(s.b, bs).time != s.b.time
    ensures !SomeoneDue(cfg, s)
    ensures B.Next(s.b, bs).time == s.b.time + 1
  {
    T.ClockMovesOnlyAtTheBarrier(s.b, bs);
    forall c | 0 <= c < cfg.ncpu ensures !Due(cfg, s.b.time, s.cpus[c], s.b.devs[c], s.pc, s.mlq) {
      TickedCpu(cfg, s, bs, c);
    }
  }

  /** While work is left, a CPU that has not stopped holds a process or will find one. */
  lemma CpuWithWork(cfg: Config, s: Sys) returns (c: nat)
    requires cfg.ncpu >= 1 && Inv(cfg, s) && Shape(cfg, s) && s.i == |cfg.jobs| && WorkLeft(cfg, s) > 0
    ensures c < cfg.ncpu && s.cpus[c].pc != Stopped
    ensures s.cpus[c].proc.Some? || !M.AllEmpty(s.mlq.queues)
  {
    var x := SomeoneLeft(cfg, s.pc, s.place, |cfg.jobs|);
    if s.place[x].OnCpu? {
      c := s.place[x].c;
      assert CpuOk(cfg, c, s.cpus[c], s.b.devs[c].pc, s.pc, s.place, s.done);
    } else {
      assert s.place[x] == Queued;
      assert s.mlq.queues[cfg.jobs[x].prio] != [];
      c :| 0 <= c < cfg.ncpu && WillFetch(s.cpus[c], Sealed(cfg, s.b.time, s.i, s.addedAt));
    }
  }

  lemma DueAfterTick(cfg: Config, s: Sys, bs: B.Step)
    requires cfg.ncpu >= 1 && Inv(cfg, s) && Shape(cfg, s) && Enabled(cfg, s, Sync(bs)) && B.Next(s.b, bs).time != s.b.time
    requires Shape(cfg, Next(cfg, s, Sync(bs))) && s.i == |cfg.jobs| && WorkLeft(cfg, s) > 0
    ensures SomeoneDue(cfg, Next(cfg, s, Sync(bs)))
  {
    T.ClockMovesOnlyAtTheBarrier(s.b, bs);
    var c := CpuWithWork(cfg, s);
    TickedCpu(cfg, s, bs, c);
    assert Due(cfg, B.Next(s.b, bs).time, s.cpus[c], B.Next(s.b, bs).devs[c], s.pc, s.mlq);
  }

  /** At a tick every live CPU has done its part, so the work has shrunk; in the new slot every live CPU is to act. */
  lemma TickCompletion(cfg: Config, s: Sys, bs: B.Step)
    requires cfg.ncpu >= 1 && Inv(cfg, s) && Shape(cfg, s) && CompletionInv(cfg, s) && Enabled(cfg, s, Sync(bs))
    requires B.Next(s.b, bs).time != s.b.time && Shape(cfg, Next(cfg, s, Sync(bs)))
    ensures CompletionInv(cfg, Next(cfg, s, Sync(bs)))
  {
    NoneDueAtTick(cfg, s, bs);
    if s.i == |cfg.jobs| && WorkLeft(cfg, s) > 0 {
      DueAfterTick(cfg, s, bs);
    }
    OneSlotOn(cfg, s, Next(cfg, s, Sync(bs)));
  }

  lemma SyncCompletion(cfg: Config, s: Sys, bs: B.Step)
    requires cfg.ncpu >= 1 && Inv(cfg, s) && Shape(cfg, s) && CompletionInv(cfg, s) && Enabled(cfg, s, Sync(bs))
    requires Shape(cfg, Next(cfg, s, Sync(bs)))
    ensures CompletionInv(cfg, Next(cfg, s, Sync(bs)))
  {
    var s' := Next(cfg, s, Sync(bs));
    if s'.b.time == s.b.time {
      if SomeoneDue(cfg, s) {
        var c :| 0 <= c < cfg.ncpu && Due(cfg, s.b.time, s.cpus[c], s.b.devs[c], s.pc, s.mlq);
        StillDue(cfg, s, bs, c);
      }
      StepCompletion(cfg, s, s');
    } else {
      TickCompletion(cfg, s, bs);
    }
  }

  // ----- CPU steps

  /** If somebody was due and CPU `c` was not, or is due now, somebody is due after a step of CPU `c`. */
  lemma OthersStayDue(cfg: Config, s: Sys, s': Sys, c: nat)
    requires Shape(cfg, s) && Shape(cfg, s') && c < cfg.ncpu
    requires forall d :: 0 <= d < cfg.ncpu && d != c ==> s'.cpus[d] == s.cpus[d] && s'.b.devs[d] == s.b.devs[d]
    requires s'.b.time == s.b.time && s'.pc == s.pc && s'.mlq == s.mlq
    requires !Due(cfg, s.b.time, s.cpus[c], s.b.devs[c], s.pc, s.mlq)
    ensures SomeoneDue(cfg, s) ==> SomeoneDue(cfg, s')
  {
    if SomeoneDue(cfg, s) {
      var d :| 0 <= d < cfg.ncpu && Due(cfg, s.b.time, s.cpus[d], s.b.devs[d], s.pc, s.mlq);
      assert Due(cfg, s'.b.time, s'.cpus[d], s'.b.devs[d], s'.pc, s'.mlq);
    }
  }

  /** A taken process that has instructions left makes its CPU due; one without instructions weighs less now. */
  lemma TakeWork(cfg: Config, s: Sys, c: nat)
    requires Shape(cfg, s) && AtWork(cfg, s, c) && CompletionInv(cfg, s) && s.b.devs[c].slots == s.b.time
    requires s.cpus[c].proc.None? && !M.AllEmpty(s.mlq.queues)
    requires Shape(cfg, Take(cfg, s, c))
    requires var x := M.Get(s.mlq).1.value; s.place[x] == Queued && (s.pc[x] < Size(cfg, x) || Size(cfg, x) == 0)
    ensures CompletionInv(cfg, Take(cfg, s, c))
  {
    var s' := Take(cfg, s, c);
    var x := M.Get(s.mlq).1.value;
    WorkOfUpdate(cfg, s.pc, s.place, x, s.pc[x], OnCpu(c), |cfg.jobs|);
    assert s.pc[x := s.pc[x]] == s.pc;
    if Size(cfg, x) > 0 {
      assert Due(cfg, s'.b.time, s'.cpus[c], s'.b.devs[c], s'.pc, s'.mlq);
    }
    StepCompletion(cfg, s, s');
  }

  lemma TakeCompletion(cfg: Config, s: Sys, c: nat)
    requires Inv(cfg, s) && Shape(cfg, s) && AtWork(cfg, s, c) && CompletionInv(cfg, s)
    requires s.cpus[c].proc.None? && (s.cpus[c].pc == Fetch || s.cpus[c].pc == Head)
    requires Shape(cfg, Take(cfg, s, c))
    ensures CompletionInv(cfg, Take(cfg, s, c))
  {
    WorkingDev(s.b, c);
    if M.AllEmpty(s.mlq.queues) {
      OthersStayDue(cfg, s, Take(cfg, s, c), c);
      StepCompletion(cfg, s, Take(cfg, s, c));
    } else {
      QueuesTake(cfg, s.mlq, s.place, c);
      TakeWork(cfg, s, c);
    }
  }

  /** Ending a process takes its weight away. */
  lemma FinishCompletion(cfg: Config, s: Sys, c: nat)
    requires Shape(cfg, s) && AtWork(cfg, s, c) && CompletionInv(cfg, s)
    requires s.cpus[c].proc.Some? && s.place[s.cpus[c].proc.value] == OnCpu(c)
    requires Shape(cfg, Finish(cfg, s, c))
    ensures CompletionInv(cfg, Finish(cfg, s, c))
  {
    var x := s.cpus[c].proc.value;
    WorkOfUpdate(cfg, s.pc, s.place, x, s.pc[x], Finished, |cfg.jobs|);
    assert s.pc[x := s.pc[x]] == s.pc;
    StepCompletion(cfg, s, Finish(cfg, s, c));
  }

  /** A process that is put back leaves its CPU due to take one again. */
  lemma PutBackCompletion(cfg: Config, s: Sys, c: nat)
    requires Shape(cfg, s) && AtWork(cfg, s, c) && CompletionInv(cfg, s) && s.b.devs[c].slots == s.b.time
    requires s.cpus[c].proc.Some? && s.place[s.cpus[c].proc.value] == OnCpu(c)
    requires s.pc[s.cpus[c].proc.value] < Size(cfg, s.cpus[c].proc.value)
    requires Shape(cfg, PutBack(cfg, s, c))
    ensures CompletionInv(cfg, PutBack(cfg, s, c))
  {
    var s' := PutBack(cfg, s, c);
    var x := s.cpus[c].proc.value;
    WorkOfUpdate(cfg, s.pc, s.place, x, s.pc[x], s'.place[x], |cfg.jobs|);
    assert s.pc[x := s.pc[x]] == s.pc;
    if M.Accepts(s.mlq, cfg.jobs[x].prio) {
      assert s'.mlq.queues[cfg.jobs[x].prio] != [];
      assert Due(cfg, s'.b.time, s'.cpus[c], s'.b.devs[c], s'.pc, s'.mlq);
    }
    StepCompletion(cfg, s, s');
  }

  /** An instruction takes one from the work; a process at its end leaves it as it is. */
  lemma RunOneWork(cfg: Config, s: Sys, c: nat)
    requires Shape(cfg, s) && AtWork(cfg, s, c) && CompletionInv(cfg, s)
    requires s.cpus[c].proc.Some? && s.place[s.cpus[c].proc.value] == OnCpu(c)
    requires s.pc[s.cpus[c].proc.value] <= Size(cfg, s.cpus[c].proc.value)
    ensures var s' := RunOne(cfg, s, c);
            var x := s.cpus[c].proc.value;
            && |s'.pc| == |s'.place| == |cfg.jobs|
            && Work(cfg, s'.pc, s'.place, |cfg.jobs|) == WorkLeft(cfg, s) - (if s.pc[x] < Size(cfg, x) then 1 else 0)
  {
    var s' := RunOne(cfg, s, c);
    var x := s.cpus[c].proc.value;
    assert s'.pc == s.pc[x := s'.pc[x]] && s'.place == s.place[x := s.place[x]];
    WorkOfUpdate(cfg, s.pc, s.place, x, s'.pc[x], s.place[x], |cfg.jobs|);
  }

  lemma RunOneCompletion(cfg: Config, s: Sys, c: nat)
    requires Shape(cfg, s) && AtWork(cfg, s, c) && CompletionInv(cfg, s) && s.cpus[c].pc == Check
    requires s.cpus[c].proc.Some? && s.place[s.cpus[c].proc.value] == OnCpu(c)
    requires s.pc[s.cpus[c].proc.value] <= Size(cfg, s.cpus[c].proc.value)
    requires Shape(cfg, RunOne(cfg, s, c).(b := Barred(s.b, c, CallsNextSlot)))
    ensures CompletionInv(cfg, RunOne(cfg, s, c).(b := Barred(s.b, c, CallsNextSlot)))
  {
    var s' := RunOne(cfg, s, c).(b := Barred(s.b, c, CallsNextSlot));
    var x := s.cpus[c].proc.value;
    RunOneWork(cfg, s, c);
    if s.pc[x] == Size(cfg, x) {
      OthersStayDue(cfg, s, s', c);
    }
    StepCompletion(cfg, s, s');
  }

  /** A move between program points by a CPU that is not due, or that stays due. */
  lemma MoveCompletion(cfg: Config, s: Sys, c: nat, pc: CpuPc, o: Outcome)
    requires Shape(cfg, s) && AtWork(cfg, s, c) && CompletionInv(cfg, s)
    requires s.b.devs[c].slots == s.b.time
    requires CanMove(cfg, s, c, pc, o) && s.cpus[c].pc != Fetch
    requires s.cpus[c].proc.None? && s.cpus[c].pc == Head ==> M.AllEmpty(s.mlq.queues)
    requires s.cpus[c].proc.Some? ==> s.pc[s.cpus[c].proc.value] < Size(cfg, s.cpus[c].proc.value)
    requires Shape(cfg, MoveCpu(s, c, pc).(b := Barred(s.b, c, o)))
    ensures CompletionInv(cfg, MoveCpu(s, c, pc).(b := Barred(s.b, c, o)))
  {
    var s' := MoveCpu(s, c, pc).(b := Barred(s.b, c, o));
    if pc == Check {
      assert Due(cfg, s'.b.time, s'.cpus[c], s'.b.devs[c], s'.pc, s'.mlq);
    } else {
      OthersStayDue(cfg, s, s', c);
    }
    StepCompletion(cfg, s, s');
  }

  lemma HoldingActCompletion(cfg: Config, s: Sys, c: nat)
    requires Inv(cfg, s) && Shape(cfg, s) && AtWork(cfg, s, c) && CompletionInv(cfg, s)
    requires s.cpus[c].pc == Head && s.cpus[c].proc.Some? && Shape(cfg, Next(cfg, s, Act(c)))
    ensures CompletionInv(cfg, Next(cfg, s, Act(c)))
  {
    var u := s.cpus[c];
    assert CpuOk(cfg, c, u, s.b.devs[c].pc, s.pc, s.place, s.done);
    WorkingDev(s.b, c);
    if s.pc[u.proc.value] == Size(cfg, u.proc.value) {
      FinishCompletion(cfg, s, c);
    } else if u.timeLeft == 0 {
      PutBackCompletion(cfg, s, c);
    } else {
      MoveCompletion(cfg, s, c, Check, GoesOn);
    }
  }

  lemma HeadActCompletion(cfg: Config, s: Sys, c: nat)
    requires Inv(cfg, s) && Shape(cfg, s) && AtWork(cfg, s, c) && CompletionInv(cfg, s)
    requires s.cpus[c].pc == Head && Shape(cfg, Next(cfg, s, Act(c)))
    ensures CompletionInv(cfg, Next(cfg, s, Act(c)))
  {
    var u := s.cpus[c];
    if u.proc.None? {
      if M.AllEmpty(s.mlq.queues) {
        assert s.cpus[c := u.(pc := Head)] == s.cpus;
        WorkingDev(s.b, c);
        MoveCompletion(cfg, s, c, Head, CallsNextSlot);
      } else {
        TakeCompletion(cfg, s, c);
      }
    } else {
      HoldingActCompletion(cfg, s, c);
    }
  }

  lemma CheckActCompletion(cfg: Config, s: Sys, c: nat)
    requires Inv(cfg, s) && Shape(cfg, s) && AtWork(cfg, s, c) && CompletionInv(cfg, s)
    requires s.cpus[c].pc == Check && Shape(cfg, Next(cfg, s, Act(c)))
    ensures CompletionInv(cfg, Next(cfg, s, Act(c)))
  {
    assert CpuOk(cfg, c, s.cpus[c], s.b.devs[c].pc, s.pc, s.place, s.done);
    WorkingDev(s.b, c);
    if s.cpus[c].proc.Some? {
      RunOneCompletion(cfg, s, c);
    } else if s.done {
      MoveCompletion(cfg, s, c, Stopped, CallsDetach);
    } else {
      MoveCompletion(cfg, s, c, Head, CallsNextSlot);
    }
  }

  lemma CpuActCompletion(cfg: Config, s: Sys, c: nat)
    requires Inv(cfg, s) && Shape(cfg, s) && AtWork(cfg, s, c) && CompletionInv(cfg, s)
    requires Shape(cfg, Next(cfg, s, Act(c)))
    ensures CompletionInv(cfg, Next(cfg, s, Act(c)))
  {
    match s.cpus[c].pc
    case Head => HeadActCompletion(cfg, s, c);
    case Fetch =>
      assert CpuOk(cfg, c, s.cpus[c], s.b.devs[c].pc, s.pc, s.place, s.done);
      TakeCompletion(cfg, s, c);
    case Check => CheckActCompletion(cfg, s, c);
    case Stopped => assert CpuOk(cfg, c, s.cpus[c], s.b.devs[c].pc, s.pc, s.place, s.done);
  }

  // ----- Loader steps and runs

  lemma LdActDue(cfg: Config, s: Sys)
    requires Shape(cfg, s) && Enabled(cfg, s, Act(cfg.ncpu)) && s.ld != Adding && SomeoneDue(cfg, s)
    requires Shape(cfg, Next(cfg, s, Act(cfg.ncpu)))
    ensures SomeoneDue(cfg, Next(cfg, s, Act(cfg.ncpu)))
  {
    var s' := Next(cfg, s, Act(cfg.ncpu));
    var c :| 0 <= c < cfg.ncpu && Due(cfg, s.b.time, s.cpus[c], s.b.devs[c], s.pc, s.mlq);
    assert Due(cfg, s'.b.time, s'.cpus[c], s'.b.devs[c], s'.pc, s'.mlq);
  }

  lemma LdActCompletion(cfg: Config, s: Sys)
    requires Shape(cfg, s) && CompletionInv(cfg, s) && s.b.devs[cfg.ncpu].pc == B.Work
    requires s.ld == Adding ==> s.place[s.i] == Unloaded
    requires Shape(cfg, Next(cfg, s, Act(cfg.ncpu)))
    ensures CompletionInv(cfg, Next(cfg, s, Act(cfg.ncpu)))
  {
    if s.ld != Adding {
      if SomeoneDue(cfg, s) {
        LdActDue(cfg, s);
      }
      StepCompletion(cfg, s, Next(cfg, s, Act(cfg.ncpu)));
    }
  }

  lemma LoaderCompletion(cfg: Config, s: Sys)
    requires Inv(cfg, s) && Shape(cfg, s) && CompletionInv(cfg, s) && s.b.devs[cfg.ncpu].pc == B.Work
    requires Shape(cfg, Next(cfg, s, Act(cfg.ncpu)))
    ensures CompletionInv(cfg, Next(cfg, s, Act(cfg.ncpu)))
  {
    assert PlacesOk(cfg, s.cpus, s.i, s.pc, s.place);
    LdActCompletion(cfg, s);
  }

  lemma ActCompletion(cfg: Config, s: Sys, d: nat)
    requires Inv(cfg, s) && Shape(cfg, s) && CompletionInv(cfg, s) && Enabled(cfg, s, Act(d))
    requires Shape(cfg, Next(cfg, s, Act(d)))
    ensures CompletionInv(cfg, Next(cfg, s, Act(d)))
  {
    if d < cfg.ncpu {
      CpuActCompletion(cfg, s, d);
    } else {
      LoaderCompletion(cfg, s);
    }
  }

  lemma StepCompletionInv(cfg: Config, s: Sys, step: Step)
    requires cfg.ncpu >= 1 && Inv(cfg, s) && Shape(cfg, s) && CompletionInv(cfg, s) && Enabled(cfg, s, step)
    requires Shape(cfg, Next(cfg, s, step))
    ensures CompletionInv(cfg, Next(cfg, s, step))
  {
    match step
    case Sync(bs) => SyncCompletion(cfg, s, bs);
    case Act(d) => ActCompletion(cfg, s, d);
  }

  lemma {:induction false} RunCompletion(cfg: Config, s: Sys, steps: seq<Step>)
    requires cfg.ncpu >= 1 && Inv(cfg, s) && Shape(cfg, s) && CompletionInv(cfg, s) && Feasible(cfg, s, steps)
    ensures Shape(cfg, Exec(cfg, s, steps)) && CompletionInv(cfg, Exec(cfg, s, steps))
    decreases |steps|
  {
    if steps != [] {
      StepInv(cfg, s, steps[0]);
      InvShape(cfg, Next(cfg, s, steps[0]));
      StepCompletionInv(cfg, s, steps[0]);
      RunCompletion(cfg, Next(cfg, s, steps[0]), steps[1..]);
    }
  }

  // ----- The deadline

  /** The last slot in which a process can still be unfinished: the slot of the last load and one slot for
      every instruction and for the end and the dispatch of every process. */
  function Deadline(cfg: Config): nat {
    LastLoad(cfg) + TotalWork(cfg, |cfg.jobs|)
  }

  lemma {:induction false} AddTimeMonotone(cfg: Config, i: nat, j: nat)
    requires i <= j < |cfg.jobs|
    ensures AddTime(cfg, i) <= AddTime(cfg, j)
    decreases j
  {
    if i < j {
      AddTimeMonotone(cfg, i, j - 1);
    }
  }

  /** A live device works in the current slot or will work in a later one. */
  lemma SlotReached(b: B.State, d: nat)
    requires B.Inv(b) && d < |b.devs|
    ensures !B.Detaching(b.devs[d].pc) ==> b.time <= WorkSlot(b.devs[d])
  {
    assert B.DevInv(b.time, b.timer, d, b.devs[d]);
  }

  /** The loader has added everything once the clock is past the last load time. */
  lemma LoadedByThen(cfg: Config, time: nat, v: B.Dev, ld: LdPc, i: nat, addedAt: seq<nat>, done: bool)
    requires LoaderOk(cfg, time, v, ld, i, addedAt, done)
    requires !B.Detaching(v.pc) ==> time <= WorkSlot(v)
    requires cfg.jobs != [] && time > AddTime(cfg, |cfg.jobs| - 1)
    ensures i == |cfg.jobs| && addedAt[i - 1] == AddTime(cfg, |cfg.jobs| - 1)
  {
    if i < |cfg.jobs| {
      AddTimeMonotone(cfg, i, |cfg.jobs| - 1);
    }
  }

  lemma ReachableCompletion(cfg: Config, s: Sys)
    requires cfg.ncpu >= 1 && Reachable(cfg, s)
    ensures CompletionInv(cfg, s)
  {
    var steps :| Feasible(cfg, Init(cfg), steps) && s == Exec(cfg, Init(cfg), steps);
    InitInv(cfg);
    InvShape(cfg, Init(cfg));
    InitCompletion(cfg);
    RunCompletion(cfg, Init(cfg), steps);
  }

  lemma NoWorkAfterDeadline(cfg: Config, s: Sys)
    requires Shape(cfg, s) && CompletionInv(cfg, s) && s.b.time > Deadline(cfg)
    requires s.i == |cfg.jobs| && (s.i > 0 ==> s.addedAt[s.i - 1] == LastLoad(cfg))
    ensures WorkLeft(cfg, s) == 0
  {
  }

  /** All processes have been added once the clock is past the last load time. */
  lemma AllLoaded(cfg: Config, s: Sys)
    requires Dims(cfg, s) && B.Inv(s.b) && s.b.time > LastLoad(cfg)
    requires LoaderOk(cfg, s.b.time, s.b.devs[cfg.ncpu], s.ld, s.i, s.addedAt, s.done)
    ensures s.i == |cfg.jobs| && (s.i > 0 ==> s.addedAt[s.i - 1] == LastLoad(cfg))
  {
    if cfg.jobs != [] {
      SlotReached(s.b, cfg.ncpu);
      LoadedByThen(cfg, s.b.time, s.b.devs[cfg.ncpu], s.ld, s.i, s.addedAt, s.done);
    }
  }

  lemma EveryProcessEnds(cfg: Config, s: Sys)
    requires Inv(cfg, s) && Shape(cfg, s) && CompletionInv(cfg, s) && s.b.time > Deadline(cfg)
    ensures forall x :: 0 <= x < |cfg.jobs| ==> Ended(s.place[x])
  {
    AllLoaded(cfg, s);
    NoWorkAfterDeadline(cfg, s);
    NobodyLeft(cfg, s.pc, s.place, |cfg.jobs|);
  }

  /** In every interleaving, when the clock is past the deadline every process has executed its whole code, or
      was refused: for a priority out of range, or by a queue that ten or more processes share. */
  lemma EveryProcessCompletes(cfg: Config, s: Sys)
    requires cfg.ncpu >= 1 && Reachable(cfg, s) && s.b.time > Deadline(cfg)
    ensures forall x :: 0 <= x < |cfg.jobs| ==> Completed(cfg, s, x) || Refused(cfg, s, x)
  {
    ReachableCompletion(cfg, s);
    EveryProcessEnds(cfg, s);
    forall x | 0 <= x < |cfg.jobs| && s.place[x] == Dropped ensures Refused(cfg, s, x) {
      LossNeedsOverfullPriority(cfg, s, x);
    }
  }

  // ----- Enough steps of any interleaving reach the deadline

  lemma OneTick(cfg: Config, s: Sys, step: Step)
    requires Inv(cfg, s) && Shape(cfg, s) && Enabled(cfg, s, step) && Next(cfg, s, step).b.time != s.b.time
    ensures Next(cfg, s, step).b.time == s.b.time + 1
    ensures step.Sync? && !B.IsSpurious(step.b)
  {
    match step
    case Sync(bs) => T.ClockMovesOnlyAtTheBarrier(s.b, bs);
    case Act(d) => assert false;
  }

  lemma TickCost(cfg: Config, s: Sys, s': Sys)
    requires Inv(cfg, s) && Inv(cfg, s')
    ensures 1 + Rank(s') <= Rank(s) + MaxRank(cfg) + 1
  {
    RankBounded(cfg, s);
    RankBounded(cfg, s');
  }

  lemma SpuriousOne(step: Step)
    ensures SpuriousCount([step]) == if step.Sync? && B.IsSpurious(step.b) then 1 else 0
  {
    assert [step][1..] == [];
  }

  /** A step lowers the rank, or ticks, or is a spurious wakeup. */
  lemma StepCost(cfg: Config, s: Sys, step: Step)
    requires Inv(cfg, s) && Shape(cfg, s) && Enabled(cfg, s, step) && Inv(cfg, Next(cfg, s, step))
    ensures var s' := Next(cfg, s, step);
            && s.b.time <= s'.b.time <= s.b.time + 1
            && 1 + Rank(s') <= Rank(s) + (if s'.b.time > s.b.time then MaxRank(cfg) + 1 else 0) + 4 * SpuriousCount([step])
  {
    SpuriousOne(step);
    if Next(cfg, s, step).b.time == s.b.time {
      StepRank(cfg, s, step);
    } else {
      OneTick(cfg, s, step);
      TickCost(cfg, s, Next(cfg, s, step));
    }
  }

  /** `perSlot` for every slot from `from` to before `to`. */
  function Budget(perSlot: nat, from: nat, to: nat): nat
    decreases if from < to then to - from else 0
  {
    if from >= to then 0 else perSlot + Budget(perSlot, from + 1, to)
  }

  lemma {:induction false} BudgetIs(perSlot: nat, from: nat, to: nat)
    requires from <= to
    ensures Budget(perSlot, from, to) == perSlot * (to - from)
    decreases if from < to then to - from else 0
  {
    if from < to {
      BudgetIs(perSlot, from + 1, to);
      assert perSlot * (to - from - 1) == perSlot * (to - from) - perSlot;
    }
  }

  lemma {:induction false} BudgetMonotone(perSlot: nat, from: nat, a: nat, b: nat)
    requires a <= b
    ensures Budget(perSlot, from, a) <= Budget(perSlot, from, b)
    decreases if from < b then b - from else 0
  {
    if from < b {
      BudgetMonotone(perSlot, from + 1, a, b);
    }
  }

  /** `n` steps are within what a run can do that starts at rank `rank`, lasts from one time to another
      and has a number of spurious wakeups. */
  predicate InBudget(n: nat, perSlot: nat, rank: int, from: nat, to: nat, spurious: nat) {
    n <= rank + Budget(perSlot, from, to) + 4 * spurious
  }

  lemma OneMoreStep(n: nat, n1: nat, m: nat, r: int, r1: int, t: nat, t1: nat, end: nat, f: nat, f0: nat, f1: nat)
    requires n == n1 + 1 && f == f0 + f1 && t <= t1 <= t + 1 && t1 <= end
    requires 1 + r1 <= r + (if t1 > t then m else 0) + 4 * f0
    requires InBudget(n1, m, r1, t1, end, f1)
    ensures InBudget(n, m, r, t, end, f)
  {
  }

  lemma SpuriousSplit(steps: seq<Step>)
    requires steps != []
    ensures SpuriousCount(steps) == SpuriousCount([steps[0]]) + SpuriousCount(steps[1..])
  {
    assert [steps[0]][1..] == [];
  }

  /** How many steps a run can take until its clock shows a given time. */
  lemma {:induction false} StepsBounded(cfg: Config, s: Sys, steps: seq<Step>, end: nat)
    requires Inv(cfg, s) && Feasible(cfg, s, steps) && end == Exec(cfg, s, steps).b.time
    ensures s.b.time <= end
    ensures InBudget(|steps|, MaxRank(cfg) + 1, Rank(s), s.b.time, end, SpuriousCount(steps))
    decreases |steps|
  {
    if steps == [] {
      RankBounded(cfg, s);
    } else {
      var s1 := Next(cfg, s, steps[0]);
      StepInv(cfg, s, steps[0]);
      StepCost(cfg, s, steps[0]);
      StepsBounded(cfg, s1, steps[1..], end);
      SpuriousSplit(steps);
      OneMoreStep(|steps|, |steps[1..]|, MaxRank(cfg) + 1, Rank(s), Rank(s1), s.b.time, s1.b.time, end,
                  SpuriousCount(steps), SpuriousCount([steps[0]]), SpuriousCount(steps[1..]));
    }
  }

  /** The steps in which the simulation certainly does all its work. */
  function EnoughSteps(cfg: Config): nat {
    Budget(MaxRank(cfg) + 1, 0, Deadline(cfg) + 1)
  }

  lemma EnoughStepsAre(cfg: Config)
    ensures EnoughSteps(cfg) == (34 * (cfg.ncpu + 1) + 6) * (Deadline(cfg) + 1)
  {
    BudgetIs(MaxRank(cfg) + 1, 0, Deadline(cfg) + 1);
  }

  predicate LongRun(cfg: Config, steps: seq<Step>) {
    |steps| > EnoughSteps(cfg) + 4 * SpuriousCount(steps)
  }

  lemma LateEnough(cfg: Config, steps: seq<Step>, rank: int, time: nat)
    requires rank <= MaxRank(cfg) && LongRun(cfg, steps)
    requires InBudget(|steps|, MaxRank(cfg) + 1, rank, 0, time, SpuriousCount(steps))
    ensures time > Deadline(cfg)
  {
    var m := MaxRank(cfg) + 1;
    BudgetIs(m, 0, Deadline(cfg) + 1);
    BudgetIs(m, 0, Deadline(cfg));
    if time <= Deadline(cfg) {
      BudgetMonotone(m, 0, time, Deadline(cfg));
    }
    assert m * (Deadline(cfg) + 1) == m * Deadline(cfg) + m;
  }

  lemma DeadlinePassed(cfg: Config, s: Sys, steps: seq<Step>)
    requires Inv(cfg, s) && s.b.time == 0 && Feasible(cfg, s, steps) && LongRun(cfg, steps)
    ensures Exec(cfg, s, steps).b.time > Deadline(cfg)
  {
    var time := Exec(cfg, s, steps).b.time;
    RankBounded(cfg, s);
    StepsBounded(cfg, s, steps, time);
    LateEnough(cfg, steps, Rank(s), time);
  }

  /** Any run of the simulation that is long enough, in any interleaving and without any fairness assumption
      beyond a bounded number of spurious wakeups, has completed every process that was not refused. */
  lemma EveryLongRunCompletes(cfg: Config, steps: seq<Step>)
    requires cfg.ncpu >= 1 && Feasible(cfg, Init(cfg), steps) && LongRun(cfg, steps)
    ensures var s := Exec(cfg, Init(cfg), steps);
            && |s.pc| == |s.place| == |cfg.jobs|
            && forall x :: 0 <= x < |cfg.jobs| ==> Completed(cfg, s, x) || Refused(cfg, s, x)
  {
    var s := Exec(cfg, Init(cfg), steps);
    assert Reachable(cfg, s);
    InitInv(cfg);
    DeadlinePassed(cfg, Init(cfg), steps);
    EveryProcessCompletes(cfg, s);
  }

  /** A run that is long enough, or that cannot go on because no thread has a step left. */
  ghost predicate FullRun(cfg: Config, steps: seq<Step>) {
    Feasible(cfg, Init(cfg), steps) && (LongRun(cfg, steps) || Stuck(cfg, Exec(cfg, Init(cfg), steps)))
  }

  /** Every run that is long or cannot be extended has completed every process that was not refused. */
  lemma EveryFullRunCompletes(cfg: Config, steps: seq<Step>)
    requires cfg.ncpu >= 1 && FullRun(cfg, steps)
    ensures var s := Exec(cfg, Init(cfg), steps);
            && |s.pc| == |s.place| == |cfg.jobs|
            && forall x :: 0 <= x < |cfg.jobs| ==> Completed(cfg, s, x) || Refused(cfg, s, x)
  {
    if LongRun(cfg, steps) {
      EveryLongRunCompletes(cfg, steps);
    } else {
      var s := Exec(cfg, Init(cfg), steps);
      assert Reachable(cfg, s);
      StuckIff(cfg, s);
      FinishedIsStopped(cfg, s);
      ShutdownComplete(cfg, s);
    }
  }

  /** From any state of the invariant the simulation can go on for `n` steps without a spurious wakeup, unless
      it finishes before. */
  lemma {:induction false} GoOn(cfg: Config, s: Sys, n: nat) returns (steps: seq<Step>)
    requires Inv(cfg, s)
    ensures Feasible(cfg, s, steps) && SpuriousCount(steps) == 0
    ensures |steps| == n || Stuck(cfg, Exec(cfg, s, steps))
    decreases n
  {
    InvShape(cfg, s);
    if n == 0 || T.Finished(s.b) {
      steps := [];
      StuckIff(cfg, s);
    } else {
      var step := CanGoOn(cfg, s);
      StepInv(cfg, s, step);
      var rest := GoOn(cfg, Next(cfg, s, step), n - 1);
      steps := [step] + rest;
      assert steps[1..] == rest;
    }
  }

  /** Every configuration has such a run, also without any spurious wakeup. */
  lemma FullRunExists(cfg: Config) returns (steps: seq<Step>)
    ensures FullRun(cfg, steps) && SpuriousCount(steps) == 0
  {
    InitInv(cfg);
    steps := GoOn(cfg, Init(cfg), EnoughSteps(cfg) + 1);
  }
}
