/** The invariant of the whole simulation, and its proof for every step of every thread. */
module OsInv {
  import opened Options
  import opened Sequences
  import B = Barrier
  import M = MultiLevelQueue
  import opened Os

  // ----- Queues and places

  /** The queues hold exactly the processes placed there, each once, under its own priority. */
  ghost predicate QueuesOk(cfg: Config, m: M.Mlq, place: seq<Place>)
    requires M.Sized(m) && |place| == |cfg.jobs|
  {
    && (forall p :: 0 <= p < M.MAX_PRIO ==> NoDup(m.queues[p]))
    && (forall p, x {:trigger x in m.queues[p]} :: 0 <= p < M.MAX_PRIO && x in m.queues[p] ==>
          x < |cfg.jobs| && place[x] == Queued && cfg.jobs[x].prio == p)
    && (forall x :: 0 <= x < |cfg.jobs| && place[x] == Queued ==>
          cfg.jobs[x].prio < M.MAX_PRIO && x in m.queues[cfg.jobs[x].prio])
  }

  lemma QueuesTake(cfg: Config, m: M.Mlq, place: seq<Place>, c: nat)
    requires M.Valid(m) && |place| == |cfg.jobs| && QueuesOk(cfg, m, place)
    requires !M.AllEmpty(m.queues)
    ensures var x := M.Get(m).1.value;
            && x < |place| && place[x] == Queued && M.Valid(M.Get(m).0)
            && QueuesOk(cfg, M.Get(m).0, place[x := OnCpu(c)])
  {
    M.GetValid(m);
    var p, m' := M.Choice(m), M.Get(m).0;
    var q := m.queues[p];
    var x := q[0];
    assert x in q;
    forall y | y in q[1..] ensures y in q && y != x {
      var j :| 0 <= j < |q[1..]| && q[1..][j] == y;
      assert q[j + 1] == y;
    }
    forall y | y in q && y != x ensures y in q[1..] {
      var j :| 0 <= j < |q| && q[j] == y;
      assert q[1..][j - 1] == y;
    }
    forall r, y | 0 <= r < M.MAX_PRIO && y in m'.queues[r] ensures y in m.queues[r] && y != x {
      assert r != p ==> m'.queues[r] == m.queues[r];
    }
  }

  lemma QueuesPut(cfg: Config, m: M.Mlq, place: seq<Place>, x: nat)
    requires M.Valid(m) && |place| == |cfg.jobs| && QueuesOk(cfg, m, place)
    requires x < |place| && place[x] != Queued
    ensures var prio := cfg.jobs[x].prio;
            && M.Valid(M.Put(m, x, prio))
            && QueuesOk(cfg, M.Put(m, x, prio), place[x := if M.Accepts(m, prio) then Queued else Dropped])
  {
    var prio := cfg.jobs[x].prio;
    M.PutValid(m, x, prio);
    if M.Accepts(m, prio) {
      var m', q := M.Put(m, x, prio), m.queues[prio];
      assert x !in q;
      assert m'.queues == m.queues[prio := q + [x]];
      assert forall y :: y in q + [x] <==> y in q || y == x;
      assert NoDup(q + [x]);
    }
  }

  /** The queues do not depend on the places of the processes that are in none of them. */
  lemma QueuesKept(cfg: Config, m: M.Mlq, place: seq<Place>, x: nat, pl: Place)
    requires M.Valid(m) && |place| == |cfg.jobs| && QueuesOk(cfg, m, place)
    requires x < |place| && place[x] != Queued && pl != Queued
    ensures QueuesOk(cfg, m, place[x := pl])
  {
  }

  // ----- Processes and CPUs

  predicate PlacesOk(cfg: Config, cpus: seq<Cpu>, i: nat, pc: seq<nat>, place: seq<Place>)
    requires |cpus| == cfg.ncpu && |pc| == |place| == |cfg.jobs|
  {
    forall x :: 0 <= x < |place| ==>
      && (place[x] == Unloaded <==> i <= x)
      && pc[x] <= Size(cfg, x)
      && (place[x] == Unloaded ==> pc[x] == 0)
      && (place[x] == Finished ==> pc[x] == Size(cfg, x))
      && (place[x] == Queued ==> pc[x] < Size(cfg, x) || Size(cfg, x) == 0)
      && (cfg.jobs[x].prio >= M.MAX_PRIO ==> (place[x] == Unloaded || place[x] == Dropped) && pc[x] == 0)
      && (place[x].OnCpu? ==> place[x].c < cfg.ncpu && cpus[place[x].c].proc == Some(x))
  }

  function Min(a: int, b: int): int {
    if a < b then a else b
  }

  /** A process just fetched is to be dispatched with a full quantum; one that runs has executed
      one instruction per used slot of its quantum, as far as its code goes. */
  predicate QuantumOk(cfg: Config, u: Cpu, pc: nat, size: nat) {
    || (u.pc == Check && u.timeLeft == 0 && (pc < size || size == 0))
    || (&& cfg.timeSlot - u.timeLeft >= 1
        && (u.from + (cfg.timeSlot - u.timeLeft) <= size || (size == 0 && cfg.timeSlot - u.timeLeft == 1))
        && (cfg.timeSlot >= 1 ==> u.timeLeft >= 0)
        && u.from <= size
        && pc == Min(size, u.from + (cfg.timeSlot - u.timeLeft))
        && (u.pc == Check ==> pc < size))
  }

  predicate CpuOk(cfg: Config, c: nat, u: Cpu, v: B.DevPc, pc: seq<nat>, place: seq<Place>, done: bool)
    requires |pc| == |place| == |cfg.jobs|
  {
    && (u.pc == Fetch || u.pc == Check ==> v == B.Work)
    && (u.pc == Stopped <==> B.Detaching(v))
    && (u.pc == Fetch || u.pc == Stopped ==> u.proc == None)
    && (u.pc == Stopped ==> done)
    && (u.proc.None? ==> u.timeLeft == 0)
    && (u.proc.Some? ==>
          var x := u.proc.value;
          && x < |place| && place[x] == OnCpu(c)
          && QuantumOk(cfg, u, pc[x], Size(cfg, x)))
  }

  predicate CpusOk(cfg: Config, cpus: seq<Cpu>, devs: seq<B.Dev>, pc: seq<nat>, place: seq<Place>, done: bool)
    requires |cpus| == cfg.ncpu && |devs| == cfg.ncpu + 1 && |pc| == |place| == |cfg.jobs|
  {
    forall c :: 0 <= c < cfg.ncpu ==> CpuOk(cfg, c, cpus[c], devs[c].pc, pc, place, done)
  }

  // ----- The loader

  /** The slot in which process `j` is added: its start time, or the slot after the previous process if that is later. */
  function AddTime(cfg: Config, j: nat): nat
    requires j < |cfg.jobs|
  {
    if j == 0 then cfg.jobs[0].start
    else if cfg.jobs[j].start <= AddTime(cfg, j - 1) then AddTime(cfg, j - 1) + 1
    else cfg.jobs[j].start
  }

  /** The slot in which the last process is loaded. */
  function LastLoad(cfg: Config): nat {
    if cfg.jobs == [] then 0 else AddTime(cfg, |cfg.jobs| - 1)
  }

  /** The slot in which the loader sets `done`. */
  function DoneSlot(cfg: Config): nat {
    if cfg.jobs == [] then 0 else LastLoad(cfg) + 1
  }

  /** The slot in which the device works now, or will work after its current `next_slot`. */
  function WorkSlot(v: B.Dev): nat {
    if v.pc == B.Work then v.slots else v.slots + 1
  }

  predicate LoaderOk(cfg: Config, time: nat, v: B.Dev, ld: LdPc, i: nat, addedAt: seq<nat>, done: bool) {
    && i <= |cfg.jobs| && |addedAt| == i
    && (ld == Exited <==> B.Detaching(v.pc))
    && (done <==> ld == Exited)
    && (done ==> i == |cfg.jobs|)
    && (forall j :: 0 <= j < i ==> addedAt[j] == AddTime(cfg, j))
    && (ld == Adding ==> i < |cfg.jobs| && v.pc == B.Work && time == AddTime(cfg, i))
    && (ld == Scan && i > 0 ==> WorkSlot(v) > AddTime(cfg, i - 1))
    && (ld == Scan ==> WorkSlot(v) <= if i < |cfg.jobs| then AddTime(cfg, i) else DoneSlot(cfg))
    && (done && i > 0 ==> time > addedAt[i - 1])
  }

  // ----- Shutdown

  /** All processes have been added, and the clock has ticked since. */
  predicate Sealed(cfg: Config, time: nat, i: nat, addedAt: seq<nat>)
    requires |addedAt| == i
  {
    i == |cfg.jobs| && (i > 0 ==> time > addedAt[i - 1])
  }

  /** The CPU will look at the queues again before it stops. */
  predicate WillFetch(u: Cpu, done: bool) {
    u.pc != Stopped && !(u.pc == Check && u.proc.None? && done)
  }

  /** Once the queues can no longer grow from outside, a waiting process always has a CPU that will look again. */
  predicate DrainOk(cfg: Config, time: nat, cpus: seq<Cpu>, i: nat, addedAt: seq<nat>, m: M.Mlq)
    requires |cpus| == cfg.ncpu && |addedAt| == i
  {
    cfg.ncpu >= 1 && i == |cfg.jobs| && !M.AllEmpty(m.queues) ==>
      exists c :: 0 <= c < cfg.ncpu && WillFetch(cpus[c], Sealed(cfg, time, i, addedAt))
  }

  // ----- The execution log

  predicate RanThisSlot(v: B.Dev, time: nat) {
    v.pc != B.Work && v.slots == time
  }

  /** The instructions of process `x` in the order of their execution. */
  function Trace(log: seq<Ran>, x: nat): seq<nat> {
    if log == [] then [] else
      var e := log[|log| - 1];
      Trace(log[..|log| - 1], x) + (if e.proc == x then [e.ip] else [])
  }

  predicate EntryOk(cfg: Config, time: nat, devs: seq<B.Dev>, place: seq<Place>, e: Ran)
    requires |devs| == cfg.ncpu + 1 && |place| == |cfg.jobs|
  {
    && e.proc < |place| && e.cpu < cfg.ncpu && e.time <= time
    && (e.time == time ==> place[e.proc] == OnCpu(e.cpu) && RanThisSlot(devs[e.cpu], time))
  }

  predicate LogOk(cfg: Config, time: nat, devs: seq<B.Dev>, pc: seq<nat>, place: seq<Place>, log: seq<Ran>)
    requires |devs| == cfg.ncpu + 1 && |pc| == |place| == |cfg.jobs|
  {
    && (forall k :: 0 <= k < |log| ==> EntryOk(cfg, time, devs, place, log[k]))
    && (forall k :: 0 <= k < |log| ==> log[k].ip < pc[log[k].proc])
    && (forall j, k :: 0 <= j < k < |log| && log[j].proc == log[k].proc ==> log[j].time < log[k].time)
    && (forall x :: 0 <= x < |pc| ==> Trace(log, x) == UpTo(pc[x]))
  }

  /** Since its dispatch a process has run on this CPU only, one instruction in every slot. */
  predicate HoldOk(cfg: Config, c: nat, u: Cpu, v: B.Dev, log: seq<Ran>) {
    u.proc.Some? && !(u.pc == Check && u.timeLeft == 0) ==>
      && WorkSlot(v) == u.since + (cfg.timeSlot - u.timeLeft)
      && forall k :: 0 <= k < |log| && log[k].proc == u.proc.value && log[k].ip >= u.from ==>
           log[k].cpu == c && log[k].time == u.since + (log[k].ip - u.from)
  }

  predicate HoldsOk(cfg: Config, cpus: seq<Cpu>, devs: seq<B.Dev>, log: seq<Ran>)
    requires |cpus| == cfg.ncpu && |devs| == cfg.ncpu + 1
  {
    forall c :: 0 <= c < cfg.ncpu ==> HoldOk(cfg, c, cpus[c], devs[c], log)
  }

  // ----- The invariant

  predicate Dims(cfg: Config, s: Sys) {
    && |s.b.devs| == cfg.ncpu + 1 && |s.cpus| == cfg.ncpu
    && |s.pc| == |s.place| == |cfg.jobs|
    && |s.addedAt| == s.i
    && M.Valid(s.mlq)
  }

  ghost predicate Inv(cfg: Config, s: Sys) {
    && Dims(cfg, s)
    && B.Inv(s.b)
    && QueuesOk(cfg, s.mlq, s.place)
    && PlacesOk(cfg, s.cpus, s.i, s.pc, s.place)
    && CpusOk(cfg, s.cpus, s.b.devs, s.pc, s.place, s.done)
    && LoaderOk(cfg, s.b.time, s.b.devs[cfg.ncpu], s.ld, s.i, s.addedAt, s.done)
    && DrainOk(cfg, s.b.time, s.cpus, s.i, s.addedAt, s.mlq)
    && LogOk(cfg, s.b.time, s.b.devs, s.pc, s.place, s.log)
    && HoldsOk(cfg, s.cpus, s.b.devs, s.log)
  }

  lemma InvShape(cfg: Config, s: Sys)
    requires Inv(cfg, s)
    ensures Shape(cfg, s)
  {
    forall c | 0 <= c < cfg.ncpu && s.cpus[c].proc.Some? ensures s.cpus[c].proc.value < |cfg.jobs| {
      assert CpuOk(cfg, c, s.cpus[c], s.b.devs[c].pc, s.pc, s.place, s.done);
    }
    forall p, j | 0 <= p < M.MAX_PRIO && 0 <= j < |s.mlq.queues[p]| ensures s.mlq.queues[p][j] < |cfg.jobs| {
      assert s.mlq.queues[p][j] in s.mlq.queues[p];
    }
  }

  lemma InitInv(cfg: Config)
    ensures Inv(cfg, Init(cfg))
  {
    B.InitInv(cfg.ncpu + 1);
  }

  // ----- Barrier steps

  /** A barrier step leaves a device's slot work alone and keeps the slot it works in or waits for. */
  predicate Undisturbed(time: nat, v: B.Dev, time': nat, v': B.Dev) {
    && (v.pc == B.Work ==> v'.pc == B.Work)
    && (B.Detaching(v.pc) <==> B.Detaching(v'.pc))
    && (!B.Detaching(v.pc) ==> WorkSlot(v') == WorkSlot(v))
    && (time' == time && RanThisSlot(v, time) ==> RanThisSlot(v', time))
    && (time' != time ==> time' == time + 1 && v.pc != B.Work)
  }

  lemma OwnSyncDev(time: nat, t: B.Timer, d: nat, v: B.Dev)
    requires B.DevInv(time, t, d, v) && B.DevEnabled(v)
    ensures Undisturbed(time, v, time, B.DevAfter(v))
  {
  }

  lemma SyncDev(b: B.State, bs: B.Step, d: nat)
    requires B.Inv(b) && B.Enabled(b, bs) && !bs.BeginWait? && !bs.BeginDetach? && d < |b.devs|
    ensures Undisturbed(b.time, b.devs[d], B.Next(b, bs).time, B.Next(b, bs).devs[d])
  {
    assert B.DevInv(b.time, b.timer, d, b.devs[d]);
    if bs.DevStep? {
      if bs.d == d {
        OwnSyncDev(b.time, b.timer, d, b.devs[d]);
      }
    } else if bs.TimerStep? {
      assert b.timer.pc == B.Tick ==> b.devs[d].pc != B.Work;
    }
  }

  lemma SyncLog(cfg: Config, s: Sys, bs: B.Step)
    requires Dims(cfg, s) && B.Inv(s.b) && B.Enabled(s.b, bs) && !bs.BeginWait? && !bs.BeginDetach?
    requires LogOk(cfg, s.b.time, s.b.devs, s.pc, s.place, s.log)
    ensures LogOk(cfg, B.Next(s.b, bs).time, B.Next(s.b, bs).devs, s.pc, s.place, s.log)
  {
    var b' := B.Next(s.b, bs);
    forall k | 0 <= k < |s.log| ensures EntryOk(cfg, b'.time, b'.devs, s.place, s.log[k]) {
      assert EntryOk(cfg, s.b.time, s.b.devs, s.place, s.log[k]);
      SyncDev(s.b, bs, s.log[k].cpu);
    }
  }

  lemma SyncCpus(cfg: Config, s: Sys, bs: B.Step)
    requires Dims(cfg, s) && B.Inv(s.b) && B.Enabled(s.b, bs) && !bs.BeginWait? && !bs.BeginDetach?
    requires CpusOk(cfg, s.cpus, s.b.devs, s.pc, s.place, s.done)
    ensures CpusOk(cfg, s.cpus, B.Next(s.b, bs).devs, s.pc, s.place, s.done)
  {
    var b' := B.Next(s.b, bs);
    forall c | 0 <= c < cfg.ncpu ensures CpuOk(cfg, c, s.cpus[c], b'.devs[c].pc, s.pc, s.place, s.done) {
      assert CpuOk(cfg, c, s.cpus[c], s.b.devs[c].pc, s.pc, s.place, s.done);
      SyncDev(s.b, bs, c);
    }
  }

  lemma SyncHolds(cfg: Config, s: Sys, bs: B.Step)
    requires Dims(cfg, s) && B.Inv(s.b) && B.Enabled(s.b, bs) && !bs.BeginWait? && !bs.BeginDetach?
    requires CpusOk(cfg, s.cpus, s.b.devs, s.pc, s.place, s.done)
    requires HoldsOk(cfg, s.cpus, s.b.devs, s.log)
    ensures HoldsOk(cfg, s.cpus, B.Next(s.b, bs).devs, s.log)
  {
    var b' := B.Next(s.b, bs);
    forall c | 0 <= c < cfg.ncpu ensures HoldOk(cfg, c, s.cpus[c], b'.devs[c], s.log) {
      assert CpuOk(cfg, c, s.cpus[c], s.b.devs[c].pc, s.pc, s.place, s.done);
      assert HoldOk(cfg, c, s.cpus[c], s.b.devs[c], s.log);
      SyncDev(s.b, bs, c);
    }
  }

  lemma UndisturbedLoader(cfg: Config, time: nat, v: B.Dev, time': nat, v': B.Dev,
                          ld: LdPc, i: nat, addedAt: seq<nat>, done: bool)
    requires LoaderOk(cfg, time, v, ld, i, addedAt, done) && Undisturbed(time, v, time', v')
    ensures LoaderOk(cfg, time', v', ld, i, addedAt, done)
  {
  }

  /** A tick finds no CPU between a failed fetch and its test of `done`. */
  lemma SyncDrain(cfg: Config, s: Sys, bs: B.Step)
    requires Inv(cfg, s) && Shape(cfg, s) && Enabled(cfg, s, Sync(bs))
    ensures DrainOk(cfg, B.Next(s.b, bs).time, s.cpus, s.i, s.addedAt, s.mlq)
  {
    if cfg.ncpu >= 1 && s.i == |cfg.jobs| && !M.AllEmpty(s.mlq.queues) {
      var c :| 0 <= c < cfg.ncpu && WillFetch(s.cpus[c], Sealed(cfg, s.b.time, s.i, s.addedAt));
      assert CpuOk(cfg, c, s.cpus[c], s.b.devs[c].pc, s.pc, s.place, s.done);
      SyncDev(s.b, bs, c);
      assert WillFetch(s.cpus[c], Sealed(cfg, B.Next(s.b, bs).time, s.i, s.addedAt));
    }
  }

  lemma SyncInv(cfg: Config, s: Sys, bs: B.Step)
    requires Inv(cfg, s) && Shape(cfg, s) && Enabled(cfg, s, Sync(bs))
    ensures Inv(cfg, Next(cfg, s, Sync(bs)))
  {
    B.StepInv(s.b, bs);
    SyncCpus(cfg, s, bs);
    SyncHolds(cfg, s, bs);
    SyncDev(s.b, bs, cfg.ncpu);
    UndisturbedLoader(cfg, s.b.time, s.b.devs[cfg.ncpu], B.Next(s.b, bs).time, B.Next(s.b, bs).devs[cfg.ncpu],
                      s.ld, s.i, s.addedAt, s.done);
    SyncLog(cfg, s, bs);
    SyncDrain(cfg, s, bs);
  }

  // ----- CPU steps

  /** A device at its slot work has seen as many slots as the clock has ticked. */
  lemma WorkingDev(b: B.State, d: nat)
    requires B.Inv(b) && d < |b.devs| && b.devs[d].pc == B.Work
    ensures b.devs[d].slots == b.time && !B.Detaching(b.devs[d].pc)
  {
    assert B.DevInv(b.time, b.timer, d, b.devs[d]);
  }

  /** CPU `c` is at its slot work and can take a step of its own. */
  predicate AtWork(cfg: Config, s: Sys, c: nat) {
    Dims(cfg, s) && c < cfg.ncpu && s.b.devs[c].pc == B.Work
  }

  /** A step that touches CPU `c` and process `x` keeps the other CPUs' part of the invariant. */
  lemma CpusStep(cfg: Config, cpus: seq<Cpu>, devs: seq<B.Dev>, pc: seq<nat>, place: seq<Place>, done: bool,
                 c: nat, u: Cpu, devs': seq<B.Dev>, x: nat, pcx: nat, pl: Place)
    requires |cpus| == cfg.ncpu && |devs| == |devs'| == cfg.ncpu + 1 && |pc| == |place| == |cfg.jobs|
    requires CpusOk(cfg, cpus, devs, pc, place, done)
    requires c < cfg.ncpu && x < |place| && (place[x].OnCpu? ==> place[x].c == c)
    requires forall d :: 0 <= d < cfg.ncpu && d != c ==> devs'[d].pc == devs[d].pc
    requires CpuOk(cfg, c, u, devs'[c].pc, pc[x := pcx], place[x := pl], done)
    ensures CpusOk(cfg, cpus[c := u], devs', pc[x := pcx], place[x := pl], done)
  {
    forall d | 0 <= d < cfg.ncpu && d != c ensures CpuOk(cfg, d, cpus[d], devs'[d].pc, pc[x := pcx], place[x := pl], done) {
      assert CpuOk(cfg, d, cpus[d], devs[d].pc, pc, place, done);
    }
  }

  /** No instruction of this slot belongs to a process that is not on a CPU waiting for the tick. */
  lemma LogPlace(cfg: Config, time: nat, devs: seq<B.Dev>, pc: seq<nat>, place: seq<Place>, log: seq<Ran>, x: nat, pl: Place)
    requires |devs| == cfg.ncpu + 1 && |pc| == |place| == |cfg.jobs| && x < |place|
    requires LogOk(cfg, time, devs, pc, place, log)
    requires place[x].OnCpu? ==> place[x].c < cfg.ncpu && devs[place[x].c].pc == B.Work
    ensures LogOk(cfg, time, devs, pc, place[x := pl], log)
  {
    forall k | 0 <= k < |log| ensures EntryOk(cfg, time, devs, place[x := pl], log[k]) {
      assert EntryOk(cfg, time, devs, place, log[k]);
    }
  }

  /** A process on a CPU at its slot work has not run in this slot. */
  lemma NotYetRun(cfg: Config, time: nat, devs: seq<B.Dev>, pc: seq<nat>, place: seq<Place>, log: seq<Ran>, x: nat)
    requires |devs| == cfg.ncpu + 1 && |pc| == |place| == |cfg.jobs| && x < |place|
    requires LogOk(cfg, time, devs, pc, place, log)
    requires place[x].OnCpu? && place[x].c < cfg.ncpu && devs[place[x].c].pc == B.Work
    ensures forall k :: 0 <= k < |log| && log[k].proc == x ==> log[k].time < time
  {
    forall k | 0 <= k < |log| && log[k].proc == x ensures log[k].time < time {
      assert EntryOk(cfg, time, devs, place, log[k]);
    }
  }

  lemma LogBarred(cfg: Config, b: B.State, pc: seq<nat>, place: seq<Place>, log: seq<Ran>, d: nat, o: Outcome)
    requires |b.devs| == cfg.ncpu + 1 && |pc| == |place| == |cfg.jobs| && d < |b.devs|
    requires LogOk(cfg, b.time, b.devs, pc, place, log) && b.devs[d].pc == B.Work
    ensures LogOk(cfg, b.time, Barred(b, d, o).devs, pc, place, log)
  {
    forall k | 0 <= k < |log| ensures EntryOk(cfg, b.time, Barred(b, d, o).devs, place, log[k]) {
      assert EntryOk(cfg, b.time, b.devs, place, log[k]);
    }
  }

  /** A step of CPU `c` that logs at most an instruction of its own process keeps the other CPUs' holds. */
  lemma HoldsStep(cfg: Config, cpus: seq<Cpu>, devs: seq<B.Dev>, log: seq<Ran>,
                  c: nat, u: Cpu, devs': seq<B.Dev>, own: seq<Ran>)
    requires |cpus| == cfg.ncpu && |devs| == |devs'| == cfg.ncpu + 1 && c < cfg.ncpu
    requires HoldsOk(cfg, cpus, devs, log)
    requires forall d :: 0 <= d < cfg.ncpu && d != c ==> devs'[d] == devs[d]
    requires forall d, k :: 0 <= d < cfg.ncpu && d != c && 0 <= k < |own| ==> cpus[d].proc != Some(own[k].proc)
    requires HoldOk(cfg, c, u, devs'[c], log + own)
    ensures HoldsOk(cfg, cpus[c := u], devs', log + own)
  {
    forall d | 0 <= d < cfg.ncpu && d != c ensures HoldOk(cfg, d, cpus[d], devs'[d], log + own) {
      assert HoldOk(cfg, d, cpus[d], devs[d], log);
    }
  }

  /** CPU `c` holds the queued process `x`, and the queues are `m`. */
  lemma HoldInv(cfg: Config, s: Sys, c: nat, x: nat, m: M.Mlq)
    requires Inv(cfg, s) && AtWork(cfg, s, c) && M.Valid(m)
    requires s.cpus[c].proc.None? && s.cpus[c].pc != Stopped && s.cpus[c].timeLeft == 0
    requires x < |s.place| && s.place[x] == Queued && QueuesOk(cfg, m, s.place[x := OnCpu(c)])
    ensures Inv(cfg, s.(mlq := m, place := s.place[x := OnCpu(c)],
                        cpus := s.cpus[c := s.cpus[c].(pc := Check, proc := Some(x))]))
  {
    var u := s.cpus[c].(pc := Check, proc := Some(x));
    CpusStep(cfg, s.cpus, s.b.devs, s.pc, s.place, s.done, c, u, s.b.devs, x, s.pc[x], OnCpu(c));
    assert s.pc[x := s.pc[x]] == s.pc;
    HoldsStep(cfg, s.cpus, s.b.devs, s.log, c, u, s.b.devs, []);
    assert s.log + [] == s.log;
    LogPlace(cfg, s.b.time, s.b.devs, s.pc, s.place, s.log, x, OnCpu(c));
    assert WillFetch(s.cpus[c := u][c], Sealed(cfg, s.b.time, s.i, s.addedAt));
  }

  lemma TakeNothingInv(cfg: Config, s: Sys, c: nat)
    requires Inv(cfg, s) && Shape(cfg, s) && AtWork(cfg, s, c)
    requires s.cpus[c].proc.None? && s.cpus[c].pc == Fetch && M.AllEmpty(s.mlq.queues)
    ensures Inv(cfg, Take(cfg, s, c))
  {
    var s' := Take(cfg, s, c);
    forall d | 0 <= d < cfg.ncpu ensures CpuOk(cfg, d, s'.cpus[d], s.b.devs[d].pc, s.pc, s.place, s.done) {
      assert CpuOk(cfg, d, s.cpus[d], s.b.devs[d].pc, s.pc, s.place, s.done);
    }
  }

  lemma TakeInv(cfg: Config, s: Sys, c: nat)
    requires Inv(cfg, s) && Shape(cfg, s) && AtWork(cfg, s, c)
    requires s.cpus[c].proc.None? && (s.cpus[c].pc == Fetch || !M.AllEmpty(s.mlq.queues))
    ensures Inv(cfg, Take(cfg, s, c))
  {
    assert CpuOk(cfg, c, s.cpus[c], s.b.devs[c].pc, s.pc, s.place, s.done);
    if M.AllEmpty(s.mlq.queues) {
      TakeNothingInv(cfg, s, c);
    } else {
      QueuesTake(cfg, s.mlq, s.place, c);
      HoldInv(cfg, s, c, M.Get(s.mlq).1.value, M.Get(s.mlq).0);
    }
  }

  lemma ReleasePlaces(cfg: Config, cpus: seq<Cpu>, i: nat, pc: seq<nat>, place: seq<Place>, c: nat, x: nat, u: Cpu, pl: Place)
    requires |cpus| == cfg.ncpu && |pc| == |place| == |cfg.jobs| && c < cfg.ncpu && x < |place|
    requires PlacesOk(cfg, cpus, i, pc, place) && place[x] == OnCpu(c) && cpus[c].proc == Some(x)
    requires pl == Finished || pl == Queued || pl == Dropped
    requires pl == Finished ==> pc[x] == Size(cfg, x)
    requires pl == Queued ==> pc[x] != Size(cfg, x)
    ensures PlacesOk(cfg, cpus[c := u], i, pc, place[x := pl])
  {
  }

  /** The process of CPU `c` leaves it for `pl`, in the queues `m`. */
  lemma ReleaseInv(cfg: Config, s: Sys, c: nat, pl: Place, m: M.Mlq)
    requires Inv(cfg, s) && AtWork(cfg, s, c) && s.cpus[c].proc.Some? && M.Valid(m)
    requires pl == Finished || pl == Queued || pl == Dropped
    requires s.cpus[c].proc.value < |s.pc|
    requires pl == Finished ==> s.pc[s.cpus[c].proc.value] == Size(cfg, s.cpus[c].proc.value)
    requires pl == Queued ==> s.pc[s.cpus[c].proc.value] != Size(cfg, s.cpus[c].proc.value)
    requires QueuesOk(cfg, m, s.place[s.cpus[c].proc.value := pl])
    ensures Inv(cfg, s.(mlq := m, place := s.place[s.cpus[c].proc.value := pl],
                        cpus := s.cpus[c := s.cpus[c].(pc := Fetch, proc := None, timeLeft := 0)]))
  {
    var x := s.cpus[c].proc.value;
    var u := s.cpus[c].(pc := Fetch, proc := None, timeLeft := 0);
    assert CpuOk(cfg, c, s.cpus[c], s.b.devs[c].pc, s.pc, s.place, s.done);
    CpusStep(cfg, s.cpus, s.b.devs, s.pc, s.place, s.done, c, u, s.b.devs, x, s.pc[x], pl);
    assert s.pc[x := s.pc[x]] == s.pc;
    ReleasePlaces(cfg, s.cpus, s.i, s.pc, s.place, c, x, u, pl);
    HoldsStep(cfg, s.cpus, s.b.devs, s.log, c, u, s.b.devs, []);
    assert s.log + [] == s.log;
    LogPlace(cfg, s.b.time, s.b.devs, s.pc, s.place, s.log, x, pl);
    assert WillFetch(s.cpus[c := u][c], Sealed(cfg, s.b.time, s.i, s.addedAt));
  }

  lemma FinishInv(cfg: Config, s: Sys, c: nat)
    requires Inv(cfg, s) && Shape(cfg, s) && AtWork(cfg, s, c) && s.cpus[c].proc.Some?
    requires s.pc[s.cpus[c].proc.value] == Size(cfg, s.cpus[c].proc.value)
    ensures Inv(cfg, Finish(cfg, s, c))
  {
    assert CpuOk(cfg, c, s.cpus[c], s.b.devs[c].pc, s.pc, s.place, s.done);
    QueuesKept(cfg, s.mlq, s.place, s.cpus[c].proc.value, Finished);
    ReleaseInv(cfg, s, c, Finished, s.mlq);
  }

  lemma PutBackInv(cfg: Config, s: Sys, c: nat)
    requires Inv(cfg, s) && Shape(cfg, s) && AtWork(cfg, s, c) && s.cpus[c].proc.Some?
    requires s.cpus[c].timeLeft == 0 && s.pc[s.cpus[c].proc.value] != Size(cfg, s.cpus[c].proc.value)
    ensures Inv(cfg, PutBack(cfg, s, c))
  {
    var x := s.cpus[c].proc.value;
    assert CpuOk(cfg, c, s.cpus[c], s.b.devs[c].pc, s.pc, s.place, s.done);
    QueuesPut(cfg, s.mlq, s.place, x);
    var prio := cfg.jobs[x].prio;
    ReleaseInv(cfg, s, c, if M.Accepts(s.mlq, prio) then Queued else Dropped, M.Put(s.mlq, x, prio));
  }

  /** The moves of a CPU between its program points that touch no shared data. */
  predicate CanMove(cfg: Config, s: Sys, c: nat, pc: CpuPc, o: Outcome)
    requires AtWork(cfg, s, c)
  {
    var u := s.cpus[c];
    || (pc == Check && o == GoesOn && u.pc == Head && u.proc.Some? && u.timeLeft != 0
        && u.proc.value < |s.pc| && s.pc[u.proc.value] != Size(cfg, u.proc.value))
    || (pc == Head && o == CallsNextSlot && u.proc.None?)
    || (pc == Stopped && o == CallsDetach && u.proc.None? && s.done && u.pc == Check)
  }

  lemma MoveCpuCpus(cfg: Config, s: Sys, c: nat, pc: CpuPc, o: Outcome)
    requires AtWork(cfg, s, c) && CanMove(cfg, s, c, pc, o)
    requires CpusOk(cfg, s.cpus, s.b.devs, s.pc, s.place, s.done)
    requires PlacesOk(cfg, s.cpus, s.i, s.pc, s.place)
    ensures var s' := MoveCpu(s, c, pc).(b := Barred(s.b, c, o));
            && CpusOk(cfg, s'.cpus, s'.b.devs, s'.pc, s'.place, s'.done)
            && PlacesOk(cfg, s'.cpus, s'.i, s'.pc, s'.place)
  {
    var s' := MoveCpu(s, c, pc).(b := Barred(s.b, c, o));
    forall d | 0 <= d < cfg.ncpu ensures CpuOk(cfg, d, s'.cpus[d], s'.b.devs[d].pc, s'.pc, s'.place, s'.done) {
      assert CpuOk(cfg, d, s.cpus[d], s.b.devs[d].pc, s.pc, s.place, s.done);
    }
  }

  /** Only a CPU that found the queues empty after the last tick stops, so it is not the one a process waits for. */
  lemma MoveCpuDrain(cfg: Config, s: Sys, c: nat, pc: CpuPc)
    requires Inv(cfg, s) && c < cfg.ncpu
    requires pc == Stopped ==> s.cpus[c].proc.None? && s.done && s.cpus[c].pc == Check
    requires pc == Check ==> s.cpus[c].proc.Some?
    ensures DrainOk(cfg, s.b.time, MoveCpu(s, c, pc).cpus, s.i, s.addedAt, s.mlq)
  {
    var s' := MoveCpu(s, c, pc);
    var sealed := Sealed(cfg, s.b.time, s.i, s.addedAt);
    if cfg.ncpu >= 1 && s.i == |cfg.jobs| && !M.AllEmpty(s.mlq.queues) {
      var w :| 0 <= w < cfg.ncpu && WillFetch(s.cpus[w], sealed);
      if pc == Stopped {
        assert w != c;
        assert WillFetch(s'.cpus[w], sealed);
      } else {
        assert WillFetch(s'.cpus[c], sealed);
      }
    }
  }

  lemma BarredInv(b: B.State, d: nat, o: Outcome)
    requires B.Inv(b) && d < |b.devs| && b.devs[d].pc == B.Work
    ensures B.Inv(Barred(b, d, o))
  {
    if o == CallsNextSlot {
      B.MoveInv(b, d, B.LockEvent);
    } else if o == CallsDetach {
      B.MoveInv(b, d, B.LockEventFsh);
    }
  }

  lemma MoveCpuHolds(cfg: Config, s: Sys, c: nat, pc: CpuPc, o: Outcome)
    requires AtWork(cfg, s, c) && CanMove(cfg, s, c, pc, o) && HoldsOk(cfg, s.cpus, s.b.devs, s.log)
    ensures HoldsOk(cfg, MoveCpu(s, c, pc).cpus, Barred(s.b, c, o).devs, s.log)
  {
    var s' := MoveCpu(s, c, pc).(b := Barred(s.b, c, o));
    assert HoldOk(cfg, c, s.cpus[c], s.b.devs[c], s.log);
    HoldsStep(cfg, s.cpus, s.b.devs, s.log, c, s'.cpus[c], s'.b.devs, []);
    assert s.log + [] == s.log;
  }

  lemma MoveCpuInv(cfg: Config, s: Sys, c: nat, pc: CpuPc, o: Outcome)
    requires Inv(cfg, s) && AtWork(cfg, s, c)
    requires CanMove(cfg, s, c, pc, o)
    ensures Inv(cfg, MoveCpu(s, c, pc).(b := Barred(s.b, c, o)))
  {
    BarredInv(s.b, c, o);
    MoveCpuHolds(cfg, s, c, pc, o);
    LogBarred(cfg, s.b, s.pc, s.place, s.log, c, o);
    MoveCpuCpus(cfg, s, c, pc, o);
    MoveCpuDrain(cfg, s, c, pc);
  }

  /** One more instruction of `x`, in a slot in which `x` has not run yet. */
  lemma LogAppend(cfg: Config, time: nat, devs: seq<B.Dev>, pc: seq<nat>, place: seq<Place>, log: seq<Ran>, e: Ran)
    requires |devs| == cfg.ncpu + 1 && |pc| == |place| == |cfg.jobs|
    requires LogOk(cfg, time, devs, pc, place, log)
    requires EntryOk(cfg, time, devs, place, e) && e.time == time && e.ip == pc[e.proc]
    requires forall k :: 0 <= k < |log| && log[k].proc == e.proc ==> log[k].time < time
    ensures LogOk(cfg, time, devs, pc[e.proc := e.ip + 1], place, log + [e])
  {
    var log' := log + [e];
    assert log'[..|log'| - 1] == log;
    assert UpTo(e.ip) + [e.ip] == UpTo(e.ip + 1);
    forall y | 0 <= y < |pc| ensures Trace(log', y) == UpTo(pc[e.proc := e.ip + 1][y]) {
      assert Trace(log, y) == UpTo(pc[y]);
    }
  }

  lemma RunLog(cfg: Config, s: Sys, c: nat)
    requires Shape(cfg, s) && AtWork(cfg, s, c) && s.cpus[c].proc.Some?
    requires s.b.devs[c].slots == s.b.time && s.place[s.cpus[c].proc.value] == OnCpu(c)
    requires LogOk(cfg, s.b.time, s.b.devs, s.pc, s.place, s.log)
    ensures var s' := RunOne(cfg, s, c).(b := Barred(s.b, c, CallsNextSlot));
            LogOk(cfg, s'.b.time, s'.b.devs, s'.pc, s'.place, s'.log)
  {
    var x := s.cpus[c].proc.value;
    var devs' := Barred(s.b, c, CallsNextSlot).devs;
    NotYetRun(cfg, s.b.time, s.b.devs, s.pc, s.place, s.log, x);
    LogBarred(cfg, s.b, s.pc, s.place, s.log, c, CallsNextSlot);
    if s.pc[x] < Size(cfg, x) {
      LogAppend(cfg, s.b.time, devs', s.pc, s.place, s.log, Ran(s.b.time, c, x, s.pc[x]));
    }
  }

  /** One more slot of a quantum. */
  lemma RunQuantum(cfg: Config, u: Cpu, pcx: nat, size: nat, time: nat)
    requires QuantumOk(cfg, u, pcx, size) && u.pc == Check && pcx <= size
    ensures var u' := if u.timeLeft == 0 then u.(timeLeft := cfg.timeSlot, from := pcx, since := time) else u;
            QuantumOk(cfg, u'.(pc := Head, timeLeft := u'.timeLeft - 1), if pcx < size then pcx + 1 else pcx, size)
  {
  }

  lemma RunOneCpus(cfg: Config, s: Sys, c: nat)
    requires Shape(cfg, s) && AtWork(cfg, s, c) && s.cpus[c].proc.Some? && s.cpus[c].pc == Check
    requires CpusOk(cfg, s.cpus, s.b.devs, s.pc, s.place, s.done)
    requires PlacesOk(cfg, s.cpus, s.i, s.pc, s.place)
    ensures var s' := RunOne(cfg, s, c).(b := Barred(s.b, c, CallsNextSlot));
            && CpusOk(cfg, s'.cpus, s'.b.devs, s'.pc, s'.place, s'.done)
            && PlacesOk(cfg, s'.cpus, s'.i, s'.pc, s'.place)
  {
    var s' := RunOne(cfg, s, c).(b := Barred(s.b, c, CallsNextSlot));
    var x := s.cpus[c].proc.value;
    assert CpuOk(cfg, c, s.cpus[c], s.b.devs[c].pc, s.pc, s.place, s.done);
    RunQuantum(cfg, s.cpus[c], s.pc[x], Size(cfg, x), s.b.time);
    assert s'.pc == s.pc[x := s'.pc[x]] && s'.place == s.place[x := s.place[x]];
    CpusStep(cfg, s.cpus, s.b.devs, s.pc, s.place, s.done, c, s'.cpus[c], s'.b.devs, x, s'.pc[x], s.place[x]);
  }

  lemma RunHolds(cfg: Config, s: Sys, c: nat)
    requires Shape(cfg, s) && AtWork(cfg, s, c) && s.cpus[c].proc.Some? && s.cpus[c].pc == Check
    requires s.b.devs[c].slots == s.b.time
    requires CpusOk(cfg, s.cpus, s.b.devs, s.pc, s.place, s.done)
    requires LogOk(cfg, s.b.time, s.b.devs, s.pc, s.place, s.log)
    requires HoldsOk(cfg, s.cpus, s.b.devs, s.log)
    ensures var s' := RunOne(cfg, s, c).(b := Barred(s.b, c, CallsNextSlot)); HoldsOk(cfg, s'.cpus, s'.b.devs, s'.log)
  {
    var s' := RunOne(cfg, s, c).(b := Barred(s.b, c, CallsNextSlot));
    var x := s.cpus[c].proc.value;
    assert CpuOk(cfg, c, s.cpus[c], s.b.devs[c].pc, s.pc, s.place, s.done);
    assert HoldOk(cfg, c, s.cpus[c], s.b.devs[c], s.log);
    forall d | 0 <= d < cfg.ncpu && d != c ensures s.cpus[d].proc != Some(x) {
      assert CpuOk(cfg, d, s.cpus[d], s.b.devs[d].pc, s.pc, s.place, s.done);
    }
    var own := if s.pc[x] < Size(cfg, x) then [Ran(s.b.time, c, x, s.pc[x])] else [];
    assert s'.log == s.log + own;
    HoldsStep(cfg, s.cpus, s.b.devs, s.log, c, s'.cpus[c], s'.b.devs, own);
  }

  lemma RunOneInv(cfg: Config, s: Sys, c: nat)
    requires Inv(cfg, s) && Shape(cfg, s) && AtWork(cfg, s, c) && s.cpus[c].proc.Some? && s.cpus[c].pc == Check
    ensures Inv(cfg, RunOne(cfg, s, c).(b := Barred(s.b, c, CallsNextSlot)))
  {
    var s' := RunOne(cfg, s, c).(b := Barred(s.b, c, CallsNextSlot));
    BarredInv(s.b, c, CallsNextSlot);
    assert CpuOk(cfg, c, s.cpus[c], s.b.devs[c].pc, s.pc, s.place, s.done);
    WorkingDev(s.b, c);
    RunLog(cfg, s, c);
    RunOneCpus(cfg, s, c);
    RunHolds(cfg, s, c);
    assert WillFetch(s'.cpus[c], Sealed(cfg, s.b.time, s.i, s.addedAt));
  }

  lemma IdleActInv(cfg: Config, s: Sys, c: nat)
    requires Inv(cfg, s) && Shape(cfg, s) && AtWork(cfg, s, c) && s.cpus[c].pc == Head && s.cpus[c].proc.None?
    ensures var (s', o) := CpuAct(cfg, s, c); Inv(cfg, s'.(b := Barred(s.b, c, o)))
  {
    if M.AllEmpty(s.mlq.queues) {
      MoveCpuInv(cfg, s, c, Head, CallsNextSlot);
      assert s.cpus[c := s.cpus[c].(pc := Head)] == s.cpus;
    } else {
      TakeInv(cfg, s, c);
    }
  }

  lemma HeadActInv(cfg: Config, s: Sys, c: nat)
    requires Inv(cfg, s) && Shape(cfg, s) && AtWork(cfg, s, c) && s.cpus[c].pc == Head && s.cpus[c].proc.Some?
    ensures var (s', o) := CpuAct(cfg, s, c); Inv(cfg, s'.(b := Barred(s.b, c, o)))
  {
    var u := s.cpus[c];
    if s.pc[u.proc.value] == Size(cfg, u.proc.value) {
      FinishInv(cfg, s, c);
    } else if u.timeLeft == 0 {
      PutBackInv(cfg, s, c);
    } else {
      MoveCpuInv(cfg, s, c, Check, GoesOn);
    }
  }

  lemma CheckActInv(cfg: Config, s: Sys, c: nat)
    requires Inv(cfg, s) && Shape(cfg, s) && AtWork(cfg, s, c) && s.cpus[c].pc == Check
    ensures var (s', o) := CpuAct(cfg, s, c); Inv(cfg, s'.(b := Barred(s.b, c, o)))
  {
    if s.cpus[c].proc.Some? {
      RunOneInv(cfg, s, c);
    } else if s.done {
      MoveCpuInv(cfg, s, c, Stopped, CallsDetach);
    } else {
      MoveCpuInv(cfg, s, c, Head, CallsNextSlot);
    }
  }

  lemma CpuActInv(cfg: Config, s: Sys, c: nat)
    requires Inv(cfg, s) && Shape(cfg, s) && AtWork(cfg, s, c)
    ensures var (s', o) := CpuAct(cfg, s, c); Inv(cfg, s'.(b := Barred(s.b, c, o)))
  {
    assert CpuOk(cfg, c, s.cpus[c], s.b.devs[c].pc, s.pc, s.place, s.done);
    match s.cpus[c].pc
    case Head =>
      if s.cpus[c].proc.None? {
        IdleActInv(cfg, s, c);
      } else {
        HeadActInv(cfg, s, c);
      }
    case Fetch => TakeInv(cfg, s, c);
    case Check => CheckActInv(cfg, s, c);
    case Stopped =>
  }

  // ----- Loader steps

  lemma AddCpus(cfg: Config, s: Sys, pl: Place)
    requires Dims(cfg, s) && s.i < |cfg.jobs| && s.place[s.i] == Unloaded && (pl == Queued || pl == Dropped)
    requires CpusOk(cfg, s.cpus, s.b.devs, s.pc, s.place, s.done)
    ensures CpusOk(cfg, s.cpus, Barred(s.b, cfg.ncpu, CallsNextSlot).devs, s.pc, s.place[s.i := pl], s.done)
  {
    var b' := Barred(s.b, cfg.ncpu, CallsNextSlot);
    forall d | 0 <= d < cfg.ncpu
      ensures CpuOk(cfg, d, s.cpus[d], b'.devs[d].pc, s.pc, s.place[s.i := pl], s.done)
    {
      assert CpuOk(cfg, d, s.cpus[d], s.b.devs[d].pc, s.pc, s.place, s.done);
    }
  }

  /** The CPUs' holds do not depend on the loader's device. */
  lemma LoaderHolds(cfg: Config, s: Sys, o: Outcome)
    requires Dims(cfg, s) && HoldsOk(cfg, s.cpus, s.b.devs, s.log)
    ensures HoldsOk(cfg, s.cpus, Barred(s.b, cfg.ncpu, o).devs, s.log)
  {
    forall d | 0 <= d < cfg.ncpu ensures HoldOk(cfg, d, s.cpus[d], Barred(s.b, cfg.ncpu, o).devs[d], s.log) {
      assert HoldOk(cfg, d, s.cpus[d], s.b.devs[d], s.log);
    }
  }

  /** The load-time law for the next process follows from this one's. */
  lemma AddedOk(cfg: Config, time: nat, v: B.Dev, i: nat, addedAt: seq<nat>)
    requires LoaderOk(cfg, time, v, Adding, i, addedAt, false) && v.slots == time
    ensures LoaderOk(cfg, time, v.(pc := B.LockEvent), Scan, i + 1, addedAt + [time], false)
  {
  }

  lemma AddPlaces(cfg: Config, s: Sys, pl: Place)
    requires Dims(cfg, s) && s.i < |cfg.jobs| && s.place[s.i] == Unloaded && PlacesOk(cfg, s.cpus, s.i, s.pc, s.place)
    requires pl == Dropped || (pl == Queued && cfg.jobs[s.i].prio < M.MAX_PRIO)
    ensures PlacesOk(cfg, s.cpus, s.i + 1, s.pc, s.place[s.i := pl])
  {
  }

  /** After the last process has been added, every CPU that has not stopped will look at the queues again. */
  lemma AddDrain(cfg: Config, s: Sys, m: M.Mlq)
    requires Dims(cfg, s) && !s.done && CpusOk(cfg, s.cpus, s.b.devs, s.pc, s.place, s.done)
    ensures DrainOk(cfg, s.b.time, s.cpus, s.i + 1, s.addedAt + [s.b.time], m)
  {
    if cfg.ncpu >= 1 {
      assert CpuOk(cfg, 0, s.cpus[0], s.b.devs[0].pc, s.pc, s.place, s.done);
      assert WillFetch(s.cpus[0], Sealed(cfg, s.b.time, s.i + 1, s.addedAt + [s.b.time]));
    }
  }

  lemma AddInv(cfg: Config, s: Sys)
    requires Inv(cfg, s) && Shape(cfg, s) && s.ld == Adding
    ensures Inv(cfg, Add(cfg, s).(b := Barred(s.b, cfg.ncpu, CallsNextSlot)))
  {
    var m, pl := Add(cfg, s).mlq, Add(cfg, s).place[s.i];
    BarredInv(s.b, cfg.ncpu, CallsNextSlot);
    WorkingDev(s.b, cfg.ncpu);
    QueuesPut(cfg, s.mlq, s.place, s.i);
    AddPlaces(cfg, s, pl);
    AddCpus(cfg, s, pl);
    AddedOk(cfg, s.b.time, s.b.devs[cfg.ncpu], s.i, s.addedAt);
    AddDrain(cfg, s, m);
    LoaderHolds(cfg, s, CallsNextSlot);
    LogPlace(cfg, s.b.time, s.b.devs, s.pc, s.place, s.log, s.i, pl);
    LogBarred(cfg, s.b, s.pc, s.place[s.i := pl], s.log, cfg.ncpu, CallsNextSlot);
  }

  /** A loader step that touches only its own locals, the flag `done` and its device. */
  lemma LdMoveInv(cfg: Config, s: Sys, ld: LdPc, done: bool, o: Outcome)
    requires Inv(cfg, s) && s.b.devs[cfg.ncpu].pc == B.Work && (s.done ==> done)
    requires LoaderOk(cfg, s.b.time, Barred(s.b, cfg.ncpu, o).devs[cfg.ncpu], ld, s.i, s.addedAt, done)
    ensures Inv(cfg, s.(ld := ld, done := done, b := Barred(s.b, cfg.ncpu, o)))
  {
    var s' := s.(ld := ld, done := done, b := Barred(s.b, cfg.ncpu, o));
    BarredInv(s.b, cfg.ncpu, o);
    forall d | 0 <= d < cfg.ncpu ensures CpuOk(cfg, d, s'.cpus[d], s'.b.devs[d].pc, s'.pc, s'.place, s'.done) {
      assert CpuOk(cfg, d, s.cpus[d], s.b.devs[d].pc, s.pc, s.place, s.done);
    }
    LogBarred(cfg, s.b, s.pc, s.place, s.log, cfg.ncpu, o);
    LoaderHolds(cfg, s, o);
  }

  /** The loader's decision at its loop heads keeps the load-time law within reach. */
  lemma ScanOk(cfg: Config, time: nat, v: B.Dev, i: nat, addedAt: seq<nat>)
    requires LoaderOk(cfg, time, v, Scan, i, addedAt, false)
    requires v.pc == B.Work && v.slots == time
    ensures i == |cfg.jobs| ==> LoaderOk(cfg, time, v.(pc := B.LockEventFsh), Exited, i, addedAt, true)
    ensures i < |cfg.jobs| && time < cfg.jobs[i].start ==> LoaderOk(cfg, time, v.(pc := B.LockEvent), Scan, i, addedAt, false)
    ensures i < |cfg.jobs| && time >= cfg.jobs[i].start ==> LoaderOk(cfg, time, v, Adding, i, addedAt, false)
  {
  }

  lemma LdScanInv(cfg: Config, s: Sys)
    requires Inv(cfg, s) && Shape(cfg, s) && s.b.devs[cfg.ncpu].pc == B.Work && s.ld == Scan
    ensures var (s', o) := LdAct(cfg, s); Inv(cfg, s'.(b := Barred(s.b, cfg.ncpu, o)))
  {
    WorkingDev(s.b, cfg.ncpu);
    ScanOk(cfg, s.b.time, s.b.devs[cfg.ncpu], s.i, s.addedAt);
    if s.i == |cfg.jobs| {
      LdMoveInv(cfg, s, Exited, true, CallsDetach);
    } else if s.b.time < cfg.jobs[s.i].start {
      LdMoveInv(cfg, s, Scan, s.done, CallsNextSlot);
    } else {
      LdMoveInv(cfg, s, Adding, s.done, GoesOn);
    }
  }

  lemma LdActInv(cfg: Config, s: Sys)
    requires Inv(cfg, s) && Shape(cfg, s) && s.b.devs[cfg.ncpu].pc == B.Work
    ensures var (s', o) := LdAct(cfg, s); Inv(cfg, s'.(b := Barred(s.b, cfg.ncpu, o)))
  {
    match s.ld
    case Scan => LdScanInv(cfg, s);
    case Adding => AddInv(cfg, s);
    case Exited =>
  }

  lemma ActInv(cfg: Config, s: Sys, d: nat)
    requires Inv(cfg, s) && Shape(cfg, s) && Enabled(cfg, s, Act(d))
    ensures Inv(cfg, Next(cfg, s, Act(d)))
  {
    if d < cfg.ncpu {
      CpuActInv(cfg, s, d);
    } else {
      LdActInv(cfg, s);
    }
  }

  /** Every step of every thread keeps the invariant. */
  lemma StepInv(cfg: Config, s: Sys, step: Step)
    requires Inv(cfg, s) && Shape(cfg, s) && Enabled(cfg, s, step)
    ensures Inv(cfg, Next(cfg, s, step))
  {
    match step
    case Sync(bs) => SyncInv(cfg, s, bs);
    case Act(d) => ActInv(cfg, s, d);
  }
}
