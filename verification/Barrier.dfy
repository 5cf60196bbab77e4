/**
The slot barrier between the timer thread and its devices (src/timer.c).

One step of the model is one lock operation, one access to a shared variable or
one condition-variable operation of one thread. Every interleaving is allowed,
and a thread asleep on a condition variable may also wake without a signal.
Memory is sequentially consistent. What a device does between two calls of
`next_slot` is its slot work, here the single program point `Work`.
*/
module Barrier {

  datatype Holder = Free | ByTimer | ByDevice

  /** Program points of a device thread: slot work, `next_slot`, `detach_event`. */
  datatype DevPc =
    | Work
    | LockEvent | SetDone | SignalEvent | UnlockEvent
    | LockTimer | TestDone | EnterWait | Asleep | Relock | UnlockTimer
    | LockEventFsh | SetFsh | SignalFsh | UnlockFsh | Gone

  /** A `timer_id_t` with the program point of the thread that owns it.
      `slots` is history: the number of completed `next_slot` calls. */
  datatype Dev = Dev(pc: DevPc, done: bool, fsh: bool, eventLock: Holder, timerLock: Holder, slots: nat)

  /** Program points of `timer_routine`; `k` in `Timer` is the device it is at. */
  datatype TimerPc =
    | LoopHead
    | TLockEvent | TTest | TEnterWait | TAsleep | TRelock | TCount | TUnlockEvent
    | Tick
    | TLockTimer | TClear | TSignal | TUnlockTimer
    | LoopEnd | TDone

  datatype Timer = Timer(pc: TimerPc, k: nat, fsh: nat, event: nat)

  /** The end of `main`: join the devices, `stop_timer`, join the timer. */
  datatype MainPc = JoinDevices | StopTimer | JoinTimer | MainDone

  datatype State = State(time: nat, timer: Timer, stop: bool, main: MainPc, devs: seq<Dev>)

  /** `BeginWait` and `BeginDetach` end a device's slot work: it calls `next_slot` or `detach_event`. */
  datatype Step =
    | TimerStep
    | DevStep(d: nat)
    | BeginWait(d: nat)
    | BeginDetach(d: nat)
    | SpuriousTimer
    | SpuriousDev(d: nat)
    | MainStep

  predicate IsSpurious(step: Step) {
    step.SpuriousTimer? || step.SpuriousDev?
  }

  predicate Shape(s: State) {
    s.timer.k < |s.devs|
  }

  /** The state in which `main` has attached all `n` devices and started all threads. */
  function Init(n: nat): State
    requires n >= 1
  {
    State(0, Timer(LoopHead, 0, 0, 0), false, JoinDevices,
          seq(n, i => Dev(Work, false, false, Free, Free, 0)))
  }

  // ----- Steps

  predicate AllGone(devs: seq<Dev>) {
    forall d :: 0 <= d < |devs| ==> devs[d].pc == Gone
  }

  /** Can the timer move while it is at device `v`? */
  predicate TimerReady(pc: TimerPc, v: Dev) {
    match pc
    case TLockEvent | TRelock => v.eventLock == Free
    case TLockTimer => v.timerLock == Free
    case TAsleep | TDone => false
    case _ => true
  }

  predicate DevEnabled(v: Dev) {
    match v.pc
    case LockEvent | LockEventFsh => v.eventLock == Free
    case LockTimer | Relock => v.timerLock == Free
    case Work | Asleep | Gone => false
    case _ => true
  }

  predicate MainEnabled(s: State) {
    match s.main
    case JoinDevices => AllGone(s.devs)
    case StopTimer => true
    case JoinTimer => s.timer.pc == TDone
    case MainDone => false
  }

  predicate Enabled(s: State, step: Step)
    requires Shape(s)
  {
    match step
    case TimerStep => TimerReady(s.timer.pc, s.devs[s.timer.k])
    case DevStep(d) => d < |s.devs| && DevEnabled(s.devs[d])
    case BeginWait(d) => d < |s.devs| && s.devs[d].pc == Work
    case BeginDetach(d) => d < |s.devs| && s.devs[d].pc == Work
    case SpuriousTimer => s.timer.pc == TAsleep
    case SpuriousDev(d) => d < |s.devs| && s.devs[d].pc == Asleep
    case MainStep => MainEnabled(s)
  }

  /** The timer thread's own variables after one of its steps. */
  function TimerAfter(t: Timer, v: Dev, n: nat, stop: bool): Timer {
    match t.pc
    case LoopHead => if stop then t.(pc := TDone) else Timer(TLockEvent, 0, 0, 0)
    case TLockEvent => t.(pc := TTest)
    case TRelock => t.(pc := TTest)
    case TTest => t.(pc := if !v.done && !v.fsh then TEnterWait else TCount)
    case TEnterWait => t.(pc := TAsleep)
    case TCount => t.(pc := TUnlockEvent, fsh := t.fsh + (if v.fsh then 1 else 0), event := t.event + 1)
    case TUnlockEvent => if t.k + 1 < n then t.(pc := TLockEvent, k := t.k + 1) else t.(pc := Tick, k := 0)
    case Tick => t.(pc := TLockTimer, k := 0)
    case TLockTimer => t.(pc := TClear)
    case TClear => t.(pc := TSignal)
    case TSignal => t.(pc := TUnlockTimer)
    case TUnlockTimer => if t.k + 1 < n then t.(pc := TLockTimer, k := t.k + 1) else t.(pc := LoopEnd, k := 0)
    case LoopEnd => t.(pc := if t.fsh == t.event then TDone else LoopHead)
    case TAsleep => t
    case TDone => t
  }

  /** The device at the timer's cursor after a step of the timer. */
  function VisitedAfter(t: Timer, v: Dev): Dev {
    match t.pc
    case TLockEvent => v.(eventLock := ByTimer)
    case TRelock => v.(eventLock := ByTimer)
    case TEnterWait => v.(eventLock := Free)
    case TUnlockEvent => v.(eventLock := Free)
    case TLockTimer => v.(timerLock := ByTimer)
    case TClear => v.(done := false)
    case TSignal => if v.pc == Asleep then v.(pc := Relock) else v
    case TUnlockTimer => v.(timerLock := Free)
    case _ => v
  }

  /** A device after one of its own steps inside `next_slot` or `detach_event`. */
  function DevAfter(v: Dev): Dev {
    match v.pc
    case LockEvent => v.(pc := SetDone, eventLock := ByDevice)
    case SetDone => v.(pc := SignalEvent, done := true)
    case SignalEvent => v.(pc := UnlockEvent)
    case UnlockEvent => v.(pc := LockTimer, eventLock := Free)
    case LockTimer => v.(pc := TestDone, timerLock := ByDevice)
    case Relock => v.(pc := TestDone, timerLock := ByDevice)
    case TestDone => v.(pc := if v.done then EnterWait else UnlockTimer)
    case EnterWait => v.(pc := Asleep, timerLock := Free)
    case UnlockTimer => v.(pc := Work, timerLock := Free, slots := v.slots + 1)
    case LockEventFsh => v.(pc := SetFsh, eventLock := ByDevice)
    case SetFsh => v.(pc := SignalFsh, fsh := true)
    case SignalFsh => v.(pc := UnlockFsh)
    case UnlockFsh => v.(pc := Gone, eventLock := Free)
    case _ => v
  }

  /** A signal of device `d` wakes the timer exactly when the timer sleeps on that device. */
  function TimerSignalled(t: Timer, d: nat, pc: DevPc): Timer {
    if (pc == SignalEvent || pc == SignalFsh) && t.pc == TAsleep && t.k == d then t.(pc := TRelock) else t
  }

  function TimerNext(s: State): State
    requires Shape(s)
  {
    var t, v := s.timer, s.devs[s.timer.k];
    State(if t.pc == Tick then s.time + 1 else s.time,
          TimerAfter(t, v, |s.devs|, s.stop), s.stop, s.main, s.devs[t.k := VisitedAfter(t, v)])
  }

  function DevNext(s: State, d: nat): State
    requires Shape(s) && d < |s.devs|
  {
    s.(timer := TimerSignalled(s.timer, d, s.devs[d].pc), devs := s.devs[d := DevAfter(s.devs[d])])
  }

  /** A device whose program point changes and nothing else. */
  function MoveTo(s: State, d: nat, pc: DevPc): State
    requires d < |s.devs|
  {
    s.(devs := s.devs[d := s.devs[d].(pc := pc)])
  }

  function MainNext(s: State): State {
    match s.main
    case JoinDevices => s.(main := StopTimer)
    case StopTimer => s.(main := JoinTimer, stop := true)
    case JoinTimer => s.(main := MainDone)
    case MainDone => s
  }

  function Next(s: State, step: Step): (s': State)
    requires Shape(s) && Enabled(s, step)
    ensures |s'.devs| == |s.devs| && Shape(s')
  {
    match step
    case TimerStep => TimerNext(s)
    case DevStep(d) => DevNext(s, d)
    case BeginWait(d) => MoveTo(s, d, LockEvent)
    case BeginDetach(d) => MoveTo(s, d, LockEventFsh)
    case SpuriousTimer => s.(timer := s.timer.(pc := TRelock))
    case SpuriousDev(d) => MoveTo(s, d, Relock)
    case MainStep => MainNext(s)
  }

  // ----- The invariant

  /** The timer has seen device `d` ready in the current round and has not ticked yet. */
  predicate Collected(t: Timer, d: nat) {
    match t.pc
    case TLockEvent | TTest | TEnterWait | TAsleep | TRelock => d < t.k
    case TCount | TUnlockEvent => d <= t.k
    case Tick => true
    case _ => false
  }

  /** The timer has ticked and has not cleared `done` of device `d` yet. */
  predicate Pending(t: Timer, d: nat) {
    match t.pc
    case TLockTimer | TClear => t.k <= d
    case TSignal | TUnlockTimer => t.k < d
    case _ => false
  }

  predicate TimerHoldsEvent(t: Timer, d: nat) {
    t.k == d && (t.pc.TTest? || t.pc.TEnterWait? || t.pc.TCount? || t.pc.TUnlockEvent?)
  }

  predicate TimerHoldsTimer(t: Timer, d: nat) {
    t.k == d && (t.pc.TClear? || t.pc.TSignal? || t.pc.TUnlockTimer?)
  }

  predicate HoldsEvent(pc: DevPc) {
    pc.SetDone? || pc.SignalEvent? || pc.UnlockEvent? || pc.SetFsh? || pc.SignalFsh? || pc.UnlockFsh?
  }

  predicate HoldsTimer(pc: DevPc) {
    pc.TestDone? || pc.EnterWait? || pc.UnlockTimer?
  }

  /** Inside `next_slot`, after `done` was set. */
  predicate Waiting(pc: DevPc) {
    pc.LockTimer? || pc.TestDone? || pc.EnterWait? || pc.Asleep? || pc.Relock? || pc.UnlockTimer?
  }

  /** Between two `next_slot` calls, or in one but before `done` is set. */
  predicate Busy(pc: DevPc) {
    pc.Work? || pc.LockEvent? || pc.SetDone?
  }

  predicate Detaching(pc: DevPc) {
    pc.LockEventFsh? || pc.SetFsh? || pc.SignalFsh? || pc.UnlockFsh? || pc.Gone?
  }

  predicate LocksOk(t: Timer, d: nat, v: Dev) {
    && !(HoldsEvent(v.pc) && TimerHoldsEvent(t, d))
    && !(HoldsTimer(v.pc) && TimerHoldsTimer(t, d))
    && v.eventLock == (if HoldsEvent(v.pc) then ByDevice else if TimerHoldsEvent(t, d) then ByTimer else Free)
    && v.timerLock == (if HoldsTimer(v.pc) then ByDevice else if TimerHoldsTimer(t, d) then ByTimer else Free)
  }

  predicate FlagsOk(t: Timer, d: nat, v: Dev) {
    && (v.fsh <==> v.pc.SignalFsh? || v.pc.UnlockFsh? || v.pc.Gone?)
    && (Busy(v.pc) || Detaching(v.pc) || v.pc.UnlockTimer? ==> !v.done)
    && (v.pc.SignalEvent? || v.pc.UnlockEvent? ==> v.done && !Collected(t, d) && !Pending(t, d))
    && (v.pc.EnterWait? ==> v.done)
    && (Collected(t, d) || Pending(t, d) ==> v.done || v.fsh)
  }

  /** The device has been released from the previous slot, or is about to be, but has not left `next_slot`. */
  predicate Behind(t: Timer, d: nat, v: Dev) {
    Pending(t, d) || (Waiting(v.pc) && !v.done)
  }

  predicate SlotsOk(time: nat, t: Timer, d: nat, v: Dev) {
    if v.fsh then v.slots <= time else v.slots + (if Behind(t, d, v) then 1 else 0) == time
  }

  predicate WakeupsOk(t: Timer, d: nat, v: Dev) {
    && (t.k == d && t.pc.TEnterWait? ==> !v.done && !v.fsh)
    && (t.k == d && t.pc.TAsleep? && v.done ==> v.pc.SignalEvent?)
    && (t.k == d && t.pc.TAsleep? && v.fsh ==> v.pc.SignalFsh?)
    && (v.pc.Asleep? && !v.done ==> t.k == d && t.pc.TSignal?)
  }

  predicate DevInv(time: nat, t: Timer, d: nat, v: Dev) {
    LocksOk(t, d, v) && FlagsOk(t, d, v) && SlotsOk(time, t, d, v) && WakeupsOk(t, d, v)
  }

  /** How many devices the timer has counted in this round. */
  function Counted(t: Timer, n: nat): nat {
    match t.pc
    case TLockEvent | TTest | TEnterWait | TAsleep | TRelock | TCount => t.k
    case TUnlockEvent => t.k + 1
    case _ => n
  }

  predicate AllFsh(devs: seq<Dev>, m: nat)
    requires m <= |devs|
  {
    forall d :: 0 <= d < m ==> devs[d].fsh
  }

  /** `event` counts the visited devices; `fsh` reaches it only when all of them have detached. */
  predicate CountsOk(t: Timer, devs: seq<Dev>)
    requires t.k < |devs|
  {
    && (!t.pc.LoopHead? && !t.pc.TDone? ==>
          && t.event == Counted(t, |devs|)
          && t.fsh <= t.event
          && (t.fsh == t.event ==> AllFsh(devs, t.event)))
    && (t.pc.TDone? ==> AllFsh(devs, |devs|))
  }

  /** The timer is visiting the devices before the tick of a round. */
  predicate Gathering(pc: TimerPc) {
    pc.TLockEvent? || pc.TTest? || pc.TEnterWait? || pc.TAsleep? || pc.TRelock? || pc.TCount? || pc.TUnlockEvent? || pc.Tick?
  }

  /** Up to the tick the converse holds too: `fsh` counts every visited device that has detached. */
  predicate CountsExact(t: Timer, devs: seq<Dev>) {
    Gathering(t.pc) && t.event <= |devs| && AllFsh(devs, t.event) ==> t.fsh == t.event
  }

  predicate TimerInv(s: State) {
    && s.timer.k < |s.devs|
    && (s.timer.pc.Tick? || s.timer.pc.LoopEnd? ==> s.timer.k == 0)
    && CountsOk(s.timer, s.devs)
    && CountsExact(s.timer, s.devs)
    && (s.stop <==> s.main.JoinTimer? || s.main.MainDone?)
    && (!s.main.JoinDevices? ==> AllGone(s.devs))
    && (s.main.MainDone? ==> s.timer.pc.TDone?)
  }

  ghost predicate Inv(s: State) {
    && TimerInv(s)
    && forall d :: 0 <= d < |s.devs| ==> DevInv(s.time, s.timer, d, s.devs[d])
  }

  lemma InitInv(n: nat)
    requires n >= 1
    ensures Inv(Init(n))
  {
  }

  // ----- Every step keeps it

  /** A timer step keeps the invariant of the device it visits. */
  lemma VisitedStepDev(time: nat, t: Timer, v: Dev, n: nat, stop: bool)
    requires DevInv(time, t, t.k, v) && TimerReady(t.pc, v) && t.pc != Tick
    requires t.pc == LoopEnd ==> t.k == 0
    ensures DevInv(time, TimerAfter(t, v, n, stop), t.k, VisitedAfter(t, v))
  {
  }

  /** A timer step keeps the invariant of the devices it does not visit. */
  lemma UnvisitedStepDev(time: nat, t: Timer, u: Dev, n: nat, stop: bool, d: nat, v: Dev)
    requires DevInv(time, t, d, v) && TimerReady(t.pc, u) && t.pc != Tick
    requires t.pc == LoopEnd ==> t.k == 0
    requires d != t.k && d < n
    ensures DevInv(time, TimerAfter(t, u, n, stop), d, v)
  {
  }

  /** A tick turns every collected device into a pending one. */
  lemma TickDev(time: nat, t: Timer, d: nat, v: Dev)
    requires DevInv(time, t, d, v) && t.pc == Tick
    ensures DevInv(time + 1, t.(pc := TLockTimer, k := 0), d, v)
  {
  }

  /** A device's own step inside `next_slot` or `detach_event` keeps its invariant. */
  lemma OwnStepDev(time: nat, t: Timer, d: nat, v: Dev)
    requires DevInv(time, t, d, v) && DevEnabled(v)
    ensures DevInv(time, TimerSignalled(t, d, v.pc), d, DevAfter(v))
  {
  }

  /** Waking the timer at another device changes nothing for this one. */
  lemma SignalledDev(time: nat, t: Timer, e: nat, pc: DevPc, d: nat, v: Dev)
    requires DevInv(time, t, d, v) && e != d
    ensures DevInv(time, TimerSignalled(t, e, pc), d, v)
  {
  }

  /** Ending the slot work, or waking without a signal, keeps the device's invariant. */
  lemma MovedDev(time: nat, t: Timer, d: nat, v: Dev, pc: DevPc)
    requires DevInv(time, t, d, v)
    requires (v.pc == Work && (pc == LockEvent || pc == LockEventFsh)) || (v.pc == Asleep && pc == Relock)
    ensures DevInv(time, t, d, v.(pc := pc))
  {
  }

  /** What a step must keep for the timer's own invariant: its counters, what detached and what is gone. */
  predicate Grows(s: State, s': State) {
    && |s'.devs| == |s.devs|
    && forall d :: 0 <= d < |s.devs| ==>
         && (s.devs[d].fsh ==> s'.devs[d].fsh)
         && (s.devs[d].pc == Gone ==> s'.devs[d].pc == Gone)
         && (Collected(s.timer, d) ==> s'.devs[d].fsh == s.devs[d].fsh)
  }

  lemma GrowsTimerInv(s: State, s': State)
    requires TimerInv(s) && Grows(s, s')
    requires s'.stop == s.stop && s'.main == s.main
    requires s'.timer == s.timer || (s.timer.pc == TAsleep && s'.timer == s.timer.(pc := TRelock))
    ensures TimerInv(s')
  {
  }

  lemma TimerCounts(t: Timer, devs: seq<Dev>, stop: bool)
    requires t.k < |devs| && CountsOk(t, devs)
    requires stop ==> AllFsh(devs, |devs|)
    ensures var t' := TimerAfter(t, devs[t.k], |devs|, stop); t'.k < |devs| && CountsOk(t', devs)
  {
  }

  lemma TimerCountsExact(t: Timer, devs: seq<Dev>, stop: bool)
    requires t.k < |devs| && CountsOk(t, devs) && CountsExact(t, devs)
    ensures CountsExact(TimerAfter(t, devs[t.k], |devs|, stop), devs)
  {
  }

  /** The timer's counters depend only on the `fsh` flags. */
  lemma CountsOfFlags(t: Timer, devs: seq<Dev>, devs': seq<Dev>)
    requires t.k < |devs| == |devs'| && CountsOk(t, devs) && CountsExact(t, devs)
    requires forall d :: 0 <= d < |devs| ==> devs'[d].fsh == devs[d].fsh
    ensures CountsOk(t, devs') && CountsExact(t, devs')
  {
  }

  lemma TimerStepTimerInv(s: State)
    requires Inv(s) && Enabled(s, TimerStep)
    ensures TimerInv(TimerNext(s))
  {
    var t, s' := s.timer, TimerNext(s);
    if s.stop {
      assert forall d :: 0 <= d < |s.devs| ==> DevInv(s.time, s.timer, d, s.devs[d]);
    }
    TimerCounts(t, s.devs, s.stop);
    TimerCountsExact(t, s.devs, s.stop);
    CountsOfFlags(s'.timer, s.devs, s'.devs);
  }

  lemma TimerStepInv(s: State)
    requires Inv(s) && Enabled(s, TimerStep)
    ensures Inv(TimerNext(s))
  {
    TimerStepTimerInv(s);
    var s', k, n := TimerNext(s), s.timer.k, |s.devs|;
    forall d | 0 <= d < n ensures DevInv(s'.time, s'.timer, d, s'.devs[d]) {
      assert DevInv(s.time, s.timer, d, s.devs[d]);
      if s.timer.pc == Tick {
        TickDev(s.time, s.timer, d, s.devs[d]);
      } else if d == k {
        VisitedStepDev(s.time, s.timer, s.devs[k], n, s.stop);
      } else {
        UnvisitedStepDev(s.time, s.timer, s.devs[k], n, s.stop, d, s.devs[d]);
      }
    }
  }

  lemma DevStepInv(s: State, d: nat)
    requires Inv(s) && Enabled(s, DevStep(d))
    ensures Inv(DevNext(s, d))
  {
    var s' := DevNext(s, d);
    assert DevInv(s.time, s.timer, d, s.devs[d]);
    GrowsTimerInv(s, s');
    forall e | 0 <= e < |s.devs| ensures DevInv(s'.time, s'.timer, e, s'.devs[e]) {
      assert DevInv(s.time, s.timer, e, s.devs[e]);
      if e == d {
        OwnStepDev(s.time, s.timer, d, s.devs[d]);
      } else {
        SignalledDev(s.time, s.timer, d, s.devs[d].pc, e, s.devs[e]);
      }
    }
  }

  lemma MoveInv(s: State, d: nat, pc: DevPc)
    requires Inv(s) && d < |s.devs|
    requires (s.devs[d].pc == Work && (pc == LockEvent || pc == LockEventFsh)) || (s.devs[d].pc == Asleep && pc == Relock)
    ensures Inv(MoveTo(s, d, pc))
  {
    var s' := MoveTo(s, d, pc);
    GrowsTimerInv(s, s');
    forall e | 0 <= e < |s.devs| ensures DevInv(s'.time, s'.timer, e, s'.devs[e]) {
      assert DevInv(s.time, s.timer, e, s.devs[e]);
      if e == d {
        MovedDev(s.time, s.timer, d, s.devs[d], pc);
      }
    }
  }

  lemma MainStepInv(s: State)
    requires Inv(s) && MainEnabled(s)
    ensures Inv(MainNext(s))
  {
    assert forall d :: 0 <= d < |s.devs| ==> DevInv(s.time, s.timer, d, s.devs[d]);
  }

  lemma SpuriousTimerInv(s: State)
    requires Inv(s) && s.timer.pc == TAsleep
    ensures Inv(s.(timer := s.timer.(pc := TRelock)))
  {
    var s' := s.(timer := s.timer.(pc := TRelock));
    GrowsTimerInv(s, s');
    forall d | 0 <= d < |s.devs| ensures DevInv(s'.time, s'.timer, d, s'.devs[d]) {
      assert DevInv(s.time, s.timer, d, s.devs[d]);
    }
  }

  /** Every step of every thread keeps the invariant. */
  lemma StepInv(s: State, step: Step)
    requires Inv(s) && Enabled(s, step)
    ensures Inv(Next(s, step))
  {
    match step
    case TimerStep => TimerStepInv(s);
    case DevStep(d) => DevStepInv(s, d);
    case BeginWait(d) => MoveInv(s, d, LockEvent);
    case BeginDetach(d) => MoveInv(s, d, LockEventFsh);
    case SpuriousDev(d) => MoveInv(s, d, Relock);
    case SpuriousTimer => SpuriousTimerInv(s);
    case MainStep => MainStepInv(s);
  }
}
