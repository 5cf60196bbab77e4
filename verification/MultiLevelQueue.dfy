/**
The multi-level queue as a value, with `get_proc` and `put_proc` in closed form.
`Scheduler.dfy` proves that the loops of src/sched.c compute these functions.
*/
module MultiLevelQueue {
  import opened Options
  import opened ProcQueue

  const MAX_PRIO: nat := 140

  /** The cursor `current_prio`, and per priority the slots used in this round and the queue. */
  datatype Mlq = Mlq(cur: nat, slots: seq<nat>, queues: seq<seq<nat>>)

  function Quota(p: nat): nat
    requires p <= MAX_PRIO
  {
    MAX_PRIO - p
  }

  predicate Sized(m: Mlq) {
    m.cur < MAX_PRIO && |m.slots| == MAX_PRIO && |m.queues| == MAX_PRIO
  }

  /** No queue is over its quota, queues beyond the cursor have not been served in this round. */
  predicate Valid(m: Mlq) {
    && Sized(m)
    && (forall p :: 0 <= p < MAX_PRIO ==> m.slots[p] <= Quota(p))
    && (forall p :: m.cur < p < MAX_PRIO ==> m.slots[p] == 0)
    && (forall p :: 0 <= p < MAX_PRIO ==> |m.queues[p]| < MAX_QUEUE_SIZE)
  }

  /** The slot counters after `reset_slots`. */
  function NoSlots(): (slots: seq<nat>)
    ensures |slots| == MAX_PRIO
    ensures forall p :: 0 <= p < MAX_PRIO ==> slots[p] == 0
  {
    seq(MAX_PRIO, _ => 0)
  }

  function Init(): Mlq {
    Mlq(0, NoSlots(), seq(MAX_PRIO, _ => []))
  }

  predicate AllEmpty(queues: seq<seq<nat>>) {
    forall p :: 0 <= p < |queues| ==> queues[p] == []
  }

  /** The least non-empty priority from `from` on, or the number of queues if there is none. */
  function LeastNonEmpty(queues: seq<seq<nat>>, from: nat): (p: nat)
    requires from <= |queues|
    ensures from <= p <= |queues|
    ensures p < |queues| ==> queues[p] != []
    ensures forall q :: from <= q < p ==> queues[q] == []
    decreases |queues| - from
  {
    if from == |queues| || queues[from] != [] then from else LeastNonEmpty(queues, from + 1)
  }

  /** The queue under the cursor can be served. */
  predicate HasTurn(m: Mlq)
    requires Sized(m)
  {
    m.queues[m.cur] != [] && m.slots[m.cur] < Quota(m.cur)
  }

  /** Nothing can be served in what is left of this round. */
  predicate Wraps(m: Mlq)
    requires Sized(m)
  {
    !HasTurn(m) && LeastNonEmpty(m.queues, m.cur + 1) == MAX_PRIO
  }

  /** The priority that `get_proc` serves. */
  function Choice(m: Mlq): (p: nat)
    requires Sized(m) && !AllEmpty(m.queues)
    ensures p < MAX_PRIO && m.queues[p] != []
  {
    if HasTurn(m) then m.cur
    else if !Wraps(m) then LeastNonEmpty(m.queues, m.cur + 1)
    else LeastNonEmpty(m.queues, 0)
  }

  /** `get_proc` in closed form: serve the chosen queue, in a fresh round if this one is over. */
  function Get(m: Mlq): (r: (Mlq, Option<nat>))
    requires Sized(m)
  {
    if AllEmpty(m.queues) then (m, None) else
      var p := Choice(m);
      var slots := if Wraps(m) then NoSlots() else m.slots;
      (Mlq(p, slots[p := slots[p] + 1], m.queues[p := m.queues[p][1..]]), Some(m.queues[p][0]))
  }

  /** `put_proc` and `add_proc`: dropped when the priority is out of range or nine processes wait there. */
  function Put(m: Mlq, x: nat, prio: nat): Mlq
    requires Sized(m)
  {
    if prio >= MAX_PRIO then m else m.(queues := m.queues[prio := Pushed(m.queues[prio], x)])
  }

  predicate Accepts(m: Mlq, prio: nat)
    requires Sized(m)
  {
    prio < MAX_PRIO && |m.queues[prio]| < MAX_QUEUE_SIZE - 1
  }

  lemma GetValid(m: Mlq)
    requires Valid(m)
    ensures Valid(Get(m).0)
  {
  }

  lemma PutValid(m: Mlq, x: nat, prio: nat)
    requires Valid(m)
    ensures Valid(Put(m, x, prio))
  {
  }

  /** Serving the queue under the cursor, when it can be served, is what `get_proc` does. */
  lemma GetAtTurn(m: Mlq)
    requires Valid(m) && HasTurn(m)
    ensures Get(m) == (m.(slots := m.slots[m.cur := m.slots[m.cur] + 1], queues := m.queues[m.cur := m.queues[m.cur][1..]]),
                       Some(m.queues[m.cur][0]))
  {
  }

  // ----- One turn of the selection loop that serves nobody

  /** The cursor moves on; a wrap to priority 0 starts a new round. */
  function Skip(m: Mlq): Mlq
    requires Sized(m)
  {
    if m.cur + 1 < MAX_PRIO then m.(cur := m.cur + 1) else m.(cur := 0, slots := NoSlots())
  }

  /** How often the selection loop turns before it serves a queue. */
  function Turns(m: Mlq): (n: nat)
    requires Sized(m) && !AllEmpty(m.queues)
    ensures 1 <= n <= 2 * MAX_PRIO - m.cur
  {
    if HasTurn(m) then 1
    else if !Wraps(m) then LeastNonEmpty(m.queues, m.cur + 1) - m.cur + 1
    else MAX_PRIO - m.cur + LeastNonEmpty(m.queues, 0) + 1
  }

  /** Moving the cursor past a queue that cannot be served changes neither the choice nor what follows from it,
      and brings the loop one turn closer to its end. */
  lemma SkipKeepsGet(m: Mlq)
    requires Valid(m) && !AllEmpty(m.queues) && !HasTurn(m)
    ensures Valid(Skip(m)) && Get(Skip(m)) == Get(m)
    ensures Turns(Skip(m)) == Turns(m) - 1
  {
    var m' := Skip(m);
    var up := LeastNonEmpty(m.queues, m.cur + 1);
    if m.cur + 1 < MAX_PRIO {
      assert up == if m.queues[m.cur + 1] != [] then m.cur + 1 else LeastNonEmpty(m.queues, m.cur + 2);
    } else {
      assert LeastNonEmpty(m.queues, 0) == if m.queues[0] != [] then 0 else LeastNonEmpty(m.queues, 1);
      assert Wraps(m);
    }
  }

  // ----- Quotas within a round

  /** Priority `p` can be served in this round. */
  predicate Serviceable(m: Mlq, p: nat)
    requires Sized(m) && p < MAX_PRIO
  {
    m.queues[p] != [] && m.slots[p] < Quota(p)
  }

  /** `get_proc` serves the least priority from the cursor on that can be served in this round. If there is none, it
      starts a new round with the least priority that is not empty. */
  lemma ChoiceIsLeast(m: Mlq)
    requires Valid(m) && !AllEmpty(m.queues)
    ensures Wraps(m) <==> forall q :: m.cur <= q < MAX_PRIO ==> !Serviceable(m, q)
    ensures !Wraps(m) ==> m.cur <= Choice(m) && Serviceable(m, Choice(m))
    ensures !Wraps(m) ==> forall q :: m.cur <= q < Choice(m) ==> !Serviceable(m, q)
    ensures Wraps(m) ==> forall q :: 0 <= q < Choice(m) ==> m.queues[q] == []
  {
    if !Wraps(m) {
      assert Serviceable(m, Choice(m));
    }
  }

  /** What the cursor leaves behind has no claim left in this round, and what is ahead is served in order:
      in a call that does not wrap, every skipped queue is empty or has used its quota. */
  lemma CursorSkipsOnlySpentQueues(m: Mlq, p: nat)
    requires Valid(m) && !AllEmpty(m.queues)
    requires m.cur <= p && (Wraps(m) || p < Choice(m)) && p < MAX_PRIO
    ensures m.queues[p] == [] || m.slots[p] == Quota(p)
  {
  }
}
