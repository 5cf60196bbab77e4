/** The scheduler of src/sched.c: an array of priority queues and a cursor, updated in place. */
module Scheduler {
  import opened Options
  import opened ProcQueue
  import opened MultiLevelQueue

  class Scheduler {
    var current_prio: nat
    const mlq_ready_queue: seq<Queue>
    ghost const Repr: set<object>

    ghost predicate Separate()
    {
      && |mlq_ready_queue| == MAX_PRIO
      && this in Repr
      && (forall p :: 0 <= p < MAX_PRIO ==> mlq_ready_queue[p] in Repr && mlq_ready_queue[p].proc in Repr)
      && (forall p, q :: 0 <= p < q < MAX_PRIO ==>
            mlq_ready_queue[p] != mlq_ready_queue[q] && mlq_ready_queue[p].proc != mlq_ready_queue[q].proc)
    }

    ghost predicate WellFormed()
      reads Repr
    {
      && Separate()
      && current_prio < MAX_PRIO
      && (forall p :: 0 <= p < MAX_PRIO ==> mlq_ready_queue[p].Valid())
    }

    /** The value the heap structure stands for. */
    ghost function State(): (m: Mlq)
      requires WellFormed()
      reads Repr
      ensures Sized(m)
    {
      Mlq(current_prio,
          seq(MAX_PRIO, p requires 0 <= p < MAX_PRIO && WellFormed() reads Repr => mlq_ready_queue[p].slots),
          seq(MAX_PRIO, p requires 0 <= p < MAX_PRIO && WellFormed() reads Repr => mlq_ready_queue[p].Contents()))
    }

    ghost predicate Valid()
      reads Repr
    {
      WellFormed() && MultiLevelQueue.Valid(State())
    }

    /** `init_scheduler`. */
    constructor ()
      ensures Valid() && State() == Init() && fresh(Repr)
      ensures State().cur == 0 && AllEmpty(State().queues) && forall p :: 0 <= p < MAX_PRIO ==> State().slots[p] == 0
    {
      current_prio := 0;
      var queues: seq<Queue> := [];
      ghost var repr: set<object> := {};
      while |queues| < MAX_PRIO
        invariant |queues| <= MAX_PRIO && fresh(repr)
        invariant forall p :: 0 <= p < |queues| ==>
                    && queues[p] in repr && queues[p].proc in repr
                    && queues[p].Valid() && queues[p].Contents() == [] && queues[p].slots == 0
        invariant forall p, q :: 0 <= p < q < |queues| ==> queues[p] != queues[q] && queues[p].proc != queues[q].proc
        decreases MAX_PRIO - |queues|
      {
        var q := new Queue();
        queues := queues + [q];
        repr := repr + {q, q.proc};
      }
      mlq_ready_queue := queues;
      Repr := repr + {this};
      new;
      assert WellFormed();
      assert State() == Init();
    }

    /** `queue_empty`: true when it returns 1. */
    method QueueEmpty() returns (e: bool)
      requires Valid()
      ensures e <==> AllEmpty(State().queues)
    {
      var prio := 0;
      while prio < MAX_PRIO
        invariant prio <= MAX_PRIO
        invariant forall p :: 0 <= p < prio ==> State().queues[p] == []
      {
        var empty := mlq_ready_queue[prio].Empty();
        assert State().queues[prio] == mlq_ready_queue[prio].Contents();
        if !empty {
          return false;
        }
        prio := prio + 1;
      }
      e := true;
    }

    method ResetSlots()
      requires WellFormed()
      modifies Repr
      ensures WellFormed()
      ensures State() == Mlq(0, NoSlots(), old(State().queues))
    {
      var prio := 0;
      while prio < MAX_PRIO
        invariant prio <= MAX_PRIO && WellFormed() && current_prio == old(current_prio)
        invariant forall p :: 0 <= p < prio ==> mlq_ready_queue[p].slots == 0
        invariant State().queues == old(State().queues)
      {
        label L:
        mlq_ready_queue[prio].slots := 0;
        assert forall p :: 0 <= p < MAX_PRIO ==>
          mlq_ready_queue[p].Contents() == State().queues[p] == old@L(State().queues[p]);
        prio := prio + 1;
      }
      current_prio := 0;
      assert State().slots == NoSlots();
    }

    /** The critical section of `get_mlq_proc`: dequeue from the queue under the cursor and count its slot. */
    method ServeCurrent() returns (r: Option<nat>)
      requires WellFormed() && State().queues[State().cur] != []
      modifies Repr
      ensures WellFormed()
      ensures var m := old(State());
              && State() == m.(slots := m.slots[m.cur := m.slots[m.cur] + 1], queues := m.queues[m.cur := m.queues[m.cur][1..]])
              && r == Some(m.queues[m.cur][0])
    {
      ghost var m := State();
      var q := mlq_ready_queue[current_prio];
      assert m.queues[m.cur] == q.Contents();
      r := q.Dequeue();
      q.slots := q.slots + 1;
      assert State().queues == m.queues[m.cur := m.queues[m.cur][1..]];
      assert State().slots == m.slots[m.cur := m.slots[m.cur] + 1];
    }

    /** The part of the selection loop that moves the cursor on and starts a new round at priority 0. */
    method NextQueue()
      requires WellFormed()
      modifies Repr
      ensures WellFormed() && State() == Skip(old(State()))
    {
      ghost var m := State();
      current_prio := (current_prio + 1) % MAX_PRIO;
      assert State().queues == m.queues && State().slots == m.slots;
      if current_prio == 0 {
        ResetSlots();
      }
    }

    /** One turn of the loop of `get_mlq_proc`: serve the queue under the cursor, or pass it. */
    method Turn() returns (r: Option<nat>)
      requires Valid() && !AllEmpty(State().queues)
      modifies Repr
      ensures Valid()
      ensures r.Some? ==> (State(), r) == Get(old(State())) && old(Turns(State())) == 1
      ensures r.None? ==> State().queues == old(State().queues)
                          && Get(State()) == Get(old(State())) && Turns(State()) == old(Turns(State())) - 1
    {
      ghost var before := State();
      var designated_slots := MAX_PRIO - current_prio;
      var q := mlq_ready_queue[current_prio];
      assert before.queues[before.cur] == q.Contents() && before.slots[before.cur] == q.slots;
      if q.size != 0 && q.slots != designated_slots {
        GetAtTurn(before);
        GetValid(before);
        r := ServeCurrent();
      } else {
        SkipKeepsGet(before);
        NextQueue();
        r := None;
      }
    }

    /** `get_mlq_proc`. `turns` counts the turns of its `while (1)` loop. */
    method GetProc() returns (r: Option<nat>, ghost turns: nat)
      requires Valid()
      modifies Repr
      ensures Valid()
      ensures (State(), r) == Get(old(State()))
      ensures turns == if r.None? then 0 else old(Turns(State()))
    {
      turns := 0;
      ghost var m, now := State(), State();
      var empty := QueueEmpty();
      if empty {
        return None, 0;
      }
      while true
        invariant Valid() && State() == now && !AllEmpty(now.queues)
        invariant Get(now) == Get(m) && turns + Turns(now) == Turns(m)
        decreases Turns(now)
      {
        r := Turn();
        turns := turns + 1;
        if r.Some? {
          return;
        }
        now := State();
      }
    }

    /** `put_mlq_proc` and `add_mlq_proc`, whose bodies are the same. */
    method PutProc(x: nat, prio: nat)
      requires Valid()
      modifies Repr
      ensures Valid() && State() == Put(old(State()), x, prio)
    {
      if prio >= MAX_PRIO {
        return;
      }
      ghost var before := State();
      assert before.queues[prio] == mlq_ready_queue[prio].Contents();
      mlq_ready_queue[prio].Enqueue(x);
      assert State() == Put(before, x, prio);
      PutValid(before, x, prio);
    }
  }
}
