/** The array queue of one priority (src/queue.c, MLQ branch). A process is named by its number. */
module ProcQueue {
  import opened Options

  const MAX_QUEUE_SIZE: nat := 10

  // ----- The FIFO it implements: at most nine entries, a tenth is dropped silently

  function Pushed(s: seq<nat>, x: nat): seq<nat> {
    if |s| < MAX_QUEUE_SIZE - 1 then s + [x] else s
  }

  function Popped(s: seq<nat>): (seq<nat>, Option<nat>) {
    if s == [] then (s, None) else (s[1..], Some(s[0]))
  }

  class Queue {
    const proc: array<nat>
    var size: nat
    var slots: nat

    /** The cap below the array's length is what keeps the shift in `Dequeue` inside the array. */
    ghost predicate Valid()
      reads this
    {
      proc.Length == MAX_QUEUE_SIZE && size < MAX_QUEUE_SIZE
    }

    ghost function Contents(): seq<nat>
      requires Valid()
      reads this, proc
    {
      proc[..size]
    }

    constructor ()
      ensures Valid() && fresh(proc) && Contents() == [] && slots == 0
    {
      proc := new nat[MAX_QUEUE_SIZE];
      size, slots := 0, 0;
    }

    method Empty() returns (e: bool)
      requires Valid()
      ensures e <==> Contents() == []
    {
      e := size == 0;
    }

    method Enqueue(x: nat)
      requires Valid()
      modifies this`size, proc
      ensures Valid() && Contents() == Pushed(old(Contents()), x)
    {
      if size < MAX_QUEUE_SIZE - 1 {
        proc[size] := x;
        size := size + 1;
      }
    }

    method Dequeue() returns (r: Option<nat>)
      requires Valid()
      modifies this`size, proc
      ensures Valid() && (Contents(), r) == Popped(old(Contents()))
    {
      if size == 0 {
        return None;
      }
      r := Some(proc[0]);
      var i := 0;
      while i < size
        invariant size == old(size) && 0 <= i <= size
        invariant forall j :: 0 <= j < i ==> proc[j] == old(proc[j + 1])
        invariant forall j :: i <= j < MAX_QUEUE_SIZE ==> proc[j] == old(proc[j])
      {
        proc[i] := proc[i + 1];
        i := i + 1;
      }
      size := size - 1;
      assert Contents() == old(Contents())[1..];
    }
  }

  // ----- First in, first out, over any history

  datatype Op = Enq(x: nat) | Deq

  function Contents(ops: seq<Op>): seq<nat> {
    if ops == [] then [] else
      var s := Contents(ops[..|ops| - 1]);
      match ops[|ops| - 1]
      case Enq(x) => Pushed(s, x)
      case Deq => Popped(s).0
  }

  /** The entries that were not dropped, in the order of their arrival. */
  function Accepted(ops: seq<Op>): seq<nat> {
    if ops == [] then [] else
      var before := ops[..|ops| - 1];
      match ops[|ops| - 1]
      case Enq(x) => if |Contents(before)| == MAX_QUEUE_SIZE - 1 then Accepted(before) else Accepted(before) + [x]
      case Deq => Accepted(before)
  }

  /** The entries that were handed out, in order. */
  function Delivered(ops: seq<Op>): seq<nat> {
    if ops == [] then [] else
      var before := ops[..|ops| - 1];
      match ops[|ops| - 1]
      case Enq(x) => Delivered(before)
      case Deq =>
        match Popped(Contents(before)).1
        case None => Delivered(before)
        case Some(x) => Delivered(before) + [x]
  }

  /** What was accepted is what was handed out followed by what is still queued; never more than nine wait. */
  lemma {:induction false} FirstInFirstOut(ops: seq<Op>)
    ensures Accepted(ops) == Delivered(ops) + Contents(ops)
    ensures |Contents(ops)| <= MAX_QUEUE_SIZE - 1
  {
    if ops != [] {
      FirstInFirstOut(ops[..|ops| - 1]);
    }
  }
}
