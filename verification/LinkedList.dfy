/** Singly linked lists as the memory manager builds them (`rg_next`, `pg_next`, `fp_next`). */
module LinkedList {
  import opened Sequences

  class Node<T> {
    var val: T
    var next: Node?<T>

    constructor (val: T, next: Node?<T>)
      ensures this.val == val && this.next == next
    {
      this.val, this.next := val, next;
    }
  }

  /** The node at a position, null behind the last one. */
  ghost function At<T>(nodes: seq<Node<T>>, k: nat): Node?<T> {
    if k < |nodes| then nodes[k] else null
  }

  /** Following `next` from `head` visits exactly `nodes`, in order, and ends; their contents are `vals`. */
  ghost predicate Linked<T>(head: Node?<T>, nodes: seq<Node<T>>, vals: seq<T>)
    reads nodes
  {
    && head == At(nodes, 0)
    && |vals| == |nodes|
    && (forall k {:trigger nodes[k].next} :: 0 <= k < |nodes| ==> nodes[k].next == At(nodes, k + 1))
    && (forall k {:trigger nodes[k].val} :: 0 <= k < |nodes| ==> nodes[k].val == vals[k])
    && NoDup(nodes)
  }

  /** Leaving out one node keeps the others distinct. */
  lemma Without<T>(nodes: seq<Node<T>>, k: nat)
    requires k < |nodes| && NoDup(nodes)
    ensures NoDup(nodes[..k] + nodes[k + 1..])
  {
  }
}
