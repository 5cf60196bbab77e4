/** The list of recently used pages: `enlist_pgn_node` (src/mm.c) and `find_victim_page` (src/mm-vm.c). */
module Lru {
  import opened Options
  import opened LinkedList

  // ----- The list as a value

  /** The first position of `pgn`, or the length of the list. */
  function Find(list: seq<nat>, pgn: nat): (k: nat)
    ensures k <= |list|
    ensures k < |list| ==> list[k] == pgn
    ensures forall j :: 0 <= j < k ==> list[j] != pgn
  {
    if list == [] || list[0] == pgn then 0 else 1 + Find(list[1..], pgn)
  }

  /** The other pages, in their order. */
  function Others(list: seq<nat>, pgn: nat): seq<nat> {
    var k := Find(list, pgn);
    if k == |list| then list else list[..k] + list[k + 1..]
  }

  /** Move to the front, or enter there. */
  function Touch(list: seq<nat>, pgn: nat): seq<nat> {
    [pgn] + Others(list, pgn)
  }

  lemma TouchFound(list: seq<nat>, pgn: nat, at: nat)
    requires at < |list| && list[at] == pgn && at <= Find(list, pgn)
    ensures at == Find(list, pgn)
    ensures Touch(list, pgn) == [list[at]] + list[..at] + list[at + 1..]
    ensures at == 0 ==> Touch(list, pgn) == list
  {
  }

  // ----- Least recently used, in terms of the history alone

  datatype Event = Accessed(p: nat) | Evicted(p: nat)

  /** The moment of the last access to `p`, or -1 if it has not been accessed since its last eviction. */
  function LastAccess(log: seq<Event>, p: nat): int {
    if log == [] then -1
    else if log[|log| - 1] == Accessed(p) then |log| - 1
    else if log[|log| - 1] == Evicted(p) then -1
    else LastAccess(log[..|log| - 1], p)
  }

  lemma {:induction false} LastAccessBound(log: seq<Event>, p: nat)
    ensures -1 <= LastAccess(log, p) < |log|
  {
    if log != [] {
      LastAccessBound(log[..|log| - 1], p);
    }
  }

  lemma LastAccessStep(log: seq<Event>, e: Event, p: nat)
    ensures LastAccess(log + [e], p) == if e == Accessed(p) then |log| else if e == Evicted(p) then -1 else LastAccess(log, p)
  {
    assert (log + [e])[..|log|] == log;
  }

  /** The list holds exactly the resident pages, each once, the most recently accessed first. */
  ghost predicate Tracks(list: seq<nat>, log: seq<Event>) {
    && (forall j, k :: 0 <= j < k < |list| ==> LastAccess(log, list[j]) > LastAccess(log, list[k]))
    && (forall p: nat :: p in list <==> LastAccess(log, p) >= 0)
  }

  lemma OthersKeepOrder(list: seq<nat>, log: seq<Event>, pgn: nat)
    requires forall j, k :: 0 <= j < k < |list| ==> LastAccess(log, list[j]) > LastAccess(log, list[k])
    ensures var o := Others(list, pgn);
            forall j, k :: 0 <= j < k < |o| ==> LastAccess(log, o[j]) > LastAccess(log, o[k])
  {
  }

  lemma OthersContain(list: seq<nat>, log: seq<Event>, pgn: nat, p: nat)
    requires forall j, k :: 0 <= j < k < |list| ==> LastAccess(log, list[j]) > LastAccess(log, list[k])
    ensures p in Others(list, pgn) <==> p in list && p != pgn
  {
    var k, o := Find(list, pgn), Others(list, pgn);
    if p in list && p != pgn {
      var j :| 0 <= j < |list| && list[j] == p;
      assert o[if j < k then j else j - 1] == p;
    }
    if p in o {
      var j :| 0 <= j < |o| && o[j] == p;
      assert list[if j < k then j else j + 1] == p;
    }
  }

  lemma TouchTracks(list: seq<nat>, log: seq<Event>, pgn: nat)
    requires Tracks(list, log)
    ensures Tracks(Touch(list, pgn), log + [Accessed(pgn)])
  {
    var o, log' := Others(list, pgn), log + [Accessed(pgn)];
    forall p: nat
      ensures LastAccess(log', p) == if p == pgn then |log| else LastAccess(log, p)
      ensures LastAccess(log, p) < |log|
      ensures p in o <==> p in list && p != pgn
    {
      LastAccessStep(log, Accessed(pgn), p);
      LastAccessBound(log, p);
      OthersContain(list, log, pgn, p);
    }
    OthersKeepOrder(list, log, pgn);
    assert forall j :: 0 <= j < |o| ==> o[j] in o;
  }

  /** The last page of the list is resident, and no resident page was accessed before it. */
  lemma LastIsOldest(list: seq<nat>, log: seq<Event>, q: nat)
    requires Tracks(list, log) && list != []
    ensures LastAccess(log, list[|list| - 1]) >= 0
    ensures LastAccess(log, q) >= 0 && q != list[|list| - 1] ==> LastAccess(log, list[|list| - 1]) < LastAccess(log, q)
  {
    assert list[|list| - 1] in list;
    if LastAccess(log, q) >= 0 {
      var j :| 0 <= j < |list| && list[j] == q;
    }
  }

  lemma InFront(list: seq<nat>, log: seq<Event>, p: nat)
    requires Tracks(list, log) && list != []
    ensures p in list[..|list| - 1] <==> p in list && p != list[|list| - 1]
  {
    var last := |list| - 1;
    if p in list[..last] {
      var j :| 0 <= j < last && list[j] == p;
      assert LastAccess(log, list[j]) > LastAccess(log, list[last]);
    }
    if p in list && p != list[last] {
      var j :| 0 <= j < |list| && list[j] == p;
      assert list[..last][j] == p;
    }
  }

  /** Without its last page the list tracks what is left after the eviction. */
  lemma EvictTracks(list: seq<nat>, log: seq<Event>)
    requires Tracks(list, log) && list != []
    ensures Tracks(list[..|list| - 1], log + [Evicted(list[|list| - 1])])
  {
    var v := list[|list| - 1];
    forall p: nat
      ensures LastAccess(log + [Evicted(v)], p) == if p == v then -1 else LastAccess(log, p)
      ensures p in list[..|list| - 1] <==> p in list && p != v
    {
      LastAccessStep(log, Evicted(v), p);
      InFront(list, log, p);
    }
    var front := list[..|list| - 1];
    assert forall j :: 0 <= j < |front| ==> front[j] in front;
  }

  // ----- Histories

  datatype Op = Access(p: nat) | Evict

  /** The list, or the head that points to freed memory: what the eviction of the only page leaves behind. */
  datatype PageList = Usable(list: seq<nat>) | Stale

  /** `find_victim_page` on a usable list; it does nothing to an empty one. */
  function Evicting(list: seq<nat>): PageList {
    if |list| == 1 then Stale else if list == [] then Usable([]) else Usable(list[..|list| - 1])
  }

  /** The list and the event log after a history. Nothing is said about what follows on a stale list. */
  function Run(ops: seq<Op>): (PageList, seq<Event>) {
    if ops == [] then (Usable([]), []) else
      var (lru, log) := Run(ops[..|ops| - 1]);
      match lru
      case Stale => (Stale, log)
      case Usable(list) =>
        match ops[|ops| - 1]
        case Access(p) => (Usable(Touch(list, p)), log + [Accessed(p)])
        case Evict => (Evicting(list), if list == [] then log else log + [Evicted(list[|list| - 1])])
  }

  /** Exactly one page is resident, as far as the accesses and evictions so far tell. */
  ghost predicate OnePageResident(log: seq<Event>) {
    exists v: nat :: LastAccess(log, v) >= 0 && forall p: nat :: LastAccess(log, p) >= 0 ==> p == v
  }

  lemma OnePageIsOneNode(list: seq<nat>, log: seq<Event>)
    requires Tracks(list, log)
    ensures |list| == 1 <==> OnePageResident(log)
  {
    if |list| == 1 {
      assert list[0] in list;
    } else if |list| >= 2 {
      assert list[0] in list && list[1] in list;
      assert LastAccess(log, list[0]) > LastAccess(log, list[1]);
    }
  }

  /** Every eviction of the history finds the list empty or at least two pages resident. */
  ghost predicate KeepsOnePage(ops: seq<Op>) {
    forall k :: 0 <= k < |ops| && ops[k] == Evict ==> !OnePageResident(Run(ops[..k]).1)
  }

  lemma KeepsOnePageStep(ops: seq<Op>)
    requires ops != []
    ensures var before := ops[..|ops| - 1];
            KeepsOnePage(ops) <==>
            KeepsOnePage(before) && (ops[|ops| - 1] == Evict ==> !OnePageResident(Run(before).1))
  {
    var before := ops[..|ops| - 1];
    forall k | 0 <= k < |before| ensures before[k] == ops[k] && before[..k] == ops[..k] {
    }
  }

  /** After any history the list is usable if and only if no eviction met a list of one page; it then holds
      exactly the resident pages, each once, the most recently accessed first. */
  lemma {:induction false} RunTracks(ops: seq<Op>)
    ensures Run(ops).0.Usable? <==> KeepsOnePage(ops)
    ensures Run(ops).0.Usable? ==> Tracks(Run(ops).0.list, Run(ops).1)
  {
    if ops != [] {
      var before := ops[..|ops| - 1];
      RunTracks(before);
      KeepsOnePageStep(ops);
      var (lru, log) := Run(before);
      if lru.Usable? {
        match ops[|ops| - 1]
        case Access(p) => TouchTracks(lru.list, log, p);
        case Evict =>
          OnePageIsOneNode(lru.list, log);
          if |lru.list| > 1 {
            EvictTracks(lru.list, log);
          }
      }
    }
  }

  /** After any history without such an eviction, the victim is the resident page whose last access is the
      oldest, also when it is the only page. */
  lemma VictimIsLeastRecent(ops: seq<Op>, q: nat)
    requires KeepsOnePage(ops)
    ensures Run(ops).0.Usable?
    ensures var (lru, log) := Run(ops);
            if lru.list == [] then LastAccess(log, q) < 0 else
              var v := lru.list[|lru.list| - 1];
              && LastAccess(log, v) >= 0
              && (LastAccess(log, q) >= 0 && q != v ==> LastAccess(log, v) < LastAccess(log, q))
  {
    RunTracks(ops);
    var (lru, log) := Run(ops);
    if lru.list != [] {
      LastIsOldest(lru.list, log, q);
    }
  }

  /** The shortest history that leaves a stale list: one access, one eviction. */
  lemma StaleAfterOnePage(p: nat, later: seq<Op>)
    ensures Run([Access(p), Evict] + later).0 == Stale
    decreases |later|
  {
    var ops := [Access(p), Evict] + later;
    if later == [] {
      assert ops[..1] == [Access(p)] && [Access(p)][..0] == [];
      assert Run([Access(p)]).0 == Usable([p]);
    } else {
      assert ops[..|ops| - 1] == [Access(p), Evict] + later[..|later| - 1];
      StaleAfterOnePage(p, later[..|later| - 1]);
    }
  }

  // ----- The linked list

  class LruList {
    var lru_pgn: Node?<nat>
    ghost var nodes: seq<Node<nat>>
    ghost var vals: seq<nat>
    ghost var Repr: set<Node<nat>>
    ghost var Freed: set<Node<nat>>

    ghost predicate Valid()
      reads this, Repr
    {
      && (forall k :: 0 <= k < |nodes| ==> nodes[k] in Repr && nodes[k] !in Freed)
      && Freed <= Repr
      && Linked(lru_pgn, nodes, vals)
    }

    constructor ()
      ensures Valid() && vals == [] && Repr == {}
    {
      lru_pgn := null;
      nodes, vals, Repr, Freed := [], [], {}, {};
    }

    /** Relink the node at position `at`, behind `prev`, to the front. */
    method MoveToFront(prev: Node<nat>, pnode: Node<nat>, ghost at: nat)
      requires Valid() && 0 < at < |nodes| && prev == nodes[at - 1] && pnode == nodes[at]
      modifies this`lru_pgn, this`nodes, this`vals, Repr
      ensures Valid()
      ensures vals == [old(vals)[at]] + old(vals)[..at] + old(vals)[at + 1..]
    {
      prev.next := pnode.next;
      pnode.next := lru_pgn;
      lru_pgn := pnode;
      Without(nodes, at);
      ghost var rest := nodes[..at] + nodes[at + 1..];
      nodes, vals := [pnode] + rest, [vals[at]] + vals[..at] + vals[at + 1..];
      forall k | 0 <= k < |nodes|
        ensures nodes[k] in Repr && nodes[k] !in Freed && nodes[k].next == At(nodes, k + 1) && nodes[k].val == vals[k]
        ensures k > 0 ==> nodes[k] != pnode
      {
        assert nodes[k] == old(nodes[if k == 0 then at else if k <= at then k - 1 else k]);
      }
    }

    /** A page that is not in the list enters it at the front. */
    method Enter(pgn: nat)
      requires Valid() && Find(vals, pgn) == |vals|
      modifies this`lru_pgn, this`nodes, this`vals, this`Repr
      ensures Valid() && vals == Touch(old(vals), pgn) && fresh(Repr - old(Repr))
    {
      var node := new Node(pgn, lru_pgn);
      lru_pgn := node;
      nodes, vals, Repr := [node] + nodes, [pgn] + vals, Repr + {node};
    }

    /** `enlist_pgn_node`. */
    method EnlistPgnNode(pgn: nat)
      requires Valid()
      modifies this`lru_pgn, this`nodes, this`vals, this`Repr, Repr
      ensures Valid() && vals == Touch(old(vals), pgn) && fresh(Repr - old(Repr)) && Freed == old(Freed)
    {
      var pnode := lru_pgn;
      var prev: Node?<nat> := null;
      ghost var at := 0;
      while pnode != null
        invariant Valid() && at <= |nodes| && pnode == At(nodes, at)
        invariant nodes == old(nodes) && vals == old(vals) && Repr == old(Repr)
        invariant prev == if at == 0 then null else nodes[at - 1]
        invariant at <= Find(vals, pgn)
        decreases |nodes| - at
      {
        if pnode.val == pgn {
          TouchFound(vals, pgn, at);
          if prev != null {
            MoveToFront(prev, pnode, at);
          }
          return;
        }
        prev := pnode;
        pnode := pnode.next;
        at := at + 1;
      }
      Enter(pgn);
    }

    /** `find_victim_page`: None where it returns -1. The only node of a list is freed but stays its head. */
    method FindVictimPage() returns (retpgn: Option<nat>)
      requires Valid()
      modifies this`nodes, this`vals, this`Freed, Repr
      ensures retpgn == if old(vals) == [] then None else Some(old(vals)[|old(vals)| - 1])
      ensures Valid() <==> Evicting(old(vals)).Usable?
      ensures Valid() ==> Evicting(old(vals)) == Usable(vals)
      ensures Repr == old(Repr)
    {
      var pg := lru_pgn;
      if pg == null {
        return None;
      }
      if pg.next == null {
        Freed := Freed + {pg};
        return Some(pg.val);
      }
      ghost var at := 0;
      while pg.next.next != null
        invariant at + 1 < |nodes| && pg == nodes[at] && pg.next == nodes[at + 1]
        invariant Valid() && nodes == old(nodes) && vals == old(vals) && Freed == old(Freed) && Repr == old(Repr)
        decreases |nodes| - at
      {
        pg := pg.next;
        at := at + 1;
      }
      assert at + 2 == |nodes|;
      retpgn := Some(pg.next.val);
      Freed := Freed + {pg.next};
      pg.next := null;
      nodes, vals := nodes[..at + 1], vals[..at + 1];
    }
  }
}
