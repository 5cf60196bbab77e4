/**
What the multi-level queue guarantees over any history of calls: each queue stays
within its quota in every round, and every waiting process is dispatched within a
bounded number of `get_proc` calls.
*/
module Fairness {
  import opened Options
  import opened ProcQueue
  import opened MultiLevelQueue

  /** A call of `get_proc`, or of `put_proc` / `add_proc`. */
  datatype Call = GetCall | PutCall(x: nat, prio: nat)

  function After(m: Mlq, c: Call): (m': Mlq)
    requires Valid(m)
    ensures Valid(m')
  {
    match c
    case GetCall => GetValid(m); Get(m).0
    case PutCall(x, prio) => PutValid(m, x, prio); Put(m, x, prio)
  }

  function Run(m: Mlq, calls: seq<Call>): (m': Mlq)
    requires Valid(m)
    ensures Valid(m')
    decreases |calls|
  {
    if calls == [] then m else Run(After(m, calls[0]), calls[1..])
  }

  /** A `get_proc` that serves priority `p`. */
  predicate Serves(m: Mlq, c: Call, p: nat)
    requires Valid(m)
  {
    c.GetCall? && !AllEmpty(m.queues) && Choice(m) == p
  }

  // ----- Quota of a round

  /** A call that starts a new round: `reset_slots` runs in it. */
  predicate StartsRound(m: Mlq, c: Call)
    requires Valid(m)
  {
    c.GetCall? && !AllEmpty(m.queues) && Wraps(m)
  }

  /** How often priority `p` has been served since the last reset of the slot counters, given `before` times up to now. */
  function ServedThisRound(m: Mlq, calls: seq<Call>, p: nat, before: nat): nat
    requires Valid(m)
    decreases |calls|
  {
    if calls == [] then before else
      var kept := if StartsRound(m, calls[0]) then 0 else before;
      ServedThisRound(After(m, calls[0]), calls[1..], p, kept + (if Serves(m, calls[0], p) then 1 else 0))
  }

  lemma SlotsAfter(m: Mlq, c: Call, p: nat)
    requires Valid(m) && p < MAX_PRIO
    ensures After(m, c).slots[p] == (if StartsRound(m, c) then 0 else m.slots[p]) + (if Serves(m, c, p) then 1 else 0)
  {
  }

  /** Between two resets no priority is served more often than its quota, and the slot counter is that number. */
  lemma {:induction false} RoundQuota(m: Mlq, calls: seq<Call>, p: nat)
    requires Valid(m) && p < MAX_PRIO
    ensures ServedThisRound(m, calls, p, m.slots[p]) == Run(m, calls).slots[p] <= Quota(p)
    decreases |calls|
  {
    if calls != [] {
      SlotsAfter(m, calls[0], p);
      RoundQuota(After(m, calls[0]), calls[1..], p);
    }
  }

  // ----- Bounded waiting

  /** The sum of the quotas of all priorities from `p` on. */
  function QuotaFrom(p: nat): nat
    requires p <= MAX_PRIO
    decreases MAX_PRIO - p
  {
    if p == MAX_PRIO then 0 else Quota(p) + QuotaFrom(p + 1)
  }

  const ROUND: nat := 9870

  lemma {:induction false} QuotaFromIs(p: nat)
    requires p <= MAX_PRIO
    ensures 2 * QuotaFrom(p) == (MAX_PRIO - p) * (MAX_PRIO - p + 1)
    decreases MAX_PRIO - p
  {
    if p < MAX_PRIO {
      QuotaFromIs(p + 1);
      var d := MAX_PRIO - p;
      assert (d - 1) * d + 2 * d == d * (d + 1);
    }
  }

  lemma {:induction false} QuotaFromMonotone(p: nat, q: nat)
    requires p <= q <= MAX_PRIO
    ensures QuotaFrom(q) <= QuotaFrom(p)
    decreases q - p
  {
    if p < q {
      QuotaFromMonotone(p + 1, q);
    }
  }

  /** No part of a round holds more dispatches than the whole round. */
  lemma RoundIsLongest(p: nat)
    requires p <= MAX_PRIO
    ensures QuotaFrom(p) <= QuotaFrom(0) == ROUND
  {
    QuotaFromIs(0);
    QuotaFromMonotone(0, p);
  }

  /** The dispatches that this round can still make. */
  function RoundLeft(m: Mlq): nat
    requires Valid(m)
  {
    Quota(m.cur) - m.slots[m.cur] + QuotaFrom(m.cur + 1)
  }

  /** Priority `p` will still be served in this round. */
  predicate TurnAhead(m: Mlq, p: nat)
    requires Valid(m) && p < MAX_PRIO
  {
    m.cur < p || (m.cur == p && m.slots[p] < Quota(p))
  }

  /** An upper bound on the `get_proc` calls until the process at position `k` of priority `p` is dispatched:
      what is left of this round, and the rounds that must still begin. */
  function Wait(m: Mlq, p: nat, k: nat): nat
    requires Valid(m) && p < MAX_PRIO
  {
    RoundLeft(m) + ROUND * (if TurnAhead(m, p) then k else k + 1)
  }

  lemma WaitPositive(m: Mlq, p: nat, k: nat)
    requires Valid(m) && p < MAX_PRIO
    ensures Wait(m, p, k) >= 1
  {
    if TurnAhead(m, p) && m.cur < p {
      QuotaFromMonotone(m.cur + 1, p);
    }
  }

  /** A `get_proc` takes from what is left of the round, or starts a new round and takes from that. */
  lemma GetShortensRound(m: Mlq)
    requires Valid(m) && !AllEmpty(m.queues)
    ensures Wraps(m) ==> RoundLeft(After(m, GetCall)) < ROUND
    ensures !Wraps(m) ==> RoundLeft(After(m, GetCall)) < RoundLeft(m)
  {
    var c := Choice(m);
    RoundIsLongest(c);
    if !HasTurn(m) && !Wraps(m) {
      QuotaFromMonotone(m.cur + 1, c);
    }
  }

  /** Every `get_proc` shortens the wait of each process that stays queued, also when it moves up in its queue. */
  lemma GetShortensWait(m: Mlq, p: nat, k: nat)
    requires Valid(m) && p < MAX_PRIO && k < |m.queues[p]|
    ensures Serves(m, GetCall, p) && k > 0 ==> Wait(After(m, GetCall), p, k - 1) < Wait(m, p, k)
    ensures !Serves(m, GetCall, p) ==> Wait(After(m, GetCall), p, k) < Wait(m, p, k)
  {
    GetShortensRound(m);
  }

  lemma PutKeepsWait(m: Mlq, x: nat, prio: nat, p: nat, k: nat)
    requires Valid(m) && p < MAX_PRIO && k < |m.queues[p]|
    ensures Wait(After(m, PutCall(x, prio)), p, k) == Wait(m, p, k)
  {
  }

  function Gets(calls: seq<Call>): nat {
    if calls == [] then 0 else (if calls[0].GetCall? then 1 else 0) + Gets(calls[1..])
  }

  /** How many of the calls serve priority `p`. */
  function Served(m: Mlq, calls: seq<Call>, p: nat): nat
    requires Valid(m)
    decreases |calls|
  {
    if calls == [] then 0 else
      (if Serves(m, calls[0], p) then 1 else 0) + Served(After(m, calls[0]), calls[1..], p)
  }

  /** Call number `j` hands out `x`, the process that was at position `k` of priority `p` at the start:
      it is a `get_proc` that returns `x`, after exactly `k` others were taken from that priority. */
  predicate Dispatches(m: Mlq, calls: seq<Call>, j: nat, p: nat, k: nat, x: nat)
    requires Valid(m)
  {
    && j < |calls|
    && Serves(Run(m, calls[..j]), calls[j], p)
    && Served(m, calls[..j], p) == k
    && Get(Run(m, calls[..j])).1 == Some(x)
  }

  /** Where the process at position `k` of priority `p` stands after a call that does not hand it out. */
  function Position(m: Mlq, c: Call, p: nat, k: nat): nat
    requires Valid(m) && !(Serves(m, c, p) && k == 0)
  {
    if Serves(m, c, p) then k - 1 else k
  }

  /** One call brings a process closer to its dispatch. */
  lemma CallShortensWait(m: Mlq, c: Call, p: nat, k: nat)
    requires Valid(m) && p < MAX_PRIO && k < |m.queues[p]| && !(Serves(m, c, p) && k == 0)
    ensures var (m', k') := (After(m, c), Position(m, c, p, k));
            && k' < |m'.queues[p]| && m'.queues[p][k'] == m.queues[p][k]
            && Wait(m', p, k') + (if c.GetCall? then 1 else 0) <= Wait(m, p, k)
  {
    if c.GetCall? {
      GetShortensWait(m, p, k);
    } else {
      PutKeepsWait(m, c.x, c.prio, p, k);
    }
  }

  /** A dispatch after the first call is a dispatch of the whole history. */
  lemma DispatchesLater(m: Mlq, calls: seq<Call>, i: nat, p: nat, k: nat, x: nat)
    requires Valid(m) && calls != [] && !(Serves(m, calls[0], p) && k == 0)
    requires Dispatches(After(m, calls[0]), calls[1..], i, p, Position(m, calls[0], p, k), x)
    ensures Dispatches(m, calls, i + 1, p, k, x)
    ensures Gets(calls[..i + 1]) == (if calls[0].GetCall? then 1 else 0) + Gets(calls[1..][..i])
  {
    assert calls[..i + 1][1..] == calls[1..][..i];
  }

  /** A process at position `k` is dispatched within `Wait` calls of `get_proc`, whatever is put in between. */
  lemma {:induction false} DispatchedWithinWait(m: Mlq, calls: seq<Call>, p: nat, k: nat) returns (j: nat)
    requires Valid(m) && p < MAX_PRIO && k < |m.queues[p]|
    requires Gets(calls) >= Wait(m, p, k)
    ensures Dispatches(m, calls, j, p, k, m.queues[p][k]) && Gets(calls[..j]) < Wait(m, p, k)
    decreases |calls|
  {
    WaitPositive(m, p, k);
    var c := calls[0];
    if Serves(m, c, p) && k == 0 {
      j := 0;
    } else {
      CallShortensWait(m, c, p, k);
      var i := DispatchedWithinWait(After(m, c), calls[1..], p, Position(m, c, p, k));
      DispatchesLater(m, calls, i, p, k, m.queues[p][k]);
      j := i + 1;
    }
  }

  lemma WaitBounded(m: Mlq, p: nat, k: nat)
    requires Valid(m) && p < MAX_PRIO
    ensures Wait(m, p, k) <= (k + 2) * ROUND
  {
    RoundIsLongest(m.cur);
    assert RoundLeft(m) <= QuotaFrom(m.cur) <= ROUND;
  }

  /** Bounded waiting: at most `(k + 2) * 9870` calls of `get_proc`, for any interleaved puts. */
  lemma BoundedWaiting(m: Mlq, calls: seq<Call>, p: nat, k: nat) returns (j: nat)
    requires Valid(m) && p < MAX_PRIO && k < |m.queues[p]|
    requires Gets(calls) >= (k + 2) * ROUND
    ensures Dispatches(m, calls, j, p, k, m.queues[p][k]) && Gets(calls[..j]) < (k + 2) * ROUND
  {
    WaitBounded(m, p, k);
    j := DispatchedWithinWait(m, calls, p, k);
  }
}
