/**
The virtual memory of one process: `__alloc` and `__free` of src/mm-vm.c as functions on
values, and what they keep over every run. `Allocator.dfy` proves that the code on linked
lists computes these functions.

A page request (`pg_getpage`) is an event that the paging layer serves or refuses;
`available` is how many requests it serves before it refuses one.
*/
module VirtualMemory {
  import opened Options
  import opened Regions

  const SYMBOLS: nat := 30

  const PAGE: nat := 256

  const PAGES: nat := 16384

  /** A symbol without a region. */
  const NO_REGION: Region := Region(-1, -1)

  /** `sym` is `symrgtbl`, `free` the list `vm_freerg_list`; `pages` is history: the page requests made so far. */
  datatype Vm = Vm(sym: seq<Region>, free: seq<Region>, sbrk: int, vmEnd: int, pages: seq<nat>)

  /** The state `init_mm` sets up: no symbols, and one empty free region. */
  predicate Initial(vm: Vm) {
    && |vm.sym| == SYMBOLS && (forall k :: 0 <= k < |vm.sym| ==> vm.sym[k] == NO_REGION)
    && vm.free == [Region(0, 0)] && vm.sbrk == 0 && vm.vmEnd == 0 && vm.pages == []
  }

  /** `PAGING_PAGE_ALIGNSZ`. */
  function Align(n: nat): nat {
    (n + (PAGE - 1)) / PAGE * PAGE
  }

  /** `PAGING_PGN`: 14 bits of the address. */
  function PageOf(address: nat): nat {
    address / PAGE % PAGES
  }

  /** The page requests for `n` pages from address `from` on. */
  function Requests(from: nat, n: nat): (pages: seq<nat>)
    ensures |pages| == n
    decreases n
  {
    if n == 0 then [] else [PageOf(from)] + Requests(from + PAGE, n - 1)
  }

  /** What a call returns: 0 or -1, and what it stores through `alloc_addr`, if anything. */
  datatype Answer = Answer(code: int, addr: Option<int>)

  /** `__alloc` when no free region fits: the space up to `vm_end`, or new pages. `vm_end` moves before the
      pages are requested and stays when a request is refused. */
  function AllocTop(vm: Vm, rgid: nat, size: nat, available: nat): (Vm, Answer)
    requires rgid < |vm.sym| && size >= 1 && 0 <= vm.vmEnd
  {
    var gap := vm.vmEnd - vm.sbrk;
    var grown := vm.(sym := vm.sym[rgid := Region(vm.sbrk, vm.sbrk + size)], sbrk := vm.sbrk + size);
    if gap >= size then (grown, Answer(0, None))
    else
      var inc := Align(size - gap);
      var n := inc / PAGE;
      if available < n then
        (vm.(vmEnd := vm.vmEnd + inc, pages := vm.pages + Requests(vm.vmEnd, available + 1)), Answer(-1, None))
      else
        (grown.(vmEnd := vm.vmEnd + inc, pages := vm.pages + Requests(vm.vmEnd, n)), Answer(0, Some(vm.sbrk)))
  }

  function Alloc(vm: Vm, rgid: nat, size: nat, available: nat): (Vm, Answer)
    requires rgid < |vm.sym| && size >= 1 && Ordered(vm.free) && 0 <= vm.vmEnd
  {
    var scan := Carve(vm.free, size);
    match scan.found
    case Some(r) => (vm.(sym := vm.sym[rgid := r], free := scan.free), Answer(0, Some(r.start)))
    case None => AllocTop(vm.(free := scan.free), rgid, size, available)
  }

  function Free(vm: Vm, rgid: int): (Vm, int)
    requires |vm.sym| == SYMBOLS && rgid != SYMBOLS
  {
    if rgid < 0 || rgid > SYMBOLS then (vm, -1)
    else
      var r := vm.sym[rgid];
      if r.start == r.end then (vm, -1)
      else if r.start > r.end then (vm.(sym := vm.sym[rgid := NO_REGION]), -1)
      else (vm.(sym := vm.sym[rgid := NO_REGION], free := [r] + vm.free), 0)
  }

  // ----- Regions never overlap

  predicate SymOk(r: Region, sbrk: int) {
    r == NO_REGION || 0 <= r.start < r.end <= sbrk
  }

  predicate FreeOk(r: Region, sbrk: int) {
    0 <= r.start <= r.end <= sbrk
  }

  /** Live and free regions lie below `sbrk`, have no byte in common, and are not longer than `sbrk` together. */
  predicate RegionInv(vm: Vm) {
    && |vm.sym| == SYMBOLS && 0 <= vm.sbrk <= vm.vmEnd
    && (forall k :: 0 <= k < |vm.sym| ==> SymOk(vm.sym[k], vm.sbrk))
    && (forall k :: 0 <= k < |vm.free| ==> FreeOk(vm.free[k], vm.sbrk))
    && PairwiseApart(vm.sym)
    && PairwiseApart(vm.free)
    && (forall k :: 0 <= k < |vm.sym| ==> ApartFrom(vm.sym[k], vm.free))
    && Total(vm.sym) + Total(vm.free) <= vm.sbrk
  }

  lemma {:induction false} TotalUpdate(rs: seq<Region>, k: nat, r: Region)
    requires k < |rs|
    ensures Total(rs[k := r]) == Total(rs) - rs[k].Len() + r.Len()
  {
    if k == 0 {
      assert rs[k := r][1..] == rs[1..];
    } else {
      assert rs[k := r][1..] == rs[1..][k - 1 := r];
      TotalUpdate(rs[1..], k - 1, r);
    }
  }

  lemma {:induction false} TotalOfEmpty(rs: seq<Region>)
    requires forall k :: 0 <= k < |rs| ==> rs[k].Len() == 0
    ensures Total(rs) == 0
  {
    if rs != [] {
      TotalOfEmpty(rs[1..]);
    }
  }

  /** Regions that lie inside regions below `sbrk` are below `sbrk`. */
  lemma CarveBelow(free: seq<Region>, size: nat, sbrk: int)
    requires size >= 1 && forall k :: 0 <= k < |free| ==> FreeOk(free[k], sbrk)
    ensures forall k :: 0 <= k < |Residue(free, size)| ==> FreeOk(Residue(free, size)[k], sbrk)
    ensures LastFit(free, size).Some? ==> FreeOk(LastFit(free, size).value, sbrk)
  {
    CarveInside(free, size);
    CarveAccount(free, size);
    FoundIff(free, size);
    forall k | 0 <= k < |Residue(free, size)| ensures FreeOk(Residue(free, size)[k], sbrk) {
      assert InsideSome(Residue(free, size)[k], free);
    }
  }

  lemma UpdateApart(sym: seq<Region>, rgid: nat, r: Region)
    requires rgid < |sym| && PairwiseApart(sym) && forall k :: 0 <= k < |sym| ==> Apart(sym[k], r)
    ensures PairwiseApart(sym[rgid := r])
  {
  }

  /** The new region of symbol `rgid` is `r`; it replaces what the symbol had, which is lost if it was live. */
  lemma BindInv(vm: Vm, rgid: nat, r: Region, free: seq<Region>, sbrk: int)
    requires RegionInv(vm) && rgid < SYMBOLS && vm.sbrk <= sbrk <= vm.vmEnd && SymOk(r, sbrk)
    requires forall k :: 0 <= k < |free| ==> FreeOk(free[k], sbrk)
    requires forall k :: 0 <= k < |vm.sym| ==> Apart(vm.sym[k], r) && ApartFrom(vm.sym[k], free)
    requires PairwiseApart(free) && ApartFrom(r, free)
    requires Total(free) + r.Len() - Total(vm.free) <= sbrk - vm.sbrk
    ensures RegionInv(vm.(sym := vm.sym[rgid := r], free := free, sbrk := sbrk))
  {
    var sym := vm.sym[rgid := r];
    TotalUpdate(vm.sym, rgid, r);
    UpdateApart(vm.sym, rgid, r);
    assert SymOk(vm.sym[rgid], vm.sbrk);
    forall k | 0 <= k < |sym| ensures SymOk(sym[k], sbrk) && ApartFrom(sym[k], free) {
      assert k != rgid ==> SymOk(vm.sym[k], vm.sbrk) && sym[k] == vm.sym[k];
    }
  }

  lemma AlignUp(n: nat)
    ensures n <= Align(n) < n + PAGE && Align(n) % PAGE == 0
  {
    ModStep(n + (PAGE - 1), PAGE);
  }

  /** The part of `__alloc` that takes new space above `sbrk`. */
  lemma AllocTopInv(vm: Vm, rgid: nat, size: nat, available: nat)
    requires RegionInv(vm) && rgid < SYMBOLS && size >= 1
    ensures var (vm', a) := AllocTop(vm, rgid, size, available);
            && RegionInv(vm')
            && (a.code == 0 ==> vm'.sym == vm.sym[rgid := Region(vm.sbrk, vm.sbrk + size)])
            && (a.code != 0 ==> vm'.sym == vm.sym && vm'.free == vm.free)
  {
    var gap := vm.vmEnd - vm.sbrk;
    var top := if gap >= size then vm.vmEnd else vm.vmEnd + Align(size - gap);
    if gap < size {
      AlignUp(size - gap);
    }
    BindInv(vm.(vmEnd := top), rgid, Region(vm.sbrk, vm.sbrk + size), vm.free, vm.sbrk + size);
  }

  /** After every `__alloc`, successful or not, the regions are in order; a successful one gives symbol `rgid`
      exactly `size` bytes, apart from everything live or free. */
  lemma AllocRegionInv(vm: Vm, rgid: nat, size: nat, available: nat)
    requires RegionInv(vm) && rgid < SYMBOLS && size >= 1
    ensures var (vm', a) := Alloc(vm, rgid, size, available);
            && RegionInv(vm')
            && (a.code == 0 ==> vm'.sym[rgid].Len() == size && vm'.sym == vm.sym[rgid := vm'.sym[rgid]])
            && (a.code == 0 && a.addr.Some? ==> a.addr == Some(vm'.sym[rgid].start))
            && (a.code != 0 ==> vm'.sym == vm.sym && vm'.free == vm.free)
  {
    CarveClosed(vm.free, size);
    CarveBelow(vm.free, size, vm.sbrk);
    CarveAccount(vm.free, size);
    CarveApart(vm.free, size);
    forall k | 0 <= k < |vm.sym| ensures ApartFrom(vm.sym[k], Residue(vm.free, size))
      ensures LastFit(vm.free, size).Some? ==> Apart(vm.sym[k], LastFit(vm.free, size).value)
    {
      CarveKeepsApart(vm.sym[k], vm.free, size);
    }
    if LastFit(vm.free, size).Some? {
      FoundIff(vm.free, size);
      MulMono(1, Blocks(vm.free, size), size);
      BindInv(vm, rgid, LastFit(vm.free, size).value, Residue(vm.free, size), vm.sbrk);
    } else {
      NotFoundNothingChanged(vm.free, size);
      AllocTopInv(vm, rgid, size, available);
    }
  }

  /** A free region is long enough. */
  predicate SomeFits(vm: Vm, size: nat) {
    exists k :: 0 <= k < |vm.free| && Fits(vm.free[k], size)
  }

  lemma FoundSome(vm: Vm, size: nat)
    requires Ordered(vm.free) && size >= 1
    ensures Carve(vm.free, size).found.Some? <==> SomeFits(vm, size)
    ensures !SomeFits(vm, size) ==> Carve(vm.free, size).free == vm.free
  {
    CarveClosed(vm.free, size);
    FoundIff(vm.free, size);
    if !SomeFits(vm, size) {
      NotFoundNothingChanged(vm.free, size);
    }
  }

  /** `__alloc` fails exactly when no free region fits and the pages served do not cover what is missing above
      `sbrk`. It stores the start of the new region, except on failure and when the space below `vm_end` suffices. */
  lemma AllocAnswer(vm: Vm, rgid: nat, size: nat, available: nat)
    requires RegionInv(vm) && rgid < SYMBOLS && size >= 1
    ensures var (vm', a) := Alloc(vm, rgid, size, available);
            && (a.code == 0 || a.code == -1)
            && (a.code == -1 <==> !SomeFits(vm, size) && size - (vm.vmEnd - vm.sbrk) > available * PAGE)
            && (a.addr.None? <==> a.code == -1 || (!SomeFits(vm, size) && size <= vm.vmEnd - vm.sbrk))
            && (a.addr.Some? ==> a.addr.value == vm'.sym[rgid].start)
  {
    FoundSome(vm, size);
    AlignUp(size);
    var missing := size - (vm.vmEnd - vm.sbrk);
    if missing > 0 {
      AlignUp(missing);
      var n := Align(missing) / PAGE;
      assert Align(missing) == n * PAGE;
    }
  }

  /** `vm_end` moves if the space below it does not suffice, by the least number of pages that would. On success the
      region starts at the old `sbrk`, which moves by the size; on failure `vm_end` stays moved. */
  predicate AboveSbrk(vm: Vm, rgid: nat, size: nat, available: nat, vm': Vm, a: Answer) {
    && rgid < |vm'.sym| && 0 <= vm.vmEnd <= vm'.vmEnd
    && (vm'.vmEnd - vm.vmEnd) % PAGE == 0
    && (vm'.vmEnd == vm.vmEnd <==> size <= vm.vmEnd - vm.sbrk)
    && (vm'.vmEnd > vm.vmEnd ==> size <= vm'.vmEnd - vm.sbrk < size + PAGE)
    && (a.code == 0 ==> vm'.sym[rgid].start == vm.sbrk && vm'.sbrk == vm.sbrk + size)
    && (a.code != 0 ==> vm'.sbrk == vm.sbrk && vm'.pages == vm.pages + Requests(vm.vmEnd, available + 1))
  }

  lemma AllocTopAbove(vm: Vm, rgid: nat, size: nat, available: nat)
    requires RegionInv(vm) && rgid < SYMBOLS && size >= 1
    ensures AboveSbrk(vm, rgid, size, available, AllocTop(vm, rgid, size, available).0, AllocTop(vm, rgid, size, available).1)
  {
    var missing := size - (vm.vmEnd - vm.sbrk);
    if missing > 0 {
      AlignUp(missing);
    }
  }

  /** `__alloc` leaves `sbrk` and `vm_end` alone if a free region fits, and else takes space above `sbrk`. */
  lemma AllocAboveSbrk(vm: Vm, rgid: nat, size: nat, available: nat)
    requires RegionInv(vm) && rgid < SYMBOLS && size >= 1
    ensures var (vm', a) := Alloc(vm, rgid, size, available);
            if SomeFits(vm, size) then vm'.sbrk == vm.sbrk && vm'.vmEnd == vm.vmEnd && vm'.pages == vm.pages
            else AboveSbrk(vm, rgid, size, available, vm', a)
  {
    FoundSome(vm, size);
    AllocTopAbove(vm, rgid, size, available);
  }

  /** `__free` succeeds exactly for a symbol with a region, whose bytes it puts at the head of the free list; else
      it changes nothing. */
  lemma FreeRegionInv(vm: Vm, rgid: int)
    requires RegionInv(vm) && rgid != SYMBOLS
    ensures RegionInv(Free(vm, rgid).0)
    ensures Free(vm, rgid).1 == 0 <==> 0 <= rgid < SYMBOLS && vm.sym[rgid] != NO_REGION
    ensures var (vm', code) := Free(vm, rgid);
            if code == 0 then vm' == vm.(sym := vm.sym[rgid := NO_REGION], free := [vm.sym[rgid]] + vm.free)
            else code == -1 && vm' == vm
  {
    var (vm', code) := Free(vm, rgid);
    if 0 <= rgid < SYMBOLS {
      assert SymOk(vm.sym[rgid], vm.sbrk);
    }
    if code == 0 {
      var r := vm.sym[rgid];
      TotalUpdate(vm.sym, rgid, NO_REGION);
      assert vm'.free[1..] == vm.free;
      assert PairwiseApart(vm'.free);
      forall k | 0 <= k < |vm'.sym| ensures ApartFrom(vm'.sym[k], vm'.free) {
        assert k != rgid ==> Apart(vm.sym[k], r);
      }
    }
  }

  /** No address belongs to two regions, live or free. */
  lemma NoSharedByte(vm: Vm, address: int)
    requires RegionInv(vm)
    ensures forall j, k | 0 <= j < k < |vm.sym| ::
              !(vm.sym[j].start <= address < vm.sym[j].end && vm.sym[k].start <= address < vm.sym[k].end)
    ensures forall j, k | 0 <= j < k < |vm.free| ::
              !(vm.free[j].start <= address < vm.free[j].end && vm.free[k].start <= address < vm.free[k].end)
    ensures forall j, k | 0 <= j < |vm.sym| && 0 <= k < |vm.free| ::
              !(vm.sym[j].start <= address < vm.sym[j].end && vm.free[k].start <= address < vm.free[k].end)
  {
    forall j, k | 0 <= j < |vm.sym| && 0 <= k < |vm.free| ensures Apart(vm.sym[j], vm.free[k]) {
      assert ApartFrom(vm.sym[j], vm.free);
    }
  }

  /** Freeing what was just allocated makes exactly its bytes free again. */
  lemma AllocThenFree(vm: Vm, rgid: nat, size: nat, available: nat)
    requires RegionInv(vm) && rgid < SYMBOLS && size >= 1
    requires Alloc(vm, rgid, size, available).1.code == 0
    ensures var vm1 := Alloc(vm, rgid, size, available).0;
            var (vm2, code) := Free(vm1, rgid);
            && code == 0 && vm2.sym == vm.sym[rgid := NO_REGION]
            && vm2.free == [vm1.sym[rgid]] + vm1.free && Total(vm2.free) == Total(vm1.free) + size
  {
    AllocRegionInv(vm, rgid, size, available);
    var vm1 := Alloc(vm, rgid, size, available).0;
    FreeRegionInv(vm1, rgid);
    assert SymOk(vm1.sym[rgid], vm1.sbrk);
    assert ([vm1.sym[rgid]] + vm1.free)[1..] == vm1.free;
  }

  // ----- Page growth

  /** The pages of the addresses below `vm_end` have been requested, in order, and less than a page of them is unused. */
  predicate PageInv(vm: Vm) {
    && 0 <= vm.vmEnd - vm.sbrk < PAGE
    && vm.vmEnd >= 0 && vm.vmEnd % PAGE == 0
    && vm.pages == Requests(0, vm.vmEnd / PAGE)
  }

  lemma {:induction false} RequestsJoin(from: nat, m: nat, n: nat)
    ensures Requests(from, m) + Requests(from + m * PAGE, n) == Requests(from, m + n)
    decreases m
  {
    if m > 0 {
      RequestsJoin(from + PAGE, m - 1, n);
      assert from + PAGE + (m - 1) * PAGE == from + m * PAGE;
    }
  }

  /** The page numbers requested are 0, 1, 2, ..., cut to the width of a page number. */
  lemma {:induction false} RequestsAre(from: nat, first: nat, n: nat)
    requires from == first * PAGE
    ensures forall k :: 0 <= k < n ==> Requests(from, n)[k] == (first + k) % PAGES
    decreases n
  {
    if n > 0 {
      RequestsAre(from + PAGE, first + 1, n - 1);
      assert PageOf(from) == first % PAGES;
    }
  }

  /** The page numbers of all requests, in the order in which they were made. */
  predicate InOrder(pages: seq<nat>, vmEnd: int) {
    && |pages| == vmEnd / PAGE
    && (forall k :: 0 <= k < |pages| ==> pages[k] == k % PAGES)
    && (vmEnd <= PAGES * PAGE ==> forall k :: 0 <= k < |pages| ==> pages[k] == k)
  }

  lemma PagesInOrder(pages: seq<nat>, vmEnd: nat)
    requires pages == Requests(0, vmEnd / PAGE)
    ensures InOrder(pages, vmEnd)
  {
    RequestsAre(0, 0, vmEnd / PAGE);
  }

  /** A call of `__alloc` keeps the page accounting if and only if it succeeds: a refused request leaves at least
      a page between `sbrk` and `vm_end`. */
  lemma AllocPageInvIff(vm: Vm, rgid: nat, size: nat, available: nat)
    requires RegionInv(vm) && PageInv(vm) && rgid < SYMBOLS && size >= 1
    ensures PageInv(Alloc(vm, rgid, size, available).0) <==> Alloc(vm, rgid, size, available).1.code == 0
  {
    var gap := vm.vmEnd - vm.sbrk;
    if Carve(vm.free, size).found.None? && gap < size {
      var inc := Align(size - gap);
      AlignUp(size - gap);
      var m, n := vm.vmEnd / PAGE, inc / PAGE;
      assert vm.vmEnd == m * PAGE && inc == n * PAGE;
      assert n >= 1;
      assert (vm.vmEnd + inc) / PAGE == m + n;
      RequestsJoin(0, m, n);
    }
  }

  // ----- Leaked bytes

  /** The bytes below `sbrk` that belong to no region, live or free. */
  function Leaked(vm: Vm): int {
    vm.sbrk - Total(vm.sym) - Total(vm.free)
  }

  /** A successful `__alloc` leaks what the symbol had, and all the blocks that the scan cut off but the last. */
  lemma AllocLeaks(vm: Vm, rgid: nat, size: nat, available: nat)
    requires RegionInv(vm) && rgid < SYMBOLS && size >= 1
    ensures var (vm', a) := Alloc(vm, rgid, size, available);
            var n := Blocks(vm.free, size);
            Leaked(vm') - Leaked(vm) ==
            if a.code != 0 then 0 else vm.sym[rgid].Len() + (if n >= 1 then size * n - size else 0)
  {
    AllocRegionInv(vm, rgid, size, available);
    CarveClosed(vm.free, size);
    CarveAccount(vm.free, size);
    TotalUpdate(vm.sym, rgid, Alloc(vm, rgid, size, available).0.sym[rgid]);
    if LastFit(vm.free, size).None? {
      NotFoundNothingChanged(vm.free, size);
    }
  }

  lemma FreeLeaks(vm: Vm, rgid: int)
    requires RegionInv(vm) && rgid != SYMBOLS
    ensures Leaked(Free(vm, rgid).0) == Leaked(vm)
  {
    if 0 <= rgid < SYMBOLS {
      assert SymOk(vm.sym[rgid], vm.sbrk);
      TotalUpdate(vm.sym, rgid, NO_REGION);
      assert ([vm.sym[rgid]] + vm.free)[1..] == vm.free;
    }
  }

  // ----- Runs

  datatype Op = AllocOp(rgid: nat, size: nat, available: nat) | FreeOp(id: int)

  /** What the instructions `alloc` and `free` may pass here. */
  predicate Legal(op: Op) {
    match op
    case AllocOp(rgid, size, _) => rgid < SYMBOLS && size >= 1
    case FreeOp(id) => id != SYMBOLS
  }

  function Step(vm: Vm, op: Op): (Vm, int)
    requires RegionInv(vm) && Legal(op)
  {
    match op
    case AllocOp(rgid, size, available) =>
      var (vm', a) := Alloc(vm, rgid, size, available);
      (vm', a.code)
    case FreeOp(id) => Free(vm, id)
  }

  lemma StepInv(vm: Vm, op: Op)
    requires RegionInv(vm) && Legal(op)
    ensures RegionInv(Step(vm, op).0)
    ensures PageInv(vm) && (op.AllocOp? ==> Step(vm, op).1 == 0) ==> PageInv(Step(vm, op).0)
  {
    match op
    case AllocOp(rgid, size, available) =>
      AllocRegionInv(vm, rgid, size, available);
      if PageInv(vm) && Step(vm, op).1 == 0 {
        AllocPageInvIff(vm, rgid, size, available);
      }
    case FreeOp(id) => FreeRegionInv(vm, id);
  }

  function Run(vm: Vm, ops: seq<Op>): (vm': Vm)
    requires RegionInv(vm) && forall k :: 0 <= k < |ops| ==> Legal(ops[k])
    ensures RegionInv(vm')
    decreases |ops|
  {
    if ops == [] then vm else
      StepInv(vm, ops[0]);
      Run(Step(vm, ops[0]).0, ops[1..])
  }

  /** No `__alloc` of the run fails. */
  predicate AllServed(vm: Vm, ops: seq<Op>)
    requires RegionInv(vm) && forall k :: 0 <= k < |ops| ==> Legal(ops[k])
    decreases |ops|
  {
    ops == [] ||
    (StepInv(vm, ops[0]);
     (ops[0].AllocOp? ==> Step(vm, ops[0]).1 == 0) && AllServed(Step(vm, ops[0]).0, ops[1..]))
  }

  lemma {:induction false} RunPageInv(vm: Vm, ops: seq<Op>)
    requires RegionInv(vm) && PageInv(vm) && forall k :: 0 <= k < |ops| ==> Legal(ops[k])
    requires AllServed(vm, ops)
    ensures PageInv(Run(vm, ops))
    decreases |ops|
  {
    if ops != [] {
      StepInv(vm, ops[0]);
      RunPageInv(Step(vm, ops[0]).0, ops[1..]);
    }
  }

  lemma InitialInv(vm: Vm)
    requires Initial(vm)
    ensures RegionInv(vm) && PageInv(vm) && Leaked(vm) == 0
  {
    TotalOfEmpty(vm.sym);
    TotalOfEmpty(vm.free);
  }

  /** A run of legal calls from the initial state. */
  predicate Starts(vm: Vm, ops: seq<Op>)
    ensures Starts(vm, ops) ==> RegionInv(vm) && PageInv(vm) && Leaked(vm) == 0
  {
    if Initial(vm) then InitialInv(vm); forall k :: 0 <= k < |ops| ==> Legal(ops[k]) else false
  }

  /** After any sequence of allocations and frees, live and free regions are pairwise disjoint and fit below `sbrk`. */
  lemma RegionsStayApart(vm: Vm, ops: seq<Op>)
    requires Starts(vm, ops)
    ensures RegionInv(Run(vm, ops))
  {
  }

  /** After any run whose allocations all succeed, `vm_end` is page-aligned and less than a page above `sbrk`, and
      the pages requested so far are those from address 0 up to `vm_end`, in order: page 0, 1, 2, ..., each once as
      long as `vm_end` does not exceed the 2^22 bytes that page numbers can tell apart. */
  lemma PageGrowth(vm: Vm, ops: seq<Op>)
    requires Starts(vm, ops) && AllServed(vm, ops)
    ensures var vm' := Run(vm, ops);
            && vm'.vmEnd % PAGE == 0 && 0 <= vm'.vmEnd - vm'.sbrk < PAGE
            && InOrder(vm'.pages, vm'.vmEnd)
  {
    RunPageInv(vm, ops);
    PagesInOrder(Run(vm, ops).pages, Run(vm, ops).vmEnd);
  }

  // ----- Bytes leaked over a run

  /** The call leaks nothing: an allocation that fails, or that finds its symbol without a region and at most one
      block of its size free. */
  predicate Clean(vm: Vm, op: Op)
    requires RegionInv(vm) && Legal(op)
  {
    op.AllocOp? && Step(vm, op).1 == 0 ==> vm.sym[op.rgid] == NO_REGION && Blocks(vm.free, op.size) <= 1
  }

  lemma StepLeaks(vm: Vm, op: Op)
    requires RegionInv(vm) && Legal(op)
    ensures Leaked(Step(vm, op).0) >= Leaked(vm)
    ensures Leaked(Step(vm, op).0) == Leaked(vm) <==> Clean(vm, op)
  {
    match op
    case AllocOp(rgid, size, available) =>
      AllocLeaks(vm, rgid, size, available);
      assert SymOk(vm.sym[rgid], vm.sbrk);
      var n := Blocks(vm.free, size);
      if n >= 1 {
        OnlyOne(size, n);
        MulMono(1, n, size);
      }
    case FreeOp(id) => FreeLeaks(vm, id);
  }

  predicate AllClean(vm: Vm, ops: seq<Op>)
    requires RegionInv(vm) && forall k :: 0 <= k < |ops| ==> Legal(ops[k])
    decreases |ops|
  {
    ops == [] || (StepInv(vm, ops[0]); Clean(vm, ops[0]) && AllClean(Step(vm, ops[0]).0, ops[1..]))
  }

  lemma {:induction false} RunLeaks(vm: Vm, ops: seq<Op>)
    requires RegionInv(vm) && forall k :: 0 <= k < |ops| ==> Legal(ops[k])
    ensures Leaked(Run(vm, ops)) >= Leaked(vm)
    ensures Leaked(Run(vm, ops)) == Leaked(vm) <==> AllClean(vm, ops)
    decreases |ops|
  {
    if ops != [] {
      StepInv(vm, ops[0]);
      StepLeaks(vm, ops[0]);
      RunLeaks(Step(vm, ops[0]).0, ops[1..]);
    }
  }

  /** After any run, every byte below `sbrk` is live or free if and only if each successful allocation of the run
      found its symbol without a region and at most one block of its size free. */
  lemma ConservedIff(vm: Vm, ops: seq<Op>)
    requires Starts(vm, ops)
    ensures var vm' := Run(vm, ops); Total(vm'.sym) + Total(vm'.free) == vm'.sbrk <==> AllClean(vm, ops)
  {
    RunLeaks(vm, ops);
  }

  /** A list with one free region of twice the size, and the empty region that is always last. */
  lemma TwoBlocks(size: nat)
    requires size >= 1
    ensures var rs := [Region(0, 2 * size), Region(0, 0)];
            && Carve(rs, size) == Scan([Region(0, 0)], Some(Region(size, 2 * size)))
            && FirstFit(rs, size) == Scan([Region(size, 2 * size), Region(0, 0)], Some(Region(0, size)))
  {
    var rs := [Region(0, 2 * size), Region(0, 0)];
    ModStep(2 * size, size);
    ModStep(size, size);
    CarveClosed(rs, size);
    assert rs[1..] == [Region(0, 0)] && rs[1..][1..] == [];
    assert Residue([Region(0, 0)], size) == [Region(0, 0)];
    assert LastFit([Region(0, 0)], size) == None;
  }

  /** The first allocation of all takes new pages, and freeing it makes its bytes the first free region. */
  lemma AllocFreeFirst(vm: Vm, size: nat, available: nat)
    requires Initial(vm) && RegionInv(vm) && size >= 1 && available >= Align(size) / PAGE
    ensures var vm1 := Alloc(vm, 0, size, available).0;
            RegionInv(vm1) && Free(vm1, 0).0.free == [Region(0, size), Region(0, 0)]
    ensures Clean(vm, AllocOp(0, size, available))
  {
    AllocRegionInv(vm, 0, size, available);
    CarveClosed(vm.free, size);
    assert vm.free[1..] == [] && Blocks([], size) == 0;
    ModStep(0, size);
  }

  lemma SecondAlloc(vm: Vm, size: nat, available: nat)
    requires RegionInv(vm) && vm.free == [Region(0, 2 * size), Region(0, 0)] && Leaked(vm) == 0 && size >= 1
    requires vm.sym[1] == NO_REGION
    ensures var (vm', a) := Alloc(vm, 1, size, available);
            a.code == 0 && vm'.sym[1] == Region(size, 2 * size) && Leaked(vm') == size
    ensures FirstFit(vm.free, size).found == Some(Region(0, size))
  {
    TwoBlocks(size);
    AllocLeaks(vm, 1, size, available);
    assert vm.free[1..] == [Region(0, 0)] && vm.free[1..][1..] == [];
    DivModUnique(2 * size, size, 2, 0);
    DivModUnique(0, size, 0, 0);
    assert vm.free[0].Len() == 2 * size && vm.free[1].Len() == 0;
    assert Blocks(vm.free[1..], size) == 0;
  }

  /** Allocate twice a size, free it, and allocate the size: a first-fit search would return the lower half and keep
      the upper one free; the routine returns the upper half and loses the lower one. */
  lemma FirstFitFails(vm: Vm, size: nat, available: nat)
    requires Starts(vm, [AllocOp(0, 2 * size, available), FreeOp(0)])
    requires size >= 1 && available >= Align(2 * size) / PAGE
    ensures var vm2 := Run(vm, [AllocOp(0, 2 * size, available), FreeOp(0)]);
            var (vm3, a) := Alloc(vm2, 1, size, available);
            && vm2.free == [Region(0, 2 * size), Region(0, 0)] && Leaked(vm2) == 0
            && FirstFit(vm2.free, size).found == Some(Region(0, size))
            && a.code == 0 && vm3.sym[1] == Region(size, 2 * size) && Leaked(vm3) == size
  {
    var ops := [AllocOp(0, 2 * size, available), FreeOp(0)];
    var vm1 := Step(vm, ops[0]).0;
    AllocFreeFirst(vm, 2 * size, available);
    assert ops[1..] == [FreeOp(0)] && [FreeOp(0)][1..] == [];
    assert Run(vm, ops) == Run(vm1, [FreeOp(0)]) == Step(vm1, FreeOp(0)).0;
    StepLeaks(vm, ops[0]);
    FreeLeaks(vm1, 0);
    StepInv(vm1, FreeOp(0));
    SecondAlloc(Run(vm, ops), size, available);
  }

  // ----- Requests for no bytes

  lemma {:induction false} ResidueNotEmpty(rs: seq<Region>, size: nat)
    requires size >= 1 && rs != []
    ensures Residue(rs, size) != []
  {
    if |rs| > 1 {
      ResidueNotEmpty(rs[1..], size);
    }
  }

  lemma {:induction false} FreeListNotEmpty(vm: Vm, ops: seq<Op>)
    requires RegionInv(vm) && vm.free != [] && forall k :: 0 <= k < |ops| ==> Legal(ops[k])
    ensures Run(vm, ops).free != []
    decreases |ops|
  {
    if ops != [] {
      StepInv(vm, ops[0]);
      if ops[0].AllocOp? {
        CarveClosed(vm.free, ops[0].size);
        ResidueNotEmpty(vm.free, ops[0].size);
      }
      FreeListNotEmpty(Step(vm, ops[0]).0, ops[1..]);
    }
  }

  /** The free list never gets empty, so a request for 0 bytes never returns, whenever it is made. */
  lemma ZeroSizeNeverReturns(vm: Vm, ops: seq<Op>, n: nat)
    requires Starts(vm, ops)
    ensures Turns(Run(vm, ops).free, 0, n) != []
  {
    FreeListNotEmpty(vm, ops);
    TurnsForever(Run(vm, ops).free, n);
  }
}
