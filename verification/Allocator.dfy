/** The region allocator of src/mm-vm.c on its linked free list and its symbol table. */
module Allocator {
  import opened Options
  import opened Regions
  import opened LinkedList
  import VM = VirtualMemory

  /** What a scan gives whose cursor has passed `passed`, has `ahead` before it and `found` as its result so far. */
  ghost function Resumes(passed: seq<Region>, ahead: seq<Region>, found: Option<Region>, size: nat): Scan
    requires size >= 1 && Ordered(ahead)
  {
    var rest := Carve(ahead, size);
    Scan(passed + rest.free, if rest.found.Some? then rest.found else found)
  }

  lemma CutInList(passed: seq<Region>, ahead: seq<Region>, size: nat)
    requires ahead != [] && Fits(ahead[0], size)
    ensures var vs, at := passed + ahead, |passed|;
            passed + Cut(ahead, size) ==
            if vs[at].start + size < vs[at].end then vs[at := Region(vs[at].start + size, vs[at].end)]
            else if at + 1 < |vs| then vs[..at] + vs[at + 1..]
            else vs[at := Region(vs[at].end, vs[at].end)]
  {
    var vs, at := passed + ahead, |passed|;
    assert vs[..at] == passed && vs[at] == ahead[0] && vs[at + 1..] == ahead[1..];
  }

  lemma ResumesFrom(ahead: seq<Region>, size: nat)
    requires size >= 1 && Ordered(ahead)
    ensures Resumes([], ahead, None, size) == Carve(ahead, size) && [] + ahead == ahead
  {
  }

  lemma ResumesCut(passed: seq<Region>, ahead: seq<Region>, found: Option<Region>, size: nat)
    requires size >= 1 && Ordered(ahead) && ahead != [] && Fits(ahead[0], size)
    ensures Resumes(passed, Cut(ahead, size), Some(Region(ahead[0].start, ahead[0].start + size)), size)
            == Resumes(passed, ahead, found, size)
    ensures Ordered(Cut(ahead, size)) && 0 <= Total(Cut(ahead, size)) < Total(ahead)
  {
    CutTotal(ahead, size);
    TotalNotNegative(Cut(ahead, size));
  }

  lemma Regroup(a: seq<Region>, r: Region, b: seq<Region>)
    ensures a + [r] + b == a + ([r] + b)
  {
  }

  lemma ResumesSkip(passed: seq<Region>, ahead: seq<Region>, found: Option<Region>, size: nat)
    requires size >= 1 && Ordered(ahead) && ahead != [] && !Fits(ahead[0], size)
    ensures Resumes(passed + [ahead[0]], ahead[1..], found, size) == Resumes(passed, ahead, found, size)
    ensures Ordered(ahead[1..]) && 0 <= Total(ahead[1..]) <= Total(ahead)
    ensures passed + [ahead[0]] + ahead[1..] == passed + ahead
  {
    CarveSkips(ahead, size);
    TotalNotNegative(ahead[1..]);
    Regroup(passed, ahead[0], Carve(ahead[1..], size).free);
    Regroup(passed, ahead[0], ahead[1..]);
  }

  class Mm {
    const symrgtbl: array<Region>
    var vm_freerg_list: Node?<Region>
    var sbrk: int
    var vm_end: int
    ghost var pages: seq<nat>
    ghost var nodes: seq<Node<Region>>
    ghost var vals: seq<Region>
    ghost var Repr: set<Node<Region>>

    ghost predicate Valid()
      reads this, Repr
    {
      && symrgtbl.Length == VM.SYMBOLS
      && (forall k :: 0 <= k < |nodes| ==> nodes[k] in Repr)
      && Linked(vm_freerg_list, nodes, vals)
    }

    ghost function State(): VM.Vm
      requires Valid()
      reads this, Repr, symrgtbl
    {
      VM.Vm(symrgtbl[..], vals, sbrk, vm_end, pages)
    }

    /** `init_mm`, with an initially empty list pointer. */
    constructor ()
      ensures Valid() && VM.Initial(State()) && fresh(symrgtbl) && fresh(Repr)
    {
      symrgtbl := new Region[VM.SYMBOLS](_ => VM.NO_REGION);
      var first_rg := new Node(Region(0, 0), null);
      vm_freerg_list := first_rg;
      sbrk, vm_end := 0, 0;
      pages, nodes, vals, Repr := [], [first_rg], [Region(0, 0)], {first_rg};
    }

    /** `enlist_vm_freerg_list`. */
    method Enlist(rg: Node<Region>) returns (code: int)
      requires Valid() && rg !in Repr && (vm_freerg_list == null ==> rg.next == null)
      modifies this`vm_freerg_list, this`nodes, this`vals, this`Repr, rg
      ensures Valid() && Repr == old(Repr) + {rg}
      ensures code == if old(rg.val.start >= rg.val.end) then -1 else 0
      ensures State() == old(State()).(free := if code == 0 then [old(rg.val)] + old(vals) else old(vals))
    {
      Repr := Repr + {rg};
      if rg.val.start >= rg.val.end {
        return -1;
      }
      if vm_freerg_list != null {
        rg.next := vm_freerg_list;
      }
      vm_freerg_list := rg;
      nodes, vals := [rg] + nodes, [rg.val] + vals;
      code := 0;
    }

    /** The part of the scan that removes a used-up region: its node takes over the contents of the next one,
        whose node leaves the list. */
    method TakeOverNext(rgit: Node<Region>, nextrg: Node<Region>, ghost at: nat)
      requires Valid() && at + 1 < |nodes| && rgit == nodes[at] && nextrg == nodes[at + 1]
      modifies this`nodes, this`vals, Repr
      ensures Valid() && at < |nodes| && nodes[at] == rgit
      ensures vals == old(vals)[..at] + old(vals)[at + 1..]
    {
      rgit.val := nextrg.val;
      rgit.next := nextrg.next;
      Without(nodes, at + 1);
      nodes, vals := nodes[..at + 1] + nodes[at + 2..], vals[..at] + vals[at + 1..];
      forall k | 0 <= k < |nodes|
        ensures nodes[k] in Repr && nodes[k].next == At(nodes, k + 1) && nodes[k].val == vals[k]
      {
        assert nodes[k] == old(nodes[if k <= at then k else k + 1]);
      }
    }

    /** Give the region at position `at` new bounds. */
    method Resize(rgit: Node<Region>, ghost at: nat, rg: Region)
      requires Valid() && at < |nodes| && rgit == nodes[at]
      modifies this`vals, Repr
      ensures Valid() && vals == old(vals)[at := rg]
    {
      rgit.val := rg;
      vals := vals[at := rg];
    }

    /** Cut `size` bytes off the region at the scan's cursor, behind the regions in `passed`. */
    method CutAt(rgit: Node<Region>, size: nat, ghost passed: seq<Region>, ghost ahead: seq<Region>)
      requires Valid() && vals == passed + ahead && ahead != []
      requires rgit == nodes[|passed|] && Fits(ahead[0], size)
      modifies this`nodes, this`vals, Repr
      ensures Valid() && vals == passed + Cut(ahead, size) && nodes[|passed|] == rgit
    {
      CutInList(passed, ahead, size);
      var rg := rgit.val;
      if rg.start + size < rg.end {
        Resize(rgit, |passed|, Region(rg.start + size, rg.end));
      } else if rgit.next != null {
        TakeOverNext(rgit, rgit.next, |passed|);
      } else {
        Resize(rgit, |passed|, Region(rg.end, rg.end));
      }
    }

    /** A turn of the scan at a region that fits: it yields the first block, which is cut off. */
    method CutTurn(rgit: Node<Region>, size: nat, ghost passed: seq<Region>, ghost ahead: seq<Region>,
                   ghost found: Option<Region>)
      returns (newrg: Option<Region>)
      requires Valid() && vals == passed + ahead && ahead != [] && Ordered(ahead)
      requires size >= 1 && rgit == nodes[|passed|] && Fits(ahead[0], size)
      modifies this`nodes, this`vals, Repr
      ensures Valid() && vals == passed + Cut(ahead, size) && nodes[|passed|] == rgit
      ensures Ordered(Cut(ahead, size)) && 0 <= Total(Cut(ahead, size)) < Total(ahead)
      ensures Resumes(passed, Cut(ahead, size), newrg, size) == Resumes(passed, ahead, found, size)
    {
      assert rgit.val == ahead[0];
      newrg := Some(Region(rgit.val.start, rgit.val.start + size));
      ResumesCut(passed, ahead, found, size);
      CutAt(rgit, size, passed, ahead);
    }

    /** A turn of the scan at a region that is too short. */
    method SkipTurn(rgit: Node<Region>, size: nat, ghost passed: seq<Region>, ghost ahead: seq<Region>,
                    ghost found: Option<Region>)
      returns (next: Node?<Region>)
      requires Valid() && vals == passed + ahead && ahead != [] && Ordered(ahead)
      requires size >= 1 && rgit == nodes[|passed|] && !Fits(ahead[0], size)
      ensures next == At(nodes, |passed| + 1) && vals == passed + [ahead[0]] + ahead[1..]
      ensures Ordered(ahead[1..]) && 0 <= Total(ahead[1..]) <= Total(ahead)
      ensures Resumes(passed + [ahead[0]], ahead[1..], found, size) == Resumes(passed, ahead, found, size)
    {
      ResumesSkip(passed, ahead, found, size);
      next := rgit.next;
    }

    /** `get_free_vmrg_area`: None where it returns -1. */
    method GetFreeVmrgArea(size: nat) returns (newrg: Option<Region>)
      requires Valid() && size >= 1 && Ordered(vals)
      modifies this`nodes, this`vals, Repr
      ensures Valid()
      ensures Scan(vals, newrg) == Carve(old(vals), size)
    {
      var rgit := vm_freerg_list;
      ghost var passed, ahead, result := [], vals, Carve(vals, size);
      newrg := None;
      ResumesFrom(vals, size);
      while rgit != null
        invariant Valid() && vals == passed + ahead && rgit == At(nodes, |passed|)
        invariant Ordered(ahead) && Resumes(passed, ahead, newrg, size) == result
        decreases Total(ahead), |ahead|
      {
        assert ahead[0] == rgit.val;
        if rgit.val.start + size <= rgit.val.end {
          newrg := CutTurn(rgit, size, passed, ahead, newrg);
          ahead := Cut(ahead, size);
        } else {
          rgit := SkipTurn(rgit, size, passed, ahead, newrg);
          passed, ahead := passed + [ahead[0]], ahead[1..];
        }
      }
      assert ahead == [];
    }

    /** `vmap_page_range`: one page request after the other until one is refused. */
    method VmapPageRange(address: nat, pgnum: nat, available: nat) returns (code: int)
      modifies this`pages
      ensures code == if available < pgnum then -1 else 0
      ensures pages == old(pages) + VM.Requests(address, if available < pgnum then available + 1 else pgnum)
    {
      var addr, i := address, 0;
      while i < pgnum
        invariant i <= pgnum && i <= available && addr == address + i * VM.PAGE
        invariant pages == old(pages) + VM.Requests(address, i)
      {
        VM.RequestsJoin(address, i, 1);
        assert VM.Requests(addr, 1) == [VM.PageOf(addr)];
        pages := pages + [VM.PageOf(addr)];
        if i == available {
          return -1;
        }
        addr := addr + VM.PAGE;
        i := i + 1;
      }
      code := 0;
    }

    /** `inc_vma_limit`: the limit moves by the size itself, before the whole pages it needs are requested, and
        stays when a request is refused. */
    method IncVmaLimit(inc_sz: nat, available: nat) returns (code: int)
      requires vm_end >= 0
      modifies this`vm_end, this`pages
      ensures vm_end == old(vm_end) + inc_sz
      ensures var n := VM.Align(inc_sz) / VM.PAGE;
              && code == (if available < n then -1 else 0)
              && pages == old(pages) + VM.Requests(old(vm_end), if available < n then available + 1 else n)
    {
      var inc_amt := VM.Align(inc_sz);
      var old_end := vm_end;
      vm_end := vm_end + inc_sz;
      code := VmapPageRange(old_end, inc_amt / VM.PAGE, available);
    }

    /** Set the region of symbol `rgid`. */
    method Bind(rgid: nat, rg: Region)
      requires Valid() && rgid < VM.SYMBOLS
      modifies symrgtbl
      ensures Valid() && State() == old(State()).(sym := old(State()).sym[rgid := rg])
    {
      ghost var vm := State();
      symrgtbl[rgid] := rg;
      assert State().sym == vm.sym[rgid := rg];
    }

    /** The part of `__alloc` that takes the space above `sbrk`. */
    method AllocTop(rgid: nat, size: nat, available: nat) returns (a: VM.Answer)
      requires Valid() && rgid < VM.SYMBOLS && size >= 1 && 0 <= vm_end
      modifies this`sbrk, this`vm_end, this`pages, symrgtbl
      ensures Valid() && (State(), a) == VM.AllocTop(old(State()), rgid, size, available)
    {
      var gap := vm_end - sbrk;
      var old_sbrk := sbrk;
      if gap >= size {
        sbrk := sbrk + size;
        Bind(rgid, Region(old_sbrk, old_sbrk + size));
        return VM.Answer(0, None);
      }
      var inc_sz := VM.Align(size - gap);
      VM.AlignUp(size - gap);
      VM.AlignUp(inc_sz);
      var code := IncVmaLimit(inc_sz, available);
      if code != 0 {
        return VM.Answer(-1, None);
      }
      sbrk := sbrk + size;
      Bind(rgid, Region(old_sbrk, old_sbrk + size));
      a := VM.Answer(0, Some(old_sbrk));
    }

    /** `__alloc`. */
    method Alloc(rgid: nat, size: nat, available: nat) returns (a: VM.Answer)
      requires Valid() && Ordered(vals) && rgid < VM.SYMBOLS && size >= 1 && 0 <= vm_end
      modifies this`nodes, this`vals, this`sbrk, this`vm_end, this`pages, Repr, symrgtbl
      ensures Valid() && (State(), a) == VM.Alloc(old(State()), rgid, size, available)
    {
      var rgnode := GetFreeVmrgArea(size);
      if rgnode.Some? {
        Bind(rgid, rgnode.value);
        a := VM.Answer(0, Some(rgnode.value.start));
      } else {
        a := AllocTop(rgid, size, available);
      }
    }

    /** `__free`. */
    method Free(rgid: int) returns (code: int)
      requires Valid() && rgid != VM.SYMBOLS
      modifies this`vm_freerg_list, this`nodes, this`vals, this`Repr, symrgtbl
      ensures Valid()
      ensures fresh(Repr - old(Repr))
      ensures (State(), code) == VM.Free(old(State()), rgid)
    {
      if rgid < 0 || rgid > VM.SYMBOLS {
        return -1;
      }
      var currg := symrgtbl[rgid];
      if currg.start == currg.end {
        return -1;
      }
      var free_rg := new Node(currg, null);
      Bind(rgid, VM.NO_REGION);
      code := Enlist(free_rg);
    }
  }
}
