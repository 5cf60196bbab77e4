/**
The scan of the free-region list in `get_free_vmrg_area` (src/mm-vm.c), on values.

The scan does not stop at a region that fits: it goes on with what is left of that
region and with the regions after it, and the last piece it cut off is its result.
*/
module Regions {
  import opened Options

  /** The addresses from `start` up to but not including `end`. */
  datatype Region = Region(start: int, end: int) {
    function Len(): int {
      end - start
    }
  }

  /** What a scan leaves in the free list, and what it found. */
  datatype Scan = Scan(free: seq<Region>, found: Option<Region>)

  predicate Ordered(rs: seq<Region>) {
    forall k :: 0 <= k < |rs| ==> rs[k].start <= rs[k].end
  }

  /** The lengths of all the regions. */
  function Total(rs: seq<Region>): int {
    if rs == [] then 0 else rs[0].Len() + Total(rs[1..])
  }

  lemma {:induction false} TotalNotNegative(rs: seq<Region>)
    requires Ordered(rs)
    ensures Total(rs) >= 0
  {
    if rs != [] {
      TotalNotNegative(rs[1..]);
    }
  }

  predicate Fits(r: Region, size: nat) {
    r.start + size <= r.end
  }

  /** The list from the scan's cursor on, after `size` bytes were cut off the region at the cursor: the region
      shrinks, or is overwritten with its successor, or, at the end of the list, stays as an empty region. */
  function Cut(rs: seq<Region>, size: nat): (rs': seq<Region>)
    requires rs != [] && Fits(rs[0], size)
    ensures rs' != [] && (Ordered(rs) ==> Ordered(rs'))
  {
    var r := rs[0];
    if r.start + size < r.end then [Region(r.start + size, r.end)] + rs[1..]
    else if |rs| > 1 then rs[1..]
    else [Region(r.end, r.end)]
  }

  lemma CutTotal(rs: seq<Region>, size: nat)
    requires rs != [] && Fits(rs[0], size)
    ensures Total(Cut(rs, size)) == Total(rs) - size && |Cut(rs, size)| <= |rs|
  {
    var r := rs[0];
    if r.start + size < r.end {
      assert ([Region(r.start + size, r.end)] + rs[1..])[1..] == rs[1..];
    }
  }

  /** The whole scan. */
  function Carve(rs: seq<Region>, size: nat): Scan
    requires size >= 1 && Ordered(rs)
    decreases Total(rs), |rs|
  {
    TotalNotNegative(rs);
    if rs == [] then Scan([], None)
    else if Fits(rs[0], size) then
      CutTotal(rs, size);
      var rest := Carve(Cut(rs, size), size);
      Scan(rest.free, if rest.found.Some? then rest.found else Some(Region(rs[0].start, rs[0].start + size)))
    else
      var rest := Carve(rs[1..], size);
      Scan([rs[0]] + rest.free, rest.found)
  }

  /** A region that does not fit is passed. */
  lemma CarveSkips(rs: seq<Region>, size: nat)
    requires size >= 1 && Ordered(rs) && rs != [] && !Fits(rs[0], size)
    ensures var rest := Carve(rs[1..], size); Carve(rs, size) == Scan([rs[0]] + rest.free, rest.found)
    ensures rs == [rs[0]] + rs[1..] && Total(rs[1..]) <= Total(rs)
  {
    assert Total(rs) == rs[0].Len() + Total(rs[1..]) && rs[0].start <= rs[0].end;
  }

  // ----- The scan in closed form

  /** A fitting region is cut down to its last `length mod size` bytes. */
  function Rest(r: Region, size: nat): Region
    requires size >= 1
  {
    if Fits(r, size) then Region(r.end - r.Len() % size, r.end) else r
  }

  /** What stays free: the rest of every region; a region that is used up disappears unless it is the last one. */
  function Residue(rs: seq<Region>, size: nat): seq<Region>
    requires size >= 1
  {
    if rs == [] then []
    else if |rs| > 1 && Fits(rs[0], size) && rs[0].Len() % size == 0 then Residue(rs[1..], size)
    else [Rest(rs[0], size)] + Residue(rs[1..], size)
  }

  /** The last block of `size` bytes before the rest of a fitting region. */
  function LastBlock(r: Region, size: nat): Region
    requires size >= 1 && Fits(r, size)
  {
    Region(Rest(r, size).start - size, Rest(r, size).start)
  }

  /** The result of the scan: the last block of the last region that fits. */
  function LastFit(rs: seq<Region>, size: nat): Option<Region>
    requires size >= 1
  {
    if rs == [] then None
    else if LastFit(rs[1..], size).Some? then LastFit(rs[1..], size)
    else if Fits(rs[0], size) then Some(LastBlock(rs[0], size))
    else None
  }

  /** How many blocks of `size` bytes the scan cuts off. */
  function Blocks(rs: seq<Region>, size: nat): nat
    requires size >= 1 && Ordered(rs)
  {
    if rs == [] then 0 else rs[0].Len() / size + Blocks(rs[1..], size)
  }

  lemma MulMono(a: int, b: int, d: nat)
    requires a <= b
    ensures d * a <= d * b
  {
  }

  lemma DivModUnique(n: int, d: nat, q: int, r: int)
    requires d >= 1 && n == d * q + r && 0 <= r < d
    ensures n / d == q && n % d == r
  {
    var q' := n / d;
    assert d * (q - q') == n % d - r;
    if q > q' {
      MulMono(1, q - q', d);
    } else if q < q' {
      MulMono(q - q', -1, d);
    }
  }

  lemma ModStep(n: int, size: nat)
    requires size >= 1
    ensures (n - size) % size == n % size
    ensures (n - size) / size == n / size - 1
    ensures n == size * (n / size) + n % size
    ensures 0 <= n < size ==> n % size == n && n / size == 0
    ensures n >= size ==> n / size >= 1
  {
    var q, r := n / size, n % size;
    assert n - size == size * (q - 1) + r;
    DivModUnique(n - size, size, q - 1, r);
    if 0 <= n < size {
      DivModUnique(n, size, 0, n);
    }
    if q <= 0 {
      MulMono(q, 0, size);
    }
  }

  /** Cutting one block off a region keeps its rest, and its last block as long as another one fits. */
  lemma ShrinkRest(r: Region, size: nat)
    requires size >= 1 && Fits(r, size)
    ensures var r' := Region(r.start + size, r.end);
            && Rest(r', size) == Rest(r, size) && r'.Len() % size == r.Len() % size
            && (if Fits(r', size) then LastBlock(r', size) == LastBlock(r, size)
                else LastBlock(r, size) == Region(r.start, r.start + size))
  {
    ModStep(r.Len(), size);
    ModStep(r.Len() - size, size);
  }

  /** A region that is not empty but too short is not a whole number of blocks. */
  lemma UsedUp(r: Region, size: nat)
    requires size >= 1 && r.start < r.end
    ensures !Fits(r, size) ==> r.Len() % size != 0
  {
    if !Fits(r, size) {
      ModStep(r.Len(), size);
    }
  }

  /** Cutting one block off the first region changes neither what stays nor, as long as more fits, the result. */
  lemma CutClosed(rs: seq<Region>, size: nat)
    requires size >= 1 && rs != [] && Fits(rs[0], size) && Ordered(rs)
    ensures Residue(Cut(rs, size), size) == Residue(rs, size)
    ensures LastFit(rs, size) ==
            if LastFit(Cut(rs, size), size).Some? then LastFit(Cut(rs, size), size)
            else Some(Region(rs[0].start, rs[0].start + size))
  {
    var r, cut := rs[0], Cut(rs, size);
    ShrinkRest(r, size);
    if r.start + size < r.end {
      assert cut[1..] == rs[1..];
      UsedUp(Region(r.start + size, r.end), size);
    } else if |rs| == 1 {
      assert rs[1..] == [] && cut[1..] == [];
    }
  }

  /** The scan leaves every region its length modulo `size`, and returns the last block it cut off. */
  lemma {:induction false} CarveClosed(rs: seq<Region>, size: nat)
    requires size >= 1 && Ordered(rs)
    ensures Carve(rs, size) == Scan(Residue(rs, size), LastFit(rs, size))
    decreases Total(rs), |rs|
  {
    TotalNotNegative(rs);
    if rs != [] {
      if Fits(rs[0], size) {
        CutTotal(rs, size);
        CarveClosed(Cut(rs, size), size);
        CutClosed(rs, size);
      } else {
        CarveClosed(rs[1..], size);
      }
    }
  }

  /** A region is found exactly when some free region is long enough. */
  lemma {:induction false} FoundIff(rs: seq<Region>, size: nat)
    requires size >= 1
    ensures LastFit(rs, size).Some? <==> exists k :: 0 <= k < |rs| && Fits(rs[k], size)
    ensures LastFit(rs, size).Some? ==> LastFit(rs, size).value.Len() == size
  {
    if rs != [] {
      FoundIff(rs[1..], size);
      if k :| 0 <= k < |rs[1..]| && Fits(rs[1..][k], size) {
        assert Fits(rs[k + 1], size);
      }
      if k :| 0 <= k < |rs| && Fits(rs[k], size) {
        assert k > 0 ==> Fits(rs[1..][k - 1], size);
      }
    }
  }

  /** The result is the last whole block of the last region that is long enough. */
  lemma {:induction false} ResultIs(rs: seq<Region>, size: nat, k: nat)
    requires size >= 1 && k < |rs| && Fits(rs[k], size)
    requires forall j :: k < j < |rs| ==> !Fits(rs[j], size)
    ensures var end := rs[k].end - rs[k].Len() % size; LastFit(rs, size) == Some(Region(end - size, end))
  {
    var tail := rs[1..];
    FoundIff(tail, size);
    if k > 0 {
      ResultIs(tail, size, k - 1);
    } else {
      assert forall j :: 0 <= j < |tail| ==> tail[j] == rs[j + 1];
    }
  }

  /** What is left of every region is still free, in place of it: all of it if it is too short, else its last
      `length mod size` bytes, if there are any. */
  lemma {:induction false} RemainderIsFree(rs: seq<Region>, size: nat, k: nat)
    requires size >= 1 && k < |rs|
    ensures !Fits(rs[k], size) ==> rs[k] in Residue(rs, size)
    ensures Fits(rs[k], size) && rs[k].Len() % size > 0 ==>
              Region(rs[k].end - rs[k].Len() % size, rs[k].end) in Residue(rs, size)
  {
    if k > 0 {
      RemainderIsFree(rs[1..], size, k - 1);
    }
  }

  /** Nothing found, nothing changed. */
  lemma {:induction false} NotFoundNothingChanged(rs: seq<Region>, size: nat)
    requires size >= 1 && LastFit(rs, size).None?
    ensures Residue(rs, size) == rs
  {
    if rs != [] {
      NotFoundNothingChanged(rs[1..], size);
    }
  }

  // ----- Accounting

  /** A region loses its whole blocks; it fits if and only if it has one. */
  lemma RestAccount(r: Region, size: nat)
    requires size >= 1 && r.start <= r.end
    ensures Rest(r, size).start <= Rest(r, size).end
    ensures Rest(r, size).Len() == r.Len() - size * (r.Len() / size)
    ensures Fits(r, size) <==> r.Len() / size >= 1
  {
    ModStep(r.Len(), size);
  }

  lemma Distribute(size: nat, n: nat, m: nat)
    ensures size * (n + m) == size * n + size * m
  {
  }

  /** Exactly the blocks that were cut off leave the free list. */
  lemma {:induction false} CarveAccount(rs: seq<Region>, size: nat)
    requires size >= 1 && Ordered(rs)
    ensures Ordered(Residue(rs, size))
    ensures Total(Residue(rs, size)) == Total(rs) - size * Blocks(rs, size)
    ensures LastFit(rs, size).Some? <==> Blocks(rs, size) >= 1
  {
    if rs != [] {
      var r, tail := rs[0], rs[1..];
      CarveAccount(tail, size);
      RestAccount(r, size);
      Distribute(size, r.Len() / size, Blocks(tail, size));
      if !(|rs| > 1 && Fits(r, size) && r.Len() % size == 0) {
        assert ([Rest(r, size)] + Residue(tail, size))[1..] == Residue(tail, size);
      }
    }
  }

  lemma OnlyOne(size: nat, n: nat)
    requires size >= 1 && n >= 1
    ensures size * n == size <==> n == 1
  {
    if n > 1 {
      MulMono(2, n, size);
    }
  }

  /** No free byte is lost by a successful scan if and only if it cuts off one block only. */
  lemma NoByteLostIff(rs: seq<Region>, size: nat)
    requires size >= 1 && Ordered(rs) && Carve(rs, size).found.Some?
    ensures Total(Carve(rs, size).free) + size == Total(rs) <==> Blocks(rs, size) == 1
  {
    CarveClosed(rs, size);
    CarveAccount(rs, size);
    OnlyOne(size, Blocks(rs, size));
  }

  // ----- First fit

  /** The first-fit search that the routine's comment announces: stop at the first region that fits. */
  function FirstFit(rs: seq<Region>, size: nat): Scan {
    if rs == [] then Scan([], None)
    else if Fits(rs[0], size) then Scan(Cut(rs, size), Some(Region(rs[0].start, rs[0].start + size)))
    else
      var rest := FirstFit(rs[1..], size);
      Scan([rs[0]] + rest.free, rest.found)
  }

  lemma {:induction false} FirstFitAccount(rs: seq<Region>, size: nat)
    requires size >= 1 && Ordered(rs)
    ensures Total(FirstFit(rs, size).free) == Total(rs) - (if FirstFit(rs, size).found.Some? then size else 0)
    ensures FirstFit(rs, size).found.Some? <==> LastFit(rs, size).Some?
  {
    if rs != [] {
      if Fits(rs[0], size) {
        CutTotal(rs, size);
      } else {
        FirstFitAccount(rs[1..], size);
        assert FirstFit(rs, size).free[1..] == FirstFit(rs[1..], size).free;
      }
    }
  }

  lemma CutBlocks(rs: seq<Region>, size: nat)
    requires size >= 1 && Ordered(rs) && rs != [] && Fits(rs[0], size)
    ensures Blocks(Cut(rs, size), size) == Blocks(rs, size) - 1
  {
    var r := rs[0];
    ModStep(r.Len(), size);
    if r.start + size < r.end {
      assert Cut(rs, size)[1..] == rs[1..];
    } else {
      ModStep(0, size);
      assert |rs| == 1 ==> rs[1..] == [];
    }
  }

  lemma {:induction false} OneBlockIsFirstFit(rs: seq<Region>, size: nat)
    requires size >= 1 && Ordered(rs) && Blocks(rs, size) <= 1
    ensures Carve(rs, size) == FirstFit(rs, size)
  {
    if rs != [] {
      ModStep(rs[0].Len(), size);
      CarveAccount(rs[1..], size);
      if Fits(rs[0], size) {
        var cut := Cut(rs, size);
        CutTotal(rs, size);
        CarveClosed(cut, size);
        CutBlocks(rs, size);
        CarveAccount(cut, size);
        NotFoundNothingChanged(cut, size);
      } else {
        OneBlockIsFirstFit(rs[1..], size);
      }
    }
  }

  /** The routine is a first-fit search if and only if the free list holds at most one block of that size. */
  lemma FirstFitIff(rs: seq<Region>, size: nat)
    requires size >= 1 && Ordered(rs)
    ensures Carve(rs, size) == FirstFit(rs, size) <==> Blocks(rs, size) <= 1
  {
    if Blocks(rs, size) <= 1 {
      OneBlockIsFirstFit(rs, size);
    } else {
      CarveClosed(rs, size);
      CarveAccount(rs, size);
      FirstFitAccount(rs, size);
      MulMono(2, Blocks(rs, size), size);
    }
  }

  // ----- Termination

  /** One turn of the scan's loop, on the list from its cursor on. */
  function Turn(rs: seq<Region>, size: nat): seq<Region>
    requires rs != []
  {
    if Fits(rs[0], size) then Cut(rs, size) else rs[1..]
  }

  function Turns(rs: seq<Region>, size: nat, n: nat): seq<Region>
    decreases n
  {
    if n == 0 || rs == [] then rs else Turns(Turn(rs, size), size, n - 1)
  }

  lemma {:induction false} TurnsForever(rs: seq<Region>, n: nat)
    requires rs != [] && Ordered(rs)
    ensures Turns(rs, 0, n) != []
    decreases n
  {
    if n > 0 {
      TurnsForever(Turn(rs, 0), n - 1);
    }
  }

  lemma {:induction false} TurnsEnd(rs: seq<Region>, size: nat) returns (n: nat)
    requires size >= 1 && Ordered(rs)
    ensures Turns(rs, size, n) == []
    decreases Total(rs), |rs|
  {
    n := 0;
    TotalNotNegative(rs);
    if rs != [] {
      if Fits(rs[0], size) {
        CutTotal(rs, size);
      }
      var m := TurnsEnd(Turn(rs, size), size);
      n := m + 1;
    }
  }

  /** The loop ends if and only if the requested size is positive or the free list is empty. */
  lemma ScanEndsIff(rs: seq<Region>, size: nat)
    requires Ordered(rs)
    ensures (exists n: nat :: Turns(rs, size, n) == []) <==> size >= 1 || rs == []
  {
    if size >= 1 {
      var n := TurnsEnd(rs, size);
    } else if rs != [] {
      forall n: nat ensures Turns(rs, 0, n) != [] {
        TurnsForever(rs, n);
      }
    } else {
      assert Turns(rs, size, 0) == [];
    }
  }

  // ----- Disjointness

  /** The two regions have no byte in common. */
  predicate Apart(a: Region, b: Region) {
    a.end <= b.start || b.end <= a.start || a.end <= a.start || b.end <= b.start
  }

  predicate ApartFrom(a: Region, rs: seq<Region>) {
    forall k :: 0 <= k < |rs| ==> Apart(a, rs[k])
  }

  predicate PairwiseApart(rs: seq<Region>) {
    forall j, k :: 0 <= j < k < |rs| ==> Apart(rs[j], rs[k])
  }

  predicate Inside(a: Region, b: Region) {
    b.start <= a.start && a.end <= b.end
  }

  predicate InsideSome(a: Region, rs: seq<Region>) {
    exists k :: 0 <= k < |rs| && Inside(a, rs[k])
  }

  /** Every region of the first list lies inside a region of the second. */
  predicate Refines(rs: seq<Region>, outer: seq<Region>) {
    forall j :: 0 <= j < |rs| ==> InsideSome(rs[j], outer)
  }

  lemma BlockInside(r: Region, size: nat)
    requires size >= 1 && r.start <= r.end
    ensures Inside(Rest(r, size), r) && Rest(r, size).start <= Rest(r, size).end
    ensures Fits(r, size) ==>
              Inside(LastBlock(r, size), r) && Apart(LastBlock(r, size), Rest(r, size)) && LastBlock(r, size).Len() == size
  {
    ModStep(r.Len(), size);
    if Fits(r, size) {
      MulMono(1, r.Len() / size, size);
    }
  }

  /** What stays free lies inside what was free, and so does the result. */
  lemma {:induction false} CarveInside(rs: seq<Region>, size: nat)
    requires size >= 1 && Ordered(rs)
    ensures Refines(Residue(rs, size), rs)
    ensures LastFit(rs, size).Some? ==> InsideSome(LastFit(rs, size).value, rs)
  {
    if rs != [] {
      var tail := rs[1..];
      CarveInside(tail, size);
      BlockInside(rs[0], size);
      forall a | InsideSome(a, tail) ensures InsideSome(a, rs) {
        var k :| 0 <= k < |tail| && Inside(a, tail[k]);
        assert Inside(a, rs[k + 1]);
      }
      assert Inside(Rest(rs[0], size), rs[0]);
      assert Fits(rs[0], size) ==> Inside(LastBlock(rs[0], size), rs[0]);
    }
  }

  /** A region apart from everything free stays apart from what a scan leaves and returns. */
  lemma {:induction false} CarveKeepsApart(a: Region, rs: seq<Region>, size: nat)
    requires size >= 1 && Ordered(rs) && ApartFrom(a, rs)
    ensures ApartFrom(a, Residue(rs, size))
    ensures LastFit(rs, size).Some? ==> Apart(a, LastFit(rs, size).value)
  {
    if rs != [] {
      CarveKeepsApart(a, rs[1..], size);
      BlockInside(rs[0], size);
      assert Apart(a, rs[0]);
    }
  }

  /** Pairwise disjoint free regions stay pairwise disjoint, and the result is disjoint from all of them. */
  lemma {:induction false} CarveApart(rs: seq<Region>, size: nat)
    requires size >= 1 && Ordered(rs) && PairwiseApart(rs)
    ensures PairwiseApart(Residue(rs, size))
    ensures LastFit(rs, size).Some? ==> ApartFrom(LastFit(rs, size).value, Residue(rs, size))
  {
    if rs != [] {
      var r, tail := rs[0], rs[1..];
      CarveApart(tail, size);
      BlockInside(r, size);
      assert ApartFrom(r, tail);
      CarveKeepsApart(Rest(r, size), tail, size);
      if Fits(r, size) {
        CarveKeepsApart(LastBlock(r, size), tail, size);
      }
    }
  }
}
