/** A physical storage device: frame list, random and sequential access (src/mm-memphy.c), and the frame copy
    between devices (src/mm.c). */
module MemPhy {
  import opened Options
  import opened LinkedList
  import opened Sequences

  const PAGE: nat := 256

  type Byte = b: int | -128 <= b < 128

  // ----- Frames as values

  predicate FrameOk(storage: seq<Byte>, f: nat) {
    (f + 1) * PAGE <= |storage|
  }

  function Frame(storage: seq<Byte>, f: nat): (frame: seq<Byte>)
    requires FrameOk(storage, f)
    ensures |frame| == PAGE
  {
    storage[f * PAGE..(f + 1) * PAGE]
  }

  /** Device `dst` with its frame `j` replaced by frame `i` of device `src`. */
  function CopyFrame(src: seq<Byte>, i: nat, dst: seq<Byte>, j: nat): (dst': seq<Byte>)
    requires FrameOk(src, i) && FrameOk(dst, j)
    ensures |dst'| == |dst|
  {
    dst[..j * PAGE] + Frame(src, i) + dst[(j + 1) * PAGE..]
  }

  lemma FramesApart(f: nat, j: nat)
    ensures f < j ==> (f + 1) * PAGE <= j * PAGE
  {
  }

  /** A page put at address `to` is found there, and other pages are untouched. */
  lemma Spliced(dst: seq<Byte>, to: nat, page: seq<Byte>, from: nat)
    requires |page| == PAGE && to + PAGE <= |dst| && from + PAGE <= |dst|
    requires from == to || from + PAGE <= to || to + PAGE <= from
    ensures (dst[..to] + page + dst[to + PAGE..])[from..from + PAGE] == if from == to then page else dst[from..from + PAGE]
  {
  }

  /** A copy puts the source frame into the destination frame and leaves every other frame alone. */
  lemma CopyFrameFrames(src: seq<Byte>, i: nat, dst: seq<Byte>, j: nat, f: nat)
    requires FrameOk(src, i) && FrameOk(dst, j) && FrameOk(dst, f)
    ensures Frame(CopyFrame(src, i, dst, j), f) == if f == j then Frame(src, i) else Frame(dst, f)
  {
    FramesApart(f, j);
    FramesApart(j, f);
    Spliced(dst, j * PAGE, Frame(src, i), f * PAGE);
  }

  /** The swap device after the two copies that `pg_getpage` makes when no frame of RAM is free. The victim is in
      frame `vic` and goes to frame `out`; then frame `target` is copied to frame `vic`, again from RAM to swap. */
  function Swapped(ram: seq<Byte>, swp: seq<Byte>, vic: nat, out: nat, target: nat): (swp': seq<Byte>)
    requires FrameOk(ram, vic) && FrameOk(ram, target) && FrameOk(swp, out) && FrameOk(swp, vic)
    ensures |swp'| == |swp|
  {
    CopyFrame(ram, target, CopyFrame(ram, vic, swp, out), vic)
  }

  /** The victim's contents are in its new frame on the swap device if and only if the second copy does not hit
      that frame, or brings the same contents. No frame of swap but these two changes. */
  lemma VictimSavedIff(ram: seq<Byte>, swp: seq<Byte>, vic: nat, out: nat, target: nat)
    requires FrameOk(ram, vic) && FrameOk(ram, target) && FrameOk(swp, out) && FrameOk(swp, vic)
    ensures Frame(Swapped(ram, swp, vic, out, target), out) == Frame(ram, vic)
            <==> out != vic || Frame(ram, target) == Frame(ram, vic)
    ensures Frame(Swapped(ram, swp, vic, out, target), vic) == Frame(ram, target)
    ensures forall f: nat :: FrameOk(swp, f) && f != out && f != vic ==>
              Frame(Swapped(ram, swp, vic, out, target), f) == Frame(swp, f)
  {
    var once := CopyFrame(ram, vic, swp, out);
    CopyFrameFrames(ram, vic, swp, out, out);
    CopyFrameFrames(ram, target, once, vic, out);
    CopyFrameFrames(ram, target, once, vic, vic);
    forall f: nat | FrameOk(swp, f) && f != out && f != vic
      ensures Frame(CopyFrame(ram, target, once, vic), f) == Frame(swp, f)
    {
      CopyFrameFrames(ram, vic, swp, out, f);
      CopyFrameFrames(ram, target, once, vic, f);
    }
  }

  // ----- Frame accounting over any history

  /** Take a free frame, or give frame `f` back. */
  datatype FrameOp = GetFrame | PutFrame(f: nat)

  /** The free list and the frames handed out. */
  datatype Frames = Frames(free: seq<nat>, taken: set<nat>)

  /** `MEMPHY_format` with `n` frames. */
  function Formatted(n: nat): Frames {
    Frames(UpTo(n), {})
  }

  /** The only demand on the callers: what is given back had been handed out. */
  predicate Legal(s: Frames, op: FrameOp) {
    op.PutFrame? ==> op.f in s.taken
  }

  function FramesAfter(s: Frames, op: FrameOp): Frames {
    match op
    case GetFrame => if s.free == [] then s else Frames(s.free[1..], s.taken + {s.free[0]})
    case PutFrame(f) => Frames([f] + s.free, s.taken - {f})
  }

  ghost predicate Partition(s: Frames, n: nat) {
    && NoDup(s.free)
    && (forall f: nat :: f < n <==> f in s.free || f in s.taken)
    && (forall f: nat :: !(f in s.free && f in s.taken))
  }

  predicate AllLegal(s: Frames, ops: seq<FrameOp>)
    decreases |ops|
  {
    ops == [] || (Legal(s, ops[0]) && AllLegal(FramesAfter(s, ops[0]), ops[1..]))
  }

  function FramesRun(s: Frames, ops: seq<FrameOp>): Frames
    decreases |ops|
  {
    if ops == [] then s else FramesRun(FramesAfter(s, ops[0]), ops[1..])
  }

  lemma FrameStep(s: Frames, op: FrameOp, n: nat)
    requires Partition(s, n) && Legal(s, op)
    ensures Partition(FramesAfter(s, op), n)
    ensures |FramesAfter(s, op).free| + |FramesAfter(s, op).taken| == |s.free| + |s.taken|
  {
    match op
    case GetFrame =>
      if s.free != [] {
        assert s.free == [s.free[0]] + s.free[1..];
        assert s.free[0] in s.free;
        forall f | f in s.free[1..] ensures f != s.free[0] && f in s.free {
          var k :| 0 <= k < |s.free[1..]| && s.free[1..][k] == f;
          assert s.free[k + 1] == f;
        }
      }
    case PutFrame(f) =>
  }

  /** Over any gets and puts of taken frames, every frame of the device is either free or taken, never both,
      listed at most once, and none is lost. */
  lemma {:induction false} FramesStayPartitioned(s: Frames, ops: seq<FrameOp>, n: nat)
    requires Partition(s, n) && AllLegal(s, ops)
    ensures Partition(FramesRun(s, ops), n)
    ensures |FramesRun(s, ops).free| + |FramesRun(s, ops).taken| == |s.free| + |s.taken|
    decreases |ops|
  {
    if ops != [] {
      FrameStep(s, ops[0], n);
      FramesStayPartitioned(FramesAfter(s, ops[0]), ops[1..], n);
    }
  }

  /** A formatted device starts with all its frames free. */
  lemma FormatPartition(n: nat)
    ensures Partition(Formatted(n), n)
  {
    forall f: nat | f < n ensures f in UpTo(n) {
      assert UpTo(n)[f] == f;
    }
  }

  /** After a format and any gets and puts of taken frames, every frame of the device is free or taken, never both,
      and the free ones are listed once each. */
  lemma FramesAfterFormat(n: nat, ops: seq<FrameOp>)
    requires AllLegal(Formatted(n), ops)
    ensures Partition(FramesRun(Formatted(n), ops), n)
    ensures |FramesRun(Formatted(n), ops).free| + |FramesRun(Formatted(n), ops).taken| == n
  {
    FormatPartition(n);
    FramesStayPartitioned(Formatted(n), ops, n);
  }

  // ----- The order in which frames are handed out

  /** What `MEMPHY_get_freefp` hands out next. */
  function NextFrame(s: Frames): Option<nat> {
    if s.free == [] then None else Some(s.free[0])
  }

  function GetFrames(k: nat): (ops: seq<FrameOp>)
    ensures |ops| == k
  {
    seq(k, _ => GetFrame)
  }

  lemma {:induction false} FreeAfterGets(s: Frames, k: nat)
    requires k <= |s.free|
    ensures FramesRun(s, GetFrames(k)).free == s.free[k..]
    decreases k
  {
    if k > 0 {
      assert GetFrames(k)[1..] == GetFrames(k - 1);
      FreeAfterGets(FramesAfter(s, GetFrame), k - 1);
    }
  }

  /** After a format with `n` frames, successive calls hand out frame 0, 1, 2, ... up to the last, and then fail. */
  lemma FormattedInOrder(n: nat, k: nat)
    requires k <= n
    ensures NextFrame(FramesRun(Formatted(n), GetFrames(k))) == if k < n then Some(k) else None
  {
    FreeAfterGets(Formatted(n), k);
  }

  /** A frame given back is the next one handed out, and taking it again undoes the put. */
  lemma PutThenGet(s: Frames, f: nat)
    requires f in s.taken
    ensures NextFrame(FramesAfter(s, PutFrame(f))) == Some(f)
    ensures FramesAfter(FramesAfter(s, PutFrame(f)), GetFrame) == s
  {
    assert s.taken - {f} + {f} == s.taken;
    assert ([f] + s.free)[1..] == s.free;
  }

  // ----- The device

  lemma NextCell(c: nat, m: nat)
    requires c < m
    ensures (c + 1) % m == if c + 1 == m then 0 else c + 1
  {
  }

  class Device {
    const storage: array<Byte>
    const maxsz: nat
    const rdmflg: bool
    var cursor: nat
    var free_fp_list: Node?<nat>
    ghost var nodes: seq<Node<nat>>
    ghost var free: seq<nat>
    ghost var taken: set<nat>
    ghost var Repr: set<Node<nat>>

    ghost predicate Valid()
      reads this, Repr
    {
      && maxsz == storage.Length
      && (forall k :: 0 <= k < |nodes| ==> nodes[k] in Repr)
      && Linked(free_fp_list, nodes, free)
    }

    /** The frame accounting; `taken` is history: the frames handed out and not given back. */
    ghost function Accounts(): Frames
      reads this
    {
      Frames(free, taken)
    }

    constructor (max_size: nat, random: bool)
      ensures Valid() && maxsz == max_size && rdmflg == random && Accounts() == Frames([], {})
      ensures fresh(storage) && Repr == {}
    {
      storage := new Byte[max_size](_ => 0);
      maxsz, rdmflg, cursor := max_size, random, 0;
      free_fp_list, nodes, free, taken, Repr := null, [], [], {}, {};
    }

    /** A list whose last link need not be set yet. */
    ghost predicate Unfinished()
      reads this, Repr
    {
      && maxsz == storage.Length
      && nodes != [] && |free| == |nodes| && free_fp_list == nodes[0] && NoDup(nodes)
      && (forall k :: 0 <= k < |nodes| ==> nodes[k] in Repr && nodes[k].val == free[k])
      && (forall k {:trigger nodes[k].next} :: 0 <= k < |nodes| - 1 ==> nodes[k].next == nodes[k + 1])
    }

    /** Link a new frame behind the last one. */
    method Append(fst: Node<nat>, iter: nat) returns (newfst: Node<nat>)
      requires Unfinished() && fst == nodes[|nodes| - 1]
      modifies this`nodes, this`free, this`Repr, fst
      ensures Unfinished() && Valid() && fresh(newfst) && Repr == old(Repr) + {newfst}
      ensures nodes == old(nodes) + [newfst] && free == old(free) + [iter]
    {
      newfst := new Node<nat>(iter, null);
      fst.next := newfst;
      nodes, free, Repr := nodes + [newfst], free + [iter], Repr + {newfst};
    }

    /** `MEMPHY_format`. It never sets the link of the only frame of a one-frame device, which is `unset`. */
    method Format(pagesz: nat, unset: Node?<nat>) returns (code: int)
      requires Valid() && pagesz >= 1
      modifies this`free_fp_list, this`nodes, this`free, this`taken, this`Repr
      ensures code == if maxsz / pagesz == 0 then -1 else 0
      ensures maxsz / pagesz >= 2 ==> Valid() && Accounts() == Formatted(maxsz / pagesz) && fresh(Repr)
      ensures maxsz / pagesz == 1 ==> free_fp_list != null && free_fp_list.val == 0 && free_fp_list.next == unset
      ensures code != 0 ==> Valid() && Accounts() == old(Accounts()) && Repr == old(Repr)
    {
      var numfp := maxsz / pagesz;
      if numfp <= 0 {
        return -1;
      }
      var fst := new Node<nat>(0, unset);
      free_fp_list, nodes, free, taken, Repr := fst, [fst], [0], {}, {fst};
      var iter: nat := 1;
      while iter < numfp
        invariant 1 <= iter <= numfp && Unfinished() && fresh(Repr) && taken == {}
        invariant if iter == 1 then fst.next == unset else Valid()
        invariant |nodes| == iter && fst == nodes[iter - 1]
        invariant forall k :: 0 <= k < iter ==> free[k] == k
      {
        fst := Append(fst, iter);
        iter := iter + 1;
      }
      assert free == UpTo(numfp);
      code := 0;
    }

    /** `MEMPHY_get_freefp`: None where it returns -1. */
    method GetFreeFp() returns (fpn: Option<nat>)
      requires Valid()
      modifies this`free_fp_list, this`nodes, this`free, this`taken
      ensures Valid() && Accounts() == FramesAfter(old(Accounts()), GetFrame)
      ensures fpn == NextFrame(old(Accounts()))
    {
      if free_fp_list == null {
        return None;
      }
      fpn := Some(free_fp_list.val);
      free_fp_list := free_fp_list.next;
      nodes, free, taken := nodes[1..], free[1..], taken + {free[0]};
    }

    /** `MEMPHY_put_freefp`. */
    method PutFreeFp(fpn: nat)
      requires Valid()
      modifies this`free_fp_list, this`nodes, this`free, this`taken, this`Repr
      ensures Valid() && Accounts() == FramesAfter(old(Accounts()), PutFrame(fpn)) && fresh(Repr - old(Repr))
    {
      var newnode := new Node<nat>(fpn, free_fp_list);
      free_fp_list := newnode;
      nodes, free, taken, Repr := [newnode] + nodes, [fpn] + free, taken - {fpn}, Repr + {newnode};
    }

    /** `MEMPHY_mv_csr`. */
    method MvCsr(offset: int)
      modifies this`cursor
      ensures cursor == if 0 <= offset < maxsz then offset else 0
    {
      var numstep := 0;
      cursor := 0;
      while numstep < offset && numstep < maxsz
        invariant 0 <= numstep <= maxsz && (offset >= 0 ==> numstep <= offset) && (offset < 0 ==> numstep == 0)
        invariant cursor == if numstep == maxsz then 0 else numstep
      {
        NextCell(cursor, maxsz);
        cursor := (cursor + 1) % maxsz;
        numstep := numstep + 1;
      }
    }

    /** `MEMPHY_read` with `MEMPHY_seq_read`. The latter does not check the address: outside the device it
        yields what lies there in memory, `beyond`. */
    method Read(addr: int, beyond: Byte) returns (value: Option<Byte>)
      requires maxsz == storage.Length
      modifies this`cursor
      ensures 0 <= addr < maxsz ==> value == Some(storage[addr])
      ensures !(0 <= addr < maxsz) ==> value == if rdmflg then None else Some(beyond)
      ensures cursor == if rdmflg then old(cursor) else if 0 <= addr < maxsz then addr else 0
    {
      if rdmflg {
        if addr < 0 || addr >= maxsz {
          return None;
        }
        return Some(storage[addr]);
      }
      MvCsr(addr);
      value := Some(if 0 <= addr < maxsz then storage[addr] else beyond);
    }

    /** `MEMPHY_write` with `MEMPHY_seq_write`. */
    method Write(addr: int, data: Byte) returns (code: int)
      requires maxsz == storage.Length
      modifies this`cursor, storage
      ensures code == if 0 <= addr < maxsz then 0 else -1
      ensures storage[..] == if code == 0 then old(storage[..])[addr := data] else old(storage[..])
      ensures cursor == if code == 0 && !rdmflg then addr else old(cursor)
    {
      if addr < 0 || addr >= maxsz {
        return -1;
      }
      if !rdmflg {
        MvCsr(addr);
      }
      storage[addr] := data;
      code := 0;
    }
  }

  // ----- The copy between devices

  /** `dst` with its `n` bytes from `to` on replaced by the bytes of `src` from `from` on. */
  function Copied(src: seq<Byte>, from: nat, dst: seq<Byte>, to: nat, n: nat): (r: seq<Byte>)
    requires from + n <= |src| && to + n <= |dst|
    ensures |r| == |dst|
  {
    dst[..to] + src[from..from + n] + dst[to + n..]
  }

  /** Copying within one device has not overwritten the byte that is read next. */
  lemma UnreadKept(src: seq<Byte>, from: nat, to: nat, n: nat)
    requires n < PAGE && from + PAGE <= |src| && to + PAGE <= |src|
    requires from == to || from + PAGE <= to || to + PAGE <= from
    ensures Copied(src, from, src, to, n)[from + n] == src[from + n]
  {
  }

  lemma CopiedNext(src: seq<Byte>, from: nat, dst: seq<Byte>, to: nat, n: nat)
    requires from + n < |src| && to + n < |dst|
    ensures Copied(src, from, dst, to, n + 1) == Copied(src, from, dst, to, n)[to + n := src[from + n]]
  {
  }

  /** One turn of the copy loop: read a byte of one device and write it to the other. */
  method CopyCell(mpsrc: Device, from: nat, mpdst: Device, to: nat, cellidx: nat, ghost src: seq<Byte>, ghost dst: seq<Byte>)
    requires mpsrc.maxsz == mpsrc.storage.Length && mpdst.maxsz == mpdst.storage.Length
    requires if mpsrc == mpdst then src == dst else mpsrc.storage != mpdst.storage && mpsrc.storage[..] == src
    requires |src| == mpsrc.maxsz && |dst| == mpdst.maxsz && cellidx < PAGE
    requires from + PAGE <= mpsrc.maxsz && to + PAGE <= mpdst.maxsz
    requires from == to || from + PAGE <= to || to + PAGE <= from
    requires mpdst.storage[..] == Copied(src, from, dst, to, cellidx)
    modifies mpsrc`cursor, mpdst`cursor, mpdst.storage
    ensures mpdst.storage[..] == Copied(src, from, dst, to, cellidx + 1)
    ensures mpsrc != mpdst ==> mpsrc.storage[..] == src
  {
    if mpsrc == mpdst {
      UnreadKept(src, from, to, cellidx);
    }
    CopiedNext(src, from, dst, to, cellidx);
    var data := mpsrc.Read(from + cellidx, 0);
    assert data.value == mpsrc.storage[..][from + cellidx] == src[from + cellidx];
    var code := mpdst.Write(to + cellidx, data.value);
  }

  /** The copy loop, from address `from` to address `to`. */
  method CopyPage(mpsrc: Device, from: nat, mpdst: Device, to: nat)
    requires mpsrc.maxsz == mpsrc.storage.Length && mpdst.maxsz == mpdst.storage.Length
    requires mpsrc != mpdst ==> mpsrc.storage != mpdst.storage
    requires from + PAGE <= mpsrc.maxsz && to + PAGE <= mpdst.maxsz
    requires from == to || from + PAGE <= to || to + PAGE <= from
    modifies mpsrc`cursor, mpdst`cursor, mpdst.storage
    ensures mpdst.storage[..] == Copied(old(mpsrc.storage[..]), from, old(mpdst.storage[..]), to, PAGE)
    ensures mpsrc != mpdst ==> mpsrc.storage[..] == old(mpsrc.storage[..])
  {
    ghost var src, dst := mpsrc.storage[..], mpdst.storage[..];
    assert Copied(src, from, dst, to, 0) == dst;
    var cellidx := 0;
    while cellidx < PAGE
      invariant 0 <= cellidx <= PAGE
      invariant mpsrc != mpdst ==> mpsrc.storage[..] == src
      invariant mpdst.storage[..] == Copied(src, from, dst, to, cellidx)
    {
      CopyCell(mpsrc, from, mpdst, to, cellidx, src, dst);
      cellidx := cellidx + 1;
    }
  }

  /** `__swap_cp_page`, for any two devices, also for one device with itself, each random or sequential. */
  method SwapCpPage(mpsrc: Device, srcfpn: nat, mpdst: Device, dstfpn: nat)
    requires mpsrc.maxsz == mpsrc.storage.Length && mpdst.maxsz == mpdst.storage.Length
    requires mpsrc != mpdst ==> mpsrc.storage != mpdst.storage
    requires FrameOk(mpsrc.storage[..], srcfpn) && FrameOk(mpdst.storage[..], dstfpn)
    modifies mpsrc`cursor, mpdst`cursor, mpdst.storage
    ensures mpdst.storage[..] == CopyFrame(old(mpsrc.storage[..]), srcfpn, old(mpdst.storage[..]), dstfpn)
    ensures mpsrc != mpdst ==> mpsrc.storage[..] == old(mpsrc.storage[..])
  {
    FramesApart(srcfpn, dstfpn);
    FramesApart(dstfpn, srcfpn);
    CopyPage(mpsrc, srcfpn * PAGE, mpdst, dstfpn * PAGE);
  }

  /** The branch of `pg_getpage` for a full RAM, without its page table updates: both copies go from RAM to swap,
      so the page that is wanted is not brought into RAM, which stays as it is. */
  method SwapPages(ram: Device, swp: Device, vic: nat, out: nat, target: nat)
    requires ram.maxsz == ram.storage.Length && swp.maxsz == swp.storage.Length
    requires ram != swp && ram.storage != swp.storage
    requires FrameOk(ram.storage[..], vic) && FrameOk(ram.storage[..], target)
    requires FrameOk(swp.storage[..], out) && FrameOk(swp.storage[..], vic)
    modifies ram`cursor, swp`cursor, swp.storage
    ensures ram.storage[..] == old(ram.storage[..])
    ensures swp.storage[..] == Swapped(old(ram.storage[..]), old(swp.storage[..]), vic, out, target)
  {
    SwapCpPage(ram, vic, swp, out);
    SwapCpPage(ram, target, swp, vic);
  }
}
