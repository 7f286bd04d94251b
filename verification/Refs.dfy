/** Reference validation (check_ref): a pure function of the metadata, and what it implies on
    a consistent allocator. */
module Refs {
  import opened Base
  import opened Lists
  import opened SizeClass
  import opened Layout
  import opened PoolHeap
  import opened Objects
  import opened State

  datatype RefCheck = RefCheck(st: Status, addr: nat)

  predicate Pow2Align(a: nat) {
    a == 1 || a == 2 || a == 4 || a == 8
  }

  // The accepted alignments are the powers of two up to 8.
  lemma AlignmentAccepted(a: nat)
    ensures Pow2Align(a) <==> a <= 8 && exists k: nat :: a == Pow2(k)
  {
    assert Pow2(0) == 1 && Pow2(1) == 2 && Pow2(2) == 4 && Pow2(3) == 8;
    if k: nat :| a == Pow2(k) {
      if k > 3 { Pow2Mono(4, k); }
    }
  }

  // desc_block_consistent
  predicate DescConsistent(d: ObjectDesc) {
    && d.blockSize >= MIN_BLOCK && d.blockSize % ALIGN == 0
    && d.size <= d.blockSize - HEADER && d.size != 0 && d.address % ALIGN == 0
  }

  predicate LinksInTable(d: ObjectDesc, n: nat) {
    && (d.addrPrev != NO_ORDER ==> d.addrPrev < n)
    && (d.addrNext != NO_ORDER ==> d.addrNext < n)
  }

  // The block of d lies inside the window of its pool.
  predicate InWindow(d: ObjectDesc, P: Pool, seg: nat) {
    var pstart, pend := PoolStart(P, seg), PoolEnd(P, seg);
    && d.address >= HEADER
    && pstart <= d.address - HEADER < pend
    && d.blockSize <= pend - (d.address - HEADER)
    && d.address + d.size <= pend
  }

  function CheckRef(ps: seq<Pool>, ds: seq<ObjectDesc>, seg: nat, segCount: nat, zoneSize: nat,
                    ref: RawRef, accessSize: u32, accessAlign: u32, needRunning: bool): RefCheck
  {
    if ref.index >= |ds| || ref.generation == 0 then RefCheck(InvalidRef, 0)
    else
      var d := ds[ref.index];
      if !d.state.LiveObj? || d.generation != ref.generation then RefCheck(InvalidRef, 0)
      else if !DescConsistent(d) || !LinksInTable(d, |ds|) then RefCheck(CorruptMetadata, 0)
      else if d.poolId >= |ps| || ps[d.poolId].state.Empty? then RefCheck(CorruptMetadata, 0)
      else
        var P := ps[d.poolId];
        if !GeometryOk(P, seg, segCount, zoneSize) || !InWindow(d, P, seg) then RefCheck(CorruptMetadata, 0)
        else if ref.poolHint != CROSS_HINT && ref.poolHint != d.poolId then RefCheck(PoolChanged, 0)
        else if needRunning && !P.state.Running? then RefCheck(Busy, 0)
        else if !Pow2Align(accessAlign) then RefCheck(InvalidAlignment, 0)
        else if ref.offset > d.size || accessSize > d.size - ref.offset then RefCheck(InvalidRef, 0)
        else if (d.address + ref.offset) % accessAlign != 0 then RefCheck(InvalidAlignment, 0)
        else RefCheck(Ok, d.address + ref.offset)
  }

  // A live descriptor of a consistent allocator: where its block is.
  lemma LiveSlot(z: seq<u32>, ps: seq<Pool>, ds: seq<ObjectDesc>, head: u16, seg: nat, segCount: nat, zoneSize: nat,
                 abs: seq<APool>, stack: seq<nat>, sl: nat)
    requires Inv(z, ps, ds, head, seg, segCount, zoneSize, abs, stack)
    requires sl < |ds| && ds[sl].state.LiveObj?
    ensures var p := ds[sl].poolId;
            && p < |ps| == |abs| && !ps[p].state.Empty? && sl in abs[p].order
            && PoolSlotOk(z, ps[p], ds, p, abs[p], seg, segCount, zoneSize)
            && LiveDesc(ds[sl], p) && PlacedAt(ds[sl], abs[p].L, sl)
            && LinksInTable(ds[sl], |ds|)
  {
    hide PoolLay, Counters;
    assert SlotOwned(ps, ds, abs, sl);
    var p := ds[sl].poolId;
    assert PoolSlotOk(z, ps[p], ds, p, abs[p], seg, segCount, zoneSize);
    var order := abs[p].order;
    var i: int := IndexOf(order, sl);
    assert ds[order[i]].addrNext == At(order, i + 1) && ds[order[i]].addrPrev == At(order, i - 1);
  }

  lemma LiveInWindow(z: seq<u32>, P: Pool, ds: seq<ObjectDesc>, pid: nat, A: APool, seg: nat, sl: nat)
    requires PoolOk(z, P, ds, pid, A, seg) && sl in A.order
    ensures sl < |ds| && LiveDesc(ds[sl], pid) && PlacedAt(ds[sl], A.L, sl)
    ensures DescConsistent(ds[sl]) && InWindow(ds[sl], P, seg)
  {
    hide Counters;
    assert LiveDesc(ds[sl], pid) && PlacedAt(ds[sl], A.L, sl);
    BlockHeaderFacts(z, A.L, PoolStart(P, seg), PoolEnd(P, seg), ds[sl].address - HEADER);
    AlignedBlock(A.L, ds[sl].address - HEADER);
  }

  lemma LiveFits(d: ObjectDesc, p: nat)
    requires LiveDesc(d, p)
    ensures d.generation != 0
  {
  }

  lemma AlignedBlock(L: Lay, o: nat)
    requires Shaped(L) && o in L
    ensures o % ALIGN == 0 && (o + HEADER) % ALIGN == 0
  {
  }

  // The verdict on a reference in terms of the object table alone: whether it is current, bound
  // to the right pool, in an available pool, and inside the object.
  function RefStatus(ps: seq<Pool>, ds: seq<ObjectDesc>, ref: RawRef, accessSize: u32, accessAlign: u32, needRunning: bool): Status {
    if ref.index >= |ds| || !ds[ref.index].state.LiveObj? || ds[ref.index].generation != ref.generation then InvalidRef
    else
      var d := ds[ref.index];
      if ref.poolHint != CROSS_HINT && ref.poolHint != d.poolId then PoolChanged
      else if needRunning && (d.poolId >= |ps| || !ps[d.poolId].state.Running?) then Busy
      else if !Pow2Align(accessAlign) then InvalidAlignment
      else if ref.offset + accessSize > d.size then InvalidRef
      else if (d.address + ref.offset) % accessAlign != 0 then InvalidAlignment
      else Ok
  }

  // On a consistent allocator a reference is never reported corrupt. The verdict is decided, in
  // this order, by slot and generation, pool hint, pool state, alignment, range and address.
  lemma CheckRefMeaning(z: seq<u32>, ps: seq<Pool>, ds: seq<ObjectDesc>, head: u16, seg: nat, segCount: nat, zoneSize: nat,
                        abs: seq<APool>, stack: seq<nat>, ref: RawRef, accessSize: u32, accessAlign: u32, needRunning: bool)
    requires Inv(z, ps, ds, head, seg, segCount, zoneSize, abs, stack)
    ensures var r := CheckRef(ps, ds, seg, segCount, zoneSize, ref, accessSize, accessAlign, needRunning);
            && r.st == RefStatus(ps, ds, ref, accessSize, accessAlign, needRunning)
            && r.st == (if ref.index >= |ds| || !ds[ref.index].state.LiveObj? || ds[ref.index].generation != ref.generation then InvalidRef
                        else if ref.poolHint != 0xFFFF && ref.poolHint != ds[ref.index].poolId then PoolChanged
                        else if needRunning && (ds[ref.index].poolId >= |ps| || ps[ds[ref.index].poolId].state != Running) then Busy
                        else if accessAlign > 8 || !exists k: nat :: accessAlign == Pow2(k) then InvalidAlignment
                        else if ref.offset + accessSize > ds[ref.index].size then InvalidRef
                        else if (ds[ref.index].address + ref.offset) % accessAlign != 0 then InvalidAlignment
                        else Ok)
            && (r.st == Ok ==> ds[ref.index].poolId < |ps| && r.addr == ds[ref.index].address + ref.offset)
  {
    hide Inv, PoolOk, DescConsistent, LinksInTable, InWindow, GeometryOk, Pow2Align, LiveDesc, PlacedAt;
    AlignmentAccepted(accessAlign);
    if ref.index < |ds| && ds[ref.index].state.LiveObj? {
      var sl := ref.index;
      var p := ds[sl].poolId;
      LiveSlot(z, ps, ds, head, seg, segCount, zoneSize, abs, stack, sl);
      LiveFits(ds[sl], p);
      LiveInWindow(z, ps[p], ds, p, abs[p], seg, sl);
    }
  }

  // Payloads start on an 8-byte boundary, so a current reference to the start of an object in an
  // available pool is granted every access within its size, under any accepted alignment.
  lemma RootGranted(z: seq<u32>, ps: seq<Pool>, ds: seq<ObjectDesc>, head: u16, seg: nat, segCount: nat, zoneSize: nat,
                    abs: seq<APool>, stack: seq<nat>, ref: RawRef, accessSize: u32, accessAlign: u32, needRunning: bool)
    requires Inv(z, ps, ds, head, seg, segCount, zoneSize, abs, stack)
    requires ref.index < |ds| && ds[ref.index].state.LiveObj? && ds[ref.index].generation == ref.generation
    requires (ref.poolHint == 0xFFFF || ref.poolHint == ds[ref.index].poolId) && ref.offset == 0
    requires needRunning ==> ds[ref.index].poolId < |ps| && ps[ds[ref.index].poolId].state == Running
    requires accessSize <= ds[ref.index].size && accessAlign <= 8 && exists k: nat :: accessAlign == Pow2(k)
    ensures CheckRef(ps, ds, seg, segCount, zoneSize, ref, accessSize, accessAlign, needRunning) == RefCheck(Ok, ds[ref.index].address)
    ensures RefStatus(ps, ds, ref, accessSize, accessAlign, needRunning) == Ok
  {
    hide Inv, PoolOk, LinksInTable, InWindow, GeometryOk, LiveDesc, PlacedAt, CheckRef;
    var sl := ref.index;
    var p := ds[sl].poolId;
    AlignmentAccepted(accessAlign);
    LiveSlot(z, ps, ds, head, seg, segCount, zoneSize, abs, stack, sl);
    LiveInWindow(z, ps[p], ds, p, abs[p], seg, sl);
    AlignedEnough(ds[sl].address, accessAlign);
    CheckRefMeaning(z, ps, ds, head, seg, segCount, zoneSize, abs, stack, ref, accessSize, accessAlign, needRunning);
  }

  lemma AlignedEnough(address: nat, a: nat)
    requires address % ALIGN == 0 && Pow2Align(a)
    ensures address % a == 0
  {
    var q := address / 8;
    assert address == 8 * q;
    if a == 4 {
      FourTimes(2 * q, 0);
    }
  }

  // On arbitrary metadata, a granted access stays inside the payload of a live block that itself
  // lies in its pool's window and in the zone, and both list links name slots of the table.
  lemma CheckRefSafe(ps: seq<Pool>, ds: seq<ObjectDesc>, seg: nat, segCount: nat, zoneSize: nat,
                     ref: RawRef, accessSize: u32, accessAlign: u32, needRunning: bool)
    requires CheckRef(ps, ds, seg, segCount, zoneSize, ref, accessSize, accessAlign, needRunning).st == Ok
    ensures ref.index < |ds| && ds[ref.index].poolId < |ps|
    ensures var d, addr := ds[ref.index], CheckRef(ps, ds, seg, segCount, zoneSize, ref, accessSize, accessAlign, needRunning).addr;
            var P := ps[d.poolId];
            && d.state == LiveObj && d.generation == ref.generation != 0 && P.state != Empty && (needRunning ==> P.state == Running)
            && P.segmentFirst * seg <= d.address - 8 && d.address <= addr && addr + accessSize <= d.address + d.size
            && d.address + d.size <= d.address - 8 + d.blockSize <= (P.segmentFirst + P.segmentCount) * seg <= zoneSize
            && d.blockSize >= 16 && d.blockSize % 8 == 0 && d.address % 8 == 0 && d.size > 0
            && 0 < accessAlign <= 8 && addr % accessAlign == 0
            && (d.addrPrev != 0xFFFF_FFFF ==> d.addrPrev < |ds|) && (d.addrNext != 0xFFFF_FFFF ==> d.addrNext < |ds|)
  {
  }
}
