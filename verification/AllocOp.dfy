/** alloc: the whole operation on the global state. */
module AllocOp {
  import opened Base
  import opened Lists
  import opened SizeClass
  import opened Bins
  import opened Layout
  import opened BoundaryTags
  import opened PoolHeap
  import opened Objects
  import opened State
  import opened Refs

  // The block size an allocation of `size` payload bytes needs: the least multiple of 8 that
  // holds header and payload, and a minimal block.
  function NeedOf(size: nat): (n: nat)
    ensures n % ALIGN == 0 && MIN_BLOCK <= n && size + HEADER <= n
    ensures n == MIN_BLOCK || n < size + HEADER + ALIGN
  {
    var n := AlignUp8(size) + HEADER;
    if n < MIN_BLOCK then MIN_BLOCK else n
  }

  // The refusals that do not depend on free slots or free blocks, in the order of the code.
  function AllocRefusal(ps: seq<Pool>, pid: nat, size: u32, alignment: u32, flags: set<Flag>): Status {
    if pid >= |ps| || ps[pid].state.Empty? then InvalidPool
    else if !ps[pid].state.Running? then Busy
    else if size == 0 then InvalidRef
    else if !Pow2Align(alignment) then InvalidAlignment
    else if UNKNOWN in flags then InvalidRef
    else if NeedOf(size) >= ZONE_LIMIT then NoSpace
    else Ok
  }

  function Pinning(flags: set<Flag>): set<Flag> {
    if DMA in flags || EXTERNAL in flags then flags + {PINNED} else flags
  }

  lemma NextGenerationLive(g: u16)
    ensures NextGeneration(g) != 0
  {
  }

  lemma AllocBytes(L: Lay, s: nat, e: nat, o: nat, need: nat, slot: nat)
    requires Tiles(L, s, e) && o in L && L[o].kind.Free? && 0 < need <= L[o].size
    ensures var A, size := AfterAlloc(L, o, need, slot), L[o].size;
            && Bytes(A, TLive) == Bytes(L, TLive) + (if size - need >= MIN_BLOCK then need else size)
            && Bytes(A, TSlack) == Bytes(L, TSlack)
  {
    var M := Carved(L, o, need, slot);
    var hi := End(L, o);
    InsideOne(L, s, e, o);
    CarvedBytes(L, o, need, slot);
    BytesOne(o, L[o]);
    hide Tiles, Inside, Outside, Carved;
    CarvedWithin(L, o, need, slot);
    ReplaceBytes(L, M, o, hi, TLive);
    ReplaceBytes(L, M, o, hi, TSlack);
  }

  lemma CarvedWithin(L: Lay, o: nat, need: nat, slot: nat)
    requires o in L && 0 < need <= L[o].size
    ensures forall k :: k in Carved(L, o, need, slot) ==> o <= k < End(L, o)
  {
  }

  lemma InsideOne(L: Lay, s: nat, e: nat, o: nat)
    requires Tiles(L, s, e) && o in L
    ensures Inside(L, o, End(L, o)) == map[o := L[o]]
  {
  }

  lemma CarvedBytes(L: Lay, o: nat, need: nat, slot: nat)
    requires o in L && 0 < need <= L[o].size
    ensures Bytes(Carved(L, o, need, slot), TLive) == (if L[o].size - need >= MIN_BLOCK then need else L[o].size)
    ensures Bytes(Carved(L, o, need, slot), TSlack) == 0
  {
    if L[o].size - need >= MIN_BLOCK {
      var a, b := Blk(need, Live(slot)), Blk(L[o].size - need, Free);
      BytesOne(o, a);
      BytesAdd(map[o := a], o + need, b, TLive);
      BytesAdd(map[o := a], o + need, b, TSlack);
      assert Carved(L, o, need, slot) == map[o := a][o + need := b];
    } else {
      BytesOne(o, Blk(L[o].size, Live(slot)));
    }
  }

  lemma BytesOne(o: nat, b: Blk)
    ensures forall t :: Bytes(map[o := b], t) == Weight(b, t)
  {
    forall t ensures Bytes(map[o := b], t) == Weight(b, t) {
      BytesRemove(map[o := b], o, t);
      assert map[o := b] - {o} == map[];
    }
  }

  // Descriptors after alloc: the new object leads the live list, every other keeps its block.
  lemma AllocObjs(ds: seq<ObjectDesc>, ds': seq<ObjectDesc>, head: u32, pid: nat, L: Lay, order: seq<nat>,
                  o: nat, need: nat, slot: nat)
    requires ObjsOk(ds, head, pid, L, order) && o in L && L[o].kind.Free? && 0 < need <= L[o].size
    requires slot < |ds| && ds[slot].state.FreeSlot? && PushedDescs(ds, ds', slot, head)
    requires forall k :: k in L && o <= k < End(L, o) ==> k == o
    requires ds'[slot].address == o + HEADER && ds'[slot].activeBorrows == 0
    requires ds'[slot].blockSize == (if L[o].size - need >= MIN_BLOCK then need else L[o].size)
    requires LiveDesc(ds'[slot], pid)
    ensures ObjsOk(ds', slot, pid, AfterAlloc(L, o, need, slot), [slot] + order)
    ensures Indexed(ds, order) && Indexed(ds', [slot] + order)
    ensures BorrowSum(ds', [slot] + order) == BorrowSum(ds, order)
  {
    hide AfterAlloc, OrderLinked, PushedDescs, NoDup, LiveDesc, PlacedAt;
    var t := [slot] + order;
    SlotUnused(ds, head, pid, L, order, slot);
    PushedSizes(ds, ds', slot, head);
    PushOrder(ds, ds', order, head, slot);
    assert t[1..] == order;
    SameActive(ds, ds', order, slot, head);
    forall sl | sl in t
      ensures sl < |ds'| && LiveDesc(ds'[sl], pid) && PlacedAt(ds'[sl], AfterAlloc(L, o, need, slot), sl)
    {
      if sl != slot {
        assert sl in order;
        AllocKeepsObj(ds, ds', pid, L, o, need, slot, head, sl);
      } else {
        CarvedAt(L, o, need, slot);
        NewPlaced(ds'[slot], L, o, need, slot);
      }
    }
    forall k | k in AfterAlloc(L, o, need, slot) && AfterAlloc(L, o, need, slot)[k].kind.Live?
      ensures var sl := AfterAlloc(L, o, need, slot)[k].kind.slot; sl in t && sl < |ds'| && ds'[sl].address == k + HEADER
    {
      CarvedAt(L, o, need, slot);
      if k == o {
        assert t[0] == slot;
      } else {
        OnlyAllocLive(L, o, need, slot, k);
        var sl := L[k].kind.slot;
        assert sl in order;
        KeptDesc(ds, ds', slot, head, sl);
        assert t[IndexOf(order, sl) + 1] == sl;
      }
    }
  }

  lemma PushedSizes(ds: seq<ObjectDesc>, ds': seq<ObjectDesc>, slot: nat, head: u32)
    requires PushedDescs(ds, ds', slot, head)
    ensures |ds'| == |ds| < 0xFFFF && slot < |ds|
  {
  }

  lemma NewPlaced(d: ObjectDesc, L: Lay, o: nat, need: nat, slot: nat)
    requires o in L && 0 < need <= L[o].size && d.address == o + HEADER
    requires d.blockSize == (if L[o].size - need >= MIN_BLOCK then need else L[o].size)
    ensures PlacedAt(d, AfterAlloc(L, o, need, slot), slot)
  {
    hide AfterAlloc;
    CarvedAt(L, o, need, slot);
  }

  lemma SlotUnused(ds: seq<ObjectDesc>, head: u32, pid: nat, L: Lay, order: seq<nat>, slot: nat)
    requires ObjsOk(ds, head, pid, L, order) && slot < |ds| && ds[slot].state.FreeSlot?
    ensures slot !in order && Indexed(ds, order)
  {
    hide OrderLinked;
    assert forall sl :: sl in order ==> LiveDesc(ds[sl], pid);
    forall i | 0 <= i < |order| ensures order[i] < |ds| {
      assert order[i] in order;
    }
  }

  lemma AllocKeepsObj(ds: seq<ObjectDesc>, ds': seq<ObjectDesc>, pid: nat, L: Lay, o: nat, need: nat, slot: nat, head: u32, sl: nat)
    requires o in L && L[o].kind.Free? && 0 < need <= L[o].size
    requires forall k :: k in L && o <= k < End(L, o) ==> k == o
    requires PushedDescs(ds, ds', slot, head) && sl < |ds| && sl != slot
    requires LiveDesc(ds[sl], pid) && PlacedAt(ds[sl], L, sl)
    ensures LiveDesc(ds'[sl], pid) && PlacedAt(ds'[sl], AfterAlloc(L, o, need, slot), sl)
  {
    KeptDesc(ds, ds', slot, head, sl);
    AllocatedAt(L, o, need, slot);
  }

  lemma CarvedAt(L: Lay, o: nat, need: nat, slot: nat)
    requires o in L && 0 < need <= L[o].size
    ensures o in AfterAlloc(L, o, need, slot)
    ensures AfterAlloc(L, o, need, slot)[o] == Blk(if L[o].size - need >= MIN_BLOCK then need else L[o].size, Live(slot))
  {
  }

  lemma OnlyAllocLive(L: Lay, o: nat, need: nat, slot: nat, k: nat)
    requires o in L && 0 < need <= L[o].size && k in AfterAlloc(L, o, need, slot) && k != o
    requires AfterAlloc(L, o, need, slot)[k].kind.Live?
    ensures k in L && L[k] == AfterAlloc(L, o, need, slot)[k]
  {
  }

  lemma KeptDesc(ds: seq<ObjectDesc>, ds': seq<ObjectDesc>, slot: nat, head: u32, sl: nat)
    requires PushedDescs(ds, ds', slot, head) && sl < |ds| && sl != slot
    ensures ds'[sl] == ds[sl].(addrPrev := ds'[sl].addrPrev)
  {
  }

  lemma SameActive(ds: seq<ObjectDesc>, ds': seq<ObjectDesc>, order: seq<nat>, slot: nat, head: u32)
    requires PushedDescs(ds, ds', slot, head) && slot !in order
    requires forall sl :: sl in order ==> sl < |ds|
    ensures Indexed(ds, order) && BorrowSum(ds', order) == BorrowSum(ds, order)
  {
    forall i | 0 <= i < |order| ensures order[i] < |ds| && ds'[order[i]].activeBorrows == ds[order[i]].activeBorrows {
      assert order[i] in order;
    }
    BorrowSumSame(ds, ds', order);
  }

  // The pool record after alloc.
  function AllocPool(P: Pool, b: TlsfBins, blksize: nat, slot: u32, seg: nat): Pool
    requires P.usedBytes + blksize <= PoolEnd(P, seg) - PoolStart(P, seg)
  {
    P.(bins := b, orderHead := slot, usedBytes := P.usedBytes + blksize,
       freeBytes := PoolEnd(P, seg) - PoolStart(P, seg) - (P.usedBytes + blksize),
       liveObjects := P.liveObjects + 1)
  }

  lemma UsedFits(z: seq<u32>, P: Pool, ds: seq<ObjectDesc>, pid: nat, A: APool, seg: nat, o: nat, need: nat, slot: nat)
    requires PoolOk(z, P, ds, pid, A, seg) && o in A.L && A.L[o].kind.Free?
    requires need % ALIGN == 0 && MIN_BLOCK <= need <= A.L[o].size
    ensures P.usedBytes + (if A.L[o].size - need >= MIN_BLOCK then need else A.L[o].size) <= PoolEnd(P, seg) - PoolStart(P, seg)
  {
    hide BinsInv, ObjsOk, HeadersOk, PrevOk, Coalesced;
    AllocBytes(A.L, PoolStart(P, seg), PoolEnd(P, seg), o, need, slot);
    AllocTiles(A.L, PoolStart(P, seg), PoolEnd(P, seg), o, need, slot);
    Accounting(AfterAlloc(A.L, o, need, slot), PoolStart(P, seg), PoolEnd(P, seg));
  }

  lemma AllocPoolOk(z: seq<u32>, z': seq<u32>, P: Pool, b: TlsfBins, ds: seq<ObjectDesc>, ds': seq<ObjectDesc>,
                    pid: nat, A: APool, lists': seq<seq<nat>>, seg: nat, o: nat, need: nat, slot: nat, blksize: nat)
    requires PoolOk(z, P, ds, pid, A, seg) && o in A.L && A.L[o].kind.Free?
    requires need % ALIGN == 0 && MIN_BLOCK <= need <= A.L[o].size
    requires blksize == (if A.L[o].size - need >= MIN_BLOCK then need else A.L[o].size)
    requires PoolLay(z', b, AfterAlloc(A.L, o, need, slot), lists', PoolStart(P, seg), PoolEnd(P, seg))
    requires slot < |ds| && ds[slot].state.FreeSlot? && PushedDescs(ds, ds', slot, P.orderHead)
    requires ds'[slot].address == o + HEADER && ds'[slot].activeBorrows == 0
    requires ds'[slot].blockSize == blksize && LiveDesc(ds'[slot], pid)
    ensures P.usedBytes + blksize <= PoolEnd(P, seg) - PoolStart(P, seg)
    ensures PoolOk(z', AllocPool(P, b, blksize, slot, seg), ds', pid,
                   APool(AfterAlloc(A.L, o, need, slot), lists', [slot] + A.order), seg)
  {
    hide BinsInv, LayoutInv, ObjsOk, AfterAlloc, PushedDescs;
    var s, e := PoolStart(P, seg), PoolEnd(P, seg);
    UsedFits(z, P, ds, pid, A, seg, o, need, slot);
    TilesOf(z, A.L, s, e);
    AllocBytes(A.L, s, e, o, need, slot);
    AloneIn(z, A.L, s, e, o);
    AllocObjs(ds, ds', P.orderHead, pid, A.L, A.order, o, need, slot);
  }

  // bins_bitmap_consistent: the diagnosis of a refused allocation.
  method BinsBitmapConsistent(zone: array<u32>, b: TlsfBins, start: nat, end: nat,
                              ghost L: Lay, ghost lists: seq<seq<nat>>) returns (ok: bool)
    requires PoolLay(zone[..], b, L, lists, start, end)
    ensures ok
  {
    hide BinIdx, LayoutInv, BinOk, Linked, BlkSize, BlkFree;
    for k := 0 to NBINS {
      HeadFacts(zone[..], b, L, lists, start, end, k);
      var off, bit := b.head[k], b.sl[k];
      if off == NULL_OFF {
        if bit { return false; }
      } else {
        if !bit { return false; }
        if off < start || off + HEADER > end { return false; }
        if !BlkFree(zone[off]) { return false; }
        if BinIdx(BlkSize(zone[off])) != k { return false; }
      }
    }
    for f := 0 to FL_COUNT {
      var any := b.sl[4 * f] || b.sl[4 * f + 1] || b.sl[4 * f + 2] || b.sl[4 * f + 3];
      if any != b.fl[f] { return false; }
    }
    return true;
  }

  lemma HeadFacts(z: seq<u32>, b: TlsfBins, L: Lay, lists: seq<seq<nat>>, s: nat, e: nat, k: nat)
    requires PoolLay(z, b, L, lists, s, e) && k < NBINS
    ensures |b.head| == |b.sl| == NBINS && e <= |z|
    ensures b.head[k] == NULL_OFF <==> !b.sl[k]
    ensures b.head[k] != NULL_OFF ==>
              && s <= b.head[k] && b.head[k] + HEADER <= e
              && BlkFree(z[b.head[k]]) && BinIdx(BlkSize(z[b.head[k]])) == k
  {
    hide BinIdx, HeadersOk, PrevOk, Coalesced, BlkSize, BlkFree;
    assert BinOk(z, b, lists, FreeMap(L), k);
    LinkedHead(z, lists[k], b.head[k]);
    if b.head[k] != NULL_OFF {
      var o := lists[k][0];
      assert o in lists[k] && o in FreeMap(L);
      FreeBlockFacts(z, b, L, lists, s, e, o);
      FreeHeaderWord(L[o].size);
    }
  }

  // slot_alloc and slot_release.
  method SlotAlloc(g: GlobalState) returns (slot: u16)
    requires SlotsOk(g.objects[..], g.freeSlotHead, g.stack)
    modifies g`freeSlotHead
    ensures slot == old(g.freeSlotHead)
    ensures slot == NO_SLOT <==> g.stack == []
    ensures slot != NO_SLOT ==> slot < g.objects.Length && g.freeSlotHead == g.objects[slot].nextFreeSlot
    ensures slot == NO_SLOT ==> g.freeSlotHead == old(g.freeSlotHead)
  {
    slot := g.freeSlotHead;
    if slot == NO_SLOT {
      return;
    }
    g.freeSlotHead := g.objects[slot].nextFreeSlot;
  }

  method SlotRelease(g: GlobalState, slot: u16)
    requires slot < g.objects.Length
    modifies g`freeSlotHead, g.objects
    ensures g.freeSlotHead == slot
    ensures g.objects[..] == old(g.objects[..])[slot := old(g.objects[slot]).(nextFreeSlot := old(g.freeSlotHead))]
  {
    g.objects[slot] := g.objects[slot].(nextFreeSlot := g.freeSlotHead);
    g.freeSlotHead := slot;
  }

  // order_append: the object becomes the head of its pool's live list.
  method OrderAppend(objects: array<ObjectDesc>, head: u32, idx: nat) returns (head': u32)
    requires idx < objects.Length < 0xFFFF && head != idx && (head != NO_ORDER ==> head < objects.Length)
    modifies objects
    ensures head' == idx && PushedDescs(old(objects[..]), objects[..], idx, head)
    ensures objects[idx] == old(objects[idx]).(addrPrev := NO_ORDER, addrNext := head)
  {
    objects[idx] := objects[idx].(addrPrev := NO_ORDER, addrNext := head);
    if head != NO_ORDER {
      objects[head] := objects[head].(addrPrev := idx);
    }
    head' := idx;
  }

  // What Inv says about one pool slot.
  lemma PoolFacts(z: seq<u32>, ps: seq<Pool>, ds: seq<ObjectDesc>, head: u16, seg: nat, segCount: nat, zoneSize: nat,
                  abs: seq<APool>, stack: seq<nat>, p: nat)
    requires Inv(z, ps, ds, head, seg, segCount, zoneSize, abs, stack) && p < |ps| && !ps[p].state.Empty?
    ensures p < |abs| && Settled(ps[p]) && GeometryOk(ps[p], seg, segCount, zoneSize) && PoolOk(z, ps[p], ds, p, abs[p], seg)
    ensures PoolLay(z, ps[p].bins, abs[p].L, abs[p].lists, PoolStart(ps[p], seg), PoolEnd(ps[p], seg))
    ensures SlotsOk(ds, head, stack)
    ensures ps[p].orderHead != NO_ORDER ==>
              ps[p].orderHead < |ds| && ds[ps[p].orderHead].state.LiveObj? && ds[ps[p].orderHead].poolId == p
    ensures forall o :: o in FreeMap(abs[p].L) ==> o + FreeMap(abs[p].L)[o] <= PoolEnd(ps[p], seg)
    ensures PoolEnd(ps[p], seg) <= zoneSize < |z| && |ds| < 0xFFFF && |abs| == |ps|
    ensures PoolStart(ps[p], seg) <= PoolEnd(ps[p], seg)
  {
    hide Counters, BinsInv, HeadersOk, PrevOk, Coalesced, Shaped, SlotsOk;
    assert PoolSlotOk(z, ps[p], ds, p, abs[p], seg, segCount, zoneSize);
    var A := abs[p];
    if ps[p].orderHead != NO_ORDER {
      assert A.order[0] in A.order;
      OrderPool(ds, ps[p].orderHead, p, A.L, A.order, A.order[0]);
    }
  }

  predicate AllocFits(F: map<nat, nat>, need: nat) {
    exists o :: o in F && F[o] >= need
  }

  // The new state of the pool's abstraction: `blk`, the first fit, is carved for `slot`, which
  // leads the live list.
  ghost predicate AllocEffect(A: APool, A': APool, need: nat, slot: nat, blk: nat) {
    && |A.lists| == NBINS && FirstFit(A.lists, FreeMap(A.L), need, blk)
    && blk in A.L && need <= A.L[blk].size
    && A'.L == AfterAlloc(A.L, blk, need, slot) && A'.order == [slot] + A.order
  }

  // The new descriptor and the new pool record; of the other descriptors only the former list
  // head changes, in its back link.
  ghost predicate AllocRecords(ps: seq<Pool>, ps': seq<Pool>, ds: seq<ObjectDesc>, ds': seq<ObjectDesc>, p: nat, slot: nat, d: ObjectDesc) {
    && p < |ps| == |ps'| && PushedDescs(ds, ds', slot, ps[p].orderHead)
    && ds'[slot] == d.(blockSize := ds'[slot].blockSize, addrNext := ps[p].orderHead)
    && slot < U32_MOD
    && ps'[p] == ps[p].(bins := ps'[p].bins, orderHead := slot, usedBytes := ps[p].usedBytes + ds'[slot].blockSize,
                        freeBytes := ps'[p].freeBytes, liveObjects := ps[p].liveObjects + 1)
  }

  // What alloc writes into the descriptor it takes.
  function NewDesc(blk: nat, size: u32, userTag: u32, pid: u16, flags: set<Flag>, generation: u16): ObjectDesc {
    ObjectDesc(blk + HEADER, size, 0, userTag, pid, flags, generation, 1, 0, 0, NO_ORDER, NO_ORDER, LiveObj)
  }

  ghost predicate OnlyPoolChanged(abs: seq<APool>, abs': seq<APool>, ps: seq<Pool>, ps': seq<Pool>, p: nat) {
    && |abs'| == |abs| && |ps'| == |ps|
    && (forall q :: 0 <= q < |abs| && q != p ==> abs'[q] == abs[q])
    && (forall q :: 0 <= q < |ps| && q != p ==> ps'[q] == ps[q])
  }

  lemma FitInWindow(z: seq<u32>, P: Pool, ds: seq<ObjectDesc>, pid: nat, A: APool, seg: nat, need: nat, blk: nat)
    requires PoolOk(z, P, ds, pid, A, seg) && |A.lists| == NBINS && FirstFit(A.lists, FreeMap(A.L), need, blk)
    ensures blk in A.L && A.L[blk].kind.Free? && need <= A.L[blk].size
    ensures PoolStart(P, seg) <= blk && blk + HEADER <= PoolEnd(P, seg) && blk < |z| && BlkFree(z[blk]) && BlkSize(z[blk]) == A.L[blk].size
  {
    hide Counters, ObjsOk, BinIdx, BlkFree, BlkSize;
    BlockHeaderFacts(z, A.L, PoolStart(P, seg), PoolEnd(P, seg), blk);
  }

  lemma AllocKeepsInv(z: seq<u32>, z': seq<u32>, ps: seq<Pool>, b: TlsfBins, ds: seq<ObjectDesc>, ds': seq<ObjectDesc>,
                      head: u16, seg: nat, segCount: nat, zoneSize: nat, abs: seq<APool>, lists': seq<seq<nat>>,
                      stack: seq<nat>, p: nat, o: nat, need: nat, slot: nat, blksize: nat)
    requires Inv(z, ps, ds, head, seg, segCount, zoneSize, abs, stack) && p < |ps| == |abs| && !ps[p].state.Empty?
    requires o in abs[p].L && abs[p].L[o].kind.Free? && need % ALIGN == 0 && MIN_BLOCK <= need <= abs[p].L[o].size
    requires blksize == (if abs[p].L[o].size - need >= MIN_BLOCK then need else abs[p].L[o].size)
    requires PoolLay(z', b, AfterAlloc(abs[p].L, o, need, slot), lists', PoolStart(ps[p], seg), PoolEnd(ps[p], seg))
    requires OutsideKept(z, z', PoolStart(ps[p], seg), PoolEnd(ps[p], seg))
    requires stack != [] && slot == stack[0] && slot < |ds| && PushedDescs(ds, ds', slot, ps[p].orderHead)
    requires ds'[slot].address == o + HEADER && ds'[slot].activeBorrows == 0
    requires ds'[slot].blockSize == blksize && LiveDesc(ds'[slot], p)
    ensures ps[p].usedBytes + blksize <= PoolEnd(ps[p], seg) - PoolStart(ps[p], seg)
    ensures slot == head && slot < |ds|
    ensures Inv(z', ps[p := AllocPool(ps[p], b, blksize, slot, seg)], ds', ds[slot].nextFreeSlot, seg, segCount, zoneSize,
                abs[p := APool(AfterAlloc(abs[p].L, o, need, slot), lists', [slot] + abs[p].order)], stack[1..])
  {
    PoolFacts(z, ps, ds, head, seg, segCount, zoneSize, abs, stack, p);
    StackTop(ds, head, stack);
    hide PoolOk, SlotsOk, PoolLay, Inv, AfterAlloc, LiveDesc, OutsideKept, GeometryOk;
    var A := abs[p];
    var A' := APool(AfterAlloc(A.L, o, need, slot), lists', [slot] + A.order);
    AllocPoolOk(z, z', ps[p], b, ds, ds', p, A, lists', seg, o, need, slot, blksize);
    LiveDescState(ds'[slot], p);
    AllocSlots(z, ps, ds, ds', head, seg, segCount, zoneSize, abs, stack, p, slot);
    hide PushedDescs;
    PoolUpdated(z, z', ps, AllocPool(ps[p], b, blksize, slot, seg), ds, ds', head, ds[slot].nextFreeSlot,
                seg, segCount, zoneSize, abs, A', stack, stack[1..], p);
  }

  // Slots after alloc: the popped slot joins pool p, every other slot stays where it was.
  lemma AllocSlots(z: seq<u32>, ps: seq<Pool>, ds: seq<ObjectDesc>, ds': seq<ObjectDesc>,
                   head: u16, seg: nat, segCount: nat, zoneSize: nat, abs: seq<APool>, stack: seq<nat>, p: nat, slot: nat)
    requires Inv(z, ps, ds, head, seg, segCount, zoneSize, abs, stack) && p < |ps| == |abs| && !ps[p].state.Empty?
    requires stack != [] && slot == stack[0] == head && slot < |ds| && PushedDescs(ds, ds', slot, ps[p].orderHead)
    requires ds'[slot].state.LiveObj? && ds'[slot].poolId == p
    ensures SlotsOk(ds', ds[slot].nextFreeSlot, stack[1..])
    ensures forall sl :: 0 <= sl < |ds| && ds[sl].state.LiveObj? && ds[sl].poolId != p ==> ds'[sl] == ds[sl]
    ensures forall sl :: 0 <= sl < |ds| && ds'[sl].state.LiveObj? ==>
              (ds[sl].state.LiveObj? && ds[sl].poolId != p) || (ds'[sl].poolId == p && sl in [slot] + abs[p].order)
  {
    PoolFacts(z, ps, ds, head, seg, segCount, zoneSize, abs, stack, p);
    StackTop(ds, head, stack);
    hide PoolOk, PoolLay, Inv, SlotsOk, GeometryOk;
    SlotPop(ds, ds', head, stack);
    forall sl | 0 <= sl < |ds| && ds'[sl].state.LiveObj?
      ensures (ds[sl].state.LiveObj? && ds[sl].poolId != p) || (ds'[sl].poolId == p && sl in [slot] + abs[p].order)
    {
      if sl == slot {
        assert ([slot] + abs[p].order)[0] == slot;
      } else if ds[sl].poolId == p {
        InList(z, ps, ds, head, seg, segCount, zoneSize, abs, stack, sl);
        assert ([slot] + abs[p].order)[IndexOf(abs[p].order, sl) + 1] == sl;
      }
    }
  }

  lemma LiveDescState(d: ObjectDesc, p: nat)
    requires LiveDesc(d, p)
    ensures d.state.LiveObj? && d.poolId == p
  {
  }

  lemma InList(z: seq<u32>, ps: seq<Pool>, ds: seq<ObjectDesc>, head: u16, seg: nat, segCount: nat, zoneSize: nat,
               abs: seq<APool>, stack: seq<nat>, sl: nat)
    requires Inv(z, ps, ds, head, seg, segCount, zoneSize, abs, stack) && sl < |ds| && ds[sl].state.LiveObj?
    ensures ds[sl].poolId < |abs| && sl in abs[ds[sl].poolId].order
  {
    hide PoolSlotOk, SlotsOk;
    assert SlotOwned(ps, ds, abs, sl);
  }

  lemma StackTop(ds: seq<ObjectDesc>, head: u16, stack: seq<nat>)
    requires SlotsOk(ds, head, stack)
    ensures stack != [] <==> head != NO_SLOT
    ensures stack != [] ==> stack[0] == head && head < |ds| && ds[head].state.FreeSlot?
  {
    assert stack != [] ==> ds[stack[0]].state.FreeSlot?;
  }

  // A free block of a consistent pool is large enough for an allocation exactly when it holds
  // header and payload, since block sizes are multiples of 8; it is then below the size limit.
  lemma FitsMeans(z: seq<u32>, ps: seq<Pool>, ds: seq<ObjectDesc>, head: u16, seg: nat, segCount: nat, zoneSize: nat,
                  abs: seq<APool>, stack: seq<nat>, p: nat, size: nat)
    requires Inv(z, ps, ds, head, seg, segCount, zoneSize, abs, stack) && p < |ps| && !ps[p].state.Empty?
    ensures p < |abs|
    ensures AllocFits(FreeMap(abs[p].L), NeedOf(size)) <==> exists o: nat :: HoldsPayload(abs[p].L, o, size)
    ensures AllocFits(FreeMap(abs[p].L), NeedOf(size)) ==> NeedOf(size) < ZONE_LIMIT
  {
    hide Inv, PoolOk, SlotsOk, GeometryOk, BinsInv, HeadersOk, PrevOk, Coalesced, Tiles, NeedOf;
    PoolFacts(z, ps, ds, head, seg, segCount, zoneSize, abs, stack, p);
    var L, need := abs[p].L, NeedOf(size);
    if o: nat :| HoldsPayload(L, o, size) {
      NextMultiple(L[o].size, need, size);
      assert FreeMap(L)[o] >= need;
    }
    if o :| o in FreeMap(L) && FreeMap(L)[o] >= need {
      assert HoldsPayload(L, o, size);
    }
  }

  predicate HoldsPayload(L: Lay, o: nat, size: nat) {
    o in L && L[o].kind == Free && size + 8 <= L[o].size
  }

  lemma NextMultiple(block: nat, need: nat, size: nat)
    requires block % ALIGN == 0 && MIN_BLOCK <= block && size + HEADER <= block
    requires need % ALIGN == 0 && (need == MIN_BLOCK || need < size + HEADER + ALIGN)
    ensures need <= block
  {
  }

  // alloc succeeds exactly when the request is well formed, the pool is running, a descriptor
  // slot is free and some free block holds header and payload; a refusal changes nothing. The
  // new object is pinned exactly if its flags ask for it or say that others hold its address.
  method Alloc(g: GlobalState, pid: nat, size: u32, alignment: u32, flags: set<Flag>, userTag: u32)
      returns (st: Status, out: RawRef, ghost blk: nat)
    requires g.Valid() && pid < 0x1_0000
    modifies g, g.zone, g.pools, g.objects
    ensures var ps, abs := old(g.pools[..]), old(g.abs);
            st == (if pid >= |ps| || ps[pid].state == Empty then InvalidPool
                   else if ps[pid].state != Running then Busy
                   else if size == 0 then InvalidRef
                   else if alignment > 8 || !exists k: nat :: alignment == Pow2(k) then InvalidAlignment
                   else if UNKNOWN in flags then InvalidRef
                   else if old(g.stack) == [] || pid >= |abs| || !exists o: nat :: HoldsPayload(abs[pid].L, o, size) then NoSpace
                   else Ok)
    ensures g.Valid()
    ensures st == Ok <==>
              && AllocRefusal(old(g.pools[..]), pid, size, alignment, flags) == Ok
              && old(g.stack) != []
              && pid < |old(g.abs)| && AllocFits(FreeMap(old(g.abs)[pid].L), NeedOf(size))
    ensures st != Ok ==> g.zone[..] == old(g.zone[..]) && g.pools[..] == old(g.pools[..]) && g.objects[..] == old(g.objects[..])
    ensures st != Ok ==> g.abs == old(g.abs) && g.stack == old(g.stack) && g.freeSlotHead == old(g.freeSlotHead) && out == RawRef(0, 0, 0, 0)
    ensures st == Ok ==>
              && pid < |old(g.abs)| == |old(g.pools[..])| && old(g.stack) != [] && pid < |g.abs|
              && AllocEffect(old(g.abs)[pid], g.abs[pid], NeedOf(size), old(g.stack)[0], blk)
              && OnlyPoolChanged(old(g.abs), g.abs, old(g.pools[..]), g.pools[..], pid)
              && LivePayloadKept(old(g.zone[..]), g.zone[..], old(g.abs)[pid].L)
              && OutsideKept(old(g.zone[..]), g.zone[..], PoolStart(old(g.pools[..])[pid], g.segmentSize), PoolEnd(old(g.pools[..])[pid], g.segmentSize))
    ensures st == Ok ==>
              && g.stack == old(g.stack)[1..] && old(g.stack)[0] == out.index < g.objects.Length
              && out == RawRef(out.index, NextGeneration(old(g.objects[..])[out.index].generation), pid, 0)
              && AllocRecords(old(g.pools[..]), g.pools[..], old(g.objects[..]), g.objects[..], pid, out.index,
                              NewDesc(blk, size, userTag, pid, Pinning(flags), out.generation))
    ensures st == Ok ==>
              var d := g.objects[out.index];
              && d.state == LiveObj && d.poolId == pid && d.address == blk + 8 && d.size == size && d.userTag == userTag
              && d.generation == out.generation != 0 && d.addressEpoch == 1 && d.activeBorrows == 0
              && size + 8 <= d.blockSize <= size + 23
              && (PINNED in d.flags <==> PINNED in flags || DMA in flags || EXTERNAL in flags)
              && (forall f :: f != PINNED ==> (f in d.flags <==> f in flags))
  {
    hide Inv, PoolOk, SlotsOk, PoolLay, OutsideKept, AfterAlloc, LivePayloadKept, FreeMap, NextGeneration, FirstFit, AllocFits, HoldsPayload, Pow2Align, NeedOf;
    out := RawRef(0, 0, 0, 0);
    blk := 0;
    ghost var ds, head := g.objects[..], g.freeSlotHead;
    InvLengths(g.zone[..], g.pools[..], ds, head, g.segmentSize, g.segmentCount, g.zoneSize, g.abs, g.stack);
    AlignmentAccepted(alignment);
    if pid < |g.pools[..]| && !g.pools[pid].state.Empty? {
      FitsMeans(g.zone[..], g.pools[..], ds, head, g.segmentSize, g.segmentCount, g.zoneSize, g.abs, g.stack, pid, size);
    }
    st := AllocScreen(g, pid, size, alignment, flags);
    if st != Ok { return; }
    StackTop(ds, head, g.stack);
    var slot := SlotAlloc(g);
    if slot == NO_SLOT { return NoSpace, out, blk; }
    var off;
    st, off := AllocLocate(g, pid, NeedOf(size), head);
    if st != Ok {
      SlotRelease(g, slot);
      assert g.objects[..] == ds;
      return;
    }
    blk := off;
    NextGenerationLive(g.objects[slot].generation);
    out := AllocCommit(g, pid, slot, off, NeedOf(size), size, Pinning(flags), userTag, head);
  }

  // The screens of alloc before it takes a slot.
  method AllocScreen(g: GlobalState, pid: nat, size: u32, alignment: u32, flags: set<Flag>) returns (st: Status)
    requires g.Valid()
    ensures st == AllocRefusal(g.pools[..], pid, size, alignment, flags)
  {
    hide Inv, PoolOk, SlotsOk, PoolLay, FreeMap;
    if pid >= g.pools.Length { return InvalidPool; }
    var P := g.pools[pid];
    if P.state.Empty? { return InvalidPool; }
    PoolFacts(g.zone[..], g.pools[..], g.objects[..], g.freeSlotHead, g.segmentSize, g.segmentCount, g.zoneSize, g.abs, g.stack, pid);
    hide GeometryOk;
    if !P.state.Running? { return Busy; }
    if P.orderHead != NO_ORDER && P.orderHead >= g.objects.Length { return CorruptMetadata; }
    if !GeometryOk(P, g.segmentSize, g.segmentCount, g.zoneSize) { return CorruptMetadata; }
    if size == 0 { return InvalidRef; }
    if !Pow2Align(alignment) { return InvalidAlignment; }
    if UNKNOWN in flags { return InvalidRef; }
    if size > U32_MOD - 1 - (ALIGN - 1) { return NoSpace; }
    if NeedOf(size) >= ZONE_LIMIT { return NoSpace; }
    return Ok;
  }

  // bins_find, the diagnosis of a miss, and the re-proof that the hit lies in this pool. The
  // slot is already taken, so the invariant is stated for the head it came from.
  method AllocLocate(g: GlobalState, pid: nat, need: nat, ghost head: u16) returns (st: Status, off: u32)
    requires Inv(g.zone[..], g.pools[..], g.objects[..], head, g.segmentSize, g.segmentCount, g.zoneSize, g.abs, g.stack)
    requires pid < g.pools.Length == |g.abs| && !g.pools[pid].state.Empty? && MIN_BLOCK <= need
    ensures pid < |g.abs| && (st == Ok || st == NoSpace)
    ensures st == Ok <==> AllocFits(FreeMap(g.abs[pid].L), need)
    ensures st == Ok ==> |g.abs[pid].lists| == NBINS && FirstFit(g.abs[pid].lists, FreeMap(g.abs[pid].L), need, off)
    ensures st == Ok ==> off as nat in g.abs[pid].L && g.abs[pid].L[off].kind.Free? && need <= g.abs[pid].L[off].size
  {
    hide Inv, PoolOk, SlotsOk, LayoutInv, BinsInv, FreeMap, GeometryOk, BlkFree, BlkSize;
    ghost var z, A := g.zone[..], g.abs[pid];
    var P := g.pools[pid];
    PoolFacts(z, g.pools[..], g.objects[..], head, g.segmentSize, g.segmentCount, g.zoneSize, g.abs, g.stack, pid);
    var start, end := PoolStart(P, g.segmentSize), PoolEnd(P, g.segmentSize);
    LayBins(z, P.bins, A.L, A.lists, start, end);
    off := BinsFind(g.zone, g.zoneSize, P.bins, need, A.lists, FreeMap(A.L));
    if off == NULL_OFF {
      var consistent := BinsBitmapConsistent(g.zone, P.bins, start, end, A.L, A.lists);
      return if consistent then NoSpace else CorruptMetadata, off;
    }
    FitInWindow(z, P, g.objects[..], pid, A, g.segmentSize, need, off);
    assert AllocFits(FreeMap(A.L), need) by { FirstFitIn(A.lists, FreeMap(A.L), need, off); }
    hide FirstFit;
    if off < start || off + HEADER > end || !BlkFree(g.zone[off]) { return CorruptMetadata, off; }
    if BlkSize(g.zone[off]) < need { return NoSpace, off; }
    return Ok, off;
  }

  lemma FirstFitIn(lists: seq<seq<nat>>, F: map<nat, nat>, need: nat, off: nat)
    requires |lists| == NBINS && FirstFit(lists, F, need, off)
    ensures off in F && F[off] >= need
  {
  }

  // The part of alloc that cannot fail.
  method AllocCommit(g: GlobalState, pid: nat, slot: u16, off: u32, need: nat, size: u32, flags: set<Flag>, userTag: u32, ghost head: u16)
      returns (out: RawRef)
    requires Inv(g.zone[..], g.pools[..], g.objects[..], head, g.segmentSize, g.segmentCount, g.zoneSize, g.abs, g.stack)
    requires g.liveObjectCount + |g.stack| == g.objects.Length
    requires pid < g.pools.Length == |g.abs| && pid < 0x1_0000 && !g.pools[pid].state.Empty?
    requires g.stack != [] && slot == g.stack[0] == head && slot < g.objects.Length < 0xFFFF && g.freeSlotHead == g.objects[slot].nextFreeSlot
    requires off as nat in g.abs[pid].L && g.abs[pid].L[off].kind.Free?
    requires need % ALIGN == 0 && MIN_BLOCK <= need <= g.abs[pid].L[off].size && 0 < size && size + HEADER <= need
    modifies g, g.zone, g.pools, g.objects
    ensures g.Valid() && pid < |g.abs|
    ensures OnlyPoolChanged(old(g.abs), g.abs, old(g.pools[..]), g.pools[..], pid)
    ensures g.abs[pid].L == AfterAlloc(old(g.abs)[pid].L, off, need, slot) && g.abs[pid].order == [slot as nat] + old(g.abs)[pid].order
    ensures LivePayloadKept(old(g.zone[..]), g.zone[..], old(g.abs)[pid].L)
    ensures OutsideKept(old(g.zone[..]), g.zone[..], PoolStart(old(g.pools[..])[pid], g.segmentSize), PoolEnd(old(g.pools[..])[pid], g.segmentSize))
    ensures g.stack == old(g.stack)[1..]
    ensures out == RawRef(slot, NextGeneration(old(g.objects[..])[slot].generation), pid, 0)
    ensures AllocRecords(old(g.pools[..]), g.pools[..], old(g.objects[..]), g.objects[..], pid, slot,
                         NewDesc(off, size, userTag, pid, flags, out.generation))
    ensures need <= g.objects[slot].blockSize < need + MIN_BLOCK && g.objects[slot].blockSize % ALIGN == 0
  {
    hide Inv, PoolOk, SlotsOk, LayoutInv, BinsInv, LiveDesc, OutsideKept, GeometryOk, AfterAlloc, PushedDescs, LivePayloadKept, NextGeneration;
    ghost var z, ps, ds, abs, stack := g.zone[..], g.pools[..], g.objects[..], g.abs, g.stack;
    ghost var A := abs[pid];
    var P := g.pools[pid];
    PoolFacts(z, ps, ds, head, g.segmentSize, g.segmentCount, g.zoneSize, abs, stack, pid);
    StackTop(ds, head, stack);
    var gen := NextGeneration(g.objects[slot].generation);
    NextGenerationLive(g.objects[slot].generation);
    g.objects[slot] := BlankDesc().(address := off + HEADER);
    var orderHead := OrderAppend(g.objects, P.orderHead, slot);
    var bins, blksize;
    ghost var lists';
    bins, blksize, lists' := CarveBlock(g.zone, P.bins, off, need, PoolEnd(P, g.segmentSize), slot, A.L, A.lists, PoolStart(P, g.segmentSize));
    BlksizeFits(z, A.L, PoolStart(P, g.segmentSize), PoolEnd(P, g.segmentSize), off, blksize);
    g.objects[slot] := g.objects[slot].(size := size, blockSize := blksize, userTag := userTag, poolId := pid,
      flags := flags, generation := gen, addressEpoch := 1, state := LiveObj);
    ghost var ds' := g.objects[..];
    AppendedDescs(ds, ds', slot, P.orderHead);
    FreshDesc(ds'[slot], pid);
    AllocKeepsInv(z, g.zone[..], ps, bins, ds, ds', head, g.segmentSize, g.segmentCount, g.zoneSize, abs, lists', stack,
                  pid, off, need, slot, blksize);
    g.pools[pid] := AllocPool(P, bins, blksize, orderHead, g.segmentSize);
    g.liveObjectCount := g.liveObjectCount + 1;
    g.abs := abs[pid := APool(AfterAlloc(A.L, off, need, slot), lists', [slot as nat] + A.order)];
    g.stack := stack[1..];
    assert g.pools[..] == ps[pid := AllocPool(P, bins, blksize, slot, g.segmentSize)];
    out := RawRef(slot, gen, pid, 0);
  }

  lemma InvLengths(z: seq<u32>, ps: seq<Pool>, ds: seq<ObjectDesc>, head: u16, seg: nat, segCount: nat, zoneSize: nat,
                   abs: seq<APool>, stack: seq<nat>)
    requires Inv(z, ps, ds, head, seg, segCount, zoneSize, abs, stack)
    ensures |abs| == |ps| < 0xFFFF && |ds| < 0xFFFF && zoneSize <= |z| <= ZONE_LIMIT && SlotsOk(ds, head, stack)
  {
    hide PoolSlotOk;
  }

  lemma LayBins(z: seq<u32>, b: TlsfBins, L: Lay, lists: seq<seq<nat>>, s: nat, e: nat)
    requires PoolLay(z, b, L, lists, s, e)
    ensures BinsInv(z, b, lists, FreeMap(L)) && |lists| == NBINS
  {
    hide LayoutInv, BinOk, FlOk;
  }

  lemma BlksizeFits(z: seq<u32>, L: Lay, s: nat, e: nat, o: nat, blksize: nat)
    requires LayoutInv(z, L, s, e) && o in L && blksize <= L[o].size
    ensures blksize < ZONE_LIMIT && L[o].size % ALIGN == 0
  {
    hide HeadersOk, PrevOk, Coalesced, Tiles;
  }

  lemma FreshDesc(d: ObjectDesc, pid: nat)
    requires d.state.LiveObj? && d.poolId == pid && d.generation != 0 && 0 < d.size && d.size + HEADER <= d.blockSize
    ensures LiveDesc(d, pid)
  {
  }

  // Two writes to the slot around the append amount to one append of the final descriptor.
  lemma AppendedDescs(ds: seq<ObjectDesc>, ds': seq<ObjectDesc>, slot: nat, head: u32)
    requires slot < |ds| == |ds'| < 0xFFFF
    requires ds'[slot].addrPrev == NO_ORDER && ds'[slot].addrNext == head
    requires forall sl :: 0 <= sl < |ds| && sl != slot ==> ds'[sl] == if sl == head then ds[sl].(addrPrev := slot) else ds[sl]
    ensures PushedDescs(ds, ds', slot, head)
  {
  }
}
