/** free: the whole operation on the global state. */
module FreeOp {
  import opened Base
  import opened Lists
  import opened Bins
  import opened Layout
  import opened BoundaryTags
  import opened PoolHeap
  import opened Objects
  import opened State
  import opened Refs
  import opened AllocOp

  lemma {:induction false} NoWeight(M: Lay, t: Tag)
    requires forall k :: k in M ==> Weight(M[k], t) == 0
    ensures Bytes(M, t) == 0
    decreases |M|
  {
    if M != map[] {
      var k :| k in M;
      BytesRemove(M, k, t);
      NoWeight(M - {k}, t);
    }
  }

  lemma StretchBytes(z: seq<u32>, L: Lay, s: nat, e: nat, o: nat)
    requires LayoutInv(z, L, s, e) && o in L && L[o].kind.Live? && o + 4 < |z|
    ensures var M := Inside(L, MergeLo(z, L, o), MergeHi(L, o));
            Bytes(M, TLive) == L[o].size && Bytes(M, TSlack) == 0
  {
    hide LayoutInv, MergeLo, MergeHi;
    MergeMembers(z, L, s, e, o);
    MergeBounds(z, L, s, e, o);
    var lo, hi, n := MergeLo(z, L, o), MergeHi(L, o), End(L, o);
    var M := Inside(L, lo, hi);
    assert forall k :: k in M ==> k in L && (k == lo || k == o || k == n);
    assert lo in L && (lo != o ==> L[lo].kind.Free?);
    assert n in M ==> n in FreeMap(L);
    BytesRemove(M, o, TLive);
    NoWeight(M - {o}, TLive);
    NoWeight(M, TSlack);
  }

  lemma FreeBytes(z: seq<u32>, L: Lay, s: nat, e: nat, o: nat)
    requires LayoutInv(z, L, s, e) && o in L && L[o].kind.Live? && o + 4 < |z|
    ensures Bytes(AfterFree(z, L, o), TLive) == Bytes(L, TLive) - L[o].size
    ensures Bytes(AfterFree(z, L, o), TSlack) == Bytes(L, TSlack)
  {
    hide LayoutInv, MergeLo, MergeHi, Inside, Replace, Bytes;
    StretchBytes(z, L, s, e, o);
    MergeBounds(z, L, s, e, o);
    var lo, hi := MergeLo(z, L, o), MergeHi(L, o);
    var M := map[lo := Blk(hi - lo, Free)];
    BytesOne(lo, Blk(hi - lo, Free));
    ReplaceBytes(L, M, lo, hi, TLive);
    ReplaceBytes(L, M, lo, hi, TSlack);
  }

  // Live blocks after free are the live blocks before, minus the freed one.
  lemma FreeLive(z: seq<u32>, L: Lay, s: nat, e: nat, o: nat)
    requires LayoutInv(z, L, s, e) && o in L && L[o].kind.Live? && o + 4 < |z|
    ensures var A := AfterFree(z, L, o);
            forall k :: (k in A && A[k].kind.Live?) <==> (k in L && L[k].kind.Live? && k != o)
    ensures var A := AfterFree(z, L, o); forall k :: k in A && A[k].kind.Live? ==> k in L && A[k] == L[k]
  {
    hide LayoutInv, MergeLo, MergeHi;
    MergeMembers(z, L, s, e, o);
  }

  lemma FreeObjs(ds: seq<ObjectDesc>, ds': seq<ObjectDesc>, head: u32, pid: nat, L: Lay, A: Lay, order: seq<nat>, slot: nat)
    requires ObjsOk(ds, head, pid, L, order) && slot in order && slot < |ds|
    requires UnlinkedDescs(ds, ds', slot) && ds[slot].activeBorrows == 0
    requires forall k :: (k in A && A[k].kind.Live?) <==> (k in L && L[k].kind.Live? && k != ds[slot].address - HEADER)
    requires forall k :: k in A && A[k].kind.Live? ==> k in L && A[k] == L[k]
    ensures var i := IndexOf(order, slot);
            && ObjsOk(ds', if ds[slot].addrPrev == NO_ORDER then ds[slot].addrNext else head, pid, A, Without(order, i))
            && Indexed(ds, order) && Indexed(ds', Without(order, i))
            && BorrowSum(ds', Without(order, i)) == BorrowSum(ds, order)
  {
    hide OrderLinked, NoDup, LiveDesc, PlacedAt, UnlinkedDescs, Without, IndexOf;
    var i := IndexOf(order, slot);
    var r := Without(order, i);
    UnlinkSizes(ds, ds', slot);
    SlotHere(ds[slot], L, slot);
    UnlinkOrder(ds, ds', order, head, i);
    WithoutMembers(order, i);
    FreeBorrows(ds, ds', order, i);
    forall sl | sl in r ensures sl < |ds'| && LiveDesc(ds'[sl], pid) && PlacedAt(ds'[sl], A, sl) {
      assert sl in order && sl != slot;
      UnlinkKeepsObj(ds, ds', pid, L, A, slot, sl);
    }
    forall k | k in A && A[k].kind.Live?
      ensures A[k].kind.slot in r && A[k].kind.slot < |ds'| && ds'[A[k].kind.slot].address == k + HEADER
    {
      var sl := L[k].kind.slot;
      assert sl in order && ds[sl].address == k + HEADER;
      UnlinkAddress(ds, ds', slot, sl);
    }
  }

  lemma UnlinkSizes(ds: seq<ObjectDesc>, ds': seq<ObjectDesc>, slot: nat)
    requires UnlinkedDescs(ds, ds', slot)
    ensures |ds'| == |ds| && slot < |ds|
  {
  }

  lemma SlotHere(d: ObjectDesc, L: Lay, slot: nat)
    requires PlacedAt(d, L, slot)
    ensures HEADER <= d.address && (d.address - HEADER) in L && L[d.address - HEADER] == Blk(d.blockSize, Live(slot))
  {
  }

  lemma UnlinkAddress(ds: seq<ObjectDesc>, ds': seq<ObjectDesc>, slot: nat, sl: nat)
    requires UnlinkedDescs(ds, ds', slot) && sl < |ds| && sl != slot
    ensures ds'[sl].address == ds[sl].address
  {
  }

  lemma UnlinkKeepsObj(ds: seq<ObjectDesc>, ds': seq<ObjectDesc>, pid: nat, L: Lay, A: Lay, slot: nat, sl: nat)
    requires UnlinkedDescs(ds, ds', slot) && sl < |ds| && sl != slot
    requires LiveDesc(ds[sl], pid) && PlacedAt(ds[sl], L, sl) && PlacedAt(ds[slot], L, slot)
    requires forall k :: (k in A && A[k].kind.Live?) <==> (k in L && L[k].kind.Live? && k != ds[slot].address - HEADER)
    requires forall k :: k in A && A[k].kind.Live? ==> k in L && A[k] == L[k]
    ensures LiveDesc(ds'[sl], pid) && PlacedAt(ds'[sl], A, sl)
  {
  }

  lemma FreeBorrows(ds: seq<ObjectDesc>, ds': seq<ObjectDesc>, order: seq<nat>, i: nat)
    requires forall sl :: sl in order ==> sl < |ds|
    requires i < |order| && NoDup(order) && UnlinkedDescs(ds, ds', order[i]) && ds[order[i]].activeBorrows == 0
    ensures Indexed(ds, order) && Indexed(ds', Without(order, i))
    ensures BorrowSum(ds', Without(order, i)) == BorrowSum(ds, order)
  {
    var r := Without(order, i);
    forall j | 0 <= j < |order| ensures order[j] < |ds| { assert order[j] in order; }
    WithoutMembers(order, i);
    BorrowSumWithout(ds, order, i);
    forall j | 0 <= j < |r| ensures ds'[r[j]].activeBorrows == ds[r[j]].activeBorrows {
      assert r[j] in r;
    }
    BorrowSumSame(ds, ds', r);
  }

  function FreePool(P: Pool, b: TlsfBins, blockSize: nat, head: u32, seg: nat): Pool
    requires blockSize <= P.usedBytes <= PoolEnd(P, seg) - PoolStart(P, seg) && P.liveObjects > 0
  {
    P.(bins := b, orderHead := head, usedBytes := P.usedBytes - blockSize,
       freeBytes := PoolEnd(P, seg) - PoolStart(P, seg) - (P.usedBytes - blockSize), liveObjects := P.liveObjects - 1)
  }

  lemma FreePoolOk(z: seq<u32>, z': seq<u32>, P: Pool, b: TlsfBins, ds: seq<ObjectDesc>, ds': seq<ObjectDesc>,
                   pid: nat, A: APool, lists': seq<seq<nat>>, seg: nat, slot: nat, o: nat)
    requires slot in A.order && slot < |ds| && ds[slot].activeBorrows == 0 && ds[slot].address == o + HEADER && o in A.L && o + 4 < |z|
    requires PoolOk(z, P, ds, pid, A, seg)
    requires PoolLay(z', b, AfterFree(z, A.L, o), lists', PoolStart(P, seg), PoolEnd(P, seg))
    requires UnlinkedDescs(ds, ds', slot)
    ensures ds[slot].blockSize <= P.usedBytes <= PoolEnd(P, seg) - PoolStart(P, seg) && P.liveObjects > 0
    ensures PoolOk(z', FreePool(P, b, ds[slot].blockSize, HeadAfter(ds, slot, P.orderHead), seg), ds', pid,
                   APool(AfterFree(z, A.L, o), lists', Without(A.order, IndexOf(A.order, slot))), seg)
  {
    hide BinsInv, LayoutInv, ObjsOk, AfterFree, UnlinkedDescs, Bytes, Tiles, IndexOf, Without;
    var s, e := PoolStart(P, seg), PoolEnd(P, seg);
    SlotPlaced(ds, P.orderHead, pid, A.L, A.order, slot);
    FreeBytes(z, A.L, s, e, o);
    TilesOf(z, A.L, s, e);
    Accounting(A.L, s, e);
    FreeLive(z, A.L, s, e, o);
    FreeObjs(ds, ds', P.orderHead, pid, A.L, AfterFree(z, A.L, o), A.order, slot);
  }

  // The list head once slot is unlinked.
  function HeadAfter(ds: seq<ObjectDesc>, slot: nat, head: u32): u32
    requires slot < |ds|
  {
    if ds[slot].addrPrev == NO_ORDER then ds[slot].addrNext else head
  }

  lemma SlotPlaced(ds: seq<ObjectDesc>, head: u32, pid: nat, L: Lay, order: seq<nat>, slot: nat)
    requires ObjsOk(ds, head, pid, L, order) && slot in order
    ensures slot < |ds| && LiveDesc(ds[slot], pid) && PlacedAt(ds[slot], L, slot)
  {
    hide OrderLinked;
  }

  // Descriptors after free: unlinked from the live list, pushed on the free-slot stack.
  lemma FreeSlots(z: seq<u32>, ps: seq<Pool>, ds: seq<ObjectDesc>, ds': seq<ObjectDesc>,
                  head: u16, seg: nat, segCount: nat, zoneSize: nat, abs: seq<APool>, stack: seq<nat>, p: nat, slot: nat)
    requires Inv(z, ps, ds, head, seg, segCount, zoneSize, abs, stack) && p < |ps| == |abs| && !ps[p].state.Empty?
    requires slot < |ds| && ds[slot].state.LiveObj? && ds[slot].poolId == p && UnlinkedDescs(ds, ds', slot)
    requires ds'[slot].state.FreeSlot? && ds'[slot].nextFreeSlot == head
    ensures |ds'| == |ds| && slot < 0xFFFF && SlotsOk(ds', slot, [slot] + stack) && slot in abs[p].order
    ensures forall sl :: 0 <= sl < |ds| && ds[sl].state.LiveObj? && ds[sl].poolId != p ==> ds'[sl] == ds[sl]
    ensures forall sl :: 0 <= sl < |ds| && ds'[sl].state.LiveObj? ==>
              (ds[sl].state.LiveObj? && ds[sl].poolId != p) ||
              (ds'[sl].poolId == p && sl in Without(abs[p].order, IndexOf(abs[p].order, slot)))
  {
    hide Inv, PoolOk, SlotsOk, NoDup;
    PoolFacts(z, ps, ds, head, seg, segCount, zoneSize, abs, stack, p);
    InList(z, ps, ds, head, seg, segCount, zoneSize, abs, stack, slot);
    OrderNoDup(z, ps[p], ds, p, abs[p], seg);
    NeighbourPools(z, ps[p], ds, p, abs[p], seg, slot);
    SlotPush(ds, ds', head, stack, slot);
    WithoutMembers(abs[p].order, IndexOf(abs[p].order, slot));
    forall sl | 0 <= sl < |ds| && ds'[sl].state.LiveObj?
      ensures (ds[sl].state.LiveObj? && ds[sl].poolId != p) ||
              (ds'[sl].poolId == p && sl in Without(abs[p].order, IndexOf(abs[p].order, slot)))
    {
      InList(z, ps, ds, head, seg, segCount, zoneSize, abs, stack, sl);
    }
  }

  lemma OrderNoDup(z: seq<u32>, P: Pool, ds: seq<ObjectDesc>, pid: nat, A: APool, seg: nat)
    requires PoolOk(z, P, ds, pid, A, seg)
    ensures NoDup(A.order)
  {
    hide PoolLay, Counters;
  }

  // The list neighbours of a live slot belong to the same pool.
  lemma NeighbourPools(z: seq<u32>, P: Pool, ds: seq<ObjectDesc>, pid: nat, A: APool, seg: nat, slot: nat)
    requires PoolOk(z, P, ds, pid, A, seg) && slot in A.order
    ensures slot < |ds| < 0xFFFF
    ensures ds[slot].addrPrev != NO_ORDER ==> ds[slot].addrPrev < |ds| && ds[ds[slot].addrPrev].poolId == pid
    ensures ds[slot].addrNext != NO_ORDER ==> ds[slot].addrNext < |ds| && ds[ds[slot].addrNext].poolId == pid
    ensures ds[slot].addrPrev != slot && ds[slot].addrNext != slot
    ensures ds[slot].addrPrev != NO_ORDER ==> ds[slot].addrPrev != ds[slot].addrNext
  {
    hide PoolLay, Counters;
    var order := A.order;
    var i: int := IndexOf(order, slot);
    assert ds[order[i]].addrNext == At(order, i + 1) && ds[order[i]].addrPrev == At(order, i - 1);
    if i > 0 { OrderPool(ds, P.orderHead, pid, A.L, order, order[i - 1]); }
    if i + 1 < |order| { OrderPool(ds, P.orderHead, pid, A.L, order, order[i + 1]); }
  }

  // order_unlink
  method OrderUnlink(objects: array<ObjectDesc>, head: u32, idx: nat) returns (head': u32)
    requires idx < objects.Length < 0xFFFF
    requires objects[idx].addrPrev != NO_ORDER ==> objects[idx].addrPrev < objects.Length
    requires objects[idx].addrNext != NO_ORDER ==> objects[idx].addrNext < objects.Length
    requires objects[idx].addrPrev != idx && objects[idx].addrNext != idx
    modifies objects
    ensures UnlinkedDescs(old(objects[..]), objects[..], idx)
    ensures head' == if old(objects[idx]).addrPrev == NO_ORDER then old(objects[idx]).addrNext else head
    ensures objects[idx] == old(objects[idx]).(addrPrev := NO_ORDER, addrNext := NO_ORDER)
  {
    var d := objects[idx];
    head' := head;
    if d.addrPrev != NO_ORDER {
      objects[d.addrPrev] := objects[d.addrPrev].(addrNext := d.addrNext);
    } else {
      head' := d.addrNext;
    }
    if d.addrNext != NO_ORDER {
      objects[d.addrNext] := objects[d.addrNext].(addrPrev := d.addrPrev);
    }
    objects[idx] := objects[idx].(addrPrev := NO_ORDER, addrNext := NO_ORDER);
  }

  // What a valid root reference to a running pool means for free.
  ghost predicate Freeable(ps: seq<Pool>, ds: seq<ObjectDesc>, ref: RawRef) {
    && ref.offset == 0
    && ref.index < |ds| && ds[ref.index].state.LiveObj? && ds[ref.index].generation == ref.generation
    && (ref.poolHint == CROSS_HINT || ref.poolHint == ds[ref.index].poolId)
    && ds[ref.index].poolId < |ps| && ps[ds[ref.index].poolId].state.Running?
    && ds[ref.index].activeBorrows == 0
  }

  function FreeStatus(ps: seq<Pool>, ds: seq<ObjectDesc>, ref: RawRef): Status {
    if ref.offset != 0 then InvalidRef
    else if RefStatus(ps, ds, ref, 0, 1, true) != Ok then RefStatus(ps, ds, ref, 0, 1, true)
    else if ref.index < |ds| && ds[ref.index].activeBorrows != 0 then Busy
    else Ok
  }

  // The pool's abstraction after free: the block joined its free neighbours, the slot left the
  // live list.
  ghost predicate FreeEffect(z: seq<u32>, A: APool, A': APool, address: nat, slot: nat) {
    && HEADER <= address < |z| && address - HEADER in A.L
    && A'.L == AfterFree(z, A.L, address - HEADER)
    && slot in A.order && A'.order == Without(A.order, IndexOf(A.order, slot))
  }

  ghost predicate FreedObject(z: seq<u32>, z': seq<u32>, ps: seq<Pool>, ps': seq<Pool>, ds: seq<ObjectDesc>, ds': seq<ObjectDesc>,
                              abs: seq<APool>, abs': seq<APool>, seg: nat, slot: nat) {
    && slot < |ds| == |ds'|
    && var d := ds[slot];
    && d.poolId < |ps| && d.poolId < |abs| && d.poolId < |abs'|
    && OnlyPoolChanged(abs, abs', ps, ps', d.poolId)
    && FreeEffect(z, abs[d.poolId], abs'[d.poolId], d.address, slot)
    && LivePayloadKept(z, z', abs[d.poolId].L - {d.address - HEADER})
    && OutsideKept(z, z', PoolStart(ps[d.poolId], seg), PoolEnd(ps[d.poolId], seg))
    && UnlinkedDescs(ds, ds', slot)
    && ds'[slot] == d.(state := FreeSlot, generation := NextGeneration(d.generation), address := 0,
                       nextFreeSlot := ds'[slot].nextFreeSlot, addrPrev := NO_ORDER, addrNext := NO_ORDER)
    && ps[d.poolId].usedBytes >= d.blockSize && ps[d.poolId].liveObjects > 0
    && ps'[d.poolId] == ps[d.poolId].(bins := ps'[d.poolId].bins, orderHead := ps'[d.poolId].orderHead,
                                      usedBytes := ps[d.poolId].usedBytes - d.blockSize, freeBytes := ps'[d.poolId].freeBytes,
                                      liveObjects := ps[d.poolId].liveObjects - 1)
  }

  // An access of no bytes asks only whether the reference is current, bound and available.
  lemma EmptyAccess(ps: seq<Pool>, ds: seq<ObjectDesc>, ref: RawRef)
    ensures RefStatus(ps, ds, ref, 0, 1, true) ==
            if ref.index >= |ds| || !ds[ref.index].state.LiveObj? || ds[ref.index].generation != ref.generation then InvalidRef
            else if ref.poolHint != 0xFFFF && ref.poolHint != ds[ref.index].poolId then PoolChanged
            else if ds[ref.index].poolId >= |ps| || ps[ds[ref.index].poolId].state != Running then Busy
            else if ref.offset > ds[ref.index].size then InvalidRef
            else Ok
  {
  }

  // free succeeds exactly on a current, unborrowed root reference whose pool is running; it
  // never reports corruption on a consistent allocator, and a refusal changes nothing.
  method FreeObject(g: GlobalState, ref: RawRef) returns (st: Status)
    requires g.Valid()
    modifies g, g.zone, g.pools, g.objects
    ensures g.Valid()
    ensures st == FreeStatus(old(g.pools[..]), old(g.objects[..]), ref)
    ensures var ps, ds := old(g.pools[..]), old(g.objects[..]);
            st == (if ref.offset != 0 || ref.index >= |ds| || !ds[ref.index].state.LiveObj? || ds[ref.index].generation != ref.generation then InvalidRef
                   else if ref.poolHint != 0xFFFF && ref.poolHint != ds[ref.index].poolId then PoolChanged
                   else if ds[ref.index].poolId >= |ps| || ps[ds[ref.index].poolId].state != Running || ds[ref.index].activeBorrows != 0 then Busy
                   else Ok)
    ensures st == Ok <==> Freeable(old(g.pools[..]), old(g.objects[..]), ref)
    ensures st != Ok ==> g.zone[..] == old(g.zone[..]) && g.pools[..] == old(g.pools[..]) && g.objects[..] == old(g.objects[..])
    ensures st != Ok ==> g.abs == old(g.abs) && g.stack == old(g.stack) && g.freeSlotHead == old(g.freeSlotHead)
    ensures st == Ok ==>
              FreedObject(old(g.zone[..]), g.zone[..], old(g.pools[..]), g.pools[..], old(g.objects[..]), g.objects[..],
                          old(g.abs), g.abs, g.segmentSize, ref.index)
    ensures st == Ok ==> g.stack == [ref.index as nat] + old(g.stack)
  {
    hide Inv, PoolOk, SlotsOk, FreedObject, GeometryOk, CheckRef, RefStatus;
    if ref.offset != 0 { return InvalidRef; }
    EmptyAccess(g.pools[..], g.objects[..], ref);
    CheckRefMeaning(g.zone[..], g.pools[..], g.objects[..], g.freeSlotHead, g.segmentSize, g.segmentCount, g.zoneSize,
                    g.abs, g.stack, ref, 0, 1, true);
    var rc := CheckRef(g.pools[..], g.objects[..], g.segmentSize, g.segmentCount, g.zoneSize, ref, 0, 1, true);
    if rc.st != Ok { return rc.st; }
    if g.objects[ref.index].activeBorrows != 0 { return Busy; }
    FreeCommit(g, ref.index);
    return Ok;
  }

  // The read-only proof and the mutation phase of free.
  method FreeCommit(g: GlobalState, idx: u32)
    requires g.Valid() && idx < g.objects.Length && g.objects[idx].state.LiveObj? && g.objects[idx].activeBorrows == 0
    modifies g, g.zone, g.pools, g.objects
    ensures g.Valid()
    ensures FreedObject(old(g.zone[..]), g.zone[..], old(g.pools[..]), g.pools[..], old(g.objects[..]), g.objects[..],
                        old(g.abs), g.abs, g.segmentSize, idx)
    ensures g.stack == [idx as nat] + old(g.stack)
  {
    hide Inv, PoolOk, SlotsOk, LayoutInv, BinsInv, OutsideKept, GeometryOk, AfterFree, LivePayloadKept, NextGeneration, UnlinkedDescs,
         IndexOf, Without, PoolStart, PoolEnd, LiveDesc, LinksInTable;
    ghost var z, ps, ds, abs, stack, head := g.zone[..], g.pools[..], g.objects[..], g.abs, g.stack, g.freeSlotHead;
    var d := g.objects[idx];
    ghost var p: nat := d.poolId;
    FreeTarget(z, ps, ds, head, g.segmentSize, g.segmentCount, g.zoneSize, abs, stack, idx);
    var P := g.pools[d.poolId];
    ghost var A := abs[p];
    var start, end := PoolStart(P, g.segmentSize), PoolEnd(P, g.segmentSize);
    var block := d.address - HEADER;
    var st := VerifyNeighbours(g.zone, P.bins, block, d.blockSize, start, end, A.L, A.lists);
    var bins;
    ghost var lists';
    bins, lists' := ReleaseBlock(g.zone, P.bins, block, d.blockSize, end, A.L, A.lists, start);
    var orderHead := ReleaseDesc(g, P.orderHead, idx);
    FreeKeepsInv(z, g.zone[..], ps, bins, ds, g.objects[..], head, g.segmentSize, g.segmentCount, g.zoneSize, abs, lists', stack, p, idx, block);
    g.pools[d.poolId] := FreePool(P, bins, d.blockSize, orderHead, g.segmentSize);
    g.liveObjectCount := g.liveObjectCount - 1;
    g.abs := abs[p := APool(AfterFree(z, A.L, block), lists', Without(A.order, IndexOf(A.order, idx)))];
    g.stack := [idx as nat] + stack;
    assert g.pools[..] == ps[p := FreePool(P, bins, d.blockSize, orderHead, g.segmentSize)];
  }

  // The stack holds distinct free slots, so a live slot keeps it shorter than the table.
  lemma LiveCounted(ds: seq<ObjectDesc>, head: u16, stack: seq<nat>, idx: nat)
    requires SlotsOk(ds, head, stack) && idx < |ds| && ds[idx].state.LiveObj?
    ensures |stack| < |ds|
  {
    forall i | 0 <= i < |stack| ensures stack[i] != idx {
      assert ds[stack[i]].state.FreeSlot?;
    }
    var t := stack + [idx];
    DistinctBelow(t, |ds|);
  }

  // order_unlink, the descriptor reset and slot_release.
  method ReleaseDesc(g: GlobalState, head: u32, idx: u32) returns (head': u32)
    requires idx < g.objects.Length < 0xFFFF
    requires g.objects[idx].addrPrev != NO_ORDER ==> g.objects[idx].addrPrev < g.objects.Length
    requires g.objects[idx].addrNext != NO_ORDER ==> g.objects[idx].addrNext < g.objects.Length
    requires g.objects[idx].addrPrev != idx && g.objects[idx].addrNext != idx
    modifies g`freeSlotHead, g.objects
    ensures UnlinkedDescs(old(g.objects[..]), g.objects[..], idx)
    ensures head' == if old(g.objects[idx]).addrPrev == NO_ORDER then old(g.objects[idx]).addrNext else head
    ensures g.freeSlotHead == idx && g.objects[idx].state.FreeSlot? && g.objects[idx].nextFreeSlot == old(g.freeSlotHead)
    ensures g.objects[idx] == old(g.objects[idx]).(state := FreeSlot, generation := NextGeneration(old(g.objects[idx]).generation),
                                                   address := 0, activeBorrows := 0, nextFreeSlot := old(g.freeSlotHead),
                                                   addrPrev := NO_ORDER, addrNext := NO_ORDER)
  {
    hide NextGeneration;
    head' := OrderUnlink(g.objects, head, idx);
    g.objects[idx] := g.objects[idx].(state := FreeSlot, generation := NextGeneration(g.objects[idx].generation), address := 0, activeBorrows := 0);
    SlotRelease(g, idx);
  }

  // What a live slot of a consistent allocator gives free to work with.
  lemma FreeTarget(z: seq<u32>, ps: seq<Pool>, ds: seq<ObjectDesc>, head: u16, seg: nat, segCount: nat, zoneSize: nat,
                   abs: seq<APool>, stack: seq<nat>, idx: nat)
    requires Inv(z, ps, ds, head, seg, segCount, zoneSize, abs, stack)
    requires idx < |ds| && ds[idx].state.LiveObj?
    ensures |ds| < 0xFFFF && |abs| == |ps| && |stack| < |ds|
    ensures var d, p := ds[idx], ds[idx].poolId;
            && p < |ps| && p < |abs| && !ps[p].state.Empty? && idx in abs[p].order
            && PoolLay(z, ps[p].bins, abs[p].L, abs[p].lists, PoolStart(ps[p], seg), PoolEnd(ps[p], seg))
            && HEADER <= d.address < |z| && d.address - HEADER in abs[p].L
            && abs[p].L[d.address - HEADER] == Blk(d.blockSize, Live(idx))
            && (d.addrPrev != NO_ORDER ==> d.addrPrev < |ds|) && (d.addrNext != NO_ORDER ==> d.addrNext < |ds|)
            && d.addrPrev != idx && d.addrNext != idx
  {
    hide Inv, PoolOk, SlotsOk, LayoutInv, BinsInv;
    LiveSlot(z, ps, ds, head, seg, segCount, zoneSize, abs, stack, idx);
    PoolFacts(z, ps, ds, head, seg, segCount, zoneSize, abs, stack, ds[idx].poolId);
    InvLengths(z, ps, ds, head, seg, segCount, zoneSize, abs, stack);
    LiveCounted(ds, head, stack, idx);
    var p := ds[idx].poolId;
    LiveBlockFacts(z, abs[p].L, PoolStart(ps[p], seg), PoolEnd(ps[p], seg), ds[idx].address - HEADER);
    NeighbourPools(z, ps[p], ds, p, abs[p], seg, idx);
  }

  lemma FreeKeepsInv(z: seq<u32>, z': seq<u32>, ps: seq<Pool>, b: TlsfBins, ds: seq<ObjectDesc>, ds': seq<ObjectDesc>,
                     head: u16, seg: nat, segCount: nat, zoneSize: nat, abs: seq<APool>, lists': seq<seq<nat>>,
                     stack: seq<nat>, p: nat, slot: nat, o: nat)
    requires p < |ps| == |abs| && !ps[p].state.Empty? && slot < |ds| && ds[slot].state.LiveObj? && ds[slot].poolId == p && ds[slot].activeBorrows == 0
    requires slot in abs[p].order && ds[slot].address == o + HEADER && o in abs[p].L && o + 4 < |z|
    requires Inv(z, ps, ds, head, seg, segCount, zoneSize, abs, stack)
    requires PoolLay(z', b, AfterFree(z, abs[p].L, o), lists', PoolStart(ps[p], seg), PoolEnd(ps[p], seg))
    requires OutsideKept(z, z', PoolStart(ps[p], seg), PoolEnd(ps[p], seg))
    requires UnlinkedDescs(ds, ds', slot) && ds'[slot].state.FreeSlot? && ds'[slot].nextFreeSlot == head
    ensures slot < 0xFFFF && ds[slot].blockSize <= ps[p].usedBytes <= PoolEnd(ps[p], seg) - PoolStart(ps[p], seg) && ps[p].liveObjects > 0
    ensures Inv(z', ps[p := FreePool(ps[p], b, ds[slot].blockSize, HeadAfter(ds, slot, ps[p].orderHead), seg)], ds', slot, seg, segCount, zoneSize,
                abs[p := APool(AfterFree(z, abs[p].L, o), lists', Without(abs[p].order, IndexOf(abs[p].order, slot)))], [slot] + stack)
  {
    hide PoolOk, SlotsOk, PoolLay, Inv, AfterFree, OutsideKept, GeometryOk, IndexOf, Without, PoolStart, PoolEnd, UnlinkedDescs, HeadAfter;
    PoolFacts(z, ps, ds, head, seg, segCount, zoneSize, abs, stack, p);
    FreeSlots(z, ps, ds, ds', head, seg, segCount, zoneSize, abs, stack, p, slot);
    FreePoolOk(z, z', ps[p], b, ds, ds', p, abs[p], lists', seg, slot, o);
    var A' := APool(AfterFree(z, abs[p].L, o), lists', Without(abs[p].order, IndexOf(abs[p].order, slot)));
    PoolUpdated(z, z', ps, FreePool(ps[p], b, ds[slot].blockSize, HeadAfter(ds, slot, ps[p].orderHead), seg), ds, ds', head, slot,
                seg, segCount, zoneSize, abs, A', stack, [slot] + stack, p);
  }

  // alloc followed at once by free: the pool has its old layout, free blocks included, and the
  // slot is back on top of the stack.
  method AllocThenFree(g: GlobalState, pid: nat, size: u32, alignment: u32, flags: set<Flag>, userTag: u32)
      returns (ast: Status, fst: Status)
    requires g.Valid() && pid < 0x1_0000
    modifies g, g.zone, g.pools, g.objects
    ensures g.Valid()
    ensures ast == Ok ==> fst == Ok
    ensures ast == Ok ==> pid < |old(g.abs)| && pid < |g.abs| && g.abs[pid].L == old(g.abs)[pid].L && FreeMap(g.abs[pid].L) == FreeMap(old(g.abs)[pid].L)
    ensures ast == Ok ==> g.stack == old(g.stack) && g.abs[pid].order == old(g.abs)[pid].order
  {
    hide Inv, AllocRefusal, AllocFits, AllocEffect, AllocRecords, OnlyPoolChanged, LivePayloadKept, OutsideKept, FreeMap, NextGeneration, NeedOf,
         Freeable, FreeStatus, FreedObject, FreeEffect, LayoutInv, PoolStart, PoolEnd;
    var out;
    ghost var blk;
    ghost var z, ps, ds, abs, head, stack := g.zone[..], g.pools[..], g.objects[..], g.abs, g.freeSlotHead, g.stack;
    ast, out, blk := Alloc(g, pid, size, alignment, flags, userTag);
    fst := NoSpace;
    if ast != Ok { return; }
    ghost var z1, ps1, ds1, abs1, head1, stack1 := g.zone[..], g.pools[..], g.objects[..], g.abs, g.freeSlotHead, g.stack;
    RunningPool(ps, pid, size, alignment, flags);
    FreshFreeable(ps, ps1, ds, ds1, pid, out.index, blk, size, userTag, Pinning(flags), out.generation, g.segmentSize);
    fst := FreeObject(g, out);
    FreedPool(z1, g.zone[..], ps1, g.pools[..], ds1, g.objects[..], abs1, g.abs, g.segmentSize, out.index, pid, blk);
    CarvedLayout(z, ps, ds, head, g.segmentSize, g.segmentCount, g.zoneSize, abs, stack, pid);
    CarvedLayout(z1, ps1, ds1, head1, g.segmentSize, g.segmentCount, g.zoneSize, abs1, stack1, pid);
    AllocUndone(z, z1, abs[pid], abs1[pid], g.abs[pid], PoolStart(ps[pid], g.segmentSize), PoolEnd(ps[pid], g.segmentSize), NeedOf(size), out.index, blk);
    assert [out.index as nat] + stack[1..] == stack;
  }

  lemma RunningPool(ps: seq<Pool>, pid: nat, size: u32, alignment: u32, flags: set<Flag>)
    requires AllocRefusal(ps, pid, size, alignment, flags) == Ok
    ensures pid < |ps| && ps[pid].state.Running?
  {
  }

  // What alloc hands out can be freed at once.
  lemma FreshFreeable(ps: seq<Pool>, ps': seq<Pool>, ds: seq<ObjectDesc>, ds': seq<ObjectDesc>, pid: u16, slot: u32, blk: nat, size: u32, userTag: u32,
                      flags: set<Flag>, gen: u16, seg: nat)
    requires AllocRecords(ps, ps', ds, ds', pid, slot, NewDesc(blk, size, userTag, pid, flags, gen)) && ps[pid].state.Running?
    ensures Freeable(ps', ds', RawRef(slot, gen, pid, 0)) && slot < |ds'| && ds'[slot].address == blk + HEADER && ds'[slot].poolId == pid
    ensures pid < |ps'| && !ps'[pid].state.Empty?
    ensures PoolStart(ps'[pid], seg) == PoolStart(ps[pid], seg) && PoolEnd(ps'[pid], seg) == PoolEnd(ps[pid], seg)
  {
  }

  lemma FreedPool(z: seq<u32>, z': seq<u32>, ps: seq<Pool>, ps': seq<Pool>, ds: seq<ObjectDesc>, ds': seq<ObjectDesc>,
                  abs: seq<APool>, abs': seq<APool>, seg: nat, slot: nat, pid: nat, blk: nat)
    requires FreedObject(z, z', ps, ps', ds, ds', abs, abs', seg, slot) && slot < |ds| && ds[slot].poolId == pid && ds[slot].address == blk + HEADER
    ensures pid < |abs| && pid < |abs'| && FreeEffect(z, abs[pid], abs'[pid], blk + HEADER, slot)
  {
    hide FreeEffect, OnlyPoolChanged, UnlinkedDescs;
  }

  lemma AllocUndone(z: seq<u32>, z': seq<u32>, A: APool, B: APool, C: APool, s: nat, e: nat, need: nat, slot: nat, blk: nat)
    requires AllocEffect(A, B, need, slot, blk) && FreeEffect(z', B, C, blk + HEADER, slot)
    requires LayoutInv(z, A.L, s, e) && LayoutInv(z', B.L, s, e) && need > 0
    ensures C.L == A.L && C.order == A.order
  {
    hide LayoutInv, AfterAlloc, AfterFree, IndexOf, Without;
    AllocFreeRestores(z, z', A.L, s, e, blk, need, slot);
    FrontWithout(slot, A.order);
  }

  lemma CarvedLayout(z: seq<u32>, ps: seq<Pool>, ds: seq<ObjectDesc>, head: u16, seg: nat, segCount: nat, zoneSize: nat,
                     abs: seq<APool>, stack: seq<nat>, p: nat)
    requires Inv(z, ps, ds, head, seg, segCount, zoneSize, abs, stack) && p < |ps| && p < |abs| && !ps[p].state.Empty?
    ensures LayoutInv(z, abs[p].L, PoolStart(ps[p], seg), PoolEnd(ps[p], seg))
  {
    hide Inv, PoolOk, BinsInv, GeometryOk, LayoutInv;
    PoolFacts(z, ps, ds, head, seg, segCount, zoneSize, abs, stack, p);
  }

  lemma FrontWithout(slot: nat, order: seq<nat>)
    ensures IndexOf([slot] + order, slot) == 0 && Without([slot] + order, 0) == order
  {
  }
}
