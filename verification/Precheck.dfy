/** precheck_pool: the descriptor audit that gates every maintenance plan. It runs on arbitrary
    metadata; what it accepts is exactly what planning needs. */
module Precheck {
  import opened Base
  import opened Lists
  import opened Bins
  import opened Layout
  import opened PoolHeap
  import opened Objects
  import opened State
  import opened Blocks
  import opened Collect

  // What a successful audit has established about a window [s, e).
  ghost predicate Audited(z: seq<u32>, P: Pool, ds: seq<ObjectDesc>, pid: nat, order: seq<nat>, slots: seq<nat>, s: nat, e: nat) {
    && Collected(ds, P.orderHead, pid, order, slots)
    && Addressed(ds, slots) && Ordered(BlocksOf(ds, slots), s, e) && e <= |z|
    && (forall i :: 0 <= i < |slots| ==> BlockAudited(z, ds, slots[i]))
    && |slots| == P.liveObjects && SumSizes(BlocksOf(ds, slots)) == P.usedBytes
    && P.freeBytes == e - s - P.usedBytes
  }

  // The header in the zone agrees with the descriptor, and the payload fits the block.
  ghost predicate BlockAudited(z: seq<u32>, ds: seq<ObjectDesc>, sl: nat) {
    && sl < |ds| && HEADER <= ds[sl].address && ds[sl].address - HEADER < |z|
    && z[ds[sl].address - HEADER] == ds[sl].blockSize && ds[sl].size + HEADER <= ds[sl].blockSize
  }

  // The audit on descriptor fields and zone words: slots in address order, each with a block of
  // legal shape in the window whose header word is its size, no two of them overlapping, and
  // their number and bytes as the pool's record says.
  lemma AuditSpelled(z: seq<u32>, P: Pool, ds: seq<ObjectDesc>, pid: nat, order: seq<nat>, slots: seq<nat>, s: nat, e: nat)
    requires s <= e <= |z| && s % 8 == 0 && e % 8 == 0
    ensures Audited(z, P, ds, pid, order, slots, s, e) <==>
              && Collected(ds, P.orderHead, pid, order, slots)
              && (forall i {:trigger slots[i]} :: 0 <= i < |slots| ==>
                   && slots[i] < |ds|
                   && var d := ds[slots[i]];
                      && d.blockSize >= 16 && d.blockSize % 8 == 0 && d.address % 8 == 0 && d.size + 8 <= d.blockSize
                      && s <= d.address - 8 && d.address - 8 + d.blockSize <= e && z[d.address - 8] == d.blockSize)
              && (forall i, j :: 0 <= i < j < |slots| ==> ds[slots[i]].address - 8 + ds[slots[i]].blockSize <= ds[slots[j]].address - 8)
              && |slots| == P.liveObjects && (Addressed(ds, slots) ==> SumSizes(BlocksOf(ds, slots)) == P.usedBytes)
              && P.usedBytes + P.freeBytes == e - s
  {
    hide Collected, SumSizes;
    forall i | 0 <= i < |slots| && slots[i] < |ds| && 8 <= ds[slots[i]].address
      ensures ds[slots[i]].address % 8 == 0 <==> (ds[slots[i]].address - 8) % 8 == 0
    {
    }
    if Addressed(ds, slots) {
      var bs := BlocksOf(ds, slots);
      forall i | 0 <= i < |slots| ensures bs[i] == BlockOf(ds, slots[i]) {
      }
    }
  }

  // Some address order of the pool's live list passes the audit.
  ghost predicate AuditPasses(z: seq<u32>, P: Pool, ds: seq<ObjectDesc>, pid: nat, s: nat, e: nat, cap: nat) {
    exists order, slots :: |slots| <= cap && Audited(z, P, ds, pid, order, slots, s, e)
  }

  // precheck_pool: on any metadata it accepts exactly the pools that pass the audit, and hands
  // out their address-ordered slots; a consistent pool always passes.
  method PrecheckPool(zone: array<u32>, objects: array<ObjectDesc>, P: Pool, pid: nat,
                      seg: nat, segCount: nat, zoneSize: nat, cap: nat, ghost A: APool)
      returns (st: Status, slots: seq<nat>, ghost order: seq<nat>)
    requires objects.Length < 0xFFFF && zoneSize <= zone.Length <= ZONE_LIMIT && zoneSize < ZONE_LIMIT && seg % 1024 == 0
    ensures st == Ok || st == CorruptMetadata
    ensures st == Ok <==> GeometryOk(P, seg, segCount, zoneSize)
                          && AuditPasses(zone[..], P, objects[..], pid, PoolStart(P, seg), PoolEnd(P, seg), cap)
    ensures st == Ok ==> GeometryOk(P, seg, segCount, zoneSize)
    ensures st == Ok ==> |slots| <= cap && Audited(zone[..], P, objects[..], pid, order, slots, PoolStart(P, seg), PoolEnd(P, seg))
    ensures GeometryOk(P, seg, segCount, zoneSize) && PoolOk(zone[..], P, objects[..], pid, A, seg) && |A.order| <= cap ==>
              st == Ok && order == A.order
  {
    hide PoolOk, Audited, Collected, GoodList, SumSizes, BlocksOf, Ordered, AddressIncreasing, PoolStart, PoolEnd;
    ghost var z, ds := zone[..], objects[..];
    slots, order := [], [];
    ghost var good := GeometryOk(P, seg, segCount, zoneSize) && PoolOk(z, P, ds, pid, A, seg) && |A.order| <= cap;
    if !GeometryOk(P, seg, segCount, zoneSize) { return CorruptMetadata, slots, order; }
    var start, end := PoolStart(P, seg), PoolEnd(P, seg);
    WindowAligned(P, seg);
    WindowTop(P, seg, segCount, zoneSize);
    ghost var passes, order0, slots0 := false, A.order, [];
    if good {
      PoolListGood(z, P, ds, pid, A, seg);
    } else if o, sl :| |sl| <= cap && Audited(z, P, ds, pid, o, sl, start, end) {
      passes, order0, slots0 := true, o, sl;
      AuditedList(z, P, ds, pid, order0, slots0, start, end);
    }
    st, slots, order := CollectLiveSorted(objects, P.orderHead, pid, zoneSize, cap, order0);
    if st != Ok { return; }
    if good { PoolAudits(z, P, ds, pid, A, seg, slots); }
    if passes { SameSlots(z, P, ds, pid, order0, slots0, slots, start, end); }
    CollectedRange(ds, P.orderHead, pid, order, slots);
    var prevEnd := start;
    var used := 0;
    AuditStart(ds, slots, start, end);
    for i := 0 to |slots|
      invariant Addressed(ds, slots[..i]) && Ordered(BlocksOf(ds, slots[..i]), start, end)
      invariant prevEnd == EndOf(BlocksOf(ds, slots[..i]), start) && start <= prevEnd <= end
      invariant used == SumSizes(BlocksOf(ds, slots[..i]))
      invariant forall j :: 0 <= j < i ==> BlockAudited(z, ds, slots[j])
    {
      var d := objects[slots[i]];
      if good || passes { AuditedBlock(z, ds, slots, i, start, end); }
      if d.blockSize < MIN_BLOCK || d.blockSize % ALIGN != 0 { return CorruptMetadata, slots, order; }
      if d.size > d.blockSize - HEADER { return CorruptMetadata, slots, order; }
      if d.address < start + HEADER || d.address % ALIGN != 0 { return CorruptMetadata, slots, order; }
      var bstart := d.address - HEADER;
      if bstart >= end || d.address > end { return CorruptMetadata, slots, order; }
      if d.blockSize > end - bstart { return CorruptMetadata, slots, order; }
      if d.size > end - d.address { return CorruptMetadata, slots, order; }
      if bstart < prevEnd { return CorruptMetadata, slots, order; }
      var own := zone[bstart];
      if BlkFree(own) || BlkSize(own) != d.blockSize { return CorruptMetadata, slots, order; }
      AuditStep(ds, slots, i, start, end);
      prevEnd := bstart + d.blockSize;
      used := used + d.blockSize;
    }
    assert slots[..|slots|] == slots;
    SumBound(BlocksOf(ds, slots), start, end);
    if |slots| != P.liveObjects || used != P.usedBytes { return CorruptMetadata, slots, order; }
    if P.freeBytes != end - start - used { return CorruptMetadata, slots, order; }
    AuditHolds(z, P, ds, pid, order, slots, start, end);
  }

  lemma WindowTop(P: Pool, seg: nat, segCount: nat, zoneSize: nat)
    requires GeometryOk(P, seg, segCount, zoneSize)
    ensures PoolEnd(P, seg) <= zoneSize
  {
  }

  lemma AuditHolds(z: seq<u32>, P: Pool, ds: seq<ObjectDesc>, pid: nat, order: seq<nat>, slots: seq<nat>, s: nat, e: nat)
    requires Collected(ds, P.orderHead, pid, order, slots)
    requires Addressed(ds, slots) && Ordered(BlocksOf(ds, slots), s, e) && e <= |z|
    requires forall i :: 0 <= i < |slots| ==> BlockAudited(z, ds, slots[i])
    requires |slots| == P.liveObjects && SumSizes(BlocksOf(ds, slots)) == P.usedBytes && P.freeBytes == e - s - P.usedBytes
    ensures Audited(z, P, ds, pid, order, slots, s, e)
  {
  }

  // An audited slot array lists the pool's live list in strictly ascending order of in-range
  // addresses.
  lemma AuditedList(z: seq<u32>, P: Pool, ds: seq<ObjectDesc>, pid: nat, order: seq<nat>, slots: seq<nat>, s: nat, e: nat)
    requires Audited(z, P, ds, pid, order, slots, s, e) && e < ZONE_LIMIT
    ensures GoodList(ds, P.orderHead, pid, order) && |order| == |slots|
    ensures AddressIncreasing(ds, slots) && forall i :: 0 <= i < |slots| ==> ds[slots[i]].address < OFF_LIMIT
  {
    hide OrderLinked, NoDup, SumSizes, AddressIncreasing, Ordered, BlocksOf;
    AuditedAscends(ds, slots, s, e);
    assert |multiset(slots)| == |multiset(order)|;
    forall i | 0 <= i < |order| ensures order[i] < |ds| && ds[order[i]].address < OFF_LIMIT {
      PermutedMember(order, slots, i);
    }
    AscendingApart(ds, order, slots);
  }

  lemma AuditedAscends(ds: seq<ObjectDesc>, slots: seq<nat>, s: nat, e: nat)
    requires Addressed(ds, slots) && Ordered(BlocksOf(ds, slots), s, e) && e < ZONE_LIMIT
    ensures AddressIncreasing(ds, slots) && forall i :: 0 <= i < |slots| ==> slots[i] < |ds| && ds[slots[i]].address < OFF_LIMIT
  {
    var bs := BlocksOf(ds, slots);
    forall i | 0 <= i < |slots| ensures bs[i] == BlockOf(ds, slots[i]) && ds[slots[i]].address < OFF_LIMIT {
      assert bs[i] == BlockOf(ds, slots[i]);
    }
    forall i, j | 0 <= i < j < |slots| ensures ds[slots[i]].address < ds[slots[j]].address {
      assert bs[i].off + bs[i].size <= bs[j].off;
    }
  }

  // Different slots of an ascending array have different addresses.
  lemma AscendingApart(ds: seq<ObjectDesc>, order: seq<nat>, slots: seq<nat>)
    requires AddressIncreasing(ds, slots) && multiset(slots) == multiset(order) && NoDup(order)
    requires forall i :: 0 <= i < |order| ==> order[i] < |ds|
    ensures forall i, j :: 0 <= i < j < |order| ==> ds[order[i]].address != ds[order[j]].address
  {
    hide AddressIncreasing;
    forall i, j | 0 <= i < j < |order| ensures ds[order[i]].address != ds[order[j]].address {
      AscendingPair(ds, order, slots, i, j);
    }
  }

  lemma AscendingPair(ds: seq<ObjectDesc>, order: seq<nat>, slots: seq<nat>, i: nat, j: nat)
    requires AddressIncreasing(ds, slots) && multiset(slots) == multiset(order) && NoDup(order) && i < j < |order|
    requires order[i] < |ds| && order[j] < |ds|
    ensures ds[order[i]].address != ds[order[j]].address
  {
    PermutedMember(order, slots, i);
    PermutedMember(order, slots, j);
    var x, y := IndexOf(slots, order[i]), IndexOf(slots, order[j]);
    assert order[i] != order[j];
    if x < y { assert ds[slots[x]].address < ds[slots[y]].address; } else { assert ds[slots[y]].address < ds[slots[x]].address; }
  }

  // Two address orders of one list are the same.
  lemma SameSlots(z: seq<u32>, P: Pool, ds: seq<ObjectDesc>, pid: nat, order: seq<nat>, slots0: seq<nat>, slots: seq<nat>, s: nat, e: nat)
    requires Audited(z, P, ds, pid, order, slots0, s, e) && e < ZONE_LIMIT && Collected(ds, P.orderHead, pid, order, slots)
    ensures slots == slots0 && Addressed(ds, slots) && Ordered(BlocksOf(ds, slots), s, e) && e <= |z|
    ensures (forall i :: 0 <= i < |slots| ==> BlockAudited(z, ds, slots[i]))
            && |slots| == P.liveObjects && SumSizes(BlocksOf(ds, slots)) == P.usedBytes && P.freeBytes == e - s - P.usedBytes
  {
    hide OrderLinked, NoDup, SumSizes, AddressIncreasing, Ordered, BlocksOf, Listed;
    AuditedList(z, P, ds, pid, order, slots0, s, e);
    assert SameMembers(slots, slots0) by {
      forall x ensures x in slots <==> x in slots0 {
        assert multiset(slots)[x] == multiset(slots0)[x];
        assert x in slots <==> x in multiset(slots);
        assert x in slots0 <==> x in multiset(slots0);
      }
    }
    forall i | 0 <= i < |slots| ensures slots[i] < |ds| && ds[slots[i]].address < OFF_LIMIT {
      assert slots[i] in slots0;
    }
    assert AddressIncreasing(ds, slots);
    IncreasingUnique(ds, slots, slots0);
  }

  lemma WindowAligned(P: Pool, seg: nat)
    requires seg % 1024 == 0
    ensures PoolStart(P, seg) % ALIGN == 0 && PoolEnd(P, seg) % ALIGN == 0 && PoolStart(P, seg) <= PoolEnd(P, seg)
  {
    SegAligned(P.segmentFirst, seg);
    SegAligned(P.segmentFirst + P.segmentCount, seg);
    SegMono(P.segmentFirst, P.segmentFirst + P.segmentCount, seg);
  }

  lemma CollectedRange(ds: seq<ObjectDesc>, head: u32, pid: nat, order: seq<nat>, slots: seq<nat>)
    requires Collected(ds, head, pid, order, slots)
    ensures forall i :: 0 <= i < |slots| ==> slots[i] < |ds|
  {
    hide OrderLinked, NoDup, AddressIncreasing;
  }

  lemma AuditStart(ds: seq<ObjectDesc>, slots: seq<nat>, s: nat, e: nat)
    requires s <= e && s % ALIGN == 0 && e % ALIGN == 0
    ensures Addressed(ds, slots[..0]) && Ordered(BlocksOf(ds, slots[..0]), s, e)
    ensures EndOf(BlocksOf(ds, slots[..0]), s) == s && SumSizes(BlocksOf(ds, slots[..0])) == 0
  {
  }

  lemma AuditStep(ds: seq<ObjectDesc>, slots: seq<nat>, i: nat, s: nat, e: nat)
    requires i < |slots| && Addressed(ds, slots[..i]) && Ordered(BlocksOf(ds, slots[..i]), s, e)
    requires slots[i] < |ds| && HEADER <= ds[slots[i]].address
    requires var nb := BlockOf(ds, slots[i]);
             && MIN_BLOCK <= nb.size && nb.size % ALIGN == 0 && (nb.off + HEADER) % ALIGN == 0
             && EndOf(BlocksOf(ds, slots[..i]), s) <= nb.off && s <= nb.off && nb.off + nb.size <= e
    ensures Addressed(ds, slots[..i + 1]) && Ordered(BlocksOf(ds, slots[..i + 1]), s, e)
    ensures var nb := BlockOf(ds, slots[i]);
            && EndOf(BlocksOf(ds, slots[..i + 1]), s) == nb.off + nb.size
            && SumSizes(BlocksOf(ds, slots[..i + 1])) == SumSizes(BlocksOf(ds, slots[..i])) + nb.size
  {
    var bs, nb := BlocksOf(ds, slots[..i]), BlockOf(ds, slots[i]);
    assert slots[..i + 1] == slots[..i] + [slots[i]];
    assert BlocksOf(ds, slots[..i + 1]) == bs + [nb];
    assert (bs + [nb])[..|bs|] == bs;
    forall j | 0 <= j < |bs| ensures bs[j].off + bs[j].size <= nb.off {
      assert bs[j].off + bs[j].size <= bs[|bs| - 1].off + bs[|bs| - 1].size;
    }
  }

  lemma {:induction false} SumBound(bs: seq<MB>, s: nat, e: nat)
    requires Ordered(bs, s, e)
    ensures SumSizes(bs) <= EndOf(bs, s) - s <= e - s
  {
    if bs != [] {
      var n := |bs| - 1;
      OrderedPrefix(bs, s, e, n);
      SumBound(bs[..n], s, e);
    }
  }

  // ---- a consistent pool passes the audit ------------------------------------------------------

  lemma PoolListGood(z: seq<u32>, P: Pool, ds: seq<ObjectDesc>, pid: nat, A: APool, seg: nat)
    requires PoolOk(z, P, ds, pid, A, seg)
    ensures GoodList(ds, P.orderHead, pid, A.order)
  {
    hide Counters, PoolLay, OrderLinked;
    var order := A.order;
    forall i | 0 <= i < |order|
      ensures order[i] < |ds| && LiveDesc(ds[order[i]], pid) && PlacedAt(ds[order[i]], A.L, order[i]) && ds[order[i]].address < OFF_LIMIT
    {
      assert order[i] in order;
      AddressBelow(z, P, A, seg, ds[order[i]].address - HEADER);
    }
    forall i, j | 0 <= i < j < |order| ensures ds[order[i]].address != ds[order[j]].address {
      assert order[i] != order[j];
      assert A.L[ds[order[i]].address - HEADER].kind == Live(order[i]);
    }
  }

  lemma AddressBelow(z: seq<u32>, P: Pool, A: APool, seg: nat, o: nat)
    requires PoolLay(z, P.bins, A.L, A.lists, PoolStart(P, seg), PoolEnd(P, seg)) && o in A.L && A.L[o].kind.Live?
    ensures o + HEADER < OFF_LIMIT
  {
    hide BinsInv, PoolStart, PoolEnd;
    BlockHeaderFacts(z, A.L, PoolStart(P, seg), PoolEnd(P, seg), o);
  }

  // The blocks of a permutation of the live list, in address order, are disjoint and audited.
  lemma PoolAudits(z: seq<u32>, P: Pool, ds: seq<ObjectDesc>, pid: nat, A: APool, seg: nat, slots: seq<nat>)
    requires PoolOk(z, P, ds, pid, A, seg) && seg % 1024 == 0
    requires Collected(ds, P.orderHead, pid, A.order, slots)
    ensures Addressed(ds, slots) && Ordered(BlocksOf(ds, slots), PoolStart(P, seg), PoolEnd(P, seg)) && PoolEnd(P, seg) <= |z|
    ensures forall i :: 0 <= i < |slots| ==> BlockAudited(z, ds, slots[i])
    ensures |slots| == P.liveObjects && SumSizes(BlocksOf(ds, slots)) == P.usedBytes
    ensures P.freeBytes == PoolEnd(P, seg) - PoolStart(P, seg) - P.usedBytes
    ensures forall i :: 0 <= i < |slots| ==> BlocksOf(ds, slots)[i].off in A.L && A.L[BlocksOf(ds, slots)[i].off] == LiveBlk(BlocksOf(ds, slots)[i])
  {
    hide PoolLay, ObjsOk, Collected, Bytes;
    SlotsPlaced(z, P, ds, pid, A, seg, slots);
    WindowAligned(P, seg);
    BlocksOrdered(z, P, ds, pid, A, seg, slots);
    BlocksHeaders(z, P, ds, pid, A, seg, slots);
    BlocksSum(z, P, ds, pid, A, seg, slots);
  }

  lemma SlotsPlaced(z: seq<u32>, P: Pool, ds: seq<ObjectDesc>, pid: nat, A: APool, seg: nat, slots: seq<nat>)
    requires PoolOk(z, P, ds, pid, A, seg) && Collected(ds, P.orderHead, pid, A.order, slots)
    ensures Addressed(ds, slots) && |slots| == |A.order| == P.liveObjects
    ensures forall i :: 0 <= i < |slots| ==> LiveDesc(ds[slots[i]], pid) && PlacedAt(ds[slots[i]], A.L, slots[i])
    ensures forall o :: o in A.L && A.L[o].kind.Live? ==> A.L[o].kind.slot in slots
    ensures AddressIncreasing(ds, slots)
  {
    hide PoolLay, Counters, OrderLinked, AddressIncreasing;
    PoolListGood(z, P, ds, pid, A, seg);
    forall i | 0 <= i < |slots|
      ensures slots[i] < |ds| && LiveDesc(ds[slots[i]], pid) && PlacedAt(ds[slots[i]], A.L, slots[i]) && ds[slots[i]].address < OFF_LIMIT
    {
      PermutedMember(slots, A.order, i);
      var j :| 0 <= j < |A.order| && A.order[j] == slots[i];
    }
    forall o | o in A.L && A.L[o].kind.Live? ensures A.L[o].kind.slot in slots {
      var sl := A.L[o].kind.slot;
      PermutedMember(A.order, slots, IndexOf(A.order, sl));
    }
    assert |multiset(slots)| == |slots| && |multiset(A.order)| == |A.order|;
  }

  lemma BlocksOrdered(z: seq<u32>, P: Pool, ds: seq<ObjectDesc>, pid: nat, A: APool, seg: nat, slots: seq<nat>)
    requires PoolOk(z, P, ds, pid, A, seg) && Addressed(ds, slots) && AddressIncreasing(ds, slots)
    requires PoolStart(P, seg) % ALIGN == 0 && PoolEnd(P, seg) % ALIGN == 0 && PoolStart(P, seg) <= PoolEnd(P, seg)
    requires forall i :: 0 <= i < |slots| ==> LiveDesc(ds[slots[i]], pid) && PlacedAt(ds[slots[i]], A.L, slots[i])
    ensures Ordered(BlocksOf(ds, slots), PoolStart(P, seg), PoolEnd(P, seg))
    ensures forall i :: 0 <= i < |slots| ==> BlocksOf(ds, slots)[i].off in A.L && A.L[BlocksOf(ds, slots)[i].off] == LiveBlk(BlocksOf(ds, slots)[i])
  {
    hide Counters, BinsInv, HeadersOk, PrevOk, Coalesced, ObjsOk, PoolStart, PoolEnd;
    var bs := BlocksOf(ds, slots);
    forall i, j | 0 <= i < j < |bs| ensures bs[i].off + bs[i].size <= bs[j].off {
      assert ds[slots[i]].address < ds[slots[j]].address;
      assert bs[i].off in A.L && bs[j].off in A.L;
    }
  }

  lemma BlocksHeaders(z: seq<u32>, P: Pool, ds: seq<ObjectDesc>, pid: nat, A: APool, seg: nat, slots: seq<nat>)
    requires PoolOk(z, P, ds, pid, A, seg) && Addressed(ds, slots)
    requires forall i :: 0 <= i < |slots| ==> LiveDesc(ds[slots[i]], pid) && PlacedAt(ds[slots[i]], A.L, slots[i])
    ensures forall i :: 0 <= i < |slots| ==> BlockAudited(z, ds, slots[i])
    ensures PoolEnd(P, seg) <= |z|
  {
    hide Counters, BinsInv, PrevOk, Coalesced, ObjsOk, Shaped;
  }

  lemma AuditedBlock(z: seq<u32>, ds: seq<ObjectDesc>, slots: seq<nat>, i: nat, s: nat, e: nat)
    requires i < |slots| && Addressed(ds, slots) && Ordered(BlocksOf(ds, slots), s, e) && e <= |z|
    requires BlockAudited(z, ds, slots[i])
    ensures var d := ds[slots[i]];
            && MIN_BLOCK <= d.blockSize && d.blockSize % ALIGN == 0 && d.size + HEADER <= d.blockSize
            && s + HEADER <= d.address && d.address % ALIGN == 0 && d.address - HEADER + d.blockSize <= e
            && Addressed(ds, slots[..i]) && EndOf(BlocksOf(ds, slots[..i]), s) <= d.address - HEADER
            && !BlkFree(z[d.address - HEADER]) && BlkSize(z[d.address - HEADER]) == d.blockSize
  {
    hide BlkFree, BlkSize;
    var bs := BlocksOf(ds, slots);
    OrderedPrefix(bs, s, e, i);
    assert BlocksOf(ds, slots[..i]) == bs[..i];
    assert bs[i] == BlockOf(ds, slots[i]);
    FreeHeaderWord(ds[slots[i]].blockSize);
    AlignedSum(bs[i].off, HEADER);
  }

  // ---- the live bytes of a layout ----------------------------------------------------------------

  ghost function LiveMap(L: Lay): Lay {
    map o | o in L && L[o].kind.Live? :: L[o]
  }

  lemma LiveMapBytes(L: Lay)
    ensures Bytes(LiveMap(L), TLive) == Bytes(L, TLive)
  {
    var R := map o | o in L && !L[o].kind.Live? :: L[o];
    BytesUnion(LiveMap(L), R, TLive);
    NoLiveBlock(R);
    assert LiveMap(L) + R == L;
  }

  lemma {:induction false} NoLiveBlock(R: Lay)
    requires forall o :: o in R ==> !R[o].kind.Live?
    ensures Bytes(R, TLive) == 0
    decreases |R|
  {
    if R != map[] {
      var o :| o in R;
      BytesRemove(R, o, TLive);
      NoLiveBlock(R - {o});
    }
  }

  ghost function BlockMap(bs: seq<MB>): Lay {
    if bs == [] then map[] else BlockMap(bs[..|bs| - 1])[bs[|bs| - 1].off := LiveBlk(bs[|bs| - 1])]
  }

  lemma {:induction false} BlockMapKeys(bs: seq<MB>, s: nat, e: nat)
    requires Ordered(bs, s, e)
    ensures forall i :: 0 <= i < |bs| ==> bs[i].off in BlockMap(bs) && BlockMap(bs)[bs[i].off] == LiveBlk(bs[i])
    ensures forall o :: o in BlockMap(bs) ==> s <= o < EndOf(bs, s) && exists i :: 0 <= i < |bs| && bs[i].off == o
  {
    if bs != [] {
      var n := |bs| - 1;
      var p := bs[..n];
      OrderedPrefix(bs, s, e, n);
      BlockMapKeys(p, s, e);
      forall o | o in BlockMap(bs) ensures s <= o < EndOf(bs, s) && exists i :: 0 <= i < |bs| && bs[i].off == o {
        if o != bs[n].off {
          assert o in BlockMap(p);
          var i :| 0 <= i < n && p[i].off == o;
          assert bs[i].off == o;
        }
      }
      forall i | 0 <= i < |bs| ensures bs[i].off in BlockMap(bs) && BlockMap(bs)[bs[i].off] == LiveBlk(bs[i]) {
        if i < n { assert p[i] == bs[i]; }
      }
    }
  }

  lemma {:induction false} BlockMapBytes(bs: seq<MB>, s: nat, e: nat)
    requires Ordered(bs, s, e)
    ensures Bytes(BlockMap(bs), TLive) == SumSizes(bs)
  {
    if bs != [] {
      var n := |bs| - 1;
      OrderedPrefix(bs, s, e, n);
      BlockMapKeys(bs[..n], s, e);
      BlockMapBytes(bs[..n], s, e);
      BytesAdd(BlockMap(bs[..n]), bs[n].off, LiveBlk(bs[n]), TLive);
    } else {
      assert Bytes(map[], TLive) == 0;
    }
  }

  lemma BlocksSum(z: seq<u32>, P: Pool, ds: seq<ObjectDesc>, pid: nat, A: APool, seg: nat, slots: seq<nat>)
    requires PoolOk(z, P, ds, pid, A, seg) && Addressed(ds, slots)
    requires Ordered(BlocksOf(ds, slots), PoolStart(P, seg), PoolEnd(P, seg))
    requires forall i :: 0 <= i < |slots| ==> LiveDesc(ds[slots[i]], pid) && PlacedAt(ds[slots[i]], A.L, slots[i])
    requires forall o :: o in A.L && A.L[o].kind.Live? ==> A.L[o].kind.slot in slots
    ensures SumSizes(BlocksOf(ds, slots)) == P.usedBytes
  {
    hide PoolLay, PoolStart, PoolEnd, ObjsOk, Ordered, Bytes, BlockMap, SumSizes, BlocksOf, LiveMap;
    var bs := BlocksOf(ds, slots);
    BlockMapBytes(bs, PoolStart(P, seg), PoolEnd(P, seg));
    LiveMapBytes(A.L);
    SameBlocks(z, P, ds, pid, A, seg, slots);
  }

  // The collected blocks are the live part of the layout.
  lemma SameBlocks(z: seq<u32>, P: Pool, ds: seq<ObjectDesc>, pid: nat, A: APool, seg: nat, slots: seq<nat>)
    requires PoolOk(z, P, ds, pid, A, seg) && Addressed(ds, slots)
    requires Ordered(BlocksOf(ds, slots), PoolStart(P, seg), PoolEnd(P, seg))
    requires forall i :: 0 <= i < |slots| ==> LiveDesc(ds[slots[i]], pid) && PlacedAt(ds[slots[i]], A.L, slots[i])
    requires forall o :: o in A.L && A.L[o].kind.Live? ==> A.L[o].kind.slot in slots
    ensures BlockMap(BlocksOf(ds, slots)) == LiveMap(A.L)
  {
    hide PoolLay, Counters, PoolStart, PoolEnd, ObjsOk, Ordered, BlockMap, LiveDesc, BlocksOf, PlacedAt;
    var bs := BlocksOf(ds, slots);
    BlockMapKeys(bs, PoolStart(P, seg), PoolEnd(P, seg));
    LiveAddresses(z, P, ds, pid, A, seg);
    var X, Y := BlockMap(bs), LiveMap(A.L);
    forall o | o in Y ensures o in X && X[o] == Y[o] {
      var i := LiveIsBlock(ds, A.L, slots, pid, o);
      assert bs[i].off == o;
    }
    forall o | o in X ensures o in Y {
      var i :| 0 <= i < |bs| && bs[i].off == o;
      BlockIsLive(ds, A.L, slots, pid, i);
    }
    assert X.Keys == Y.Keys;
  }

  lemma LiveAddresses(z: seq<u32>, P: Pool, ds: seq<ObjectDesc>, pid: nat, A: APool, seg: nat)
    requires PoolOk(z, P, ds, pid, A, seg)
    ensures forall o :: o in A.L && A.L[o].kind.Live? ==> A.L[o].kind.slot < |ds| && ds[A.L[o].kind.slot].address == o + HEADER
  {
    hide PoolLay, Counters, OrderLinked, NoDup, LiveDesc, PlacedAt;
  }

  lemma LiveIsBlock(ds: seq<ObjectDesc>, L: Lay, slots: seq<nat>, pid: nat, o: nat) returns (i: nat)
    requires Addressed(ds, slots) && o in L && L[o].kind.Live? && L[o].kind.slot in slots
    requires L[o].kind.slot < |ds| && ds[L[o].kind.slot].address == o + HEADER
    requires forall k :: 0 <= k < |slots| ==> PlacedAt(ds[slots[k]], L, slots[k])
    ensures i < |slots| && BlocksOf(ds, slots)[i].off == o && LiveBlk(BlocksOf(ds, slots)[i]) == L[o]
  {
    i :| 0 <= i < |slots| && slots[i] == L[o].kind.slot;
    assert PlacedAt(ds[slots[i]], L, slots[i]);
  }

  lemma BlockIsLive(ds: seq<ObjectDesc>, L: Lay, slots: seq<nat>, pid: nat, i: nat)
    requires Addressed(ds, slots) && i < |slots| && PlacedAt(ds[slots[i]], L, slots[i])
    ensures var b := BlocksOf(ds, slots)[i]; b.off in L && L[b.off].kind.Live?
  {
  }
}
