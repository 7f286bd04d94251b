/** Objects over whole runs of the allocator: whatever sequence of calls is made, an object that
    no call frees keeps its identity and every payload word. */
module Survival {
  import opened Base
  import opened Bins
  import opened Layout
  import opened PoolHeap
  import opened Objects
  import opened State
  import opened Refs
  import opened AllocOp
  import opened FreeOp
  import opened Blocks
  import opened Moves
  import opened Plan
  import opened Relocate
  import opened CompactOp
  import opened SplitPlan
  import opened SplitOp
  import opened MergeOp
  import opened Pools

  // One state of the allocator, as a value.
  datatype Snap = Snap(
    z: seq<u32>, ps: seq<Pool>, ds: seq<ObjectDesc>, head: u16, seg: nat, segCount: nat, zoneSize: nat,
    abs: seq<APool>, stack: seq<nat>)

  ghost function SnapOf(g: GlobalState): Snap
    reads g, g.zone, g.pools, g.objects
  {
    Snap(g.zone[..], g.pools[..], g.objects[..], g.freeSlotHead, g.segmentSize, g.segmentCount, g.zoneSize, g.abs, g.stack)
  }

  ghost predicate Consistent(a: Snap) {
    Inv(a.z, a.ps, a.ds, a.head, a.seg, a.segCount, a.zoneSize, a.abs, a.stack)
  }

  // ---- what survival means ----------------------------------------------------------------------

  // The n bytes at `from` in z are the n bytes at `to` in z', word by word.
  ghost predicate SameWords(z: seq<u32>, z': seq<u32>, from: nat, to: nat, n: nat) {
    && from + n <= |z| && to + n <= |z'|
    && (forall c :: to <= c < to + n && (c - to) % 4 == 0 ==> z'[c] == z[c - to + from])
  }

  // Only the address (with its epoch), the pool and the list links may differ.
  predicate SameObject(d: ObjectDesc, d': ObjectDesc) {
    && d'.state.LiveObj?
    && d' == d.(address := d'.address, addressEpoch := d'.addressEpoch, poolId := d'.poolId,
                addrPrev := d'.addrPrev, addrNext := d'.addrNext)
    && (PINNED in d.flags ==> d'.address == d.address)
  }

  ghost predicate Lives(a: Snap, sl: nat) {
    sl < |a.ds| && a.ds[sl].state.LiveObj?
  }

  ghost predicate Survives(a: Snap, b: Snap, sl: nat) {
    && Lives(a, sl) && |b.ds| == |a.ds| && SameObject(a.ds[sl], b.ds[sl])
    && HEADER <= a.ds[sl].blockSize
    && SameWords(a.z, b.z, a.ds[sl].address, b.ds[sl].address, a.ds[sl].blockSize - HEADER)
  }

  lemma SurvivesOn(a: Snap, b: Snap, c: Snap, sl: nat)
    requires Survives(a, b, sl) && Survives(b, c, sl)
    ensures Survives(a, c, sl)
  {
    var x, y, w := a.ds[sl].address, b.ds[sl].address, c.ds[sl].address;
    forall k | w <= k < w + (a.ds[sl].blockSize - HEADER) && (k - w) % 4 == 0
      ensures c.z[k] == a.z[k - w + x]
    {
      assert c.z[k] == b.z[k - w + y] && b.z[k - w + y] == a.z[k - w + y - y + x];
    }
  }

  // ---- where an object lives ----------------------------------------------------------------------

  lemma Home(a: Snap, sl: nat)
    requires Consistent(a) && Lives(a, sl)
    ensures var d, p := a.ds[sl], a.ds[sl].poolId;
            && p < |a.ps| == |a.abs| && !a.ps[p].state.Empty? && a.ps[p].segmentCount > 0 && sl in a.abs[p].order
            && PlacedAt(d, a.abs[p].L, sl) && 0 < d.size && d.size + HEADER <= d.blockSize
            && PoolStart(a.ps[p], a.seg) <= d.address - HEADER && d.address - HEADER + d.blockSize <= PoolEnd(a.ps[p], a.seg) <= |a.z|
  {
    hide PoolOk, SlotsOk, LinksInTable;
    LiveSlot(a.z, a.ps, a.ds, a.head, a.seg, a.segCount, a.zoneSize, a.abs, a.stack, sl);
    var p: nat := a.ds[sl].poolId;
    PoolFacts(a.z, a.ps, a.ds, a.head, a.seg, a.segCount, a.zoneSize, a.abs, a.stack, p);
    hide Inv;
    LiveInWindow(a.z, a.ps[p], a.ds, p, a.abs[p], a.seg, sl);
  }

  // Live objects never overlap, in one pool or across pools.
  lemma ObjectsApart(a: Snap, x: nat, y: nat)
    requires Consistent(a) && Lives(a, x) && Lives(a, y) && x != y
    ensures var dx, dy := a.ds[x], a.ds[y];
            dx.address - HEADER + dx.blockSize <= dy.address - HEADER || dy.address - HEADER + dy.blockSize <= dx.address - HEADER
  {
    hide PoolOk, SlotsOk, GeometryOk, LayoutInv, BinsInv;
    Home(a, x);
    Home(a, y);
    var p, q: nat := a.ds[x].poolId, a.ds[y].poolId;
    if p == q {
      PoolFacts(a.z, a.ps, a.ds, a.head, a.seg, a.segCount, a.zoneSize, a.abs, a.stack, p);
      TilesOf(a.z, a.abs[p].L, PoolStart(a.ps[p], a.seg), PoolEnd(a.ps[p], a.seg));
      hide Inv, Tiles, Shaped, Coalesced;
      BlockSpans(a.abs[p].L, PoolStart(a.ps[p], a.seg), PoolEnd(a.ps[p], a.seg));
    } else {
      OthersOutside(a.z, a.ps, a.ds, a.head, a.seg, a.segCount, a.zoneSize, a.abs, a.stack, p, q);
    }
  }

  // The step wrote only inside [s, e), and the object's pool lies outside.
  lemma OutsideSurvives(a: Snap, b: Snap, sl: nat, s: nat, e: nat)
    requires Consistent(a) && Lives(a, sl) && OutsideKept(a.z, b.z, s, e)
    requires a.ds[sl].poolId < |a.ps| && var P := a.ps[a.ds[sl].poolId]; PoolEnd(P, a.seg) <= s || e <= PoolStart(P, a.seg)
    requires |b.ds| == |a.ds| && SameObject(a.ds[sl], b.ds[sl]) && b.ds[sl].address == a.ds[sl].address
    ensures Survives(a, b, sl)
  {
    Home(a, sl);
  }

  // The same for a step inside the window of pool p.
  lemma ElsewhereSurvives(a: Snap, b: Snap, sl: nat, p: nat)
    requires Consistent(a) && Lives(a, sl) && p < |a.ps| && !a.ps[p].state.Empty? && a.ds[sl].poolId != p
    requires OutsideKept(a.z, b.z, PoolStart(a.ps[p], a.seg), PoolEnd(a.ps[p], a.seg))
    requires |b.ds| == |a.ds| && SameObject(a.ds[sl], b.ds[sl]) && b.ds[sl].address == a.ds[sl].address
    ensures Survives(a, b, sl)
  {
    hide OutsideKept, SameObject, Survives, PlacedAt;
    Home(a, sl);
    OthersOutside(a.z, a.ps, a.ds, a.head, a.seg, a.segCount, a.zoneSize, a.abs, a.stack, p, a.ds[sl].poolId);
    hide Consistent;
    OutsideSurvives(a, b, sl, PoolStart(a.ps[p], a.seg), PoolEnd(a.ps[p], a.seg));
  }

  // The step kept the payload of the object's own block in place.
  lemma InPlaceSurvives(a: Snap, b: Snap, sl: nat, K: Lay)
    requires Consistent(a) && Lives(a, sl) && LivePayloadKept(a.z, b.z, K) && |b.z| == |a.z|
    requires a.ds[sl].address >= HEADER && a.ds[sl].address - HEADER in K && K[a.ds[sl].address - HEADER] == Blk(a.ds[sl].blockSize, Live(sl))
    requires |b.ds| == |a.ds| && SameObject(a.ds[sl], b.ds[sl]) && b.ds[sl].address == a.ds[sl].address
    ensures Survives(a, b, sl)
  {
    Home(a, sl);
  }

  // ---- alloc and free ------------------------------------------------------------------------------

  lemma AllocSurvives(a: Snap, b: Snap, p: nat, slot: nat, d: ObjectDesc, sl: nat)
    requires Consistent(a) && Lives(a, sl) && p < |a.abs| && p < |a.ps| && !a.ps[p].state.Empty?
    requires AllocRecords(a.ps, b.ps, a.ds, b.ds, p, slot, d) && !Lives(a, slot)
    requires LivePayloadKept(a.z, b.z, a.abs[p].L) && OutsideKept(a.z, b.z, PoolStart(a.ps[p], a.seg), PoolEnd(a.ps[p], a.seg))
    ensures Survives(a, b, sl) && b.ds[sl].address == a.ds[sl].address
  {
    hide Survives, LivePayloadKept, Inv;
    Home(a, sl);
    if a.ds[sl].poolId != p {
      ElsewhereSurvives(a, b, sl, p);
    } else {
      InPlaceSurvives(a, b, sl, a.abs[p].L);
    }
  }

  lemma FreeSurvives(a: Snap, b: Snap, slot: nat, sl: nat)
    requires Consistent(a) && Lives(a, sl) && Lives(a, slot) && sl != slot
    requires FreedObject(a.z, b.z, a.ps, b.ps, a.ds, b.ds, a.abs, b.abs, a.seg, slot)
    ensures Survives(a, b, sl) && b.ds[sl].address == a.ds[sl].address
  {
    hide Survives, LivePayloadKept, Inv, FreeEffect, OnlyPoolChanged;
    Home(a, sl);
    Home(a, slot);
    var p: nat := a.ds[slot].poolId;
    if a.ds[sl].poolId != p {
      ElsewhereSurvives(a, b, sl, p);
    } else {
      InPlaceSurvives(a, b, sl, a.abs[p].L - {a.ds[slot].address - HEADER});
    }
  }

  // ---- moves -----------------------------------------------------------------------------------------

  // A listed block that arrived at its destination.
  lemma MovedSurvives(a: Snap, b: Snap, bs: seq<MB>, dst: seq<nat>, i: nat, sl: nat)
    requires Consistent(a) && Consistent(b) && Lives(a, sl) && PayloadMoved(a.z, b.z, bs, dst)
    requires i < |bs| && a.ds[sl].address >= HEADER && bs[i] == BlockOf(a.ds, sl)
    requires |b.ds| == |a.ds| && SameObject(a.ds[sl], b.ds[sl]) && b.ds[sl].address == dst[i] + HEADER
    ensures Survives(a, b, sl)
  {
    hide Inv;
    Home(a, sl);
    Home(b, sl);
    var d := a.ds[sl];
    var to := b.ds[sl].address;
    forall c | to <= c < to + (d.blockSize - HEADER) && (c - to) % 4 == 0
      ensures b.z[c] == a.z[c - to + d.address]
    {
      assert (c - dst[i]) % 4 == 0;
      assert b.z[c] == a.z[c - dst[i] + bs[i].off];
    }
  }

  // The block of a listed slot.
  lemma ListedBlock(ds: seq<ObjectDesc>, order: seq<nat>, bs: seq<MB>, sl: nat) returns (i: nat)
    requires ListBlocks(ds, order, bs) && sl in order
    ensures i < |bs| && bs[i].slot == sl && sl < |ds| && ds[sl].address >= HEADER && bs[i] == BlockOf(ds, sl)
  {
    i := ListedAt(ds, order, bs, sl);
  }

  lemma NotListed(ds: seq<ObjectDesc>, order: seq<nat>, bs: seq<MB>, sl: nat)
    requires ListBlocks(ds, order, bs) && sl !in order
    ensures !Blocked(bs, sl)
  {
  }

  // ---- compact -----------------------------------------------------------------------------------------

  lemma CompactSurvives(a: Snap, b: Snap, p: nat, bs: seq<MB>, cut: nat, sl: nat)
    requires Consistent(a) && Consistent(b) && Lives(a, sl) && p < |a.ps| && p < |b.ps| && p < |a.abs| && p < |b.abs| && !a.ps[p].state.Empty?
    requires Compacted(a.z, b.z, a.ps[p], b.ps[p], a.ds, b.ds, a.abs[p], b.abs[p], a.seg, bs, cut)
    ensures Survives(a, b, sl)
    ensures a.ds[sl].poolId != p ==> b.ds[sl].address == a.ds[sl].address
  {
    hide Survives, Consistent, Ordered, SumOf, Movers, CutDst, CanonFull, Placed, DistinctSlots, PayloadMoved, OutsideKept;
    Home(a, sl);
    var dst := CutDst(bs, PoolStart(a.ps[p], a.seg), cut);
    if sl in a.abs[p].order {
      var i := ListedBlock(a.ds, a.abs[p].order, bs, sl);
      CompactPinned(bs, PoolStart(a.ps[p], a.seg), cut, i);
      MovedSurvives(a, b, bs, dst, i, sl);
    } else {
      NotListed(a.ds, a.abs[p].order, bs, sl);
      ElsewhereSurvives(a, b, sl, p);
    }
    InOwnList(a, p, sl);
  }

  lemma CompactPinned(bs: seq<MB>, s: nat, cut: nat, i: nat)
    requires i < |bs|
    ensures bs[i].pinned ==> CutDst(bs, s, cut)[i] == bs[i].off
  {
  }

  // A slot in the list of pool p belongs to p.
  lemma InOwnList(a: Snap, p: nat, sl: nat)
    requires Consistent(a) && Lives(a, sl) && p < |a.ps| && p < |a.abs| && !a.ps[p].state.Empty?
    ensures sl in a.abs[p].order <==> a.ds[sl].poolId == p
  {
    hide PoolOk, SlotsOk;
    Home(a, sl);
    PoolFacts(a.z, a.ps, a.ds, a.head, a.seg, a.segCount, a.zoneSize, a.abs, a.stack, p);
    hide Inv;
    if sl in a.abs[p].order {
      LiveInWindow(a.z, a.ps[p], a.ds, p, a.abs[p], a.seg, sl);
    }
  }

  // ---- merge and split ---------------------------------------------------------------------------------

  lemma MergeSurvives(a: Snap, b: Snap, sid: nat, tid: u16, bs: seq<MB>, nLower: nat, sl: nat)
    requires Consistent(a) && Consistent(b) && Lives(a, sl)
    requires sid < |a.ps| == |a.abs| && tid < |a.ps| && tid < |b.ps| && tid < |b.abs| && MergeRefusal(a.ps, sid, tid) == Ok
    requires MergeDone(a.z, b.z, a.ps[sid], a.ps[tid], b.ps[tid], a.ds, b.ds, a.abs[sid], a.abs[tid], b.abs[tid], a.seg, bs, nLower, tid)
    ensures Survives(a, b, sl)
    ensures a.ds[sl].poolId != sid && a.ds[sl].poolId != tid ==> b.ds[sl].address == a.ds[sl].address
  {
    hide Survives, Consistent, Ordered, DistinctSlots, PayloadMoved, OutsideKept, CanonFull, MergeDescs, MergeRecord, SlotsOf, ListBlocks, Adjacent;
    var S, T := a.ps[sid], a.ps[tid];
    var s, below := PoolStart(LowerOf(S, T), a.seg), IsBelow(S, T);
    InOwnList(a, sid, sl);
    InOwnList(a, tid, sl);
    MergeTable(a, b, sid, tid, bs, nLower, sl);
    if a.ds[sl].poolId == sid || a.ds[sl].poolId == tid {
      var i := JointIndex(a.ds, a.abs[sid].order, a.abs[tid].order, bs, nLower, below, sl);
      JointBlock(a.ds, a.abs[sid].order, a.abs[tid].order, bs, nLower, below, i);
      MergedObject(a.ds, b.ds, bs, s, nLower, below, tid, i);
      MovedSurvives(a, b, bs, CutDst(bs, s, |bs|), i, sl);
    } else {
      JointOutside(a, b, sid, tid, sl);
      OutsideSurvives(a, b, sl, s, PoolEnd(UpperOf(S, T), a.seg));
    }
  }

  lemma MergeTable(a: Snap, b: Snap, sid: nat, tid: u16, bs: seq<MB>, nLower: nat, sl: nat)
    requires Consistent(a) && Lives(a, sl)
    requires sid < |a.ps| == |a.abs| && tid < |a.ps| && tid < |b.ps| && tid < |b.abs| && MergeRefusal(a.ps, sid, tid) == Ok
    requires MergeDone(a.z, b.z, a.ps[sid], a.ps[tid], b.ps[tid], a.ds, b.ds, a.abs[sid], a.abs[tid], b.abs[tid], a.seg, bs, nLower, tid)
    ensures |b.ds| == |a.ds|
    ensures a.ds[sl].poolId != sid && a.ds[sl].poolId != tid ==> b.ds[sl] == a.ds[sl]
  {
    hide Ordered, DistinctSlots, PayloadMoved, OutsideKept, CanonFull, MergeDescs, MergeRecord, SlotsOf, ListBlocks, Adjacent, PoolOk, Inv;
    var S, T := a.ps[sid], a.ps[tid];
    PairFacts(a.z, a.ps, a.ds, a.head, a.seg, a.segCount, a.zoneSize, a.abs, a.stack, sid, tid, S, T);
    MergeOwner(a.z, S, T, a.ds, b.ds, sid, tid, a.abs[sid], a.abs[tid], a.seg, bs, PoolStart(LowerOf(S, T), a.seg), nLower, IsBelow(S, T), sl);
  }

  lemma JointBlock(ds: seq<ObjectDesc>, orderS: seq<nat>, orderT: seq<nat>, bs: seq<MB>, nLower: nat, below: bool, i: nat)
    requires nLower <= |bs| && i < |bs| && ListBlocks(ds, orderS, if below then bs[..nLower] else bs[nLower..])
    requires ListBlocks(ds, orderT, if below then bs[nLower..] else bs[..nLower])
    ensures var sl := bs[i].slot; sl < |ds| && HEADER <= ds[sl].address && bs[i] == BlockOf(ds, sl)
  {
    if i < nLower {
      assert bs[..nLower][i] == bs[i];
    } else {
      assert bs[nLower..][i - nLower] == bs[i];
    }
  }

  lemma MergedObject(ds: seq<ObjectDesc>, ds': seq<ObjectDesc>, bs: seq<MB>, s: nat, nLower: nat, below: bool, tid: u16, i: nat)
    requires MergeDescs(ds, ds', bs, s, nLower, below, tid) && i < |bs| && bs[i].slot < |ds| && HEADER <= ds[bs[i].slot].address
    requires bs[i] == BlockOf(ds, bs[i].slot) && ds[bs[i].slot].state.LiveObj?
    ensures bs[i].slot < |ds'| && SameObject(ds[bs[i].slot], ds'[bs[i].slot])
    ensures ds'[bs[i].slot].address == CutDst(bs, s, |bs|)[i] + HEADER
  {
    hide MergeDescs;
    MergeBlockAt(ds, ds', bs, s, nLower, below, tid, i);
    MergeFields(ds, ds', bs, s, nLower, below, tid, bs[i].slot);
  }

  // A third pool lies outside the joint window.
  lemma JointOutside(a: Snap, b: Snap, sid: nat, tid: nat, sl: nat)
    requires Consistent(a) && Lives(a, sl)
    requires sid < |a.ps| && tid < |a.ps| && tid < |b.ps| && MergeRefusal(a.ps, sid, tid) == Ok && MergeRecord(a.ps[sid], a.ps[tid], b.ps[tid])
    requires a.ds[sl].poolId != sid && a.ds[sl].poolId != tid
    ensures a.ds[sl].poolId < |a.ps|
    ensures var S, T, X := a.ps[sid], a.ps[tid], a.ps[a.ds[sl].poolId];
            PoolEnd(X, a.seg) <= PoolStart(LowerOf(S, T), a.seg) || PoolEnd(UpperOf(S, T), a.seg) <= PoolStart(X, a.seg)
  {
    hide PoolOk, SlotsOk, GeometryOk, PlacedAt, Inv, ZoneOk;
    Home(a, sl);
    var x: nat := a.ds[sl].poolId;
    var S, T, X := a.ps[sid], a.ps[tid], a.ps[x];
    PoolFacts(a.z, a.ps, a.ds, a.head, a.seg, a.segCount, a.zoneSize, a.abs, a.stack, sid);
    PoolFacts(a.z, a.ps, a.ds, a.head, a.seg, a.segCount, a.zoneSize, a.abs, a.stack, tid);
    PoolWindow(a.z, a.ps, a.ds, a.head, a.seg, a.segCount, a.zoneSize, a.abs, a.stack, sid);
    PoolWindow(a.z, a.ps, a.ds, a.head, a.seg, a.segCount, a.zoneSize, a.abs, a.stack, tid);
    OthersOutside(a.z, a.ps, a.ds, a.head, a.seg, a.segCount, a.zoneSize, a.abs, a.stack, sid, x);
    OthersOutside(a.z, a.ps, a.ds, a.head, a.seg, a.segCount, a.zoneSize, a.abs, a.stack, tid, x);
    JointApart(S, T, b.ps[tid], X);
    WindowsApart(b.ps[tid], X, a.seg);
    ZoneFacts(a.z, a.ps, a.ds, a.head, a.seg, a.segCount, a.zoneSize, a.abs, a.stack);
    SegmentLimit(a.z, a.seg, a.segCount, a.zoneSize);
    JointWindow(S, T, a.seg, a.segCount, a.zoneSize);
  }

  lemma SegmentLimit(z: seq<u32>, seg: nat, segCount: nat, zoneSize: nat)
    requires ZoneOk(z, seg, segCount, zoneSize)
    ensures segCount < 0x1_0000
  {
  }

  lemma SplitSurvives(a: Snap, b: Snap, sid: nat, nid: u16, bs: seq<MB>, keep: nat, sl: nat)
    requires Consistent(a) && Consistent(b) && Lives(a, sl)
    requires sid < |a.ps| == |a.abs| && sid < |b.ps| == |b.abs| && nid < |b.ps| && !a.ps[sid].state.Empty?
    requires SplitDone(a.z, b.z, a.ps[sid], b.ps[sid], b.ps[nid], a.ds, b.ds, a.abs[sid], b.abs[sid], b.abs[nid], a.seg, bs, keep, nid)
    ensures Survives(a, b, sl)
    ensures a.ds[sl].poolId != sid ==> b.ds[sl].address == a.ds[sl].address
  {
    hide Survives, Consistent, Ordered, DistinctSlots, PayloadMoved, OutsideKept, CanonFull, SplitDescs, SplitRecords, SlotsOf, ListBlocks, SplitDst, LowerCount, Placed;
    var s, m := PoolStart(a.ps[sid], a.seg), Boundary(a.ps[sid], keep, a.seg);
    var u := LowerCount(bs, m);
    var dst := SplitDst(bs, s, m, u);
    InOwnList(a, sid, sl);
    SplitTable(a, b, sid, nid, bs, dst, u, sl);
    if a.ds[sl].poolId == sid {
      var i := ListedBlock(a.ds, a.abs[sid].order, bs, sl);
      if bs[i].pinned { PinnedDst(bs, s, m, u, i); }
      SplitBlockAt(a.ds, b.ds, bs, dst, u, nid, i);
      SplitFields(a.ds, b.ds, bs, dst, u, nid, sl);
      MovedSurvives(a, b, bs, dst, i, sl);
    } else {
      ElsewhereSurvives(a, b, sl, sid);
    }
  }

  lemma SplitTable(a: Snap, b: Snap, sid: nat, nid: u16, bs: seq<MB>, dst: seq<nat>, u: nat, sl: nat)
    requires Consistent(a) && Lives(a, sl) && sid < |a.ps| == |a.abs| && !a.ps[sid].state.Empty?
    requires ListBlocks(a.ds, a.abs[sid].order, bs) && SplitDescs(a.ds, b.ds, bs, dst, u, nid) && u <= |bs|
    ensures |b.ds| == |a.ds|
    ensures a.ds[sl].poolId != sid ==> b.ds[sl] == a.ds[sl]
  {
    hide PoolOk, SlotsOk, GeometryOk, SplitDescs, ListBlocks, Inv;
    PoolFacts(a.z, a.ps, a.ds, a.head, a.seg, a.segCount, a.zoneSize, a.abs, a.stack, sid);
    SplitOwner(a.z, a.ps[sid], a.ds, b.ds, sid, nid, a.abs[sid], a.seg, bs, dst, u, sl);
  }

  // ---- pool lifetime and borrows ------------------------------------------------------------------------

  // A fresh pool covers segments that no object lies in.
  lemma CreateSurvives(a: Snap, b: Snap, base: u16, n: u16, sl: nat)
    requires Consistent(a) && Lives(a, sl) && 0 < n && base + n <= a.segCount && FreeRun(a.ps, base, n) && b.ds == a.ds
    requires OutsideKept(a.z, b.z, SegOff(base, a.seg), SegOff(base + n, a.seg))
    ensures Survives(a, b, sl)
  {
    hide Inv, PlacedAt, OutsideKept, FreeRun, Survives;
    Home(a, sl);
    var x: nat := a.ds[sl].poolId;
    var P' := ZeroPool().(segmentFirst := base, segmentCount := n);
    RunApart(a.ps, base, n, a.ps[x], P', x);
    WindowsApart(P', a.ps[x], a.seg);
    OutsideSurvives(a, b, sl, SegOff(base, a.seg), SegOff(base + n, a.seg));
  }

  // Nothing moved and this object did not change.
  lemma StillSurvives(a: Snap, b: Snap, sl: nat)
    requires Consistent(a) && Lives(a, sl) && b.z == a.z && |b.ds| == |a.ds|
    requires b.ds[sl] == a.ds[sl]
    ensures Survives(a, b, sl)
  {
    hide Inv, PlacedAt;
    Home(a, sl);
  }

  // A borrowed object lies in no pool that maintenance may touch.
  lemma BorrowedElsewhere(a: Snap, p: nat, sl: nat)
    requires Consistent(a) && Lives(a, sl) && a.ds[sl].activeBorrows > 0 && p < |a.ps| && a.ps[p].borrowCount == 0
    ensures a.ds[sl].poolId != p
  {
    ActiveCounted(a.z, a.ps, a.ds, a.head, a.seg, a.segCount, a.zoneSize, a.abs, a.stack, sl);
  }
}
