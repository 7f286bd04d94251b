/** Where split and merge put every object, said in descriptors and segment numbers. */
module Placement {
  import opened Base
  import opened PoolHeap
  import opened Objects
  import opened State
  import opened Blocks
  import opened Moves
  import opened Plan
  import opened Relocate
  import opened CompactOp
  import opened CompactProps
  import opened SplitPlan
  import opened SplitOp
  import opened MergeOp
  import opened Survival

  // ---- split --------------------------------------------------------------------------------------

  // Block i of a split pool, b the one below it: it belongs to the new pool exactly if it ended
  // above the boundary. A pinned block keeps address and epoch; every other one gets the next
  // epoch and starts where its predecessor on the same side now ends, the first one of a side at
  // the side's first segment.
  lemma SplitPlaces(z: seq<u32>, z': seq<u32>, P: Pool, S: Pool, N: Pool, ds: seq<ObjectDesc>, ds': seq<ObjectDesc>,
                    A: APool, A': APool, B': APool, seg: nat, bs: seq<MB>, keep: nat, nid: u16, i: nat)
    requires SplitDone(z, z', P, S, N, ds, ds', A, A', B', seg, bs, keep, nid) && i < |bs|
    ensures bs[i].slot < |ds| == |ds'| && (i > 0 ==> bs[i - 1].slot < |ds|)
    ensures var m := (P.segmentFirst + keep) * seg;
            var d, d' := ds[bs[i].slot], ds'[bs[i].slot];
            var b, b' := if i > 0 then ds[bs[i - 1].slot] else d, if i > 0 then ds'[bs[i - 1].slot] else d';
            var upper, upperToo := d.address - 8 + d.blockSize > m, b.address - 8 + b.blockSize > m;
            && d'.poolId == (if upper then nid else d.poolId)
            && (PINNED in d.flags ==> d'.address == d.address && d'.addressEpoch == d.addressEpoch)
            && (PINNED !in d.flags ==>
                 && d'.addressEpoch == (if d.addressEpoch == 0xFFFF_FFFF then 1 else d.addressEpoch + 1)
                 && d'.address - 8 == if i > 0 && (upper <==> upperToo) then b'.address - 8 + b.blockSize
                                      else if upper then m else P.segmentFirst * seg)
  {
    hide DistinctSlots, PayloadMoved, OutsideKept, CanonFull, Placed, SlotsOf, SplitRecords, Ordered, LowerCount, SplitDst;
    var s, m, e := PoolStart(P, seg), Boundary(P, keep, seg), PoolEnd(P, seg);
    var u := LowerCount(bs, m);
    LowerPrefix(bs, s, m, e);
    BumpedEpoch(ds[bs[i].slot].addressEpoch);
    SideOf(ds, A.order, bs, s, e, m, i);
    SplitStart(bs, s, m, u, i);
    if i > 0 { SideOf(ds, A.order, bs, s, e, m, i - 1); }
  }

  lemma SideOf(ds: seq<ObjectDesc>, order: seq<nat>, bs: seq<MB>, s: nat, e: nat, m: nat, i: nat)
    requires ListBlocks(ds, order, bs) && Ordered(bs, s, e) && i < |bs|
    ensures bs[i].slot < |ds| && bs[i] == BlockOf(ds, bs[i].slot) && HEADER <= ds[bs[i].slot].address
    ensures IsUpper(bs[i], m) <==> ds[bs[i].slot].address - 8 + ds[bs[i].slot].blockSize > m
  {
  }

  lemma SplitStart(bs: seq<MB>, s: nat, m: nat, u: nat, i: nat)
    requires i < |bs| && u <= |bs|
    ensures var dst := SplitDst(bs, s, m, u);
            && |dst| == |bs|
            && dst[i] == if bs[i].pinned then bs[i].off
                         else if i == 0 || i == u then (if i < u then s else m)
                         else dst[i - 1] + bs[i - 1].size
  {
    if i < u {
      CursorStep(bs, s, i);
      if i > 0 { CursorStep(bs, s, i - 1); }
    } else {
      assert bs[u..][i - u] == bs[i];
      CursorStep(bs[u..], m, i - u);
      if i > u { CursorStep(bs[u..], m, i - u - 1); }
    }
  }

  // ---- merge --------------------------------------------------------------------------------------

  // Block i of two merged pools: it belongs to the target. A pinned block stays; every other one
  // starts where its predecessor now ends, the first one at the joint window's first segment. The
  // epoch goes on once for a new address and once for a new pool.
  lemma MergePlaces(a: Snap, b: Snap, sid: nat, tid: u16, bs: seq<MB>, nLower: nat, i: nat)
    requires Consistent(a) && sid < |a.ps| == |a.abs| && tid < |a.ps| && tid < |b.ps| && tid < |b.abs| && MergeRefusal(a.ps, sid, tid) == Ok
    requires MergeDone(a.z, b.z, a.ps[sid], a.ps[tid], b.ps[tid], a.ds, b.ds, a.abs[sid], a.abs[tid], b.abs[tid], a.seg, bs, nLower, tid)
    requires i < |bs|
    ensures bs[i].slot < |a.ds| == |b.ds| && (i > 0 ==> bs[i - 1].slot < |a.ds|)
    ensures var first := if a.ps[sid].segmentFirst < a.ps[tid].segmentFirst then a.ps[sid].segmentFirst else a.ps[tid].segmentFirst;
            var d, d' := a.ds[bs[i].slot], b.ds[bs[i].slot];
            && (d.poolId == sid || d.poolId == tid) && d'.poolId == tid
            && (PINNED in d.flags ==> d'.address == d.address)
            && (PINNED !in d.flags ==>
                 d'.address - 8 == if i > 0 then b.ds[bs[i - 1].slot].address - 8 + a.ds[bs[i - 1].slot].blockSize else first * a.seg)
            && var moved := if d'.address != d.address then BumpEpoch(d.addressEpoch) else d.addressEpoch;
               d'.addressEpoch == if d.poolId == sid then BumpEpoch(moved) else moved
  {
    hide Inv, DistinctSlots, PayloadMoved, OutsideKept, CanonFull, Placed, SlotsOf, MergeRecord, Ordered, MergeDescs, ListBlocks, DstAt, CursorAt;
    var S, T := a.ps[sid], a.ps[tid];
    var s, below := PoolStart(LowerOf(S, T), a.seg), IsBelow(S, T);
    LowerFirst(a, sid, tid);
    BlockHome(a, sid, tid, bs, nLower, i);
    MergeSize(a.ds, b.ds, bs, s, nLower, below, tid);
    MergeBlockAt(a.ds, b.ds, bs, s, nLower, below, tid, i);
    MergeEpoch(a.ds, b.ds, bs, s, nLower, below, tid, i);
    CursorStep(bs, s, i);
    FirstCursor(bs, s);
    if i > 0 {
      BlockHome(a, sid, tid, bs, nLower, i - 1);
      MergeBlockAt(a.ds, b.ds, bs, s, nLower, below, tid, i - 1);
      CursorStep(bs, s, i - 1);
    }
  }

  lemma MergeEpoch(ds: seq<ObjectDesc>, ds': seq<ObjectDesc>, bs: seq<MB>, s: nat, nLower: nat, below: bool, tid: u16, i: nat)
    requires MergeDescs(ds, ds', bs, s, nLower, below, tid) && i < |bs| && bs[i].slot < |ds| == |ds'|
    ensures var e := ds[bs[i].slot].addressEpoch;
            var moved := if DstAt(bs, s, i) != bs[i].off then BumpEpoch(e) else e;
            ds'[bs[i].slot].addressEpoch == if FromSource(i, nLower, below) then BumpEpoch(moved) else moved
  {
    hide DstAt, BumpEpoch;
  }

  lemma FirstCursor(bs: seq<MB>, s: nat)
    ensures CursorAt(bs, s, 0) == s
  {
  }

  lemma LowerFirst(a: Snap, sid: nat, tid: nat)
    requires Consistent(a) && sid < |a.ps| && tid < |a.ps| && MergeRefusal(a.ps, sid, tid) == Ok
    ensures var S, T := a.ps[sid], a.ps[tid];
            PoolStart(LowerOf(S, T), a.seg) == (if S.segmentFirst < T.segmentFirst then S.segmentFirst else T.segmentFirst) * a.seg
  {
    hide Inv;
    SegmentsPositive(a.z, a.ps, a.ds, a.head, a.seg, a.segCount, a.zoneSize, a.abs, a.stack, sid);
    SegmentsPositive(a.z, a.ps, a.ds, a.head, a.seg, a.segCount, a.zoneSize, a.abs, a.stack, tid);
  }

  // Which of the two pools block i comes from.
  lemma BlockHome(a: Snap, sid: nat, tid: nat, bs: seq<MB>, nLower: nat, i: nat)
    requires Consistent(a) && sid < |a.ps| == |a.abs| && tid < |a.ps| && MergeRefusal(a.ps, sid, tid) == Ok && nLower <= |bs| && i < |bs|
    requires var below := IsBelow(a.ps[sid], a.ps[tid]);
             && ListBlocks(a.ds, a.abs[sid].order, if below then bs[..nLower] else bs[nLower..])
             && ListBlocks(a.ds, a.abs[tid].order, if below then bs[nLower..] else bs[..nLower])
    ensures var d := if bs[i].slot < |a.ds| then a.ds[bs[i].slot] else BlankDesc();
            && bs[i].slot < |a.ds| && HEADER <= d.address && bs[i] == BlockOf(a.ds, bs[i].slot)
            && d.poolId == if FromSource(i, nLower, IsBelow(a.ps[sid], a.ps[tid])) then sid else tid
  {
    hide Inv, PoolOk, GeometryOk, ListBlocks, ObjsOk, Counters, PoolLay, Adjacent;
    var S, T := a.ps[sid], a.ps[tid];
    PairFacts(a.z, a.ps, a.ds, a.head, a.seg, a.segCount, a.zoneSize, a.abs, a.stack, sid, tid, S, T);
    PoolObjs(a.z, S, a.ds, sid, a.abs[sid], a.seg);
    PoolObjs(a.z, T, a.ds, tid, a.abs[tid], a.seg);
    var part := if i < nLower then bs[..nLower] else bs[nLower..];
    var j: nat := if i < nLower then i else i - nLower;
    assert part[j] == bs[i];
    if FromSource(i, nLower, IsBelow(S, T)) {
      ListedLive(a.ds, S.orderHead, sid, a.abs[sid].L, a.abs[sid].order, part, j);
    } else {
      ListedLive(a.ds, T.orderHead, tid, a.abs[tid].L, a.abs[tid].order, part, j);
    }
  }

  lemma PoolObjs(z: seq<u32>, P: Pool, ds: seq<ObjectDesc>, pid: nat, A: APool, seg: nat)
    requires PoolOk(z, P, ds, pid, A, seg)
    ensures ObjsOk(ds, P.orderHead, pid, A.L, A.order) && Counters(P, A.L, PoolStart(P, seg), PoolEnd(P, seg))
    ensures P.liveObjects == |A.order| && Indexed(ds, A.order) && P.borrowCount == BorrowSum(ds, A.order)
  {
    hide PoolLay;
    OrderIndexed(ds, P.orderHead, pid, A.L, A.order);
  }
}
