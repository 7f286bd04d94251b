/** What two calls in a row amount to: a split undone by a merge, and maintenance of a paused
    pool. */
module Composition {
  import opened Base
  import opened PoolHeap
  import opened Objects
  import opened State
  import opened AllocOp
  import opened Blocks
  import opened Moves
  import opened Plan
  import opened Relocate
  import opened CompactOp
  import opened SplitPlan
  import opened SplitOp
  import opened MergeOp
  import opened Survival

  // ---- split, then merge ------------------------------------------------------------------------------

  // Every object outlives the two calls, and the ones of pool p end up in pool q.
  ghost predicate Rehomed(a: Snap, b: Snap, p: nat, q: nat) {
    forall sl: nat {:trigger Lives(a, sl)} :: Lives(a, sl) ==>
      Survives(a, b, sl) && b.ds[sl].poolId == if a.ds[sl].poolId == p then q else a.ds[sl].poolId
  }

  lemma SplitRehomes(a: Snap, b: Snap, sid: nat, nid: u16, bs: seq<MB>, keep: nat, sl: nat)
    requires Consistent(a) && Consistent(b) && Lives(a, sl)
    requires sid < |a.ps| == |a.abs| && sid < |b.ps| == |b.abs| && nid < |b.ps| && !a.ps[sid].state.Empty?
    requires SplitDone(a.z, b.z, a.ps[sid], b.ps[sid], b.ps[nid], a.ds, b.ds, a.abs[sid], b.abs[sid], b.abs[nid], a.seg, bs, keep, nid)
    ensures Survives(a, b, sl)
    ensures if a.ds[sl].poolId == sid then b.ds[sl].poolId == sid || b.ds[sl].poolId == nid else b.ds[sl].poolId == a.ds[sl].poolId
  {
    hide Survives, Inv, Ordered, DistinctSlots, PayloadMoved, OutsideKept, CanonFull, SplitDescs, SplitRecords, SlotsOf, ListBlocks, SplitDst, LowerCount, Placed;
    SplitSurvives(a, b, sid, nid, bs, keep, sl);
    InOwnList(a, sid, sl);
    hide PoolOk, GeometryOk, SlotsOk;
    PoolFacts(a.z, a.ps, a.ds, a.head, a.seg, a.segCount, a.zoneSize, a.abs, a.stack, sid);
    var m := Boundary(a.ps[sid], keep, a.seg);
    SplitOwner(a.z, a.ps[sid], a.ds, b.ds, sid, nid, a.abs[sid], a.seg, bs, SplitDst(bs, PoolStart(a.ps[sid], a.seg), m, LowerCount(bs, m)), LowerCount(bs, m), sl);
  }

  lemma MergeRehomes(a: Snap, b: Snap, sid: nat, tid: u16, bs: seq<MB>, nLower: nat, sl: nat)
    requires Consistent(a) && Consistent(b) && Lives(a, sl)
    requires sid < |a.ps| == |a.abs| && tid < |a.ps| && tid < |b.ps| && tid < |b.abs| && MergeRefusal(a.ps, sid, tid) == Ok
    requires MergeDone(a.z, b.z, a.ps[sid], a.ps[tid], b.ps[tid], a.ds, b.ds, a.abs[sid], a.abs[tid], b.abs[tid], a.seg, bs, nLower, tid)
    ensures Survives(a, b, sl)
    ensures b.ds[sl].poolId == if a.ds[sl].poolId == sid then tid else a.ds[sl].poolId
  {
    hide Survives, Inv, Ordered, DistinctSlots, PayloadMoved, OutsideKept, CanonFull, MergeDescs, MergeRecord, SlotsOf, ListBlocks, Adjacent, PoolOk;
    MergeSurvives(a, b, sid, tid, bs, nLower, sl);
    var S, T := a.ps[sid], a.ps[tid];
    PairFacts(a.z, a.ps, a.ds, a.head, a.seg, a.segCount, a.zoneSize, a.abs, a.stack, sid, tid, S, T);
    InOwnList(a, sid, sl);
    InOwnList(a, tid, sl);
    MergeOwner(a.z, S, T, a.ds, b.ds, sid, tid, a.abs[sid], a.abs[tid], a.seg, bs, PoolStart(LowerOf(S, T), a.seg), nLower, IsBelow(S, T), sl);
  }

  // The two halves of a split are adjacent, and joined again they are the old window with the old
  // counts.
  lemma HalvesJoin(P: Pool, S: Pool, N: Pool, keep: nat, u: nat, J: Pool)
    requires SplitRecords(P, S, N, keep, u)
    requires MergeRecord(S, N, J) || MergeRecord(N, S, J)
    ensures J.segmentFirst == P.segmentFirst && J.segmentCount == P.segmentCount
    ensures J.liveObjects == P.liveObjects && J.usedBytes == P.usedBytes && J.freeBytes == P.freeBytes
  {
    hide ZeroPool;
  }

  lemma SplitHalves(z: seq<u32>, z': seq<u32>, P: Pool, S: Pool, N: Pool, ds: seq<ObjectDesc>, ds': seq<ObjectDesc>,
                    A: APool, A': APool, B': APool, seg: nat, bs: seq<MB>, keep: nat, nid: u16)
    requires SplitDone(z, z', P, S, N, ds, ds', A, A', B', seg, bs, keep, nid)
    ensures SplitRecords(P, S, N, keep, LowerCount(bs, Boundary(P, keep, seg)))
    ensures S.borrowCount == P.borrowCount && N.borrowCount == 0 && S.segmentFirst + S.segmentCount == N.segmentFirst
  {
    hide Ordered, ListBlocks, DistinctSlots, CanonFull, SplitDescs, PayloadMoved, OutsideKept, SplitDst, LowerCount, Placed, PoolStart, PoolEnd, Boundary;
  }

  lemma RecordOf(z: seq<u32>, z': seq<u32>, S: Pool, T: Pool, J: Pool, ds: seq<ObjectDesc>, ds': seq<ObjectDesc>,
                 A: APool, B: APool, B': APool, seg: nat, bs: seq<MB>, nLower: nat, tid: u16)
    requires MergeDone(z, z', S, T, J, ds, ds', A, B, B', seg, bs, nLower, tid)
    ensures MergeRecord(S, T, J)
  {
    hide Ordered, ListBlocks, DistinctSlots, CanonFull, MergeDescs, PayloadMoved, OutsideKept, CutDst, Placed, PoolStart, PoolEnd, MergeRecord;
  }

  // One object through both calls.
  lemma RejoinedObject(a: Snap, b: Snap, c: Snap, sid: nat, nid: u16, from: nat, to: u16, bs: seq<MB>, keep: nat, js: seq<MB>, nLower: nat, sl: nat)
    requires Consistent(a) && Consistent(b) && Consistent(c) && Lives(a, sl)
    requires sid < |a.ps| == |a.abs| == |b.ps| == |b.abs| == |c.ps| == |c.abs| && nid < |a.ps| && sid != nid
    requires !a.ps[sid].state.Empty? && a.ps[nid].state.Empty? && b.seg == a.seg && ((from == sid && to == nid) || (from == nid && to == sid))
    requires SplitDone(a.z, b.z, a.ps[sid], b.ps[sid], b.ps[nid], a.ds, b.ds, a.abs[sid], b.abs[sid], b.abs[nid], a.seg, bs, keep, nid)
    requires MergeRefusal(b.ps, from, to) == Ok
    requires MergeDone(b.z, c.z, b.ps[from], b.ps[to], c.ps[to], b.ds, c.ds, b.abs[from], b.abs[to], c.abs[to], b.seg, js, nLower, to)
    ensures Survives(a, c, sl) && c.ds[sl].poolId == if a.ds[sl].poolId == sid then to else a.ds[sl].poolId
  {
    hide Consistent, SplitDone, MergeDone, Survives, MergeRefusal;
    SplitRehomes(a, b, sid, nid, bs, keep, sl);
    StillThere(a, b, sl);
    MergeRehomes(b, c, from, to, js, nLower, sl);
    SurvivesOn(a, b, c, sl);
    NotInEmpty(a, nid, sl);
  }

  lemma StillThere(a: Snap, b: Snap, sl: nat)
    requires Survives(a, b, sl)
    ensures Lives(b, sl)
  {
  }

  lemma NotInEmpty(a: Snap, p: nat, sl: nat)
    requires Consistent(a) && Lives(a, sl) && p < |a.ps| && a.ps[p].state.Empty?
    ensures a.ds[sl].poolId != p
  {
    EmptyIsZero(a.z, a.ps, a.ds, a.head, a.seg, a.segCount, a.zoneSize, a.abs, a.stack, p);
  }

  // A successful split followed at once by a merge of its halves, in either direction: the merge
  // always succeeds, and leaves one pool over the old window with the old objects and the old
  // byte counts, the other slot zeroed.
  method SplitThenMerge(g: GlobalState, sid: nat, newSegments: u32, intoNew: bool) returns (st: Status, mst: Status, target: nat)
    requires g.Valid()
    modifies g, g.zone, g.pools, g.objects
    ensures g.Valid() && (st == Ok ==> mst == Ok)
    ensures st == Ok ==>
              && sid < g.pools.Length && target < g.pools.Length && (target == sid <==> !intoNew) && old(g.pools[..])[target].state.Empty? == intoNew
              && g.pools[target].state == Running
              && g.pools[target].segmentFirst == old(g.pools[..])[sid].segmentFirst && g.pools[target].segmentCount == old(g.pools[..])[sid].segmentCount
              && g.pools[target].liveObjects == old(g.pools[..])[sid].liveObjects
              && g.pools[target].usedBytes == old(g.pools[..])[sid].usedBytes && g.pools[target].freeBytes == old(g.pools[..])[sid].freeBytes
              && g.pools[..] == old(g.pools[..])[sid := ZeroPool()][target := g.pools[target]]
              && Rehomed(old(SnapOf(g)), SnapOf(g), sid, target)
  {
    hide Inv, SplitDone, MergeDone, SplitVerdict, PoolStart, PoolEnd, ListBlocks, Ordered, ZeroPool, Boundary, LowerCount, SplitRefusal, SplitRecords, MergeRecord,
         Survives;
    ghost var a := SnapOf(g);
    mst, target := Busy, sid;
    ValidIsSized(g);
    ValidIsZeroed(g);
    InvLengths(a.z, a.ps, a.ds, a.head, a.seg, a.segCount, a.zoneSize, a.abs, a.stack);
    var nid;
    ghost var bs, js, nLower;
    st, nid, bs := Split(g, sid, newSegments);
    if st != Ok { return; }
    ghost var b := SnapOf(g);
    ghost var keep: nat := a.ps[sid].segmentCount - newSegments;
    SplitHalves(a.z, b.z, a.ps[sid], b.ps[sid], b.ps[nid], a.ds, b.ds, a.abs[sid], b.abs[sid], b.abs[nid], a.seg, bs, keep, nid);
    var from;
    from, target := if intoNew then sid else nid, if intoNew then nid else sid;
    ValidIsSized(g);
    mst, js, nLower := Merge(g, from, target);
    ghost var c := SnapOf(g);
    InvLengths(c.z, c.ps, c.ds, c.head, c.seg, c.segCount, c.zoneSize, c.abs, c.stack);
    RecordOf(b.z, c.z, b.ps[from], b.ps[target], c.ps[target], b.ds, c.ds, b.abs[from], b.abs[target], c.abs[target], b.seg, js, nLower, target);
    HalvesJoin(a.ps[sid], b.ps[sid], b.ps[nid], keep, LowerCount(bs, Boundary(a.ps[sid], keep, a.seg)), c.ps[target]);
    assert Rehomed(a, c, sid, target) by {
      forall sl: nat | Lives(a, sl)
        ensures Survives(a, c, sl) && c.ds[sl].poolId == if a.ds[sl].poolId == sid then target else a.ds[sl].poolId
      {
        RejoinedObject(a, b, c, sid, nid, from, target, bs, keep, js, nLower, sl);
      }
    }
  }
}
