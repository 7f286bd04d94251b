/** merge: arm both pools, audit both, plan over the joint window, execute, publish. */
module MergeOp {
  import opened Base
  import opened Lists
  import opened Bins
  import opened Layout
  import opened PoolHeap
  import opened Objects
  import opened State
  import opened AllocOp
  import opened Blocks
  import opened Collect
  import opened Precheck
  import opened Audit
  import opened Moves
  import opened Plan
  import opened Finalize
  import opened Relocate
  import opened CompactOp
  import opened SplitOp

  // ---- planning -------------------------------------------------------------------------------

  // One entry per block, pinned ones included, in address order.
  ghost predicate PlanAll(plan: seq<PlanEntry>, bs: seq<MB>, s: nat) {
    && |plan| <= |bs|
    && (forall i :: 0 <= i < |plan| ==> plan[i] == PlanEntry(bs[i].slot, DstAt(bs, s, i), bs[i].size))
  }

  // The cursor loop of merge: its conflict and space branches are never taken.
  method PlanMerge(objects: array<ObjectDesc>, slots: seq<nat>, start: nat, end: nat) returns (st: Status, plan: seq<PlanEntry>)
    requires Addressed(objects[..], slots) && Ordered(BlocksOf(objects[..], slots), start, end)
    requires PayloadFits(objects[..], slots)
    ensures st == Ok && |plan| == |slots| && PlanAll(plan, BlocksOf(objects[..], slots), start)
  {
    hide BlocksOf, Ordered, PinnedOffs, DstAt, CursorAt, PayloadFits;
    ghost var ds := objects[..];
    ghost var bs := BlocksOf(ds, slots);
    plan := [];
    var barriers;
    st, barriers := CollectBarriers(objects, slots, start, end);
    var cursor: nat, bar: nat := start, 0;
    CursorStart(bs, start);
    for i := 0 to |slots|
      invariant cursor == CursorAt(bs, start, i) && bar == |PinnedOffs(bs, i)|
      invariant |plan| == i && PlanAll(plan, bs, start)
    {
      var d := objects[slots[i]];
      var bstart: nat := d.address - HEADER;
      var bsize := d.blockSize;
      BlocksIndex(ds, slots, i);
      CursorStep(bs, start, i);
      PlanIsTotal(bs, start, end, i);
      assert bs[i] == MB(slots[i], bstart, bsize, PINNED in d.flags);
      if PINNED in d.flags {
        if cursor > bstart { return PinnedConflict, plan; }
        plan := plan + [PlanEntry(slots[i], bstart, bsize)];
        cursor := bstart + bsize;
        bar := bar + 1;
        continue;
      }
      var barrier := if bar < |barriers| then barriers[bar] else end;
      if cursor + bsize > barrier {
        return if bar < |barriers| then PinnedConflict else NoSpace, plan;
      }
      plan := plan + [PlanEntry(slots[i], cursor, bsize)];
      cursor := cursor + bsize;
    }
  }

  lemma CursorStart(bs: seq<MB>, s: nat)
    ensures CursorAt(bs, s, 0) == s && PinnedOffs(bs, 0) == []
  {
  }

  // ---- execution ------------------------------------------------------------------------------

  // A descriptor after the move loop: relocated if its address changes, and relabelled with a
  // further epoch bump if it comes from the source pool.
  function MergedDesc(d: ObjectDesc, dst: nat, moves: bool, fromSource: bool, tid: u16): ObjectDesc {
    var d1 := if moves then MovedDesc(d, dst) else d;
    if fromSource then d1.(poolId := tid, addressEpoch := BumpEpoch(d1.addressEpoch)) else d1
  }

  predicate FromSource(i: nat, nLower: nat, sourceBelow: bool) {
    if sourceBelow then i < nLower else i >= nLower
  }

  // The first n blocks have been executed.
  ghost predicate MergedUpTo(ds: seq<ObjectDesc>, ds': seq<ObjectDesc>, bs: seq<MB>, s: nat, nLower: nat, sourceBelow: bool, tid: u16, n: nat) {
    && |ds'| == |ds| && n <= |bs|
    && (forall i {:trigger bs[i]} :: 0 <= i < |bs| ==> bs[i].slot < |ds|)
    && (forall i {:trigger bs[i]} :: 0 <= i < n ==>
         ds'[bs[i].slot] == MergedDesc(ds[bs[i].slot], DstAt(bs, s, i), DstAt(bs, s, i) != bs[i].off, FromSource(i, nLower, sourceBelow), tid))
    && (forall i {:trigger bs[i]} :: n <= i < |bs| ==> ds'[bs[i].slot] == ds[bs[i].slot])
    && (forall sl :: 0 <= sl < |ds| && !Blocked(bs, sl) ==> ds'[sl] == ds[sl])
  }

  lemma MergedStep(ds: seq<ObjectDesc>, d1: seq<ObjectDesc>, d2: seq<ObjectDesc>, bs: seq<MB>, s: nat, nLower: nat, sourceBelow: bool, tid: u16, n: nat)
    requires MergedUpTo(ds, d1, bs, s, nLower, sourceBelow, tid, n) && n < |bs| && DistinctSlots(bs)
    requires bs[n].slot < |d1|
    requires d2 == d1[bs[n].slot := MergedDesc(d1[bs[n].slot], DstAt(bs, s, n), DstAt(bs, s, n) != bs[n].off, FromSource(n, nLower, sourceBelow), tid)]
    ensures MergedUpTo(ds, d2, bs, s, nLower, sourceBelow, tid, n + 1)
  {
    hide DstAt, MergedDesc, FromSource;
  }

  lemma MoverAt(bs: seq<MB>, s: nat, i: nat)
    requires i < |bs|
    ensures var run, k := Movers(bs, s, |bs|), |Movers(bs, s, i)|;
            && k <= |run| && run[..k] == Movers(bs, s, i)
            && (DstAt(bs, s, i) != bs[i].off ==> k < |run| && run[k] == i && run[..k + 1] == Movers(bs, s, i + 1))
            && (DstAt(bs, s, i) == bs[i].off ==> Movers(bs, s, i + 1) == Movers(bs, s, i))
  {
    hide DstAt, CutDst;
    MoversPrefix(bs, s, i, |bs|);
    MoversPrefix(bs, s, i + 1, |bs|);
  }

  // One relocation of the joint plan.
  method MoveBlockAt(zone: array<u32>, src: nat, dst: nat, size: nat, ghost z0: seq<u32>, ghost bs: seq<MB>, ghost i: nat, ghost s: nat, ghost e: nat)
    requires Ordered(bs, s, e) && DistinctSlots(bs) && i < |bs| && e <= zone.Length
    requires RanZone(z0, zone[..], bs, CutDst(bs, s, |bs|), Movers(bs, s, i))
    requires src == bs[i].off && dst == DstAt(bs, s, i) && size == bs[i].size && dst != src
    modifies zone
    ensures RanZone(z0, zone[..], bs, CutDst(bs, s, |bs|), Movers(bs, s, i + 1))
  {
    hide RanZone, Ordered, Movers, DistinctSlots, PlanOk, DstAt;
    ghost var z, n := zone[..], |bs|;
    LeftwardSafe(bs, s, e, n);
    MoverAt(bs, s, i);
    RunBounds(bs, CutDst(bs, s, n), Movers(bs, s, n), |Movers(bs, s, i)|, s, e);
    MoveBlock(zone, dst, src, size);
    RunStep(z0, z, zone[..], bs, CutDst(bs, s, n), Movers(bs, s, n), |Movers(bs, s, i)|, s, e);
  }

  // The move loop of merge: it cannot fail.
  method ExecuteMerge(zone: array<u32>, objects: array<ObjectDesc>, plan: seq<PlanEntry>, nLower: nat, sourceBelow: bool, tid: u16,
                      ghost bs: seq<MB>, ghost s: nat, ghost e: nat)
    requires Ordered(bs, s, e) && DistinctSlots(bs) && e <= zone.Length && SourcesAt(objects[..], bs)
    requires |plan| == |bs| && PlanAll(plan, bs, s)
    modifies zone, objects
    ensures RanZone(old(zone[..]), zone[..], bs, CutDst(bs, s, |bs|), Movers(bs, s, |bs|))
    ensures MergedUpTo(old(objects[..]), objects[..], bs, s, nLower, sourceBelow, tid, |bs|)
  {
    hide RanZone, Ordered, Movers, DistinctSlots, DstAt, MergedUpTo, FromSource, BumpEpoch, CutDst;
    ghost var z0, ds0 := zone[..], objects[..];
    MergeStart(z0, ds0, bs, s, nLower, sourceBelow, tid);
    for i := 0 to |plan|
      invariant RanZone(z0, zone[..], bs, CutDst(bs, s, |bs|), Movers(bs, s, i))
      invariant MergedUpTo(ds0, objects[..], bs, s, nLower, sourceBelow, tid, i)
    {
      var p := plan[i];
      ghost var d1 := objects[..];
      Untouched(ds0, d1, bs, s, nLower, sourceBelow, tid, i);
      MoverAt(bs, s, i);
      var d := objects[p.slot];
      var src: nat := d.address - HEADER;
      if p.dst != src {
        MoveBlockAt(zone, src, p.dst, p.size, z0, bs, i, s, e);
        objects[p.slot] := MovedDesc(d, p.dst);
      }
      var fromSource := FromSource(i, nLower, sourceBelow);
      if fromSource {
        objects[p.slot] := objects[p.slot].(poolId := tid, addressEpoch := BumpEpoch(objects[p.slot].addressEpoch));
      }
      MergedStep(ds0, d1, objects[..], bs, s, nLower, sourceBelow, tid, i);
    }
  }

  lemma MergeStart(z0: seq<u32>, ds0: seq<ObjectDesc>, bs: seq<MB>, s: nat, nLower: nat, sourceBelow: bool, tid: u16)
    requires SourcesAt(ds0, bs)
    ensures RanZone(z0, z0, bs, CutDst(bs, s, |bs|), Movers(bs, s, 0))
    ensures MergedUpTo(ds0, ds0, bs, s, nLower, sourceBelow, tid, 0)
  {
  }

  lemma Untouched(ds0: seq<ObjectDesc>, ds: seq<ObjectDesc>, bs: seq<MB>, s: nat, nLower: nat, sourceBelow: bool, tid: u16, i: nat)
    requires MergedUpTo(ds0, ds, bs, s, nLower, sourceBelow, tid, i) && i < |bs| && SourcesAt(ds0, bs)
    ensures bs[i].slot < |ds| == |ds0| && ds[bs[i].slot] == ds0[bs[i].slot] && ds[bs[i].slot].address == bs[i].off + HEADER
  {
    hide DstAt, MergedDesc;
  }

  // ---- the joint live list ----------------------------------------------------------------------

  // Links of the first n slots are set.
  ghost predicate Threaded(ds: seq<ObjectDesc>, ds': seq<ObjectDesc>, slots: seq<nat>, n: nat) {
    && |ds'| == |ds| && n <= |slots| && (forall i :: 0 <= i < |slots| ==> slots[i] < |ds|)
    && (forall i :: At(slots, i) < U32_MOD)
    && (forall i {:trigger slots[i]} :: 0 <= i < n ==>
         ds'[slots[i]] == ds[slots[i]].(addrPrev := At(slots, i - 1), addrNext := At(slots, i + 1)))
    && (forall i {:trigger slots[i]} :: n <= i < |slots| ==> ds'[slots[i]] == ds[slots[i]])
    && (forall sl :: 0 <= sl < |ds| && sl !in slots ==> ds'[sl] == ds[sl])
  }

  // The rebuild straight from the plan array.
  method ThreadList(objects: array<ObjectDesc>, plan: seq<PlanEntry>, ghost slots: seq<nat>)
    requires objects.Length < 0xFFFF && NoDup(slots) && |plan| == |slots|
    requires forall i :: 0 <= i < |slots| ==> plan[i].slot == slots[i] < objects.Length
    modifies objects
    ensures Threaded(old(objects[..]), objects[..], slots, |slots|)
  {
    hide Threaded, NoDup;
    ghost var ds := objects[..];
    ThreadStart(ds, slots);
    for i := 0 to |plan|
      invariant Threaded(ds, objects[..], slots, i)
    {
      ghost var d1 := objects[..];
      var idx := plan[i].slot;
      var prev: u32 := if i == 0 then NO_ORDER else plan[i - 1].slot;
      var next: u32 := if i + 1 < |plan| then plan[i + 1].slot else NO_ORDER;
      objects[idx] := objects[idx].(addrPrev := prev, addrNext := next);
      ThreadStep(ds, d1, objects[..], slots, i, prev, next);
    }
  }

  lemma ThreadStart(ds: seq<ObjectDesc>, slots: seq<nat>)
    requires |ds| < 0xFFFF && forall i :: 0 <= i < |slots| ==> slots[i] < |ds|
    ensures Threaded(ds, ds, slots, 0)
  {
  }

  lemma ThreadStep(ds: seq<ObjectDesc>, d1: seq<ObjectDesc>, d2: seq<ObjectDesc>, slots: seq<nat>, i: nat, prev: u32, next: u32)
    requires Threaded(ds, d1, slots, i) && i < |slots| && NoDup(slots) && |ds| < 0xFFFF
    requires prev == At(slots, i - 1) && next == At(slots, i + 1)
    requires slots[i] < |d1| && d2 == d1[slots[i] := d1[slots[i]].(addrPrev := prev, addrNext := next)]
    ensures Threaded(ds, d2, slots, i + 1)
  {
    hide NoDup, At;
    FreshSlot(slots, i);
    assert slots[i] in slots;
    forall k | 0 <= k < i + 1
      ensures d2[slots[k]] == ds[slots[k]].(addrPrev := At(slots, k - 1), addrNext := At(slots, k + 1))
    {
      assert d1[slots[i]] == ds[slots[i]];
    }
    forall k | i + 1 <= k < |slots| ensures d2[slots[k]] == ds[slots[k]] {
      assert d1[slots[k]] == ds[slots[k]];
    }
    assert |d2| == |ds|;
    assert forall k :: 0 <= k < |slots| ==> slots[k] < |ds|;
    assert forall sl :: 0 <= sl < |ds| && sl !in slots ==> d2[sl] == ds[sl];
  }

  // ---- the audit of both pools --------------------------------------------------------------------

  // Both descriptor audits passed: the first nLower slots are the lower pool's, the rest the
  // upper pool's, each in address order.
  ghost predicate JointAudited(z: seq<u32>, ds: seq<ObjectDesc>, L: Pool, U: Pool, lid: nat, uid: nat,
                               orderL: seq<nat>, orderU: seq<nat>, slots: seq<nat>, nLower: nat, seg: nat) {
    && nLower <= |slots|
    && Audited(z, L, ds, lid, orderL, slots[..nLower], PoolStart(L, seg), PoolEnd(L, seg))
    && Audited(z, U, ds, uid, orderU, slots[nLower..], PoolStart(U, seg), PoolEnd(U, seg))
  }

  // What the joint audit hands to planning.
  lemma JointYields(z: seq<u32>, ds: seq<ObjectDesc>, L: Pool, U: Pool, lid: nat, uid: nat,
                    orderL: seq<nat>, orderU: seq<nat>, slots: seq<nat>, nLower: nat, seg: nat)
    requires JointAudited(z, ds, L, U, lid, uid, orderL, orderU, slots, nLower, seg)
    requires lid != uid && PoolEnd(L, seg) == PoolStart(U, seg)
    ensures Addressed(ds, slots) && PayloadFits(ds, slots) && NoDup(slots) && PoolEnd(U, seg) <= |z|
    ensures var bs := BlocksOf(ds, slots);
            && Ordered(bs, PoolStart(L, seg), PoolEnd(U, seg)) && DistinctSlots(bs) && SourcesAt(ds, bs) && SlotsOf(bs) == slots
            && Ordered(bs[..nLower], PoolStart(L, seg), PoolEnd(L, seg)) && ListBlocks(ds, orderL, bs[..nLower])
            && Ordered(bs[nLower..], PoolStart(U, seg), PoolEnd(U, seg)) && ListBlocks(ds, orderU, bs[nLower..])
            && SumSizes(bs) == L.usedBytes + U.usedBytes
    ensures |slots| == L.liveObjects + U.liveObjects && nLower == L.liveObjects <= |slots|
  {
    hide Audited, Ordered, DistinctSlots, ListBlocks, SumSizes, NoDup, BlocksOf, PoolStart, PoolEnd, PayloadFits, SourcesAt;
    var lo, up := slots[..nLower], slots[nLower..];
    AuditYields(z, L, ds, lid, orderL, lo, seg);
    AuditYields(z, U, ds, uid, orderU, up, seg);
    AuditCount(z, L, ds, lid, orderL, lo, PoolStart(L, seg), PoolEnd(L, seg));
    AuditCount(z, U, ds, uid, orderU, up, PoolStart(U, seg), PoolEnd(U, seg));
    var a, b := BlocksOf(ds, lo), BlocksOf(ds, up);
    JoinedSlots(ds, slots, nLower);
    OrderedConcat(a, b, PoolStart(L, seg), PoolEnd(L, seg), PoolEnd(U, seg));
    SumConcat(a, b);
    SlotPools(z, L, ds, lid, orderL, lo, PoolStart(L, seg), PoolEnd(L, seg));
    SlotPools(z, U, ds, uid, orderU, up, PoolStart(U, seg), PoolEnd(U, seg));
    JoinedDistinct(ds, slots, nLower, lid, uid);
  }

  lemma SlotPools(z: seq<u32>, P: Pool, ds: seq<ObjectDesc>, pid: nat, order: seq<nat>, slots: seq<nat>, s: nat, e: nat)
    requires Audited(z, P, ds, pid, order, slots, s, e)
    ensures NoDup(slots) && forall i :: 0 <= i < |slots| ==> slots[i] < |ds| && ds[slots[i]].poolId == pid
  {
    hide Ordered, BlocksOf, SumSizes, OrderLinked, AddressIncreasing;
  }

  lemma JoinedSlots(ds: seq<ObjectDesc>, slots: seq<nat>, n: nat)
    requires n <= |slots| && Addressed(ds, slots[..n]) && Addressed(ds, slots[n..])
    requires PayloadFits(ds, slots[..n]) && PayloadFits(ds, slots[n..])
    requires SourcesAt(ds, BlocksOf(ds, slots[..n])) && SourcesAt(ds, BlocksOf(ds, slots[n..]))
    ensures Addressed(ds, slots) && PayloadFits(ds, slots)
    ensures var bs := BlocksOf(ds, slots);
            && bs[..n] == BlocksOf(ds, slots[..n]) && bs[n..] == BlocksOf(ds, slots[n..]) && bs == bs[..n] + bs[n..]
            && SourcesAt(ds, bs) && SlotsOf(bs) == slots
  {
    forall i | 0 <= i < |slots|
      ensures slots[i] < |ds| && HEADER <= ds[slots[i]].address && ds[slots[i]].size + HEADER <= ds[slots[i]].blockSize
    {
      if i < n { assert slots[..n][i] == slots[i]; } else { assert slots[n..][i - n] == slots[i]; }
    }
  }

  lemma JoinedDistinct(ds: seq<ObjectDesc>, slots: seq<nat>, n: nat, lid: nat, uid: nat)
    requires n <= |slots| && lid != uid && Addressed(ds, slots)
    requires NoDup(slots[..n]) && NoDup(slots[n..])
    requires forall i :: 0 <= i < n ==> slots[..n][i] < |ds| && ds[slots[..n][i]].poolId == lid
    requires forall i :: 0 <= i < |slots| - n ==> slots[n..][i] < |ds| && ds[slots[n..][i]].poolId == uid
    ensures NoDup(slots) && DistinctSlots(BlocksOf(ds, slots))
  {
    forall i, j | 0 <= i < j < |slots| ensures slots[i] != slots[j] {
      if j < n {
        assert slots[..n][i] == slots[i] && slots[..n][j] == slots[j];
      } else if i >= n {
        assert slots[n..][i - n] == slots[i] && slots[n..][j - n] == slots[j];
      } else {
        assert slots[..n][i] == slots[i] && slots[n..][j - n] == slots[j];
      }
    }
  }

  // The live lists of two pools fit in the descriptor table together.
  lemma OrdersFit(z: seq<u32>, L: Pool, U: Pool, ds: seq<ObjectDesc>, lid: nat, uid: nat, A: APool, B: APool, seg: nat)
    requires PoolOk(z, L, ds, lid, A, seg) && PoolOk(z, U, ds, uid, B, seg) && lid != uid
    ensures |A.order| + |B.order| <= |ds|
  {
    hide PoolLay, Counters, ObjsOk;
    OrderIndexed(ds, L.orderHead, lid, A.L, A.order);
    OrderIndexed(ds, U.orderHead, uid, B.L, B.order);
    var t := A.order + B.order;
    forall i, j | 0 <= i < j < |t| ensures t[i] != t[j] {
      if i < |A.order| <= j {
        OrderPool(ds, L.orderHead, lid, A.L, A.order, A.order[i]);
        OrderPool(ds, U.orderHead, uid, B.L, B.order, B.order[j - |A.order|]);
      }
    }
    DistinctBelow(t, |ds|);
  }

  // A well-formed argument for the bins audit when nothing is known about the pool.
  ghost function ListsOr(A: APool): (r: seq<seq<nat>>)
    ensures |r| == NBINS
  {
    if |A.lists| == NBINS then A.lists else NoLists()
  }

  lemma PoolListsSized(z: seq<u32>, P: Pool, ds: seq<ObjectDesc>, pid: nat, A: APool, seg: nat, segCount: nat, zoneSize: nat)
    requires ZoneOk(z, seg, segCount, zoneSize) && GeometryOk(P, seg, segCount, zoneSize) && PoolOk(z, P, ds, pid, A, seg)
    ensures PoolStart(P, seg) <= PoolEnd(P, seg) && PoolEnd(P, seg) + MIN_BLOCK <= |z|
    ensures ListsOr(A) == A.lists && BinShape(P.bins, A.lists) && BinsAudited(z, P.bins, A.lists, PoolStart(P, seg), PoolEnd(P, seg))
  {
    hide Counters, ObjsOk, LayoutInv, BinsInv, PoolStart, PoolEnd, BinsAudited;
    WindowBounds(z, P, seg, segCount, zoneSize);
    LayBins(z, P.bins, A.L, A.lists, PoolStart(P, seg), PoolEnd(P, seg));
    PoolBinsAudited(z, P.bins, A.L, A.lists, PoolStart(P, seg), PoolEnd(P, seg));
  }

  // The read-only audit phase: descriptors of the lower pool, then of the upper, then the bins
  // of source and target. It passes on consistent pools and changes nothing on any metadata.
  method AuditPair(zone: array<u32>, objects: array<ObjectDesc>, S: Pool, T: Pool, sid: nat, tid: nat, sourceBelow: bool,
                   seg: nat, segCount: nat, zoneSize: nat, ghost As: APool, ghost At: APool)
      returns (st: Status, slots: seq<nat>, nLower: nat, ghost orderL: seq<nat>, ghost orderU: seq<nat>)
    requires objects.Length < 0xFFFF && ZoneOk(zone[..], seg, segCount, zoneSize) && BinsSized(S.bins) && BinsSized(T.bins) && sid != tid
    ensures st == Ok || st == CorruptMetadata
    ensures var (L, U, lid, uid) := if sourceBelow then (S, T, sid, tid) else (T, S, tid, sid);
            st == Ok ==>
              && JointAudited(zone[..], objects[..], L, U, lid, uid, orderL, orderU, slots, nLower, seg)
              && GeometryOk(L, seg, segCount, zoneSize) && GeometryOk(U, seg, segCount, zoneSize)
    ensures && GeometryOk(S, seg, segCount, zoneSize) && PoolOk(zone[..], S, objects[..], sid, As, seg)
            && GeometryOk(T, seg, segCount, zoneSize) && PoolOk(zone[..], T, objects[..], tid, At, seg) ==>
              && st == Ok && (orderL, orderU) == if sourceBelow then (As.order, At.order) else (At.order, As.order)
  {
    hide GeometryOk, PoolOk, Audited, PoolStart, PoolEnd, BinsAudited, SumSz, Flat, ListsOr;
    ghost var z, ds := zone[..], objects[..];
    ghost var good := GeometryOk(S, seg, segCount, zoneSize) && PoolOk(z, S, ds, sid, As, seg)
                      && GeometryOk(T, seg, segCount, zoneSize) && PoolOk(z, T, ds, tid, At, seg);
    if good {
      OrdersFit(z, S, T, ds, sid, tid, As, At, seg);
      PoolListsSized(z, S, ds, sid, As, seg, segCount, zoneSize);
      PoolListsSized(z, T, ds, tid, At, seg, segCount, zoneSize);
    }
    slots, nLower, orderL, orderU := [], 0, [], [];
    var L, U, lid, uid := if sourceBelow then S else T, if sourceBelow then T else S, if sourceBelow then sid else tid, if sourceBelow then tid else sid;
    ghost var Al, Au := if sourceBelow then As else At, if sourceBelow then At else As;
    var lowSlots, upSlots;
    st, lowSlots, orderL := PrecheckPool(zone, objects, L, lid, seg, segCount, zoneSize, objects.Length, Al);
    if st != Ok { return; }
    OrderCount(z, L, ds, lid, orderL, lowSlots, seg);
    st, upSlots, orderU := PrecheckPool(zone, objects, U, uid, seg, segCount, zoneSize, objects.Length - |lowSlots|, Au);
    if st != Ok { return; }
    var total;
    ghost var lists;
    AuditBounds(z, S, seg, segCount, zoneSize);
    AuditBounds(z, T, seg, segCount, zoneSize);
    st, total, lists := AuditPoolBins(zone, S.bins, PoolStart(S, seg), PoolEnd(S, seg), ListsOr(As));
    if st == Ok {
      st, total, lists := AuditPoolBins(zone, T.bins, PoolStart(T, seg), PoolEnd(T, seg), ListsOr(At));
    }
    if st != Ok { return; }
    slots, nLower := lowSlots + upSlots, |lowSlots|;
    assert slots[..nLower] == lowSlots && slots[nLower..] == upSlots;
  }

  lemma OrderCount(z: seq<u32>, P: Pool, ds: seq<ObjectDesc>, pid: nat, order: seq<nat>, slots: seq<nat>, seg: nat)
    requires Audited(z, P, ds, pid, order, slots, PoolStart(P, seg), PoolEnd(P, seg))
    ensures |slots| == |order|
  {
    hide Ordered, BlocksOf, SumSizes, OrderLinked, AddressIncreasing, PoolStart, PoolEnd;
    assert |multiset(slots)| == |multiset(order)|;
  }

  lemma AuditBounds(z: seq<u32>, P: Pool, seg: nat, segCount: nat, zoneSize: nat)
    requires ZoneOk(z, seg, segCount, zoneSize) && GeometryOk(P, seg, segCount, zoneSize)
    ensures PoolStart(P, seg) <= PoolEnd(P, seg) < ZONE_LIMIT && PoolEnd(P, seg) + MIN_BLOCK <= |z|
  {
    WindowBounds(z, P, seg, segCount, zoneSize);
  }

  // ---- the effect -----------------------------------------------------------------------------

  // Moved blocks have new addresses, the source's blocks belong to the target, and one list
  // threads all blocks in address order.
  ghost predicate MergeDescs(ds: seq<ObjectDesc>, ds': seq<ObjectDesc>, bs: seq<MB>, s: nat, nLower: nat, sourceBelow: bool, tid: u16) {
    && |ds'| == |ds| && (forall i :: At(SlotsOf(bs), i) < U32_MOD)
    && (forall i {:trigger bs[i]} :: 0 <= i < |bs| ==>
         && bs[i].slot < |ds|
         && ds'[bs[i].slot] == MergedDesc(ds[bs[i].slot], DstAt(bs, s, i), DstAt(bs, s, i) != bs[i].off, FromSource(i, nLower, sourceBelow), tid)
                                .(addrPrev := At(SlotsOf(bs), i - 1), addrNext := At(SlotsOf(bs), i + 1)))
    && (forall sl :: 0 <= sl < |ds| && !Blocked(bs, sl) ==> ds'[sl] == ds[sl])
  }

  lemma MergeDescsHold(ds0: seq<ObjectDesc>, ds1: seq<ObjectDesc>, ds2: seq<ObjectDesc>, slots: seq<nat>, bs: seq<MB>,
                       s: nat, nLower: nat, sourceBelow: bool, tid: u16)
    requires MergedUpTo(ds0, ds1, bs, s, nLower, sourceBelow, tid, |bs|) && Threaded(ds1, ds2, slots, |slots|)
    requires SlotsOf(bs) == slots
    ensures MergeDescs(ds0, ds2, bs, s, nLower, sourceBelow, tid)
  {
    hide MergedDesc, DstAt, FromSource, At;
    forall i | 0 <= i < |bs|
      ensures ds2[bs[i].slot] == MergedDesc(ds0[bs[i].slot], DstAt(bs, s, i), DstAt(bs, s, i) != bs[i].off, FromSource(i, nLower, sourceBelow), tid)
                                 .(addrPrev := At(slots, i - 1), addrNext := At(slots, i + 1))
    {
      assert slots[i] == bs[i].slot;
    }
    forall sl | 0 <= sl < |ds0| && !Blocked(bs, sl) ensures ds2[sl] == ds0[sl] {
      assert sl !in slots by {
        forall i | 0 <= i < |slots| ensures slots[i] != sl { assert bs[i].slot == slots[i]; }
      }
    }
  }

  // What a merge changes in a descriptor: address, address epoch, pool and list links.
  lemma MergeFields(ds: seq<ObjectDesc>, ds': seq<ObjectDesc>, bs: seq<MB>, s: nat, nLower: nat, sourceBelow: bool, tid: u16, sl: nat)
    requires MergeDescs(ds, ds', bs, s, nLower, sourceBelow, tid) && sl < |ds|
    ensures |ds'| == |ds|
    ensures ds'[sl] == ds[sl].(address := ds'[sl].address, addressEpoch := ds'[sl].addressEpoch, poolId := ds'[sl].poolId,
                               addrPrev := ds'[sl].addrPrev, addrNext := ds'[sl].addrNext)
  {
    hide At, DstAt;
    if Blocked(bs, sl) {
      var i :| 0 <= i < |bs| && bs[i].slot == sl;
    }
  }

  lemma MergeBlockAt(ds: seq<ObjectDesc>, ds': seq<ObjectDesc>, bs: seq<MB>, s: nat, nLower: nat, sourceBelow: bool, tid: u16, i: nat)
    requires MergeDescs(ds, ds', bs, s, nLower, sourceBelow, tid) && i < |bs| && bs[i].slot < |ds| && HEADER <= ds[bs[i].slot].address
    requires bs[i] == BlockOf(ds, bs[i].slot)
    ensures |ds'| == |ds| && ds'[bs[i].slot].address == DstAt(bs, s, i) + HEADER
    ensures BlockOf(ds', bs[i].slot) == bs[i].(off := DstAt(bs, s, i))
    ensures ds'[bs[i].slot].poolId == if FromSource(i, nLower, sourceBelow) then tid else ds[bs[i].slot].poolId
    ensures ds'[bs[i].slot].addrPrev == At(SlotsOf(bs), i - 1) && ds'[bs[i].slot].addrNext == At(SlotsOf(bs), i + 1)
  {
    hide DstAt, At;
  }

  // The joint list, read off the descriptors.
  lemma MergeLinked(ds: seq<ObjectDesc>, ds': seq<ObjectDesc>, bs: seq<MB>, s: nat, nLower: nat, sourceBelow: bool, tid: u16)
    requires MergeDescs(ds, ds', bs, s, nLower, sourceBelow, tid)
    ensures |ds'| == |ds| && At(SlotsOf(bs), 0) < U32_MOD && OrderLinked(ds', SlotsOf(bs), At(SlotsOf(bs), 0))
  {
    hide MergedDesc, DstAt, FromSource;
    var slots := SlotsOf(bs);
    forall i | 0 <= i < |slots|
      ensures slots[i] < |ds'| && ds'[slots[i]].addrNext == At(slots, i + 1) && ds'[slots[i]].addrPrev == At(slots, i - 1)
    {
      assert bs[i].slot == slots[i];
    }
  }

  // The objects of the joint pool after the rebuild.
  lemma MergeObjs(ds: seq<ObjectDesc>, ds': seq<ObjectDesc>, hS: u32, hT: u32, sid: nat, tid: u16, A: APool, B: APool,
                  bs: seq<MB>, s: nat, e: nat, nLower: nat, sourceBelow: bool)
    requires ObjsOk(ds, hS, sid, A.L, A.order) && ObjsOk(ds, hT, tid, B.L, B.order)
    requires nLower <= |bs| && Ordered(bs, s, e) && NoDup(SlotsOf(bs))
    requires ListBlocks(ds, A.order, if sourceBelow then bs[..nLower] else bs[nLower..])
    requires ListBlocks(ds, B.order, if sourceBelow then bs[nLower..] else bs[..nLower])
    requires MergeDescs(ds, ds', bs, s, nLower, sourceBelow, tid)
    ensures At(SlotsOf(bs), 0) < U32_MOD
    ensures ObjsOk(ds', At(SlotsOf(bs), 0), tid, CanonFull(Placed(bs, CutDst(bs, s, |bs|)), s, e), SlotsOf(bs))
  {
    hide ObjsOk, NoDup, ListBlocks, Ordered, MergeDescs, OrderLinked, CanonFull, LiveDesc, DstAt;
    var D := Placed(bs, CutDst(bs, s, |bs|));
    var slots := SlotsOf(bs);
    MergeLinked(ds, ds', bs, s, nLower, sourceBelow, tid);
    TableSize(ds, hS, sid, A.L, A.order);
    CutOrdered(bs, s, e, |bs|);
    forall i | 0 <= i < |bs|
      ensures slots[i] < |ds'| && HEADER <= ds'[slots[i]].address && D[i] == BlockOf(ds', slots[i]) && LiveDesc(ds'[slots[i]], tid)
    {
      var mine := FromSource(i, nLower, sourceBelow);
      var part := if i < nLower then bs[..nLower] else bs[nLower..];
      var j: nat := if i < nLower then i else i - nLower;
      assert part[j] == bs[i];
      if mine {
        ListedLive(ds, hS, sid, A.L, A.order, part, j);
      } else {
        ListedLive(ds, hT, tid, B.L, B.order, part, j);
      }
      MergeBlockAt(ds, ds', bs, s, nLower, sourceBelow, tid, i);
      MergeFields(ds, ds', bs, s, nLower, sourceBelow, tid, bs[i].slot);
      Relive(ds[bs[i].slot], ds'[bs[i].slot], if mine then sid else tid, tid);
    }
    HalfObjs(ds', slots, D, At(slots, 0), tid, s, e);
  }

  lemma TableSize(ds: seq<ObjectDesc>, head: u32, pid: nat, L: Lay, order: seq<nat>)
    requires ObjsOk(ds, head, pid, L, order)
    ensures |ds| < 0xFFFF
  {
    hide OrderLinked;
  }

  lemma ListedLive(ds: seq<ObjectDesc>, head: u32, pid: nat, L: Lay, order: seq<nat>, bs: seq<MB>, i: nat)
    requires ObjsOk(ds, head, pid, L, order) && ListBlocks(ds, order, bs) && i < |bs|
    ensures bs[i].slot < |ds| && HEADER <= ds[bs[i].slot].address && bs[i] == BlockOf(ds, bs[i].slot) && LiveDesc(ds[bs[i].slot], pid)
    ensures bs[i].slot in order && ds[bs[i].slot].poolId == pid
  {
    hide OrderLinked;
    assert bs[i].slot in order;
  }

  lemma Relive(d: ObjectDesc, d': ObjectDesc, pid: nat, tid: nat)
    requires LiveDesc(d, pid) && d'.poolId == tid
    requires d' == d.(address := d'.address, addressEpoch := d'.addressEpoch, poolId := d'.poolId, addrPrev := d'.addrPrev, addrNext := d'.addrNext)
    ensures LiveDesc(d', tid)
  {
  }

  predicate Adjacent(S: Pool, T: Pool) {
    S.segmentFirst == T.segmentFirst + T.segmentCount || T.segmentFirst == S.segmentFirst + S.segmentCount
  }

  predicate IsBelow(S: Pool, T: Pool) {
    T.segmentFirst == S.segmentFirst + S.segmentCount
  }

  function LowerOf(S: Pool, T: Pool): Pool {
    if IsBelow(S, T) then S else T
  }

  function UpperOf(S: Pool, T: Pool): Pool {
    if IsBelow(S, T) then T else S
  }

  // The target's record after a merge, before it is published: windows joined, byte and object
  // counts added up.
  ghost predicate MergeRecord(S: Pool, T: Pool, T': Pool) {
    && S.segmentCount + T.segmentCount < 0x1_0000
    && T' == T.(state := T'.state, structureEpoch := T'.structureEpoch, segmentFirst := LowerOf(S, T).segmentFirst,
                segmentCount := S.segmentCount + T.segmentCount, orderHead := T'.orderHead, bins := T'.bins,
                liveObjects := S.liveObjects + T.liveObjects, usedBytes := S.usedBytes + T.usedBytes, freeBytes := S.freeBytes + T.freeBytes,
                fragmentBytes := T'.fragmentBytes)
  }

  // What a merge does: bs are the blocks of both pools in address order.
  ghost predicate MergeDone(z: seq<u32>, z': seq<u32>, S: Pool, T: Pool, T': Pool, ds: seq<ObjectDesc>, ds': seq<ObjectDesc>,
                            A: APool, B: APool, B': APool, seg: nat, bs: seq<MB>, nLower: nat, tid: u16) {
    var s, e, below := PoolStart(LowerOf(S, T), seg), PoolEnd(UpperOf(S, T), seg), IsBelow(S, T);
    var dst := CutDst(bs, s, |bs|);
    && nLower <= |bs| && Ordered(bs, s, e) && DistinctSlots(bs)
    && ListBlocks(ds, A.order, if below then bs[..nLower] else bs[nLower..])
    && ListBlocks(ds, B.order, if below then bs[nLower..] else bs[..nLower])
    && B'.L == CanonFull(Placed(bs, dst), s, e) && B'.order == SlotsOf(bs)
    && MergeDescs(ds, ds', bs, s, nLower, below, tid) && PayloadMoved(z, z', bs, dst) && OutsideKept(z, z', s, e)
    && MergeRecord(S, T, T')
  }

  // The joint window of two adjacent pools.
  lemma JointWindow(S: Pool, T: Pool, seg: nat, segCount: nat, zoneSize: nat)
    requires Adjacent(S, T) && GeometryOk(S, seg, segCount, zoneSize) && GeometryOk(T, seg, segCount, zoneSize) && segCount < 0x1_0000
    ensures var L, U := LowerOf(S, T), UpperOf(S, T);
            && PoolEnd(L, seg) == PoolStart(U, seg) && PoolStart(L, seg) <= PoolEnd(L, seg) <= PoolEnd(U, seg) <= zoneSize
            && S.segmentCount + T.segmentCount < 0x1_0000
            && PoolStart(L, seg) == SegOff(L.segmentFirst, seg)
            && PoolEnd(U, seg) == SegOff(L.segmentFirst + (S.segmentCount + T.segmentCount), seg)
  {
    var L, U := LowerOf(S, T), UpperOf(S, T);
    assert U.segmentFirst == L.segmentFirst + L.segmentCount;
    SegMono(L.segmentFirst, L.segmentFirst + L.segmentCount, seg);
    SegMono(U.segmentFirst, U.segmentFirst + U.segmentCount, seg);
    assert U.segmentFirst + U.segmentCount == L.segmentFirst + (S.segmentCount + T.segmentCount);
  }

  lemma MergePayload(z0: seq<u32>, z1: seq<u32>, z2: seq<u32>, bs: seq<MB>, s: nat, e: nat)
    requires Ordered(bs, s, e) && DistinctSlots(bs) && e <= |z0|
    requires var dst := CutDst(bs, s, |bs|);
             RanZone(z0, z1, bs, dst, Movers(bs, s, |bs|)) && OutsideKept(z1, z2, s, e) && PayloadKept(z1, z2, Placed(bs, dst))
    ensures PayloadMoved(z0, z2, bs, CutDst(bs, s, |bs|)) && OutsideKept(z0, z2, s, e)
  {
    CompactPayload(z0, z1, z2, bs, s, e, |bs|);
  }

  lemma MergedBlocks(ds: seq<ObjectDesc>, ds': seq<ObjectDesc>, slots: seq<nat>, bs: seq<MB>, s: nat, e: nat, nLower: nat, sourceBelow: bool, tid: u16)
    requires Addressed(ds, slots) && bs == BlocksOf(ds, slots) && MergeDescs(ds, ds', bs, s, nLower, sourceBelow, tid) && Ordered(bs, s, e)
    ensures Addressed(ds', slots) && BlocksOf(ds', slots) == Placed(bs, CutDst(bs, s, |bs|))
    ensures InRange(BlocksOf(ds', slots), s, e) == Placed(bs, CutDst(bs, s, |bs|))
    ensures Ordered(Placed(bs, CutDst(bs, s, |bs|)), s, e)
  {
    hide MergeDescs, Ordered, InRange, DstAt;
    forall i | 0 <= i < |slots|
      ensures slots[i] < |ds'| && HEADER <= ds'[slots[i]].address && BlockOf(ds', slots[i]) == Placed(bs, CutDst(bs, s, |bs|))[i]
    {
      BlocksIndex(ds, slots, i);
      MergeBlockAt(ds, ds', bs, s, nLower, sourceBelow, tid, i);
    }
    CutOrdered(bs, s, e, |bs|);
    OrderedInRange(Placed(bs, CutDst(bs, s, |bs|)), s, e);
  }

  // The joint pool is consistent.
  lemma MergePoolOk(z0: seq<u32>, z': seq<u32>, S: Pool, T: Pool, T': Pool, ds: seq<ObjectDesc>, ds': seq<ObjectDesc>, sid: nat, tid: u16,
                    A: APool, B: APool, lists: seq<seq<nat>>, seg: nat, segCount: nat, zoneSize: nat, bs: seq<MB>, nLower: nat)
    requires PoolOk(z0, S, ds, sid, A, seg) && PoolOk(z0, T, ds, tid, B, seg) && S.borrowCount == 0 && T.borrowCount == 0
    requires Adjacent(S, T) && GeometryOk(S, seg, segCount, zoneSize) && GeometryOk(T, seg, segCount, zoneSize) && segCount < 0x1_0000
    requires MergeRecord(S, T, T') && NoDup(SlotsOf(bs)) && T'.liveObjects == |bs| && At(SlotsOf(bs), 0) == T'.orderHead
    requires var s, e, below := PoolStart(LowerOf(S, T), seg), PoolEnd(UpperOf(S, T), seg), IsBelow(S, T);
             var C := CanonFull(Placed(bs, CutDst(bs, s, |bs|)), s, e);
             && nLower <= |bs| && Ordered(bs, s, e)
             && ListBlocks(ds, A.order, if below then bs[..nLower] else bs[nLower..])
             && ListBlocks(ds, B.order, if below then bs[nLower..] else bs[..nLower])
             && MergeDescs(ds, ds', bs, s, nLower, below, tid)
             && PoolLay(z', T'.bins, C, lists, s, e) && Counters(T', C, s, e)
    ensures var s, e := PoolStart(LowerOf(S, T), seg), PoolEnd(UpperOf(S, T), seg);
            PoolOk(z', T', ds', tid, APool(CanonFull(Placed(bs, CutDst(bs, s, |bs|)), s, e), lists, SlotsOf(bs)), seg)
  {
    hide PoolLay, Counters, ObjsOk, NoDup, ListBlocks, Ordered, MergeDescs, CanonFull, CutDst, Placed, GeometryOk, At, SlotsOf;
    JointWindow(S, T, seg, segCount, zoneSize);
    hide LowerOf, UpperOf, IsBelow, Adjacent;
    var s, e, below := PoolStart(LowerOf(S, T), seg), PoolEnd(UpperOf(S, T), seg), IsBelow(S, T);
    MergeObjs(ds, ds', S.orderHead, T.orderHead, sid, tid, A, B, bs, s, e, nLower, below);
    MergeBorrows(ds, ds', S.orderHead, T.orderHead, sid, tid, A, B, bs, s, nLower, below);
    SlotsLength(bs);
  }

  lemma SlotsLength(bs: seq<MB>)
    ensures |SlotsOf(bs)| == |bs|
  {
  }

  lemma MergeBorrows(ds: seq<ObjectDesc>, ds': seq<ObjectDesc>, hS: u32, hT: u32, sid: nat, tid: u16, A: APool, B: APool,
                     bs: seq<MB>, s: nat, nLower: nat, sourceBelow: bool)
    requires ObjsOk(ds, hS, sid, A.L, A.order) && ObjsOk(ds, hT, tid, B.L, B.order)
    requires Indexed(ds, A.order) && Indexed(ds, B.order) ==> BorrowSum(ds, A.order) == 0 && BorrowSum(ds, B.order) == 0
    requires nLower <= |bs| && ListBlocks(ds, A.order, if sourceBelow then bs[..nLower] else bs[nLower..])
    requires ListBlocks(ds, B.order, if sourceBelow then bs[nLower..] else bs[..nLower])
    requires MergeDescs(ds, ds', bs, s, nLower, sourceBelow, tid)
    ensures Indexed(ds', SlotsOf(bs)) && BorrowSum(ds', SlotsOf(bs)) == 0
  {
    hide ObjsOk, ListBlocks, MergeDescs;
    OrderIndexed(ds, hS, sid, A.L, A.order);
    OrderIndexed(ds, hT, tid, B.L, B.order);
    BorrowSumZero(ds, A.order);
    BorrowSumZero(ds, B.order);
    var slots := SlotsOf(bs);
    forall i | 0 <= i < |slots| ensures slots[i] < |ds'| && ds'[slots[i]].activeBorrows == 0 {
      var part := if i < nLower then bs[..nLower] else bs[nLower..];
      var j: nat := if i < nLower then i else i - nLower;
      assert part[j] == bs[i];
      if FromSource(i, nLower, sourceBelow) {
        ListedLive(ds, hS, sid, A.L, A.order, part, j);
        var k := IndexOf(A.order, bs[i].slot);
      } else {
        ListedLive(ds, hT, tid, B.L, B.order, part, j);
        var k := IndexOf(B.order, bs[i].slot);
      }
      MergeFields(ds, ds', bs, s, nLower, sourceBelow, tid, bs[i].slot);
    }
    BorrowSumAllZero(ds', slots);
  }

  // ---- the transaction --------------------------------------------------------------------------

  // Both pools are consistent, in the abstraction the caller knows.
  ghost predicate BothOk(z: seq<u32>, ds: seq<ObjectDesc>, S: Pool, T: Pool, sid: nat, tid: nat, A: APool, B: APool,
                         seg: nat, segCount: nat, zoneSize: nat) {
    && GeometryOk(S, seg, segCount, zoneSize) && PoolOk(z, S, ds, sid, A, seg) && S.borrowCount == 0
    && GeometryOk(T, seg, segCount, zoneSize) && PoolOk(z, T, ds, tid, B, seg) && T.borrowCount == 0
  }

  // Audit, plan, execute. On any metadata a refusal comes before the first write; on consistent
  // pools there is none.
  method MergeImpl(g: GlobalState, sid: nat, tid: nat, ghost A: APool, ghost B: APool)
      returns (st: Status, ghost bs: seq<MB>, ghost nLower: nat, ghost B': APool)
    requires sid < g.pools.Length && tid < g.pools.Length < 0xFFFF && sid != tid && g.objects.Length < 0xFFFF
    requires ZoneOk(g.zone[..], g.segmentSize, g.segmentCount, g.zoneSize)
    requires BinsSized(g.pools[sid].bins) && BinsSized(g.pools[tid].bins) && Adjacent(g.pools[sid], g.pools[tid])
    modifies g.zone, g.pools, g.objects
    ensures st != Ok ==> g.zone[..] == old(g.zone[..]) && g.pools[..] == old(g.pools[..]) && g.objects[..] == old(g.objects[..])
    ensures g.pools[..] == old(g.pools[..])[tid := g.pools[tid]]
    ensures BothOk(old(g.zone[..]), old(g.objects[..]), old(g.pools[sid]), old(g.pools[tid]), sid, tid, A, B,
                   g.segmentSize, g.segmentCount, g.zoneSize) ==>
              && st == Ok && |A.order| + |B.order| == |bs|
              && MergeDone(old(g.zone[..]), g.zone[..], old(g.pools[sid]), old(g.pools[tid]), g.pools[tid], old(g.objects[..]), g.objects[..],
                           A, B, B', g.segmentSize, bs, nLower, tid)
              && PoolOk(g.zone[..], g.pools[tid], g.objects[..], tid, B', g.segmentSize)
              && g.pools[tid].structureEpoch == old(g.pools[tid]).structureEpoch
  {
    hide PoolOk, Audited, BlocksOf, Ordered, SumSizes, ListBlocks, DistinctSlots, PlanAll, MergeDescs, PayloadMoved, JointAudited, RanZone, MergedUpTo,
         PoolLay, Counters, PayloadKept, OutsideKept, CanonFull, PoolStart, PoolEnd, PayloadFits, NoDup, SourcesAt, InRange, Threaded, Placed, CutDst,
         Movers, GeometryOk, Adjacent, IsBelow, LowerOf, UpperOf, MergeDone, MergeRecord, At, ZoneOk, SlotsOf;
    B' := B;
    ghost var z0, ds0 := g.zone[..], g.objects[..];
    var S, T := g.pools[sid], g.pools[tid];
    ghost var good := BothOk(z0, ds0, S, T, sid, tid, A, B, g.segmentSize, g.segmentCount, g.zoneSize);
    var below := IsBelow(S, T);
    var lower, upper := LowerOf(S, T), UpperOf(S, T);
    LowerUpper(S, T);
    var start, end := PoolStart(lower, g.segmentSize), PoolEnd(upper, g.segmentSize);
    bs, nLower := [], 0;
    var slots, n;
    ghost var orderL, orderU;
    st, slots, n, orderL, orderU := AuditPair(g.zone, g.objects, S, T, sid, tid, below, g.segmentSize, g.segmentCount, g.zoneSize, A, B);
    if st != Ok { return; }
    ghost var lid, uid := if below then sid else tid, if below then tid else sid;
    ZoneSegments(z0, g.segmentSize, g.segmentCount, g.zoneSize);
    JointWindow(S, T, g.segmentSize, g.segmentCount, g.zoneSize);
    JointYields(z0, ds0, lower, upper, lid, uid, orderL, orderU, slots, n, g.segmentSize);
    bs, nLower := BlocksOf(ds0, slots), n;
    var plan;
    st, plan := PlanMerge(g.objects, slots, start, end);
    if st != Ok { return; }
    ExecuteMerge(g.zone, g.objects, plan, n, below, tid, bs, start, end);
    ghost var z1, ds1 := g.zone[..], g.objects[..];
    PlanSlots(plan, ds0, slots, bs, start);
    ThreadList(g.objects, plan, slots);
    ghost var ds2 := g.objects[..];
    MergeDescsHold(ds0, ds1, ds2, slots, bs, start, n, below, tid);
    MergedBlocks(ds0, ds2, slots, bs, start, end, n, below, tid);
    MergeLinked(ds0, ds2, bs, start, n, below, tid);
    FirstSlot(plan, slots);
    var T1 := T.(orderHead := if |plan| > 0 then plan[0].slot else NO_ORDER, segmentFirst := lower.segmentFirst,
                 segmentCount := S.segmentCount + T.segmentCount, liveObjects := |plan|);
    var T2;
    ghost var lists;
    T2, lists := FinalizeLayout(g.zone, g.objects, T1, start, end, slots);
    g.pools[tid] := T2;
    ghost var z2 := g.zone[..];
    MergePayload(z0, z1, z2, bs, start, end);
    B' := APool(CanonFull(Placed(bs, CutDst(bs, start, |bs|)), start, end), lists, SlotsOf(bs));
    if good {
      FinalCounters(T2, CanonFull(Placed(bs, CutDst(bs, start, |bs|)), start, end), start, end);
      MergeRecordHolds(z0, S, T, T1, T2, ds0, sid, tid, A, B, g.segmentSize, bs, start, end);
      MergePoolOk(z0, z2, S, T, T2, ds0, ds2, sid, tid, A, B, lists, g.segmentSize, g.segmentCount, g.zoneSize, bs, n);
      OrdersCount(z0, S, T, ds0, sid, tid, A, B, g.segmentSize, bs);
      MergeDoneHolds(z0, z2, S, T, T2, ds0, ds2, A, B, B', g.segmentSize, bs, n, tid);
    }
  }

  lemma LowerUpper(S: Pool, T: Pool)
    ensures if IsBelow(S, T) then LowerOf(S, T) == S && UpperOf(S, T) == T else LowerOf(S, T) == T && UpperOf(S, T) == S
  {
  }

  lemma ZoneSegments(z: seq<u32>, seg: nat, segCount: nat, zoneSize: nat)
    requires ZoneOk(z, seg, segCount, zoneSize)
    ensures segCount < 0x1_0000 && zoneSize < ZONE_LIMIT && zoneSize <= |z| <= ZONE_LIMIT
  {
  }

  lemma PlanSlots(plan: seq<PlanEntry>, ds: seq<ObjectDesc>, slots: seq<nat>, bs: seq<MB>, s: nat)
    requires |plan| == |slots| && Addressed(ds, slots) && bs == BlocksOf(ds, slots) && PlanAll(plan, bs, s)
    ensures forall i :: 0 <= i < |slots| ==> plan[i].slot == slots[i] < |ds|
  {
    hide DstAt;
  }

  lemma FirstSlot(plan: seq<PlanEntry>, slots: seq<nat>)
    requires |plan| == |slots| && forall i :: 0 <= i < |slots| ==> plan[i].slot == slots[i]
    ensures At(slots, 0) == if |plan| > 0 then plan[0].slot else NULL_OFF
  {
  }

  lemma MergeRecordHolds(z: seq<u32>, S: Pool, T: Pool, T1: Pool, T2: Pool, ds: seq<ObjectDesc>, sid: nat, tid: nat, A: APool, B: APool,
                         seg: nat, bs: seq<MB>, s: nat, e: nat)
    requires PoolOk(z, S, ds, sid, A, seg) && PoolOk(z, T, ds, tid, B, seg) && S.segmentCount + T.segmentCount < 0x1_0000
    requires s == PoolStart(LowerOf(S, T), seg) && e == PoolEnd(UpperOf(S, T), seg) && PoolEnd(LowerOf(S, T), seg) == PoolStart(UpperOf(S, T), seg)
    requires SumSizes(bs) == S.usedBytes + T.usedBytes && |bs| == S.liveObjects + T.liveObjects
    requires T1 == T.(orderHead := T1.orderHead, segmentFirst := LowerOf(S, T).segmentFirst, segmentCount := S.segmentCount + T.segmentCount, liveObjects := |bs|)
    requires T2 == T1.(bins := T2.bins, usedBytes := T2.usedBytes, freeBytes := T2.freeBytes, fragmentBytes := T2.fragmentBytes)
    requires T2.usedBytes == SumSizes(Placed(bs, CutDst(bs, s, |bs|))) && T2.usedBytes + T2.freeBytes == e - s
    ensures MergeRecord(S, T, T2)
  {
    hide PoolOk, PoolStart, PoolEnd, SumSizes, Placed, CutDst;
    UsedPlusFree(z, S, ds, sid, A, seg);
    UsedPlusFree(z, T, ds, tid, B, seg);
    PlacedSum(bs, CutDst(bs, s, |bs|));
  }

  lemma OrdersCount(z: seq<u32>, S: Pool, T: Pool, ds: seq<ObjectDesc>, sid: nat, tid: nat, A: APool, B: APool, seg: nat, bs: seq<MB>)
    requires PoolOk(z, S, ds, sid, A, seg) && PoolOk(z, T, ds, tid, B, seg) && |bs| == S.liveObjects + T.liveObjects
    ensures |A.order| + |B.order| == |bs|
  {
    hide PoolLay, Counters, ObjsOk;
  }

  lemma MergeDoneHolds(z: seq<u32>, z': seq<u32>, S: Pool, T: Pool, T': Pool, ds: seq<ObjectDesc>, ds': seq<ObjectDesc>,
                       A: APool, B: APool, B': APool, seg: nat, bs: seq<MB>, nLower: nat, tid: u16)
    requires var s, e, below := PoolStart(LowerOf(S, T), seg), PoolEnd(UpperOf(S, T), seg), IsBelow(S, T);
             var dst := CutDst(bs, s, |bs|);
             && nLower <= |bs| && Ordered(bs, s, e) && DistinctSlots(bs)
             && ListBlocks(ds, A.order, if below then bs[..nLower] else bs[nLower..])
             && ListBlocks(ds, B.order, if below then bs[nLower..] else bs[..nLower])
             && B'.L == CanonFull(Placed(bs, dst), s, e) && B'.order == SlotsOf(bs)
             && MergeDescs(ds, ds', bs, s, nLower, below, tid) && PayloadMoved(z, z', bs, dst) && OutsideKept(z, z', s, e)
             && MergeRecord(S, T, T')
    ensures MergeDone(z, z', S, T, T', ds, ds', A, B, B', seg, bs, nLower, tid)
  {
    hide Ordered, DistinctSlots, ListBlocks, CanonFull, MergeDescs, PayloadMoved, OutsideKept, MergeRecord, CutDst, Placed, PoolStart, PoolEnd,
         LowerOf, UpperOf, IsBelow, SlotsOf;
  }

  function MergeRefusal(ps: seq<Pool>, sid: nat, tid: nat): Status {
    if sid == tid then InvalidPool
    else if sid >= |ps| || tid >= |ps| || ps[sid].state.Empty? || ps[tid].state.Empty? then InvalidPool
    else if !Settled(ps[sid]) || !Settled(ps[tid]) then Busy
    else if ps[sid].borrowCount != 0 || ps[tid].borrowCount != 0 then Busy
    else if !Adjacent(ps[sid], ps[tid]) then NoSpace
    else Ok
  }

  lemma PairFacts(z: seq<u32>, ps: seq<Pool>, ds: seq<ObjectDesc>, head: u16, seg: nat, segCount: nat, zoneSize: nat,
                  abs: seq<APool>, stack: seq<nat>, sid: nat, tid: nat, S: Pool, T: Pool)
    requires Inv(z, ps, ds, head, seg, segCount, zoneSize, abs, stack) && MergeRefusal(ps, sid, tid) == Ok
    requires sid < |ps| && tid < |ps| && S == ps[sid].(state := S.state) && T == ps[tid].(state := T.state)
    ensures sid < |abs| && tid < |abs| && BothOk(z, ds, S, T, sid, tid, abs[sid], abs[tid], seg, segCount, zoneSize)
    ensures !ps[sid].state.Empty? && !ps[tid].state.Empty? && sid != tid
  {
    hide Inv, PoolOk, GeometryOk, Adjacent;
    PoolFacts(z, ps, ds, head, seg, segCount, zoneSize, abs, stack, sid);
    PoolFacts(z, ps, ds, head, seg, segCount, zoneSize, abs, stack, tid);
    StateOnly(z, ps[sid], S, ds, sid, abs[sid], seg);
    StateOnly(z, ps[tid], T, ds, tid, abs[tid], seg);
    SameGeometry(ps[sid], S, seg, segCount, zoneSize);
    SameGeometry(ps[tid], T, seg, segCount, zoneSize);
  }

  lemma MergeSize(ds: seq<ObjectDesc>, ds': seq<ObjectDesc>, bs: seq<MB>, s: nat, nLower: nat, sourceBelow: bool, tid: u16)
    requires MergeDescs(ds, ds', bs, s, nLower, sourceBelow, tid)
    ensures |ds'| == |ds|
  {
  }

  // One slot of the table after a merge.
  lemma MergeOwner(z: seq<u32>, S: Pool, T: Pool, ds: seq<ObjectDesc>, ds': seq<ObjectDesc>, sid: nat, tid: u16, A: APool, B: APool, seg: nat,
                   bs: seq<MB>, s: nat, nLower: nat, sourceBelow: bool, sl: nat)
    requires PoolOk(z, S, ds, sid, A, seg) && PoolOk(z, T, ds, tid, B, seg) && nLower <= |bs| && sl < |ds|
    requires ListBlocks(ds, A.order, if sourceBelow then bs[..nLower] else bs[nLower..])
    requires ListBlocks(ds, B.order, if sourceBelow then bs[nLower..] else bs[..nLower])
    requires MergeDescs(ds, ds', bs, s, nLower, sourceBelow, tid)
    ensures |ds'| == |ds|
    ensures ds[sl].poolId != sid && ds[sl].poolId != tid ==> ds'[sl] == ds[sl]
    ensures sl in A.order || sl in B.order ==> ds'[sl].poolId == tid && sl in SlotsOf(bs)
  {
    hide PoolLay, Counters, ObjsOk, MergedDesc, DstAt, ListBlocks, At, MergeDescs;
    MergeSize(ds, ds', bs, s, nLower, sourceBelow, tid);
    forall i | 0 <= i < |bs|
      ensures bs[i].slot < |ds| && ds[bs[i].slot].poolId == (if FromSource(i, nLower, sourceBelow) then sid else tid)
      ensures HEADER <= ds[bs[i].slot].address && bs[i] == BlockOf(ds, bs[i].slot)
    {
      var part := if i < nLower then bs[..nLower] else bs[nLower..];
      var j: nat := if i < nLower then i else i - nLower;
      assert part[j] == bs[i];
      if FromSource(i, nLower, sourceBelow) {
        ListedLive(ds, S.orderHead, sid, A.L, A.order, part, j);
      } else {
        ListedLive(ds, T.orderHead, tid, B.L, B.order, part, j);
      }
    }
    if ds[sl].poolId != sid && ds[sl].poolId != tid {
      assert !Blocked(bs, sl);
      MergeOther(ds, ds', bs, s, nLower, sourceBelow, tid, sl);
    }
    if sl in A.order || sl in B.order {
      var i := JointIndex(ds, A.order, B.order, bs, nLower, sourceBelow, sl);
      MergeBlockAt(ds, ds', bs, s, nLower, sourceBelow, tid, i);
      assert SlotsOf(bs)[i] == sl;
    }
  }

  lemma MergeOther(ds: seq<ObjectDesc>, ds': seq<ObjectDesc>, bs: seq<MB>, s: nat, nLower: nat, sourceBelow: bool, tid: u16, sl: nat)
    requires MergeDescs(ds, ds', bs, s, nLower, sourceBelow, tid) && sl < |ds| && !Blocked(bs, sl)
    ensures |ds'| == |ds| && ds'[sl] == ds[sl]
  {
    hide MergedDesc, DstAt, At;
  }

  lemma JointIndex(ds: seq<ObjectDesc>, orderS: seq<nat>, orderT: seq<nat>, bs: seq<MB>, nLower: nat, sourceBelow: bool, sl: nat) returns (i: nat)
    requires nLower <= |bs| && (sl in orderS || sl in orderT)
    requires ListBlocks(ds, orderS, if sourceBelow then bs[..nLower] else bs[nLower..])
    requires ListBlocks(ds, orderT, if sourceBelow then bs[nLower..] else bs[..nLower])
    ensures i < |bs| && bs[i].slot == sl
  {
    hide ListBlocks;
    var lower := if sl in orderS then sourceBelow else !sourceBelow;
    var j := ListedAt(ds, if sl in orderS then orderS else orderT, if lower then bs[..nLower] else bs[nLower..], sl);
    i := if lower then j else nLower + j;
  }

  lemma JointApart(S: Pool, T: Pool, T': Pool, X: Pool)
    requires MergeRecord(S, T, T') && Adjacent(S, T) && Apart(S, X) && Apart(T, X) && S.segmentCount > 0 && T.segmentCount > 0 && X.segmentCount > 0
    ensures Apart(T', X)
  {
  }

  lemma JointGeometry(S: Pool, T: Pool, T': Pool, seg: nat, segCount: nat, zoneSize: nat)
    requires MergeRecord(S, T, T') && Adjacent(S, T) && segCount < 0x1_0000
    requires GeometryOk(S, seg, segCount, zoneSize) && GeometryOk(T, seg, segCount, zoneSize)
    ensures GeometryOk(T', seg, segCount, zoneSize)
    ensures PoolStart(T', seg) == PoolStart(LowerOf(S, T), seg) && PoolEnd(T', seg) == PoolEnd(UpperOf(S, T), seg)
  {
    JointWindow(S, T, seg, segCount, zoneSize);
  }

  lemma SegmentsPositive(z: seq<u32>, ps: seq<Pool>, ds: seq<ObjectDesc>, head: u16, seg: nat, segCount: nat, zoneSize: nat,
                         abs: seq<APool>, stack: seq<nat>, p: nat)
    requires Inv(z, ps, ds, head, seg, segCount, zoneSize, abs, stack) && p < |ps| && !ps[p].state.Empty?
    ensures ps[p].segmentCount > 0
  {
    hide PoolOk, SlotsOk, GeometryOk;
    assert PoolSlotOk(z, ps[p], ds, p, abs[p], seg, segCount, zoneSize);
  }

  lemma MergeOwners(z: seq<u32>, ps: seq<Pool>, ds: seq<ObjectDesc>, ds': seq<ObjectDesc>,
                    head: u16, seg: nat, segCount: nat, zoneSize: nat, abs: seq<APool>, stack: seq<nat>, sid: nat, tid: u16,
                    bs: seq<MB>, s: nat, nLower: nat, sourceBelow: bool)
    requires Inv(z, ps, ds, head, seg, segCount, zoneSize, abs, stack) && sid < |ps| == |abs| && tid < |ps|
    requires !ps[sid].state.Empty? && !ps[tid].state.Empty? && nLower <= |bs|
    requires ListBlocks(ds, abs[sid].order, if sourceBelow then bs[..nLower] else bs[nLower..])
    requires ListBlocks(ds, abs[tid].order, if sourceBelow then bs[nLower..] else bs[..nLower])
    requires MergeDescs(ds, ds', bs, s, nLower, sourceBelow, tid)
    ensures |ds'| == |ds| && SlotsOk(ds', head, stack)
    ensures forall sl :: 0 <= sl < |ds| && ds[sl].state.LiveObj? && ds[sl].poolId != sid && ds[sl].poolId != tid ==> ds'[sl] == ds[sl]
    ensures forall sl :: 0 <= sl < |ds| && ds'[sl].state.LiveObj? ==>
              (ds[sl].state.LiveObj? && ds[sl].poolId != sid && ds[sl].poolId != tid) || (ds'[sl].poolId == tid && sl in SlotsOf(bs))
  {
    hide Inv, PoolOk, SlotsOk, MergeDescs, ListBlocks, GeometryOk, SlotsOf;
    PoolFacts(z, ps, ds, head, seg, segCount, zoneSize, abs, stack, sid);
    PoolFacts(z, ps, ds, head, seg, segCount, zoneSize, abs, stack, tid);
    MergeSize(ds, ds', bs, s, nLower, sourceBelow, tid);
    forall sl | 0 <= sl < |ds| ensures ds'[sl].state == ds[sl].state && ds'[sl].nextFreeSlot == ds[sl].nextFreeSlot {
      MergeFields(ds, ds', bs, s, nLower, sourceBelow, tid, sl);
    }
    SlotsFrame(ds, ds', head, stack);
    forall sl | 0 <= sl < |ds| && ds[sl].state.LiveObj?
      ensures ds[sl].poolId != sid && ds[sl].poolId != tid ==> ds'[sl] == ds[sl]
      ensures (ds[sl].poolId != sid && ds[sl].poolId != tid) || (ds'[sl].poolId == tid && sl in SlotsOf(bs))
    {
      InList(z, ps, ds, head, seg, segCount, zoneSize, abs, stack, sl);
      MergeOwner(z, ps[sid], ps[tid], ds, ds', sid, tid, abs[sid], abs[tid], seg, bs, s, nLower, sourceBelow, sl);
    }
  }

  lemma MergeKeepsInv(z: seq<u32>, z': seq<u32>, ps: seq<Pool>, S0: Pool, T0: Pool, T1: Pool, T': Pool,
                      ds: seq<ObjectDesc>, ds': seq<ObjectDesc>, head: u16, seg: nat, segCount: nat, zoneSize: nat,
                      abs: seq<APool>, B': APool, stack: seq<nat>, sid: nat, tid: u16, bs: seq<MB>, nLower: nat)
    requires Inv(z, ps, ds, head, seg, segCount, zoneSize, abs, stack) && MergeRefusal(ps, sid, tid) == Ok
    requires sid < |ps| == |abs| && tid < |ps| && S0 == ps[sid].(state := S0.state) && T0 == ps[tid].(state := T0.state)
    requires MergeDone(z, z', S0, T0, T1, ds, ds', abs[sid], abs[tid], B', seg, bs, nLower, tid)
    requires PoolOk(z', T1, ds', tid, B', seg) && T' == T1.(state := Running, structureEpoch := T'.structureEpoch)
    ensures Inv(z', ps[sid := ZeroPool()][tid := T'], ds', head, seg, segCount, zoneSize, abs[sid := APool(map[], [], [])][tid := B'], stack)
    ensures MergeDone(z, z', ps[sid], ps[tid], T', ds, ds', abs[sid], abs[tid], B', seg, bs, nLower, tid)
  {
    hide Inv, PoolOk, SlotsOk, GeometryOk, Ordered, ListBlocks, DistinctSlots, CanonFull, MergeDescs, PayloadMoved, OutsideKept, MergeRecord, CutDst,
         Placed, PoolStart, PoolEnd, Apart, SlotsOf, Adjacent;
    var S, T := ps[sid], ps[tid];
    PairFacts(z, ps, ds, head, seg, segCount, zoneSize, abs, stack, sid, tid, S, T);
    ZoneFacts(z, ps, ds, head, seg, segCount, zoneSize, abs, stack);
    Rearmed(S, T, S0, T0, T1, T', seg);
    assert MergeRecord(S, T, T');
    JointGeometry(S, T, T', seg, segCount, zoneSize);
    JointWindow(S, T, seg, segCount, zoneSize);
    StateOnly(z', T1, T', ds', tid, B', seg);
    SegmentsPositive(z, ps, ds, head, seg, segCount, zoneSize, abs, stack, sid);
    SegmentsPositive(z, ps, ds, head, seg, segCount, zoneSize, abs, stack, tid);
    var s, e := PoolStart(LowerOf(S, T), seg), PoolEnd(UpperOf(S, T), seg);
    MergeOwners(z, ps, ds, ds', head, seg, segCount, zoneSize, abs, stack, sid, tid, bs, s, nLower, IsBelow(S, T));
    forall x | 0 <= x < |ps| && x != sid && x != tid && !ps[x].state.Empty?
      ensures (PoolEnd(ps[x], seg) <= s || e <= PoolStart(ps[x], seg)) && Apart(T', ps[x])
    {
      OthersOutside(z, ps, ds, head, seg, segCount, zoneSize, abs, stack, sid, x);
      OthersOutside(z, ps, ds, head, seg, segCount, zoneSize, abs, stack, tid, x);
      SegmentsPositive(z, ps, ds, head, seg, segCount, zoneSize, abs, stack, x);
      JointApart(S, T, T', ps[x]);
      WindowsApart(T', ps[x], seg);
    }
    JoinedCount(S, T, T');
    PairUpdated(z, z', ps, ZeroPool(), T', ds, ds', head, seg, segCount, zoneSize, abs, APool(map[], [], []), B', stack, sid, tid, s, e);
  }

  lemma JoinedCount(S: Pool, T: Pool, T': Pool)
    requires MergeRecord(S, T, T') && S.segmentCount > 0
    ensures T'.segmentCount > 0
  {
  }

  lemma Rearmed(S: Pool, T: Pool, S0: Pool, T0: Pool, T1: Pool, T': Pool, seg: nat)
    requires S0 == S.(state := S0.state) && T0 == T.(state := T0.state)
    requires MergeRecord(S0, T0, T1) && T' == T1.(state := T'.state, structureEpoch := T'.structureEpoch)
    ensures MergeRecord(S, T, T') && IsBelow(S, T) == IsBelow(S0, T0)
    ensures PoolStart(LowerOf(S, T), seg) == PoolStart(LowerOf(S0, T0), seg) && PoolEnd(UpperOf(S, T), seg) == PoolEnd(UpperOf(S0, T0), seg)
  {
  }

  // Between calls no pool of a consistent allocator is under maintenance.
  lemma PoolSettled(z: seq<u32>, ps: seq<Pool>, ds: seq<ObjectDesc>, head: u16, seg: nat, segCount: nat, zoneSize: nat,
                    abs: seq<APool>, stack: seq<nat>, p: nat)
    requires Inv(z, ps, ds, head, seg, segCount, zoneSize, abs, stack) && p < |ps| && !ps[p].state.Empty?
    ensures Settled(ps[p])
  {
    hide PoolOk, SlotsOk, GeometryOk;
    assert PoolSlotOk(z, ps[p], ds, p, abs[p], seg, segCount, zoneSize);
  }

  // merge. On arbitrary metadata a refusal, before or after arming, leaves the whole allocator
  // as it was. On a consistent allocator the outcome is decided by the pool table alone, and
  // success leaves one joint pool and a zeroed source slot.
  method Merge(g: GlobalState, sid: nat, tid: nat) returns (st: Status, ghost bs: seq<MB>, ghost nLower: nat)
    requires Sized(g)
    modifies g, g.zone, g.pools, g.objects
    ensures st != Ok ==> g.zone[..] == old(g.zone[..]) && g.pools[..] == old(g.pools[..]) && g.objects[..] == old(g.objects[..]) && g.abs == old(g.abs)
    ensures g.stack == old(g.stack) && g.freeSlotHead == old(g.freeSlotHead) && g.liveObjectCount == old(g.liveObjectCount)
    ensures old(g.Valid()) ==> g.Valid() && st == MergeRefusal(old(g.pools[..]), sid, tid)
    ensures var ps := old(g.pools[..]);
            old(g.Valid()) ==>
              st == (if sid == tid || sid >= |ps| || tid >= |ps| || ps[sid].state == Empty || ps[tid].state == Empty then InvalidPool
                     else if ps[sid].borrowCount != 0 || ps[tid].borrowCount != 0 then Busy
                     else if ps[sid].segmentFirst + ps[sid].segmentCount == ps[tid].segmentFirst
                          || ps[tid].segmentFirst + ps[tid].segmentCount == ps[sid].segmentFirst then Ok
                     else NoSpace)
    ensures old(g.Valid()) && st == Ok ==>
              && sid < g.pools.Length && tid < g.pools.Length == |old(g.abs)| == |g.abs| && tid < 0x1_0000
              && MergeDone(old(g.zone[..]), g.zone[..], old(g.pools[sid]), old(g.pools[tid]), g.pools[tid], old(g.objects[..]), g.objects[..],
                           old(g.abs)[sid], old(g.abs)[tid], g.abs[tid], g.segmentSize, bs, nLower, tid)
              && g.pools[..] == old(g.pools[..])[sid := ZeroPool()][tid := g.pools[tid]]
              && g.abs == old(g.abs)[sid := APool(map[], [], [])][tid := g.abs[tid]]
              && g.pools[tid].state.Running? && g.pools[tid].structureEpoch == (old(g.pools[tid]).structureEpoch + 1) % 0x1_0000_0000
  {
    hide Inv, PoolOk, GeometryOk, ZoneOk, SlotsOk, MergeDone, PoolStart, PoolEnd, ZeroPool, BothOk;
    bs, nLower := [], 0;
    ghost var z, ps, ds, abs, valid := g.zone[..], g.pools[..], g.objects[..], g.abs, g.Valid();
    if sid == tid { return InvalidPool, bs, nLower; }
    if sid >= g.pools.Length || tid >= g.pools.Length { return InvalidPool, bs, nLower; }
    var S, T := g.pools[sid], g.pools[tid];
    if S.state.Empty? || T.state.Empty? { return InvalidPool, bs, nLower; }
    if valid {
      PoolSettled(z, ps, ds, g.freeSlotHead, g.segmentSize, g.segmentCount, g.zoneSize, abs, g.stack, sid);
      PoolSettled(z, ps, ds, g.freeSlotHead, g.segmentSize, g.segmentCount, g.zoneSize, abs, g.stack, tid);
    }
    if !Settled(S) || !Settled(T) { return Busy, bs, nLower; }
    if S.borrowCount != 0 || T.borrowCount != 0 { return Busy, bs, nLower; }
    var sPaused, tPaused := S.state.Paused?, T.state.Paused?;
    if !Adjacent(S, T) { return NoSpace, bs, nLower; }
    var S0, T0 := S.(state := Merging), T.(state := Merging);
    g.pools[sid] := S0;
    g.pools[tid] := T0;
    StillAdjacent(S, T, S0, T0);
    if valid { PairFacts(z, ps, ds, g.freeSlotHead, g.segmentSize, g.segmentCount, g.zoneSize, abs, g.stack, sid, tid, S0, T0); }
    ghost var B';
    st, bs, nLower, B' := MergeImpl(g, sid, tid, abs[sid], abs[tid]);
    if st != Ok {
      g.pools[sid] := g.pools[sid].(state := if sPaused then Paused else Running);
      g.pools[tid] := g.pools[tid].(state := if tPaused then Paused else Running);
      assert g.pools[..] == ps;
      return;
    }
    ghost var T1 := g.pools[tid];
    g.pools[sid] := ZeroPool();
    g.pools[tid] := g.pools[tid].(structureEpoch := NextEpoch(g.pools[tid].structureEpoch), state := Running);
    g.abs := abs[sid := APool(map[], [], [])][tid := B'];
    if valid {
      MergeKeepsInv(z, g.zone[..], ps, S0, T0, T1, g.pools[tid], ds, g.objects[..], g.freeSlotHead, g.segmentSize, g.segmentCount, g.zoneSize,
                    abs, B', g.stack, sid, tid, bs, nLower);
      assert g.pools[..] == ps[sid := ZeroPool()][tid := g.pools[tid]];
    }
  }

  lemma StillAdjacent(S: Pool, T: Pool, S0: Pool, T0: Pool)
    requires S0 == S.(state := S0.state) && T0 == T.(state := T0.state)
    ensures Adjacent(S0, T0) == Adjacent(S, T)
  {
  }
}
