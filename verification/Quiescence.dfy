/** The quiescent window: split, compact and merge do to a paused pool exactly what they do to a
    running one. */
module Quiescence {
  import opened Base
  import opened PoolHeap
  import opened Objects
  import opened State
  import opened AllocOp
  import opened Blocks
  import opened Moves
  import opened Plan
  import opened Relocate
  import opened CompactOp
  import opened CompactProps
  import opened SplitPlan
  import opened SplitOp
  import opened MergeOp
  import opened Pools
  import opened Survival
  import opened Placement

  // ---- what is compared -----------------------------------------------------------------------------

  // Everything of a pool's record but the heads of its bin lists.
  predicate SameRecord(P: Pool, Q: Pool) {
    Q == P.(bins := Q.bins)
  }

  // The same layout, so the same free blocks, and the same live list.
  ghost predicate SameShape(A: APool, B: APool) {
    A.L == B.L && A.order == B.order
  }

  ghost predicate Agree(a: Snap, b: Snap) {
    && a.ds == b.ds && a.stack == b.stack && |a.ps| == |b.ps| && |a.abs| == |b.abs|
    && (forall x :: 0 <= x < |a.ps| ==> SameRecord(a.ps[x], b.ps[x]))
    && (forall x :: 0 <= x < |a.abs| ==> SameShape(a.abs[x], b.abs[x]))
  }

  // Two allocators in the same state with no memory in common.
  ghost predicate Twins(g: GlobalState, h: GlobalState)
    reads g, g.zone, g.pools, g.objects, h, h.zone, h.pools, h.objects
  {
    && SnapOf(g) == SnapOf(h)
    && g != h && g.zone != h.zone && g.pools != h.pools && g.objects != h.objects
  }

  // Pool p has been paused, unless it could not be.
  ghost predicate PausedFrom(a: Snap, b: Snap, p: nat) {
    b == a || (p < |a.ps| && a.ps[p].state.Running? && b == a.(ps := a.ps[p := a.ps[p].(state := Paused)]))
  }

  // ---- consistent pools of the same shape -------------------------------------------------------------

  // The record of a consistent pool is decided by its window, its shape and the descriptors.
  lemma RecordsAgree(z: seq<u32>, w: seq<u32>, P: Pool, Q: Pool, ds: seq<ObjectDesc>, pid: nat, A: APool, B: APool, seg: nat)
    requires PoolOk(z, P, ds, pid, A, seg) && PoolOk(w, Q, ds, pid, B, seg) && SameShape(A, B)
    requires P.segmentFirst == Q.segmentFirst && P.segmentCount == Q.segmentCount
    ensures P.usedBytes == Q.usedBytes && P.freeBytes == Q.freeBytes && P.fragmentBytes == Q.fragmentBytes
    ensures P.liveObjects == Q.liveObjects && P.orderHead == Q.orderHead && P.borrowCount == Q.borrowCount
  {
    hide PoolOk;
    PoolObjs(z, P, ds, pid, A, seg);
    PoolObjs(w, Q, ds, pid, B, seg);
  }

  lemma PoolAt(a: Snap, p: nat)
    requires Consistent(a) && p < |a.ps| && !a.ps[p].state.Empty?
    ensures p < |a.abs| && PoolOk(a.z, a.ps[p], a.ds, p, a.abs[p], a.seg)
    ensures ObjsOk(a.ds, a.ps[p].orderHead, p, a.abs[p].L, a.abs[p].order)
  {
    hide PoolOk, GeometryOk, SlotsOk;
    PoolFacts(a.z, a.ps, a.ds, a.head, a.seg, a.segCount, a.zoneSize, a.abs, a.stack, p);
    PoolObjs(a.z, a.ps[p], a.ds, p, a.abs[p], a.seg);
  }

  // ---- split ----------------------------------------------------------------------------------------------

  // The links of an object are decided by the list it is in.
  lemma LinksAgree(ds: seq<ObjectDesc>, ds': seq<ObjectDesc>, order: seq<nat>, h: u32, h': u32, k: nat)
    requires OrderLinked(ds, order, h) && OrderLinked(ds', order, h') && k < |order|
    ensures order[k] < |ds| && order[k] < |ds'| && h == h'
    ensures ds[order[k]].addrNext == ds'[order[k]].addrNext && ds[order[k]].addrPrev == ds'[order[k]].addrPrev
  {
  }

  lemma SplitTablesAgree(ds: seq<ObjectDesc>, d1: seq<ObjectDesc>, d2: seq<ObjectDesc>, bs: seq<MB>, dst: seq<nat>, u: nat, nid: u16,
                         hS: u32, hN: u32, hS': u32, hN': u32)
    requires u <= |bs| && SplitDescs(ds, d1, bs, dst, u, nid) && SplitDescs(ds, d2, bs, dst, u, nid)
    requires OrderLinked(d1, SlotsOf(bs)[..u], hS) && OrderLinked(d1, SlotsOf(bs)[u..], hN)
    requires OrderLinked(d2, SlotsOf(bs)[..u], hS') && OrderLinked(d2, SlotsOf(bs)[u..], hN')
    ensures d1 == d2
  {
    hide OrderLinked, MovedDesc;
    forall sl | 0 <= sl < |ds| ensures d1[sl] == d2[sl] {
      if Blocked(bs, sl) {
        var i :| 0 <= i < |bs| && bs[i].slot == sl;
        if i < u {
          assert SlotsOf(bs)[..u][i] == sl;
          LinksAgree(d1, d2, SlotsOf(bs)[..u], hS, hS', i);
        } else {
          assert SlotsOf(bs)[u..][i - u] == sl;
          LinksAgree(d1, d2, SlotsOf(bs)[u..], hN, hN', i - u);
        }
      }
    }
  }

  lemma SplitBlocksAgree(z: seq<u32>, z1: seq<u32>, z2: seq<u32>, P: Pool, Q: Pool, S: Pool, N: Pool, S': Pool, N': Pool,
                         ds: seq<ObjectDesc>, d1: seq<ObjectDesc>, d2: seq<ObjectDesc>, A: APool, A1: APool, B1: APool, A2: APool, B2: APool,
                         seg: nat, bs: seq<MB>, cs: seq<MB>, keep: nat, nid: u16)
    requires Q == P.(state := Q.state)
    requires SplitDone(z, z1, P, S, N, ds, d1, A, A1, B1, seg, bs, keep, nid) && SplitDone(z, z2, Q, S', N', ds, d2, A, A2, B2, seg, cs, keep, nid)
    ensures cs == bs && SameShape(A1, A2) && SameShape(B1, B2)
    ensures var u := LowerCount(bs, Boundary(P, keep, seg));
            && SplitDescs(ds, d1, bs, SplitDst(bs, PoolStart(P, seg), Boundary(P, keep, seg), u), u, nid)
            && SplitDescs(ds, d2, bs, SplitDst(bs, PoolStart(P, seg), Boundary(P, keep, seg), u), u, nid)
            && A1.order == SlotsOf(bs)[..u] && B1.order == SlotsOf(bs)[u..]
            && SplitRecords(P, S, N, keep, u) && SplitRecords(Q, S', N', keep, u)
  {
    hide Ordered, ListBlocks, DistinctSlots, CanonFull, SplitDescs, PayloadMoved, OutsideKept, SplitDst, LowerCount, Placed, SlotsOf, SplitRecords;
    BlocksUnique(ds, A.order, cs, bs, PoolStart(P, seg), PoolEnd(P, seg));
  }

  // From one pool, running or paused, every split to the same slot leads to the same objects and
  // halves.
  lemma SplitAgrees(a: Snap, a': Snap, b: Snap, b': Snap, sid: nat, nid: u16, bs: seq<MB>, cs: seq<MB>, keep: nat)
    requires Consistent(b) && Consistent(b') && PausedFrom(a, a', sid) && b'.seg == b.seg == a.seg
    requires sid < |a.ps| == |a.abs| == |b.ps| == |b.abs| == |b'.ps| == |b'.abs| && nid < |a.ps| && sid != nid
    requires b.ps[sid].state.Running? && b.ps[nid].state.Running? && b'.ps[sid].state.Running? && b'.ps[nid].state.Running?
    requires b.ps[sid].structureEpoch == b'.ps[sid].structureEpoch && b.ps[nid].structureEpoch == b'.ps[nid].structureEpoch
    requires SplitDone(a.z, b.z, a.ps[sid], b.ps[sid], b.ps[nid], a.ds, b.ds, a.abs[sid], b.abs[sid], b.abs[nid], a.seg, bs, keep, nid)
    requires SplitDone(a'.z, b'.z, a'.ps[sid], b'.ps[sid], b'.ps[nid], a'.ds, b'.ds, a'.abs[sid], b'.abs[sid], b'.abs[nid], a.seg, cs, keep, nid)
    ensures b.ds == b'.ds && SameShape(b.abs[sid], b'.abs[sid]) && SameShape(b.abs[nid], b'.abs[nid])
    ensures SameRecord(b.ps[sid], b'.ps[sid]) && SameRecord(b.ps[nid], b'.ps[nid])
  {
    hide Inv, SplitDone, PoolOk, ObjsOk, SplitDescs, SplitRecords, SplitDst, LowerCount, SlotsOf, Boundary, PoolStart;
    var P := a.ps[sid];
    SplitBlocksAgree(a.z, b.z, b'.z, P, a'.ps[sid], b.ps[sid], b.ps[nid], b'.ps[sid], b'.ps[nid], a.ds, b.ds, b'.ds,
                     a.abs[sid], b.abs[sid], b.abs[nid], b'.abs[sid], b'.abs[nid], a.seg, bs, cs, keep, nid);
    PoolAt(b, sid);
    PoolAt(b, nid);
    PoolAt(b', sid);
    PoolAt(b', nid);
    var m := Boundary(P, keep, a.seg);
    var u := LowerCount(bs, m);
    ListOf(b.ds, b.ps[sid].orderHead, sid, b.abs[sid]);
    ListOf(b.ds, b.ps[nid].orderHead, nid, b.abs[nid]);
    ListOf(b'.ds, b'.ps[sid].orderHead, sid, b'.abs[sid]);
    ListOf(b'.ds, b'.ps[nid].orderHead, nid, b'.abs[nid]);
    SplitTablesAgree(a.ds, b.ds, b'.ds, bs, SplitDst(bs, PoolStart(P, a.seg), m, u), u, nid,
                     b.ps[sid].orderHead, b.ps[nid].orderHead, b'.ps[sid].orderHead, b'.ps[nid].orderHead);
    HalfRecords(P, a'.ps[sid], b.ps[sid], b.ps[nid], b'.ps[sid], b'.ps[nid], keep, u);
    RecordsAgree(b.z, b'.z, b.ps[sid], b'.ps[sid], b.ds, sid, b.abs[sid], b'.abs[sid], a.seg);
    RecordsAgree(b.z, b'.z, b.ps[nid], b'.ps[nid], b.ds, nid, b.abs[nid], b'.abs[nid], a.seg);
  }

  lemma ListOf(ds: seq<ObjectDesc>, head: u32, pid: nat, A: APool)
    requires ObjsOk(ds, head, pid, A.L, A.order)
    ensures OrderLinked(ds, A.order, head)
  {
    hide OrderLinked;
  }

  lemma HalfRecords(P: Pool, Q: Pool, S: Pool, N: Pool, S': Pool, N': Pool, keep: nat, u: nat)
    requires Q == P.(state := Q.state) && SplitRecords(P, S, N, keep, u) && SplitRecords(Q, S', N', keep, u)
    ensures S' == S.(state := S'.state, structureEpoch := S'.structureEpoch, orderHead := S'.orderHead, bins := S'.bins,
                     usedBytes := S'.usedBytes, freeBytes := S'.freeBytes, fragmentBytes := S'.fragmentBytes)
    ensures N' == N.(state := N'.state, structureEpoch := N'.structureEpoch, orderHead := N'.orderHead, bins := N'.bins, liveObjects := N'.liveObjects,
                     usedBytes := N'.usedBytes, freeBytes := N'.freeBytes, fragmentBytes := N'.fragmentBytes)
  {
    hide ZeroPool;
  }

  lemma SplitRefusalAgrees(a: Snap, b: Snap, sid: nat, n: u32)
    requires PausedFrom(a, b, sid)
    ensures SplitRefusal(a.ps, sid, n) == SplitRefusal(b.ps, sid, n) && FirstEmpty(a.ps) == FirstEmpty(b.ps)
    ensures SplitRefusal(a.ps, sid, n) == Ok ==> sid < |a.ps| && n < a.ps[sid].segmentCount
  {
    hide FirstEmpty;
    FirstEmptyIs(b.ps, FirstEmpty(a.ps));
  }

  lemma SplitVerdictsAgree(a: Snap, b: Snap, sid: nat, keep: nat, bs: seq<MB>, cs: seq<MB>)
    requires PausedFrom(a, b, sid) && sid < |a.ps| && sid < |a.abs|
    requires ListBlocks(a.ds, a.abs[sid].order, bs) && Ordered(bs, PoolStart(a.ps[sid], a.seg), PoolEnd(a.ps[sid], a.seg))
    requires ListBlocks(b.ds, b.abs[sid].order, cs) && Ordered(cs, PoolStart(b.ps[sid], b.seg), PoolEnd(b.ps[sid], b.seg))
    ensures cs == bs && Boundary(a.ps[sid], keep, a.seg) == Boundary(b.ps[sid], keep, b.seg) && PoolEnd(a.ps[sid], a.seg) == PoolEnd(b.ps[sid], b.seg)
  {
    hide ListBlocks, Ordered;
    SameWindow(a.ps[sid], b.ps[sid], a.seg);
    SameBoundary(a.ps[sid], b.ps[sid], keep, a.seg);
    BlocksUnique(a.ds, a.abs[sid].order, bs, cs, PoolStart(a.ps[sid], a.seg), PoolEnd(a.ps[sid], a.seg));
  }

  lemma PauseChanges(a: Snap, b: Snap, p: nat)
    requires PausedFrom(a, b, p)
    ensures |b.ps| == |a.ps| && b.abs == a.abs && b.ds == a.ds && b.stack == a.stack && b.seg == a.seg
    ensures forall x :: 0 <= x < |a.ps| && x != p ==> b.ps[x] == a.ps[x]
  {
  }

  // Two pools were replaced on either side, and the replacements agree.
  lemma PairAgrees(a: Snap, a': Snap, b: Snap, b': Snap, x: nat, y: nat)
    requires |a'.ps| == |a.ps| == |a.abs| && a'.abs == a.abs && a'.stack == a.stack && x < |a.ps| && y < |a.ps|
    requires forall p :: 0 <= p < |a.ps| && p != x && p != y ==> a'.ps[p] == a.ps[p]
    requires |b.ps| == |b'.ps| == |b.abs| == |b'.abs| == |a.ps| && b.stack == a.stack && b'.stack == a'.stack
    requires b.ps == a.ps[x := b.ps[x]][y := b.ps[y]] && b'.ps == a'.ps[x := b'.ps[x]][y := b'.ps[y]]
    requires b.abs == a.abs[x := b.abs[x]][y := b.abs[y]] && b'.abs == a'.abs[x := b'.abs[x]][y := b'.abs[y]]
    requires b.ds == b'.ds && SameRecord(b.ps[x], b'.ps[x]) && SameRecord(b.ps[y], b'.ps[y])
    requires SameShape(b.abs[x], b'.abs[x]) && SameShape(b.abs[y], b'.abs[y])
    ensures Agree(b, b')
  {
    hide SameRecord;
    forall p | 0 <= p < |b.ps| ensures SameRecord(b.ps[p], b'.ps[p]) && SameShape(b.abs[p], b'.abs[p]) {
      if p != x && p != y { Reflexive(b.ps[p]); }
    }
  }

  lemma Reflexive(P: Pool)
    ensures SameRecord(P, P)
  {
  }

  // What split answers and does on a consistent allocator, as a relation between states.
  ghost predicate SplitOutcome(a: Snap, b: Snap, sid: nat, n: u32, st: Status, nid: nat, bs: seq<MB>) {
    && |b.ps| == |a.ps| == |a.abs| == |b.abs| && b.seg == a.seg && b.stack == a.stack
    && (if SplitRefusal(a.ps, sid, n) != Ok then st == SplitRefusal(a.ps, sid, n)
        else
          && sid < |a.ps| && n < a.ps[sid].segmentCount && ListBlocks(a.ds, a.abs[sid].order, bs)
          && Ordered(bs, PoolStart(a.ps[sid], a.seg), PoolEnd(a.ps[sid], a.seg))
          && var m := Boundary(a.ps[sid], a.ps[sid].segmentCount - n, a.seg);
             st == SplitVerdict(bs[LowerCount(bs, m)..], m, PoolEnd(a.ps[sid], a.seg)))
    && (st != Ok ==> b == a)
    && (st == Ok ==>
         && sid < |a.ps| && nid == FirstEmpty(a.ps) < |a.ps| && nid < 0x1_0000 && nid != sid && n < a.ps[sid].segmentCount
         && SplitDone(a.z, b.z, a.ps[sid], b.ps[sid], b.ps[nid], a.ds, b.ds, a.abs[sid], b.abs[sid], b.abs[nid], a.seg, bs, a.ps[sid].segmentCount - n, nid)
         && b.ps[sid].state.Running? && b.ps[sid].structureEpoch == (a.ps[sid].structureEpoch + 1) % U32_MOD
         && b.ps[nid].state.Running? && b.ps[nid].structureEpoch == 1
         && b.ps == a.ps[sid := b.ps[sid]][nid := b.ps[nid]] && b.abs == a.abs[sid := b.abs[sid]][nid := b.abs[nid]])
  }

  method SplitOnce(g: GlobalState, sid: nat, newSegments: u32) returns (st: Status, nid: nat, ghost bs: seq<MB>)
    requires g.Valid()
    modifies g, g.zone, g.pools, g.objects
    ensures g.Valid() && SplitOutcome(old(SnapOf(g)), SnapOf(g), sid, newSegments, st, nid, bs)
  {
    hide Inv, SplitDone, SplitVerdict, PoolStart, PoolEnd, ListBlocks, Ordered, Boundary, LowerCount, FirstEmpty, Sized, EmptyZeroed;
    ghost var a := SnapOf(g);
    ValidIsSized(g);
    ValidIsZeroed(g);
    InvLengths(a.z, a.ps, a.ds, a.head, a.seg, a.segCount, a.zoneSize, a.abs, a.stack);
    st, nid, bs := Split(g, sid, newSegments);
  }

  lemma SplitOutcomesAgree(a: Snap, a': Snap, b: Snap, b': Snap, sid: nat, n: u32, st: Status, st': Status, nid: nat, nid': nat, bs: seq<MB>, cs: seq<MB>)
    requires PausedFrom(a, a', sid) && Consistent(b) && Consistent(b')
    requires SplitOutcome(a, b, sid, n, st, nid, bs) && SplitOutcome(a', b', sid, n, st', nid', cs)
    ensures st' == st && (st == Ok ==> Agree(b, b')) && (st != Ok ==> b == a && b' == a')
  {
    hide Inv, SplitDone, SplitVerdict, PoolStart, PoolEnd, ListBlocks, Ordered, Boundary, LowerCount, SplitRefusal, FirstEmpty, SameRecord, SameShape, Agree;
    SplitRefusalAgrees(a, a', sid, n);
    PauseChanges(a, a', sid);
    if SplitRefusal(a.ps, sid, n) == Ok {
      SplitVerdictsAgree(a, a', sid, a.ps[sid].segmentCount - n, bs, cs);
    }
    if st == Ok {
      SplitAgrees(a, a', b, b', sid, nid, bs, cs, a.ps[sid].segmentCount - n);
      PairAgrees(a, a', b, b', sid, nid);
    }
  }

  // Split on one allocator, and on its twin after pause: the same answer and, if it is Ok, the same
  // objects, layouts, lists and records; if not, each is left as it was.
  method SplitPaused(g: GlobalState, h: GlobalState, sid: nat, newSegments: u32) returns (paused: Status, st: Status, st': Status)
    requires g.Valid() && h.Valid() && Twins(g, h)
    modifies g, g.zone, g.pools, g.objects, h, h.zone, h.pools, h.objects
    ensures g.Valid() && h.Valid() && st' == st
    ensures paused == Ok <==> sid < |old(h.pools[..])| && old(h.pools[..])[sid].state == Running
    ensures st == Ok ==> Agree(SnapOf(g), SnapOf(h))
    ensures st != Ok ==> SnapOf(g) == old(SnapOf(g)) && PausedFrom(old(SnapOf(h)), SnapOf(h), sid)
  {
    hide Inv, SplitOutcome, Agree;
    ghost var a := SnapOf(g);
    paused := Pause(h, sid);
    ghost var a' := SnapOf(h);
    var nid, nid';
    ghost var bs, cs;
    st, nid, bs := SplitOnce(g, sid, newSegments);
    st', nid', cs := SplitOnce(h, sid, newSegments);
    SplitOutcomesAgree(a, a', SnapOf(g), SnapOf(h), sid, newSegments, st, st', nid, nid', bs, cs);
  }

  // ---- compact ----------------------------------------------------------------------------------------------

  // What compact answers and does on a consistent allocator.
  ghost predicate CompactOutcome(a: Snap, b: Snap, pid: nat, req: Request, st: Status, met: bool, bs: seq<MB>, cut: Cut) {
    && |b.ps| == |a.ps| == |a.abs| == |b.abs| && b.seg == a.seg && b.stack == a.stack && st == CompactRefusal(a.ps, pid, req)
    && (st != Ok ==> !met && b == a.(ps := b.ps) && b.ps == if st == Busy && pid < |a.ps| then a.ps[pid := a.ps[pid].(state := Paused)] else a.ps)
    && (st == Ok ==>
         && pid < |a.ps| && OnlyPoolChanged(a.abs, b.abs, a.ps, b.ps, pid)
         && Compacted(a.z, b.z, a.ps[pid], b.ps[pid], a.ds, b.ds, a.abs[pid], b.abs[pid], a.seg, bs, cut.at)
         && b.ps[pid].state.Running? && b.ps[pid].structureEpoch == (a.ps[pid].structureEpoch + 1) % U32_MOD
         && cut == Scan(bs, PoolStart(b.ps[pid], a.seg), PoolEnd(b.ps[pid], a.seg), LimitsOf(req), 0, 0, 0)
         && met == (LimitsOf(req).need == 0 || cut.met))
  }

  method CompactOnce(g: GlobalState, pid: nat, req: Request) returns (st: Status, met: bool, ghost bs: seq<MB>, ghost cut: Cut)
    requires g.Valid()
    modifies g, g.zone, g.pools, g.objects
    ensures g.Valid() && CompactOutcome(old(SnapOf(g)), SnapOf(g), pid, req, st, met, bs, cut)
  {
    hide Inv, Compacted, PoolStart, PoolEnd, Scan, LimitsOf, Sized, OnlyPoolChanged;
    ghost var a := SnapOf(g);
    ValidIsSized(g);
    InvLengths(a.z, a.ps, a.ds, a.head, a.seg, a.segCount, a.zoneSize, a.abs, a.stack);
    st, met, bs, cut := Compact(g, pid, req);
    ghost var b := SnapOf(g);
    InvLengths(b.z, b.ps, b.ds, b.head, b.seg, b.segCount, b.zoneSize, b.abs, b.stack);
  }

  lemma CompactBlocksAgree(a: Snap, a': Snap, b: Snap, b': Snap, pid: nat, req: Request, bs: seq<MB>, cs: seq<MB>, cut: Cut, cut': Cut)
    requires PausedFrom(a, a', pid) && pid < |a.ps| == |a.abs| && pid < |b.ps| && pid < |b.abs| && pid < |b'.ps| && pid < |b'.abs|
    requires Compacted(a.z, b.z, a.ps[pid], b.ps[pid], a.ds, b.ds, a.abs[pid], b.abs[pid], a.seg, bs, cut.at)
    requires Compacted(a'.z, b'.z, a'.ps[pid], b'.ps[pid], a'.ds, b'.ds, a'.abs[pid], b'.abs[pid], a.seg, cs, cut'.at)
    requires cut == Scan(bs, PoolStart(b.ps[pid], a.seg), PoolEnd(b.ps[pid], a.seg), LimitsOf(req), 0, 0, 0)
    requires cut' == Scan(cs, PoolStart(b'.ps[pid], a.seg), PoolEnd(b'.ps[pid], a.seg), LimitsOf(req), 0, 0, 0)
    ensures cs == bs && cut' == cut && b.ds == b'.ds && SameShape(b.abs[pid], b'.abs[pid])
    ensures var P, Q := b.ps[pid], b'.ps[pid];
            Q == P.(state := Q.state, structureEpoch := Q.structureEpoch, bins := Q.bins, fragmentBytes := Q.fragmentBytes)
  {
    hide Ordered, ListBlocks, DistinctSlots, CanonFull, Relocated, PayloadMoved, OutsideKept, CutDst, Movers, SumOf, Placed, Scan, LimitsOf, PoolStart, PoolEnd;
    SameWindow(a.ps[pid], a'.ps[pid], a.seg);
    SameWindow(a.ps[pid], b.ps[pid], a.seg);
    SameWindow(a.ps[pid], b'.ps[pid], a.seg);
    BlocksUnique(a.ds, a.abs[pid].order, bs, cs, PoolStart(a.ps[pid], a.seg), PoolEnd(a.ps[pid], a.seg));
    RelocatedOnce(a.ds, b.ds, b'.ds, bs, CutDst(bs, PoolStart(a.ps[pid], a.seg), cut.at));
  }

  // Relocation decides the whole table.
  lemma RelocatedOnce(ds: seq<ObjectDesc>, d1: seq<ObjectDesc>, d2: seq<ObjectDesc>, bs: seq<MB>, dst: seq<nat>)
    requires Relocated(ds, d1, bs, dst) && Relocated(ds, d2, bs, dst)
    ensures d1 == d2
  {
    hide MovedDesc;
    forall sl | 0 <= sl < |ds| ensures d1[sl] == d2[sl] {
      if Blocked(bs, sl) {
        var i :| 0 <= i < |bs| && bs[i].slot == sl;
      }
    }
  }

  lemma CompactOutcomesAgree(a: Snap, a': Snap, b: Snap, b': Snap, pid: nat, req: Request, st: Status, st': Status, met: bool, met': bool,
                             bs: seq<MB>, cs: seq<MB>, cut: Cut, cut': Cut)
    requires PausedFrom(a, a', pid) && Consistent(b) && Consistent(b')
    requires CompactOutcome(a, b, pid, req, st, met, bs, cut) && CompactOutcome(a', b', pid, req, st', met', cs, cut')
    ensures st' == st && met' == met && (st == Ok ==> Agree(b, b')) && (st == Busy ==> b' == b) && (st != Ok && st != Busy ==> b == a && b' == a')
  {
    hide Inv, Compacted, PoolStart, PoolEnd, Scan, LimitsOf, BadAlignment, SameRecord, SameShape, Agree, PoolOk;
    PauseChanges(a, a', pid);
    if st == Ok {
      CompactBlocksAgree(a, a', b, b', pid, req, bs, cs, cut, cut');
      PoolAt(b, pid);
      PoolAt(b', pid);
      CompactWindow(a.z, b.z, a.ps[pid], b.ps[pid], a.ds, b.ds, a.abs[pid], b.abs[pid], a.seg, bs, cut.at);
      RecordsAgree(b.z, b'.z, b.ps[pid], b'.ps[pid], b.ds, pid, b.abs[pid], b'.abs[pid], a.seg);
      Alike(b.ps[pid], b'.ps[pid]);
      PairAgrees(a, a', b, b', pid, pid);
    }
  }

  lemma Alike(P: Pool, Q: Pool)
    requires Q == P.(bins := Q.bins)
    ensures SameRecord(P, Q)
  {
  }

  // The same for compact, with its report.
  method CompactPaused(g: GlobalState, h: GlobalState, pid: nat, req: Request)
      returns (paused: Status, st: Status, st': Status, met: bool, met': bool)
    requires g.Valid() && h.Valid() && Twins(g, h)
    modifies g, g.zone, g.pools, g.objects, h, h.zone, h.pools, h.objects
    ensures g.Valid() && h.Valid() && st' == st && met' == met
    ensures paused == Ok <==> pid < |old(h.pools[..])| && old(h.pools[..])[pid].state == Running
    ensures st == Ok ==> Agree(SnapOf(g), SnapOf(h))
    ensures st == Busy ==> SnapOf(h) == SnapOf(g)
    ensures st != Ok && st != Busy ==> SnapOf(g) == old(SnapOf(g)) && PausedFrom(old(SnapOf(h)), SnapOf(h), pid)
  {
    hide Inv, CompactOutcome, Agree;
    ghost var a := SnapOf(g);
    paused := Pause(h, pid);
    ghost var a' := SnapOf(h);
    ghost var bs, cs, cut, cut';
    st, met, bs, cut := CompactOnce(g, pid, req);
    st', met', cs, cut' := CompactOnce(h, pid, req);
    CompactOutcomesAgree(a, a', SnapOf(g), SnapOf(h), pid, req, st, st', met, met', bs, cs, cut, cut');
  }

  // ---- merge ------------------------------------------------------------------------------------------------

  // What merge answers and does on a consistent allocator.
  ghost predicate MergeOutcome(a: Snap, b: Snap, sid: nat, tid: nat, st: Status, bs: seq<MB>, nLower: nat) {
    && |b.ps| == |a.ps| == |a.abs| == |b.abs| && b.seg == a.seg && b.stack == a.stack && st == MergeRefusal(a.ps, sid, tid)
    && (st != Ok ==> b == a)
    && (st == Ok ==>
         && sid < |a.ps| && tid < |a.ps| && tid < 0x1_0000 && sid != tid
         && MergeDone(a.z, b.z, a.ps[sid], a.ps[tid], b.ps[tid], a.ds, b.ds, a.abs[sid], a.abs[tid], b.abs[tid], a.seg, bs, nLower, tid)
         && b.ps[sid] == ZeroPool() && b.ps == a.ps[sid := b.ps[sid]][tid := b.ps[tid]]
         && b.abs[sid] == APool(map[], [], []) && b.abs == a.abs[sid := b.abs[sid]][tid := b.abs[tid]]
         && b.ps[tid].state.Running? && b.ps[tid].structureEpoch == (a.ps[tid].structureEpoch + 1) % U32_MOD)
  }

  method MergeOnce(g: GlobalState, sid: nat, tid: nat) returns (st: Status, ghost bs: seq<MB>, ghost nLower: nat)
    requires g.Valid()
    modifies g, g.zone, g.pools, g.objects
    ensures g.Valid() && MergeOutcome(old(SnapOf(g)), SnapOf(g), sid, tid, st, bs, nLower)
  {
    hide Inv, MergeDone, PoolStart, PoolEnd, Sized, Adjacent, ZeroPool;
    ghost var a := SnapOf(g);
    ValidIsSized(g);
    InvLengths(a.z, a.ps, a.ds, a.head, a.seg, a.segCount, a.zoneSize, a.abs, a.stack);
    st, bs, nLower := Merge(g, sid, tid);
    ghost var b := SnapOf(g);
    InvLengths(b.z, b.ps, b.ds, b.head, b.seg, b.segCount, b.zoneSize, b.abs, b.stack);
  }

  // Up to pauses of the two pools the states are the same.
  ghost predicate UpToPauses(a: Snap, b: Snap, x: nat, y: nat) {
    && b == a.(ps := b.ps) && |b.ps| == |a.ps|
    && (forall p :: 0 <= p < |a.ps| && p != x && p != y ==> b.ps[p] == a.ps[p])
    && (forall p :: 0 <= p < |a.ps| ==>
         b.ps[p] == a.ps[p].(state := b.ps[p].state) && (b.ps[p].state == a.ps[p].state || (a.ps[p].state.Running? && b.ps[p].state.Paused?)))
  }

  lemma PausedTwice(a: Snap, b: Snap, c: Snap, x: nat, y: nat)
    requires PausedFrom(a, b, x) && PausedFrom(b, c, y)
    ensures UpToPauses(a, c, x, y)
  {
  }

  lemma PausedNot(a: Snap, x: nat)
    ensures PausedFrom(a, a, x)
  {
  }

  lemma SlicesOrdered(bs: seq<MB>, s: nat, e: nat, k: nat)
    requires Ordered(bs, s, e) && k <= |bs|
    ensures Ordered(bs[..k], s, e) && Ordered(bs[k..], s, e)
  {
  }

  lemma MergeBlocksAgree(a: Snap, a': Snap, b: Snap, b': Snap, sid: nat, tid: u16, bs: seq<MB>, cs: seq<MB>, n: nat, n': nat)
    requires UpToPauses(a, a', sid, tid) && sid < |a.ps| == |a.abs| && tid < |a.ps|
    requires tid < |b.ps| && tid < |b.abs| && tid < |b'.ps| && tid < |b'.abs|
    requires MergeDone(a.z, b.z, a.ps[sid], a.ps[tid], b.ps[tid], a.ds, b.ds, a.abs[sid], a.abs[tid], b.abs[tid], a.seg, bs, n, tid)
    requires MergeDone(a'.z, b'.z, a'.ps[sid], a'.ps[tid], b'.ps[tid], a'.ds, b'.ds, a'.abs[sid], a'.abs[tid], b'.abs[tid], a.seg, cs, n', tid)
    ensures cs == bs && n' == n && SameShape(b.abs[tid], b'.abs[tid])
    ensures var s, below := PoolStart(LowerOf(a.ps[sid], a.ps[tid]), a.seg), IsBelow(a.ps[sid], a.ps[tid]);
            MergeDescs(a.ds, b.ds, bs, s, n, below, tid) && MergeDescs(a.ds, b'.ds, bs, s, n, below, tid)
    ensures MergeRecord(a.ps[sid], a.ps[tid], b.ps[tid]) && MergeRecord(a'.ps[sid], a'.ps[tid], b'.ps[tid])
  {
    hide Ordered, ListBlocks, DistinctSlots, CanonFull, MergeDescs, PayloadMoved, OutsideKept, CutDst, Placed, SlotsOf, MergeRecord;
    var S, T := a.ps[sid], a.ps[tid];
    var s, e, below := PoolStart(LowerOf(S, T), a.seg), PoolEnd(UpperOf(S, T), a.seg), IsBelow(S, T);
    SlicesOrdered(bs, s, e, n);
    SlicesOrdered(cs, s, e, n');
    var lower, upper := if below then a.abs[sid].order else a.abs[tid].order, if below then a.abs[tid].order else a.abs[sid].order;
    BlocksUnique(a.ds, lower, bs[..n], cs[..n'], s, e);
    BlocksUnique(a.ds, upper, bs[n..], cs[n'..], s, e);
    assert bs == bs[..n] + bs[n..] && cs == cs[..n'] + cs[n'..];
  }

  // The merge decides the whole table, links included.
  lemma MergedOnce(ds: seq<ObjectDesc>, d1: seq<ObjectDesc>, d2: seq<ObjectDesc>, bs: seq<MB>, s: nat, n: nat, below: bool, tid: u16)
    requires MergeDescs(ds, d1, bs, s, n, below, tid) && MergeDescs(ds, d2, bs, s, n, below, tid)
    ensures d1 == d2
  {
    hide MergedDesc, DstAt;
    forall sl | 0 <= sl < |ds| ensures d1[sl] == d2[sl] {
      if Blocked(bs, sl) {
        var i :| 0 <= i < |bs| && bs[i].slot == sl;
      }
    }
  }

  lemma JointRecords(a: Snap, a': Snap, sid: nat, tid: nat, J: Pool, K: Pool)
    requires UpToPauses(a, a', sid, tid) && sid < |a.ps| && tid < |a.ps|
    requires MergeRecord(a.ps[sid], a.ps[tid], J) && MergeRecord(a'.ps[sid], a'.ps[tid], K)
    ensures K == J.(state := K.state, structureEpoch := K.structureEpoch, orderHead := K.orderHead, bins := K.bins, fragmentBytes := K.fragmentBytes)
  {
  }

  lemma MergeRefusalAgrees(a: Snap, b: Snap, sid: nat, tid: nat)
    requires UpToPauses(a, b, sid, tid)
    ensures MergeRefusal(a.ps, sid, tid) == MergeRefusal(b.ps, sid, tid) && |b.ps| == |a.ps| && b.abs == a.abs && b.stack == a.stack && b.seg == a.seg
    ensures forall p :: 0 <= p < |a.ps| && p != sid && p != tid ==> b.ps[p] == a.ps[p]
    ensures tid < |a.ps| ==> b.ps[tid].structureEpoch == a.ps[tid].structureEpoch
  {
  }

  lemma MergeOutcomesAgree(a: Snap, a': Snap, b: Snap, b': Snap, sid: nat, tid: nat, st: Status, st': Status, bs: seq<MB>, cs: seq<MB>, n: nat, n': nat)
    requires UpToPauses(a, a', sid, tid) && Consistent(b) && Consistent(b')
    requires MergeOutcome(a, b, sid, tid, st, bs, n) && MergeOutcome(a', b', sid, tid, st', cs, n')
    ensures st' == st && (st == Ok ==> Agree(b, b')) && (st != Ok ==> b == a && b' == a')
  {
    hide Inv, MergeDone, MergeRecord, MergeDescs, PoolStart, UpToPauses, SameRecord, SameShape, Agree, PoolOk, MergeRefusal, ZeroPool, IsBelow, LowerOf;
    MergeRefusalAgrees(a, a', sid, tid);
    if st == Ok {
      MergeBlocksAgree(a, a', b, b', sid, tid, bs, cs, n, n');
      MergedOnce(a.ds, b.ds, b'.ds, bs, PoolStart(LowerOf(a.ps[sid], a.ps[tid]), a.seg), n, IsBelow(a.ps[sid], a.ps[tid]), tid);
      JointRecords(a, a', sid, tid, b.ps[tid], b'.ps[tid]);
      PoolAt(b, tid);
      PoolAt(b', tid);
      RecordsAgree(b.z, b'.z, b.ps[tid], b'.ps[tid], b.ds, tid, b.abs[tid], b'.abs[tid], a.seg);
      Alike(b.ps[tid], b'.ps[tid]);
      Reflexive(b.ps[sid]);
      OneShape(b.abs[sid]);
      PairAgrees(a, a', b, b', sid, tid);
    }
  }

  lemma OneShape(A: APool)
    ensures SameShape(A, A)
  {
  }

  // The same for merge, whichever of its two pools are paused.
  method MergePaused(g: GlobalState, h: GlobalState, sid: nat, tid: nat, pauseSource: bool, pauseTarget: bool)
      returns (paused: Status, paused': Status, st: Status, st': Status)
    requires g.Valid() && h.Valid() && Twins(g, h)
    modifies g, g.zone, g.pools, g.objects, h, h.zone, h.pools, h.objects
    ensures g.Valid() && h.Valid() && st' == st
    ensures pauseSource ==> (paused == Ok <==> sid < |old(h.pools[..])| && old(h.pools[..])[sid].state == Running)
    ensures pauseTarget && tid != sid ==> (paused' == Ok <==> tid < |old(h.pools[..])| && old(h.pools[..])[tid].state == Running)
    ensures st == Ok ==> Agree(SnapOf(g), SnapOf(h))
    ensures st != Ok ==> SnapOf(g) == old(SnapOf(g)) && UpToPauses(old(SnapOf(h)), SnapOf(h), sid, tid)
  {
    hide Inv, MergeOutcome, Agree, UpToPauses;
    ghost var a := SnapOf(g);
    PausedNot(a, sid);
    paused, paused' := Busy, Busy;
    if pauseSource { paused := Pause(h, sid); }
    ghost var a1 := SnapOf(h);
    PausedNot(a1, tid);
    if pauseTarget { paused' := Pause(h, tid); }
    ghost var a' := SnapOf(h);
    PausedTwice(a, a1, a', sid, tid);
    ghost var bs, cs, n, n';
    st, bs, n := MergeOnce(g, sid, tid);
    st', cs, n' := MergeOnce(h, sid, tid);
    MergeOutcomesAgree(a, a', SnapOf(g), SnapOf(h), sid, tid, st, st', bs, cs, n, n');
  }
}
