/** Concrete runs that reach the states where code and documentation part. */
module Scenarios {
  import opened Base
  import opened Lists
  import opened SizeClass
  import opened Bins
  import opened Layout
  import opened BoundaryTags
  import opened PoolHeap
  import opened Objects
  import opened State
  import opened Init
  import opened AllocOp
  import opened FreeOp
  import opened Blocks
  import opened Moves
  import opened Plan
  import opened Relocate
  import opened CompactOp
  import opened CompactProps
  import opened SplitPlan
  import opened SplitOp
  import opened Pools
  import opened Validate
  import opened Survival

  // ---- single steps on layouts --------------------------------------------------------------------

  // Carving the front of a free block.
  lemma CarvedIs(z: seq<u32>, L: Lay, s: nat, e: nat, o: nat, need: nat, slot: nat)
    requires LayoutInv(z, L, s, e) && o in L && L[o].kind.Free? && 0 < need && need + MIN_BLOCK <= L[o].size
    ensures AfterAlloc(L, o, need, slot) == L[o := Blk(need, Live(slot))][o + need := Blk(L[o].size - need, Free)]
  {
    AloneIn(z, L, s, e, o);
  }

  // Without a free block below, the freed stretch starts at the block.
  lemma NothingBelow(z: seq<u32>, L: Lay, s: nat, e: nat, o: nat)
    requires LayoutInv(z, L, s, e) && o in L && L[o].kind.Live?
    requires forall p :: p in L && End(L, p) == o ==> !L[p].kind.Free?
    ensures o + 4 < |z| && MergeLo(z, L, o) == o
  {
    hide Coalesced, Shaped, HeadersOk;
    PrevSizeMeaning(z, L, s, e, o);
  }

  // Freeing a block without free neighbours.
  lemma FreedAlone(z: seq<u32>, L: Lay, s: nat, e: nat, o: nat)
    requires LayoutInv(z, L, s, e) && o in L && L[o].kind.Live?
    requires forall p :: p in L && End(L, p) == o ==> !L[p].kind.Free?
    requires End(L, o) in L ==> !L[End(L, o)].kind.Free?
    ensures o + 4 < |z| && AfterFree(z, L, o) == L[o := Blk(L[o].size, Free)]
  {
    hide LayoutInv, MergeLo;
    NothingBelow(z, L, s, e, o);
    MergeMembers(z, L, s, e, o);
  }

  // Freeing a block whose successor is free.
  lemma FreedBeforeFree(z: seq<u32>, L: Lay, s: nat, e: nat, o: nat)
    requires LayoutInv(z, L, s, e) && o in L && L[o].kind.Live?
    requires forall p :: p in L && End(L, p) == o ==> !L[p].kind.Free?
    requires End(L, o) in L && L[End(L, o)].kind.Free?
    ensures o + 4 < |z| && AfterFree(z, L, o) == (L - {End(L, o)})[o := Blk(L[o].size + L[End(L, o)].size, Free)]
  {
    hide LayoutInv, MergeLo;
    NothingBelow(z, L, s, e, o);
    MergeMembers(z, L, s, e, o);
  }

  // ---- single calls -----------------------------------------------------------------------------------

  // Objects other than x keep everything but their list links.
  ghost predicate OthersKept(ds: seq<ObjectDesc>, ds': seq<ObjectDesc>, x: nat) {
    && |ds'| == |ds|
    && (forall k :: 0 <= k < |ds| && k != x && ds[k].state.LiveObj? ==> ds'[k] == ds[k].(addrPrev := ds'[k].addrPrev, addrNext := ds'[k].addrNext))
  }

  // Pool p runs over n segments from `first` with layout L.
  ghost predicate RunsAt(g: GlobalState, p: nat, first: nat, n: nat, L: Lay)
    reads g, g.zone, g.pools, g.objects
  {
    && g.Valid() && g.segmentSize == 1024 && g.pools.Length == 2 == |g.abs| && p < 2
    && g.pools[p].state.Running? && g.pools[p].segmentFirst == first && g.pools[p].segmentCount == n && g.pools[p].borrowCount == 0
    && g.abs[p].L == L
  }

  // Pool 0 runs over the first n segments with layout L.
  ghost predicate Runs(g: GlobalState, n: nat, L: Lay)
    reads g, g.zone, g.pools, g.objects
  {
    RunsAt(g, 0, 0, n, L)
  }

  // The object that r was handed out for lies in pool p, at block `off`.
  predicate PlacedIn(d: ObjectDesc, r: RawRef, p: nat, off: nat, size: nat, pinned: bool) {
    && d.state.LiveObj? && d.generation == r.generation && d.poolId == p && d.address == off + HEADER && d.blockSize == size
    && d.activeBorrows == 0 && (PINNED in d.flags <==> pinned)
  }

  lemma Whole(n: nat)
    requires n <= 16
    ensures SegOff(0, 1024) == 0 && SegOff(n, 1024) == 1024 * n
  {
  }

  method Start(n: u16, maxObjects: nat) returns (g: GlobalState)
    requires 1 <= n <= 16 && 1 <= maxObjects < 0xFFFF
    ensures fresh(g) && fresh(g.zone) && fresh(g.pools) && fresh(g.objects)
    ensures Runs(g, n, map[0 := Blk(1024 * n, Free)]) && g.pools[1].state.Empty?
    ensures g.objects.Length == |g.stack| == maxObjects && g.abs[0].order == []
  {
    hide Inv;
    assert PowerOfTwo(1024) by { PowersOfTwo(); }
    hide PowerOfTwo;
    Whole(n);
    var st, g0 := InitZone(true, 1024 * n, 1024, 16, 2, maxObjects);
    g := g0;
    NothingThere(g.pools[..], n);
    ghost var ps := g.pools[..];
    InvLengths(g.zone[..], ps, g.objects[..], g.freeSlotHead, g.segmentSize, g.segmentCount, g.zoneSize, g.abs, g.stack);
    var out;
    ghost var base;
    assert FreeRun(ps, 0, n);
    st, out, base := CreatePool(g, n);
    assert base == 0;
  }

  lemma NothingThere(ps: seq<Pool>, n: nat)
    requires |ps| == 2 && forall p :: 0 <= p < 2 ==> ps[p] == ZeroPool()
    ensures FreeRun(ps, 0, n) && FirstEmpty(ps) == 0
  {
  }

  lemma OneFree(L: Lay, o: nat, need: nat)
    requires o in L && L[o].kind.Free? && need <= L[o].size && forall k :: k in L && L[k].kind.Free? ==> k == o
    ensures FreeMap(L) == map[o := L[o].size] && AllocFits(FreeMap(L), need)
  {
    assert o in FreeMap(L);
  }

  lemma OnlyFit(lists: seq<seq<nat>>, L: Lay, need: nat, blk: nat, o: nat)
    requires o in L && |lists| == NBINS && FirstFit(lists, FreeMap(L), need, blk) && FreeMap(L) == map[o := L[o].size]
    ensures blk == o
  {
    FirstFitIn(lists, FreeMap(L), need, blk);
  }

  // alloc from the only free block of pool 0.
  method Take(g: GlobalState, n: nat, size: u32, flags: set<Flag>, ghost L: Lay, ghost o: nat) returns (r: RawRef)
    requires Runs(g, n, L) && g.stack != [] && 0 < size && UNKNOWN !in flags && NeedOf(size) < ZONE_LIMIT
    requires o in L && L[o].kind.Free? && NeedOf(size) + MIN_BLOCK <= L[o].size && forall k :: k in L && L[k].kind.Free? ==> k == o
    modifies g, g.zone, g.pools, g.objects
    ensures Runs(g, n, L[o := Blk(NeedOf(size), Live(r.index))][o + NeedOf(size) := Blk(L[o].size - NeedOf(size), Free)])
    ensures |g.stack| == |old(g.stack)| - 1 && g.pools[1] == old(g.pools[1]) && g.abs[0].order == [r.index as nat] + old(g.abs[0].order)
    ensures r.index < g.objects.Length && !old(g.objects[..])[r.index].state.LiveObj?
    ensures OthersKept(old(g.objects[..]), g.objects[..], r.index)
    ensures PlacedIn(g.objects[r.index], r, 0, o, NeedOf(size), PINNED in Pinning(flags))
  {
    hide Inv, AllocEffect, AllocRecords, OnlyPoolChanged, NeedOf, FreeMap, LayoutInv, AfterAlloc, LivePayloadKept, OutsideKept, AllocFits, Pinning;
    ghost var a := SnapOf(g);
    OneFree(L, o, NeedOf(size));
    var st;
    ghost var blk;
    st, r, blk := Alloc(g, 0, size, 1, flags, 0);
    ghost var b := SnapOf(g);
    CarvedLayout(a.z, a.ps, a.ds, a.head, a.seg, a.segCount, a.zoneSize, a.abs, a.stack, 0);
    InvLengths(b.z, b.ps, b.ds, b.head, b.seg, b.segCount, b.zoneSize, b.abs, b.stack);
    TakenFrom(a, b, L, o, NeedOf(size), r, blk, size, Pinning(flags));
    TakenStack(a, r.index);
  }

  lemma TakenStack(a: Snap, slot: nat)
    requires Consistent(a) && a.stack != [] && slot == a.stack[0]
    ensures slot < |a.ds| && !a.ds[slot].state.LiveObj?
  {
    hide PoolSlotOk;
  }

  lemma TakenFrom(a: Snap, b: Snap, L: Lay, o: nat, need: nat, r: RawRef, blk: nat, size: u32, flags: set<Flag>)
    requires Consistent(b) && |a.abs| == 2 == |b.abs| && |a.ps| == 2 == |b.ps| && a.abs[0].L == L && o in L && 0 < need && need + MIN_BLOCK <= L[o].size
    requires L[o].kind.Free? && FreeMap(L) == map[o := L[o].size] && LayoutInv(a.z, L, PoolStart(a.ps[0], a.seg), PoolEnd(a.ps[0], a.seg))
    requires AllocEffect(a.abs[0], b.abs[0], need, r.index, blk) && OnlyPoolChanged(a.abs, b.abs, a.ps, b.ps, 0)
    requires AllocRecords(a.ps, b.ps, a.ds, b.ds, 0, r.index, NewDesc(blk, size, 0, 0, flags, r.generation)) && r.poolHint == 0 && r.offset == 0
    ensures b.abs[0].L == L[o := Blk(need, Live(r.index))][o + need := Blk(L[o].size - need, Free)]
    ensures b.abs[0].order == [r.index as nat] + a.abs[0].order && b.ps[1] == a.ps[1]
    ensures b.ps[0].state == a.ps[0].state && b.ps[0].segmentFirst == a.ps[0].segmentFirst && b.ps[0].segmentCount == a.ps[0].segmentCount && b.ps[0].borrowCount == a.ps[0].borrowCount
    ensures OthersKept(a.ds, b.ds, r.index) && r.index < |b.ds| && PlacedIn(b.ds[r.index], r, 0, o, need, PINNED in flags)
  {
    hide Inv, FirstFit, LayoutInv, AfterAlloc, FreeMap, PoolStart, PoolEnd;
    OnlyFit(a.abs[0].lists, L, need, blk, o);
    CarvedIs(a.z, L, PoolStart(a.ps[0], a.seg), PoolEnd(a.ps[0], a.seg), o, need, r.index);
    Home(b, r.index);
  }

  // free through a cross-pool reference.
  method Give(g: GlobalState, p: u16, first: nat, n: nat, r: RawRef, ghost L: Lay, ghost o: nat, ghost size: nat, ghost pinned: bool)
    requires RunsAt(g, p, first, n, L) && r.index < g.objects.Length && PlacedIn(g.objects[r.index], r, p, o, size, pinned)
    requires forall k :: k in L && End(L, k) == o ==> !L[k].kind.Free?
    modifies g, g.zone, g.pools, g.objects
    ensures o in L && L[o] == Blk(size, Live(r.index))
    ensures RunsAt(g, p, first, n, if End(L, o) in L && L[End(L, o)].kind.Free?
                                   then (L - {End(L, o)})[o := Blk(size + L[End(L, o)].size, Free)] else L[o := Blk(size, Free)])
    ensures |g.stack| == |old(g.stack)| + 1 && g.pools[1 - p] == old(g.pools[1 - p])
    ensures r.index as nat in old(g.abs[p].order) && g.abs[p].order == Without(old(g.abs[p].order), IndexOf(old(g.abs[p].order), r.index))
    ensures OthersKept(old(g.objects[..]), g.objects[..], r.index) && !g.objects[r.index].state.LiveObj?
  {
    hide Inv, OnlyPoolChanged, LayoutInv, AfterFree, LivePayloadKept, OutsideKept, FreeStatus, FreedObject, IndexOf, Without;
    ghost var a := SnapOf(g);
    Home(a, r.index);
    CarvedLayout(a.z, a.ps, a.ds, a.head, a.seg, a.segCount, a.zoneSize, a.abs, a.stack, p);
    if End(L, o) in L && L[End(L, o)].kind.Free? {
      FreedBeforeFree(a.z, L, PoolStart(a.ps[p], a.seg), PoolEnd(a.ps[p], a.seg), o);
    } else {
      FreedAlone(a.z, L, PoolStart(a.ps[p], a.seg), PoolEnd(a.ps[p], a.seg), o);
    }
    var st := FreeObject(g, RawRef(r.index, r.generation, CROSS_HINT, 0));
    GivenBack(a, SnapOf(g), r.index, p, o);
  }

  lemma GivenBack(a: Snap, b: Snap, slot: nat, p: nat, o: nat)
    requires |a.abs| == 2 && |a.ps| == 2 && p < 2 && slot < |a.ds| && a.ds[slot].poolId == p && a.ds[slot].address == o + HEADER
    requires FreedObject(a.z, b.z, a.ps, b.ps, a.ds, b.ds, a.abs, b.abs, a.seg, slot)
    ensures |b.abs| == 2 && |b.ps| == 2 && o in a.abs[p].L && o + 4 < |a.z| && b.abs[p].L == AfterFree(a.z, a.abs[p].L, o)
    ensures slot in a.abs[p].order && b.abs[p].order == Without(a.abs[p].order, IndexOf(a.abs[p].order, slot)) && b.ps[1 - p] == a.ps[1 - p]
    ensures b.ps[p].state == a.ps[p].state && b.ps[p].segmentFirst == a.ps[p].segmentFirst && b.ps[p].segmentCount == a.ps[p].segmentCount && b.ps[p].borrowCount == a.ps[p].borrowCount
    ensures OthersKept(a.ds, b.ds, slot) && !b.ds[slot].state.LiveObj?
  {
    hide AfterFree, LivePayloadKept, OutsideKept, IndexOf, Without, NextGeneration;
  }

  // ---- a budget that stops at a block in place --------------------------------------------------------

  lemma Sizes()
    ensures NeedOf(8) == 16 && NeedOf(16) == 24 && NeedOf(24) == 32 && NeedOf(40) == 48 && NeedOf(992) == 1000
    ensures PINNED !in Pinning({}) && PINNED in Pinning({PINNED})
  {
  }

  ghost function Hole2(x: nat, y: nat): Lay {
    map[0 := Blk(24, Live(x)), 24 := Blk(16, Live(y)), 40 := Blk(984, Free)]
  }

  ghost function Hole3(x: nat, y: nat, u: nat): Lay {
    map[0 := Blk(24, Live(x)), 24 := Blk(16, Live(y)), 40 := Blk(16, Live(u)), 56 := Blk(968, Free)]
  }

  lemma HoleLays(x: nat, y: nat, u: nat)
    ensures Hole2(x, y) == map[0 := Blk(24, Live(x)), 24 := Blk(1000, Free)][24 := Blk(16, Live(y))][40 := Blk(984, Free)]
    ensures 40 in Hole2(x, y) && Hole2(x, y)[40] == Blk(984, Free) && forall k :: k in Hole2(x, y) && Hole2(x, y)[k].kind.Free? ==> k == 40
    ensures Hole3(x, y, u) == Hole2(x, y)[40 := Blk(16, Live(u))][56 := Blk(968, Free)]
    ensures 24 in Hole3(x, y, u) && forall k :: k in Hole3(x, y, u) && End(Hole3(x, y, u), k) == 24 ==> !Hole3(x, y, u)[k].kind.Free?
    ensures End(Hole3(x, y, u), 24) == 40 && 40 in Hole3(x, y, u) && !Hole3(x, y, u)[40].kind.Free?
    ensures Hole3(x, y, u)[24 := Blk(16, Free)] == map[0 := Blk(24, Live(x)), 24 := Blk(16, Free), 40 := Blk(16, Live(u)), 56 := Blk(968, Free)]
  {
  }

  lemma WithoutSecond(x: nat, y: nat, u: nat)
    requires x != y
    ensures IndexOf([x, y, u], y) == 1 && Without([x, y, u], 1) == [x, u]
  {
  }

  method TwoSmall() returns (g: GlobalState, r0: RawRef, r1: RawRef)
    ensures fresh(g) && fresh(g.zone) && fresh(g.pools) && fresh(g.objects)
    ensures r0.index != r1.index && r0.index < g.objects.Length && r1.index < g.objects.Length && |g.stack| == 2
    ensures Runs(g, 1, Hole2(r0.index, r1.index)) && g.abs[0].order == [r1.index as nat, r0.index as nat]
    ensures PlacedIn(g.objects[r0.index], r0, 0, 0, 24, false) && PlacedIn(g.objects[r1.index], r1, 0, 24, 16, false)
  {
    hide Inv, NeedOf, Pinning, Hole2, Hole3, End;
    Sizes();
    g := Start(1, 4);
    ghost var L0: Lay := map[0 := Blk(1024, Free)];
    r0 := Take(g, 1, 16, {}, L0, 0);
    ghost var L1: Lay := map[0 := Blk(24, Live(r0.index)), 24 := Blk(1000, Free)];
    assert g.abs[0].L == L1;
    r1 := Take(g, 1, 8, {}, L1, 24);
    HoleLays(r0.index, r1.index, 0);
  }

  // Three small objects with a freed one between them.
  method HoleScenario() returns (g: GlobalState, r0: RawRef, r2: RawRef)
    ensures fresh(g) && fresh(g.zone) && fresh(g.pools) && fresh(g.objects)
    ensures r0.index != r2.index && r0.index < g.objects.Length && r2.index < g.objects.Length
    ensures Runs(g, 1, map[0 := Blk(24, Live(r0.index)), 24 := Blk(16, Free), 40 := Blk(16, Live(r2.index)), 56 := Blk(968, Free)])
    ensures PlacedIn(g.objects[r0.index], r0, 0, 0, 24, false) && PlacedIn(g.objects[r2.index], r2, 0, 40, 16, false)
    ensures g.abs[0].order == [r2.index as nat, r0.index as nat]
  {
    hide Inv, NeedOf, Pinning, Hole2, Hole3, End, IndexOf, Without;
    Sizes();
    var r1;
    g, r0, r1 := TwoSmall();
    HoleLays(r0.index, r1.index, 0);
    r2 := Take(g, 1, 8, {}, Hole2(r0.index, r1.index), 40);
    HoleLays(r0.index, r1.index, r2.index);
    ghost var order := g.abs[0].order;
    assert order == [r2.index as nat, r1.index as nat, r0.index as nat];
    WithoutSecond(r2.index, r1.index, r0.index);
    Give(g, 0, 0, 1, r1, Hole3(r0.index, r1.index, r2.index), 24, 16, false);
  }

  // The address-ordered blocks of that pool.
  lemma HoleBlocks(z: seq<u32>, ds: seq<ObjectDesc>, order: seq<nat>, r0: RawRef, r2: RawRef, bs: seq<MB>)
    requires r0.index != r2.index && r0.index < |ds| && r2.index < |ds| && order == [r2.index as nat, r0.index as nat]
    requires PlacedIn(ds[r0.index], r0, 0, 0, 24, false) && PlacedIn(ds[r2.index], r2, 0, 40, 16, false)
    requires ListBlocks(ds, order, bs) && Ordered(bs, 0, 1024)
    ensures bs == [MB(r0.index, 0, 24, false), MB(r2.index, 40, 16, false)]
  {
    var cs := [MB(r0.index, 0, 24, false), MB(r2.index, 40, 16, false)];
    assert Blocked(cs, r0.index) by { assert cs[0].slot == r0.index; }
    assert Blocked(cs, r2.index) by { assert cs[1].slot == r2.index; }
    assert ListBlocks(ds, order, cs);
    assert Ordered(cs, 0, 1024);
    BlocksUnique(ds, order, bs, cs, 0, 1024);
  }

  lemma CompactedHole(a: Snap, b: Snap, r0: RawRef, r2: RawRef, bs: seq<MB>, cut: Cut)
    requires |a.ps| == 2 == |b.ps| && |a.abs| == 2 == |b.abs| && a.seg == 1024 && a.ps[0].segmentFirst == 0 && a.ps[0].segmentCount == 1
    requires Compacted(a.z, b.z, a.ps[0], b.ps[0], a.ds, b.ds, a.abs[0], b.abs[0], a.seg, bs, cut.at)
    requires cut == Scan(bs, PoolStart(b.ps[0], 1024), PoolEnd(b.ps[0], 1024), Limits(0, 16, 0), 0, 0, 0)
    requires r0.index != r2.index && r0.index < |a.ds| && r2.index < |a.ds| && a.abs[0].order == [r2.index as nat, r0.index as nat]
    requires PlacedIn(a.ds[r0.index], r0, 0, 0, 24, false) && PlacedIn(a.ds[r2.index], r2, 0, 40, 16, false)
    ensures bs == [MB(r0.index, 0, 24, false), MB(r2.index, 40, 16, false)] && b.ps[0].objectsMoved == 0 && b.ps[0].bytesMoved == 0
    ensures ListBlocks(b.ds, b.abs[0].order, bs)
  {
    hide Ordered, ListBlocks, Relocated, PayloadMoved, OutsideKept, CanonFull, DistinctSlots, Scan, PlacedIn;
    Whole(1);
    HoleBlocks(a.z, a.ds, a.abs[0].order, r0, r2, bs);
    BudgetStopsInPlace(r0.index, r2.index);
    RelocatedListing(a.ds, b.ds, a.abs[0].order, bs, CutDst(bs, 0, 0));
    assert Placed(bs, CutDst(bs, 0, 0)) == bs;
  }

  // compact with a budget of 16 bytes moves nothing, though one block of 16 bytes could move
  // into the hole below it: the block in place comes first and is larger than the budget.
  method BudgetScenario() returns (g: GlobalState, st: Status, met: bool, ghost bs: seq<MB>)
    ensures fresh(g) && fresh(g.zone) && fresh(g.pools) && fresh(g.objects)
    ensures g.Valid() && st == Ok && g.pools.Length == 2 && g.pools[0].objectsMoved == 0 && g.pools[0].bytesMoved == 0
    ensures |bs| == 2 && ListBlocks(g.objects[..], g.abs[0].order, bs)
    ensures Short(bs, 0, 1024, Limits(0, 16, 0), 0) && !bs[1].pinned && bs[1].size == 16 && DstAt(bs, 0, 1) < bs[1].off
    ensures ScanBeforeMoves(bs, 0, 1024, Limits(0, 16, 0), 0, 0, 0) == Cut(2, false)
  {
    hide Inv, Compacted, OnlyPoolChanged, Scan, ScanBeforeMoves, Short, DstAt;
    var r0, r2;
    g, r0, r2 := HoleScenario();
    ValidIsSized(g);
    Whole(1);
    ghost var a := SnapOf(g);
    ghost var cut;
    st, met, bs, cut := Compact(g, 0, Request(0, 0, 16, 0));
    InvLengths(g.zone[..], g.pools[..], g.objects[..], g.freeSlotHead, g.segmentSize, g.segmentCount, g.zoneSize, g.abs, g.stack);
    CompactedHole(a, SnapOf(g), r0, r2, bs, cut);
    BudgetStopsInPlace(r0.index, r2.index);
  }

  // ---- two free blocks and no live one ------------------------------------------------------------------

  ghost function Lay2(x: nat, y: nat): Lay {
    map[0 := Blk(1000, Live(x)), 1000 := Blk(48, Live(y)), 1048 := Blk(1000, Free)]
  }

  ghost function Lay3(x: nat, y: nat, u: nat): Lay {
    map[0 := Blk(1000, Live(x)), 1000 := Blk(48, Live(y)), 1048 := Blk(32, Live(u)), 1080 := Blk(968, Free)]
  }

  ghost function Lay4(x: nat, y: nat, u: nat, v: nat): Lay {
    map[0 := Blk(1000, Live(x)), 1000 := Blk(48, Live(y)), 1048 := Blk(32, Live(u)), 1080 := Blk(24, Live(v)), 1104 := Blk(944, Free)]
  }

  lemma LayFree(x: nat, y: nat, u: nat, v: nat)
    ensures forall k :: k in Lay2(x, y) && Lay2(x, y)[k].kind.Free? ==> k == 1048
    ensures forall k :: k in Lay3(x, y, u) && Lay3(x, y, u)[k].kind.Free? ==> k == 1080
    ensures Lay3(x, y, u) == Lay2(x, y)[1048 := Blk(32, Live(u))][1080 := Blk(968, Free)]
    ensures Lay4(x, y, u, v) == Lay3(x, y, u)[1080 := Blk(24, Live(v))][1104 := Blk(944, Free)]
    ensures forall k :: k in Lay4(x, y, u, v) && End(Lay4(x, y, u, v), k) == 1048 ==> !Lay4(x, y, u, v)[k].kind.Free?
  {
  }

  // Two objects of 1000 and 48 bytes, the second across the boundary of the two segments.
  method TwoObjects() returns (g: GlobalState, r0: RawRef, r1: RawRef)
    ensures fresh(g) && fresh(g.zone) && fresh(g.pools) && fresh(g.objects)
    ensures r0.index != r1.index && r0.index < g.objects.Length && r1.index < g.objects.Length == 4 && |g.stack| == 2
    ensures Runs(g, 2, Lay2(r0.index, r1.index)) && g.abs[0].order == [r1.index as nat, r0.index as nat] && g.pools[1].state.Empty?
    ensures PlacedIn(g.objects[r0.index], r0, 0, 0, 1000, false) && PlacedIn(g.objects[r1.index], r1, 0, 1000, 48, false)
  {
    hide Inv, NeedOf, Pinning;
    Sizes();
    g := Start(2, 4);
    ghost var L0: Lay := map[0 := Blk(2048, Free)];
    r0 := Take(g, 2, 992, {}, L0, 0);
    ghost var L1: Lay := map[0 := Blk(1000, Live(r0.index)), 1000 := Blk(1048, Free)];
    assert g.abs[0].L == L1;
    r1 := Take(g, 2, 40, {}, L1, 1000);
    assert g.abs[0].L == Lay2(r0.index, r1.index);
  }

  // ... and one of 32 bytes.
  method ThreeObjects() returns (g: GlobalState, r0: RawRef, r1: RawRef, r2: RawRef)
    ensures fresh(g) && fresh(g.zone) && fresh(g.pools) && fresh(g.objects)
    ensures r0.index != r1.index && r0.index != r2.index && r1.index != r2.index
    ensures r0.index < g.objects.Length && r1.index < g.objects.Length && r2.index < g.objects.Length && |g.stack| == 1
    ensures Runs(g, 2, Lay3(r0.index, r1.index, r2.index)) && g.pools[1].state.Empty?
    ensures g.abs[0].order == [r2.index as nat, r1.index as nat, r0.index as nat]
    ensures PlacedIn(g.objects[r0.index], r0, 0, 0, 1000, false) && PlacedIn(g.objects[r1.index], r1, 0, 1000, 48, false)
    ensures PlacedIn(g.objects[r2.index], r2, 0, 1048, 32, false)
  {
    hide Inv, NeedOf, Pinning, Lay2, Lay3, Lay4, End;
    Sizes();
    g, r0, r1 := TwoObjects();
    LayShapes(r0.index, r1.index);
    LayFree(r0.index, r1.index, 0, 0);
    r2 := Take(g, 2, 24, {}, Lay2(r0.index, r1.index), 1048);
    LayFree(r0.index, r1.index, r2.index, 0);
  }

  // ... then a pinned one behind it, and the third is freed.
  method CrossingScenario() returns (g: GlobalState, r0: RawRef, r1: RawRef, r3: RawRef)
    ensures fresh(g) && fresh(g.zone) && fresh(g.pools) && fresh(g.objects)
    ensures r0.index != r1.index && r0.index != r3.index && r1.index != r3.index
    ensures r0.index < g.objects.Length && r1.index < g.objects.Length && r3.index < g.objects.Length
    ensures |g.abs| == 2 && Runs(g, 2, g.abs[0].L)
    ensures PlacedIn(g.objects[r0.index], r0, 0, 0, 1000, false) && PlacedIn(g.objects[r1.index], r1, 0, 1000, 48, false)
    ensures PlacedIn(g.objects[r3.index], r3, 0, 1080, 24, true)
    ensures g.pools.Length == |g.abs| == 2 && g.abs[0].order == [r3.index as nat, r1.index as nat, r0.index as nat] && g.pools[1].state.Empty?
  {
    hide Inv, NeedOf, Pinning, Lay2, Lay3, Lay4, End, IndexOf, Without;
    Sizes();
    var r2;
    g, r0, r1, r2 := ThreeObjects();
    LayShapes(r0.index, r1.index);
    LayFree(r0.index, r1.index, r2.index, 0);
    r3 := Take(g, 2, 16, {PINNED}, Lay3(r0.index, r1.index, r2.index), 1080);
    LayFree(r0.index, r1.index, r2.index, r3.index);
    ghost var order := g.abs[0].order;
    assert order == [r3.index as nat, r2.index as nat, r1.index as nat, r0.index as nat];
    WithoutMiddle(r3.index, r2.index, r1.index, r0.index);
    Give(g, 0, 0, 2, r2, Lay4(r0.index, r1.index, r2.index, r3.index), 1048, 32, false);
  }

  lemma LayShapes(x: nat, y: nat)
    ensures 1048 in Lay2(x, y) && Lay2(x, y)[1048] == Blk(1000, Free)
    ensures forall u :: 1080 in Lay3(x, y, u) && Lay3(x, y, u)[1080] == Blk(968, Free)
  {
  }

  lemma WithoutMiddle(x: nat, y: nat, u: nat, v: nat)
    requires x != y
    ensures IndexOf([x, y, u, v], y) == 1 && Without([x, y, u, v], 1) == [x, u, v]
  {
  }

  lemma CrossingBlocks(ds: seq<ObjectDesc>, order: seq<nat>, r0: RawRef, r1: RawRef, r3: RawRef, bs: seq<MB>)
    requires r0.index != r1.index && r0.index != r3.index && r1.index != r3.index
    requires r0.index < |ds| && r1.index < |ds| && r3.index < |ds| && order == [r3.index as nat, r1.index as nat, r0.index as nat]
    requires PlacedIn(ds[r0.index], r0, 0, 0, 1000, false) && PlacedIn(ds[r1.index], r1, 0, 1000, 48, false) && PlacedIn(ds[r3.index], r3, 0, 1080, 24, true)
    requires ListBlocks(ds, order, bs) && Ordered(bs, 0, 2048)
    ensures bs == [MB(r0.index, 0, 1000, false), MB(r1.index, 1000, 48, false), MB(r3.index, 1080, 24, true)]
  {
    var cs := [MB(r0.index, 0, 1000, false), MB(r1.index, 1000, 48, false), MB(r3.index, 1080, 24, true)];
    assert Blocked(cs, r0.index) by { assert cs[0].slot == r0.index; }
    assert Blocked(cs, r1.index) by { assert cs[1].slot == r1.index; }
    assert Blocked(cs, r3.index) by { assert cs[2].slot == r3.index; }
    assert ListBlocks(ds, order, cs);
    assert Ordered(cs, 0, 2048);
    BlocksUnique(ds, order, bs, cs, 0, 2048);
  }

  // What the split plan makes of these blocks: the crossing block goes to the boundary, 8 bytes
  // below the pinned one.
  lemma CrossingPlan(x: nat, y: nat, p: nat)
    ensures var bs := [MB(x, 0, 1000, false), MB(y, 1000, 48, false), MB(p, 1080, 24, true)];
            && LowerCount(bs, 1024) == 1 && SplitDst(bs, 0, 1024, 1) == [0, 1024, 1080]
            && SplitVerdict(bs[1..], 1024, 2048) == Ok
            && Placed(bs, SplitDst(bs, 0, 1024, 1))[1..] == [MB(y, 1024, 48, false), MB(p, 1080, 24, true)]
            && CanonFull([MB(y, 1024, 48, false), MB(p, 1080, 24, true)], 1024, 2048) ==
               map[1024 := Blk(48, Live(y)), 1072 := Blk(8, Slack), 1080 := Blk(24, Live(p)), 1104 := Blk(944, Free)]
  {
    var bs := [MB(x, 0, 1000, false), MB(y, 1000, 48, false), MB(p, 1080, 24, true)];
    var us := bs[1..];
    assert us == [MB(y, 1000, 48, false), MB(p, 1080, 24, true)];
    assert us[1..] == [MB(p, 1080, 24, true)];
    assert bs[1..][1..] == us[1..];
    assert !IsUpper(bs[0], 1024) && IsUpper(us[0], 1024);
    assert bs[..2] == [MB(x, 0, 1000, false), MB(y, 1000, 48, false)] && bs[..2][..1] == [MB(x, 0, 1000, false)];
    assert LowerCount(bs[..2][..1], 1024) == 1 && LowerCount(bs[..2], 1024) == 1 && LowerCount(bs, 1024) == 1;
    assert FirstPin(us) == 1;
    assert us[..1] == [MB(y, 1000, 48, false)] && SumSizes(us[..1]) == 48;
    assert DstAt(us, 1024, 0) == 1024 && DstAt(us, 1024, 1) == 1080 && DstAt(bs, 0, 0) == 0;
    assert SplitDst(bs, 0, 1024, 1) == [0, 1024, 1080];
    CrossingCanon(y, p);
  }

  lemma CrossingCanon(y: nat, p: nat)
    ensures CanonFull([MB(y, 1024, 48, false), MB(p, 1080, 24, true)], 1024, 2048) ==
            map[1024 := Blk(48, Live(y)), 1072 := Blk(8, Slack), 1080 := Blk(24, Live(p)), 1104 := Blk(944, Free)]
  {
    var cs := [MB(y, 1024, 48, false), MB(p, 1080, 24, true)];
    assert cs[..1] == [MB(y, 1024, 48, false)] && cs[..1][..0] == [];
    assert Canon(cs[..1], 1024) == map[1024 := Blk(48, Live(y))];
    assert EndOf(cs[..1], 1024) == 1072 && Gap(1072, 1080) == map[1072 := Blk(8, Slack)];
    assert Canon(cs, 1024) == (Canon(cs[..1], 1024) + Gap(1072, 1080))[1080 := Blk(24, Live(p))];
    assert EndOf(cs, 1024) == 1104 && Gap(1104, 2048) == map[1104 := Blk(944, Free)];
  }

  lemma CrossingAllowed(ps: seq<Pool>)
    requires |ps| == 2 && ps[0].state.Running? && ps[0].borrowCount == 0 && ps[0].segmentCount == 2 && ps[1].state.Empty?
    ensures SplitRefusal(ps, 0, 1) == Ok && FirstEmpty(ps) == 1
  {
    assert ps[1..][0] == ps[1];
  }

  lemma CrossingWindow(P: Pool)
    requires P.segmentFirst == 0 && P.segmentCount == 2
    ensures PoolStart(P, 1024) == 0 && PoolEnd(P, 1024) == 2048 && Boundary(P, 1, 1024) == 1024
  {
    Whole(2);
    Whole(1);
  }

  lemma CrossingSplit(a: Snap, b: Snap, r0: RawRef, r1: RawRef, r3: RawRef, bs: seq<MB>)
    requires |a.ps| == 2 == |b.ps| && |a.abs| == 2 == |b.abs| && a.ps[0].segmentFirst == 0 && a.ps[0].segmentCount == 2
    requires r0.index != r1.index && r0.index != r3.index && r1.index != r3.index && r0.index < |a.ds| && r1.index < |a.ds| && r3.index < |a.ds|
    requires bs == [MB(r0.index, 0, 1000, false), MB(r1.index, 1000, 48, false), MB(r3.index, 1080, 24, true)]
    requires PlacedIn(a.ds[r1.index], r1, 0, 1000, 48, false) && PlacedIn(a.ds[r3.index], r3, 0, 1080, 24, true)
    requires SplitDone(a.z, b.z, a.ps[0], b.ps[0], b.ps[1], a.ds, b.ds, a.abs[0], b.abs[0], b.abs[1], 1024, bs, 1, 1)
    ensures b.abs[1].L == map[1024 := Blk(48, Live(r1.index)), 1072 := Blk(8, Slack), 1080 := Blk(24, Live(r3.index)), 1104 := Blk(944, Free)]
    ensures b.ps[1].segmentFirst == 1 && b.ps[1].segmentCount == 1 && b.ps[1].borrowCount == 0 && |b.ds| == |a.ds|
    ensures PlacedIn(b.ds[r1.index], r1, 1, 1024, 48, false) && PlacedIn(b.ds[r3.index], r3, 1, 1080, 24, true)
  {
    hide Ordered, ListBlocks, DistinctSlots, PayloadMoved, OutsideKept, CanonFull, SplitDescs, Placed, LowerCount, SplitDst, SlotsOf;
    CrossingWindow(a.ps[0]);
    CrossingPlan(r0.index, r1.index, r3.index);
    assert bs[1].slot == r1.index && bs[2].slot == r3.index;
    SplitBlockAt(a.ds, b.ds, bs, [0, 1024, 1080], 1, 1, 1);
    SplitBlockAt(a.ds, b.ds, bs, [0, 1024, 1080], 1, 1, 2);
    SplitFields(a.ds, b.ds, bs, [0, 1024, 1080], 1, 1, r1.index);
    SplitFields(a.ds, b.ds, bs, [0, 1024, 1080], 1, 1, r3.index);
  }

  // split the pool: the new one has slack between its two objects.
  method SplitScenario() returns (g: GlobalState, r1: RawRef, r3: RawRef)
    ensures fresh(g) && fresh(g.zone) && fresh(g.pools) && fresh(g.objects)
    ensures r1.index != r3.index && r1.index < g.objects.Length && r3.index < g.objects.Length
    ensures RunsAt(g, 1, 1, 1, map[1024 := Blk(48, Live(r1.index)), 1072 := Blk(8, Slack), 1080 := Blk(24, Live(r3.index)), 1104 := Blk(944, Free)])
    ensures PlacedIn(g.objects[r1.index], r1, 1, 1024, 48, false) && PlacedIn(g.objects[r3.index], r3, 1, 1080, 24, true)
  {
    hide Inv, SplitDone, SplitVerdict, LowerCount, ListBlocks, Ordered, PoolStart, PoolEnd, Boundary, FirstEmpty;
    var r0;
    g, r0, r1, r3 := CrossingScenario();
    ghost var a := SnapOf(g);
    ValidIsSized(g);
    ValidIsZeroed(g);
    CrossingAllowed(a.ps);
    CrossingWindow(a.ps[0]);
    var st, nid;
    ghost var bs;
    st, nid, bs := Split(g, 0, 1);
    CrossingBlocks(a.ds, a.abs[0].order, r0, r1, r3, bs);
    CrossingPlan(r0.index, r1.index, r3.index);
    CrossingSplit(a, SnapOf(g), r0, r1, r3, bs);
  }

  // Freeing both leaves two free blocks and no live one.
  method SlackScenario() returns (g: GlobalState)
    ensures fresh(g) && fresh(g.zone) && fresh(g.pools) && fresh(g.objects)
    ensures RunsAt(g, 1, 1, 1, map[1024 := Blk(48, Free), 1072 := Blk(8, Slack), 1080 := Blk(968, Free)])
    ensures var L := g.abs[1].L;
            KeysOf(L, TLive) == {} && KeysOf(L, TFree) == {1024, 1080} && |KeysOf(L, TFree)| > |KeysOf(L, TLive)| + 1
  {
    hide Inv, IndexOf, Without;
    var r1, r3;
    g, r1, r3 := SplitScenario();
    ghost var L1: Lay := map[1024 := Blk(48, Live(r1.index)), 1072 := Blk(8, Slack), 1080 := Blk(24, Live(r3.index)), 1104 := Blk(944, Free)];
    Give(g, 1, 1, 1, r1, L1, 1024, 48, false);
    ghost var L2: Lay := map[1024 := Blk(48, Free), 1072 := Blk(8, Slack), 1080 := Blk(24, Live(r3.index)), 1104 := Blk(944, Free)];
    assert g.abs[1].L == L2;
    Give(g, 1, 1, 1, r3, L2, 1080, 24, true);
    assert g.abs[1].L == map[1024 := Blk(48, Free), 1072 := Blk(8, Slack), 1080 := Blk(968, Free)];
    TwoFreeNoneLive();
  }

  lemma TwoFreeNoneLive()
    ensures var L: Lay := map[1024 := Blk(48, Free), 1072 := Blk(8, Slack), 1080 := Blk(968, Free)];
            KeysOf(L, TLive) == {} && KeysOf(L, TFree) == {1024, 1080} && |KeysOf(L, TFree)| > |KeysOf(L, TLive)| + 1
  {
    var L: Lay := map[1024 := Blk(48, Free), 1072 := Blk(8, Slack), 1080 := Blk(968, Free)];
    assert KeysOf(L, TFree) == {1024, 1080};
  }

  // ---- a consistent pool that validate refuses ------------------------------------------------------------

  // Three free blocks apart by two slack runs, and no live block.
  ghost function ThreeFree(): Lay {
    map[0 := Blk(504, Free), 504 := Blk(8, Slack), 512 := Blk(248, Free), 760 := Blk(8, Slack), 768 := Blk(256, Free)]
  }

  // Its boundary tags in the zone.
  predicate ThreeTags(z: seq<u32>) {
    |z| == 1040 && z[0] == 505 && z[4] == 0 && z[504] == 0 && z[512] == 249 && z[516] == 0 && z[760] == 0 && z[768] == 257 && z[772] == 0
  }

  lemma ThreeFreeEnds()
    ensures ThreeFree().Keys == {0, 504, 512, 760, 768}
    ensures End(ThreeFree(), 0) == 504 && End(ThreeFree(), 504) == 512 && End(ThreeFree(), 512) == 760
            && End(ThreeFree(), 760) == 768 && End(ThreeFree(), 768) == 1024
  {
  }

  lemma ThreeFreeShape()
    ensures Tiles(ThreeFree(), 0, 1024) && Shaped(ThreeFree()) && Coalesced(ThreeFree())
  {
    ThreeFreeEnds();
    hide End;
  }

  lemma ThreeFreeHeaders(z: seq<u32>)
    requires ThreeTags(z)
    ensures HeadersOk(z, ThreeFree()) && PrevOk(z, ThreeFree(), 0)
  {
    ThreeFreeEnds();
    hide End;
  }

  lemma ThreeFreeLayout(z: seq<u32>)
    requires ThreeTags(z)
    ensures LayoutInv(z, ThreeFree(), 0, 1024)
  {
    hide Tiles, Shaped, Coalesced, HeadersOk, PrevOk, ThreeFree;
    ThreeFreeShape();
    ThreeFreeHeaders(z);
  }

  lemma ThreeFreeBytes()
    ensures Bytes(ThreeFree(), TLive) == 0 && Bytes(ThreeFree(), TSlack) == 16
    ensures FreeMap(ThreeFree()) == map[0 := 504][512 := 248][768 := 256] && |FreeMap(ThreeFree())| == 3
  {
    hide Bytes;
    var e: Lay := map[];
    var a: Lay := map[0 := Blk(504, Free)];
    var b: Lay := map[0 := Blk(504, Free), 504 := Blk(8, Slack)];
    var c: Lay := map[0 := Blk(504, Free), 504 := Blk(8, Slack), 512 := Blk(248, Free)];
    var d: Lay := map[0 := Blk(504, Free), 504 := Blk(8, Slack), 512 := Blk(248, Free), 760 := Blk(8, Slack)];
    assert a == e[0 := Blk(504, Free)] && b == a[504 := Blk(8, Slack)] && c == b[512 := Blk(248, Free)] && d == c[760 := Blk(8, Slack)];
    assert ThreeFree() == d[768 := Blk(256, Free)];
    NothingWeighs();
    BytesAdd(e, 0, Blk(504, Free), TLive);
    BytesAdd(a, 504, Blk(8, Slack), TLive);
    BytesAdd(b, 512, Blk(248, Free), TLive);
    BytesAdd(c, 760, Blk(8, Slack), TLive);
    BytesAdd(d, 768, Blk(256, Free), TLive);
    BytesAdd(e, 0, Blk(504, Free), TSlack);
    BytesAdd(a, 504, Blk(8, Slack), TSlack);
    BytesAdd(b, 512, Blk(248, Free), TSlack);
    BytesAdd(c, 760, Blk(8, Slack), TSlack);
    BytesAdd(d, 768, Blk(256, Free), TSlack);
    assert FreeMap(ThreeFree()).Keys == {0, 512, 768};
  }

  lemma NothingWeighs()
    ensures Bytes(map[], TLive) == 0 && Bytes(map[], TSlack) == 0
  {
  }

  method WriteTags(zone: array<u32>)
    requires zone.Length == 1040
    modifies zone
    ensures ThreeTags(zone[..])
  {
    zone[0], zone[4], zone[504] := 505, 0, 0;
    zone[512], zone[516], zone[760] := 249, 0, 0;
    zone[768], zone[772] := 257, 0;
  }

  // Header words are not link words.
  lemma LinksOnly(z: seq<u32>, z': seq<u32>, S: set<nat>)
    requires ThreeTags(z) && SameExceptLinks(z, z', S) && S <= {0, 512, 768}
    ensures ThreeTags(z')
  {
  }

  function SizeAt(off: nat): nat {
    if off == 0 then 504 else if off == 512 then 248 else 256
  }

  lemma CellAt(z: seq<u32>, off: nat)
    requires ThreeTags(z) && off in {0, 512, 768}
    ensures BlkSize(z[off]) == SizeAt(off) && FreeCell(z, off, SizeAt(off))
  {
  }

  method InsertTagged(zone: array<u32>, b: TlsfBins, off: nat, ghost lists: seq<seq<nat>>, ghost F: map<nat, nat>)
      returns (b': TlsfBins, ghost lists': seq<seq<nat>>)
    requires ThreeTags(zone[..]) && off in {0, 512, 768} && off !in F && F.Keys <= {0, 512, 768}
    requires BinsInv(zone[..], b, lists, F)
    modifies zone
    ensures ThreeTags(zone[..]) && BinsInv(zone[..], b', lists', F[off := SizeAt(off)])
  {
    hide BinsInv, SameExceptLinks, ThreeTags, FreeCell, BinIdx, Pushed;
    TagsLength(zone[..]);
    CellAt(zone[..], off);
    ghost var z := zone[..];
    b', lists' := BinsInsert(zone, b, off, lists, F);
    LinksOnly(z, zone[..], F.Keys + {off});
  }

  lemma TagsLength(z: seq<u32>)
    requires ThreeTags(z)
    ensures |z| == 1040
  {
  }

  // The consistent pool, word by word.
  method BuildRefused(zone: array<u32>) returns (P: Pool, ghost A: APool)
    requires zone.Length == 1040
    modifies zone
    ensures PoolLay(zone[..], P.bins, A.L, A.lists, 0, 1024) && A.L == ThreeFree() && A.order == []
    ensures P == FreshPool(0, 1, P.bins, 1024).(fragmentBytes := 16)
  {
    hide BinsInv, LayoutInv, ThreeTags, ThreeFree, Bytes, FreeMap;
    WriteTags(zone);
    EmptyInv(zone[..]);
    var b;
    ghost var lists;
    b, lists := InsertTagged(zone, EmptyBins(), 0, NoLists(), map[]);
    b, lists := InsertTagged(zone, b, 512, lists, map[0 := 504]);
    b, lists := InsertTagged(zone, b, 768, lists, map[0 := 504][512 := 248]);
    ThreeFreeBytes();
    ThreeFreeLayout(zone[..]);
    P := FreshPool(0, 1, b, 1024).(fragmentBytes := 16);
    A := APool(ThreeFree(), lists, []);
  }

  // validate on that pool, with a table of one slot: consistent, and refused.
  method RefusedScenario() returns (zone: array<u32>, objects: array<ObjectDesc>, P: Pool, ghost A: APool, st: Status)
    ensures ZoneOk(zone[..], 1024, 1, 1024) && GeometryOk(P, 1024, 1, 1024) && PoolOk(zone[..], P, objects[..], 0, A, 1024)
    ensures |FreeMap(A.L)| > objects.Length + 1 && st == CorruptMetadata
  {
    hide PoolLay, FreeMap, PoolOk, ZoneOk, Sound;
    zone := new u32[1040](_ => 0);
    objects := new ObjectDesc[1](_ => BlankDesc());
    P, A := BuildRefused(zone);
    RefusedOk(zone[..], objects[..], P, A);
    ghost var w;
    st, w := ValidatePool(zone, objects, P, 0, 1024, 1, 1024, A);
  }

  lemma RefusedOk(z: seq<u32>, ds: seq<ObjectDesc>, P: Pool, A: APool)
    requires |z| == 1040 && |ds| == 1 && PoolLay(z, P.bins, A.L, A.lists, 0, 1024) && A.L == ThreeFree() && A.order == []
    requires P == FreshPool(0, 1, P.bins, 1024).(fragmentBytes := 16)
    ensures ZoneOk(z, 1024, 1, 1024) && GeometryOk(P, 1024, 1, 1024) && PoolOk(z, P, ds, 0, A, 1024) && |FreeMap(A.L)| == 3
    ensures BinsSized(P.bins) && PoolStart(P, 1024) == 0 && PoolEnd(P, 1024) == 1024
  {
    hide PoolLay, FreeMap, Bytes, ThreeFree, ObjsOk;
    Whole(1);
    ThreeFreeBytes();
    RefusedObjs(ds, P, A);
    RefusedSized(z, P, A);
  }

  lemma RefusedObjs(ds: seq<ObjectDesc>, P: Pool, A: APool)
    requires |ds| == 1 && A.L == ThreeFree() && A.order == [] && P.orderHead == NO_ORDER && P.borrowCount == 0
    ensures ObjsOk(ds, P.orderHead, 0, A.L, A.order) && P.borrowCount == BorrowSum(ds, A.order)
  {
  }

  lemma RefusedSized(z: seq<u32>, P: Pool, A: APool)
    requires PoolLay(z, P.bins, A.L, A.lists, 0, 1024)
    ensures BinsSized(P.bins)
  {
    BinsShaped(z, P.bins, A.L, A.lists, 0, 1024);
  }
}
