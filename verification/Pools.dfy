/** Pool lifetime and the borrow protocol: create_pool, destroy_pool, pause, resume,
    borrow_begin and borrow_end. */
module Pools {
  import opened Base
  import opened Lists
  import opened SizeClass
  import opened Bins
  import opened Layout
  import opened PoolHeap
  import opened Objects
  import opened State
  import opened Refs
  import opened AllocOp
  import opened Blocks
  import opened Finalize
  import opened Relocate
  import opened CompactOp
  import opened SplitOp

  // ---- free segment runs --------------------------------------------------------------------

  // Segment i belongs to no existing pool.
  ghost predicate Unowned(ps: seq<Pool>, i: nat) {
    forall p :: 0 <= p < |ps| && !ps[p].state.Empty? ==> i < ps[p].segmentFirst || ps[p].segmentFirst + ps[p].segmentCount <= i
  }

  ghost predicate FreeRun(ps: seq<Pool>, base: nat, n: nat) {
    forall i :: base <= i < base + n ==> Unowned(ps, i)
  }

  // A run is free exactly if it overlaps the window of no existing pool.
  lemma FreeRunMeans(ps: seq<Pool>, base: nat, n: nat)
    requires n > 0 && forall p :: 0 <= p < |ps| && !ps[p].state.Empty? ==> ps[p].segmentCount > 0
    ensures FreeRun(ps, base, n) <==>
            forall p :: 0 <= p < |ps| && ps[p].state != Empty ==>
              base + n <= ps[p].segmentFirst || ps[p].segmentFirst + ps[p].segmentCount <= base
  {
    forall p | FreeRun(ps, base, n) && 0 <= p < |ps| && !ps[p].state.Empty?
      ensures base + n <= ps[p].segmentFirst || ps[p].segmentFirst + ps[p].segmentCount <= base
    {
      var i: nat := if base < ps[p].segmentFirst then ps[p].segmentFirst else base;
      assert i < base + n ==> Unowned(ps, i);
    }
  }

  // The lowest run of n free segments, if any.
  ghost predicate IsFirstRun(ps: seq<Pool>, base: nat, n: nat, segCount: nat) {
    && base + n <= segCount && FreeRun(ps, base, n)
    && (forall b :: 0 <= b < base ==> !FreeRun(ps, b, n))
  }

  ghost predicate MarkedUpTo(ps: seq<Pool>, used: seq<bool>, k: nat) {
    forall i :: 0 <= i < |used| ==>
      (used[i] <==> exists p :: 0 <= p < k && p < |ps| && !ps[p].state.Empty? && ps[p].segmentFirst <= i < ps[p].segmentFirst + ps[p].segmentCount)
  }

  // The used[] array over all existing pools.
  method MarkUsed(pools: array<Pool>, seg: nat, segCount: nat, zoneSize: nat) returns (st: Status, used: array<bool>)
    requires forall p :: 0 <= p < pools.Length && !pools[p].state.Empty? ==> GeometryOk(pools[p], seg, segCount, zoneSize)
    ensures st == Ok && fresh(used) && used.Length == segCount && MarkedUpTo(pools[..], used[..], pools.Length)
  {
    used := new bool[segCount](_ => false);
    ghost var ps := pools[..];
    for k := 0 to pools.Length
      invariant MarkedUpTo(ps, used[..], k)
    {
      var P := pools[k];
      ghost var u0 := used[..];
      if P.state.Empty? {
        MarkedSkip(ps, u0, k);
        continue;
      }
      if !GeometryOk(P, seg, segCount, zoneSize) { return CorruptMetadata, used; }
      for s := 0 to P.segmentCount
        invariant forall i :: 0 <= i < segCount ==> (used[i] <==> u0[i] || P.segmentFirst <= i < P.segmentFirst + s)
      {
        used[P.segmentFirst + s] := true;
      }
      MarkedStep(ps, u0, used[..], k);
    }
    st := Ok;
  }

  lemma MarkedSkip(ps: seq<Pool>, used: seq<bool>, k: nat)
    requires MarkedUpTo(ps, used, k) && k < |ps| && ps[k].state.Empty?
    ensures MarkedUpTo(ps, used, k + 1)
  {
    forall i | 0 <= i < |used|
      ensures used[i] <==> exists p :: 0 <= p < k + 1 && p < |ps| && !ps[p].state.Empty? && ps[p].segmentFirst <= i < ps[p].segmentFirst + ps[p].segmentCount
    {
    }
  }

  lemma MarkedStep(ps: seq<Pool>, u0: seq<bool>, u1: seq<bool>, k: nat)
    requires MarkedUpTo(ps, u0, k) && k < |ps| && !ps[k].state.Empty? && |u1| == |u0|
    requires forall i :: 0 <= i < |u0| ==> (u1[i] <==> u0[i] || ps[k].segmentFirst <= i < ps[k].segmentFirst + ps[k].segmentCount)
    ensures MarkedUpTo(ps, u1, k + 1)
  {
    forall i | 0 <= i < |u1|
      ensures u1[i] <==> exists p :: 0 <= p < k + 1 && p < |ps| && !ps[p].state.Empty? && ps[p].segmentFirst <= i < ps[p].segmentFirst + ps[p].segmentCount
    {
    }
  }

  lemma MarkedMeans(ps: seq<Pool>, used: seq<bool>, i: nat)
    requires MarkedUpTo(ps, used, |ps|) && i < |used|
    ensures used[i] <==> !Unowned(ps, i)
  {
  }

  // First fit over the segments: the scan keeps the length of the free run that ends before s.
  method FindRun(used: array<bool>, n: nat, ghost ps: seq<Pool>) returns (base: int)
    requires n > 0 && MarkedUpTo(ps, used[..], |ps|)
    ensures base < 0 ==> forall b :: 0 <= b && b + n <= used.Length ==> !FreeRun(ps, b, n)
    ensures base >= 0 ==> IsFirstRun(ps, base, n, used.Length)
  {
    base := -1;
    var run, s: nat := 0, 0;
    while s < used.Length && base < 0
      invariant s <= used.Length && 0 <= run <= s
      invariant base < 0 ==> run < n && (forall i :: s - run <= i < s ==> Unowned(ps, i))
      invariant base < 0 ==> forall b :: 0 <= b < s - run ==> !FreeRun(ps, b, n)
      invariant base >= 0 ==> IsFirstRun(ps, base, n, used.Length)
    {
      MarkedMeans(ps, used[..], s);
      if !used[s] {
        run := run + 1;
        if run >= n { base := s + 1 - n; }
      } else {
        forall b | 0 <= b < s + 1 ensures !FreeRun(ps, b, n) || b < 0 {
          if s - run <= b { assert b <= s < b + n; }
        }
        run := 0;
      }
      s := s + 1;
    }
    if base < 0 {
      forall b | 0 <= b && b + n <= used.Length ensures !FreeRun(ps, b, n) {
      }
    }
  }

  // ---- create_pool ----------------------------------------------------------------------------

  // The record of a fresh pool over segments [base, base + n).
  function FreshPool(base: u16, n: u16, bins: TlsfBins, seg: nat): (P: Pool)
    ensures P.borrowCount == 0 && P.liveObjects == 0 && P.usedBytes == 0
  {
    ZeroPool().(state := Running, segmentFirst := base, segmentCount := n, structureEpoch := 1, orderHead := NO_ORDER,
                freeBytes := n * seg, bins := bins)
  }

  lemma FreshWindow(base: u16, n: u16, seg: nat, segCount: nat, zoneSize: nat, z: seq<u32>)
    requires ZoneOk(z, seg, segCount, zoneSize) && 0 < n && base + n <= segCount
    ensures var s, e := SegOff(base, seg), SegOff(base + n, seg);
            && e - s == n * seg && MIN_BLOCK <= e - s && s % ALIGN == 0 && (e - s) % ALIGN == 0 && e <= zoneSize
            && e < ZONE_LIMIT && e <= |z| <= ZONE_LIMIT
  {
    SegMono(base + n, segCount, seg);
    SegStrict(base, base + n, seg);
    SegAligned(base, seg);
    SegAligned(base + n, seg);
    assert (base + n) * seg == base * seg + n * seg;
    AlignedSum(SegOff(base + n, seg), SegOff(base, seg));
  }

  // The single free block of a fresh window.
  method FreshBlock(zone: array<u32>, start: nat, end: nat) returns (bins: TlsfBins, ghost lists: seq<seq<nat>>)
    requires start + MIN_BLOCK <= end <= zone.Length <= ZONE_LIMIT && end < ZONE_LIMIT && start % ALIGN == 0 && (end - start) % ALIGN == 0
    modifies zone
    ensures PoolLay(zone[..], bins, map[start := Blk(end - start, Free)], lists, start, end)
    ensures OutsideKept(old(zone[..]), zone[..], start, end)
  {
    hide PoolLay, OutsideKept, LivePayloadKept;
    EmptyWindow(zone[..], start);
    var own;
    bins, own, lists := PlaceGap(zone, EmptyBins(), start, end - start, 0, map[], NoLists(), start);
    assert map[] + Gap(start, end) == map[start := Blk(end - start, Free)];
  }

  lemma EmptyWindow(z: seq<u32>, s: nat)
    requires s <= |z| <= ZONE_LIMIT && s < ZONE_LIMIT && s % ALIGN == 0
    ensures PoolLay(z, EmptyBins(), map[], NoLists(), s, s) && EndsLive(map[], s, s, 0)
  {
    EmptyInv(z);
    assert FreeMap(map[]) == map[];
  }

  lemma FreshOk(z: seq<u32>, ds: seq<ObjectDesc>, pid: nat, base: u16, n: u16, bins: TlsfBins, lists: seq<seq<nat>>, seg: nat)
    requires |ds| < 0xFFFF && 0 < n && SegOff(base + n, seg) - SegOff(base, seg) == n * seg
    requires PoolLay(z, bins, map[SegOff(base, seg) := Blk(n * seg, Free)], lists, SegOff(base, seg), SegOff(base + n, seg))
    ensures PoolOk(z, FreshPool(base, n, bins, seg), ds, pid, APool(map[SegOff(base, seg) := Blk(n * seg, Free)], lists, []), seg)
  {
    hide PoolLay, SegOff;
    BytesOne(SegOff(base, seg), Blk(n * seg, Free));
  }

  // An unowned run lies outside every existing window.
  lemma RunApart(ps: seq<Pool>, base: nat, n: nat, X: Pool, P': Pool, x: nat)
    requires FreeRun(ps, base, n) && n > 0 && x < |ps| && X == ps[x] && !X.state.Empty? && X.segmentCount > 0
    requires P'.segmentFirst == base && P'.segmentCount == n
    ensures Apart(P', X)
  {
    var i := if X.segmentFirst < base then base else X.segmentFirst;
    assert base <= i < base + n ==> Unowned(ps, i);
    assert Unowned(ps, i) ==> i < ps[x].segmentFirst || ps[x].segmentFirst + ps[x].segmentCount <= i;
  }

  // create_pool: first fit over the segments, first Empty slot.
  method CreatePool(g: GlobalState, n: u32) returns (st: Status, out: nat, ghost base: nat)
    requires g.Valid()
    modifies g, g.zone, g.pools
    ensures g.Valid() && (st == Ok || st == NoSpace)
    ensures st == Ok <==>
              && n > 0 && FirstEmpty(old(g.pools[..])) < g.pools.Length
              && exists b: nat :: b + n <= g.segmentCount && FreeRun(old(g.pools[..]), b, n)
    ensures g.objects[..] == old(g.objects[..]) && g.stack == old(g.stack) && g.freeSlotHead == old(g.freeSlotHead)
    ensures st != Ok ==> g.zone[..] == old(g.zone[..]) && g.pools[..] == old(g.pools[..]) && g.abs == old(g.abs)
    ensures st == Ok ==>
              && out == FirstEmpty(old(g.pools[..])) < g.pools.Length && IsFirstRun(old(g.pools[..]), base, n, g.segmentCount)
              && base < 0x1_0000 && n < 0x1_0000 && out < |g.abs| == |old(g.abs)|
              && g.pools[out] == FreshPool(base, n, g.pools[out].bins, g.segmentSize)
              && g.pools[out].state == Running && g.pools[out].segmentFirst == base && g.pools[out].segmentCount == n
              && g.pools[out].borrowCount == 0 && g.pools[out].liveObjects == 0 && g.pools[out].usedBytes == 0
              && g.pools[out].freeBytes == n * g.segmentSize && g.pools[out].structureEpoch == 1
              && g.pools[..] == old(g.pools[..])[out := g.pools[out]] && g.abs == old(g.abs)[out := g.abs[out]]
              && g.abs[out].L == map[SegOff(base, g.segmentSize) := Blk(n * g.segmentSize, Free)] && g.abs[out].order == []
              && OutsideKept(old(g.zone[..]), g.zone[..], SegOff(base, g.segmentSize), SegOff(base + n, g.segmentSize))
  {
    hide Inv, PoolOk, SlotsOk, GeometryOk, ZoneOk, SegOff, OutsideKept, PoolLay, FreeRun, ZeroPool;
    ghost var z, ps, ds, abs := g.zone[..], g.pools[..], g.objects[..], g.abs;
    out, base := 0, 0;
    ZoneFacts(z, ps, ds, g.freeSlotHead, g.segmentSize, g.segmentCount, g.zoneSize, abs, g.stack);
    InvLengths(z, ps, ds, g.freeSlotHead, g.segmentSize, g.segmentCount, g.zoneSize, abs, g.stack);
    if n == 0 { return NoSpace, out, base; }
    if n > g.segmentCount { return NoSpace, out, base; }
    forall p | 0 <= p < |ps| && !ps[p].state.Empty? ensures GeometryOk(ps[p], g.segmentSize, g.segmentCount, g.zoneSize) {
      PoolFacts(z, ps, ds, g.freeSlotHead, g.segmentSize, g.segmentCount, g.zoneSize, abs, g.stack, p);
    }
    var used;
    st, used := MarkUsed(g.pools, g.segmentSize, g.segmentCount, g.zoneSize);
    if st != Ok { return CorruptMetadata, out, base; }
    var run := FindRun(used, n, ps);
    if run < 0 { return NoSpace, out, base; }
    var slot := ClaimSlot(g.pools);
    if slot == g.pools.Length { return NoSpace, out, base; }
    out, base := slot, run;
    SegmentRange(z, g.segmentSize, g.segmentCount, g.zoneSize, run, n);
    FreshWindow(run, n, g.segmentSize, g.segmentCount, g.zoneSize, z);
    var start, end := SegOff(run, g.segmentSize), SegOff(run + n, g.segmentSize);
    var bins;
    ghost var lists;
    bins, lists := FreshBlock(g.zone, start, end);
    g.pools[slot] := FreshPool(run, n, bins, g.segmentSize);
    g.abs := abs[slot := APool(map[start := Blk(n * g.segmentSize, Free)], lists, [])];
    CreateKeepsInv(z, g.zone[..], ps, ds, g.freeSlotHead, g.segmentSize, g.segmentCount, g.zoneSize, abs, g.stack, slot, run, n, bins, lists);
    assert g.pools[..] == ps[slot := FreshPool(run, n, bins, g.segmentSize)];
    st := Ok;
  }

  lemma SegmentRange(z: seq<u32>, seg: nat, segCount: nat, zoneSize: nat, base: nat, n: nat)
    requires ZoneOk(z, seg, segCount, zoneSize) && base + n <= segCount
    ensures base < 0x1_0000 && n < 0x1_0000
  {
  }

  lemma CreateKeepsInv(z: seq<u32>, z': seq<u32>, ps: seq<Pool>, ds: seq<ObjectDesc>, head: u16, seg: nat, segCount: nat, zoneSize: nat,
                       abs: seq<APool>, stack: seq<nat>, p: nat, base: u16, n: u16, bins: TlsfBins, lists: seq<seq<nat>>)
    requires Inv(z, ps, ds, head, seg, segCount, zoneSize, abs, stack) && p < |ps| == |abs| && ps[p].state.Empty? && |ds| < 0xFFFF
    requires 0 < n && base + n <= segCount && FreeRun(ps, base, n) && OutsideKept(z, z', SegOff(base, seg), SegOff(base + n, seg))
    requires PoolLay(z', bins, map[SegOff(base, seg) := Blk(n * seg, Free)], lists, SegOff(base, seg), SegOff(base + n, seg))
    ensures Inv(z', ps[p := FreshPool(base, n, bins, seg)], ds, head, seg, segCount, zoneSize,
                abs[p := APool(map[SegOff(base, seg) := Blk(n * seg, Free)], lists, [])], stack)
  {
    hide Inv, PoolOk, SlotsOk, PoolLay, OutsideKept, FreeRun, ZeroPool, Apart;
    ZoneFacts(z, ps, ds, head, seg, segCount, zoneSize, abs, stack);
    FreshWindow(base, n, seg, segCount, zoneSize, z);
    hide ZoneOk;
    FreshOk(z', ds, p, base, n, bins, lists, seg);
    EmptyIsZero(z, ps, ds, head, seg, segCount, zoneSize, abs, stack, p);
    var P' := FreshPool(base, n, bins, seg);
    forall x | 0 <= x < |ps| && x != p && !ps[x].state.Empty?
      ensures (PoolEnd(ps[x], seg) <= SegOff(base, seg) || SegOff(base + n, seg) <= PoolStart(ps[x], seg)) && Apart(P', ps[x])
    {
      PoolWindow(z, ps, ds, head, seg, segCount, zoneSize, abs, stack, x);
      RunApart(ps, base, n, ps[x], P', x);
      WindowsApart(P', ps[x], seg);
    }
    SlotUpdated(z, z', ps, P', ds, head, seg, segCount, zoneSize, abs, APool(map[SegOff(base, seg) := Blk(n * seg, Free)], lists, []), stack,
                p, SegOff(base, seg), SegOff(base + n, seg));
  }

  lemma PoolWindow(z: seq<u32>, ps: seq<Pool>, ds: seq<ObjectDesc>, head: u16, seg: nat, segCount: nat, zoneSize: nat,
                   abs: seq<APool>, stack: seq<nat>, p: nat)
    requires Inv(z, ps, ds, head, seg, segCount, zoneSize, abs, stack) && p < |ps| && !ps[p].state.Empty?
    ensures ps[p].segmentCount > 0
  {
    hide PoolOk, SlotsOk, GeometryOk;
    assert PoolSlotOk(z, ps[p], ds, p, abs[p], seg, segCount, zoneSize);
  }

  // ---- destroy_pool, pause, resume --------------------------------------------------------------

  lemma NoObjects(z: seq<u32>, ps: seq<Pool>, ds: seq<ObjectDesc>, head: u16, seg: nat, segCount: nat, zoneSize: nat,
                  abs: seq<APool>, stack: seq<nat>, p: nat)
    requires Inv(z, ps, ds, head, seg, segCount, zoneSize, abs, stack) && p < |ps| && !ps[p].state.Empty? && ps[p].liveObjects == 0
    ensures ps[p].borrowCount == 0 && ps[p].orderHead == NO_ORDER
    ensures forall sl :: 0 <= sl < |ds| && ds[sl].state.LiveObj? ==> ds[sl].poolId != p
  {
    hide PoolLay, Counters, SlotsOk, GeometryOk;
    assert PoolSlotOk(z, ps[p], ds, p, abs[p], seg, segCount, zoneSize);
    forall sl | 0 <= sl < |ds| && ds[sl].state.LiveObj? ensures ds[sl].poolId != p {
      assert SlotOwned(ps, ds, abs, sl);
    }
  }

  // destroy_pool: an empty pool becomes a zeroed slot; its bytes are left alone.
  method DestroyPool(g: GlobalState, pid: nat) returns (st: Status)
    requires g.Valid()
    modifies g, g.pools
    ensures g.Valid()
    ensures st == (if pid >= |old(g.pools[..])| || old(g.pools[..])[pid].state.Empty? then InvalidPool
                   else if old(g.pools[..])[pid].liveObjects != 0 then Busy else Ok)
    ensures st != Ok ==> g.pools[..] == old(g.pools[..]) && g.abs == old(g.abs)
    ensures st == Ok ==> pid < |old(g.abs)| && g.pools[..] == old(g.pools[..])[pid := ZeroPool()] && g.abs == old(g.abs)[pid := APool(map[], [], [])]
    ensures g.stack == old(g.stack) && g.freeSlotHead == old(g.freeSlotHead)
  {
    hide Inv, PoolOk, SlotsOk, GeometryOk, ZoneOk, PoolStart, PoolEnd;
    ghost var z, ps, ds, abs := g.zone[..], g.pools[..], g.objects[..], g.abs;
    ZoneFacts(z, ps, ds, g.freeSlotHead, g.segmentSize, g.segmentCount, g.zoneSize, abs, g.stack);
    if pid >= g.pools.Length { return InvalidPool; }
    var P := g.pools[pid];
    if P.state.Empty? { return InvalidPool; }
    if P.liveObjects == 0 { NoObjects(z, ps, ds, g.freeSlotHead, g.segmentSize, g.segmentCount, g.zoneSize, abs, g.stack, pid); }
    PoolFacts(z, ps, ds, g.freeSlotHead, g.segmentSize, g.segmentCount, g.zoneSize, abs, g.stack, pid);
    if P.liveObjects != 0 || P.borrowCount != 0 { return Busy; }
    if P.state.Compacting? || P.state.Merging? || P.state.Splitting? { return Busy; }
    g.pools[pid] := ZeroPool();
    g.abs := abs[pid := APool(map[], [], [])];
    DestroyKeepsInv(z, ps, ds, g.freeSlotHead, g.segmentSize, g.segmentCount, g.zoneSize, abs, g.stack, pid);
    assert g.pools[..] == ps[pid := ZeroPool()];
    return Ok;
  }

  lemma DestroyKeepsInv(z: seq<u32>, ps: seq<Pool>, ds: seq<ObjectDesc>, head: u16, seg: nat, segCount: nat, zoneSize: nat,
                        abs: seq<APool>, stack: seq<nat>, p: nat)
    requires Inv(z, ps, ds, head, seg, segCount, zoneSize, abs, stack) && p < |ps| == |abs| && !ps[p].state.Empty? && ps[p].liveObjects == 0
    ensures Inv(z, ps[p := ZeroPool()], ds, head, seg, segCount, zoneSize, abs[p := APool(map[], [], [])], stack)
  {
    hide Inv, PoolOk, SlotsOk, GeometryOk, Apart, PoolStart, PoolEnd;
    NoObjects(z, ps, ds, head, seg, segCount, zoneSize, abs, stack, p);
    var s, e := PoolStart(ps[p], seg), PoolEnd(ps[p], seg);
    forall x | 0 <= x < |ps| && x != p && !ps[x].state.Empty? ensures PoolEnd(ps[x], seg) <= s || e <= PoolStart(ps[x], seg) {
      OthersOutside(z, ps, ds, head, seg, segCount, zoneSize, abs, stack, p, x);
    }
    SlotUpdated(z, z, ps, ZeroPool(), ds, head, seg, segCount, zoneSize, abs, APool(map[], [], []), stack, p, s, e);
  }

  method Pause(g: GlobalState, pid: nat) returns (st: Status)
    requires g.Valid()
    modifies g.pools
    ensures g.Valid()
    ensures st == (if pid >= |old(g.pools[..])| || old(g.pools[..])[pid].state.Empty? then InvalidPool
                   else if old(g.pools[..])[pid].state.Paused? then AlreadyPaused else Ok)
    ensures st == Ok ==> old(g.pools[..])[pid].state.Running?
    ensures g.pools[..] == if st == Ok then old(g.pools[..])[pid := old(g.pools[..])[pid].(state := Paused)] else old(g.pools[..])
  {
    hide Inv, PoolOk, SlotsOk, GeometryOk;
    ghost var z, ps, ds := g.zone[..], g.pools[..], g.objects[..];
    if pid >= g.pools.Length { return InvalidPool; }
    var P := g.pools[pid];
    if P.state.Empty? { return InvalidPool; }
    PoolFacts(z, ps, ds, g.freeSlotHead, g.segmentSize, g.segmentCount, g.zoneSize, g.abs, g.stack, pid);
    if P.state.Paused? { return AlreadyPaused; }
    if !P.state.Running? { return Busy; }
    g.pools[pid] := P.(state := Paused);
    StateKeepsInv(z, ps, P.(state := Paused), ds, g.freeSlotHead, g.segmentSize, g.segmentCount, g.zoneSize, g.abs, g.stack, pid);
    assert g.pools[..] == ps[pid := P.(state := Paused)];
    return Ok;
  }

  method Resume(g: GlobalState, pid: nat) returns (st: Status)
    requires g.Valid()
    modifies g.pools
    ensures g.Valid()
    ensures st == if pid >= |old(g.pools[..])| || old(g.pools[..])[pid].state.Empty? then InvalidPool else Ok
    ensures st == Ok ==> Settled(old(g.pools[..])[pid])
    ensures g.pools[..] == if st == Ok then old(g.pools[..])[pid := old(g.pools[..])[pid].(state := Running)] else old(g.pools[..])
  {
    hide Inv, PoolOk, SlotsOk, GeometryOk;
    ghost var z, ps, ds := g.zone[..], g.pools[..], g.objects[..];
    if pid >= g.pools.Length { return InvalidPool; }
    var P := g.pools[pid];
    if P.state.Empty? { return InvalidPool; }
    PoolFacts(z, ps, ds, g.freeSlotHead, g.segmentSize, g.segmentCount, g.zoneSize, g.abs, g.stack, pid);
    if P.state.Running? { assert ps[pid := P.(state := Running)] == ps; return Ok; }
    if !P.state.Paused? { return Busy; }
    g.pools[pid] := P.(state := Running);
    StateKeepsInv(z, ps, P.(state := Running), ds, g.freeSlotHead, g.segmentSize, g.segmentCount, g.zoneSize, g.abs, g.stack, pid);
    assert g.pools[..] == ps[pid := P.(state := Running)];
    return Ok;
  }

  // ---- borrow_begin and borrow_end ---------------------------------------------------------------

  // A pool record and one of its descriptors, both with the given change of the borrow counts.
  lemma BorrowKeepsInv(z: seq<u32>, ps: seq<Pool>, P': Pool, ds: seq<ObjectDesc>, ds': seq<ObjectDesc>, sl: nat,
                       head: u16, seg: nat, segCount: nat, zoneSize: nat, abs: seq<APool>, stack: seq<nat>)
    requires Inv(z, ps, ds, head, seg, segCount, zoneSize, abs, stack) && sl < |ds| && ds[sl].state.LiveObj? && ds[sl].poolId < |ps| == |abs|
    requires |ds'| == |ds| && ds' == ds[sl := ds[sl].(activeBorrows := ds'[sl].activeBorrows)]
    requires P' == ps[ds[sl].poolId].(borrowCount := P'.borrowCount)
    requires P'.borrowCount - ps[ds[sl].poolId].borrowCount == ds'[sl].activeBorrows - ds[sl].activeBorrows
    ensures Inv(z, ps[ds[sl].poolId := P'], ds', head, seg, segCount, zoneSize, abs, stack)
  {
    hide Inv, PoolOk, SlotsOk, GeometryOk;
    var p := ds[sl].poolId;
    LiveSlot(z, ps, ds, head, seg, segCount, zoneSize, abs, stack, sl);
    PoolFacts(z, ps, ds, head, seg, segCount, zoneSize, abs, stack, p);
    SlotsFrame(ds, ds', head, stack);
    BorrowPoolOk(z, ps[p], P', ds, ds', sl, p, abs[p], seg);
    forall x | 0 <= x < |ds| && ds'[x].state.LiveObj?
      ensures (ds[x].state.LiveObj? && ds[x].poolId != p) || (ds'[x].poolId == p && x in abs[p].order)
    {
      InList(z, ps, ds, head, seg, segCount, zoneSize, abs, stack, x);
    }
    SameZone(z, PoolStart(ps[p], seg), PoolEnd(ps[p], seg));
    PoolUpdated(z, z, ps, P', ds, ds', head, head, seg, segCount, zoneSize, abs, abs[p], stack, stack, p);
    assert abs[p := abs[p]] == abs;
  }

  lemma SameZone(z: seq<u32>, s: nat, e: nat)
    ensures OutsideKept(z, z, s, e)
  {
  }

  lemma BorrowPoolOk(z: seq<u32>, P: Pool, P': Pool, ds: seq<ObjectDesc>, ds': seq<ObjectDesc>, sl: nat, p: nat, A: APool, seg: nat)
    requires PoolOk(z, P, ds, p, A, seg) && sl in A.order && sl < |ds|
    requires |ds'| == |ds| && ds' == ds[sl := ds[sl].(activeBorrows := ds'[sl].activeBorrows)]
    requires P' == P.(borrowCount := P'.borrowCount) && P'.borrowCount - P.borrowCount == ds'[sl].activeBorrows - ds[sl].activeBorrows
    ensures PoolOk(z, P', ds', p, A, seg)
  {
    hide PoolLay, ObjsOk, NoDup, BorrowSum, PoolStart, PoolEnd;
    OrderIndexed(ds, P.orderHead, p, A.L, A.order);
    SameWindow(P, P', seg);
    BorrowSumUpdate(ds, ds', A.order, sl);
    BorrowObjs(ds, ds', P.orderHead, p, A.L, A.order, sl);
  }

  lemma BorrowObjs(ds: seq<ObjectDesc>, ds': seq<ObjectDesc>, head: u32, p: nat, L: Lay, order: seq<nat>, sl: nat)
    requires ObjsOk(ds, head, p, L, order) && sl < |ds| == |ds'| && ds' == ds[sl := ds[sl].(activeBorrows := ds'[sl].activeBorrows)]
    ensures ObjsOk(ds', head, p, L, order)
  {
    hide OrderLinked, NoDup, PlacedAt, LiveDesc;
    OrderRange(ds, head, order);
    forall i | 0 <= i < |order| ensures order[i] < |ds| && ds'[order[i]].addrPrev == ds[order[i]].addrPrev && ds'[order[i]].addrNext == ds[order[i]].addrNext {
    }
    LinksFrame(ds, ds', order, head);
    forall x | x in order ensures x < |ds'| && LiveDesc(ds'[x], p) && PlacedAt(ds'[x], L, x) {
      BorrowDesc(ds[x], ds'[x], p, L, x);
    }
  }

  lemma OrderRange(ds: seq<ObjectDesc>, head: u32, order: seq<nat>)
    requires OrderLinked(ds, order, head)
    ensures forall i :: 0 <= i < |order| ==> order[i] < |ds|
  {
  }

  lemma BorrowDesc(d: ObjectDesc, d': ObjectDesc, p: nat, L: Lay, sl: nat)
    requires LiveDesc(d, p) && PlacedAt(d, L, sl) && d' == d.(activeBorrows := d'.activeBorrows)
    ensures LiveDesc(d', p) && PlacedAt(d', L, sl)
  {
  }

  // What a borrow may be taken of: a current reference into a running pool, in range and aligned.
  ghost predicate Borrowable(ps: seq<Pool>, ds: seq<ObjectDesc>, ref: RawRef, size: u32, align: u32) {
    && ref.index < |ds| && ds[ref.index].state.LiveObj? && ds[ref.index].generation == ref.generation
    && (ref.poolHint == CROSS_HINT || ref.poolHint == ds[ref.index].poolId)
    && ds[ref.index].poolId < |ps| && ps[ds[ref.index].poolId].state.Running?
    && Pow2Align(align) && ref.offset + size <= ds[ref.index].size && (ds[ref.index].address + ref.offset) % align == 0
  }

  // A current reference to the start of an object in a running pool, and an access that the
  // object is large enough for, under any alignment that exists.
  ghost predicate AtRoot(ps: seq<Pool>, ds: seq<ObjectDesc>, ref: RawRef, size: u32, align: u32) {
    && ref.index < |ds| && ds[ref.index].state.LiveObj? && ds[ref.index].generation == ref.generation
    && (ref.poolHint == 0xFFFF || ref.poolHint == ds[ref.index].poolId) && ref.offset == 0
    && ds[ref.index].poolId < |ps| && ps[ds[ref.index].poolId].state == Running
    && size <= ds[ref.index].size && align <= 8 && exists k: nat :: align == Pow2(k)
  }

  // borrow_begin: both counters go up together, exactly for a current reference that fits its
  // pool's state, an accepted alignment and the object's size; on the start of an object every
  // accepted alignment is good.
  method BorrowBegin(g: GlobalState, ref: RawRef, size: u32, align: u32) returns (st: Status, addr: nat)
    requires g.Valid()
    modifies g.pools, g.objects
    ensures g.Valid() && st == RefStatus(old(g.pools[..]), old(g.objects[..]), ref, size, align, true)
    ensures var ps, ds := old(g.pools[..]), old(g.objects[..]);
            st == (if ref.index >= |ds| || !ds[ref.index].state.LiveObj? || ds[ref.index].generation != ref.generation then InvalidRef
                   else if ref.poolHint != 0xFFFF && ref.poolHint != ds[ref.index].poolId then PoolChanged
                   else if ds[ref.index].poolId >= |ps| || ps[ds[ref.index].poolId].state != Running then Busy
                   else if align > 8 || !exists k: nat :: align == Pow2(k) then InvalidAlignment
                   else if ref.offset + size > ds[ref.index].size then InvalidRef
                   else if (ds[ref.index].address + ref.offset) % align != 0 then InvalidAlignment
                   else Ok)
    ensures AtRoot(old(g.pools[..]), old(g.objects[..]), ref, size, align) ==> st == Ok
    ensures st == Ok <==> Borrowable(old(g.pools[..]), old(g.objects[..]), ref, size, align)
    ensures st != Ok ==> addr == 0 && g.pools[..] == old(g.pools[..]) && g.objects[..] == old(g.objects[..])
    ensures st == Ok ==>
              var d := old(g.objects[..])[ref.index];
              var P := old(g.pools[..])[d.poolId];
              && addr == d.address + ref.offset
              && g.objects[..] == old(g.objects[..])[ref.index := d.(activeBorrows := d.activeBorrows + 1)]
              && g.pools[..] == old(g.pools[..])[d.poolId := P.(borrowCount := P.borrowCount + 1)]
  {
    hide Inv, PoolOk, SlotsOk, GeometryOk, CheckRef, RefStatus, Pow2Align;
    ghost var z, ps, ds := g.zone[..], g.pools[..], g.objects[..];
    addr := 0;
    CheckRefMeaning(z, ps, ds, g.freeSlotHead, g.segmentSize, g.segmentCount, g.zoneSize, g.abs, g.stack, ref, size, align, true);
    AlignmentAccepted(align);
    if AtRoot(ps, ds, ref, size, align) {
      RootGranted(z, ps, ds, g.freeSlotHead, g.segmentSize, g.segmentCount, g.zoneSize, g.abs, g.stack, ref, size, align, true);
    }
    ZoneFacts(z, ps, ds, g.freeSlotHead, g.segmentSize, g.segmentCount, g.zoneSize, g.abs, g.stack);
    var rc := CheckRef(g.pools[..], g.objects[..], g.segmentSize, g.segmentCount, g.zoneSize, ref, size, align, true);
    if rc.st != Ok { return rc.st, addr; }
    var d := g.objects[ref.index];
    var P := g.pools[d.poolId];
    g.pools[d.poolId] := P.(borrowCount := P.borrowCount + 1);
    g.objects[ref.index] := d.(activeBorrows := d.activeBorrows + 1);
    BorrowKeepsInv(z, ps, g.pools[d.poolId], ds, g.objects[..], ref.index, g.freeSlotHead, g.segmentSize, g.segmentCount, g.zoneSize, g.abs, g.stack);
    assert g.pools[..] == ps[d.poolId := g.pools[d.poolId]];
    return Ok, rc.addr;
  }

  // A token that matches what borrow_begin handed out and is still counted.
  ghost predicate Endable(ds: seq<ObjectDesc>, ref: RawRef) {
    && ref.index < |ds| && ds[ref.index].state.LiveObj? && ds[ref.index].generation == ref.generation
    && (ref.poolHint == CROSS_HINT || ref.poolHint == ds[ref.index].poolId) && ds[ref.index].activeBorrows > 0
  }

  lemma ActiveCounted(z: seq<u32>, ps: seq<Pool>, ds: seq<ObjectDesc>, head: u16, seg: nat, segCount: nat, zoneSize: nat,
                      abs: seq<APool>, stack: seq<nat>, sl: nat)
    requires Inv(z, ps, ds, head, seg, segCount, zoneSize, abs, stack) && sl < |ds| && ds[sl].state.LiveObj?
    ensures ds[sl].poolId < |ps| && !ps[ds[sl].poolId].state.Empty? && ds[sl].generation != 0
    ensures ds[sl].activeBorrows <= ps[ds[sl].poolId].borrowCount
  {
    hide Inv, PoolLay, Counters, ObjsOk;
    LiveSlot(z, ps, ds, head, seg, segCount, zoneSize, abs, stack, sl);
    var p := ds[sl].poolId;
    PoolFacts(z, ps, ds, head, seg, segCount, zoneSize, abs, stack, p);
    OrderIndexed(ds, ps[p].orderHead, p, abs[p].L, abs[p].order);
    BorrowSumUpdate(ds, ds, abs[p].order, sl);
  }

  // borrow_end: both counters go down together for a matching token; any other token changes
  // nothing. On a consistent allocator a counted object always has a counted pool.
  method BorrowEnd(g: GlobalState, ref: RawRef) returns (ok: bool)
    requires g.Valid()
    modifies g.pools, g.objects
    ensures g.Valid() && (ok <==> Endable(old(g.objects[..]), ref))
    ensures var ds := old(g.objects[..]);
            ok <==>
              && ref.index < |ds| && ds[ref.index].state == LiveObj && ds[ref.index].generation == ref.generation
              && (ref.poolHint == 0xFFFF || ref.poolHint == ds[ref.index].poolId) && ds[ref.index].activeBorrows > 0
    ensures !ok ==> g.pools[..] == old(g.pools[..]) && g.objects[..] == old(g.objects[..])
    ensures ok ==>
              var d := old(g.objects[..])[ref.index];
              && d.poolId < g.pools.Length && d.activeBorrows > 0 && old(g.pools[..])[d.poolId].borrowCount > 0
              && var P := old(g.pools[..])[d.poolId];
              && g.objects[..] == old(g.objects[..])[ref.index := d.(activeBorrows := d.activeBorrows - 1)]
              && g.pools[..] == old(g.pools[..])[d.poolId := P.(borrowCount := P.borrowCount - 1)]
  {
    hide Inv, PoolOk, SlotsOk, GeometryOk;
    ghost var z, ps, ds := g.zone[..], g.pools[..], g.objects[..];
    ok := false;
    if ref.index >= g.objects.Length { return; }
    var d := g.objects[ref.index];
    ZoneFacts(z, ps, ds, g.freeSlotHead, g.segmentSize, g.segmentCount, g.zoneSize, g.abs, g.stack);
    if d.state.LiveObj? { ActiveCounted(z, ps, ds, g.freeSlotHead, g.segmentSize, g.segmentCount, g.zoneSize, g.abs, g.stack, ref.index); }
    if !d.state.LiveObj? || d.generation == 0 || d.generation != ref.generation { return; }
    if ref.poolHint != CROSS_HINT && ref.poolHint != d.poolId { return; }
    if d.poolId >= g.pools.Length { return; }
    var P := g.pools[d.poolId];
    if P.state.Empty? || d.activeBorrows == 0 || P.borrowCount == 0 { return; }
    g.objects[ref.index] := d.(activeBorrows := d.activeBorrows - 1);
    g.pools[d.poolId] := P.(borrowCount := P.borrowCount - 1);
    BorrowKeepsInv(z, ps, g.pools[d.poolId], ds, g.objects[..], ref.index, g.freeSlotHead, g.segmentSize, g.segmentCount, g.zoneSize, g.abs, g.stack);
    assert g.pools[..] == ps[d.poolId := g.pools[d.poolId]];
    ok := true;
  }
}
