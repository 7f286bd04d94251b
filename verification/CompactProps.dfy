/** What a compaction guarantees its caller, derived from the effect that compact establishes. */
module CompactProps {
  import opened Base
  import opened SizeClass
  import opened Bins
  import opened Layout
  import opened PoolHeap
  import opened Objects
  import opened State
  import opened Refs
  import opened AllocOp
  import opened Blocks
  import opened Moves
  import opened Plan
  import opened Relocate
  import opened CompactOp

  // ---- the reported target ------------------------------------------------------------------

  // compact's target size is alloc's block size exactly when the 32-bit sum does not wrap.
  lemma TargetNeedExact(size: u32)
    requires size != 0
    ensures TargetNeed(size) == NeedOf(size) <==> size < U32_MOD - 15
    ensures size < U32_MOD - 15 ==> TargetNeed(size) >= MIN_BLOCK
    ensures size >= U32_MOD - 15 ==> TargetNeed(size) <= 8
  {
    if size < U32_MOD - 15 {
      assert (size + 15) % U32_MOD == size + 15;
      assert (size + 15) % 8 == (size + 7) % 8;
    } else {
      assert (size + 15) % U32_MOD == size + 15 - U32_MOD;
    }
  }

  // A target that wraps to 0 is reported met by any compaction, yet alloc refuses the size.
  lemma WrappedTarget(ps: seq<Pool>, pid: nat, alignment: u32, flags: set<Flag>)
    ensures var size: u32 := 0xFFFF_FFF1;
            && LimitsOf(Request(size, 0, 0, 0)).need == 0
            && AllocRefusal(ps, pid, size, alignment, flags) != Ok
  {
    assert TargetNeed(0xFFFF_FFF1) == 0;
  }

  // A met target means that the rebuilt pool holds a free block that alloc can use.
  lemma TargetServed(z: seq<u32>, z': seq<u32>, P: Pool, P': Pool, ds: seq<ObjectDesc>, ds': seq<ObjectDesc>,
                     A: APool, A': APool, seg: nat, bs: seq<MB>, cut: Cut, req: Request)
    requires Compacted(z, z', P, P', ds, ds', A, A', seg, bs, cut.at)
    requires cut == Scan(bs, PoolStart(P, seg), PoolEnd(P, seg), LimitsOf(req), 0, 0, 0)
    requires req.Request? && 0 < req.requestedSize < U32_MOD - 15
    requires LimitsOf(req).need == 0 || cut.met
    ensures AllocFits(FreeMap(A'.L), NeedOf(req.requestedSize))
  {
    hide ListBlocks, DistinctSlots, Relocated, PayloadMoved, OutsideKept, CanonFull, CutDst, Movers, SumOf, Ordered, Scan, Placed,
         PoolStart, PoolEnd, Reachable, TargetNeed;
    var s, e := PoolStart(P, seg), PoolEnd(P, seg);
    TargetNeedExact(req.requestedSize);
    ScanFromStart(bs, s, e, LimitsOf(req));
    var o := TargetIsFree(bs, s, e, cut.at, NeedOf(req.requestedSize));
  }

  lemma ScanFromStart(bs: seq<MB>, s: nat, e: nat, l: Limits)
    ensures var c := Scan(bs, s, e, l, 0, 0, 0);
            && c.at <= |bs|
            && (l.maxBytes != 0 ==> SumOf(bs, Movers(bs, s, c.at)) <= l.maxBytes)
            && (l.maxObjects != 0 ==> |Movers(bs, s, c.at)| <= l.maxObjects)
            && (c.met ==> l.need != 0 && c.at < |bs| && !bs[c.at].pinned && Reachable(bs, s, e, c.at) >= l.need)
  {
    hide Scan, Reachable;
    assert Movers(bs, s, 0) == [] && SumOf(bs, []) == 0;
    ScanBudget(bs, s, e, l, 0);
  }

  // A targeted compaction that reports its target met, followed at once by alloc of the
  // requested size: with a free descriptor slot the allocation succeeds exactly for the sizes
  // whose target does not wrap.
  method CompactThenAlloc(g: GlobalState, pid: nat, req: Request, alignment: u32, flags: set<Flag>, userTag: u32)
      returns (st: Status, targetMet: bool, ast: Status, out: RawRef)
    requires g.Valid() && pid < 0x1_0000
    requires req.Request? && alignment <= 8 && (exists k: nat :: alignment == Pow2(k)) && UNKNOWN !in flags
    modifies g, g.zone, g.pools, g.objects
    ensures g.Valid()
    ensures st == Ok && targetMet && 0 < req.requestedSize && old(g.stack) != [] ==> (ast == Ok <==> req.requestedSize < U32_MOD - 15)
  {
    hide Inv, Compacted, LimitsOf, Scan, AllocFits, NeedOf, FreeMap, AllocEffect, OutsideKept, LivePayloadKept, PoolStart, PoolEnd, Pow2Align;
    AlignmentAccepted(alignment);
    ghost var bs, cut, blk;
    ast, out := NoSpace, RawRef(0, 0, 0, 0);
    ghost var z, P, ds, abs, stack := g.zone[..], if pid < g.pools.Length then g.pools[pid] else ZeroPool(), g.objects[..], g.abs, g.stack;
    ValidIsSized(g);
    st, targetMet, bs, cut := Compact(g, pid, req);
    if st != Ok { return; }
    ghost var ok := targetMet && 0 < req.requestedSize < U32_MOD - 15;
    if ok {
      CompactWindow(z, g.zone[..], P, g.pools[pid], ds, g.objects[..], abs[pid], g.abs[pid], g.segmentSize, bs, cut.at);
      TargetServed(z, g.zone[..], P, g.pools[pid], ds, g.objects[..], abs[pid], g.abs[pid], g.segmentSize, bs, cut, req);
      FitBelowLimit(g.zone[..], g.pools[..], g.objects[..], g.freeSlotHead, g.segmentSize, g.segmentCount, g.zoneSize, g.abs, g.stack,
                    pid, NeedOf(req.requestedSize));
    }
    ast, out, blk := Alloc(g, pid, req.requestedSize, alignment, flags, userTag);
  }

  // A free block is smaller than the zone limit, so a size that fits is not refused as too big.
  lemma FitBelowLimit(z: seq<u32>, ps: seq<Pool>, ds: seq<ObjectDesc>, head: u16, seg: nat, segCount: nat, zoneSize: nat,
                      abs: seq<APool>, stack: seq<nat>, p: nat, need: nat)
    requires Inv(z, ps, ds, head, seg, segCount, zoneSize, abs, stack) && p < |ps| && p < |abs| && !ps[p].state.Empty?
    requires AllocFits(FreeMap(abs[p].L), need)
    ensures need < ZONE_LIMIT
  {
    hide Inv, PoolOk, GeometryOk, BinsInv, HeadersOk, PrevOk, Coalesced, Tiles, PoolStart, PoolEnd;
    PoolFacts(z, ps, ds, head, seg, segCount, zoneSize, abs, stack, p);
  }

  // ---- where blocks go, and why the compaction stops ---------------------------------------------

  // Block i of the pool: pinned blocks and blocks behind the cut keep their descriptor; any other
  // block starts where its predecessor now ends, the first one at the window's start. A block that
  // really moves, and only such a block, gets the next address epoch.
  lemma PackedPlaces(z: seq<u32>, z': seq<u32>, P: Pool, P': Pool, ds: seq<ObjectDesc>, ds': seq<ObjectDesc>,
                     A: APool, A': APool, seg: nat, bs: seq<MB>, cut: nat, i: nat)
    requires Compacted(z, z', P, P', ds, ds', A, A', seg, bs, cut) && i < |bs|
    ensures bs[i].slot < |ds| == |ds'| && (i > 0 ==> bs[i - 1].slot < |ds|)
    ensures var d, d' := ds[bs[i].slot], ds'[bs[i].slot];
            && bs[i].off == d.address - 8 && bs[i].size == d.blockSize && (bs[i].pinned <==> PINNED in d.flags)
            && (PINNED in d.flags || cut <= i ==> d' == d)
            && (PINNED !in d.flags && i < cut ==>
                 d'.address - 8 == if i == 0 then P.segmentFirst * seg else ds'[bs[i - 1].slot].address - 8 + ds[bs[i - 1].slot].blockSize)
            && (d'.address == d.address ==> d' == d)
            && (d'.address != d.address ==> d'.addressEpoch == if d.addressEpoch == 0xFFFF_FFFF then 1 else d.addressEpoch + 1)
  {
    hide DistinctSlots, PayloadMoved, OutsideKept, CanonFull, Movers, SumOf, Ordered, Placed;
    assert bs[i] == BlockOf(ds, bs[i].slot);
    if i > 0 {
      assert bs[i - 1] == BlockOf(ds, bs[i - 1].slot);
      CursorStep(bs, PoolStart(P, seg), i - 1);
    }
    CursorStep(bs, PoolStart(P, seg), i);
    BumpedEpoch(ds[bs[i].slot].addressEpoch);
  }

  lemma BumpedEpoch(e: u32)
    ensures BumpEpoch(e) == if e == 0xFFFF_FFFF then 1 else e + 1
  {
  }

  // Where the packed part of the window ends.
  ghost function PackedEnd(P: Pool, ds: seq<ObjectDesc>, seg: nat, bs: seq<MB>, cut: nat): int
    requires cut <= |bs| && (forall i {:trigger bs[i]} :: 0 <= i < |bs| ==> bs[i].slot < |ds|)
  {
    if cut == 0 then P.segmentFirst * seg else ds[bs[cut - 1].slot].address - 8 + ds[bs[cut - 1].slot].blockSize
  }

  lemma ListedSlots(ds: seq<ObjectDesc>, order: seq<nat>, bs: seq<MB>)
    requires ListBlocks(ds, order, bs)
    ensures forall i {:trigger bs[i]} :: 0 <= i < |bs| ==> bs[i].slot < |ds|
  {
  }

  // A target is reported as missed before the end of the pool only if no free block at or above
  // the packed part can hold it.
  lemma {:induction false} TargetMissed(z: seq<u32>, z': seq<u32>, P: Pool, P': Pool, ds: seq<ObjectDesc>, ds': seq<ObjectDesc>,
                     A: APool, A': APool, seg: nat, bs: seq<MB>, cut: Cut, req: Request, o: nat)
    requires Compacted(z, z', P, P', ds, ds', A, A', seg, bs, cut.at)
    requires cut == Scan(bs, PoolStart(P, seg), PoolEnd(P, seg), LimitsOf(req), 0, 0, 0)
    requires req.Request? && 0 < req.requestedSize < U32_MOD - 15
    requires !cut.met && cut.at < |bs| && o in A'.L && A'.L[o].kind.Free?
    ensures |ds'| == |ds| && (forall i {:trigger bs[i]} :: 0 <= i < |bs| ==> bs[i].slot < |ds|)
    ensures PackedEnd(P, ds', seg, bs, cut.at) <= o ==> A'.L[o].size < req.requestedSize + 8
  {
    hide ListBlocks, DistinctSlots, PayloadMoved, OutsideKept, CanonFull, Movers, SumOf, Scan, Placed, EndOf, Opens, Reachable, TargetNeed,
         CutDst, PoolStart, PoolEnd, Relocated, Ordered, PackedEnd;
    var s, e, l := PoolStart(P, seg), PoolEnd(P, seg), LimitsOf(req);
    ListedSlots(ds, A.order, bs);
    PackedEndIs(P, ds, ds', A.order, seg, bs, cut.at);
    TargetNeedExact(req.requestedSize);
    assert Movers(bs, s, 0) == [] && SumOf(bs, []) == 0 by { NoMoves(bs, s); }
    ScanIsFirst(bs, s, e, l, 0);
    var Q := Placed(bs, CutDst(bs, s, cut.at));
    CutOrdered(bs, s, e, cut.at);
    var k := CanonFullGap(Q, s, e, o);
    GapShape(Q, s, e, k, A'.L[o].size);
    CanonFullTiles(Q, s, e);
    if CursorAt(bs, s, cut.at) <= o {
      GapAboveCut(bs, s, e, cut.at, k, A'.L[o].size, l.need);
      SmallBlock(A'.L[o].size, l.need, req.requestedSize);
    }
  }

  // A targeted compaction packs a block only while no gap at or above it can hold the target:
  // neither the one in front of it, which is as wide as the block then travels, nor an original
  // one behind it or behind a later block.
  lemma {:induction false} PackedInNeed(z: seq<u32>, z': seq<u32>, P: Pool, P': Pool, ds: seq<ObjectDesc>, ds': seq<ObjectDesc>,
                     A: APool, A': APool, seg: nat, bs: seq<MB>, cut: Cut, req: Request, i: nat, j: nat)
    requires Compacted(z, z', P, P', ds, ds', A, A', seg, bs, cut.at)
    requires cut == Scan(bs, PoolStart(P, seg), PoolEnd(P, seg), LimitsOf(req), 0, 0, 0)
    requires req.Request? && 0 < req.requestedSize < U32_MOD - 15
    requires i < cut.at && !bs[i].pinned && i <= j < |bs|
    ensures bs[i].slot < |ds| == |ds'| && ds[bs[i].slot].address - ds'[bs[i].slot].address < req.requestedSize + 8
    ensures (if j + 1 < |bs| then bs[j + 1].off else PoolEnd(P, seg)) - (bs[j].off + bs[j].size) < req.requestedSize + 8
  {
    hide DistinctSlots, PayloadMoved, OutsideKept, CanonFull, Movers, SumOf, Scan, Placed, EndOf, Reachable, TargetNeed, PoolStart, PoolEnd, Ordered, CursorAt;
    var s, e, l := PoolStart(P, seg), PoolEnd(P, seg), LimitsOf(req);
    TargetNeedExact(req.requestedSize);
    assert Movers(bs, s, 0) == [] && SumOf(bs, []) == 0 by { NoMoves(bs, s); }
    ScanIsFirst(bs, s, e, l, 0);
    assert !Opens(bs, s, e, i, l.need) && HoleAfter(bs, e, j) < l.need;
    assert bs[i] == BlockOf(ds, bs[i].slot);
    CursorBehind(bs, s, e, i);
    GapsAligned(bs, s, e, i, j);
    SmallBlock(bs[i].off - CursorAt(bs, s, i), l.need, req.requestedSize);
    SmallBlock(HoleAfter(bs, e, j), l.need, req.requestedSize);
  }

  lemma GapsAligned(bs: seq<MB>, s: nat, e: nat, i: nat, j: nat)
    requires Ordered(bs, s, e) && i < |bs| && j < |bs|
    ensures 0 <= bs[i].off - CursorAt(bs, s, i) && (bs[i].off - CursorAt(bs, s, i)) % ALIGN == 0
    ensures 0 <= HoleAfter(bs, e, j) && HoleAfter(bs, e, j) % ALIGN == 0
  {
    CursorBehind(bs, s, e, i);
    AlignedSum(bs[i].off, CursorAt(bs, s, i));
    AlignedSum(bs[j].off, bs[j].size);
    AlignedSum(if j + 1 < |bs| then bs[j + 1].off else e, bs[j].off + bs[j].size);
  }

  lemma PackedEndIs(P: Pool, ds: seq<ObjectDesc>, ds': seq<ObjectDesc>, order: seq<nat>, seg: nat, bs: seq<MB>, cut: nat)
    requires ListBlocks(ds, order, bs) && cut <= |bs| && Relocated(ds, ds', bs, CutDst(bs, PoolStart(P, seg), cut))
    ensures |ds'| == |ds| && (forall i {:trigger bs[i]} :: 0 <= i < |bs| ==> bs[i].slot < |ds|)
    ensures PackedEnd(P, ds', seg, bs, cut) == CursorAt(bs, PoolStart(P, seg), cut)
  {
    if cut > 0 { assert bs[cut - 1] == BlockOf(ds, bs[cut - 1].slot); }
  }

  // A gap of the rebuilt layout at or above the packed part is one that the scan has seen.
  lemma GapAboveCut(bs: seq<MB>, s: nat, e: nat, cut: nat, k: nat, size: nat, need: nat)
    requires Ordered(bs, s, e) && cut < |bs| && !Opens(bs, s, e, cut, need)
    requires var Q := Placed(bs, CutDst(bs, s, cut));
             k <= |bs| && size > 0 && CursorAt(bs, s, cut) <= EndOf(Q[..k], s) && EndOf(Q[..k], s) + size == if k < |bs| then Q[k].off else e
    ensures size < need
  {
    var Q := Placed(bs, CutDst(bs, s, cut));
    CutEnds(bs, s, cut);
    if k < cut {
      CutOrdered(bs, s, e, cut);
      hide CutDst, Placed, Opens;
      EndGrows(Q, s, e, k, cut);
    } else if k > cut {
      assert EndOf(Q[..(k - 1) + 1], s) == bs[k - 1].off + bs[k - 1].size;
      assert HoleAfter(bs, e, k - 1) == size;
    }
  }

  lemma EndGrows(bs: seq<MB>, s: nat, e: nat, k: nat, n: nat)
    requires Ordered(bs, s, e) && k < n <= |bs|
    ensures bs[k].off < EndOf(bs[..n], s)
  {
  }

  lemma GapShape(bs: seq<MB>, s: nat, e: nat, k: nat, size: nat)
    requires Ordered(bs, s, e) && k <= |bs| && EndOf(bs[..k], s) + size == if k < |bs| then bs[k].off else e
    ensures size % ALIGN == 0
  {
    OrderedPrefix(bs, s, e, k);
    AlignedSum(EndOf(bs[..k], s) + size, EndOf(bs[..k], s));
  }

  lemma SmallBlock(size: nat, need: nat, payload: nat)
    requires size < need && need == NeedOf(payload) && payload > 0 && size % ALIGN == 0
    ensures size < payload + 8
  {
  }

  // ---- the reported counts -----------------------------------------------------------------------

  function Total(w: seq<nat>): nat {
    if w == [] then 0 else Total(w[..|w| - 1]) + w[|w| - 1]
  }

  lemma {:induction false} TotalUpdate(w: seq<nat>, k: nat, v: nat)
    requires k < |w|
    ensures Total(w[k := v]) == Total(w) - w[k] + v
  {
    var n := |w| - 1;
    if k < n {
      TotalUpdate(w[..n], k, v);
      assert w[k := v][..n] == w[..n][k := v];
    } else {
      assert w[k := v][..n] == w[..n];
    }
  }

  lemma {:induction false} TotalZero(w: seq<nat>)
    requires forall i :: 0 <= i < |w| ==> w[i] == 0
    ensures Total(w) == 0
  {
    if w != [] { TotalZero(w[..|w| - 1]); }
  }

  // Per slot of the table: the block size of an object with a new address, and 1 for each.
  function MovedSizes(ds: seq<ObjectDesc>, ds': seq<ObjectDesc>): seq<nat>
    requires |ds'| == |ds|
  {
    seq(|ds|, i requires 0 <= i < |ds| => if ds'[i].address != ds[i].address then ds[i].blockSize else 0)
  }

  function MovedOnes(ds: seq<ObjectDesc>, ds': seq<ObjectDesc>): seq<nat>
    requires |ds'| == |ds|
  {
    seq(|ds|, i requires 0 <= i < |ds| => if ds'[i].address != ds[i].address then 1 else 0)
  }

  // A table that is zero but for the slots of a run of blocks adds up to the run.
  lemma {:induction false} RunTotals(bs: seq<MB>, run: seq<nat>, sizes: seq<nat>, ones: seq<nat>)
    requires DistinctSlots(bs) && |ones| == |sizes|
    requires forall a, b :: 0 <= a < b < |run| ==> run[a] < run[b]
    requires forall k :: 0 <= k < |run| ==> run[k] < |bs| && bs[run[k]].slot < |sizes|
    requires forall k :: 0 <= k < |run| ==> sizes[bs[run[k]].slot] == bs[run[k]].size && ones[bs[run[k]].slot] == 1
    requires forall i :: 0 <= i < |sizes| && !RunHolds(bs, run, i) ==> sizes[i] == 0 && ones[i] == 0
    ensures Total(sizes) == SumOf(bs, run) && Total(ones) == |run|
  {
    hide Total, DistinctSlots, RunHolds;
    if run == [] {
      NothingHeld(bs);
      TotalZero(sizes);
      TotalZero(ones);
    } else {
      var n := |run| - 1;
      var sl := bs[run[n]].slot;
      TotalUpdate(sizes, sl, 0);
      TotalUpdate(ones, sl, 0);
      RunPrefix(bs, run);
      RunTotals(bs, run[..n], sizes[sl := 0], ones[sl := 0]);
    }
  }

  lemma NothingHeld(bs: seq<MB>)
    ensures forall i :: !RunHolds(bs, [], i)
  {
  }

  // Without its last block a run holds the same slots but that block's.
  lemma RunPrefix(bs: seq<MB>, run: seq<nat>)
    requires DistinctSlots(bs) && run != [] && (forall k :: 0 <= k < |run| ==> run[k] < |bs|)
    requires forall a, b :: 0 <= a < b < |run| ==> run[a] < run[b]
    ensures var n := |run| - 1;
            && (forall i :: RunHolds(bs, run, i) ==> i == bs[run[n]].slot || RunHolds(bs, run[..n], i))
            && (forall k :: 0 <= k < n ==> bs[run[..n][k]].slot != bs[run[n]].slot)
  {
    var n := |run| - 1;
    forall i | RunHolds(bs, run, i) ensures i == bs[run[n]].slot || RunHolds(bs, run[..n], i) {
      var k :| 0 <= k < |run| && run[k] < |bs| && bs[run[k]].slot == i;
      if k < n { assert run[..n][k] == run[k]; }
    }
  }

  ghost predicate RunHolds(bs: seq<MB>, run: seq<nat>, sl: nat) {
    exists k :: 0 <= k < |run| && run[k] < |bs| && bs[run[k]].slot == sl
  }

  // The pool's record reports exactly the objects whose address changed, and their block bytes.
  lemma CountsExact(z: seq<u32>, z': seq<u32>, P: Pool, P': Pool, ds: seq<ObjectDesc>, ds': seq<ObjectDesc>,
                    A: APool, A': APool, seg: nat, bs: seq<MB>, cut: nat)
    requires Compacted(z, z', P, P', ds, ds', A, A', seg, bs, cut)
    ensures |ds'| == |ds| && P'.objectsMoved == Total(MovedOnes(ds, ds')) && P'.bytesMoved == Total(MovedSizes(ds, ds'))
  {
    hide PayloadMoved, OutsideKept, CanonFull, Movers, SumOf, Ordered, Placed, DstAt, PoolStart, PoolEnd, DistinctSlots;
    var s := PoolStart(P, seg);
    MoversShape(bs, s, cut);
    var run := Movers(bs, s, cut);
    forall k | 0 <= k < |run|
      ensures run[k] < |bs| && bs[run[k]].slot < |ds| && ds'[bs[run[k]].slot].address != ds[bs[run[k]].slot].address
      ensures ds[bs[run[k]].slot].blockSize == bs[run[k]].size && RunHolds(bs, run, bs[run[k]].slot)
    {
      assert bs[run[k]] == BlockOf(ds, bs[run[k]].slot);
    }
    forall i | 0 <= i < |ds| && !RunHolds(bs, run, i) ensures ds'[i].address == ds[i].address {
      if Blocked(bs, i) {
        var j :| 0 <= j < |bs| && bs[j].slot == i;
        assert j !in run;
      }
    }
    RunTotals(bs, run, MovedSizes(ds, ds'), MovedOnes(ds, ds'));
  }

  // ---- what does not move -------------------------------------------------------------------------

  // Pinned blocks and all blocks behind the cut keep their whole descriptor, and every object
  // keeps its generation, flags and borrow count.
  lemma NotMoved(z: seq<u32>, z': seq<u32>, P: Pool, P': Pool, ds: seq<ObjectDesc>, ds': seq<ObjectDesc>,
                 A: APool, A': APool, seg: nat, bs: seq<MB>, cut: nat, sl: nat)
    requires Compacted(z, z', P, P', ds, ds', A, A', seg, bs, cut) && sl < |ds|
    ensures |ds'| == |ds| && ds'[sl].generation == ds[sl].generation && ds'[sl].flags == ds[sl].flags
    ensures ds'[sl].activeBorrows == ds[sl].activeBorrows && ds'[sl].size == ds[sl].size
    ensures PINNED in ds[sl].flags ==> ds'[sl] == ds[sl]
    ensures forall i :: cut <= i < |bs| && bs[i].slot == sl ==> ds'[sl] == ds[sl]
    ensures sl !in A.order ==> ds'[sl] == ds[sl]
  {
    hide DistinctSlots, PayloadMoved, OutsideKept, CanonFull, Movers, SumOf, Ordered, Placed, PoolStart, PoolEnd;
    RelocatedFields(ds, ds', bs, CutDst(bs, PoolStart(P, seg), cut), sl);
    assert PINNED in ds[sl].flags ==> forall i :: 0 <= i < |bs| && bs[i].slot == sl ==> bs[i].pinned;
  }

  // A partial compaction moves the blocks that the full one moves first, to the same places.
  lemma PartialIsPrefix(bs: seq<MB>, s: nat, e: nat, l: Limits)
    ensures var part, full := Scan(bs, s, e, l, 0, 0, 0).at, Scan(bs, s, e, Limits(0, 0, 0), 0, 0, 0).at;
            && part <= full == |bs|
            && Movers(bs, s, part) <= Movers(bs, s, full)
            && (forall i :: 0 <= i < part ==> CutDst(bs, s, part)[i] == CutDst(bs, s, full)[i])
            && (forall i :: part <= i < |bs| ==> CutDst(bs, s, part)[i] == bs[i].off)
  {
    hide Scan, Movers, DstAt;
    ScanFromStart(bs, s, e, l);
    ScanUnlimited(bs, s, e, 0, 0, 0);
    MoversPrefix(bs, s, Scan(bs, s, e, l, 0, 0, 0).at, |bs|);
  }

  // ---- idempotence -----------------------------------------------------------------------------

  // Two address-ordered lists with the same blocks are equal.
  lemma {:induction false} OrderedUnique(a: seq<MB>, b: seq<MB>, s: nat, e: nat)
    requires Ordered(a, s, e) && Ordered(b, s, e) && SameBlocksIn(a, b)
    ensures a == b
  {
    hide Ordered;
    if a == [] {
      NoMembers(a, b);
    } else {
      NoMembers(b, a);
      SameLast(a, b, s, e);
      OrderedPrefix(a, s, e, |a| - 1);
      OrderedPrefix(b, s, e, |b| - 1);
      PrefixMembers(a, s, e);
      PrefixMembers(b, s, e);
      SamePrefixes(a, b);
      OrderedUnique(a[..|a| - 1], b[..|b| - 1], s, e);
      assert a == a[..|a| - 1] + [a[|a| - 1]] && b == b[..|b| - 1] + [b[|b| - 1]];
    }
  }

  ghost predicate SameBlocksIn(a: seq<MB>, b: seq<MB>) {
    forall x :: x in a <==> x in b
  }

  lemma NoMembers(a: seq<MB>, b: seq<MB>)
    requires SameBlocksIn(a, b)
    ensures a == [] ==> b == []
  {
    if b != [] { assert b[0] in a; }
  }

  lemma SamePrefixes(a: seq<MB>, b: seq<MB>)
    requires a != [] && b != [] && a[|a| - 1] == b[|b| - 1] && SameBlocksIn(a, b)
    requires forall x :: x in a[..|a| - 1] <==> x in a && x != a[|a| - 1]
    requires forall x :: x in b[..|b| - 1] <==> x in b && x != b[|b| - 1]
    ensures SameBlocksIn(a[..|a| - 1], b[..|b| - 1])
  {
    var p, q := a[..|a| - 1], b[..|b| - 1];
    forall x ensures x in p <==> x in q {
      assert x in p <==> x in a && x != a[|a| - 1];
      assert x in q <==> x in b && x != b[|b| - 1];
    }
  }

  lemma SameLast(a: seq<MB>, b: seq<MB>, s: nat, e: nat)
    requires Ordered(a, s, e) && Ordered(b, s, e) && a != [] && b != [] && SameBlocksIn(a, b)
    ensures a[|a| - 1] == b[|b| - 1]
  {
    var n, m := |a| - 1, |b| - 1;
    assert a[n] in b && b[m] in a;
    var j :| 0 <= j < |b| && b[j] == a[n];
    var k :| 0 <= k < |a| && a[k] == b[m];
    assert b[j].off <= b[m].off && a[k].off <= a[n].off;
  }

  lemma PrefixMembers(a: seq<MB>, s: nat, e: nat)
    requires Ordered(a, s, e) && a != []
    ensures forall x :: x in a[..|a| - 1] <==> x in a && x != a[|a| - 1]
  {
    var n := |a| - 1;
    assert a == a[..n] + [a[n]];
    forall i | 0 <= i < n ensures a[i] != a[n] {
      assert a[i].off < a[n].off;
    }
  }

  // A pool has one address-ordered list of blocks.
  lemma BlocksUnique(ds: seq<ObjectDesc>, order: seq<nat>, a: seq<MB>, b: seq<MB>, s: nat, e: nat)
    requires ListBlocks(ds, order, a) && ListBlocks(ds, order, b) && Ordered(a, s, e) && Ordered(b, s, e)
    ensures a == b
  {
    hide Ordered;
    ListMember(ds, order, a, b);
    ListMember(ds, order, b, a);
    OrderedUnique(a, b, s, e);
  }

  lemma ListMember(ds: seq<ObjectDesc>, order: seq<nat>, a: seq<MB>, b: seq<MB>)
    requires ListBlocks(ds, order, a) && ListBlocks(ds, order, b)
    ensures forall x :: x in a ==> x in b
  {
    forall x | x in a ensures x in b {
      var i :| 0 <= i < |a| && a[i] == x;
      assert a[i].slot in order;
      assert Blocked(b, x.slot);
      var j :| 0 <= j < |b| && b[j].slot == x.slot;
      assert b[j] == BlockOf(ds, x.slot);
    }
  }

  // A full compaction right after a full compaction moves nothing and rebuilds the same layout.
  lemma SecondFullCompact(z: seq<u32>, z1: seq<u32>, z2: seq<u32>, P: Pool, P1: Pool, P2: Pool,
                          ds: seq<ObjectDesc>, ds1: seq<ObjectDesc>, ds2: seq<ObjectDesc>,
                          pid: nat, A: APool, A1: APool, A2: APool, seg: nat, bs: seq<MB>, bs1: seq<MB>)
    requires PoolOk(z, P, ds, pid, A, seg)
    requires Compacted(z, z1, P, P1, ds, ds1, A, A1, seg, bs, |bs|)
    requires Compacted(z1, z2, P1, P2, ds1, ds2, A1, A2, seg, bs1, |bs1|)
    ensures P2.objectsMoved == 0 && P2.bytesMoved == 0 && A2.L == A1.L && ds2 == ds1
  {
    hide DistinctSlots, PayloadMoved, OutsideKept, CanonFull, Movers, SumOf, Ordered, Relocated, PoolLay, Counters, CutDst, Placed,
         PoolStart, PoolEnd, ObjsOk, ListBlocks;
    var s, e := PoolStart(P, seg), PoolEnd(P, seg);
    SameWindow(P, P1, seg);
    PlacedList(z, P, ds, ds1, pid, A, seg, bs);
    CutOrdered(bs, s, e, |bs|);
    BlocksUnique(ds1, A.order, Placed(bs, CutDst(bs, s, |bs|)), bs1, s, e);
    SecondCompactMovesNothing(bs, s);
    NothingMoves(ds1, ds2, bs1, s);
    assert SumOf(bs1, []) == 0 by { EmptySum(bs1); }
  }

  lemma EmptySum(bs: seq<MB>)
    ensures SumOf(bs, []) == 0
  {
  }

  lemma PlacedList(z: seq<u32>, P: Pool, ds: seq<ObjectDesc>, ds': seq<ObjectDesc>, pid: nat, A: APool, seg: nat, bs: seq<MB>)
    requires PoolOk(z, P, ds, pid, A, seg) && ListBlocks(ds, A.order, bs)
    requires Relocated(ds, ds', bs, CutDst(bs, PoolStart(P, seg), |bs|))
    ensures ListBlocks(ds', A.order, Placed(bs, CutDst(bs, PoolStart(P, seg), |bs|)))
    ensures |Placed(bs, CutDst(bs, PoolStart(P, seg), |bs|))| == |bs|
  {
    hide PoolLay, Counters, ListBlocks, Relocated, CutDst, PoolStart;
    RelocatedList(ds, ds', P.orderHead, pid, A.L, A.order, bs, CutDst(bs, PoolStart(P, seg), |bs|));
  }

  lemma NothingMoves(ds: seq<ObjectDesc>, ds': seq<ObjectDesc>, bs: seq<MB>, s: nat)
    requires Movers(bs, s, |bs|) == [] && Relocated(ds, ds', bs, CutDst(bs, s, |bs|))
    ensures ds' == ds && Placed(bs, CutDst(bs, s, |bs|)) == bs
  {
    hide Movers, DstAt;
    MoversShape(bs, s, |bs|);
    forall i | 0 <= i < |bs| ensures CutDst(bs, s, |bs|)[i] == bs[i].off {
      assert i !in Movers(bs, s, |bs|);
    }
    forall sl | 0 <= sl < |ds| ensures ds'[sl] == ds[sl] {
      if Blocked(bs, sl) {
        var i :| 0 <= i < |bs| && bs[i].slot == sl;
      }
    }
  }

  // ---- a pin-free pool ---------------------------------------------------------------------------

  // A full compaction of a pool without pinned objects leaves all free space in one tail run.
  lemma PinFreeOneRun(z: seq<u32>, z': seq<u32>, P: Pool, P': Pool, ds: seq<ObjectDesc>, ds': seq<ObjectDesc>,
                      A: APool, A': APool, seg: nat, bs: seq<MB>)
    requires Compacted(z, z', P, P', ds, ds', A, A', seg, bs, |bs|)
    requires forall sl :: sl in A.order && sl < |ds| ==> PINNED !in ds[sl].flags
    ensures var m := PoolStart(P, seg) + P.usedBytes;
            forall o :: o in A'.L && !A'.L[o].kind.Live? ==> o == m && A'.L[o].size == PoolEnd(P, seg) - m
  {
    hide DistinctSlots, PayloadMoved, OutsideKept, CanonFull, Movers, SumOf, Ordered, Relocated, Placed, CutDst, PoolStart, PoolEnd, SumSizes;
    forall i | 0 <= i < |bs| ensures !bs[i].pinned {
      assert bs[i].slot in A.order;
    }
    PinFreeTail(bs, PoolStart(P, seg), PoolEnd(P, seg));
  }
}
