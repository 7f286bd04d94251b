/** analyze_compaction: the read-only move estimate and what it is worth. */
module Advice {
  import opened Base
  import opened Lists
  import opened SizeClass
  import opened Bins
  import opened Layout
  import opened PoolHeap
  import opened Objects
  import opened State
  import opened Refs
  import opened AllocOp
  import opened Blocks
  import opened Collect
  import opened Precheck
  import opened Moves
  import opened Plan
  import opened Relocate
  import opened CompactOp
  import opened CompactProps
  import opened Audit
  import opened Validate

  // ---- the largest binned block ------------------------------------------------------------------

  ghost predicate IsLargest(F: map<nat, nat>, n: nat) {
    (forall o :: o in F ==> F[o] <= n) && (n == 0 || exists o :: o in F && F[o] == n)
  }

  // The largest size in the first k bins, and behind the first i nodes of bin k.
  ghost predicate LargestSoFar(F: map<nat, nat>, seen: seq<nat>, n: nat) {
    (forall o :: o in seen && o in F ==> F[o] <= n) && (n == 0 || exists o :: o in F && F[o] == n)
  }

  lemma LargestStep(F: map<nat, nat>, seen: seq<nat>, n: nat, o: nat)
    requires LargestSoFar(F, seen, n) && o in F
    ensures LargestSoFar(F, seen + [o], if F[o] > n then F[o] else n)
  {
  }

  // get_stats's bounded walk over all bins: on a consistent pool it never gives up.
  method LargestFree(zone: array<u32>, b: TlsfBins, start: nat, end: nat, ghost L: Lay, ghost lists: seq<seq<nat>>) returns (valid: bool, largest: nat)
    requires PoolLay(zone[..], b, L, lists, start, end) && start <= end && end + MIN_BLOCK <= zone.Length && |b.head| == NBINS
    ensures valid && IsLargest(FreeMap(L), largest)
  {
    hide PoolLay, FreeMap, LargestSoFar, Flat, Chain, NodesOk, BlkSize;
    ghost var z, F := zone[..], FreeMap(L);
    StatsFacts(z, b, L, lists, start, end);
    PoolFlat(z, b, L, lists, start, end);
    largest := 0;
    valid := false;
    var maxSteps := (end - start) / MIN_BLOCK + 1;
    StartLargest(F);
    for k := 0 to NBINS
      invariant LargestSoFar(F, Flat(lists, k), largest)
    {
      var off := b.head[k];
      ghost var list, base := lists[k], Flat(lists, k);
      ghost var i: nat := 0;
      assert BinAudited(z, b, list, k, start, end);
      ChainAt(z, list, off, k, start, end, 0);
      assert base + list[..0] == base;
      var steps := 0;
      while off != NULL_OFF
        invariant i <= |list| && steps == i && off == At(list, i) && (off == NULL_OFF <==> i == |list|)
        invariant LargestSoFar(F, base + list[..i], largest)
        decreases |list| - i
      {
        ChainAt(z, list, b.head[k], k, start, end, i);
        ChainAt(z, list, b.head[k], k, start, end, i + 1);
        ListNode(z, b, L, lists, start, end, k, i);
        if steps > maxSteps { return; }
        if off < start || off > end - HEADER { return; }
        LargestStep(F, base + list[..i], largest, off);
        assert base + list[..i + 1] == base + list[..i] + [list[i]];
        if BlkSize(zone[off]) > largest { largest := BlkSize(zone[off]); }
        off := zone[off + 12];
        i := i + 1;
        steps := steps + 1;
      }
      FlatNext(lists, k);
      assert base + list[..|list|] == base + list;
    }
    AllSeen(F, Flat(lists, NBINS), largest);
    valid := true;
  }

  lemma FlatNext(lists: seq<seq<nat>>, k: nat)
    requires k < |lists|
    ensures Flat(lists, k + 1) == Flat(lists, k) + lists[k] && Flat(lists, 0) == []
  {
  }

  lemma StartLargest(F: map<nat, nat>)
    ensures LargestSoFar(F, Flat([], 0), 0) && forall lists :: Flat(lists, 0) == []
  {
  }

  lemma AllSeen(F: map<nat, nat>, seen: seq<nat>, n: nat)
    requires LargestSoFar(F, seen, n) && forall o :: o in seen <==> o in F
    ensures IsLargest(F, n)
  {
  }

  lemma StatsFacts(z: seq<u32>, b: TlsfBins, L: Lay, lists: seq<seq<nat>>, s: nat, e: nat)
    requires PoolLay(z, b, L, lists, s, e) && s <= e && e + MIN_BLOCK <= |z|
    ensures BinShape(b, lists) && BinsAudited(z, b, lists, s, e) && e < ZONE_LIMIT
  {
    hide LayoutInv, BinsInv, Chain, NodesOk;
    PoolBinsAudited(z, b, L, lists, s, e);
    WindowOrder(z, L, s, e);
  }

  lemma ListNode(z: seq<u32>, b: TlsfBins, L: Lay, lists: seq<seq<nat>>, s: nat, e: nat, k: nat, i: nat)
    requires PoolLay(z, b, L, lists, s, e) && s <= e && e + MIN_BLOCK <= |z| && |lists| == NBINS && k < NBINS && i < |lists[k]|
    requires BinShape(b, lists) && BinsAudited(z, b, lists, s, e)
    ensures var o := lists[k][i];
            && o in FreeMap(L) && s <= o && o + MIN_BLOCK <= e && o < |z| && BlkSize(z[o]) == FreeMap(L)[o]
            && |lists[k]| <= (e - s) / MIN_BLOCK + 1
  {
    hide LayoutInv, BinsInv, Chain, NodesOk, BlkSize;
    LayBins(z, b, L, lists, s, e);
    BinMembers(z, b, lists, FreeMap(L), k);
    assert BinAudited(z, b, lists[k], k, s, e);
    assert lists[k][i] in lists[k];
    WindowOrder(z, L, s, e);
    BlockHeaderFacts(z, L, s, e, lists[k][i]);
  }

  // ---- the analysis -----------------------------------------------------------------------------

  datatype Expected = NoExpected | Expected(size: u32, alignment: u32)

  // A malformed expectation is the caller's error.
  predicate BadExpectation(x: Expected) {
    x.Expected? && (x.size == 0 || (x.alignment != 0 && !Pow2Align(x.alignment)) || x.size > U32_MOD - 1 - (ALIGN - 1)
                    || AlignUp8(x.size) > U32_MOD - 1 - HEADER || NeedOf(x.size) >= ZONE_LIMIT)
  }

  // The sizes it rejects are 0 and those whose block would reach the size limit.
  lemma BadExpectationMeans(x: Expected)
    ensures BadExpectation(x) <==>
              && x.Expected?
              && (x.size == 0 || x.size > 0xFF_FFF0 || (x.alignment != 0 && !(x.alignment <= 8 && exists k: nat :: x.alignment == Pow2(k))))
  {
    hide Pow2Align;
    if x.Expected? {
      AlignmentAccepted(x.alignment);
      NeedLimit(x.size);
    }
  }

  lemma NeedLimit(size: nat)
    ensures NeedOf(size) >= ZONE_LIMIT <==> size > 0xFF_FFF0
    ensures AlignUp8(size) < size + 8
  {
  }

  datatype Verdict = InvalidMetadata | InvalidRequest | Blocked | Analyzed

  datatype Advice = Advice(verdict: Verdict, movedObjects: nat, movedBytes: nat, largestFree: nat, fitsNow: bool, hasPinned: bool)

  // The simulation of compact's packing over the sorted slots.
  method SimulatePacking(objects: array<ObjectDesc>, slots: seq<nat>, start: nat, ghost end: nat) returns (movedObjects: nat, movedBytes: nat, hasPinned: bool)
    requires Addressed(objects[..], slots) && Ordered(BlocksOf(objects[..], slots), start, end)
    ensures var bs := BlocksOf(objects[..], slots);
            && movedObjects == |Movers(bs, start, |bs|)| && movedBytes == SumOf(bs, Movers(bs, start, |bs|))
            && (hasPinned <==> exists i :: 0 <= i < |bs| && bs[i].pinned)
  {
    hide BlocksOf, Ordered, Movers, SumOf, DstAt, CursorAt;
    ghost var ds := objects[..];
    ghost var bs := BlocksOf(ds, slots);
    movedObjects, movedBytes, hasPinned := 0, 0, false;
    var cursor: nat := start;
    SimulationStart(bs, start);
    for i := 0 to |slots|
      invariant cursor == CursorAt(bs, start, i)
      invariant movedObjects == |Movers(bs, start, i)| && movedBytes == SumOf(bs, Movers(bs, start, i))
      invariant hasPinned <==> exists j :: 0 <= j < i && bs[j].pinned
    {
      var d := objects[slots[i]];
      BlocksIndex(ds, slots, i);
      CursorStep(bs, start, i);
      ScanStep(bs, start, i);
      assert bs[i] == MB(slots[i], d.address - HEADER, d.blockSize, PINNED in d.flags);
      var bstart: nat := d.address - HEADER;
      if PINNED in d.flags {
        hasPinned := true;
        cursor := bstart + d.blockSize;
        continue;
      }
      if cursor != bstart {
        movedObjects := movedObjects + 1;
        movedBytes := movedBytes + d.blockSize;
      }
      cursor := cursor + d.blockSize;
    }
  }

  lemma SimulationStart(bs: seq<MB>, s: nat)
    ensures CursorAt(bs, s, 0) == s && Movers(bs, s, 0) == [] && SumOf(bs, Movers(bs, s, 0)) == 0
  {
  }

  // analyze_compaction on a consistent allocator: an existing pool and a well-formed expectation
  // always give an estimate, and it is the full compaction's own move list.
  method Analyze(g: GlobalState, pid: nat, x: Expected) returns (a: Advice, ghost bs: seq<MB>)
    requires g.Valid()
    ensures a.verdict.InvalidRequest? <==>
              && x.Expected?
              && (x.size == 0 || x.size > 0xFF_FFF0 || (x.alignment != 0 && !(x.alignment <= 8 && exists k: nat :: x.alignment == Pow2(k))))
    ensures a.verdict.InvalidMetadata? <==> !a.verdict.InvalidRequest? && (pid >= g.pools.Length || g.pools[pid].state.Empty?)
    ensures a.verdict.Blocked? || a.verdict.Analyzed? ==>
              && pid < g.pools.Length && pid < |g.abs| && (a.verdict.Blocked? <==> g.pools[pid].borrowCount != 0)
              && var s, e := PoolStart(g.pools[pid], g.segmentSize), PoolEnd(g.pools[pid], g.segmentSize);
              && Ordered(bs, s, e) && ListBlocks(g.objects[..], g.abs[pid].order, bs)
              && a.movedObjects == |Movers(bs, s, |bs|)| && a.movedBytes == SumOf(bs, Movers(bs, s, |bs|))
              && IsLargest(FreeMap(g.abs[pid].L), a.largestFree)
              && (a.fitsNow <==> x.Expected? && exists o: nat :: HoldsPayload(g.abs[pid].L, o, x.size))
              && (a.hasPinned <==> exists i :: 0 <= i < |bs| && bs[i].pinned)
  {
    hide Inv, PoolOk, SlotsOk, GeometryOk, ZoneOk, PoolLay, PoolStart, PoolEnd, Collected, GoodList, BlocksOf, Ordered, ListBlocks, Movers, SumOf, FreeMap,
         NeedOf, BadExpectation, IsLargest, HoldsPayload, AllocFits;
    bs := [];
    a := Advice(InvalidMetadata, 0, 0, 0, false, false);
    BadExpectationMeans(x);
    if BadExpectation(x) { return a.(verdict := Verdict.InvalidRequest), bs; }
    if pid >= g.pools.Length { return; }
    var P := g.pools[pid];
    if P.state.Empty? { return; }
    ghost var z, ds := g.zone[..], g.objects[..];
    PoolFacts(z, g.pools[..], ds, g.freeSlotHead, g.segmentSize, g.segmentCount, g.zoneSize, g.abs, g.stack, pid);
    ZoneFacts(z, g.pools[..], ds, g.freeSlotHead, g.segmentSize, g.segmentCount, g.zoneSize, g.abs, g.stack);
    ghost var A := g.abs[pid];
    AuditWindow(z, P, ds, pid, A, g.segmentSize, g.segmentCount, g.zoneSize);
    WindowBounds(z, P, g.segmentSize, g.segmentCount, g.zoneSize);
    PoolListGood(z, P, ds, pid, A, g.segmentSize);
    OrderFits(z, P, ds, pid, A, g.segmentSize);
    var start, end := PoolStart(P, g.segmentSize), PoolEnd(P, g.segmentSize);
    var st, slots;
    ghost var order;
    st, slots, order := CollectLiveSorted(g.objects, P.orderHead, pid, g.zoneSize, g.objects.Length, A.order);
    PoolAudits(z, P, ds, pid, A, g.segmentSize, slots);
    CollectedBlocks(ds, P.orderHead, pid, A.order, slots);
    if st != Ok { return; }
    bs := BlocksOf(ds, slots);
    var objs, bytes, pinned := SimulatePacking(g.objects, slots, start, end);
    var valid, largest := LargestFree(g.zone, P.bins, start, end, A.L, A.lists);
    CountersHold(z, P, ds, pid, A, g.segmentSize, largest);
    if !valid { return; }
    // Counter audit before any verdict arithmetic.
    var countersOk := P.usedBytes + P.freeBytes == end - start && P.fragmentBytes <= P.freeBytes
                      && largest <= P.freeBytes - P.fragmentBytes && |slots| == P.liveObjects;
    if !countersOk { return; }
    var fits := x.Expected? && largest >= NeedOf(x.size);
    if x.Expected? {
      LargestFits(FreeMap(A.L), largest, NeedOf(x.size));
      FitsMeans(z, g.pools[..], ds, g.freeSlotHead, g.segmentSize, g.segmentCount, g.zoneSize, g.abs, g.stack, pid, x.size);
    }
    a := Advice(if P.borrowCount != 0 then Blocked else Analyzed, objs, bytes, largest, fits, pinned);
  }

  lemma CountersHold(z: seq<u32>, P: Pool, ds: seq<ObjectDesc>, pid: nat, A: APool, seg: nat, largest: nat)
    requires PoolOk(z, P, ds, pid, A, seg) && IsLargest(FreeMap(A.L), largest)
    ensures P.usedBytes + P.freeBytes == PoolEnd(P, seg) - PoolStart(P, seg)
    ensures P.fragmentBytes <= P.freeBytes && largest <= P.freeBytes - P.fragmentBytes
  {
    hide BinsInv, ObjsOk, LayoutInv, Bytes, PoolStart, PoolEnd, FreeMap;
    TilesOf(z, A.L, PoolStart(P, seg), PoolEnd(P, seg));
    Accounting(A.L, PoolStart(P, seg), PoolEnd(P, seg));
    LargestBelow(A.L, largest);
  }

  lemma LargestBelow(L: Lay, n: nat)
    requires IsLargest(FreeMap(L), n)
    ensures n <= Bytes(L, TFree)
  {
    if n > 0 {
      var o :| o in FreeMap(L) && FreeMap(L)[o] == n;
      BytesRemove(L, o, TFree);
    }
  }

  lemma LargestFits(F: map<nat, nat>, n: nat, need: nat)
    requires IsLargest(F, n) && need > 0
    ensures n >= need <==> AllocFits(F, need)
  {
  }

  // The estimate is exact: a full compaction right after an unblocked analysis moves as many
  // objects and bytes as announced.
  method AnalyzeThenCompact(g: GlobalState, pid: nat) returns (a: Advice, st: Status)
    requires g.Valid()
    modifies g, g.zone, g.pools, g.objects
    ensures g.Valid()
    ensures a.verdict.Analyzed? <==> st == Ok
    ensures st == Ok ==> pid < g.pools.Length && g.pools[pid].objectsMoved == a.movedObjects && g.pools[pid].bytesMoved == a.movedBytes
  {
    hide Inv, Compacted, PoolStart, PoolEnd, Ordered, ListBlocks, Movers, SumOf, FreeMap, IsLargest, Scan;
    ghost var bs, bs', cut;
    a, bs := Analyze(g, pid, NoExpected);
    ghost var z, ds, abs := g.zone[..], g.objects[..], g.abs;
    ghost var P := if pid < g.pools.Length then g.pools[pid] else ZeroPool();
    var met;
    ValidIsSized(g);
    st, met, bs', cut := Compact(g, pid, NoRequest);
    if st == Ok {
      EstimateExact(z, g.zone[..], P, g.pools[pid], ds, g.objects[..], abs[pid], g.abs[pid], g.segmentSize, bs, bs', cut);
    }
  }

  lemma EstimateExact(z: seq<u32>, z': seq<u32>, P: Pool, P': Pool, ds: seq<ObjectDesc>, ds': seq<ObjectDesc>, A: APool, A': APool,
                      seg: nat, bs: seq<MB>, bs': seq<MB>, cut: Cut)
    requires Compacted(z, z', P, P', ds, ds', A, A', seg, bs', cut.at)
    requires Ordered(bs, PoolStart(P, seg), PoolEnd(P, seg)) && ListBlocks(ds, A.order, bs)
    requires cut == Scan(bs', PoolStart(P', seg), PoolEnd(P', seg), Limits(0, 0, 0), 0, 0, 0)
    ensures P'.objectsMoved == |Movers(bs, PoolStart(P, seg), |bs|)|
    ensures P'.bytesMoved == SumOf(bs, Movers(bs, PoolStart(P, seg), |bs|))
  {
    hide DistinctSlots, PayloadMoved, OutsideKept, CanonFull, Movers, SumOf, Ordered, Relocated, Placed, CutDst, PoolStart, PoolEnd, ListBlocks, Scan;
    BlocksUnique(ds, A.order, bs, bs', PoolStart(P, seg), PoolEnd(P, seg));
    ScanUnlimited(bs', PoolStart(P', seg), PoolEnd(P', seg), 0, 0, 0);
  }
}
