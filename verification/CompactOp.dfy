/** compact and partial compact: arm, audit, plan, execute, commit. */
module CompactOp {
  import opened Base
  import opened Lists
  import opened SizeClass
  import opened Bins
  import opened Layout
  import opened PoolHeap
  import opened Objects
  import opened State
  import opened Refs
  import opened AllocOp
  import opened Blocks
  import opened Collect
  import opened Precheck
  import opened Moves
  import opened Plan
  import opened Finalize
  import opened Relocate

  // A CompactionRequest; NoRequest is the full form.
  datatype Request =
    | NoRequest
    | Request(requestedSize: u32, requestedAlignment: u32, maxMoveBytes: u32, maxMoveObjects: u32)

  // (requested_size + 8 + 7) & ~7 in 32 bits.
  function TargetNeed(size: u32): nat {
    var v := (size + HEADER + 7) % U32_MOD;
    v - v % 8
  }

  predicate BadAlignment(req: Request) {
    req.Request? && req.requestedSize != 0 && req.requestedAlignment != 0 && !Pow2Align(req.requestedAlignment)
  }

  function LimitsOf(req: Request): Limits {
    match req
    case NoRequest => Limits(0, 0, 0)
    case Request(size, _, bytes, objects) => Limits(if size == 0 then 0 else TargetNeed(size), bytes, objects)
  }

  // ---- planning -----------------------------------------------------------------------------

  lemma BlocksIndex(ds: seq<ObjectDesc>, slots: seq<nat>, i: nat)
    requires Addressed(ds, slots) && i < |slots|
    ensures slots[i] < |ds| && HEADER <= ds[slots[i]].address && |BlocksOf(ds, slots)| == |slots|
    ensures BlocksOf(ds, slots)[i] == BlockOf(ds, slots[i])
  {
  }

  // The payload of every block fits in it.
  ghost predicate PayloadFits(ds: seq<ObjectDesc>, slots: seq<nat>) {
    forall i :: 0 <= i < |slots| ==> slots[i] < |ds| && ds[slots[i]].size + HEADER <= ds[slots[i]].blockSize
  }

  // The pinned barriers of the window, in address order.
  method CollectBarriers(objects: array<ObjectDesc>, slots: seq<nat>, start: nat, end: nat)
      returns (st: Status, barriers: seq<nat>)
    requires Addressed(objects[..], slots) && Ordered(BlocksOf(objects[..], slots), start, end)
    requires PayloadFits(objects[..], slots)
    ensures st == Ok && barriers == PinnedOffs(BlocksOf(objects[..], slots), |slots|)
  {
    hide BlocksOf, Ordered;
    ghost var ds := objects[..];
    ghost var bs := BlocksOf(ds, slots);
    barriers := [];
    for i := 0 to |slots|
      invariant barriers == PinnedOffs(bs, i)
    {
      var d := objects[slots[i]];
      BlocksIndex(ds, slots, i);
      BlockInside(bs, start, end, i);
      if PINNED !in d.flags { continue; }
      if d.address - HEADER < start || d.address + d.size > end { return CorruptMetadata, barriers; }
      barriers := barriers + [d.address - HEADER];
    }
    return Ok, barriers;
  }

  lemma BlockInside(bs: seq<MB>, s: nat, e: nat, i: nat)
    requires Ordered(bs, s, e) && i < |bs|
    ensures s <= bs[i].off && bs[i].off + bs[i].size <= e && MIN_BLOCK <= bs[i].size
    ensures i + 1 < |bs| ==> bs[i].off + bs[i].size <= bs[i + 1].off
    ensures bs[i].size % ALIGN == 0 && bs[i].off % ALIGN == 0
  {
  }

  // The suffix maximum of the holes, from the last block down.
  method SuffixHoles(objects: array<ObjectDesc>, slots: seq<nat>, ghost start: nat, end: nat) returns (holes: array<nat>)
    requires Addressed(objects[..], slots) && Ordered(BlocksOf(objects[..], slots), start, end)
    ensures fresh(holes) && holes.Length == |slots|
    ensures forall i :: 0 <= i < |slots| ==> holes[i] == SuffixHole(BlocksOf(objects[..], slots), end, i)
  {
    hide BlocksOf, Ordered, SuffixHole, HoleAfter;
    ghost var ds := objects[..];
    ghost var bs := BlocksOf(ds, slots);
    var n := |slots|;
    holes := new nat[n](_ => 0);
    if n == 0 { return; }
    var last := objects[slots[n - 1]];
    BlocksIndex(ds, slots, n - 1);
    BlockInside(bs, start, end, n - 1);
    HoleStep(bs, end, n - 1);
    var run: nat := end - (last.address - HEADER + last.blockSize);
    holes[n - 1] := run;
    var i := n - 1;
    while i > 0
      invariant 0 <= i < n && run == SuffixHole(bs, end, i)
      invariant forall k :: i <= k < n ==> holes[k] == SuffixHole(bs, end, k)
    {
      i := i - 1;
      var d, dn := objects[slots[i]], objects[slots[i + 1]];
      BlocksIndex(ds, slots, i);
      BlocksIndex(ds, slots, i + 1);
      BlockInside(bs, start, end, i);
      HoleStep(bs, end, i);
      var hole: nat := (dn.address - HEADER) - (d.address - HEADER + d.blockSize);
      if hole > run { run := hole; }
      holes[i] := run;
    }
  }

  lemma HoleStep(bs: seq<MB>, e: nat, i: nat)
    requires i < |bs|
    ensures HoleAfter(bs, e, i) == (if i + 1 < |bs| then bs[i + 1].off else e) - (bs[i].off + bs[i].size)
    ensures SuffixHole(bs, e, i) == if i + 1 == |bs| || HoleAfter(bs, e, i) > SuffixHole(bs, e, i + 1) then HoleAfter(bs, e, i) else SuffixHole(bs, e, i + 1)
  {
  }

  // The plan so far lists the movers among the first i blocks.
  ghost predicate Planned(plan: seq<PlanEntry>, bs: seq<MB>, s: nat, i: nat) {
    && i <= |bs| && |plan| == |Movers(bs, s, i)|
    && (forall k :: 0 <= k < |plan| ==>
         var m := Movers(bs, s, i)[k]; plan[k] == PlanEntry(bs[m].slot, DstAt(bs, s, m), bs[m].size))
  }

  lemma PlannedStep(plan: seq<PlanEntry>, bs: seq<MB>, s: nat, i: nat)
    requires Planned(plan, bs, s, i) && i < |bs|
    ensures DstAt(bs, s, i) == bs[i].off ==> Planned(plan, bs, s, i + 1)
    ensures DstAt(bs, s, i) != bs[i].off ==> Planned(plan + [PlanEntry(bs[i].slot, DstAt(bs, s, i), bs[i].size)], bs, s, i + 1)
  {
    hide DstAt;
  }

  lemma PlannedCut(plan: seq<PlanEntry>, bs: seq<MB>, s: nat, cut: nat)
    requires Planned(plan, bs, s, cut)
    ensures PlanOf(plan, bs, CutDst(bs, s, cut), Movers(bs, s, cut))
  {
    hide DstAt, Movers;
  }

  // The cursor loop of compact_impl over audited slots. Its conflict and space branches are
  // never taken; what it returns is the declarative cut and the movers before it.
  method PlanCompact(objects: array<ObjectDesc>, slots: seq<nat>, start: nat, end: nat, req: Request)
      returns (st: Status, plan: seq<PlanEntry>, met: bool, ghost cut: Cut)
    requires Addressed(objects[..], slots) && Ordered(BlocksOf(objects[..], slots), start, end)
    requires PayloadFits(objects[..], slots)
    ensures st == if BadAlignment(req) then InvalidRequest else Ok
    ensures st == Ok ==>
              var bs := BlocksOf(objects[..], slots);
              && cut == Scan(bs, start, end, LimitsOf(req), 0, 0, 0) && cut.at <= |bs|
              && met == (LimitsOf(req).need == 0 || cut.met)
              && PlanOf(plan, bs, CutDst(bs, start, cut.at), Movers(bs, start, cut.at))
  {
    hide BlocksOf, Ordered, PlanOf, CutDst, Movers, SuffixHole, PinnedOffs, DstAt, CursorAt, Planned, TargetNeed, PayloadFits, Scan;
    ghost var ds := objects[..];
    ghost var bs := BlocksOf(ds, slots);
    plan, met, cut := [], false, Cut(0, false);
    var barriers;
    st, barriers := CollectBarriers(objects, slots, start, end);
    if req.Request? && req.requestedSize != 0 && req.requestedAlignment != 0 && !Pow2Align(req.requestedAlignment) {
      return InvalidRequest, plan, met, cut;
    }
    var l := LimitsOf(req);
    met := l.need == 0;
    var holes := SuffixHoles(objects, slots, start, end);
    var cursor: nat, bar: nat, movedBytes: nat, movedObjects: nat, i: nat := start, 0, 0, 0, 0;
    ghost var goal := Scan(bs, start, end, l, 0, 0, 0);
    PlanStart(bs, start);
    cut := Cut(|slots|, false);
    while i < |slots|
      invariant i <= |slots| && cursor == CursorAt(bs, start, i) && bar == |PinnedOffs(bs, i)|
      invariant Planned(plan, bs, start, i) && forall k :: 0 <= k < |slots| ==> holes[k] == SuffixHole(bs, end, k)
      invariant goal == Scan(bs, start, end, l, i, movedBytes, movedObjects)
      invariant met == (l.need == 0) && cut == Cut(|slots|, false)
    {
      var d := objects[slots[i]];
      var bstart: nat := d.address - HEADER;
      var bsize := d.blockSize;
      BlocksIndex(ds, slots, i);
      CursorStep(bs, start, i);
      PlanIsTotal(bs, start, end, i);
      PlannedStep(plan, bs, start, i);
      ScanAt(bs, start, end, l, i, movedBytes, movedObjects);
      assert bs[i] == MB(slots[i], bstart, bsize, PINNED in d.flags);
      if PINNED in d.flags {
        if cursor > bstart { return PinnedConflict, plan, met, cut; }
        cursor := bstart + bsize;
        bar := bar + 1;
        i := i + 1;
        continue;
      }
      var barrier := if bar < |barriers| then barriers[bar] else end;
      if cursor + bsize > barrier {
        if req.Request? { break; }
        return if bar < |barriers| then PinnedConflict else NoSpace, plan, met, cut;
      }
      CursorLeft(bs, start, end, i);
      if l.need != 0 {
        var walked: nat := bstart - cursor;
        var best := if walked > holes[i] then walked else holes[i];
        if best >= l.need {
          met := true;
          cut := Cut(i, true);
          break;
        }
      }
      if (l.maxBytes != 0 && movedBytes + bsize > l.maxBytes) || (l.maxObjects != 0 && movedObjects + 1 > l.maxObjects) {
        cut := Cut(i, false);
        break;
      }
      if bstart != cursor {
        plan := plan + [PlanEntry(slots[i], cursor, bsize)];
        movedBytes := movedBytes + bsize;
        movedObjects := movedObjects + 1;
      }
      cursor := cursor + bsize;
      i := i + 1;
    }
    PlannedCut(plan, bs, start, i);
    assert Scan(bs, start, end, l, |slots|, movedBytes, movedObjects) == Cut(|slots|, false) by { ScanEnd(bs, start, end, l, movedBytes, movedObjects); }
    return Ok, plan, met, cut;
  }

  lemma ScanEnd(bs: seq<MB>, s: nat, e: nat, l: Limits, movedBytes: nat, movedObjects: nat)
    ensures Scan(bs, s, e, l, |bs|, movedBytes, movedObjects) == Cut(|bs|, false)
  {
  }

  // One step of the declarative scan, in the cursor's terms.
  lemma ScanAt(bs: seq<MB>, s: nat, e: nat, l: Limits, i: nat, movedBytes: nat, movedObjects: nat)
    requires i < |bs|
    ensures var c := Scan(bs, s, e, l, i, movedBytes, movedObjects);
            if bs[i].pinned then c == Scan(bs, s, e, l, i + 1, movedBytes, movedObjects)
            else if l.need != 0 && (bs[i].off - CursorAt(bs, s, i) >= l.need || SuffixHole(bs, e, i) >= l.need) then c == Cut(i, true)
            else if OverBudget(l, movedBytes, movedObjects, bs[i].size) then c == Cut(i, false)
            else if DstAt(bs, s, i) != bs[i].off then c == Scan(bs, s, e, l, i + 1, movedBytes + bs[i].size, movedObjects + 1)
            else c == Scan(bs, s, e, l, i + 1, movedBytes, movedObjects)
  {
    hide SuffixHole, CursorAt, DstAt;
  }

  lemma PlanStart(bs: seq<MB>, s: nat)
    ensures CursorAt(bs, s, 0) == s && PinnedOffs(bs, 0) == [] && Planned([], bs, s, 0)
  {
  }

  lemma CursorStep(bs: seq<MB>, s: nat, i: nat)
    requires i < |bs|
    ensures CursorAt(bs, s, i + 1) == DstAt(bs, s, i) + bs[i].size
    ensures DstAt(bs, s, i) == if bs[i].pinned then bs[i].off else CursorAt(bs, s, i)
    ensures |PinnedOffs(bs, i + 1)| == |PinnedOffs(bs, i)| + if bs[i].pinned then 1 else 0
  {
  }

  lemma CursorLeft(bs: seq<MB>, s: nat, e: nat, i: nat)
    requires Ordered(bs, s, e) && i < |bs|
    ensures CursorAt(bs, s, i) <= bs[i].off
  {
    CursorBehind(bs, s, e, i);
  }

  // ---- the effect on descriptors ---------------------------------------------------------------

  // Every block's descriptor shows its destination; a moved one has a new address epoch;
  // nothing else in the table changes.
  ghost predicate Relocated(ds: seq<ObjectDesc>, ds': seq<ObjectDesc>, bs: seq<MB>, dst: seq<nat>) {
    && |ds'| == |ds| && |dst| == |bs|
    && (forall i {:trigger bs[i]} :: 0 <= i < |bs| ==>
         && bs[i].slot < |ds|
         && ds'[bs[i].slot] == if dst[i] == bs[i].off then ds[bs[i].slot] else MovedDesc(ds[bs[i].slot], dst[i]))
    && (forall sl :: 0 <= sl < |ds| && !Blocked(bs, sl) ==> ds'[sl] == ds[sl])
  }

  lemma RanRelocated(ds: seq<ObjectDesc>, ds': seq<ObjectDesc>, bs: seq<MB>, dst: seq<nat>, run: seq<nat>)
    requires RanDescs(ds, ds', bs, dst, run) && SafeRun(bs, dst, run) && DistinctSlots(bs)
    requires forall k :: 0 <= k < |run| ==> dst[run[k]] != bs[run[k]].off
    requires forall i :: 0 <= i < |bs| ==> bs[i].slot < |ds|
    ensures Relocated(ds, ds', bs, dst)
  {
    hide MovedDesc, NoDup;
    forall i | 0 <= i < |bs|
      ensures ds'[bs[i].slot] == if dst[i] == bs[i].off then ds[bs[i].slot] else MovedDesc(ds[bs[i].slot], dst[i])
    {
      if i in run {
        var k :| 0 <= k < |run| && run[k] == i;
      } else {
        assert !SlotDone(bs, run, bs[i].slot) by {
          forall k | 0 <= k < |run| ensures bs[run[k]].slot != bs[i].slot { assert run[k] != i; }
        }
      }
    }
    forall sl | 0 <= sl < |ds| && !Blocked(bs, sl) ensures ds'[sl] == ds[sl] {
      assert !SlotDone(bs, run, sl);
    }
  }

  // Relocation touches addresses and address epochs only: generations, flags, sizes, list links
  // and borrow counts stay, and so does the whole descriptor of a pinned block.
  lemma RelocatedFields(ds: seq<ObjectDesc>, ds': seq<ObjectDesc>, bs: seq<MB>, dst: seq<nat>, sl: nat)
    requires Relocated(ds, ds', bs, dst) && sl < |ds|
    ensures ds'[sl] == ds[sl].(address := ds'[sl].address, addressEpoch := ds'[sl].addressEpoch)
  {
    if Blocked(bs, sl) {
      var i :| 0 <= i < |bs| && bs[i].slot == sl;
    }
  }

  lemma RelocatedList(ds: seq<ObjectDesc>, ds': seq<ObjectDesc>, head: u32, pid: nat, L: Lay, order: seq<nat>, bs: seq<MB>, dst: seq<nat>)
    requires ObjsOk(ds, head, pid, L, order) && ListBlocks(ds, order, bs) && Relocated(ds, ds', bs, dst)
    ensures OrderLinked(ds', order, head) && ListBlocks(ds', order, Placed(bs, dst))
    ensures forall sl :: sl in order ==> sl < |ds'| && LiveDesc(ds'[sl], pid)
    ensures Indexed(ds, order) && BorrowSum(ds', order) == BorrowSum(ds, order)
  {
    hide Relocated, ListBlocks;
    RelocatedSizes(ds, ds', bs, dst);
    forall i | 0 <= i < |order|
      ensures order[i] < |ds'| && ds'[order[i]].addrNext == At(order, i + 1) && ds'[order[i]].addrPrev == At(order, i - 1)
      ensures ds'[order[i]].activeBorrows == ds[order[i]].activeBorrows
    {
      RelocatedFields(ds, ds', bs, dst, order[i]);
      assert ds[order[i]].addrNext == At(order, i + 1) && ds[order[i]].addrPrev == At(order, i - 1);
    }
    forall sl | sl in order ensures sl < |ds'| && LiveDesc(ds'[sl], pid) {
      RelocatedFields(ds, ds', bs, dst, sl);
    }
    RelocatedListing(ds, ds', order, bs, dst);
    BorrowSumSame(ds, ds', order);
  }

  lemma RelocatedListing(ds: seq<ObjectDesc>, ds': seq<ObjectDesc>, order: seq<nat>, bs: seq<MB>, dst: seq<nat>)
    requires ListBlocks(ds, order, bs) && Relocated(ds, ds', bs, dst)
    ensures ListBlocks(ds', order, Placed(bs, dst))
  {
    hide Relocated;
    RelocatedSizes(ds, ds', bs, dst);
    var D := Placed(bs, dst);
    forall sl | sl in order ensures Blocked(D, sl) {
      assert Blocked(bs, sl);
      var i :| 0 <= i < |bs| && bs[i].slot == sl;
      assert D[i].slot == sl;
    }
    forall i | 0 <= i < |D|
      ensures D[i].slot in order && D[i].slot < |ds'| && HEADER <= ds'[D[i].slot].address && D[i] == BlockOf(ds', D[i].slot)
    {
      RelocatedAt(ds, ds', bs, dst, i);
      assert bs[i].slot in order && bs[i] == BlockOf(ds, bs[i].slot);
    }
  }

  lemma RelocatedSizes(ds: seq<ObjectDesc>, ds': seq<ObjectDesc>, bs: seq<MB>, dst: seq<nat>)
    requires Relocated(ds, ds', bs, dst)
    ensures |ds'| == |ds| && |dst| == |bs|
  {
  }

  lemma RelocatedAt(ds: seq<ObjectDesc>, ds': seq<ObjectDesc>, bs: seq<MB>, dst: seq<nat>, i: nat)
    requires Relocated(ds, ds', bs, dst) && i < |bs| && bs[i].slot < |ds| && HEADER <= ds[bs[i].slot].address
    requires bs[i] == BlockOf(ds, bs[i].slot)
    ensures bs[i].slot < |ds'| && ds'[bs[i].slot].address == dst[i] + HEADER
    ensures BlockOf(ds', bs[i].slot) == bs[i].(off := dst[i])
  {
  }

  lemma RelocatedBlocks(ds: seq<ObjectDesc>, ds': seq<ObjectDesc>, slots: seq<nat>, bs: seq<MB>, dst: seq<nat>)
    requires Addressed(ds, slots) && bs == BlocksOf(ds, slots) && Relocated(ds, ds', bs, dst)
    ensures Addressed(ds', slots) && BlocksOf(ds', slots) == Placed(bs, dst)
  {
    hide Relocated;
    RelocatedSizes(ds, ds', bs, dst);
    forall i | 0 <= i < |slots|
      ensures slots[i] < |ds'| && HEADER <= ds'[slots[i]].address && BlockOf(ds', slots[i]) == Placed(bs, dst)[i]
    {
      BlocksIndex(ds, slots, i);
      RelocatedAt(ds, ds', bs, dst, i);
    }
  }

  // ---- the whole effect --------------------------------------------------------------------------

  // What a compaction cut at `cut` does to a pool: bs are its blocks in address order.
  ghost predicate Compacted(z: seq<u32>, z': seq<u32>, P: Pool, P': Pool, ds: seq<ObjectDesc>, ds': seq<ObjectDesc>,
                            A: APool, A': APool, seg: nat, bs: seq<MB>, cut: nat) {
    var s, e := PoolStart(P, seg), PoolEnd(P, seg);
    var dst := CutDst(bs, s, cut);
    && cut <= |bs| && Ordered(bs, s, e) && ListBlocks(ds, A.order, bs) && DistinctSlots(bs) && SumSizes(bs) == P.usedBytes
    && A'.order == A.order && A'.L == CanonFull(Placed(bs, dst), s, e)
    && Relocated(ds, ds', bs, dst) && PayloadMoved(z, z', bs, dst) && OutsideKept(z, z', s, e)
    && P' == P.(state := P'.state, structureEpoch := P'.structureEpoch, bins := P'.bins, fragmentBytes := P'.fragmentBytes,
                objectsMoved := |Movers(bs, s, cut)|, bytesMoved := SumOf(bs, Movers(bs, s, cut)))
  }

  // Rebuilding after the moves leaves a consistent pool with the same used and free bytes.
  lemma CompactDone(z0: seq<u32>, z1: seq<u32>, z2: seq<u32>, P: Pool, P1: Pool, P2: Pool, ds0: seq<ObjectDesc>, ds1: seq<ObjectDesc>,
                    pid: nat, A: APool, lists: seq<seq<nat>>, seg: nat, slots: seq<nat>, bs: seq<MB>, cut: nat)
    requires PoolOk(z0, P, ds0, pid, A, seg) && Addressed(ds0, slots) && bs == BlocksOf(ds0, slots)
    requires cut <= |bs| && Ordered(bs, PoolStart(P, seg), PoolEnd(P, seg)) && PoolEnd(P, seg) <= |z0|
    requires ListBlocks(ds0, A.order, bs) && DistinctSlots(bs)
    requires SumSizes(bs) == P.usedBytes
    requires var s, e := PoolStart(P, seg), PoolEnd(P, seg); var dst := CutDst(bs, s, cut);
             && RanZone(z0, z1, bs, dst, Movers(bs, s, cut)) && Relocated(ds0, ds1, bs, dst)
             && PoolLay(z2, P1.bins, CanonFull(Placed(bs, dst), s, e), lists, s, e)
             && Counters(P1, CanonFull(Placed(bs, dst), s, e), s, e) && P1.usedBytes == SumSizes(Placed(bs, dst))
             && OutsideKept(z1, z2, s, e) && PayloadKept(z1, z2, Placed(bs, dst))
             && P1 == P.(bins := P1.bins, usedBytes := P1.usedBytes, freeBytes := P1.freeBytes, fragmentBytes := P1.fragmentBytes)
             && P2 == P1.(objectsMoved := |Movers(bs, s, cut)|, bytesMoved := SumOf(bs, Movers(bs, s, cut)))
    ensures var s, e := PoolStart(P, seg), PoolEnd(P, seg);
            var A' := APool(CanonFull(Placed(bs, CutDst(bs, s, cut)), s, e), lists, A.order);
            && Compacted(z0, z2, P, P2, ds0, ds1, A, A', seg, bs, cut)
            && PoolOk(z2, P2, ds1, pid, A', seg)
  {
    hide PoolLay, Bytes, CanonFull, Ordered, ListBlocks, Relocated, RanZone, PayloadKept, OutsideKept, Movers, SumOf, CutDst,
         PoolStart, PoolEnd, ObjsOk, DistinctSlots, SumSizes, PayloadMoved, Placed, PlanOk;
    var s, e := PoolStart(P, seg), PoolEnd(P, seg);
    var dst := CutDst(bs, s, cut);
    CompactPayload(z0, z1, z2, bs, s, e, cut);
    PlacedSum(bs, dst);
    SameWindow(P, P2, seg);
    CompactObjs(ds0, ds1, P.orderHead, pid, A.L, A.order, bs, s, e, cut);
  }

  lemma SameWindow(P: Pool, P': Pool, seg: nat)
    requires P'.segmentFirst == P.segmentFirst && P'.segmentCount == P.segmentCount
    ensures PoolStart(P', seg) == PoolStart(P, seg) && PoolEnd(P', seg) == PoolEnd(P, seg)
  {
  }

  lemma CompactPayload(z0: seq<u32>, z1: seq<u32>, z2: seq<u32>, bs: seq<MB>, s: nat, e: nat, cut: nat)
    requires Ordered(bs, s, e) && DistinctSlots(bs) && cut <= |bs| && e <= |z0|
    requires var dst := CutDst(bs, s, cut);
             RanZone(z0, z1, bs, dst, Movers(bs, s, cut)) && OutsideKept(z1, z2, s, e) && PayloadKept(z1, z2, Placed(bs, dst))
    ensures PayloadMoved(z0, z2, bs, CutDst(bs, s, cut)) && OutsideKept(z0, z2, s, e)
  {
    hide Ordered, DistinctSlots, CutDst, Movers, PayloadKept, PayloadMoved, AllCopied, PlanOk;
    LeftwardSafe(bs, s, e, cut);
    RunDone(z0, z1, bs, CutDst(bs, s, cut), Movers(bs, s, cut), s, e);
    PayloadComposed(z0, z1, z2, bs, CutDst(bs, s, cut));
  }

  lemma CompactObjs(ds: seq<ObjectDesc>, ds': seq<ObjectDesc>, head: u32, pid: nat, L: Lay, order: seq<nat>,
                    bs: seq<MB>, s: nat, e: nat, cut: nat)
    requires ObjsOk(ds, head, pid, L, order) && ListBlocks(ds, order, bs) && Ordered(bs, s, e) && cut <= |bs|
    requires Relocated(ds, ds', bs, CutDst(bs, s, cut))
    ensures ObjsOk(ds', head, pid, CanonFull(Placed(bs, CutDst(bs, s, cut)), s, e), order)
    ensures Indexed(ds, order) && BorrowSum(ds', order) == BorrowSum(ds, order)
  {
    hide ListBlocks, Ordered, Relocated, CutDst, OrderLinked, CanonFull, LiveDesc, PlacedAt;
    var dst := CutDst(bs, s, cut);
    RelocatedSizes(ds, ds', bs, dst);
    RelocatedList(ds, ds', head, pid, L, order, bs, dst);
    CutOrdered(bs, s, e, cut);
    RebuiltObjs(ds', head, pid, order, Placed(bs, dst), s, e);
  }

  // ---- execution -----------------------------------------------------------------------------------

  lemma OrderFits(z: seq<u32>, P: Pool, ds: seq<ObjectDesc>, pid: nat, A: APool, seg: nat)
    requires PoolOk(z, P, ds, pid, A, seg)
    ensures |A.order| <= |ds| && |ds| < 0xFFFF
  {
    hide PoolLay, Counters;
    DistinctBelow(A.order, |ds|);
  }

  // What the audit of a consistent pool hands to planning.
  lemma AuditYields(z: seq<u32>, P: Pool, ds: seq<ObjectDesc>, pid: nat, order: seq<nat>, slots: seq<nat>, seg: nat)
    requires Audited(z, P, ds, pid, order, slots, PoolStart(P, seg), PoolEnd(P, seg))
    ensures Addressed(ds, slots) && PayloadFits(ds, slots) && PoolEnd(P, seg) <= |z|
    ensures var bs := BlocksOf(ds, slots);
            && Ordered(bs, PoolStart(P, seg), PoolEnd(P, seg)) && ListBlocks(ds, order, bs) && DistinctSlots(bs)
            && SumSizes(bs) == P.usedBytes && SourcesAt(ds, bs)
  {
    hide Collected, Ordered, BlocksOf, SumSizes, ListBlocks, DistinctSlots;
    CollectedBlocks(ds, P.orderHead, pid, order, slots);
    forall i | 0 <= i < |slots| ensures slots[i] < |ds| && ds[slots[i]].size + HEADER <= ds[slots[i]].blockSize {
      assert BlockAudited(z, ds, slots[i]);
    }
    var bs := BlocksOf(ds, slots);
    forall i | 0 <= i < |bs| ensures bs[i].slot < |ds| && ds[bs[i].slot].address == bs[i].off + HEADER {
      BlocksIndex(ds, slots, i);
    }
  }

  lemma SumOfStep(bs: seq<MB>, run: seq<nat>, k: nat)
    requires k < |run| && forall j :: 0 <= j < |run| ==> run[j] < |bs|
    ensures SumOf(bs, run[..k + 1]) == SumOf(bs, run[..k]) + bs[run[k]].size
  {
    assert run[..k + 1][..k] == run[..k];
  }

  // The move loop of compact_impl: it cannot fail.
  method ExecutePlan(zone: array<u32>, objects: array<ObjectDesc>, plan: seq<PlanEntry>,
                     ghost bs: seq<MB>, ghost s: nat, ghost e: nat, ghost cut: nat) returns (movedObjs: nat, movedBytes: nat)
    requires Ordered(bs, s, e) && DistinctSlots(bs) && cut <= |bs| && e <= zone.Length && SourcesAt(objects[..], bs)
    requires PlanOf(plan, bs, CutDst(bs, s, cut), Movers(bs, s, cut))
    modifies zone, objects
    ensures RanZone(old(zone[..]), zone[..], bs, CutDst(bs, s, cut), Movers(bs, s, cut))
    ensures Relocated(old(objects[..]), objects[..], bs, CutDst(bs, s, cut))
    ensures movedObjs == |Movers(bs, s, cut)| && movedBytes == SumOf(bs, Movers(bs, s, cut))
  {
    hide PlanOk, RanZone, RanDescs, SafeRun, CutDst, Movers, Ordered, DistinctSlots, SumOf, Relocated;
    ghost var z0, ds0 := zone[..], objects[..];
    ghost var dst, run := CutDst(bs, s, cut), Movers(bs, s, cut);
    LeftwardSafe(bs, s, e, cut);
    ExecuteStart(z0, ds0, bs, dst, run);
    movedObjs, movedBytes := 0, 0;
    for k := 0 to |plan|
      invariant RanZone(z0, zone[..], bs, dst, run[..k]) && RanDescs(ds0, objects[..], bs, dst, run[..k])
      invariant movedObjs == k && movedBytes == SumOf(bs, run[..k])
    {
      RunIndex(bs, dst, run, k, s, e);
      SumOfStep(bs, run, k);
      MoveOne(zone, objects, plan[k], z0, ds0, bs, dst, run, k, s, e);
      movedObjs := movedObjs + 1;
      movedBytes := movedBytes + plan[k].size;
    }
    assert run[..|plan|] == run;
    ExecuteEnd(ds0, objects[..], bs, s, e, cut);
  }

  lemma ExecuteStart(z0: seq<u32>, ds0: seq<ObjectDesc>, bs: seq<MB>, dst: seq<nat>, run: seq<nat>)
    requires |dst| == |bs| && forall j :: 0 <= j < |run| ==> run[j] < |bs|
    ensures RanZone(z0, z0, bs, dst, run[..0]) && RanDescs(ds0, ds0, bs, dst, run[..0]) && SumOf(bs, run[..0]) == 0
  {
  }

  lemma ExecuteEnd(ds0: seq<ObjectDesc>, ds: seq<ObjectDesc>, bs: seq<MB>, s: nat, e: nat, cut: nat)
    requires Ordered(bs, s, e) && DistinctSlots(bs) && cut <= |bs| && SourcesAt(ds0, bs)
    requires RanDescs(ds0, ds, bs, CutDst(bs, s, cut), Movers(bs, s, cut))
    ensures Relocated(ds0, ds, bs, CutDst(bs, s, cut))
  {
    hide RanDescs, SafeRun, Ordered, Separate, Relocated, DistinctSlots;
    LeftwardSafe(bs, s, e, cut);
    MoversShape(bs, s, cut);
    RanRelocated(ds0, ds, bs, CutDst(bs, s, cut), Movers(bs, s, cut));
  }

  // The pool's metadata passes precheck_pool.
  ghost predicate Auditable(z: seq<u32>, P: Pool, ds: seq<ObjectDesc>, pid: nat, seg: nat, segCount: nat, zoneSize: nat) {
    GeometryOk(P, seg, segCount, zoneSize) && AuditPasses(z, P, ds, pid, PoolStart(P, seg), PoolEnd(P, seg), |ds|)
  }

  // Audited metadata of an armed pool are those of the pool.
  lemma ArmedAuditable(z: seq<u32>, P: Pool, armed: Pool, ds: seq<ObjectDesc>, pid: nat, seg: nat, segCount: nat, zoneSize: nat)
    requires armed == P.(state := armed.state)
    ensures Auditable(z, armed, ds, pid, seg, segCount, zoneSize) <==> Auditable(z, P, ds, pid, seg, segCount, zoneSize)
  {
    hide Collected, BlocksOf, Ordered, SumSizes;
    SameWindow(P, armed, seg);
    var s, e := PoolStart(P, seg), PoolEnd(P, seg);
    forall order, slots ensures Audited(z, armed, ds, pid, order, slots, s, e) <==> Audited(z, P, ds, pid, order, slots, s, e) {
    }
  }

  // The pool is consistent, in the abstraction the caller knows.
  ghost predicate KnownOk(z: seq<u32>, P: Pool, ds: seq<ObjectDesc>, pid: nat, A: APool, seg: nat, segCount: nat, zoneSize: nat) {
    GeometryOk(P, seg, segCount, zoneSize) && PoolOk(z, P, ds, pid, A, seg)
  }

  // compact_impl. On any metadata a refusal comes before the first write; on a consistent pool
  // the only refusals are an open borrow and a malformed alignment.
  method CompactImpl(g: GlobalState, pid: nat, req: Request, ghost A: APool)
      returns (st: Status, met: bool, ghost bs: seq<MB>, ghost cut: Cut, ghost A': APool)
    requires pid < g.pools.Length && g.objects.Length < 0xFFFF && ZoneOk(g.zone[..], g.segmentSize, g.segmentCount, g.zoneSize)
    modifies g.zone, g.pools, g.objects
    ensures st == Ok || st == Busy || st == InvalidRequest || st == CorruptMetadata
    ensures old(g.pools[pid]).borrowCount != 0 ==> st == Busy
    ensures old(g.pools[pid]).borrowCount == 0 ==>
              (st == CorruptMetadata <==> !Auditable(old(g.zone[..]), old(g.pools[pid]), old(g.objects[..]), pid, g.segmentSize, g.segmentCount, g.zoneSize))
    ensures st != Ok ==> g.zone[..] == old(g.zone[..]) && g.pools[..] == old(g.pools[..]) && g.objects[..] == old(g.objects[..])
    ensures g.pools[..] == old(g.pools[..])[pid := g.pools[pid]]
    ensures var known := KnownOk(old(g.zone[..]), old(g.pools[pid]), old(g.objects[..]), pid, A, g.segmentSize, g.segmentCount, g.zoneSize);
            && (known ==> st == if old(g.pools[pid]).borrowCount != 0 then Busy else if BadAlignment(req) then InvalidRequest else Ok)
            && (known && st == Ok ==>
                 && Compacted(old(g.zone[..]), g.zone[..], old(g.pools[pid]), g.pools[pid], old(g.objects[..]), g.objects[..],
                              A, A', g.segmentSize, bs, cut.at)
                 && PoolOk(g.zone[..], g.pools[pid], g.objects[..], pid, A', g.segmentSize)
                 && cut == Scan(bs, PoolStart(old(g.pools[pid]), g.segmentSize), PoolEnd(old(g.pools[pid]), g.segmentSize), LimitsOf(req), 0, 0, 0)
                 && met == (LimitsOf(req).need == 0 || cut.met)
                 && g.pools[pid].structureEpoch == old(g.pools[pid]).structureEpoch)
  {
    hide PoolOk, GeometryOk, AuditPasses, Audited, Compacted, BlocksOf, Ordered, SumSizes, ListBlocks, DistinctSlots, CutDst, Movers, Scan, PlanOf,
         RanZone, Relocated, PoolLay, Counters, PayloadKept, OutsideKept, CanonFull, PoolStart, PoolEnd, PayloadFits, BadAlignment,
         LimitsOf, SourcesAt, SumOf, InRange, Placed;
    met, bs, cut, A' := false, [], Cut(0, false), A;
    ghost var z0, ds0 := g.zone[..], g.objects[..];
    var P := g.pools[pid];
    if P.borrowCount != 0 { return Busy, met, bs, cut, A'; }
    ghost var known := KnownOk(z0, P, ds0, pid, A, g.segmentSize, g.segmentCount, g.zoneSize);
    if known { OrderFits(z0, P, ds0, pid, A, g.segmentSize); }
    var start, end := PoolStart(P, g.segmentSize), PoolEnd(P, g.segmentSize);
    var slots;
    ghost var order;
    st, slots, order := PrecheckPool(g.zone, g.objects, P, pid, g.segmentSize, g.segmentCount, g.zoneSize, g.objects.Length, A);
    if st != Ok { return; }
    WindowBounds(z0, P, g.segmentSize, g.segmentCount, g.zoneSize);
    AuditYields(z0, P, ds0, pid, order, slots, g.segmentSize);
    bs := BlocksOf(ds0, slots);
    var plan;
    st, plan, met, cut := PlanCompact(g.objects, slots, start, end, req);
    if st != Ok { return; }
    var movedObjs, movedBytes := ExecutePlan(g.zone, g.objects, plan, bs, start, end, cut.at);
    ghost var z1, ds1 := g.zone[..], g.objects[..];
    RelocatedBlocks(ds0, ds1, slots, bs, CutDst(bs, start, cut.at));
    CutOrdered(bs, start, end, cut.at);
    OrderedInRange(Placed(bs, CutDst(bs, start, cut.at)), start, end);
    var P';
    ghost var lists;
    P', lists := FinalizeLayout(g.zone, g.objects, P, start, end, slots);
    g.pools[pid] := P'.(objectsMoved := movedObjs, bytesMoved := movedBytes);
    A' := APool(CanonFull(Placed(bs, CutDst(bs, start, cut.at)), start, end), lists, A.order);
    if known { CompactDone(z0, z1, g.zone[..], P, P', g.pools[pid], ds0, ds1, pid, A, lists, g.segmentSize, slots, bs, cut.at); }
  }

  lemma WindowBounds(z: seq<u32>, P: Pool, seg: nat, segCount: nat, zoneSize: nat)
    requires ZoneOk(z, seg, segCount, zoneSize) && GeometryOk(P, seg, segCount, zoneSize)
    ensures PoolStart(P, seg) <= PoolEnd(P, seg) <= zoneSize <= |z| <= ZONE_LIMIT && PoolEnd(P, seg) < ZONE_LIMIT && seg % 1024 == 0
  {
    SegMono(P.segmentFirst, P.segmentFirst + P.segmentCount, seg);
  }

  // ---- the transaction -----------------------------------------------------------------------------

  // A plain uint32 increment.
  function NextEpoch(e: u32): u32 {
    (e + 1) % U32_MOD
  }

  // A pool's consistency does not depend on its maintenance state or epoch.
  lemma StateOnly(z: seq<u32>, P: Pool, P': Pool, ds: seq<ObjectDesc>, pid: nat, A: APool, seg: nat)
    requires PoolOk(z, P, ds, pid, A, seg) && P' == P.(state := P'.state, structureEpoch := P'.structureEpoch)
    ensures PoolOk(z, P', ds, pid, A, seg)
  {
    hide PoolLay, ObjsOk;
  }

  lemma ObjectsKept(z: seq<u32>, ps: seq<Pool>, ds: seq<ObjectDesc>, ds': seq<ObjectDesc>,
                    head: u16, seg: nat, segCount: nat, zoneSize: nat, abs: seq<APool>, stack: seq<nat>, p: nat,
                    bs: seq<MB>, dst: seq<nat>)
    requires Inv(z, ps, ds, head, seg, segCount, zoneSize, abs, stack) && p < |ps| == |abs| && !ps[p].state.Empty?
    requires Relocated(ds, ds', bs, dst) && ListBlocks(ds, abs[p].order, bs)
    ensures SlotsOk(ds', head, stack) && |ds'| == |ds|
    ensures forall sl :: 0 <= sl < |ds| && ds[sl].state.LiveObj? && ds[sl].poolId != p ==> ds'[sl] == ds[sl]
    ensures forall sl :: 0 <= sl < |ds| && ds'[sl].state.LiveObj? ==>
              (ds[sl].state.LiveObj? && ds[sl].poolId != p) || (ds'[sl].poolId == p && sl in abs[p].order)
  {
    hide Inv, PoolOk, SlotsOk, Relocated, GeometryOk;
    PoolFacts(z, ps, ds, head, seg, segCount, zoneSize, abs, stack, p);
    RelocatedSizes(ds, ds', bs, dst);
    forall sl | 0 <= sl < |ds| ensures ds'[sl].state == ds[sl].state && ds'[sl].nextFreeSlot == ds[sl].nextFreeSlot && ds'[sl].poolId == ds[sl].poolId {
      RelocatedFields(ds, ds', bs, dst, sl);
    }
    SlotsFrame(ds, ds', head, stack);
    forall sl | 0 <= sl < |ds| && ds[sl].state.LiveObj? && ds[sl].poolId != p ensures ds'[sl] == ds[sl] {
      UnlistedKept(z, ps[p], ds, ds', p, abs[p], seg, bs, dst, sl);
    }
    forall sl | 0 <= sl < |ds| && ds'[sl].state.LiveObj?
      ensures (ds[sl].state.LiveObj? && ds[sl].poolId != p) || (ds'[sl].poolId == p && sl in abs[p].order)
    {
      InList(z, ps, ds, head, seg, segCount, zoneSize, abs, stack, sl);
    }
  }

  lemma UnlistedKept(z: seq<u32>, P: Pool, ds: seq<ObjectDesc>, ds': seq<ObjectDesc>, p: nat, A: APool, seg: nat,
                     bs: seq<MB>, dst: seq<nat>, sl: nat)
    requires PoolOk(z, P, ds, p, A, seg) && Relocated(ds, ds', bs, dst) && ListBlocks(ds, A.order, bs)
    requires sl < |ds| && ds[sl].poolId != p
    ensures ds'[sl] == ds[sl]
  {
    hide PoolLay, Counters;
    assert !Blocked(bs, sl) by {
      forall i | 0 <= i < |bs| ensures bs[i].slot != sl {
        assert bs[i].slot in A.order;
        OrderPool(ds, P.orderHead, p, A.L, A.order, bs[i].slot);
      }
    }
  }

  lemma CompactKeepsInv(z: seq<u32>, z': seq<u32>, ps: seq<Pool>, P0: Pool, P1: Pool, P': Pool, ds: seq<ObjectDesc>, ds': seq<ObjectDesc>,
                        head: u16, seg: nat, segCount: nat, zoneSize: nat, abs: seq<APool>, A': APool, stack: seq<nat>, p: nat,
                        bs: seq<MB>, cut: nat)
    requires Inv(z, ps, ds, head, seg, segCount, zoneSize, abs, stack) && p < |ps| == |abs| && !ps[p].state.Empty?
    requires P0 == ps[p].(state := P0.state) && Compacted(z, z', P0, P1, ds, ds', abs[p], A', seg, bs, cut)
    requires PoolOk(z', P1, ds', p, A', seg)
    requires P' == P1.(state := Running, structureEpoch := NextEpoch(P1.structureEpoch))
    ensures Inv(z', ps[p := P'], ds', head, seg, segCount, zoneSize, abs[p := A'], stack)
    ensures Compacted(z, z', ps[p], P', ds, ds', abs[p], A', seg, bs, cut)
  {
    hide Inv, PoolOk, SlotsOk, Relocated, ListBlocks, GeometryOk, Ordered, DistinctSlots, PayloadMoved, OutsideKept, CanonFull, CutDst, Movers, SumOf,
         PoolStart, PoolEnd, Placed, NextEpoch;
    SameWindow(ps[p], P0, seg);
    StateOnly(z', P1, P', ds', p, A', seg);
    ObjectsKept(z, ps, ds, ds', head, seg, segCount, zoneSize, abs, stack, p, bs, CutDst(bs, PoolStart(ps[p], seg), cut));
    PoolUpdated(z, z', ps, P', ds, ds', head, head, seg, segCount, zoneSize, abs, A', stack, stack, p);
  }

  lemma StateKeepsInv(z: seq<u32>, ps: seq<Pool>, P': Pool, ds: seq<ObjectDesc>,
                      head: u16, seg: nat, segCount: nat, zoneSize: nat, abs: seq<APool>, stack: seq<nat>, p: nat)
    requires Inv(z, ps, ds, head, seg, segCount, zoneSize, abs, stack) && p < |ps| && !ps[p].state.Empty?
    requires P' == ps[p].(state := P'.state) && Settled(P')
    ensures Inv(z, ps[p := P'], ds, head, seg, segCount, zoneSize, abs, stack)
  {
    hide Inv, PoolOk, SlotsOk, GeometryOk;
    PoolFacts(z, ps, ds, head, seg, segCount, zoneSize, abs, stack, p);
    StateOnly(z, ps[p], P', ds, p, abs[p], seg);
    forall sl | 0 <= sl < |ds| && ds[sl].state.LiveObj?
      ensures (ds[sl].state.LiveObj? && ds[sl].poolId != p) || (ds[sl].poolId == p && sl in abs[p].order)
    {
      InList(z, ps, ds, head, seg, segCount, zoneSize, abs, stack, sl);
    }
    PoolUpdated(z, z, ps, P', ds, ds, head, head, seg, segCount, zoneSize, abs, abs[p], stack, stack, p);
    assert abs[p := abs[p]] == abs;
  }

  lemma ZoneFacts(z: seq<u32>, ps: seq<Pool>, ds: seq<ObjectDesc>, head: u16, seg: nat, segCount: nat, zoneSize: nat,
                  abs: seq<APool>, stack: seq<nat>)
    requires Inv(z, ps, ds, head, seg, segCount, zoneSize, abs, stack)
    ensures ZoneOk(z, seg, segCount, zoneSize) && |abs| == |ps| < 0xFFFF
  {
    hide PoolSlotOk, SlotsOk;
  }

  lemma EmptyIsZero(z: seq<u32>, ps: seq<Pool>, ds: seq<ObjectDesc>, head: u16, seg: nat, segCount: nat, zoneSize: nat,
                    abs: seq<APool>, stack: seq<nat>, p: nat)
    requires Inv(z, ps, ds, head, seg, segCount, zoneSize, abs, stack) && p < |ps| && ps[p].state.Empty?
    ensures ps[p] == ZeroPool()
    ensures forall sl :: 0 <= sl < |ds| && ds[sl].state.LiveObj? ==> ds[sl].poolId != p
  {
    hide SlotsOk, PoolOk, ZeroPool;
    assert PoolSlotOk(z, ps[p], ds, p, abs[p], seg, segCount, zoneSize);
    forall sl | 0 <= sl < |ds| && ds[sl].state.LiveObj? ensures ds[sl].poolId != p {
      assert SlotOwned(ps, ds, abs, sl);
    }
  }

  lemma BinsShaped(z: seq<u32>, b: TlsfBins, L: Lay, lists: seq<seq<nat>>, s: nat, e: nat)
    requires PoolLay(z, b, L, lists, s, e)
    ensures BinsSized(b)
  {
    hide LayoutInv, BinOk, FlOk, Spaced, FreeCell;
  }

  // A consistent allocator meets it.
  lemma ValidIsSized(g: GlobalState)
    requires g.Valid()
    ensures Sized(g)
  {
    hide Inv, PoolOk, GeometryOk, ZoneOk, SlotsOk, BinsInv, LayoutInv;
    ghost var z, ps, ds := g.zone[..], g.pools[..], g.objects[..];
    ZoneFacts(z, ps, ds, g.freeSlotHead, g.segmentSize, g.segmentCount, g.zoneSize, g.abs, g.stack);
    InvLengths(z, ps, ds, g.freeSlotHead, g.segmentSize, g.segmentCount, g.zoneSize, g.abs, g.stack);
    forall p | 0 <= p < g.pools.Length ensures BinsSized(g.pools[p].bins) {
      if ps[p].state.Empty? {
        EmptyIsZero(z, ps, ds, g.freeSlotHead, g.segmentSize, g.segmentCount, g.zoneSize, g.abs, g.stack, p);
      } else {
        PoolFacts(z, ps, ds, g.freeSlotHead, g.segmentSize, g.segmentCount, g.zoneSize, g.abs, g.stack, p);
        BinsShaped(z, ps[p].bins, g.abs[p].L, g.abs[p].lists, PoolStart(ps[p], g.segmentSize), PoolEnd(ps[p], g.segmentSize));
      }
    }
  }

  // Which status a compaction returns, decided before anything is written.
  function CompactRefusal(ps: seq<Pool>, pid: nat, req: Request): Status {
    if pid >= |ps| || ps[pid].state.Empty? then InvalidPool
    else if ps[pid].borrowCount != 0 then Busy
    else if BadAlignment(req) then InvalidRequest
    else Ok
  }

  lemma BadAlignmentMeans(req: Request)
    ensures BadAlignment(req) <==>
              && req.Request? && req.requestedSize != 0 && req.requestedAlignment != 0
              && !(req.requestedAlignment <= 8 && exists k: nat :: req.requestedAlignment == Pow2(k))
  {
    hide Pow2Align;
    if req.Request? { AlignmentAccepted(req.requestedAlignment); }
  }

  // compact. On arbitrary metadata a refusal changes at most a Running pool with an open borrow
  // to Paused. On a consistent allocator the outcome is decided by the pool's record and the
  // request, and a granted call always succeeds and leaves the pool Running.
  method Compact(g: GlobalState, pid: nat, req: Request) returns (st: Status, targetMet: bool, ghost bs: seq<MB>, ghost cut: Cut)
    requires Sized(g)
    modifies g, g.zone, g.pools, g.objects
    ensures g.stack == old(g.stack) && g.freeSlotHead == old(g.freeSlotHead) && g.liveObjectCount == old(g.liveObjectCount)
    ensures st != Ok ==> !targetMet && g.zone[..] == old(g.zone[..]) && g.objects[..] == old(g.objects[..]) && g.abs == old(g.abs)
    ensures st != Ok ==>
              || g.pools[..] == old(g.pools[..])
              || (&& st == Busy && pid < g.pools.Length && old(g.pools[pid]).state.Running? && old(g.pools[pid]).borrowCount != 0
                  && g.pools[..] == old(g.pools[..])[pid := old(g.pools[pid]).(state := Paused)])
    ensures st == CorruptMetadata <==>
              && pid < g.pools.Length && Settled(old(g.pools[pid])) && old(g.pools[pid]).borrowCount == 0
              && !Auditable(old(g.zone[..]), old(g.pools[pid]), old(g.objects[..]), pid, g.segmentSize, g.segmentCount, g.zoneSize)
    ensures old(g.Valid()) ==> g.Valid() && st == CompactRefusal(old(g.pools[..]), pid, req)
    ensures old(g.Valid()) ==>
              st == (if pid >= |old(g.pools[..])| || old(g.pools[..])[pid].state == Empty then InvalidPool
                     else if old(g.pools[..])[pid].borrowCount != 0 then Busy
                     else if req.Request? && req.requestedSize != 0 && req.requestedAlignment != 0
                             && !(req.requestedAlignment <= 8 && exists k: nat :: req.requestedAlignment == Pow2(k)) then InvalidRequest
                     else Ok)
    ensures old(g.Valid()) && st == Busy ==>
              pid < g.pools.Length && g.pools[..] == old(g.pools[..])[pid := old(g.pools[pid]).(state := Paused)]
    ensures old(g.Valid()) && st == Ok ==>
              && pid < g.pools.Length && pid < |old(g.abs)| && pid < |g.abs|
              && OnlyPoolChanged(old(g.abs), g.abs, old(g.pools[..]), g.pools[..], pid)
              && Compacted(old(g.zone[..]), g.zone[..], old(g.pools[pid]), g.pools[pid], old(g.objects[..]), g.objects[..],
                           old(g.abs)[pid], g.abs[pid], g.segmentSize, bs, cut.at)
              && g.pools[pid].state.Running? && g.pools[pid].structureEpoch == (old(g.pools[pid]).structureEpoch + 1) % 0x1_0000_0000
              && cut == Scan(bs, PoolStart(g.pools[pid], g.segmentSize), PoolEnd(g.pools[pid], g.segmentSize), LimitsOf(req), 0, 0, 0)
              && targetMet == (LimitsOf(req).need == 0 || cut.met)
    ensures old(g.Valid()) && st == Ok ==>
              && cut.at <= |bs| && (req.NoRequest? ==> cut.at == |bs| && targetMet)
              && (req.Request? && req.maxMoveBytes != 0 ==> g.pools[pid].bytesMoved <= req.maxMoveBytes)
              && (req.Request? && req.maxMoveObjects != 0 ==> g.pools[pid].objectsMoved <= req.maxMoveObjects)
              && (cut.at < |bs| && !cut.met ==>
                   && req.Request? && !bs[cut.at].pinned
                   && (|| (req.maxMoveBytes != 0 && g.pools[pid].bytesMoved + bs[cut.at].size > req.maxMoveBytes)
                       || (req.maxMoveObjects != 0 && g.pools[pid].objectsMoved == req.maxMoveObjects)))
  {
    hide Inv, PoolOk, Compacted, GeometryOk, Auditable, ZoneOk, SlotsOk, LimitsOf, BadAlignment, Scan, PoolStart, PoolEnd, KnownOk;
    targetMet, bs, cut := false, [], Cut(0, false);
    BadAlignmentMeans(req);
    ghost var z, ps, ds, abs, valid := g.zone[..], g.pools[..], g.objects[..], g.abs, g.Valid();
    var wasPaused;
    st, wasPaused := CompactArm(g, pid);
    if st != Ok { return; }
    ghost var P, armed := ps[pid], g.pools[pid];
    ArmedAuditable(z, P, armed, ds, pid, g.segmentSize, g.segmentCount, g.zoneSize);
    var met;
    ghost var A';
    st, met, bs, cut, A' := CompactImpl(g, pid, req, abs[pid]);
    var Q := g.pools[pid];
    if st == Ok {
      g.pools[pid] := Q.(structureEpoch := NextEpoch(Q.structureEpoch), state := Running);
      g.abs := abs[pid := A'];
      targetMet := met;
      if valid {
        SameWindow(P, armed, g.segmentSize);
        CompactKeepsInv(z, g.zone[..], ps, armed, Q, g.pools[pid], ds, g.objects[..], g.freeSlotHead, g.segmentSize, g.segmentCount, g.zoneSize,
                        abs, A', g.stack, pid, bs, cut.at);
        assert g.pools[..] == ps[pid := g.pools[pid]];
        CompactWindow(z, g.zone[..], P, g.pools[pid], ds, g.objects[..], abs[pid], A', g.segmentSize, bs, cut.at);
        BudgetsKept(z, g.zone[..], P, g.pools[pid], ds, g.objects[..], abs[pid], A', g.segmentSize, bs, cut, req);
      }
    } else {
      g.pools[pid] := Q.(state := if wasPaused then Paused else Running);
      assert g.pools[..] == ps;
    }
  }

  // Arming: pause first, then look at the borrows.
  method CompactArm(g: GlobalState, pid: nat) returns (st: Status, wasPaused: bool)
    requires Sized(g)
    modifies g.pools
    ensures st == if pid >= g.pools.Length || old(g.pools[..])[pid].state.Empty? then InvalidPool
                  else if !Settled(old(g.pools[..])[pid]) || old(g.pools[..])[pid].borrowCount != 0 then Busy else Ok
    ensures g.pools[..] == if st == Ok then old(g.pools[..])[pid := old(g.pools[..])[pid].(state := Compacting)]
                           else if st == Busy && old(g.pools[..])[pid].state.Running? then old(g.pools[..])[pid := old(g.pools[..])[pid].(state := Paused)]
                           else old(g.pools[..])
    ensures st == Ok ==> wasPaused == old(g.pools[..])[pid].state.Paused?
    ensures old(g.Valid()) ==> (st != Ok ==> g.Valid()) && (st != InvalidPool ==> Settled(old(g.pools[..])[pid]))
    ensures old(g.Valid()) && st == Ok ==>
              pid < |g.abs| && KnownOk(g.zone[..], g.pools[pid], g.objects[..], pid, g.abs[pid], g.segmentSize, g.segmentCount, g.zoneSize)
  {
    hide Inv, PoolOk, GeometryOk, ZoneOk, SlotsOk;
    wasPaused := false;
    ghost var z, ps, ds, abs, valid := g.zone[..], g.pools[..], g.objects[..], g.abs, g.Valid();
    if pid >= g.pools.Length { return InvalidPool, wasPaused; }
    var P := g.pools[pid];
    if P.state.Empty? { return InvalidPool, wasPaused; }
    if valid { PoolFacts(z, ps, ds, g.freeSlotHead, g.segmentSize, g.segmentCount, g.zoneSize, abs, g.stack, pid); }
    if !Settled(P) { return Busy, wasPaused; }
    wasPaused := P.state.Paused?;
    if P.state.Running? { g.pools[pid] := P.(state := Paused); }
    if P.borrowCount != 0 {
      if valid { StateKeepsInv(z, ps, P.(state := Paused), ds, g.freeSlotHead, g.segmentSize, g.segmentCount, g.zoneSize, abs, g.stack, pid); }
      assert g.pools[..] == ps[pid := P.(state := Paused)];
      assert wasPaused ==> ps[pid := P.(state := Paused)] == ps;
      return Busy, wasPaused;
    }
    g.pools[pid] := P.(state := Compacting);
    if valid {
      SameWindow(P, P.(state := Compacting), g.segmentSize);
      StateOnly(z, P, P.(state := Compacting), ds, pid, abs[pid], g.segmentSize);
      SameGeometry(P, P.(state := Compacting), g.segmentSize, g.segmentCount, g.zoneSize);
    }
    st := Ok;
  }

  lemma CompactWindow(z: seq<u32>, z': seq<u32>, P: Pool, P': Pool, ds: seq<ObjectDesc>, ds': seq<ObjectDesc>,
                      A: APool, A': APool, seg: nat, bs: seq<MB>, cut: nat)
    requires Compacted(z, z', P, P', ds, ds', A, A', seg, bs, cut)
    ensures PoolStart(P', seg) == PoolStart(P, seg) && PoolEnd(P', seg) == PoolEnd(P, seg)
  {
    hide Ordered, ListBlocks, DistinctSlots, Relocated, PayloadMoved, OutsideKept, CanonFull, CutDst, Movers, SumOf;
  }

  // What the cut means for the request: the budgets are kept, and a cut short of the end that does
  // not report its target is one at which the next movable block would have broken a budget.
  lemma BudgetsKept(z: seq<u32>, z': seq<u32>, P: Pool, P': Pool, ds: seq<ObjectDesc>, ds': seq<ObjectDesc>,
                    A: APool, A': APool, seg: nat, bs: seq<MB>, cut: Cut, req: Request)
    requires Compacted(z, z', P, P', ds, ds', A, A', seg, bs, cut.at)
    requires cut == Scan(bs, PoolStart(P, seg), PoolEnd(P, seg), LimitsOf(req), 0, 0, 0)
    ensures cut.at <= |bs| && (req.NoRequest? ==> cut == Cut(|bs|, false) && LimitsOf(req).need == 0)
    ensures req.Request? && req.maxMoveBytes != 0 ==> P'.bytesMoved <= req.maxMoveBytes
    ensures req.Request? && req.maxMoveObjects != 0 ==> P'.objectsMoved <= req.maxMoveObjects
    ensures cut.at < |bs| && !cut.met ==>
              && req.Request? && !bs[cut.at].pinned
              && (|| (req.maxMoveBytes != 0 && P'.bytesMoved + bs[cut.at].size > req.maxMoveBytes)
                  || (req.maxMoveObjects != 0 && P'.objectsMoved == req.maxMoveObjects))
  {
    hide Ordered, ListBlocks, DistinctSlots, Relocated, PayloadMoved, OutsideKept, CanonFull, CutDst, Movers, SumOf, Scan, PoolStart, PoolEnd,
         Placed, Opens, TargetNeed, Reachable;
    var s, e := PoolStart(P, seg), PoolEnd(P, seg);
    assert Movers(bs, s, 0) == [] && SumOf(bs, []) == 0 by { NoMoves(bs, s); }
    ScanIsFirst(bs, s, e, LimitsOf(req), 0);
    ScanBudget(bs, s, e, LimitsOf(req), 0);
  }

  lemma NoMoves(bs: seq<MB>, s: nat)
    ensures Movers(bs, s, 0) == [] && SumOf(bs, []) == 0
  {
  }
}
