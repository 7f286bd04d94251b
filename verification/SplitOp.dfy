/** split: arm and claim, audit, plan both sides, execute in the two-pass order, publish. */
module SplitOp {
  import opened Base
  import opened Lists
  import opened Layout
  import opened PoolHeap
  import opened Objects
  import opened State
  import opened AllocOp
  import opened Blocks
  import opened Precheck
  import opened Moves
  import opened Plan
  import opened Finalize
  import opened Relocate
  import opened CompactOp
  import opened SplitPlan

  function Min(a: nat, b: nat): nat { if a < b then a else b }
  function Max(a: nat, b: nat): nat { if a < b then b else a }

  // What the planning loop has established before block i; u blocks are lower.
  ghost predicate Progress(bs: seq<MB>, s: nat, m: nat, e: nat, u: nat, i: nat,
                           low: seq<PlanEntry>, up: seq<PlanEntry>, lowCursor: nat, upCursor: nat, nRight: nat)
    requires u <= |bs| && i <= |bs|
  {
    var us, dst := bs[u..], SplitDst(bs, s, m, u);
    && PlanOf(low, bs, dst, Movables(bs, 0, Min(i, u))) && PlanOf(up, bs, dst, Movables(bs, u, Max(i, u)))
    && lowCursor == CursorAt(bs, s, Min(i, u)) && upCursor == CursorAt(us, m, Max(i, u) - u)
    && nRight == RightCount(us, m, Max(i, u) - u)
    && (forall j :: 0 <= j < Max(i, u) - u ==> StepFits(us, m, e, j))
  }

  lemma ProgressStart(bs: seq<MB>, s: nat, m: nat, e: nat, u: nat)
    requires u <= |bs|
    ensures Progress(bs, s, m, e, u, 0, [], [], s, m, 0)
  {
  }

  lemma PlanPush(plan: seq<PlanEntry>, bs: seq<MB>, dst: seq<nat>, q: seq<nat>, i: nat)
    requires PlanOf(plan, bs, dst, q) && i < |bs|
    ensures PlanOf(plan + [PlanEntry(bs[i].slot, dst[i], bs[i].size)], bs, dst, q + [i])
  {
  }

  lemma LowerStep(bs: seq<MB>, s: nat, m: nat, e: nat, u: nat, i: nat,
                  low: seq<PlanEntry>, up: seq<PlanEntry>, lowCursor: nat, upCursor: nat, nRight: nat)
    requires i < u <= |bs| && Progress(bs, s, m, e, u, i, low, up, lowCursor, upCursor, nRight)
    ensures if bs[i].pinned then Progress(bs, s, m, e, u, i + 1, low, up, bs[i].off + bs[i].size, upCursor, nRight)
            else Progress(bs, s, m, e, u, i + 1, low + [PlanEntry(bs[i].slot, lowCursor, bs[i].size)], up, lowCursor + bs[i].size, upCursor, nRight)
  {
    hide PlanOf, StepFits, RightCount;
    CursorNext(bs, s, i);
    assert Movables(bs, 0, i) + [] == Movables(bs, 0, i);
    PlanPush(low, bs, SplitDst(bs, s, m, u), Movables(bs, 0, i), i);
  }

  lemma UpperStep(bs: seq<MB>, s: nat, m: nat, e: nat, u: nat, i: nat,
                  low: seq<PlanEntry>, up: seq<PlanEntry>, lowCursor: nat, upCursor: nat, nRight: nat)
    requires u <= i < |bs| && Progress(bs, s, m, e, u, i, low, up, lowCursor, upCursor, nRight)
    requires StepFits(bs[u..], m, e, i - u)
    ensures if bs[i].pinned then Progress(bs, s, m, e, u, i + 1, low, up, lowCursor, bs[i].off + bs[i].size, nRight)
            else Progress(bs, s, m, e, u, i + 1, low, up + [PlanEntry(bs[i].slot, upCursor, bs[i].size)], lowCursor, upCursor + bs[i].size,
                          nRight + if bs[i].off < upCursor then 1 else 0)
  {
    hide PlanOf, StepFits;
    assert bs[u..][i - u] == bs[i];
    CursorNext(bs[u..], m, i - u);
    assert Movables(bs, u, i) + [] == Movables(bs, u, i);
    PlanPush(up, bs, SplitDst(bs, s, m, u), Movables(bs, u, i), i);
  }

  // The lower side never refuses: the cursor is behind the block, and the block ends before
  // the boundary and before every later barrier.
  lemma LowerFits(bs: seq<MB>, s: nat, m: nat, e: nat, i: nat, j: nat)
    requires Ordered(bs, s, e) && i < LowerCount(bs, m)
    ensures CursorAt(bs, s, i) <= bs[i].off && bs[i].off + bs[i].size <= m
    ensures i < j < |bs| ==> bs[i].off + bs[i].size <= bs[j].off
    ensures !IsUpper(bs[i], m)
  {
    LowerPrefix(bs, s, m, e);
    CursorBehind(bs, s, e, i);
  }

  // The barrier test of a movable upper block is the step condition.
  lemma UpperBarrier(bs: seq<MB>, s: nat, m: nat, e: nat, i: nat)
    requires Ordered(bs, s, e) && s <= m <= e && m % ALIGN == 0 && LowerCount(bs, m) <= i < |bs|
    ensures IsUpper(bs[i], m)
    ensures var u := LowerCount(bs, m); var bar := |PinnedOffs(bs, i)|; var all := PinnedOffs(bs, |bs|);
            && bar <= |all|
            && (!bs[i].pinned ==>
                 var barrier := if bar < |all| then all[bar] else e;
                 && (CursorAt(bs[u..], m, i - u) + bs[i].size <= barrier <==> StepFits(bs[u..], m, e, i - u))
                 && (CursorAt(bs[u..], m, i - u) + bs[i].size > barrier ==> (bar < |all| <==> FirstPin(bs[u..]) < |bs[u..]|)))
  {
    hide Ordered, PinnedOffs, CursorAt, UpperSide, LowerCount;
    var u := LowerCount(bs, m);
    LowerPrefix(bs, s, m, e);
    UpperSuffix(bs, s, m, e);
    var j := NextBarrier(bs, i, |bs|);
    PinIndex(bs, u, i, j);
    BlockBefore(bs, s, e, i, j);
    assert bs[u..][i - u] == bs[i];
    if i - u > FirstPin(bs[u..]) {
      BehindPin(bs[u..], s, m, e, i - u);
    }
  }

  // Before the first upper pin, the next pin is that one.
  lemma PinIndex(bs: seq<MB>, u: nat, i: nat, j: nat)
    requires u <= i < |bs|
    ensures var p := FirstPin(bs[u..]);
            && (i < u + p && i <= j < |bs| && bs[j].pinned && (forall k :: i <= k < j ==> !bs[k].pinned) ==> p < |bs[u..]| && u + p == j && bs[u..][p] == bs[j])
            && (i < u + p && (forall k :: i <= k < |bs| ==> !bs[k].pinned) ==> p == |bs[u..]|)
  {
    var us := bs[u..];
    var p := FirstPin(us);
    assert forall k :: u <= k < |bs| ==> us[k - u] == bs[k];
    assert p < |us| ==> us[p] == bs[u + p];
    if i <= j < |bs| { assert us[j - u] == bs[j]; }
  }

  // A step that does not fit decides the verdict.
  lemma StepRefuses(bs: seq<MB>, s: nat, m: nat, e: nat, i: nat)
    requires Ordered(bs, s, e) && s <= m <= e && m % ALIGN == 0 && LowerCount(bs, m) <= i < |bs|
    requires !StepFits(bs[LowerCount(bs, m)..], m, e, i - LowerCount(bs, m))
    ensures var us := bs[LowerCount(bs, m)..];
            && SplitVerdict(us, m, e) == (if FirstPin(us) < |us| then PinnedConflict else NoSpace)
            && (bs[i].pinned ==> FirstPin(us) < |us|)
  {
    hide StepFits, StackFits;
    var us := bs[LowerCount(bs, m)..];
    UpperSuffix(bs, s, m, e);
    StackFitsIff(us, s, m, e);
    assert us[i - LowerCount(bs, m)] == bs[i];
  }

  lemma AllFit(bs: seq<MB>, s: nat, m: nat, e: nat, low: seq<PlanEntry>, up: seq<PlanEntry>, lowCursor: nat, upCursor: nat, nRight: nat)
    requires Ordered(bs, s, e) && s <= m <= e && m % ALIGN == 0
    requires Progress(bs, s, m, e, LowerCount(bs, m), |bs|, low, up, lowCursor, upCursor, nRight)
    ensures SplitVerdict(bs[LowerCount(bs, m)..], m, e) == Ok
  {
    hide StepFits, StackFits, PlanOf;
    UpperSuffix(bs, s, m, e);
    StackFitsIff(bs[LowerCount(bs, m)..], s, m, e);
  }

  lemma PinnedStep(bs: seq<MB>, s: nat, m: nat, e: nat, i: nat)
    requires Ordered(bs, s, e) && LowerCount(bs, m) <= i < |bs| && bs[i].pinned
    ensures var u := LowerCount(bs, m);
            && (StepFits(bs[u..], m, e, i - u) <==> CursorAt(bs[u..], m, i - u) <= bs[i].off)
  {
    assert bs[LowerCount(bs, m)..][i - LowerCount(bs, m)] == bs[i];
  }

  // A pinned block that crosses the boundary is the first upper block, and does not fit.
  lemma CrossingPin(bs: seq<MB>, s: nat, m: nat, e: nat, i: nat)
    requires Ordered(bs, s, e) && s <= m <= e && m % ALIGN == 0 && LowerCount(bs, m) <= i < |bs| && bs[i].off < m
    ensures m <= CursorAt(bs[LowerCount(bs, m)..], m, i - LowerCount(bs, m))
  {
    LowerPrefix(bs, s, m, e);
    assert IsUpper(bs[LowerCount(bs, m)], m);
  }

  // The two-cursor planning loop of split.
  method PlanSplit(objects: array<ObjectDesc>, slots: seq<nat>, start: nat, boundary: nat, end: nat)
      returns (st: Status, low: seq<PlanEntry>, up: seq<PlanEntry>, nRight: nat)
    requires Addressed(objects[..], slots) && Ordered(BlocksOf(objects[..], slots), start, end)
    requires start <= boundary <= end && boundary % ALIGN == 0 && PayloadFits(objects[..], slots)
    ensures var bs := BlocksOf(objects[..], slots);
            var u := LowerCount(bs, boundary);
            var us, dst := bs[u..], SplitDst(bs, start, boundary, u);
            && st == SplitVerdict(us, boundary, end)
            && (st == Ok ==>
                 && PlanOf(low, bs, dst, Movables(bs, 0, u)) && PlanOf(up, bs, dst, Movables(bs, u, |bs|))
                 && nRight == RightCount(us, boundary, |us|))
  {
    hide BlocksOf, Ordered, Progress, StepFits, StackFits, CursorAt, PinnedOffs, LowerCount, SplitVerdict, SplitDst, PayloadFits;
    ghost var ds := objects[..];
    ghost var bs := BlocksOf(ds, slots);
    ghost var u := LowerCount(bs, boundary);
    low, up, nRight := [], [], 0;
    var barriers;
    st, barriers := CollectBarriers(objects, slots, start, end);
    var lowCursor: nat, upCursor: nat, bar: nat := start, boundary, 0;
    ProgressStart(bs, start, boundary, end, u);
    NoPins(bs);
    for i := 0 to |slots|
      invariant Progress(bs, start, boundary, end, u, i, low, up, lowCursor, upCursor, nRight)
      invariant bar == |PinnedOffs(bs, i)|
    {
      var d := objects[slots[i]];
      var bstart: nat := d.address - HEADER;
      var bsize := d.blockSize;
      var upper := bstart >= boundary || bstart + bsize > boundary;
      BlocksIndex(ds, slots, i);
      Cursors(bs, start, boundary, end, u, i, low, up, lowCursor, upCursor, nRight);
      CursorStep(bs, start, i);
      assert bs[i] == MB(slots[i], bstart, bsize, PINNED in d.flags);
      ghost var nb := NextBarrier(bs, i, |bs|);
      if i < u {
        LowerFits(bs, start, boundary, end, i, nb);
        LowerStep(bs, start, boundary, end, u, i, low, up, lowCursor, upCursor, nRight);
      } else {
        UpperBarrier(bs, start, boundary, end, i);
        if bs[i].pinned {
          PinnedStep(bs, start, boundary, end, i);
          if bstart < boundary { CrossingPin(bs, start, boundary, end, i); }
        }
        if StepFits(bs[u..], boundary, end, i - u) {
          UpperStep(bs, start, boundary, end, u, i, low, up, lowCursor, upCursor, nRight);
        } else {
          StepRefuses(bs, start, boundary, end, i);
        }
      }
      if PINNED in d.flags {
        if bstart < boundary && bstart + bsize > boundary { return PinnedConflict, low, up, nRight; }
        var cur := if upper then upCursor else lowCursor;
        if cur > bstart { return PinnedConflict, low, up, nRight; }
        if upper { upCursor := bstart + bsize; } else { lowCursor := bstart + bsize; }
        bar := bar + 1;
        continue;
      }
      if !upper {
        var barrier := boundary;
        var pinBelow := bar < |barriers| && barriers[bar] < boundary;
        if pinBelow { barrier := barriers[bar]; }
        if lowCursor + bsize > barrier { return if pinBelow then PinnedConflict else NoSpace, low, up, nRight; }
        low := low + [PlanEntry(slots[i], lowCursor, bsize)];
        lowCursor := lowCursor + bsize;
      } else {
        var barrier := if bar < |barriers| then barriers[bar] else end;
        if upCursor + bsize > barrier {
          return if bar < |barriers| then PinnedConflict else NoSpace, low, up, nRight;
        }
        up := up + [PlanEntry(slots[i], upCursor, bsize)];
        if bstart < upCursor { nRight := nRight + 1; }
        upCursor := upCursor + bsize;
      }
    }
    AllFit(bs, start, boundary, end, low, up, lowCursor, upCursor, nRight);
    Finished(bs, start, boundary, end, low, up, lowCursor, upCursor, nRight);
    return Ok, low, up, nRight;
  }

  lemma NoPins(bs: seq<MB>)
    ensures PinnedOffs(bs, 0) == []
  {
  }

  lemma Cursors(bs: seq<MB>, s: nat, m: nat, e: nat, u: nat, i: nat,
                low: seq<PlanEntry>, up: seq<PlanEntry>, lowCursor: nat, upCursor: nat, nRight: nat)
    requires u <= |bs| && i < |bs| && Progress(bs, s, m, e, u, i, low, up, lowCursor, upCursor, nRight)
    ensures i < u ==> lowCursor == CursorAt(bs, s, i)
    ensures u <= i ==> upCursor == CursorAt(bs[u..], m, i - u)
  {
    hide CursorAt, PlanOf, StepFits;
  }

  lemma Finished(bs: seq<MB>, s: nat, m: nat, e: nat, low: seq<PlanEntry>, up: seq<PlanEntry>, lowCursor: nat, upCursor: nat, nRight: nat)
    requires Progress(bs, s, m, e, LowerCount(bs, m), |bs|, low, up, lowCursor, upCursor, nRight)
    ensures var u := LowerCount(bs, m); var us, dst := bs[u..], SplitDst(bs, s, m, u);
            && PlanOf(low, bs, dst, Movables(bs, 0, u)) && PlanOf(up, bs, dst, Movables(bs, u, |bs|))
            && nRight == RightCount(us, m, |us|)
  {
    hide CursorAt, PlanOf, StepFits;
  }

  // ---- execution ------------------------------------------------------------------------------

  lemma {:induction false} NoPinsBetween(bs: seq<MB>, u: nat, j: nat)
    requires u <= j <= |bs| && forall k :: u <= k < j ==> !bs[k].pinned
    ensures |Movables(bs, u, j)| == j - u && forall k :: 0 <= k < j - u ==> Movables(bs, u, j)[k] == u + k
  {
    if u < j {
      NoPinsBetween(bs, u, j - 1);
    }
  }

  // Where the plan entries stand in the execution order.
  lemma RunLayout(bs: seq<MB>, u: nat, r: nat)
    requires u + r <= |bs| && forall k :: u <= k < u + r ==> !bs[k].pinned
    ensures var run, U, L := SplitRun(bs, u, r), Movables(bs, u, |bs|), Movables(bs, 0, u);
            && r <= |U| && |run| == |U| + |L|
            && (forall k :: 0 <= k < r ==> run[r - 1 - k] == U[k])
            && (forall k :: r <= k < |U| ==> run[k] == U[k])
            && (forall k :: 0 <= k < |L| ==> run[|U| + k] == L[k])
  {
    hide Movables;
    NoPinsBetween(bs, u, u + r);
    MovablesConcat(bs, u, u + r, |bs|);
    RunLayoutSeq(RightRun(u, r), Movables(bs, u, u + r), Movables(bs, u + r, |bs|), Movables(bs, 0, u));
  }

  lemma RunLayoutSeq(R: seq<nat>, F: seq<nat>, M: seq<nat>, L: seq<nat>)
    requires |R| == |F| && forall k :: 0 <= k < |F| ==> R[|F| - 1 - k] == F[k]
    ensures var run, U, r := R + M + L, F + M, |F|;
            && r <= |U| && |run| == |U| + |L|
            && (forall k :: 0 <= k < r ==> run[r - 1 - k] == U[k])
            && (forall k :: r <= k < |U| ==> run[k] == U[k])
            && (forall k :: 0 <= k < |L| ==> run[|U| + k] == L[k])
  {
  }

  // The three loops of split's execution phase: they cannot fail.
  method ExecuteSplit(zone: array<u32>, objects: array<ObjectDesc>, low: seq<PlanEntry>, up: seq<PlanEntry>, nRight: nat,
                      ghost bs: seq<MB>, ghost s: nat, ghost m: nat, ghost e: nat)
    requires Ordered(bs, s, e) && DistinctSlots(bs) && s <= m <= e <= zone.Length && m % ALIGN == 0 && SourcesAt(objects[..], bs)
    requires StackFits(bs[LowerCount(bs, m)..], m, e)
    requires var u := LowerCount(bs, m); var us, dst := bs[u..], SplitDst(bs, s, m, u);
             PlanOf(low, bs, dst, Movables(bs, 0, u)) && PlanOf(up, bs, dst, Movables(bs, u, |bs|)) && nRight == RightCount(us, m, |us|)
    modifies zone, objects
    ensures var u := LowerCount(bs, m); var dst, run := SplitDst(bs, s, m, u), SplitRun(bs, u, RightCount(bs[u..], m, |bs[u..]|));
            && RanZone(old(zone[..]), zone[..], bs, dst, run) && RanDescs(old(objects[..]), objects[..], bs, dst, run)
  {
    hide PlanOk, RanZone, RanDescs, SafeRun, SplitDst, Movables, Ordered, DistinctSlots, SplitRun, StackFits, LowerCount, RightCount, SplitPlaced, PlanOf;
    ghost var z0, ds0 := zone[..], objects[..];
    ghost var u := LowerCount(bs, m);
    ghost var dst, run := SplitDst(bs, s, m, u), SplitRun(bs, u, nRight);
    SplitPlanOk(bs, s, m, e);
    RightFree(bs, s, m, e);
    RunLayout(bs, u, nRight);
    RunOk(bs, dst, run, s, e);
    PlanEntries(up, bs, dst, Movables(bs, u, |bs|));
    PlanEntries(low, bs, dst, Movables(bs, 0, u));
    RanStart(z0, ds0, bs, dst);
    RunDescending(zone, objects, up, nRight, z0, ds0, bs, dst, run, s, e);
    RunAscending(zone, objects, up, nRight, z0, ds0, bs, dst, run, nRight, s, e);
    RunAscending(zone, objects, low, 0, z0, ds0, bs, dst, run, |up|, s, e);
    assert run[..|up| + |low|] == run;
  }

  lemma RightFree(bs: seq<MB>, s: nat, m: nat, e: nat)
    requires Ordered(bs, s, e) && s <= m <= e && m % ALIGN == 0 && StackFits(bs[LowerCount(bs, m)..], m, e)
    ensures var u := LowerCount(bs, m); var r := RightCount(bs[u..], m, |bs[u..]|);
            u + r <= |bs| && forall k :: u <= k < u + r ==> !bs[k].pinned
  {
    hide Ordered, StackFits, LowerCount, RightCount, SplitDst;
    SplitPlacement(bs, s, m, e);
  }

  lemma RunOk(bs: seq<MB>, dst: seq<nat>, run: seq<nat>, s: nat, e: nat)
    requires PlanOk(bs, dst, run, s, e)
    ensures |dst| == |bs| && forall k :: 0 <= k < |run| ==> run[k] < |bs|
  {
  }

  lemma PlanEntries(plan: seq<PlanEntry>, bs: seq<MB>, dst: seq<nat>, q: seq<nat>)
    requires PlanOf(plan, bs, dst, q)
    ensures |plan| == |q| && |dst| == |bs|
    ensures forall k :: 0 <= k < |q| ==> q[k] < |bs| && plan[k] == PlanEntry(bs[q[k]].slot, dst[q[k]], bs[q[k]].size)
  {
  }

  lemma RanStart(z0: seq<u32>, ds0: seq<ObjectDesc>, bs: seq<MB>, dst: seq<nat>)
    requires |dst| == |bs|
    ensures RanZone(z0, z0, bs, dst, []) && RanDescs(ds0, ds0, bs, dst, [])
  {
  }

  // ---- rebuilding both live lists ----------------------------------------------------------------

  // A descriptor after the rebuild: links and, above the boundary, the pool id are new.
  ghost predicate Relabelled(ds: seq<ObjectDesc>, ds': seq<ObjectDesc>, above: seq<nat>, all: seq<nat>, nid: u16) {
    && |ds'| == |ds|
    && (forall sl :: 0 <= sl < |ds| && sl in all ==>
         ds'[sl] == ds[sl].(poolId := if sl in above then nid else ds[sl].poolId, addrPrev := ds'[sl].addrPrev, addrNext := ds'[sl].addrNext))
    && (forall sl :: 0 <= sl < |ds| && sl !in all ==> ds'[sl] == ds[sl])
  }

  // The rebuild has linked the first i slots; u of all slots lie below the boundary.
  ghost predicate Relinking(ds: seq<ObjectDesc>, ds': seq<ObjectDesc>, slots: seq<nat>, u: nat, i: nat, nid: u16,
                            sHead: u32, sTail: u32, nHead: u32, nTail: u32)
    requires u <= |slots| && i <= |slots|
  {
    var low, up := slots[..Min(i, u)], slots[u..Max(i, u)];
    && OrderLinked(ds', low, sHead) && OrderLinked(ds', up, nHead)
    && sTail == At(low, |low| - 1) && nTail == At(up, |up| - 1)
    && Relabelled(ds, ds', up, slots[..i], nid)
  }

  // The writes of one round: idx joins the list behind tail.
  ghost predicate Rounded(ds: seq<ObjectDesc>, ds': seq<ObjectDesc>, idx: nat, above: bool, tail: u32, nid: u16) {
    && |ds'| == |ds| && idx < |ds| < 0xFFFF && (tail != NO_ORDER ==> tail < |ds| && tail != idx)
    && ds'[idx] == ds[idx].(poolId := if above then nid else ds[idx].poolId, addrPrev := tail, addrNext := NO_ORDER)
    && (forall sl :: 0 <= sl < |ds| && sl != idx ==> ds'[sl] == if sl == tail then ds[sl].(addrNext := idx) else ds[sl])
  }

  lemma RoundLow(ds: seq<ObjectDesc>, d1: seq<ObjectDesc>, d2: seq<ObjectDesc>, slots: seq<nat>, u: nat, i: nat, nid: u16,
                 sHead: u32, sTail: u32, nHead: u32, nTail: u32)
    requires i < u <= |slots| && NoDup(slots) && Relinking(ds, d1, slots, u, i, nid, sHead, sTail, nHead, nTail)
    requires slots[i] < |ds| < 0xFFFF && Rounded(d1, d2, slots[i], false, sTail, nid)
    ensures Relinking(ds, d2, slots, u, i + 1, nid, if sTail == NO_ORDER then slots[i] else sHead, slots[i], nHead, nTail)
  {
    hide Relabelled, OrderLinked;
    var low, idx := slots[..i], slots[i];
    assert slots[..i + 1] == low + [idx] && slots[u..u] == [];
    LinkedRange(d1, low, sHead);
    assert AppendedAt(d1, d2, low, idx);
    AppendTail(d1, d2, low, sHead, idx);
    LinkedEmpty(d1, d2, nHead);
    RelabelStep(ds, d1, d2, slots, u, i, nid, sTail);
  }

  lemma LinkedRange(ds: seq<ObjectDesc>, q: seq<nat>, head: u32)
    requires OrderLinked(ds, q, head)
    ensures forall i :: 0 <= i < |q| ==> q[i] < |ds|
  {
  }

  lemma LinkedEmpty(ds: seq<ObjectDesc>, ds': seq<ObjectDesc>, head: u32)
    requires OrderLinked(ds, [], head)
    ensures OrderLinked(ds', [], head)
  {
  }

  lemma RoundUp(ds: seq<ObjectDesc>, d1: seq<ObjectDesc>, d2: seq<ObjectDesc>, slots: seq<nat>, u: nat, i: nat, nid: u16,
                sHead: u32, sTail: u32, nHead: u32, nTail: u32)
    requires u <= i < |slots| && NoDup(slots) && Relinking(ds, d1, slots, u, i, nid, sHead, sTail, nHead, nTail)
    requires slots[i] < |ds| < 0xFFFF && Rounded(d1, d2, slots[i], true, nTail, nid)
    ensures Relinking(ds, d2, slots, u, i + 1, nid, sHead, sTail, if nTail == NO_ORDER then slots[i] else nHead, slots[i])
  {
    hide Relabelled, OrderLinked;
    var low, up, idx := slots[..u], slots[u..i], slots[i];
    assert slots[u..i + 1] == up + [idx];
    LinkedRange(d1, up, nHead);
    LinkedRange(d1, low, sHead);
    assert AppendedAt(d1, d2, up, idx);
    AppendTail(d1, d2, up, nHead, idx);
    forall k | 0 <= k < |low| ensures d2[low[k]] == d1[low[k]] {
      assert low[k] == slots[k] && (nTail != NO_ORDER ==> nTail == slots[i - 1]);
    }
    LinksFrame(d1, d2, low, sHead);
    RelabelStep(ds, d1, d2, slots, u, i, nid, nTail);
  }

  lemma RelabelStep(ds: seq<ObjectDesc>, d1: seq<ObjectDesc>, d2: seq<ObjectDesc>, slots: seq<nat>, u: nat, i: nat, nid: u16, tail: u32)
    requires u <= |slots| && i < |slots| && NoDup(slots) && slots[i] < |ds|
    requires Relabelled(ds, d1, slots[u..Max(i, u)], slots[..i], nid) && Rounded(d1, d2, slots[i], i >= u, tail, nid)
    requires tail != NO_ORDER ==> i > 0 && tail == slots[i - 1]
    ensures Relabelled(ds, d2, slots[u..Max(i + 1, u)], slots[..i + 1], nid)
  {
    var a, b := slots[u..Max(i, u)], slots[u..Max(i + 1, u)];
    var p, q := slots[..i], slots[..i + 1];
    assert q == p + [slots[i]];
    assert i >= u ==> b == a + [slots[i]];
    assert i < u ==> a == [] && b == [];
    assert tail != NO_ORDER ==> p[i - 1] == tail;
    assert forall sl :: sl in q <==> sl in p || sl == slots[i];
    assert forall sl :: sl in b <==> sl in a || (i >= u && sl == slots[i]);
    assert slots[i] !in p;
    assert slots[i] !in a by {
      forall k | 0 <= k < |a| ensures a[k] != slots[i] { assert a[k] == slots[u + k]; }
    }
    forall sl | 0 <= sl < |ds| && sl in q
      ensures d2[sl] == ds[sl].(poolId := if sl in b then nid else ds[sl].poolId, addrPrev := d2[sl].addrPrev, addrNext := d2[sl].addrNext)
    {
      if sl != slots[i] {
        assert d1[sl] == ds[sl].(poolId := if sl in a then nid else ds[sl].poolId, addrPrev := d1[sl].addrPrev, addrNext := d1[sl].addrNext);
      }
    }
  }

  // Straight appends in address order, to one list per side of the boundary.
  method RelinkHalves(objects: array<ObjectDesc>, slots: seq<nat>, boundary: nat, nid: u16, ghost u: nat)
      returns (sHead: u32, nHead: u32, movedCount: nat)
    requires objects.Length < 0xFFFF && NoDup(slots) && u <= |slots|
    requires forall i :: 0 <= i < |slots| ==> slots[i] < objects.Length && (objects[slots[i]].address >= boundary <==> u <= i)
    modifies objects
    ensures OrderLinked(objects[..], slots[..u], sHead) && OrderLinked(objects[..], slots[u..], nHead)
    ensures Relabelled(old(objects[..]), objects[..], slots[u..], slots, nid) && movedCount == |slots| - u
  {
    hide Relinking, NoDup, OrderLinked, Relabelled;
    ghost var ds := objects[..];
    sHead, nHead, movedCount := NO_ORDER, NO_ORDER, 0;
    var sTail: u32, nTail: u32 := NO_ORDER, NO_ORDER;
    RelinkStart(ds, slots, u, nid);
    for i := 0 to |slots|
      invariant Relinking(ds, objects[..], slots, u, i, nid, sHead, sTail, nHead, nTail)
      invariant forall k :: i <= k < |slots| ==> objects[slots[k]] == ds[slots[k]]
      invariant movedCount == Max(i, u) - u
    {
      var idx := slots[i];
      ghost var d1, s0, n0 := objects[..], sHead, nHead;
      Tails(ds, d1, slots, u, i, nid, sHead, sTail, nHead, nTail);
      FreshSlot(slots, i);
      if i > 0 { FreshSlot(slots, i - 1); }
      var above := objects[idx].address >= boundary;
      if above {
        objects[idx] := objects[idx].(poolId := nid);
        movedCount := movedCount + 1;
      }
      var tail := if above then nTail else sTail;
      objects[idx] := objects[idx].(addrPrev := tail, addrNext := NO_ORDER);
      if tail != NO_ORDER {
        objects[tail] := objects[tail].(addrNext := idx);
      } else if above {
        nHead := idx;
      } else {
        sHead := idx;
      }
      if above {
        RoundUp(ds, d1, objects[..], slots, u, i, nid, s0, sTail, n0, nTail);
        nTail := idx;
      } else {
        RoundLow(ds, d1, objects[..], slots, u, i, nid, s0, sTail, n0, nTail);
        sTail := idx;
      }
    }
    RelinkEnd(ds, objects[..], slots, u, nid, sHead, sTail, nHead, nTail);
  }

  lemma RelinkStart(ds: seq<ObjectDesc>, slots: seq<nat>, u: nat, nid: u16)
    requires u <= |slots|
    ensures Relinking(ds, ds, slots, u, 0, nid, NO_ORDER, NO_ORDER, NO_ORDER, NO_ORDER)
  {
  }

  lemma RelinkEnd(ds: seq<ObjectDesc>, ds': seq<ObjectDesc>, slots: seq<nat>, u: nat, nid: u16, sHead: u32, sTail: u32, nHead: u32, nTail: u32)
    requires u <= |slots| && Relinking(ds, ds', slots, u, |slots|, nid, sHead, sTail, nHead, nTail)
    ensures OrderLinked(ds', slots[..u], sHead) && OrderLinked(ds', slots[u..], nHead) && Relabelled(ds, ds', slots[u..], slots, nid)
  {
    assert slots[..|slots|] == slots && slots[u..|slots|] == slots[u..];
  }

  lemma Tails(ds: seq<ObjectDesc>, ds': seq<ObjectDesc>, slots: seq<nat>, u: nat, i: nat, nid: u16,
              sHead: u32, sTail: u32, nHead: u32, nTail: u32)
    requires u <= |slots| && i < |slots| && Relinking(ds, ds', slots, u, i, nid, sHead, sTail, nHead, nTail)
    requires forall k :: 0 <= k < |slots| ==> slots[k] < |ds| < 0xFFFF
    ensures |ds'| == |ds|
    ensures i < u && sTail != NO_ORDER ==> i > 0 && sTail == slots[i - 1]
    ensures u <= i && nTail != NO_ORDER ==> i > u && nTail == slots[i - 1]
  {
    hide OrderLinked;
  }

  lemma FreshSlot(slots: seq<nat>, i: nat)
    requires NoDup(slots) && i < |slots|
    ensures forall k :: 0 <= k < |slots| && k != i ==> slots[k] != slots[i]
  {
  }

  // ---- the effect -----------------------------------------------------------------------------

  function SlotsOf(bs: seq<MB>): (r: seq<nat>)
    ensures |r| == |bs| && forall i :: 0 <= i < |bs| ==> r[i] == bs[i].slot
  {
    seq(|bs|, i requires 0 <= i < |bs| => bs[i].slot)
  }

  // Every movable block has its new address and a new address epoch, blocks of the upper side
  // belong to pool nid, links are rebuilt; nothing else in the table changes.
  ghost predicate SplitDescs(ds: seq<ObjectDesc>, ds': seq<ObjectDesc>, bs: seq<MB>, dst: seq<nat>, u: nat, nid: u16) {
    && |ds'| == |ds| && |dst| == |bs|
    && (forall i {:trigger bs[i]} :: 0 <= i < |bs| ==>
         && bs[i].slot < |ds|
         && var d, d' := ds[bs[i].slot], ds'[bs[i].slot];
            d' == (if bs[i].pinned then d else MovedDesc(d, dst[i])).(poolId := if i >= u then nid else d.poolId,
                                                                      addrPrev := d'.addrPrev, addrNext := d'.addrNext))
    && (forall sl :: 0 <= sl < |ds| && !Blocked(bs, sl) ==> ds'[sl] == ds[sl])
  }

  lemma SplitDescsHold(ds0: seq<ObjectDesc>, ds1: seq<ObjectDesc>, ds2: seq<ObjectDesc>, slots: seq<nat>, bs: seq<MB>,
                       dst: seq<nat>, u: nat, r: nat, nid: u16)
    requires Addressed(ds0, slots) && bs == BlocksOf(ds0, slots) && NoDup(slots) && u + r <= |bs| == |dst|
    requires forall k :: u <= k < u + r ==> !bs[k].pinned
    requires RanDescs(ds0, ds1, bs, dst, SplitRun(bs, u, r)) && Relabelled(ds1, ds2, slots[u..], slots, nid)
    ensures SplitDescs(ds0, ds2, bs, dst, u, nid)
  {
    hide SplitRun, RanDescs, Relabelled, NoDup, BlocksOf;
    var run := SplitRun(bs, u, r);
    forall i | 0 <= i < |bs|
      ensures bs[i].slot < |ds0| == |ds1| == |ds2| && i < |slots| && bs[i].slot == slots[i]
      ensures var d, d' := ds0[bs[i].slot], ds2[bs[i].slot];
              d' == (if bs[i].pinned then d else MovedDesc(d, dst[i])).(poolId := if i >= u then nid else d.poolId,
                                                                        addrPrev := d'.addrPrev, addrNext := d'.addrNext)
    {
      BlocksIndex(ds0, slots, i);
      RanAt(ds0, ds1, bs, dst, slots, u, r, i);
      RelabelAt(ds1, ds2, slots, u, nid, i);
    }
    RanLength(ds0, ds1, bs, dst, run);
    RelabelLength(ds1, ds2, slots[u..], slots, nid);
    forall sl | 0 <= sl < |ds0| && !Blocked(bs, sl) ensures ds2[sl] == ds0[sl] {
      assert sl !in slots by {
        forall i | 0 <= i < |slots| ensures slots[i] != sl { assert bs[i].slot == slots[i]; }
      }
      RanOther(ds0, ds1, bs, dst, run, sl);
      RelabelOther(ds1, ds2, slots[u..], slots, nid, sl);
    }
  }

  lemma RanLength(ds0: seq<ObjectDesc>, ds: seq<ObjectDesc>, bs: seq<MB>, dst: seq<nat>, run: seq<nat>)
    requires RanDescs(ds0, ds, bs, dst, run)
    ensures |ds| == |ds0|
  {
  }

  lemma RelabelLength(ds: seq<ObjectDesc>, ds': seq<ObjectDesc>, above: seq<nat>, all: seq<nat>, nid: u16)
    requires Relabelled(ds, ds', above, all, nid)
    ensures |ds'| == |ds|
  {
  }

  lemma RanAt(ds0: seq<ObjectDesc>, ds1: seq<ObjectDesc>, bs: seq<MB>, dst: seq<nat>, slots: seq<nat>, u: nat, r: nat, i: nat)
    requires u + r <= |bs| == |dst| && RanDescs(ds0, ds1, bs, dst, SplitRun(bs, u, r)) && i < |bs|
    requires forall k :: u <= k < u + r ==> !bs[k].pinned
    requires NoDup(slots) && |slots| == |bs| && forall k :: 0 <= k < |bs| ==> bs[k].slot == slots[k]
    requires bs[i].slot < |ds0|
    ensures |ds1| == |ds0| && ds1[bs[i].slot] == if bs[i].pinned then ds0[bs[i].slot] else MovedDesc(ds0[bs[i].slot], dst[i])
  {
    hide MovedDesc, SplitRun;
    var run := SplitRun(bs, u, r);
    RunShape(bs, u, r);
    if bs[i].pinned {
      PinsNotRun(bs, u, r);
      assert !SlotDone(bs, run, bs[i].slot) by {
        forall k | 0 <= k < |run| ensures bs[run[k]].slot != bs[i].slot { assert run[k] != i; }
      }
    } else {
      var k :| 0 <= k < |run| && run[k] == i;
    }
  }

  lemma PinsNotRun(bs: seq<MB>, u: nat, r: nat)
    requires u + r <= |bs| && forall k :: u <= k < u + r ==> !bs[k].pinned
    ensures forall k :: 0 <= k < |SplitRun(bs, u, r)| ==> SplitRun(bs, u, r)[k] < |bs| && !bs[SplitRun(bs, u, r)[k]].pinned
  {
  }

  lemma RanOther(ds0: seq<ObjectDesc>, ds1: seq<ObjectDesc>, bs: seq<MB>, dst: seq<nat>, run: seq<nat>, sl: nat)
    requires RanDescs(ds0, ds1, bs, dst, run) && sl < |ds0| && !Blocked(bs, sl)
    ensures |ds1| == |ds0| && ds1[sl] == ds0[sl]
  {
    assert !SlotDone(bs, run, sl);
  }

  lemma RelabelAt(ds: seq<ObjectDesc>, ds': seq<ObjectDesc>, slots: seq<nat>, u: nat, nid: u16, i: nat)
    requires u <= |slots| && i < |slots| && NoDup(slots) && Relabelled(ds, ds', slots[u..], slots, nid) && slots[i] < |ds|
    ensures |ds'| == |ds|
    ensures ds'[slots[i]] == ds[slots[i]].(poolId := if i >= u then nid else ds[slots[i]].poolId,
                                           addrPrev := ds'[slots[i]].addrPrev, addrNext := ds'[slots[i]].addrNext)
  {
    assert i >= u ==> slots[u..][i - u] == slots[i];
    assert i < u ==> slots[i] !in slots[u..] by {
      forall k | 0 <= k < |slots[u..]| && i < u ensures slots[u..][k] != slots[i] {
        assert slots[u..][k] == slots[u + k];
      }
    }
  }

  lemma RelabelOther(ds: seq<ObjectDesc>, ds': seq<ObjectDesc>, above: seq<nat>, all: seq<nat>, nid: u16, sl: nat)
    requires Relabelled(ds, ds', above, all, nid) && sl < |ds| && sl !in all
    ensures |ds'| == |ds| && ds'[sl] == ds[sl]
  {
  }

  // What a split changes in a descriptor: address, address epoch, pool and list links.
  lemma SplitFields(ds: seq<ObjectDesc>, ds': seq<ObjectDesc>, bs: seq<MB>, dst: seq<nat>, u: nat, nid: u16, sl: nat)
    requires SplitDescs(ds, ds', bs, dst, u, nid) && sl < |ds|
    ensures |ds'| == |ds|
    ensures ds'[sl] == ds[sl].(address := ds'[sl].address, addressEpoch := ds'[sl].addressEpoch, poolId := ds'[sl].poolId,
                               addrPrev := ds'[sl].addrPrev, addrNext := ds'[sl].addrNext)
  {
    if Blocked(bs, sl) {
      var i :| 0 <= i < |bs| && bs[i].slot == sl;
    }
  }

  // Block i after the split, read off its descriptor.
  lemma SplitBlockAt(ds: seq<ObjectDesc>, ds': seq<ObjectDesc>, bs: seq<MB>, dst: seq<nat>, u: nat, nid: u16, i: nat)
    requires SplitDescs(ds, ds', bs, dst, u, nid) && i < |bs| && bs[i].slot < |ds| && HEADER <= ds[bs[i].slot].address
    requires bs[i] == BlockOf(ds, bs[i].slot) && (bs[i].pinned ==> dst[i] == bs[i].off)
    ensures bs[i].slot < |ds'| && ds'[bs[i].slot].address == dst[i] + HEADER
    ensures BlockOf(ds', bs[i].slot) == bs[i].(off := dst[i])
    ensures ds'[bs[i].slot].poolId == if i >= u then nid else ds[bs[i].slot].poolId
  {
  }

  // One half: a contiguous run of the slot array, linked and placed.
  lemma HalfObjs(ds: seq<ObjectDesc>, slots: seq<nat>, D: seq<MB>, head: u32, pid: nat, s: nat, e: nat)
    requires |ds| < 0xFFFF && OrderLinked(ds, slots, head) && NoDup(slots) && Ordered(D, s, e) && |D| == |slots|
    requires forall i :: 0 <= i < |slots| ==> slots[i] < |ds| && HEADER <= ds[slots[i]].address && D[i] == BlockOf(ds, slots[i])
    requires forall i :: 0 <= i < |slots| ==> LiveDesc(ds[slots[i]], pid)
    ensures ObjsOk(ds, head, pid, CanonFull(D, s, e), slots)
  {
    hide OrderLinked, NoDup, Ordered, CanonFull, LiveDesc, ObjsOk;
    forall i | 0 <= i < |D| ensures D[i].slot in slots && D[i].slot < |ds| && HEADER <= ds[D[i].slot].address && D[i] == BlockOf(ds, D[i].slot) {
      assert D[i].slot == slots[i];
    }
    forall sl | sl in slots ensures Blocked(D, sl) && sl < |ds| && LiveDesc(ds[sl], pid) {
      var i := IndexOf(slots, sl);
      assert D[i].slot == sl;
    }
    RebuiltObjs(ds, head, pid, slots, D, s, e);
  }

  // ---- both halves of the window ------------------------------------------------------------------

  lemma {:induction false} InRangeConcat(a: seq<MB>, b: seq<MB>, s: nat, e: nat)
    ensures InRange(a + b, s, e) == InRange(a, s, e) + InRange(b, s, e)
    decreases |b|
  {
    if b == [] {
      assert a + b == a;
    } else {
      var n := |b| - 1;
      InRangeConcat(a, b[..n], s, e);
      assert (a + b)[..|a + b| - 1] == a + b[..n];
    }
  }

  lemma {:induction false} NoneInRange(bs: seq<MB>, s: nat, e: nat)
    requires forall i :: 0 <= i < |bs| ==> !Inside2(bs[i], s, e)
    ensures InRange(bs, s, e) == []
  {
    if bs != [] {
      NoneInRange(bs[..|bs| - 1], s, e);
    }
  }

  // finalize_layout sees the whole slot array; its range filter picks out one half.
  lemma HalvesInRange(L: seq<MB>, U: seq<MB>, s: nat, m: nat, e: nat)
    requires Ordered(L, s, m) && Ordered(U, m, e)
    ensures InRange(L + U, s, m) == L && InRange(L + U, m, e) == U
  {
    InRangeConcat(L, U, s, m);
    InRangeConcat(L, U, m, e);
    AllInRange(L, s, m);
    AllInRange(U, m, e);
    NoneInRange(U, s, m);
    NoneInRange(L, m, e);
  }

  lemma {:induction false} SumConcat(a: seq<MB>, b: seq<MB>)
    ensures SumSizes(a + b) == SumSizes(a) + SumSizes(b)
    decreases |b|
  {
    if b == [] {
      assert a + b == a;
    } else {
      var n := |b| - 1;
      SumConcat(a, b[..n]);
      assert (a + b)[..|a + b| - 1] == a + b[..n];
    }
  }

  lemma HalvesPayload(z1: seq<u32>, z2: seq<u32>, z3: seq<u32>, L: seq<MB>, U: seq<MB>, s: nat, m: nat, e: nat)
    requires Ordered(L, s, m) && Ordered(U, m, e)
    requires OutsideKept(z1, z2, s, m) && PayloadKept(z1, z2, L) && OutsideKept(z2, z3, m, e) && PayloadKept(z2, z3, U)
    ensures PayloadKept(z1, z3, L + U) && OutsideKept(z1, z3, s, e) && SameWithin(z2, z3, s, m)
  {
    var D := L + U;
    forall i, c | 0 <= i < |D| && D[i].off + HEADER <= c < D[i].off + D[i].size && c < |z1| ensures z3[c] == z1[c] {
      if i < |L| {
        assert D[i] == L[i];
        assert z2[c] == z1[c];
      } else {
        assert D[i] == U[i - |L|];
        assert z2[c] == z1[c];
      }
    }
  }

  lemma SplitPayload(z0: seq<u32>, z1: seq<u32>, z2: seq<u32>, z3: seq<u32>, bs: seq<MB>, s: nat, m: nat, e: nat)
    requires Ordered(bs, s, e) && DistinctSlots(bs) && s <= m <= e <= |z0| && m % ALIGN == 0 && StackFits(bs[LowerCount(bs, m)..], m, e)
    requires var u := LowerCount(bs, m); var dst := SplitDst(bs, s, m, u); var D := Placed(bs, dst);
             && RanZone(z0, z1, bs, dst, SplitRun(bs, u, RightCount(bs[u..], m, |bs[u..]|)))
             && OutsideKept(z1, z2, s, m) && PayloadKept(z1, z2, D[..u]) && OutsideKept(z2, z3, m, e) && PayloadKept(z2, z3, D[u..])
    ensures PayloadMoved(z0, z3, bs, SplitDst(bs, s, m, LowerCount(bs, m))) && OutsideKept(z0, z3, s, e) && SameWithin(z2, z3, s, m)
  {
    hide Ordered, DistinctSlots, SplitDst, SplitRun, PayloadKept, PayloadMoved, AllCopied, PlanOk, StackFits, LowerCount, RightCount, RanZone, SplitPlaced, SameWithin;
    var u := LowerCount(bs, m);
    var dst, run := SplitDst(bs, s, m, u), SplitRun(bs, u, RightCount(bs[u..], m, |bs[u..]|));
    var D := Placed(bs, dst);
    SplitPlacement(bs, s, m, e);
    SplitPlanOk(bs, s, m, e);
    RunDone(z0, z1, bs, dst, run, s, e);
    HalvesPayload(z1, z2, z3, D[..u], D[u..], s, m, e);
    assert D[..u] + D[u..] == D;
    RanSameLength(z0, z1, bs, dst, run);
    PayloadComposed(z0, z1, z3, bs, dst);
    OutsideComposed(z0, z1, z3, s, e);
  }

  lemma RanSameLength(z0: seq<u32>, z1: seq<u32>, bs: seq<MB>, dst: seq<nat>, run: seq<nat>)
    requires RanZone(z0, z1, bs, dst, run)
    ensures |z1| == |z0|
  {
  }

  lemma OutsideComposed(z0: seq<u32>, z1: seq<u32>, z2: seq<u32>, s: nat, e: nat)
    requires |z1| == |z0| && forall c :: 0 <= c < |z1| && !(s <= c < e) ==> z1[c] == z0[c]
    requires OutsideKept(z1, z2, s, e)
    ensures OutsideKept(z0, z2, s, e)
  {
  }

  // The objects of both halves after the rebuild.
  // The relinked table still describes every block, at its destination.
  lemma SplitBlocks(ds: seq<ObjectDesc>, ds': seq<ObjectDesc>, nid: u16, slots: seq<nat>, bs: seq<MB>, s: nat, m: nat, e: nat)
    requires Addressed(ds, slots) && bs == BlocksOf(ds, slots)
    requires Ordered(bs, s, e) && s <= m <= e && m % ALIGN == 0 && StackFits(bs[LowerCount(bs, m)..], m, e)
    requires SplitDescs(ds, ds', bs, SplitDst(bs, s, m, LowerCount(bs, m)), LowerCount(bs, m), nid)
    ensures Addressed(ds', slots) && BlocksOf(ds', slots) == Placed(bs, SplitDst(bs, s, m, LowerCount(bs, m)))
  {
    hide BlocksOf, Ordered, StackFits, LowerCount, SplitDescs, SplitDst, SplitPlaced, RightCount;
    var u := LowerCount(bs, m);
    var dst := SplitDst(bs, s, m, u);
    var D := Placed(bs, dst);
    SplitPlacement(bs, s, m, e);
    forall i | 0 <= i < |slots|
      ensures slots[i] < |ds'| && HEADER <= ds'[slots[i]].address && D[i] == BlockOf(ds', slots[i])
    {
      BlocksIndex(ds, slots, i);
      PinnedPlaced(bs, dst, m, u, RightCount(bs[u..], m, |bs[u..]|), i);
      SplitBlockAt(ds, ds', bs, dst, u, nid, i);
    }
    BlocksAre(ds', slots, D);
  }

  lemma SplitObjs(ds: seq<ObjectDesc>, ds': seq<ObjectDesc>, head: u32, sHead: u32, nHead: u32, sid: nat, nid: u16, A: APool,
                  slots: seq<nat>, bs: seq<MB>, s: nat, m: nat, e: nat)
    requires ObjsOk(ds, head, sid, A.L, A.order) && Addressed(ds, slots) && bs == BlocksOf(ds, slots) && NoDup(slots)
    requires ListBlocks(ds, A.order, bs)
    requires Ordered(bs, s, e) && s <= m <= e && m % ALIGN == 0 && StackFits(bs[LowerCount(bs, m)..], m, e)
    requires SplitDescs(ds, ds', bs, SplitDst(bs, s, m, LowerCount(bs, m)), LowerCount(bs, m), nid)
    requires OrderLinked(ds', slots[..LowerCount(bs, m)], sHead) && OrderLinked(ds', slots[LowerCount(bs, m)..], nHead)
    ensures var u := LowerCount(bs, m); var D := Placed(bs, SplitDst(bs, s, m, u));
            && ObjsOk(ds', sHead, sid, CanonFull(D[..u], s, m), slots[..u])
            && ObjsOk(ds', nHead, nid, CanonFull(D[u..], m, e), slots[u..])
            && Addressed(ds', slots) && BlocksOf(ds', slots) == D
  {
    hide ObjsOk, BlocksOf, NoDup, ListBlocks, Ordered, StackFits, LowerCount, SplitDescs, SplitDst, OrderLinked, CanonFull, SplitPlaced, LiveDesc, RightCount;
    var u := LowerCount(bs, m);
    var dst := SplitDst(bs, s, m, u);
    var D := Placed(bs, dst);
    SplitPlacement(bs, s, m, e);
    SlotsNoDup(slots, u);
    forall i | 0 <= i < |slots|
      ensures slots[i] < |ds'| && HEADER <= ds'[slots[i]].address && D[i] == BlockOf(ds', slots[i])
      ensures LiveDesc(ds'[slots[i]], if i >= u then nid else sid)
    {
      BlocksIndex(ds, slots, i);
      PinnedPlaced(bs, dst, m, u, RightCount(bs[u..], m, |bs[u..]|), i);
      SplitBlockAt(ds, ds', bs, dst, u, nid, i);
      SplitLive(ds, ds', head, sid, nid, A, bs, dst, u, i);
    }
    SplitLength(ds, ds', head, sid, A, bs, dst, u, nid);
    HalfObjs(ds', slots[..u], D[..u], sHead, sid, s, m);
    forall i | 0 <= i < |slots[u..]| ensures D[u..][i] == D[u + i] && slots[u..][i] == slots[u + i] {
    }
    HalfObjs(ds', slots[u..], D[u..], nHead, nid, m, e);
    BlocksAre(ds', slots, D);
  }

  lemma BlocksAre(ds: seq<ObjectDesc>, slots: seq<nat>, D: seq<MB>)
    requires |D| == |slots| && forall i :: 0 <= i < |slots| ==> slots[i] < |ds| && HEADER <= ds[slots[i]].address && D[i] == BlockOf(ds, slots[i])
    ensures Addressed(ds, slots) && BlocksOf(ds, slots) == D
  {
  }

  lemma SplitLength(ds: seq<ObjectDesc>, ds': seq<ObjectDesc>, head: u32, sid: nat, A: APool, bs: seq<MB>, dst: seq<nat>, u: nat, nid: u16)
    requires ObjsOk(ds, head, sid, A.L, A.order) && SplitDescs(ds, ds', bs, dst, u, nid)
    ensures |ds'| == |ds| < 0xFFFF
  {
    hide OrderLinked;
  }

  lemma SlotsNoDup(slots: seq<nat>, u: nat)
    requires NoDup(slots) && u <= |slots|
    ensures NoDup(slots[..u]) && NoDup(slots[u..])
  {
    forall i, j | 0 <= i < j < |slots[u..]| ensures slots[u..][i] != slots[u..][j] {
      assert slots[u + i] != slots[u + j];
    }
  }

  lemma SplitLive(ds: seq<ObjectDesc>, ds': seq<ObjectDesc>, head: u32, sid: nat, nid: u16, A: APool, bs: seq<MB>, dst: seq<nat>, u: nat, i: nat)
    requires ObjsOk(ds, head, sid, A.L, A.order) && ListBlocks(ds, A.order, bs) && SplitDescs(ds, ds', bs, dst, u, nid) && i < |bs|
    ensures bs[i].slot < |ds'| && LiveDesc(ds'[bs[i].slot], if i >= u then nid else sid)
  {
    hide OrderLinked;
    assert bs[i].slot in A.order;
    SplitFields(ds, ds', bs, dst, u, nid, bs[i].slot);
  }

  // ---- audit, plan, execute, rebuild -------------------------------------------------------------

  // The pool records of a successful split, before they are published.
  ghost predicate SplitRecords(P: Pool, S: Pool, N: Pool, keep: nat, u: nat) {
    && 0 < keep < P.segmentCount && P.segmentFirst + keep < 0x1_0000
    && S == P.(state := S.state, structureEpoch := S.structureEpoch, segmentCount := keep, orderHead := S.orderHead, liveObjects := u,
               bins := S.bins, usedBytes := S.usedBytes, freeBytes := S.freeBytes, fragmentBytes := S.fragmentBytes)
    && N == ZeroPool().(state := N.state, structureEpoch := N.structureEpoch, segmentFirst := P.segmentFirst + keep, segmentCount := P.segmentCount - keep,
                        orderHead := N.orderHead, liveObjects := N.liveObjects,
                        bins := N.bins, usedBytes := N.usedBytes, freeBytes := N.freeBytes, fragmentBytes := N.fragmentBytes)
    && S.liveObjects + N.liveObjects == P.liveObjects
    && S.usedBytes + N.usedBytes == P.usedBytes && S.freeBytes + N.freeBytes == P.freeBytes
  }

  function Boundary(P: Pool, keep: nat, seg: nat): nat {
    SegOff(P.segmentFirst + keep, seg)
  }

  // What a split that keeps `keep` segments does: bs are the source's blocks in address order.
  ghost predicate SplitDone(z: seq<u32>, z': seq<u32>, P: Pool, S: Pool, N: Pool, ds: seq<ObjectDesc>, ds': seq<ObjectDesc>,
                            A: APool, A': APool, B': APool, seg: nat, bs: seq<MB>, keep: nat, nid: u16) {
    var s, m, e := PoolStart(P, seg), Boundary(P, keep, seg), PoolEnd(P, seg);
    var u := LowerCount(bs, m);
    var dst := SplitDst(bs, s, m, u);
    var D := Placed(bs, dst);
    && Ordered(bs, s, e) && ListBlocks(ds, A.order, bs) && DistinctSlots(bs)
    && A'.L == CanonFull(D[..u], s, m) && B'.L == CanonFull(D[u..], m, e)
    && A'.order == SlotsOf(bs)[..u] && B'.order == SlotsOf(bs)[u..]
    && SplitDescs(ds, ds', bs, dst, u, nid) && PayloadMoved(z, z', bs, dst) && OutsideKept(z, z', s, e)
    && SplitRecords(P, S, N, keep, u)
  }

  // The boundary lies strictly inside the window, on a segment border.
  lemma BoundaryFacts(P: Pool, keep: nat, seg: nat, segCount: nat, zoneSize: nat)
    requires 0 < keep < P.segmentCount && 1024 <= seg && seg % 1024 == 0 && GeometryOk(P, seg, segCount, zoneSize)
    ensures PoolStart(P, seg) <= Boundary(P, keep, seg) <= PoolEnd(P, seg) && Boundary(P, keep, seg) % ALIGN == 0
  {
    SegMono(P.segmentFirst, P.segmentFirst + keep, seg);
    SegMono(P.segmentFirst + keep, P.segmentFirst + P.segmentCount, seg);
    SegAligned(P.segmentFirst + keep, seg);
  }

  // The lower half's slots are those whose payload lies below the boundary.
  lemma AboveIffUpper(ds: seq<ObjectDesc>, ds': seq<ObjectDesc>, slots: seq<nat>, bs: seq<MB>, s: nat, m: nat, e: nat)
    requires Addressed(ds, slots) && bs == BlocksOf(ds, slots) && DistinctSlots(bs)
    requires Ordered(bs, s, e) && s <= m <= e && m % ALIGN == 0 && StackFits(bs[LowerCount(bs, m)..], m, e)
    requires var u := LowerCount(bs, m);
             RanDescs(ds, ds', bs, SplitDst(bs, s, m, u), SplitRun(bs, u, RightCount(bs[u..], m, |bs[u..]|)))
    ensures |ds'| == |ds| && NoDup(slots)
    ensures forall i :: 0 <= i < |slots| ==> slots[i] < |ds'| && (ds'[slots[i]].address >= m <==> LowerCount(bs, m) <= i)
  {
    hide BlocksOf, Ordered, StackFits, LowerCount, SplitDst, SplitRun, RightCount, RanDescs, SplitPlaced;
    var u := LowerCount(bs, m);
    var dst, r := SplitDst(bs, s, m, u), RightCount(bs[u..], m, |bs[u..]|);
    SplitPlacement(bs, s, m, e);
    RightFree(bs, s, m, e);
    RanLength(ds, ds', bs, dst, SplitRun(bs, u, r));
    forall i, j | 0 <= i < j < |slots| ensures slots[i] != slots[j] {
      BlocksIndex(ds, slots, i);
      BlocksIndex(ds, slots, j);
      assert bs[i].slot != bs[j].slot;
    }
    forall i | 0 <= i < |slots| ensures slots[i] < |ds'| && (ds'[slots[i]].address >= m <==> u <= i) {
      BlocksIndex(ds, slots, i);
      forall k | 0 <= k < |bs| ensures bs[k].slot == slots[k] { BlocksIndex(ds, slots, k); }
      RanAt(ds, ds', bs, dst, slots, u, r, i);
      PlacedSide(bs, dst, s, m, e, u, r, i);
    }
  }

  lemma PlacedSide(bs: seq<MB>, dst: seq<nat>, s: nat, m: nat, e: nat, u: nat, r: nat, i: nat)
    requires Ordered(bs, s, e) && SplitPlaced(bs, dst, m, u, r) && i < |bs|
    ensures |dst| == |bs| && (dst[i] + HEADER >= m <==> u <= i)
    ensures bs[i].pinned ==> dst[i] == bs[i].off
  {
  }

  lemma SplitRecordsHold(P: Pool, S: Pool, N: Pool, seg: nat, bs: seq<MB>, D: seq<MB>, dst: seq<nat>, u: nat, keep: nat)
    requires P.usedBytes + P.freeBytes == PoolEnd(P, seg) - PoolStart(P, seg) && SumSizes(bs) == P.usedBytes && |bs| == P.liveObjects && u <= |bs| == |dst| && D == Placed(bs, dst)
    requires 0 < keep < P.segmentCount && P.segmentFirst + keep < 0x1_0000
    requires PoolStart(P, seg) <= Boundary(P, keep, seg) <= PoolEnd(P, seg)
    requires S == P.(segmentCount := keep, orderHead := S.orderHead, liveObjects := u,
                     bins := S.bins, usedBytes := S.usedBytes, freeBytes := S.freeBytes, fragmentBytes := S.fragmentBytes)
    requires N == ZeroPool().(state := N.state, segmentFirst := P.segmentFirst + keep, segmentCount := P.segmentCount - keep,
                              orderHead := N.orderHead, liveObjects := |bs| - u,
                              bins := N.bins, usedBytes := N.usedBytes, freeBytes := N.freeBytes, fragmentBytes := N.fragmentBytes)
    requires S.usedBytes == SumSizes(D[..u]) && N.usedBytes == SumSizes(D[u..])
    requires S.usedBytes + S.freeBytes == Boundary(P, keep, seg) - PoolStart(P, seg)
    requires N.usedBytes + N.freeBytes == PoolEnd(P, seg) - Boundary(P, keep, seg)
    ensures SplitRecords(P, S, N, keep, u)
  {
    hide PoolStart, PoolEnd, Boundary, SumSizes, ZeroPool, Placed;
    SumConcat(D[..u], D[u..]);
    assert D[..u] + D[u..] == D;
    PlacedSum(bs, dst);
  }

  lemma UsedPlusFree(z: seq<u32>, P: Pool, ds: seq<ObjectDesc>, pid: nat, A: APool, seg: nat)
    requires PoolOk(z, P, ds, pid, A, seg)
    ensures P.usedBytes + P.freeBytes == PoolEnd(P, seg) - PoolStart(P, seg)
  {
    hide PoolLay, ObjsOk;
  }

  // The two rebuilt halves are consistent pools.
  lemma HalvesOk(z0: seq<u32>, z2: seq<u32>, z3: seq<u32>, P: Pool, S: Pool, N: Pool, ds: seq<ObjectDesc>, ds': seq<ObjectDesc>,
                 sid: nat, nid: u16, A: APool, listsS: seq<seq<nat>>, listsN: seq<seq<nat>>, seg: nat, slots: seq<nat>, bs: seq<MB>, keep: nat)
    requires PoolOk(z0, P, ds, sid, A, seg) && P.borrowCount == 0 && SplitRecords(P, S, N, keep, LowerCount(bs, Boundary(P, keep, seg)))
    requires Addressed(ds, slots) && bs == BlocksOf(ds, slots) && NoDup(slots) && ListBlocks(ds, A.order, bs) && |bs| == P.liveObjects
    requires var s, m, e := PoolStart(P, seg), Boundary(P, keep, seg), PoolEnd(P, seg);
             var u := LowerCount(bs, m); var D := Placed(bs, SplitDst(bs, s, m, u));
             && s <= m <= e && m % ALIGN == 0 && Ordered(bs, s, e) && StackFits(bs[u..], m, e)
             && SplitDescs(ds, ds', bs, SplitDst(bs, s, m, u), u, nid)
             && OrderLinked(ds', slots[..u], S.orderHead) && OrderLinked(ds', slots[u..], N.orderHead)
             && PoolLay(z2, S.bins, CanonFull(D[..u], s, m), listsS, s, m) && SameWithin(z2, z3, s, m)
             && Counters(S, CanonFull(D[..u], s, m), s, m)
             && PoolLay(z3, N.bins, CanonFull(D[u..], m, e), listsN, m, e) && Counters(N, CanonFull(D[u..], m, e), m, e)
    ensures var s, m, e := PoolStart(P, seg), Boundary(P, keep, seg), PoolEnd(P, seg);
            var u := LowerCount(bs, m); var D := Placed(bs, SplitDst(bs, s, m, u));
            && PoolOk(z3, S, ds', sid, APool(CanonFull(D[..u], s, m), listsS, SlotsOf(bs)[..u]), seg)
            && PoolOk(z3, N, ds', nid, APool(CanonFull(D[u..], m, e), listsN, SlotsOf(bs)[u..]), seg)
  {
    hide PoolLay, Counters, ObjsOk, BlocksOf, NoDup, ListBlocks, Ordered, StackFits, LowerCount, SplitDescs, SplitDst, OrderLinked, CanonFull, Placed, SameWithin,
         PoolStart, PoolEnd, Boundary;
    var s, m, e := PoolStart(P, seg), Boundary(P, keep, seg), PoolEnd(P, seg);
    var u := LowerCount(bs, m);
    var D := Placed(bs, SplitDst(bs, s, m, u));
    HalfWindows(P, S, N, seg, keep, u);
    SplitObjs(ds, ds', P.orderHead, S.orderHead, N.orderHead, sid, nid, A, slots, bs, s, m, e);
    PoolLayFrame(z2, z3, S.bins, CanonFull(D[..u], s, m), listsS, s, m);
    SlotsAre(ds, slots, bs);
    OrderIndexed(ds, P.orderHead, sid, A.L, A.order);
    HalfBorrows(ds, ds', P.orderHead, sid, A, bs, slots, SplitDst(bs, s, m, u), u, nid);
  }

  lemma SlotsAre(ds: seq<ObjectDesc>, slots: seq<nat>, bs: seq<MB>)
    requires Addressed(ds, slots) && bs == BlocksOf(ds, slots)
    ensures SlotsOf(bs) == slots
  {
  }

  lemma HalfWindows(P: Pool, S: Pool, N: Pool, seg: nat, keep: nat, u: nat)
    requires SplitRecords(P, S, N, keep, u)
    ensures PoolStart(S, seg) == PoolStart(P, seg) && PoolEnd(S, seg) == Boundary(P, keep, seg)
    ensures PoolStart(N, seg) == Boundary(P, keep, seg) && PoolEnd(N, seg) == PoolEnd(P, seg)
  {
    assert P.segmentFirst + keep + (P.segmentCount - keep) == P.segmentFirst + P.segmentCount;
  }

  lemma HalfBorrows(ds: seq<ObjectDesc>, ds': seq<ObjectDesc>, head: u32, sid: nat, A: APool, bs: seq<MB>, slots: seq<nat>, dst: seq<nat>, u: nat, nid: u16)
    requires ObjsOk(ds, head, sid, A.L, A.order) && Indexed(ds, A.order) && BorrowSum(ds, A.order) == 0
    requires ListBlocks(ds, A.order, bs) && SlotsOf(bs) == slots && u <= |slots| && SplitDescs(ds, ds', bs, dst, u, nid)
    ensures Indexed(ds', slots[..u]) && BorrowSum(ds', slots[..u]) == 0
    ensures Indexed(ds', slots[u..]) && BorrowSum(ds', slots[u..]) == 0
  {
    hide ObjsOk, SplitDescs;
    assert |ds'| == |ds| by { SplitSize(ds, ds', bs, dst, u, nid); }
    forall i | 0 <= i < |slots| ensures slots[i] in A.order && slots[i] < |ds| && ds'[slots[i]].activeBorrows == ds[slots[i]].activeBorrows {
      assert bs[i].slot == slots[i];
      SplitFields(ds, ds', bs, dst, u, nid, slots[i]);
    }
    forall sl | sl in slots[..u] || sl in slots[u..] ensures sl in slots {
    }
    StillUnborrowed(ds, ds', A.order, slots[..u]);
    StillUnborrowed(ds, ds', A.order, slots[u..]);
  }

  lemma SplitSize(ds: seq<ObjectDesc>, ds': seq<ObjectDesc>, bs: seq<MB>, dst: seq<nat>, u: nat, nid: u16)
    requires SplitDescs(ds, ds', bs, dst, u, nid)
    ensures |ds'| == |ds|
  {
  }

  // From the audit to the rebuilt halves. On any metadata a refusal comes before the first
  // write; on a consistent pool the only one is the plan's own verdict.
  method SplitImpl(g: GlobalState, sid: nat, nid: nat, keep: nat, ghost A: APool)
      returns (st: Status, ghost bs: seq<MB>, ghost A': APool, ghost B': APool)
    requires sid < g.pools.Length && nid < g.pools.Length && sid != nid && nid < 0x1_0000 && g.objects.Length < 0xFFFF
    requires ZoneOk(g.zone[..], g.segmentSize, g.segmentCount, g.zoneSize) && g.pools[sid].borrowCount == 0
    requires 0 < keep < g.pools[sid].segmentCount && g.pools[nid] == ZeroPool().(state := Splitting)
    modifies g.zone, g.pools, g.objects
    ensures st != Ok ==> g.zone[..] == old(g.zone[..]) && g.pools[..] == old(g.pools[..]) && g.objects[..] == old(g.objects[..])
    ensures g.pools[..] == old(g.pools[..])[sid := g.pools[sid]][nid := g.pools[nid]]
    ensures st == CorruptMetadata <==>
              !Auditable(old(g.zone[..]), old(g.pools[sid]), old(g.objects[..]), sid, g.segmentSize, g.segmentCount, g.zoneSize)
    ensures var P := old(g.pools[sid]);
            var m, e := Boundary(P, keep, g.segmentSize), PoolEnd(P, g.segmentSize);
            var known := KnownOk(old(g.zone[..]), P, old(g.objects[..]), sid, A, g.segmentSize, g.segmentCount, g.zoneSize);
            && (known ==>
                 && ListBlocks(old(g.objects[..]), A.order, bs) && Ordered(bs, PoolStart(P, g.segmentSize), e)
                 && st == SplitVerdict(bs[LowerCount(bs, m)..], m, e))
            && (known && st == Ok ==>
                 && SplitDone(old(g.zone[..]), g.zone[..], P, g.pools[sid], g.pools[nid], old(g.objects[..]), g.objects[..],
                              A, A', B', g.segmentSize, bs, keep, nid)
                 && PoolOk(g.zone[..], g.pools[sid], g.objects[..], sid, A', g.segmentSize)
                 && PoolOk(g.zone[..], g.pools[nid], g.objects[..], nid, B', g.segmentSize)
                 && g.pools[sid].structureEpoch == P.structureEpoch)
  {
    hide PoolOk, GeometryOk, AuditPasses, Audited, SplitDone, BlocksOf, Ordered, SumSizes, ListBlocks, DistinctSlots, SplitDst, Movables, PlanOf, SplitDescs, PayloadMoved,
         RanZone, RanDescs, PoolLay, Counters, PayloadKept, OutsideKept, CanonFull, PoolStart, PoolEnd, PayloadFits, Boundary, LowerCount, NoDup,
         RightCount, StackFits, SourcesAt, InRange, SplitRun, OrderLinked, Relabelled, SplitRecords, Placed, SameWithin, ZeroPool, FirstPin, SplitPlaced,
         SplitVerdict;
    A', B', bs := A, A, [];
    ghost var z0, ds0 := g.zone[..], g.objects[..];
    var P, N0 := g.pools[sid], g.pools[nid];
    ghost var known := KnownOk(z0, P, ds0, sid, A, g.segmentSize, g.segmentCount, g.zoneSize);
    if known { OrderFits(z0, P, ds0, sid, A, g.segmentSize); }
    var start, end, boundary := PoolStart(P, g.segmentSize), PoolEnd(P, g.segmentSize), Boundary(P, keep, g.segmentSize);
    var slots;
    ghost var order;
    st, slots, order := PrecheckPool(g.zone, g.objects, P, sid, g.segmentSize, g.segmentCount, g.zoneSize, g.objects.Length, A);
    if st != Ok { return; }
    WindowBounds(z0, P, g.segmentSize, g.segmentCount, g.zoneSize);
    BoundaryFacts(P, keep, g.segmentSize, g.segmentCount, g.zoneSize);
    SegmentFits(P, keep, g.segmentSize, g.segmentCount, g.zoneSize);
    AuditYields(z0, P, ds0, sid, order, slots, g.segmentSize);
    AuditCount(z0, P, ds0, sid, order, slots, start, end);
    bs := BlocksOf(ds0, slots);
    var low, up, nRight;
    st, low, up, nRight := PlanSplit(g.objects, slots, start, boundary, end);
    if st != Ok { return; }
    VerdictFits(bs[LowerCount(bs, boundary)..], boundary, end);
    ghost var u := LowerCount(bs, boundary);
    ExecuteSplit(g.zone, g.objects, low, up, nRight, bs, start, boundary, end);
    ghost var z1, ds1 := g.zone[..], g.objects[..];
    AboveIffUpper(ds0, ds1, slots, bs, start, boundary, end);
    var sHead, nHead, moved := RelinkHalves(g.objects, slots, boundary, nid, u);
    ghost var ds2 := g.objects[..];
    RightFree(bs, start, boundary, end);
    SplitDescsHold(ds0, ds1, ds2, slots, bs, SplitDst(bs, start, boundary, u), u, RightCount(bs[u..], boundary, |bs[u..]|), nid);
    RebuildReady(ds0, ds2, nid, slots, bs, start, boundary, end);
    ghost var D := Placed(bs, SplitDst(bs, start, boundary, u));
    var S1 := P.(segmentCount := keep, orderHead := sHead, liveObjects := P.liveObjects - moved);
    var N1 := N0.(segmentFirst := P.segmentFirst + keep, segmentCount := P.segmentCount - keep, orderHead := nHead, liveObjects := moved);
    var S2, N2;
    ghost var listsS, listsN;
    S2, listsS := FinalizeLayout(g.zone, g.objects, S1, start, boundary, slots);
    ghost var z2 := g.zone[..];
    N2, listsN := FinalizeLayout(g.zone, g.objects, N1, boundary, end, slots);
    ghost var z3 := g.zone[..];
    g.pools[sid] := S2;
    g.pools[nid] := N2;
    A' := APool(CanonFull(D[..u], start, boundary), listsS, SlotsOf(bs)[..u]);
    B' := APool(CanonFull(D[u..], boundary, end), listsN, SlotsOf(bs)[u..]);
    if known {
      SplitPayload(z0, z1, z2, z3, bs, start, boundary, end);
      FinalCounters(S2, CanonFull(D[..u], start, boundary), start, boundary);
      FinalCounters(N2, CanonFull(D[u..], boundary, end), boundary, end);
      UsedPlusFree(z0, P, ds0, sid, A, g.segmentSize);
      SplitRecordsHold(P, S2, N2, g.segmentSize, bs, D, SplitDst(bs, start, boundary, u), u, keep);
      HalvesOk(z0, z2, z3, P, S2, N2, ds0, ds2, sid, nid, A, listsS, listsN, g.segmentSize, slots, bs, keep);
      DoneHolds(z0, z3, P, S2, N2, ds0, ds2, A, A', B', g.segmentSize, bs, keep, nid);
    }
  }

  lemma SegmentFits(P: Pool, keep: nat, seg: nat, segCount: nat, zoneSize: nat)
    requires 0 < keep < P.segmentCount && GeometryOk(P, seg, segCount, zoneSize) && segCount < 0x1_0000
    ensures P.segmentFirst + keep < 0x1_0000
  {
  }

  lemma AuditCount(z: seq<u32>, P: Pool, ds: seq<ObjectDesc>, pid: nat, order: seq<nat>, slots: seq<nat>, s: nat, e: nat)
    requires Audited(z, P, ds, pid, order, slots, s, e)
    ensures |slots| == P.liveObjects && NoDup(slots) && SumSizes(BlocksOf(ds, slots)) == P.usedBytes
  {
    hide Ordered, SumSizes, BlocksOf;
  }

  lemma VerdictFits(us: seq<MB>, m: nat, e: nat)
    requires SplitVerdict(us, m, e) == Ok
    ensures StackFits(us, m, e)
  {
    hide StackFits;
  }

  // The relinked table is ready for the two rebuilds.
  lemma RebuildReady(ds: seq<ObjectDesc>, ds': seq<ObjectDesc>, nid: u16, slots: seq<nat>, bs: seq<MB>, s: nat, m: nat, e: nat)
    requires Addressed(ds, slots) && bs == BlocksOf(ds, slots)
    requires Ordered(bs, s, e) && s <= m <= e && m % ALIGN == 0 && StackFits(bs[LowerCount(bs, m)..], m, e)
    requires SplitDescs(ds, ds', bs, SplitDst(bs, s, m, LowerCount(bs, m)), LowerCount(bs, m), nid)
    ensures var u := LowerCount(bs, m); var D := Placed(bs, SplitDst(bs, s, m, u));
            && Addressed(ds', slots)
            && InRange(BlocksOf(ds', slots), s, m) == D[..u] && InRange(BlocksOf(ds', slots), m, e) == D[u..]
            && Ordered(D[..u], s, m) && Ordered(D[u..], m, e)
  {
    hide BlocksOf, Ordered, StackFits, LowerCount, SplitDescs, SplitDst, InRange, SplitPlaced, RightCount;
    var u := LowerCount(bs, m);
    var D := Placed(bs, SplitDst(bs, s, m, u));
    SplitBlocks(ds, ds', nid, slots, bs, s, m, e);
    SplitPlacement(bs, s, m, e);
    HalvesInRange(D[..u], D[u..], s, m, e);
    assert D[..u] + D[u..] == D;
  }

  lemma FinalCounters(P: Pool, C: Lay, s: nat, e: nat)
    requires Counters(P, C, s, e)
    ensures P.usedBytes + P.freeBytes == e - s
  {
  }

  lemma DoneHolds(z: seq<u32>, z': seq<u32>, P: Pool, S: Pool, N: Pool, ds: seq<ObjectDesc>, ds': seq<ObjectDesc>,
                  A: APool, A': APool, B': APool, seg: nat, bs: seq<MB>, keep: nat, nid: u16)
    requires var s, m, e := PoolStart(P, seg), Boundary(P, keep, seg), PoolEnd(P, seg);
             var u := LowerCount(bs, m);
             var dst := SplitDst(bs, s, m, u);
             var D := Placed(bs, dst);
             && Ordered(bs, s, e) && ListBlocks(ds, A.order, bs) && DistinctSlots(bs)
             && A'.L == CanonFull(D[..u], s, m) && B'.L == CanonFull(D[u..], m, e)
             && A'.order == SlotsOf(bs)[..u] && B'.order == SlotsOf(bs)[u..]
             && SplitDescs(ds, ds', bs, dst, u, nid) && PayloadMoved(z, z', bs, dst) && OutsideKept(z, z', s, e)
             && SplitRecords(P, S, N, keep, u)
    ensures SplitDone(z, z', P, S, N, ds, ds', A, A', B', seg, bs, keep, nid)
  {
    hide Ordered, ListBlocks, DistinctSlots, CanonFull, SplitDescs, PayloadMoved, OutsideKept, SplitRecords, SplitDst, LowerCount, Placed, PoolStart, PoolEnd, Boundary;
  }

  // ---- the transaction -----------------------------------------------------------------------------

  // The first Empty pool slot, or |ps|.
  function FirstEmpty(ps: seq<Pool>): (n: nat)
    ensures n <= |ps| && (forall k :: 0 <= k < n ==> !ps[k].state.Empty?) && (n < |ps| ==> ps[n].state.Empty?)
  {
    if ps == [] then 0 else if ps[0].state.Empty? then 0 else 1 + FirstEmpty(ps[1..])
  }

  method ClaimSlot(pools: array<Pool>) returns (nid: nat)
    ensures nid == FirstEmpty(pools[..])
  {
    nid := 0;
    while nid < pools.Length && !pools[nid].state.Empty?
      invariant nid <= pools.Length && forall k :: 0 <= k < nid ==> !pools[k].state.Empty?
    {
      nid := nid + 1;
    }
    FirstEmptyIs(pools[..], nid);
  }

  lemma FirstEmptyIs(ps: seq<Pool>, n: nat)
    requires n <= |ps| && (forall k :: 0 <= k < n ==> !ps[k].state.Empty?) && (n < |ps| ==> ps[n].state.Empty?)
    ensures FirstEmpty(ps) == n
  {
  }

  // The refusals before the audit, in the order of the code.
  function SplitRefusal(ps: seq<Pool>, sid: nat, newSegments: u32): Status {
    if sid >= |ps| || ps[sid].state.Empty? then InvalidPool
    else if ps[sid].borrowCount != 0 then Busy
    else if newSegments == 0 || newSegments >= ps[sid].segmentCount then NoSpace
    else if FirstEmpty(ps) == |ps| then NoSpace
    else Ok
  }

  // Descriptors after a split, against the whole table.
  lemma SplitOwners(z: seq<u32>, ps: seq<Pool>, ds: seq<ObjectDesc>, ds': seq<ObjectDesc>,
                    head: u16, seg: nat, segCount: nat, zoneSize: nat, abs: seq<APool>, stack: seq<nat>, sid: nat, nid: u16,
                    bs: seq<MB>, dst: seq<nat>, u: nat)
    requires Inv(z, ps, ds, head, seg, segCount, zoneSize, abs, stack) && sid < |ps| == |abs| && !ps[sid].state.Empty?
    requires nid < |ps| && ps[nid].state.Empty? && u <= |bs|
    requires ListBlocks(ds, abs[sid].order, bs) && SplitDescs(ds, ds', bs, dst, u, nid)
    ensures |ds'| == |ds| && SlotsOk(ds', head, stack)
    ensures forall sl :: 0 <= sl < |ds| && ds[sl].state.LiveObj? && ds[sl].poolId != sid && ds[sl].poolId != nid ==> ds'[sl] == ds[sl]
    ensures forall sl :: 0 <= sl < |ds| && ds'[sl].state.LiveObj? ==>
              || (ds[sl].state.LiveObj? && ds[sl].poolId != sid && ds[sl].poolId != nid)
              || (ds'[sl].poolId == sid && sl in SlotsOf(bs)[..u]) || (ds'[sl].poolId == nid && sl in SlotsOf(bs)[u..])
  {
    hide Inv, PoolOk, SlotsOk, SplitDescs, ListBlocks, GeometryOk, SlotsOf;
    PoolFacts(z, ps, ds, head, seg, segCount, zoneSize, abs, stack, sid);
    EmptyIsZero(z, ps, ds, head, seg, segCount, zoneSize, abs, stack, nid);
    SplitSize(ds, ds', bs, dst, u, nid);
    forall sl | 0 <= sl < |ds| ensures ds'[sl].state == ds[sl].state && ds'[sl].nextFreeSlot == ds[sl].nextFreeSlot {
      SplitFields(ds, ds', bs, dst, u, nid, sl);
    }
    SlotsFrame(ds, ds', head, stack);
    forall sl | 0 <= sl < |ds| && ds[sl].state.LiveObj?
      ensures ds[sl].poolId != sid && ds[sl].poolId != nid ==> ds'[sl] == ds[sl]
      ensures || (ds[sl].poolId != sid && ds[sl].poolId != nid)
              || (ds'[sl].poolId == sid && sl in SlotsOf(bs)[..u]) || (ds'[sl].poolId == nid && sl in SlotsOf(bs)[u..])
    {
      InList(z, ps, ds, head, seg, segCount, zoneSize, abs, stack, sl);
      SplitOwner(z, ps[sid], ds, ds', sid, nid, abs[sid], seg, bs, dst, u, sl);
    }
  }

  lemma SplitOwner(z: seq<u32>, P: Pool, ds: seq<ObjectDesc>, ds': seq<ObjectDesc>, sid: nat, nid: u16, A: APool, seg: nat,
                   bs: seq<MB>, dst: seq<nat>, u: nat, sl: nat)
    requires PoolOk(z, P, ds, sid, A, seg) && ListBlocks(ds, A.order, bs) && SplitDescs(ds, ds', bs, dst, u, nid) && u <= |bs| && sl < |ds|
    ensures |ds'| == |ds|
    ensures ds[sl].poolId != sid ==> ds'[sl] == ds[sl]
    ensures sl in A.order ==> (ds'[sl].poolId == sid && sl in SlotsOf(bs)[..u]) || (ds'[sl].poolId == nid && sl in SlotsOf(bs)[u..])
  {
    hide PoolLay, Counters, ObjsOk, MovedDesc;
    if ds[sl].poolId != sid {
      forall i | 0 <= i < |bs| ensures bs[i].slot != sl {
        assert bs[i].slot in A.order;
        OrderPool(ds, P.orderHead, sid, A.L, A.order, bs[i].slot);
      }
      assert !Blocked(bs, sl);
    }
    if sl in A.order {
      OrderPool(ds, P.orderHead, sid, A.L, A.order, sl);
      assert Blocked(bs, sl);
      var i :| 0 <= i < |bs| && bs[i].slot == sl;
      if i < u { assert SlotsOf(bs)[..u][i] == sl; } else { assert SlotsOf(bs)[u..][i - u] == sl; }
    }
  }

  lemma HalvesApart(P: Pool, S: Pool, N: Pool, X: Pool, keep: nat, u: nat)
    requires SplitRecords(P, S, N, keep, u)
    ensures Apart(S, N) && S.segmentCount > 0 && N.segmentCount > 0
    ensures Apart(P, X) ==> Apart(S, X) && Apart(N, X)
  {
    hide ZeroPool;
  }

  lemma HalvesGeometry(P: Pool, S: Pool, N: Pool, keep: nat, u: nat, seg: nat, segCount: nat, zoneSize: nat)
    requires SplitRecords(P, S, N, keep, u) && GeometryOk(P, seg, segCount, zoneSize)
    ensures GeometryOk(S, seg, segCount, zoneSize) && GeometryOk(N, seg, segCount, zoneSize)
  {
    HalfWindows(P, S, N, seg, keep, u);
    SegMono(P.segmentFirst + keep, P.segmentFirst + P.segmentCount, seg);
  }

  lemma Published(z: seq<u32>, P: Pool, P': Pool, ds: seq<ObjectDesc>, pid: nat, A: APool, seg: nat, segCount: nat, zoneSize: nat)
    requires PoolOk(z, P, ds, pid, A, seg) && GeometryOk(P, seg, segCount, zoneSize) && P.segmentCount > 0
    requires P' == P.(state := Running, structureEpoch := P'.structureEpoch)
    ensures PoolSlotOk(z, P', ds, pid, A, seg, segCount, zoneSize)
  {
    hide PoolOk;
    StateOnly(z, P, P', ds, pid, A, seg);
    SameGeometry(P, P', seg, segCount, zoneSize);
  }

  // Windows of the other pools lie outside the window of pool p.
  lemma OthersOutside(z: seq<u32>, ps: seq<Pool>, ds: seq<ObjectDesc>, head: u16, seg: nat, segCount: nat, zoneSize: nat,
                      abs: seq<APool>, stack: seq<nat>, p: nat, x: nat)
    requires Inv(z, ps, ds, head, seg, segCount, zoneSize, abs, stack) && p < |ps| && x < |ps| && p != x
    requires !ps[p].state.Empty? && !ps[x].state.Empty?
    ensures Apart(ps[p], ps[x])
    ensures PoolEnd(ps[x], seg) <= PoolStart(ps[p], seg) || PoolEnd(ps[p], seg) <= PoolStart(ps[x], seg)
  {
    hide PoolSlotOk, SlotsOk;
    WindowsApart(ps[p], ps[x], seg);
  }

  lemma SplitKeepsInv(z: seq<u32>, z': seq<u32>, ps: seq<Pool>, P0: Pool, S: Pool, N: Pool, S': Pool, N': Pool,
                      ds: seq<ObjectDesc>, ds': seq<ObjectDesc>, head: u16, seg: nat, segCount: nat, zoneSize: nat,
                      abs: seq<APool>, A': APool, B': APool, stack: seq<nat>, sid: nat, nid: u16, bs: seq<MB>, keep: nat)
    requires Inv(z, ps, ds, head, seg, segCount, zoneSize, abs, stack) && sid < |ps| == |abs| && !ps[sid].state.Empty?
    requires nid < |ps| && ps[nid].state.Empty? && P0 == ps[sid].(state := P0.state)
    requires SplitDone(z, z', P0, S, N, ds, ds', abs[sid], A', B', seg, bs, keep, nid)
    requires PoolOk(z', S, ds', sid, A', seg) && PoolOk(z', N, ds', nid, B', seg)
    requires S' == S.(state := Running, structureEpoch := S'.structureEpoch) && N' == N.(state := Running, structureEpoch := N'.structureEpoch)
    ensures Inv(z', ps[sid := S'][nid := N'], ds', head, seg, segCount, zoneSize, abs[sid := A'][nid := B'], stack)
    ensures SplitDone(z, z', ps[sid], S', N', ds, ds', abs[sid], A', B', seg, bs, keep, nid)
  {
    hide Inv, PoolOk, SlotsOk, GeometryOk, Ordered, ListBlocks, DistinctSlots, CanonFull, SplitDescs, PayloadMoved, OutsideKept, SplitRecords, SplitDst,
         LowerCount, Placed, PoolStart, PoolEnd, Boundary, ZeroPool, Apart;
    var m := Boundary(P0, keep, seg);
    var u := LowerCount(bs, m);
    PoolFacts(z, ps, ds, head, seg, segCount, zoneSize, abs, stack, sid);
    SameWindow(ps[sid], P0, seg);
    SameBoundary(ps[sid], P0, keep, seg);
    RecordsRestated(ps[sid], P0, S, N, S', N', keep, u);
    SameGeometry(ps[sid], P0, seg, segCount, zoneSize);
    HalvesGeometry(P0, S, N, keep, u, seg, segCount, zoneSize);
    HalvesApart(P0, S, N, S, keep, u);
    Published(z', S, S', ds', sid, A', seg, segCount, zoneSize);
    Published(z', N, N', ds', nid, B', seg, segCount, zoneSize);
    SplitOwners(z, ps, ds, ds', head, seg, segCount, zoneSize, abs, stack, sid, nid, bs, SplitDst(bs, PoolStart(P0, seg), m, u), u);
    assert Apart(S', N') by { HalvesApart(ps[sid], S', N', S', keep, u); }
    forall x | 0 <= x < |ps| && x != sid && x != nid && !ps[x].state.Empty?
      ensures PoolEnd(ps[x], seg) <= PoolStart(ps[sid], seg) || PoolEnd(ps[sid], seg) <= PoolStart(ps[x], seg)
      ensures Apart(S', ps[x]) && Apart(N', ps[x])
    {
      OthersOutside(z, ps, ds, head, seg, segCount, zoneSize, abs, stack, sid, x);
      HalvesApart(ps[sid], S', N', ps[x], keep, u);
    }
    PairUpdated(z, z', ps, S', N', ds, ds', head, seg, segCount, zoneSize, abs, A', B', stack, sid, nid, PoolStart(ps[sid], seg), PoolEnd(ps[sid], seg));
  }

  lemma SameBoundary(P: Pool, P': Pool, keep: nat, seg: nat)
    requires P'.segmentFirst == P.segmentFirst
    ensures Boundary(P', keep, seg) == Boundary(P, keep, seg)
  {
  }

  lemma RecordsRestated(P: Pool, P0: Pool, S: Pool, N: Pool, S': Pool, N': Pool, keep: nat, u: nat)
    requires SplitRecords(P0, S, N, keep, u) && P0 == P.(state := P0.state)
    requires S' == S.(state := S'.state, structureEpoch := S'.structureEpoch) && N' == N.(state := N'.state, structureEpoch := N'.structureEpoch)
    ensures SplitRecords(P, S', N', keep, u)
  {
  }

  // Empty pool slots are all zero: the run invariant that a refused split relies on.
  ghost predicate EmptyZeroed(ps: seq<Pool>) {
    forall p :: 0 <= p < |ps| && ps[p].state.Empty? ==> ps[p] == ZeroPool()
  }

  lemma ValidIsZeroed(g: GlobalState)
    requires g.Valid()
    ensures EmptyZeroed(g.pools[..])
  {
    hide Inv, ZeroPool;
    forall p | 0 <= p < g.pools.Length && g.pools[p].state.Empty? ensures g.pools[p] == ZeroPool() {
      EmptyIsZero(g.zone[..], g.pools[..], g.objects[..], g.freeSlotHead, g.segmentSize, g.segmentCount, g.zoneSize, g.abs, g.stack, p);
    }
  }

  // split. On arbitrary metadata with zeroed Empty slots any refusal, before or after arming,
  // leaves the whole allocator as it was, the claimed slot included. On a consistent allocator
  // the pool table and the plan's verdict decide, and success publishes both halves.
  method Split(g: GlobalState, sid: nat, newSegments: u32) returns (st: Status, outNew: nat, ghost bs: seq<MB>)
    requires Sized(g) && EmptyZeroed(g.pools[..])
    modifies g, g.zone, g.pools, g.objects
    ensures g.stack == old(g.stack) && g.freeSlotHead == old(g.freeSlotHead) && g.liveObjectCount == old(g.liveObjectCount)
    ensures st != Ok ==> g.zone[..] == old(g.zone[..]) && g.pools[..] == old(g.pools[..]) && g.objects[..] == old(g.objects[..]) && g.abs == old(g.abs)
    ensures st == CorruptMetadata <==>
              && sid < g.pools.Length && Settled(old(g.pools[sid])) && SplitRefusal(old(g.pools[..]), sid, newSegments) == Ok
              && !Auditable(old(g.zone[..]), old(g.pools[sid]), old(g.objects[..]), sid, g.segmentSize, g.segmentCount, g.zoneSize)
    ensures old(g.Valid()) ==> g.Valid()
    ensures var ps := old(g.pools[..]);
            old(g.Valid()) ==>
              (if sid >= |ps| || ps[sid].state == Empty then st == InvalidPool
               else if ps[sid].borrowCount != 0 then st == Busy
               else if newSegments == 0 || newSegments >= ps[sid].segmentCount then st == NoSpace
               else if forall k :: 0 <= k < |ps| ==> ps[k].state != Empty then st == NoSpace
               else st == Ok || st == PinnedConflict || st == NoSpace)
    ensures old(g.Valid()) && SplitRefusal(old(g.pools[..]), sid, newSegments) != Ok ==> st == SplitRefusal(old(g.pools[..]), sid, newSegments)
    ensures old(g.Valid()) && SplitRefusal(old(g.pools[..]), sid, newSegments) == Ok ==>
              var P := old(g.pools[sid]);
              var m, e := Boundary(P, P.segmentCount - newSegments, g.segmentSize), PoolEnd(P, g.segmentSize);
              && sid < |old(g.abs)| && ListBlocks(old(g.objects[..]), old(g.abs)[sid].order, bs)
              && Ordered(bs, PoolStart(P, g.segmentSize), e)
              && st == SplitVerdict(bs[LowerCount(bs, m)..], m, e)
    ensures old(g.Valid()) && st == Ok ==>
              && sid < g.pools.Length && outNew == FirstEmpty(old(g.pools[..])) < 0x1_0000 && outNew < g.pools.Length == |old(g.abs)| == |g.abs|
              && old(g.pools[sid]).segmentCount > newSegments
              && SplitDone(old(g.zone[..]), g.zone[..], old(g.pools[sid]), g.pools[sid], g.pools[outNew], old(g.objects[..]), g.objects[..],
                           old(g.abs)[sid], g.abs[sid], g.abs[outNew], g.segmentSize, bs, old(g.pools[sid]).segmentCount - newSegments, outNew)
              && g.pools[sid].state.Running? && g.pools[sid].structureEpoch == (old(g.pools[sid]).structureEpoch + 1) % 0x1_0000_0000
              && g.pools[outNew].state.Running? && g.pools[outNew].structureEpoch == 1
              && g.pools[..] == old(g.pools[..])[sid := g.pools[sid]][outNew := g.pools[outNew]]
              && g.abs == old(g.abs)[sid := g.abs[sid]][outNew := g.abs[outNew]]
  {
    hide Inv, PoolOk, GeometryOk, Auditable, ZoneOk, SlotsOk, SplitDone, SplitVerdict, PoolStart, PoolEnd, Boundary, ZeroPool, ListBlocks, Ordered,
         LowerCount, FirstEmpty, KnownOk, SplitRefusal, Settled;
    outNew, bs := 0, [];
    ghost var z, ps, ds, abs, valid := g.zone[..], g.pools[..], g.objects[..], g.abs, g.Valid();
    var nid, keep, wasPaused;
    st, nid, keep, wasPaused := SplitArm(g, sid, newSegments);
    if st != Ok { return; }
    ghost var armed := g.pools[sid];
    ghost var A', B';
    st, bs, A', B' := SplitImpl(g, sid, nid, keep, abs[sid]);
    if st != Ok {
      g.pools[sid] := g.pools[sid].(state := if wasPaused then Paused else Running);
      g.pools[nid] := ZeroPool();
      assert g.pools[..] == ps;
      return;
    }
    ghost var S, N := g.pools[sid], g.pools[nid];
    g.pools[sid] := g.pools[sid].(structureEpoch := NextEpoch(g.pools[sid].structureEpoch), state := Running);
    g.pools[nid] := g.pools[nid].(structureEpoch := 1, state := Running);
    g.abs := abs[sid := A'][nid := B'];
    outNew := nid;
    if valid {
      SplitKeepsInv(z, g.zone[..], ps, armed, S, N, g.pools[sid], g.pools[nid], ds, g.objects[..], g.freeSlotHead, g.segmentSize, g.segmentCount,
                    g.zoneSize, abs, A', B', g.stack, sid, nid, bs, keep);
      assert g.pools[..] == ps[sid := g.pools[sid]][nid := g.pools[nid]];
    }
  }

  // Arming: source and claimed slot leave service, nothing else changes.
  method SplitArm(g: GlobalState, sid: nat, newSegments: u32) returns (st: Status, nid: nat, keep: nat, wasPaused: bool)
    requires Sized(g) && EmptyZeroed(g.pools[..])
    modifies g.pools
    ensures var ps := old(g.pools[..]);
            && (st == Ok <==> sid < |ps| && SplitRefusal(ps, sid, newSegments) == Ok && Settled(ps[sid]))
            && st != CorruptMetadata && (st != Ok ==> g.pools[..] == ps)
            && (st == Ok ==>
                 && nid == FirstEmpty(ps) < |ps| && nid != sid && nid < 0x1_0000 && ps[nid] == ZeroPool()
                 && ps[sid].segmentCount > newSegments && keep == ps[sid].segmentCount - newSegments && 0 < keep < ps[sid].segmentCount
                 && ps[sid].borrowCount == 0 && ps[sid].state == (if wasPaused then Paused else Running)
                 && g.pools[..] == ps[sid := ps[sid].(state := Splitting)][nid := ZeroPool().(state := Splitting)]
                 && Boundary(g.pools[sid], keep, g.segmentSize) == Boundary(ps[sid], keep, g.segmentSize)
                 && PoolStart(g.pools[sid], g.segmentSize) == PoolStart(ps[sid], g.segmentSize)
                 && PoolEnd(g.pools[sid], g.segmentSize) == PoolEnd(ps[sid], g.segmentSize)
                 && (Auditable(g.zone[..], g.pools[sid], g.objects[..], sid, g.segmentSize, g.segmentCount, g.zoneSize) <==>
                     Auditable(g.zone[..], ps[sid], g.objects[..], sid, g.segmentSize, g.segmentCount, g.zoneSize)))
    ensures var ps := old(g.pools[..]);
            old(g.Valid()) ==>
              && st == SplitRefusal(ps, sid, newSegments)
              && st == (if sid >= |ps| || ps[sid].state == Empty then InvalidPool
                        else if ps[sid].borrowCount != 0 then Busy
                        else if newSegments == 0 || newSegments >= ps[sid].segmentCount || forall k :: 0 <= k < |ps| ==> ps[k].state != Empty then NoSpace
                        else Ok)
              && (st == Ok ==>
                   && sid < |g.abs| && !ps[sid].state.Empty?
                   && KnownOk(g.zone[..], g.pools[sid], g.objects[..], sid, g.abs[sid], g.segmentSize, g.segmentCount, g.zoneSize))
  {
    hide Inv, PoolOk, GeometryOk, Auditable, ZoneOk, SlotsOk, PoolStart, PoolEnd, Boundary, ZeroPool, FirstEmpty, KnownOk, SplitRefusal;
    ghost var z, ps, ds, valid := g.zone[..], g.pools[..], g.objects[..], g.Valid();
    keep, wasPaused := 0, false;
    st, nid := SplitScreen(g, sid, newSegments);
    if st != Ok { return; }
    var P := g.pools[sid];
    wasPaused := P.state.Paused?;
    keep := P.segmentCount - newSegments;
    g.pools[sid] := P.(state := Splitting);
    g.pools[nid] := g.pools[nid].(state := Splitting);
    ArmedAuditable(z, P, P.(state := Splitting), ds, sid, g.segmentSize, g.segmentCount, g.zoneSize);
    SplitArmed(P, P.(state := Splitting), keep, g.segmentSize);
    if valid { ArmedKnown(z, P, P.(state := Splitting), ds, sid, g.abs[sid], g.segmentSize, g.segmentCount, g.zoneSize); }
  }

  // The checks before arming, and the slot that arming claims.
  method SplitScreen(g: GlobalState, sid: nat, newSegments: u32) returns (st: Status, nid: nat)
    requires Sized(g) && EmptyZeroed(g.pools[..])
    ensures st == Ok <==> sid < g.pools.Length && SplitRefusal(g.pools[..], sid, newSegments) == Ok && Settled(g.pools[sid])
    ensures st != Ok ==> st != CorruptMetadata
    ensures st == Ok ==> 0 < newSegments < g.pools[sid].segmentCount && g.pools[sid].borrowCount == 0 && !g.pools[sid].state.Empty?
    ensures st == Ok ==> nid == FirstEmpty(g.pools[..]) < g.pools.Length && nid != sid && g.pools[nid] == ZeroPool()
    ensures g.Valid() ==> st == SplitRefusal(g.pools[..], sid, newSegments)
    ensures var ps := g.pools[..];
            g.Valid() ==>
              st == (if sid >= |ps| || ps[sid].state == Empty then InvalidPool
                     else if ps[sid].borrowCount != 0 then Busy
                     else if newSegments == 0 || newSegments >= ps[sid].segmentCount || forall k :: 0 <= k < |ps| ==> ps[k].state != Empty then NoSpace
                     else Ok)
    ensures g.Valid() && st == Ok ==>
              && sid < |g.abs| && GeometryOk(g.pools[sid], g.segmentSize, g.segmentCount, g.zoneSize)
              && PoolOk(g.zone[..], g.pools[sid], g.objects[..], sid, g.abs[sid], g.segmentSize)
  {
    hide Inv, PoolOk, GeometryOk, ZoneOk, ZeroPool;
    nid := 0;
    if sid >= g.pools.Length { return InvalidPool, nid; }
    var P := g.pools[sid];
    if P.state.Empty? { return InvalidPool, nid; }
    if g.Valid() {
      PoolFacts(g.zone[..], g.pools[..], g.objects[..], g.freeSlotHead, g.segmentSize, g.segmentCount, g.zoneSize, g.abs, g.stack, sid);
    }
    if !Settled(P) { return Busy, nid; }
    if P.borrowCount != 0 { return Busy, nid; }
    if newSegments == 0 || newSegments >= P.segmentCount { return NoSpace, nid; }
    nid := ClaimSlot(g.pools);
    if nid == g.pools.Length { return NoSpace, nid; }
    assert g.pools[..][nid] == ZeroPool();
    st := Ok;
  }

  // Arming changes neither the window nor the consistency of the source.
  lemma SplitArmed(P: Pool, armed: Pool, keep: nat, seg: nat)
    requires armed == P.(state := Splitting)
    ensures PoolStart(armed, seg) == PoolStart(P, seg) && PoolEnd(armed, seg) == PoolEnd(P, seg) && Boundary(armed, keep, seg) == Boundary(P, keep, seg)
  {
    SameWindow(P, armed, seg);
    SameBoundary(P, armed, keep, seg);
  }

  lemma ArmedKnown(z: seq<u32>, P: Pool, armed: Pool, ds: seq<ObjectDesc>, sid: nat, A: APool, seg: nat, segCount: nat, zoneSize: nat)
    requires PoolOk(z, P, ds, sid, A, seg) && GeometryOk(P, seg, segCount, zoneSize) && armed == P.(state := Splitting)
    ensures KnownOk(z, armed, ds, sid, A, seg, segCount, zoneSize)
  {
    hide PoolOk, GeometryOk;
    StateOnly(z, P, armed, ds, sid, A, seg);
    SameGeometry(P, armed, seg, segCount, zoneSize);
  }
}
