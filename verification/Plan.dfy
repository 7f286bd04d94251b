/** The cursor-and-pin plan shared by compact, merge and the advice estimate, and the cut that a
    partial compaction makes in it. */
module Plan {
  import opened Base
  import opened Layout
  import opened Blocks
  import opened Moves

  // Where block k goes, and the cursor in front of it: pinned blocks stay and the cursor jumps
  // them, every other block packs at the cursor.
  function CursorAt(bs: seq<MB>, s: nat, k: nat): nat
    requires k <= |bs|
    decreases k, 0
  {
    if k == 0 then s else DstAt(bs, s, k - 1) + bs[k - 1].size
  }

  function DstAt(bs: seq<MB>, s: nat, k: nat): nat
    requires k < |bs|
    decreases k, 1
  {
    if bs[k].pinned then bs[k].off else CursorAt(bs, s, k)
  }

  // The packed prefix never passes the next block's own start, so no pinned block and not the
  // window's end can ever be in the way.
  lemma {:induction false} CursorBehind(bs: seq<MB>, s: nat, e: nat, k: nat)
    requires Ordered(bs, s, e) && k <= |bs|
    ensures s <= CursorAt(bs, s, k) <= (if k < |bs| then bs[k].off else e)
    ensures CursorAt(bs, s, k) % ALIGN == 0
    ensures k > 0 ==> CursorAt(bs, s, k) <= bs[k - 1].off + bs[k - 1].size
  {
    if k > 0 {
      CursorBehind(bs, s, e, k - 1);
      AlignedSum(DstAt(bs, s, k - 1), bs[k - 1].size);
    }
  }

  lemma {:induction false} CursorMonotone(bs: seq<MB>, s: nat, e: nat, i: nat, j: nat)
    requires Ordered(bs, s, e) && i <= j <= |bs|
    ensures CursorAt(bs, s, i) <= CursorAt(bs, s, j)
  {
    if i < j {
      CursorMonotone(bs, s, e, i, j - 1);
      CursorBehind(bs, s, e, j - 1);
    }
  }

  // Destinations when only the first `cut` blocks are packed.
  function CutDst(bs: seq<MB>, s: nat, cut: nat): (r: seq<nat>)
    ensures |r| == |bs|
    ensures forall i :: 0 <= i < |bs| ==> r[i] == if i < cut then DstAt(bs, s, i) else bs[i].off
  {
    seq(|bs|, i requires 0 <= i < |bs| => if i < cut then DstAt(bs, s, i) else bs[i].off)
  }

  // The blocks among the first `cut` that actually move, in address order.
  function Movers(bs: seq<MB>, s: nat, cut: nat): (r: seq<nat>)
    requires cut <= |bs|
    ensures forall k :: 0 <= k < |r| ==> r[k] < cut
  {
    if cut == 0 then []
    else Movers(bs, s, cut - 1) + (if DstAt(bs, s, cut - 1) != bs[cut - 1].off then [cut - 1] else [])
  }

  function SumOf(bs: seq<MB>, run: seq<nat>): nat
    requires forall k :: 0 <= k < |run| ==> run[k] < |bs|
  {
    if run == [] then 0 else SumOf(bs, run[..|run| - 1]) + bs[run[|run| - 1]].size
  }

  lemma {:induction false} MoversShape(bs: seq<MB>, s: nat, cut: nat)
    requires cut <= |bs|
    ensures forall k :: 0 <= k < |Movers(bs, s, cut)| ==>
              DstAt(bs, s, Movers(bs, s, cut)[k]) != bs[Movers(bs, s, cut)[k]].off
    ensures forall a, b :: 0 <= a < b < |Movers(bs, s, cut)| ==> Movers(bs, s, cut)[a] < Movers(bs, s, cut)[b]
    ensures forall i :: 0 <= i < cut && DstAt(bs, s, i) != bs[i].off ==> i in Movers(bs, s, cut)
  {
    if cut > 0 {
      MoversShape(bs, s, cut - 1);
    }
  }

  // A partial compaction's moves are a prefix of the full compaction's moves.
  lemma {:induction false} MoversPrefix(bs: seq<MB>, s: nat, cut: nat, n: nat)
    requires cut <= n <= |bs|
    ensures Movers(bs, s, cut) <= Movers(bs, s, n)
    ensures forall k :: 0 <= k < |Movers(bs, s, cut)| ==>
              CutDst(bs, s, cut)[Movers(bs, s, cut)[k]] == CutDst(bs, s, n)[Movers(bs, s, n)[k]]
  {
    hide DstAt;
    if cut < n {
      MoversPrefix(bs, s, cut, n - 1);
    }
  }

  lemma CutOrdered(bs: seq<MB>, s: nat, e: nat, cut: nat)
    requires Ordered(bs, s, e) && cut <= |bs|
    ensures Ordered(Placed(bs, CutDst(bs, s, cut)), s, e)
    ensures forall i :: 0 <= i < |bs| ==> CutDst(bs, s, cut)[i] <= bs[i].off
  {
    var dst := CutDst(bs, s, cut);
    var P := Placed(bs, dst);
    forall i | 0 <= i < |bs|
      ensures dst[i] % ALIGN == 0 && s <= dst[i] <= bs[i].off && dst[i] + bs[i].size <= e
    {
      CursorBehind(bs, s, e, i);
    }
    forall i, j | 0 <= i < j < |bs| ensures dst[i] + bs[i].size <= dst[j] {
      CutPair(bs, s, e, cut, i, j);
    }
  }

  lemma CutPair(bs: seq<MB>, s: nat, e: nat, cut: nat, i: nat, j: nat)
    requires Ordered(bs, s, e) && cut <= |bs| && i < j < |bs|
    ensures CutDst(bs, s, cut)[i] + bs[i].size <= CutDst(bs, s, cut)[j]
  {
    CursorBehind(bs, s, e, j);
    if i < cut {
      CursorMonotone(bs, s, e, i + 1, j);
    }
  }

  // Packing leftwards in address order never destroys a source that has not moved yet.
  lemma LeftwardSafe(bs: seq<MB>, s: nat, e: nat, cut: nat)
    requires Ordered(bs, s, e) && DistinctSlots(bs) && cut <= |bs|
    ensures PlanOk(bs, CutDst(bs, s, cut), Movers(bs, s, cut), s, e)
  {
    var dst, run := CutDst(bs, s, cut), Movers(bs, s, cut);
    CutOrdered(bs, s, e, cut);
    OrderedSeparate(Placed(bs, dst), s, e);
    MoversShape(bs, s, cut);
    hide Ordered, Separate;
    forall a, b | 0 <= a < b < |run| ensures Spares(bs, dst, run[a], run[b]) {
      LeftPair(bs, s, e, cut, run[a], run[b]);
    }
  }

  lemma LeftPair(bs: seq<MB>, s: nat, e: nat, cut: nat, i: nat, j: nat)
    requires Ordered(bs, s, e) && cut <= |bs| && i < j < |bs|
    ensures Spares(bs, CutDst(bs, s, cut), i, j)
  {
    CutOrdered(bs, s, e, cut);
    assert bs[i].off + bs[i].size <= bs[j].off;
  }

  // ---- barriers ----------------------------------------------------------------------------------

  // Starts of the pinned blocks among the first k, in address order.
  function PinnedOffs(bs: seq<MB>, k: nat): (r: seq<nat>)
    requires k <= |bs|
  {
    if k == 0 then [] else PinnedOffs(bs, k - 1) + (if bs[k - 1].pinned then [bs[k - 1].off] else [])
  }

  // The barrier after block i is the first pinned block from i on.
  lemma {:induction false} NextBarrier(bs: seq<MB>, i: nat, n: nat) returns (j: nat)
    requires i <= n <= |bs|
    ensures PinnedOffs(bs, i) <= PinnedOffs(bs, n)
    ensures |PinnedOffs(bs, i)| < |PinnedOffs(bs, n)| ==>
              i <= j < n && bs[j].pinned && PinnedOffs(bs, n)[|PinnedOffs(bs, i)|] == bs[j].off
              && forall k :: i <= k < j ==> !bs[k].pinned
    ensures |PinnedOffs(bs, i)| == |PinnedOffs(bs, n)| ==> forall k :: i <= k < n ==> !bs[k].pinned
  {
    j := i;
    if i < n {
      j := NextBarrier(bs, i, n - 1);
      if |PinnedOffs(bs, i)| == |PinnedOffs(bs, n - 1)| && bs[n - 1].pinned {
        j := n - 1;
      }
    }
  }

  // Neither a pinned block nor the window's end is ever in the way of the cursor: the conflict
  // and space branches of the compact and merge plans cannot be taken.
  lemma PlanIsTotal(bs: seq<MB>, s: nat, e: nat, i: nat)
    requires Ordered(bs, s, e) && i < |bs|
    ensures bs[i].pinned ==> CursorAt(bs, s, i) <= bs[i].off
    ensures |PinnedOffs(bs, i)| < |PinnedOffs(bs, |bs|)| && !bs[i].pinned ==>
              CursorAt(bs, s, i) + bs[i].size <= PinnedOffs(bs, |bs|)[|PinnedOffs(bs, i)|]
    ensures |PinnedOffs(bs, i)| <= |PinnedOffs(bs, |bs|)| && CursorAt(bs, s, i) + bs[i].size <= e
  {
    hide Ordered, PinnedOffs, CursorAt;
    var j := NextBarrier(bs, i, |bs|);
    CursorBehind(bs, s, e, i);
    BlockBefore(bs, s, e, i, j);
  }

  lemma BlockBefore(bs: seq<MB>, s: nat, e: nat, i: nat, j: nat)
    requires Ordered(bs, s, e) && i < |bs|
    ensures bs[i].off + bs[i].size <= e
    ensures i < j < |bs| ==> bs[i].off + bs[i].size <= bs[j].off
  {
  }

  // ---- properties of the full plan -------------------------------------------------------------

  // Once packed, the plan has nothing left to move: compacting twice moves nothing the second time.
  lemma {:induction false} PackedIsFixed(bs: seq<MB>, s: nat, k: nat)
    requires k <= |bs|
    ensures var P := Placed(bs, CutDst(bs, s, |bs|));
            CursorAt(P, s, k) == CursorAt(bs, s, k) && (k < |bs| ==> DstAt(P, s, k) == DstAt(bs, s, k) == P[k].off)
  {
    if k > 0 {
      PackedIsFixed(bs, s, k - 1);
    }
  }

  lemma SecondCompactMovesNothing(bs: seq<MB>, s: nat)
    ensures Movers(Placed(bs, CutDst(bs, s, |bs|)), s, |bs|) == []
  {
    var P := Placed(bs, CutDst(bs, s, |bs|));
    MoversShape(P, s, |bs|);
    if Movers(P, s, |bs|) != [] {
      var i := Movers(P, s, |bs|)[0];
      PackedIsFixed(bs, s, i);
    }
  }

  // Without pins the packed blocks are contiguous from the window's start.
  lemma {:induction false} PinFreePacks(bs: seq<MB>, s: nat, k: nat)
    requires k <= |bs| && forall i :: 0 <= i < |bs| ==> !bs[i].pinned
    ensures CursorAt(bs, s, k) == s + SumSizes(bs[..k])
  {
    if k > 0 {
      PinFreePacks(bs, s, k - 1);
      assert bs[..k][..k - 1] == bs[..k - 1];
    }
  }

  // ... so a full compaction leaves all free space as one run at the end of the window.
  lemma PinFreeTail(bs: seq<MB>, s: nat, e: nat)
    requires Ordered(bs, s, e) && forall i :: 0 <= i < |bs| ==> !bs[i].pinned
    ensures var P := Placed(bs, CutDst(bs, s, |bs|)); var m := s + SumSizes(bs);
            && m <= e
            && (forall o :: o in CanonFull(P, s, e) && !CanonFull(P, s, e)[o].kind.Live? ==>
                 o == m && CanonFull(P, s, e)[o].size == e - m)
  {
    hide Ordered, Canon, CanonFull, EndOf, CursorAt, SumSizes, CutDst, Placed;
    var P := Placed(bs, CutDst(bs, s, |bs|));
    PackedNoGaps(bs, s, e, |bs|);
    assert P[..|bs|] == P && bs[..|bs|] == bs;
    PinFreePacks(bs, s, |bs|);
    CursorBehind(bs, s, e, |bs|);
    PackedEnd(bs, s, |bs|);
    OnlyTail(P, s, e);
  }

  lemma OnlyTail(P: seq<MB>, s: nat, e: nat)
    requires forall o :: o in Canon(P, s) ==> Canon(P, s)[o].kind.Live?
    ensures forall o :: o in CanonFull(P, s, e) && !CanonFull(P, s, e)[o].kind.Live? ==>
              o == EndOf(P, s) && CanonFull(P, s, e)[o].size == e - EndOf(P, s)
  {
    hide Canon, EndOf;
  }

  lemma PackedEnd(bs: seq<MB>, s: nat, k: nat)
    requires k <= |bs|
    ensures EndOf(Placed(bs, CutDst(bs, s, |bs|))[..k], s) == CursorAt(bs, s, k)
  {
  }

  lemma {:induction false} PackedNoGaps(bs: seq<MB>, s: nat, e: nat, k: nat)
    requires Ordered(bs, s, e) && k <= |bs| && forall i :: 0 <= i < |bs| ==> !bs[i].pinned
    ensures forall o :: o in Canon(Placed(bs, CutDst(bs, s, |bs|))[..k], s) ==>
              Canon(Placed(bs, CutDst(bs, s, |bs|))[..k], s)[o].kind.Live?
  {
    if k > 0 {
      var P := Placed(bs, CutDst(bs, s, |bs|));
      PackedNoGaps(bs, s, e, k - 1);
      assert P[..k][..k - 1] == P[..k - 1];
      PackedEnd(bs, s, k - 1);
      assert Gap(EndOf(P[..k - 1], s), P[k - 1].off) == map[];
    }
  }

  // ---- the cut of a partial compaction ---------------------------------------------------------

  // The hole after block i: up to the next block, or to the window's end.
  function HoleAfter(bs: seq<MB>, e: nat, i: nat): int
    requires i < |bs|
  {
    (if i + 1 < |bs| then bs[i + 1].off else e) - (bs[i].off + bs[i].size)
  }

  // The largest original hole at or after block i.
  function SuffixHole(bs: seq<MB>, e: nat, i: nat): int
    requires i < |bs|
    decreases |bs| - i
  {
    if i + 1 == |bs| then HoleAfter(bs, e, i)
    else if HoleAfter(bs, e, i) > SuffixHole(bs, e, i + 1) then HoleAfter(bs, e, i)
    else SuffixHole(bs, e, i + 1)
  }

  // A compaction request as the plan sees it: the block size its target needs (0 = none) and
  // the two budgets (0 = unlimited).
  datatype Limits = Limits(need: nat, maxBytes: nat, maxObjects: nat)

  function Reachable(bs: seq<MB>, s: nat, e: nat, i: nat): int
    requires i < |bs|
  {
    var walked := bs[i].off - CursorAt(bs, s, i);
    if walked > SuffixHole(bs, e, i) then walked else SuffixHole(bs, e, i)
  }

  predicate OverBudget(l: Limits, movedBytes: nat, movedObjects: nat, size: nat) {
    (l.maxBytes != 0 && movedBytes + size > l.maxBytes) || (l.maxObjects != 0 && movedObjects + 1 > l.maxObjects)
  }

  datatype Cut = Cut(at: nat, met: bool)

  // Where the plan stops, scanning from block i after the given moves: at the first movable
  // block where the target is already reachable (met), or that the budget cannot pay for.
  function Scan(bs: seq<MB>, s: nat, e: nat, l: Limits, i: nat, movedBytes: nat, movedObjects: nat): Cut
    requires i <= |bs|
    decreases |bs| - i
  {
    if i == |bs| then Cut(i, false)
    else if bs[i].pinned then Scan(bs, s, e, l, i + 1, movedBytes, movedObjects)
    else if l.need != 0 && Reachable(bs, s, e, i) >= l.need then Cut(i, true)
    else if OverBudget(l, movedBytes, movedObjects, bs[i].size) then Cut(i, false)
    else if DstAt(bs, s, i) != bs[i].off then Scan(bs, s, e, l, i + 1, movedBytes + bs[i].size, movedObjects + 1)
    else Scan(bs, s, e, l, i + 1, movedBytes, movedObjects)
  }

  // The scan as the comment describes it: the budget ends the plan before a move, so a block
  // that is already in place is passed for free.
  function ScanBeforeMoves(bs: seq<MB>, s: nat, e: nat, l: Limits, i: nat, movedBytes: nat, movedObjects: nat): Cut
    requires i <= |bs|
    decreases |bs| - i
  {
    if i == |bs| then Cut(i, false)
    else if bs[i].pinned then ScanBeforeMoves(bs, s, e, l, i + 1, movedBytes, movedObjects)
    else if l.need != 0 && Reachable(bs, s, e, i) >= l.need then Cut(i, true)
    else if DstAt(bs, s, i) == bs[i].off then ScanBeforeMoves(bs, s, e, l, i + 1, movedBytes, movedObjects)
    else if OverBudget(l, movedBytes, movedObjects, bs[i].size) then Cut(i, false)
    else ScanBeforeMoves(bs, s, e, l, i + 1, movedBytes + bs[i].size, movedObjects + 1)
  }

  // The target is reachable once the blocks before i are packed.
  predicate TargetReached(bs: seq<MB>, s: nat, e: nat, l: Limits, i: nat)
    requires i < |bs|
  {
    l.need != 0 && Reachable(bs, s, e, i) >= l.need
  }

  // After the moves of the blocks before i the budget is smaller than block i.
  predicate Dear(bs: seq<MB>, s: nat, l: Limits, i: nat)
    requires i < |bs|
  {
    OverBudget(l, SumOf(bs, Movers(bs, s, i)), |Movers(bs, s, i)|, bs[i].size)
  }

  // A block at which only the code stops: movable, already in its packed place, and larger than
  // what the budget has left.
  predicate Short(bs: seq<MB>, s: nat, e: nat, l: Limits, i: nat)
    requires i < |bs|
  {
    !bs[i].pinned && DstAt(bs, s, i) == bs[i].off && !TargetReached(bs, s, e, l, i) && Dear(bs, s, l, i)
  }

  // A block at which both stop: the target is served, or the block's own move is too dear.
  predicate Ends(bs: seq<MB>, s: nat, e: nat, l: Limits, i: nat)
    requires i < |bs|
  {
    !bs[i].pinned && (TargetReached(bs, s, e, l, i) || (DstAt(bs, s, i) != bs[i].off && Dear(bs, s, l, i)))
  }

  // Block i on, every block of the first kind comes behind one of the second.
  ghost predicate NeverShort(bs: seq<MB>, s: nat, e: nat, l: Limits, i: nat)
    requires i <= |bs|
  {
    forall j :: i <= j < |bs| && Short(bs, s, e, l, j) ==> exists k :: i <= k < j && Ends(bs, s, e, l, k)
  }

  lemma NeverShortStep(bs: seq<MB>, s: nat, e: nat, l: Limits, i: nat)
    requires i < |bs|
    ensures Ends(bs, s, e, l, i) ==> NeverShort(bs, s, e, l, i)
    ensures Short(bs, s, e, l, i) ==> !NeverShort(bs, s, e, l, i)
    ensures !Ends(bs, s, e, l, i) && !Short(bs, s, e, l, i) ==> (NeverShort(bs, s, e, l, i) <==> NeverShort(bs, s, e, l, i + 1))
  {
    hide Short, Ends;
    if Ends(bs, s, e, l, i) {
      assert !Short(bs, s, e, l, i) by { EndsNotShort(bs, s, e, l, i); }
    } else if !Short(bs, s, e, l, i) {
      if NeverShort(bs, s, e, l, i) {
        forall j | i + 1 <= j < |bs| && Short(bs, s, e, l, j) ensures exists k :: i + 1 <= k < j && Ends(bs, s, e, l, k) {
          var k :| i <= k < j && Ends(bs, s, e, l, k);
        }
      }
    }
  }

  lemma EndsNotShort(bs: seq<MB>, s: nat, e: nat, l: Limits, i: nat)
    requires i < |bs| && Ends(bs, s, e, l, i)
    ensures !Short(bs, s, e, l, i)
  {
  }

  // The code stops where the comment says or earlier, and at the same place exactly when no
  // block in place comes up short before both would stop.
  lemma {:induction false} BudgetAgreesFrom(bs: seq<MB>, s: nat, e: nat, l: Limits, i: nat)
    requires i <= |bs|
    ensures var b, o := SumOf(bs, Movers(bs, s, i)), |Movers(bs, s, i)|;
            var c, d := Scan(bs, s, e, l, i, b, o), ScanBeforeMoves(bs, s, e, l, i, b, o);
            && i <= c.at <= d.at <= |bs|
            && (c == d <==> NeverShort(bs, s, e, l, i))
    decreases |bs| - i
  {
    hide Movers, SumOf, Reachable, DstAt, NeverShort, OverBudget;
    if i == |bs| {
      NothingShort(bs, s, e, l);
    } else {
      ScanStep(bs, s, i);
      NeverShortStep(bs, s, e, l, i);
      BudgetAgreesFrom(bs, s, e, l, i + 1);
    }
  }

  lemma NothingShort(bs: seq<MB>, s: nat, e: nat, l: Limits)
    ensures NeverShort(bs, s, e, l, |bs|)
  {
  }

  lemma BudgetAgreesIff(bs: seq<MB>, s: nat, e: nat, l: Limits)
    ensures var c, d := Scan(bs, s, e, l, 0, 0, 0), ScanBeforeMoves(bs, s, e, l, 0, 0, 0);
            && c.at <= d.at
            && (c == d <==> forall j :: 0 <= j < |bs| && Short(bs, s, e, l, j) ==> exists k :: 0 <= k < j && Ends(bs, s, e, l, k))
  {
    hide Scan, ScanBeforeMoves, Short, Ends;
    BudgetAgreesFrom(bs, s, e, l, 0);
    assert Movers(bs, s, 0) == [] && SumOf(bs, []) == 0;
  }

  // A budget of 16 bytes would pay for the second block, but the first, in place, ends the plan.
  lemma BudgetStopsInPlace(x: nat, y: nat)
    ensures var bs := [MB(x, 0, 24, false), MB(y, 40, 16, false)];
            && Short(bs, 0, 1024, Limits(0, 16, 0), 0)
            && Scan(bs, 0, 1024, Limits(0, 16, 0), 0, 0, 0) == Cut(0, false)
            && ScanBeforeMoves(bs, 0, 1024, Limits(0, 16, 0), 0, 0, 0) == Cut(2, false)
            && Movers(bs, 0, 0) == [] && Movers(bs, 0, 2) == [1] && DstAt(bs, 0, 1) == 24
  {
    var bs := [MB(x, 0, 24, false), MB(y, 40, 16, false)];
    assert DstAt(bs, 0, 0) == 0 && DstAt(bs, 0, 1) == 24;
    assert Movers(bs, 0, 0) == [] && Movers(bs, 0, 1) == [] && SumOf(bs, []) == 0;
    assert ScanBeforeMoves(bs, 0, 1024, Limits(0, 16, 0), 2, 16, 1) == Cut(2, false);
    assert ScanBeforeMoves(bs, 0, 1024, Limits(0, 16, 0), 1, 0, 0) == Cut(2, false);
  }

  // The plan never moves more than its budgets allow.
  lemma {:induction false} ScanBudget(bs: seq<MB>, s: nat, e: nat, l: Limits, i: nat)
    requires i <= |bs|
    requires l.maxBytes != 0 ==> SumOf(bs, Movers(bs, s, i)) <= l.maxBytes
    requires l.maxObjects != 0 ==> |Movers(bs, s, i)| <= l.maxObjects
    ensures var c := Scan(bs, s, e, l, i, SumOf(bs, Movers(bs, s, i)), |Movers(bs, s, i)|);
            && i <= c.at <= |bs|
            && (l.maxBytes != 0 ==> SumOf(bs, Movers(bs, s, c.at)) <= l.maxBytes)
            && (l.maxObjects != 0 ==> |Movers(bs, s, c.at)| <= l.maxObjects)
            && (c.met ==> l.need != 0 && c.at < |bs| && !bs[c.at].pinned && Reachable(bs, s, e, c.at) >= l.need)
    decreases |bs| - i
  {
    hide Movers, SumOf, Reachable, DstAt;
    if i < |bs| {
      ScanStep(bs, s, i);
      if bs[i].pinned || !OverBudget(l, SumOf(bs, Movers(bs, s, i)), |Movers(bs, s, i)|, bs[i].size) {
        ScanBudget(bs, s, e, l, i + 1);
      }
    }
  }

  // With the blocks before i packed, some gap at or above the cursor has at least n bytes: the one
  // in front of block i, or an untouched one behind block i or a later block.
  ghost predicate Opens(bs: seq<MB>, s: nat, e: nat, i: nat, n: nat)
    requires i < |bs|
  {
    bs[i].off - CursorAt(bs, s, i) >= n || exists j :: i <= j < |bs| && HoleAfter(bs, e, j) >= n
  }

  lemma {:induction false} SuffixHoleMost(bs: seq<MB>, e: nat, i: nat, j: nat)
    requires i <= j < |bs|
    ensures HoleAfter(bs, e, j) <= SuffixHole(bs, e, i)
    decreases j - i
  {
    if i < j { SuffixHoleMost(bs, e, i + 1, j); }
  }

  lemma ReachableOpens(bs: seq<MB>, s: nat, e: nat, i: nat, n: nat)
    requires i < |bs|
    ensures Reachable(bs, s, e, i) >= n <==> Opens(bs, s, e, i, n)
  {
    hide SuffixHole, HoleAfter, CursorAt;
    var k := SuffixHoleAt(bs, e, i);
    if j :| i <= j < |bs| && HoleAfter(bs, e, j) >= n { SuffixHoleMost(bs, e, i, j); }
  }

  // What the budgets leave after the moves before block i is less than block i.
  predicate Exhausted(bs: seq<MB>, s: nat, l: Limits, i: nat)
    requires i < |bs|
  {
    || (l.maxBytes != 0 && SumOf(bs, Movers(bs, s, i)) + bs[i].size > l.maxBytes)
    || (l.maxObjects != 0 && |Movers(bs, s, i)| >= l.maxObjects)
  }

  // The cut is the first movable block at which a large enough gap is open or the budget is
  // exhausted, and it counts as met exactly in the first case.
  lemma {:induction false} ScanIsFirst(bs: seq<MB>, s: nat, e: nat, l: Limits, i: nat)
    requires i <= |bs|
    ensures var c := Scan(bs, s, e, l, i, SumOf(bs, Movers(bs, s, i)), |Movers(bs, s, i)|);
            && i <= c.at <= |bs|
            && (c.at == |bs| ==> !c.met)
            && (c.at < |bs| ==> !bs[c.at].pinned && (c.met || Exhausted(bs, s, l, c.at)) && (c.met <==> l.need != 0 && Opens(bs, s, e, c.at, l.need)))
            && (forall k :: i <= k < c.at && !bs[k].pinned ==> !Exhausted(bs, s, l, k) && (l.need == 0 || !Opens(bs, s, e, k, l.need)))
    decreases |bs| - i
  {
    hide Movers, SumOf, Reachable, DstAt, Opens;
    if i < |bs| {
      ScanStep(bs, s, i);
      ReachableOpens(bs, s, e, i, l.need);
      if bs[i].pinned || !(Exhausted(bs, s, l, i) || (l.need != 0 && Opens(bs, s, e, i, l.need))) {
        ScanIsFirst(bs, s, e, l, i + 1);
      }
    }
  }

  lemma ScanStep(bs: seq<MB>, s: nat, i: nat)
    requires i < |bs|
    ensures SumOf(bs, Movers(bs, s, i + 1)) == SumOf(bs, Movers(bs, s, i)) + (if DstAt(bs, s, i) != bs[i].off then bs[i].size else 0)
    ensures |Movers(bs, s, i + 1)| == |Movers(bs, s, i)| + (if DstAt(bs, s, i) != bs[i].off then 1 else 0)
    ensures bs[i].pinned ==> DstAt(bs, s, i) == bs[i].off
  {
    var a, b := Movers(bs, s, i), Movers(bs, s, i + 1);
    if DstAt(bs, s, i) != bs[i].off {
      assert b == a + [i];
      assert b[..|b| - 1] == a;
    } else {
      assert b == a;
    }
  }

  // Without limits the scan runs to the end: a full compaction.
  lemma {:induction false} ScanUnlimited(bs: seq<MB>, s: nat, e: nat, i: nat, mb: nat, mo: nat)
    requires i <= |bs|
    ensures Scan(bs, s, e, Limits(0, 0, 0), i, mb, mo) == Cut(|bs|, false)
    decreases |bs| - i
  {
    if i < |bs| {
      if !bs[i].pinned && DstAt(bs, s, i) != bs[i].off {
        ScanUnlimited(bs, s, e, i + 1, mb + bs[i].size, mo + 1);
      } else {
        ScanUnlimited(bs, s, e, i + 1, mb, mo);
      }
    }
  }

  // ---- the reported target -----------------------------------------------------------------------

  lemma {:induction false} SuffixHoleAt(bs: seq<MB>, e: nat, i: nat) returns (j: nat)
    requires i < |bs|
    ensures i <= j < |bs| && HoleAfter(bs, e, j) == SuffixHole(bs, e, i)
    decreases |bs| - i
  {
    if i + 1 == |bs| || HoleAfter(bs, e, i) > SuffixHole(bs, e, i + 1) {
      j := i;
    } else {
      j := SuffixHoleAt(bs, e, i + 1);
    }
  }

  // When the cut was made because the target is reachable, the rebuilt layout holds a free
  // block of at least the target size.
  lemma TargetIsFree(bs: seq<MB>, s: nat, e: nat, cut: nat, need: nat) returns (o: nat)
    requires Ordered(bs, s, e) && cut < |bs| && MIN_BLOCK <= need <= Reachable(bs, s, e, cut)
    ensures var C := CanonFull(Placed(bs, CutDst(bs, s, cut)), s, e);
            o in FreeMap(C) && FreeMap(C)[o] >= need
  {
    hide CanonFull, EndOf, Ordered, SuffixHole, CursorAt, Reachable;
    ReachableMeans(bs, s, e, cut, need);
    if bs[cut].off - CursorAt(bs, s, cut) >= need {
      o := WalkedGap(bs, s, e, cut, need);
    } else {
      var j := SuffixHoleAt(bs, e, cut);
      o := KeptHole(bs, s, e, cut, j, need);
    }
  }

  lemma ReachableMeans(bs: seq<MB>, s: nat, e: nat, i: nat, need: nat)
    requires i < |bs|
    ensures need <= Reachable(bs, s, e, i) <==> need <= bs[i].off - CursorAt(bs, s, i) || need <= SuffixHole(bs, e, i)
  {
  }

  // The gap that the packed prefix has opened in front of block `cut`.
  lemma WalkedGap(bs: seq<MB>, s: nat, e: nat, cut: nat, need: nat) returns (o: nat)
    requires Ordered(bs, s, e) && cut < |bs| && MIN_BLOCK <= need <= bs[cut].off - CursorAt(bs, s, cut)
    ensures var C := CanonFull(Placed(bs, CutDst(bs, s, cut)), s, e);
            o in FreeMap(C) && FreeMap(C)[o] >= need
  {
    hide CanonFull, EndOf, Ordered, CursorAt;
    var P := Placed(bs, CutDst(bs, s, cut));
    CutOrdered(bs, s, e, cut);
    CutEnds(bs, s, cut);
    GapIsFreeFull(P, s, e, cut);
    o := EndOf(P[..cut], s);
  }

  // A hole behind a block that is not moved.
  lemma KeptHole(bs: seq<MB>, s: nat, e: nat, cut: nat, j: nat, need: nat) returns (o: nat)
    requires Ordered(bs, s, e) && cut <= j < |bs| && MIN_BLOCK <= need <= HoleAfter(bs, e, j)
    ensures var C := CanonFull(Placed(bs, CutDst(bs, s, cut)), s, e);
            o in FreeMap(C) && FreeMap(C)[o] >= need
  {
    hide CanonFull, EndOf, Ordered, CursorAt;
    var P := Placed(bs, CutDst(bs, s, cut));
    CutOrdered(bs, s, e, cut);
    CutEnds(bs, s, cut);
    if j + 1 < |bs| {
      GapIsFreeFull(P, s, e, j + 1);
      o := EndOf(P[..j + 1], s);
    } else {
      assert P[..j + 1] == P;
      TailIsFree(P, s, e);
      o := EndOf(P, s);
    }
  }

  lemma CutEnds(bs: seq<MB>, s: nat, cut: nat)
    requires cut <= |bs|
    ensures var P := Placed(bs, CutDst(bs, s, cut));
            && EndOf(P[..cut], s) == CursorAt(bs, s, cut)
            && (forall j :: cut <= j < |bs| ==> EndOf(P[..j + 1], s) == bs[j].off + bs[j].size)
  {
  }
}
