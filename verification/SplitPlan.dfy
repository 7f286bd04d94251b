/** The two-sided packing plan of split, when it fits, and why its two-pass move order is safe. */
module SplitPlan {
  import opened Base
  import opened Blocks
  import opened Moves
  import opened Plan

  // ---- the two sides ------------------------------------------------------------------------

  // Crossing the boundary m, or above it.
  predicate IsUpper(b: MB, m: nat) {
    b.off >= m || b.off + b.size > m
  }

  // How many of the first k blocks end at or below m; the upper blocks are the rest.
  function LowerCount(bs: seq<MB>, m: nat): (u: nat)
    ensures u <= |bs|
  {
    if bs == [] then 0
    else if IsUpper(bs[|bs| - 1], m) then LowerCount(bs[..|bs| - 1], m)
    else LowerCount(bs[..|bs| - 1], m) + 1
  }

  // In address order the lower blocks are a prefix.
  lemma {:induction false} LowerPrefix(bs: seq<MB>, s: nat, m: nat, e: nat)
    requires Ordered(bs, s, e)
    ensures var u := LowerCount(bs, m);
            forall i :: 0 <= i < |bs| ==> (IsUpper(bs[i], m) <==> u <= i)
  {
    if bs != [] {
      var n := |bs| - 1;
      OrderedPrefix(bs, s, e, n);
      LowerPrefix(bs[..n], s, m, e);
      forall i | 0 <= i < n ensures bs[..n][i] == bs[i] && bs[i].off + bs[i].size <= bs[n].off {
      }
      assert !IsUpper(bs[n], m) ==> forall i :: 0 <= i < n ==> !IsUpper(bs[..n][i], m);
      assert LowerCount(bs[..n], m) < n ==> IsUpper(bs[..n][n - 1], m);
    }
  }

  // Lower blocks pack from s, upper blocks from m.
  function SplitDst(bs: seq<MB>, s: nat, m: nat, u: nat): (r: seq<nat>)
    requires u <= |bs|
    ensures |r| == |bs|
    ensures forall i :: 0 <= i < |bs| ==> r[i] == if i < u then DstAt(bs, s, i) else DstAt(bs[u..], m, i - u)
  {
    seq(|bs|, i requires 0 <= i < |bs| => SideDst(bs, s, m, u, i))
  }

  function SideDst(bs: seq<MB>, s: nat, m: nat, u: nat, i: nat): nat
    requires u <= |bs| && i < |bs|
  {
    if i < u then DstAt(bs, s, i) else DstAt(bs[u..], m, i - u)
  }

  // ---- the upper side -------------------------------------------------------------------------

  // Index of the first pinned block, or |us|.
  function FirstPin(us: seq<MB>): (p: nat)
    ensures p <= |us| && (forall k :: 0 <= k < p ==> !us[k].pinned) && (p < |us| ==> us[p].pinned)
  {
    if us == [] then 0 else if us[0].pinned then 0 else 1 + FirstPin(us[1..])
  }

  function PinLimit(us: seq<MB>, e: nat): nat {
    if FirstPin(us) < |us| then us[FirstPin(us)].off else e
  }

  // The upper blocks before the first upper pin, stacked up from the boundary, fit below that
  // pin (or the pool end). A pinned block that crosses the boundary is a pin below m.
  predicate StackFits(us: seq<MB>, m: nat, e: nat) {
    m + SumSizes(us[..FirstPin(us)]) <= PinLimit(us, e)
  }

  // Blocks that all end above m and, except the first, start at or above it.
  ghost predicate UpperSide(us: seq<MB>, s: nat, m: nat, e: nat) {
    Ordered(us, s, e) && s <= m <= e && m % ALIGN == 0 && forall i :: 0 <= i < |us| ==> us[i].off + us[i].size > m
  }

  lemma UpperSuffix(bs: seq<MB>, s: nat, m: nat, e: nat)
    requires Ordered(bs, s, e) && s <= m <= e && m % ALIGN == 0
    ensures UpperSide(bs[LowerCount(bs, m)..], s, m, e)
  {
    var u := LowerCount(bs, m);
    LowerPrefix(bs, s, m, e);
    forall i | 0 <= i < |bs[u..]| ensures bs[u..][i].off + bs[u..][i].size > m && bs[u..][i].size >= MIN_BLOCK {
      assert bs[u..][i] == bs[u + i] && IsUpper(bs[u + i], m);
    }
  }

  // Below the first pin the cursor is the plain stack height.
  lemma {:induction false} StackHeight(us: seq<MB>, m: nat, j: nat)
    requires j <= FirstPin(us)
    ensures CursorAt(us, m, j) == m + SumSizes(us[..j])
  {
    if j > 0 {
      StackHeight(us, m, j - 1);
      assert us[..j][..j - 1] == us[..j - 1];
    }
  }

  lemma {:induction false} StackMonotone(us: seq<MB>, m: nat, i: nat, j: nat)
    requires i <= j <= FirstPin(us)
    ensures CursorAt(us, m, i) <= CursorAt(us, m, j)
  {
    if i < j {
      StackMonotone(us, m, i, j - 1);
    }
  }

  // Behind the first pin the cursor never passes a block's own start.
  lemma {:induction false} BehindPin(us: seq<MB>, s: nat, m: nat, e: nat, j: nat)
    requires UpperSide(us, s, m, e) && FirstPin(us) < j <= |us|
    ensures CursorAt(us, m, j) <= (if j < |us| then us[j].off else e)
    ensures CursorAt(us, m, j) <= us[j - 1].off + us[j - 1].size
    decreases j
  {
    if j - 1 > FirstPin(us) {
      BehindPin(us, s, m, e, j - 1);
    }
  }

  // The step check of the planning loop at block j.
  predicate StepFits(us: seq<MB>, m: nat, e: nat, j: nat)
    requires j < |us|
  {
    if us[j].pinned then CursorAt(us, m, j) <= us[j].off
    else CursorAt(us, m, j) + us[j].size <= if j < FirstPin(us) then PinLimit(us, e) else us[j].off + us[j].size
  }

  // The plan fits at every step exactly when the stack fits.
  lemma StackFitsIff(us: seq<MB>, s: nat, m: nat, e: nat)
    requires UpperSide(us, s, m, e)
    ensures StackFits(us, m, e) <==> forall j :: 0 <= j < |us| ==> StepFits(us, m, e, j)
  {
    hide UpperSide, CursorAt, SumSizes;
    var p := FirstPin(us);
    StackHeight(us, m, p);
    forall j | 0 <= j < |us| && StackFits(us, m, e) ensures StepFits(us, m, e, j) {
      StepUnder(us, s, m, e, j);
    }
    if forall j :: 0 <= j < |us| ==> StepFits(us, m, e, j) {
      if p < |us| {
        assert StepFits(us, m, e, p);
      } else if p > 0 {
        assert StepFits(us, m, e, p - 1);
        CursorNext(us, m, p - 1);
      } else {
        EmptyStack(us, s, m, e);
      }
    }
  }

  lemma EmptyStack(us: seq<MB>, s: nat, m: nat, e: nat)
    requires UpperSide(us, s, m, e) && us == []
    ensures StackFits(us, m, e)
  {
  }

  lemma CursorNext(us: seq<MB>, m: nat, j: nat)
    requires j < |us|
    ensures CursorAt(us, m, j + 1) == DstAt(us, m, j) + us[j].size
    ensures DstAt(us, m, j) == if us[j].pinned then us[j].off else CursorAt(us, m, j)
  {
  }

  lemma StepUnder(us: seq<MB>, s: nat, m: nat, e: nat, j: nat)
    requires UpperSide(us, s, m, e) && StackFits(us, m, e) && j < |us|
    ensures StepFits(us, m, e, j)
  {
    hide UpperSide, CursorAt, SumSizes;
    var p := FirstPin(us);
    StackHeight(us, m, p);
    if j < p {
      CursorNext(us, m, j);
      StackMonotone(us, m, j + 1, p);
    } else if j > p {
      BehindPin(us, s, m, e, j);
    }
  }

  // When the plan fits, upper destinations are an ordered arrangement of [m, e).
  lemma {:induction false} UpperCursor(us: seq<MB>, s: nat, m: nat, e: nat, j: nat)
    requires UpperSide(us, s, m, e) && StackFits(us, m, e) && j <= |us|
    ensures m <= CursorAt(us, m, j) <= e && CursorAt(us, m, j) % ALIGN == 0
    ensures j < |us| ==> m <= DstAt(us, m, j) && CursorAt(us, m, j) <= DstAt(us, m, j) && DstAt(us, m, j) % ALIGN == 0
    ensures j < |us| ==> DstAt(us, m, j) + us[j].size <= e
    ensures FirstPin(us) <= j < |us| ==> DstAt(us, m, j) <= us[j].off
  {
    if j > 0 {
      UpperCursor(us, s, m, e, j - 1);
      AlignedSum(DstAt(us, m, j - 1), us[j - 1].size);
    }
    if j < |us| {
      StepUnder(us, s, m, e, j);
      LimitBelow(us, s, m, e);
    }
  }

  lemma LimitBelow(us: seq<MB>, s: nat, m: nat, e: nat)
    requires UpperSide(us, s, m, e)
    ensures PinLimit(us, e) <= e
  {
  }

  lemma {:induction false} UpperMonotone(us: seq<MB>, s: nat, m: nat, e: nat, i: nat, j: nat)
    requires UpperSide(us, s, m, e) && StackFits(us, m, e) && i <= j <= |us|
    ensures CursorAt(us, m, i) <= CursorAt(us, m, j)
  {
    if i < j {
      UpperMonotone(us, s, m, e, i, j - 1);
      UpperCursor(us, s, m, e, j - 1);
      CursorNext(us, m, j - 1);
    }
  }

  // ---- rightward entries are a prefix -----------------------------------------------------------

  predicate Rightward(us: seq<MB>, m: nat, j: nat)
    requires j < |us|
  {
    !us[j].pinned && us[j].off < CursorAt(us, m, j)
  }

  // How many of the first j upper blocks move right.
  function RightCount(us: seq<MB>, m: nat, j: nat): (r: nat)
    requires j <= |us|
    ensures r <= j
  {
    if j == 0 then 0 else RightCount(us, m, j - 1) + if Rightward(us, m, j - 1) then 1 else 0
  }

  // Holes only ever pull the cursor back: once a block packs left of its start, or a pin has
  // been passed, no later block moves right.
  lemma {:induction false} RightIsPrefix(us: seq<MB>, s: nat, m: nat, e: nat, j: nat)
    requires UpperSide(us, s, m, e) && j <= |us|
    ensures var r := RightCount(us, m, j);
            && r <= FirstPin(us)
            && (forall i :: 0 <= i < j ==> (Rightward(us, m, i) <==> i < r))
  {
    hide CursorAt;
    if j > 0 {
      RightIsPrefix(us, s, m, e, j - 1);
      var r := RightCount(us, m, j - 1);
      if j - 1 > FirstPin(us) {
        BehindPin(us, s, m, e, j - 1);
      } else if r < j - 1 && j - 1 < FirstPin(us) {
        assert !Rightward(us, m, j - 2);
        CursorNext(us, m, j - 2);
        NextUpperStart(us, s, m, e, j - 2);
      }
    }
  }

  lemma NextUpperStart(us: seq<MB>, s: nat, m: nat, e: nat, j: nat)
    requires UpperSide(us, s, m, e) && j + 1 < |us|
    ensures us[j].off + us[j].size <= us[j + 1].off
  {
  }

  // ---- the execution order ------------------------------------------------------------------------

  // Indices i <= k < j of blocks that are not pinned, ascending.
  function Movables(bs: seq<MB>, i: nat, j: nat): (r: seq<nat>)
    requires i <= j <= |bs|
    ensures forall k :: 0 <= k < |r| ==> i <= r[k] < j && !bs[r[k]].pinned
    ensures forall a, b :: 0 <= a < b < |r| ==> r[a] < r[b]
  {
    if i == j then [] else Movables(bs, i, j - 1) + if bs[j - 1].pinned then [] else [j - 1]
  }

  lemma {:induction false} MovablesComplete(bs: seq<MB>, i: nat, j: nat, k: nat)
    requires i <= k < j <= |bs| && !bs[k].pinned
    ensures k in Movables(bs, i, j)
  {
    if k < j - 1 {
      MovablesComplete(bs, i, j - 1, k);
    }
  }

  lemma {:induction false} MovablesConcat(bs: seq<MB>, i: nat, m: nat, j: nat)
    requires i <= m <= j <= |bs|
    ensures Movables(bs, i, j) == Movables(bs, i, m) + Movables(bs, m, j)
  {
    if m < j {
      MovablesConcat(bs, i, m, j - 1);
    }
  }

  // The first r upper blocks, highest first.
  function RightRun(u: nat, r: nat): (q: seq<nat>)
    ensures |q| == r && forall k :: 0 <= k < r ==> q[k] == u + r - 1 - k
  {
    seq(r, k requires 0 <= k < r => u + r - 1 - k)
  }

  // Pass 1: rightward, descending. Pass 2: leftward, ascending. Then the lower side, ascending.
  function SplitRun(bs: seq<MB>, u: nat, r: nat): seq<nat>
    requires u + r <= |bs|
  {
    RightRun(u, r) + Movables(bs, u + r, |bs|) + Movables(bs, 0, u)
  }

  // The facts about source and destination positions that make the order safe.
  ghost predicate SplitPlaced(bs: seq<MB>, dst: seq<nat>, m: nat, u: nat, r: nat) {
    && |dst| == |bs| && u + r <= |bs|
    && (forall i :: 0 <= i < u ==> dst[i] <= bs[i].off && bs[i].off + bs[i].size <= m)
    && (forall i :: u <= i < |bs| ==> m <= dst[i])
    && (forall i :: u <= i < u + r ==> !bs[i].pinned && bs[i].off < dst[i])
    && (forall i :: u + r <= i < |bs| ==> dst[i] <= bs[i].off)
    && (forall i, j :: u <= i < j < |bs| ==> dst[i] + bs[i].size <= dst[j])
    && (forall i :: 0 <= i < |bs| && bs[i].pinned ==> dst[i] == bs[i].off)
  }

  // No write of the two-pass order reaches a source that is still to be moved.
  lemma SplitOrderSafe(bs: seq<MB>, dst: seq<nat>, s: nat, m: nat, e: nat, u: nat, r: nat)
    requires Ordered(bs, s, e) && SplitPlaced(bs, dst, m, u, r)
    ensures SafeRun(bs, dst, SplitRun(bs, u, r))
  {
    var run := SplitRun(bs, u, r);
    RunShape(bs, u, r);
    hide SplitRun, Ordered, SplitPlaced;
    forall a, b | 0 <= a < b < |run| ensures run[a] != run[b] && Spares(bs, dst, run[a], run[b]) {
      SplitPair(bs, dst, s, m, e, u, r, run[a], run[b]);
    }
    forall i | 0 <= i < |bs| && i !in run ensures dst[i] == bs[i].off {
      PinnedPlaced(bs, dst, m, u, r, i);
    }
    assert |dst| == |bs| by { PlacedSizes(bs, dst, m, u, r); }
  }

  lemma PlacedSizes(bs: seq<MB>, dst: seq<nat>, m: nat, u: nat, r: nat)
    requires SplitPlaced(bs, dst, m, u, r)
    ensures |dst| == |bs|
  {
  }

  lemma PinnedPlaced(bs: seq<MB>, dst: seq<nat>, m: nat, u: nat, r: nat, i: nat)
    requires SplitPlaced(bs, dst, m, u, r) && i < |bs|
    ensures |dst| == |bs| && (bs[i].pinned ==> dst[i] == bs[i].off)
  {
  }

  // Where a stands before b in the execution order.
  predicate Before(u: nat, r: nat, i: nat, j: nat) {
    if u <= i < u + r then j < i || j >= u + r
    else if u + r <= i then j > i || j < u
    else i < j < u
  }

  lemma RunShape(bs: seq<MB>, u: nat, r: nat)
    requires u + r <= |bs|
    ensures forall k :: 0 <= k < |SplitRun(bs, u, r)| ==> SplitRun(bs, u, r)[k] < |bs|
    ensures forall a, b :: 0 <= a < b < |SplitRun(bs, u, r)| ==> Before(u, r, SplitRun(bs, u, r)[a], SplitRun(bs, u, r)[b])
    ensures forall i :: 0 <= i < |bs| && !bs[i].pinned ==> i in SplitRun(bs, u, r)
  {
    hide Movables, RightRun, SplitRun;
    RunIsConcat(bs, u, r);
    var R, M, N := RightRun(u, r), Movables(bs, u + r, |bs|), Movables(bs, 0, u);
    var run := SplitRun(bs, u, r);
    forall a, b | 0 <= a < b < |run| ensures run[a] < |bs| && Before(u, r, run[a], run[b]) {
      RunPair(bs, u, r, a, b);
    }
    forall k | 0 <= k < |run| ensures run[k] < |bs| {
      ConcatAt(R, M, N, k);
    }
    forall i | 0 <= i < |bs| && !bs[i].pinned ensures i in run {
      RunHas(bs, u, r, i);
    }
  }

  lemma RunIsConcat(bs: seq<MB>, u: nat, r: nat)
    requires u + r <= |bs|
    ensures SplitRun(bs, u, r) == RightRun(u, r) + Movables(bs, u + r, |bs|) + Movables(bs, 0, u)
  {
  }

  lemma ConcatAt(R: seq<nat>, M: seq<nat>, N: seq<nat>, k: nat)
    requires k < |R| + |M| + |N|
    ensures |R + M + N| == |R| + |M| + |N|
    ensures (R + M + N)[k] == if k < |R| then R[k] else if k < |R| + |M| then M[k - |R|] else N[k - |R| - |M|]
  {
  }

  lemma RunPair(bs: seq<MB>, u: nat, r: nat, a: nat, b: nat)
    requires u + r <= |bs| && a < b < |SplitRun(bs, u, r)|
    ensures SplitRun(bs, u, r)[a] < |bs| && SplitRun(bs, u, r)[b] < |bs|
    ensures Before(u, r, SplitRun(bs, u, r)[a], SplitRun(bs, u, r)[b])
  {
    hide Movables, SplitRun;
    RunIsConcat(bs, u, r);
    var R, M, N := RightRun(u, r), Movables(bs, u + r, |bs|), Movables(bs, 0, u);
    ConcatAt(R, M, N, a);
    ConcatAt(R, M, N, b);
  }

  lemma RunHas(bs: seq<MB>, u: nat, r: nat, i: nat)
    requires u + r <= |bs| && i < |bs| && !bs[i].pinned
    ensures i in SplitRun(bs, u, r)
  {
    hide Movables, SplitRun;
    RunIsConcat(bs, u, r);
    if i < u {
      MovablesComplete(bs, 0, u, i);
    } else if i < u + r {
      assert RightRun(u, r)[u + r - 1 - i] == i;
    } else {
      MovablesComplete(bs, u + r, |bs|, i);
    }
  }

  lemma SplitPair(bs: seq<MB>, dst: seq<nat>, s: nat, m: nat, e: nat, u: nat, r: nat, i: nat, j: nat)
    requires Ordered(bs, s, e) && SplitPlaced(bs, dst, m, u, r) && i < |bs| && j < |bs| && Before(u, r, i, j)
    ensures i != j && Spares(bs, dst, i, j)
  {
    if i < u {
      assert bs[i].off + bs[i].size <= bs[j].off;
    } else if j < u {
      assert bs[j].off + bs[j].size <= m <= dst[i];
    } else if i < u + r && j < i {
      assert bs[j].off + bs[j].size <= bs[i].off < dst[i];
    } else {
      assert dst[i] + bs[i].size <= dst[j] <= bs[j].off;
    }
  }

  // ---- a fitting split is a safe plan -----------------------------------------------------------

  lemma {:induction false} CursorPrefix(bs: seq<MB>, s: nat, u: nat, k: nat)
    requires k <= u <= |bs|
    ensures CursorAt(bs[..u], s, k) == CursorAt(bs, s, k)
    ensures k < u ==> DstAt(bs[..u], s, k) == DstAt(bs, s, k)
  {
    if k > 0 {
      CursorPrefix(bs, s, u, k - 1);
    }
  }

  lemma LowerOrdered(bs: seq<MB>, s: nat, m: nat, e: nat)
    requires Ordered(bs, s, e) && s <= m <= e && m % ALIGN == 0
    ensures Ordered(bs[..LowerCount(bs, m)], s, m)
  {
    var u := LowerCount(bs, m);
    LowerPrefix(bs, s, m, e);
    forall i | 0 <= i < u ensures bs[..u][i].off + bs[..u][i].size <= m {
      assert bs[..u][i] == bs[i] && !IsUpper(bs[i], m);
    }
  }

  // The lower side always packs: it never refuses.
  lemma LowerPlaced(bs: seq<MB>, s: nat, m: nat, e: nat)
    requires Ordered(bs, s, e) && s <= m <= e && m % ALIGN == 0
    ensures var u := LowerCount(bs, m); var dst := SplitDst(bs, s, m, u);
            && Ordered(Placed(bs, dst)[..u], s, m)
            && (forall i :: 0 <= i < u ==> dst[i] <= bs[i].off && bs[i].off + bs[i].size <= m)
  {
    hide Ordered, CursorAt, DstAt;
    var u := LowerCount(bs, m);
    var dst := SplitDst(bs, s, m, u);
    LowerOrdered(bs, s, m, e);
    CutOrdered(bs[..u], s, m, u);
    var L := Placed(bs[..u], CutDst(bs[..u], s, u));
    forall i | 0 <= i < u ensures Placed(bs, dst)[..u][i] == L[i] && dst[i] <= bs[i].off && bs[i].off + bs[i].size <= m {
      CursorPrefix(bs, s, u, i);
      assert bs[..u][i] == bs[i];
      BlockEnds(bs[..u], s, m, i);
    }
    assert Placed(bs, dst)[..u] == L;
  }

  lemma BlockEnds(bs: seq<MB>, s: nat, e: nat, i: nat)
    requires Ordered(bs, s, e) && i < |bs|
    ensures bs[i].off + bs[i].size <= e && MIN_BLOCK <= bs[i].size && bs[i].size % ALIGN == 0
  {
  }

  lemma UpperPlaced(us: seq<MB>, s: nat, m: nat, e: nat)
    requires UpperSide(us, s, m, e) && StackFits(us, m, e)
    ensures Ordered(Placed(us, CutDst(us, m, |us|)), m, e)
    ensures forall i, j :: 0 <= i < j < |us| ==> DstAt(us, m, i) + us[i].size <= DstAt(us, m, j)
  {
    hide CursorAt, DstAt, StackFits;
    var dst := CutDst(us, m, |us|);
    var P := Placed(us, dst);
    forall i | 0 <= i < |us|
      ensures dst[i] % ALIGN == 0 && m <= dst[i] && dst[i] + us[i].size <= e
    {
      UpperCursor(us, s, m, e, i);
    }
    forall i, j | 0 <= i < j < |us| ensures DstAt(us, m, i) + us[i].size <= DstAt(us, m, j) {
      CursorNext(us, m, i);
      UpperMonotone(us, s, m, e, i + 1, j);
      UpperCursor(us, s, m, e, j);
    }
  }

  // Source and destination positions of a fitting split.
  lemma SplitPlacement(bs: seq<MB>, s: nat, m: nat, e: nat)
    requires Ordered(bs, s, e) && s <= m <= e && m % ALIGN == 0 && StackFits(bs[LowerCount(bs, m)..], m, e)
    ensures var u := LowerCount(bs, m); var us := bs[u..]; var dst := SplitDst(bs, s, m, u); var r := RightCount(us, m, |us|);
            && SplitPlaced(bs, dst, m, u, r)
            && Ordered(Placed(bs, dst)[..u], s, m) && Ordered(Placed(bs, dst)[u..], m, e)
  {
    hide CursorAt, DstAt, StackFits, Ordered, SplitDst, Placed, LowerCount, RightCount;
    var u := LowerCount(bs, m);
    LowerPlaced(bs, s, m, e);
    UpperSuffix(bs, s, m, e);
    hide UpperSide;
    UpperArranged(bs, s, m, e, u);
    forall i | u <= i < |bs| {
      UpperAt(bs, s, m, e, u, i);
    }
    forall i | 0 <= i < |bs| && bs[i].pinned ensures SplitDst(bs, s, m, u)[i] == bs[i].off {
      PinnedDst(bs, s, m, u, i);
    }
  }

  lemma UpperArranged(bs: seq<MB>, s: nat, m: nat, e: nat, u: nat)
    requires u <= |bs| && UpperSide(bs[u..], s, m, e) && StackFits(bs[u..], m, e)
    ensures var dst := SplitDst(bs, s, m, u);
            && Ordered(Placed(bs, dst)[u..], m, e)
            && (forall i, j :: u <= i < j < |bs| ==> dst[i] + bs[i].size <= dst[j])
  {
    hide CursorAt, DstAt, StackFits, Ordered, UpperSide;
    var us, dst := bs[u..], SplitDst(bs, s, m, u);
    UpperPlaced(us, s, m, e);
    assert Placed(bs, dst)[u..] == Placed(us, CutDst(us, m, |us|));
    forall i, j | u <= i < j < |bs| ensures dst[i] + bs[i].size <= dst[j] {
      assert DstAt(us, m, i - u) + us[i - u].size <= DstAt(us, m, j - u);
    }
  }

  lemma UpperAt(bs: seq<MB>, s: nat, m: nat, e: nat, u: nat, i: nat)
    requires u <= i < |bs| && UpperSide(bs[u..], s, m, e) && StackFits(bs[u..], m, e)
    ensures var d := SplitDst(bs, s, m, u)[i]; var r := RightCount(bs[u..], m, |bs[u..]|);
            && u + r <= |bs| && m <= d
            && (i < u + r ==> !bs[i].pinned && bs[i].off < d) && (u + r <= i ==> d <= bs[i].off)
  {
    hide CursorAt, DstAt, StackFits, Ordered, UpperSide;
    var us := bs[u..];
    RightIsPrefix(us, s, m, e, |us|);
    UpperCursor(us, s, m, e, i - u);
    CursorNext(us, m, i - u);
    assert us[i - u] == bs[i];
    assert Rightward(us, m, i - u) <==> i - u < RightCount(us, m, |us|);
  }

  lemma PinnedDst(bs: seq<MB>, s: nat, m: nat, u: nat, i: nat)
    requires u <= |bs| && i < |bs| && bs[i].pinned
    ensures SplitDst(bs, s, m, u)[i] == bs[i].off
  {
    hide CursorAt;
    if i >= u {
      assert bs[u..][i - u] == bs[i];
      PinStays(bs[u..], m, i - u);
    } else {
      PinStays(bs, s, i);
    }
  }

  lemma PinStays(bs: seq<MB>, s: nat, i: nat)
    requires i < |bs| && bs[i].pinned
    ensures DstAt(bs, s, i) == bs[i].off
  {
  }

  lemma SplitPlanOk(bs: seq<MB>, s: nat, m: nat, e: nat)
    requires Ordered(bs, s, e) && DistinctSlots(bs) && s <= m <= e && m % ALIGN == 0 && StackFits(bs[LowerCount(bs, m)..], m, e)
    ensures var u := LowerCount(bs, m);
            PlanOk(bs, SplitDst(bs, s, m, u), SplitRun(bs, u, RightCount(bs[u..], m, |bs[u..]|)), s, e)
  {
    hide Ordered, SplitPlaced, StackFits, Separate, SafeRun, DistinctSlots;
    var u := LowerCount(bs, m);
    var dst := SplitDst(bs, s, m, u);
    SplitPlacement(bs, s, m, e);
    var P := Placed(bs, dst);
    OrderedConcat(P[..u], P[u..], s, m, e);
    assert P == P[..u] + P[u..];
    OrderedSeparate(P, s, e);
    SplitOrderSafe(bs, dst, s, m, e, u, RightCount(bs[u..], m, |bs[u..]|));
  }

  // What the planning phase answers.
  function SplitVerdict(us: seq<MB>, m: nat, e: nat): (st: Status)
    ensures st == Ok || st == PinnedConflict || st == NoSpace
  {
    if StackFits(us, m, e) then Ok
    else if FirstPin(us) < |us| then PinnedConflict
    else NoSpace
  }

  // Start of the first pinned block from j on, or the pool end.
  function NextPin(us: seq<MB>, j: nat, e: nat): nat
    requires j <= |us|
    decreases |us| - j
  {
    if j == |us| then e else if us[j].pinned then us[j].off else NextPin(us, j + 1, e)
  }

  // Stacked up behind its predecessors, block j ends below the next pin, and a pinned one is
  // not reached from below.
  predicate StacksUnder(us: seq<MB>, m: nat, e: nat, j: nat)
    requires j < |us|
  {
    CursorAt(us, m, j) + (if us[j].pinned then 0 else us[j].size) <= NextPin(us, j, e)
  }

  lemma {:induction false} NextPinIs(us: seq<MB>, s: nat, m: nat, e: nat, j: nat)
    requires UpperSide(us, s, m, e) && j <= |us|
    ensures j <= FirstPin(us) ==> NextPin(us, j, e) == PinLimit(us, e)
    ensures forall k :: 0 <= k < j ==> us[k].off + us[k].size <= NextPin(us, j, e)
    decreases |us| - j
  {
    hide FirstPin;
    if j < |us| && !us[j].pinned {
      NextPinIs(us, s, m, e, j + 1);
    }
  }

  // The planning loop's step condition, said with the next pin.
  lemma StepIsStack(us: seq<MB>, s: nat, m: nat, e: nat, j: nat)
    requires UpperSide(us, s, m, e) && j < |us|
    ensures StepFits(us, m, e, j) <==> StacksUnder(us, m, e, j)
  {
    hide UpperSide, CursorAt;
    NextPinIs(us, s, m, e, j);
    if j > FirstPin(us) {
      BehindPin(us, s, m, e, j);
      NextPinIs(us, s, m, e, j + 1);
    }
  }

  // When the plan answers Ok: no pinned block crosses the boundary, and the upper blocks, stacked
  // up from it, fit below each successive pin and the pool end. A refusal blames a pin exactly if
  // there is one above the boundary.
  lemma SplitExact(bs: seq<MB>, s: nat, m: nat, e: nat)
    requires Ordered(bs, s, e) && s <= m <= e && m % ALIGN == 0
    ensures var us := bs[LowerCount(bs, m)..];
            && (SplitVerdict(us, m, e) == Ok <==>
                 && (forall i :: 0 <= i < |bs| && bs[i].pinned ==> m <= bs[i].off || bs[i].off + bs[i].size <= m)
                 && (forall j :: 0 <= j < |us| ==> StacksUnder(us, m, e, j)))
            && (SplitVerdict(us, m, e) == NoSpace ==> forall i :: 0 <= i < |us| ==> !us[i].pinned)
            && (SplitVerdict(us, m, e) == PinnedConflict ==> exists i :: 0 <= i < |us| && us[i].pinned)
  {
    hide StepFits, StacksUnder, UpperSide;
    var us := bs[LowerCount(bs, m)..];
    UpperSuffix(bs, s, m, e);
    StackFitsIff(us, s, m, e);
    forall j | 0 <= j < |us| ensures StepFits(us, m, e, j) <==> StacksUnder(us, m, e, j) {
      StepIsStack(us, s, m, e, j);
    }
    forall i | 0 <= i < |bs| && bs[i].pinned && bs[i].off < m < bs[i].off + bs[i].size ensures !StackFits(us, m, e) {
      CrossingConflict(bs, s, m, e, i);
    }
  }

  // A pinned block across the boundary always refuses the split.
  lemma CrossingConflict(bs: seq<MB>, s: nat, m: nat, e: nat, i: nat)
    requires Ordered(bs, s, e) && s <= m <= e && i < |bs| && bs[i].pinned && bs[i].off < m < bs[i].off + bs[i].size
    ensures SplitVerdict(bs[LowerCount(bs, m)..], m, e) == PinnedConflict
  {
    LowerPrefix(bs, s, m, e);
    forall k | 0 <= k < i ensures !IsUpper(bs[k], m) {}
    assert bs[LowerCount(bs, m)..][0] == bs[LowerCount(bs, m)];
  }
}
