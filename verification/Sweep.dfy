/** validate's coverage audit: one address-ordered merge sweep over live and binned blocks, and
    the declarative tiling that it decides. */
module Sweep {
  import opened Base
  import opened Lists
  import opened Layout
  import opened Objects
  import opened Blocks
  import opened Sort
  import opened Audit

  const NO_START: nat := 0xFFFF_FFFF_FFFF_FFFF

  // A binned block inside the window.
  ghost predicate FreeAt(z: seq<u32>, o: nat, s: nat, e: nat) {
    s <= o < |z| && MIN_BLOCK <= BlkSize(z[o]) && o + BlkSize(z[o]) <= e
  }

  function FreeBlk(z: seq<u32>, o: nat): Blk
    requires o < |z|
  {
    Blk(BlkSize(z[o]), Free)
  }

  // C's live blocks are bs and its free blocks are fs.
  ghost predicate Covers(C: Lay, z: seq<u32>, bs: seq<MB>, fs: seq<nat>) {
    && (forall i :: 0 <= i < |fs| ==> fs[i] < |z|)
    && (forall i {:trigger bs[i]} :: 0 <= i < |bs| ==> bs[i].off in C && C[bs[i].off] == LiveBlk(bs[i]))
    && (forall i {:trigger fs[i]} :: 0 <= i < |fs| ==> fs[i] in C && C[fs[i]] == FreeBlk(z, fs[i]))
    && (forall o :: o in C && C[o].kind.Live? ==> exists i :: 0 <= i < |bs| && bs[i].off == o)
    && (forall o :: o in C && C[o].kind.Free? ==> o in fs)
  }

  ghost predicate SlackSmall(C: Lay) {
    forall o :: o in C && C[o].kind.Slack? ==> C[o].size < MIN_BLOCK
  }

  // Live blocks, binned blocks and sub-minimal slack runs tile [s, e), every block once, and
  // neither free blocks nor slack runs touch each other.
  ghost predicate Tiling(C: Lay, z: seq<u32>, bs: seq<MB>, fs: seq<nat>, s: nat, e: nat) {
    Tiles(C, s, e) && Coalesced(C) && SlackSmall(C) && Covers(C, z, bs, fs) && NoDup(fs)
  }

  // A tiling that ends with a block, not with slack.
  ghost predicate Swept(C: Lay, z: seq<u32>, bs: seq<MB>, fs: seq<nat>, s: nat, m: nat, lastFree: bool) {
    && Tiling(C, z, bs, fs, s, m) && (C == map[] ==> !lastFree)
    && (forall o {:trigger End(C, o)} :: o in C && End(C, o) == m ==> !C[o].kind.Slack? && (C[o].kind.Free? <==> lastFree))
  }

  lemma SweptStart(z: seq<u32>, s: nat)
    ensures Swept(map[], z, [], [], s, s, false)
  {
  }

  // The layout with one more block behind a gap shorter than a minimal block.
  ghost function Extended(C: Lay, m: nat, o: nat, b: Blk): Lay {
    (C + Gap(m, o))[o := b]
  }

  lemma ExtendTiles(C: Lay, s: nat, m: nat, o: nat, b: Blk)
    requires Tiles(C, s, m) && m <= o && b.size > 0
    ensures Tiles(Extended(C, m, o, b), s, o + b.size)
    ensures forall k :: k in C ==> k < o && k in Extended(C, m, o, b) && Extended(C, m, o, b)[k] == C[k]
    ensures forall k :: k in Extended(C, m, o, b) ==> k in C || k == o || (k == m && m < o)
  {
    GapTiles(m, o);
    JoinTiles(C, Gap(m, o), s, m, o);
    SingleTiles(o, b);
    JoinTiles(C + Gap(m, o), map[o := b], s, o, o + b.size);
    MapPut(C + Gap(m, o), o, b);
  }

  lemma ExtendGap(C: Lay, s: nat, m: nat, o: nat, b: Blk)
    requires Tiles(C, s, m) && m <= o < m + MIN_BLOCK && b.size > 0
    ensures m < o ==> m in Extended(C, m, o, b) && Extended(C, m, o, b)[m] == Blk(o - m, Slack)
    ensures o in Extended(C, m, o, b) && Extended(C, m, o, b)[o] == b
  {
  }

  lemma ExtendCoalesced(C: Lay, s: nat, m: nat, o: nat, b: Blk, lastFree: bool)
    requires Tiles(C, s, m) && Coalesced(C) && m <= o < m + MIN_BLOCK && b.size > 0 && !b.kind.Slack?
    requires forall k {:trigger End(C, k)} :: k in C && End(C, k) == m ==> !C[k].kind.Slack? && (C[k].kind.Free? <==> lastFree)
    requires !(lastFree && b.kind.Free? && o == m)
    ensures Coalesced(Extended(C, m, o, b))
  {
    var R := Extended(C, m, o, b);
    ExtendTiles(C, s, m, o, b);
    ExtendGap(C, s, m, o, b);
    hide Tiles, Extended, Gap;
    forall k | k in R && End(R, k) in R
      ensures !(R[k].kind.Free? && R[End(R, k)].kind.Free?) && !(R[k].kind.Slack? && R[End(R, k)].kind.Slack?)
    {
      ExtendPair(C, R, s, m, o, b, lastFree, k);
    }
  }

  lemma ExtendPair(C: Lay, R: Lay, s: nat, m: nat, o: nat, b: Blk, lastFree: bool, k: nat)
    requires Tiles(C, s, m) && Coalesced(C) && m <= o && b.size > 0 && !b.kind.Slack?
    requires forall x {:trigger End(C, x)} :: x in C && End(C, x) == m ==> !C[x].kind.Slack? && (C[x].kind.Free? <==> lastFree)
    requires !(lastFree && b.kind.Free? && o == m)
    requires forall x :: x in C ==> x < o && x in R && R[x] == C[x]
    requires forall x :: x in R ==> x in C || x == o || (x == m && m < o)
    requires (m < o ==> m in R && R[m] == Blk(o - m, Slack)) && o in R && R[o] == b
    requires k in R && End(R, k) in R
    ensures !(R[k].kind.Free? && R[End(R, k)].kind.Free?) && !(R[k].kind.Slack? && R[End(R, k)].kind.Slack?)
  {
    if k in C {
      assert End(R, k) == End(C, k);
    }
  }

  // One more live block.
  lemma SweepLive(C: Lay, z: seq<u32>, bs: seq<MB>, fs: seq<nat>, s: nat, m: nat, lastFree: bool, nb: MB)
    requires Swept(C, z, bs, fs, s, m, lastFree) && m <= nb.off < m + MIN_BLOCK && nb.size > 0
    ensures Swept(Extended(C, m, nb.off, LiveBlk(nb)), z, bs + [nb], fs, s, nb.off + nb.size, false)
  {
    hide Coalesced, Extended, Gap, Tiles, NoDup;
    var b := LiveBlk(nb);
    var R := Extended(C, m, nb.off, b);
    ExtendTiles(C, s, m, nb.off, b);
    ExtendGap(C, s, m, nb.off, b);
    ExtendCoalesced(C, s, m, nb.off, b, lastFree);
    LastBlock(R, s, nb.off + nb.size, nb.off);
    var t := bs + [nb];
    forall i | 0 <= i < |t| ensures t[i].off in R && R[t[i].off] == LiveBlk(t[i]) {
      if i < |bs| { assert t[i] == bs[i]; }
    }
    forall o | o in R && R[o].kind.Live? ensures exists i :: 0 <= i < |t| && t[i].off == o {
      if o == nb.off {
        assert t[|bs|].off == o;
      } else {
        var i :| 0 <= i < |bs| && bs[i].off == o;
        assert t[i].off == o;
      }
    }
  }

  // One more free block.
  lemma SweepFree(C: Lay, z: seq<u32>, bs: seq<MB>, fs: seq<nat>, s: nat, m: nat, lastFree: bool, o: nat, e: nat)
    requires Swept(C, z, bs, fs, s, m, lastFree) && m <= o < m + MIN_BLOCK && FreeAt(z, o, s, e) && !(lastFree && o == m)
    ensures Swept(Extended(C, m, o, FreeBlk(z, o)), z, bs, fs + [o], s, o + BlkSize(z[o]), true)
  {
    hide Coalesced, Extended, Gap, Tiles, BlkSize;
    var b := FreeBlk(z, o);
    var R := Extended(C, m, o, b);
    ExtendTiles(C, s, m, o, b);
    ExtendGap(C, s, m, o, b);
    ExtendCoalesced(C, s, m, o, b, lastFree);
    LastBlock(R, s, o + b.size, o);
    var t := fs + [o];
    forall i | 0 <= i < |fs| ensures fs[i] < o {
      assert fs[i] in C;
    }
    forall i | 0 <= i < |t| ensures t[i] < |z| && t[i] in R && R[t[i]] == FreeBlk(z, t[i]) {
      if i < |fs| { assert t[i] == fs[i]; }
    }
    forall k | k in R && R[k].kind.Free? ensures k in t {
      if k == o {
        assert t[|fs|] == o;
      } else {
        var i :| 0 <= i < |fs| && fs[i] == k;
        assert t[i] == k;
      }
    }
  }

  lemma LastBlock(R: Lay, s: nat, e: nat, o: nat)
    requires Tiles(R, s, e) && o in R && End(R, o) == e
    ensures forall k {:trigger End(R, k)} :: k in R && End(R, k) == e ==> k == o
  {
    forall k | k in R && End(R, k) == e ensures k == o {
      UniqueEnd(R, s, e, k, o);
    }
  }

  // The stretch behind the last block closes the tiling.
  lemma SweepTail(C: Lay, z: seq<u32>, bs: seq<MB>, fs: seq<nat>, s: nat, m: nat, lastFree: bool, e: nat)
    requires Swept(C, z, bs, fs, s, m, lastFree) && m <= e < m + MIN_BLOCK
    ensures Tiling(C + Gap(m, e), z, bs, fs, s, e)
  {
    hide NoDup, Coalesced;
    GapTiles(m, e);
    JoinTiles(C, Gap(m, e), s, m, e);
    TailCoalesced(C, z, bs, fs, s, m, lastFree, e);
  }

  lemma TailCoalesced(C: Lay, z: seq<u32>, bs: seq<MB>, fs: seq<nat>, s: nat, m: nat, lastFree: bool, e: nat)
    requires Swept(C, z, bs, fs, s, m, lastFree) && m <= e < m + MIN_BLOCK
    ensures Coalesced(C + Gap(m, e))
  {
    hide NoDup, Covers, SlackSmall;
    var R := C + Gap(m, e);
    assert forall k :: k in C ==> k < m && R[k] == C[k];
    forall k | k in R && End(R, k) in R
      ensures !(R[k].kind.Free? && R[End(R, k)].kind.Free?) && !(R[k].kind.Slack? && R[End(R, k)].kind.Slack?)
    {
      if k in C { assert End(R, k) == End(C, k); }
    }
  }

  // ---- following a known tiling ---------------------------------------------------------------

  ghost predicate Agree(C: Lay, H: Lay) {
    forall o :: o in C ==> o in H && H[o] == C[o]
  }

  lemma LastOf(C: Lay, s: nat, m: nat) returns (p: nat)
    requires Tiles(C, s, m) && s < m
    ensures p in C && End(C, p) == m
  {
    p := s;
    while End(C, p) != m
      invariant p in C
      decreases m - p
    {
      p := End(C, p);
    }
  }

  // Below m the tiling H has only the blocks of C.
  lemma BelowIsKnown(C: Lay, H: Lay, s: nat, m: nat, e: nat, x: nat)
    requires Tiles(C, s, m) && Tiles(H, s, e) && Agree(C, H) && x in H && x < m
    ensures x in C
  {
    CoversOnce(C, s, m, x);
    var o :| o in C && o <= x < End(C, o);
  }

  // The next block of H that is not slack.
  lemma NextOfTiling(C: Lay, H: Lay, s: nat, m: nat, e: nat, lastFree: bool, y: nat) returns (x: nat)
    requires Tiles(C, s, m) && Tiles(H, s, e) && Coalesced(H) && SlackSmall(H) && Agree(C, H)
    requires y in H && m <= y && !H[y].kind.Slack?
    requires forall o {:trigger End(C, o)} :: o in C && End(C, o) == m ==> !C[o].kind.Slack? && (C[o].kind.Free? <==> lastFree)
    requires C == map[] ==> !lastFree
    ensures m <= x < m + MIN_BLOCK && x in H && !H[x].kind.Slack? && x <= y
    ensures forall k :: k in H && m <= k && !H[k].kind.Slack? ==> x <= k
    ensures m < x ==> m in H && H[m] == Blk(x - m, Slack)
    ensures lastFree && H[x].kind.Free? ==> x != m
  {
    hide Coalesced;
    assert m in H by {
      if s < m {
        var p := LastOf(C, s, m);
        assert End(H, p) == m;
      }
    }
    if !H[m].kind.Slack? {
      x := m;
      if lastFree {
        var p := LastOf(C, s, m);
        assert End(H, p) == m;
        NoTouch(H, p);
      }
    } else {
      x := End(H, m);
      assert x in H;
      NoTouch(H, m);
    }
  }

  lemma NoTouch(H: Lay, p: nat)
    requires Coalesced(H) && p in H && End(H, p) in H
    ensures !(H[p].kind.Free? && H[End(H, p)].kind.Free?) && !(H[p].kind.Slack? && H[End(H, p)].kind.Slack?)
  {
  }

  lemma AgreeExtended(C: Lay, H: Lay, s: nat, m: nat, x: nat)
    requires Tiles(C, s, m) && Agree(C, H) && m <= x < m + MIN_BLOCK && x in H && H[x].size > 0
    requires m < x ==> m in H && H[m] == Blk(x - m, Slack)
    ensures Agree(Extended(C, m, x, H[x]), H)
  {
    ExtendTiles(C, s, m, x, H[x]);
    ExtendGap(C, s, m, x, H[x]);
  }

  // Start of the next live and of the next free block.
  function NextLive(bs: seq<MB>, li: nat): nat {
    if li < |bs| then bs[li].off else NO_START
  }

  function NextFree(fs: seq<nat>, fi: nat): nat {
    if fi < |fs| then fs[fi] else NO_START
  }

  function NextStart(bs: seq<MB>, fs: seq<nat>, li: nat, fi: nat): nat {
    if NextLive(bs, li) < NextFree(fs, fi) then NextLive(bs, li) else NextFree(fs, fi)
  }

  // Along a known tiling, the sweep never meets a reason to refuse.
  lemma HintStep(C: Lay, H: Lay, z: seq<u32>, bs: seq<MB>, fs: seq<nat>, s: nat, m: nat, lastFree: bool, e: nat, li: nat, fi: nat)
    requires Tiling(H, z, bs, fs, s, e) && Ordered(bs, s, e) && Ascending(fs) && e < ZONE_LIMIT
    requires li <= |bs| && fi <= |fs| && (li < |bs| || fi < |fs|)
    requires Swept(C, z, bs[..li], fs[..fi], s, m, lastFree) && Agree(C, H)
    ensures var x := NextStart(bs, fs, li, fi);
            && m <= x < m + MIN_BLOCK && x in H && H[x].size > 0 && Agree(Extended(C, m, x, H[x]), H)
            && !(NextLive(bs, li) == x && NextFree(fs, fi) == x)
            && (NextFree(fs, fi) == x ==> (fi + 1 < |fs| ==> fs[fi + 1] != x) && !(lastFree && x == m) && fs[fi] < |z| && H[x] == FreeBlk(z, fs[fi]))
            && (NextLive(bs, li) == x ==> H[x] == LiveBlk(bs[li]))
  {
    hide Coalesced, Ordered, Extended, Ascending;
    var live := li < |bs|;
    var y := if live then bs[li].off else fs[fi];
    RemainingAbove(C, H, z, bs, fs, s, m, lastFree, e, li, fi);
    var x := NextOfTiling(C, H, s, m, e, lastFree, y);
    AgreeExtended(C, H, s, m, x);
    FirstRemaining(C, H, z, bs, fs, s, m, lastFree, e, li, fi, x);
  }

  // Unconsumed blocks start at or above m.
  lemma RemainingAbove(C: Lay, H: Lay, z: seq<u32>, bs: seq<MB>, fs: seq<nat>, s: nat, m: nat, lastFree: bool, e: nat, li: nat, fi: nat)
    requires Tiling(H, z, bs, fs, s, e) && Ordered(bs, s, e) && li <= |bs| && fi <= |fs|
    requires Swept(C, z, bs[..li], fs[..fi], s, m, lastFree) && Agree(C, H)
    ensures forall i :: li <= i < |bs| ==> m <= bs[i].off
    ensures forall i :: fi <= i < |fs| ==> m <= fs[i]
  {
    hide Coalesced;
    Unconsumed(C, H, z, bs, fs, s, m, lastFree, e, li, fi);
    forall i | li <= i < |bs| ensures m <= bs[i].off {
      if bs[i].off < m {
        BelowIsKnown(C, H, s, m, e, bs[i].off);
      }
    }
    forall i | fi <= i < |fs| ensures m <= fs[i] {
      if fs[i] < m {
        BelowIsKnown(C, H, s, m, e, fs[i]);
      }
    }
  }

  lemma Unconsumed(C: Lay, H: Lay, z: seq<u32>, bs: seq<MB>, fs: seq<nat>, s: nat, m: nat, lastFree: bool, e: nat, li: nat, fi: nat)
    requires Tiling(H, z, bs, fs, s, e) && Ordered(bs, s, e) && li <= |bs| && fi <= |fs|
    requires Swept(C, z, bs[..li], fs[..fi], s, m, lastFree) && Agree(C, H)
    ensures forall i :: li <= i < |bs| ==> bs[i].off in H && bs[i].off !in C
    ensures forall i :: fi <= i < |fs| ==> fs[i] in H && fs[i] !in C
    ensures forall i :: 0 <= i < li ==> bs[i].off in C && bs[i].off < m
    ensures forall i :: 0 <= i < fi ==> fs[i] in C && fs[i] < m
  {
    hide Coalesced, Tiles;
    BelowEnd(C, s, m);
    forall i | 0 <= i < li ensures bs[i].off in C { assert bs[..li][i] == bs[i]; }
    forall i | 0 <= i < fi ensures fs[i] in C { assert fs[..fi][i] == fs[i]; }
    forall i | li <= i < |bs| ensures bs[i].off !in C {
      assert forall j :: 0 <= j < li ==> bs[..li][j].off != bs[i].off;
      assert H[bs[i].off].kind.Live?;
    }
    forall i | fi <= i < |fs| ensures fs[i] !in C {
      assert forall j :: 0 <= j < fi ==> fs[..fi][j] != fs[i];
      assert H[fs[i]].kind.Free?;
    }
  }

  lemma BelowEnd(C: Lay, s: nat, m: nat)
    requires Tiles(C, s, m)
    ensures forall o :: o in C ==> o < m
  {
  }

  // The next block of the tiling is the smaller of the two next starts.
  lemma FirstRemaining(C: Lay, H: Lay, z: seq<u32>, bs: seq<MB>, fs: seq<nat>, s: nat, m: nat, lastFree: bool, e: nat, li: nat, fi: nat, x: nat)
    requires Tiling(H, z, bs, fs, s, e) && Ordered(bs, s, e) && Ascending(fs) && e < ZONE_LIMIT && li <= |bs| && fi <= |fs|
    requires Swept(C, z, bs[..li], fs[..fi], s, m, lastFree) && Agree(C, H)
    requires forall i :: li <= i < |bs| ==> m <= bs[i].off
    requires forall i :: fi <= i < |fs| ==> m <= fs[i]
    requires m <= x && x in H && !H[x].kind.Slack? && forall k :: k in H && m <= k && !H[k].kind.Slack? ==> x <= k
    ensures x == NextStart(bs, fs, li, fi)
    ensures NextLive(bs, li) == x ==> H[x] == LiveBlk(bs[li]) && NextFree(fs, fi) != x
    ensures NextFree(fs, fi) == x ==> (fi + 1 < |fs| ==> fs[fi + 1] != x) && fs[fi] < |z| && H[x] == FreeBlk(z, fs[fi])
  {
    hide Coalesced, Tiles;
    Unconsumed(C, H, z, bs, fs, s, m, lastFree, e, li, fi);
    BelowEnd(H, s, e);
    assert li < |bs| ==> bs[li].off in H && H[bs[li].off].kind.Live?;
    assert fi < |fs| ==> fs[fi] in H && H[fs[fi]].kind.Free?;
    if H[x].kind.Live? {
      var i :| 0 <= i < |bs| && bs[i].off == x;
      assert bs[li].off <= bs[i].off;
    } else {
      var i :| 0 <= i < |fs| && fs[i] == x;
      assert fs[fi] <= fs[i];
    }
  }

  // ---- the sweep ------------------------------------------------------------------------------

  // After li live and fi free blocks: m is the running end, and every byte below it is counted
  // once, but for `dup` bytes counted twice because a live and a free block share a start.
  ghost predicate SweepInv(z: seq<u32>, bs: seq<MB>, fs: seq<nat>, s: nat, e: nat, li: nat, fi: nat, m: nat, lastFree: bool,
                           slack: nat, C: Lay, dup: nat) {
    && li <= |bs| && fi <= |fs| && s <= m <= e && Readable(z, fs[..fi])
    && m - s + dup == slack + SumSizes(bs[..li]) + SumSz(z, fs[..fi])
    && (dup == 0 ==> Swept(C, z, bs[..li], fs[..fi], s, m, lastFree))
  }

  ghost predicate FreesAt(z: seq<u32>, fs: seq<nat>, s: nat, e: nat) {
    forall i :: 0 <= i < |fs| ==> FreeAt(z, fs[i], s, e)
  }

  lemma SweepBegin(z: seq<u32>, bs: seq<MB>, fs: seq<nat>, s: nat, e: nat)
    requires s <= e
    ensures SweepInv(z, bs, fs, s, e, 0, 0, s, false, 0, map[], 0)
  {
    SweptStart(z, s);
  }

  lemma TakeLive(bs: seq<MB>, li: nat)
    requires li < |bs|
    ensures bs[..li + 1] == bs[..li] + [bs[li]] && SumSizes(bs[..li + 1]) == SumSizes(bs[..li]) + bs[li].size
  {
    assert bs[..li + 1][..li] == bs[..li];
  }

  lemma TakeFree(z: seq<u32>, fs: seq<nat>, fi: nat)
    requires fi < |fs| && Readable(z, fs[..fi]) && fs[fi] < |z|
    ensures fs[..fi + 1] == fs[..fi] + [fs[fi]]
    ensures Readable(z, fs[..fi + 1]) && SumSz(z, fs[..fi + 1]) == SumSz(z, fs[..fi]) + BlkSize(z[fs[fi]])
  {
    SumSzPush(z, fs[..fi], fs[fi]);
    assert fs[..fi + 1] == fs[..fi] + [fs[fi]];
  }

  // A group of one live block.
  lemma GroupLive(z: seq<u32>, bs: seq<MB>, fs: seq<nat>, s: nat, e: nat, li: nat, fi: nat, m: nat, lastFree: bool, slack: nat, C: Lay, dup: nat)
    requires SweepInv(z, bs, fs, s, e, li, fi, m, lastFree, slack, C, dup) && Ordered(bs, s, e) && li < |bs|
    requires m <= bs[li].off < m + MIN_BLOCK
    ensures var x := bs[li].off;
            SweepInv(z, bs, fs, s, e, li + 1, fi, x + bs[li].size, false, slack + (x - m), Extended(C, m, x, LiveBlk(bs[li])), dup)
  {
    hide Swept, Extended, SumSz, SumSizes;
    TakeLive(bs, li);
    if dup == 0 { SweepLive(C, z, bs[..li], fs[..fi], s, m, lastFree, bs[li]); }
  }

  // A group of one free block.
  lemma GroupFree(z: seq<u32>, bs: seq<MB>, fs: seq<nat>, s: nat, e: nat, li: nat, fi: nat, m: nat, lastFree: bool, slack: nat, C: Lay, dup: nat)
    requires SweepInv(z, bs, fs, s, e, li, fi, m, lastFree, slack, C, dup) && fi < |fs| && FreeAt(z, fs[fi], s, e)
    requires m <= fs[fi] < m + MIN_BLOCK && !(lastFree && fs[fi] == m)
    ensures var x := fs[fi];
            SweepInv(z, bs, fs, s, e, li, fi + 1, x + BlkSize(z[x]), true, slack + (x - m), Extended(C, m, x, FreeBlk(z, x)), dup)
  {
    hide Swept, Extended, SumSz, SumSizes, BlkSize;
    TakeFree(z, fs, fi);
    if dup == 0 { SweepFree(C, z, bs[..li], fs[..fi], s, m, lastFree, fs[fi], e); }
  }

  // A live and a free block that share a start: bytes are now counted twice for good.
  lemma GroupBoth(z: seq<u32>, bs: seq<MB>, fs: seq<nat>, s: nat, e: nat, li: nat, fi: nat, m: nat, lastFree: bool, slack: nat, C: Lay, dup: nat, m': nat)
    requires SweepInv(z, bs, fs, s, e, li, fi, m, lastFree, slack, C, dup) && Ordered(bs, s, e) && li < |bs|
    requires fi < |fs| && FreeAt(z, fs[fi], s, e) && fs[fi] == bs[li].off && m <= bs[li].off
    requires var x := fs[fi]; var a, b := bs[li].size, BlkSize(z[x]); m' == x + (if a > b then a else b)
    ensures var x := fs[fi]; var a, b := bs[li].size, BlkSize(z[x]);
            SweepInv(z, bs, fs, s, e, li + 1, fi + 1, m', true, slack + (x - m) * 2, C, dup + (x - m) + (if a > b then b else a))
  {
    hide Swept, SumSz, SumSizes, BlkSize;
    TakeLive(bs, li);
    TakeFree(z, fs, fi);
  }

  function MaxEnd(a: nat, b: nat): nat {
    if b > a then b else a
  }

  lemma AgreeEmpty(H: Lay)
    ensures Agree(map[], H)
  {
  }

  lemma LiveAt(ds: seq<ObjectDesc>, slots: seq<nat>, i: nat, s: nat, e: nat)
    requires Addressed(ds, slots) && i < |slots| && Ordered(BlocksOf(ds, slots), s, e)
    ensures slots[i] < |ds| && HEADER <= ds[slots[i]].address && |BlocksOf(ds, slots)| == |slots|
    ensures BlocksOf(ds, slots)[i] == BlockOf(ds, slots[i])
    ensures s <= BlocksOf(ds, slots)[i].off && BlocksOf(ds, slots)[i].off + BlocksOf(ds, slots)[i].size <= e && MIN_BLOCK <= BlocksOf(ds, slots)[i].size
  {
  }

  lemma FreeHere(z: seq<u32>, fs: seq<nat>, i: nat, s: nat, e: nat)
    requires FreesAt(z, fs, s, e) && i < |fs|
    ensures FreeAt(z, fs[i], s, e)
  {
    hide FreeAt;
  }

  lemma LiveAscends(bs: seq<MB>, s: nat, e: nat, i: nat)
    requires Ordered(bs, s, e) && i + 1 < |bs|
    ensures bs[i].off < bs[i + 1].off
  {
  }

  lemma SweepSwept(z: seq<u32>, bs: seq<MB>, fs: seq<nat>, s: nat, e: nat, li: nat, fi: nat, m: nat, lastFree: bool, slack: nat, C: Lay, dup: nat)
    requires SweepInv(z, bs, fs, s, e, li, fi, m, lastFree, slack, C, dup)
    ensures li <= |bs| && fi <= |fs| && s <= m <= e && (dup == 0 ==> Swept(C, z, bs[..li], fs[..fi], s, m, lastFree))
  {
    hide Swept;
  }

  // linear_sweep. Accepts exactly along a tiling, but for the double count that the caller's
  // byte sum excludes.
  method LinearSweep(zone: array<u32>, objects: array<ObjectDesc>, slots: seq<nat>, frees: array<nat>, nfree: nat,
                     start: nat, end: nat, ghost H: Lay)
      returns (ok: bool, slack: nat, maxEnd: nat, ghost C: Lay, ghost dup: nat, ghost lastFree: bool)
    requires Addressed(objects[..], slots) && Ordered(BlocksOf(objects[..], slots), start, end) && start <= end < ZONE_LIMIT
    requires nfree <= frees.Length && Ascending(frees[..nfree]) && FreesAt(zone[..], frees[..nfree], start, end)
    ensures ok ==> SweepInv(zone[..], BlocksOf(objects[..], slots), frees[..nfree], start, end, |slots|, nfree, maxEnd, lastFree, slack, C, dup)
    ensures Tiling(H, zone[..], BlocksOf(objects[..], slots), frees[..nfree], start, end) ==> ok && dup == 0 && Agree(C, H)
  {
    hide BlocksOf, Ordered, SweepInv, Ascending, FreesAt, Tiling, Agree, BlkSize, Extended, Swept;
    ghost var z, ds := zone[..], objects[..];
    ghost var bs, fs := BlocksOf(ds, slots), frees[..nfree];
    ghost var good := Tiling(H, z, bs, fs, start, end);
    var n := |slots|;
    var li: nat, fi: nat, runEnd: nat, prevFree := 0, 0, start, false;
    ok, slack, maxEnd, C, dup, lastFree := false, 0, start, map[], 0, false;
    SweepBegin(z, bs, fs, start, end);
    AgreeEmpty(H);
    while li < n || fi < nfree
      invariant li <= n && fi <= nfree
      invariant SweepInv(z, bs, fs, start, end, li, fi, runEnd, prevFree, slack, C, dup)
      invariant good ==> dup == 0 && Agree(C, H)
      decreases n + nfree - li - fi
    {
      if li < n { LiveAt(ds, slots, li, start, end); }
      if fi < nfree { FreeHere(z, fs, fi, start, end); }
      var ls: nat := if li < n then objects[slots[li]].address - HEADER else NO_START;
      var f0: nat := if fi < nfree then frees[fi] else NO_START;
      var s := if ls < f0 then ls else f0;
      if good {
        SweepSwept(z, bs, fs, start, end, li, fi, runEnd, prevFree, slack, C, dup);
        HintStep(C, H, z, bs, fs, start, runEnd, prevFree, end, li, fi);
      }
      if runEnd > s { return; }
      var gap := s - runEnd;
      if gap >= MIN_BLOCK { return; }
      var hasLive, fmembers, groupEnd := Group(zone, objects, slots, frees, nfree, li, fi, s, runEnd, start, end);
      if fmembers > 1 { return; }
      if fmembers >= 1 && prevFree && gap == 0 { return; }
      if hasLive && fmembers == 1 {
        GroupBoth(z, bs, fs, start, end, li, fi, runEnd, prevFree, slack, C, dup, groupEnd);
        dup := dup + gap + (if bs[li].size > BlkSize(z[fs[fi]]) then BlkSize(z[fs[fi]]) else bs[li].size);
      } else if hasLive {
        GroupLive(z, bs, fs, start, end, li, fi, runEnd, prevFree, slack, C, dup);
        C := Extended(C, runEnd, s, LiveBlk(bs[li]));
      } else {
        GroupFree(z, bs, fs, start, end, li, fi, runEnd, prevFree, slack, C, dup);
        C := Extended(C, runEnd, s, FreeBlk(z, fs[fi]));
      }
      slack := slack + gap * ((if hasLive then 1 else 0) + fmembers);
      li := if hasLive then li + 1 else li;
      fi := fi + fmembers;
      runEnd := groupEnd;
      prevFree := fmembers >= 1;
    }
    ok, maxEnd, lastFree := true, runEnd, prevFree;
  }

  // The members of the group that starts at s: at most one live block, since live blocks are in
  // strictly ascending order, and the run of free blocks with that start.
  method Group(zone: array<u32>, objects: array<ObjectDesc>, slots: seq<nat>, frees: array<nat>, nfree: nat,
               li: nat, fi: nat, s: nat, runEnd: nat, ghost start: nat, ghost end: nat)
      returns (hasLive: bool, fmembers: nat, groupEnd: nat)
    requires Addressed(objects[..], slots) && Ordered(BlocksOf(objects[..], slots), start, end)
    requires nfree <= frees.Length && Ascending(frees[..nfree]) && FreesAt(zone[..], frees[..nfree], start, end)
    requires li <= |slots| && fi <= nfree && (li < |slots| || fi < nfree) && runEnd <= s && end < ZONE_LIMIT
    requires s == NextStart(BlocksOf(objects[..], slots), frees[..nfree], li, fi)
    ensures var bs, fs := BlocksOf(objects[..], slots), frees[..nfree];
            && (hasLive <==> NextLive(bs, li) == s) && fi + fmembers <= nfree
            && (fmembers >= 1 <==> NextFree(fs, fi) == s)
            && (fi + 1 < nfree && fs[fi + 1] != s ==> fmembers <= 1)
            && (hasLive ==> li < |slots|) && (fmembers >= 1 ==> fi < nfree && fs[fi] < zone.Length)
            && groupEnd == MaxEnd(if hasLive then MaxEnd(runEnd, s + bs[li].size) else runEnd,
                                  if fmembers >= 1 then s + BlkSize(zone[fs[fi]]) else 0)
  {
    hide BlocksOf, Ordered, Ascending, BlkSize;
    ghost var z, ds := zone[..], objects[..];
    ghost var bs, fs := BlocksOf(ds, slots), frees[..nfree];
    if li < |slots| { LiveAt(ds, slots, li, start, end); }
    if fi < nfree { FreeHere(z, fs, fi, start, end); }
    var l := li;
    groupEnd := runEnd;
    while l < |slots|
      invariant li <= l <= |slots| && l <= li + 1
      invariant l == li + 1 ==> NextLive(bs, li) == s && groupEnd == MaxEnd(runEnd, s + bs[li].size)
      invariant l == li ==> groupEnd == runEnd
    {
      var d := objects[slots[l]];
      LiveAt(ds, slots, l, start, end);
      if l > li { LiveAscends(bs, start, end, li); }
      var a: nat := d.address - HEADER;
      if a != s { break; }
      if a + d.blockSize > groupEnd { groupEnd := a + d.blockSize; }
      l := l + 1;
    }
    hasLive := l > li;
    ghost var g1 := groupEnd;
    var f := fi;
    while f < nfree && frees[f] == s
      invariant fi <= f <= nfree && forall k :: fi <= k < f ==> fs[k] == s
      invariant f > fi ==> s < zone.Length && groupEnd == MaxEnd(g1, s + BlkSize(zone[s]))
      invariant f == fi ==> groupEnd == g1
    {
      FreeHere(z, fs, f, start, end);
      var e := s + BlkSize(zone[frees[f]]);
      if e > groupEnd { groupEnd := e; }
      f := f + 1;
    }
    fmembers := f - fi;
  }
}
