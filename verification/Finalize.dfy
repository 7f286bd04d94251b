/** finalize_layout: rebuild headers, slack poison, free blocks, bins and byte statistics of a
    window from an address-ordered slot array. */
module Finalize {
  import opened Base
  import opened Bins
  import opened Layout
  import opened PoolHeap
  import opened Objects
  import opened State
  import opened Blocks

  // The window under construction ends with a live block or is empty.
  ghost predicate EndsLive(C: Lay, s: nat, m: nat, prevOwn: nat) {
    && (C == map[] ==> prevOwn == 0)
    && (forall o {:trigger End(C, o)} :: o in C && End(C, o) == m ==> C[o].kind.Live? && C[o].size == prevOwn)
  }

  // Appending a block at the end of a window.
  lemma AppendBlock(z: seq<u32>, z': seq<u32>, C: Lay, s: nat, m: nat, b: Blk, prevOwn: nat)
    requires LayoutInv(z, C, s, m) && |z'| == |z| && forall c :: 0 <= c < m ==> z'[c] == z[c]
    requires b.size > 0 && b.size % ALIGN == 0 && m + b.size <= |z| && m + b.size < ZONE_LIMIT
    requires if b.kind.Slack? then b.size < MIN_BLOCK else MIN_BLOCK <= b.size
    requires z'[m] == HeaderOf(b) && (!b.kind.Slack? ==> m + 4 < |z| && z'[m + 4] == prevOwn)
    requires C == map[] ==> prevOwn == 0
    requires forall o {:trigger End(C, o)} :: o in C && End(C, o) == m ==>
               PrevWord(C[o]) == prevOwn && !(C[o].kind.Free? && b.kind.Free?) && !(C[o].kind.Slack? && b.kind.Slack?)
    ensures LayoutInv(z', C[m := b], s, m + b.size)
  {
    hide HeadersOk, PrevOk, Coalesced, Tiles;
    AppendTiles(C, s, m, b);
    AlignedSum(m, b.size);
    AppendTags(z, z', C, s, m, b, prevOwn);
  }

  lemma AppendTiles(C: Lay, s: nat, m: nat, b: Blk)
    requires Tiles(C, s, m) && b.size > 0
    ensures Tiles(C[m := b], s, m + b.size) && m !in C
  {
    SingleTiles(m, b);
    JoinTiles(C, map[m := b], s, m, m + b.size);
    MapPut(C, m, b);
  }

  lemma AppendTags(z: seq<u32>, z': seq<u32>, C: Lay, s: nat, m: nat, b: Blk, prevOwn: nat)
    requires LayoutInv(z, C, s, m) && |z'| == |z| && forall c :: 0 <= c < m ==> z'[c] == z[c]
    requires b.size > 0 && b.size % ALIGN == 0 && m + b.size <= |z| && m !in C && m + 4 < |z|
    requires z'[m] == HeaderOf(b) && (!b.kind.Slack? ==> m + 4 < |z| && z'[m + 4] == prevOwn)
    requires C == map[] ==> prevOwn == 0
    requires forall o {:trigger End(C, o)} :: o in C && End(C, o) == m ==>
               PrevWord(C[o]) == prevOwn && !(C[o].kind.Free? && b.kind.Free?) && !(C[o].kind.Slack? && b.kind.Slack?)
    ensures HeadersOk(z', C[m := b]) && PrevOk(z', C[m := b], s) && Coalesced(C[m := b])
  {
    hide LayoutInv, HeadersOk, PrevOk, Coalesced;
    BlocksBelow(z, C, s, m);
    AppendHeaders(z, z', C, s, m, b);
    AppendPrev(z, z', C, s, m, b, prevOwn);
    AppendCoalesced(z, C, s, m, b);
  }

  lemma BlocksBelow(z: seq<u32>, C: Lay, s: nat, m: nat)
    requires LayoutInv(z, C, s, m)
    ensures forall o :: o in C ==> s <= o && 8 <= C[o].size && o + C[o].size <= m
    ensures forall o {:trigger End(C, o)} :: o in C ==> End(C, o) == m || End(C, o) in C
    ensures C == map[] ==> s == m
  {
    hide HeadersOk, PrevOk, Coalesced;
    forall o | o in C ensures 8 <= C[o].size { assert C[o].size % ALIGN == 0; }
  }

  lemma AppendHeaders(z: seq<u32>, z': seq<u32>, C: Lay, s: nat, m: nat, b: Blk)
    requires LayoutInv(z, C, s, m) && |z'| == |z| && forall c :: 0 <= c < m ==> z'[c] == z[c]
    requires m < |z| && z'[m] == HeaderOf(b)
    ensures HeadersOk(z', C[m := b])
  {
    hide PrevOk, Coalesced, Shaped;
  }

  lemma AppendPrev(z: seq<u32>, z': seq<u32>, C: Lay, s: nat, m: nat, b: Blk, prevOwn: nat)
    requires LayoutInv(z, C, s, m) && |z'| == |z| && forall c :: 0 <= c < m ==> z'[c] == z[c]
    requires m + 4 < |z| && m !in C && (!b.kind.Slack? ==> z'[m + 4] == prevOwn)
    requires forall o :: o in C ==> s <= o && 8 <= C[o].size && o + C[o].size <= m
    requires forall o {:trigger End(C, o)} :: o in C ==> End(C, o) == m || End(C, o) in C
    requires C == map[] ==> s == m && prevOwn == 0
    requires forall o {:trigger End(C, o)} :: o in C && End(C, o) == m ==> PrevWord(C[o]) == prevOwn
    requires m + b.size > m
    ensures PrevOk(z', C[m := b], s)
  {
    hide HeadersOk, Coalesced, Shaped, PrevWord;
    var R := C[m := b];
    forall o | o in R && End(R, o) in R && !R[End(R, o)].kind.Slack?
      ensures z'[End(R, o) + 4] == PrevWord(R[o])
    {
      assert o in C ==> End(R, o) == End(C, o);
    }
  }

  lemma AppendCoalesced(z: seq<u32>, C: Lay, s: nat, m: nat, b: Blk)
    requires LayoutInv(z, C, s, m) && m !in C && b.size > 0
    requires forall o :: o in C ==> s <= o && o + C[o].size <= m && 0 < C[o].size
    requires forall o {:trigger End(C, o)} :: o in C && End(C, o) == m ==>
               !(C[o].kind.Free? && b.kind.Free?) && !(C[o].kind.Slack? && b.kind.Slack?)
    ensures Coalesced(C[m := b])
  {
    hide HeadersOk, PrevOk, Shaped;
    var R := C[m := b];
    forall o | o in R && End(R, o) in R
      ensures !(R[o].kind.Free? && R[End(R, o)].kind.Free?) && !(R[o].kind.Slack? && R[End(R, o)].kind.Slack?)
    {
      assert o in C ==> End(R, o) == End(C, o);
    }
  }

  // Relinking free lists does not disturb a layout.
  lemma LinksKeepLayout(z: seq<u32>, z': seq<u32>, C: Lay, s: nat, m: nat)
    requires LayoutInv(z, C, s, m) && SameExceptLinks(z, z', FreeMap(C).Keys)
    ensures LayoutInv(z', C, s, m)
  {
    hide FreeMap, SameExceptLinks, Shaped, Coalesced, Tiles;
    FreeLinksInside(z, z', C, s, m);
  }

  // Payload words of the blocks in bs.
  ghost predicate PayloadKept(z: seq<u32>, z': seq<u32>, bs: seq<MB>) {
    && |z'| == |z|
    && (forall i, c :: 0 <= i < |bs| && bs[i].off + HEADER <= c < bs[i].off + bs[i].size && c < |z| ==> z'[c] == z[c])
  }

  // What holds after the blocks D have been laid out from s: z0 is the zone at entry.
  ghost predicate Building(z0: seq<u32>, z: seq<u32>, b: TlsfBins, lists: seq<seq<nat>>, D: seq<MB>, s: nat, e: nat,
                           prevEnd: nat, prevOwn: nat, used: nat, fragment: nat) {
    && Ordered(D, s, e) && prevEnd == EndOf(D, s)
    && PoolLay(z, b, Canon(D, s), lists, s, prevEnd)
    && prevOwn == (if D == [] then 0 else D[|D| - 1].size)
    && used == SumSizes(D) && fragment == Bytes(Canon(D, s), TSlack)
    && OutsideKept(z0, z, s, prevEnd) && PayloadKept(z0, z, D)
  }

  lemma CanonEndsLive(D: seq<MB>, s: nat, e: nat)
    requires Ordered(D, s, e)
    ensures EndsLive(Canon(D, s), s, EndOf(D, s), if D == [] then 0 else D[|D| - 1].size)
    ensures Tiles(Canon(D, s), s, EndOf(D, s))
  {
    CanonTiles(D, s, e);
    if D != [] {
      var n := |D| - 1;
      CanonLive(D, s, e);
      var C := Canon(D, s);
      assert End(C, D[n].off) == EndOf(D, s);
      forall o | o in C && End(C, o) == EndOf(D, s) ensures o == D[n].off {
        UniqueEnd(C, s, EndOf(D, s), o, D[n].off);
      }
    }
  }

  // What the last block of a window tells the block appended next.
  ghost predicate PrevOwnOk(C: Lay, m: nat, prevOwn: nat) {
    && (C == map[] ==> prevOwn == 0)
    && (forall o {:trigger End(C, o)} :: o in C && End(C, o) == m ==> PrevWord(C[o]) == prevOwn)
  }

  lemma GapPrevOwn(C: Lay, s: nat, m: nat, gap: nat, prevOwn: nat)
    requires Tiles(C, s, m) && EndsLive(C, s, m, prevOwn)
    ensures PrevOwnOk(C + Gap(m, m + gap), m + gap, if gap >= MIN_BLOCK then gap else if gap > 0 then 0 else prevOwn)
  {
    if gap == 0 {
      assert C + Gap(m, m) == C;
    } else {
      var G := C + Gap(m, m + gap);
      assert m in G;
      assert forall o :: o in C ==> o + C[o].size <= m;
      forall o | o in G && End(G, o) == m + gap
        ensures PrevWord(G[o]) == if gap >= MIN_BLOCK then gap else 0
      {
      }
    }
  }

  // The stretch before a live block (or before the window's end): one free block, or poisoned
  // slack, or nothing.
  method PlaceGap(zone: array<u32>, b: TlsfBins, prevEnd: nat, gap: nat, prevOwn: u32,
                  ghost C: Lay, ghost lists: seq<seq<nat>>, ghost s: nat)
      returns (b': TlsfBins, prevOwn': u32, ghost lists': seq<seq<nat>>)
    requires PoolLay(zone[..], b, C, lists, s, prevEnd) && EndsLive(C, s, prevEnd, prevOwn)
    requires gap % ALIGN == 0 && prevEnd + gap <= zone.Length && prevEnd + gap < ZONE_LIMIT
    modifies zone
    ensures PoolLay(zone[..], b', C + Gap(prevEnd, prevEnd + gap), lists', s, prevEnd + gap)
    ensures prevOwn' == if gap >= MIN_BLOCK then gap else if gap > 0 then 0 else prevOwn
    ensures OutsideKept(old(zone[..]), zone[..], s, prevEnd + gap) && LivePayloadKept(old(zone[..]), zone[..], C)
  {
    hide LayoutInv, BinsInv, Tiles, Coalesced, HeadersOk, PrevOk, Shaped, FreeMap, SameExceptLinks, LivePayloadKept, OutsideKept, EndsLive;
    ghost var z := zone[..];
    LayoutParts(z, C, s, prevEnd);
    if gap >= MIN_BLOCK {
      zone[prevEnd] := gap + 1;
      zone[prevEnd + 4] := prevOwn;
      zone[prevEnd + 8], zone[prevEnd + 12] := NULL_OFF, NULL_OFF;
      ghost var z1 := zone[..];
      GapFreeReady(z, z1, b, lists, C, s, prevEnd, gap, prevOwn);
      FreeHeaderWord(gap);
      b', lists' := BinsInsert(zone, b, prevEnd, lists, FreeMap(C));
      assert FreeMap(C).Keys + {prevEnd} == FreeMap(C)[prevEnd := gap].Keys;
      GapFreeDone(z, z1, zone[..], C, s, prevEnd, gap);
      prevOwn' := gap;
    } else if gap > 0 {
      zone[prevEnd] := 0;
      b', lists', prevOwn' := b, lists, 0;
      GapSlackDone(z, zone[..], b, lists, C, s, prevEnd, gap, prevOwn);
    } else {
      b', lists', prevOwn' := b, lists, prevOwn;
      assert C + Gap(prevEnd, prevEnd + gap) == C;
      NothingChanged(z, C, s, prevEnd);
    }
  }

  lemma NothingChanged(z: seq<u32>, C: Lay, s: nat, e: nat)
    ensures OutsideKept(z, z, s, e) && LivePayloadKept(z, z, C)
  {
  }

  lemma LayoutParts(z: seq<u32>, C: Lay, s: nat, e: nat)
    requires LayoutInv(z, C, s, e)
    ensures Tiles(C, s, e) && Shaped(C) && s <= e <= |z| <= ZONE_LIMIT && s % ALIGN == 0 && e % ALIGN == 0
  {
    hide HeadersOk, PrevOk, Coalesced, Shaped;
  }

  lemma AppendFits(C: Lay, s: nat, m: nat, b: Blk, prevOwn: nat)
    requires EndsLive(C, s, m, prevOwn)
    ensures C == map[] ==> prevOwn == 0
    ensures forall o {:trigger End(C, o)} :: o in C && End(C, o) == m ==>
              PrevWord(C[o]) == prevOwn && !(C[o].kind.Free? && b.kind.Free?) && !(C[o].kind.Slack? && b.kind.Slack?)
  {
  }

  lemma GapFreeReady(z: seq<u32>, z1: seq<u32>, b: TlsfBins, lists: seq<seq<nat>>, C: Lay, s: nat, m: nat, gap: nat, prevOwn: nat)
    requires PoolLay(z, b, C, lists, s, m) && EndsLive(C, s, m, prevOwn)
    requires gap % ALIGN == 0 && MIN_BLOCK <= gap && m + gap <= |z| && m + gap < ZONE_LIMIT
    requires SameExcept(z, z1, {m, m + 4, m + 8, m + 12}) && z1[m] == gap + 1 && z1[m + 4] == prevOwn
    ensures LayoutInv(z1, C + Gap(m, m + gap), s, m + gap)
    ensures BinsInv(z1, b, lists, FreeMap(C)) && m !in FreeMap(C)
    ensures FreeCell(z1, m, gap) && FreeMap(C + Gap(m, m + gap)) == FreeMap(C)[m := gap] && Spaced(FreeMap(C)[m := gap])
  {
    hide BinsInv, HeadersOk, PrevOk, Coalesced, Shaped, Tiles, EndsLive;
    var nb := Blk(gap, Free);
    LayoutParts(z, C, s, m);
    AppendFits(C, s, m, nb, prevOwn);
    AppendBlock(z, z1, C, s, m, nb, prevOwn);
    MapPut(C, m, nb);
    LayoutParts(z1, C[m := nb], s, m + gap);
    FreeApart(C[m := nb], s, m + gap);
    BelowWindow(C, s, m);
    assert FreeMap(C[m := nb]) == FreeMap(C)[m := gap];
    BinsFrame(z, z1, b, lists, FreeMap(C));
  }

  lemma BelowWindow(C: Lay, s: nat, m: nat)
    requires Tiles(C, s, m) && Shaped(C)
    ensures m !in C && forall f :: f in FreeMap(C) ==> f + MIN_BLOCK <= m
  {
  }

  lemma GapFreeDone(z: seq<u32>, z1: seq<u32>, z2: seq<u32>, C: Lay, s: nat, m: nat, gap: nat)
    requires Tiles(C, s, m) && LayoutInv(z1, C + Gap(m, m + gap), s, m + gap) && MIN_BLOCK <= gap
    requires SameExcept(z, z1, {m, m + 4, m + 8, m + 12})
    requires SameExceptLinks(z1, z2, FreeMap(C)[m := gap].Keys) && FreeMap(C + Gap(m, m + gap)) == FreeMap(C)[m := gap]
    ensures LayoutInv(z2, C + Gap(m, m + gap), s, m + gap)
    ensures OutsideKept(z, z2, s, m + gap) && LivePayloadKept(z, z2, C)
  {
    hide LayoutInv, Tiles, Shaped, FreeMap, SameExceptLinks, Gap;
    var G := C + Gap(m, m + gap);
    LinksKeepLayout(z1, z2, G, s, m + gap);
    LayoutParts(z1, G, s, m + gap);
    FreeLinksInside(z1, z2, G, s, m + gap);
    GapAbove(C, s, m, m + gap);
    forall k, c | k in C && C[k].kind.Live? && k + HEADER <= c < k + C[k].size && c < |z| && c < |z2| ensures z2[c] == z[c] {
      assert k in G && G[k] == C[k];
    }
  }

  // The blocks below a gap stay as they are.
  lemma GapAbove(C: Lay, s: nat, m: nat, p: nat)
    requires Tiles(C, s, m) && m <= p
    ensures forall k :: k in C ==> k in C + Gap(m, p) && (C + Gap(m, p))[k] == C[k] && s <= k && k + C[k].size <= m
    ensures s <= m
  {
  }

  lemma GapSlackDone(z: seq<u32>, z1: seq<u32>, b: TlsfBins, lists: seq<seq<nat>>, C: Lay, s: nat, m: nat, gap: nat, prevOwn: nat)
    requires PoolLay(z, b, C, lists, s, m) && EndsLive(C, s, m, prevOwn)
    requires gap % ALIGN == 0 && 0 < gap < MIN_BLOCK && m + gap <= |z| && m + gap < ZONE_LIMIT
    requires SameExcept(z, z1, {m}) && z1[m] == 0
    ensures PoolLay(z1, b, C + Gap(m, m + gap), lists, s, m + gap)
    ensures OutsideKept(z, z1, s, m + gap) && LivePayloadKept(z, z1, C)
  {
    hide BinsInv, HeadersOk, PrevOk, Coalesced, Shaped, EndsLive;
    var nb := Blk(gap, Slack);
    LayoutParts(z, C, s, m);
    AppendFits(C, s, m, nb, prevOwn);
    AppendBlock(z, z1, C, s, m, nb, prevOwn);
    MapPut(C, m, nb);
    BelowWindow(C, s, m);
    assert FreeMap(C[m := nb]) == FreeMap(C);
    BinsFrame(z, z1, b, lists, FreeMap(C));
  }

  // A live block's header right after the window under construction.
  method PlaceLive(zone: array<u32>, b: TlsfBins, off: nat, size: u32, prevOwn: u32, ghost slot: nat,
                   ghost C: Lay, ghost lists: seq<seq<nat>>, ghost s: nat)
    requires PoolLay(zone[..], b, C, lists, s, off) && PrevOwnOk(C, off, prevOwn)
    requires size % ALIGN == 0 && MIN_BLOCK <= size && off + size <= zone.Length && off + size < ZONE_LIMIT
    modifies zone
    ensures PoolLay(zone[..], b, C[off := Blk(size, Live(slot))], lists, s, off + size)
    ensures OutsideKept(old(zone[..]), zone[..], s, off + size) && LivePayloadKept(old(zone[..]), zone[..], C)
    ensures forall c :: off + HEADER <= c < off + size ==> zone[c] == old(zone[c])
  {
    hide BinsInv, LayoutInv, Tiles, Shaped, OutsideKept, LivePayloadKept, PrevOwnOk;
    ghost var z := zone[..];
    LayoutParts(z, C, s, off);
    zone[off] := size;
    zone[off + 4] := prevOwn;
    PlacedLive(z, zone[..], b, lists, C, s, off, size, prevOwn, slot);
  }

  lemma PlacedLive(z: seq<u32>, z1: seq<u32>, b: TlsfBins, lists: seq<seq<nat>>, C: Lay, s: nat, m: nat, size: nat, prevOwn: nat, slot: nat)
    requires PoolLay(z, b, C, lists, s, m) && PrevOwnOk(C, m, prevOwn)
    requires size % ALIGN == 0 && MIN_BLOCK <= size && m + size <= |z| && m + size < ZONE_LIMIT
    requires SameExcept(z, z1, {m, m + 4}) && z1[m] == size && z1[m + 4] == prevOwn
    ensures PoolLay(z1, b, C[m := Blk(size, Live(slot))], lists, s, m + size)
    ensures OutsideKept(z, z1, s, m + size) && LivePayloadKept(z, z1, C)
  {
    hide BinsInv, HeadersOk, PrevOk, Coalesced, Shaped;
    var nb := Blk(size, Live(slot));
    LayoutParts(z, C, s, m);
    AppendBlock(z, z1, C, s, m, nb, prevOwn);
    BelowWindow(C, s, m);
    assert FreeMap(C[m := nb]) == FreeMap(C);
    BinsFrame(z, z1, b, lists, FreeMap(C));
  }

  // ---- the whole rebuild --------------------------------------------------------------------

  predicate Inside2(b: MB, s: nat, e: nat) {
    s <= b.off && b.off + b.size <= e
  }

  // The blocks of bs that lie inside [s, e); the others belong to the other half of a split.
  ghost function InRange(bs: seq<MB>, s: nat, e: nat): seq<MB> {
    if bs == [] then []
    else InRange(bs[..|bs| - 1], s, e) + (if Inside2(bs[|bs| - 1], s, e) then [bs[|bs| - 1]] else [])
  }

  lemma {:induction false} InRangePrefix(bs: seq<MB>, s: nat, e: nat, k: nat)
    requires k <= |bs|
    ensures InRange(bs[..k], s, e) <= InRange(bs, s, e)
    decreases |bs|
  {
    if k == |bs| {
      assert bs[..k] == bs;
    } else {
      InRangePrefix(bs[..|bs| - 1], s, e, k);
      assert bs[..|bs| - 1][..k] == bs[..k];
    }
  }

  lemma {:induction false} AllInRange(bs: seq<MB>, s: nat, e: nat)
    requires forall i :: 0 <= i < |bs| ==> Inside2(bs[i], s, e)
    ensures InRange(bs, s, e) == bs
  {
    if bs != [] {
      AllInRange(bs[..|bs| - 1], s, e);
    }
  }

  lemma PrefixOrdered(D: seq<MB>, W: seq<MB>, s: nat, e: nat)
    requires Ordered(W, s, e) && D <= W
    ensures Ordered(D, s, e) && s <= EndOf(D, s) <= e && EndOf(D, s) % ALIGN == 0
    ensures |D| < |W| ==> EndOf(D, s) <= W[|D|].off
  {
    assert D == W[..|D|];
    OrderedPrefix(W, s, e, |D|);
  }

  lemma BuildingStart(z: seq<u32>, s: nat, e: nat)
    requires s <= e <= |z| <= ZONE_LIMIT && e < ZONE_LIMIT && s % ALIGN == 0 && e % ALIGN == 0
    ensures Building(z, z, EmptyBins(), NoLists(), [], s, e, s, 0, 0, 0)
  {
    EmptyInv(z);
    assert FreeMap(map[]) == map[];
    assert Bytes(map[], TSlack) == 0;
  }

  lemma BuildingFacts(z0: seq<u32>, z: seq<u32>, b: TlsfBins, lists: seq<seq<nat>>, D: seq<MB>, s: nat, e: nat,
                      prevEnd: nat, prevOwn: nat, used: nat, fragment: nat)
    requires Building(z0, z, b, lists, D, s, e, prevEnd, prevOwn, used, fragment)
    ensures PoolLay(z, b, Canon(D, s), lists, s, prevEnd) && EndsLive(Canon(D, s), s, prevEnd, prevOwn)
    ensures Tiles(Canon(D, s), s, prevEnd) && Ordered(D, s, e) && prevEnd == EndOf(D, s)
    ensures used == SumSizes(D) && fragment == Bytes(Canon(D, s), TSlack)
  {
    hide PoolLay, OutsideKept, PayloadKept, Canon;
    CanonEndsLive(D, s, e);
  }

  lemma PayloadThrough(z0: seq<u32>, z: seq<u32>, z': seq<u32>, D: seq<MB>, C: Lay, s: nat, e: nat)
    requires PayloadKept(z0, z, D) && LivePayloadKept(z, z', C) && OutsideKept(z, z', s, e)
    requires forall i :: 0 <= i < |D| ==> D[i].off in C && C[D[i].off] == LiveBlk(D[i])
    ensures PayloadKept(z0, z', D)
  {
    forall i, c | 0 <= i < |D| && D[i].off + HEADER <= c < D[i].off + D[i].size && c < |z0| ensures z'[c] == z0[c] {
      assert C[D[i].off].size == D[i].size;
      assert z'[c] == z[c];
    }
  }

  // One round of the loop: gap, then live block.
  lemma BuildingStep(z0: seq<u32>, z: seq<u32>, z1: seq<u32>, z2: seq<u32>, b: TlsfBins, b': TlsfBins,
                     lists: seq<seq<nat>>, lists': seq<seq<nat>>, D: seq<MB>, nb: MB, s: nat, e: nat,
                     prevEnd: nat, prevOwn: nat, used: nat, fragment: nat)
    requires Building(z0, z, b, lists, D, s, e, prevEnd, prevOwn, used, fragment)
    requires Ordered(D + [nb], s, e) && prevEnd <= nb.off
    requires var C := Canon(D, s); var G := C + Gap(prevEnd, nb.off);
             && PoolLay(z2, b', G[nb.off := LiveBlk(nb)], lists', s, nb.off + nb.size)
             && OutsideKept(z, z1, s, nb.off) && LivePayloadKept(z, z1, C)
             && OutsideKept(z1, z2, s, nb.off + nb.size) && LivePayloadKept(z1, z2, G)
             && (forall c :: nb.off + HEADER <= c < nb.off + nb.size && c < |z1| && c < |z2| ==> z2[c] == z1[c])
    ensures Building(z0, z2, b', lists', D + [nb], s, e, nb.off + nb.size, nb.size, used + nb.size,
                     fragment + if 0 < nb.off - prevEnd < MIN_BLOCK then nb.off - prevEnd else 0)
  {
    hide PoolLay, LivePayloadKept, Gap, Tiles, LiveBlk, Ordered, PayloadKept, OutsideKept, Canon, Bytes, SumSizes;
    var E := D + [nb];
    var C := Canon(D, s);
    var G := C + Gap(prevEnd, nb.off);
    CanonLive(D, s, e);
    GapBytes(C, prevEnd, nb.off);
    GapKeeps(C, prevEnd, nb.off);
    LiveSlack(G, nb);
    PayloadThrough(z0, z, z1, D, C, s, nb.off);
    PayloadThrough(z0, z1, z2, D, G, s, nb.off + nb.size);
    StepFrame(z0, z, z1, z2, s, prevEnd, nb.off, nb.off + nb.size);
    StepPayload(z0, z, z1, z2, D, nb, s, prevEnd);
    CanonPush(D, nb, s);
  }

  lemma CanonPush(D: seq<MB>, nb: MB, s: nat)
    ensures Canon(D + [nb], s) == (Canon(D, s) + Gap(EndOf(D, s), nb.off))[nb.off := LiveBlk(nb)]
    ensures SumSizes(D + [nb]) == SumSizes(D) + nb.size && EndOf(D + [nb], s) == nb.off + nb.size
  {
    assert (D + [nb])[..|D + [nb]| - 1] == D;
  }

  lemma StepFrame(z0: seq<u32>, z: seq<u32>, z1: seq<u32>, z2: seq<u32>, s: nat, a: nat, b: nat, c: nat)
    requires OutsideKept(z0, z, s, a) && OutsideKept(z, z1, s, b) && OutsideKept(z1, z2, s, c) && a <= b <= c
    ensures OutsideKept(z0, z2, s, c) && |z2| == |z1| == |z| == |z0|
  {
  }

  lemma StepPayload(z0: seq<u32>, z: seq<u32>, z1: seq<u32>, z2: seq<u32>, D: seq<MB>, nb: MB, s: nat, m: nat)
    requires PayloadKept(z0, z2, D) && OutsideKept(z0, z, s, m) && OutsideKept(z, z1, s, nb.off) && m <= nb.off && |z2| == |z1|
    requires forall c :: nb.off + HEADER <= c < nb.off + nb.size && c < |z1| && c < |z2| ==> z2[c] == z1[c]
    ensures PayloadKept(z0, z2, D + [nb])
  {
    var E := D + [nb];
    forall i, c | 0 <= i < |E| && E[i].off + HEADER <= c < E[i].off + E[i].size && c < |z0| ensures z2[c] == z0[c] {
      if i < |D| {
        assert E[i] == D[i];
      }
    }
  }

  lemma GapKeeps(C: Lay, m: nat, p: nat)
    requires forall o :: o in C ==> o < m
    ensures forall o :: o in C ==> o in C + Gap(m, p) && (C + Gap(m, p))[o] == C[o]
    ensures m <= p ==> p !in C + Gap(m, p)
  {
  }

  lemma LiveSlack(G: Lay, nb: MB)
    requires nb.off !in G
    ensures Bytes(G[nb.off := LiveBlk(nb)], TSlack) == Bytes(G, TSlack)
  {
    BytesAdd(G, nb.off, LiveBlk(nb), TSlack);
  }

  // One live block of the stream: the gap before it, then its header.
  method LayBlock(zone: array<u32>, b: TlsfBins, bstart: nat, bsize: u32, prevEnd: nat, prevOwn: u32, fragment: nat,
                  ghost z0: seq<u32>, ghost D: seq<MB>, ghost nb: MB, ghost W: seq<MB>,
                  ghost lists: seq<seq<nat>>, ghost s: nat, ghost e: nat, ghost used: nat)
      returns (b': TlsfBins, fragment': nat, ghost lists': seq<seq<nat>>)
    requires Building(z0, zone[..], b, lists, D, s, e, prevEnd, prevOwn, used, fragment)
    requires Ordered(W, s, e) && D + [nb] <= W && nb.off == bstart && nb.size == bsize
    requires e <= zone.Length && e < ZONE_LIMIT
    modifies zone
    ensures Building(z0, zone[..], b', lists', D + [nb], s, e, bstart + bsize, bsize, used + bsize, fragment')
  {
    hide Building, PoolLay, EndsLive, PrevOwnOk, OutsideKept, LivePayloadKept, Tiles, Ordered, Canon, Gap;
    ghost var z := zone[..];
    ghost var C := Canon(D, s);
    BuildingFacts(z0, z, b, lists, D, s, e, prevEnd, prevOwn, used, fragment);
    BlockFits(D, nb, W, s, e);
    var gap := bstart - prevEnd;
    GapPrevOwn(C, s, prevEnd, gap, prevOwn);
    var prevOwn';
    b', prevOwn', lists' := PlaceGap(zone, b, prevEnd, gap, prevOwn, C, lists, s);
    fragment' := if 0 < gap < MIN_BLOCK then fragment + gap else fragment;
    ghost var z1 := zone[..];
    PlaceLive(zone, b', bstart, bsize, prevOwn', nb.slot, C + Gap(prevEnd, bstart), lists', s);
    BuildingStep(z0, z, z1, zone[..], b, b', lists, lists', D, nb, s, e, prevEnd, prevOwn, used, fragment);
  }

  // finalize_layout. `bs` are the blocks of `slots`; those outside [start, end) are skipped.
  method FinalizeLayout(zone: array<u32>, objects: array<ObjectDesc>, P: Pool, start: nat, end: nat, slots: seq<nat>)
      returns (P': Pool, ghost lists: seq<seq<nat>>)
    requires Addressed(objects[..], slots)
    requires Ordered(InRange(BlocksOf(objects[..], slots), start, end), start, end)
    requires end <= zone.Length <= ZONE_LIMIT && end < ZONE_LIMIT
    modifies zone
    ensures var D := InRange(BlocksOf(objects[..], slots), start, end);
            && PoolLay(zone[..], P'.bins, CanonFull(D, start, end), lists, start, end)
            && Counters(P', CanonFull(D, start, end), start, end) && P'.usedBytes == SumSizes(D)
            && OutsideKept(old(zone[..]), zone[..], start, end) && PayloadKept(old(zone[..]), zone[..], D)
    ensures P' == P.(bins := P'.bins, usedBytes := P'.usedBytes, freeBytes := P'.freeBytes, fragmentBytes := P'.fragmentBytes)
  {
    hide Building, InRange, BlocksOf, Canon, PoolLay, EndsLive, PrevOwnOk, OutsideKept, PayloadKept, LivePayloadKept, Tiles, CanonFull, EndOf, Gap;
    ghost var z0, ds := zone[..], objects[..];
    ghost var bs := BlocksOf(ds, slots);
    ghost var W := InRange(bs, start, end);
    var bins := EmptyBins();
    lists := NoLists();
    var prevEnd: nat, prevOwn: u32, used: nat, fragment: nat := start, 0, 0, 0;
    ghost var D: seq<MB> := [];
    assert start <= end && start % ALIGN == 0 && end % ALIGN == 0;
    BuildingStart(z0, start, end);
    InRangeEmpty(bs, start, end);
    for i := 0 to |slots|
      invariant D == InRange(bs[..i], start, end)
      invariant Building(z0, zone[..], bins, lists, D, start, end, prevEnd, prevOwn, used, fragment)
    {
      var d := objects[slots[i]];
      var bstart := d.address - HEADER;
      var bsize := d.blockSize;
      ghost var nb := BlockOf(ds, slots[i]);
      BlockAt(ds, slots, i);
      InRangeStep(bs, start, end, i, D);
      if bstart < start || bstart + bsize > end {
        continue;
      }
      bins, fragment, lists := LayBlock(zone, bins, bstart, bsize, prevEnd, prevOwn, fragment, z0, D, nb, W, lists, start, end, used);
      prevEnd := bstart + bsize;
      prevOwn := bsize;
      used := used + bsize;
      D := D + [nb];
    }
    assert bs[..|slots|] == bs;
    BuildingFacts(z0, zone[..], bins, lists, D, start, end, prevEnd, prevOwn, used, fragment);
    ghost var z := zone[..];
    PrefixOrdered(D, W, start, end);
    var tail := end - prevEnd;
    AlignedSum(end, prevEnd);
    ghost var fragment0, b0, l0, o0 := fragment, bins, lists, prevOwn;
    bins, prevOwn, lists := PlaceGap(zone, bins, prevEnd, tail, prevOwn, Canon(D, start), lists, start);
    if 0 < tail < MIN_BLOCK {
      fragment := fragment + tail;
    }
    BuildingDone(z0, z, zone[..], b0, bins, l0, lists, D, start, end, prevEnd, o0, used, fragment0, fragment);
    P' := P.(bins := bins, usedBytes := used, freeBytes := end - start - used, fragmentBytes := fragment);
  }

  lemma InRangeEmpty(bs: seq<MB>, s: nat, e: nat)
    ensures InRange(bs[..0], s, e) == []
  {
  }

  lemma BlockAt(ds: seq<ObjectDesc>, slots: seq<nat>, i: nat)
    requires Addressed(ds, slots) && i < |slots|
    ensures BlocksOf(ds, slots)[i] == BlockOf(ds, slots[i])
  {
  }

  lemma InRangeStep(bs: seq<MB>, s: nat, e: nat, i: nat, D: seq<MB>)
    requires i < |bs| && D == InRange(bs[..i], s, e)
    ensures InRange(bs[..i + 1], s, e) == (if Inside2(bs[i], s, e) then D + [bs[i]] else D)
    ensures InRange(bs[..i + 1], s, e) <= InRange(bs, s, e)
  {
    assert bs[..i + 1][..i] == bs[..i];
    InRangePrefix(bs, s, e, i + 1);
  }

  lemma BlockFits(D: seq<MB>, nb: MB, W: seq<MB>, s: nat, e: nat)
    requires Ordered(W, s, e) && D + [nb] <= W
    ensures Ordered(D + [nb], s, e) && EndOf(D, s) <= nb.off && (nb.off - EndOf(D, s)) % ALIGN == 0
    ensures MIN_BLOCK <= nb.size && nb.size % ALIGN == 0 && nb.off + nb.size <= e
  {
    PrefixOrdered(D + [nb], W, s, e);
    assert (D + [nb])[|D|] == nb == W[|D|];
    PrefixOrdered(D, W, s, e);
    AlignedSum(nb.off, EndOf(D, s));
  }

  lemma BuildingDone(z0: seq<u32>, z: seq<u32>, z1: seq<u32>, b: TlsfBins, b': TlsfBins, lists: seq<seq<nat>>, lists': seq<seq<nat>>,
                     D: seq<MB>, s: nat, e: nat, prevEnd: nat, prevOwn: nat, used: nat, fragment: nat, fragment': nat)
    requires Building(z0, z, b, lists, D, s, e, prevEnd, prevOwn, used, fragment) && prevEnd <= e
    requires PoolLay(z1, b', Canon(D, s) + Gap(prevEnd, e), lists', s, e)
    requires OutsideKept(z, z1, s, e) && LivePayloadKept(z, z1, Canon(D, s))
    requires fragment' == fragment + if 0 < e - prevEnd < MIN_BLOCK then e - prevEnd else 0
    ensures PoolLay(z1, b', CanonFull(D, s, e), lists', s, e)
    ensures used <= e - s && used == SumSizes(D) && used == Bytes(CanonFull(D, s, e), TLive) && fragment' == Bytes(CanonFull(D, s, e), TSlack)
    ensures OutsideKept(z0, z1, s, e) && PayloadKept(z0, z1, D)
  {
    hide PoolLay, LivePayloadKept, PayloadKept, Gap, Canon;
    CanonLive(D, s, e);
    CanonLiveBytes(D, s, e);
    GapBytes(Canon(D, s), prevEnd, e);
    CanonFullTiles(D, s, e);
    Accounting(CanonFull(D, s, e), s, e);
    PayloadThrough(z0, z, z1, D, Canon(D, s), s, e);
  }
}
