/** How alloc and free rewrite boundary tags: carving a block out of a free block, and
    returning a block with two-sided coalescing, both as a replacement of one aligned stretch
    of the layout. */
module BoundaryTags {
  import opened Base
  import opened Layout

  // What prev_size of a live or free block tells.
  lemma PrevSizeMeaning(z: seq<u32>, L: Lay, s: nat, e: nat, o: nat)
    requires LayoutInv(z, L, s, e) && o in L && !L[o].kind.Slack?
    ensures o + 4 < |z|
    ensures z[o + 4] != 0 ==>
              && z[o + 4] <= o - s && o - z[o + 4] in L && L[o - z[o + 4]].size == z[o + 4]
              && !L[o - z[o + 4]].kind.Slack? && End(L, o - z[o + 4]) == o
    ensures z[o + 4] == 0 ==> forall p :: p in L && End(L, p) == o ==> L[p].kind.Slack?
  {
    hide HeadersOk, Coalesced, Shaped;
    if o != s {
      var p := Predecessor(L, s, e, o);
      assert z[End(L, p) + 4] == PrevWord(L[p]);
      assert p + L[p].size == o;
      forall q | q in L && End(L, q) == o ensures q == p {
        UniqueEnd(L, s, e, p, q);
      }
    }
  }

  // The sub-layout M fits into the stretch [lo, hi) of L with its header words in z'.
  ghost predicate FitsIn(z': seq<u32>, L: Lay, M: Lay, lo: nat, hi: nat, last: nat, e: nat) {
    && lo in L && BlockBoundary(L, e, hi) && lo < hi
    && Tiles(M, lo, hi) && Shaped(M) && Coalesced(M) && HeadersOk(z', M)
    && last in M && End(M, last) == hi && !M[lo].kind.Slack? && !L[lo].kind.Slack?
    && (forall k {:trigger End(M, k)} :: k in M && End(M, k) in M ==>
         !M[End(M, k)].kind.Slack? && End(M, k) + 4 < |z'| && z'[End(M, k) + 4] == PrevWord(M[k]))
    && (hi in L && !L[hi].kind.Slack? ==> hi + 4 < |z'| && z'[hi + 4] == PrevWord(M[last]))
    && (hi in L ==> !(M[last].kind.Free? && L[hi].kind.Free?) && !(M[last].kind.Slack? && L[hi].kind.Slack?))
    && (M[lo].kind.Free? ==> forall p :: p in L && End(L, p) == lo ==> !L[p].kind.Free?)
  }

  // Outside the stretch no header word changed, except prev_size of the block at hi.
  ghost predicate TagsKept(z: seq<u32>, z': seq<u32>, L: Lay, lo: nat, hi: nat) {
    && |z'| == |z|
    && (forall k :: k in L && !(lo <= k < hi) ==> k + 4 < |z| && z'[k] == z[k] && (k != hi ==> z'[k + 4] == z[k + 4]))
    && lo + 4 < |z| && z'[lo + 4] == z[lo + 4]
  }

  lemma ReplacePrev(z: seq<u32>, z': seq<u32>, L: Lay, M: Lay, lo: nat, hi: nat, last: nat, s: nat, e: nat)
    requires LayoutInv(z, L, s, e) && FitsIn(z', L, M, lo, hi, last, e) && TagsKept(z, z', L, lo, hi)
    requires Tiles(Replace(L, M, lo, hi), s, e)
    ensures PrevOk(z', Replace(L, M, lo, hi), s)
  {
    hide LayoutInv, FitsIn, TagsKept, Tiles, Replace, PrevWord;
    var R := Replace(L, M, lo, hi);
    ReplaceRange(z, z', L, M, lo, hi, last, s, e);
    ReplaceStart(z, z', L, M, lo, hi, last, s, e);
    forall o | o in R && End(R, o) in R && !R[End(R, o)].kind.Slack?
      ensures z'[End(R, o) + 4] == PrevWord(R[o])
    {
      ReplacePrevAt(z, z', L, M, lo, hi, last, s, e, o);
    }
  }

  lemma ReplaceRange(z: seq<u32>, z': seq<u32>, L: Lay, M: Lay, lo: nat, hi: nat, last: nat, s: nat, e: nat)
    requires LayoutInv(z, L, s, e) && FitsIn(z', L, M, lo, hi, last, e) && TagsKept(z, z', L, lo, hi)
    requires Tiles(Replace(L, M, lo, hi), s, e)
    ensures forall o :: o in Replace(L, M, lo, hi) ==> o + 4 < |z'|
  {
    hide HeadersOk, PrevOk, Coalesced, PrevWord;
    var R := Replace(L, M, lo, hi);
    forall o | o in R ensures o + 4 < |z'| {
      assert o + R[o].size <= e && (o in M || o in L);
      if o in M { assert M[o].size % ALIGN == 0; } else { assert L[o].size % ALIGN == 0; }
    }
  }

  lemma ReplaceStart(z: seq<u32>, z': seq<u32>, L: Lay, M: Lay, lo: nat, hi: nat, last: nat, s: nat, e: nat)
    requires LayoutInv(z, L, s, e) && FitsIn(z', L, M, lo, hi, last, e) && TagsKept(z, z', L, lo, hi)
    ensures var R := Replace(L, M, lo, hi); s in R && !R[s].kind.Slack? ==> s + 4 < |z'| && z'[s + 4] == 0
  {
    hide HeadersOk, Shaped, Coalesced, PrevWord;
    var R := Replace(L, M, lo, hi);
    if s in R && !R[s].kind.Slack? {
      if s in M { assert s == lo; } else { assert s in L; }
    }
  }

  lemma ReplacePrevAt(z: seq<u32>, z': seq<u32>, L: Lay, M: Lay, lo: nat, hi: nat, last: nat, s: nat, e: nat, o: nat)
    requires LayoutInv(z, L, s, e) && FitsIn(z', L, M, lo, hi, last, e) && TagsKept(z, z', L, lo, hi)
    requires var R := Replace(L, M, lo, hi); o in R && End(R, o) in R && !R[End(R, o)].kind.Slack?
    ensures var R := Replace(L, M, lo, hi); End(R, o) + 4 < |z'| && z'[End(R, o) + 4] == PrevWord(R[o])
  {
    hide HeadersOk, Shaped, Coalesced;
    var R := Replace(L, M, lo, hi);
    var n := End(R, o);
    if o in M {
      assert End(M, o) == n;
      if n !in M {
        assert n == hi;
        assert o == last;
      }
    } else {
      assert End(L, o) == n && n in L;
      if n == lo {
        assert z[n + 4] == PrevWord(L[o]);
      }
    }
  }

  lemma ReplaceCoalesced(z: seq<u32>, z': seq<u32>, L: Lay, M: Lay, lo: nat, hi: nat, last: nat, s: nat, e: nat)
    requires LayoutInv(z, L, s, e) && FitsIn(z', L, M, lo, hi, last, e)
    ensures Coalesced(Replace(L, M, lo, hi))
  {
    hide HeadersOk, PrevOk, Shaped;
    var R := Replace(L, M, lo, hi);
    forall o | o in R && End(R, o) in R
      ensures !(R[o].kind.Free? && R[End(R, o)].kind.Free?)
      ensures !(R[o].kind.Slack? && R[End(R, o)].kind.Slack?)
    {
      var n := End(R, o);
      if o in M {
        assert End(M, o) == n;
        if n !in M {
          assert o == last && n == hi;
        }
      } else {
        assert End(L, o) == n;
      }
    }
  }

  lemma ReplaceInv(z: seq<u32>, z': seq<u32>, L: Lay, M: Lay, lo: nat, hi: nat, last: nat, s: nat, e: nat)
    requires LayoutInv(z, L, s, e) && FitsIn(z', L, M, lo, hi, last, e) && TagsKept(z, z', L, lo, hi)
    ensures LayoutInv(z', Replace(L, M, lo, hi), s, e)
  {
    ReplaceTiles(L, M, lo, hi, s, e);
    ReplacePrev(z, z', L, M, lo, hi, last, s, e);
    ReplaceCoalesced(z, z', L, M, lo, hi, last, s, e);
  }

  // ---- alloc ---------------------------------------------------------------------------

  // The block at o serves a request of `need` bytes for `slot`: split off when the remainder
  // can hold a minimal block, else absorbed whole.
  ghost function Carved(L: Lay, o: nat, need: nat, slot: nat): Lay
    requires o in L && need <= L[o].size
  {
    var size := L[o].size;
    if size - need >= MIN_BLOCK then
      map[o := Blk(need, Live(slot)), o + need := Blk(size - need, Free)]
    else
      map[o := Blk(size, Live(slot))]
  }

  ghost function AfterAlloc(L: Lay, o: nat, need: nat, slot: nat): Lay
    requires o in L && need <= L[o].size
  {
    Replace(L, Carved(L, o, need, slot), o, End(L, o))
  }

  ghost predicate CarveWrites(z: seq<u32>, z': seq<u32>, L: Lay, o: nat, need: nat, e: nat)
    requires o in L && need <= L[o].size && |z'| == |z|
  {
    var size := L[o].size;
    var split := size - need >= MIN_BLOCK;
    && o + size <= |z|
    && o + 4 < |z| && z'[o] == (if split then need else size) && z'[o + 4] == z[o + 4]
    && (split ==> o + need + 4 < |z| && z'[o + need] == size - need + 1 && z'[o + need + 4] == need)
    && (o + size < e ==> o + size + 4 < |z| && z'[o + size + 4] == (if split then size - need else size))
    && TagsKept(z, z', L, o, o + size)
  }

  lemma AllocKeepsLayout(z: seq<u32>, z': seq<u32>, L: Lay, s: nat, e: nat, o: nat, need: nat, slot: nat)
    requires LayoutInv(z, L, s, e) && o in L && L[o].kind.Free?
    requires need % ALIGN == 0 && MIN_BLOCK <= need <= L[o].size && |z'| == |z|
    requires CarveWrites(z, z', L, o, need, e)
    ensures LayoutInv(z', AfterAlloc(L, o, need, slot), s, e)
  {
    var M := Carved(L, o, need, slot);
    var size := L[o].size;
    var last := if size - need >= MIN_BLOCK then o + need else o;
    assert End(L, o) == o + size;
    CarvedFits(z, z', L, s, e, o, need, slot);
    ReplaceInv(z, z', L, M, o, o + size, last, s, e);
  }

  lemma CarvedFits(z: seq<u32>, z': seq<u32>, L: Lay, s: nat, e: nat, o: nat, need: nat, slot: nat)
    requires LayoutInv(z, L, s, e) && o in L && L[o].kind.Free?
    requires need % ALIGN == 0 && MIN_BLOCK <= need <= L[o].size && |z'| == |z|
    requires CarveWrites(z, z', L, o, need, e)
    ensures FitsIn(z', L, Carved(L, o, need, slot), o, o + L[o].size,
                   if L[o].size - need >= MIN_BLOCK then o + need else o, e)
  {
    hide PrevOk, Tiles, Shaped, Coalesced, HeadersOk;
    var M := Carved(L, o, need, slot);
    CarvedShape(L, s, e, o, need, slot);
    CarvedHeaders(z, z', L, o, need, slot, e);
    CarvedEdge(L, s, e, o);
  }

  lemma CarvedHeaders(z: seq<u32>, z': seq<u32>, L: Lay, o: nat, need: nat, slot: nat, e: nat)
    requires o in L && L[o].kind.Free? && 0 < need <= L[o].size && |z'| == |z| && CarveWrites(z, z', L, o, need, e)
    ensures HeadersOk(z', Carved(L, o, need, slot))
  {
  }

  // What follows a free block: the window's end, or a block that is not free.
  lemma CarvedEdge(L: Lay, s: nat, e: nat, o: nat)
    requires Tiles(L, s, e) && Coalesced(L) && o in L && L[o].kind.Free?
    ensures End(L, o) == o + L[o].size && BlockBoundary(L, e, o + L[o].size) && 0 < L[o].size
    ensures o + L[o].size in L ==> o + L[o].size < e && !L[o + L[o].size].kind.Free?
  {
  }

  lemma CarvedShape(L: Lay, s: nat, e: nat, o: nat, need: nat, slot: nat)
    requires Tiles(L, s, e) && Shaped(L) && o in L && L[o].kind.Free?
    requires need % ALIGN == 0 && MIN_BLOCK <= need <= L[o].size
    ensures var M, hi := Carved(L, o, need, slot), o + L[o].size;
            && Tiles(M, o, hi) && Shaped(M) && Coalesced(M)
            && (if L[o].size - need >= MIN_BLOCK then End(M, o) == o + need && End(M, o + need) == hi else End(M, o) == hi)
  {
    var M := Carved(L, o, need, slot);
    assert o % ALIGN == 0 && L[o].size % ALIGN == 0 && L[o].size < ZONE_LIMIT;
    hide Tiles;
    if L[o].size - need >= MIN_BLOCK {
      AlignedSum(o, need);
      AlignedSum(L[o].size, need);
      assert Shaped(M);
      TwoBlocks(M, o, o + need, o + L[o].size);
    } else {
      OneBlock(M, o, o + L[o].size);
    }
  }

  lemma OneBlock(M: Lay, lo: nat, hi: nat)
    requires lo < hi && M.Keys == {lo} && M[lo].size == hi - lo
    ensures Tiles(M, lo, hi) && Coalesced(M) && End(M, lo) == hi
  {
  }

  lemma TwoBlocks(M: Lay, lo: nat, mid: nat, hi: nat)
    requires lo < mid < hi && M.Keys == {lo, mid} && M[lo].size == mid - lo && M[mid].size == hi - mid
    requires M[lo].kind.Live?
    ensures Tiles(M, lo, hi) && Coalesced(M) && End(M, lo) == mid && End(M, mid) == hi
  {
  }

  lemma AloneInStretch(L: Lay, s: nat, e: nat, o: nat)
    requires Tiles(L, s, e) && o in L
    ensures FreeMap(Outside(L, o, End(L, o))) == FreeMap(L) - {o}
  {
  }

  lemma CarvedFreeMap(L: Lay, o: nat, need: nat, slot: nat)
    requires o in L && 0 < need <= L[o].size
    ensures FreeMap(Carved(L, o, need, slot)) ==
            if L[o].size - need >= MIN_BLOCK then map[o + need := L[o].size - need] else map[]
  {
  }

  lemma CarvedInside(L: Lay, o: nat, need: nat, slot: nat)
    requires o in L && 0 < need <= L[o].size
    ensures forall k :: k in Carved(L, o, need, slot) ==> o <= k < End(L, o)
  {
  }

  lemma AllocFreeMap(L: Lay, s: nat, e: nat, o: nat, need: nat, slot: nat)
    requires Tiles(L, s, e) && o in L && L[o].kind.Free? && 0 < need <= L[o].size
    ensures FreeMap(AfterAlloc(L, o, need, slot)) ==
            if L[o].size - need >= MIN_BLOCK then (FreeMap(L) - {o})[o + need := L[o].size - need]
            else FreeMap(L) - {o}
  {
    hide FreeMap, Outside, Replace, Tiles, Carved;
    var M := Carved(L, o, need, slot);
    AloneInStretch(L, s, e, o);
    CarvedInside(L, o, need, slot);
    ReplaceFreeMap(L, M, o, End(L, o));
    CarvedFreeMap(L, o, need, slot);
    MapPut(FreeMap(L) - {o}, o + need, L[o].size - need);
  }

  // ---- free ----------------------------------------------------------------------------

  // The stretch that freeing the live block at o returns: its free neighbours join it.
  ghost function MergeLo(z: seq<u32>, L: Lay, o: nat): nat
    requires o + 4 < |z|
  {
    var psize: nat := z[o + 4];
    if psize != 0 && psize <= o && o - psize in L && L[o - psize].kind.Free? then o - psize else o
  }

  ghost function MergeHi(L: Lay, o: nat): nat
    requires o in L
  {
    if End(L, o) in L && L[End(L, o)].kind.Free? then End(L, End(L, o)) else End(L, o)
  }

  ghost function AfterFree(z: seq<u32>, L: Lay, o: nat): Lay
    requires o in L && o + 4 < |z|
  {
    Replace(L, map[MergeLo(z, L, o) := Blk(MergeHi(L, o) - MergeLo(z, L, o), Free)], MergeLo(z, L, o), MergeHi(L, o))
  }

  lemma MergeBounds(z: seq<u32>, L: Lay, s: nat, e: nat, o: nat)
    requires LayoutInv(z, L, s, e) && o in L && L[o].kind.Live?
    ensures o + 4 < |z|
    ensures var lo, hi := MergeLo(z, L, o), MergeHi(L, o);
            && lo in L && !L[lo].kind.Slack? && BlockBoundary(L, e, hi) && s <= lo <= o < End(L, o) <= hi <= e
            && (hi in L ==> !L[hi].kind.Free?)
            && (forall p :: p in L && End(L, p) == lo ==> !L[p].kind.Free?)
            && (lo != o ==> End(L, lo) == o)
            && lo % ALIGN == 0 && hi % ALIGN == 0 && lo + MIN_BLOCK <= hi
  {
    PrevSizeMeaning(z, L, s, e, o);
    var lo, hi := MergeLo(z, L, o), MergeHi(L, o);
    var n := End(L, o);
    if n in L && L[n].kind.Free? {
      assert End(L, n) == hi;
    }
    forall p | p in L && End(L, p) == lo ensures !L[p].kind.Free? {
      assert lo == o ==> z[o + 4] == PrevWord(L[p]);
    }
  }

  lemma FreeKeepsLayout(z: seq<u32>, z': seq<u32>, L: Lay, s: nat, e: nat, o: nat)
    requires LayoutInv(z, L, s, e) && o in L && L[o].kind.Live? && o + 4 < |z|
    requires var lo, hi := MergeLo(z, L, o), MergeHi(L, o);
             && lo <= hi && lo + 4 < |z| && |z'| == |z| && z'[lo] == hi - lo + 1
             && (hi < e ==> hi + 4 < |z| && z'[hi + 4] == hi - lo)
             && TagsKept(z, z', L, lo, hi)
    ensures LayoutInv(z', AfterFree(z, L, o), s, e)
  {
    hide HeadersOk, PrevOk, Coalesced, Shaped, Tiles, MergeLo, MergeHi, FitsIn, TagsKept, Replace;
    MergeBounds(z, L, s, e, o);
    var lo, hi := MergeLo(z, L, o), MergeHi(L, o);
    var M := map[lo := Blk(hi - lo, Free)];
    MergedFits(z', L, M, lo, hi, s, e);
    ReplaceInv(z, z', L, M, lo, hi, lo, s, e);
  }

  lemma MergedFits(z': seq<u32>, L: Lay, M: Lay, lo: nat, hi: nat, s: nat, e: nat)
    requires Tiles(L, s, e) && e <= |z'| <= ZONE_LIMIT && lo in L && !L[lo].kind.Slack? && BlockBoundary(L, e, hi)
    requires lo + MIN_BLOCK <= hi <= e && lo % ALIGN == 0 && hi % ALIGN == 0 && hi - lo < ZONE_LIMIT
    requires M == map[lo := Blk(hi - lo, Free)]
    requires hi in L ==> !L[hi].kind.Free?
    requires forall p :: p in L && End(L, p) == lo ==> !L[p].kind.Free?
    requires z'[lo] == hi - lo + 1 && (hi < e ==> hi + 4 < |z'| && z'[hi + 4] == hi - lo)
    ensures FitsIn(z', L, M, lo, hi, lo, e)
  {
    assert End(M, lo) == hi;
  }

  // The stretch holds the freed block and the free neighbours that join it, nothing else.
  lemma MergeMembers(z: seq<u32>, L: Lay, s: nat, e: nat, o: nat)
    requires LayoutInv(z, L, s, e) && o in L && L[o].kind.Live? && o + 4 < |z|
    ensures var lo, hi, n := MergeLo(z, L, o), MergeHi(L, o), End(L, o);
            && lo <= o < n <= hi && lo in L
            && (forall k :: k in L && lo <= k < hi ==> k == lo || k == o || k == n)
            && (forall k :: k in L && lo <= k < hi && L[k].kind.Live? ==> k == o)
            && (lo in FreeMap(L) <==> lo != o)
            && (n in FreeMap(L) <==> hi != n)
            && hi - lo == (if lo != o then L[lo].size else 0) + L[o].size + (if hi != n then L[n].size else 0)
  {
    hide HeadersOk, PrevOk, Coalesced, Shaped;
    MergeBounds(z, L, s, e, o);
    var lo, hi, n := MergeLo(z, L, o), MergeHi(L, o), End(L, o);
    if lo != o { assert lo + L[lo].size == o; }
    if hi != n { assert n + L[n].size == hi; }
  }

  lemma FreeFreeMap(z: seq<u32>, L: Lay, s: nat, e: nat, o: nat)
    requires LayoutInv(z, L, s, e) && o in L && L[o].kind.Live? && o + 4 < |z|
    ensures MergeLo(z, L, o) <= MergeHi(L, o)
    ensures FreeMap(AfterFree(z, L, o)) ==
            (FreeMap(L) - {MergeLo(z, L, o)} - {End(L, o)})[MergeLo(z, L, o) := MergeHi(L, o) - MergeLo(z, L, o)]
  {
    hide LayoutInv, MergeLo, MergeHi, Replace, Outside, FreeMap;
    MergeMembers(z, L, s, e, o);
    InsideStretch(z, L, s, e, o);
    var lo, hi, n := MergeLo(z, L, o), MergeHi(L, o), End(L, o);
    var M := map[lo := Blk(hi - lo, Free)];
    ReplaceFreeMap(L, M, lo, hi);
    SingleFree(lo, hi - lo);
    StretchFreeMap(L, lo, o, n, hi);
    MapPut(FreeMap(L) - {lo} - {n}, lo, hi - lo);
  }

  lemma InsideStretch(z: seq<u32>, L: Lay, s: nat, e: nat, o: nat)
    requires LayoutInv(z, L, s, e) && o in L && L[o].kind.Live? && o + 4 < |z|
    ensures End(L, o) in FreeMap(L) ==> End(L, o) < MergeHi(L, o)
  {
    hide HeadersOk, PrevOk, Coalesced, Shaped;
  }

  lemma SingleFree(o: nat, n: nat)
    ensures FreeMap(map[o := Blk(n, Free)]) == map[o := n]
  {
  }

  lemma StretchFreeMap(L: Lay, lo: nat, o: nat, n: nat, hi: nat)
    requires o in L && L[o].kind.Live? && lo < hi && (n in FreeMap(L) ==> n < hi)
    requires lo <= o < n <= hi
    requires forall k :: k in L && lo <= k < hi ==> k == lo || k == o || k == n
    ensures FreeMap(Outside(L, lo, hi)) == FreeMap(L) - {lo} - {n}
  {
  }

  // alloc followed at once by free of the same block restores the layout it started from.
  lemma AllocFreeRestores(z: seq<u32>, z': seq<u32>, L: Lay, s: nat, e: nat, o: nat, need: nat, slot: nat)
    requires LayoutInv(z, L, s, e) && o in L && L[o].kind.Free? && 0 < need <= L[o].size
    requires LayoutInv(z', AfterAlloc(L, o, need, slot), s, e) && o + 4 < |z'|
    ensures AfterFree(z', AfterAlloc(L, o, need, slot), o) == L
  {
    hide LayoutInv, MergeLo, MergeHi, Replace;
    var A := AfterAlloc(L, o, need, slot);
    AllocatedAt(L, o, need, slot);
    NoMergeBelow(z, z', L, s, e, o, need, slot);
    MergesRemainder(z, z', L, s, e, o, need, slot);
    assert AfterFree(z', A, o) == Replace(A, map[o := Blk(L[o].size, Free)], o, o + L[o].size);
    AloneIn(z, L, s, e, o);
    RestoreMap(L, Carved(L, o, need, slot), o, o + L[o].size);
  }

  lemma AloneIn(z: seq<u32>, L: Lay, s: nat, e: nat, o: nat)
    requires LayoutInv(z, L, s, e) && o in L
    ensures forall k :: k in L && o <= k < o + L[o].size ==> k == o
  {
    hide HeadersOk, PrevOk, Shaped, Coalesced;
  }

  lemma AllocatedAt(L: Lay, o: nat, need: nat, slot: nat)
    requires o in L && 0 < need <= L[o].size
    ensures var A := AfterAlloc(L, o, need, slot);
            && o in A && A[o].kind == Live(slot)
            && (forall k :: k in A && !(o <= k < End(L, o)) ==> k in L && A[k] == L[k])
            && (forall k :: k in L && !(o <= k < End(L, o)) ==> k in A)
  {
  }

  lemma RestoreMap(L: Lay, M: Lay, o: nat, hi: nat)
    requires o in L && L[o].kind.Free? && hi == o + L[o].size
    requires forall k :: k in M ==> o <= k < hi
    requires forall k :: k in L && o <= k < hi ==> k == o
    ensures Replace(Replace(L, M, o, hi), map[o := Blk(hi - o, Free)], o, hi) == L
  {
  }

  lemma NoMergeBelow(z: seq<u32>, z': seq<u32>, L: Lay, s: nat, e: nat, o: nat, need: nat, slot: nat)
    requires LayoutInv(z, L, s, e) && o in L && L[o].kind.Free? && 0 < need <= L[o].size
    requires LayoutInv(z', AfterAlloc(L, o, need, slot), s, e) && o + 4 < |z'|
    ensures o in AfterAlloc(L, o, need, slot) && MergeLo(z', AfterAlloc(L, o, need, slot), o) == o
  {
    hide HeadersOk, PrevOk, Shaped, Tiles, AfterAlloc;
    var A := AfterAlloc(L, o, need, slot);
    AllocatedAt(L, o, need, slot);
    MergeBounds(z', A, s, e, o);
    assert forall p :: p in L && End(L, p) == o ==> !L[p].kind.Free?;
  }

  lemma MergesRemainder(z: seq<u32>, z': seq<u32>, L: Lay, s: nat, e: nat, o: nat, need: nat, slot: nat)
    requires LayoutInv(z, L, s, e) && o in L && L[o].kind.Free? && 0 < need <= L[o].size
    requires LayoutInv(z', AfterAlloc(L, o, need, slot), s, e) && o + 4 < |z'|
    ensures o in AfterAlloc(L, o, need, slot) && MergeHi(AfterAlloc(L, o, need, slot), o) == o + L[o].size
  {
    hide HeadersOk, PrevOk, Shaped, Tiles;
    AllocatedAt(L, o, need, slot);
    var A := AfterAlloc(L, o, need, slot);
    var hi := o + L[o].size;
    assert End(L, o) == hi;
    if L[o].size - need >= MIN_BLOCK {
      assert o + need in A && A[o + need] == Blk(L[o].size - need, Free);
      assert A[o].size == need;
    } else {
      assert A[o].size == L[o].size;
      assert hi in A ==> hi in L && A[hi] == L[hi];
    }
  }
}
