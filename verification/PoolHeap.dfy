/** One pool window with its boundary tags and its bins: the block-level halves of alloc and
    free, on the zone words themselves. */
module PoolHeap {
  import opened Base
  import opened SizeClass
  import opened Bins
  import opened Layout
  import opened BoundaryTags

  // The zone words and the bins of a window represent layout L with bin contents `lists`.
  ghost predicate PoolLay(z: seq<u32>, b: TlsfBins, L: Lay, lists: seq<seq<nat>>, s: nat, e: nat) {
    LayoutInv(z, L, s, e) && BinsInv(z, b, lists, FreeMap(L))
  }

  // Writing links of free blocks touches no boundary tag, no live payload and nothing outside
  // the window.
  lemma LinksInside(z: seq<u32>, z': seq<u32>, L: Lay, S: set<nat>, s: nat, e: nat)
    requires Tiles(L, s, e) && Shaped(L) && e <= |z| && SameExceptLinks(z, z', S)
    requires forall o :: o in S ==> o in L && L[o].kind.Free?
    ensures forall k :: k in L ==> k + 4 < |z| && z'[k] == z[k] && z'[k + 4] == z[k + 4]
    ensures forall c :: 0 <= c < |z| && !(s <= c < e) ==> z'[c] == z[c]
    ensures LivePayloadKept(z, z', L)
  {
    hide Tiles, Shaped, LivePayloadKept;
    BlockSpans(L, s, e);
    forall k | k in L ensures k + 4 < |z| && z'[k] == z[k] && z'[k + 4] == z[k + 4] {
      assert k - 8 !in S && k - 12 !in S && k + 4 - 8 !in S && k + 4 - 12 !in S;
    }
    PayloadClear(z, z', L, S);
  }

  // Sizes and distances of the blocks of a window.
  lemma BlockSpans(L: Lay, s: nat, e: nat)
    requires Tiles(L, s, e) && Shaped(L)
    ensures forall k :: k in L ==> s <= k && 8 <= L[k].size && k + L[k].size <= e && (!L[k].kind.Slack? ==> MIN_BLOCK <= L[k].size)
    ensures forall a, b :: a in L && b in L && a < b ==> a + L[a].size <= b
  {
    forall k | k in L ensures 8 <= L[k].size {
      assert L[k].size % ALIGN == 0;
    }
  }

  lemma PayloadClear(z: seq<u32>, z': seq<u32>, L: Lay, S: set<nat>)
    requires SameExceptLinks(z, z', S) && forall o :: o in S ==> o in L && L[o].kind.Free?
    requires forall k :: k in L ==> !L[k].kind.Slack? ==> MIN_BLOCK <= L[k].size
    requires forall a, b :: a in L && b in L && a < b ==> a + L[a].size <= b
    ensures LivePayloadKept(z, z', L)
  {
  }

  lemma FreeLinksInside(z: seq<u32>, z': seq<u32>, L: Lay, s: nat, e: nat)
    requires Tiles(L, s, e) && Shaped(L) && e <= |z| && SameExceptLinks(z, z', FreeMap(L).Keys)
    ensures |z'| == |z| && forall k :: k in L ==> k + 4 < |z| && z'[k] == z[k] && z'[k + 4] == z[k + 4] && L[k].size >= 8
    ensures forall c :: 0 <= c < |z| && !(s <= c < e) ==> z'[c] == z[c]
    ensures LivePayloadKept(z, z', L)
  {
    LinksInside(z, z', L, FreeMap(L).Keys, s, e);
    forall k | k in L ensures L[k].size >= 8 {
      assert L[k].size % ALIGN == 0;
    }
  }

  // The payload words of every live block of L are the same in z and z'.
  ghost predicate LivePayloadKept(z: seq<u32>, z': seq<u32>, L: Lay) {
    forall k, c :: k in L && L[k].kind.Live? && k + HEADER <= c < k + L[k].size && c < |z| && c < |z'| ==> z'[c] == z[c]
  }

  ghost predicate OutsideKept(z: seq<u32>, z': seq<u32>, s: nat, e: nat) {
    |z'| == |z| && forall c :: 0 <= c < |z| && !(s <= c < e) ==> z'[c] == z[c]
  }

  // ---- the block half of alloc -----------------------------------------------------------

  lemma AllocTiles(L: Lay, s: nat, e: nat, o: nat, need: nat, slot: nat)
    requires Tiles(L, s, e) && Shaped(L) && o in L && L[o].kind.Free?
    requires need % ALIGN == 0 && MIN_BLOCK <= need <= L[o].size
    ensures var A := AfterAlloc(L, o, need, slot);
            Tiles(A, s, e) && Shaped(A) && o in A && A[o].kind == Live(slot)
  {
    CarvedShape(L, s, e, o, need, slot);
    ReplaceTiles(L, Carved(L, o, need, slot), o, End(L, o), s, e);
  }

  // z' differs from z only at the words listed in W.
  ghost predicate SameExcept(z: seq<u32>, z': seq<u32>, W: set<nat>) {
    |z'| == |z| && forall c :: 0 <= c < |z| && c !in W ==> z'[c] == z[c]
  }

  // A stretch of words inside one free block can be written without disturbing other bins.
  lemma WriteInsideBlock(z: seq<u32>, z': seq<u32>, L: Lay, s: nat, e: nat, o: nat, F: map<nat, nat>)
    requires Tiles(L, s, e) && Shaped(L) && o in L && e <= |z| && |z'| == |z|
    requires forall c :: 0 <= c < |z| && !(o <= c < o + L[o].size) ==> z'[c] == z[c]
    requires forall f :: f in F ==> f in L && f != o && L[f].kind.Free?
    ensures forall f :: f in F ==> f + MIN_BLOCK <= |z| && z'[f] == z[f] && z'[f + 8] == z[f + 8] && z'[f + 12] == z[f + 12]
  {
  }

  // Header words of blocks that are not binned can be written without disturbing the bins.
  lemma WriteHeaders(z: seq<u32>, z': seq<u32>, L: Lay, s: nat, e: nat, W: set<nat>, F: map<nat, nat>)
    requires Tiles(L, s, e) && Shaped(L) && e <= |z| && SameExcept(z, z', W)
    requires forall f :: f in F ==> f in L && L[f].kind.Free?
    requires forall c :: c in W ==> (c in L && !L[c].kind.Free?) || (c >= 4 && c - 4 in L && !L[c - 4].kind.Free?)
    ensures forall f :: f in F ==> f + MIN_BLOCK <= |z| && z'[f] == z[f] && z'[f + 8] == z[f + 8] && z'[f + 12] == z[f + 12]
  {
    forall f | f in F
      ensures f + MIN_BLOCK <= |z| && z'[f] == z[f] && z'[f + 8] == z[f + 8] && z'[f + 12] == z[f + 12]
    {
      forall c | c in W ensures c != f && c != f + 8 && c != f + 12 {
        if c in L && !L[c].kind.Free? {
          assert c != f && (c < f ==> c + L[c].size <= f) && (f < c ==> f + L[f].size <= c);
        } else {
          var k := c - 4;
          assert k != f && L[k].size % ALIGN == 0 && L[k].size > 0;
          assert (k < f ==> k + L[k].size <= f) && (f < k ==> f + L[f].size <= k);
        }
      }
    }
  }

  // The zone after the split path of alloc, in its four steps.
  ghost predicate SplitSteps(z0: seq<u32>, z1: seq<u32>, z2: seq<u32>, z3: seq<u32>, z4: seq<u32>,
                             L: Lay, o: nat, need: nat, slot: nat, e: nat)
    requires o in L && need + MIN_BLOCK <= L[o].size
  {
    var rem, rsize, after := o + need, L[o].size - need, End(L, o);
    && SameExceptLinks(z0, z1, FreeMap(L).Keys)
    && SameExcept(z1, z2, {rem, rem + 4, rem + 8, rem + 12}) && rem + 4 < |z2| && z2[rem] == rsize + 1 && z2[rem + 4] == need
    && SameExceptLinks(z2, z3, FreeMap(AfterAlloc(L, o, need, slot)).Keys)
    && SameExcept(z3, z4, {o, o + 4} + if after < e then {after + 4} else {})
    && o + 4 < |z1| && z4[o] == need && z4[o + 4] == z1[o + 4]
    && (after < e ==> after + 4 < |z4| && z4[after + 4] == rsize)
  }

  lemma SplitTags(z0: seq<u32>, z1: seq<u32>, z2: seq<u32>, z3: seq<u32>, z4: seq<u32>,
                  L: Lay, s: nat, e: nat, o: nat, need: nat, slot: nat)
    requires LayoutInv(z0, L, s, e) && o in L && L[o].kind.Free?
    requires need % ALIGN == 0 && MIN_BLOCK <= need && need + MIN_BLOCK <= L[o].size
    requires SplitSteps(z0, z1, z2, z3, z4, L, o, need, slot, e)
    ensures |z4| == |z0| && CarveWrites(z0, z4, L, o, need, e)
    ensures OutsideKept(z0, z4, s, e) && LivePayloadKept(z0, z4, L)
  {
    hide SameExceptLinks, AfterAlloc, LivePayloadKept, Shaped, Coalesced, HeadersOk, PrevOk, FreeMap, CarveWrites, OutsideKept, Tiles;
    var A := AfterAlloc(L, o, need, slot);
    FreeLinksInside(z0, z1, L, s, e);
    AllocTiles(L, s, e, o, need, slot);
    FreeLinksInside(z2, z3, A, s, e);
    AllocatedAt(L, o, need, slot);
    AloneIn(z0, L, s, e, o);
    RemainderAt(L, o, need, slot);
    assert End(L, o) == o + L[o].size;
    SplitKept(z0, z1, z2, z3, z4, L, s, e, o, need, slot);
    CarvePayload(z0, z1, z2, z3, z4, L, s, e, o, need, slot);
  }

  lemma RemainderAt(L: Lay, o: nat, need: nat, slot: nat)
    requires o in L && 0 < need && need + MIN_BLOCK <= L[o].size
    ensures o + need in AfterAlloc(L, o, need, slot)
  {
  }

  lemma SplitKept(z0: seq<u32>, z1: seq<u32>, z2: seq<u32>, z3: seq<u32>, z4: seq<u32>,
                  L: Lay, s: nat, e: nat, o: nat, need: nat, slot: nat)
    requires Tiles(L, s, e) && o in L && MIN_BLOCK <= need && need + MIN_BLOCK <= L[o].size && e <= |z0|
    requires SplitSteps(z0, z1, z2, z3, z4, L, o, need, slot, e) && End(L, o) == o + L[o].size
    requires |z0| == |z1| == |z2| == |z3| == |z4|
    requires forall k :: k in L ==> k + 4 < |z0| && z1[k] == z0[k] && z1[k + 4] == z0[k + 4] && L[k].size >= 8
    requires forall k :: k in L ==> k + 4 < |z0| && z3[k] == z2[k] && z3[k + 4] == z2[k + 4]
    requires o + need + 4 < |z0| && z3[o + need] == z2[o + need] && z3[o + need + 4] == z2[o + need + 4]
    requires forall c :: 0 <= c < |z0| && !(s <= c < e) ==> z1[c] == z0[c] && z3[c] == z2[c]
    ensures CarveWrites(z0, z4, L, o, need, e) && OutsideKept(z0, z4, s, e)
  {
    hide SameExceptLinks, AfterAlloc, FreeMap, OutsideKept;
    SplitOutside(z0, z1, z2, z3, z4, L, s, e, o, need, slot);
    SplitOthers(z0, z1, z2, z3, z4, L, s, e, o, need, slot);
    var rem := o + need;
    assert z4[rem] == z3[rem] && z4[rem + 4] == z3[rem + 4];
    assert z1[o + 4] == z0[o + 4];
  }

  // The tags of the other blocks, but for the back link of the block behind.
  lemma SplitOthers(z0: seq<u32>, z1: seq<u32>, z2: seq<u32>, z3: seq<u32>, z4: seq<u32>,
                    L: Lay, s: nat, e: nat, o: nat, need: nat, slot: nat)
    requires Tiles(L, s, e) && o in L && MIN_BLOCK <= need && need + MIN_BLOCK <= L[o].size && End(L, o) == o + L[o].size
    requires SplitSteps(z0, z1, z2, z3, z4, L, o, need, slot, e) && |z0| == |z1| == |z2| == |z3| == |z4|
    requires forall k :: k in L ==> k + 4 < |z0| && z1[k] == z0[k] && z1[k + 4] == z0[k + 4] && L[k].size >= 8
    requires forall k :: k in L ==> k + 4 < |z0| && z3[k] == z2[k] && z3[k + 4] == z2[k + 4]
    ensures forall k :: k in L && !(o <= k < o + L[o].size) ==>
              k + 4 < |z0| && z4[k] == z0[k] && (k != o + L[o].size ==> z4[k + 4] == z0[k + 4])
  {
    hide SameExceptLinks, AfterAlloc, FreeMap;
    var size := L[o].size;
    forall k | k in L && !(o <= k < o + size)
      ensures k + 4 < |z0| && z4[k] == z0[k] && (k != o + size ==> z4[k + 4] == z0[k + 4])
    {
      assert k < o ==> k + L[k].size <= o;
      assert z2[k] == z1[k] && z2[k + 4] == z1[k + 4];
    }
  }

  lemma SplitOutside(z0: seq<u32>, z1: seq<u32>, z2: seq<u32>, z3: seq<u32>, z4: seq<u32>,
                     L: Lay, s: nat, e: nat, o: nat, need: nat, slot: nat)
    requires Tiles(L, s, e) && o in L && MIN_BLOCK <= need && need + MIN_BLOCK <= L[o].size && End(L, o) == o + L[o].size
    requires SplitSteps(z0, z1, z2, z3, z4, L, o, need, slot, e) && |z0| == |z1| == |z2| == |z3| == |z4|
    requires forall k :: k in L ==> k + 4 < |z0| && L[k].size >= 8
    requires forall c :: 0 <= c < |z0| && !(s <= c < e) ==> z1[c] == z0[c] && z3[c] == z2[c]
    ensures OutsideKept(z0, z4, s, e)
  {
    hide SameExceptLinks, AfterAlloc, FreeMap;
    forall c | 0 <= c < |z0| && !(s <= c < e) ensures z4[c] == z0[c] {
      assert z2[c] == z1[c] && z4[c] == z3[c];
    }
  }

  lemma CarvePayload(z0: seq<u32>, z1: seq<u32>, z2: seq<u32>, z3: seq<u32>, z4: seq<u32>,
                     L: Lay, s: nat, e: nat, o: nat, need: nat, slot: nat)
    requires Tiles(L, s, e) && o in L && L[o].kind.Free? && MIN_BLOCK <= need && need + MIN_BLOCK <= L[o].size && e <= |z0|
    requires SplitSteps(z0, z1, z2, z3, z4, L, o, need, slot, e) && End(L, o) == o + L[o].size
    requires |z0| == |z1| == |z2| == |z3| == |z4|
    requires LivePayloadKept(z0, z1, L) && LivePayloadKept(z2, z3, AfterAlloc(L, o, need, slot))
    requires forall k :: k in L && !(o <= k < End(L, o)) ==> k in AfterAlloc(L, o, need, slot) && AfterAlloc(L, o, need, slot)[k] == L[k]
    ensures LivePayloadKept(z0, z4, L)
  {
    hide SameExceptLinks, AfterAlloc, FreeMap;
    forall k, c | k in L && L[k].kind.Live? && k + HEADER <= c < k + L[k].size && c < |z0|
      ensures z4[c] == z0[c]
    {
      assert k != o && (k < o ==> k + L[k].size <= o) && (o < k ==> o + L[o].size <= k);
      assert z1[c] == z0[c];
      assert z2[c] == z1[c];
      assert z3[c] == z2[c];
    }
  }

  // The whole block is handed out: nothing but its own header and its successor's prev_size
  // changes after the unlink.
  lemma AbsorbTags(z0: seq<u32>, z1: seq<u32>, z4: seq<u32>, L: Lay, s: nat, e: nat, o: nat, need: nat)
    requires LayoutInv(z0, L, s, e) && o in L && L[o].kind.Free? && need <= L[o].size < need + MIN_BLOCK
    requires SameExceptLinks(z0, z1, FreeMap(L).Keys) && End(L, o) == o + L[o].size
    requires SameExcept(z1, z4, {o, o + 4} + if End(L, o) < e then {End(L, o) + 4} else {})
    requires o + 4 < |z1| && z4[o] == L[o].size && z4[o + 4] == z1[o + 4]
    requires End(L, o) < e ==> End(L, o) + 4 < |z4| && z4[End(L, o) + 4] == L[o].size
    ensures |z4| == |z0| && CarveWrites(z0, z4, L, o, need, e)
    ensures OutsideKept(z0, z4, s, e) && LivePayloadKept(z0, z4, L)
  {
    hide SameExceptLinks, FreeMap, LayoutInv, LivePayloadKept, CarveWrites, OutsideKept, Tiles, Shaped;
    TilesOf(z0, L, s, e);
    FreeLinksInside(z0, z1, L, s, e);
    AbsorbWrites(z0, z1, z4, L, s, e, o, need);
    AbsorbPayload(z0, z1, z4, L, s, e, o);
  }

  lemma AbsorbWrites(z0: seq<u32>, z1: seq<u32>, z4: seq<u32>, L: Lay, s: nat, e: nat, o: nat, need: nat)
    requires Tiles(L, s, e) && Shaped(L) && e <= |z0| == |z1| && o in L && L[o].kind.Free? && need <= L[o].size < need + MIN_BLOCK && End(L, o) == o + L[o].size
    requires forall k :: k in L ==> k + 4 < |z0| && z1[k] == z0[k] && z1[k + 4] == z0[k + 4]
    requires forall c :: 0 <= c < |z0| && !(s <= c < e) ==> z1[c] == z0[c]
    requires SameExcept(z1, z4, {o, o + 4} + if End(L, o) < e then {End(L, o) + 4} else {})
    requires o + 4 < |z1| && z4[o] == L[o].size && z4[o + 4] == z1[o + 4]
    requires End(L, o) < e ==> End(L, o) + 4 < |z4| && z4[End(L, o) + 4] == L[o].size
    ensures CarveWrites(z0, z4, L, o, need, e) && OutsideKept(z0, z4, s, e)
  {
    BlockSpans(L, s, e);
    AfterInside(L, s, e, o);
    hide Tiles, Shaped;
    forall k | k in L && !(o <= k < o + L[o].size)
      ensures z4[k] == z0[k] && (k != o + L[o].size ==> z4[k + 4] == z0[k + 4])
    {
      assert k < o ==> k + L[k].size <= o;
    }
  }

  lemma AfterInside(L: Lay, s: nat, e: nat, o: nat)
    requires Tiles(L, s, e) && Shaped(L) && o in L
    ensures End(L, o) < e ==> End(L, o) in L && End(L, o) + 8 <= e
  {
  }

  lemma AbsorbPayload(z0: seq<u32>, z1: seq<u32>, z4: seq<u32>, L: Lay, s: nat, e: nat, o: nat)
    requires Tiles(L, s, e) && Shaped(L) && o in L && L[o].kind.Free? && End(L, o) == o + L[o].size && |z0| == |z1|
    requires LivePayloadKept(z0, z1, L)
    requires SameExcept(z1, z4, {o, o + 4} + if End(L, o) < e then {End(L, o) + 4} else {})
    ensures LivePayloadKept(z0, z4, L)
  {
    BlockSpans(L, s, e);
    AfterInside(L, s, e, o);
    hide Tiles, Shaped;
    forall k, c | k in L && L[k].kind.Live? && k + HEADER <= c < k + L[k].size && c < |z0|
      ensures z4[c] == z0[c]
    {
      assert k != o && (k < o ==> k + L[k].size <= o) && (o < k ==> o + L[o].size <= k);
      assert z1[c] == z0[c];
    }
  }

  // The bins lose only `o`, and gain only the remainder.
  lemma BinnedOthers(L: Lay, o: nat)
    ensures forall f :: f in FreeMap(L) - {o} ==> f in L && f != o && L[f].kind.Free?
  {
  }

  lemma RemainderBinnable(z: seq<u32>, L: Lay, s: nat, e: nat, o: nat, need: nat, slot: nat)
    requires LayoutInv(z, L, s, e) && o in L && L[o].kind.Free?
    requires need % ALIGN == 0 && MIN_BLOCK <= need && need + MIN_BLOCK <= L[o].size
    ensures var F := FreeMap(L) - {o}; var n := L[o].size - need;
            && o + need !in F && Spaced(F[o + need := n]) && F[o + need := n] == FreeMap(AfterAlloc(L, o, need, slot))
            && (o + need) % ALIGN == 0 && n % ALIGN == 0 && MIN_BLOCK <= n < ZONE_LIMIT && o + need + n <= e <= |z|
  {
    hide HeadersOk, PrevOk, Coalesced, AfterAlloc, Tiles, Shaped, FreeMap;
    RemainderFits(z, L, s, e, o, need);
    AllocFreeMap(L, s, e, o, need, slot);
    AllocTiles(L, s, e, o, need, slot);
    FreeApart(AfterAlloc(L, o, need, slot), s, e);
    AloneIn(z, L, s, e, o);
    FreeKey(L, o + need);
  }

  lemma FreeKey(L: Lay, k: nat)
    ensures k in FreeMap(L) ==> k in L
  {
  }

  lemma RemainderFits(z: seq<u32>, L: Lay, s: nat, e: nat, o: nat, need: nat)
    requires LayoutInv(z, L, s, e) && o in L && L[o].kind.Free?
    requires need % ALIGN == 0 && MIN_BLOCK <= need && need + MIN_BLOCK <= L[o].size
    ensures var n := L[o].size - need;
            (o + need) % ALIGN == 0 && n % ALIGN == 0 && MIN_BLOCK <= n < ZONE_LIMIT && o + need + n <= e <= |z|
    ensures Tiles(L, s, e) && Shaped(L)
  {
    hide HeadersOk, PrevOk, Coalesced;
    AlignedSum(o, need);
    AlignedSum(L[o].size, need);
  }

  // The words that the last three stores of alloc write are headers of blocks that are not
  // binned: the allocation's own and its successor's prev_size.
  lemma AllocHeaderWords(z: seq<u32>, L: Lay, s: nat, e: nat, o: nat, need: nat, slot: nat)
    requires LayoutInv(z, L, s, e) && o in L && L[o].kind.Free?
    requires need % ALIGN == 0 && MIN_BLOCK <= need <= L[o].size
    ensures var A, after := AfterAlloc(L, o, need, slot), End(L, o);
            && after == o + L[o].size
            && (after < e ==> after in A && !A[after].kind.Free?)
            && o in A && A[o].kind.Live?
  {
    hide HeadersOk, PrevOk, Shaped;
    AllocatedAt(L, o, need, slot);
  }

  method CarveBlock(zone: array<u32>, b: TlsfBins, blk: nat, need: nat, poolEnd: nat,
                    ghost slot: nat, ghost L: Lay, ghost lists: seq<seq<nat>>, ghost s: nat)
      returns (b': TlsfBins, blksize: nat, ghost lists': seq<seq<nat>>)
    requires PoolLay(zone[..], b, L, lists, s, poolEnd)
    requires blk in L && L[blk].kind.Free? && need % ALIGN == 0 && MIN_BLOCK <= need <= L[blk].size
    modifies zone
    ensures PoolLay(zone[..], b', AfterAlloc(L, blk, need, slot), lists', s, poolEnd)
    ensures blksize == if L[blk].size - need >= MIN_BLOCK then need else L[blk].size
    ensures OutsideKept(old(zone[..]), zone[..], s, poolEnd) && LivePayloadKept(old(zone[..]), zone[..], L)
  {
    hide BinsInv, BinIdx, HeadersOk, PrevOk, Coalesced, Shaped, Tiles, FreeMap, AfterAlloc, SameExceptLinks,
         LivePayloadKept, OutsideKept, CarveWrites;
    ghost var z0 := zone[..];
    ghost var A := AfterAlloc(L, blk, need, slot);
    FreeBlockFacts(z0, b, L, lists, s, poolEnd, blk);
    AllocHeaderWords(z0, L, s, poolEnd, blk, need, slot);
    AllocTiles(L, s, poolEnd, blk, need, slot);
    var b1;
    ghost var lists1;
    b1, lists1 := BinsRemove(zone, b, blk, lists, FreeMap(L));
    ghost var z1 := zone[..];
    FreeLinksInside(z0, z1, L, s, poolEnd);
    blksize := BlkSize(zone[blk]);
    var oldPrev := zone[blk + 4];
    var after := blk + blksize;
    if blksize - need >= MIN_BLOCK {
      var rem, rsize := blk + need, blksize - need;
      ghost var z2;
      b', lists', z2 := BinRemainder(zone, b1, rem, rsize, need, z0, L, lists1, s, poolEnd, blk, slot);
      ghost var z3 := zone[..];
      StoreAllocHeader(zone, blk, need, oldPrev, after, rsize, poolEnd);
      blksize := need;
      CarveDone(z0, z1, z2, z3, zone[..], L, s, poolEnd, blk, need, slot, b', lists');
    } else {
      b', lists' := b1, lists1;
      StoreAllocHeader(zone, blk, blksize, oldPrev, after, blksize, poolEnd);
      AbsorbDone(z0, z1, zone[..], L, s, poolEnd, blk, need, slot, b', lists');
    }
  }

  // The remainder of a split becomes a free block of its own.
  method BinRemainder(zone: array<u32>, b1: TlsfBins, rem: nat, rsize: nat, need: nat, ghost z0: seq<u32>, ghost L: Lay, ghost lists1: seq<seq<nat>>,
                      ghost s: nat, ghost e: nat, ghost o: nat, ghost slot: nat)
      returns (b': TlsfBins, ghost lists': seq<seq<nat>>, ghost z2: seq<u32>)
    requires LayoutInv(z0, L, s, e) && zone.Length == |z0| && o in L && L[o].kind.Free?
    requires need % ALIGN == 0 && MIN_BLOCK <= need && need + MIN_BLOCK <= L[o].size && rem == o + need && rsize == L[o].size - need
    requires BinsInv(zone[..], b1, lists1, FreeMap(L) - {o})
    modifies zone
    ensures |z2| == |z0| && SameExcept(old(zone[..]), z2, {rem, rem + 4, rem + 8, rem + 12})
    ensures rem + 4 < |z2| && z2[rem] == rsize + 1 && z2[rem + 4] == need
    ensures SameExceptLinks(z2, zone[..], FreeMap(AfterAlloc(L, o, need, slot)).Keys)
    ensures BinsInv(zone[..], b', lists', FreeMap(AfterAlloc(L, o, need, slot)))
  {
    hide BinsInv, LayoutInv, BinIdx, FreeMap, AfterAlloc, SameExceptLinks, Spaced;
    ghost var z1 := zone[..];
    RemainderFits(z0, L, s, e, o, need);
    RemainderBinnable(z0, L, s, e, o, need, slot);
    zone[rem] := rsize + 1;
    zone[rem + 4] := need;
    zone[rem + 8], zone[rem + 12] := NULL_OFF, NULL_OFF;
    z2 := zone[..];
    assert SameExcept(z1, z2, {rem, rem + 4, rem + 8, rem + 12});
    RemainderFrame(z1, z2, L, s, e, o, need, b1, lists1);
    ghost var F1 := FreeMap(L) - {o};
    b', lists' := BinsInsert(zone, b1, rem, lists1, F1);
    assert F1.Keys + {rem} == F1[rem := rsize].Keys;
  }

  method StoreAllocHeader(zone: array<u32>, blk: nat, size: u32, prev: u32, after: nat, afterPrev: u32, poolEnd: nat)
    requires blk + 8 <= after && blk + 8 <= zone.Length && (after < poolEnd ==> after + 4 < zone.Length)
    modifies zone
    ensures SameExcept(old(zone[..]), zone[..], {blk, blk + 4} + if after < poolEnd then {after + 4} else {})
    ensures zone[..][blk] == size && zone[..][blk + 4] == prev && (after < poolEnd ==> zone[..][after + 4] == afterPrev)
  {
    if after < poolEnd {
      zone[after + 4] := afterPrev;
    }
    zone[blk] := size;
    zone[blk + 4] := prev;
  }

  lemma RemainderFrame(z1: seq<u32>, z2: seq<u32>, L: Lay, s: nat, e: nat, o: nat, need: nat, b: TlsfBins, lists: seq<seq<nat>>)
    requires Tiles(L, s, e) && Shaped(L) && o in L && e <= |z1| && need + MIN_BLOCK <= L[o].size
    requires SameExcept(z1, z2, {o + need, o + need + 4, o + need + 8, o + need + 12})
    requires BinsInv(z1, b, lists, FreeMap(L) - {o})
    ensures BinsInv(z2, b, lists, FreeMap(L) - {o})
  {
    hide BinsInv, Tiles, Shaped;
    BinnedOthers(L, o);
    WriteInsideBlock(z1, z2, L, s, e, o, FreeMap(L) - {o});
    BinsFrame(z1, z2, b, lists, FreeMap(L) - {o});
  }

  lemma CarveDone(z0: seq<u32>, z1: seq<u32>, z2: seq<u32>, z3: seq<u32>, z4: seq<u32>, L: Lay, s: nat, e: nat,
                  o: nat, need: nat, slot: nat, b: TlsfBins, lists: seq<seq<nat>>)
    requires LayoutInv(z0, L, s, e) && o in L && L[o].kind.Free?
    requires need % ALIGN == 0 && MIN_BLOCK <= need && need + MIN_BLOCK <= L[o].size
    requires SplitSteps(z0, z1, z2, z3, z4, L, o, need, slot, e)
    requires BinsInv(z3, b, lists, FreeMap(AfterAlloc(L, o, need, slot)))
    ensures PoolLay(z4, b, AfterAlloc(L, o, need, slot), lists, s, e)
    ensures OutsideKept(z0, z4, s, e) && LivePayloadKept(z0, z4, L)
  {
    hide BinsInv, HeadersOk, PrevOk, Coalesced, Shaped, Tiles, FreeMap, AfterAlloc, SameExceptLinks,
         LivePayloadKept, OutsideKept, CarveWrites;
    var A := AfterAlloc(L, o, need, slot);
    AllocHeaderWords(z0, L, s, e, o, need, slot);
    AllocTiles(L, s, e, o, need, slot);
    SplitTags(z0, z1, z2, z3, z4, L, s, e, o, need, slot);
    AllocBinsFrame(z3, z4, A, s, e, o, End(L, o));
    BinsFrame(z3, z4, b, lists, FreeMap(A));
    AllocKeepsLayout(z0, z4, L, s, e, o, need, slot);
  }

  lemma AbsorbDone(z0: seq<u32>, z1: seq<u32>, z4: seq<u32>, L: Lay, s: nat, e: nat,
                   o: nat, need: nat, slot: nat, b: TlsfBins, lists: seq<seq<nat>>)
    requires LayoutInv(z0, L, s, e) && o in L && L[o].kind.Free?
    requires need % ALIGN == 0 && MIN_BLOCK <= need <= L[o].size < need + MIN_BLOCK
    requires SameExceptLinks(z0, z1, FreeMap(L).Keys)
    requires BinsInv(z1, b, lists, FreeMap(L) - {o})
    requires SameExcept(z1, z4, {o, o + 4} + if End(L, o) < e then {End(L, o) + 4} else {})
    requires o + 4 < |z1| && z4[o] == L[o].size && z4[o + 4] == z1[o + 4]
    requires End(L, o) < e ==> End(L, o) + 4 < |z4| && z4[End(L, o) + 4] == L[o].size
    ensures PoolLay(z4, b, AfterAlloc(L, o, need, slot), lists, s, e)
    ensures OutsideKept(z0, z4, s, e) && LivePayloadKept(z0, z4, L)
  {
    hide BinsInv, HeadersOk, PrevOk, Coalesced, Shaped, Tiles, FreeMap, AfterAlloc, SameExceptLinks,
         LivePayloadKept, OutsideKept, CarveWrites;
    var A := AfterAlloc(L, o, need, slot);
    AllocHeaderWords(z0, L, s, e, o, need, slot);
    AllocTiles(L, s, e, o, need, slot);
    AbsorbTags(z0, z1, z4, L, s, e, o, need);
    AllocFreeMap(L, s, e, o, need, slot);
    WithinZone(z0, z1, L);
    AllocBinsFrame(z1, z4, A, s, e, o, End(L, o));
    BinsFrame(z1, z4, b, lists, FreeMap(A));
    AllocKeepsLayout(z0, z4, L, s, e, o, need, slot);
  }

  lemma WithinZone(z: seq<u32>, z': seq<u32>, L: Lay)
    requires SameExceptLinks(z, z', FreeMap(L).Keys)
    ensures |z'| == |z|
  {
  }

  lemma FreeBlockFacts(z: seq<u32>, b: TlsfBins, L: Lay, lists: seq<seq<nat>>, s: nat, e: nat, o: nat)
    requires PoolLay(z, b, L, lists, s, e) && o in L && L[o].kind.Free?
    ensures o in FreeMap(L) && FreeMap(L)[o] == L[o].size && z[o] == L[o].size + 1 && BlkSize(z[o]) == L[o].size
    ensures o + MIN_BLOCK <= o + L[o].size <= e <= |z| && End(L, o) == o + L[o].size
    ensures End(L, o) < e ==> End(L, o) in L && End(L, o) + 4 < |z|
    ensures Spaced(FreeMap(L))
  {
    hide Coalesced, BinsInv, BinIdx, BlkSize;
    FreeHeaderWord(L[o].size);
    FreeApart(L, s, e);
  }

  lemma AllocBinsFrame(z: seq<u32>, z': seq<u32>, A: Lay, s: nat, e: nat, o: nat, after: nat)
    requires Tiles(A, s, e) && Shaped(A) && e <= |z|
    requires SameExcept(z, z', {o, o + 4} + if after < e then {after + 4} else {})
    requires o in A && !A[o].kind.Free? && (after < e ==> after in A && !A[after].kind.Free?)
    ensures forall f :: f in FreeMap(A) ==> f + MIN_BLOCK <= |z| && z'[f] == z[f] && z'[f + 8] == z[f + 8] && z'[f + 12] == z[f + 12]
  {
    hide Tiles, Shaped;
    WriteHeaders(z, z', A, s, e, {o, o + 4} + if after < e then {after + 4} else {}, FreeMap(A));
  }

  // ---- the block half of free --------------------------------------------------------------

  // free_block_binned: the anchored O(1) link proof that fb sits in the bin of its own size.
  method FreeBlockBinned(zone: array<u32>, b: TlsfBins, fb: nat, start: nat, end: nat,
                         ghost L: Lay, ghost lists: seq<seq<nat>>) returns (ok: bool)
    requires PoolLay(zone[..], b, L, lists, start, end) && fb in L && L[fb].kind.Free?
    ensures ok
  {
    hide BinIdx, LayoutInv, BinsInv;
    FreeBlockFacts(zone[..], b, L, lists, start, end, fb);
    BinnedNeighbours(zone[..], b, L, lists, start, end, fb);
    var k := BinIdx(BlkSize(zone[fb]));
    var head := b.head[k];
    var inPool := fb >= start && fb + HEADER <= end;
    if !inPool { return false; }
    if head != NULL_OFF && !(head >= start && head + HEADER <= end) { return false; }
    var prev, next := zone[fb + 8], zone[fb + 12];
    if prev != NULL_OFF {
      if !(prev >= start && prev + HEADER <= end) { return false; }
      if zone[prev + 12] != fb { return false; }
    } else if head != fb {
      return false;
    }
    if next != NULL_OFF {
      if !(next >= start && next + HEADER <= end) { return false; }
      if zone[next + 8] != fb { return false; }
    }
    return true;
  }

  lemma BinnedNeighbours(z: seq<u32>, b: TlsfBins, L: Lay, lists: seq<seq<nat>>, s: nat, e: nat, o: nat)
    requires PoolLay(z, b, L, lists, s, e) && o in L && L[o].kind.Free?
    ensures o + MIN_BLOCK <= |z| && |b.head| == NBINS
    ensures var prev, next, head := z[o + 8], z[o + 12], b.head[BinIdx(L[o].size)];
            && s <= head && head + MIN_BLOCK <= e && (prev == NULL_OFF ==> head == o)
            && (prev != NULL_OFF ==> s <= prev && prev + MIN_BLOCK <= e <= |z| && z[prev + 12] == o)
            && (next != NULL_OFF ==> s <= next && next + MIN_BLOCK <= e <= |z| && z[next + 8] == o)
    ensures s <= o && o + HEADER <= e
  {
    hide BinIdx, Linked, BinOk, Coalesced, HeadersOk, PrevOk;
    NeighboursBinned(z, b, lists, FreeMap(L), o);
    assert forall f :: f in FreeMap(L) ==> s <= f && f + MIN_BLOCK <= e;
  }

  // The read-only proof that free runs before it changes anything.
  method VerifyNeighbours(zone: array<u32>, b: TlsfBins, block: nat, blockSize: nat, poolStart: nat, poolEnd: nat,
                          ghost L: Lay, ghost lists: seq<seq<nat>>) returns (st: Status)
    requires PoolLay(zone[..], b, L, lists, poolStart, poolEnd)
    requires block in L && L[block].kind.Live? && L[block].size == blockSize
    ensures st == Ok
  {
    hide BinsInv, Coalesced, Tiles, LayoutInv, BlkSize, BlkFree;
    ghost var z := zone[..];
    LiveBlockFacts(z, L, poolStart, poolEnd, block);
    PrevSizeMeaning(z, L, poolStart, poolEnd, block);
    if BlkFree(zone[block]) || BlkSize(zone[block]) != blockSize {
      return CorruptMetadata;
    }
    var psize := zone[block + 4];
    if psize != 0 {
      BlockHeaderFacts(z, L, poolStart, poolEnd, block - psize);
      if psize < MIN_BLOCK || psize % ALIGN != 0 { return CorruptMetadata; }
      if psize > block - poolStart { return CorruptMetadata; }
      var prev := block - psize;
      if BlkSize(zone[prev]) != psize { return CorruptMetadata; }
      if BlkFree(zone[prev]) {
        var binned := FreeBlockBinned(zone, b, prev, poolStart, poolEnd, L, lists);
        if !binned { return CorruptMetadata; }
      }
    }
    var fwd := block + blockSize;
    if fwd < poolEnd && BlkFree(zone[fwd]) {
      BlockHeaderFacts(z, L, poolStart, poolEnd, fwd);
      var nsz := BlkSize(zone[fwd]);
      if nsz < MIN_BLOCK || nsz % ALIGN != 0 || nsz > poolEnd - fwd { return CorruptMetadata; }
      var binned := FreeBlockBinned(zone, b, fwd, poolStart, poolEnd, L, lists);
      if !binned { return CorruptMetadata; }
    }
    return Ok;
  }

  lemma BlockHeaderFacts(z: seq<u32>, L: Lay, s: nat, e: nat, o: nat)
    requires LayoutInv(z, L, s, e) && o in L
    ensures s <= o && o + 4 < |z| && o + L[o].size <= e <= |z|
    ensures !L[o].kind.Slack? ==> MIN_BLOCK <= L[o].size && L[o].size % ALIGN == 0
    ensures BlkFree(z[o]) <==> L[o].kind.Free?
    ensures !L[o].kind.Slack? ==> BlkSize(z[o]) == L[o].size
  {
    hide Coalesced, BlkSize, BlkFree;
    FreeHeaderWord(L[o].size);
    FreeHeaderWord(0);
  }

  lemma LiveBlockFacts(z: seq<u32>, L: Lay, s: nat, e: nat, o: nat)
    requires LayoutInv(z, L, s, e) && o in L && !L[o].kind.Slack?
    ensures s <= o && o + 4 < |z| && o + L[o].size <= e <= |z| <= ZONE_LIMIT && o % ALIGN == 0
    ensures BlkFree(z[o]) <==> L[o].kind.Free?
    ensures BlkSize(z[o]) == L[o].size && MIN_BLOCK <= L[o].size && L[o].size % ALIGN == 0
    ensures o + L[o].size < e ==> o + L[o].size in L && o + L[o].size + 4 < |z|
    ensures o + L[o].size == e ==> e !in L
    ensures o + L[o].size < e ==> (BlkFree(z[o + L[o].size]) <==> L[o + L[o].size].kind.Free?)
    ensures o + L[o].size < e && L[o + L[o].size].kind.Free? ==>
              BlkSize(z[o + L[o].size]) == L[o + L[o].size].size
  {
    hide Coalesced, BlkSize, BlkFree;
    BlockHeaderFacts(z, L, s, e, o);
    if o + L[o].size < e {
      assert End(L, o) in L;
      BlockHeaderFacts(z, L, s, e, End(L, o));
    }
  }

  lemma FreeTiles(z: seq<u32>, L: Lay, s: nat, e: nat, o: nat)
    requires LayoutInv(z, L, s, e) && o in L && L[o].kind.Live? && o + 4 < |z|
    ensures var A, lo, hi := AfterFree(z, L, o), MergeLo(z, L, o), MergeHi(L, o);
            && Tiles(A, s, e) && Shaped(A) && lo in A && A[lo] == Blk(hi - lo, Free)
            && s <= lo <= o && o + L[o].size <= hi <= e && lo + MIN_BLOCK <= hi && lo % ALIGN == 0 && (hi - lo) % ALIGN == 0
            && (hi < e ==> hi in A && !A[hi].kind.Free? && hi in L)
            && (forall k :: k in L && !(lo <= k < hi) ==> k in A && A[k] == L[k])
            && Spaced(FreeMap(A))
            && e <= |z| && e < ZONE_LIMIT
  {
    hide HeadersOk, PrevOk, Coalesced, MergeLo, MergeHi, Tiles, FreeMap;
    MergeBounds(z, L, s, e, o);
    var lo, hi := MergeLo(z, L, o), MergeHi(L, o);
    var M := map[lo := Blk(hi - lo, Free)];
    OneBlock(M, lo, hi);
    AlignedSum(hi, lo);
    ReplaceTiles(L, M, lo, hi, s, e);
    WindowEnd(L, s, e);
    SingleReplace(L, lo, hi);
    FreeApart(AfterFree(z, L, o), s, e);
  }

  lemma WindowEnd(L: Lay, s: nat, e: nat)
    requires Tiles(L, s, e)
    ensures e !in L
  {
  }

  lemma SingleReplace(L: Lay, lo: nat, hi: nat)
    requires Shaped(L) && lo % ALIGN == 0 && lo + MIN_BLOCK <= hi < lo + ZONE_LIMIT && (hi - lo) % ALIGN == 0
    ensures var A := Replace(L, map[lo := Blk(hi - lo, Free)], lo, hi);
            && Shaped(A) && lo in A && A[lo] == Blk(hi - lo, Free)
            && (forall k :: k in L && !(lo <= k < hi) ==> k in A && A[k] == L[k])
  {
  }

  // The zone after the mutation phase of free, in its steps: both unlinks, the merged header,
  // the insertion, and prev_size of the successor.
  ghost predicate ReleaseSteps(z0: seq<u32>, z2: seq<u32>, z3: seq<u32>, z4: seq<u32>, z5: seq<u32>, L: Lay, o: nat, e: nat)
    requires o in L && o + 4 < |z0|
  {
    var lo, hi := MergeLo(z0, L, o), MergeHi(L, o);
    && lo <= hi
    && SameExceptLinks(z0, z2, FreeMap(L).Keys)
    && SameExcept(z2, z3, {lo, lo + 8, lo + 12}) && lo < |z3| && z3[lo] == hi - lo + 1
    && SameExceptLinks(z3, z4, FreeMap(AfterFree(z0, L, o)).Keys)
    && SameExcept(z4, z5, if hi < e then {hi + 4} else {}) && (hi < e ==> hi + 4 < |z5| && z5[hi + 4] == hi - lo)
  }

  lemma ReleaseTags(z0: seq<u32>, z2: seq<u32>, z3: seq<u32>, z4: seq<u32>, z5: seq<u32>, L: Lay, s: nat, e: nat, o: nat)
    requires LayoutInv(z0, L, s, e) && o in L && L[o].kind.Live? && o + 4 < |z0|
    requires ReleaseSteps(z0, z2, z3, z4, z5, L, o, e)
    ensures |z5| == |z0| && TagsKept(z0, z5, L, MergeLo(z0, L, o), MergeHi(L, o))
    ensures z5[MergeLo(z0, L, o)] == MergeHi(L, o) - MergeLo(z0, L, o) + 1
    ensures OutsideKept(z0, z5, s, e) && LivePayloadKept(z0, z5, L - {o})
  {
    hide SameExceptLinks, LivePayloadKept, Coalesced, HeadersOk, PrevOk, Shaped, FreeMap, OutsideKept, AfterFree, MergeLo, MergeHi, Tiles, TagsKept, Spaced, LayoutInv;
    var lo, hi, A := MergeLo(z0, L, o), MergeHi(L, o), AfterFree(z0, L, o);
    ReleaseFacts(z0, L, s, e, o);
    FreeLinksInside(z0, z2, L, s, e);
    FreeLinksInside(z3, z4, A, s, e);
    ReleaseKept(z0, z2, z3, z4, z5, L, A, lo, hi, s, e);
    ReleasePayload(z0, z2, z3, z4, z5, L, A, o, lo, hi, s, e);
  }

  // The stretch that free returns, between the old and the new layout.
  lemma ReleaseFacts(z: seq<u32>, L: Lay, s: nat, e: nat, o: nat)
    requires LayoutInv(z, L, s, e) && o in L && L[o].kind.Live? && o + 4 < |z|
    ensures var A, lo, hi := AfterFree(z, L, o), MergeLo(z, L, o), MergeHi(L, o);
            && Tiles(L, s, e) && Shaped(L) && Tiles(A, s, e) && Shaped(A) && e <= |z|
            && lo in L && lo in A && s <= lo && lo + MIN_BLOCK <= hi <= e && (hi < e ==> hi in L)
            && (forall k :: k in L && !(lo <= k < hi) ==> k in A && A[k] == L[k])
            && (forall k :: k in L && lo <= k < hi && L[k].kind.Live? ==> k == o)
  {
    hide HeadersOk, PrevOk, Coalesced, Tiles, Shaped, AfterFree, MergeLo, MergeHi, Spaced, FreeMap;
    FreeTiles(z, L, s, e, o);
    MergeMembers(z, L, s, e, o);
  }

  lemma ReleaseKept(z0: seq<u32>, z2: seq<u32>, z3: seq<u32>, z4: seq<u32>, z5: seq<u32>, L: Lay, A: Lay,
                    lo: nat, hi: nat, s: nat, e: nat)
    requires |z0| == |z2| == |z3| == |z4| == |z5| && e <= |z0|
    requires Tiles(L, s, e) && lo in L && lo in A && s <= lo && lo + MIN_BLOCK <= hi <= e && (hi < e ==> hi in L)
    requires forall k :: k in L && !(lo <= k < hi) ==> k in A
    requires forall k :: k in L ==> k + 4 < |z0| && z2[k] == z0[k] && z2[k + 4] == z0[k + 4] && L[k].size >= 8
    requires forall k :: k in A ==> k + 4 < |z0| && z4[k] == z3[k] && z4[k + 4] == z3[k + 4]
    requires forall c :: 0 <= c < |z0| && !(s <= c < e) ==> z2[c] == z0[c] && z4[c] == z3[c]
    requires SameExcept(z2, z3, {lo, lo + 8, lo + 12}) && z3[lo] == hi - lo + 1
    requires SameExcept(z4, z5, if hi < e then {hi + 4} else {})
    ensures TagsKept(z0, z5, L, lo, hi) && OutsideKept(z0, z5, s, e) && z5[lo] == hi - lo + 1
  {
    assert z4[lo] == z3[lo] && z4[lo + 4] == z3[lo + 4] && z2[lo + 4] == z0[lo + 4];
    forall k | k in L && !(lo <= k < hi) ensures z5[k] == z0[k] && (k != hi ==> z5[k + 4] == z0[k + 4]) {
      assert k < lo ==> k + L[k].size <= lo;
      assert k in A;
      assert z3[k] == z2[k] && z3[k + 4] == z2[k + 4];
      assert hi < e && k < hi ==> k + L[k].size <= hi;
    }
    if hi < e { assert L[hi].size >= 8 && hi + L[hi].size <= e; }
    forall c | 0 <= c < |z0| && !(s <= c < e) ensures z5[c] == z0[c] {
      assert z3[c] == z2[c] && z5[c] == z4[c];
    }
  }

  lemma ReleasePayload(z0: seq<u32>, z2: seq<u32>, z3: seq<u32>, z4: seq<u32>, z5: seq<u32>, L: Lay, A: Lay,
                       o: nat, lo: nat, hi: nat, s: nat, e: nat)
    requires |z0| == |z2| == |z3| == |z4| == |z5| && e <= |z0|
    requires Tiles(L, s, e) && lo in L && lo + MIN_BLOCK <= hi <= e && (hi < e ==> hi in L)
    requires forall k :: k in L && !(lo <= k < hi) ==> k in A && A[k] == L[k]
    requires forall k :: k in L && lo <= k < hi && L[k].kind.Live? ==> k == o
    requires LivePayloadKept(z0, z2, L) && LivePayloadKept(z3, z4, A)
    requires SameExcept(z2, z3, {lo, lo + 8, lo + 12})
    requires SameExcept(z4, z5, if hi < e then {hi + 4} else {})
    ensures LivePayloadKept(z0, z5, L - {o})
  {
    forall k, c | k in L - {o} && L[k].kind.Live? && k + HEADER <= c < k + L[k].size && c < |z0|
      ensures z5[c] == z0[c]
    {
      assert !(lo <= k < hi);
      assert k < lo ==> k + L[k].size <= lo;
      assert hi < e && k < hi ==> k + L[k].size <= hi;
      assert z2[c] == z0[c];
      assert z3[c] == z2[c];
      assert z4[c] == z3[c];
    }
  }

  // After both unlinks the merged block can be binned.
  lemma MergedBinnable(z: seq<u32>, L: Lay, s: nat, e: nat, o: nat, F: map<nat, nat>)
    requires LayoutInv(z, L, s, e) && o in L && L[o].kind.Live? && o + 4 < |z|
    requires F == FreeMap(L) - {MergeLo(z, L, o)} - {End(L, o)}
    ensures var lo, hi := MergeLo(z, L, o), MergeHi(L, o);
            && lo !in F && lo + MIN_BLOCK <= hi && F[lo := hi - lo] == FreeMap(AfterFree(z, L, o)) && Spaced(F[lo := hi - lo])
            && (forall f :: f in F ==> f in AfterFree(z, L, o) && f != lo && AfterFree(z, L, o)[f].kind.Free?)
  {
    hide LayoutInv, Tiles, MergeLo, MergeHi, AfterFree, Shaped;
    FreeFreeMap(z, L, s, e, o);
    FreeTiles(z, L, s, e, o);
    var lo := MergeLo(z, L, o);
    forall f | f in F ensures f in AfterFree(z, L, o) && f != lo && AfterFree(z, L, o)[f].kind.Free? {
      assert f in FreeMap(AfterFree(z, L, o));
    }
  }

  method ReleaseBlock(zone: array<u32>, b: TlsfBins, blk: nat, blockSize: nat, poolEnd: nat,
                      ghost L: Lay, ghost lists: seq<seq<nat>>, ghost s: nat)
      returns (b': TlsfBins, ghost lists': seq<seq<nat>>)
    requires PoolLay(zone[..], b, L, lists, s, poolEnd)
    requires blk in L && L[blk].kind.Live? && L[blk].size == blockSize
    modifies zone
    ensures blk + 4 < |old(zone[..])| && PoolLay(zone[..], b', AfterFree(old(zone[..]), L, blk), lists', s, poolEnd)
    ensures OutsideKept(old(zone[..]), zone[..], s, poolEnd) && LivePayloadKept(old(zone[..]), zone[..], L - {blk})
  {
    hide BinsInv, LayoutInv, Tiles, FreeMap, AfterFree, SameExceptLinks, LivePayloadKept, OutsideKept, BlkSize, BlkFree,
         MergeLo, MergeHi, Shaped, SameExcept;
    ghost var z0 := zone[..];
    LiveBlockFacts(z0, L, s, poolEnd, blk);
    var bsize, block;
    block, bsize, b', lists' := TakeNeighbours(zone, b, blk, blockSize, poolEnd, L, lists, s);
    ghost var z2 := zone[..];
    FreeTiles(z0, L, s, poolEnd, blk);
    ghost var F2 := FreeMap(L) - {block} - {End(L, blk)};
    MergedBinnable(z0, L, s, poolEnd, blk, F2);
    WithinZone(z0, z2, L);
    ghost var z3, z4;
    b', lists', z3, z4 := BinMerged(zone, b', block, bsize, poolEnd, AfterFree(z0, L, blk), lists', F2, s);
    ReleaseDone(z0, z2, z3, z4, zone[..], L, s, poolEnd, blk, b', lists');
  }

  // The merged block gets its header, enters its bin and becomes its successor's predecessor.
  method BinMerged(zone: array<u32>, b: TlsfBins, block: nat, bsize: nat, poolEnd: nat,
                   ghost A: Lay, ghost lists: seq<seq<nat>>, ghost F: map<nat, nat>, ghost s: nat)
      returns (b': TlsfBins, ghost lists': seq<seq<nat>>, ghost z3: seq<u32>, ghost z4: seq<u32>)
    requires BinsInv(zone[..], b, lists, F) && poolEnd <= zone.Length && poolEnd < ZONE_LIMIT
    requires Tiles(A, s, poolEnd) && Shaped(A) && block in A && A[block] == Blk(bsize, Free)
    requires block !in F && F[block := bsize] == FreeMap(A) && Spaced(FreeMap(A))
    requires forall f :: f in F ==> f in A && f != block && A[f].kind.Free?
    requires block + bsize < poolEnd ==> block + bsize in A
    modifies zone
    ensures BinsInv(z4, b', lists', FreeMap(A))
    ensures SameExcept(old(zone[..]), z3, {block, block + 8, block + 12}) && block < |z3| && z3[block] == bsize + 1
    ensures SameExceptLinks(z3, z4, FreeMap(A).Keys)
    ensures SameExcept(z4, zone[..], if block + bsize < poolEnd then {block + bsize + 4} else {})
    ensures block + bsize < poolEnd ==> block + bsize + 4 < zone.Length && zone[..][block + bsize + 4] == bsize
  {
    hide BinsInv, FreeMap, BlkSize, BinIdx, Tiles, Shaped, SameExceptLinks;
    ghost var z2 := zone[..];
    BlockSpans(A, s, poolEnd);
    BlockAligned(A, block);
    zone[block] := bsize + 1;
    zone[block + 8], zone[block + 12] := NULL_OFF, NULL_OFF;
    z3 := zone[..];
    assert SameExcept(z2, z3, {block, block + 8, block + 12});
    WriteInsideBlock(z2, z3, A, s, poolEnd, block, F);
    BinsFrame(z2, z3, b, lists, F);
    FreeHeaderWord(bsize);
    b', lists' := BinsInsert(zone, b, block, lists, F);
    assert F.Keys + {block} == F[block := bsize].Keys;
    z4 := zone[..];
    var next := block + bsize;
    if next < poolEnd {
      zone[next + 4] := bsize;
    }
  }

  lemma BlockAligned(A: Lay, o: nat)
    requires Shaped(A) && o in A
    ensures o % ALIGN == 0 && A[o].size % ALIGN == 0
  {
  }

  // Both unlinks of free: the free neighbours leave their bins and join the block.
  method TakeNeighbours(zone: array<u32>, b: TlsfBins, blk: nat, blockSize: nat, poolEnd: nat,
                        ghost L: Lay, ghost lists: seq<seq<nat>>, ghost s: nat)
      returns (block: nat, bsize: nat, b': TlsfBins, ghost lists': seq<seq<nat>>)
    requires PoolLay(zone[..], b, L, lists, s, poolEnd)
    requires blk in L && L[blk].kind.Live? && L[blk].size == blockSize
    modifies zone
    ensures blk + 4 < |old(zone[..])|
    ensures block == MergeLo(old(zone[..]), L, blk) && block + bsize == MergeHi(L, blk)
    ensures SameExceptLinks(old(zone[..]), zone[..], FreeMap(L).Keys)
    ensures BinsInv(zone[..], b', lists', FreeMap(L) - {block} - {End(L, blk)})
  {
    hide BinsInv, BlkSize, BlkFree, HeadersOk, PrevOk, Coalesced, Tiles, Shaped;
    ghost var z0 := zone[..];
    LiveBlockFacts(z0, L, s, poolEnd, blk);
    PrevSizeMeaning(z0, L, s, poolEnd, blk);
    block, bsize, b', lists' := blk, blockSize, b, lists;
    ghost var F := FreeMap(L);
    var psize := zone[blk + 4];
    if psize != 0 {
      BlockHeaderFacts(z0, L, s, poolEnd, blk - psize);
      if BlkFree(zone[blk - psize]) {
        b', lists' := BinsRemove(zone, b', blk - psize, lists', F);
        bsize := bsize + psize;
        block := blk - psize;
      }
    }
    ghost var F1 := F - {block};
    assert block == blk ==> F1 == F;
    ghost var z1 := zone[..];
    assert SameExceptLinks(z0, z1, F.Keys);
    FreeLinksInside(z0, z1, L, s, poolEnd);
    assert zone.Length == |z1|;
    var next := block + bsize;
    assert next == End(L, blk);
    if next < poolEnd && BlkFree(zone[next]) {
      b', lists' := BinsRemove(zone, b', next, lists', F1);
      ghost var z2 := zone[..];
      assert SameExceptLinks(z1, z2, F1.Keys);
      LinksTwice(z0, z1, z2, F.Keys, F1.Keys);
      FreeLinksInside(z0, z2, L, s, poolEnd);
      bsize := bsize + BlkSize(zone[next]);
    } else {
      assert F1 - {next} == F1;
    }
  }

  lemma LinksTwice(z0: seq<u32>, z1: seq<u32>, z2: seq<u32>, S: set<nat>, T: set<nat>)
    requires SameExceptLinks(z0, z1, S) && SameExceptLinks(z1, z2, T) && T <= S
    ensures SameExceptLinks(z0, z2, S)
  {
  }

  lemma ReleaseDone(z0: seq<u32>, z2: seq<u32>, z3: seq<u32>, z4: seq<u32>, z5: seq<u32>, L: Lay, s: nat, e: nat, o: nat,
                    b: TlsfBins, lists: seq<seq<nat>>)
    requires LayoutInv(z0, L, s, e) && o in L && L[o].kind.Live? && o + 4 < |z0|
    requires ReleaseSteps(z0, z2, z3, z4, z5, L, o, e)
    requires BinsInv(z4, b, lists, FreeMap(AfterFree(z0, L, o)))
    ensures PoolLay(z5, b, AfterFree(z0, L, o), lists, s, e)
    ensures OutsideKept(z0, z5, s, e) && LivePayloadKept(z0, z5, L - {o})
  {
    hide BinsInv, LayoutInv, Tiles, FreeMap, AfterFree, SameExceptLinks, LivePayloadKept, OutsideKept, MergeLo, MergeHi, Shaped, TagsKept;
    var A, hi := AfterFree(z0, L, o), MergeHi(L, o);
    ReleaseTags(z0, z2, z3, z4, z5, L, s, e, o);
    FreeTiles(z0, L, s, e, o);
    FreeKeepsLayout(z0, z5, L, s, e, o);
    WithinZone(z0, z2, L);
    WithinZone(z3, z4, A);
    NotFree(A);
    WriteHeaders(z4, z5, A, s, e, if hi < e then {hi + 4} else {}, FreeMap(A));
    BinsFrame(z4, z5, b, lists, FreeMap(A));
  }

  lemma NotFree(A: Lay)
    ensures forall f :: f in FreeMap(A) ==> f in A && A[f].kind.Free?
  {
  }
}
