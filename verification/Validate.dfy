/** validate: the full audit of one pool. It accepts exactly the pools whose live blocks, binned
    blocks and sub-minimal slack runs tile the window with agreeing metadata. */
module Validate {
  import opened Base
  import opened Lists
  import opened SizeClass
  import opened Bins
  import opened Layout
  import opened PoolHeap
  import opened Objects
  import opened State
  import opened Refs
  import opened AllocOp
  import opened Blocks
  import opened Sort
  import opened Collect
  import opened Precheck
  import opened Relocate
  import opened CompactOp
  import opened SplitOp
  import opened Audit
  import opened Sweep

  // ---- live blocks ------------------------------------------------------------------------------

  // What phase 1 requires of one live descriptor.
  predicate LiveOk(z: seq<u32>, d: ObjectDesc, s: nat, e: nat)
    requires s <= e && e + MIN_BLOCK <= |z|
  {
    && DescConsistent(d) && HEADER <= d.address
    && InPool(d.address - HEADER, d.blockSize, s, e) && InPool(d.address, d.size, s, e)
    && !BlkFree(z[d.address - HEADER]) && BlkSize(z[d.address - HEADER]) == d.blockSize
    && PrevLinkOk(z, d.address - HEADER, s)
  }

  // The same on the descriptor's fields and the words of the zone.
  lemma LiveSpelled(z: seq<u32>, d: ObjectDesc, s: nat, e: nat)
    requires s <= e && e + MIN_BLOCK <= |z|
    ensures LiveOk(z, d, s, e) <==>
              && d.blockSize >= 16 && d.blockSize % 8 == 0 && d.size > 0 && d.size + 8 <= d.blockSize && d.address % 8 == 0
              && s <= d.address - 8 && d.address - 8 + d.blockSize <= e
              && z[d.address - 8] % 2 == 0 && z[d.address - 8] == d.blockSize
              && var o, prev := d.address - 8, z[d.address - 4];
                 prev == 0 || (16 <= prev && s + prev <= o && z[o - prev] - z[o - prev] % 2 == prev)
  {
  }

  ghost predicate AllLiveOk(z: seq<u32>, ds: seq<ObjectDesc>, slots: seq<nat>, s: nat, e: nat)
    requires s <= e && e + MIN_BLOCK <= |z|
  {
    forall i :: 0 <= i < |slots| ==> slots[i] < |ds| && LiveOk(z, ds[slots[i]], s, e)
  }

  // Phase 1 after collection: descriptor, header and order checks, in address order.
  method CheckLive(zone: array<u32>, objects: array<ObjectDesc>, slots: seq<nat>, start: nat, end: nat) returns (ok: bool, used: nat)
    requires start <= end && end + MIN_BLOCK <= zone.Length && start % ALIGN == 0 && end % ALIGN == 0
    requires forall i :: 0 <= i < |slots| ==> slots[i] < objects.Length
    ensures ok ==> Addressed(objects[..], slots) && Ordered(BlocksOf(objects[..], slots), start, end) && AllLiveOk(zone[..], objects[..], slots, start, end)
    ensures ok ==> used == SumSizes(BlocksOf(objects[..], slots))
    ensures Addressed(objects[..], slots) && Ordered(BlocksOf(objects[..], slots), start, end) && AllLiveOk(zone[..], objects[..], slots, start, end) ==> ok
  {
    hide DescConsistent, PrevLinkOk, BlocksOf, Ordered, SumSizes, BlkFree, BlkSize, Addressed;
    ghost var z, ds := zone[..], objects[..];
    ghost var good := Addressed(ds, slots) && Ordered(BlocksOf(ds, slots), start, end) && AllLiveOk(z, ds, slots, start, end);
    ok, used := false, 0;
    var prevEnd := start;
    AuditStart(ds, slots, start, end);
    for i := 0 to |slots|
      invariant Addressed(ds, slots[..i]) && Ordered(BlocksOf(ds, slots[..i]), start, end)
      invariant prevEnd == EndOf(BlocksOf(ds, slots[..i]), start) && start <= prevEnd <= end
      invariant used == SumSizes(BlocksOf(ds, slots[..i]))
      invariant forall j :: 0 <= j < i ==> LiveOk(z, ds[slots[j]], start, end)
    {
      var d := objects[slots[i]];
      if good { OrderedAt(ds, slots, i, start, end); }
      if !DescConsistent(d) { return; }
      if d.address < HEADER { return; }
      var boff := d.address - HEADER;
      if !InPool(boff, d.blockSize, start, end) || !InPool(d.address, d.size, start, end) { return; }
      if boff < prevEnd { return; }
      if BlkFree(zone[boff]) || BlkSize(zone[boff]) != d.blockSize { return; }
      if !PrevLinkOk(zone[..], boff, start) { return; }
      ConsistentShape(d);
      AuditStep(ds, slots, i, start, end);
      prevEnd := boff + d.blockSize;
      used := used + d.blockSize;
    }
    assert slots[..|slots|] == slots;
    ok := true;
  }

  lemma ConsistentShape(d: ObjectDesc)
    requires DescConsistent(d)
    ensures MIN_BLOCK <= d.blockSize && d.blockSize % ALIGN == 0 && d.address % ALIGN == 0
  {
  }

  lemma OrderedAt(ds: seq<ObjectDesc>, slots: seq<nat>, i: nat, s: nat, e: nat)
    requires Addressed(ds, slots) && Ordered(BlocksOf(ds, slots), s, e) && i < |slots|
    ensures slots[i] < |ds| && HEADER <= ds[slots[i]].address
    ensures Addressed(ds, slots[..i]) && EndOf(BlocksOf(ds, slots[..i]), s) <= ds[slots[i]].address - HEADER
  {
    var bs := BlocksOf(ds, slots);
    OrderedPrefix(bs, s, e, i);
    assert BlocksOf(ds, slots[..i]) == bs[..i];
    assert bs[i] == BlockOf(ds, slots[i]);
  }

  // ---- the collected list is the block list -------------------------------------------------------

  lemma SlotsAreBlocks(ds: seq<ObjectDesc>, head: u32, pid: nat, order: seq<nat>, slots: seq<nat>, bs: seq<MB>, s: nat, e: nat)
    requires Collected(ds, head, pid, order, slots) && ListBlocks(ds, order, bs) && Ordered(bs, s, e) && e < ZONE_LIMIT
    ensures Addressed(ds, slots) && BlocksOf(ds, slots) == bs
  {
    hide OrderLinked, Listed, NoDup, Ordered;
    var t := SlotsOf(bs);
    forall i | 0 <= i < |slots| ensures slots[i] in order && slots[i] in t && slots[i] < |ds| && ds[slots[i]].address < OFF_LIMIT {
      PermutedMember(slots, order, i);
      var j := ListedAt(ds, order, bs, slots[i]);
      assert t[j] == slots[i];
      BlockInside(bs, s, e, j);
    }
    forall x | x in t ensures x in slots {
      var i :| 0 <= i < |t| && t[i] == x;
      assert bs[i].slot in order;
      PermutedMember(order, slots, IndexOf(order, x));
    }
    forall i, j | 0 <= i < j < |t| ensures t[i] < |ds| && ds[t[i]].address < ds[t[j]].address {
      BlocksAscend(bs, s, e, i, j);
      assert bs[i].slot == t[i] && bs[j].slot == t[j];
    }
    forall i | 0 <= i < |t| ensures t[i] < |ds| { assert bs[i].slot == t[i]; }
    IncreasingUnique(ds, slots, t);
    forall i | 0 <= i < |slots| ensures HEADER <= ds[slots[i]].address && bs[i] == BlockOf(ds, slots[i]) {
      assert bs[i].slot == t[i];
    }
  }

  lemma BlocksAscend(bs: seq<MB>, s: nat, e: nat, i: nat, j: nat)
    requires Ordered(bs, s, e) && i < j < |bs|
    ensures bs[i].off < bs[j].off
  {
  }

  // A list with an ordered block list is one that the collection must accept.
  lemma OrderedIsGood(ds: seq<ObjectDesc>, head: u32, pid: nat, order: seq<nat>, bs: seq<MB>, s: nat, e: nat)
    requires |ds| < 0xFFFF && OrderLinked(ds, order, head) && NoDup(order) && Listed(ds, pid, order)
    requires ListBlocks(ds, order, bs) && Ordered(bs, s, e) && e < ZONE_LIMIT
    ensures GoodList(ds, head, pid, order) && |order| <= |ds|
  {
    hide OrderLinked, Ordered, ListBlocks;
    forall i | 0 <= i < |order| ensures ds[order[i]].address < OFF_LIMIT {
      var a := ListedAt(ds, order, bs, order[i]);
      BlockInside(bs, s, e, a);
      OrderBlock(ds, order, bs, a);
    }
    forall i, j | 0 <= i < j < |order| ensures ds[order[i]].address != ds[order[j]].address {
      var a := ListedAt(ds, order, bs, order[i]);
      var b := ListedAt(ds, order, bs, order[j]);
      OrderBlock(ds, order, bs, a);
      OrderBlock(ds, order, bs, b);
      if a < b { BlocksAscend(bs, s, e, a, b); } else { BlocksAscend(bs, s, e, b, a); }
    }
    DistinctBelow(order, |ds|);
  }

  lemma OrderBlock(ds: seq<ObjectDesc>, order: seq<nat>, bs: seq<MB>, i: nat)
    requires ListBlocks(ds, order, bs) && i < |bs|
    ensures bs[i].slot < |ds| && HEADER <= ds[bs[i].slot].address && bs[i] == BlockOf(ds, bs[i].slot) && bs[i].slot in order
  {
  }

  // ---- the binned blocks in address order -----------------------------------------------------------

  // for_each_free into a bounded scratch array: every node is counted, the first cap are kept.
  method EnumerateFree(zone: array<u32>, b: TlsfBins, cap: nat, start: nat, end: nat, ghost lists: seq<seq<nat>>)
      returns (frees: array<nat>, nfree: nat)
    requires start <= end < ZONE_LIMIT && end + MIN_BLOCK <= zone.Length && BinShape(b, lists) && BinsAudited(zone[..], b, lists, start, end)
    ensures fresh(frees) && frees.Length == cap && nfree == |Flat(lists, NBINS)|
    ensures nfree <= cap ==> frees[..nfree] == Flat(lists, NBINS)
  {
    hide NodesOk, Chain;
    ghost var z := zone[..];
    frees := new nat[cap](_ => 0);
    nfree := 0;
    for k := 0 to NBINS
      invariant nfree == |Flat(lists, k)| && (nfree <= cap ==> frees[..nfree] == Flat(lists, k))
    {
      var off := b.head[k];
      ghost var list, i: nat := lists[k], 0;
      assert BinAudited(z, b, list, k, start, end);
      ghost var base := Flat(lists, k);
      ChainAt(z, list, off, k, start, end, 0);
      while off != NULL_OFF
        invariant i <= |list| && off == At(list, i) && (off == NULL_OFF <==> i == |list|)
        invariant nfree == |base| + i && (nfree <= cap ==> frees[..nfree] == base + list[..i])
        decreases |list| - i
      {
        ChainAt(z, list, b.head[k], k, start, end, i);
        ChainAt(z, list, b.head[k], k, start, end, i + 1);
        if nfree < cap { frees[nfree] := off; }
        assert list[..i + 1] == list[..i] + [list[i]];
        nfree := nfree + 1;
        off := zone[off + 12];
        i := i + 1;
      }
      assert list[..|list|] == list;
    }
  }

  lemma ChainAt(z: seq<u32>, list: seq<nat>, head: u32, k: nat, s: nat, e: nat, i: nat)
    requires s <= e < ZONE_LIMIT && e + MIN_BLOCK <= |z| && Chain(z, list, head) && NodesOk(z, list, k, s, e) && i <= |list|
    ensures head == At(list, 0) && (At(list, i) == NULL_OFF <==> i == |list|)
    ensures i < |list| ==> list[i] + MIN_BLOCK <= |z| && z[list[i] + 12] == At(list, i + 1)
  {
    hide NodeOk;
    if i < |list| { NodeBelow(z, list[i], k, s, e); }
  }

  // A node of a flattened bin table is a node of some bin.
  lemma {:induction false} FlatMember(lists: seq<seq<nat>>, k: nat, o: nat)
    requires k <= |lists|
    ensures o in Flat(lists, k) <==> exists j :: 0 <= j < k && o in lists[j]
  {
    if k > 0 {
      FlatMember(lists, k - 1, o);
    }
  }

  lemma AuditedFrees(z: seq<u32>, b: TlsfBins, lists: seq<seq<nat>>, s: nat, e: nat)
    requires s <= e && e + MIN_BLOCK <= |z| && BinShape(b, lists) && BinsAudited(z, b, lists, s, e)
    ensures FreesAt(z, Flat(lists, NBINS), s, e)
  {
    hide Flat;
    var fs := Flat(lists, NBINS);
    forall i | 0 <= i < |fs| ensures FreeAt(z, fs[i], s, e) {
      FlatMember(lists, NBINS, fs[i]);
      var j :| 0 <= j < NBINS && fs[i] in lists[j];
      assert BinAudited(z, b, lists[j], j, s, e);
      var k := IndexOf(lists[j], fs[i]);
      NodeFree(z, lists[j][k], j, s, e);
    }
  }

  lemma NodeFree(z: seq<u32>, o: nat, k: nat, s: nat, e: nat)
    requires s <= e && e + MIN_BLOCK <= |z| && NodeOk(z, o, k, s, e)
    ensures FreeAt(z, o, s, e)
  {
    hide BlkSize, BlkFree, BinIdx, PrevLinkOk;
  }

  lemma FreesPermuted(z: seq<u32>, fs: seq<nat>, gs: seq<nat>, s: nat, e: nat)
    requires FreesAt(z, fs, s, e) && multiset(gs) == multiset(fs)
    ensures FreesAt(z, gs, s, e)
  {
    hide FreeAt;
    forall i | 0 <= i < |gs| ensures FreeAt(z, gs[i], s, e) {
      PermutedMember(gs, fs, i);
    }
  }

  lemma {:induction false} SumSzPermuted(z: seq<u32>, fs: seq<nat>, gs: seq<nat>)
    requires Readable(z, fs) && multiset(gs) == multiset(fs)
    ensures Readable(z, gs) && SumSz(z, gs) == SumSz(z, fs)
    decreases |fs|
  {
    hide BlkSize;
    forall i | 0 <= i < |gs| ensures gs[i] < |z| { PermutedMember(gs, fs, i); }
    if fs == [] {
      assert |multiset(gs)| == 0;
      assert gs == [];
    } else {
      var n := |fs| - 1;
      PermutedMember(fs, gs, n);
      var i :| 0 <= i < |gs| && gs[i] == fs[n];
      DropLast(fs, gs, i);
      var a, b := gs[..i], gs[i + 1..];
      SumSzPermuted(z, fs[..n], a + b);
      SumSzConcat(z, a, b);
      SumSzConcat(z, a, [gs[i]] + b);
      SumSzConcat(z, [gs[i]], b);
      SumSzOne(z, gs[i]);
    }
  }

  lemma SumSzOne(z: seq<u32>, o: nat)
    requires o < |z|
    ensures SumSz(z, [o]) == BlkSize(z[o])
  {
    assert [o][..0] == [];
  }

  lemma DropLast(fs: seq<nat>, gs: seq<nat>, i: nat)
    requires fs != [] && multiset(gs) == multiset(fs) && i < |gs| && gs[i] == fs[|fs| - 1]
    ensures gs == gs[..i] + ([gs[i]] + gs[i + 1..])
    ensures multiset(gs[..i] + gs[i + 1..]) == multiset(fs[..|fs| - 1])
  {
    var n := |fs| - 1;
    var a, b := gs[..i], gs[i + 1..];
    assert fs == fs[..n] + [fs[n]];
    assert gs == a + ([gs[i]] + b);
    calc {
      multiset(fs[..n]);
      multiset(fs) - multiset{fs[n]};
      multiset(gs) - multiset{fs[n]};
      multiset(a + ([gs[i]] + b)) - multiset{fs[n]};
      multiset(a) + multiset(b);
      multiset(a + b);
    }
  }

  // Tiling does not depend on the order in which the free blocks are listed.
  lemma TilingPermuted(H: Lay, z: seq<u32>, bs: seq<MB>, fs: seq<nat>, gs: seq<nat>, s: nat, e: nat)
    requires Tiling(H, z, bs, fs, s, e) && multiset(gs) == multiset(fs)
    ensures Tiling(H, z, bs, gs, s, e)
  {
    hide Tiles, Coalesced, NoDup, SlackSmall;
    PermutedNoDup(gs, fs);
    forall i | 0 <= i < |gs| ensures gs[i] < |z| && gs[i] in H && H[gs[i]] == FreeBlk(z, gs[i]) {
      PermutedMember(gs, fs, i);
      var j := IndexOf(fs, gs[i]);
    }
    forall o | o in H && H[o].kind.Free? ensures o in gs {
      PermutedMember(fs, gs, IndexOf(fs, o));
    }
  }

  // ---- the whole audit --------------------------------------------------------------------------

  // What an accepted pool looks like: its live list, its blocks in address order, the contents
  // of its bins and the tiling of its window.
  datatype Picture = Picture(order: seq<nat>, bs: seq<MB>, lists: seq<seq<nat>>, H: Lay)

  ghost predicate ListPart(z: seq<u32>, P: Pool, ds: seq<ObjectDesc>, pid: nat, s: nat, e: nat, order: seq<nat>, bs: seq<MB>)
    requires s <= e && e + MIN_BLOCK <= |z|
  {
    && |ds| < 0xFFFF && OrderLinked(ds, order, P.orderHead) && NoDup(order) && Listed(ds, pid, order)
    && ListBlocks(ds, order, bs) && Ordered(bs, s, e)
    && (forall i :: 0 <= i < |bs| ==> bs[i].slot < |ds| && LiveOk(z, ds[bs[i].slot], s, e))
    && |bs| == P.liveObjects && SumSizes(bs) == P.usedBytes && P.freeBytes == e - s - P.usedBytes
  }

  ghost predicate BinPart(z: seq<u32>, P: Pool, n: nat, s: nat, e: nat, lists: seq<seq<nat>>)
    requires s <= e && e + MIN_BLOCK <= |z|
  {
    && BinShape(P.bins, lists) && BinsAudited(z, P.bins, lists, s, e) && |Flat(lists, NBINS)| <= n + 1
    && Readable(z, Flat(lists, NBINS)) && SumSz(z, Flat(lists, NBINS)) == P.freeBytes - P.fragmentBytes
  }

  ghost predicate Sound(z: seq<u32>, P: Pool, ds: seq<ObjectDesc>, pid: nat, s: nat, e: nat, w: Picture)
    requires s <= e && e + MIN_BLOCK <= |z|
  {
    && ListPart(z, P, ds, pid, s, e, w.order, w.bs) && BinPart(z, P, |ds|, s, e, w.lists)
    && Tiling(w.H, z, w.bs, Flat(w.lists, NBINS), s, e)
  }

  lemma BinPartFacts(z: seq<u32>, P: Pool, n: nat, s: nat, e: nat, lists: seq<seq<nat>>)
    requires s <= e && e + MIN_BLOCK <= |z| && BinPart(z, P, n, s, e, lists)
    ensures BinShape(P.bins, lists) && BinsAudited(z, P.bins, lists, s, e) && |Flat(lists, NBINS)| <= n + 1
  {
    hide BinsAudited, Flat, SumSz, BinShape;
  }

  // The byte sum excludes the double count, and with it any two blocks that share a start.
  lemma SumCloses(z: seq<u32>, bs: seq<MB>, fs: seq<nat>, s: nat, e: nat, m: nat, lastFree: bool, slack: nat, C: Lay, dup: nat)
    requires SweepInv(z, bs, fs, s, e, |bs|, |fs|, m, lastFree, slack, C, dup) && e - m < MIN_BLOCK
    ensures Readable(z, fs)
    ensures SumSizes(bs) + SumSz(z, fs) + slack + (e - m) == e - s + dup
    ensures dup == 0 ==> Tiling(C + Gap(m, e), z, bs, fs, s, e)
  {
    hide Swept, Tiling, SumSz, SumSizes, BlkSize;
    assert bs[..|bs|] == bs && fs[..|fs|] == fs;
    if dup == 0 { SweepTail(C, z, bs, fs, s, m, lastFree, e); }
  }

  // Along a known tiling the running end stops less than a minimal block before the window's.
  lemma TailCloses(z: seq<u32>, bs: seq<MB>, fs: seq<nat>, s: nat, e: nat, m: nat, lastFree: bool, slack: nat, C: Lay, H: Lay)
    requires SweepInv(z, bs, fs, s, e, |bs|, |fs|, m, lastFree, slack, C, 0) && Tiling(H, z, bs, fs, s, e) && Agree(C, H)
    ensures e - m < MIN_BLOCK
  {
    hide NoDup;
    assert bs[..|bs|] == bs && fs[..|fs|] == fs;
    if m < e {
      assert m in H by {
        if s < m {
          var p := LastOf(C, s, m);
          assert End(H, p) == m;
        }
      }
      BelowEnd(C, s, m);
      TailIsSlack(C, H, z, bs, fs, m);
      if End(H, m) != e {
        assert End(H, m) in H;
        TailIsSlack(C, H, z, bs, fs, End(H, m));
        NoTouch(H, m);
      }
    }
  }

  // Everything above the last listed block is slack.
  lemma TailIsSlack(C: Lay, H: Lay, z: seq<u32>, bs: seq<MB>, fs: seq<nat>, x: nat)
    requires Covers(C, z, bs, fs) && Covers(H, z, bs, fs) && x in H && x !in C
    ensures H[x].kind.Slack?
  {
  }

  // validate after collection: bins, coverage and the reconciliation of the byte counts.
  method AuditCoverage(zone: array<u32>, objects: array<ObjectDesc>, P: Pool, slots: seq<nat>, used: nat, start: nat, end: nat, ghost hint: Picture)
      returns (st: Status, ghost lists: seq<seq<nat>>, ghost H: Lay)
    requires Addressed(objects[..], slots) && Ordered(BlocksOf(objects[..], slots), start, end) && used == SumSizes(BlocksOf(objects[..], slots))
    requires start <= end < ZONE_LIMIT && end + MIN_BLOCK <= zone.Length && BinShape(P.bins, hint.lists)
    ensures st == Ok || st == CorruptMetadata
    ensures st == Ok ==> BinPart(zone[..], P, objects.Length, start, end, lists)
                         && Tiling(H, zone[..], BlocksOf(objects[..], slots), Flat(lists, NBINS), start, end)
    ensures BinsAudited(zone[..], P.bins, hint.lists, start, end) && |Flat(hint.lists, NBINS)| > objects.Length + 1 ==> st != Ok
    ensures (&& BinPart(zone[..], P, objects.Length, start, end, hint.lists)
             && Tiling(hint.H, zone[..], BlocksOf(objects[..], slots), Flat(hint.lists, NBINS), start, end)) ==> st == Ok
  {
    hide BlocksOf, Ordered, SumSizes, SumSz, Flat, BinsAudited, Tiling, SweepInv, FreesAt, Ascending, BlkSize, Agree;
    ghost var z, ds := zone[..], objects[..];
    ghost var bs := BlocksOf(ds, slots);
    ghost var good := BinPart(z, P, |ds|, start, end, hint.lists) && Tiling(hint.H, z, bs, Flat(hint.lists, NBINS), start, end);
    lists, H := hint.lists, hint.H;
    var freeTotal;
    st, freeTotal, lists := AuditPoolBins(zone, P.bins, start, end, hint.lists);
    if st != Ok { return; }
    var cap := objects.Length + 1;
    var frees, nfree := EnumerateFree(zone, P.bins, cap, start, end, lists);
    if nfree > cap { return CorruptMetadata, lists, H; }
    ghost var flat := Flat(lists, NBINS);
    AuditedFrees(z, P.bins, lists, start, end);
    SortU32Asc(frees, nfree);
    ghost var fs := frees[..nfree];
    FreesPermuted(z, flat, fs, start, end);
    SumSzPermuted(z, flat, fs);
    if good { TilingPermuted(hint.H, z, bs, flat, fs, start, end); }
    var ok, slack, maxEnd;
    ghost var C, dup, lastFree;
    ok, slack, maxEnd, C, dup, lastFree := LinearSweep(zone, objects, slots, frees, nfree, start, end, hint.H);
    if !ok { return CorruptMetadata, lists, H; }
    SweepSwept(z, bs, fs, start, end, |slots|, nfree, maxEnd, lastFree, slack, C, dup);
    if good { TailCloses(z, bs, fs, start, end, maxEnd, lastFree, slack, C, hint.H); }
    if end - maxEnd >= MIN_BLOCK { return CorruptMetadata, lists, H; }
    SumCloses(z, bs, fs, start, end, maxEnd, lastFree, slack, C, dup);
    slack := slack + (end - maxEnd);
    if used + freeTotal + slack != end - start { return CorruptMetadata, lists, H; }
    if freeTotal != P.freeBytes - P.fragmentBytes { return CorruptMetadata, lists, H; }
    H := C + Gap(maxEnd, end);
    TilingPermuted(H, z, bs, fs, flat, start, end);
  }

  // ---- consistent pools ---------------------------------------------------------------------------

  lemma {:induction false} FlatDistinct(z: seq<u32>, b: TlsfBins, lists: seq<seq<nat>>, F: map<nat, nat>, k: nat)
    requires BinsInv(z, b, lists, F) && k <= NBINS && |lists| == NBINS
    ensures NoDup(Flat(lists, k))
    ensures forall o :: o in Flat(lists, k) <==> o in F && BinIdx(F[o]) < k
  {
    hide BinIdx, Linked, FlOk, Spaced, FreeCell;
    if k > 0 {
      FlatDistinct(z, b, lists, F, k - 1);
      BinMembers(z, b, lists, F, k - 1);
      var a, c := Flat(lists, k - 1), lists[k - 1];
      assert Flat(lists, k) == a + c;
      forall i, j | 0 <= i < j < |a + c| ensures (a + c)[i] != (a + c)[j] {
        if i < |a| <= j {
          assert a[i] in a && c[j - |a|] in c;
        }
      }
    }
  }

  lemma {:induction false} FreeSum(z: seq<u32>, L: Lay, fs: seq<nat>)
    requires NoDup(fs) && (forall o :: o in fs <==> o in FreeMap(L)) && forall o :: o in FreeMap(L) ==> o < |z| && BlkSize(z[o]) == L[o].size
    ensures Readable(z, fs) && SumSz(z, fs) == Bytes(L, TFree)
    decreases |fs|
  {
    hide BlkSize;
    forall i | 0 <= i < |fs| ensures fs[i] < |z| { assert fs[i] in fs; }
    if fs == [] {
      forall k | k in L ensures Weight(L[k], TFree) == 0 {
        assert k in FreeMap(L) <==> k in fs;
      }
      NoFree(L);
    } else {
      var n := |fs| - 1;
      var o, p := fs[n], fs[..n];
      assert fs == p + [o];
      assert o in fs;
      BytesRemove(L, o, TFree);
      LessOne(L, fs, o);
      FreeSum(z, L - {o}, p);
    }
  }

  lemma LessOne(L: Lay, fs: seq<nat>, o: nat)
    requires NoDup(fs) && fs != [] && o == fs[|fs| - 1] && forall x :: x in fs <==> x in FreeMap(L)
    ensures NoDup(fs[..|fs| - 1]) && forall x :: x in fs[..|fs| - 1] <==> x in FreeMap(L - {o})
  {
    var n := |fs| - 1;
    var p := fs[..n];
    assert fs == p + [o];
    forall x | x in p ensures x in FreeMap(L - {o}) {
      var i :| 0 <= i < n && p[i] == x;
      assert fs[i] == x && x in fs;
    }
    forall x | x in FreeMap(L - {o}) ensures x in p {
      assert x in FreeMap(L);
      assert x in fs;
    }
  }

  lemma {:induction false} NoFree(L: Lay)
    requires forall k :: k in L ==> Weight(L[k], TFree) == 0
    ensures Bytes(L, TFree) == 0
    decreases |L|
  {
    if L != map[] {
      var k :| k in L;
      BytesRemove(L, k, TFree);
      NoFree(L - {k});
    }
  }

  lemma FreeKeys(L: Lay, s: nat, e: nat)
    requires Tiles(L, s, e)
    ensures FreeMap(L).Keys == KeysOf(L, TFree) && |FreeMap(L)| == |KeysOf(L, TFree)|
  {
    assert forall o :: o in KeysOf(L, TFree) <==> o in FreeMap(L);
    assert |FreeMap(L).Keys| == |FreeMap(L)|;
  }

  // The bins of a consistent pool, flattened, are its free blocks, each once.
  lemma PoolFlat(z: seq<u32>, b: TlsfBins, L: Lay, lists: seq<seq<nat>>, s: nat, e: nat)
    requires PoolLay(z, b, L, lists, s, e) && |lists| == NBINS
    ensures var fs := Flat(lists, NBINS);
            && NoDup(fs) && (forall o :: o in fs <==> o in FreeMap(L)) && |fs| == |FreeMap(L)|
            && Readable(z, fs) && SumSz(z, fs) == Bytes(L, TFree)
            && (forall o :: o in FreeMap(L) ==> o < |z| && BlkSize(z[o]) == L[o].size)
  {
    hide BinsInv, LayoutInv, BlkSize, Flat;
    var fs := Flat(lists, NBINS);
    FlatDistinct(z, b, lists, FreeMap(L), NBINS);
    forall o | o in FreeMap(L) ensures o < |z| && BlkSize(z[o]) == L[o].size {
      BlockHeaderFacts(z, L, s, e, o);
    }
    FreeSum(z, L, fs);
    DistinctSet(fs);
    assert SetOf(fs) == FreeMap(L).Keys;
    assert |FreeMap(L).Keys| == |FreeMap(L)|;
  }

  lemma PoolTiling(z: seq<u32>, b: TlsfBins, L: Lay, lists: seq<seq<nat>>, s: nat, e: nat, bs: seq<MB>)
    requires PoolLay(z, b, L, lists, s, e) && |lists| == NBINS
    requires forall i :: 0 <= i < |bs| ==> bs[i].off in L && L[bs[i].off] == LiveBlk(bs[i])
    requires forall o :: o in L && L[o].kind.Live? ==> exists i :: 0 <= i < |bs| && bs[i].off == o
    ensures Tiling(L, z, bs, Flat(lists, NBINS), s, e)
  {
    hide BinsInv, HeadersOk, PrevOk, Coalesced, Tiles, BlkSize, Flat, NoDup;
    PoolFlat(z, b, L, lists, s, e);
    var fs: seq<nat> := Flat(lists, NBINS);
    forall i | 0 <= i < |fs| ensures fs[i] < |z| && fs[i] in L && L[fs[i]] == FreeBlk(z, fs[i]) {
      assert fs[i] in fs;
    }
    forall o | o in L && L[o].kind.Free? ensures o in fs {
      assert o in FreeMap(L);
    }
  }

  lemma PoolLiveOk(z: seq<u32>, P: Pool, ds: seq<ObjectDesc>, pid: nat, A: APool, seg: nat, sl: nat)
    requires PoolOk(z, P, ds, pid, A, seg) && sl in A.order && PoolStart(P, seg) <= PoolEnd(P, seg) && PoolEnd(P, seg) + MIN_BLOCK <= |z|
    ensures sl < |ds| && LiveOk(z, ds[sl], PoolStart(P, seg), PoolEnd(P, seg))
  {
    hide Counters, LayoutInv, BinsInv, BlkSize, BlkFree, PrevLinkOk, PoolStart, PoolEnd, ObjsOk;
    LiveInWindow(z, P, ds, pid, A, seg, sl);
    var o := ds[sl].address - HEADER;
    BlockHeaderFacts(z, A.L, PoolStart(P, seg), PoolEnd(P, seg), o);
    PoolPrevLink(z, A.L, PoolStart(P, seg), PoolEnd(P, seg), o);
  }

  // The picture of a consistent pool; only the scratch bound on free blocks is left open.
  lemma PoolSound(z: seq<u32>, P: Pool, ds: seq<ObjectDesc>, pid: nat, A: APool, seg: nat, slots: seq<nat>)
    requires PoolOk(z, P, ds, pid, A, seg) && seg % 1024 == 0 && Collected(ds, P.orderHead, pid, A.order, slots)
    requires PoolStart(P, seg) <= PoolEnd(P, seg) && PoolEnd(P, seg) + MIN_BLOCK <= |z|
    ensures Addressed(ds, slots) && BinShape(P.bins, A.lists) && BinsAudited(z, P.bins, A.lists, PoolStart(P, seg), PoolEnd(P, seg))
    ensures |Flat(A.lists, NBINS)| == |FreeMap(A.L)|
    ensures |FreeMap(A.L)| <= |ds| + 1 ==>
              Sound(z, P, ds, pid, PoolStart(P, seg), PoolEnd(P, seg), Picture(A.order, BlocksOf(ds, slots), A.lists, A.L))
  {
    hide PoolLay, Counters, ObjsOk, Collected, BlocksOf, Ordered, ListBlocks, SumSizes, SumSz, Flat, BinsAudited, Tiling, LiveOk, PoolStart, PoolEnd, Bytes, Addressed;
    var s, e := PoolStart(P, seg), PoolEnd(P, seg);
    PoolAudits(z, P, ds, pid, A, seg, slots);
    CollectedBlocks(ds, P.orderHead, pid, A.order, slots);
    CollectedParts(ds, P.orderHead, pid, A.order, slots);
    var bs := BlocksOf(ds, slots);
    PoolBinsAudited(z, P.bins, A.L, A.lists, s, e);
    PoolFlat(z, P.bins, A.L, A.lists, s, e);
    FreeBytesLeft(z, P, ds, pid, A, seg);
    forall i | 0 <= i < |bs| ensures bs[i].slot < |ds| && LiveOk(z, ds[bs[i].slot], s, e) {
      OrderBlock(ds, A.order, bs, i);
      PoolLiveOk(z, P, ds, pid, A, seg, bs[i].slot);
    }
    forall o | o in A.L && A.L[o].kind.Live? ensures exists i :: 0 <= i < |bs| && bs[i].off == o {
      LiveListed(z, P, ds, pid, A, seg, o);
      var i := ListedAt(ds, A.order, bs, A.L[o].kind.slot);
      OrderBlock(ds, A.order, bs, i);
    }
    PoolTiling(z, P.bins, A.L, A.lists, s, e, bs);
  }

  lemma CollectedParts(ds: seq<ObjectDesc>, head: u32, pid: nat, order: seq<nat>, slots: seq<nat>)
    requires Collected(ds, head, pid, order, slots)
    ensures |ds| < 0xFFFF && OrderLinked(ds, order, head) && NoDup(order) && Listed(ds, pid, order)
    ensures forall i :: 0 <= i < |slots| ==> slots[i] < |ds|
  {
    hide OrderLinked, NoDup, AddressIncreasing;
  }

  lemma LiveListed(z: seq<u32>, P: Pool, ds: seq<ObjectDesc>, pid: nat, A: APool, seg: nat, o: nat)
    requires PoolOk(z, P, ds, pid, A, seg) && o in A.L && A.L[o].kind.Live?
    ensures A.L[o].kind.slot in A.order && A.L[o].kind.slot < |ds| && ds[A.L[o].kind.slot].address == o + HEADER
  {
    hide PoolLay, Counters, OrderLinked;
  }

  lemma FreeBytesLeft(z: seq<u32>, P: Pool, ds: seq<ObjectDesc>, pid: nat, A: APool, seg: nat)
    requires PoolOk(z, P, ds, pid, A, seg)
    ensures Bytes(A.L, TFree) == P.freeBytes - P.fragmentBytes && |A.lists| == NBINS
  {
    hide BinsInv, ObjsOk, LayoutInv, Bytes, PoolStart, PoolEnd;
    LayBins(z, P.bins, A.L, A.lists, PoolStart(P, seg), PoolEnd(P, seg));
    TilesOf(z, A.L, PoolStart(P, seg), PoolEnd(P, seg));
    Accounting(A.L, PoolStart(P, seg), PoolEnd(P, seg));
  }

  // From slots to blocks: what phase 1 has established, in the terms of the picture.
  lemma PhaseOne(z: seq<u32>, P: Pool, ds: seq<ObjectDesc>, pid: nat, order: seq<nat>, slots: seq<nat>, s: nat, e: nat)
    requires s <= e && e + MIN_BLOCK <= |z| && Collected(ds, P.orderHead, pid, order, slots)
    requires Addressed(ds, slots) && Ordered(BlocksOf(ds, slots), s, e) && AllLiveOk(z, ds, slots, s, e)
    requires |slots| == P.liveObjects && SumSizes(BlocksOf(ds, slots)) == P.usedBytes && P.freeBytes == e - s - P.usedBytes
    ensures ListPart(z, P, ds, pid, s, e, order, BlocksOf(ds, slots))
  {
    hide Collected, Ordered, SumSizes, LiveOk, ListBlocks, BlocksOf, Addressed;
    CollectedParts(ds, P.orderHead, pid, order, slots);
    CollectedBlocks(ds, P.orderHead, pid, order, slots);
    forall i | 0 <= i < |BlocksOf(ds, slots)| ensures BlocksOf(ds, slots)[i].slot < |ds| && LiveOk(z, ds[BlocksOf(ds, slots)[i].slot], s, e) {
      BlocksIndex(ds, slots, i);
    }
  }

  lemma PhaseOneBack(z: seq<u32>, P: Pool, ds: seq<ObjectDesc>, pid: nat, order: seq<nat>, bs: seq<MB>, slots: seq<nat>, s: nat, e: nat)
    requires s <= e && e + MIN_BLOCK <= |z| && e < ZONE_LIMIT && Collected(ds, P.orderHead, pid, order, slots)
    requires ListPart(z, P, ds, pid, s, e, order, bs)
    ensures Addressed(ds, slots) && BlocksOf(ds, slots) == bs && |slots| == |bs|
    ensures Ordered(BlocksOf(ds, slots), s, e) && AllLiveOk(z, ds, slots, s, e)
    ensures |slots| == P.liveObjects && SumSizes(BlocksOf(ds, slots)) == P.usedBytes && P.freeBytes == e - s - P.usedBytes
  {
    hide Collected, Ordered, SumSizes, LiveOk, ListBlocks, OrderLinked, Listed;
    SlotsAreBlocks(ds, P.orderHead, pid, order, slots, bs, s, e);
  }

  // validate on a pool whose window lies inside the zone. On arbitrary metadata it accepts
  // exactly when a sound picture of the pool exists; on a consistent pool it accepts exactly
  // when the free blocks fit in its scratch array.
  method ValidatePool(zone: array<u32>, objects: array<ObjectDesc>, P: Pool, pid: nat, seg: nat, segCount: nat, zoneSize: nat, ghost A: APool)
      returns (st: Status, ghost w: Picture)
    requires objects.Length < 0xFFFF && ZoneOk(zone[..], seg, segCount, zoneSize) && GeometryOk(P, seg, segCount, zoneSize) && BinsSized(P.bins)
    requires PoolStart(P, seg) <= PoolEnd(P, seg) && PoolEnd(P, seg) + MIN_BLOCK <= zone.Length
    ensures st == Ok || st == CorruptMetadata
    ensures st == Ok <==> exists v :: Sound(zone[..], P, objects[..], pid, PoolStart(P, seg), PoolEnd(P, seg), v)
    ensures st == Ok ==> Sound(zone[..], P, objects[..], pid, PoolStart(P, seg), PoolEnd(P, seg), w)
    ensures PoolOk(zone[..], P, objects[..], pid, A, seg) ==> (st == Ok <==> |FreeMap(A.L)| <= objects.Length + 1)
  {
    hide Sound, PoolOk, ZoneOk, GeometryOk, PoolStart, PoolEnd, FreeMap;
    ghost var hint := Picture([], [], NoLists(), map[]);
    if v :| Sound(zone[..], P, objects[..], pid, PoolStart(P, seg), PoolEnd(P, seg), v) { hint := v; }
    st, w := ValidateBody(zone, objects, P, pid, seg, segCount, zoneSize, hint, A);
  }

  // Collection, phase 1, and the rest, with a candidate picture to compare against.
  method ValidateBody(zone: array<u32>, objects: array<ObjectDesc>, P: Pool, pid: nat, seg: nat, segCount: nat, zoneSize: nat,
                      ghost hint: Picture, ghost A: APool)
      returns (st: Status, ghost w: Picture)
    requires objects.Length < 0xFFFF && ZoneOk(zone[..], seg, segCount, zoneSize) && GeometryOk(P, seg, segCount, zoneSize) && BinsSized(P.bins)
    requires PoolStart(P, seg) <= PoolEnd(P, seg) && PoolEnd(P, seg) + MIN_BLOCK <= zone.Length
    ensures st == Ok || st == CorruptMetadata
    ensures st == Ok ==> Sound(zone[..], P, objects[..], pid, PoolStart(P, seg), PoolEnd(P, seg), w)
    ensures Sound(zone[..], P, objects[..], pid, PoolStart(P, seg), PoolEnd(P, seg), hint) ==> st == Ok
    ensures PoolOk(zone[..], P, objects[..], pid, A, seg) ==> (st == Ok <==> |FreeMap(A.L)| <= objects.Length + 1)
  {
    hide PoolOk, Collected, GoodList, SumSizes, BlocksOf, Ordered, PoolStart, PoolEnd, AllLiveOk, ListPart, BinPart, Tiling, BinsAudited, Flat, FreeMap, Addressed;
    ghost var z, ds := zone[..], objects[..];
    var start, end := PoolStart(P, seg), PoolEnd(P, seg);
    WindowBounds(z, P, seg, segCount, zoneSize);
    WindowAligned(P, seg);
    ghost var pool, given := PoolOk(z, P, ds, pid, A, seg), Sound(z, P, ds, pid, start, end, hint);
    if given { GivenGood(z, P, ds, pid, start, end, hint); }
    if pool { PoolListGood(z, P, ds, pid, A, seg); OrderFits(z, P, ds, pid, A, seg); }
    w := hint;
    var slots;
    ghost var order;
    st, slots, order := CollectLiveSorted(objects, P.orderHead, pid, zoneSize, objects.Length, if given then hint.order else A.order);
    if st != Ok { return; }
    CollectedParts(ds, P.orderHead, pid, order, slots);
    ghost var known := hint;
    if given {
      PhaseOneBack(z, P, ds, pid, order, hint.bs, slots, start, end);
      BinPartFacts(z, P, |ds|, start, end, hint.lists);
    } else if pool {
      PoolSound(z, P, ds, pid, A, seg, slots);
      PoolPhaseOne(z, P, ds, pid, A, seg, slots);
      known := Picture(A.order, BlocksOf(ds, slots), A.lists, A.L);
    }
    var ok, used := CheckLive(zone, objects, slots, start, end);
    if !ok { return CorruptMetadata, w; }
    if |slots| != P.liveObjects || used != P.usedBytes { return CorruptMetadata, w; }
    SumBound(BlocksOf(ds, slots), start, end);
    if P.freeBytes != end - start - used { return CorruptMetadata, w; }
    PhaseOne(z, P, ds, pid, order, slots, start, end);
    ghost var lists, H;
    st, lists, H := AuditCoverage(zone, objects, P, slots, used, start, end,
                                  if |known.lists| == NBINS then known else known.(lists := NoLists()));
    w := Picture(order, BlocksOf(ds, slots), lists, H);
    if st == Ok { BinPartFacts(z, P, |ds|, start, end, lists); }
    if pool && st == Ok { SamePoolBins(z, P, ds, pid, A, seg, lists); }
  }

  // Chains that agree on their first n nodes have the same link there.
  lemma SameLink(z: seq<u32>, a: seq<nat>, b: seq<nat>, head: u32, k: nat, s: nat, e: nat, n: nat)
    requires s <= e < ZONE_LIMIT && e + MIN_BLOCK <= |z|
    requires Chain(z, a, head) && Chain(z, b, head) && NodesOk(z, a, k, s, e) && NodesOk(z, b, k, s, e)
    requires n <= |a| && n <= |b| && a[..n] == b[..n]
    ensures At(a, n) == At(b, n)
  {
    hide NodesOk, Chain, At;
    ChainAt(z, a, head, k, s, e, if n == 0 then 0 else n - 1);
    ChainAt(z, b, head, k, s, e, if n == 0 then 0 else n - 1);
    if n > 0 { assert a[n - 1] == a[..n][n - 1] && b[n - 1] == b[..n][n - 1]; }
  }

  lemma ChainStep(z: seq<u32>, a: seq<nat>, b: seq<nat>, head: u32, k: nat, s: nat, e: nat, n: nat)
    requires s <= e < ZONE_LIMIT && e + MIN_BLOCK <= |z|
    requires Chain(z, a, head) && Chain(z, b, head) && NodesOk(z, a, k, s, e) && NodesOk(z, b, k, s, e)
    requires n < |a| && n <= |b| && a[..n] == b[..n]
    ensures n < |b| && a[n] == b[n]
  {
    hide NodesOk, Chain;
    SameLink(z, a, b, head, k, s, e, n);
    ChainAt(z, a, head, k, s, e, n);
    ChainAt(z, b, head, k, s, e, n);
  }

  lemma ChainEnds(z: seq<u32>, a: seq<nat>, b: seq<nat>, head: u32, k: nat, s: nat, e: nat)
    requires s <= e < ZONE_LIMIT && e + MIN_BLOCK <= |z|
    requires Chain(z, a, head) && Chain(z, b, head) && NodesOk(z, a, k, s, e) && NodesOk(z, b, k, s, e)
    requires |a| <= |b| && a[..|a|] == b[..|a|]
    ensures |b| == |a|
  {
    hide NodesOk, Chain, At;
    SameLink(z, a, b, head, k, s, e, |a|);
    ChainAt(z, a, head, k, s, e, |a|);
    ChainAt(z, b, head, k, s, e, |a|);
  }

  lemma {:induction false} ChainUnique(z: seq<u32>, a: seq<nat>, b: seq<nat>, head: u32, k: nat, s: nat, e: nat, n: nat)
    requires s <= e < ZONE_LIMIT && e + MIN_BLOCK <= |z|
    requires Chain(z, a, head) && Chain(z, b, head) && NodesOk(z, a, k, s, e) && NodesOk(z, b, k, s, e) && n <= |a|
    ensures n <= |b| && a[..n] == b[..n] && (n == |a| ==> a == b)
  {
    hide NodesOk, Chain, At;
    ChainAt(z, b, head, k, s, e, 0);
    if n > 0 {
      ChainUnique(z, a, b, head, k, s, e, n - 1);
      ChainStep(z, a, b, head, k, s, e, n - 1);
      assert a[..n] == a[..n - 1] + [a[n - 1]] && b[..n] == b[..n - 1] + [b[n - 1]];
    }
    if n == |a| {
      ChainEnds(z, a, b, head, k, s, e);
      assert a[..n] == a && b[..n] == b;
    }
  }

  // An accepted audit of a consistent pool has read exactly its bins.
  lemma SamePoolBins(z: seq<u32>, P: Pool, ds: seq<ObjectDesc>, pid: nat, A: APool, seg: nat, lists: seq<seq<nat>>)
    requires PoolOk(z, P, ds, pid, A, seg) && PoolStart(P, seg) <= PoolEnd(P, seg) && PoolEnd(P, seg) + MIN_BLOCK <= |z|
    requires BinShape(P.bins, lists) && BinsAudited(z, P.bins, lists, PoolStart(P, seg), PoolEnd(P, seg))
    ensures lists == A.lists && |Flat(lists, NBINS)| == |FreeMap(A.L)|
  {
    hide Counters, ObjsOk, LayoutInv, BinsInv, PoolStart, PoolEnd, Chain, NodesOk, Flat, FreeMap, FlOk;
    var s, e := PoolStart(P, seg), PoolEnd(P, seg);
    PoolBinsAudited(z, P.bins, A.L, A.lists, s, e);
    PoolFlat(z, P.bins, A.L, A.lists, s, e);
    WindowOrder(z, A.L, s, e);
    forall k | 0 <= k < NBINS ensures lists[k] == A.lists[k] {
      assert BinAudited(z, P.bins, lists[k], k, s, e) && BinAudited(z, P.bins, A.lists[k], k, s, e);
      ChainUnique(z, lists[k], A.lists[k], P.bins.head[k], k, s, e, |lists[k]|);
    }
  }

  lemma GivenGood(z: seq<u32>, P: Pool, ds: seq<ObjectDesc>, pid: nat, s: nat, e: nat, w: Picture)
    requires s <= e < ZONE_LIMIT && e + MIN_BLOCK <= |z| && Sound(z, P, ds, pid, s, e, w)
    ensures GoodList(ds, P.orderHead, pid, w.order) && |w.order| <= |ds|
  {
    hide BinPart, Tiling, OrderLinked, Listed, ListBlocks, Ordered, LiveOk;
    OrderedIsGood(ds, P.orderHead, pid, w.order, w.bs, s, e);
  }

  // A consistent pool passes phase 1.
  lemma PoolPhaseOne(z: seq<u32>, P: Pool, ds: seq<ObjectDesc>, pid: nat, A: APool, seg: nat, slots: seq<nat>)
    requires PoolOk(z, P, ds, pid, A, seg) && seg % 1024 == 0 && Collected(ds, P.orderHead, pid, A.order, slots)
    requires PoolStart(P, seg) <= PoolEnd(P, seg) && PoolEnd(P, seg) + MIN_BLOCK <= |z|
    ensures Addressed(ds, slots) && Ordered(BlocksOf(ds, slots), PoolStart(P, seg), PoolEnd(P, seg))
    ensures AllLiveOk(z, ds, slots, PoolStart(P, seg), PoolEnd(P, seg))
    ensures |slots| == P.liveObjects && SumSizes(BlocksOf(ds, slots)) == P.usedBytes
    ensures P.freeBytes == PoolEnd(P, seg) - PoolStart(P, seg) - P.usedBytes && |A.lists| == NBINS
  {
    hide PoolOk, Collected, LiveOk, PoolStart, PoolEnd, Ordered, BlocksOf, SumSizes, Addressed;
    PoolAudits(z, P, ds, pid, A, seg, slots);
    CollectedBlocks(ds, P.orderHead, pid, A.order, slots);
    FreeBytesLeft(z, P, ds, pid, A, seg);
    forall i | 0 <= i < |slots| ensures slots[i] < |ds| && LiveOk(z, ds[slots[i]], PoolStart(P, seg), PoolEnd(P, seg)) {
      BlocksIndex(ds, slots, i);
      OrderBlock(ds, A.order, BlocksOf(ds, slots), i);
      PoolLiveOk(z, P, ds, pid, A, seg, slots[i]);
    }
  }

  // ---- the entry point ------------------------------------------------------------------------------

  // validate. On a consistent allocator every existing pool passes, unless slack runs have split
  // its free space into more blocks than the scratch array holds; live objects plus slack runs
  // within the table size rule that out.
  method ValidateId(g: GlobalState, pid: nat) returns (st: Status, ghost w: Picture)
    requires g.Valid()
    ensures st == InvalidPool <==> pid >= g.pools.Length || g.pools[pid].state.Empty?
    ensures st == Ok || st == InvalidPool || st == CorruptMetadata
    ensures st != InvalidPool ==> pid < |g.abs| && (st == Ok <==> |FreeMap(g.abs[pid].L)| <= g.objects.Length + 1)
    ensures st != InvalidPool && |KeysOf(g.abs[pid].L, TLive)| + |KeysOf(g.abs[pid].L, TSlack)| <= g.objects.Length ==> st == Ok
  {
    hide Inv, PoolOk, GeometryOk, ZoneOk, SlotsOk, PoolStart, PoolEnd, FreeMap, KeysOf, Sound;
    w := Picture([], [], NoLists(), map[]);
    if pid >= g.pools.Length { return InvalidPool, w; }
    var P := g.pools[pid];
    if P.state.Empty? { return InvalidPool, w; }
    ghost var z, ds := g.zone[..], g.objects[..];
    PoolFacts(z, g.pools[..], ds, g.freeSlotHead, g.segmentSize, g.segmentCount, g.zoneSize, g.abs, g.stack, pid);
    ZoneFacts(z, g.pools[..], ds, g.freeSlotHead, g.segmentSize, g.segmentCount, g.zoneSize, g.abs, g.stack);
    ghost var A := g.abs[pid];
    AuditWindow(z, P, ds, pid, A, g.segmentSize, g.segmentCount, g.zoneSize);
    SlackBound(z, P, ds, pid, A, g.segmentSize);
    st, w := ValidatePool(g.zone, g.objects, P, pid, g.segmentSize, g.segmentCount, g.zoneSize, A);
  }

  lemma AuditWindow(z: seq<u32>, P: Pool, ds: seq<ObjectDesc>, pid: nat, A: APool, seg: nat, segCount: nat, zoneSize: nat)
    requires ZoneOk(z, seg, segCount, zoneSize) && GeometryOk(P, seg, segCount, zoneSize) && PoolOk(z, P, ds, pid, A, seg)
    ensures BinsSized(P.bins) && PoolStart(P, seg) <= PoolEnd(P, seg) && PoolEnd(P, seg) + MIN_BLOCK <= |z|
  {
    hide Counters, ObjsOk, LayoutInv, BinOk, FlOk, PoolStart, PoolEnd;
    WindowBounds(z, P, seg, segCount, zoneSize);
  }

  lemma SlackBound(z: seq<u32>, P: Pool, ds: seq<ObjectDesc>, pid: nat, A: APool, seg: nat)
    requires PoolOk(z, P, ds, pid, A, seg)
    ensures |FreeMap(A.L)| <= |KeysOf(A.L, TLive)| + |KeysOf(A.L, TSlack)| + 1
  {
    hide Counters, ObjsOk, BinsInv, LayoutInv, KeysOf, FreeMap;
    TilesOf(z, A.L, PoolStart(P, seg), PoolEnd(P, seg));
    FreeKeys(A.L, PoolStart(P, seg), PoolEnd(P, seg));
    FreeCount(A.L, PoolStart(P, seg), PoolEnd(P, seg));
  }

  // ---- what acceptance rules out ------------------------------------------------------------------

  // In an accepted pool live and binned blocks are pairwise disjoint ...
  lemma AcceptedDisjoint(z: seq<u32>, P: Pool, ds: seq<ObjectDesc>, pid: nat, s: nat, e: nat, w: Picture, i: nat, j: nat)
    requires s <= e && e + MIN_BLOCK <= |z| && Sound(z, P, ds, pid, s, e, w) && |w.lists| == NBINS && j < |Flat(w.lists, NBINS)|
    ensures var fs := Flat(w.lists, NBINS);
            && fs[j] < |z|
            && (i < |w.bs| ==> w.bs[i].off + w.bs[i].size <= fs[j] || fs[j] + BlkSize(z[fs[j]]) <= w.bs[i].off)
            && (i < |fs| && i != j ==> fs[i] < |z| && (fs[i] + BlkSize(z[fs[i]]) <= fs[j] || fs[j] + BlkSize(z[fs[j]]) <= fs[i]))
  {
    hide ListPart, BinPart, Coalesced, SlackSmall;
    var fs := Flat(w.lists, NBINS);
    assert w.H[fs[j]] == FreeBlk(z, fs[j]);
    if i < |w.bs| { assert w.H[w.bs[i].off] == LiveBlk(w.bs[i]); }
    if i < |fs| { assert w.H[fs[i]] == FreeBlk(z, fs[i]); }
  }

  // No live and no binned block meets [a, b).
  ghost predicate Uncovered(z: seq<u32>, bs: seq<MB>, fs: seq<nat>, a: nat, b: nat) {
    && (forall i :: 0 <= i < |bs| ==> bs[i].off + bs[i].size <= a || b <= bs[i].off)
    && (forall j :: 0 <= j < |fs| ==> fs[j] < |z| && (fs[j] + BlkSize(z[fs[j]]) <= a || b <= fs[j]))
  }

  // ... and every stretch that meets none of them is shorter than a minimal block.
  lemma AcceptedGap(z: seq<u32>, P: Pool, ds: seq<ObjectDesc>, pid: nat, s: nat, e: nat, w: Picture, a: nat, b: nat)
    requires s <= e && e + MIN_BLOCK <= |z| && Sound(z, P, ds, pid, s, e, w) && |w.lists| == NBINS && s <= a < b <= e
    requires Uncovered(z, w.bs, Flat(w.lists, NBINS), a, b)
    ensures b - a < MIN_BLOCK
  {
    hide ListPart, BinPart, Tiles, Uncovered;
    CoversOnce(w.H, s, e, a);
    var o :| o in w.H && o <= a < End(w.H, o);
    UncoveredSlack(w.H, z, w.bs, Flat(w.lists, NBINS), a, b, o);
    if End(w.H, o) < b {
      NextBlock(w.H, s, e, o);
      UncoveredSlack(w.H, z, w.bs, Flat(w.lists, NBINS), a, b, End(w.H, o));
    }
  }

  lemma NextBlock(H: Lay, s: nat, e: nat, o: nat)
    requires Tiles(H, s, e) && o in H && End(H, o) < e
    ensures End(H, o) in H && H[End(H, o)].size > 0
  {
  }

  // A block that meets an uncovered stretch is slack.
  lemma UncoveredSlack(H: Lay, z: seq<u32>, bs: seq<MB>, fs: seq<nat>, a: nat, b: nat, o: nat)
    requires Covers(H, z, bs, fs) && o in H && o < b && a < o + H[o].size
    requires Uncovered(z, bs, fs, a, b)
    ensures H[o].kind.Slack?
  {
    forall i | 0 <= i < |bs| ensures bs[i].off != o {
      assert H[bs[i].off] == LiveBlk(bs[i]);
    }
    forall j | 0 <= j < |fs| ensures fs[j] != o {
      assert H[fs[j]] == FreeBlk(z, fs[j]);
    }
  }
}
