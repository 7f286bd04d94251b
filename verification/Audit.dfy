/** audit_pool_bins and prev_link_ok: the free-list audit that validate and merge share. It runs
    on arbitrary zone contents; only the window is known to lie inside the zone. */
module Audit {
  import opened Base
  import opened Lists
  import opened SizeClass
  import opened Bins
  import opened Layout
  import opened BoundaryTags
  import opened PoolHeap

  // ---- one block ------------------------------------------------------------------------------

  // prev_link_ok: prev_size is 0 or names a predecessor that agrees.
  predicate PrevLinkOk(z: seq<u32>, o: nat, s: nat)
    requires s <= o && o + 4 < |z|
  {
    var p := z[o + 4];
    p == 0 || (MIN_BLOCK <= p <= o - s && BlkSize(z[o - p]) == p)
  }

  predicate InPool(o: nat, len: nat, s: nat, e: nat) {
    s <= o && o <= e && len <= e - o
  }

  // What the audit requires of a node of bin k.
  predicate NodeOk(z: seq<u32>, o: nat, k: nat, s: nat, e: nat)
    requires s <= e && e + MIN_BLOCK <= |z|
  {
    && InPool(o, HEADER, s, e)
    && var n := BlkSize(z[o]);
    && MIN_BLOCK <= n && n % ALIGN == 0 && InPool(o, n, s, e) && BlkFree(z[o]) && BinIdx(n) == k
    && (z[o + 12] != NULL_OFF ==> InPool(z[o + 12], HEADER, s, e) && z[z[o + 12] + 8] == o)
    && (z[o + 8] != NULL_OFF ==> InPool(z[o + 8], HEADER, s, e) && z[z[o + 8] + 12] == o)
    && PrevLinkOk(z, o, s)
  }

  // The same on the words of the zone: tag and size at o, prev_size at o + 4, the links behind
  // them, each link answered by the block it names.
  lemma NodeSpelled(z: seq<u32>, o: nat, k: nat, s: nat, e: nat)
    requires s <= e && e + MIN_BLOCK <= |z|
    ensures NodeOk(z, o, k, s, e) <==>
              && s <= o && o + 8 <= e && z[o] % 2 == 1
              && z[o] > 16 && (z[o] - 1) % 8 == 0 && o + (z[o] - 1) <= e && BinIdx(z[o] - 1) == k
              && (z[o + 12] == 0xFFFF_FFFF || (s <= z[o + 12] && z[o + 12] + 8 <= e && z[z[o + 12] + 8] == o))
              && (z[o + 8] == 0xFFFF_FFFF || (s <= z[o + 8] && z[o + 8] + 8 <= e && z[z[o + 8] + 12] == o))
              && (z[o + 4] == 0 || (16 <= z[o + 4] && s + z[o + 4] <= o && z[o - z[o + 4]] - z[o - z[o + 4]] % 2 == z[o + 4]))
  {
    hide BinIdx;
  }

  // ---- one list -------------------------------------------------------------------------------

  // list is what following next links from head visits.
  ghost predicate Chain(z: seq<u32>, list: seq<nat>, head: u32) {
    && head == At(list, 0)
    && (forall i :: 0 <= i < |list| ==> list[i] + MIN_BLOCK <= |z|)
    && (forall i {:trigger list[i]} :: 0 <= i < |list| ==> z[list[i] + 12] == At(list, i + 1))
  }

  ghost predicate NodesOk(z: seq<u32>, list: seq<nat>, k: nat, s: nat, e: nat)
    requires s <= e && e + MIN_BLOCK <= |z|
  {
    forall i :: 0 <= i < |list| ==> NodeOk(z, list[i], k, s, e)
  }

  function SumSz(z: seq<u32>, list: seq<nat>): nat
    requires forall i :: 0 <= i < |list| ==> list[i] < |z|
  {
    if list == [] then 0 else SumSz(z, list[..|list| - 1]) + BlkSize(z[list[|list| - 1]])
  }

  ghost predicate Readable(z: seq<u32>, list: seq<nat>) {
    forall i :: 0 <= i < |list| ==> list[i] < |z|
  }

  // The walk has visited `seen` and stands at off.
  ghost predicate Visited(z: seq<u32>, seen: seq<nat>, head: u32, off: u32) {
    && (forall i :: 0 <= i < |seen| ==> seen[i] + MIN_BLOCK <= |z|)
    && (forall i {:trigger seen[i]} :: 0 <= i < |seen| - 1 ==> z[seen[i] + 12] == seen[i + 1])
    && (if seen == [] then off == head else seen[0] == head && z[seen[|seen| - 1] + 12] == off)
  }

  ghost predicate OnHint(hint: seq<nat>, seen: seq<nat>, off: u32) {
    |seen| <= |hint| && seen == hint[..|seen|] && off == At(hint, |seen|)
  }

  lemma VisitNext(z: seq<u32>, seen: seq<nat>, head: u32, off: u32)
    requires Visited(z, seen, head, off) && off + MIN_BLOCK <= |z|
    ensures Visited(z, seen + [off as nat], head, z[off + 12])
  {
    var t := seen + [off as nat];
    forall i | 0 <= i < |t| - 1 ensures z[t[i] + 12] == t[i + 1] {
      if i < |seen| - 1 { assert t[i] == seen[i]; }
    }
  }

  lemma VisitEnd(z: seq<u32>, seen: seq<nat>, head: u32)
    requires Visited(z, seen, head, NULL_OFF)
    ensures Chain(z, seen, head)
  {
    forall i | 0 <= i < |seen| ensures z[seen[i] + 12] == At(seen, i + 1) {
    }
  }

  // On a list that meets the audit the walk stands on its next node.
  lemma HintNext(z: seq<u32>, hint: seq<nat>, seen: seq<nat>, head: u32, off: u32, k: nat, s: nat, e: nat)
    requires s <= e < ZONE_LIMIT && e + MIN_BLOCK <= |z|
    requires Chain(z, hint, head) && NodesOk(z, hint, k, s, e) && OnHint(hint, seen, off)
    ensures off != NULL_OFF ==> |seen| < |hint| && NodeOk(z, off, k, s, e) && OnHint(hint, seen + [off as nat], z[off + 12])
    ensures off == NULL_OFF ==> seen == hint
  {
    hide NodeOk;
    var n := |seen|;
    if n < |hint| {
      NodeBelow(z, hint[n], k, s, e);
      assert hint[n] == off;
      assert z[hint[n] + 12] == At(hint, n + 1);
      assert seen + [off as nat] == hint[..n + 1];
    }
  }

  lemma NodeBelow(z: seq<u32>, o: nat, k: nat, s: nat, e: nat)
    requires s <= e && e + MIN_BLOCK <= |z| && NodeOk(z, o, k, s, e)
    ensures s <= o && o + MIN_BLOCK <= e
  {
    hide BlkSize, BlkFree, BinIdx, PrevLinkOk;
  }

  lemma SumSzPush(z: seq<u32>, list: seq<nat>, o: nat)
    requires Readable(z, list) && o < |z|
    ensures Readable(z, list + [o]) && SumSz(z, list + [o]) == SumSz(z, list) + BlkSize(z[o])
  {
    assert (list + [o])[..|list|] == list;
  }

  // One bin: a bounded walk that reads a node only after its offset is proved.
  method AuditList(zone: array<u32>, head: u32, k: nat, start: nat, end: nat, maxSteps: nat, ghost hint: seq<nat>)
      returns (ok: bool, bytes: nat, ghost list: seq<nat>)
    requires start <= end < ZONE_LIMIT && end + MIN_BLOCK <= zone.Length
    ensures ok ==> Chain(zone[..], list, head) && |list| <= maxSteps && NodesOk(zone[..], list, k, start, end)
    ensures ok ==> Readable(zone[..], list) && bytes == SumSz(zone[..], list)
    ensures Chain(zone[..], hint, head) && NodesOk(zone[..], hint, k, start, end) && |hint| <= maxSteps ==> ok && list == hint
  {
    hide NodeOk, Chain, Visited, OnHint, BlkSize, BlkFree, BinIdx, PrevLinkOk;
    ghost var z := zone[..];
    ghost var good := Chain(z, hint, head) && NodesOk(z, hint, k, start, end) && |hint| <= maxSteps;
    ok, bytes, list := false, 0, [];
    var off: u32, steps: nat := head, 0;
    ListStart(z, hint, head);
    while off != NULL_OFF
      invariant steps == |list| <= maxSteps && Visited(z, list, head, off) && NodesOk(z, list, k, start, end)
      invariant Readable(z, list) && bytes == SumSz(z, list)
      invariant good ==> OnHint(hint, list, off)
      decreases maxSteps - steps
    {
      if good {
        HintNext(z, hint, list, head, off, k, start, end);
        NodeBelow(z, off, k, start, end);
        OnHintLength(hint, list + [off as nat], z[off + 12]);
      }
      steps := steps + 1;
      if steps > maxSteps { return; }
      var sound := AuditNode(zone, off, k, start, end);
      if !sound { return; }
      NodeBelow(z, off, k, start, end);
      VisitNext(z, list, head, off);
      SumSzPush(z, list, off);
      bytes := bytes + BlkSize(zone[off]);
      list := list + [off as nat];
      off := zone[off + 12];
    }
    ok := true;
    VisitEnd(z, list, head);
    if good { HintNext(z, hint, list, head, off, k, start, end); }
  }

  lemma ListStart(z: seq<u32>, hint: seq<nat>, head: u32)
    ensures Visited(z, [], head, head) && (Chain(z, hint, head) ==> OnHint(hint, [], head))
  {
  }

  lemma OnHintLength(hint: seq<nat>, seen: seq<nat>, off: u32)
    requires OnHint(hint, seen, off)
    ensures |seen| <= |hint|
  {
  }

  method AuditNode(zone: array<u32>, off: nat, k: nat, start: nat, end: nat) returns (ok: bool)
    requires start <= end && end + MIN_BLOCK <= zone.Length
    ensures ok == NodeOk(zone[..], off, k, start, end)
  {
    hide BlkSize, BlkFree, BinIdx, PrevLinkOk;
    if !InPool(off, HEADER, start, end) { return false; }
    var bsize := BlkSize(zone[off]);
    if bsize < MIN_BLOCK || bsize % ALIGN != 0 { return false; }
    if !InPool(off, bsize, start, end) { return false; }
    if !BlkFree(zone[off]) { return false; }
    if BinIdx(bsize) != k { return false; }
    var next, prev := zone[off + 12], zone[off + 8];
    if next != NULL_OFF {
      if !InPool(next, HEADER, start, end) { return false; }
      if zone[next + 8] != off { return false; }
    }
    if prev != NULL_OFF {
      if !InPool(prev, HEADER, start, end) { return false; }
      if zone[prev + 12] != off { return false; }
    }
    if !PrevLinkOk(zone[..], off, start) { return false; }
    return true;
  }

  // ---- all bins -------------------------------------------------------------------------------

  // Most blocks a window can hold, plus one.
  function MaxSteps(s: nat, e: nat): nat
    requires s <= e
  {
    (e - s) / MIN_BLOCK + 1
  }

  ghost predicate BinAudited(z: seq<u32>, b: TlsfBins, list: seq<nat>, k: nat, s: nat, e: nat)
    requires s <= e && e + MIN_BLOCK <= |z| && |b.sl| == |b.head| == NBINS && k < NBINS
  {
    && Chain(z, list, b.head[k]) && NodesOk(z, list, k, s, e) && |list| <= MaxSteps(s, e)
    && (b.sl[k] <==> list != [])
  }

  // What the audit of a pool's free lists accepts: every bin is a terminated list of sound
  // nodes of its class, and both bitmap levels agree.
  ghost predicate BinsAudited(z: seq<u32>, b: TlsfBins, lists: seq<seq<nat>>, s: nat, e: nat)
    requires s <= e && e + MIN_BLOCK <= |z| && BinShape(b, lists)
  {
    (forall k :: 0 <= k < NBINS ==> BinAudited(z, b, lists[k], k, s, e)) && FlOk(b)
  }

  // The nodes of the first k bins, in bin order.
  function Flat(lists: seq<seq<nat>>, k: nat): seq<nat>
    requires k <= |lists|
  {
    if k == 0 then [] else Flat(lists, k - 1) + lists[k - 1]
  }

  lemma {:induction false} FlatReadable(z: seq<u32>, lists: seq<seq<nat>>, k: nat)
    requires k <= |lists| && forall j :: 0 <= j < k ==> Readable(z, lists[j])
    ensures Readable(z, Flat(lists, k))
  {
    if k > 0 {
      FlatReadable(z, lists, k - 1);
    }
  }

  lemma {:induction false} SumSzConcat(z: seq<u32>, a: seq<nat>, b: seq<nat>)
    requires Readable(z, a) && Readable(z, b)
    ensures Readable(z, a + b) && SumSz(z, a + b) == SumSz(z, a) + SumSz(z, b)
    decreases |b|
  {
    hide BlkSize;
    if b == [] {
      assert a + b == a;
    } else {
      var n := |b| - 1;
      SumSzConcat(z, a, b[..n]);
      assert (a + b)[..|a + b| - 1] == a + b[..n];
    }
  }

  method AuditPoolBins(zone: array<u32>, b: TlsfBins, start: nat, end: nat, ghost hint: seq<seq<nat>>)
      returns (st: Status, total: nat, ghost lists: seq<seq<nat>>)
    requires start <= end < ZONE_LIMIT && end + MIN_BLOCK <= zone.Length && BinShape(b, hint)
    ensures st == Ok || st == CorruptMetadata
    ensures st == Ok ==> BinShape(b, lists) && BinsAudited(zone[..], b, lists, start, end)
    ensures st == Ok ==> Readable(zone[..], Flat(lists, NBINS)) && total == SumSz(zone[..], Flat(lists, NBINS))
    ensures BinsAudited(zone[..], b, hint, start, end) ==> st == Ok && lists == hint
  {
    hide Chain, NodesOk, BlkSize, FlOk, Flat, SumSz;
    ghost var z := zone[..];
    CountedStart(z);
    ghost var good := BinsAudited(z, b, hint, start, end);
    st, total, lists := CorruptMetadata, 0, [];
    var maxSteps := MaxSteps(start, end);
    for k := 0 to NBINS
      invariant |lists| == k && forall j :: 0 <= j < k ==> BinAudited(z, b, lists[j], j, start, end)
      invariant Readable(z, Flat(lists, k)) && total == SumSz(z, Flat(lists, k))
      invariant good ==> lists == hint[..k]
    {
      var head := b.head[k];
      assert good ==> BinAudited(z, b, hint[k], k, start, end);
      if good { ChainHead(z, hint[k], head, k, start, end); }
      if (head != NULL_OFF) != b.sl[k] { return; }
      var ok, bytes;
      ghost var list;
      ok, bytes, list := AuditList(zone, head, k, start, end, maxSteps, hint[k]);
      if !ok { return; }
      ChainHead(z, list, head, k, start, end);
      CountedNext(z, lists, list);
      assert good ==> hint[..k + 1] == hint[..k] + [hint[k]];
      total := total + bytes;
      lists := lists + [list];
    }
    assert good ==> hint[..NBINS] == hint;
    var agree := AuditFirstLevel(b);
    if agree { st := Ok; }
  }

  lemma CountedStart(z: seq<u32>)
    ensures Flat([], 0) == [] && Readable(z, []) && SumSz(z, []) == 0
  {
  }

  lemma CountedNext(z: seq<u32>, lists: seq<seq<nat>>, list: seq<nat>)
    requires Readable(z, Flat(lists, |lists|)) && Readable(z, list)
    ensures Readable(z, Flat(lists + [list], |lists| + 1))
    ensures SumSz(z, Flat(lists + [list], |lists| + 1)) == SumSz(z, Flat(lists, |lists|)) + SumSz(z, list)
  {
    hide SumSz, Readable, Flat;
    SumSzConcat(z, Flat(lists, |lists|), list);
    FlatPush(lists, list);
  }

  // Every first-level bit is set exactly if one of its four bins is marked.
  method AuditFirstLevel(b: TlsfBins) returns (ok: bool)
    requires |b.fl| == FL_COUNT && |b.sl| == NBINS
    ensures ok <==> FlOk(b)
  {
    ok := false;
    for f := 0 to FL_COUNT
      invariant forall g :: 0 <= g < f ==> (b.fl[g] <==> b.sl[4 * g] || b.sl[4 * g + 1] || b.sl[4 * g + 2] || b.sl[4 * g + 3])
    {
      var any := b.sl[4 * f] || b.sl[4 * f + 1] || b.sl[4 * f + 2] || b.sl[4 * f + 3];
      if any != b.fl[f] { return; }
    }
    ok := true;
  }

  lemma ChainHead(z: seq<u32>, list: seq<nat>, head: u32, k: nat, s: nat, e: nat)
    requires s <= e < ZONE_LIMIT && e + MIN_BLOCK <= |z| && Chain(z, list, head) && NodesOk(z, list, k, s, e)
    ensures head == NULL_OFF <==> list == []
  {
    hide NodeOk;
    if list != [] { NodeBelow(z, list[0], k, s, e); }
  }

  lemma {:induction false} FlatPrefix(a: seq<seq<nat>>, b: seq<seq<nat>>, k: nat)
    requires k <= |a| && k <= |b| && a[..k] == b[..k]
    ensures Flat(a, k) == Flat(b, k)
  {
    if k > 0 {
      assert a[..k - 1] == a[..k][..k - 1] && b[..k - 1] == b[..k][..k - 1];
      assert a[k - 1] == a[..k][k - 1] && b[k - 1] == b[..k][k - 1];
      FlatPrefix(a, b, k - 1);
    }
  }

  lemma FlatPush(lists: seq<seq<nat>>, list: seq<nat>)
    ensures Flat(lists + [list], |lists| + 1) == Flat(lists, |lists|) + list
  {
    FlatPrefix(lists + [list], lists, |lists|);
  }

  // ---- a consistent pool passes -----------------------------------------------------------------

  lemma WindowCount(F: map<nat, nat>, s: nat, e: nat)
    requires s <= e && Spaced(F) && forall o :: o in F ==> s <= o && o + MIN_BLOCK <= e
    ensures |F| <= (e - s) / MIN_BLOCK
  {
    var S := set o | o in F.Keys :: o - s;
    ShiftCount(F.Keys, S, s);
    SpacedCount(S, e - s);
    assert |F.Keys| == |F|;
  }

  lemma {:induction false} ShiftCount(K: set<nat>, S: set<int>, s: nat)
    requires (forall o :: o in K ==> s <= o) && S == set o | o in K :: o - s
    ensures |S| == |K|
    decreases |K|
  {
    if K == {} {
      assert S == {};
    } else {
      var o :| o in K;
      var T := set x | x in K - {o} :: x - s;
      forall y | y in S - {o - s} ensures y in T {
        var x :| x in K && x - s == y;
        assert x in K - {o};
      }
      assert S - {o - s} == T;
      ShiftCount(K - {o}, S - {o - s}, s);
    }
  }

  lemma ListCount(list: seq<nat>, F: map<nat, nat>)
    requires NoDup(list) && forall o :: o in list ==> o in F
    ensures |list| <= |F|
  {
    DistinctSet(list);
    SubsetCount(SetOf(list), F.Keys);
    assert |F.Keys| == |F|;
  }

  ghost function SetOf(list: seq<nat>): set<nat> {
    set o | o in list
  }

  lemma {:induction false} DistinctSet(list: seq<nat>)
    requires NoDup(list)
    ensures |SetOf(list)| == |list|
  {
    if list != [] {
      DistinctSet(list[1..]);
      assert list == [list[0]] + list[1..];
      assert list[0] !in list[1..];
      assert SetOf(list) == SetOf(list[1..]) + {list[0]};
    }
  }

  // The bins of a consistent pool pass the audit.
  lemma PoolBinsAudited(z: seq<u32>, b: TlsfBins, L: Lay, lists: seq<seq<nat>>, s: nat, e: nat)
    requires PoolLay(z, b, L, lists, s, e) && e + MIN_BLOCK <= |z|
    ensures s <= e && BinShape(b, lists) && BinsAudited(z, b, lists, s, e)
  {
    hide LayoutInv, BinOk, FlOk, Spaced, FreeCell, BinIdx;
    WindowOrder(z, L, s, e);
    forall k | 0 <= k < NBINS ensures BinAudited(z, b, lists[k], k, s, e) {
      PoolBinAudited(z, b, L, lists, s, e, k);
    }
  }

  lemma WindowOrder(z: seq<u32>, L: Lay, s: nat, e: nat)
    requires LayoutInv(z, L, s, e)
    ensures s <= e < ZONE_LIMIT
    ensures forall o :: o in FreeMap(L) ==> s <= o && o + MIN_BLOCK <= o + FreeMap(L)[o] <= e
  {
    hide HeadersOk, PrevOk, Coalesced;
  }

  lemma PoolBinAudited(z: seq<u32>, b: TlsfBins, L: Lay, lists: seq<seq<nat>>, s: nat, e: nat, k: nat)
    requires PoolLay(z, b, L, lists, s, e) && s <= e && e + MIN_BLOCK <= |z| && k < NBINS
    ensures |b.sl| == |b.head| == |lists| == NBINS && BinAudited(z, b, lists[k], k, s, e)
  {
    hide LayoutInv, FlOk, Spaced, BinIdx, Linked, NodeOk, NoDup, Chain, FreeMap;
    WindowOrder(z, L, s, e);
    assert BinOk(z, b, lists, FreeMap(L), k);
    var list := lists[k];
    LinkedChain(z, list, b.head[k]);
    forall i | 0 <= i < |list| ensures NodeOk(z, list[i], k, s, e) {
      assert list[i] in list;
      PoolNodeOk(z, b, L, lists, s, e, list[i]);
    }
    WindowCount(FreeMap(L), s, e);
    ListCount(list, FreeMap(L));
  }

  lemma LinkedChain(z: seq<u32>, list: seq<nat>, head: u32)
    requires Linked(z, list, head)
    ensures Chain(z, list, head)
  {
    forall i | 0 <= i < |list| ensures z[list[i] + 12] == At(list, i + 1) {
      assert NextOf(z, list[i]) == At(list, i + 1);
    }
  }

  lemma PoolNodeOk(z: seq<u32>, b: TlsfBins, L: Lay, lists: seq<seq<nat>>, s: nat, e: nat, o: nat)
    requires PoolLay(z, b, L, lists, s, e) && s <= e && e + MIN_BLOCK <= |z| && o in FreeMap(L)
    ensures NodeOk(z, o, BinIdx(FreeMap(L)[o]), s, e)
  {
    hide BinIdx, BinsInv, LayoutInv, BlkSize, BlkFree, PrevLinkOk;
    BlockHeaderFacts(z, L, s, e, o);
    BinnedNeighbours(z, b, L, lists, s, e, o);
    PoolPrevLink(z, L, s, e, o);
  }

  // The prev_size chain of a consistent window passes the shared check.
  lemma PoolPrevLink(z: seq<u32>, L: Lay, s: nat, e: nat, o: nat)
    requires LayoutInv(z, L, s, e) && o in L && !L[o].kind.Slack?
    ensures s <= o && o + 4 < |z| && PrevLinkOk(z, o, s)
  {
    hide LayoutInv, BlkSize;
    BlockHeaderFacts(z, L, s, e, o);
    PrevSizeMeaning(z, L, s, e, o);
    if z[o + 4] != 0 {
      BlockHeaderFacts(z, L, s, e, o - z[o + 4]);
    }
  }
}
