/** The allocator's global state: the zone, the pool table and the descriptor table, with the
    one invariant that ties all three together. */
module State {
  import opened Base
  import opened Lists
  import opened Bins
  import opened Layout
  import opened PoolHeap
  import opened Objects

  datatype PoolState = Empty | Running | Paused | Compacting | Merging | Splitting

  datatype Pool = Pool(
    state: PoolState, segmentFirst: u16, segmentCount: u16, borrowCount: nat, structureEpoch: u32,
    usedBytes: nat, freeBytes: nat, fragmentBytes: nat, liveObjects: nat,
    objectsMoved: nat, bytesMoved: nat, bins: TlsfBins, orderHead: u32)

  // What memset(&P, 0, sizeof(P)) leaves: an Empty slot.
  function ZeroPool(): Pool {
    Pool(Empty, 0, 0, 0, 0, 0, 0, 0, 0, 0, 0,
         TlsfBins(seq(FL_COUNT, _ => false), seq(NBINS, _ => false), seq(NBINS, _ => 0)), 0)
  }

  datatype RawRef = RawRef(index: u32, generation: u16, poolHint: u16, offset: u32)

  // The abstraction of one pool: its layout, its bin lists and its live list.
  datatype APool = APool(L: Lay, lists: seq<seq<nat>>, order: seq<nat>)

  // Byte offset of segment k.
  function SegOff(k: nat, seg: nat): (r: nat) {
    k * seg
  }

  lemma SegMono(a: nat, b: nat, seg: nat)
    requires a <= b
    ensures SegOff(a, seg) <= SegOff(b, seg)
  {
    assert (b - a) * seg >= 0;
    assert b * seg == a * seg + (b - a) * seg;
  }

  lemma SegStrict(a: nat, b: nat, seg: nat)
    requires a < b
    ensures SegOff(a, seg) + seg <= SegOff(b, seg)
  {
    SegMono(a + 1, b, seg);
    assert (a + 1) * seg == a * seg + seg;
  }

  lemma SegAligned(k: nat, seg: nat)
    requires seg % 1024 == 0
    ensures SegOff(k, seg) % ALIGN == 0
  {
    var q := seg / 1024;
    assert seg == 1024 * q;
    assert k * seg == 1024 * (k * q);
  }

  lemma QuotientPositive(a: nat, b: nat)
    requires 0 < b <= a
    ensures 0 < a / b && 0 <= (a / b) * b <= a
  {
    var q, r := a / b, a % b;
    assert a == q * b + r;
    assert q <= 0 ==> q * b <= 0;
  }

  function PoolStart(P: Pool, seg: nat): nat {
    SegOff(P.segmentFirst, seg)
  }

  function PoolEnd(P: Pool, seg: nat): nat {
    SegOff(P.segmentFirst + P.segmentCount, seg)
  }

  // pool_geometry_ok
  predicate GeometryOk(P: Pool, seg: nat, segCount: nat, zoneSize: nat) {
    P.segmentFirst + P.segmentCount <= segCount && PoolEnd(P, seg) <= zoneSize
  }

  ghost predicate Counters(P: Pool, L: Lay, s: nat, e: nat) {
    && P.usedBytes == Bytes(L, TLive)
    && s <= e && P.freeBytes == e - s - P.usedBytes
    && P.fragmentBytes == Bytes(L, TSlack)
  }

  // Everything that has to agree about pool pid.
  ghost predicate PoolOk(z: seq<u32>, P: Pool, ds: seq<ObjectDesc>, pid: nat, A: APool, seg: nat) {
    && PoolLay(z, P.bins, A.L, A.lists, PoolStart(P, seg), PoolEnd(P, seg))
    && Counters(P, A.L, PoolStart(P, seg), PoolEnd(P, seg))
    && ObjsOk(ds, P.orderHead, pid, A.L, A.order) && P.liveObjects == |A.order|
    && P.borrowCount == BorrowSum(ds, A.order)
  }

  ghost predicate ZoneOk(z: seq<u32>, seg: nat, segCount: nat, zoneSize: nat) {
    && 1024 <= seg && seg % 1024 == 0 && 0 < segCount < 0x1_0000
    && zoneSize == SegOff(segCount, seg) < ZONE_LIMIT
    && zoneSize + MIN_BLOCK <= |z| <= ZONE_LIMIT
  }

  predicate Settled(P: Pool) {
    P.state.Running? || P.state.Paused?
  }

  predicate Apart(P: Pool, Q: Pool) {
    P.segmentFirst + P.segmentCount <= Q.segmentFirst || Q.segmentFirst + Q.segmentCount <= P.segmentFirst
  }

  ghost predicate PoolSlotOk(z: seq<u32>, P: Pool, ds: seq<ObjectDesc>, pid: nat, A: APool,
                             seg: nat, segCount: nat, zoneSize: nat) {
    if P.state.Empty? then P == ZeroPool()
    else
      && Settled(P) && P.segmentCount > 0 && GeometryOk(P, seg, segCount, zoneSize)
      && PoolOk(z, P, ds, pid, A, seg)
  }

  ghost predicate SlotOwned(ps: seq<Pool>, ds: seq<ObjectDesc>, abs: seq<APool>, sl: nat)
    requires sl < |ds| && |abs| == |ps|
  {
    ds[sl].state.LiveObj? ==> ds[sl].poolId < |ps| && !ps[ds[sl].poolId].state.Empty? && sl in abs[ds[sl].poolId].order
  }

  // The whole invariant: every pool slot is zeroed or consistent, windows are disjoint, and
  // every descriptor slot is free and stacked or live in exactly one pool's list.
  ghost predicate Inv(z: seq<u32>, ps: seq<Pool>, ds: seq<ObjectDesc>, head: u16,
                      seg: nat, segCount: nat, zoneSize: nat, abs: seq<APool>, stack: seq<nat>) {
    && ZoneOk(z, seg, segCount, zoneSize)
    && |abs| == |ps| < 0xFFFF
    && (forall p :: 0 <= p < |ps| ==> PoolSlotOk(z, ps[p], ds, p, abs[p], seg, segCount, zoneSize))
    && (forall p, q :: 0 <= p < |ps| && 0 <= q < |ps| && p != q && !ps[p].state.Empty? && !ps[q].state.Empty? ==>
         Apart(ps[p], ps[q]))
    && SlotsOk(ds, head, stack)
    && (forall sl :: 0 <= sl < |ds| ==> SlotOwned(ps, ds, abs, sl))
  }

  function InitDesc(i: nat, maxObjects: nat): ObjectDesc
    requires maxObjects < 0xFFFF
  {
    BlankDesc().(addrPrev := NO_ORDER, addrNext := NO_ORDER,
                 nextFreeSlot := if i + 1 < maxObjects then i + 1 else NO_SLOT)
  }

  class GlobalState {
    const zone: array<u32>
    const zoneSize: nat
    const segmentSize: nat
    const segmentCount: nat
    const pools: array<Pool>
    const objects: array<ObjectDesc>
    var freeSlotHead: u16
    var liveObjectCount: nat

    ghost var abs: seq<APool>
    ghost var stack: seq<nat>

    ghost predicate Valid()
      reads this, zone, pools, objects
    {
      && Inv(zone[..], pools[..], objects[..], freeSlotHead, segmentSize, segmentCount, zoneSize, abs, stack)
      && liveObjectCount + |stack| == objects.Length
    }

    // init: one zone, every pool slot Empty, every descriptor slot on the free stack.
    constructor (zoneBytes: nat, segmentBytes: nat, maxPools: nat, maxObjects: nat)
      requires 1024 <= segmentBytes && segmentBytes % 1024 == 0 && segmentBytes <= zoneBytes
      requires zoneBytes / segmentBytes < 0x1_0000 && (zoneBytes / segmentBytes) * segmentBytes < ZONE_LIMIT
      requires 1 <= maxPools < 0xFFFF && 1 <= maxObjects < 0xFFFF
      ensures Valid() && segmentSize == segmentBytes && segmentCount == zoneBytes / segmentBytes && zoneSize == (zoneBytes / segmentBytes) * segmentBytes
      ensures pools.Length == maxPools && objects.Length == |stack| == maxObjects && fresh(zone) && fresh(pools) && fresh(objects)
      ensures forall p :: 0 <= p < maxPools ==> pools[p] == ZeroPool()
      ensures forall sl :: 0 <= sl < maxObjects ==> objects[sl].state.FreeSlot? && objects[sl].generation == 0
    {
      var n := zoneBytes / segmentBytes;
      zoneSize, segmentSize, segmentCount := n * segmentBytes, segmentBytes, n;
      zone := new u32[n * segmentBytes + MIN_BLOCK](_ => 0);
      pools := new Pool[maxPools](_ => ZeroPool());
      objects := new ObjectDesc[maxObjects](i => InitDesc(i, maxObjects));
      freeSlotHead := 0;
      liveObjectCount := 0;
      abs := seq(maxPools, _ => APool(map[], [], []));
      stack := seq(maxObjects, i => i);
      new;
      assert forall i :: 0 <= i < objects.Length ==> objects[i] == InitDesc(i, maxObjects);
      QuotientPositive(zoneBytes, segmentBytes);
      InitInv(zone[..], pools[..], objects[..], segmentBytes, n, abs, stack);
    }
  }

  // What maintenance needs to know of a possibly damaged allocator: array shapes and the zone itself.
  ghost predicate Sized(g: GlobalState)
    reads g, g.zone, g.pools, g.objects
  {
    && ZoneOk(g.zone[..], g.segmentSize, g.segmentCount, g.zoneSize)
    && g.pools.Length == |g.abs| < 0xFFFF && g.objects.Length < 0xFFFF
    && (forall p :: 0 <= p < g.pools.Length ==> BinsSized(g.pools[p].bins))
  }

  // A multiple of 1024 below 2^24 leaves room for one minimal block of padding.
  lemma ZoneLimit(n: nat, seg: nat)
    requires seg % 1024 == 0 && n * seg < ZONE_LIMIT
    ensures n * seg + MIN_BLOCK <= ZONE_LIMIT && seg % ALIGN == 0
  {
    var q := seg / 1024;
    assert seg == 1024 * q;
    assert n * seg == 1024 * (n * q);
  }

  lemma InitInv(z: seq<u32>, ps: seq<Pool>, ds: seq<ObjectDesc>, seg: nat, n: nat, abs: seq<APool>, stack: seq<nat>)
    requires 1024 <= seg && seg % 1024 == 0 && 0 < n < 0x1_0000 && n * seg < ZONE_LIMIT && |z| == n * seg + MIN_BLOCK
    requires |abs| == |ps| < 0xFFFF && forall p :: 0 <= p < |ps| ==> ps[p] == ZeroPool()
    requires 0 < |ds| < 0xFFFF && |stack| == |ds| && forall i :: 0 <= i < |stack| ==> stack[i] == i
    requires forall i :: 0 <= i < |ds| ==> ds[i].state.FreeSlot? && ds[i].nextFreeSlot == if i + 1 < |ds| then i + 1 else NO_SLOT
    ensures Inv(z, ps, ds, 0, seg, n, n * seg, abs, stack)
  {
    ZoneLimit(n, seg);
    forall sl | 0 <= sl < |ds| ensures sl in stack {
      assert stack[sl] == sl;
    }
  }

  // ---- frames ----------------------------------------------------------------------------

  ghost predicate SameWithin(z: seq<u32>, z': seq<u32>, s: nat, e: nat) {
    |z'| == |z| && forall c :: s <= c < e && c < |z| ==> z'[c] == z[c]
  }

  lemma LayoutFrame(z: seq<u32>, z': seq<u32>, L: Lay, s: nat, e: nat)
    requires LayoutInv(z, L, s, e) && SameWithin(z, z', s, e)
    ensures LayoutInv(z', L, s, e)
  {
    hide Coalesced;
    assert HeadersOk(z', L);
    forall o | o in L ensures s <= o && o + 4 < e {
      assert L[o].size % ALIGN == 0;
    }
  }

  lemma PoolLayFrame(z: seq<u32>, z': seq<u32>, b: TlsfBins, L: Lay, lists: seq<seq<nat>>, s: nat, e: nat)
    requires PoolLay(z, b, L, lists, s, e) && SameWithin(z, z', s, e)
    ensures PoolLay(z', b, L, lists, s, e)
  {
    LayoutFrame(z, z', L, s, e);
    hide BinsInv, HeadersOk, PrevOk, Coalesced;
    assert forall f :: f in FreeMap(L) ==> s <= f && f + MIN_BLOCK <= e;
    BinsFrame(z, z', b, lists, FreeMap(L));
  }

  lemma ObjsFrame(ds: seq<ObjectDesc>, ds': seq<ObjectDesc>, head: u32, pid: nat, L: Lay, order: seq<nat>)
    requires ObjsOk(ds, head, pid, L, order) && |ds'| == |ds|
    requires forall sl :: sl in order ==> sl < |ds| && ds'[sl] == ds[sl]
    ensures ObjsOk(ds', head, pid, L, order) && Indexed(ds, order) && BorrowSum(ds', order) == BorrowSum(ds, order)
  {
    forall i | 0 <= i < |order|
      ensures ds'[order[i]] == ds[order[i]]
    {
      assert order[i] in order;
    }
    forall i | 0 <= i < |order|
      ensures ds'[order[i]].addrNext == At(order, i + 1) && ds'[order[i]].addrPrev == At(order, i - 1)
    {
      assert ds[order[i]].addrNext == At(order, i + 1);
    }
    BorrowSumSame(ds, ds', order);
  }

  lemma PoolFrame(z: seq<u32>, z': seq<u32>, P: Pool, ds: seq<ObjectDesc>, ds': seq<ObjectDesc>, pid: nat, A: APool, seg: nat)
    requires PoolOk(z, P, ds, pid, A, seg)
    requires SameWithin(z, z', PoolStart(P, seg), PoolEnd(P, seg)) && |ds'| == |ds|
    requires forall sl :: sl in A.order ==> sl < |ds| && ds'[sl] == ds[sl]
    ensures PoolOk(z', P, ds', pid, A, seg)
  {
    hide PoolLay, ObjsOk;
    PoolLayFrame(z, z', P.bins, A.L, A.lists, PoolStart(P, seg), PoolEnd(P, seg));
    ObjsFrame(ds, ds', P.orderHead, pid, A.L, A.order);
  }

  // Windows of different pools do not overlap.
  lemma WindowsApart(P: Pool, Q: Pool, seg: nat)
    requires Apart(P, Q)
    ensures PoolEnd(P, seg) <= PoolStart(Q, seg) || PoolEnd(Q, seg) <= PoolStart(P, seg)
  {
    if P.segmentFirst + P.segmentCount <= Q.segmentFirst {
      SegMono(P.segmentFirst + P.segmentCount, Q.segmentFirst, seg);
    } else {
      SegMono(Q.segmentFirst + Q.segmentCount, P.segmentFirst, seg);
    }
  }

  lemma OrderPool(ds: seq<ObjectDesc>, head: u32, pid: nat, L: Lay, order: seq<nat>, sl: nat)
    requires ObjsOk(ds, head, pid, L, order) && sl in order
    ensures sl < |ds| && ds[sl].state.LiveObj? && ds[sl].poolId == pid
  {
    assert LiveDesc(ds[sl], pid);
  }

  // A step that changes one pool, inside its window and its own descriptors, keeps the whole
  // invariant once that pool is consistent again.
  lemma PoolUpdated(z: seq<u32>, z': seq<u32>, ps: seq<Pool>, P': Pool, ds: seq<ObjectDesc>, ds': seq<ObjectDesc>,
                    head: u16, head': u16, seg: nat, segCount: nat, zoneSize: nat,
                    abs: seq<APool>, A': APool, stack: seq<nat>, stack': seq<nat>, p: nat)
    requires Inv(z, ps, ds, head, seg, segCount, zoneSize, abs, stack)
    requires p < |ps| && !ps[p].state.Empty? && Settled(P')
    requires P'.segmentFirst == ps[p].segmentFirst && P'.segmentCount == ps[p].segmentCount
    requires OutsideKept(z, z', PoolStart(ps[p], seg), PoolEnd(ps[p], seg)) && |ds'| == |ds|
    requires forall sl :: 0 <= sl < |ds| && ds[sl].state.LiveObj? && ds[sl].poolId != p ==> ds'[sl] == ds[sl]
    requires PoolOk(z', P', ds', p, A', seg)
    requires SlotsOk(ds', head', stack')
    requires forall sl :: 0 <= sl < |ds| && ds'[sl].state.LiveObj? ==>
               (ds[sl].state.LiveObj? && ds[sl].poolId != p) || (ds'[sl].poolId == p && sl in A'.order)
    ensures Inv(z', ps[p := P'], ds', head', seg, segCount, zoneSize, abs[p := A'], stack')
  {
    hide PoolOk, SlotsOk, GeometryOk, OutsideKept;
    var ps', abs' := ps[p := P'], abs[p := A'];
    assert |z'| == |z| by { OutsideLen(z, z', PoolStart(ps[p], seg), PoolEnd(ps[p], seg)); }
    forall q | 0 <= q < |ps'| ensures PoolSlotOk(z', ps'[q], ds', q, abs'[q], seg, segCount, zoneSize) {
      assert PoolSlotOk(z, ps[q], ds, q, abs[q], seg, segCount, zoneSize);
      if q != p && !ps[q].state.Empty? {
        OtherPoolKept(z, z', ps[p], ps[q], ds, ds', p, q, abs[q], seg);
      } else if q == p {
        SameGeometry(ps[p], P', seg, segCount, zoneSize);
      }
    }
    forall sl | 0 <= sl < |ds'| ensures SlotOwned(ps', ds', abs', sl) {
      assert SlotOwned(ps, ds, abs, sl);
    }
  }

  lemma OutsideLen(z: seq<u32>, z': seq<u32>, s: nat, e: nat)
    requires OutsideKept(z, z', s, e)
    ensures |z'| == |z|
  {
  }

  lemma SameGeometry(P: Pool, P': Pool, seg: nat, segCount: nat, zoneSize: nat)
    requires GeometryOk(P, seg, segCount, zoneSize)
    requires P'.segmentFirst == P.segmentFirst && P'.segmentCount == P.segmentCount
    ensures GeometryOk(P', seg, segCount, zoneSize)
  {
  }

  lemma OtherPoolKept(z: seq<u32>, z': seq<u32>, P: Pool, Q: Pool, ds: seq<ObjectDesc>, ds': seq<ObjectDesc>,
                      p: nat, q: nat, A: APool, seg: nat)
    requires PoolOk(z, Q, ds, q, A, seg) && Apart(P, Q) && p != q
    requires OutsideKept(z, z', PoolStart(P, seg), PoolEnd(P, seg)) && |ds'| == |ds|
    requires forall sl :: 0 <= sl < |ds| && ds[sl].state.LiveObj? && ds[sl].poolId != p ==> ds'[sl] == ds[sl]
    ensures PoolOk(z', Q, ds', q, A, seg)
  {
    hide PoolLay, ObjsOk, Counters;
    WindowsApart(P, Q, seg);
    forall sl | sl in A.order ensures sl < |ds| && ds'[sl] == ds[sl] {
      OrderPool(ds, Q.orderHead, q, A.L, A.order, sl);
    }
    PoolFrame(z, z', Q, ds, ds', q, A, seg);
  }

  // The same for a step on two pools p and q that works inside one stretch [s, e) of the zone.
  lemma PairUpdated(z: seq<u32>, z': seq<u32>, ps: seq<Pool>, P': Pool, Q': Pool, ds: seq<ObjectDesc>, ds': seq<ObjectDesc>,
                    head: u16, seg: nat, segCount: nat, zoneSize: nat, abs: seq<APool>, A': APool, B': APool, stack: seq<nat>,
                    p: nat, q: nat, s: nat, e: nat)
    requires Inv(z, ps, ds, head, seg, segCount, zoneSize, abs, stack) && p < |ps| == |abs| && q < |ps| && p != q
    requires OutsideKept(z, z', s, e) && |ds'| == |ds| && SlotsOk(ds', head, stack)
    requires forall x :: 0 <= x < |ps| && x != p && x != q && !ps[x].state.Empty? ==>
               && (PoolEnd(ps[x], seg) <= s || e <= PoolStart(ps[x], seg))
               && (P'.state.Empty? || Apart(P', ps[x])) && (Q'.state.Empty? || Apart(Q', ps[x]))
    requires forall sl :: 0 <= sl < |ds| && ds[sl].state.LiveObj? && ds[sl].poolId != p && ds[sl].poolId != q ==> ds'[sl] == ds[sl]
    requires PoolSlotOk(z', P', ds', p, A', seg, segCount, zoneSize) && PoolSlotOk(z', Q', ds', q, B', seg, segCount, zoneSize)
    requires P'.state.Empty? || Q'.state.Empty? || Apart(P', Q')
    requires forall sl :: 0 <= sl < |ds| && ds'[sl].state.LiveObj? ==>
               || (ds[sl].state.LiveObj? && ds[sl].poolId != p && ds[sl].poolId != q)
               || (ds'[sl].poolId == p && !P'.state.Empty? && sl in A'.order)
               || (ds'[sl].poolId == q && !Q'.state.Empty? && sl in B'.order)
    ensures Inv(z', ps[p := P'][q := Q'], ds', head, seg, segCount, zoneSize, abs[p := A'][q := B'], stack)
  {
    hide PoolOk, SlotsOk, GeometryOk, OutsideKept, Apart, PoolStart, PoolEnd;
    var ps', abs' := ps[p := P'][q := Q'], abs[p := A'][q := B'];
    assert |z'| == |z| by { OutsideLen(z, z', s, e); }
    forall x | 0 <= x < |ps'| ensures PoolSlotOk(z', ps'[x], ds', x, abs'[x], seg, segCount, zoneSize) {
      assert PoolSlotOk(z, ps[x], ds, x, abs[x], seg, segCount, zoneSize);
      if x != p && x != q && !ps[x].state.Empty? {
        ThirdPoolKept(z, z', ps[x], ds, ds', x, p, q, abs[x], seg, s, e);
      }
    }
    ApartSymmetric();
    forall sl | 0 <= sl < |ds'| ensures SlotOwned(ps', ds', abs', sl) {
      assert SlotOwned(ps, ds, abs, sl);
    }
  }

  lemma ApartSymmetric()
    ensures forall P, Q :: Apart(P, Q) <==> Apart(Q, P)
  {
  }

  lemma ThirdPoolKept(z: seq<u32>, z': seq<u32>, X: Pool, ds: seq<ObjectDesc>, ds': seq<ObjectDesc>,
                      x: nat, p: nat, q: nat, A: APool, seg: nat, s: nat, e: nat)
    requires PoolOk(z, X, ds, x, A, seg) && x != p && x != q
    requires PoolEnd(X, seg) <= s || e <= PoolStart(X, seg)
    requires OutsideKept(z, z', s, e) && |ds'| == |ds|
    requires forall sl :: 0 <= sl < |ds| && ds[sl].state.LiveObj? && ds[sl].poolId != p && ds[sl].poolId != q ==> ds'[sl] == ds[sl]
    ensures PoolOk(z', X, ds', x, A, seg)
  {
    hide PoolLay, ObjsOk, Counters, PoolStart, PoolEnd;
    forall sl | sl in A.order ensures sl < |ds| && ds'[sl] == ds[sl] {
      OrderPool(ds, X.orderHead, x, A.L, A.order, sl);
    }
    PoolFrame(z, z', X, ds, ds', x, A, seg);
  }

  // A step that creates or removes pool p, inside a stretch [s, e) that no other pool owns.
  lemma SlotUpdated(z: seq<u32>, z': seq<u32>, ps: seq<Pool>, P': Pool, ds: seq<ObjectDesc>,
                    head: u16, seg: nat, segCount: nat, zoneSize: nat, abs: seq<APool>, A': APool, stack: seq<nat>,
                    p: nat, s: nat, e: nat)
    requires Inv(z, ps, ds, head, seg, segCount, zoneSize, abs, stack) && p < |ps| == |abs|
    requires OutsideKept(z, z', s, e)
    requires forall x :: 0 <= x < |ps| && x != p && !ps[x].state.Empty? ==>
               (PoolEnd(ps[x], seg) <= s || e <= PoolStart(ps[x], seg)) && (P'.state.Empty? || Apart(P', ps[x]))
    requires PoolSlotOk(z', P', ds, p, A', seg, segCount, zoneSize)
    requires forall sl :: 0 <= sl < |ds| && ds[sl].state.LiveObj? ==> ds[sl].poolId != p
    ensures Inv(z', ps[p := P'], ds, head, seg, segCount, zoneSize, abs[p := A'], stack)
  {
    hide PoolOk, SlotsOk, GeometryOk, OutsideKept, Apart, PoolStart, PoolEnd;
    var ps', abs' := ps[p := P'], abs[p := A'];
    assert |z'| == |z| by { OutsideLen(z, z', s, e); }
    forall x | 0 <= x < |ps'| ensures PoolSlotOk(z', ps'[x], ds, x, abs'[x], seg, segCount, zoneSize) {
      assert PoolSlotOk(z, ps[x], ds, x, abs[x], seg, segCount, zoneSize);
      if x != p && !ps[x].state.Empty? {
        ThirdPoolKept(z, z', ps[x], ds, ds, x, p, p, abs[x], seg, s, e);
      }
    }
    ApartSymmetric();
    forall sl | 0 <= sl < |ds| ensures SlotOwned(ps', ds, abs', sl) {
      assert SlotOwned(ps, ds, abs, sl);
    }
  }
}
