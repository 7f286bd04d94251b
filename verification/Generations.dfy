/** Reference generations across slot reuse, and where every descriptor slot is. */
module Generations {
  import opened Base
  import opened Lists
  import opened Layout
  import opened Bins
  import opened PoolHeap
  import opened Objects
  import opened State
  import opened AllocOp

  const CYCLE: nat := 65535

  // A slot's generation after n bumps of the zeroed descriptor: one when it is allocated, one
  // when it is freed.
  function Bumped(n: nat): u16 {
    if n == 0 then 0 else NextGeneration(Bumped(n - 1))
  }

  // Mod 65535 with 0 skipped.
  lemma {:induction false} BumpedIs(n: nat)
    requires n > 0
    ensures Bumped(n) == (n - 1) % CYCLE + 1
  {
    hide NextGeneration;
    if n > 1 {
      BumpedIs(n - 1);
      BumpStep(Bumped(n - 1), n - 2);
    } else {
      FirstBump();
    }
  }

  lemma FirstBump()
    ensures NextGeneration(0) == 0 % CYCLE + 1
  {
  }

  lemma BumpStep(g: u16, k: nat)
    requires g == k % CYCLE + 1
    ensures NextGeneration(g) == (k + 1) % CYCLE + 1
  {
    ModStep(k);
  }

  lemma ModStep(k: nat)
    ensures (k + 1) % CYCLE == if k % CYCLE == CYCLE - 1 then 0 else k % CYCLE + 1
  {
  }

  // The k-th live generation of a slot (k counted from 0).
  lemma LiveGeneration(k: nat)
    ensures Bumped(2 * k + 1) == (2 * k) % CYCLE + 1 && Bumped(2 * k + 1) != 0
  {
    BumpedIs(2 * k + 1);
  }

  // The life of one slot: bumps so far, and whether it is allocated.
  datatype SlotLife = SlotLife(generation: u16, live: bool)

  datatype SlotEvent = Allocated | Freed | Other

  // alloc and free are the only operations that touch a slot's generation or its liveness.
  ghost predicate LifeStep(s: SlotLife, e: SlotEvent, t: SlotLife) {
    match e
    case Allocated => !s.live && t == SlotLife(NextGeneration(s.generation), true)
    case Freed => s.live && t == SlotLife(NextGeneration(s.generation), false)
    case Other => t == s
  }

  ghost predicate Life(states: seq<SlotLife>, events: seq<SlotEvent>) {
    && |states| == |events| + 1 && states[0] == SlotLife(0, false)
    && (forall i :: 0 <= i < |events| ==> LifeStep(states[i], events[i], states[i + 1]))
  }

  function Allocations(events: seq<SlotEvent>, n: nat): nat
    requires n <= |events|
  {
    if n == 0 then 0 else Allocations(events, n - 1) + if events[n - 1].Allocated? then 1 else 0
  }

  // After any history the generation counts the bumps, and a live slot carries the generation
  // of its latest allocation.
  lemma {:induction false} LifeGeneration(states: seq<SlotLife>, events: seq<SlotEvent>, n: nat)
    requires Life(states, events) && n <= |events|
    ensures var a := Allocations(events, n);
            && (states[n].live ==> a > 0)
            && states[n].generation == Bumped(if states[n].live then 2 * a - 1 else 2 * a)
  {
    if n > 0 {
      LifeGeneration(states, events, n - 1);
      assert LifeStep(states[n - 1], events[n - 1], states[n]);
    }
  }

  lemma TwiceMod(d: nat)
    requires (2 * d) % CYCLE == 0
    ensures d % CYCLE == 0
  {
    var q, r := d / CYCLE, d % CYCLE;
    assert d == q * CYCLE + r;
    assert 2 * d == 2 * q * CYCLE + 2 * r;
    assert 2 * d == (2 * q + 1) * CYCLE + (2 * r - CYCLE);
    if 2 * r < CYCLE {
      ModPlus(2 * q, 2 * r);
    } else {
      ModPlus(2 * q + 1, 2 * r - CYCLE);
    }
  }

  lemma ModPlus(q: nat, r: nat)
    requires r < CYCLE
    ensures (q * CYCLE + r) % CYCLE == r
  {
  }

  lemma {:induction false} SameGeneration(j: nat, k: nat)
    requires k <= j
    ensures Bumped(2 * j + 1) == Bumped(2 * k + 1) <==> (j - k) % CYCLE == 0
  {
    LiveGeneration(j);
    LiveGeneration(k);
    var d := j - k;
    DivSum(2 * k, 2 * d);
    if (2 * j) % CYCLE == (2 * k) % CYCLE { TwiceMod(d); } else { OnceMod(d); }
  }

  lemma DivSum(a: nat, d: nat)
    ensures (a + d) % CYCLE == a % CYCLE <==> d % CYCLE == 0
  {
    var q, r := a / CYCLE, a % CYCLE;
    var u, v := d / CYCLE, d % CYCLE;
    assert a + d == (q + u) * CYCLE + (r + v);
    if r + v < CYCLE {
      ModPlus(q + u, r + v);
    } else {
      assert a + d == (q + u + 1) * CYCLE + (r + v - CYCLE);
      ModPlus(q + u + 1, r + v - CYCLE);
    }
  }

  lemma OnceMod(d: nat)
    ensures d % CYCLE == 0 ==> (2 * d) % CYCLE == 0
  {
    if d % CYCLE == 0 {
      var q := d / CYCLE;
      assert d == q * CYCLE;
      assert 2 * d == 2 * q * CYCLE + 0;
      ModPlus(2 * q, 0);
    }
  }

  // A reference handed out by allocation number k + 1 matches a later live state of its slot
  // exactly when a multiple of 65535 further allocations have happened; until then a stale
  // reference can never validate.
  lemma StaleReference(states: seq<SlotLife>, events: seq<SlotEvent>, k: nat, n: nat)
    requires Life(states, events) && n <= |events| && states[n].live && k < Allocations(events, n)
    ensures states[n].generation == Bumped(2 * k + 1) <==> (Allocations(events, n) - 1 - k) % CYCLE == 0
    ensures 0 < Allocations(events, n) - 1 - k < CYCLE ==> states[n].generation != Bumped(2 * k + 1)
  {
    LifeGeneration(states, events, n);
    SameGeneration(Allocations(events, n) - 1, k);
  }

  // ---- where every slot is --------------------------------------------------------------------

  // Slot sl is on the live list of the existing pool p.
  ghost predicate Listing(ps: seq<Pool>, abs: seq<APool>, p: nat, sl: nat)
    requires p < |ps|
  {
    !ps[p].state.Empty? && p < |abs| && sl in abs[p].order
  }

  // Every descriptor slot is exactly once on the free-slot stack or in exactly one pool's list.
  lemma SlotsPartitioned(z: seq<u32>, ps: seq<Pool>, ds: seq<ObjectDesc>, head: u16, seg: nat, segCount: nat, zoneSize: nat,
                         abs: seq<APool>, stack: seq<nat>, sl: nat)
    requires Inv(z, ps, ds, head, seg, segCount, zoneSize, abs, stack) && sl < |ds|
    ensures NoDup(stack)
    ensures sl in stack <==> ds[sl].state.FreeSlot?
    ensures ds[sl].state.LiveObj? <==> exists p :: 0 <= p < |ps| && Listing(ps, abs, p, sl)
    ensures forall p, q :: 0 <= p < |ps| && 0 <= q < |ps| && Listing(ps, abs, p, sl) && Listing(ps, abs, q, sl) ==> p == q
    ensures forall p :: 0 <= p < |ps| && !ps[p].state.Empty? && p < |abs| ==> NoDup(abs[p].order)
  {
    hide Inv, PoolOk, GeometryOk, NoDup;
    InvLengths(z, ps, ds, head, seg, segCount, zoneSize, abs, stack);
    StackHolds(ds, head, stack, sl);
    forall p | 0 <= p < |ps| && !ps[p].state.Empty?
      ensures NoDup(abs[p].order) && (sl in abs[p].order ==> ds[sl].state.LiveObj? && ds[sl].poolId == p)
    {
      PoolFacts(z, ps, ds, head, seg, segCount, zoneSize, abs, stack, p);
      ListHolds(z, ps[p], ds, p, abs[p], seg, sl);
    }
    if ds[sl].state.LiveObj? {
      InList(z, ps, ds, head, seg, segCount, zoneSize, abs, stack, sl);
      assert Listing(ps, abs, ds[sl].poolId, sl) by { Owner(z, ps, ds, head, seg, segCount, zoneSize, abs, stack, sl); }
      Owner(z, ps, ds, head, seg, segCount, zoneSize, abs, stack, sl);
    }
  }

  lemma Owner(z: seq<u32>, ps: seq<Pool>, ds: seq<ObjectDesc>, head: u16, seg: nat, segCount: nat, zoneSize: nat,
              abs: seq<APool>, stack: seq<nat>, sl: nat)
    requires Inv(z, ps, ds, head, seg, segCount, zoneSize, abs, stack) && sl < |ds| && ds[sl].state.LiveObj?
    ensures ds[sl].poolId < |ps| == |abs| && !ps[ds[sl].poolId].state.Empty?
  {
    hide PoolSlotOk, SlotsOk;
    assert SlotOwned(ps, ds, abs, sl);
  }

  lemma StackHolds(ds: seq<ObjectDesc>, head: u16, stack: seq<nat>, sl: nat)
    requires SlotsOk(ds, head, stack) && sl < |ds|
    ensures NoDup(stack) && (sl in stack <==> ds[sl].state.FreeSlot?)
  {
    if sl in stack {
      assert ds[stack[IndexOf(stack, sl)]].state.FreeSlot?;
    }
  }

  lemma ListHolds(z: seq<u32>, P: Pool, ds: seq<ObjectDesc>, p: nat, A: APool, seg: nat, sl: nat)
    requires PoolOk(z, P, ds, p, A, seg)
    ensures NoDup(A.order)
    ensures sl in A.order ==> sl < |ds| && ds[sl].state.LiveObj? && ds[sl].poolId == p
  {
    hide PoolLay, Counters, OrderLinked;
    if sl in A.order { OrderPool(ds, P.orderHead, p, A.L, A.order, sl); }
  }

  // The counts that follow from the invariant for every pool: used, binned free and slack bytes
  // make up the capacity, and free blocks are at most live blocks plus slack runs plus one.
  lemma PoolConserves(z: seq<u32>, P: Pool, ds: seq<ObjectDesc>, p: nat, A: APool, seg: nat)
    requires PoolOk(z, P, ds, p, A, seg)
    ensures P.usedBytes + Bytes(A.L, TFree) + P.fragmentBytes == PoolEnd(P, seg) - PoolStart(P, seg)
    ensures P.usedBytes + P.freeBytes == PoolEnd(P, seg) - PoolStart(P, seg)
    ensures |KeysOf(A.L, TFree)| <= |KeysOf(A.L, TLive)| + |KeysOf(A.L, TSlack)| + 1
  {
    hide Bytes, ObjsOk, LayoutInv, BinsInv, KeysOf, PoolStart, PoolEnd;
    TilesOf(z, A.L, PoolStart(P, seg), PoolEnd(P, seg));
    Accounting(A.L, PoolStart(P, seg), PoolEnd(P, seg));
    FreeCount(A.L, PoolStart(P, seg), PoolEnd(P, seg));
  }
}
