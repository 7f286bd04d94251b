/** The run model against the allocator: the abstraction of a consistent state, and the borrow
    operations as its steps. */
module RunsLink {
  import opened Base
  import opened Lists
  import opened PoolHeap
  import opened Objects
  import opened State
  import opened AllocOp
  import opened Relocate
  import opened Pools
  import opened CompactOp
  import opened Survival
  import opened Runs

  function CtlOf(P: Pool): PoolCtl {
    PoolCtl(P.state, P.borrowCount)
  }

  function ObjOf(d: ObjectDesc): ObjCtl {
    ObjCtl(d.state.LiveObj?, d.poolId, if d.state.LiveObj? then d.activeBorrows else 0, d.address)
  }

  function SysOf(ps: seq<Pool>, ds: seq<ObjectDesc>, held: map<nat, Held>): (s: Sys)
    ensures |s.ps| == |ps| && forall p :: 0 <= p < |ps| ==> s.ps[p] == CtlOf(ps[p])
    ensures |s.os| == |ds| && forall o :: 0 <= o < |ds| ==> s.os[o] == ObjOf(ds[o])
    ensures s.held == held
  {
    Sys(seq(|ps|, p requires 0 <= p < |ps| => CtlOf(ps[p])), seq(|ds|, o requires 0 <= o < |ds| => ObjOf(ds[o])), held)
  }

  // The sum over a list without repetitions is the sum over the table restricted to it.
  function Restricted(ds: seq<ObjectDesc>, order: seq<nat>, n: nat): nat
    requires n <= |ds|
  {
    if n == 0 then 0 else Restricted(ds, order, n - 1) + if n - 1 in order then ds[n - 1].activeBorrows else 0
  }

  lemma {:induction false} RestrictedStep(ds: seq<ObjectDesc>, order: seq<nat>, n: nat)
    requires order != [] && NoDup(order) && n <= |ds|
    ensures Restricted(ds, order, n) == Restricted(ds, order[1..], n) + if order[0] < n then ds[order[0]].activeBorrows else 0
  {
    if n > 0 {
      RestrictedStep(ds, order, n - 1);
      assert order == [order[0]] + order[1..];
      assert n - 1 in order <==> n - 1 == order[0] || n - 1 in order[1..];
      assert order[0] !in order[1..];
    }
  }

  lemma {:induction false} ListSum(ds: seq<ObjectDesc>, order: seq<nat>)
    requires NoDup(order) && Indexed(ds, order)
    ensures BorrowSum(ds, order) == Restricted(ds, order, |ds|)
  {
    if order == [] {
      NothingRestricted(ds, |ds|);
    } else {
      RestrictedStep(ds, order, |ds|);
      ListSum(ds, order[1..]);
    }
  }

  lemma {:induction false} NothingRestricted(ds: seq<ObjectDesc>, n: nat)
    requires n <= |ds|
    ensures Restricted(ds, [], n) == 0
  {
    if n > 0 {
      NothingRestricted(ds, n - 1);
    }
  }

  lemma {:induction false} RestrictedIsTotal(ps: seq<Pool>, ds: seq<ObjectDesc>, held: map<nat, Held>, order: seq<nat>, p: nat, n: nat)
    requires n <= |ds| && forall sl :: 0 <= sl < |ds| ==> (sl in order <==> ds[sl].state.LiveObj? && ds[sl].poolId == p)
    ensures Total(SysOf(ps, ds, held).os, p, n) == Restricted(ds, order, n)
  {
    if n > 0 {
      RestrictedIsTotal(ps, ds, held, order, p, n - 1);
    }
  }

  // On a consistent allocator every pool's borrow count is the table-wide sum over its live
  // objects, and no pool that holds a borrow is under maintenance or Empty.
  lemma AllocatorCounts(z: seq<u32>, ps: seq<Pool>, ds: seq<ObjectDesc>, head: u16, seg: nat, segCount: nat, zoneSize: nat,
                        abs: seq<APool>, stack: seq<nat>, held: map<nat, Held>, p: nat)
    requires Inv(z, ps, ds, head, seg, segCount, zoneSize, abs, stack) && p < |ps| && !ps[p].state.Empty?
    ensures PoolFine(SysOf(ps, ds, held), p)
  {
    hide Inv, PoolLay, Counters, ObjsOk, GeometryOk, SlotsOk, NoDup;
    PoolFacts(z, ps, ds, head, seg, segCount, zoneSize, abs, stack, p);
    var A := abs[p];
    OrderIndexed(ds, ps[p].orderHead, p, A.L, A.order);
    ListSum(ds, A.order);
    forall sl | 0 <= sl < |ds| ensures sl in A.order <==> ds[sl].state.LiveObj? && ds[sl].poolId == p {
      if ds[sl].state.LiveObj? { InList(z, ps, ds, head, seg, segCount, zoneSize, abs, stack, sl); }
      if sl in A.order { OrderPool(ds, ps[p].orderHead, p, A.L, A.order, sl); }
    }
    RestrictedIsTotal(ps, ds, held, A.order, p, |ds|);
  }

  // A successful borrow_begin is the Begin step of a fresh holder.
  lemma BeginRefines(ps: seq<Pool>, ps': seq<Pool>, ds: seq<ObjectDesc>, ds': seq<ObjectDesc>, held: map<nat, Held>, h: nat, ref: RawRef, size: u32, align: u32)
    requires Borrowable(ps, ds, ref, size, align) && h !in held
    requires var d := ds[ref.index]; var P := ps[d.poolId];
             && ds' == ds[ref.index := d.(activeBorrows := d.activeBorrows + 1)]
             && ps' == ps[d.poolId := P.(borrowCount := P.borrowCount + 1)]
    ensures var s, a := SysOf(ps, ds, held), Begin(h, ref.index);
            Enabled(s, a) && Next(s, a) == SysOf(ps', ds', held[h := Held(ref.index, ds[ref.index].address)])
  {
    var s, a := SysOf(ps, ds, held), Begin(h, ref.index);
    var t := SysOf(ps', ds', held[h := Held(ref.index, ds[ref.index].address)]);
    assert Next(s, a).ps == t.ps && Next(s, a).os == t.os;
  }

  // A borrow_end with the token of a held borrow is that holder's End step.
  lemma EndRefines(ps: seq<Pool>, ps': seq<Pool>, ds: seq<ObjectDesc>, ds': seq<ObjectDesc>, held: map<nat, Held>, h: nat, ref: RawRef)
    requires Endable(ds, ref) && h in held && held[h].obj == ref.index && ds[ref.index].poolId < |ps| && ps[ds[ref.index].poolId].borrowCount > 0
    requires var d := ds[ref.index]; var P := ps[d.poolId];
             && ds' == ds[ref.index := d.(activeBorrows := d.activeBorrows - 1)]
             && ps' == ps[d.poolId := P.(borrowCount := P.borrowCount - 1)]
    ensures var s, a := SysOf(ps, ds, held), Runs.Step.End(h);
            Enabled(s, a) && Next(s, a) == SysOf(ps', ds', held - {h})
  {
    var s, a := SysOf(ps, ds, held), Runs.Step.End(h);
    var t := SysOf(ps', ds', held - {h});
    assert Next(s, a).ps == t.ps && Next(s, a).os == t.os;
  }

  // ---- every consistent state starts a run -------------------------------------------------------------

  // The holders are the borrows that the descriptors count.
  ghost predicate Matching(ds: seq<ObjectDesc>, held: map<nat, Held>) {
    && (forall o :: 0 <= o < |ds| ==> ObjOf(ds[o]).active == |Holders(held, o)|)
    && (forall h :: h in held ==> held[h].obj < |ds| && ds[held[h].obj].state.LiveObj? && ds[held[h].obj].address == held[h].address)
  }

  // A pool slot that is Empty has no objects.
  lemma {:induction false} EmptyTotal(ps: seq<Pool>, ds: seq<ObjectDesc>, held: map<nat, Held>, p: nat, n: nat)
    requires n <= |ds| && forall sl :: 0 <= sl < |ds| && ds[sl].state.LiveObj? ==> ds[sl].poolId != p
    ensures Total(SysOf(ps, ds, held).os, p, n) == 0
  {
    if n > 0 { EmptyTotal(ps, ds, held, p, n - 1); }
  }

  lemma EveryPoolFine(a: Snap, held: map<nat, Held>, p: nat)
    requires Consistent(a) && p < |a.ps|
    ensures PoolFine(SysOf(a.ps, a.ds, held), p)
  {
    hide Inv, PoolFine, GeometryOk, PoolOk;
    if a.ps[p].state.Empty? {
      EmptyIsZero(a.z, a.ps, a.ds, a.head, a.seg, a.segCount, a.zoneSize, a.abs, a.stack, p);
      EmptyTotal(a.ps, a.ds, held, p, |a.ds|);
      EmptyFine(a.ps, a.ds, held, p);
    } else {
      AllocatorCounts(a.z, a.ps, a.ds, a.head, a.seg, a.segCount, a.zoneSize, a.abs, a.stack, held, p);
    }
  }

  lemma EmptyFine(ps: seq<Pool>, ds: seq<ObjectDesc>, held: map<nat, Held>, p: nat)
    requires p < |ps| && ps[p] == ZeroPool() && Total(SysOf(ps, ds, held).os, p, |ds|) == 0
    ensures PoolFine(SysOf(ps, ds, held), p)
  {
  }

  // Every consistent state with matching holders satisfies the run invariant: a run can start
  // there.
  lemma AllocatorSysInv(a: Snap, held: map<nat, Held>)
    requires Consistent(a) && Matching(a.ds, held)
    ensures SysInv(SysOf(a.ps, a.ds, held))
  {
    hide Inv, PoolFine, PlacedAt, Total, Holders;
    var s := SysOf(a.ps, a.ds, held);
    forall p | 0 <= p < |s.ps| ensures PoolFine(s, p) { EveryPoolFine(a, held, p); }
    forall o | 0 <= o < |s.os| ensures ObjFine(s, o) {
      if a.ds[o].state.LiveObj? { Home(a, o); }
    }
    forall h | h in held ensures HeldFine(s, h) {}
  }

  // A fresh allocator starts one without holders.
  lemma FreshMatching(a: Snap)
    requires forall sl :: 0 <= sl < |a.ds| ==> a.ds[sl].state.FreeSlot?
    ensures Matching(a.ds, map[])
  {
    forall o | 0 <= o < |a.ds| ensures |Holders(map[], o)| == 0 {
      assert Holders(map[], o) == {};
    }
  }
}
