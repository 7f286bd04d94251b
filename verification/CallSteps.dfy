/** Every call of the allocator is a run of the step machine: the locked entry, then relocations
    while the pools are under maintenance, then the publishing steps. */
module CallSteps {
  import opened Base
  import opened Bins
  import opened PoolHeap
  import opened Objects
  import opened State
  import opened Refs
  import opened AllocOp
  import opened FreeOp
  import opened Blocks
  import opened Moves
  import opened Plan
  import opened Relocate
  import opened CompactOp
  import opened SplitPlan
  import opened SplitOp
  import opened MergeOp
  import opened Pools
  import opened Survival
  import opened Calls
  import opened ObjectStore
  import opened Runs
  import opened RunsLink

  function Abs(a: Snap, held: map<nat, Held>): Sys {
    SysOf(a.ps, a.ds, held)
  }

  // The machine goes from s to t by the given steps.
  ghost predicate Leads(s: Sys, states: seq<Sys>, steps: seq<Step>, t: Sys) {
    IsRun(states, steps) && states[0] == s && states[|steps|] == t
  }

  lemma Stay(s: Sys)
    ensures Leads(s, [s], [], s)
  {
    NoSteps(s);
  }

  lemma Do(s: Sys, a: Step, t: Sys)
    requires Enabled(s, a) && Next(s, a) == t
    ensures Leads(s, [s, t], [a], t)
  {
    OneStep(s, a);
  }

  lemma Then(s: Sys, first: seq<Sys>, steps: seq<Step>, t: Sys, second: seq<Sys>, more: seq<Step>, u: Sys)
    requires Leads(s, first, steps, t) && Leads(t, second, more, u)
    ensures Leads(s, first + second[1..], steps + more, u)
  {
    JoinRuns(first, steps, second, more);
  }

  // ---- which descriptors maintenance touches -------------------------------------------------------

  // Descriptor sl stays, or it is a live object of a maintained pool that is now in `is`.
  predicate Touched(d: ObjectDesc, d': ObjectDesc) {
    d'.state.LiveObj? && d' == d.(address := d'.address, addressEpoch := d'.addressEpoch, poolId := d'.poolId, addrPrev := d'.addrPrev, addrNext := d'.addrNext)
  }

  lemma ListedIn(a: Snap, p: nat, sl: nat)
    requires Consistent(a) && p < |a.ps| && p < |a.abs| && !a.ps[p].state.Empty? && sl in a.abs[p].order
    ensures sl < |a.ds| && Lives(a, sl) && a.ds[sl].poolId == p
  {
    hide PoolOk, SlotsOk, GeometryOk;
    PoolFacts(a.z, a.ps, a.ds, a.head, a.seg, a.segCount, a.zoneSize, a.abs, a.stack, p);
    hide Inv;
    LiveInWindow(a.z, a.ps[p], a.ds, p, a.abs[p], a.seg, sl);
  }

  lemma CompactTouches(a: Snap, b: Snap, p: nat, bs: seq<MB>, cut: nat, sl: nat)
    requires Consistent(a) && p < |a.ps| && p < |b.ps| && p < |a.abs| && p < |b.abs| && !a.ps[p].state.Empty? && sl < |a.ds|
    requires Compacted(a.z, b.z, a.ps[p], b.ps[p], a.ds, b.ds, a.abs[p], b.abs[p], a.seg, bs, cut)
    ensures |b.ds| == |a.ds|
    ensures b.ds[sl] == a.ds[sl] || (Lives(a, sl) && a.ds[sl].poolId == p && Touched(a.ds[sl], b.ds[sl]) && b.ds[sl].poolId == p)
  {
    hide Consistent, Ordered, SumOf, Movers, CutDst, CanonFull, DistinctSlots;
    CompactTable(a, b, p, bs, cut);
    RelocatedFields(a.ds, b.ds, bs, CutDst(bs, PoolStart(a.ps[p], a.seg), cut), sl);
    if Blocked(bs, sl) {
      var i :| 0 <= i < |bs| && bs[i].slot == sl;
      ListedIn(a, p, sl);
    }
  }

  lemma MergeTouches(a: Snap, b: Snap, sid: nat, tid: u16, bs: seq<MB>, nLower: nat, sl: nat)
    requires Consistent(a) && sl < |a.ds|
    requires sid < |a.ps| == |a.abs| && tid < |a.ps| && tid < |b.ps| && tid < |b.abs| && MergeRefusal(a.ps, sid, tid) == Ok
    requires MergeDone(a.z, b.z, a.ps[sid], a.ps[tid], b.ps[tid], a.ds, b.ds, a.abs[sid], a.abs[tid], b.abs[tid], a.seg, bs, nLower, tid)
    ensures |b.ds| == |a.ds|
    ensures b.ds[sl] == a.ds[sl]
            || (Lives(a, sl) && (a.ds[sl].poolId == sid || a.ds[sl].poolId == tid) && Touched(a.ds[sl], b.ds[sl]) && b.ds[sl].poolId == tid)
  {
    hide Consistent, Ordered, DistinctSlots, CanonFull, MergeDescs, MergeRecord, SlotsOf, ListBlocks, Adjacent;
    var S, T := a.ps[sid], a.ps[tid];
    var s, below := PoolStart(LowerOf(S, T), a.seg), IsBelow(S, T);
    MergeSizeOf(a, b, sid, tid, bs, nLower);
    if Blocked(bs, sl) {
      var i :| 0 <= i < |bs| && bs[i].slot == sl;
      JointSlot(a, sid, tid, bs, nLower, below, i);
      MergeFields(a.ds, b.ds, bs, s, nLower, below, tid, sl);
      MergeBlockAt(a.ds, b.ds, bs, s, nLower, below, tid, i);
    } else {
      MergeOther(a.ds, b.ds, bs, s, nLower, below, tid, sl);
    }
  }

  // A block of the joint window belongs to the pool whose part it is in.
  lemma JointSlot(a: Snap, sid: nat, tid: nat, bs: seq<MB>, nLower: nat, below: bool, i: nat)
    requires Consistent(a) && sid < |a.ps| == |a.abs| && tid < |a.ps| && !a.ps[sid].state.Empty? && !a.ps[tid].state.Empty?
    requires nLower <= |bs| && i < |bs|
    requires ListBlocks(a.ds, a.abs[sid].order, if below then bs[..nLower] else bs[nLower..])
    requires ListBlocks(a.ds, a.abs[tid].order, if below then bs[nLower..] else bs[..nLower])
    ensures var sl := bs[i].slot;
            && Lives(a, sl) && HEADER <= a.ds[sl].address && bs[i] == BlockOf(a.ds, sl)
            && a.ds[sl].poolId == if FromSource(i, nLower, below) then sid else tid
  {
    hide Consistent;
    JointBlock(a.ds, a.abs[sid].order, a.abs[tid].order, bs, nLower, below, i);
    if i < nLower { assert bs[..nLower][i] == bs[i]; } else { assert bs[nLower..][i - nLower] == bs[i]; }
    ListedIn(a, if FromSource(i, nLower, below) then sid else tid, bs[i].slot);
  }

  lemma SplitTouches(a: Snap, b: Snap, sid: nat, nid: u16, bs: seq<MB>, keep: nat, sl: nat)
    requires Consistent(a) && sl < |a.ds|
    requires sid < |a.ps| == |a.abs| == |b.abs| == |b.ps| && nid < |a.ps| && !a.ps[sid].state.Empty? && SplitInto(a, b, sid, nid, bs, keep)
    ensures |b.ds| == |a.ds|
    ensures b.ds[sl] == a.ds[sl]
            || (Lives(a, sl) && a.ds[sl].poolId == sid && Touched(a.ds[sl], b.ds[sl]) && (b.ds[sl].poolId == sid || b.ds[sl].poolId == nid))
  {
    hide Consistent, Ordered, DistinctSlots, CanonFull, SplitDescs, SplitRecords, SlotsOf, SplitDst, LowerCount, Placed;
    SplitSizeOf(a, b, sid, nid, bs, keep);
    var m := Boundary(a.ps[sid], keep, a.seg);
    var u := LowerCount(bs, m);
    var dst := SplitDst(bs, PoolStart(a.ps[sid], a.seg), m, u);
    if Blocked(bs, sl) {
      var i :| 0 <= i < |bs| && bs[i].slot == sl;
      ListedIn(a, sid, sl);
      SplitFields(a.ds, b.ds, bs, dst, u, nid, sl);
      if bs[i].pinned { PinnedDst(bs, PoolStart(a.ps[sid], a.seg), m, u, i); }
      SplitBlockAt(a.ds, b.ds, bs, dst, u, nid, i);
    } else {
      SplitUntouched(a.ds, b.ds, bs, dst, u, nid, sl);
    }
  }

  lemma SplitUntouched(ds: seq<ObjectDesc>, ds': seq<ObjectDesc>, bs: seq<MB>, dst: seq<nat>, u: nat, nid: u16, sl: nat)
    requires SplitDescs(ds, ds', bs, dst, u, nid) && sl < |ds| && !Blocked(bs, sl)
    ensures |ds'| == |ds| && ds'[sl] == ds[sl]
  {
  }

  // ---- maintenance calls ------------------------------------------------------------------------------

  // Only live objects of pools that `armed` has under maintenance moved, and only to such pools.
  ghost predicate MovedIn(a: Snap, b: Snap, armed: Sys) {
    && |b.ds| == |a.ds|
    && (forall sl {:trigger b.ds[sl]} :: 0 <= sl < |a.ds| && b.ds[sl] != a.ds[sl] ==>
         && Lives(a, sl) && Touched(a.ds[sl], b.ds[sl])
         && a.ds[sl].poolId < |armed.ps| && InMaintenance(armed.ps[a.ds[sl].poolId].state)
         && b.ds[sl].poolId < |armed.ps| && InMaintenance(armed.ps[b.ds[sl].poolId].state))
  }

  lemma RelocationRun(a: Snap, b: Snap, held: map<nat, Held>, armed: Sys) returns (states: seq<Sys>, rel: seq<Step>)
    requires MovedIn(a, b, armed) && armed.os == Abs(a, held).os && armed.held == held
    ensures Relocates(rel) && Leads(armed, states, rel, armed.(os := Abs(b, held).os))
  {
    hide IsRun, Relocates;
    var os := Abs(b, held).os;
    forall o | 0 <= o < |os| && os[o] != armed.os[o]
      ensures armed.os[o].live && armed.os[o].pool < |armed.ps| && InMaintenance(armed.ps[armed.os[o].pool].state)
      ensures os[o] == armed.os[o].(pool := os[o].pool, address := os[o].address) && os[o].pool < |armed.ps| && InMaintenance(armed.ps[os[o].pool].state)
    {
      assert b.ds[o] != a.ds[o];
    }
    states, rel := RelocationsReach(armed, os, |os|);
    assert Partly(armed, os, |os|) == armed.(os := os);
  }

  // Objects that do not change keep their holders; a pool without borrows has none to lose.
  lemma HoldersStay(a: Snap, b: Snap, held: map<nat, Held>)
    requires Matching(a.ds, held) && |b.ds| == |a.ds|
    requires forall sl :: 0 <= sl < |a.ds| ==> ObjOf(b.ds[sl]).active == ObjOf(a.ds[sl]).active
    requires forall sl :: 0 <= sl < |a.ds| && ObjOf(a.ds[sl]).active > 0 ==> b.ds[sl].state.LiveObj? && b.ds[sl].address == a.ds[sl].address
    ensures Matching(b.ds, held)
  {
    hide Holders;
    forall h | h in held ensures ObjOf(a.ds[held[h].obj]).active > 0 {
      HolderCounts(held, h);
    }
  }

  lemma HolderCounts(held: map<nat, Held>, h: nat)
    requires h in held
    ensures |Holders(held, held[h].obj)| > 0
  {
    assert h in Holders(held, held[h].obj);
  }

  lemma Unborrowed(a: Snap, b: Snap, held: map<nat, Held>, ps: set<nat>)
    requires Consistent(a) && Matching(a.ds, held) && |b.ds| == |a.ds|
    requires forall p :: p in ps ==> p < |a.ps| && a.ps[p].borrowCount == 0
    requires forall sl :: 0 <= sl < |a.ds| ==> b.ds[sl] == a.ds[sl] || (Lives(a, sl) && (a.ds[sl].poolId as nat) in ps && Touched(a.ds[sl], b.ds[sl]))
    ensures Matching(b.ds, held)
  {
    hide Consistent, Matching;
    forall sl | 0 <= sl < |a.ds| && ObjOf(a.ds[sl]).active > 0 ensures b.ds[sl] == a.ds[sl] {
      if (a.ds[sl].poolId as nat) in ps { BorrowedElsewhere(a, a.ds[sl].poolId, sl); }
    }
    HoldersStay(a, b, held);
  }

  lemma SettledPool(a: Snap, p: nat)
    requires Consistent(a) && p < |a.ps| && !a.ps[p].state.Empty?
    ensures IsSettled(a.ps[p].state)
  {
    hide PoolOk, SlotsOk, GeometryOk;
    PoolFacts(a.z, a.ps, a.ds, a.head, a.seg, a.segCount, a.zoneSize, a.abs, a.stack, p);
  }

  lemma ArmMovePublish(s: Sys, arm: Step, armed: Sys, mid: seq<Sys>, rel: seq<Step>, there: Sys, after: seq<Sys>, pubs: seq<Step>, t: Sys)
      returns (states: seq<Sys>, steps: seq<Step>)
    requires Enabled(s, arm) && Next(s, arm) == armed && Leads(armed, mid, rel, there) && Leads(there, after, pubs, t)
    ensures Leads(s, states, steps, t) && steps == [arm] + rel + pubs
  {
    hide Enabled, Next;
    Do(s, arm, armed);
    Then(s, [s, armed], [arm], armed, mid, rel, there);
    Then(s, [s, armed] + mid[1..], [arm] + rel, there, after, pubs, t);
    states, steps := [s, armed] + mid[1..] + after[1..], [arm] + rel + pubs;
  }

  lemma DoTwo(s: Sys, x: Step, t: Sys, y: Step, u: Sys)
    requires Enabled(s, x) && Next(s, x) == t && Enabled(t, y) && Next(t, y) == u
    ensures Leads(s, [s, t, u], [x, y], u)
  {
    hide Enabled, Next;
    Do(s, x, t);
    Do(t, y, u);
    Then(s, [s, t], [x], t, [t, u], [y], u);
    assert [s, t] + [t, u][1..] == [s, t, u];
  }

  // compact: arm, relocate, publish.
  lemma CompactIsRun(a: Snap, b: Snap, p: nat, held: map<nat, Held>) returns (states: seq<Sys>, steps: seq<Step>, rel: seq<Step>)
    requires Consistent(a) && Matching(a.ds, held) && CompactedPool(a, b, p)
    ensures Leads(Abs(a, held), states, steps, Abs(b, held)) && Matching(b.ds, held)
    ensures Relocates(rel) && steps == [ArmCompact(p)] + rel + [Publish(p, Running)]
  {
    hide Consistent, Matching, Leads, Compacted, Touched, Relocates;
    var bs, cut :| Compacted(a.z, b.z, a.ps[p], b.ps[p], a.ds, b.ds, a.abs[p], b.abs[p], a.seg, bs, cut);
    SettledPool(a, p);
    var s := Abs(a, held);
    var armed := s.(ps := SetState(s.ps, p, Compacting));
    CompactTable(a, b, p, bs, cut);
    forall sl | 0 <= sl < |a.ds|
      ensures b.ds[sl] == a.ds[sl] || (Lives(a, sl) && a.ds[sl].poolId == p && Touched(a.ds[sl], b.ds[sl]) && b.ds[sl].poolId == p)
    {
      CompactTouches(a, b, p, bs, cut, sl);
    }
    Unborrowed(a, b, held, {p});
    var mid;
    mid, rel := RelocationRun(a, b, held, armed);
    var there := armed.(os := Abs(b, held).os);
    CompactCtl(a, b, p, bs, cut);
    assert Abs(b, held).ps == SetState(armed.ps, p, Running);
    Do(there, Publish(p, Running), Abs(b, held));
    states, steps := ArmMovePublish(s, ArmCompact(p), armed, mid, rel, there, [there, Abs(b, held)], [Publish(p, Running)], Abs(b, held));
  }

  lemma CompactCtl(a: Snap, b: Snap, p: nat, bs: seq<MB>, cut: nat)
    requires p < |a.ps| && p < |b.ps| && p < |a.abs| && p < |b.abs|
    requires Compacted(a.z, b.z, a.ps[p], b.ps[p], a.ds, b.ds, a.abs[p], b.abs[p], a.seg, bs, cut)
    ensures b.ps[p].borrowCount == a.ps[p].borrowCount
  {
  }

  // merge: arm both pools, relocate into the target, publish the source as Empty and the target.
  lemma MergeIsRun(a: Snap, b: Snap, sid: nat, tid: nat, held: map<nat, Held>) returns (states: seq<Sys>, steps: seq<Step>, rel: seq<Step>)
    requires Consistent(a) && Consistent(b) && Matching(a.ds, held) && MergedPools(a, b, sid, tid)
    ensures Leads(Abs(a, held), states, steps, Abs(b, held)) && Matching(b.ds, held)
    ensures Relocates(rel) && steps == [ArmMerge(sid, tid)] + rel + [Publish(sid, Empty), Publish(tid, Running)]
  {
    hide Consistent, Matching, Leads, MergeDone, Touched, Relocates, Adjacent, ZeroPool;
    var bs, nLower :| MergeDone(a.z, b.z, a.ps[sid], a.ps[tid], b.ps[tid], a.ds, b.ds, a.abs[sid], a.abs[tid], b.abs[tid], a.seg, bs, nLower, tid);
    SettledPool(a, sid);
    SettledPool(a, tid);
    var s := Abs(a, held);
    var armed := s.(ps := SetState(SetState(s.ps, sid, Merging), tid, Merging));
    MergeSizeOf(a, b, sid, tid, bs, nLower);
    forall sl | 0 <= sl < |a.ds|
      ensures b.ds[sl] == a.ds[sl]
              || (Lives(a, sl) && (a.ds[sl].poolId == sid || a.ds[sl].poolId == tid) && Touched(a.ds[sl], b.ds[sl]) && b.ds[sl].poolId == tid)
    {
      MergeTouches(a, b, sid, tid, bs, nLower, sl);
    }
    Unborrowed(a, b, held, {sid, tid});
    var mid;
    mid, rel := RelocationRun(a, b, held, armed);
    var there := armed.(os := Abs(b, held).os);
    MergeCtl(a, b, sid, tid, bs, nLower);
    NoneLeft(b, held, sid);
    var emptied := there.(ps := SetState(there.ps, sid, Empty));
    assert Abs(b, held).ps == SetState(emptied.ps, tid, Running);
    DoTwo(there, Publish(sid, Empty), emptied, Publish(tid, Running), Abs(b, held));
    states, steps := ArmMovePublish(s, ArmMerge(sid, tid), armed, mid, rel, there, [there, emptied, Abs(b, held)],
                                    [Publish(sid, Empty), Publish(tid, Running)], Abs(b, held));
  }

  lemma MergeCtl(a: Snap, b: Snap, sid: nat, tid: u16, bs: seq<MB>, nLower: nat)
    requires sid < |a.ps| == |a.abs| && tid < |a.ps| && tid < |b.ps| && tid < |b.abs|
    requires MergeDone(a.z, b.z, a.ps[sid], a.ps[tid], b.ps[tid], a.ds, b.ds, a.abs[sid], a.abs[tid], b.abs[tid], a.seg, bs, nLower, tid)
    ensures b.ps[tid].borrowCount == a.ps[tid].borrowCount && ZeroPool().borrowCount == 0 && ZeroPool().state.Empty?
  {
    hide MergeDescs, PayloadMoved, OutsideKept, CanonFull, Ordered, DistinctSlots, ListBlocks, SlotsOf;
  }

  // An Empty pool slot of a consistent allocator has no live object.
  lemma NoneLeft(b: Snap, held: map<nat, Held>, p: nat)
    requires Consistent(b) && p < |b.ps| && b.ps[p].state.Empty?
    ensures NoLive(Abs(b, held).os, p) && b.ps[p] == ZeroPool()
  {
    hide Inv, ZeroPool;
    EmptyIsZero(b.z, b.ps, b.ds, b.head, b.seg, b.segCount, b.zoneSize, b.abs, b.stack, p);
  }

  // split: arm the source and the claimed slot, relocate, publish both halves.
  lemma SplitIsRun(a: Snap, b: Snap, sid: nat, held: map<nat, Held>) returns (states: seq<Sys>, steps: seq<Step>, rel: seq<Step>, nid: nat)
    requires Consistent(a) && Matching(a.ds, held) && SplitPool(a, b, sid)
    ensures Leads(Abs(a, held), states, steps, Abs(b, held)) && Matching(b.ds, held)
    ensures Relocates(rel) && steps == [ArmSplit(sid, nid)] + rel + [Publish(sid, Running), Publish(nid, Running)]
  {
    hide Consistent, Matching, Leads, SplitDone, Touched, Relocates, ZeroPool;
    var n: u16, keep, bs :| n < |a.ps| && SplitInto(a, b, sid, n, bs, keep);
    nid := n;
    SettledPool(a, sid);
    var s := Abs(a, held);
    var armed := s.(ps := SetState(SetState(s.ps, sid, Splitting), nid, Splitting));
    SplitSizeOf(a, b, sid, n, bs, keep);
    forall sl | 0 <= sl < |a.ds|
      ensures b.ds[sl] == a.ds[sl]
              || (Lives(a, sl) && a.ds[sl].poolId == sid && Touched(a.ds[sl], b.ds[sl]) && (b.ds[sl].poolId == sid || b.ds[sl].poolId == nid))
    {
      SplitTouches(a, b, sid, n, bs, keep, sl);
    }
    Unborrowed(a, b, held, {sid});
    var mid;
    mid, rel := RelocationRun(a, b, held, armed);
    var there := armed.(os := Abs(b, held).os);
    NoneLeft(a, held, nid);
    SplitCtl(a, b, sid, n, bs, keep);
    var half := there.(ps := SetState(there.ps, sid, Running));
    assert Abs(b, held).ps == SetState(half.ps, nid, Running);
    DoTwo(there, Publish(sid, Running), half, Publish(nid, Running), Abs(b, held));
    states, steps := ArmMovePublish(s, ArmSplit(sid, nid), armed, mid, rel, there, [there, half, Abs(b, held)],
                                    [Publish(sid, Running), Publish(nid, Running)], Abs(b, held));
  }

  lemma SplitCtl(a: Snap, b: Snap, sid: nat, nid: u16, bs: seq<MB>, keep: nat)
    requires sid < |a.ps| == |a.abs| == |b.abs| == |b.ps| && nid < |a.ps|
    requires SplitDone(a.z, b.z, a.ps[sid], b.ps[sid], b.ps[nid], a.ds, b.ds, a.abs[sid], b.abs[sid], b.abs[nid], a.seg, bs, keep, nid)
    ensures b.ps[sid].borrowCount == a.ps[sid].borrowCount && b.ps[nid].borrowCount == 0 && ZeroPool().borrowCount == 0
  {
    hide SplitDescs, PayloadMoved, OutsideKept, CanonFull, Ordered, DistinctSlots, ListBlocks, SlotsOf, Placed, SplitDst, LowerCount;
  }

  // A refusal after arming publishes the entry states, which leads back to where it started.
  lemma CompactBack(s: Sys, p: nat)
    requires Enabled(s, ArmCompact(p)) && s.ps[p].borrows == 0
    ensures var t := Next(s, ArmCompact(p)); Leads(s, [s, t, s], [ArmCompact(p), Publish(p, s.ps[p].state)], s)
  {
    var t := Next(s, ArmCompact(p));
    assert SetState(t.ps, p, s.ps[p].state) == s.ps;
    DoTwo(s, ArmCompact(p), t, Publish(p, s.ps[p].state), s);
  }

  lemma MergeBack(s: Sys, p: nat, q: nat)
    requires Enabled(s, ArmMerge(p, q))
    ensures var t := Next(s, ArmMerge(p, q)); var u := t.(ps := SetState(t.ps, p, s.ps[p].state));
            Leads(s, [s, t] + [t, u, s][1..], [ArmMerge(p, q)] + [Publish(p, s.ps[p].state), Publish(q, s.ps[q].state)], s)
  {
    var t := Next(s, ArmMerge(p, q));
    var u := t.(ps := SetState(t.ps, p, s.ps[p].state));
    assert SetState(u.ps, q, s.ps[q].state) == s.ps;
    Do(s, ArmMerge(p, q), t);
    DoTwo(t, Publish(p, s.ps[p].state), u, Publish(q, s.ps[q].state), s);
    Then(s, [s, t], [ArmMerge(p, q)], t, [t, u, s], [Publish(p, s.ps[p].state), Publish(q, s.ps[q].state)], s);
  }

  lemma SplitBack(s: Sys, p: nat, q: nat)
    requires Enabled(s, ArmSplit(p, q)) && NoLive(s.os, q)
    ensures var t := Next(s, ArmSplit(p, q)); var u := t.(ps := SetState(t.ps, p, s.ps[p].state));
            Leads(s, [s, t] + [t, u, s][1..], [ArmSplit(p, q)] + [Publish(p, s.ps[p].state), Publish(q, Empty)], s)
  {
    var t := Next(s, ArmSplit(p, q));
    var u := t.(ps := SetState(t.ps, p, s.ps[p].state));
    assert SetState(u.ps, q, Empty) == s.ps;
    Do(s, ArmSplit(p, q), t);
    DoTwo(t, Publish(p, s.ps[p].state), u, Publish(q, Empty), s);
    Then(s, [s, t], [ArmSplit(p, q)], t, [t, u, s], [Publish(p, s.ps[p].state), Publish(q, Empty)], s);
  }

  // ---- the other calls -----------------------------------------------------------------------------------

  lemma AllocIsStep(a: Snap, b: Snap, p: u16, size: u32, flags: set<Flag>, userTag: u32, ref: RawRef, held: map<nat, Held>) returns (address: nat)
    requires Matching(a.ds, held) && TookSlot(a, b, p, size, flags, userTag, ref)
    ensures Enabled(Abs(a, held), AllocStep(ref.index, p, address)) && Next(Abs(a, held), AllocStep(ref.index, p, address)) == Abs(b, held)
    ensures Matching(b.ds, held)
  {
    hide NextGeneration, Matching;
    var blk: nat :| AllocRecords(a.ps, b.ps, a.ds, b.ds, p, ref.index, NewDesc(blk, size, userTag, p, flags, ref.generation));
    address := blk + HEADER;
    var s, t := Abs(a, held), Abs(b, held);
    assert t.os == s.os[ref.index := ObjCtl(true, p, 0, address)];
    assert t.ps == s.ps;
    HoldersStay(a, b, held);
  }

  lemma FreeIsStep(a: Snap, b: Snap, ref: RawRef, held: map<nat, Held>)
    requires Matching(a.ds, held) && GaveSlot(a, b, ref)
    ensures Enabled(Abs(a, held), FreeStep(ref.index)) && Next(Abs(a, held), FreeStep(ref.index)) == Abs(b, held)
    ensures Matching(b.ds, held)
  {
    hide NextGeneration, Matching, FreeEffect, LivePayloadKept, OutsideKept;
    var s, t := Abs(a, held), Abs(b, held);
    assert t.os == s.os[ref.index := s.os[ref.index].(live := false, address := 0)];
    FreedTable(a, b, a.ds[ref.index].poolId);
    assert t.ps == s.ps;
    HoldersStay(a, b, held);
  }

  lemma FreedTable(a: Snap, b: Snap, p: nat)
    requires OnlyPoolChanged(a.abs, b.abs, a.ps, b.ps, p) && p < |a.ps|
    ensures b.ps == a.ps[p := b.ps[p]]
  {
  }

  // Some number that no holder uses.
  lemma FreshHolder(held: map<nat, Held>) returns (h: nat)
    ensures h !in held
  {
    if held.Keys == {} {
      assert 0 !in held.Keys;
      return 0;
    }
    var m := MaxElement(held.Keys);
    h := m + 1;
    assert h !in held.Keys;
  }

  lemma BeginIsStep(a: Snap, b: Snap, ref: RawRef, size: u32, alignment: u32, held: map<nat, Held>, h: nat)
    requires Matching(a.ds, held) && Begun(a, b, ref, size, alignment) && h !in held
    ensures var held' := held[h := Held(ref.index, a.ds[ref.index].address)];
            && Enabled(Abs(a, held), Begin(h, ref.index)) && Next(Abs(a, held), Begin(h, ref.index)) == Abs(b, held')
            && Matching(b.ds, held')
  {
    hide Holders, Enabled, Next;
    BeginRefines(a.ps, b.ps, a.ds, b.ds, held, h, ref, size, alignment);
    var v := Held(ref.index, a.ds[ref.index].address);
    forall o | 0 <= o < |b.ds| ensures ObjOf(b.ds[o]).active == |Holders(held[h := v], o)| {
      HoldersAdd(held, h, v, o);
    }
  }

  // A counted borrow has a holder that may end it.
  lemma SomeHolder(a: Snap, held: map<nat, Held>, sl: nat) returns (h: nat)
    requires Matching(a.ds, held) && Lives(a, sl) && a.ds[sl].activeBorrows > 0
    ensures h in held && held[h].obj == sl
  {
    assert |Holders(held, sl)| > 0;
    h :| h in Holders(held, sl);
  }

  lemma EndIsStep(a: Snap, b: Snap, ref: RawRef, held: map<nat, Held>, h: nat)
    requires Matching(a.ds, held) && Ended(a, b, ref) && h in held && held[h].obj == ref.index
    ensures Enabled(Abs(a, held), End(h)) && Next(Abs(a, held), End(h)) == Abs(b, held - {h}) && Matching(b.ds, held - {h})
  {
    hide Holders, Enabled, Next;
    EndRefines(a.ps, b.ps, a.ds, b.ds, held, h, ref);
    forall o | 0 <= o < |b.ds| ensures ObjOf(b.ds[o]).active == |Holders(held - {h}, o)| {
      HoldersDrop(held, h, o);
    }
  }

  // create_pool, destroy_pool, pause and resume.
  lemma PoolCallIsStep(a: Snap, b: Snap, op: Op, r: Reply, held: map<nat, Held>) returns (states: seq<Sys>, steps: seq<Step>)
    requires Consistent(a) && Matching(a.ds, held) && Effect(a, b, op, r) && r.st == Ok
    requires op.OpCreate? || op.OpDestroy? || op.OpPause? || op.OpResume?
    ensures Leads(Abs(a, held), states, steps, Abs(b, held)) && Matching(b.ds, held) && |steps| <= 1
  {
    hide Consistent, Matching, Leads;
    var s, t := Abs(a, held), Abs(b, held);
    match op
    case OpCreate(_) =>
      var p :| 0 <= p < |a.ps| == |b.ps| && CreatedAt(a, b, p);
      assert t.ps == s.ps[p := PoolCtl(Running, 0)];
      Do(s, CreateStep(p), t);
      states, steps := [s, t], [CreateStep(p)];
    case OpDestroy(p) =>
      EmptyPool(a, held, p);
      assert t.ps == s.ps[p := PoolCtl(Empty, 0)];
      Do(s, DestroyStep(p), t);
      states, steps := [s, t], [DestroyStep(p)];
    case OpPause(p) =>
      assert t.ps == SetState(s.ps, p, Paused);
      Do(s, PauseStep(p), t);
      states, steps := [s, t], [PauseStep(p)];
    case OpResume(p) =>
      assert t.ps == SetState(s.ps, p, Running);
      if a.ps[p].state.Paused? {
        Do(s, ResumeStep(p), t);
        states, steps := [s, t], [ResumeStep(p)];
      } else {
        assert s.ps == t.ps;
        Stay(s);
        states, steps := [s], [];
      }
  }

  lemma EmptyPool(a: Snap, held: map<nat, Held>, p: nat)
    requires Consistent(a) && p < |a.ps| && !a.ps[p].state.Empty? && a.ps[p].liveObjects == 0
    ensures IsSettled(a.ps[p].state) && a.ps[p].borrowCount == 0 && NoLive(Abs(a, held).os, p)
    ensures CtlOf(ZeroPool()) == PoolCtl(Empty, 0)
  {
    hide Inv;
    SettledPool(a, p);
    NoObjects(a.z, a.ps, a.ds, a.head, a.seg, a.segCount, a.zoneSize, a.abs, a.stack, p);
  }

  // ---- every call, every sequence of calls ---------------------------------------------------------------

  // A refused call takes no step, but for a compaction that met an open borrow: its arming
  // leaves the pool Paused.
  lemma RefusedIsRun(a: Snap, b: Snap, op: Op, r: Reply, held: map<nat, Held>) returns (states: seq<Sys>, steps: seq<Step>)
    requires Matching(a.ds, held) && Effect(a, b, op, r) && r.st != Ok
    ensures Leads(Abs(a, held), states, steps, Abs(b, held)) && Matching(b.ds, held)
  {
    hide Matching, Leads;
    var s, t := Abs(a, held), Abs(b, held);
    if b.ps == a.ps {
      Stay(s);
      states, steps := [s], [];
    } else {
      assert t.ps == SetState(s.ps, op.pid, Paused);
      Do(s, ArmCompact(op.pid), t);
      states, steps := [s, t], [ArmCompact(op.pid)];
    }
  }

  lemma GrantedIsRun(a: Snap, b: Snap, op: Op, r: Reply, held: map<nat, Held>)
      returns (states: seq<Sys>, steps: seq<Step>, held': map<nat, Held>)
    requires Consistent(a) && Consistent(b) && Matching(a.ds, held) && Effect(a, b, op, r) && r.st == Ok
    ensures Leads(Abs(a, held), states, steps, Abs(b, held')) && Matching(b.ds, held')
  {
    hide Consistent, Matching, Leads, CompactedPool, MergedPools, SplitPool, TookSlot, GaveSlot, Begun, Ended, Enabled, Next;
    var s := Abs(a, held);
    held' := held;
    match op
    case OpAlloc(p, size, _, flags, userTag) =>
      var address := AllocIsStep(a, b, p, size, Pinning(flags), userTag, r.ref, held);
      Do(s, AllocStep(r.ref.index, p, address), Abs(b, held));
      states, steps := [s, Abs(b, held)], [AllocStep(r.ref.index, p, address)];
    case OpFree(ref) =>
      FreeIsStep(a, b, ref, held);
      Do(s, FreeStep(ref.index), Abs(b, held));
      states, steps := [s, Abs(b, held)], [FreeStep(ref.index)];
    case OpBegin(ref, size, alignment) =>
      var h := FreshHolder(held);
      BeginIsStep(a, b, ref, size, alignment, held, h);
      BeginSlot(a, b, ref, size, alignment);
      held' := held[h := Held(ref.index, a.ds[ref.index].address)];
      Do(s, Begin(h, ref.index), Abs(b, held'));
      states, steps := [s, Abs(b, held')], [Begin(h, ref.index)];
    case OpEnd(ref) =>
      EndSlot(a, b, ref);
      var h := SomeHolder(a, held, ref.index);
      EndIsStep(a, b, ref, held, h);
      held' := held - {h};
      Do(s, End(h), Abs(b, held'));
      states, steps := [s, Abs(b, held')], [End(h)];
    case OpRead(_) =>
      Stay(s);
      states, steps := [s], [];
    case OpWrite(_, _) =>
      Stay(s);
      states, steps := [s], [];
    case OpCompact(p, _) =>
      var rel;
      states, steps, rel := CompactIsRun(a, b, p, held);
    case OpMerge(source, target) =>
      var rel;
      states, steps, rel := MergeIsRun(a, b, source, target, held);
    case OpSplit(source, _) =>
      var rel, nid;
      states, steps, rel, nid := SplitIsRun(a, b, source, held);
    case _ => states, steps := PoolCallIsStep(a, b, op, r, held);
  }

  lemma BeginSlot(a: Snap, b: Snap, ref: RawRef, size: u32, alignment: u32)
    requires Begun(a, b, ref, size, alignment)
    ensures ref.index < |a.ds|
  {
  }

  lemma EndSlot(a: Snap, b: Snap, ref: RawRef)
    requires Ended(a, b, ref)
    ensures Lives(a, ref.index) && a.ds[ref.index].activeBorrows > 0
  {
  }

  // Every call is a run of the machine.
  lemma CallIsRun(a: Snap, b: Snap, op: Op, r: Reply, held: map<nat, Held>)
      returns (states: seq<Sys>, steps: seq<Step>, held': map<nat, Held>)
    requires Consistent(a) && Consistent(b) && Matching(a.ds, held) && Effect(a, b, op, r)
    ensures Leads(Abs(a, held), states, steps, Abs(b, held')) && Matching(b.ds, held')
  {
    hide Consistent, Matching, Leads, Effect;
    if r.st == Ok {
      states, steps, held' := GrantedIsRun(a, b, op, r, held);
    } else {
      states, steps := RefusedIsRun(a, b, op, r, held);
      held' := held;
    }
  }

  // So is every sequence of calls; its start satisfies the run invariant, so all that is proved
  // about runs holds of it.
  lemma {:induction false} HistoryIsRun(snaps: seq<Snap>, M: Store, ops: seq<Op>, replies: seq<Reply>, n: nat, held: map<nat, Held>)
      returns (states: seq<Sys>, steps: seq<Step>, held': map<nat, Held>)
    requires History(snaps, M, ops, replies) && n <= |ops| && Matching(snaps[0].ds, held)
    ensures SysInv(Abs(snaps[0], held)) && Leads(Abs(snaps[0], held), states, steps, Abs(snaps[n], held')) && Matching(snaps[n].ds, held')
  {
    hide Consistent, Matching, Leads, Effect, Served, After, SysInv;
    AllocatorSysInv(snaps[0], held);
    if n == 0 {
      Stay(Abs(snaps[0], held));
      states, steps, held' := [Abs(snaps[0], held)], [], held;
    } else {
      states, steps, held' := HistoryIsRun(snaps, M, ops, replies, n - 1, held);
      var before := held';
      var second, more;
      second, more, held' := CallIsRun(snaps[n - 1], snaps[n], ops[n - 1], replies[n - 1], before);
      LeadsSize(Abs(snaps[n - 1], before), second, more, Abs(snaps[n], held'));
      Then(Abs(snaps[0], held), states, steps, Abs(snaps[n - 1], before), second, more, Abs(snaps[n], held'));
      states, steps := states + second[1..], steps + more;
    }
  }

  lemma LeadsSize(s: Sys, states: seq<Sys>, steps: seq<Step>, t: Sys)
    requires Leads(s, states, steps, t)
    ensures |states| == |steps| + 1
  {
  }
}
