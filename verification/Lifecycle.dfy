/** Slots and objects along any sequence of calls: every call is a step in the life of every
    slot, stale references stay refused, and objects that no call names survive. */
module Lifecycle {
  import opened Base
  import opened Objects
  import opened State
  import opened Refs
  import opened AllocOp
  import opened FreeOp
  import opened Blocks
  import opened CompactOp
  import opened Moves
  import opened PoolHeap
  import opened Relocate
  import opened Plan
  import opened SplitPlan
  import opened SplitOp
  import opened MergeOp
  import opened Generations
  import opened Survival
  import opened Calls
  import opened ObjectStore

  function LifeOf(d: ObjectDesc): SlotLife {
    SlotLife(d.generation, d.state.LiveObj?)
  }

  // What a call means for slot sl.
  function EventOf(op: Op, r: Reply, sl: nat): SlotEvent {
    if op.OpAlloc? && r.st == Ok && r.ref.index == sl then Allocated
    else if op.OpFree? && r.st == Ok && op.ref.index == sl then Freed
    else Other
  }

  ghost predicate Aged(a: Snap, b: Snap, op: Op, r: Reply) {
    |b.ds| == |a.ds| && forall sl :: 0 <= sl < |a.ds| ==> LifeStep(LifeOf(a.ds[sl]), EventOf(op, r, sl), LifeOf(b.ds[sl]))
  }

  // ---- one call ---------------------------------------------------------------------------------------

  // Nothing that a slot's life consists of changed.
  ghost predicate SameLives(ds: seq<ObjectDesc>, ds': seq<ObjectDesc>) {
    |ds'| == |ds| && forall sl :: 0 <= sl < |ds| ==> LifeOf(ds'[sl]) == LifeOf(ds[sl])
  }

  lemma CompactLives(a: Snap, b: Snap, p: nat)
    requires CompactedPool(a, b, p)
    ensures SameLives(a.ds, b.ds)
  {
    var bs, cut :| Compacted(a.z, b.z, a.ps[p], b.ps[p], a.ds, b.ds, a.abs[p], b.abs[p], a.seg, bs, cut);
    hide Relocated;
    CompactTable(a, b, p, bs, cut);
    forall sl | 0 <= sl < |a.ds| ensures LifeOf(b.ds[sl]) == LifeOf(a.ds[sl]) {
      RelocatedFields(a.ds, b.ds, bs, CutDst(bs, PoolStart(a.ps[p], a.seg), cut), sl);
    }
  }

  lemma MergeLives(a: Snap, b: Snap, sid: nat, tid: nat)
    requires MergedPools(a, b, sid, tid)
    ensures SameLives(a.ds, b.ds)
  {
    hide MergeDone, Adjacent;
    var bs, nLower :| MergeDone(a.z, b.z, a.ps[sid], a.ps[tid], b.ps[tid], a.ds, b.ds, a.abs[sid], a.abs[tid], b.abs[tid], a.seg, bs, nLower, tid);
    MergeDoneLives(a, b, sid, tid, bs, nLower);
  }

  lemma MergeDoneLives(a: Snap, b: Snap, sid: nat, tid: u16, bs: seq<MB>, nLower: nat)
    requires sid < |a.ps| == |a.abs| && tid < |a.ps| && tid < |b.ps| && tid < |b.abs|
    requires MergeDone(a.z, b.z, a.ps[sid], a.ps[tid], b.ps[tid], a.ds, b.ds, a.abs[sid], a.abs[tid], b.abs[tid], a.seg, bs, nLower, tid)
    ensures SameLives(a.ds, b.ds)
  {
    hide MergeDescs, MergeRecord, PayloadMoved, OutsideKept, CanonFull, Placed, Ordered, DistinctSlots, ListBlocks, SlotsOf, IsBelow, LowerOf, UpperOf;
    MergeSizeOf(a, b, sid, tid, bs, nLower);
    forall sl | 0 <= sl < |a.ds| ensures LifeOf(b.ds[sl]) == LifeOf(a.ds[sl]) {
      MergeFields(a.ds, b.ds, bs, PoolStart(LowerOf(a.ps[sid], a.ps[tid]), a.seg), nLower, IsBelow(a.ps[sid], a.ps[tid]), tid, sl);
    }
  }

  lemma SplitLives(a: Snap, b: Snap, sid: nat)
    requires SplitPool(a, b, sid)
    ensures SameLives(a.ds, b.ds)
  {
    var nid: u16, keep, bs :| nid < |a.ps| && SplitInto(a, b, sid, nid, bs, keep);
    hide SplitDescs;
    SplitSizeOf(a, b, sid, nid, bs, keep);
    var m := Boundary(a.ps[sid], keep, a.seg);
    var u := LowerCount(bs, m);
    forall sl | 0 <= sl < |a.ds| ensures LifeOf(b.ds[sl]) == LifeOf(a.ds[sl]) {
      SplitFields(a.ds, b.ds, bs, SplitDst(bs, PoolStart(a.ps[sid], a.seg), m, u), u, nid, sl);
    }
  }

  lemma AllocLives(a: Snap, b: Snap, op: Op, r: Reply)
    requires op.OpAlloc? && r.st == Ok && TookSlot(a, b, op.pool, op.size, Pinning(op.flags), op.userTag, r.ref)
    ensures Aged(a, b, op, r)
  {
    hide NextGeneration;
  }

  lemma FreeLives(a: Snap, b: Snap, op: Op, r: Reply)
    requires op.OpFree? && r.st == Ok && GaveSlot(a, b, op.ref)
    ensures Aged(a, b, op, r)
  {
    hide NextGeneration, FreeEffect, OnlyPoolChanged;
  }

  // Every call leads every slot one step on: alloc and free bump their own slot's generation,
  // and nothing else changes a generation or a slot's liveness.
  lemma CallAges(a: Snap, b: Snap, op: Op, r: Reply)
    requires Effect(a, b, op, r)
    ensures Aged(a, b, op, r)
  {
    hide CompactedPool, MergedPools, SplitPool, TookSlot, GaveSlot, NextGeneration;
    if r.st == Ok {
      match op
      case OpAlloc(_, _, _, _, _) => AllocLives(a, b, op, r);
      case OpFree(_) => FreeLives(a, b, op, r);
      case OpCompact(pid, _) => CompactLives(a, b, pid);
      case OpMerge(source, target) => MergeLives(a, b, source, target);
      case OpSplit(source, _) => SplitLives(a, b, source);
      case _ =>
    }
  }

  // ---- whole runs -----------------------------------------------------------------------------------------

  // The life of one slot along a history, as the automaton of Generations sees it.
  ghost function LivesOf(snaps: seq<Snap>, sl: nat): seq<SlotLife>
    requires forall i :: 0 <= i < |snaps| ==> sl < |snaps[i].ds|
  {
    seq(|snaps|, i requires 0 <= i < |snaps| => LifeOf(snaps[i].ds[sl]))
  }

  function EventsOf(ops: seq<Op>, replies: seq<Reply>, sl: nat): seq<SlotEvent>
    requires |replies| == |ops|
  {
    seq(|ops|, i requires 0 <= i < |ops| => EventOf(ops[i], replies[i], sl))
  }

  lemma {:induction false} TableSizes(snaps: seq<Snap>, M: Store, ops: seq<Op>, replies: seq<Reply>, i: nat)
    requires History(snaps, M, ops, replies) && i < |snaps|
    ensures |snaps[i].ds| == |snaps[0].ds|
  {
    hide Consistent, Served, Effect, After;
    if i > 0 {
      TableSizes(snaps, M, ops, replies, i - 1);
      CallAges(snaps[i - 1], snaps[i], ops[i - 1], replies[i - 1]);
    }
  }

  lemma SlotsThroughout(snaps: seq<Snap>, M: Store, ops: seq<Op>, replies: seq<Reply>, sl: nat)
    requires History(snaps, M, ops, replies) && sl < |snaps[0].ds|
    ensures forall i :: 0 <= i < |snaps| ==> sl < |snaps[i].ds|
  {
    hide History;
    forall i | 0 <= i < |snaps| ensures sl < |snaps[i].ds| { TableSizes(snaps, M, ops, replies, i); }
  }

  // Along any sequence of calls from a fresh allocator every slot lives a life of the automaton.
  lemma SlotLives(snaps: seq<Snap>, M: Store, ops: seq<Op>, replies: seq<Reply>, sl: nat)
    requires History(snaps, M, ops, replies) && Unused(snaps[0]) && sl < |snaps[0].ds|
    ensures forall i :: 0 <= i < |snaps| ==> sl < |snaps[i].ds|
    ensures Life(LivesOf(snaps, sl), EventsOf(ops, replies, sl))
  {
    hide Consistent, Served, Effect, After, LifeStep;
    SlotsThroughout(snaps, M, ops, replies, sl);
    var states, events := LivesOf(snaps, sl), EventsOf(ops, replies, sl);
    forall i | 0 <= i < |events| ensures LifeStep(states[i], events[i], states[i + 1]) {
      CallAges(snaps[i], snaps[i + 1], ops[i], replies[i]);
    }
  }

  // A slot that has been freed is not live again before it is allocated again.
  lemma {:induction false} DeadUntilAllocated(states: seq<SlotLife>, events: seq<SlotEvent>, i: nat, j: nat)
    requires Life(states, events) && i <= j <= |events| && !states[i].live && Allocations(events, j) == Allocations(events, i)
    ensures !states[j].live
    decreases j - i
  {
    if i < j {
      AllocationsGrow(events, i, j - 1);
      DeadUntilAllocated(states, events, i, j - 1);
      assert LifeStep(states[j - 1], events[j - 1], states[j]);
    }
  }

  lemma {:induction false} AllocationsGrow(events: seq<SlotEvent>, i: nat, j: nat)
    requires i <= j <= |events|
    ensures Allocations(events, i) <= Allocations(events, j)
    decreases j - i
  {
    if i < j { AllocationsGrow(events, i, j - 1); }
  }

  // The reference that allocation i handed out names, in state j, a live object exactly when its
  // slot is live and a multiple of 65535 allocations of the slot have followed.
  lemma ReferenceCurrent(snaps: seq<Snap>, M: Store, ops: seq<Op>, replies: seq<Reply>, i: nat, j: nat)
    requires History(snaps, M, ops, replies) && Unused(snaps[0]) && i < j < |snaps|
    requires ops[i].OpAlloc? && replies[i].st == Ok
    ensures var ref := replies[i].ref;
            var events := EventsOf(ops, replies, ref.index);
            && ref.index < |snaps[j].ds| && Allocations(events, i + 1) <= Allocations(events, j)
            && (snaps[j].ds[ref.index].state.LiveObj? ==>
                 (snaps[j].ds[ref.index].generation == ref.generation <==> (Allocations(events, j) - Allocations(events, i + 1)) % CYCLE == 0))
  {
    hide Consistent, Served, After, Bumped, NextGeneration;
    var ref := replies[i].ref;
    var sl: nat := ref.index;
    AllocatedSlot(snaps, M, ops, replies, i);
    SlotLives(snaps, M, ops, replies, sl);
    var states, events := LivesOf(snaps, sl), EventsOf(ops, replies, sl);
    AllocationsGrow(events, i + 1, j);
    var k := Allocations(events, i);
    LifeGeneration(states, events, i + 1);
    assert states[i + 1].generation == ref.generation && events[i] == Allocated;
    if states[j].live { StaleReference(states, events, k, j); }
  }

  lemma AllocatedSlot(snaps: seq<Snap>, M: Store, ops: seq<Op>, replies: seq<Reply>, i: nat)
    requires History(snaps, M, ops, replies) && i < |ops| && ops[i].OpAlloc? && replies[i].st == Ok
    ensures var ref := replies[i].ref;
            && ref.index < |snaps[0].ds| && ref.index < |snaps[i + 1].ds|
            && LifeOf(snaps[i + 1].ds[ref.index]) == SlotLife(ref.generation, true)
  {
    hide Consistent, Served, After, NextGeneration;
    TableSizes(snaps, M, ops, replies, i);
    assert Effect(snaps[i], snaps[i + 1], ops[i], replies[i]);
    CallAges(snaps[i], snaps[i + 1], ops[i], replies[i]);
  }

  // The object was freed at some point after i.
  ghost predicate FreedSince(ops: seq<Op>, replies: seq<Reply>, i: nat, j: nat, sl: nat)
    requires |replies| == |ops| && i <= j <= |ops|
  {
    exists m :: i <= m < j && EventOf(ops[m], replies[m], sl) == Freed
  }

  lemma DeadAfterFree(states: seq<SlotLife>, events: seq<SlotEvent>, i: nat, m: nat, j: nat)
    requires Life(states, events) && i <= m < j <= |events| && events[m] == Freed && Allocations(events, j) == Allocations(events, i)
    ensures !states[j].live
  {
    assert LifeStep(states[m], events[m], states[m + 1]);
    AllocationsGrow(events, i, m + 1);
    AllocationsGrow(events, m + 1, j);
    DeadUntilAllocated(states, events, m + 1, j);
  }

  lemma NotCurrent(s: Snap, ref: RawRef, size: u32, alignment: u32, needRunning: bool)
    requires ref.index < |s.ds| && (!s.ds[ref.index].state.LiveObj? || s.ds[ref.index].generation != ref.generation)
    ensures CheckRef(s.ps, s.ds, s.seg, s.segCount, s.zoneSize, ref, size, alignment, needRunning).st == InvalidRef
  {
  }

  // A stale reference is refused as InvalidRef, whatever access it asks for, in every state that
  // fewer than 65535 further allocations of its slot lead to.
  lemma StaleRefused(snaps: seq<Snap>, M: Store, ops: seq<Op>, replies: seq<Reply>, i: nat, j: nat,
                     ref: RawRef, size: u32, alignment: u32, needRunning: bool)
    requires History(snaps, M, ops, replies) && Unused(snaps[0]) && i < j < |snaps|
    requires ops[i].OpAlloc? && replies[i].st == Ok && ref.index == replies[i].ref.index && ref.generation == replies[i].ref.generation
    requires FreedSince(ops, replies, i + 1, j, ref.index)
    requires var events := EventsOf(ops, replies, ref.index); Allocations(events, j) - Allocations(events, i + 1) < CYCLE
    ensures var s := snaps[j];
            CheckRef(s.ps, s.ds, s.seg, s.segCount, s.zoneSize, ref, size, alignment, needRunning).st == InvalidRef
  {
    hide Consistent, Served, Effect, After, Life, Allocations, LifeStep, CheckRef;
    var sl: nat := ref.index;
    AllocatedSlot(snaps, M, ops, replies, i);
    ReferenceCurrent(snaps, M, ops, replies, i, j);
    SlotLives(snaps, M, ops, replies, sl);
    var states, events := LivesOf(snaps, sl), EventsOf(ops, replies, sl);
    var m: nat :| i + 1 <= m < j && EventOf(ops[m], replies[m], sl) == Freed;
    AllocationsGrow(events, i + 1, j);
    if Allocations(events, j) == Allocations(events, i + 1) {
      DeadAfterFree(states, events, i + 1, m, j);
    }
    assert states[j] == LifeOf(snaps[j].ds[sl]);
    NotCurrent(snaps[j], ref, size, alignment, needRunning);
  }

  // ---- objects that no call names ------------------------------------------------------------------------

  // An object survives a whole run unless some call frees, writes or borrows it.
  lemma {:induction false} UnnamedSurvives(snaps: seq<Snap>, M: Store, ops: seq<Op>, replies: seq<Reply>, i: nat, j: nat, sl: nat)
    requires History(snaps, M, ops, replies) && i <= j < |snaps| && Lives(snaps[i], sl)
    requires forall n :: i <= n < j ==> Named(ops[n]) != sl
    ensures Survives(snaps[i], snaps[j], sl)
    decreases j - i
  {
    hide Consistent, Served, Effect, After, Survives;
    if i == j {
      StillSurvives(snaps[i], snaps[i], sl);
    } else {
      UnnamedSurvives(snaps, M, ops, replies, i, j - 1, sl);
      StillLives(snaps[i], snaps[j - 1], sl);
      CallSpares(snaps[j - 1], snaps[j], After(M, ops[..j - 1], replies[..j - 1]), ops[j - 1], replies[j - 1], sl);
      SurvivesOn(snaps[i], snaps[j - 1], snaps[j], sl);
    }
  }

  lemma StillLives(a: Snap, b: Snap, sl: nat)
    requires Survives(a, b, sl)
    ensures Lives(b, sl)
  {
  }

  lemma CallSpares(a: Snap, b: Snap, M: Store, op: Op, r: Reply, sl: nat)
    requires Served(a, b, M, op, r) && Lives(a, sl) && Named(op) != sl
    ensures Survives(a, b, sl)
  {
    hide Survives, Represents;
  }

  // ---- pinned objects ------------------------------------------------------------------------------------

  // The call that frees slot sl.
  predicate Frees(op: Op, r: Reply, sl: nat) {
    op.OpFree? && r.st == Ok && op.ref.index == sl
  }

  lemma AllocatedPinned(a: Snap, b: Snap, op: Op, r: Reply)
    requires Effect(a, b, op, r) && op.OpAlloc? && r.st == Ok
    requires PINNED in op.flags || DMA in op.flags || EXTERNAL in op.flags
    ensures r.ref.index < |b.ds| && b.ds[r.ref.index].state.LiveObj? && PINNED in b.ds[r.ref.index].flags
    ensures b.ds[r.ref.index].generation == r.ref.generation
  {
    hide NextGeneration;
    assert TookSlot(a, b, op.pool, op.size, Pinning(op.flags), op.userTag, r.ref);
  }

  // The calls that name an object and do not free it leave all of its descriptor but the borrow
  // count alone.
  lemma NamedKeeps(a: Snap, b: Snap, op: Op, r: Reply, sl: nat)
    requires Effect(a, b, op, r) && Lives(a, sl) && Named(op) == sl && !Frees(op, r, sl)
    ensures sl < |b.ds| && b.ds[sl] == a.ds[sl].(activeBorrows := b.ds[sl].activeBorrows)
  {
  }

  // No call moves or unpins a pinned object, and only its free ends it.
  lemma PinnedStep(a: Snap, b: Snap, M: Store, op: Op, r: Reply, sl: nat)
    requires Served(a, b, M, op, r) && Effect(a, b, op, r) && Lives(a, sl) && PINNED in a.ds[sl].flags && !Frees(op, r, sl)
    ensures Lives(b, sl) && PINNED in b.ds[sl].flags
    ensures b.ds[sl].address == a.ds[sl].address && b.ds[sl].generation == a.ds[sl].generation
  {
    hide Served, Effect, Represents;
    if Named(op) == sl {
      NamedKeeps(a, b, op, r, sl);
    } else {
      CallSpares(a, b, M, op, r, sl);
    }
  }

  // An object that was allocated pinned, for DMA or as external memory keeps its address from
  // there on, as long as no call frees it.
  lemma {:induction false} PinnedStays(snaps: seq<Snap>, M: Store, ops: seq<Op>, replies: seq<Reply>, i: nat, j: nat)
    requires History(snaps, M, ops, replies) && i < j < |snaps|
    requires ops[i].OpAlloc? && replies[i].st == Ok
    requires PINNED in ops[i].flags || DMA in ops[i].flags || EXTERNAL in ops[i].flags
    requires forall n :: i < n < j ==> !(ops[n].OpFree? && replies[n].st == Ok && ops[n].ref.index == replies[i].ref.index)
    ensures var ref := replies[i].ref;
            && ref.index < |snaps[i + 1].ds| && ref.index < |snaps[j].ds|
            && snaps[j].ds[ref.index].state == LiveObj && snaps[j].ds[ref.index].generation == ref.generation
            && PINNED in snaps[j].ds[ref.index].flags
            && snaps[j].ds[ref.index].address == snaps[i + 1].ds[ref.index].address
    decreases j - i
  {
    hide Consistent, Served, Effect, After;
    AllocatedPinned(snaps[i], snaps[i + 1], ops[i], replies[i]);
    if j > i + 1 {
      PinnedStays(snaps, M, ops, replies, i, j - 1);
      PinnedStep(snaps[j - 1], snaps[j], After(M, ops[..j - 1], replies[..j - 1]), ops[j - 1], replies[j - 1], replies[i].ref.index);
    }
  }
}
