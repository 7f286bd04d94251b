/** The allocator's calls as values, and what each does to the pool table and the descriptor
    table. */
module Calls {
  import opened Base
  import opened Objects
  import opened State
  import opened AllocOp
  import opened FreeOp
  import opened Blocks
  import opened CompactOp
  import opened SplitOp
  import opened MergeOp
  import opened Pools
  import opened Survival

  datatype Op =
    | OpCreate(segments: u32)
    | OpDestroy(pid: nat)
    | OpPause(pid: nat)
    | OpResume(pid: nat)
    | OpAlloc(pool: u16, size: u32, alignment: u32, flags: set<Flag>, userTag: u32)
    | OpFree(ref: RawRef)
    | OpRead(ref: RawRef)
    | OpWrite(ref: RawRef, word: u32)
    | OpBegin(ref: RawRef, size: u32, alignment: u32)
    | OpEnd(ref: RawRef)
    | OpCompact(pid: nat, req: Request)
    | OpMerge(source: nat, target: nat)
    | OpSplit(source: nat, newSegments: u32)

  // `ref` is meaningful for alloc, `word` for a read, `addr` for a begin.
  datatype Reply = Reply(st: Status, ref: RawRef, word: u32, addr: nat)

  function Answer(st: Status): Reply {
    Reply(st, RawRef(0, 0, 0, 0), 0, 0)
  }

  // How a call changes the pool table and the descriptor table.
  ghost predicate Effect(a: Snap, b: Snap, op: Op, r: Reply) {
    && |b.ps| == |a.ps| == |a.abs| == |b.abs| && b.seg == a.seg
    && if r.st != Ok then
         b.ds == a.ds && (b.ps == a.ps || (op.OpCompact? && PausedOnly(a, b, op.pid)))
       else match op
         case OpCreate(_) => b.ds == a.ds && Created(a, b)
         case OpDestroy(pid) => b.ds == a.ds && Destroyed(a, b, pid)
         case OpPause(pid) => b.ds == a.ds && StateSet(a, b, pid, Running, Paused)
         case OpResume(pid) => b.ds == a.ds && (StateSet(a, b, pid, Paused, Running) || StateSet(a, b, pid, Running, Running))
         case OpAlloc(pool, size, _, flags, userTag) => TookSlot(a, b, pool, size, Pinning(flags), userTag, r.ref)
         case OpFree(ref) => GaveSlot(a, b, ref)
         case OpRead(_) => b.ps == a.ps && b.ds == a.ds
         case OpWrite(_, _) => b.ps == a.ps && b.ds == a.ds
         case OpBegin(ref, size, alignment) => Begun(a, b, ref, size, alignment)
         case OpEnd(ref) => Ended(a, b, ref)
         case OpCompact(pid, _) => CompactedPool(a, b, pid)
         case OpMerge(source, target) => MergedPools(a, b, source, target)
         case OpSplit(source, _) => SplitPool(a, b, source)
  }

  ghost predicate StateSet(a: Snap, b: Snap, p: nat, before: PoolState, after: PoolState) {
    p < |a.ps| && a.ps[p].state == before && b.ps == a.ps[p := a.ps[p].(state := after)]
  }

  ghost predicate PausedOnly(a: Snap, b: Snap, p: nat) {
    StateSet(a, b, p, Running, Paused) && a.ps[p].borrowCount != 0
  }

  ghost predicate Created(a: Snap, b: Snap) {
    exists p :: 0 <= p < |a.ps| == |b.ps| && CreatedAt(a, b, p)
  }

  ghost predicate CreatedAt(a: Snap, b: Snap, p: nat)
    requires p < |a.ps| == |b.ps|
  {
    a.ps[p].state.Empty? && b.ps == a.ps[p := b.ps[p]] && b.ps[p].state.Running? && b.ps[p].borrowCount == 0
  }

  ghost predicate Destroyed(a: Snap, b: Snap, p: nat) {
    p < |a.ps| && !a.ps[p].state.Empty? && a.ps[p].liveObjects == 0 && b.ps == a.ps[p := ZeroPool()]
  }

  ghost predicate TookSlot(a: Snap, b: Snap, p: u16, size: u32, flags: set<Flag>, userTag: u32, ref: RawRef) {
    && ref.index < |a.ds| && !Lives(a, ref.index) && ref.generation == NextGeneration(a.ds[ref.index].generation)
    && p < |a.ps| == |b.ps| && a.ps[p].state.Running? && b.ps == a.ps[p := b.ps[p]]
    && exists blk: nat :: AllocRecords(a.ps, b.ps, a.ds, b.ds, p, ref.index, NewDesc(blk, size, userTag, p, flags, ref.generation))
  }

  ghost predicate GaveSlot(a: Snap, b: Snap, ref: RawRef) {
    && Freeable(a.ps, a.ds, ref) && FreedObject(a.z, b.z, a.ps, b.ps, a.ds, b.ds, a.abs, b.abs, a.seg, ref.index)
  }

  ghost predicate Begun(a: Snap, b: Snap, ref: RawRef, size: u32, alignment: u32) {
    && Borrowable(a.ps, a.ds, ref, size, alignment)
    && var d := a.ds[ref.index];
       var P := a.ps[d.poolId];
       b.ds == a.ds[ref.index := d.(activeBorrows := d.activeBorrows + 1)] && b.ps == a.ps[d.poolId := P.(borrowCount := P.borrowCount + 1)]
  }

  ghost predicate Ended(a: Snap, b: Snap, ref: RawRef) {
    && Endable(a.ds, ref) && a.ds[ref.index].poolId < |a.ps| && a.ps[a.ds[ref.index].poolId].borrowCount > 0
    && var d := a.ds[ref.index];
       var P := a.ps[d.poolId];
       b.ds == a.ds[ref.index := d.(activeBorrows := d.activeBorrows - 1)] && b.ps == a.ps[d.poolId := P.(borrowCount := P.borrowCount - 1)]
  }

  ghost predicate CompactedPool(a: Snap, b: Snap, p: nat) {
    && p < |a.ps| == |b.ps| && p < |a.abs| && p < |b.abs| && !a.ps[p].state.Empty? && a.ps[p].borrowCount == 0
    && b.ps == a.ps[p := b.ps[p]] && b.ps[p].state.Running?
    && exists bs, cut :: Compacted(a.z, b.z, a.ps[p], b.ps[p], a.ds, b.ds, a.abs[p], b.abs[p], a.seg, bs, cut)
  }

  ghost predicate MergedPools(a: Snap, b: Snap, sid: nat, tid: nat) {
    && sid < |a.ps| == |a.abs| == |b.abs| == |b.ps| && tid < |a.ps| && tid < 0x1_0000 && MergeRefusal(a.ps, sid, tid) == Ok
    && b.ps == a.ps[sid := ZeroPool()][tid := b.ps[tid]] && b.ps[tid].state.Running?
    && exists bs, nLower :: MergeDone(a.z, b.z, a.ps[sid], a.ps[tid], b.ps[tid], a.ds, b.ds, a.abs[sid], a.abs[tid], b.abs[tid], a.seg, bs, nLower, tid)
  }

  ghost predicate SplitPool(a: Snap, b: Snap, sid: nat) {
    && sid < |a.ps| == |a.abs| == |b.abs| == |b.ps| && !a.ps[sid].state.Empty? && a.ps[sid].borrowCount == 0 && b.ps[sid].state.Running?
    && exists nid: u16, keep, bs :: nid < |a.ps| && SplitInto(a, b, sid, nid, bs, keep)
  }

  ghost predicate SplitInto(a: Snap, b: Snap, sid: nat, nid: u16, bs: seq<MB>, keep: nat)
    requires sid < |a.ps| == |a.abs| == |b.abs| == |b.ps| && nid < |a.ps|
  {
    && a.ps[nid].state.Empty? && b.ps[nid].state.Running? && b.ps == a.ps[sid := b.ps[sid]][nid := b.ps[nid]]
    && SplitDone(a.z, b.z, a.ps[sid], b.ps[sid], b.ps[nid], a.ds, b.ds, a.abs[sid], b.abs[sid], b.abs[nid], a.seg, bs, keep, nid)
  }

  // A refused call, but for a compaction that found an open borrow, changes neither table.
  lemma RefusedEffect(a: Snap, b: Snap, op: Op, r: Reply)
    requires Consistent(a) && Consistent(b) && |b.ps| == |a.ps| && b.seg == a.seg && r.st != Ok
    requires b.ds == a.ds && (b.ps == a.ps || (op.OpCompact? && PausedOnly(a, b, op.pid)))
    ensures Effect(a, b, op, r)
  {
    hide PoolSlotOk, SlotsOk;
  }

  lemma Tables(a: Snap)
    requires Consistent(a)
    ensures |a.abs| == |a.ps|
  {
    hide PoolSlotOk, SlotsOk;
  }

  lemma OnePool(abs: seq<APool>, abs': seq<APool>, ps: seq<Pool>, ps': seq<Pool>, p: nat)
    requires OnlyPoolChanged(abs, abs', ps, ps', p) && p < |ps|
    ensures |ps'| == |ps| && ps' == ps[p := ps'[p]]
  {
  }

  lemma AllocCalled(a: Snap, b: Snap, op: Op, r: Reply, blk: nat)
    requires op.OpAlloc? && r.st == Ok && Consistent(a) && Consistent(b) && b.seg == a.seg
    requires AllocRefusal(a.ps, op.pool, op.size, op.alignment, op.flags) == Ok
    requires r.ref.index < |a.ds| && !Lives(a, r.ref.index) && r.ref.generation == NextGeneration(a.ds[r.ref.index].generation)
    requires OnlyPoolChanged(a.abs, b.abs, a.ps, b.ps, op.pool)
    requires AllocRecords(a.ps, b.ps, a.ds, b.ds, op.pool, r.ref.index,
                          NewDesc(blk, op.size, op.userTag, op.pool, Pinning(op.flags), r.ref.generation))
    ensures Effect(a, b, op, r)
  {
    hide Consistent, AllocRecords, OnlyPoolChanged, NextGeneration, Pinning, NewDesc, Lives;
    Tables(a);
    Tables(b);
    OnePool(a.abs, b.abs, a.ps, b.ps, op.pool);
  }

  lemma FreeCalled(a: Snap, b: Snap, ref: RawRef, r: Reply)
    requires r.st == Ok && Consistent(a) && Consistent(b) && b.seg == a.seg && |b.ps| == |a.ps| && GaveSlot(a, b, ref)
    ensures Effect(a, b, OpFree(ref), r)
  {
    hide Consistent, GaveSlot;
    Tables(a);
    Tables(b);
  }

  lemma CompactCalled(a: Snap, b: Snap, p: nat, req: Request, r: Reply, bs: seq<MB>, cut: nat)
    requires r.st == Ok && Consistent(a) && Consistent(b) && b.seg == a.seg && p < |a.ps| && p < |a.abs| && p < |b.abs|
    requires OnlyPoolChanged(a.abs, b.abs, a.ps, b.ps, p) && CompactRefusal(a.ps, p, req) == Ok && b.ps[p].state.Running?
    requires Compacted(a.z, b.z, a.ps[p], b.ps[p], a.ds, b.ds, a.abs[p], b.abs[p], a.seg, bs, cut)
    ensures Effect(a, b, OpCompact(p, req), r)
  {
    hide Consistent, OnlyPoolChanged, Compacted;
    Tables(a);
    Tables(b);
    OnePool(a.abs, b.abs, a.ps, b.ps, p);
  }

  lemma SplitCalled(a: Snap, b: Snap, sid: nat, n: u32, r: Reply, nid: u16, bs: seq<MB>, keep: nat)
    requires r.st == Ok && Consistent(a) && Consistent(b) && b.seg == a.seg
    requires sid < |a.ps| == |a.abs| == |b.abs| == |b.ps| && nid < |a.ps| && !a.ps[sid].state.Empty? && a.ps[sid].borrowCount == 0
    requires b.ps[sid].state.Running? && SplitInto(a, b, sid, nid, bs, keep)
    ensures Effect(a, b, OpSplit(sid, n), r)
  {
    hide Consistent, SplitInto;
  }
}
