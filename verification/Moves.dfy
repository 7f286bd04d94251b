/** Relocation: the overlapping copy primitive and the in-place execution of a move plan. */
module Moves {
  import opened Base
  import opened Lists
  import opened Objects
  import opened Blocks

  // The words of [src, src + size) in z0 stand at [dst, dst + size) in z.
  ghost predicate Copied(z0: seq<u32>, z: seq<u32>, src: nat, dst: nat, size: nat) {
    && |z| == |z0| && src + size <= |z| && dst + size <= |z|
    && (forall c {:trigger z[c]} :: dst <= c < dst + size && (c - dst) % 4 == 0 ==> z[c] == z0[c - dst + src])
  }

  ghost predicate OutsideSame(z0: seq<u32>, z: seq<u32>, dst: nat, size: nat) {
    && |z| == |z0| && dst + size <= |z|
    && (forall c {:trigger z[c]} :: 0 <= c < |z| && !(dst <= c < dst + size) ==> z[c] == z0[c])
  }

  // move_block: memcpy when the ranges are disjoint, otherwise a word loop in the direction
  // that never overwrites a source word before it is read.
  method MoveBlock(zone: array<u32>, dst: nat, src: nat, size: nat)
    requires dst % ALIGN == 0 && src % ALIGN == 0 && size % ALIGN == 0
    requires dst + size <= zone.Length && src + size <= zone.Length
    modifies zone
    ensures Copied(old(zone[..]), zone[..], src, dst, size) && OutsideSame(old(zone[..]), zone[..], dst, size)
  {
    hide Copied, OutsideSame;
    WordAligned(dst);
    WordAligned(src);
    WordAligned(size);
    if dst == src || size == 0 {
      NothingToCopy(zone[..], dst, src, size);
      return;
    }
    if dst + size <= src || src + size <= dst || dst < src {
      CopyUp(zone, dst, src, size);
    } else {
      CopyDown(zone, dst, src, size);
    }
  }

  lemma WordAligned(n: nat)
    requires n % ALIGN == 0
    ensures n % 4 == 0
  {
  }

  lemma NothingToCopy(z: seq<u32>, dst: nat, src: nat, size: nat)
    requires (dst == src || size == 0) && dst + size <= |z| && src + size <= |z|
    ensures Copied(z, z, src, dst, size) && OutsideSame(z, z, dst, size)
  {
  }

  // Word by word from the low end; i is the byte offset of the next word.
  method CopyUp(zone: array<u32>, dst: nat, src: nat, size: nat)
    requires size % 4 == 0 && dst + size <= zone.Length && src + size <= zone.Length
    requires dst + size <= src || src + size <= dst || dst < src
    requires dst % 4 == 0 && src % 4 == 0
    modifies zone
    ensures Copied(old(zone[..]), zone[..], src, dst, size) && OutsideSame(old(zone[..]), zone[..], dst, size)
  {
    ghost var z := zone[..];
    var i := 0;
    while i < size
      invariant 0 <= i <= size && i % 4 == 0
      invariant forall c {:trigger zone[c]} :: dst <= c < dst + i && (c - dst) % 4 == 0 ==> zone[c] == z[c - dst + src]
      invariant forall c {:trigger zone[c]} :: 0 <= c < zone.Length && !(dst <= c < dst + i) ==> zone[c] == z[c]
    {
      assert zone[src + i] == z[src + i];
      zone[dst + i] := zone[src + i];
      i := i + 4;
    }
  }

  // Word by word from the high end.
  method CopyDown(zone: array<u32>, dst: nat, src: nat, size: nat)
    requires size % 4 == 0 && dst + size <= zone.Length && src + size <= zone.Length && src < dst
    requires dst % 4 == 0 && src % 4 == 0
    modifies zone
    ensures Copied(old(zone[..]), zone[..], src, dst, size) && OutsideSame(old(zone[..]), zone[..], dst, size)
  {
    ghost var z := zone[..];
    var i := size;
    while i > 0
      invariant 0 <= i <= size && i % 4 == 0
      invariant forall c {:trigger zone[c]} :: dst + i <= c < dst + size && (c - dst) % 4 == 0 ==> zone[c] == z[c - dst + src]
      invariant forall c {:trigger zone[c]} :: 0 <= c < zone.Length && !(dst + i <= c < dst + size) ==> zone[c] == z[c]
    {
      i := i - 4;
      assert zone[src + i] == z[src + i];
      zone[dst + i] := zone[src + i];
    }
  }

  // ---- plans ------------------------------------------------------------------------------

  // bs with every block at its destination.
  function Placed(bs: seq<MB>, dst: seq<nat>): (r: seq<MB>)
    requires |dst| == |bs|
    ensures |r| == |bs| && forall i :: 0 <= i < |bs| ==> r[i] == bs[i].(off := dst[i])
  {
    seq(|bs|, i requires 0 <= i < |bs| => bs[i].(off := dst[i]))
  }

  // Writing block i at its destination spares the source of block j.
  ghost predicate Spares(bs: seq<MB>, dst: seq<nat>, i: nat, j: nat)
    requires |dst| == |bs| && i < |bs| && j < |bs|
  {
    dst[i] + bs[i].size <= bs[j].off || bs[j].off + bs[j].size <= dst[i]
  }

  // `run` is the execution order, as indices into bs: every block that is not in it stays, and
  // no write reaches a source that is still to be moved.
  ghost predicate SafeRun(bs: seq<MB>, dst: seq<nat>, run: seq<nat>) {
    && |dst| == |bs| && NoDup(run)
    && (forall k :: 0 <= k < |run| ==> run[k] < |bs|)
    && (forall a, b :: 0 <= a < b < |run| ==> Spares(bs, dst, run[a], run[b]))
    && (forall i :: 0 <= i < |bs| && i !in run ==> dst[i] == bs[i].off)
  }

  ghost predicate DistinctSlots(bs: seq<MB>) {
    forall i, j :: 0 <= i < j < |bs| ==> bs[i].slot != bs[j].slot
  }

  // What a plan must meet before it is executed: source and destination positions are both
  // valid arrangements of the same window, and the order is safe.
  ghost predicate PlanOk(bs: seq<MB>, dst: seq<nat>, run: seq<nat>, s: nat, e: nat) {
    && Ordered(bs, s, e) && SafeRun(bs, dst, run) && DistinctSlots(bs)
    && Separate(Placed(bs, dst), s, e)
  }

  // Pairwise disjoint, aligned, inside the window; in any order.
  ghost predicate Separate(bs: seq<MB>, s: nat, e: nat) {
    && (forall i :: 0 <= i < |bs| ==> bs[i].off % ALIGN == 0 && s <= bs[i].off && bs[i].off + bs[i].size <= e)
    && (forall i, j :: 0 <= i < |bs| && 0 <= j < |bs| && i != j ==>
         bs[i].off + bs[i].size <= bs[j].off || bs[j].off + bs[j].size <= bs[i].off)
  }

  lemma OrderedSeparate(bs: seq<MB>, s: nat, e: nat)
    requires Ordered(bs, s, e)
    ensures Separate(bs, s, e)
  {
  }

  // ---- execution: the zone -----------------------------------------------------------------

  ghost predicate InDone(bs: seq<MB>, dst: seq<nat>, done: seq<nat>, c: nat)
    requires |dst| == |bs| && forall k :: 0 <= k < |done| ==> done[k] < |bs|
  {
    exists k :: 0 <= k < |done| && dst[done[k]] <= c < dst[done[k]] + bs[done[k]].size
  }

  // After the moves `done`: each moved block's words stand at its destination, all else is
  // untouched.
  ghost predicate RanZone(z0: seq<u32>, z: seq<u32>, bs: seq<MB>, dst: seq<nat>, done: seq<nat>) {
    && |dst| == |bs| && (forall k :: 0 <= k < |done| ==> done[k] < |bs|) && |z| == |z0|
    && (forall k {:trigger done[k]} :: 0 <= k < |done| ==> Copied(z0, z, bs[done[k]].off, dst[done[k]], bs[done[k]].size))
    && (forall c {:trigger z[c]} :: 0 <= c < |z| && !InDone(bs, dst, done, c) ==> z[c] == z0[c])
  }

  lemma RunStep(z0: seq<u32>, z: seq<u32>, z': seq<u32>, bs: seq<MB>, dst: seq<nat>, run: seq<nat>, k: nat, s: nat, e: nat)
    requires PlanOk(bs, dst, run, s, e) && k < |run| && RanZone(z0, z, bs, dst, run[..k])
    requires Copied(z, z', bs[run[k]].off, dst[run[k]], bs[run[k]].size)
    requires OutsideSame(z, z', dst[run[k]], bs[run[k]].size)
    ensures RanZone(z0, z', bs, dst, run[..k + 1])
  {
    var i := run[k];
    var done, done' := run[..k], run[..k + 1];
    assert done' == done + [i];
    SourceIntact(z0, z, bs, dst, run, k, s, e);
    forall a | 0 <= a < |done'| ensures Copied(z0, z', bs[done'[a]].off, dst[done'[a]], bs[done'[a]].size) {
      if a < k {
        assert done'[a] == done[a] == run[a];
        KeptCopy(z0, z, z', bs, dst, run, a, k, s, e);
      } else {
        ComposeCopy(z0, z, z', bs[i].off, dst[i], bs[i].size);
      }
    }
    forall c | 0 <= c < |z'| && !InDone(bs, dst, done', c) ensures z'[c] == z0[c] {
      NotDone(bs, dst, done, i, c);
    }
  }

  lemma NotDone(bs: seq<MB>, dst: seq<nat>, done: seq<nat>, i: nat, c: nat)
    requires |dst| == |bs| && (forall k :: 0 <= k < |done| ==> done[k] < |bs|) && i < |bs|
    requires !InDone(bs, dst, done + [i], c)
    ensures !InDone(bs, dst, done, c) && !(dst[i] <= c < dst[i] + bs[i].size)
  {
    var d := done + [i];
    assert d[|done|] == i;
    assert forall k :: 0 <= k < |done| ==> d[k] == done[k];
  }

  lemma SourceIntact(z0: seq<u32>, z: seq<u32>, bs: seq<MB>, dst: seq<nat>, run: seq<nat>, k: nat, s: nat, e: nat)
    requires PlanOk(bs, dst, run, s, e) && k < |run| && RanZone(z0, z, bs, dst, run[..k])
    ensures var i := run[k]; forall c :: bs[i].off <= c < bs[i].off + bs[i].size && c < |z| ==> z[c] == z0[c]
  {
    var i := run[k];
    forall c | bs[i].off <= c < bs[i].off + bs[i].size && c < |z| ensures z[c] == z0[c] {
      assert !InDone(bs, dst, run[..k], c) by {
        forall a | 0 <= a < k ensures !(dst[run[..k][a]] <= c < dst[run[..k][a]] + bs[run[..k][a]].size) {
          assert Spares(bs, dst, run[a], run[k]);
        }
      }
    }
  }

  lemma ComposeCopy(z0: seq<u32>, z: seq<u32>, z': seq<u32>, src: nat, dst: nat, size: nat)
    requires |z| == |z0| && Copied(z, z', src, dst, size) && forall c :: src <= c < src + size && c < |z| ==> z[c] == z0[c]
    ensures Copied(z0, z', src, dst, size)
  {
  }

  lemma KeptCopy(z0: seq<u32>, z: seq<u32>, z': seq<u32>, bs: seq<MB>, dst: seq<nat>, run: seq<nat>, a: nat, k: nat, s: nat, e: nat)
    requires PlanOk(bs, dst, run, s, e) && a < k < |run|
    requires Copied(z0, z, bs[run[a]].off, dst[run[a]], bs[run[a]].size)
    requires OutsideSame(z, z', dst[run[k]], bs[run[k]].size)
    ensures Copied(z0, z', bs[run[a]].off, dst[run[a]], bs[run[a]].size)
  {
    var i, j := run[a], run[k];
    var P := Placed(bs, dst);
    assert P[i].off + P[i].size <= P[j].off || P[j].off + P[j].size <= P[i].off;
  }

  // Every block, moved or not, ends with its words at its destination.
  ghost predicate AllCopied(z0: seq<u32>, z: seq<u32>, bs: seq<MB>, dst: seq<nat>) {
    && |dst| == |bs|
    && (forall i {:trigger dst[i]} :: 0 <= i < |bs| ==> Copied(z0, z, bs[i].off, dst[i], bs[i].size))
  }

  lemma RunDone(z0: seq<u32>, z: seq<u32>, bs: seq<MB>, dst: seq<nat>, run: seq<nat>, s: nat, e: nat)
    requires PlanOk(bs, dst, run, s, e) && RanZone(z0, z, bs, dst, run) && e <= |z0|
    ensures AllCopied(z0, z, bs, dst)
    ensures forall c :: 0 <= c < |z| && !(s <= c < e) ==> z[c] == z0[c]
  {
    forall i | 0 <= i < |bs| ensures Copied(z0, z, bs[i].off, dst[i], bs[i].size) {
      if i in run {
        var k :| 0 <= k < |run| && run[k] == i;
      } else {
        UnmovedIntact(z0, z, bs, dst, run, i, s, e);
      }
    }
    forall c | 0 <= c < |z| && !(s <= c < e) ensures z[c] == z0[c] {
      assert !InDone(bs, dst, run, c) by {
        forall k | 0 <= k < |run| ensures !(dst[run[k]] <= c < dst[run[k]] + bs[run[k]].size) {
          assert Placed(bs, dst)[run[k]].off == dst[run[k]];
        }
      }
    }
  }

  lemma UnmovedIntact(z0: seq<u32>, z: seq<u32>, bs: seq<MB>, dst: seq<nat>, run: seq<nat>, i: nat, s: nat, e: nat)
    requires PlanOk(bs, dst, run, s, e) && RanZone(z0, z, bs, dst, run) && i < |bs| && i !in run && e <= |z0|
    ensures Copied(z0, z, bs[i].off, dst[i], bs[i].size)
  {
    forall c | dst[i] <= c < dst[i] + bs[i].size ensures c < |z| && z[c] == z0[c] {
      assert !InDone(bs, dst, run, c) by {
        forall k | 0 <= k < |run| ensures !(dst[run[k]] <= c < dst[run[k]] + bs[run[k]].size) {
          var j := run[k];
          var P := Placed(bs, dst);
          assert P[i].off + P[i].size <= P[j].off || P[j].off + P[j].size <= P[i].off;
        }
      }
    }
  }

  // ---- execution: the descriptors -----------------------------------------------------------

  function MovedDesc(d: ObjectDesc, dst: nat): ObjectDesc {
    d.(address := dst + HEADER, addressEpoch := BumpEpoch(d.addressEpoch))
  }

  ghost predicate SlotDone(bs: seq<MB>, done: seq<nat>, sl: nat)
    requires forall k :: 0 <= k < |done| ==> done[k] < |bs|
  {
    exists k :: 0 <= k < |done| && bs[done[k]].slot == sl
  }

  ghost predicate RanDescs(ds0: seq<ObjectDesc>, ds: seq<ObjectDesc>, bs: seq<MB>, dst: seq<nat>, done: seq<nat>) {
    && |dst| == |bs| && |ds| == |ds0|
    && (forall k :: 0 <= k < |done| ==> done[k] < |bs| && bs[done[k]].slot < |ds|)
    && (forall k {:trigger done[k]} :: 0 <= k < |done| ==> ds[bs[done[k]].slot] == MovedDesc(ds0[bs[done[k]].slot], dst[done[k]]))
    && (forall sl {:trigger ds[sl]} :: 0 <= sl < |ds| && !SlotDone(bs, done, sl) ==> ds[sl] == ds0[sl])
  }

  lemma DescStep(ds0: seq<ObjectDesc>, ds: seq<ObjectDesc>, ds': seq<ObjectDesc>, bs: seq<MB>, dst: seq<nat>, run: seq<nat>, k: nat, s: nat, e: nat)
    requires PlanOk(bs, dst, run, s, e) && k < |run| && RanDescs(ds0, ds, bs, dst, run[..k])
    requires bs[run[k]].slot < |ds| && ds' == ds[bs[run[k]].slot := MovedDesc(ds[bs[run[k]].slot], dst[run[k]])]
    ensures RanDescs(ds0, ds', bs, dst, run[..k + 1])
    ensures ds[bs[run[k]].slot] == ds0[bs[run[k]].slot]
  {
    var i := run[k];
    var done, done' := run[..k], run[..k + 1];
    SlotFresh(bs, dst, run, k, s, e);
    forall a | 0 <= a < |done'| ensures ds'[bs[done'[a]].slot] == MovedDesc(ds0[bs[done'[a]].slot], dst[done'[a]]) {
      if a < k {
        assert done'[a] == done[a] == run[a] && run[a] != run[k];
      }
    }
    forall sl | 0 <= sl < |ds'| && !SlotDone(bs, done', sl) ensures ds'[sl] == ds0[sl] {
      assert done'[k] == i;
      assert forall a :: 0 <= a < k ==> done'[a] == done[a];
    }
  }

  lemma SlotFresh(bs: seq<MB>, dst: seq<nat>, run: seq<nat>, k: nat, s: nat, e: nat)
    requires PlanOk(bs, dst, run, s, e) && k < |run|
    ensures forall a :: 0 <= a < k ==> run[..k][a] < |bs|
    ensures !SlotDone(bs, run[..k], bs[run[k]].slot)
  {
    forall a | 0 <= a < k ensures bs[run[..k][a]].slot != bs[run[k]].slot {
      assert run[a] != run[k];
    }
  }

  // One planned relocation: slot, destination, size.
  datatype PlanEntry = PlanEntry(slot: nat, dst: nat, size: nat)

  // `plan` lists the entries of `run` in order.
  ghost predicate PlanOf(plan: seq<PlanEntry>, bs: seq<MB>, dst: seq<nat>, run: seq<nat>) {
    && |plan| == |run| && |dst| == |bs|
    && (forall k :: 0 <= k < |run| ==> run[k] < |bs| && plan[k] == PlanEntry(bs[run[k]].slot, dst[run[k]], bs[run[k]].size))
  }

  // One step of an execution loop.
  method MoveOne(zone: array<u32>, objects: array<ObjectDesc>, p: PlanEntry,
                 ghost z0: seq<u32>, ghost ds0: seq<ObjectDesc>, ghost bs: seq<MB>, ghost dst: seq<nat>, ghost run: seq<nat>,
                 ghost k: nat, ghost s: nat, ghost e: nat)
    requires PlanOk(bs, dst, run, s, e) && k < |run| && e <= zone.Length
    requires RanZone(z0, zone[..], bs, dst, run[..k]) && RanDescs(ds0, objects[..], bs, dst, run[..k])
    requires p == PlanEntry(bs[run[k]].slot, dst[run[k]], bs[run[k]].size)
    requires p.slot < |ds0| && ds0[p.slot].address == bs[run[k]].off + HEADER
    modifies zone, objects
    ensures RanZone(z0, zone[..], bs, dst, run[..k + 1]) && RanDescs(ds0, objects[..], bs, dst, run[..k + 1])
  {
    hide RanZone, Separate;
    ghost var z, ds := zone[..], objects[..];
    ghost var i := run[k];
    RunBounds(bs, dst, run, k, s, e);
    DescStep(ds0, ds, ds[p.slot := MovedDesc(ds[p.slot], p.dst)], bs, dst, run, k, s, e);
    var src := objects[p.slot].address - HEADER;
    MoveBlock(zone, p.dst, src, p.size);
    objects[p.slot] := MovedDesc(objects[p.slot], p.dst);
    RunStep(z0, z, zone[..], bs, dst, run, k, s, e);
    assert objects[..] == ds[p.slot := MovedDesc(ds[p.slot], p.dst)];
  }

  lemma RunBounds(bs: seq<MB>, dst: seq<nat>, run: seq<nat>, k: nat, s: nat, e: nat)
    requires PlanOk(bs, dst, run, s, e) && k < |run|
    ensures var i := run[k];
            && bs[i].off % ALIGN == 0 && bs[i].size % ALIGN == 0 && dst[i] % ALIGN == 0
            && bs[i].off + bs[i].size <= e && dst[i] + bs[i].size <= e
  {
    assert Placed(bs, dst)[run[k]].off == dst[run[k]];
  }

  ghost predicate SourcesAt(ds0: seq<ObjectDesc>, bs: seq<MB>) {
    forall i :: 0 <= i < |bs| ==> bs[i].slot < |ds0| && ds0[bs[i].slot].address == bs[i].off + HEADER
  }

  // An ascending execution loop over plan[from..to); `run` is the whole execution order.
  method RunAscending(zone: array<u32>, objects: array<ObjectDesc>, plan: seq<PlanEntry>, from: nat,
                      ghost z0: seq<u32>, ghost ds0: seq<ObjectDesc>, ghost bs: seq<MB>, ghost dst: seq<nat>, ghost run: seq<nat>,
                      ghost base: nat, ghost s: nat, ghost e: nat)
    requires PlanOk(bs, dst, run, s, e) && e <= zone.Length && SourcesAt(ds0, bs)
    requires from <= |plan| && base + (|plan| - from) <= |run|
    requires forall k :: from <= k < |plan| ==>
               var i := run[base + (k - from)]; i < |bs| && plan[k] == PlanEntry(bs[i].slot, dst[i], bs[i].size)
    requires RanZone(z0, zone[..], bs, dst, run[..base]) && RanDescs(ds0, objects[..], bs, dst, run[..base])
    modifies zone, objects
    ensures var n := base + (|plan| - from);
            RanZone(z0, zone[..], bs, dst, run[..n]) && RanDescs(ds0, objects[..], bs, dst, run[..n])
  {
    hide PlanOk, RanZone, RanDescs, SafeRun;
    for k := from to |plan|
      invariant RanZone(z0, zone[..], bs, dst, run[..base + (k - from)])
      invariant RanDescs(ds0, objects[..], bs, dst, run[..base + (k - from)])
    {
      RunIndex(bs, dst, run, base + (k - from), s, e);
      MoveOne(zone, objects, plan[k], z0, ds0, bs, dst, run, base + (k - from), s, e);
    }
  }

  lemma RunIndex(bs: seq<MB>, dst: seq<nat>, run: seq<nat>, k: nat, s: nat, e: nat)
    requires PlanOk(bs, dst, run, s, e) && k < |run|
    ensures run[k] < |bs| == |dst|
  {
  }

  // A descending execution loop over plan[0..n): entry n - 1 goes first.
  method RunDescending(zone: array<u32>, objects: array<ObjectDesc>, plan: seq<PlanEntry>, n: nat,
                       ghost z0: seq<u32>, ghost ds0: seq<ObjectDesc>, ghost bs: seq<MB>, ghost dst: seq<nat>, ghost run: seq<nat>,
                       ghost s: nat, ghost e: nat)
    requires PlanOk(bs, dst, run, s, e) && e <= zone.Length && SourcesAt(ds0, bs) && n <= |plan| && n <= |run|
    requires forall k :: 0 <= k < n ==>
               var i := run[n - 1 - k]; i < |bs| && plan[k] == PlanEntry(bs[i].slot, dst[i], bs[i].size)
    requires RanZone(z0, zone[..], bs, dst, []) && RanDescs(ds0, objects[..], bs, dst, [])
    modifies zone, objects
    ensures RanZone(z0, zone[..], bs, dst, run[..n]) && RanDescs(ds0, objects[..], bs, dst, run[..n])
  {
    hide PlanOk, RanZone, RanDescs, SafeRun;
    var i := n;
    assert run[..0] == [];
    while i > 0
      invariant 0 <= i <= n
      invariant RanZone(z0, zone[..], bs, dst, run[..n - i]) && RanDescs(ds0, objects[..], bs, dst, run[..n - i])
    {
      i := i - 1;
      RunIndex(bs, dst, run, n - 1 - i, s, e);
      MoveOne(zone, objects, plan[i], z0, ds0, bs, dst, run, n - 1 - i, s, e);
    }
  }
}
