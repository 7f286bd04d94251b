/** From relocated descriptors and a rebuilt layout back to a consistent pool: the common last
    step of compact, merge and split. */
module Relocate {
  import opened Base
  import opened Lists
  import opened Layout
  import opened Objects
  import opened Blocks
  import opened Collect
  import opened Moves
  import opened Finalize

  // bs are the blocks of the listed slots, as their descriptors describe them.
  ghost predicate ListBlocks(ds: seq<ObjectDesc>, order: seq<nat>, bs: seq<MB>) {
    && (forall i {:trigger bs[i]} :: 0 <= i < |bs| ==>
         && bs[i].slot in order && bs[i].slot < |ds| && HEADER <= ds[bs[i].slot].address
         && bs[i] == BlockOf(ds, bs[i].slot))
    && (forall sl :: sl in order ==> Blocked(bs, sl))
  }

  ghost predicate Blocked(bs: seq<MB>, sl: nat) {
    exists i :: 0 <= i < |bs| && bs[i].slot == sl
  }

  lemma ListedAt(ds: seq<ObjectDesc>, order: seq<nat>, bs: seq<MB>, sl: nat) returns (j: nat)
    requires ListBlocks(ds, order, bs) && sl in order
    ensures j < |bs| && bs[j].slot == sl
  {
    assert Blocked(bs, sl);
    j :| 0 <= j < |bs| && bs[j].slot == sl;
  }

  // A collected slot array lists the pool's blocks, each slot once.
  lemma CollectedBlocks(ds: seq<ObjectDesc>, head: u32, pid: nat, order: seq<nat>, slots: seq<nat>)
    requires Collected(ds, head, pid, order, slots) && Addressed(ds, slots)
    ensures ListBlocks(ds, order, BlocksOf(ds, slots)) && DistinctSlots(BlocksOf(ds, slots))
    ensures |slots| == |order|
  {
    hide OrderLinked, Listed, AddressIncreasing;
    var bs := BlocksOf(ds, slots);
    forall i | 0 <= i < |bs| ensures bs[i].slot in order {
      PermutedMember(slots, order, i);
    }
    forall sl | sl in order ensures Blocked(bs, sl) {
      var j := IndexOf(order, sl);
      PermutedMember(order, slots, j);
      var i :| 0 <= i < |slots| && slots[i] == sl;
      assert bs[i].slot == sl;
    }
    assert |multiset(slots)| == |multiset(order)|;
  }

  // A linked list of live descriptors and the layout rebuilt from their blocks agree.
  lemma RebuiltObjs(ds: seq<ObjectDesc>, head: u32, pid: nat, order: seq<nat>, bs: seq<MB>, s: nat, e: nat)
    requires |ds| < 0xFFFF && OrderLinked(ds, order, head) && NoDup(order)
    requires ListBlocks(ds, order, bs) && Ordered(bs, s, e)
    requires forall sl :: sl in order ==> sl < |ds| && LiveDesc(ds[sl], pid)
    ensures ObjsOk(ds, head, pid, CanonFull(bs, s, e), order)
  {
    hide OrderLinked, NoDup, Ordered, CanonFull, LiveDesc;
    CanonFullLive(bs, s, e);
    var C := CanonFull(bs, s, e);
    forall sl | sl in order ensures PlacedAt(ds[sl], C, sl) {
      assert Blocked(bs, sl);
      var i :| 0 <= i < |bs| && bs[i].slot == sl;
    }
    forall o | o in C && C[o].kind.Live?
      ensures C[o].kind.slot in order && C[o].kind.slot < |ds| && ds[C[o].kind.slot].address == o + HEADER
    {
      var i :| 0 <= i < |bs| && bs[i].off == o && C[o] == LiveBlk(bs[i]);
    }
  }

  // The payload words of every block, moved or not, stand at its destination.
  ghost predicate PayloadMoved(z: seq<u32>, z': seq<u32>, bs: seq<MB>, dst: seq<nat>) {
    && |z'| == |z| && |dst| == |bs|
    && (forall i, c {:trigger bs[i], z'[c]} :: 0 <= i < |bs| && dst[i] + HEADER <= c < dst[i] + bs[i].size && (c - dst[i]) % 4 == 0 ==>
         c < |z'| && 0 <= c - dst[i] + bs[i].off < |z| && z'[c] == z[c - dst[i] + bs[i].off])
  }

  lemma PayloadComposed(z0: seq<u32>, z1: seq<u32>, z2: seq<u32>, bs: seq<MB>, dst: seq<nat>)
    requires AllCopied(z0, z1, bs, dst) && PayloadKept(z1, z2, Placed(bs, dst)) && |z1| == |z0|
    ensures PayloadMoved(z0, z2, bs, dst)
  {
    var D := Placed(bs, dst);
    forall i, c | 0 <= i < |bs| && dst[i] + HEADER <= c < dst[i] + bs[i].size && (c - dst[i]) % 4 == 0
      ensures c < |z2| && 0 <= c - dst[i] + bs[i].off < |z0| && z2[c] == z0[c - dst[i] + bs[i].off]
    {
      assert Copied(z0, z1, bs[i].off, dst[i], bs[i].size);
      assert D[i].off == dst[i];
      assert z2[c] == z1[c];
    }
  }

  lemma {:induction false} PlacedSum(bs: seq<MB>, dst: seq<nat>)
    requires |dst| == |bs|
    ensures SumSizes(Placed(bs, dst)) == SumSizes(bs)
  {
    if bs != [] {
      var n := |bs| - 1;
      PlacedSum(bs[..n], dst[..n]);
      assert Placed(bs, dst)[..n] == Placed(bs[..n], dst[..n]);
    }
  }

  lemma OrderedInRange(bs: seq<MB>, s: nat, e: nat)
    requires Ordered(bs, s, e)
    ensures InRange(bs, s, e) == bs
  {
    AllInRange(bs, s, e);
  }

  // Borrow totals of an unborrowed list stay 0 when no count changes.
  lemma StillUnborrowed(ds: seq<ObjectDesc>, ds': seq<ObjectDesc>, order: seq<nat>, order': seq<nat>)
    requires Indexed(ds, order) && BorrowSum(ds, order) == 0 && |ds'| == |ds|
    requires Indexed(ds', order') && forall sl :: sl in order' ==> sl in order
    requires forall sl :: sl in order' ==> sl < |ds| && ds'[sl].activeBorrows == ds[sl].activeBorrows
    ensures BorrowSum(ds', order') == 0
  {
    BorrowSumZero(ds, order);
    forall i | 0 <= i < |order'| ensures ds'[order'[i]].activeBorrows == 0 {
      assert order'[i] in order;
      var j := IndexOf(order, order'[i]);
    }
    BorrowSumAllZero(ds', order');
  }

  lemma OrderIndexed(ds: seq<ObjectDesc>, head: u32, pid: nat, L: Lay, order: seq<nat>)
    requires ObjsOk(ds, head, pid, L, order)
    ensures Indexed(ds, order) && NoDup(order)
  {
  }

  // ---- rebuilding a live list -----------------------------------------------------------------

  // idx is appended behind the last node of q.
  ghost predicate AppendedAt(ds: seq<ObjectDesc>, ds': seq<ObjectDesc>, q: seq<nat>, idx: nat) {
    && |ds'| == |ds| && idx < |ds| && (forall i :: 0 <= i < |q| ==> q[i] < |ds|)
    && ds'[idx].addrPrev == At(q, |q| - 1) && ds'[idx].addrNext == NO_ORDER
    && (forall i {:trigger q[i]} :: 0 <= i < |q| ==>
         && ds'[q[i]].addrPrev == ds[q[i]].addrPrev
         && ds'[q[i]].addrNext == if i == |q| - 1 then idx else ds[q[i]].addrNext)
  }

  lemma AppendTail(ds: seq<ObjectDesc>, ds': seq<ObjectDesc>, q: seq<nat>, head: u32, idx: nat)
    requires OrderLinked(ds, q, head) && AppendedAt(ds, ds', q, idx) && idx < U32_MOD
    ensures OrderLinked(ds', q + [idx], if q == [] then idx else head)
  {
    var t := q + [idx];
    forall i | 0 <= i < |t|
      ensures t[i] < |ds'| && ds'[t[i]].addrNext == At(t, i + 1) && ds'[t[i]].addrPrev == At(t, i - 1)
    {
      if i < |q| {
        assert t[i] == q[i];
        assert ds[q[i]].addrNext == At(q, i + 1) && ds[q[i]].addrPrev == At(q, i - 1);
      }
    }
  }

  lemma LinksFrame(ds: seq<ObjectDesc>, ds': seq<ObjectDesc>, q: seq<nat>, head: u32)
    requires OrderLinked(ds, q, head) && |ds'| == |ds|
    requires forall i {:trigger q[i]} :: 0 <= i < |q| ==> q[i] < |ds| && ds'[q[i]].addrPrev == ds[q[i]].addrPrev && ds'[q[i]].addrNext == ds[q[i]].addrNext
    ensures OrderLinked(ds', q, head)
  {
    forall i | 0 <= i < |q| ensures ds'[q[i]].addrNext == At(q, i + 1) && ds'[q[i]].addrPrev == At(q, i - 1) {
      assert ds[q[i]].addrNext == At(q, i + 1) && ds[q[i]].addrPrev == At(q, i - 1);
    }
  }
}
