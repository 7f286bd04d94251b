/** Object descriptors: the per-pool live list threaded through the descriptor table, the
    free-slot stack, borrow totals and slot generations. */
module Objects {
  import opened Base
  import opened Lists
  import opened Layout

  datatype ObjState = FreeSlot | LiveObj

  datatype Flag = MOVABLE | PINNED | DMA | EXTERNAL | ZERO_INIT | UNKNOWN

  // `address` is the payload's zone offset; 0 stands for the null address of a free slot.
  datatype ObjectDesc = ObjectDesc(
    address: nat, size: u32, blockSize: u32, userTag: u32, poolId: u16, flags: set<Flag>,
    generation: u16, addressEpoch: u32, activeBorrows: nat, nextFreeSlot: u16,
    addrPrev: u32, addrNext: u32, state: ObjState)

  // A zeroed descriptor with the given list links.
  function BlankDesc(): ObjectDesc {
    ObjectDesc(0, 0, 0, 0, 0, {}, 0, 0, 0, 0, 0, 0, FreeSlot)
  }

  // ---- generations ---------------------------------------------------------------------

  // next_generation: a uint16 bump that skips 0.
  function NextGeneration(g: u16): (r: u16)
  {
    if (g + 1) % 0x1_0000 == 0 then 1 else (g + 1) % 0x1_0000
  }

  // bump_epoch: a uint32 bump that skips 0.
  function BumpEpoch(e: u32): (r: u32)
  {
    if (e + 1) % U32_MOD == 0 then 1 else (e + 1) % U32_MOD
  }

  // ---- the live list of a pool -----------------------------------------------------------

  ghost predicate OrderLinked(ds: seq<ObjectDesc>, order: seq<nat>, head: u32) {
    && head == At(order, 0)
    && (forall i :: 0 <= i < |order| ==> order[i] < |ds|)
    && (forall i {:trigger ds[order[i]]} :: 0 <= i < |order| ==> ds[order[i]].addrNext == At(order, i + 1))
    && (forall i {:trigger ds[order[i]]} :: 0 <= i < |order| ==> ds[order[i]].addrPrev == At(order, i - 1))
  }

  ghost predicate LiveDesc(d: ObjectDesc, pid: nat) {
    && d.state.LiveObj? && d.poolId == pid && d.generation != 0
    && 0 < d.size && d.size + HEADER <= d.blockSize
  }

  // The descriptor in slot sl and the layout agree on one live block.
  ghost predicate PlacedAt(d: ObjectDesc, L: Lay, sl: nat) {
    && HEADER <= d.address && (d.address - HEADER) in L
    && L[d.address - HEADER] == Blk(d.blockSize, Live(sl))
  }

  function BorrowSum(ds: seq<ObjectDesc>, order: seq<nat>): nat
    requires forall i :: 0 <= i < |order| ==> order[i] < |ds|
  {
    if order == [] then 0 else ds[order[0]].activeBorrows + BorrowSum(ds, order[1..])
  }

  // Descriptors and layout of pool pid: the live list holds exactly the live blocks' slots.
  ghost predicate ObjsOk(ds: seq<ObjectDesc>, head: u32, pid: nat, L: Lay, order: seq<nat>) {
    && |ds| < 0xFFFF
    && OrderLinked(ds, order, head) && NoDup(order)
    && (forall sl :: sl in order ==> sl < |ds| && LiveDesc(ds[sl], pid) && PlacedAt(ds[sl], L, sl))
    && (forall o :: o in L && L[o].kind.Live? ==> L[o].kind.slot in order && L[o].kind.slot < |ds| && ds[L[o].kind.slot].address == o + HEADER)
  }

  // ---- append ----------------------------------------------------------------------------

  ghost predicate PushedDescs(ds: seq<ObjectDesc>, ds': seq<ObjectDesc>, slot: nat, head: u32) {
    && |ds'| == |ds| && slot < |ds| < 0xFFFF
    && ds'[slot].addrPrev == NO_ORDER && ds'[slot].addrNext == head
    && (forall sl :: 0 <= sl < |ds| && sl != slot ==>
         ds'[sl] == if sl == head then ds[sl].(addrPrev := slot) else ds[sl])
  }

  lemma PushOrder(ds: seq<ObjectDesc>, ds': seq<ObjectDesc>, order: seq<nat>, head: u32, slot: nat)
    requires OrderLinked(ds, order, head) && NoDup(order) && slot !in order && |ds| < 0xFFFF
    requires slot < U32_MOD && PushedDescs(ds, ds', slot, head)
    ensures OrderLinked(ds', [slot] + order, slot) && NoDup([slot] + order)
  {
    var t := [slot] + order;
    forall i | 0 <= i < |t|
      ensures t[i] < |ds'| && ds'[t[i]].addrNext == At(t, i + 1) && ds'[t[i]].addrPrev == At(t, i - 1)
    {
      if i > 0 {
        assert t[i] == order[i - 1] && order[i - 1] in order;
        assert ds[order[i - 1]].addrNext == At(order, i) && ds[order[i - 1]].addrPrev == At(order, i - 2);
        if i - 1 > 0 { assert order[i - 1] != order[0]; }
      }
    }
  }

  // ---- unlink ----------------------------------------------------------------------------

  ghost predicate UnlinkedDescs(ds: seq<ObjectDesc>, ds': seq<ObjectDesc>, slot: nat) {
    && |ds'| == |ds| && slot < |ds|
    && (forall sl :: 0 <= sl < |ds| && sl != slot ==>
         ds'[sl] == ds[sl].(addrNext := if sl == ds[slot].addrPrev then ds[slot].addrNext else ds[sl].addrNext,
                            addrPrev := if sl == ds[slot].addrNext then ds[slot].addrPrev else ds[sl].addrPrev))
  }

  lemma UnlinkOrder(ds: seq<ObjectDesc>, ds': seq<ObjectDesc>, order: seq<nat>, head: u32, i: nat)
    requires OrderLinked(ds, order, head) && NoDup(order) && i < |order| && |ds| < 0xFFFF
    requires UnlinkedDescs(ds, ds', order[i])
    ensures OrderLinked(ds', Without(order, i), if ds[order[i]].addrPrev == NO_ORDER then ds[order[i]].addrNext else head)
    ensures NoDup(Without(order, i)) && (ds[order[i]].addrPrev == NO_ORDER <==> i == 0)
  {
    var r := Without(order, i);
    WithoutMembers(order, i);
    assert ds[order[i]].addrPrev == At(order, i - 1) && ds[order[i]].addrNext == At(order, i + 1);
    forall j | 0 <= j < |r|
      ensures r[j] < |ds'| && ds'[r[j]].addrNext == At(r, j + 1) && ds'[r[j]].addrPrev == At(r, j - 1)
    {
      UnlinkOrderAt(ds, ds', order, head, i, j);
    }
  }

  lemma UnlinkOrderAt(ds: seq<ObjectDesc>, ds': seq<ObjectDesc>, order: seq<nat>, head: u32, i: nat, j: nat)
    requires OrderLinked(ds, order, head) && NoDup(order) && i < |order| && |ds| < 0xFFFF && j < |order| - 1
    requires UnlinkedDescs(ds, ds', order[i])
    ensures var r := Without(order, i);
            r[j] < |ds'| && ds'[r[j]].addrNext == At(r, j + 1) && ds'[r[j]].addrPrev == At(r, j - 1)
  {
    var m := if j < i then j else j + 1;
    assert order[m] != order[i];
    assert ds[order[m]].addrNext == At(order, m + 1) && ds[order[m]].addrPrev == At(order, m - 1);
    assert ds[order[i]].addrPrev == At(order, i - 1) && ds[order[i]].addrNext == At(order, i + 1);
  }

  // ---- borrow totals ---------------------------------------------------------------------

  ghost predicate Indexed(ds: seq<ObjectDesc>, order: seq<nat>) {
    forall i :: 0 <= i < |order| ==> order[i] < |ds|
  }

  lemma {:induction false} BorrowSumSame(ds: seq<ObjectDesc>, ds': seq<ObjectDesc>, order: seq<nat>)
    requires Indexed(ds, order) && |ds'| == |ds|
    requires forall i :: 0 <= i < |order| ==> ds'[order[i]].activeBorrows == ds[order[i]].activeBorrows
    ensures BorrowSum(ds', order) == BorrowSum(ds, order)
  {
    if order != [] {
      BorrowSumSame(ds, ds', order[1..]);
    }
  }

  lemma {:induction false} BorrowSumWithout(ds: seq<ObjectDesc>, order: seq<nat>, i: nat)
    requires Indexed(ds, order) && i < |order|
    ensures BorrowSum(ds, order) == ds[order[i]].activeBorrows + BorrowSum(ds, Without(order, i))
  {
    var r := Without(order, i);
    if i == 0 {
      assert r == order[1..];
    } else {
      BorrowSumWithout(ds, order[1..], i - 1);
      assert r[0] == order[0] && r[1..] == Without(order[1..], i - 1);
    }
  }

  // One object's count changes, every other stays.
  lemma BorrowSumUpdate(ds: seq<ObjectDesc>, ds': seq<ObjectDesc>, order: seq<nat>, slot: nat)
    requires Indexed(ds, order) && |ds'| == |ds| && NoDup(order) && slot in order
    requires forall sl :: 0 <= sl < |ds| && sl != slot ==> ds'[sl].activeBorrows == ds[sl].activeBorrows
    ensures slot < |ds| && BorrowSum(ds', order) == BorrowSum(ds, order) - ds[slot].activeBorrows + ds'[slot].activeBorrows
    ensures ds[slot].activeBorrows <= BorrowSum(ds, order)
  {
    var i := IndexOf(order, slot);
    WithoutMembers(order, i);
    BorrowSumWithout(ds, order, i);
    BorrowSumWithout(ds', order, i);
    var r := Without(order, i);
    forall j | 0 <= j < |r| ensures ds'[r[j]].activeBorrows == ds[r[j]].activeBorrows {
      assert r[j] in r;
    }
    BorrowSumSame(ds, ds', r);
  }

  lemma {:induction false} BorrowSumZero(ds: seq<ObjectDesc>, order: seq<nat>)
    requires Indexed(ds, order) && BorrowSum(ds, order) == 0
    ensures forall i :: 0 <= i < |order| ==> ds[order[i]].activeBorrows == 0
  {
    if order != [] {
      BorrowSumZero(ds, order[1..]);
      forall i | 0 <= i < |order| ensures ds[order[i]].activeBorrows == 0 {
        if i > 0 { assert order[i] == order[1..][i - 1]; }
      }
    }
  }

  lemma {:induction false} BorrowSumAllZero(ds: seq<ObjectDesc>, order: seq<nat>)
    requires Indexed(ds, order)
    requires forall i :: 0 <= i < |order| ==> ds[order[i]].activeBorrows == 0
    ensures BorrowSum(ds, order) == 0
  {
    if order != [] {
      BorrowSumAllZero(ds, order[1..]);
    }
  }

  // ---- the free-slot stack ---------------------------------------------------------------

  function SlotAt(stack: seq<nat>, i: nat): nat {
    if i < |stack| then stack[i] else NO_SLOT
  }

  // The stack threads exactly the free slots through next_free_slot.
  ghost predicate SlotsOk(ds: seq<ObjectDesc>, head: u16, stack: seq<nat>) {
    && |ds| < 0xFFFF && NoDup(stack) && head == SlotAt(stack, 0)
    && (forall i :: 0 <= i < |stack| ==> stack[i] < |ds|)
    && (forall i {:trigger ds[stack[i]]} :: 0 <= i < |stack| ==>
         ds[stack[i]].state.FreeSlot? && ds[stack[i]].nextFreeSlot == SlotAt(stack, i + 1))
    && (forall sl :: 0 <= sl < |ds| && ds[sl].state.FreeSlot? ==> sl in stack)
  }

  lemma SlotPop(ds: seq<ObjectDesc>, ds': seq<ObjectDesc>, head: u16, stack: seq<nat>)
    requires SlotsOk(ds, head, stack) && stack != [] && |ds'| == |ds|
    requires ds'[stack[0]].state.LiveObj?
    requires forall sl :: 0 <= sl < |ds| && sl != stack[0] ==> ds'[sl].state == ds[sl].state && ds'[sl].nextFreeSlot == ds[sl].nextFreeSlot
    ensures SlotsOk(ds', ds[head].nextFreeSlot, stack[1..])
  {
    var t := stack[1..];
    assert ds[stack[0]].nextFreeSlot == SlotAt(stack, 1);
    forall i | 0 <= i < |t| ensures ds'[t[i]].state.FreeSlot? && ds'[t[i]].nextFreeSlot == SlotAt(t, i + 1) {
      assert t[i] == stack[i + 1];
      assert ds[stack[i + 1]].nextFreeSlot == SlotAt(stack, i + 2);
    }
    forall sl | 0 <= sl < |ds| && ds'[sl].state.FreeSlot? ensures sl in t {
      assert sl in stack;
      var j := IndexOf(stack, sl);
      assert t[j - 1] == sl;
    }
  }

  lemma SlotPush(ds: seq<ObjectDesc>, ds': seq<ObjectDesc>, head: u16, stack: seq<nat>, slot: nat)
    requires SlotsOk(ds, head, stack) && slot < |ds| == |ds'|
    requires ds[slot].state.LiveObj? && ds'[slot].state.FreeSlot? && ds'[slot].nextFreeSlot == head
    requires forall sl :: 0 <= sl < |ds| && sl != slot ==> ds'[sl].state == ds[sl].state && ds'[sl].nextFreeSlot == ds[sl].nextFreeSlot
    ensures SlotsOk(ds', slot, [slot] + stack)
  {
    var t := [slot] + stack;
    forall i | 0 <= i < |stack| ensures stack[i] != slot {
      assert ds[stack[i]].state.FreeSlot?;
    }
    forall i | 0 <= i < |t| ensures ds'[t[i]].state.FreeSlot? && ds'[t[i]].nextFreeSlot == SlotAt(t, i + 1) {
      if i > 0 {
        assert t[i] == stack[i - 1];
        assert ds[stack[i - 1]].nextFreeSlot == SlotAt(stack, i);
      }
    }
    forall sl | 0 <= sl < |ds| && ds'[sl].state.FreeSlot? ensures sl in t {
      if sl != slot {
        assert sl in stack;
        assert t[IndexOf(stack, sl) + 1] == sl;
      }
    }
  }

  lemma SlotsFrame(ds: seq<ObjectDesc>, ds': seq<ObjectDesc>, head: u16, stack: seq<nat>)
    requires SlotsOk(ds, head, stack) && |ds'| == |ds|
    requires forall sl :: 0 <= sl < |ds| ==> ds'[sl].state == ds[sl].state && ds'[sl].nextFreeSlot == ds[sl].nextFreeSlot
    ensures SlotsOk(ds', head, stack)
  {
    forall i | 0 <= i < |stack| ensures ds'[stack[i]].state.FreeSlot? && ds'[stack[i]].nextFreeSlot == SlotAt(stack, i + 1) {
      assert ds[stack[i]].state.FreeSlot?;
    }
  }
}
