/** collect_live_sorted: walk a pool's live list and return its slots in address order. Runs
    on arbitrary metadata; only the table length is assumed. */
module Collect {
  import opened Base
  import opened Lists
  import opened Objects
  import opened Sort

  const OFF_LIMIT: nat := 0x100_0000  // 2^24, the width of the packed offset

  // (offset << 8) | slot in 32 bits, for slot < 256.
  function PackedKey(address: nat, slot: nat): nat {
    (address % OFF_LIMIT) * 256 + slot % 256
  }

  function AddressOf(ds: seq<ObjectDesc>, sl: nat): nat {
    if sl < |ds| then ds[sl].address else 0
  }

  // The comparator of sort_slots_by_address: by address, ties by slot.
  function SlotLess(ds: seq<ObjectDesc>): (nat, nat) -> bool {
    (x: nat, y: nat) => if AddressOf(ds, x) != AddressOf(ds, y) then AddressOf(ds, x) < AddressOf(ds, y) else x < y
  }

  lemma SlotLessTotal(ds: seq<ObjectDesc>)
    ensures StrictTotal(SlotLess(ds))
  {
  }

  ghost predicate AddressSorted(ds: seq<ObjectDesc>, s: seq<nat>) {
    && (forall i :: 0 <= i < |s| ==> s[i] < |ds|)
    && (forall i, j :: 0 <= i < j < |s| ==> ds[s[i]].address <= ds[s[j]].address)
  }

  ghost predicate AddressIncreasing(ds: seq<ObjectDesc>, s: seq<nat>) {
    && (forall i :: 0 <= i < |s| ==> s[i] < |ds|)
    && (forall i, j :: 0 <= i < j < |s| ==> ds[s[i]].address < ds[s[j]].address)
  }

  function MapSeq(f: nat -> nat, s: seq<nat>): (r: seq<nat>)
    ensures |r| == |s| && forall i :: 0 <= i < |s| ==> r[i] == f(s[i])
  {
    seq(|s|, i requires 0 <= i < |s| => f(s[i]))
  }

  lemma MapConcat(f: nat -> nat, a: seq<nat>, b: seq<nat>)
    ensures MapSeq(f, a + b) == MapSeq(f, a) + MapSeq(f, b)
  {
  }

  lemma {:induction false} MapPermutes(f: nat -> nat, s: seq<nat>, t: seq<nat>)
    requires multiset(s) == multiset(t)
    ensures multiset(MapSeq(f, s)) == multiset(MapSeq(f, t))
    decreases |s|
  {
    if s == [] {
      assert |multiset(t)| == 0;
      assert t == [];
    } else {
      PermutedMember(s, t, 0);
      var i :| 0 <= i < |t| && t[i] == s[0];
      var a, b := t[..i], t[i + 1..];
      DropOne(s, t, i);
      MapPermutes(f, s[1..], a + b);
      MapConcat(f, [s[0]], s[1..]);
      MapConcat(f, a, [s[0]] + b);
      MapConcat(f, [s[0]], b);
      MapConcat(f, a, b);
    }
  }

  lemma DropOne(s: seq<nat>, t: seq<nat>, i: nat)
    requires s != [] && multiset(s) == multiset(t) && i < |t| && t[i] == s[0]
    ensures s == [s[0]] + s[1..] && t == t[..i] + ([s[0]] + t[i + 1..])
    ensures multiset(s[1..]) == multiset(t[..i] + t[i + 1..])
  {
    var a, b := t[..i], t[i + 1..];
    assert s == [s[0]] + s[1..];
    assert t == a + ([s[0]] + b);
    calc {
      multiset(s[1..]);
      multiset(s) - multiset{s[0]};
      multiset(t) - multiset{s[0]};
      multiset(a + ([s[0]] + b)) - multiset{s[0]};
      multiset(a) + multiset(b);
      multiset(a + b);
    }
  }

  // Packed keys order like addresses as long as every offset fits in 24 bits.
  lemma PackedOrder(ds: seq<ObjectDesc>, order: seq<nat>, keys: seq<nat>, s: seq<nat>)
    requires forall i :: 0 <= i < |order| ==> order[i] < |ds| && order[i] < 256
    requires |keys| == |s| && forall i :: 0 <= i < |keys| ==> s[i] == keys[i] % 256
    requires var ks := seq(|order|, i requires 0 <= i < |order| => PackedKey(AddressOf(ds, order[i]), order[i]));
             multiset(keys) == multiset(ks)
    ensures multiset(s) == multiset(order)
    ensures Ascending(keys) && (forall i :: 0 <= i < |order| ==> ds[order[i]].address < OFF_LIMIT) ==> AddressSorted(ds, s)
  {
    var low := (k: nat) => k % 256;
    var ks := seq(|order|, i requires 0 <= i < |order| => PackedKey(AddressOf(ds, order[i]), order[i]));
    MapPermutes(low, keys, ks);
    assert MapSeq(low, keys) == s;
    assert MapSeq(low, ks) == order;
    forall i | 0 <= i < |keys| ensures s[i] < |ds| && keys[i] == PackedKey(ds[s[i]].address, s[i]) {
      PermutedMember(keys, ks, i);
      var j :| 0 <= j < |ks| && ks[j] == keys[i];
      assert s[i] == order[j];
    }
    if Ascending(keys) && (forall i :: 0 <= i < |order| ==> ds[order[i]].address < OFF_LIMIT) {
      forall i, j | 0 <= i < j < |s| ensures ds[s[i]].address <= ds[s[j]].address {
        PermutedMember(s, order, i);
        PermutedMember(s, order, j);
        assert keys[i] <= keys[j];
      }
    }
  }

  lemma Strict(ds: seq<ObjectDesc>, s: seq<nat>)
    requires AddressSorted(ds, s) && forall i :: 1 <= i < |s| ==> ds[s[i]].address != ds[s[i - 1]].address
    ensures AddressIncreasing(ds, s)
  {
    forall i, j | 0 <= i < j < |s| ensures ds[s[i]].address < ds[s[j]].address {
      assert ds[s[j - 1]].address < ds[s[j]].address;
    }
  }

  // What the walk checks of each listed descriptor.
  ghost predicate Listed(ds: seq<ObjectDesc>, pid: nat, s: seq<nat>) {
    forall i :: 0 <= i < |s| ==> s[i] < |ds| && ds[s[i]].state.LiveObj? && ds[s[i]].poolId == pid && ds[s[i]].generation != 0
  }

  // A list that the walk must accept.
  ghost predicate GoodList(ds: seq<ObjectDesc>, head: u32, pid: nat, order: seq<nat>) {
    && |ds| < 0xFFFF && OrderLinked(ds, order, head) && NoDup(order) && Listed(ds, pid, order)
    && (forall i, j :: 0 <= i < j < |order| ==> ds[order[i]].address != ds[order[j]].address)
    && (forall i :: 0 <= i < |order| ==> ds[order[i]].address < OFF_LIMIT)
  }

  // What a successful collection has established.
  ghost predicate Collected(ds: seq<ObjectDesc>, head: u32, pid: nat, order: seq<nat>, slots: seq<nat>) {
    && |ds| < 0xFFFF && OrderLinked(ds, order, head) && NoDup(order) && Listed(ds, pid, order)
    && multiset(slots) == multiset(order) && Listed(ds, pid, slots) && NoDup(slots)
    && ((forall i :: 0 <= i < |slots| ==> ds[slots[i]].address < OFF_LIMIT) ==> AddressIncreasing(ds, slots))
  }

  // The walk has collected s and stands before node idx.
  ghost predicate Walked(ds: seq<ObjectDesc>, head: u32, pid: nat, s: seq<nat>, idx: u32, prev: u32) {
    && prev == At(s, |s| - 1) && Listed(ds, pid, s) && NoDup(s)
    && (forall i :: 0 <= i < |s| ==> s[i] < |ds| && ds[s[i]].addrPrev == At(s, i - 1))
    && (forall i :: 0 <= i < |s| - 1 ==> ds[s[i]].addrNext == s[i + 1])
    && (if s == [] then idx == head else s[0] == head && ds[s[|s| - 1]].addrNext == idx)
  }

  // One more node: the prev link rules out a revisit.
  // The back link tells the next node from all nodes behind.
  lemma WalkFresh(ds: seq<ObjectDesc>, head: u32, pid: nat, s: seq<nat>, idx: u32, prev: u32)
    requires |ds| < 0xFFFF && Walked(ds, head, pid, s, idx, prev) && idx < |ds| && ds[idx].addrPrev == prev
    ensures idx as nat !in s
  {
    hide Listed;
    forall i | 0 <= i < |s| ensures s[i] != idx {
      assert ds[s[i]].addrPrev == At(s, i - 1);
      if i > 0 { assert s[i - 1] != s[|s| - 1]; }
    }
  }

  lemma NodePushed(ds: seq<ObjectDesc>, pid: nat, s: seq<nat>, idx: nat)
    requires Listed(ds, pid, s) && NoDup(s) && idx !in s
    requires idx < |ds| && ds[idx].state.LiveObj? && ds[idx].poolId == pid && ds[idx].generation != 0
    ensures Listed(ds, pid, s + [idx]) && NoDup(s + [idx])
  {
  }

  lemma WalkStep(ds: seq<ObjectDesc>, head: u32, pid: nat, s: seq<nat>, idx: u32, prev: u32)
    requires |ds| < 0xFFFF && Walked(ds, head, pid, s, idx, prev)
    requires idx < |ds| && ds[idx].addrPrev == prev && ds[idx].state.LiveObj? && ds[idx].poolId == pid && ds[idx].generation != 0
    ensures Walked(ds, head, pid, s + [idx as nat], ds[idx].addrNext, idx)
  {
    hide Listed, NoDup;
    WalkFresh(ds, head, pid, s, idx, prev);
    NodePushed(ds, pid, s, idx);
    var t := s + [idx as nat];
    forall i | 0 <= i < |t| ensures ds[t[i]].addrPrev == At(t, i - 1) {
      if i < |s| { assert ds[s[i]].addrPrev == At(s, i - 1); }
    }
    forall i | 0 <= i < |t| - 1 ensures ds[t[i]].addrNext == t[i + 1] {
      if i < |s| - 1 { assert ds[s[i]].addrNext == s[i + 1]; }
    }
  }

  lemma WalkDone(ds: seq<ObjectDesc>, head: u32, pid: nat, s: seq<nat>, prev: u32)
    requires Walked(ds, head, pid, s, NO_ORDER, prev) && |ds| < 0xFFFF
    ensures OrderLinked(ds, s, head)
  {
    forall i | 0 <= i < |s| ensures ds[s[i]].addrNext == At(s, i + 1) {
      if i < |s| - 1 { assert ds[s[i]].addrNext == s[i + 1]; }
    }
  }

  // The walk follows a well-formed list node by node.
  ghost predicate Follows(hint: seq<nat>, s: seq<nat>, idx: u32) {
    |s| <= |hint| && s == hint[..|s|] && idx == At(hint, |s|)
  }

  method CollectList(objects: array<ObjectDesc>, head: u32, pid: nat, cap: nat, ghost hint: seq<nat>)
      returns (st: Status, slots: array<nat>, n: nat)
    requires objects.Length < 0xFFFF
    ensures fresh(slots) && n <= slots.Length && slots.Length == cap
    ensures st == Ok || st == CorruptMetadata
    ensures st == Ok ==> OrderLinked(objects[..], slots[..n], head) && NoDup(slots[..n]) && Listed(objects[..], pid, slots[..n])
    ensures GoodList(objects[..], head, pid, hint) && |hint| <= cap ==> st == Ok && slots[..n] == hint
  {
    hide GoodList, Follows;
    ghost var ds := objects[..];
    ghost var good := GoodList(ds, head, pid, hint) && |hint| <= cap;
    slots := new nat[cap](_ => 0);
    n := 0;
    var prev: u32 := NO_ORDER;
    var steps := 0;
    var idx: u32 := head;
    ghost var s: seq<nat> := [];
    if good { HintStart(ds, head, pid, hint); }
    while idx != NO_ORDER
      invariant n <= cap && steps == n == |s| && slots[..n] == s
      invariant Walked(ds, head, pid, s, idx, prev)
      invariant good ==> Follows(hint, s, idx)
      decreases objects.Length + 2 - steps
    {
      hide Walked;
      steps := steps + 1;
      if good { HintNode(ds, hint, head, pid, s, idx, prev); }
      if steps > objects.Length + 1 { return CorruptMetadata, slots, n; }
      if idx >= objects.Length { return CorruptMetadata, slots, n; }
      var d := objects[idx];
      if !d.state.LiveObj? || d.poolId != pid || d.generation == 0 { return CorruptMetadata, slots, n; }
      if d.addrPrev != prev { return CorruptMetadata, slots, n; }
      if n >= cap { return CorruptMetadata, slots, n; }
      WalkStep(ds, head, pid, s, idx, prev);
      slots[n] := idx;
      n := n + 1;
      s := s + [idx as nat];
      prev := idx;
      idx := d.addrNext;
    }
    st := Ok;
    WalkDone(ds, head, pid, s, prev);
    if good { HintEnd(ds, head, pid, hint, s); }
  }

  lemma HintStart(ds: seq<ObjectDesc>, head: u32, pid: nat, hint: seq<nat>)
    requires GoodList(ds, head, pid, hint)
    ensures Follows(hint, [], head)
  {
  }

  lemma HintNode(ds: seq<ObjectDesc>, hint: seq<nat>, head: u32, pid: nat, s: seq<nat>, idx: u32, prev: u32)
    requires GoodList(ds, head, pid, hint) && Follows(hint, s, idx) && Walked(ds, head, pid, s, idx, prev) && idx != NO_ORDER
    ensures |s| < |hint| <= |ds| && idx < |ds| && ds[idx].state.LiveObj? && ds[idx].poolId == pid && ds[idx].generation != 0
    ensures ds[idx].addrPrev == prev && Follows(hint, s + [idx as nat], ds[idx].addrNext)
  {
    DistinctBelow(hint, |ds|);
    var n: int := |s|;
    assert n < |hint|;
    assert ds[hint[n]].addrNext == At(hint, n + 1) && ds[hint[n]].addrPrev == At(hint, n - 1);
    assert s + [idx as nat] == hint[..n + 1];
  }

  lemma HintEnd(ds: seq<ObjectDesc>, head: u32, pid: nat, hint: seq<nat>, s: seq<nat>)
    requires GoodList(ds, head, pid, hint) && Follows(hint, s, NO_ORDER)
    ensures s == hint
  {
  }

  // The packed-key path for small zones and tables, the slot heapsort otherwise.
  method SortSlots(objects: array<ObjectDesc>, zoneSize: nat, slots: array<nat>, n: nat)
    requires n <= slots.Length && objects.Length < 0xFFFF
    requires forall i :: 0 <= i < n ==> slots[i] < objects.Length
    modifies slots
    ensures multiset(slots[..n]) == multiset(old(slots[..n]))
    ensures (forall i :: 0 <= i < n ==> objects[old(slots[i])].address < OFF_LIMIT) ==> AddressSorted(objects[..], slots[..n])
  {
    ghost var ds, order := objects[..], slots[..n];
    if zoneSize <= OFF_LIMIT && objects.Length <= 256 {
      var keys := new nat[n](_ => 0);
      for i := 0 to n
        invariant slots[..n] == order
        invariant forall j :: 0 <= j < i ==> keys[j] == PackedKey(AddressOf(ds, order[j]), order[j])
      {
        assert slots[i] == order[i];
        keys[i] := PackedKey(objects[slots[i]].address, slots[i]);
      }
      assert keys[..] == seq(|order|, i requires 0 <= i < |order| => PackedKey(AddressOf(ds, order[i]), order[i]));
      assert keys[..n] == keys[..];
      SortPackedKeys(keys, n);
      ghost var ks := keys[..n];
      for i := 0 to n
        invariant keys[..n] == ks
        invariant forall j :: 0 <= j < i ==> slots[j] == ks[j] % 256
      {
        slots[i] := keys[i] % 256;
      }
      PackedOrder(ds, order, ks, slots[..n]);
    } else {
      SlotLessTotal(ds);
      var less := SlotLess(objects[..]);
      HeapSort(slots, n, less);
      ghost var s := slots[..n];
      forall i | 0 <= i < n ensures s[i] < |ds| {
        PermutedMember(s, order, i);
      }
      forall i, j | 0 <= i < j < n ensures ds[s[i]].address <= ds[s[j]].address {
        assert Leq(less, s[i], s[j]);
      }
    }
  }

  lemma ListedPermuted(ds: seq<ObjectDesc>, pid: nat, s: seq<nat>, t: seq<nat>)
    requires multiset(s) == multiset(t) && Listed(ds, pid, t)
    ensures Listed(ds, pid, s)
    ensures (forall i :: 0 <= i < |s| ==> s[i] < |ds| && ds[s[i]].address < OFF_LIMIT) ==> (forall i :: 0 <= i < |t| ==> ds[t[i]].address < OFF_LIMIT)
  {
    forall i | 0 <= i < |s|
      ensures s[i] < |ds| && ds[s[i]].state.LiveObj? && ds[s[i]].poolId == pid && ds[s[i]].generation != 0
    {
      PermutedMember(s, t, i);
    }
    if forall i :: 0 <= i < |s| ==> s[i] < |ds| && ds[s[i]].address < OFF_LIMIT {
      forall i | 0 <= i < |t| ensures ds[t[i]].address < OFF_LIMIT {
        PermutedMember(t, s, i);
      }
    }
  }

  lemma GoodAddresses(ds: seq<ObjectDesc>, head: u32, pid: nat, order: seq<nat>, s: seq<nat>)
    requires GoodList(ds, head, pid, order) && multiset(s) == multiset(order) && NoDup(s)
    ensures forall i :: 0 <= i < |s| ==> s[i] < |ds| && ds[s[i]].address < OFF_LIMIT
    ensures forall i, j :: 0 <= i < j < |s| ==> ds[s[i]].address != ds[s[j]].address
  {
    forall i | 0 <= i < |s| ensures s[i] < |ds| && ds[s[i]].address < OFF_LIMIT {
      PermutedMember(s, order, i);
    }
    forall i, j | 0 <= i < j < |s| ensures ds[s[i]].address != ds[s[j]].address {
      PermutedMember(s, order, i);
      PermutedMember(s, order, j);
      var a :| 0 <= a < |order| && order[a] == s[i];
      var b :| 0 <= b < |order| && order[b] == s[j];
    }
  }

  // The duplicate test over the sorted slots.
  method NeighboursDiffer(objects: array<ObjectDesc>, slots: seq<nat>) returns (ok: bool)
    requires forall i :: 0 <= i < |slots| ==> slots[i] < objects.Length
    ensures ok <==> forall i :: 1 <= i < |slots| ==> objects[slots[i]].address != objects[slots[i - 1]].address
  {
    var i := 1;
    while i < |slots|
      invariant 1 <= i && forall j :: 1 <= j < i && j < |slots| ==> objects[slots[j]].address != objects[slots[j - 1]].address
    {
      if objects[slots[i]].address == objects[slots[i - 1]].address { return false; }
      i := i + 1;
    }
    return true;
  }

  // collect_live_sorted: Ok means the list is well linked, repeats no slot, holds live
  // descriptors of this pool, and the result is its address-sorted permutation; every
  // well-formed list with distinct in-range addresses is accepted.
  method CollectLiveSorted(objects: array<ObjectDesc>, head: u32, pid: nat, zoneSize: nat, cap: nat, ghost hint: seq<nat>)
      returns (st: Status, slots: seq<nat>, ghost order: seq<nat>)
    requires objects.Length < 0xFFFF
    ensures st == Ok || st == CorruptMetadata
    ensures st == Ok ==> |slots| <= cap && Collected(objects[..], head, pid, order, slots)
    ensures GoodList(objects[..], head, pid, hint) && |hint| <= cap ==> st == Ok && order == hint
  {
    hide GoodList, Listed, NoDup, OrderLinked, AddressSorted, AddressIncreasing;
    var out, n;
    st, out, n := CollectList(objects, head, pid, cap, hint);
    slots, order := [], [];
    if st != Ok { return; }
    order := out[..n];
    ghost var ds := objects[..];
    ListedRange(ds, pid, order);
    assert forall i :: 0 <= i < n ==> out[i] == order[i];
    SortSlots(objects, zoneSize, out, n);
    slots := out[..n];
    ListedPermuted(ds, pid, slots, order);
    ListedRange(ds, pid, slots);
    PermutedNoDup(slots, order);
    ghost var good := GoodList(ds, head, pid, hint) && |hint| <= cap;
    if good { GoodAddresses(ds, head, pid, hint, slots); }
    var distinct := NeighboursDiffer(objects, slots);
    if !distinct { return CorruptMetadata, slots, order; }
    if forall i :: 0 <= i < |slots| ==> ds[slots[i]].address < OFF_LIMIT {
      Strict(ds, slots);
    }
  }

  lemma ListedRange(ds: seq<ObjectDesc>, pid: nat, s: seq<nat>)
    requires Listed(ds, pid, s)
    ensures forall i :: 0 <= i < |s| ==> s[i] < |ds|
  {
  }

  // ---- uniqueness ---------------------------------------------------------------------------------

  ghost predicate SameMembers(a: seq<nat>, b: seq<nat>) {
    forall x :: x in a <==> x in b
  }

  lemma {:induction false} IncreasingUnique(ds: seq<ObjectDesc>, a: seq<nat>, b: seq<nat>)
    requires AddressIncreasing(ds, a) && AddressIncreasing(ds, b) && SameMembers(a, b)
    ensures a == b
  {
    hide AddressIncreasing;
    if a == [] {
      EmptyMembers(a, b);
    } else {
      EmptyMembers(b, a);
      LastAddress(ds, a, b);
      ButLast(ds, a);
      ButLast(ds, b);
      PrefixMembersEq(a, b);
      IncreasingUnique(ds, a[..|a| - 1], b[..|b| - 1]);
      assert a == a[..|a| - 1] + [a[|a| - 1]] && b == b[..|b| - 1] + [b[|b| - 1]];
    }
  }

  lemma PrefixMembersEq(a: seq<nat>, b: seq<nat>)
    requires a != [] && b != [] && a[|a| - 1] == b[|b| - 1] && SameMembers(a, b)
    requires forall x :: x in a[..|a| - 1] <==> x in a && x != a[|a| - 1]
    requires forall x :: x in b[..|b| - 1] <==> x in b && x != b[|b| - 1]
    ensures SameMembers(a[..|a| - 1], b[..|b| - 1])
  {
    var p, q := a[..|a| - 1], b[..|b| - 1];
    forall x ensures x in p <==> x in q {
      assert x in p <==> x in a && x != a[|a| - 1];
      assert x in q <==> x in b && x != b[|b| - 1];
    }
  }

  lemma EmptyMembers(a: seq<nat>, b: seq<nat>)
    requires SameMembers(a, b)
    ensures a == [] ==> b == []
  {
    if b != [] { assert b[0] in a; }
  }

  lemma LastAddress(ds: seq<ObjectDesc>, a: seq<nat>, b: seq<nat>)
    requires AddressIncreasing(ds, a) && AddressIncreasing(ds, b) && a != [] && b != [] && SameMembers(a, b)
    ensures a[|a| - 1] == b[|b| - 1]
  {
    var n, m := |a| - 1, |b| - 1;
    assert a[n] in b && b[m] in a;
    var j :| 0 <= j < |b| && b[j] == a[n];
    var k :| 0 <= k < |a| && a[k] == b[m];
    assert ds[b[j]].address <= ds[b[m]].address && ds[a[k]].address <= ds[a[n]].address;
  }

  lemma ButLast(ds: seq<ObjectDesc>, a: seq<nat>)
    requires AddressIncreasing(ds, a) && a != []
    ensures AddressIncreasing(ds, a[..|a| - 1]) && forall x :: x in a[..|a| - 1] <==> x in a && x != a[|a| - 1]
  {
    var n := |a| - 1;
    assert a == a[..n] + [a[n]];
    forall i | 0 <= i < n ensures a[i] != a[n] {
      assert ds[a[i]].address < ds[a[n]].address;
    }
  }
}
