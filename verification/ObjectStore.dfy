/** The allocator as a store of objects: clients read and write payload words through short
    borrows (pm_access), and over any sequence of calls a read returns the last value written. */
module ObjectStore {
  import opened Base
  import opened Bins
  import opened Layout
  import opened PoolHeap
  import opened Objects
  import opened State
  import opened Init
  import opened Refs
  import opened AllocOp
  import opened FreeOp
  import opened Blocks
  import opened CompactOp
  import opened SplitOp
  import opened SplitPlan
  import opened Plan
  import opened MergeOp
  import opened Pools
  import opened Calls
  import opened Survival

  // ---- a client's write ----------------------------------------------------------------------------

  // Boundary tags decide the layout invariant.
  lemma TagsFrame(z: seq<u32>, z': seq<u32>, L: Lay, s: nat, e: nat)
    requires LayoutInv(z, L, s, e) && |z'| == |z|
    requires forall k :: k in L ==> k + 4 < |z| && z'[k] == z[k] && z'[k + 4] == z[k + 4]
    ensures LayoutInv(z', L, s, e)
  {
    hide Coalesced, Shaped, Tiles;
  }

  // A write into the payload of a live block touches no tag and no link.
  lemma PayloadWrite(z: seq<u32>, b: TlsfBins, L: Lay, lists: seq<seq<nat>>, s: nat, e: nat, o: nat, c: nat, v: u32)
    requires PoolLay(z, b, L, lists, s, e) && o in L && L[o].kind.Live? && o + HEADER <= c < o + L[o].size && c < |z|
    ensures PoolLay(z[c := v], b, L, lists, s, e)
  {
    hide BinsInv, HeadersOk, PrevOk, Coalesced, Tiles, Shaped;
    BlockSpans(L, s, e);
    var z' := z[c := v];
    forall k | k in L ensures k + 4 < |z| && z'[k] == z[k] && z'[k + 4] == z[k + 4] {
      assert k != o ==> k < o || o < k;
    }
    TagsFrame(z, z', L, s, e);
    forall f | f in FreeMap(L) ensures f + MIN_BLOCK <= |z| && z'[f] == z[f] && z'[f + 8] == z[f + 8] && z'[f + 12] == z[f + 12] {
      assert f < o || o < f;
    }
    BinsFrame(z, z', b, lists, FreeMap(L));
  }

  lemma WriteKeepsPool(z: seq<u32>, P: Pool, ds: seq<ObjectDesc>, p: nat, A: APool, seg: nat, sl: nat, c: nat, v: u32)
    requires PoolOk(z, P, ds, p, A, seg) && sl in A.order && sl < |ds|
    requires ds[sl].address <= c < ds[sl].address + ds[sl].size && c < |z|
    ensures PoolOk(z[c := v], P, ds, p, A, seg)
  {
    hide PoolLay;
    LiveInWindow(z, P, ds, p, A, seg, sl);
    PayloadWrite(z, P.bins, A.L, A.lists, PoolStart(P, seg), PoolEnd(P, seg), ds[sl].address - HEADER, c, v);
  }

  lemma WriteKeepsInv(a: Snap, sl: nat, c: nat, v: u32)
    requires Consistent(a) && Lives(a, sl) && a.ds[sl].address <= c < a.ds[sl].address + a.ds[sl].size
    ensures c < |a.z| && Consistent(a.(z := a.z[c := v]))
  {
    hide PoolOk, GeometryOk, SlotsOk, PlacedAt, Inv;
    Home(a, sl);
    var p: nat := a.ds[sl].poolId;
    PoolFacts(a.z, a.ps, a.ds, a.head, a.seg, a.segCount, a.zoneSize, a.abs, a.stack, p);
    LiveInWindow(a.z, a.ps[p], a.ds, p, a.abs[p], a.seg, sl);
    WriteKeepsPool(a.z, a.ps[p], a.ds, p, a.abs[p], a.seg, sl, c, v);
    OwnedSlots(a, p);
    PoolUpdated(a.z, a.z[c := v], a.ps, a.ps[p], a.ds, a.ds, a.head, a.head, a.seg, a.segCount, a.zoneSize, a.abs, a.abs[p], a.stack, a.stack, p);
    assert a.ps[p := a.ps[p]] == a.ps && a.abs[p := a.abs[p]] == a.abs;
  }

  lemma OwnedSlots(a: Snap, p: nat)
    requires Consistent(a) && p < |a.abs|
    ensures forall sl :: 0 <= sl < |a.ds| && a.ds[sl].state.LiveObj? ==> a.ds[sl].poolId != p || sl in a.abs[p].order
  {
    hide PoolSlotOk, SlotsOk;
    forall sl | 0 <= sl < |a.ds| && a.ds[sl].state.LiveObj? ensures a.ds[sl].poolId != p || sl in a.abs[p].order {
      assert SlotOwned(a.ps, a.ds, a.abs, sl);
    }
  }

  // The write leaves every other object alone.
  lemma WriteSurvives(a: Snap, slot: nat, c: nat, v: u32, sl: nat)
    requires Consistent(a) && Lives(a, slot) && Lives(a, sl) && sl != slot && c < |a.z|
    requires a.ds[slot].address <= c < a.ds[slot].address + a.ds[slot].size
    ensures Survives(a, a.(z := a.z[c := v]), sl)
  {
    hide Inv;
    Home(a, sl);
    Home(a, slot);
    ObjectsApart(a, slot, sl);
  }

  // ---- the abstract store ----------------------------------------------------------------------------

  // What clients know about one object: the generation in its reference, its size, the words
  // they have written, the number of open borrows and, while there is one, its address.
  datatype Content = Content(generation: u16, size: u32, words: map<nat, u32>, borrows: nat, address: nat)

  type Store = map<nat, Content>

  ghost predicate Holds(a: Snap, sl: nat, m: Content) {
    && Lives(a, sl) && a.ds[sl].generation == m.generation && a.ds[sl].size == m.size
    && a.ds[sl].activeBorrows == m.borrows && (m.borrows > 0 ==> a.ds[sl].address == m.address)
    && (forall k :: k in m.words ==>
         k % 4 == 0 && k + 4 <= m.size && a.ds[sl].address + k < |a.z| && a.z[a.ds[sl].address + k] == m.words[k])
  }

  // The store lists exactly the live objects, with their contents.
  ghost predicate Represents(a: Snap, M: Store) {
    && (forall sl :: sl in M ==> Holds(a, sl, M[sl]))
    && (forall sl :: Lives(a, sl) ==> sl in M)
  }

  lemma SurvivesHolds(a: Snap, b: Snap, sl: nat, m: Content)
    requires Consistent(a) && Survives(a, b, sl) && Holds(a, sl, m)
    requires a.ds[sl].activeBorrows > 0 ==> b.ds[sl].address == a.ds[sl].address
    ensures Holds(b, sl, m)
  {
    hide Inv, PlacedAt;
    Home(a, sl);
    var d, to := a.ds[sl], b.ds[sl].address;
    forall k | k in m.words
      ensures k % 4 == 0 && k + 4 <= m.size && to + k < |b.z| && b.z[to + k] == m.words[k]
    {
      assert b.z[to + k] == a.z[to + k - to + d.address];
    }
  }

  // Every live object but `except` survives the step, and a borrowed one does not move.
  ghost predicate Undisturbed(a: Snap, b: Snap, except: int) {
    forall sl: nat {:trigger Lives(a, sl)} :: Lives(a, sl) && sl != except ==>
      Survives(a, b, sl) && (a.ds[sl].activeBorrows > 0 ==> b.ds[sl].address == a.ds[sl].address)
  }

  lemma Unstacked(a: Snap, sl: nat)
    requires Consistent(a) && sl < |a.ds|
    ensures Lives(a, sl) <==> sl !in a.stack
  {
    hide PoolSlotOk;
  }

  // With the same free stack the same objects are live.
  lemma StoreKept(a: Snap, b: Snap, M: Store)
    requires Consistent(a) && Consistent(b) && b.stack == a.stack && |b.ds| == |a.ds|
    requires Undisturbed(a, b, -1) && Represents(a, M)
    ensures Represents(b, M)
  {
    hide Consistent, Holds, Survives;
    forall sl | sl in M ensures Holds(b, sl, M[sl]) {
      Alive(a, sl, M[sl]);
      SurvivesHolds(a, b, sl, M[sl]);
    }
    forall sl | Lives(b, sl) ensures sl in M {
      Unstacked(a, sl);
      Unstacked(b, sl);
    }
  }

  lemma Alive(a: Snap, sl: nat, m: Content)
    requires Holds(a, sl, m)
    ensures Lives(a, sl) && m.size == a.ds[sl].size && m.generation == a.ds[sl].generation
  {
  }

  // ---- calls and replies ------------------------------------------------------------------------------

  // Where the object starts that a begin has handed out.
  function BaseOf(r: Reply, ref: RawRef): nat {
    if r.addr >= ref.offset then r.addr - ref.offset else 0
  }

  // The abstract store after a call.
  function Replied(M: Store, op: Op, r: Reply): Store {
    if r.st != Ok then M
    else match op
      case OpAlloc(_, size, _, _, _) => M[r.ref.index as nat := Content(r.ref.generation, size, map[], 0, 0)]
      case OpFree(ref) => M - {ref.index as nat}
      case OpWrite(ref, word) =>
        if ref.index in M then M[ref.index as nat := M[ref.index].(words := M[ref.index].words[ref.offset as nat := word])] else M
      case OpBegin(ref, _, _) =>
        if ref.index in M
        then M[ref.index as nat := M[ref.index].(borrows := M[ref.index].borrows + 1, address := BaseOf(r, ref))] else M
      case OpEnd(ref) =>
        if ref.index in M && M[ref.index].borrows > 0
        then M[ref.index as nat := M[ref.index].(borrows := M[ref.index].borrows - 1)] else M
      case _ => M
  }

  // The reference names a current object of the store, and one word at its offset lies inside.
  predicate Current(M: Store, ref: RawRef) {
    ref.index in M && M[ref.index].generation == ref.generation
  }

  predicate WordInside(M: Store, ref: RawRef) {
    Current(M, ref) && ref.offset % 4 == 0 && ref.offset + 4 <= M[ref.index].size
  }

  // What a reply promises in terms of the store.
  predicate ReplyOk(M: Store, op: Op, r: Reply) {
    match op
    case OpAlloc(_, _, _, _, _) => r.st == Ok ==> r.ref.index !in M && r.ref.generation != 0 && r.ref.offset == 0
    case OpFree(ref) =>
      && (r.st == Ok ==> Current(M, ref) && ref.offset == 0 && M[ref.index].borrows == 0)
      && (Current(M, ref) && ref.offset == 0 && ref.poolHint == CROSS_HINT ==> r.st == Ok || r.st == Busy)
    case OpRead(ref) =>
      && (r.st == Ok ==> WordInside(M, ref) && (ref.offset in M[ref.index].words ==> r.word == M[ref.index].words[ref.offset]))
      && (WordInside(M, ref) && ref.poolHint == CROSS_HINT ==> r.st == Ok || r.st == Busy)
    case OpWrite(ref, _) =>
      && (r.st == Ok ==> WordInside(M, ref))
      && (WordInside(M, ref) && ref.poolHint == CROSS_HINT ==> r.st == Ok || r.st == Busy)
    case OpBegin(ref, size, alignment) =>
      && (r.st == Ok ==> Current(M, ref) && ref.offset + size <= M[ref.index].size && r.addr >= ref.offset)
      && (r.st == Ok && M[ref.index].borrows > 0 ==> r.addr == M[ref.index].address + ref.offset)
    case OpEnd(ref) =>
      && (r.st == Ok ==> Current(M, ref) && M[ref.index].borrows > 0)
      && (Current(M, ref) && M[ref.index].borrows > 0 && ref.poolHint == CROSS_HINT ==> r.st == Ok)
    case _ => true
  }

  // ---- word access through a short borrow -----------------------------------------------------------

  // A word that a reference may access: where it is.
  lemma WordAt(a: Snap, ref: RawRef)
    requires Consistent(a) && RefStatus(a.ps, a.ds, ref, 4, 4, true) == Ok
    ensures Lives(a, ref.index) && a.ds[ref.index].address % ALIGN == 0 && ref.offset % 4 == 0
    ensures ref.offset + 4 <= a.ds[ref.index].size && a.ds[ref.index].address + ref.offset < |a.z|
  {
    hide Inv, PlacedAt, RefStatus;
    DeadStatus(a, ref);
    Home(a, ref.index);
    Aligned(a, ref.index);
    WordStatus(a, ref);
  }

  lemma Aligned(a: Snap, sl: nat)
    requires Consistent(a) && Lives(a, sl)
    ensures a.ds[sl].address % ALIGN == 0
  {
    hide PoolOk, SlotsOk, LinksInTable, PlacedAt;
    LiveSlot(a.z, a.ps, a.ds, a.head, a.seg, a.segCount, a.zoneSize, a.abs, a.stack, sl);
    LiveInWindow(a.z, a.ps[a.ds[sl].poolId], a.ds, a.ds[sl].poolId, a.abs[a.ds[sl].poolId], a.seg, sl);
  }

  // try_borrow, one load, and the end of the access's scope.
  method ReadWord(g: GlobalState, ref: RawRef) returns (st: Status, word: u32)
    requires g.Valid()
    modifies g.pools, g.objects
    ensures g.Valid() && g.pools[..] == old(g.pools[..]) && g.objects[..] == old(g.objects[..])
    ensures st == RefStatus(g.pools[..], g.objects[..], ref, 4, 4, true)
    ensures st == Ok ==> ref.index < g.objects.Length && g.objects[ref.index].address + ref.offset < g.zone.Length
                         && word == g.zone[g.objects[ref.index].address + ref.offset]
  {
    hide Inv, RefStatus;
    ghost var a := SnapOf(g);
    word := 0;
    var addr;
    st, addr := BorrowBegin(g, ref, 4, 4);
    if st != Ok { return; }
    WordAt(a, ref);
    word := g.zone[addr];
    var ended := BorrowEnd(g, ref);
    BorrowUndone(a.ps, a.ds, g.pools[..], g.objects[..], ref.index);
  }

  lemma BorrowUndone(ps: seq<Pool>, ds: seq<ObjectDesc>, ps': seq<Pool>, ds': seq<ObjectDesc>, sl: nat)
    requires sl < |ds| == |ds'| && ds[sl].poolId < |ps| == |ps'|
    requires ds' == ds[sl := ds[sl]] && ps' == ps[ds[sl].poolId := ps[ds[sl].poolId]]
    ensures ds' == ds && ps' == ps
  {
  }

  // The same with one store.
  method WriteWord(g: GlobalState, ref: RawRef, word: u32) returns (st: Status)
    requires g.Valid()
    modifies g.zone, g.pools, g.objects
    ensures g.Valid() && g.pools[..] == old(g.pools[..]) && g.objects[..] == old(g.objects[..])
    ensures st == RefStatus(g.pools[..], g.objects[..], ref, 4, 4, true)
    ensures st == Ok ==> ref.index < g.objects.Length && g.objects[ref.index].address + ref.offset < g.zone.Length
                         && g.zone[..] == old(g.zone[..])[g.objects[ref.index].address + ref.offset := word]
    ensures st != Ok ==> g.zone[..] == old(g.zone[..])
  {
    hide Inv, RefStatus;
    ghost var a := SnapOf(g);
    var addr;
    st, addr := BorrowBegin(g, ref, 4, 4);
    if st != Ok { return; }
    WordAt(a, ref);
    WriteKeepsInv(SnapOf(g), ref.index, addr, word);
    g.zone[addr] := word;
    assert SnapOf(g).z == a.z[addr := word];
    var ended := BorrowEnd(g, ref);
    BorrowUndone(a.ps, a.ds, g.pools[..], g.objects[..], ref.index);
  }

  // The status of a word access, spelled out.
  lemma WordStatus(a: Snap, ref: RawRef)
    requires ref.index < |a.ds| && Lives(a, ref.index) && a.ds[ref.index].address % ALIGN == 0
    ensures var d, st := a.ds[ref.index], RefStatus(a.ps, a.ds, ref, 4, 4, true);
            && (st == Ok ==> d.generation == ref.generation && ref.offset % 4 == 0 && ref.offset + 4 <= d.size)
            && (d.generation == ref.generation && ref.offset % 4 == 0 && ref.offset + 4 <= d.size && ref.poolHint == CROSS_HINT ==> st == Ok || st == Busy)
  {
    WordOffset(a.ds[ref.index].address, ref.offset);
  }

  lemma DeadStatus(a: Snap, ref: RawRef)
    ensures RefStatus(a.ps, a.ds, ref, 4, 4, true) == Ok ==> ref.index < |a.ds| && Lives(a, ref.index)
  {
    hide Pow2Align;
  }

  // A reference to a word, in terms of the store.
  lemma WordReply(a: Snap, M: Store, ref: RawRef)
    requires Consistent(a) && Represents(a, M)
    ensures var st := RefStatus(a.ps, a.ds, ref, 4, 4, true);
            && (st == Ok ==> WordInside(M, ref))
            && (WordInside(M, ref) && ref.poolHint == CROSS_HINT ==> st == Ok || st == Busy)
  {
    hide Inv, RefStatus, Holds;
    DeadStatus(a, ref);
    if ref.index < |a.ds| && Lives(a, ref.index) {
      Aligned(a, ref.index);
      WordStatus(a, ref);
      Alive(a, ref.index, M[ref.index]);
    } else if ref.index in M {
      Alive(a, ref.index, M[ref.index]);
    }
  }

  lemma ReadReply(a: Snap, M: Store, ref: RawRef, r: Reply)
    requires Consistent(a) && Represents(a, M) && r.st == RefStatus(a.ps, a.ds, ref, 4, 4, true)
    requires r.st == Ok ==> ref.index < |a.ds| && a.ds[ref.index].address + ref.offset < |a.z| && r.word == a.z[a.ds[ref.index].address + ref.offset]
    ensures ReplyOk(M, OpRead(ref), r)
  {
    hide Inv, RefStatus;
    WordReply(a, M, ref);
  }

  // A write changes one word of one object of the store.
  lemma WriteStore(a: Snap, M: Store, ref: RawRef, word: u32)
    requires Consistent(a) && Represents(a, M) && RefStatus(a.ps, a.ds, ref, 4, 4, true) == Ok
    ensures Lives(a, ref.index) && a.ds[ref.index].address + ref.offset < |a.z|
    ensures var b := a.(z := a.z[a.ds[ref.index].address + ref.offset := word]);
            && Undisturbed(a, b, ref.index)
            && Represents(b, Replied(M, OpWrite(ref, word), Answer(Ok)))
  {
    hide Consistent, RefStatus, Survives, Holds;
    WordAt(a, ref);
    var slot: nat := ref.index;
    var c := a.ds[slot].address + ref.offset;
    var b := a.(z := a.z[c := word]);
    forall sl | Lives(a, sl) && sl != slot ensures Survives(a, b, sl) {
      WriteSurvives(a, slot, c, word, sl);
    }
    var M' := M[slot := M[slot].(words := M[slot].words[ref.offset as nat := word])];
    forall sl | sl in M' ensures Holds(b, sl, M'[sl]) {
      Alive(a, sl, M[sl]);
      if sl == slot {
        WrittenHolds(a, slot, ref.offset, word, M[slot]);
      } else {
        SurvivesHolds(a, b, sl, M[sl]);
      }
    }
  }

  lemma WrittenHolds(a: Snap, sl: nat, k: nat, word: u32, m: Content)
    requires Holds(a, sl, m) && k % 4 == 0 && k + 4 <= m.size && a.ds[sl].address + k < |a.z|
    ensures Holds(a.(z := a.z[a.ds[sl].address + k := word]), sl, m.(words := m.words[k := word]))
  {
  }

  // borrow_begin and borrow_end change one count; while there is a borrow, the address stands.
  lemma BorrowStore(a: Snap, b: Snap, M: Store, slot: nat, m: Content)
    requires Consistent(a) && Represents(a, M) && Lives(a, slot) && b.z == a.z
    requires b.ds == a.ds[slot := a.ds[slot].(activeBorrows := m.borrows)]
    requires slot in M && m == M[slot].(borrows := m.borrows, address := m.address) && (m.borrows > 0 ==> m.address == a.ds[slot].address)
    ensures Undisturbed(a, b, slot) && Represents(b, M[slot := m])
  {
    hide Consistent, Survives;
    forall sl: nat | Lives(a, sl) && sl != slot ensures Survives(a, b, sl) && b.ds[sl].address == a.ds[sl].address {
      StillSurvives(a, b, sl);
    }
    var M' := M[slot := m];
    forall sl | sl in M' ensures Holds(b, sl, M'[sl]) {
      assert Holds(a, sl, M[sl]);
      if sl != slot {
        hide Holds;
        Alive(a, sl, M[sl]);
        SurvivesHolds(a, b, sl, M[sl]);
      }
    }
  }

  // alloc adds a fresh object; every other one survives.
  lemma AllocStore(a: Snap, b: Snap, M: Store, p: nat, slot: nat, d: ObjectDesc)
    requires Consistent(a) && Represents(a, M) && p < |a.abs| && p < |a.ps| && !a.ps[p].state.Empty?
    requires AllocRecords(a.ps, b.ps, a.ds, b.ds, p, slot, d) && !Lives(a, slot) && d.state.LiveObj? && d.activeBorrows == 0
    requires LivePayloadKept(a.z, b.z, a.abs[p].L) && OutsideKept(a.z, b.z, PoolStart(a.ps[p], a.seg), PoolEnd(a.ps[p], a.seg))
    ensures Undisturbed(a, b, -1) && slot !in M
    ensures Represents(b, M[slot := Content(d.generation, d.size, map[], 0, 0)])
  {
    hide Consistent, Survives, LivePayloadKept, OutsideKept;
    forall sl: nat | Lives(a, sl) ensures Survives(a, b, sl) && b.ds[sl].address == a.ds[sl].address {
      AllocSurvives(a, b, p, slot, d, sl);
    }
    var M' := M[slot := Content(d.generation, d.size, map[], 0, 0)];
    assert slot !in M by { if slot in M { Alive(a, slot, M[slot]); } }
    forall sl | sl in M' ensures Holds(b, sl, M'[sl]) {
      if sl != slot {
        Alive(a, sl, M[sl]);
        SurvivesHolds(a, b, sl, M[sl]);
      }
    }
  }

  // free takes one object out.
  lemma FreeStore(a: Snap, b: Snap, M: Store, slot: nat)
    requires Consistent(a) && Represents(a, M) && Lives(a, slot)
    requires FreedObject(a.z, b.z, a.ps, b.ps, a.ds, b.ds, a.abs, b.abs, a.seg, slot)
    ensures Undisturbed(a, b, slot) && Represents(b, M - {slot})
  {
    hide Consistent, Survives, LivePayloadKept, OutsideKept, FreeEffect, OnlyPoolChanged, Holds;
    forall sl: nat | Lives(a, sl) && sl != slot ensures Survives(a, b, sl) && b.ds[sl].address == a.ds[sl].address {
      FreeSurvives(a, b, slot, sl);
    }
    var M' := M - {slot};
    forall sl | sl in M' ensures Holds(b, sl, M'[sl]) {
      Alive(a, sl, M[sl]);
      SurvivesHolds(a, b, sl, M[sl]);
    }
  }

  // ---- the steps ---------------------------------------------------------------------------------------

  // The object a call may destroy or change.
  function Named(op: Op): int {
    match op
    case OpFree(ref) => ref.index
    case OpWrite(ref, _) => ref.index
    case OpBegin(ref, _, _) => ref.index
    case OpEnd(ref) => ref.index
    case _ => -1
  }

  // What one call does to the store.
  ghost predicate Served(a: Snap, b: Snap, M: Store, op: Op, r: Reply) {
    && Represents(b, Replied(M, op, r)) && ReplyOk(M, op, r) && Undisturbed(a, b, Named(op))
  }

  // A call that leaves zone, table and free stack alone.
  lemma Unchanged(a: Snap, b: Snap, M: Store, op: Op, r: Reply)
    requires Consistent(a) && Consistent(b) && Represents(a, M) && b.z == a.z && b.ds == a.ds && b.stack == a.stack
    requires Replied(M, op, r) == M && ReplyOk(M, op, r)
    ensures Served(a, b, M, op, r)
  {
    hide Consistent, Survives, Holds, ReplyOk, Replied;
    forall sl: nat | Lives(a, sl) ensures Survives(a, b, sl) && b.ds[sl].address == a.ds[sl].address {
      StillSurvives(a, b, sl);
    }
    StoreKept(a, b, M);
  }

  lemma CompactServed(a: Snap, b: Snap, M: Store, p: nat, req: Request, r: Reply, bs: seq<MB>, cut: nat)
    requires Consistent(a) && Consistent(b) && Represents(a, M) && b.stack == a.stack
    requires p < |a.ps| && p < |b.ps| && p < |a.abs| && p < |b.abs| && !a.ps[p].state.Empty? && a.ps[p].borrowCount == 0
    requires Compacted(a.z, b.z, a.ps[p], b.ps[p], a.ds, b.ds, a.abs[p], b.abs[p], a.seg, bs, cut)
    ensures Served(a, b, M, OpCompact(p, req), r)
  {
    hide Consistent, Survives, Holds, Compacted;
    CompactTable(a, b, p, bs, cut);
    forall sl: nat | Lives(a, sl) ensures Survives(a, b, sl) && (a.ds[sl].activeBorrows > 0 ==> b.ds[sl].address == a.ds[sl].address) {
      CompactSurvives(a, b, p, bs, cut, sl);
      if a.ds[sl].activeBorrows > 0 { BorrowedElsewhere(a, p, sl); }
    }
    StoreKept(a, b, M);
  }

  lemma CompactTable(a: Snap, b: Snap, p: nat, bs: seq<MB>, cut: nat)
    requires p < |a.ps| && p < |b.ps| && p < |a.abs| && p < |b.abs|
    requires Compacted(a.z, b.z, a.ps[p], b.ps[p], a.ds, b.ds, a.abs[p], b.abs[p], a.seg, bs, cut)
    ensures |b.ds| == |a.ds|
  {
  }

  lemma MergeServed(a: Snap, b: Snap, M: Store, sid: nat, tid: u16, r: Reply, bs: seq<MB>, nLower: nat)
    requires Consistent(a) && Consistent(b) && Represents(a, M) && b.stack == a.stack
    requires sid < |a.ps| == |a.abs| && tid < |a.ps| && tid < |b.ps| && tid < |b.abs| && MergeRefusal(a.ps, sid, tid) == Ok
    requires MergeDone(a.z, b.z, a.ps[sid], a.ps[tid], b.ps[tid], a.ds, b.ds, a.abs[sid], a.abs[tid], b.abs[tid], a.seg, bs, nLower, tid)
    ensures Served(a, b, M, OpMerge(sid, tid), r)
  {
    hide Consistent, Survives, Holds, MergeDone, Adjacent;
    MergeSizeOf(a, b, sid, tid, bs, nLower);
    forall sl: nat | Lives(a, sl) ensures Survives(a, b, sl) && (a.ds[sl].activeBorrows > 0 ==> b.ds[sl].address == a.ds[sl].address) {
      MergeSurvives(a, b, sid, tid, bs, nLower, sl);
      if a.ds[sl].activeBorrows > 0 {
        BorrowedElsewhere(a, sid, sl);
        BorrowedElsewhere(a, tid, sl);
      }
    }
    StoreKept(a, b, M);
  }

  lemma MergeSizeOf(a: Snap, b: Snap, sid: nat, tid: u16, bs: seq<MB>, nLower: nat)
    requires sid < |a.ps| == |a.abs| && tid < |a.ps| && tid < |b.ps| && tid < |b.abs|
    requires MergeDone(a.z, b.z, a.ps[sid], a.ps[tid], b.ps[tid], a.ds, b.ds, a.abs[sid], a.abs[tid], b.abs[tid], a.seg, bs, nLower, tid)
    ensures |b.ds| == |a.ds|
  {
  }

  lemma SplitServed(a: Snap, b: Snap, M: Store, sid: nat, nid: u16, n: u32, r: Reply, bs: seq<MB>, keep: nat)
    requires Consistent(a) && Consistent(b) && Represents(a, M) && b.stack == a.stack
    requires sid < |a.ps| == |a.abs| && sid < |b.ps| == |b.abs| && nid < |b.ps| && !a.ps[sid].state.Empty? && a.ps[sid].borrowCount == 0
    requires SplitDone(a.z, b.z, a.ps[sid], b.ps[sid], b.ps[nid], a.ds, b.ds, a.abs[sid], b.abs[sid], b.abs[nid], a.seg, bs, keep, nid)
    ensures Served(a, b, M, OpSplit(sid, n), r)
  {
    hide Consistent, Survives, Holds, SplitDone;
    SplitSizeOf(a, b, sid, nid, bs, keep);
    forall sl: nat | Lives(a, sl) ensures Survives(a, b, sl) && (a.ds[sl].activeBorrows > 0 ==> b.ds[sl].address == a.ds[sl].address) {
      SplitSurvives(a, b, sid, nid, bs, keep, sl);
      if a.ds[sl].activeBorrows > 0 { BorrowedElsewhere(a, sid, sl); }
    }
    StoreKept(a, b, M);
  }

  lemma SplitSizeOf(a: Snap, b: Snap, sid: nat, nid: u16, bs: seq<MB>, keep: nat)
    requires sid < |a.ps| == |a.abs| && sid < |b.ps| == |b.abs| && nid < |b.ps|
    requires SplitDone(a.z, b.z, a.ps[sid], b.ps[sid], b.ps[nid], a.ds, b.ds, a.abs[sid], b.abs[sid], b.abs[nid], a.seg, bs, keep, nid)
    ensures |b.ds| == |a.ds|
  {
  }

  lemma CreateServed(a: Snap, b: Snap, M: Store, base: u16, n: u16, r: Reply)
    requires Consistent(a) && Consistent(b) && Represents(a, M) && b.stack == a.stack && b.ds == a.ds
    requires 0 < n && base + n <= a.segCount && FreeRun(a.ps, base, n)
    requires OutsideKept(a.z, b.z, SegOff(base, a.seg), SegOff(base + n, a.seg))
    ensures Served(a, b, M, OpCreate(n), r)
  {
    hide Consistent, Survives, Holds, OutsideKept, FreeRun;
    forall sl: nat | Lives(a, sl) ensures Survives(a, b, sl) {
      CreateSurvives(a, b, base, n, sl);
    }
    StoreKept(a, b, M);
  }

  // ---- any sequence of calls ------------------------------------------------------------------------------

  method DoPool(g: GlobalState, op: Op, ghost M: Store) returns (r: Reply)
    requires g.Valid() && Represents(SnapOf(g), M) && (op.OpCreate? || op.OpDestroy? || op.OpPause? || op.OpResume?)
    modifies g, g.zone, g.pools
    ensures g.Valid() && Served(old(SnapOf(g)), SnapOf(g), M, op, r) && Effect(old(SnapOf(g)), SnapOf(g), op, r)
  {
    hide Inv, Represents, Served, OutsideKept, FreeRun;
    ghost var a := SnapOf(g);
    Tables(a);
    var st;
    match op {
      case OpCreate(n) =>
        var out;
        ghost var base;
        st, out, base := CreatePool(g, n);
        r := Answer(st);
        if st == Ok {
          CreateServed(a, SnapOf(g), M, base, n, r);
          assert CreatedAt(a, SnapOf(g), out);
          Tables(SnapOf(g));
          return;
        }
      case OpDestroy(pid) => st := DestroyPool(g, pid);
      case OpPause(pid) => st := Pause(g, pid);
      case OpResume(pid) => st := Resume(g, pid);
    }
    r := Answer(st);
    Unchanged(a, SnapOf(g), M, op, r);
    Tables(SnapOf(g));
  }

  method DoObject(g: GlobalState, op: Op, ghost M: Store) returns (r: Reply)
    requires g.Valid() && Represents(SnapOf(g), M) && (op.OpAlloc? || op.OpFree?)
    modifies g, g.zone, g.pools, g.objects
    ensures g.Valid() && Served(old(SnapOf(g)), SnapOf(g), M, op, r) && Effect(old(SnapOf(g)), SnapOf(g), op, r)
  {
    hide Inv, Effect, Represents, Undisturbed, OutsideKept, AllocRecords, FreedObject, AllocEffect, LivePayloadKept, OnlyPoolChanged, RefStatus, NextGeneration;
    ghost var a := SnapOf(g);
    Tables(a);
    match op {
      case OpAlloc(pool, size, alignment, flags, userTag) =>
        var st, out;
        ghost var blk;
        st, out, blk := Alloc(g, pool, size, alignment, flags, userTag);
        r := Answer(st).(ref := out);
        if st == Ok {
          TopNotLive(a);
          NextGenerationLive(a.ds[out.index].generation);
          AllocStore(a, SnapOf(g), M, pool, out.index, NewDesc(blk, size, userTag, pool, Pinning(flags), out.generation));
          AllocCalled(a, SnapOf(g), op, r, blk);
        } else {
          Unchanged(a, SnapOf(g), M, op, r);
          RefusedEffect(a, SnapOf(g), op, r);
        }
      case OpFree(ref) =>
        var st := FreeObject(g, ref);
        r := Answer(st);
        FreeReply(a, M, ref, r);
        if st == Ok {
          FreeStore(a, SnapOf(g), M, ref.index);
          assert |g.pools[..]| == |a.ps|;
          FreeCalled(a, SnapOf(g), ref, r);
        } else {
          Unchanged(a, SnapOf(g), M, op, r);
          RefusedEffect(a, SnapOf(g), op, r);
        }
    }
  }

  // alloc takes a slot that is not live.
  lemma TopNotLive(a: Snap)
    requires Consistent(a) && a.stack != []
    ensures !Lives(a, a.stack[0])
  {
    hide PoolSlotOk;
    if a.stack[0] < |a.ds| { Unstacked(a, a.stack[0]); }
  }

  lemma FreeReply(a: Snap, M: Store, ref: RawRef, r: Reply)
    requires Consistent(a) && Represents(a, M) && r.st == FreeStatus(a.ps, a.ds, ref)
    ensures ReplyOk(M, OpFree(ref), r)
    ensures r.st == Ok ==> Lives(a, ref.index)
  {
    hide Inv;
    if Current(M, ref) { Alive(a, ref.index, M[ref.index]); }
  }

  method DoAccess(g: GlobalState, op: Op, ghost M: Store) returns (r: Reply)
    requires g.Valid() && Represents(SnapOf(g), M) && (op.OpRead? || op.OpWrite?)
    modifies g.zone, g.pools, g.objects
    ensures g.Valid() && Served(old(SnapOf(g)), SnapOf(g), M, op, r) && Effect(old(SnapOf(g)), SnapOf(g), op, r)
  {
    hide Inv, Represents, Undisturbed, RefStatus;
    ghost var a := SnapOf(g);
    Tables(a);
    match op {
      case OpRead(ref) =>
        var st, word := ReadWord(g, ref);
        r := Answer(st).(word := word);
        ReadReply(a, M, ref, r);
        Unchanged(a, SnapOf(g), M, op, r);
      case OpWrite(ref, word) =>
        var st := WriteWord(g, ref, word);
        r := Answer(st);
        WordReply(a, M, ref);
        if st == Ok {
          WriteStore(a, M, ref, word);
          assert SnapOf(g) == a.(z := a.z[a.ds[ref.index].address + ref.offset := word]);
        } else {
          Unchanged(a, SnapOf(g), M, op, r);
        }
    }
    Tables(SnapOf(g));
  }

  method DoBorrow(g: GlobalState, op: Op, ghost M: Store) returns (r: Reply)
    requires g.Valid() && Represents(SnapOf(g), M) && (op.OpBegin? || op.OpEnd?)
    modifies g.pools, g.objects
    ensures g.Valid() && Served(old(SnapOf(g)), SnapOf(g), M, op, r) && Effect(old(SnapOf(g)), SnapOf(g), op, r)
  {
    hide Inv, Undisturbed, RefStatus, Holds;
    ghost var a := SnapOf(g);
    Tables(a);
    match op {
      case OpBegin(ref, size, alignment) =>
        var st, addr := BorrowBegin(g, ref, size, alignment);
        r := Answer(st).(addr := addr);
        if st == Ok {
          HeldFacts(a, M, ref.index);
          BorrowStore(a, SnapOf(g), M, ref.index, M[ref.index].(borrows := M[ref.index].borrows + 1, address := BaseOf(r, ref)));
        } else {
          hide Represents;
          Unchanged(a, SnapOf(g), M, op, r);
        }
      case OpEnd(ref) =>
        var ok := BorrowEnd(g, ref);
        r := Answer(if ok then Ok else InvalidRef);
        if ref.index in M { HeldFacts(a, M, ref.index); }
        if ok {
          HeldFacts(a, M, ref.index);
          BorrowStore(a, SnapOf(g), M, ref.index, M[ref.index].(borrows := M[ref.index].borrows - 1));
        } else {
          hide Represents;
          Unchanged(a, SnapOf(g), M, op, r);
        }
    }
    Tables(SnapOf(g));
  }

  lemma HeldFacts(a: Snap, M: Store, sl: nat)
    requires Represents(a, M) && (Lives(a, sl) || sl in M)
    ensures sl in M && Lives(a, sl) && M[sl].generation == a.ds[sl].generation && M[sl].size == a.ds[sl].size
    ensures M[sl].borrows == a.ds[sl].activeBorrows && (M[sl].borrows > 0 ==> M[sl].address == a.ds[sl].address)
  {
  }

  lemma MaintenanceRefused(M: Store, op: Op, st: Status)
    requires (op.OpCompact? || op.OpMerge? || op.OpSplit?) && st != Ok
    ensures Replied(M, op, Answer(st)) == M && ReplyOk(M, op, Answer(st))
  {
  }

  method DoCompact(g: GlobalState, pid: nat, req: Request, ghost M: Store) returns (r: Reply)
    requires g.Valid() && Represents(SnapOf(g), M)
    modifies g, g.zone, g.pools, g.objects
    ensures g.Valid() && Served(old(SnapOf(g)), SnapOf(g), M, OpCompact(pid, req), r) && Effect(old(SnapOf(g)), SnapOf(g), OpCompact(pid, req), r)
  {
    hide Inv, Effect, Represents, Served, Compacted, OnlyPoolChanged, Replied, ReplyOk, Scan, PoolStart, PoolEnd;
    ghost var a := SnapOf(g);
    Tables(a);
    var st, met;
    ghost var bs, cut;
    ValidIsSized(g);
    st, met, bs, cut := Compact(g, pid, req);
    r := Answer(st);
    Tables(SnapOf(g));
    if st == Ok {
      CompactServed(a, SnapOf(g), M, pid, req, r, bs, cut.at);
      CompactCalled(a, SnapOf(g), pid, req, r, bs, cut.at);
    } else {
      MaintenanceRefused(M, OpCompact(pid, req), st);
      Unchanged(a, SnapOf(g), M, OpCompact(pid, req), r);
      RefusedEffect(a, SnapOf(g), OpCompact(pid, req), r);
    }
  }

  method DoMerge(g: GlobalState, source: nat, target: nat, ghost M: Store) returns (r: Reply)
    requires g.Valid() && Represents(SnapOf(g), M)
    modifies g, g.zone, g.pools, g.objects
    ensures g.Valid() && Served(old(SnapOf(g)), SnapOf(g), M, OpMerge(source, target), r) && Effect(old(SnapOf(g)), SnapOf(g), OpMerge(source, target), r)
  {
    hide Inv, Represents, Served, MergeDone, Replied, ReplyOk, Sized, MergeRefusal, ZeroPool;
    ghost var a := SnapOf(g);
    Tables(a);
    ValidIsSized(g);
    var st;
    ghost var bs, nLower;
    st, bs, nLower := Merge(g, source, target);
    r := Answer(st);
    Tables(SnapOf(g));
    if st == Ok {
      MergeServed(a, SnapOf(g), M, source, target, r, bs, nLower);
    } else {
      MaintenanceRefused(M, OpMerge(source, target), st);
      Unchanged(a, SnapOf(g), M, OpMerge(source, target), r);
      RefusedEffect(a, SnapOf(g), OpMerge(source, target), r);
    }
  }

  method DoSplit(g: GlobalState, source: nat, newSegments: u32, ghost M: Store) returns (r: Reply)
    requires g.Valid() && Represents(SnapOf(g), M)
    modifies g, g.zone, g.pools, g.objects
    ensures g.Valid() && Served(old(SnapOf(g)), SnapOf(g), M, OpSplit(source, newSegments), r) && Effect(old(SnapOf(g)), SnapOf(g), OpSplit(source, newSegments), r)
  {
    hide Inv, Effect, Represents, Served, SplitDone, Replied, ReplyOk, FirstEmpty, SplitVerdict, Boundary, PoolStart, PoolEnd;
    ghost var a := SnapOf(g);
    Tables(a);
    var st, out;
    ghost var bs;
    ValidIsSized(g);
    ValidIsZeroed(g);
    st, out, bs := Split(g, source, newSegments);
    r := Answer(st);
    Tables(SnapOf(g));
    if st == Ok {
      SplitServed(a, SnapOf(g), M, source, out, newSegments, r, bs, a.ps[source].segmentCount - newSegments);
      SplitCalled(a, SnapOf(g), source, newSegments, r, out, bs, a.ps[source].segmentCount - newSegments);
    } else {
      MaintenanceRefused(M, OpSplit(source, newSegments), st);
      Unchanged(a, SnapOf(g), M, OpSplit(source, newSegments), r);
      RefusedEffect(a, SnapOf(g), OpSplit(source, newSegments), r);
    }
  }

  // One call of any kind.
  method Perform(g: GlobalState, op: Op, ghost M: Store) returns (r: Reply)
    requires g.Valid() && Represents(SnapOf(g), M)
    modifies g, g.zone, g.pools, g.objects
    ensures g.Valid() && Served(old(SnapOf(g)), SnapOf(g), M, op, r) && Effect(old(SnapOf(g)), SnapOf(g), op, r)
  {
    hide Inv, Represents, Served;
    if op.OpAlloc? || op.OpFree? {
      r := DoObject(g, op, M);
    } else if op.OpRead? || op.OpWrite? {
      r := DoAccess(g, op, M);
    } else if op.OpBegin? || op.OpEnd? {
      r := DoBorrow(g, op, M);
    } else if op.OpCompact? {
      r := DoCompact(g, op.pid, op.req, M);
    } else if op.OpMerge? {
      r := DoMerge(g, op.source, op.target, M);
    } else if op.OpSplit? {
      r := DoSplit(g, op.source, op.newSegments, M);
    } else {
      r := DoPool(g, op, M);
    }
  }

  // The abstract store after a sequence of calls and their replies.
  function After(M: Store, ops: seq<Op>, replies: seq<Reply>): Store
    requires |replies| == |ops|
  {
    if ops == [] then M
    else Replied(After(M, ops[..|ops| - 1], replies[..|ops| - 1]), ops[|ops| - 1], replies[|ops| - 1])
  }

  predicate RepliesOk(M: Store, ops: seq<Op>, replies: seq<Reply>) {
    && |replies| == |ops|
    && (forall i :: 0 <= i < |ops| ==> ReplyOk(After(M, ops[..i], replies[..i]), ops[i], replies[i]))
  }

  // The states of the allocator along a sequence of calls.
  ghost predicate History(snaps: seq<Snap>, M: Store, ops: seq<Op>, replies: seq<Reply>) {
    && |replies| == |ops| && |snaps| == |ops| + 1
    && (forall i :: 0 <= i < |snaps| ==> Consistent(snaps[i]))
    && (forall i :: 0 <= i < |ops| ==>
         && Served(snaps[i], snaps[i + 1], After(M, ops[..i], replies[..i]), ops[i], replies[i])
         && Effect(snaps[i], snaps[i + 1], ops[i], replies[i]))
  }

  lemma HistoryGrows(snaps: seq<Snap>, M: Store, ops: seq<Op>, replies: seq<Reply>, n: nat, b: Snap, r: Reply)
    requires n < |ops| && History(snaps, M, ops[..n], replies) && Consistent(b)
    requires Served(snaps[n], b, After(M, ops[..n], replies), ops[n], r) && Effect(snaps[n], b, ops[n], r)
    ensures History(snaps + [b], M, ops[..n + 1], replies + [r])
  {
    hide Consistent, Served, Effect, Replied;
    var o', r', s' := ops[..n + 1], replies + [r], snaps + [b];
    assert o'[..n] == ops[..n] && r'[..n] == replies;
    forall i | 0 <= i < n + 1
      ensures Served(s'[i], s'[i + 1], After(M, o'[..i], r'[..i]), o'[i], r'[i]) && Effect(s'[i], s'[i + 1], o'[i], r'[i])
    {
      if i < n {
        assert o'[..i] == ops[..n][..i] && r'[..i] == replies[..i];
        assert Served(snaps[i], snaps[i + 1], After(M, ops[..n][..i], replies[..i]), ops[..n][i], replies[i]);
      }
    }
  }

  lemma RepliesGrow(M: Store, ops: seq<Op>, replies: seq<Reply>, n: nat, r: Reply)
    requires n < |ops| && RepliesOk(M, ops[..n], replies) && ReplyOk(After(M, ops[..n], replies), ops[n], r)
    ensures RepliesOk(M, ops[..n + 1], replies + [r])
    ensures After(M, ops[..n + 1], replies + [r]) == Replied(After(M, ops[..n], replies), ops[n], r)
  {
    hide ReplyOk, Replied;
    var o', r' := ops[..n + 1], replies + [r];
    assert o'[..n] == ops[..n] && r'[..n] == replies;
    forall i | 0 <= i < n + 1 ensures ReplyOk(After(M, o'[..i], r'[..i]), o'[i], r'[i]) {
      if i < n {
        assert o'[..i] == ops[..n][..i] && r'[..i] == replies[..i];
      }
    }
  }

  // Whatever is called, in whatever order, the allocator stays consistent and answers like the
  // abstract store.
  method Drive(g: GlobalState, ops: seq<Op>, ghost M: Store) returns (replies: seq<Reply>, ghost snaps: seq<Snap>)
    requires g.Valid() && Represents(SnapOf(g), M)
    modifies g, g.zone, g.pools, g.objects
    ensures g.Valid() && RepliesOk(M, ops, replies)
    ensures Represents(SnapOf(g), After(M, ops, replies))
    ensures History(snaps, M, ops, replies) && snaps[0] == old(SnapOf(g)) && snaps[|ops|] == SnapOf(g)
  {
    hide Inv, Represents, RepliesOk, ReplyOk, Undisturbed, History, Effect;
    replies, snaps := [], [SnapOf(g)];
    RepliesNone(M);
    HistoryStarts(snaps[0], M);
    for n := 0 to |ops|
      invariant g.Valid() && |replies| == n && RepliesOk(M, ops[..n], replies)
      invariant Represents(SnapOf(g), After(M, ops[..n], replies))
      invariant |snaps| == n + 1 && snaps[0] == old(SnapOf(g)) && snaps[n] == SnapOf(g) && History(snaps, M, ops[..n], replies)
    {
      var r := Perform(g, ops[n], After(M, ops[..n], replies));
      RepliesGrow(M, ops, replies, n, r);
      HistoryGrows(snaps, M, ops, replies, n, SnapOf(g), r);
      replies, snaps := replies + [r], snaps + [SnapOf(g)];
    }
    assert ops[..|ops|] == ops;
  }

  lemma RepliesNone(M: Store)
    ensures RepliesOk(M, [], []) && After(M, [], []) == M
  {
  }

  lemma HistoryStarts(a: Snap, M: Store)
    requires Consistent(a)
    ensures History([a], M, [], [])
  {
  }

  // No slot has been used and no object is live.
  ghost predicate Unused(a: Snap) {
    forall sl :: 0 <= sl < |a.ds| ==> a.ds[sl].state.FreeSlot? && a.ds[sl].generation == 0
  }

  // ... from init on.
  method DriveFresh(zoneAligned: bool, zoneBytes: u32, segmentBytes: u32, maxSegments: nat, maxPools: nat, maxObjects: nat, ops: seq<Op>)
      returns (st: Status, g: GlobalState?, replies: seq<Reply>, ghost snaps: seq<Snap>)
    requires 1 <= maxSegments <= 0xFFFF && 1 <= maxPools < 0xFFFF && 1 <= maxObjects < 0xFFFF
    ensures st == InitRefusal(zoneAligned, zoneBytes, segmentBytes, maxSegments) && (st == Ok <==> g != null)
    ensures g != null ==> g.Valid() && RepliesOk(map[], ops, replies) && Represents(SnapOf(g), After(map[], ops, replies))
    ensures g != null ==> History(snaps, map[], ops, replies) && Unused(snaps[0]) && snaps[|ops|] == SnapOf(g)
  {
    hide Inv, RepliesOk, After, History;
    replies, snaps := [], [];
    st, g := InitZone(zoneAligned, zoneBytes, segmentBytes, maxSegments, maxPools, maxObjects);
    if g != null {
      replies, snaps := Drive(g, ops, map[]);
    }
  }

  // ---- what a client may conclude --------------------------------------------------------------------------

  // The call stores to this word, or frees its object, or (by failing) does neither.
  predicate Overwrites(op: Op, r: Reply, slot: nat, k: nat) {
    r.st == Ok && ((op.OpWrite? && op.ref.index == slot && op.ref.offset == k) || (op.OpFree? && op.ref.index == slot))
  }

  lemma WordKept(A: Store, op: Op, r: Reply, slot: nat, k: nat)
    requires ReplyOk(A, op, r) && !Overwrites(op, r, slot, k) && slot in A && k in A[slot].words
    ensures var B := Replied(A, op, r);
            slot in B && B[slot].generation == A[slot].generation && k in B[slot].words && B[slot].words[k] == A[slot].words[k]
  {
  }

  // A word keeps its value until a call overwrites it.
  lemma {:induction false} WordStays(M: Store, ops: seq<Op>, replies: seq<Reply>, i: nat, j: nat, slot: nat, k: nat, v: u32)
    requires RepliesOk(M, ops, replies) && i <= j <= |ops|
    requires var A := After(M, ops[..i], replies[..i]); slot in A && k in A[slot].words && A[slot].words[k] == v
    requires forall n :: i <= n < j ==> !Overwrites(ops[n], replies[n], slot, k)
    ensures var A, B := After(M, ops[..i], replies[..i]), After(M, ops[..j], replies[..j]);
            slot in B && B[slot].generation == A[slot].generation && k in B[slot].words && B[slot].words[k] == v
    decreases j - i
  {
    hide ReplyOk, Replied, Overwrites;
    if i < j {
      WordStays(M, ops, replies, i, j - 1, slot, k, v);
      assert ops[..j][..j - 1] == ops[..j - 1] && replies[..j][..j - 1] == replies[..j - 1];
      WordKept(After(M, ops[..j - 1], replies[..j - 1]), ops[j - 1], replies[j - 1], slot, k);
    }
  }

  // A read returns what the last write to the same word of the same object stored, whatever was
  // allocated, freed, compacted, merged or split in between.
  lemma ReadYourWrite(M: Store, ops: seq<Op>, replies: seq<Reply>, i: nat, j: nat)
    requires RepliesOk(M, ops, replies) && i < j < |ops|
    requires ops[i].OpWrite? && ops[j].OpRead? && replies[i].st == Ok && replies[j].st == Ok
    requires ops[i].ref.index == ops[j].ref.index && ops[i].ref.offset == ops[j].ref.offset
    requires forall n :: i < n < j ==> !Overwrites(ops[n], replies[n], ops[i].ref.index, ops[i].ref.offset)
    ensures replies[j].word == ops[i].word && ops[j].ref.generation == ops[i].ref.generation
  {
    var slot: nat, k: nat := ops[i].ref.index, ops[i].ref.offset;
    assert ReplyOk(After(M, ops[..i], replies[..i]), ops[i], replies[i]);
    assert ops[..i + 1][..i] == ops[..i] && replies[..i + 1][..i] == replies[..i];
    WordStays(M, ops, replies, i + 1, j, slot, k, ops[i].word);
    assert ReplyOk(After(M, ops[..j], replies[..j]), ops[j], replies[j]);
  }

  ghost predicate Borrowed(M: Store, slot: nat) {
    slot in M && M[slot].borrows > 0
  }

  lemma AddressKept(A: Store, op: Op, r: Reply, slot: nat)
    requires ReplyOk(A, op, r) && Borrowed(A, slot)
    ensures var B := Replied(A, op, r);
            slot in B && B[slot].generation == A[slot].generation && B[slot].address == A[slot].address
  {
  }

  // As long as some borrow of an object is open, the object stays live at one address.
  lemma {:induction false} AddressStays(M: Store, ops: seq<Op>, replies: seq<Reply>, i: nat, j: nat, slot: nat)
    requires RepliesOk(M, ops, replies) && i <= j <= |ops|
    requires forall n :: i <= n < j ==> Borrowed(After(M, ops[..n], replies[..n]), slot)
    requires slot in After(M, ops[..i], replies[..i])
    ensures var A, B := After(M, ops[..i], replies[..i]), After(M, ops[..j], replies[..j]);
            slot in B && B[slot].generation == A[slot].generation && B[slot].address == A[slot].address
    decreases j - i
  {
    hide ReplyOk, Replied;
    if i < j {
      AddressStays(M, ops, replies, i, j - 1, slot);
      assert ops[..j][..j - 1] == ops[..j - 1] && replies[..j][..j - 1] == replies[..j - 1];
      AddressKept(After(M, ops[..j - 1], replies[..j - 1]), ops[j - 1], replies[j - 1], slot);
    }
  }

  // Two begins see the same object address when the object was borrowed all the time between.
  lemma SameAddress(M: Store, ops: seq<Op>, replies: seq<Reply>, i: nat, j: nat)
    requires RepliesOk(M, ops, replies) && i < j < |ops| && ops[i].OpBegin? && ops[j].OpBegin?
    requires replies[i].st == Ok && replies[j].st == Ok && ops[i].ref.index == ops[j].ref.index
    requires forall n :: i < n <= j ==> Borrowed(After(M, ops[..n], replies[..n]), ops[i].ref.index)
    ensures ops[j].ref.generation == ops[i].ref.generation
    ensures replies[j].addr - ops[j].ref.offset == replies[i].addr - ops[i].ref.offset
  {
    assert ReplyOk(After(M, ops[..i], replies[..i]), ops[i], replies[i]);
    assert ops[..i + 1][..i] == ops[..i] && replies[..i + 1][..i] == replies[..i];
    AddressStays(M, ops, replies, i + 1, j, ops[i].ref.index);
    assert ReplyOk(After(M, ops[..j], replies[..j]), ops[j], replies[j]);
  }
}
