/** TLSF bins: per-bin doubly linked free lists threaded through the zone, with a
    two-level bitmap. The abstraction of a pool's bins is `lists` (the offsets of each bin,
    head first) and `F` (the binned blocks: offset to size). */
module Bins {
  import opened Base
  import opened Lists
  import opened SizeClass

  // Bit f of fl_bitmap is fl[f]; bit s of sl_bitmap[f] is sl[f * SL_COUNT + s]; head[f][s] is
  // head[f * SL_COUNT + s].
  datatype TlsfBins = TlsfBins(fl: seq<bool>, sl: seq<bool>, head: seq<u32>)

  function EmptyBins(): TlsfBins {
    TlsfBins(seq(FL_COUNT, _ => false), seq(NBINS, _ => false), seq(NBINS, _ => NULL_OFF))
  }

  ghost function NoLists(): seq<seq<nat>> {
    seq(NBINS, _ => [])
  }

  // The link words of a free block, at offsets +8 and +12.
  function PrevOf(z: seq<u32>, o: nat): u32
    requires o + MIN_BLOCK <= |z|
  {
    z[o + 8]
  }

  function NextOf(z: seq<u32>, o: nat): u32
    requires o + MIN_BLOCK <= |z|
  {
    z[o + 12]
  }

  ghost predicate Linked(z: seq<u32>, s: seq<nat>, head: u32) {
    && head == At(s, 0)
    && (forall i :: 0 <= i < |s| ==> s[i] + MIN_BLOCK <= |z|)
    && (forall i {:trigger NextOf(z, s[i])} :: 0 <= i < |s| ==> NextOf(z, s[i]) == At(s, i + 1))
    && (forall i {:trigger PrevOf(z, s[i])} :: 0 <= i < |s| ==> PrevOf(z, s[i]) == At(s, i - 1))
  }

  // Distinct free blocks are at least a minimal block apart, so their links never overlap.
  ghost predicate Spaced(F: map<nat, nat>) {
    forall o1, o2 :: o1 in F && o2 in F && o1 < o2 ==> o1 + MIN_BLOCK <= o2
  }

  // Block o is a free block of size n as far as its own header says.
  ghost predicate FreeCell(z: seq<u32>, o: nat, n: nat) {
    && o % ALIGN == 0 && n % ALIGN == 0 && MIN_BLOCK <= n < ZONE_LIMIT
    && o + n <= |z|
    && z[o] == n + 1
  }

  ghost predicate BinOk(z: seq<u32>, b: TlsfBins, lists: seq<seq<nat>>, F: map<nat, nat>, k: nat)
    requires |b.sl| == |b.head| == |lists| == NBINS && k < NBINS
  {
    && Linked(z, lists[k], b.head[k])
    && NoDup(lists[k])
    && (b.sl[k] <==> lists[k] != [])
    && (forall o :: o in lists[k] ==> o in F && BinIdx(F[o]) == k)
  }

  ghost predicate FlOk(b: TlsfBins)
    requires |b.fl| == FL_COUNT && |b.sl| == NBINS
  {
    forall f :: 0 <= f < FL_COUNT ==>
      (b.fl[f] <==> b.sl[4 * f] || b.sl[4 * f + 1] || b.sl[4 * f + 2] || b.sl[4 * f + 3])
  }

  ghost predicate BinShape(b: TlsfBins, lists: seq<seq<nat>>) {
    |b.fl| == FL_COUNT && |b.sl| == |b.head| == |lists| == NBINS
  }

  // The array sizes of a TlsfBins.
  predicate BinsSized(b: TlsfBins) {
    |b.fl| == FL_COUNT && |b.sl| == NBINS && |b.head| == NBINS
  }

  // Every binned block is in the list of its own bin, the lists hold nothing else, the links
  // reciprocate, and the two bitmaps say which lists are non-empty.
  ghost predicate BinsInv(z: seq<u32>, b: TlsfBins, lists: seq<seq<nat>>, F: map<nat, nat>) {
    && |z| <= ZONE_LIMIT
    && BinShape(b, lists)
    && FlOk(b)
    && Spaced(F)
    && (forall o :: o in F ==> FreeCell(z, o, F[o]))
    && (forall o :: o in F ==> o in lists[BinIdx(F[o])])
    && (forall k :: 0 <= k < NBINS ==> BinOk(z, b, lists, F, k))
  }

  // z and z' agree except on the link words of the blocks in S.
  ghost predicate SameExceptLinks(z: seq<u32>, z': seq<u32>, S: set<nat>) {
    && |z'| == |z|
    && (forall c :: 0 <= c < |z| && c - 8 !in S && c - 12 !in S ==> z'[c] == z[c])
  }

  lemma EmptyInv(z: seq<u32>)
    requires |z| <= ZONE_LIMIT
    ensures BinsInv(z, EmptyBins(), NoLists(), map[])
  {
  }

  // ---- insertion -----------------------------------------------------------------------

  ghost function Pushed(lists: seq<seq<nat>>, k: nat, off: nat): seq<seq<nat>>
    requires k < |lists|
  {
    lists[k := [off] + lists[k]]
  }

  lemma PushLinked(z: seq<u32>, z': seq<u32>, s: seq<nat>, head: u32, off: nat)
    requires Linked(z, s, head) && NoDup(s) && off !in s
    requires |z'| == |z| && off + MIN_BLOCK <= |z| <= ZONE_LIMIT
    requires NextOf(z', off) == head && PrevOf(z', off) == NULL_OFF
    requires forall o :: o in s ==> NextOf(z', o) == NextOf(z, o)
    requires forall o :: o in s && o != s[0] ==> PrevOf(z', o) == PrevOf(z, o)
    requires |s| > 0 ==> PrevOf(z', s[0]) == off
    ensures Linked(z', [off] + s, off) && NoDup([off] + s)
  {
    var t := [off] + s;
    forall i | 0 <= i < |t|
      ensures t[i] + MIN_BLOCK <= |z'| && NextOf(z', t[i]) == At(t, i + 1) && PrevOf(z', t[i]) == At(t, i - 1)
    {
      if i > 0 {
        assert t[i] == s[i - 1] && s[i - 1] in s;
        assert NextOf(z, s[i - 1]) == At(s, i);
        assert PrevOf(z, s[i - 1]) == At(s, i - 2);
      }
    }
  }

  // A bin none of whose nodes' links changed stays intact.
  lemma FrameLinked(z: seq<u32>, z': seq<u32>, s: seq<nat>, head: u32)
    requires Linked(z, s, head) && |z'| == |z|
    requires forall o :: o in s ==> NextOf(z', o) == NextOf(z, o) && PrevOf(z', o) == PrevOf(z, o)
    ensures Linked(z', s, head)
  {
    forall i | 0 <= i < |s|
      ensures NextOf(z', s[i]) == At(s, i + 1) && PrevOf(z', s[i]) == At(s, i - 1)
    {
      assert s[i] in s;
      assert NextOf(z, s[i]) == At(s, i + 1) && PrevOf(z, s[i]) == At(s, i - 1);
    }
  }

  // The bins after `off`, a free block of size n, was pushed onto the list of its bin.
  ghost predicate PushedLinks(z: seq<u32>, z': seq<u32>, off: nat, head: u32) {
    && |z'| == |z| && off + MIN_BLOCK <= |z|
    && (head != NULL_OFF ==> head + MIN_BLOCK <= |z|)
    && (forall c :: 0 <= c < |z| ==>
         z'[c] == if c == off + 8 then NULL_OFF
                  else if c == off + 12 then head
                  else if head != NULL_OFF && c == head + 8 then off
                  else z[c])
  }

  function PushedBins(b: TlsfBins, k: nat, off: u32): TlsfBins
    requires |b.fl| == FL_COUNT && |b.sl| == |b.head| == NBINS && k < NBINS
  {
    TlsfBins(b.fl[k / 4 := true], b.sl[k := true], b.head[k := off])
  }

  lemma PushBin(z: seq<u32>, z': seq<u32>, b: TlsfBins, lists: seq<seq<nat>>, F: map<nat, nat>,
                off: nat, n: nat, k: nat, j: nat)
    requires BinShape(b, lists) && k < NBINS && j < NBINS && k == BinIdx(n) && off < U32_MOD
    requires BinOk(z, b, lists, F, j) && BinOk(z, b, lists, F, k)
    requires Spaced(F[off := n]) && off !in F && |z| <= ZONE_LIMIT
    requires forall o :: o in F ==> o + MIN_BLOCK <= |z|
    requires PushedLinks(z, z', off, b.head[k])
    ensures BinOk(z', PushedBins(b, k, off), Pushed(lists, k, off), F[off := n], j)
  {
    hide BinIdx;
    var s := lists[k];
    var head := b.head[k];
    if |s| > 0 {
      assert s[0] in s;
    }
    var F' := F[off := n];
    assert forall o :: o in F ==> o + MIN_BLOCK <= off || off + MIN_BLOCK <= o by {
      forall o | o in F ensures o + MIN_BLOCK <= off || off + MIN_BLOCK <= o {
        assert o in F' && off in F';
      }
    }
    assert head != NULL_OFF ==> head in F;
    assert forall o :: o in F && o != head ==> o + MIN_BLOCK <= head || head == NULL_OFF || head + MIN_BLOCK <= o by {
      forall o | o in F && o != head ensures o + MIN_BLOCK <= head || head == NULL_OFF || head + MIN_BLOCK <= o {
        if head != NULL_OFF {
          assert o in F' && head as nat in F';
        }
      }
    }
    if j == k {
      assert forall o :: o in s ==> o in F;
      assert forall o :: o in s && o != s[0] ==> o != head;
      PushLinked(z, z', s, head, off);
    } else {
      assert forall o :: o in lists[j] ==> o in F && o != head;
      FrameLinked(z, z', lists[j], b.head[j]);
    }
  }

  lemma PushKeepsInv(z: seq<u32>, z': seq<u32>, b: TlsfBins, lists: seq<seq<nat>>, F: map<nat, nat>,
                     off: nat, n: nat)
    requires BinsInv(z, b, lists, F) && off !in F
    requires FreeCell(z, off, n) && Spaced(F[off := n])
    requires PushedLinks(z, z', off, b.head[BinIdx(n)])
    ensures BinsInv(z', PushedBins(b, BinIdx(n), off), Pushed(lists, BinIdx(n), off), F[off := n])
    ensures SameExceptLinks(z, z', F.Keys + {off})
  {
    hide BinIdx;
    var k := BinIdx(n);
    var F' := F[off := n];
    var b' := PushedBins(b, k, off);
    var lists' := Pushed(lists, k, off);
    var head := b.head[k];
    assert BinOk(z, b, lists, F, k);
    if head != NULL_OFF {
      assert head == lists[k][0] && lists[k][0] in lists[k] && head as nat in F;
      assert head as nat in F';
    }
    assert off in F';
    forall o | o in F' ensures FreeCell(z', o, F'[o]) && o in lists'[BinIdx(F'[o])] {
      if o != off {
        assert o in F && FreeCell(z, o, F[o]) && o in lists[BinIdx(F[o])];
      }
    }
    forall j | 0 <= j < NBINS ensures BinOk(z', b', lists', F', j) {
      assert BinOk(z, b, lists, F, j);
      PushBin(z, z', b, lists, F, off, n, k, j);
    }
  }

  method BinsInsert(zone: array<u32>, b: TlsfBins, off: nat, ghost lists: seq<seq<nat>>, ghost F: map<nat, nat>)
      returns (b': TlsfBins, ghost lists': seq<seq<nat>>)
    requires BinsInv(zone[..], b, lists, F)
    requires off !in F && off + MIN_BLOCK <= zone.Length
    requires FreeCell(zone[..], off, BlkSize(zone[off]))
    requires Spaced(F[off := BlkSize(zone[off]) as nat])
    modifies zone
    ensures var n := BlkSize(old(zone[off])) as nat;
            && lists' == Pushed(lists, BinIdx(n), off)
            && BinsInv(zone[..], b', lists', F[off := n])
            && SameExceptLinks(old(zone[..]), zone[..], F.Keys + {off})
  {
    hide BinIdx;
    ghost var z := zone[..];
    var sz: nat := BlkSize(zone[off]);
    var k := BinIdx(sz);
    var next := b.head[k];
    assert BinOk(z, b, lists, F, k);
    assert next != NULL_OFF ==> next == lists[k][0] && lists[k][0] in lists[k] && next as nat in F;
    assert next != NULL_OFF ==> FreeCell(z, next, F[next]);
    zone[off + 8] := NULL_OFF;
    zone[off + 12] := next;
    if next != NULL_OFF {
      assert next as nat in F[off := sz] && off in F[off := sz];
      zone[next + 8] := off;
    }
    b' := TlsfBins(b.fl[k / SL_COUNT := true], b.sl[k := true], b.head[k := off]);
    lists' := Pushed(lists, k, off);
    PushKeepsInv(z, zone[..], b, lists, F, off, sz);
  }

  // ---- removal -------------------------------------------------------------------------

  ghost function Dropped(lists: seq<seq<nat>>, k: nat, off: nat): seq<seq<nat>>
    requires k < |lists| && off in lists[k]
  {
    lists[k := Without(lists[k], IndexOf(lists[k], off))]
  }

  ghost predicate UnlinkedAt(z: seq<u32>, z': seq<u32>, off: nat, prev: u32, next: u32) {
    && |z'| == |z| && off + MIN_BLOCK <= |z|
    && (prev != NULL_OFF ==> prev + MIN_BLOCK <= |z|)
    && (next != NULL_OFF ==> next + MIN_BLOCK <= |z|)
    && (forall c :: 0 <= c < |z| ==>
         z'[c] == if c == off + 8 || c == off + 12 then NULL_OFF
                  else if prev != NULL_OFF && c == prev + 12 then next
                  else if next != NULL_OFF && c == next + 8 then prev
                  else z[c])
  }

  // What an unlink does to the links of another node.
  ghost predicate Relinked(z: seq<u32>, z': seq<u32>, o: nat, prev: u32, next: u32)
    requires o + MIN_BLOCK <= |z| == |z'|
  {
    && NextOf(z', o) == (if o == prev then next else NextOf(z, o))
    && PrevOf(z', o) == (if o == next then prev else PrevOf(z, o))
  }

  lemma RelinkNode(z: seq<u32>, z': seq<u32>, F: map<nat, nat>, off: nat, prev: u32, next: u32, o: nat)
    requires UnlinkedAt(z, z', off, prev, next) && |z| <= ZONE_LIMIT
    requires Spaced(F) && off in F && o in F && o != off && o + MIN_BLOCK <= |z|
    requires prev != NULL_OFF ==> prev as nat in F
    requires next != NULL_OFF ==> next as nat in F
    requires prev != off && next != off
    ensures Relinked(z, z', o, prev, next) && z'[o] == z[o]
  {
  }

  lemma UnlinkListAt(z: seq<u32>, z': seq<u32>, s: seq<nat>, head: u32, i: nat, j: nat)
    requires Linked(z, s, head) && NoDup(s) && i < |s| && |z| == |z'| <= ZONE_LIMIT && j < |s| - 1
    requires forall o :: o in s && o != s[i] ==> Relinked(z, z', o, PrevOf(z, s[i]), NextOf(z, s[i]))
    ensures var r := Without(s, i);
            && r[j] + MIN_BLOCK <= |z'|
            && NextOf(z', r[j]) == At(r, j + 1) && PrevOf(z', r[j]) == At(r, j - 1)
  {
    LinkedNode(z, s, head, i);
    hide Linked;
    var prev, next := PrevOf(z, s[i]), NextOf(z, s[i]);
    var m := if j < i then j else j + 1;
    LinkedNode(z, s, head, m);
    assert s[m] in s && s[m] != s[i];
    assert Relinked(z, z', s[m], prev, next);
  }

  lemma LinkedNode(z: seq<u32>, s: seq<nat>, head: u32, i: nat)
    requires Linked(z, s, head) && i < |s|
    ensures s[i] + MIN_BLOCK <= |z| && NextOf(z, s[i]) == At(s, i + 1) && PrevOf(z, s[i]) == At(s, i - 1)
  {
  }

  lemma UnlinkList(z: seq<u32>, z': seq<u32>, s: seq<nat>, head: u32, i: nat)
    requires Linked(z, s, head) && NoDup(s) && i < |s| && |z| == |z'| <= ZONE_LIMIT
    requires forall o :: o in s && o != s[i] ==> Relinked(z, z', o, PrevOf(z, s[i]), NextOf(z, s[i]))
    ensures Linked(z', Without(s, i), if i == 0 then NextOf(z, s[i]) else head)
  {
    var r := Without(s, i);
    LinkedNode(z, s, head, i);
    forall j | 0 <= j < |r|
      ensures r[j] + MIN_BLOCK <= |z'| && NextOf(z', r[j]) == At(r, j + 1) && PrevOf(z', r[j]) == At(r, j - 1)
    {
      UnlinkListAt(z, z', s, head, i, j);
    }
  }

  function UnlinkedBins(b: TlsfBins, k: nat, prev: u32, next: u32): TlsfBins
    requires |b.fl| == FL_COUNT && |b.sl| == |b.head| == NBINS && k < NBINS
  {
    var head := if prev == NULL_OFF then b.head[k := next] else b.head;
    if head[k] != NULL_OFF then b.(head := head)
    else
      var sl := b.sl[k := false];
      var f := k / 4;
      var any := sl[4 * f] || sl[4 * f + 1] || sl[4 * f + 2] || sl[4 * f + 3];
      TlsfBins(if any then b.fl else b.fl[f := false], sl, head)
  }

  lemma UnlinkBin(z: seq<u32>, z': seq<u32>, b: TlsfBins, lists: seq<seq<nat>>, F: map<nat, nat>,
                  off: nat, prev: u32, next: u32, k: nat, j: nat)
    requires BinShape(b, lists) && j < NBINS && off in F && k == BinIdx(F[off]) && off in lists[k]
    requires BinOk(z, b, lists, F, j) && BinOk(z, b, lists, F, k)
    requires off + MIN_BLOCK <= |z| == |z'| <= ZONE_LIMIT && prev == PrevOf(z, off) && next == NextOf(z, off)
    requires forall o :: o in F ==> o + MIN_BLOCK <= |z|
    requires forall o :: o in F && o != off ==> Relinked(z, z', o, prev, next)
    requires prev != NULL_OFF ==> prev as nat in F && BinIdx(F[prev]) == k
    requires next != NULL_OFF ==> next as nat in F && BinIdx(F[next]) == k
    ensures BinOk(z', UnlinkedBins(b, k, prev, next), Dropped(lists, k, off), F - {off}, j)
  {
    hide BinIdx, Linked, Without, NoDup;
    if j == k {
      UnlinkOwnBin(z, z', b, lists, F, off, prev, next, k);
    } else {
      UnlinkOtherBin(z, z', b, lists, F, off, prev, next, k, j);
    }
  }

  lemma UnlinkOwnBin(z: seq<u32>, z': seq<u32>, b: TlsfBins, lists: seq<seq<nat>>, F: map<nat, nat>,
                     off: nat, prev: u32, next: u32, k: nat)
    requires BinShape(b, lists) && off in F && k == BinIdx(F[off]) && off in lists[k] && BinOk(z, b, lists, F, k)
    requires off + MIN_BLOCK <= |z| == |z'| <= ZONE_LIMIT && prev == PrevOf(z, off) && next == NextOf(z, off)
    requires forall o :: o in F ==> o + MIN_BLOCK <= |z|
    requires forall o :: o in F && o != off ==> Relinked(z, z', o, prev, next)
    ensures BinOk(z', UnlinkedBins(b, k, prev, next), Dropped(lists, k, off), F - {off}, k)
  {
    hide BinIdx, Relinked, Linked;
    var s := lists[k];
    var i := IndexOf(s, off);
    LinkedNode(z, s, b.head[k], i);
    WithoutMembers(s, i);
    UnlinkList(z, z', s, b.head[k], i);
    if i > 0 { assert Without(s, i)[0] == s[0]; }
    OwnHead(z, s, b.head[k], i);
  }

  // The head of a linked list, and whether the list is longer than its node i.
  lemma OwnHead(z: seq<u32>, s: seq<nat>, head: u32, i: nat)
    requires Linked(z, s, head) && i < |s| && |z| <= ZONE_LIMIT
    ensures PrevOf(z, s[i]) == NULL_OFF <==> i == 0
    ensures head == s[0] && (NextOf(z, s[i]) == NULL_OFF <==> i + 1 == |s|)
  {
    assert NextOf(z, s[i]) == At(s, i + 1) && PrevOf(z, s[i]) == At(s, i - 1);
  }

  lemma UnlinkOtherBin(z: seq<u32>, z': seq<u32>, b: TlsfBins, lists: seq<seq<nat>>, F: map<nat, nat>,
                       off: nat, prev: u32, next: u32, k: nat, j: nat)
    requires BinShape(b, lists) && j < NBINS && j != k && off in F && k == BinIdx(F[off]) && off in lists[k] && BinOk(z, b, lists, F, j)
    requires |z| == |z'| && forall o :: o in F ==> o + MIN_BLOCK <= |z|
    requires forall o :: o in F && o != off ==> Relinked(z, z', o, prev, next)
    requires prev != NULL_OFF ==> prev as nat in F && BinIdx(F[prev]) == k
    requires next != NULL_OFF ==> next as nat in F && BinIdx(F[next]) == k
    requires |z| <= ZONE_LIMIT
    ensures BinOk(z', UnlinkedBins(b, k, prev, next), Dropped(lists, k, off), F - {off}, j)
  {
    hide BinIdx, Linked, NoDup;
    assert forall o :: o in lists[j] ==> o in F && o != off && o != prev && o != next;
    forall o | o in lists[j]
      ensures o + MIN_BLOCK <= |z| && NextOf(z', o) == NextOf(z, o) && PrevOf(z', o) == PrevOf(z, o)
    {
      assert Relinked(z, z', o, prev, next);
    }
    FrameLinked(z, z', lists[j], b.head[j]);
  }

  lemma UnlinkKeepsInv(z: seq<u32>, z': seq<u32>, b: TlsfBins, lists: seq<seq<nat>>, F: map<nat, nat>, off: nat)
    requires BinsInv(z, b, lists, F) && off in F
    requires off + MIN_BLOCK <= |z| && UnlinkedAt(z, z', off, PrevOf(z, off), NextOf(z, off))
    ensures off in lists[BinIdx(F[off])]
    ensures BinsInv(z', UnlinkedBins(b, BinIdx(F[off]), PrevOf(z, off), NextOf(z, off)),
                    Dropped(lists, BinIdx(F[off]), off), F - {off})
    ensures SameExceptLinks(z, z', F.Keys)
  {
    hide BinIdx, UnlinkedBins, Linked;
    var k := BinIdx(F[off]);
    var prev, next := PrevOf(z, off), NextOf(z, off);
    NeighboursBinned(z, b, lists, F, off);
    var b' := UnlinkedBins(b, k, prev, next);
    var F' := F - {off};
    UnlinkNodes(z, z', b, lists, F, off);
    forall o | o in F' ensures FreeCell(z', o, F'[o]) && o in Dropped(lists, k, off)[BinIdx(F'[o])] {
      assert o in F && o != off && FreeCell(z, o, F[o]);
      StillListed(z, b, lists, F, off, o);
    }
    UnlinkFlOk(b, lists, z, F, k, prev, next);
    forall j | 0 <= j < NBINS ensures BinOk(z', b', Dropped(lists, k, off), F', j) {
      assert BinOk(z, b, lists, F, j) && BinOk(z, b, lists, F, k);
      UnlinkBin(z, z', b, lists, F, off, prev, next, k, j);
    }
  }

  lemma UnlinkNodes(z: seq<u32>, z': seq<u32>, b: TlsfBins, lists: seq<seq<nat>>, F: map<nat, nat>, off: nat)
    requires BinsInv(z, b, lists, F) && off in F
    requires off + MIN_BLOCK <= |z| && UnlinkedAt(z, z', off, PrevOf(z, off), NextOf(z, off))
    ensures forall o :: o in F ==> o + MIN_BLOCK <= |z|
    ensures forall o :: o in F && o != off ==> Relinked(z, z', o, PrevOf(z, off), NextOf(z, off)) && z'[o] == z[o]
    ensures SameExceptLinks(z, z', F.Keys)
  {
    hide BinIdx, Linked, BinOk;
    NeighboursBinned(z, b, lists, F, off);
    forall o | o in F ensures o + MIN_BLOCK <= |z| {
      assert FreeCell(z, o, F[o]);
    }
    forall o | o in F && o != off
      ensures Relinked(z, z', o, PrevOf(z, off), NextOf(z, off)) && z'[o] == z[o]
    {
      RelinkNode(z, z', F, off, PrevOf(z, off), NextOf(z, off), o);
    }
  }

  lemma StillListed(z: seq<u32>, b: TlsfBins, lists: seq<seq<nat>>, F: map<nat, nat>, off: nat, o: nat)
    requires BinsInv(z, b, lists, F) && off in F && o in F && o != off
    ensures off in lists[BinIdx(F[off])]
    ensures o in Dropped(lists, BinIdx(F[off]), off)[BinIdx(F[o])]
  {
    hide BinIdx, Linked;
    var k := BinIdx(F[off]);
    assert BinOk(z, b, lists, F, k) && off in lists[k] && o in lists[BinIdx(F[o])];
    WithoutMembers(lists[k], IndexOf(lists[k], off));
  }

  lemma UnlinkFlOk(b: TlsfBins, lists: seq<seq<nat>>, z: seq<u32>, F: map<nat, nat>, k: nat, prev: u32, next: u32)
    requires BinShape(b, lists) && FlOk(b) && k < NBINS && b.sl[k]
    ensures BinShape(UnlinkedBins(b, k, prev, next), lists) && FlOk(UnlinkedBins(b, k, prev, next))
  {
  }

  // The list neighbours of a binned block are binned blocks of the same bin, their links point
  // back at it, and a block without a predecessor is its bin's head.
  lemma NeighboursBinned(z: seq<u32>, b: TlsfBins, lists: seq<seq<nat>>, F: map<nat, nat>, off: nat)
    requires BinsInv(z, b, lists, F) && off in F
    ensures off + MIN_BLOCK <= |z|
    ensures var prev, next, k := PrevOf(z, off), NextOf(z, off), BinIdx(F[off]);
            && (prev == NULL_OFF <==> b.head[k] == off)
            && (prev != NULL_OFF ==> prev as nat in F && BinIdx(F[prev]) == k && prev + MIN_BLOCK <= |z| && NextOf(z, prev) == off)
            && (next != NULL_OFF ==> next as nat in F && BinIdx(F[next]) == k && next + MIN_BLOCK <= |z| && PrevOf(z, next) == off)
            && prev != off && next != off
            && b.sl[k] && b.head[k] != NULL_OFF && b.head[k] as nat in F
  {
    hide BinIdx;
    var k := BinIdx(F[off]);
    assert FreeCell(z, off, F[off]);
    assert BinOk(z, b, lists, F, k);
    var s := lists[k];
    var i := IndexOf(s, off);
    assert s[0] in s && FreeCell(z, s[0], F[s[0]]);
    assert NextOf(z, s[i]) == At(s, i + 1) && PrevOf(z, s[i]) == At(s, i - 1);
    if i > 0 {
      assert s[i - 1] in s && FreeCell(z, s[i - 1], F[s[i - 1]]);
      assert NextOf(z, s[i - 1]) == At(s, i);
    }
    if i + 1 < |s| {
      assert s[i + 1] in s && FreeCell(z, s[i + 1], F[s[i + 1]]);
      assert PrevOf(z, s[i + 1]) == At(s, i);
    }
  }

  method BinsRemove(zone: array<u32>, b: TlsfBins, off: nat, ghost lists: seq<seq<nat>>, ghost F: map<nat, nat>)
      returns (b': TlsfBins, ghost lists': seq<seq<nat>>)
    requires BinsInv(zone[..], b, lists, F) && off in F
    modifies zone
    ensures off in lists[BinIdx(F[off])] && lists' == Dropped(lists, BinIdx(F[off]), off)
    ensures BinsInv(zone[..], b', lists', F - {off})
    ensures SameExceptLinks(old(zone[..]), zone[..], F.Keys)
  {
    hide BinIdx, BinsInv, BlkSize, Dropped, SameExceptLinks;
    ghost var z := zone[..];
    RemoveFacts(z, b, lists, F, off);
    var k := BinIdx(BlkSize(zone[off]));
    var prev, next := zone[off + 8], zone[off + 12];
    var head := b.head;
    if prev != NULL_OFF {
      zone[prev + 12] := next;
    } else {
      head := head[k := next];
    }
    if next != NULL_OFF {
      zone[next + 8] := prev;
    }
    b' := b.(head := head);
    if head[k] == NULL_OFF {
      var sl := b.sl[k := false];
      var f := k / SL_COUNT;
      b' := b'.(sl := sl);
      if !(sl[4 * f] || sl[4 * f + 1] || sl[4 * f + 2] || sl[4 * f + 3]) {
        b' := b'.(fl := b.fl[f := false]);
      }
    }
    zone[off + 8], zone[off + 12] := NULL_OFF, NULL_OFF;
    assert UnlinkedAt(z, zone[..], off, prev, next);
    UnlinkKeepsInv(z, zone[..], b, lists, F, off);
    lists' := Dropped(lists, k, off);
  }

  // What removal may rely on before it writes.
  lemma RemoveFacts(z: seq<u32>, b: TlsfBins, lists: seq<seq<nat>>, F: map<nat, nat>, off: nat)
    requires BinsInv(z, b, lists, F) && off in F
    ensures BinShape(b, lists) && off + MIN_BLOCK <= |z| && BlkSize(z[off]) == F[off]
    ensures var prev, next := z[off + 8], z[off + 12];
            && (prev != NULL_OFF ==> prev + MIN_BLOCK <= |z|) && (next != NULL_OFF ==> next + MIN_BLOCK <= |z|)
            && (prev != NULL_OFF && prev != off ==> prev + MIN_BLOCK <= off || off + MIN_BLOCK <= prev)
            && (next != NULL_OFF && next != off ==> next + MIN_BLOCK <= off || off + MIN_BLOCK <= next)
            && (prev != NULL_OFF && next != NULL_OFF && prev != next ==> prev + MIN_BLOCK <= next || next + MIN_BLOCK <= prev)
            && prev != off && next != off
  {
    hide BinIdx, BinOk, Linked, FlOk, BlkSize;
    NeighboursBinned(z, b, lists, F, off);
    NeighboursApart(F, off, z[off + 8], z[off + 12]);
    assert FreeCell(z, off, F[off]);
    FreeHeaderWord(F[off]);
  }

  lemma NeighboursApart(F: map<nat, nat>, off: nat, prev: u32, next: u32)
    requires Spaced(F) && off in F
    requires prev != NULL_OFF ==> prev as nat in F
    requires next != NULL_OFF ==> next as nat in F
    ensures prev != NULL_OFF && prev != off ==> prev + MIN_BLOCK <= off || off + MIN_BLOCK <= prev
    ensures next != NULL_OFF && next != off ==> next + MIN_BLOCK <= off || off + MIN_BLOCK <= next
    ensures prev != NULL_OFF && next != NULL_OFF && prev != next ==>
              prev + MIN_BLOCK <= next || next + MIN_BLOCK <= prev
  {
  }

  // ---- search --------------------------------------------------------------------------

  // Count trailing zeros of a bitmap masked to [from, end); `end` when no bit is set there.
  function LowestBit(bits: seq<bool>, from: nat, end: nat): (r: nat)
    requires from <= end <= |bits|
    ensures from <= r <= end
    ensures r < end ==> bits[r]
    ensures forall i :: from <= i < r ==> !bits[i]
    decreases end - from
  {
    if from == end || bits[from] then from else LowestBit(bits, from + 1, end)
  }

  lemma {:induction false} MaxElement(S: set<nat>) returns (m: nat)
    requires S != {}
    ensures m in S && forall o :: o in S ==> o <= m
  {
    var x :| x in S;
    if S == {x} {
      m := x;
    } else {
      var r := MaxElement(S - {x});
      assert forall o :: o in S ==> o == x || o in S - {x};
      m := if r < x then x else r;
    }
  }

  // The hop cap: at most zone_size / PM_MIN_BLOCK blocks can be binned.
  lemma {:induction false} SpacedCount(S: set<nat>, n: nat)
    requires forall o :: o in S ==> o + MIN_BLOCK <= n
    requires forall o1, o2 :: o1 in S && o2 in S && o1 < o2 ==> o1 + MIN_BLOCK <= o2
    ensures MIN_BLOCK * |S| <= n
  {
    if S != {} {
      var m := MaxElement(S);
      SpacedCount(S - {m}, m);
    }
  }

  lemma SubsetCount(V: set<nat>, S: set<nat>)
    requires V <= S
    ensures |V| <= |S|
  {
    assert S == V + (S - V);
  }

  ghost predicate FirstFit(lists: seq<seq<nat>>, F: map<nat, nat>, need: nat, off: nat)
    requires |lists| == NBINS
  {
    && off in F && F[off] >= need
    && (forall o :: o in F && F[o] >= need ==> BinIdx(F[off]) <= BinIdx(F[o]))
    && off in lists[BinIdx(F[off])]
    && (forall j :: 0 <= j < IndexOf(lists[BinIdx(F[off])], off) ==>
         lists[BinIdx(F[off])][j] in F ==> F[lists[BinIdx(F[off])][j]] < need)
  }

  datatype Walk = Fit(off: u32) | Miss | Refused

  lemma CellFacts(z: seq<u32>, o: nat, n: nat)
    requires FreeCell(z, o, n)
    ensures o + MIN_BLOCK <= |z| && BlkSize(z[o]) == n && n >= MIN_BLOCK
  {
    hide BlkSize, BlkFree;
    FreeHeaderWord(n);
  }

  // First fit inside one bin. V counts the blocks visited so far; since the lists of
  // consistent bins never repeat a block, the hop cap is never reached.
  method WalkBin(zone: array<u32>, zoneSize: nat, head: u32, need: nat, hops: nat, maxHops: nat,
                 ghost s: seq<nat>, ghost F: map<nat, nat>, ghost V: set<nat>)
      returns (w: Walk, hops': nat, ghost V': set<nat>, ghost i: nat)
    requires Linked(zone[..], s, head) && NoDup(s) && zone.Length <= ZONE_LIMIT
    requires forall j :: 0 <= j < |s| ==> s[j] in F && s[j] + F[s[j]] <= zoneSize && FreeCell(zone[..], s[j], F[s[j]])
    requires V <= F.Keys && hops == |V| && |F| < maxHops && forall j :: 0 <= j < |s| ==> s[j] !in V
    requires zoneSize <= zone.Length
    ensures !w.Refused? && i <= |s|
    ensures forall j :: 0 <= j < i ==> F[s[j]] < need
    ensures w.Miss? ==> i == |s| && hops' == |V'| && V' <= F.Keys
    ensures w.Miss? ==> forall o :: o in V' ==> o in V || o in s
    ensures w.Fit? ==> i < |s| && s[i] == w.off != NULL_OFF && F[s[i]] >= need
  {
    hide FreeCell, BlkSize;
    ghost var z := zone[..];
    var off := head;
    i := 0;
    hops', V' := hops, V;
    LinkedHead(z, s, head);
    while off != NULL_OFF
      invariant 0 <= i <= |s| && off == At(s, i) && (i == |s| <==> off == NULL_OFF)
      invariant forall j :: 0 <= j < i ==> F[s[j]] < need
      invariant V' <= F.Keys && hops' == |V'|
      invariant forall o :: o in V' ==> o in V || o in s
      invariant forall j :: i <= j < |s| ==> s[j] !in V'
      decreases |s| - i
    {
      hide Linked;
      assert off == s[i] && s[i] in F && FreeCell(z, s[i], F[s[i]]);
      CellFacts(z, off, F[s[i]]);
      hops' := hops' + 1;
      V' := V' + {s[i]};
      SubsetCount(V', F.Keys);
      if hops' > maxHops {
        return Refused, hops', V', i;
      }
      if !(off <= zoneSize && off + HEADER <= zoneSize) {
        return Refused, hops', V', i;
      }
      if BlkSize(zone[off]) >= need {
        return Fit(off), hops', V', i;
      }
      LinkedStep(z, s, head, i);
      off := zone[off + 12];
      i := i + 1;
    }
    w := Miss;
  }

  // bins_find: the hop cap and the offset screen are part of the code; on consistent bins
  // neither refuses, so the search misses only when no binned block is large enough, and it
  // returns the first fit of the lowest bin that holds one.
  method BinsFind(zone: array<u32>, zoneSize: nat, b: TlsfBins, need: nat, ghost lists: seq<seq<nat>>, ghost F: map<nat, nat>)
      returns (off: u32)
    requires BinsInv(zone[..], b, lists, F)
    requires MIN_BLOCK <= need
    requires zoneSize <= zone.Length && forall o :: o in F ==> o + F[o] <= zoneSize
    ensures off == NULL_OFF <==> forall o :: o in F ==> F[o] < need
    ensures off != NULL_OFF ==> FirstFit(lists, F, need, off)
  {
    hide BinIdx, Linked;
    ghost var z := zone[..];
    if need >= ZONE_LIMIT {
      assert forall o :: o in F ==> FreeCell(z, o, F[o]);
      return NULL_OFF;
    }
    var maxHops := zoneSize / MIN_BLOCK + 1;
    var hops := 0;
    var k0 := BinIdx(need);
    var fli := k0 / SL_COUNT;
    var sl := k0 % SL_COUNT;
    ghost var V: set<nat> := {};
    BinnedCount(z, b, lists, F, zoneSize);
    SmallBins(z, b, lists, F, need);
    while true
      invariant 0 <= fli < FL_COUNT && 0 <= sl < SL_COUNT
      invariant forall o :: o in F && BinIdx(F[o]) < 4 * fli + sl ==> F[o] < need
      invariant forall o :: o in V ==> o in F && BinIdx(F[o]) < 4 * fli + sl
      invariant hops == |V|
      decreases FL_COUNT - fli
    {
      var end := 4 * fli + 4;
      var s := LowestBit(b.sl, 4 * fli + sl, end);
      EmptyBelow(z, b, lists, F, 4 * fli + sl, s);
      while s < end
        invariant 4 * fli + sl <= s <= end
        invariant s < end ==> b.sl[s]
        invariant forall o :: o in F && BinIdx(F[o]) < s ==> F[o] < need
        invariant forall o :: o in V ==> o in F && BinIdx(F[o]) < s
        invariant hops == |V|
        decreases end - s
      {
        BinMembers(z, b, lists, F, s);
        assert V <= F.Keys;
        assert forall j :: 0 <= j < |lists[s]| ==> lists[s][j] in lists[s];
        var w;
        ghost var i;
        w, hops, V, i := WalkBin(zone, zoneSize, b.head[s], need, hops, maxHops, lists[s], F, V);
        match w
        case Fit(o) =>
          IndexUnique(lists[s], i);
          return o;
        case Refused =>
          return NULL_OFF;
        case Miss =>
        ghost var s0 := s;
        s := LowestBit(b.sl, s + 1, end);
        EmptyBelow(z, b, lists, F, s0 + 1, s);
      }
      var g := LowestBit(b.fl, fli + 1, FL_COUNT);
      EmptyLevels(z, b, lists, F, fli + 1, g);
      if g == FL_COUNT {
        return NULL_OFF;
      }
      fli, sl := g, 0;
    }
  }

  lemma BinnedCount(z: seq<u32>, b: TlsfBins, lists: seq<seq<nat>>, F: map<nat, nat>, zoneSize: nat)
    requires BinsInv(z, b, lists, F) && forall o :: o in F ==> o + F[o] <= zoneSize
    ensures |F| <= zoneSize / MIN_BLOCK
  {
    hide BinIdx, Linked, BinOk;
    assert forall o :: o in F ==> FreeCell(z, o, F[o]);
    SpacedCount(F.Keys, zoneSize);
    assert |F.Keys| == |F|;
  }

  // A block in a bin below the request's own bin is too small for the request.
  lemma SmallBins(z: seq<u32>, b: TlsfBins, lists: seq<seq<nat>>, F: map<nat, nat>, need: nat)
    requires BinsInv(z, b, lists, F) && MIN_BLOCK <= need < ZONE_LIMIT
    ensures forall o :: o in F && BinIdx(F[o]) < BinIdx(need) ==> F[o] < need
  {
    hide BinIdx, Linked, BinOk;
    forall o | o in F && F[o] >= need ensures BinIdx(F[o]) >= BinIdx(need) {
      assert FreeCell(z, o, F[o]);
      BinMonotone(need, F[o]);
    }
  }

  lemma BinMembers(z: seq<u32>, b: TlsfBins, lists: seq<seq<nat>>, F: map<nat, nat>, k: nat)
    requires BinsInv(z, b, lists, F) && k < NBINS
    ensures Linked(z, lists[k], b.head[k]) && NoDup(lists[k])
    ensures forall o :: o in lists[k] ==> o in F && FreeCell(z, o, F[o]) && BinIdx(F[o]) == k
    ensures forall o :: o in F && BinIdx(F[o]) == k ==> o in lists[k]
  {
    hide BinIdx, Linked;
    assert BinOk(z, b, lists, F, k);
  }

  // Bins whose bit is clear hold no block.
  lemma EmptyBelow(z: seq<u32>, b: TlsfBins, lists: seq<seq<nat>>, F: map<nat, nat>, from: nat, end: nat)
    requires BinsInv(z, b, lists, F) && from <= end <= NBINS
    requires forall k :: from <= k < end ==> !b.sl[k]
    ensures forall o :: o in F && BinIdx(F[o]) >= from ==> BinIdx(F[o]) >= end
  {
    hide BinIdx, Linked;
    forall o | o in F && BinIdx(F[o]) >= from ensures BinIdx(F[o]) >= end {
      assert o in lists[BinIdx(F[o])];
      assert BinOk(z, b, lists, F, BinIdx(F[o]));
    }
  }

  lemma EmptyLevels(z: seq<u32>, b: TlsfBins, lists: seq<seq<nat>>, F: map<nat, nat>, from: nat, end: nat)
    requires BinsInv(z, b, lists, F) && from <= end <= FL_COUNT
    requires forall f :: from <= f < end ==> !b.fl[f]
    ensures forall o :: o in F && BinIdx(F[o]) >= 4 * from ==> BinIdx(F[o]) >= 4 * end
  {
    hide BinIdx, Linked, BinOk;
    forall k | 4 * from <= k < 4 * end ensures !b.sl[k] {
      assert !b.fl[k / 4];
    }
    EmptyBelow(z, b, lists, F, 4 * from, 4 * end);
  }

  lemma LinkedHead(z: seq<u32>, s: seq<nat>, head: u32)
    requires Linked(z, s, head) && |z| <= ZONE_LIMIT
    ensures head == At(s, 0) && (head == NULL_OFF <==> s == [])
  {
  }

  lemma LinkedStep(z: seq<u32>, s: seq<nat>, head: u32, i: nat)
    requires Linked(z, s, head) && |z| <= ZONE_LIMIT && i < |s|
    ensures s[i] + MIN_BLOCK <= |z| && z[s[i] + 12] == At(s, i + 1)
    ensures z[s[i] + 12] == NULL_OFF <==> i + 1 == |s|
  {
    assert NextOf(z, s[i]) == At(s, i + 1);
  }

  // ---- frame ---------------------------------------------------------------------------

  // The bins depend only on the header and link words of the binned blocks.
  lemma BinsFrame(z: seq<u32>, z': seq<u32>, b: TlsfBins, lists: seq<seq<nat>>, F: map<nat, nat>)
    requires BinsInv(z, b, lists, F) && |z'| == |z|
    requires forall o :: o in F ==> o + MIN_BLOCK <= |z| && z'[o] == z[o] && z'[o + 8] == z[o + 8] && z'[o + 12] == z[o + 12]
    ensures BinsInv(z', b, lists, F)
  {
    hide BinIdx;
    forall k | 0 <= k < NBINS ensures BinOk(z', b, lists, F, k) {
      assert BinOk(z, b, lists, F, k);
      FrameLinked(z, z', lists[k], b.head[k]);
    }
    forall o | o in F ensures FreeCell(z', o, F[o]) {
      assert FreeCell(z, o, F[o]);
    }
  }
}
