/** Address-ordered live blocks, as the maintenance paths see them, and the canonical layout
    that finalize_layout builds around them. */
module Blocks {
  import opened Base
  import opened Layout
  import opened Objects

  // One audited live block: its slot, where it starts, its size, whether it is pinned.
  datatype MB = MB(slot: nat, off: nat, size: nat, pinned: bool)

  // Ascending, disjoint, aligned blocks inside [s, e).
  ghost predicate Ordered(bs: seq<MB>, s: nat, e: nat) {
    && s <= e && s % ALIGN == 0 && e % ALIGN == 0
    && (forall i :: 0 <= i < |bs| ==>
         && MIN_BLOCK <= bs[i].size && bs[i].size % ALIGN == 0 && bs[i].off % ALIGN == 0
         && s <= bs[i].off && bs[i].off + bs[i].size <= e)
    && (forall i, j :: 0 <= i < j < |bs| ==> bs[i].off + bs[i].size <= bs[j].off)
  }

  function EndOf(bs: seq<MB>, s: nat): nat {
    if bs == [] then s else bs[|bs| - 1].off + bs[|bs| - 1].size
  }

  function SumSizes(bs: seq<MB>): nat {
    if bs == [] then 0 else SumSizes(bs[..|bs| - 1]) + bs[|bs| - 1].size
  }

  lemma OrderedPrefix(bs: seq<MB>, s: nat, e: nat, k: nat)
    requires Ordered(bs, s, e) && k <= |bs|
    ensures Ordered(bs[..k], s, e) && s <= EndOf(bs[..k], s) <= e
    ensures k < |bs| ==> EndOf(bs[..k], s) <= bs[k].off
    ensures EndOf(bs[..k], s) % ALIGN == 0
  {
    if k > 0 {
      AlignedSum(bs[k - 1].off, bs[k - 1].size);
    }
  }

  lemma OrderedConcat(a: seq<MB>, b: seq<MB>, s: nat, m: nat, e: nat)
    requires Ordered(a, s, m) && Ordered(b, m, e)
    ensures Ordered(a + b, s, e)
  {
  }

  // ---- the canonical layout ----------------------------------------------------------------

  // The stretch [o, p) between live blocks: nothing, poisoned slack, or one free block.
  ghost function Gap(o: nat, p: nat): Lay {
    if p <= o then map[]
    else if p - o < MIN_BLOCK then map[o := Blk(p - o, Slack)]
    else map[o := Blk(p - o, Free)]
  }

  function LiveBlk(b: MB): Blk {
    Blk(b.size, Live(b.slot))
  }

  // Live blocks with their preceding gaps, covering [s, EndOf(bs, s)).
  ghost function Canon(bs: seq<MB>, s: nat): Lay {
    if bs == [] then map[]
    else
      var n := |bs| - 1;
      (Canon(bs[..n], s) + Gap(EndOf(bs[..n], s), bs[n].off))[bs[n].off := LiveBlk(bs[n])]
  }

  ghost function CanonFull(bs: seq<MB>, s: nat, e: nat): Lay {
    Canon(bs, s) + Gap(EndOf(bs, s), e)
  }

  lemma JoinTiles(A: Lay, B: Lay, s: nat, m: nat, e: nat)
    requires Tiles(A, s, m) && Tiles(B, m, e)
    ensures Tiles(A + B, s, e)
  {
    var R := A + B;
    forall o | o in R ensures End(R, o) == e || End(R, o) in R {
      if o in B { assert End(R, o) == End(B, o); } else { assert End(R, o) == End(A, o); }
    }
  }

  lemma GapTiles(o: nat, p: nat)
    requires o <= p
    ensures Tiles(Gap(o, p), o, p)
  {
  }

  lemma SingleTiles(o: nat, b: Blk)
    requires b.size > 0
    ensures Tiles(map[o := b], o, o + b.size)
  {
  }

  lemma {:induction false} CanonTiles(bs: seq<MB>, s: nat, e: nat)
    requires Ordered(bs, s, e)
    ensures Tiles(Canon(bs, s), s, EndOf(bs, s))
  {
    if bs != [] {
      var n := |bs| - 1;
      OrderedPrefix(bs, s, e, n);
      CanonTiles(bs[..n], s, e);
      var m := EndOf(bs[..n], s);
      GapTiles(m, bs[n].off);
      JoinTiles(Canon(bs[..n], s), Gap(m, bs[n].off), s, m, bs[n].off);
      SingleTiles(bs[n].off, LiveBlk(bs[n]));
      JoinTiles(Canon(bs[..n], s) + Gap(m, bs[n].off), map[bs[n].off := LiveBlk(bs[n])], s, bs[n].off, EndOf(bs, s));
      MapPut(Canon(bs[..n], s) + Gap(m, bs[n].off), bs[n].off, LiveBlk(bs[n]));
    }
  }

  lemma CanonFullTiles(bs: seq<MB>, s: nat, e: nat)
    requires Ordered(bs, s, e)
    ensures Tiles(CanonFull(bs, s, e), s, e)
  {
    OrderedPrefix(bs, s, e, |bs|);
    assert bs[..|bs|] == bs;
    CanonTiles(bs, s, e);
    GapTiles(EndOf(bs, s), e);
    JoinTiles(Canon(bs, s), Gap(EndOf(bs, s), e), s, EndOf(bs, s), e);
  }

  // The live blocks of the canonical layout are exactly the given ones.
  lemma EmptyCanon(s: nat)
    ensures Canon([], s) == map[]
  {
  }

  // The last block comes on top of the layout of the others, and hides none of it.
  lemma CanonStep(bs: seq<MB>, s: nat, e: nat)
    requires Ordered(bs, s, e) && bs != []
    ensures var n := |bs| - 1; var C, P := Canon(bs, s), Canon(bs[..n], s);
            && bs[n].off in C && C[bs[n].off] == LiveBlk(bs[n])
            && (forall o :: o in P ==> o < bs[n].off && o in C && C[o] == P[o])
            && (forall o :: o in C && C[o].kind.Live? && o != bs[n].off ==> o in P && P[o] == C[o])
  {
    hide Tiles;
    var n := |bs| - 1;
    OrderedPrefix(bs, s, e, n);
    CanonRange(bs[..n], s, e);
    EndBefore(bs, s, e, n);
    hide Ordered, EndOf;
    var m := EndOf(bs[..n], s);
    var P := Canon(bs[..n], s);
    assert forall o :: o in Gap(m, bs[n].off) ==> o == m < bs[n].off && !Gap(m, bs[n].off)[o].kind.Live?;
    assert Canon(bs, s) == (P + Gap(m, bs[n].off))[bs[n].off := LiveBlk(bs[n])];
  }

  lemma EndBefore(bs: seq<MB>, s: nat, e: nat, n: nat)
    requires Ordered(bs, s, e) && n < |bs|
    ensures EndOf(bs[..n], s) <= bs[n].off
  {
  }

  lemma CanonRange(bs: seq<MB>, s: nat, e: nat)
    requires Ordered(bs, s, e)
    ensures forall o :: o in Canon(bs, s) ==> s <= o < EndOf(bs, s)
  {
    hide Ordered, Canon, EndOf;
    CanonTiles(bs, s, e);
  }

  lemma {:induction false} CanonLive(bs: seq<MB>, s: nat, e: nat)
    requires Ordered(bs, s, e)
    ensures forall i :: 0 <= i < |bs| ==> bs[i].off in Canon(bs, s) && Canon(bs, s)[bs[i].off] == LiveBlk(bs[i])
    ensures forall o :: o in Canon(bs, s) && Canon(bs, s)[o].kind.Live? ==>
              exists i :: 0 <= i < |bs| && bs[i].off == o && Canon(bs, s)[o] == LiveBlk(bs[i])
    ensures forall o :: o in Canon(bs, s) ==> s <= o < EndOf(bs, s)
  {
    hide Canon, Gap, EndOf;
    if bs == [] {
      EmptyCanon(s);
    } else {
      var n := |bs| - 1;
      OrderedPrefix(bs, s, e, n);
      CanonLive(bs[..n], s, e);
      CanonStep(bs, s, e);
      var C, P := Canon(bs, s), Canon(bs[..n], s);
      forall i | 0 <= i < |bs| ensures bs[i].off in C && C[bs[i].off] == LiveBlk(bs[i]) {
        if i < n { assert bs[..n][i] == bs[i]; }
      }
      forall o | o in C && C[o].kind.Live? ensures exists i :: 0 <= i < |bs| && bs[i].off == o && C[o] == LiveBlk(bs[i]) {
        if o != bs[n].off {
          var i :| 0 <= i < n && bs[..n][i].off == o && P[o] == LiveBlk(bs[..n][i]);
          assert bs[i].off == o && C[o] == LiveBlk(bs[i]);
        }
      }
    }
    CanonRange(bs, s, e);
  }

  lemma CanonFullLive(bs: seq<MB>, s: nat, e: nat)
    requires Ordered(bs, s, e)
    ensures forall i :: 0 <= i < |bs| ==> bs[i].off in CanonFull(bs, s, e) && CanonFull(bs, s, e)[bs[i].off] == LiveBlk(bs[i])
    ensures forall o :: o in CanonFull(bs, s, e) && CanonFull(bs, s, e)[o].kind.Live? ==>
              exists i :: 0 <= i < |bs| && bs[i].off == o && CanonFull(bs, s, e)[o] == LiveBlk(bs[i])
  {
    CanonLive(bs, s, e);
    forall o | o in CanonFull(bs, s, e) && CanonFull(bs, s, e)[o].kind.Live?
      ensures exists i :: 0 <= i < |bs| && bs[i].off == o && CanonFull(bs, s, e)[o] == LiveBlk(bs[i])
    {
      assert o in Canon(bs, s);
    }
  }

  lemma {:induction false} CanonLiveBytes(bs: seq<MB>, s: nat, e: nat)
    requires Ordered(bs, s, e)
    ensures Bytes(Canon(bs, s), TLive) == SumSizes(bs)
  {
    if bs != [] {
      var n := |bs| - 1;
      OrderedPrefix(bs, s, e, n);
      CanonLiveBytes(bs[..n], s, e);
      CanonLive(bs[..n], s, e);
      GapBytes(Canon(bs[..n], s), EndOf(bs[..n], s), bs[n].off);
      BytesAdd(Canon(bs[..n], s) + Gap(EndOf(bs[..n], s), bs[n].off), bs[n].off, LiveBlk(bs[n]), TLive);
    } else {
      assert Bytes(map[], TLive) == 0;
    }
  }

  lemma GapBytes(C: Lay, m: nat, p: nat)
    requires forall o :: o in C ==> o < m
    ensures Bytes(C + Gap(m, p), TLive) == Bytes(C, TLive)
    ensures Bytes(C + Gap(m, p), TSlack) == Bytes(C, TSlack) + (if m < p && p - m < MIN_BLOCK then p - m else 0)
    ensures Bytes(C + Gap(m, p), TFree) == Bytes(C, TFree) + (if m < p && p - m >= MIN_BLOCK then p - m else 0)
  {
    if p <= m {
      assert C + Gap(m, p) == C;
    } else {
      var b := if p - m < MIN_BLOCK then Blk(p - m, Slack) else Blk(p - m, Free);
      MapPut(C, m, b);
      BytesAdd(C, m, b, TLive);
      BytesAdd(C, m, b, TSlack);
      BytesAdd(C, m, b, TFree);
    }
  }

  // A gap of at least a minimal block is one free block of the canonical layout.
  lemma {:induction false} GapIsFree(bs: seq<MB>, s: nat, e: nat, k: nat)
    requires Ordered(bs, s, e) && k < |bs|
    requires bs[k].off - EndOf(bs[..k], s) >= MIN_BLOCK
    ensures EndOf(bs[..k], s) in Canon(bs, s)
    ensures Canon(bs, s)[EndOf(bs[..k], s)] == Blk(bs[k].off - EndOf(bs[..k], s), Free)
  {
    hide Ordered, Canon, Gap;
    var n := |bs| - 1;
    CanonExtends(bs, s, e);
    if k < n {
      OrderedPrefix(bs, s, e, n);
      assert bs[..n][..k] == bs[..k];
      GapIsFree(bs[..n], s, e, k);
    }
  }

  // Adding the last block keeps everything before it and puts its gap in front of it.
  lemma CanonExtends(bs: seq<MB>, s: nat, e: nat)
    requires Ordered(bs, s, e) && bs != []
    ensures var n := |bs| - 1; var m := EndOf(bs[..n], s);
            && (forall o :: o in Canon(bs[..n], s) ==> o in Canon(bs, s) && Canon(bs, s)[o] == Canon(bs[..n], s)[o])
            && (bs[n].off - m >= MIN_BLOCK ==> m in Canon(bs, s) && Canon(bs, s)[m] == Blk(bs[n].off - m, Free))
  {
    var n := |bs| - 1;
    OrderedPrefix(bs, s, e, n);
    CanonLive(bs[..n], s, e);
  }

  lemma TailIsFree(bs: seq<MB>, s: nat, e: nat)
    requires Ordered(bs, s, e) && e - EndOf(bs, s) >= MIN_BLOCK
    ensures EndOf(bs, s) in CanonFull(bs, s, e)
    ensures CanonFull(bs, s, e)[EndOf(bs, s)] == Blk(e - EndOf(bs, s), Free)
  {
  }

  lemma GapIsFreeFull(bs: seq<MB>, s: nat, e: nat, k: nat)
    requires Ordered(bs, s, e) && k < |bs|
    requires bs[k].off - EndOf(bs[..k], s) >= MIN_BLOCK
    ensures EndOf(bs[..k], s) in CanonFull(bs, s, e)
    ensures CanonFull(bs, s, e)[EndOf(bs[..k], s)] == Blk(bs[k].off - EndOf(bs[..k], s), Free)
  {
    GapIsFree(bs, s, e, k);
    CanonLive(bs, s, e);
  }

  // Every other block of the layout is a gap in front of one of the blocks, or behind the last.
  lemma {:induction false} CanonGap(bs: seq<MB>, s: nat, e: nat, o: nat) returns (k: nat)
    requires Ordered(bs, s, e) && o in Canon(bs, s) && !Canon(bs, s)[o].kind.Live?
    ensures k < |bs| && o == EndOf(bs[..k], s) && o + Canon(bs, s)[o].size == bs[k].off
  {
    hide Ordered, EndOf;
    var n := |bs| - 1;
    OrderedPrefix(bs, s, e, n);
    CanonStep(bs, s, e);
    if o in Canon(bs[..n], s) {
      k := CanonGap(bs[..n], s, e, o);
      assert bs[..n][..k] == bs[..k];
    } else {
      k := n;
    }
  }

  lemma CanonFullGap(bs: seq<MB>, s: nat, e: nat, o: nat) returns (k: nat)
    requires Ordered(bs, s, e) && o in CanonFull(bs, s, e) && !CanonFull(bs, s, e)[o].kind.Live?
    ensures k <= |bs| && o == EndOf(bs[..k], s) && o + CanonFull(bs, s, e)[o].size == if k < |bs| then bs[k].off else e
  {
    hide Ordered, EndOf, Canon;
    if o in Gap(EndOf(bs, s), e) {
      k := |bs|;
      assert bs[..k] == bs;
    } else {
      k := CanonGap(bs, s, e, o);
    }
  }

  // ---- blocks of a slot array ---------------------------------------------------------------

  function BlockOf(ds: seq<ObjectDesc>, sl: nat): MB
    requires sl < |ds| && HEADER <= ds[sl].address
  {
    MB(sl, ds[sl].address - HEADER, ds[sl].blockSize, PINNED in ds[sl].flags)
  }

  ghost predicate Addressed(ds: seq<ObjectDesc>, slots: seq<nat>) {
    forall i :: 0 <= i < |slots| ==> slots[i] < |ds| && HEADER <= ds[slots[i]].address
  }

  ghost function BlocksOf(ds: seq<ObjectDesc>, slots: seq<nat>): (bs: seq<MB>)
    requires Addressed(ds, slots)
    ensures |bs| == |slots| && forall i :: 0 <= i < |slots| ==> bs[i] == BlockOf(ds, slots[i])
  {
    seq(|slots|, i requires 0 <= i < |slots| => BlockOf(ds, slots[i]))
  }
}
