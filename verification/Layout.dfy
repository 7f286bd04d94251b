/** The abstract layout of a pool window: which block starts where, how large it is and
    whether it is live, free or sub-minimal slack; and what the zone's header words say
    about it (the boundary tags). */
module Layout {
  import opened Base

  datatype Kind = Live(slot: nat) | Free | Slack
  datatype Blk = Blk(size: nat, kind: Kind)
  type Lay = map<nat, Blk>

  // The end of the block that starts at o.
  function End(L: Lay, o: nat): nat
    requires o in L
  {
    o + L[o].size
  }

  // The blocks of L tile [s, e): they follow one another from s to e without gap or overlap.
  ghost predicate Tiles(L: Lay, s: nat, e: nat) {
    && s <= e
    && (s < e ==> s in L)
    && (forall o :: o in L ==> s <= o && L[o].size > 0 && o + L[o].size <= e)
    && (forall o {:trigger End(L, o)} :: o in L ==> End(L, o) == e || End(L, o) in L)
    && (forall o1, o2 :: o1 in L && o2 in L && o1 < o2 ==> o1 + L[o1].size <= o2)
  }

  // Sizes and starts are 8-aligned; live and free blocks are at least a minimal block, slack
  // is smaller than one.
  ghost predicate Shaped(L: Lay) {
    forall o :: o in L ==>
      && o % ALIGN == 0 && L[o].size % ALIGN == 0
      && (if L[o].kind.Slack? then L[o].size < MIN_BLOCK else MIN_BLOCK <= L[o].size)
      && L[o].size < ZONE_LIMIT
  }

  // Coalescing is complete: no two adjacent free blocks and no two adjacent slack runs.
  ghost predicate Coalesced(L: Lay) {
    forall o {:trigger End(L, o)} :: o in L && End(L, o) in L ==>
      && !(L[o].kind.Free? && L[End(L, o)].kind.Free?)
      && !(L[o].kind.Slack? && L[End(L, o)].kind.Slack?)
  }

  // First header word: size with the free bit; a slack run reads as a 0-size used block.
  function HeaderOf(b: Blk): nat {
    match b.kind
    case Live(_) => HeaderWord(b.size, false)
    case Free => HeaderWord(b.size, true)
    case Slack => 0
  }

  // What the successor's prev_size records about block b.
  function PrevWord(b: Blk): nat {
    if b.kind.Slack? then 0 else b.size
  }

  ghost predicate HeadersOk(z: seq<u32>, L: Lay) {
    forall o :: o in L ==> o < |z| && z[o] == HeaderOf(L[o])
  }

  // The prev_size chain: 0 at the pool start and after slack, else the predecessor's size.
  ghost predicate PrevOk(z: seq<u32>, L: Lay, s: nat) {
    && (forall o :: o in L ==> o + 4 < |z|)
    && (s in L && !L[s].kind.Slack? ==> z[s + 4] == 0)
    && (forall o {:trigger End(L, o)} :: o in L && End(L, o) in L && !L[End(L, o)].kind.Slack? ==>
         z[End(L, o) + 4] == PrevWord(L[o]))
  }

  ghost predicate LayoutInv(z: seq<u32>, L: Lay, s: nat, e: nat) {
    && e <= |z| <= ZONE_LIMIT && e < ZONE_LIMIT && s % ALIGN == 0 && e % ALIGN == 0
    && Tiles(L, s, e) && Shaped(L) && Coalesced(L) && HeadersOk(z, L) && PrevOk(z, L, s)
  }

  lemma TilesOf(z: seq<u32>, L: Lay, s: nat, e: nat)
    requires LayoutInv(z, L, s, e)
    ensures Tiles(L, s, e) && Shaped(L) && Coalesced(L) && s <= e <= |z|
  {
    hide HeadersOk, PrevOk, Shaped, Coalesced;
  }

  ghost function FreeMap(L: Lay): map<nat, nat> {
    map o | o in L && L[o].kind.Free? :: L[o].size
  }

  // ---- consequences --------------------------------------------------------------------

  // Every block but the first has a block that ends exactly where it starts.
  lemma Predecessor(L: Lay, s: nat, e: nat, o: nat) returns (p: nat)
    requires Tiles(L, s, e) && o in L && o != s
    ensures p in L && End(L, p) == o
  {
    p := s;
    while End(L, p) != o
      invariant p in L && p < o
      decreases o - p
    {
      p := End(L, p);
    }
  }

  // Every byte of the window lies in exactly one block.
  lemma CoversOnce(L: Lay, s: nat, e: nat, x: nat)
    requires Tiles(L, s, e) && s <= x < e
    ensures exists o :: o in L && o <= x < End(L, o)
    ensures forall o1, o2 :: o1 in L && o2 in L && o1 <= x < End(L, o1) && o2 <= x < End(L, o2) ==> o1 == o2
  {
    var p := s;
    while End(L, p) <= x
      invariant p in L && p <= x
      decreases x - p
    {
      p := End(L, p);
    }
  }

  lemma UniqueEnd(L: Lay, s: nat, e: nat, p: nat, q: nat)
    requires Tiles(L, s, e) && p in L && q in L && End(L, p) == End(L, q)
    ensures p == q
  {
  }

  lemma FreeApart(L: Lay, s: nat, e: nat)
    requires Tiles(L, s, e) && Shaped(L)
    ensures forall o1, o2 :: o1 in FreeMap(L) && o2 in FreeMap(L) && o1 < o2 ==> o1 + MIN_BLOCK <= o2
  {
  }

  // ---- byte accounting -----------------------------------------------------------------

  datatype Tag = TLive | TFree | TSlack | TAll

  function Weight(b: Blk, t: Tag): nat {
    match t
    case TAll => b.size
    case TLive => if b.kind.Live? then b.size else 0
    case TFree => if b.kind.Free? then b.size else 0
    case TSlack => if b.kind.Slack? then b.size else 0
  }

  ghost function Bytes(L: Lay, t: Tag): nat {
    if L == map[] then 0
    else
      var o :| o in L;
      Weight(L[o], t) + Bytes(L - {o}, t)
  }

  lemma {:induction false} BytesRemove(L: Lay, o: nat, t: Tag)
    requires o in L
    ensures Bytes(L, t) == Weight(L[o], t) + Bytes(L - {o}, t)
    decreases |L|
  {
    var x :| x in L && Bytes(L, t) == Weight(L[x], t) + Bytes(L - {x}, t);
    if x != o {
      BytesRemove(L - {x}, o, t);
      BytesRemove(L - {o}, x, t);
      assert L - {x} - {o} == L - {o} - {x};
    }
  }

  lemma BytesAdd(L: Lay, o: nat, b: Blk, t: Tag)
    requires o !in L
    ensures Bytes(L[o := b], t) == Bytes(L, t) + Weight(b, t)
  {
    BytesRemove(L[o := b], o, t);
    assert L[o := b] - {o} == L;
  }

  lemma {:induction false} BytesSplit(L: Lay)
    ensures Bytes(L, TAll) == Bytes(L, TLive) + Bytes(L, TFree) + Bytes(L, TSlack)
    decreases |L|
  {
    if L != map[] {
      var o :| o in L;
      BytesRemove(L, o, TAll);
      BytesRemove(L, o, TLive);
      BytesRemove(L, o, TFree);
      BytesRemove(L, o, TSlack);
      BytesSplit(L - {o});
    }
  }

  lemma TilesTail(L: Lay, s: nat, e: nat)
    requires Tiles(L, s, e) && s < e
    ensures Tiles(L - {s}, End(L, s), e)
  {
    var R := L - {s};
    forall o | o in R ensures End(R, o) == e || End(R, o) in R {
      assert End(R, o) == End(L, o);
    }
  }

  lemma {:induction false} TilesBytes(L: Lay, s: nat, e: nat)
    requires Tiles(L, s, e)
    ensures Bytes(L, TAll) == e - s
    decreases |L|
  {
    if s < e {
      TilesTail(L, s, e);
      BytesRemove(L, s, TAll);
      TilesBytes(L - {s}, End(L, s), e);
    } else {
      assert L == map[];
    }
  }

  // used + binned free + slack = capacity.
  lemma Accounting(L: Lay, s: nat, e: nat)
    requires Tiles(L, s, e)
    ensures Bytes(L, TLive) + Bytes(L, TFree) + Bytes(L, TSlack) == e - s
  {
    TilesBytes(L, s, e);
    BytesSplit(L);
  }

  // ---- replacing the blocks of an aligned stretch [lo, hi) ------------------------------

  ghost function Outside(L: Lay, lo: nat, hi: nat): Lay {
    map o | o in L && !(lo <= o < hi) :: L[o]
  }

  ghost function Inside(L: Lay, lo: nat, hi: nat): Lay {
    map o | o in L && lo <= o < hi :: L[o]
  }

  ghost function Replace(L: Lay, M: Lay, lo: nat, hi: nat): Lay {
    Outside(L, lo, hi) + M
  }

  ghost predicate BlockBoundary(L: Lay, e: nat, x: nat) {
    x == e || x in L
  }

  lemma ReplaceTiles(L: Lay, M: Lay, lo: nat, hi: nat, s: nat, e: nat)
    requires Tiles(L, s, e) && Tiles(M, lo, hi) && lo < hi
    requires lo in L && BlockBoundary(L, e, hi)
    ensures Tiles(Replace(L, M, lo, hi), s, e)
  {
    var R := Replace(L, M, lo, hi);
    forall o | o in R ensures End(R, o) == e || End(R, o) in R {
      if o in M {
        assert End(R, o) == End(M, o);
      } else {
        assert End(R, o) == End(L, o);
      }
    }
  }

  lemma {:induction false} BytesUnion(A: Lay, B: Lay, t: Tag)
    requires A.Keys !! B.Keys
    ensures Bytes(A + B, t) == Bytes(A, t) + Bytes(B, t)
    decreases |B|
  {
    if B == map[] {
      assert A + B == A;
    } else {
      var o :| o in B;
      BytesUnion(A, B - {o}, t);
      BytesRemove(B, o, t);
      BytesRemove(A + B, o, t);
      UnionRemove(A, B, o);
    }
  }

  lemma UnionRemove(A: Lay, B: Lay, o: nat)
    requires o !in A && o in B
    ensures A + B - {o} == A + (B - {o})
  {
    assert forall k :: k in A + B - {o} <==> k in A + (B - {o});
  }

  lemma ReplaceBytes(L: Lay, M: Lay, lo: nat, hi: nat, t: Tag)
    requires forall o :: o in M ==> lo <= o < hi
    ensures Bytes(Replace(L, M, lo, hi), t) == Bytes(L, t) - Bytes(Inside(L, lo, hi), t) + Bytes(M, t)
  {
    BytesUnion(Outside(L, lo, hi), M, t);
    BytesUnion(Outside(L, lo, hi), Inside(L, lo, hi), t);
    assert Outside(L, lo, hi) + Inside(L, lo, hi) == L;
  }

  lemma ReplaceFreeMap(L: Lay, M: Lay, lo: nat, hi: nat)
    ensures FreeMap(Replace(L, M, lo, hi)) == FreeMap(Outside(L, lo, hi) ) + FreeMap(M)
    requires forall o :: o in M ==> lo <= o < hi
  {
  }

  // ---- counting -------------------------------------------------------------------------

  ghost function KeysOf(L: Lay, t: Tag): set<nat> {
    set o | o in L && Weight(L[o], t) > 0
  }

  lemma {:induction false} SuccessorCount(S: set<nat>, T: set<nat>, L: Lay)
    requires forall o :: o in S ==> o in L && End(L, o) in T
    requires forall o1, o2 :: o1 in S && o2 in S && o1 != o2 ==> End(L, o1) != End(L, o2)
    ensures |S| <= |T|
    decreases |S|
  {
    if S != {} {
      var o :| o in S;
      SuccessorCount(S - {o}, T - {End(L, o)}, L);
    }
  }

  // Binned free blocks <= live blocks + slack runs + 1: each free block is followed by a live
  // block, by slack or by the end of the window.
  lemma FreeCount(L: Lay, s: nat, e: nat)
    requires Tiles(L, s, e) && Shaped(L) && Coalesced(L)
    ensures |KeysOf(L, TFree)| <= |KeysOf(L, TLive)| + |KeysOf(L, TSlack)| + 1
  {
    var T := KeysOf(L, TLive) + KeysOf(L, TSlack) + {e};
    forall o | o in KeysOf(L, TFree) ensures End(L, o) in T {
    }
    SuccessorCount(KeysOf(L, TFree), T, L);
  }
}
