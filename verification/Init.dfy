/** init: the configuration is checked before any state exists. */
module Init {
  import opened Base
  import opened State
  import opened SizeClass

  predicate PowerOfTwo(n: nat) {
    n == 1 || (n > 1 && n % 2 == 0 && PowerOfTwo(n / 2))
  }

  lemma {:induction false} SamePower(n: nat, m: nat)
    requires PowerOfTwo(n) && PowerOfTwo(m) && m <= n < 2 * m
    ensures n == m
  {
    if m > 1 { SamePower(n / 2, m / 2); }
  }

  // The halving test recognises exactly the powers of two.
  lemma {:induction false} PowerOfTwoIs(n: nat)
    ensures PowerOfTwo(n) <==> exists k: nat :: n == Pow2(k)
  {
    if n == 1 {
      assert Pow2(0) == 1;
    } else if n > 1 {
      PowerOfTwoIs(n / 2);
      if PowerOfTwo(n) {
        var k: nat :| n / 2 == Pow2(k);
        assert n == Pow2(k + 1);
      }
      if k: nat :| n == Pow2(k) {
        assert Pow2(k) == 2 * Pow2(k - 1) && n / 2 == Pow2(k - 1);
      }
    }
  }

  lemma PowersOfTwo()
    ensures PowerOfTwo(1024)
  {
    assert PowerOfTwo(8) && PowerOfTwo(16) && PowerOfTwo(32) && PowerOfTwo(64);
    assert PowerOfTwo(128) && PowerOfTwo(256) && PowerOfTwo(512);
  }

  lemma {:induction false} SegmentMultiple(n: nat)
    requires PowerOfTwo(n) && n >= 1024
    ensures n % 1024 == 0
  {
    if n < 2048 {
      PowersOfTwo();
      SamePower(n, 1024);
    } else {
      SegmentMultiple(n / 2);
    }
  }

  // The refusals of init, in the order of the code. A null zone counts as unaligned.
  function InitRefusal(zoneAligned: bool, zoneBytes: u32, segmentBytes: u32, maxSegments: nat): Status {
    if !zoneAligned then InvalidAlignment
    else if segmentBytes < 1024 || !PowerOfTwo(segmentBytes) || zoneBytes < segmentBytes then InvalidAlignment
    else if zoneBytes / segmentBytes > maxSegments then NoSpace
    else if (zoneBytes / segmentBytes) * segmentBytes >= ZONE_LIMIT then NoSpace
    else Ok
  }

  // init. The three sizes of the build configuration are parameters; the overflow test of the
  // rounded zone size can never fire.
  method InitZone(zoneAligned: bool, zoneBytes: u32, segmentBytes: u32, maxSegments: nat, maxPools: nat, maxObjects: nat)
      returns (st: Status, g: GlobalState?)
    requires 1 <= maxSegments <= 0xFFFF && 1 <= maxPools < 0xFFFF && 1 <= maxObjects < 0xFFFF
    ensures st == InitRefusal(zoneAligned, zoneBytes, segmentBytes, maxSegments) && (st != Ok <==> g == null)
    ensures st == (if !zoneAligned || segmentBytes < 1024 || (forall k: nat :: segmentBytes != Pow2(k)) || zoneBytes < segmentBytes then InvalidAlignment
                   else if zoneBytes / segmentBytes > maxSegments || (zoneBytes / segmentBytes) * segmentBytes >= 0x100_0000 then NoSpace
                   else Ok)
    ensures g != null ==>
              && fresh(g) && fresh(g.zone) && fresh(g.pools) && fresh(g.objects) && g.Valid()
              && g.segmentSize == segmentBytes && g.zoneSize == (zoneBytes / segmentBytes) * segmentBytes
              && g.pools.Length == maxPools && g.objects.Length == |g.stack| == maxObjects && g.segmentCount == zoneBytes / segmentBytes
              && (forall p :: 0 <= p < maxPools ==> g.pools[p] == ZeroPool())
              && (forall sl :: 0 <= sl < maxObjects ==> g.objects[sl].state.FreeSlot? && g.objects[sl].generation == 0)
  {
    hide PowerOfTwo;
    PowerOfTwoIs(segmentBytes);
    if !zoneAligned { return InvalidAlignment, null; }
    if segmentBytes < 1024 || !PowerOfTwo(segmentBytes) || zoneBytes < segmentBytes { return InvalidAlignment, null; }
    var n := zoneBytes / segmentBytes;
    if n > maxSegments { return NoSpace, null; }
    DivMono(zoneBytes, U32_MOD - 1, segmentBytes);
    if n > (U32_MOD - 1) / segmentBytes { return NoSpace, null; }
    if n * segmentBytes >= ZONE_LIMIT { return NoSpace, null; }
    SegmentMultiple(segmentBytes);
    st := Ok;
    g := new GlobalState(zoneBytes, segmentBytes, maxPools, maxObjects);
  }
}
