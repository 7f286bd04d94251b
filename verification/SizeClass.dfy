/** Size classes: the two-level index of a block size (fl_index, sl_index), for every
    legal SL_COUNT and FL_MAX, with the 32-bit product of sl_index modelled as it wraps. */
module SizeClass {
  import opened Base

  function Pow2(n: nat): (r: nat)
    ensures r >= 1
  {
    if n == 0 then 1 else 2 * Pow2(n - 1)
  }

  // 31 - clz(v) for v >= 1, and 0 for v <= 1.
  function Log2(v: nat): nat {
    if v <= 1 then 0 else 1 + Log2(v / 2)
  }

  function FlIndex(size: nat, flMax: nat): nat
    requires flMax > MIN_FL
  {
    if size < 16 then MIN_FL
    else if Log2(size) < flMax then Log2(size) else flMax - 1
  }

  function Wrap32(x: int): (r: u32) {
    x % U32_MOD
  }

  lemma DivNat(a: nat, d: nat)
    requires d >= 1
    ensures a / d >= 0
  {
    var q, r := a / d, a % d;
    assert a == q * d + r && 0 <= r < d;
    if q < 0 {
      MulNeg(q + 1, d);
    }
  }

  lemma MulNeg(a: int, d: nat)
    requires a <= 0
    ensures a * d <= 0
  {
  }

  function Shr(a: nat, n: nat): nat {
    DivNat(a, Pow2(n));
    a / Pow2(n)
  }

  // sl_index: the subtraction and the product are uint32_t operations.
  function SlIndex(size: nat, fl: nat, slCount: nat): nat
    requires slCount >= 1
  {
    var sl := Shr(Wrap32(Wrap32(size - Pow2(fl)) * slCount), fl);
    if sl < slCount then sl else slCount - 1
  }

  lemma {:induction false} Log2Bounds(v: nat)
    requires v >= 1
    ensures Pow2(Log2(v)) <= v < 2 * Pow2(Log2(v))
  {
    if v > 1 {
      Log2Bounds(v / 2);
    }
  }

  lemma {:induction false} Pow2Mono(a: nat, b: nat)
    requires a <= b
    ensures Pow2(a) <= Pow2(b)
  {
    if a < b {
      Pow2Mono(a, b - 1);
    }
  }

  lemma {:induction false} Log2Mono(a: nat, b: nat)
    requires a <= b
    ensures Log2(a) <= Log2(b)
  {
    if a > 1 {
      Log2Mono(a / 2, b / 2);
    }
  }

  lemma Log2Below(v: nat, n: nat)
    requires 1 <= v < Pow2(n)
    ensures Log2(v) < n
  {
    Log2Bounds(v);
    if Log2(v) >= n {
      Pow2Mono(n, Log2(v));
    }
  }

  lemma Log2AtLeast(v: nat, n: nat)
    requires v >= Pow2(n)
    ensures Log2(v) >= n
  {
    Log2Bounds(v);
    if Log2(v) < n {
      Pow2Mono(Log2(v) + 1, n);
    }
  }

  // The side condition under which no legal size makes the product of sl_index wrap.
  predicate ProductFits(slCount: nat, flMax: nat)
    requires flMax >= 1
  {
    slCount * Pow2(flMax - 1) <= U32_MOD
  }

  lemma MulLe(a: nat, b: nat, c: nat)
    requires a <= b
    ensures a * c <= b * c
  {
  }

  lemma DivMono(a: nat, b: nat, d: nat)
    requires a <= b && d >= 1
    ensures a / d <= b / d
  {
    var qa, qb := a / d, b / d;
    assert a >= qa * d && b < qb * d + d == (qb + 1) * d;
    if qa > qb {
      MulLe(qb + 1, qa, d);
    }
  }

  lemma DivBelow(a: nat, d: nat, k: nat)
    requires d >= 1 && a < k * d
    ensures a / d < k
  {
    assert a >= (a / d) * d;
    if a / d >= k {
      MulLe(k, a / d, d);
    }
  }

  // Within the representable range the first level is floor(log2) and, when the product
  // fits, the second level is the exact linear subdivision of [2^fl, 2^(fl+1)).
  lemma ClassExact(size: nat, slCount: nat, flMax: nat)
    requires slCount >= 1 && flMax > MIN_FL && ProductFits(slCount, flMax)
    requires MIN_BLOCK <= size < Pow2(flMax)
    ensures var fl := FlIndex(size, flMax);
            && MIN_FL <= fl == Log2(size) < flMax
            && Pow2(fl) <= size < 2 * Pow2(fl)
            && SlIndex(size, fl, slCount) == (size - Pow2(fl)) * slCount / Pow2(fl) < slCount
  {
    Log2Bounds(size);
    Log2Below(size, flMax);
    assert Pow2(4) == 16;
    Log2AtLeast(size, 4);
    Pow2Mono(Log2(size), flMax - 1);
    SecondLevelExact(size, Log2(size), Pow2(flMax - 1), slCount);
  }

  lemma SecondLevelExact(size: nat, fl: nat, top: nat, slCount: nat)
    requires slCount >= 1 && Pow2(fl) <= size < 2 * Pow2(fl) && Pow2(fl) <= top && slCount * top <= U32_MOD
    ensures SlIndex(size, fl, slCount) == (size - Pow2(fl)) * slCount / Pow2(fl) < slCount
  {
    var base := Pow2(fl);
    var d := size - base;
    NoWrap(d, base, top, slCount);
    assert Wrap32(d) == d;
    assert Wrap32(d * slCount) == d * slCount;
  }

  lemma NoWrap(d: nat, base: nat, top: nat, slCount: nat)
    requires slCount >= 1 && d < base <= top && slCount * top <= U32_MOD
    ensures d < U32_MOD && d * slCount < U32_MOD
    ensures d * slCount / base < slCount
  {
    MulLe(base, top, slCount);
    MulLe(1, slCount, base);
    MulLt(d, base, slCount);
    DivBelow(d * slCount, base, slCount);
  }

  lemma MulLt(a: nat, b: nat, c: nat)
    requires a < b && c >= 1
    ensures a * c < b * c
  {
  }

  // (fl, sl) is lexicographically monotone in the size.
  lemma ClassMonotone(a: nat, b: nat, slCount: nat, flMax: nat)
    requires slCount >= 1 && flMax > MIN_FL && ProductFits(slCount, flMax)
    requires MIN_BLOCK <= a <= b < Pow2(flMax)
    ensures var fa, fb := FlIndex(a, flMax), FlIndex(b, flMax);
            fa < fb || (fa == fb && SlIndex(a, fa, slCount) <= SlIndex(b, fb, slCount))
  {
    hide FlIndex, SlIndex, Log2, Pow2, ProductFits;
    ClassExact(a, slCount, flMax);
    ClassExact(b, slCount, flMax);
    Log2Mono(a, b);
    var fl := Log2(a);
    if Log2(b) == fl {
      var base := Pow2(fl);
      MulLe(a - base, b - base, slCount);
      DivMono((a - base) * slCount, (b - base) * slCount, base);
    }
  }

  // The static assertions of pm_config.h on the two parameters.
  predicate LegalConfig(slCount: nat, flMax: nat) {
    (slCount == 2 || slCount == 4 || slCount == 8 || slCount == 16) && MIN_FL < flMax <= 31
  }

  ghost predicate MonotoneClasses(slCount: nat, flMax: nat)
    requires slCount >= 1 && flMax > MIN_FL
  {
    forall a: nat, b: nat {:trigger FlIndex(a, flMax), FlIndex(b, flMax)} ::
      MIN_BLOCK <= a <= b < Pow2(flMax) && FlIndex(a, flMax) == FlIndex(b, flMax) ==>
        SlIndex(a, FlIndex(a, flMax), slCount) <= SlIndex(b, FlIndex(b, flMax), slCount)
  }

  lemma Pow2Values()
    ensures Pow2(24) == 0x100_0000 && Pow2(28) == 0x1000_0000 && Pow2(29) == 0x2000_0000
    ensures Pow2(30) == 0x4000_0000 && Pow2(31) == 0x8000_0000
  {
    assert Pow2(8) == 256;
    assert Pow2(16) == 65536;
  }

  // Exactly the configurations whose product fits keep size classes ordered. The others,
  // (8, 31), (16, 30) and (16, 31), pass the static assertions and still break the order.
  lemma LegalConfigMonotoneIff(slCount: nat, flMax: nat)
    requires LegalConfig(slCount, flMax)
    ensures MonotoneClasses(slCount, flMax) <==> ProductFits(slCount, flMax)
    ensures !ProductFits(slCount, flMax) <==>
            ((slCount == 8 && flMax == 31) || (slCount == 16 && flMax >= 30))
  {
    Pow2Values();
    if ProductFits(slCount, flMax) {
      forall a: nat, b: nat | MIN_BLOCK <= a <= b < Pow2(flMax) && FlIndex(a, flMax) == FlIndex(b, flMax)
        ensures SlIndex(a, FlIndex(a, flMax), slCount) <= SlIndex(b, FlIndex(b, flMax), slCount)
      {
        ClassMonotone(a, b, slCount, flMax);
      }
      Pow2Mono(flMax - 1, 31);
      if flMax == 31 { assert Pow2(flMax - 1) == 0x4000_0000; }
    } else {
      Pow2Mono(flMax - 1, 30);
      if flMax - 1 <= 28 { Pow2Mono(flMax - 1, 28); }
      WrappedPair(slCount, flMax);
    }
  }

  // With base = 2^(flMax-1), the size base + 2^32/slCount wraps to sl = 0, while the size
  // just below it lands in a higher class.
  lemma WrappedPair(slCount: nat, flMax: nat)
    requires (slCount == 8 && flMax == 31) || (slCount == 16 && 30 <= flMax <= 31)
    ensures !MonotoneClasses(slCount, flMax)
  {
    Pow2Values();
    var base := Pow2(flMax - 1);
    var b := base + U32_MOD / slCount;
    var a := b - 1;
    assert Pow2(flMax) == 2 * base;
    Log2AtLeast(a, flMax - 1);
    Log2Below(a, flMax);
    Log2AtLeast(b, flMax - 1);
    Log2Below(b, flMax);
    assert FlIndex(a, flMax) == flMax - 1 == FlIndex(b, flMax);
    WrappedIndex(slCount, flMax);
  }

  lemma WrappedIndex(slCount: nat, flMax: nat)
    requires (slCount == 8 && flMax == 31) || (slCount == 16 && 30 <= flMax <= 31)
    ensures var b := Pow2(flMax - 1) + U32_MOD / slCount;
            SlIndex(b, flMax - 1, slCount) == 0 && SlIndex(b - 1, flMax - 1, slCount) >= 1
  {
    Pow2Values();
    hide Pow2;
  }

  // ---- the default configuration ------------------------------------------------------

  // The bin of a size: bin (fl, sl) is stored at (fl - MIN_FL) * SL_COUNT + sl.
  function BinIdx(size: nat): (b: nat)
    ensures b < NBINS
  {
    var fl := FlIndex(size, FL_MAX);
    assert SlIndex(size, fl, SL_COUNT) < SL_COUNT;
    BinRange(size);
    (fl - MIN_FL) * SL_COUNT + SlIndex(size, fl, SL_COUNT)
  }

  lemma BinRange(size: nat)
    ensures MIN_FL <= FlIndex(size, FL_MAX) < FL_MAX
  {
    if size >= 16 {
      assert Pow2(4) == 16;
      Log2AtLeast(size, 4);
    }
  }

  lemma BinMonotone(a: nat, b: nat)
    requires MIN_BLOCK <= a <= b < ZONE_LIMIT
    ensures BinIdx(a) <= BinIdx(b)
  {
    Pow2Values();
    assert Pow2(23) == 0x80_0000;
    ClassMonotone(a, b, SL_COUNT, FL_MAX);
    ClassExact(a, SL_COUNT, FL_MAX);
    ClassExact(b, SL_COUNT, FL_MAX);
  }
}
