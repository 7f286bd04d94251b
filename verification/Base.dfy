/** Constants and value types shared by every part of the allocator model. */
module Base {

  type u32 = x: int | 0 <= x < 0x1_0000_0000
  type u16 = x: int | 0 <= x < 0x1_0000

  const HEADER: nat := 8        // BLOCK_HEADER_SIZE
  const MIN_BLOCK: nat := 16    // PM_MIN_BLOCK
  const ALIGN: nat := 8         // PM_ALIGNMENT
  const NULL_OFF: u32 := 0xFFFF_FFFF
  const NO_ORDER: u32 := 0xFFFF_FFFF
  const NO_SLOT: u16 := 0xFFFF
  const CROSS_HINT: u16 := 0xFFFF
  const FL_MAX: nat := 24       // PM_FL_MAX
  const SL_COUNT: nat := 4      // PM_SL_COUNT
  const MIN_FL: nat := 4
  const FL_COUNT: nat := 20     // FL_MAX - MIN_FL
  const NBINS: nat := 80        // FL_COUNT * SL_COUNT
  const ZONE_LIMIT: nat := 0x100_0000  // 2^FL_MAX
  const U32_MOD: nat := 0x1_0000_0000

  datatype Status =
    | Ok | Busy | NoSpace | InvalidPool | InvalidRef | InvalidAlignment | PinnedConflict
    | NotRelocatable | PoolChanged | AlreadyPaused | CorruptMetadata | NotInitialized | InvalidRequest

  // A block's first word is its size with the low bit set when the block is free.
  function HeaderWord(size: nat, free: bool): (w: nat)
  {
    size + (if free then 1 else 0)
  }

  function BlkSize(w: u32): (s: u32)
  {
    w - w % 2
  }

  predicate BlkFree(w: u32) {
    w % 2 == 1
  }

  // A size word without and with the free bit.
  lemma FreeHeaderWord(n: nat)
    requires n % ALIGN == 0 && n + 1 < U32_MOD
    ensures BlkSize(n + 1) == n && BlkFree(n + 1) && BlkSize(n) == n && !BlkFree(n)
  {
    Eighths(n);
    EvenWords(n / 8 * 4);
  }

  lemma Eighths(n: nat)
    requires n % ALIGN == 0
    ensures n == 2 * (n / 8 * 4)
  {
  }

  lemma EvenWords(h: nat)
    ensures 2 * h % 2 == 0 && (2 * h + 1) % 2 == 1
  {
  }

  // (v + 7) & ~7 in unbounded arithmetic; callers bound v so that it cannot wrap.
  function AlignUp8(v: nat): (r: nat)
    ensures v <= r < v + 8 && r % 8 == 0
  {
    (v + 7) - (v + 7) % 8
  }

  lemma AlignedSum(a: nat, b: nat)
    requires a % ALIGN == 0 && b % ALIGN == 0
    ensures (a + b) % ALIGN == 0 && (a - b) % ALIGN == 0
  {
  }

  // Word offsets in aligned objects.
  lemma WordOffset(address: nat, offset: nat)
    requires address % ALIGN == 0
    ensures (address + offset) % 4 == 0 <==> offset % 4 == 0
  {
    var q, k, r := address / 8, offset / 4, offset % 4;
    FourTimes(2 * q + k, r);
    assert address + offset == 4 * (2 * q + k) + r;
  }

  lemma FourTimes(m: nat, r: nat)
    requires r < 4
    ensures (4 * m + r) % 4 == r
  {
  }

  lemma MapPut<K, V>(m: map<K, V>, k: K, v: V)
    ensures m + map[k := v] == m[k := v]
  {
  }
}
