/** Sizes, size classes and chunk records of the stream-ordered arena. */
module ArenaTypes {

  /** Index of a chunk record in the arena's chunk vector; NO_CHUNK is the invalid handle. */
  type Handle = int
  const NO_CHUNK: Handle := -1

  /** Identity of a synchronisation stream; NO_STREAM stands for the null pointer. */
  type Stream = int
  const NO_STREAM: Stream := 0

  const SIZE_MAX: nat := 0xFFFF_FFFF_FFFF_FFFF
  const GRANULE := 256
  const NUM_BINS := 21
  const NO_BIN := -1
  const NOT_ALLOCATED := -1

  datatype Chunk = Chunk(
    size: nat,
    requestedSize: nat,
    allocationId: int,
    ptr: int,
    prev: Handle,
    next: Handle,
    binNum: int,
    stream: Stream
  ) {
    predicate InUse() {
      allocationId != NOT_ALLOCATED
    }

    function End(): int {
      ptr + size
    }
  }

  /** A default-constructed record, as the chunk vector grows by one. */
  const BLANK_CHUNK := Chunk(0, 0, NOT_ALLOCATED, 0, NO_CHUNK, NO_CHUNK, NO_BIN, NO_STREAM)

  datatype ExtendStrategy = NextPowerOfTwo | SameAsRequested

  datatype ArenaConfig = ArenaConfig(
    maxMem: nat,
    extendStrategy: ExtendStrategy,
    initialChunkSizeBytes: int,
    maxDeadBytesPerChunk: int,
    initialGrowthChunkSizeBytes: int,
    maxPowerOfTwoExtendBytes: int
  ) {
    predicate IsValid() {
      && maxMem > 0
      && initialChunkSizeBytes > 0
      && maxDeadBytesPerChunk > 0
      && initialGrowthChunkSizeBytes > 0
      && maxPowerOfTwoExtendBytes > 0
    }

    /** The field widths of the C++ struct: size_t, int and int64_t. */
    predicate InRange() {
      && maxMem <= SIZE_MAX
      && initialChunkSizeBytes < 0x8000_0000
      && maxDeadBytesPerChunk < 0x8000_0000
      && initialGrowthChunkSizeBytes < 0x8000_0000
      && maxPowerOfTwoExtendBytes < 0x8000_0000_0000_0000
    }
  }

  /** Round up to a whole number of granules, in size_t arithmetic that wraps. */
  function RoundedBytes(bytes: nat): (rounded: nat)
    ensures rounded % GRANULE == 0
  {
    GRANULE * (((bytes + GRANULE - 1) % (SIZE_MAX + 1)) / GRANULE)
  }

  /** Rounding covers the request exactly when the addition of 255 does not wrap. */
  lemma RoundedBytesCovers(bytes: nat)
    requires bytes <= SIZE_MAX
    ensures bytes <= RoundedBytes(bytes) <==> bytes + GRANULE - 1 <= SIZE_MAX
    ensures bytes + GRANULE - 1 <= SIZE_MAX ==> RoundedBytes(bytes) < bytes + GRANULE
  {
    var sum := bytes + GRANULE - 1;
    if sum <= SIZE_MAX {
      assert sum % (SIZE_MAX + 1) == sum;
    } else {
      assert sum % (SIZE_MAX + 1) == sum - (SIZE_MAX + 1);
    }
  }

  /** A multiple of the granule is its own rounding. */
  lemma RoundedBytesFixed(bytes: nat)
    requires bytes % GRANULE == 0 && bytes + GRANULE - 1 <= SIZE_MAX
    ensures RoundedBytes(bytes) == bytes
  {
    assert (bytes + GRANULE - 1) % (SIZE_MAX + 1) == bytes + GRANULE - 1;
  }

  /**
   * One step of the backpedalling retry shrinks the request exactly above 2304 bytes, which is
   * why the 8 KiB cut-off is reached before the rounding becomes a fixed point.
   */
  lemma BackpedalShrinks(bytes: nat)
    requires bytes % GRANULE == 0 && 0 < bytes && bytes + GRANULE - 1 <= SIZE_MAX
    ensures RoundedBytes(bytes * 9 / 10) < bytes <==> bytes > 2304
  {
    var n := bytes / GRANULE;
    assert bytes == GRANULE * n;
    var scaled := bytes * 9 / 10;
    assert (scaled + GRANULE - 1) % (SIZE_MAX + 1) == scaled + GRANULE - 1;
  }

  /** A retry that passes the 8 KiB cut-off is strictly smaller than the attempt before it. */
  lemma BackpedalAboveCutoff(bytes: nat, next: nat)
    requires 0 < bytes <= SIZE_MAX && next == RoundedBytes(bytes * 9 / 10) && next >= 8 * 1024
    ensures next < bytes
  {
    var scaled := bytes * 9 / 10;
    assert (scaled + GRANULE - 1) % (SIZE_MAX + 1) == scaled + GRANULE - 1;
  }

  // ---------------------------------------------------------------- size classes

  function Pow2(k: nat): (p: nat)
    ensures p > 0
  {
    if k == 0 then 1 else 2 * Pow2(k - 1)
  }

  /** Position of the highest set bit: the r with Pow2(r) <= n < Pow2(r + 1). */
  function Log2Floor(n: nat): (r: nat)
    requires n > 0
    ensures Pow2(r) <= n < Pow2(r + 1)
  {
    if n == 1 then assert Pow2(1) == 2; 0 else 1 + Log2Floor(n / 2)
  }

  /** The portable loop: count how often n can be halved. */
  method Log2FloorNonZeroSlow(n: nat) returns (result: nat)
    requires n > 0
    ensures result == Log2Floor(n)
  {
    var r: nat, m: nat := 0, n;
    while m > 0
      invariant m > 0 ==> r + Log2Floor(m) == Log2Floor(n)
      invariant m == 0 ==> r == Log2Floor(n) + 1
    {
      r := r + 1;
      m := m / 2;
    }
    result := r - 1;
  }

  function BinNumToSize(index: nat): nat {
    GRANULE * Pow2(index)
  }

  function BinNumForSize(bytes: nat): (b: int)
    ensures 0 <= b < NUM_BINS
  {
    var units := (if bytes < GRANULE then GRANULE else bytes) / GRANULE;
    var log := Log2Floor(units);
    if log < NUM_BINS - 1 then log else NUM_BINS - 1
  }

  lemma Pow2Monotone(a: nat, b: nat)
    requires a <= b
    ensures Pow2(a) <= Pow2(b)
    decreases b
  {
    if a < b {
      Pow2Monotone(a, b - 1);
    }
  }

  /** Log2Floor is the only exponent that brackets n. */
  lemma Log2FloorUnique(n: nat, r: nat)
    requires Pow2(r) <= n < Pow2(r + 1)
    ensures n > 0 && Log2Floor(n) == r
  {
    var l := Log2Floor(n);
    if l < r {
      Pow2Monotone(l + 1, r);
    } else if r < l {
      Pow2Monotone(r + 1, l);
    }
  }

  /** A bin holds exactly the sizes from its own nominal size up to the next bin's. */
  lemma BinBounds(bytes: nat, b: nat)
    requires bytes >= GRANULE && b < NUM_BINS
    ensures BinNumForSize(bytes) == b
       <==> BinNumToSize(b) <= bytes && (b < NUM_BINS - 1 ==> bytes < BinNumToSize(b + 1))
  {
    var units := bytes / GRANULE;
    var l := Log2Floor(units);
    assert Pow2(b + 1) == 2 * Pow2(b);
    if BinNumToSize(b) <= bytes && (b < NUM_BINS - 1 ==> bytes < BinNumToSize(b + 1)) {
      if b < NUM_BINS - 1 {
        Log2FloorUnique(units, b);
      } else if l < b {
        Pow2Monotone(l + 1, b);
      }
    }
    if BinNumForSize(bytes) == b {
      Pow2Monotone(b, l);
    }
  }

  /** Size classes are monotone, so scanning bins upwards scans sizes upwards. */
  lemma BinMonotone(small: nat, large: nat)
    requires small <= large
    ensures BinNumForSize(small) <= BinNumForSize(large)
  {
    var us := (if small < GRANULE then GRANULE else small) / GRANULE;
    var ul := (if large < GRANULE then GRANULE else large) / GRANULE;
    var s, l := Log2Floor(us), Log2Floor(ul);
    if l < s {
      Pow2Monotone(l + 1, s);
    }
  }

  /** The self-checks the arena's constructor runs on every bin never fail. */
  lemma ConstructorBinChecks(b: nat)
    requires b < NUM_BINS
    ensures BinNumForSize(BinNumToSize(b)) == b
    ensures BinNumForSize(BinNumToSize(b) + 255) == b
    ensures BinNumForSize(BinNumToSize(b) * 2 - 1) == b
    ensures b + 1 < NUM_BINS ==> BinNumForSize(BinNumToSize(b) * 2) != b
  {
    assert Pow2(b + 1) == 2 * Pow2(b);
    BinBounds(BinNumToSize(b), b);
    BinBounds(BinNumToSize(b) + 255, b);
    BinBounds(BinNumToSize(b) * 2 - 1, b);
    BinBounds(BinNumToSize(b) * 2, b);
  }
}
