/** How the size of the next region is chosen, and when it is a whole number of granules. */
module ArenaGrowth {
  import opened ArenaTypes

  function Max(a: int, b: int): int {
    if a < b then b else a
  }

  function Min(a: int, b: int): int {
    if a < b then a else b
  }

  /** The most a region can take: the budget, in whole granules. */
  function Ceiling(maxMem: nat): (limit: nat)
    ensures limit % GRANULE == 0 && limit <= maxMem
  {
    maxMem / GRANULE * GRANULE
  }

  /** A growth size that yields whole granules: a multiple of them, or more than the budget leaves. */
  predicate WholeOrCapped(bytes: nat, maxMem: nat) {
    bytes % GRANULE == 0 || Ceiling(maxMem) <= bytes
  }

  /** Doubling from start until the request fits, capped where doubling would overflow size_t. */
  function GrownTo(start: nat, bytes: nat): nat
    requires 0 < start <= SIZE_MAX
    decreases SIZE_MAX - start
  {
    if bytes <= start then start
    else if start > SIZE_MAX / 2 then SIZE_MAX
    else GrownTo(start * 2, bytes)
  }

  /** The doubled size holds the request, and is less than twice it unless the start held it already. */
  lemma {:induction false} GrownToFits(start: nat, bytes: nat)
    requires 0 < start <= SIZE_MAX && bytes <= SIZE_MAX
    ensures bytes <= GrownTo(start, bytes) <= SIZE_MAX
    ensures start < bytes ==> GrownTo(start, bytes) < 2 * bytes
    decreases SIZE_MAX - start
  {
    if start < bytes && start <= SIZE_MAX / 2 {
      GrownToFits(start * 2, bytes);
    }
  }

  lemma TwiceAsOften(start: nat, k: nat)
    ensures start * Pow2(k + 1) == start * 2 * Pow2(k)
  {
    var p := Pow2(k);
    assert Pow2(k + 1) == 2 * p;
    assert start * (2 * p) == start * 2 * p;
  }

  /**
   * The grown size is the start doubled as often as it takes and no more often, or the largest size_t
   * when the next doubling would overflow.
   */
  lemma {:induction false} GrownToDoubles(start: nat, bytes: nat) returns (k: nat)
    requires 0 < start <= SIZE_MAX
    ensures k > 0 ==> start * Pow2(k - 1) < bytes && start * Pow2(k - 1) <= SIZE_MAX / 2
    ensures if bytes <= start * Pow2(k) then GrownTo(start, bytes) == start * Pow2(k)
            else start * Pow2(k) > SIZE_MAX / 2 && GrownTo(start, bytes) == SIZE_MAX
    decreases SIZE_MAX - start
  {
    k := 0;
    if start < bytes && start <= SIZE_MAX / 2 {
      var l := GrownToDoubles(start * 2, bytes);
      k := l + 1;
      TwiceAsOften(start, l);
      if l > 0 {
        TwiceAsOften(start, l - 1);
      }
    }
  }

  lemma {:induction false} GrownToStaysWhole(start: nat, bytes: nat, maxMem: nat)
    requires 0 < start <= SIZE_MAX && bytes <= SIZE_MAX && maxMem <= SIZE_MAX && WholeOrCapped(start, maxMem)
    ensures WholeOrCapped(GrownTo(start, bytes), maxMem)
    decreases SIZE_MAX - start
  {
    if start < bytes && start <= SIZE_MAX / 2 {
      assert start % GRANULE == 0 ==> start * 2 % GRANULE == 0;
      GrownToStaysWhole(start * 2, bytes, maxMem);
    }
  }

  /** Growing first to one granule and then to the request is growing to the request. */
  lemma {:induction false} GrownToInSteps(start: nat, bytes: nat)
    requires 0 < start <= SIZE_MAX && GRANULE <= bytes <= SIZE_MAX
    ensures 0 < GrownTo(start, GRANULE) <= SIZE_MAX
    ensures GrownTo(GrownTo(start, GRANULE), bytes) == GrownTo(start, bytes)
    decreases SIZE_MAX - start
  {
    GrownToFits(start, GRANULE);
    if start < GRANULE {
      GrownToInSteps(start * 2, bytes);
    }
  }

  /** The growth size after an extension: what the request forced, or one doubling towards the cap. */
  function GrowthAfter(start: nat, bytes: nat, maxExtend: nat): nat
    requires 0 < start <= SIZE_MAX
  {
    var grown := GrownTo(start, bytes);
    if start < bytes && start <= SIZE_MAX / 2 then grown
    else if grown < maxExtend / 2 then grown * 2
    else maxExtend
  }

  /** A growth size from which every request grows to whole granules, or to more than the budget leaves. */
  predicate GrowsWhole(start: nat, maxMem: nat) {
    0 < start <= SIZE_MAX && WholeOrCapped(GrownTo(start, GRANULE), maxMem)
  }

  /** The configurations under which a region size is always a whole number of granules. */
  predicate WholeGrowth(config: ArenaConfig) {
    config.extendStrategy.SameAsRequested? ||
    (config.maxPowerOfTwoExtendBytes >= 0 && GrowsWhole(config.maxPowerOfTwoExtendBytes, config.maxMem))
  }

  lemma GrowsWholeFor(start: nat, bytes: nat, maxMem: nat)
    requires GrowsWhole(start, maxMem) && GRANULE <= bytes <= SIZE_MAX && maxMem <= SIZE_MAX
    ensures WholeOrCapped(GrownTo(start, bytes), maxMem) && GrowsWhole(GrownTo(start, bytes), maxMem)
  {
    GrownToFits(start, GRANULE);
    GrownToInSteps(start, bytes);
    GrownToStaysWhole(GrownTo(start, GRANULE), bytes, maxMem);
    GrownToFits(start, bytes);
  }

  lemma GrowthStaysWhole(start: nat, bytes: nat, maxExtend: nat, maxMem: nat)
    requires GrowsWhole(start, maxMem) && GrowsWhole(maxExtend, maxMem)
    requires GRANULE <= bytes <= SIZE_MAX && maxExtend <= SIZE_MAX && maxMem <= SIZE_MAX
    ensures GrowsWhole(GrowthAfter(start, bytes, maxExtend), maxMem)
  {
    GrowsWholeFor(start, bytes, maxMem);
    var grown := GrownTo(start, bytes);
    GrownToFits(start, bytes);
    assert grown < maxExtend / 2 ==> GrowsWhole(grown * 2, maxMem);
  }

  /** The growth size after k extensions by one granule each. */
  function GrowthAfterMany(start: nat, maxExtend: nat, k: nat): (c: nat)
    requires 0 < start <= SIZE_MAX && 0 < maxExtend <= SIZE_MAX
    ensures 0 < c <= SIZE_MAX
    decreases k
  {
    GrownToFits(start, GRANULE);
    if k == 0 then start else GrowthAfterMany(GrowthAfter(start, GRANULE, maxExtend), maxExtend, k - 1)
  }

  /** Whatever the growth size, enough small extensions bring it to the configured cap. */
  lemma {:induction false} GrowthReachesCap(start: nat, maxExtend: nat) returns (k: nat)
    requires 0 < start <= SIZE_MAX && 0 < maxExtend <= SIZE_MAX / 2
    ensures GrowthAfterMany(start, maxExtend, k) == maxExtend
    decreases start < GRANULE, if start < maxExtend then maxExtend - start else 0
  {
    GrownToFits(start, GRANULE);
    var next := GrowthAfter(start, GRANULE, maxExtend);
    if start < GRANULE {
      var k' := GrowthReachesCap(next, maxExtend);
      k := k' + 1;
    } else if start < maxExtend / 2 {
      var k' := GrowthReachesCap(next, maxExtend);
      k := k' + 1;
    } else {
      k := 1;
      assert GrowthAfterMany(maxExtend, maxExtend, 0) == maxExtend;
    }
  }

  /**
   * Under any other configuration the cap itself is a growth size from which one granule is asked for
   * as a ragged region, as long as nothing is allocated.
   */
  lemma RaggedAtCap(config: ArenaConfig)
    requires config.IsValid() && config.InRange() && !WholeGrowth(config)
    ensures
      var first := Min(GrownTo(config.maxPowerOfTwoExtendBytes, GRANULE), Ceiling(config.maxMem));
      first % GRANULE != 0 && GRANULE <= Ceiling(config.maxMem)
  {
    GrownToFits(config.maxPowerOfTwoExtendBytes, GRANULE);
  }

  /**
   * A cap that is a whole number of granules, or a smaller power of two, is safe, and so is any cap
   * that the budget does not leave room for; 1000 is not, with 1024 bytes or more.
   */
  lemma WholeGrowthExamples(config: ArenaConfig)
    requires config.IsValid() && config.InRange()
    ensures config.maxPowerOfTwoExtendBytes % GRANULE == 0 ==> WholeGrowth(config)
    ensures config.maxPowerOfTwoExtendBytes == 64 ==> WholeGrowth(config)
    ensures config.maxMem <= config.maxPowerOfTwoExtendBytes ==> WholeGrowth(config)
    ensures config.extendStrategy.NextPowerOfTwo? && config.maxPowerOfTwoExtendBytes == 1000 ==>
      (WholeGrowth(config) <==> config.maxMem < 1024)
  {
    GrownToFits(config.maxPowerOfTwoExtendBytes, GRANULE);
    if config.maxPowerOfTwoExtendBytes == 64 {
      assert GrownTo(64, GRANULE) == GrownTo(128, GRANULE) == GrownTo(256, GRANULE) == 256;
    }
    GrownToFromStart(config.maxPowerOfTwoExtendBytes, GRANULE);
  }

  lemma {:induction false} GrownToFromStart(start: nat, bytes: nat)
    requires 0 < start <= SIZE_MAX
    ensures start <= GrownTo(start, bytes)
    decreases SIZE_MAX - start
  {
    if start < bytes && start <= SIZE_MAX / 2 {
      GrownToFromStart(start * 2, bytes);
    }
  }

  /**
   * The sizes asked of the device, one after the other, until one is granted: each retry is nine tenths
   * of the last attempt, rounded up, as long as that holds the request and is at least 8 KiB.
   */
  ghost function Attempts(bytes: nat, rounded: nat): (sizes: seq<nat>)
    requires 0 < bytes <= SIZE_MAX
    ensures |sizes| > 0 && sizes[0] == bytes
    decreases bytes
  {
    var next := RoundedBytes(bytes * 9 / 10);
    if next < rounded || next < 8 * 1024 then [bytes]
    else
      BackpedalAboveCutoff(bytes, next);
      [bytes] + Attempts(next, rounded)
  }

  /** One more retry is worth it after an attempt at this size. */
  ghost predicate Retries(bytes: nat, rounded: nat) {
    rounded <= RoundedBytes(bytes * 9 / 10) && 8 * 1024 <= RoundedBytes(bytes * 9 / 10)
  }

  /**
   * Each attempt but the first is the retry of the one before it, is smaller, and is a whole number of
   * granules that holds the request; there is a next attempt exactly if a retry is worth it.
   */
  lemma {:induction false} AttemptsShrink(bytes: nat, rounded: nat, i: nat)
    requires 0 < bytes <= SIZE_MAX && i < |Attempts(bytes, rounded)|
    ensures var sizes := Attempts(bytes, rounded);
            && 0 < sizes[i] <= bytes && (i + 1 < |sizes| <==> Retries(sizes[i], rounded))
            && (i + 1 < |sizes| ==> sizes[i + 1] == RoundedBytes(sizes[i] * 9 / 10) < sizes[i])
            && (i > 0 ==> sizes[i] % GRANULE == 0 && rounded <= sizes[i] && 8 * 1024 <= sizes[i] < bytes)
    decreases i
  {
    var next := RoundedBytes(bytes * 9 / 10);
    if !(next < rounded || next < 8 * 1024) {
      BackpedalAboveCutoff(bytes, next);
      assert Attempts(bytes, rounded)[1..] == Attempts(next, rounded);
      if i > 0 {
        AttemptsShrink(next, rounded, i - 1);
      }
    }
  }
}
