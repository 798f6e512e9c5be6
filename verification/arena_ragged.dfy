/** A run of the arena that loses memory to a region of a size that is no whole number of granules. */
module ArenaRagged {
  import opened ArenaTypes
  import opened Options
  import opened DeviceMemory
  import opened OwnershipIndex
  import opened ArenaTrace
  import opened ArenaBins
  import opened ArenaGrowth
  import opened Arena

  /** The driver gives a block for any ragged size and fails for all others. */
  function RaggedOnly(call: nat, bytes: int): int {
    if bytes % GRANULE != 0 then 4096 else 0
  }

  /** Such a driver grants the first attempt if it is ragged, and otherwise no attempt: the retries never are. */
  lemma RaggedGrant(arena: ArenaImpl, rounded: nat)
    requires arena.CanGrow() && 0 < rounded <= arena.Available()
    requires arena.device.answer == RaggedOnly && arena.device.blocks == map[]
    ensures var first := arena.FirstAttempt(rounded);
            arena.Grant(rounded) == if first % GRANULE != 0 then Some(Block(4096, first)) else None
  {
    arena.GrowthPlan(rounded);
    var first := arena.FirstAttempt(rounded);
    var sizes := Attempts(first, rounded);
    var k := arena.device.FirstGranted(sizes, 0);
    forall i | 0 <= i < |sizes|
      ensures arena.device.GrantsAt(i, sizes[i]) <==> i == 0 && first % GRANULE != 0
    {
      AttemptsShrink(first, rounded, i);
    }
  }

  /**
   * WholeGrowth is exact: under any other configuration there is a run in which the arena throws
   * over a ragged region. No client holds anything, yet bytes stay counted as allocated. All the
   * clients do is to ask for one granule until the growth size has reached its cap.
   */
  method RaggedRun(config: ArenaConfig, implOf: Stream -> Impl) returns (arena: ArenaImpl)
    requires config.IsValid() && config.InRange() && FaithfulImpls(implOf) && !WholeGrowth(config)
    ensures fresh(arena) && arena.Valid() && arena.config == config && arena.implOf == implOf
    ensures arena.trace == Start && arena.device.blocks == map[] && arena.leaked > 0
  {
    hide ArenaImpl.Structure, ArenaImpl.Settled, ArenaImpl.Grant, ArenaImpl.Served, GrownTo, GrowthAfter, Attempts,
         Candidate;
    RaggedAtCap(config);
    var device := new DeviceAllocator(RaggedOnly);
    arena := new ArenaImpl(config, implOf, device);
    arena.GrowthHere();
    ghost var cap := config.maxPowerOfTwoExtendBytes;
    ghost var left := GrowthReachesCap(arena.currRegionAllocationBytes, cap);
    assert RoundedBytes(GRANULE) == GRANULE;
    while arena.stats.totalAllocatedBytes == 0
      invariant arena.Valid() && arena.home == map[] && arena.trace == Start && device.blocks == map[]
      invariant arena.stats.totalAllocatedBytes == 0 ==>
        arena.leaked == 0 && arena.CanGrow() && GrowthAfterMany(arena.currRegionAllocationBytes, cap, left) == cap
      invariant arena.stats.totalAllocatedBytes != 0 ==> arena.leaked > 0
      decreases arena.stats.totalAllocatedBytes == 0, left
    {
      arena.EmptySuitsNothing(GRANULE, 1);
      RaggedGrant(arena, GRANULE);
      arena.GrowthPlan(GRANULE);
      assert left == 0 ==> arena.currRegionAllocationBytes == cap;
      var p := arena.AllocateRawInternal(GRANULE, 1);
      arena.LeakIsCounted();
      arena.GrowthHere();
      left := if left == 0 then 0 else left - 1;
    }
  }
}
