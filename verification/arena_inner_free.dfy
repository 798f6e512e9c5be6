/** A run of the arena in which freeing an address that is no block's frees a block. */
module ArenaInnerFree {
  import opened ArenaTypes
  import opened Options
  import opened DeviceMemory
  import opened OwnershipIndex
  import opened ArenaTrace
  import opened ArenaBins
  import opened ArenaGrowth
  import opened Arena

  /** The driver places any block at 4096. */
  function AlwaysThere(call: nat, bytes: int): int {
    4096
  }

  lemma GrownAlready(start: nat, available: nat)
    requires 0 < start <= SIZE_MAX && start % GRANULE == 0 && available % GRANULE == 0
    ensures GrownTo(start, GRANULE) == start && Min(GrownTo(start, GRANULE), available) % GRANULE == 0
  {
  }

  /** A new arena gets its first region at the first attempt, and the region is a whole number of granules. */
  lemma FirstRegion(arena: ArenaImpl)
    requires arena.CanGrow() && GRANULE <= arena.Available()
    requires arena.device.answer == AlwaysThere && arena.device.blocks == map[]
    requires arena.currRegionAllocationBytes % GRANULE == 0
    ensures arena.Grant(GRANULE).Some? && arena.Grant(GRANULE).value.size % GRANULE == 0
  {
    hide ArenaImpl.Grant, ArenaImpl.FirstAttempt, ArenaImpl.NextGrowth, GrownTo, Attempts;
    arena.GrowthPlan(GRANULE);
    GrownAlready(arena.currRegionAllocationBytes, arena.Available());
    assert arena.device.GrantsAt(0, arena.FirstAttempt(GRANULE));
  }

  /**
   * One byte is allocated at p, p + 1 is freed: that is accepted although no block starts there, and the
   * block at p is not outstanding any more.
   */
  method InnerFreeRun(config: ArenaConfig, implOf: Stream -> Impl) returns (arena: ArenaImpl, p: int, ok: bool)
    requires config.IsValid() && config.InRange() && config.maxMem >= GRANULE && FaithfulImpls(implOf)
    ensures fresh(arena) && arena.Valid() && arena.config == config && ok
    ensures arena.trace.Then? && p in Outstanding(arena.trace.before) && p + 1 !in Outstanding(arena.trace.before)
    ensures arena.trace.last == Freed(p) && p !in Outstanding(arena.trace)
  {
    hide ArenaImpl.Structure, ArenaImpl.Settled, ArenaImpl.Grant, ArenaImpl.Served, ArenaImpl.AnySuits,
         ArenaImpl.FindsInUse, GrownTo, GrowthAfter, Attempts, Candidate, Outstanding;
    var device := new DeviceAllocator(AlwaysThere);
    arena := new ArenaImpl(config, implOf, device);
    arena.GrowthHere();
    assert RoundedBytes(1) == GRANULE;
    arena.EmptySuitsNothing(1, 1);
    FirstRegion(arena);
    ghost var region := arena.Grant(GRANULE).value;
    p := arena.AllocOnStream(1, 1, true);
    ghost var n := arena.ServedLast(Then(Start, Mapped(region.ptr, region.size)), p, 1, 1);
    OnlyBlock(region.ptr, region.size, p, n, 1);
    ghost var h := arena.InsideBlock(p, 1);
    ok := arena.Free(p + 1);
    arena.GoneAfterFree(Then(Then(Start, Mapped(region.ptr, region.size)), Allocated(p, n, 1)), p);
  }

  lemma OnlyBlock(b: int, m: int, p: int, n: int, stream: Stream)
    ensures var trace := Then(Then(Start, Mapped(b, m)), Allocated(p, n, stream));
            p in Outstanding(trace) && p + 1 !in Outstanding(trace)
  {
    assert Outstanding(Then(Start, Mapped(b, m))) == map[];
  }
}
