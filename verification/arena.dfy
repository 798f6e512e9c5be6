/**
 * The stream-ordered best-fit-with-coalescing arena. Every public operation runs under the arena's
 * lock from start to end, so it is modelled as one sequential method.
 */
module Arena {
  import opened ArenaTypes
  import opened Options
  import opened DeviceMemory
  import opened OwnershipIndex
  import opened Regions
  import opened ArenaTrace
  import opened ArenaLayout
  import opened ArenaBins
  import opened ArenaRecords
  import opened ArenaSteps
  import opened ArenaAccounts
  import opened ArenaHistory
  import opened ArenaPolicy
  import opened ArenaGrowth

  datatype Stats = Stats(
    totalAllocatedBytes: int,
    bytesInUse: int,
    maxBytesInUse: int,
    maxAllocSize: int,
    numAllocs: int,
    numReserves: int,
    numArenaExtensions: int,
    numArenaShrinkages: int
  )

  /** Memory from the device. */
  datatype Block = Block(ptr: int, size: nat)

  /** A new region was entered, the request cannot be met, or an internal check threw. */
  datatype ExtendResult = Extended | Refused | Threw

  /** The counters count exactly the regions, the reserved blocks and the in-use chunks. */
  ghost predicate Balanced(stats: Stats, spans: map<int, int>, reserved: map<int, int>, inUse: map<Handle, int>,
                           leaked: int, maxMem: int) {
    && stats.totalAllocatedBytes == MapSum(spans) + MapSum(reserved) + leaked
    && 0 <= leaked && stats.totalAllocatedBytes <= maxMem
    && stats.bytesInUse == MapSum(inUse) + MapSum(reserved)
    && stats.bytesInUse <= stats.maxBytesInUse
    && stats.numArenaExtensions == |spans|
  }

  lemma BalancedAfterRegion(stats: Stats, spans: map<int, int>, reserved: map<int, int>, inUse: map<Handle, int>,
                            inUse': map<Handle, int>, leaked: int, maxMem: int, b: int, n: int)
    requires Balanced(stats, spans, reserved, inUse, leaked, maxMem) && stats.totalAllocatedBytes + n <= maxMem
    requires b !in spans && MapSum(inUse') == MapSum(inUse)
    ensures Balanced(stats.(totalAllocatedBytes := stats.totalAllocatedBytes + n,
                            numArenaExtensions := stats.numArenaExtensions + 1),
                     spans[b := n], reserved, inUse', leaked, maxMem)
  {
    MapSumInsert(spans, b, n);
    MapSizeInsert(spans, b, n);
  }

  lemma BalancedAfterShrink(stats: Stats, spans: map<int, int>, reserved: map<int, int>, inUse: map<Handle, int>,
                            leaked: int, maxMem: int, b: int)
    requires Balanced(stats, spans, reserved, inUse, leaked, maxMem) && b in spans && spans[b] > 0
    ensures Balanced(stats.(totalAllocatedBytes := stats.totalAllocatedBytes - spans[b],
                            numArenaExtensions := stats.numArenaExtensions - 1,
                            numArenaShrinkages := stats.numArenaShrinkages + 1),
                     spans - {b}, reserved, inUse, leaked, maxMem)
  {
    MapSumRemove(spans, b);
    MapSizeRemove(spans, b);
  }

  lemma BalancedAfterLeak(stats: Stats, spans: map<int, int>, reserved: map<int, int>, inUse: map<Handle, int>,
                          leaked: int, maxMem: int, n: int)
    requires Balanced(stats, spans, reserved, inUse, leaked, maxMem) && n >= 0
    requires stats.totalAllocatedBytes + n <= maxMem
    ensures Balanced(stats.(totalAllocatedBytes := stats.totalAllocatedBytes + n), spans, reserved, inUse, leaked + n,
                     maxMem)
  {
  }

  class ArenaImpl {
    const config: ArenaConfig
    const implOf: Stream -> Impl
    const device: DeviceAllocator
    const regionManager: RegionManager
    const ownershipIndex: ArenaOwnershipIndex

    var currRegionAllocationBytes: nat
    var nextAllocationId: int
    var chunks: seq<Chunk>
    var freeChunksList: Handle
    var reservedChunks: map<int, int>
    var bins: seq<seq<Handle>>
    var stats: Stats

    /** Region of every live chunk, recycled records in list order, and the events so far. */
    ghost var home: map<Handle, int>
    ghost var recycled: seq<Handle>
    ghost var trace: Trace

    /** Bytes counted as allocated for blocks that were given back because no region took them. */
    ghost var leaked: int

    /** What holds between any two primitive steps, for chunk records cs. */
    ghost predicate StructureOn(cs: seq<Chunk>)
      reads this`home, this`bins, this`freeChunksList, this`recycled, regionManager, ownershipIndex
    {
      && FaithfulImpls(implOf)
      && regionManager.Valid()
      && ownershipIndex.Valid(implOf)
      && Layout(cs, home, regionManager.spans, NO_CHUNK)
      && SlotsAgree(cs, home, regionManager.slots)
      && BinsOk(cs, home, bins)
      && RecordsOk(cs, home.Keys, freeChunksList, recycled)
      && OwnersAgree(cs, ownershipIndex.owner)
    }

    ghost predicate Structure()
      reads this`chunks, this`home, this`bins, this`freeChunksList, this`recycled, regionManager, ownershipIndex
    {
      StructureOn(chunks)
    }

    /** The structure while a region is being dismantled from the front: orphan is its first chunk left. */
    ghost predicate Dismantling(orphan: Handle)
      reads this`chunks, this`home, this`bins, this`freeChunksList, this`recycled, regionManager, ownershipIndex
    {
      && FaithfulImpls(implOf)
      && regionManager.Valid()
      && ownershipIndex.Valid(implOf)
      && Layout(chunks, home, regionManager.spans, orphan)
      && SlotsAgree(chunks, home, regionManager.slots)
      && BinsOk(chunks, home, bins)
      && RecordsOk(chunks, home.Keys, freeChunksList, recycled)
      && OwnersAgree(chunks, ownershipIndex.owner)
    }

    ghost function ThisIndex(): Index
      reads this`home, this`bins, this`freeChunksList, this`recycled, regionManager, ownershipIndex
    {
      Index(home, regionManager.spans, regionManager.slots, bins, freeChunksList, recycled, ownershipIndex.owner)
    }

    ghost function ThisBooks(spans: map<int, int>, blocks: map<int, int>): Books
      reads this`reservedChunks, this`trace
    {
      Books(spans, reservedChunks, blocks, trace, implOf, config.maxDeadBytesPerChunk)
    }

    lemma StructureHere()
      requires StructureOn(chunks)
      ensures Structure()
    {
    }

    /** Counters, and the growth size the next extension starts from. */
    ghost predicate Accounts(cs: seq<Chunk>, home: map<Handle, int>, spans: map<int, int>)
      reads this`stats, this`reservedChunks, this`leaked, this`nextAllocationId, this`currRegionAllocationBytes
    {
      && config.IsValid() && config.InRange()
      && nextAllocationId > 0
      && 0 < currRegionAllocationBytes <= SIZE_MAX
      && (WholeGrowth(config) ==>
            leaked == 0
            && (config.extendStrategy.NextPowerOfTwo? ==> GrowsWhole(currRegionAllocationBytes, config.maxMem)))
      && Balanced(stats, spans, reservedChunks, InUseSizes(cs, home), leaked, config.maxMem)
    }

    /** Everything a client, the device or the counters can tell about the given chunks and regions. */
    ghost predicate Ledger(cs: seq<Chunk>, home: map<Handle, int>, spans: map<int, int>, blocks: map<int, int>)
      reads this`stats, this`trace, this`reservedChunks, this`leaked, this`nextAllocationId,
            this`currRegionAllocationBytes
    {
      && AllTight(cs, home, config.maxDeadBytesPerChunk)
      && BlocksAgree(blocks, spans, reservedChunks)
      && HistoryAgrees(cs, home, spans, reservedChunks, trace, implOf)
      && Accounts(cs, home, spans)
    }

    /** What holds between operations, beside the structure. */
    ghost predicate Settled()
      reads this, device, regionManager
    {
      && FreeAreBinned(chunks, home, NO_CHUNK)
      && FirstChunks(home, regionManager.spans, regionManager.slots)
      && Coalesced(chunks, home)
      && Ledger(chunks, home, regionManager.spans, device.blocks)
    }

    ghost predicate Valid()
      reads this, device, regionManager, ownershipIndex
    {
      Structure() && Settled()
    }

    /** The arena owns its device allocator, which has handed out nothing yet. */
    constructor (config: ArenaConfig, implOf: Stream -> Impl, device: DeviceAllocator)
      requires config.IsValid() && config.InRange() && FaithfulImpls(implOf)
      requires device.blocks == map[]
      ensures Valid() && trace == Start && home == map[] && leaked == 0 && stats.totalAllocatedBytes == 0
      ensures this.config == config && this.implOf == implOf && this.device == device
      ensures currRegionAllocationBytes == RoundedBytes(Min(config.maxMem, config.initialChunkSizeBytes))
      ensures reservedChunks == map[]
      ensures fresh(regionManager) && fresh(ownershipIndex)
    {
      this.config := config;
      this.implOf := implOf;
      this.device := device;
      regionManager := new RegionManager();
      ownershipIndex := new ArenaOwnershipIndex(implOf);
      currRegionAllocationBytes := RoundedBytes(Min(config.maxMem, config.initialChunkSizeBytes));
      nextAllocationId := 1;
      chunks := [];
      freeChunksList := NO_CHUNK;
      reservedChunks := map[];
      bins := seq(NUM_BINS, _ => []);
      stats := Stats(0, 0, 0, 0, 0, 0, 0, 0);
      home := map[];
      recycled := [];
      trace := Start;
      leaked := 0;
      new;
      RoundedBytesCovers(Min(config.maxMem, config.initialChunkSizeBytes));
      StartsStructured();
      StartsSettled();
      hide Structure, Settled;
    }

    lemma StartsStructured()
      requires FaithfulImpls(implOf) && regionManager.Valid() && ownershipIndex.Valid(implOf)
      requires regionManager.spans == map[] && regionManager.slots == map[] && ownershipIndex.owner == map[]
      requires chunks == [] && home == map[] && recycled == [] && freeChunksList == NO_CHUNK
      requires bins == seq(NUM_BINS, _ => [])
      ensures Structure()
    {
    }

    lemma StartsSettled()
      requires config.IsValid() && config.InRange() && device.blocks == map[]
      requires regionManager.spans == map[] && regionManager.slots == map[] && reservedChunks == map[]
      requires chunks == [] && home == map[] && trace == Start && leaked == 0
      requires stats == Stats(0, 0, 0, 0, 0, 0, 0, 0) && nextAllocationId == 1
      requires 0 < currRegionAllocationBytes <= SIZE_MAX && currRegionAllocationBytes % GRANULE == 0
      ensures Settled()
    {
      assert InUseSizes(chunks, home) == map[];
    }

    // ---------------------------------------------------------------- chunk records

    /** Take a record off the free list, or grow the vector by one. */
    method AllocateChunk() returns (h: Handle)
      requires RecordsOk(chunks, home.Keys, freeChunksList, recycled)
      modifies this`chunks, this`freeChunksList, this`recycled
      ensures 0 <= h < |chunks| && h !in home && Idle(chunks[h]) && |old(chunks)| <= |chunks|
      ensures forall g :: 0 <= g < |old(chunks)| ==> chunks[g] == old(chunks)[g]
      ensures forall g :: |old(chunks)| <= g < |chunks| ==> Idle(chunks[g])
      ensures RecordsOk(chunks, home.Keys + {h}, freeChunksList, recycled)
    {
      if freeChunksList != NO_CHUNK {
        PopRecord(chunks, home.Keys, freeChunksList, recycled);
        h := freeChunksList;
        freeChunksList := chunks[h].next;
        recycled := recycled[1..];
      } else {
        GrowRecords(chunks, home.Keys, freeChunksList, recycled);
        h := |chunks|;
        chunks := chunks + [BLANK_CHUNK];
      }
    }

    /** The only way an owner changes: the record and the index move together. */
    method SetChunkStream(h: Handle, stream: Stream)
      requires FaithfulImpls(implOf) && ownershipIndex.Valid(implOf)
      requires OwnersAgree(chunks, ownershipIndex.owner) && 0 <= h < |chunks|
      modifies this`chunks, ownershipIndex
      ensures ownershipIndex.Valid(implOf)
      ensures OwnersAgree(chunks, ownershipIndex.owner)
      ensures chunks == old(chunks)[h := old(chunks)[h].(stream := stream)]
    {
      var oldStream := chunks[h].stream;
      var oldImpl := if oldStream == NO_STREAM then NO_IMPL else implOf(oldStream);
      var newImpl := if stream == NO_STREAM then NO_IMPL else implOf(stream);
      ghost var owner := ownershipIndex.owner;
      assert oldStream != NO_STREAM ==> Owns(owner, oldStream, h);
      var result := ownershipIndex.Assign(h, oldStream, oldImpl, stream, newImpl, implOf);
      assert result == Assigned;
      OwnersAfterAssign(chunks, owner, h, stream);
      chunks := chunks[h := chunks[h].(stream := stream)];
    }

    /** Return a live record to the free list, without an owner. */
    method DeallocateChunk(h: Handle)
      requires FaithfulImpls(implOf) && ownershipIndex.Valid(implOf)
      requires OwnersAgree(chunks, ownershipIndex.owner)
      requires RecordsOk(chunks, home.Keys, freeChunksList, recycled)
      requires h in home && 0 <= h < |chunks| && !chunks[h].InUse() && chunks[h].binNum == NO_BIN
      modifies this`chunks, this`freeChunksList, this`recycled, this`home, ownershipIndex
      ensures ownershipIndex.Valid(implOf)
      ensures OwnersAgree(chunks, ownershipIndex.owner)
      ensures RecordsOk(chunks, home.Keys, freeChunksList, recycled)
      ensures home == old(home) - {h}
      ensures chunks == old(chunks)[h := old(chunks)[h].(stream := NO_STREAM, next := old(freeChunksList))]
    {
      ghost var before := chunks;
      SetChunkStream(h, NO_STREAM);
      RecordsFrame(before, chunks, home.Keys, freeChunksList, recycled);
      PushRecord(chunks, home.Keys, freeChunksList, recycled, h);
      ghost var middle := chunks;
      chunks := chunks[h := chunks[h].(next := freeChunksList)];
      OwnersFrame(middle, chunks, ownershipIndex.owner);
      freeChunksList := h;
      recycled := [h] + recycled;
      home := home - {h};
      assert home.Keys == old(home.Keys) - {h};
    }

    /** Clear the chunk's slot and recycle its record. */
    method DeleteChunk(h: Handle)
      requires FaithfulImpls(implOf) && regionManager.Valid() && ownershipIndex.Valid(implOf)
      requires OwnersAgree(chunks, ownershipIndex.owner)
      requires RecordsOk(chunks, home.Keys, freeChunksList, recycled)
      requires h in home && 0 <= h < |chunks| && !chunks[h].InUse() && chunks[h].binNum == NO_BIN
      requires SpanCovers(regionManager.spans, Base(home, h), chunks[h].ptr)
      requires (chunks[h].ptr - Base(home, h)) % GRANULE == 0
      modifies this`chunks, this`freeChunksList, this`recycled, this`home, regionManager, ownershipIndex
      ensures regionManager.Valid() && ownershipIndex.Valid(implOf)
      ensures OwnersAgree(chunks, ownershipIndex.owner)
      ensures RecordsOk(chunks, home.Keys, freeChunksList, recycled)
      ensures home == old(home) - {h}
      ensures chunks == old(chunks)[h := old(chunks)[h].(stream := NO_STREAM, next := old(freeChunksList))]
      ensures regionManager.spans == old(regionManager.spans)
      ensures regionManager.slots == old(regionManager.slots)[old(chunks)[h].ptr := NO_CHUNK]
      ensures SameRegions(old(regionManager.regions), regionManager.regions)
    {
      GranuleStartExact(Base(home, h), chunks[h].ptr);
      var ok := regionManager.Erase(chunks[h].ptr);
      assert ok;
      DeallocateChunk(h);
    }

    // ---------------------------------------------------------------- bins

    method InsertFreeChunkIntoBin(h: Handle)
      requires Structure() && h in home && !chunks[h].InUse() && chunks[h].binNum == NO_BIN
      modifies this`chunks, this`bins
      ensures Structure()
      ensures chunks == old(chunks)[h := old(chunks)[h].(binNum := BinNumForSize(old(chunks)[h].size))]
    {
      var b := BinNumForSize(chunks[h].size);
      ghost var before := chunks;
      assert forall i :: 0 <= i < |bins[b]| ==> InBin(bins, b, bins[b][i]);
      var pos := LowerBound(chunks, bins[b], h);
      InsertKeepsBins(chunks, home, bins, h, pos);
      bins := bins[b := bins[b][..pos] + [h] + bins[b][pos..]];
      chunks := chunks[h := chunks[h].(binNum := b)];
      BinWriteKeeps(before, NO_CHUNK, h, b);
    }

    /** Erase the element an iterator points at. */
    method RemoveFreeChunkIterFromBin(b: nat, pos: nat)
      requires BinsOk(chunks, home, bins) && b < |bins| && pos < |bins[b]|
      modifies this`chunks, this`bins
      ensures BinsOk(chunks, home, bins)
      ensures old(bins[b][pos] in home && 0 <= bins[b][pos] < |chunks| && !chunks[bins[b][pos]].InUse())
      ensures var h := old(bins[b][pos]);
              chunks == old(chunks)[h := old(chunks)[h].(binNum := NO_BIN)]
      ensures old(Structure()) ==> Structure()
    {
      var h := bins[b][pos];
      assert InBin(bins, b, h);
      ghost var before := chunks;
      RemoveKeepsBins(chunks, home, bins, b, pos);
      bins := bins[b := bins[b][..pos] + bins[b][pos + 1..]];
      chunks := chunks[h := chunks[h].(binNum := NO_BIN)];
      if old(Structure()) {
        BinWriteKeeps(before, NO_CHUNK, h, NO_BIN);
      }
    }

    /** Find the chunk by its size and address, and erase it: it is always there. */
    method RemoveFreeChunkFromBin(h: Handle)
      requires BinsOk(chunks, home, bins) && h in home && 0 <= h < |chunks| && !chunks[h].InUse()
      requires chunks[h].binNum != NO_BIN
      modifies this`chunks, this`bins
      ensures BinsOk(chunks, home, bins)
      ensures chunks == old(chunks)[h := old(chunks)[h].(binNum := NO_BIN)]
      ensures old(Structure()) ==> Structure()
    {
      hide Structure;
      var b := chunks[h].binNum;
      assert InBin(bins, b, h);
      assert forall i :: 0 <= i < |bins[b]| ==> InBin(bins, b, bins[b][i]);
      var pos := LowerBound(chunks, bins[b], h);
      ErasePosition(chunks, bins[b], h, pos);
      RemoveFreeChunkIterFromBin(b, pos);
    }

    /** A bin number is no part of any other invariant. */
    lemma BinWriteKeeps(before: seq<Chunk>, orphan: Handle, h: Handle, b: int)
      requires Layout(before, home, regionManager.spans, orphan) && SlotsAgree(before, home, regionManager.slots)
      requires RecordsOk(before, home.Keys, freeChunksList, recycled) && OwnersAgree(before, ownershipIndex.owner)
      requires h in home && 0 <= h < |before| && chunks == before[h := before[h].(binNum := b)]
      ensures Layout(chunks, home, regionManager.spans, orphan) && SlotsAgree(chunks, home, regionManager.slots)
      ensures RecordsOk(chunks, home.Keys, freeChunksList, recycled) && OwnersAgree(chunks, ownershipIndex.owner)
    {
      LayoutFrame(before, chunks, home, regionManager.spans, orphan);
      SlotsFrame(before, chunks, home, regionManager.slots);
      RecordsFrame(before, chunks, home.Keys, freeChunksList, recycled);
      OwnersFrame(before, chunks, ownershipIndex.owner);
    }

    // ---------------------------------------------------------------- split and merge

    /** The record writes of a split: h is cut, k takes the tail and h's successor. */
    method LinkSplit(h: Handle, k: Handle, numBytes: nat)
      requires 0 <= h < |chunks| && 0 <= k < |chunks| && h != k && numBytes <= chunks[h].size
      requires chunks[h].next != NO_CHUNK ==>
        0 <= chunks[h].next < |chunks| && chunks[h].next != h && chunks[h].next != k
      modifies this`chunks
      ensures LinkedSplit(old(chunks), chunks, h, k, numBytes)
    {
      chunks := chunks[k := chunks[k].(ptr := chunks[h].ptr + numBytes, size := chunks[h].size - numBytes)];
      chunks := chunks[h := chunks[h].(size := numBytes)];
      var neighbor := chunks[h].next;
      chunks := chunks[k := chunks[k].(allocationId := NOT_ALLOCATED, prev := h, next := neighbor)];
      chunks := chunks[h := chunks[h].(next := k)];
      if neighbor != NO_CHUNK {
        chunks := chunks[neighbor := chunks[neighbor].(prev := k)];
      }
    }

    /** A record for the tail of h, already under h's owner but in no region yet. */
    method NewTail(h: Handle) returns (k: Handle)
      requires Structure() && h in home && 0 <= h < |chunks|
      modifies this`chunks, this`freeChunksList, this`recycled, ownershipIndex
      ensures ownershipIndex.Valid(implOf) && OwnersAgree(chunks, ownershipIndex.owner)
      ensures RecordsOk(chunks, home.Keys + {k}, freeChunksList, recycled)
      ensures TailReady(old(chunks), chunks, home, h, k)
    {
      ghost var before := chunks;
      hide Layout, SlotsAgree, BinsOk, RecordsOk, OwnersAgree, FaithfulImpls, Consistent, Tables;
      k := AllocateChunk();
      OwnersFrame(before, chunks, ownershipIndex.owner);
      ghost var grown := chunks;
      SetChunkStream(k, chunks[h].stream);
      RecordsFrame(grown, chunks, home.Keys + {k}, freeChunksList, recycled);
    }

    lemma TailLinks(before: seq<Chunk>, owned: seq<Chunk>, home0: map<Handle, int>, spans: map<int, int>, h: Handle,
                    k: Handle)
      requires Placed(before, home0, spans, NO_CHUNK, h) && TailReady(before, owned, home0, h, k)
      ensures 0 <= h < |owned| && 0 <= k < |owned| && h != k && owned[h] == before[h]
      ensures owned[h].next != NO_CHUNK ==> 0 <= owned[h].next < |owned| && owned[h].next != h && owned[h].next != k
    {
    }

    /** All of a split but the binning of the tail. */
    method CutTail(h: Handle, numBytes: nat) returns (k: Handle)
      requires Structure() && h in home && !chunks[h].InUse() && chunks[h].binNum == NO_BIN
      requires 0 < numBytes < chunks[h].size && numBytes % GRANULE == 0
      modifies this`chunks, this`freeChunksList, this`recycled, this`home, regionManager, ownershipIndex
      ensures Structure()
      ensures k !in old(home) && home == old(home)[k := Base(old(home), h)]
      ensures SplitOf(old(chunks), chunks, old(home), h, k, numBytes)
      ensures SplitRecords(old(chunks), chunks, old(home), h, k, numBytes)
      ensures !chunks[k].InUse() && chunks[k].binNum == NO_BIN
      ensures regionManager.spans == old(regionManager.spans)
      ensures regionManager.slots == old(regionManager.slots)[chunks[k].ptr := k]
      ensures SameRegions(old(regionManager.regions), regionManager.regions)
    {
      ghost var before, was := chunks, home;
      hide Layout, SlotsAgree, BinsOk, RecordsOk, OwnersAgree, FaithfulImpls, Consistent, Tables, SameRegions,
           SplitRecords,
           SplitOf, Placed;
      PlacedHere(h);
      k := NewTail(h);
      assert !chunks[h].InUse() && chunks[h].binNum == NO_BIN;
      ghost var owned := chunks;
      TailLinks(before, owned, home, regionManager.spans, h, k);
      hide LinkedSplit;
      LinkSplit(h, k, numBytes);
      TailInRegion(before, owned, chunks, home, regionManager.spans, h, k, numBytes);
      var ok := regionManager.SetHandle(chunks[k].ptr, k);
      assert ok;
      home := home[k := Base(was, h)];
      SplitRestores(before, owned, chunks, ThisIndex().(home := was, slots := old(regionManager.slots)), h, k,
                    numBytes);
    }

    /** Cut a free, unbinned chunk to numBytes; the tail becomes a binned chunk of the same owner. */
    method SplitChunk(h: Handle, numBytes: nat) returns (ghost k: Handle)
      requires Structure() && h in home && !chunks[h].InUse() && chunks[h].binNum == NO_BIN
      requires 0 < numBytes < chunks[h].size && numBytes % GRANULE == 0
      modifies this`chunks, this`freeChunksList, this`recycled, this`home, this`bins, regionManager, ownershipIndex
      ensures Structure()
      ensures k !in old(home) && home == old(home)[k := Base(old(home), h)]
      ensures SplitOf(old(chunks), chunks, old(home), h, k, numBytes)
      ensures SplitRecords(old(chunks), chunks, old(home), h, k, numBytes)
      ensures !chunks[k].InUse() && chunks[k].binNum != NO_BIN
      ensures regionManager.spans == old(regionManager.spans)
      ensures regionManager.slots == old(regionManager.slots)[chunks[k].ptr := k]
      ensures SameRegions(old(regionManager.regions), regionManager.regions)
    {
      var newChunk := CutTail(h, numBytes);
      k := newChunk;
      hide Structure, SameRegions;
      InsertFreeChunkIntoBin(newChunk);
    }

    /** The record writes of a merge, up to the removal of h2. */
    method LinkMerge(h1: Handle, h2: Handle)
      requires 0 <= h1 < |chunks| && 0 <= h2 < |chunks| && h1 != h2 && chunks[h2].prev == h1
      requires chunks[h2].next != NO_CHUNK ==>
        0 <= chunks[h2].next < |chunks| && chunks[h2].next != h1 && chunks[h2].next != h2
      modifies this`chunks
      ensures LinkedMerge(old(chunks), chunks, h1, h2)
    {
      var h3 := chunks[h2].next;
      chunks := chunks[h1 := chunks[h1].(next := h3)];
      assert chunks[h2].prev == h1;
      if h3 != NO_CHUNK {
        chunks := chunks[h3 := chunks[h3].(prev := h1)];
      }
      chunks := chunks[h1 := chunks[h1].(size := chunks[h1].size + chunks[h2].size)];
    }

    /** Join a free, unbinned chunk with its free, unbinned successor of the same owner. */
    method Merge(h1: Handle, h2: Handle)
      requires Structure() && h1 in home && h2 in home && h1 != h2 && chunks[h1].next == h2
      requires CanMerge(chunks[h1], chunks[h2]) && chunks[h1].binNum == NO_BIN && chunks[h2].binNum == NO_BIN
      modifies this`chunks, this`freeChunksList, this`recycled, this`home, regionManager, ownershipIndex
      ensures Structure()
      ensures home == old(home) - {h2} && |chunks| == |old(chunks)|
      ensures MergeOf(old(chunks), chunks, old(home), h1, h2)
      ensures MergeRecords(old(chunks), chunks, old(home), h1, h2)
      ensures regionManager.spans == old(regionManager.spans)
      ensures regionManager.slots == old(regionManager.slots)[old(chunks)[h2].ptr := NO_CHUNK]
      ensures SameRegions(old(regionManager.regions), regionManager.regions)
    {
      ghost var before, was := chunks, home;
      hide Layout, SlotsAgree, BinsOk, RecordsOk, OwnersAgree, FaithfulImpls, Consistent, Tables, SameRegions, MergeOf,
           MergeRecords;
      PlacedHere(h1);
      PlacedHere(h2);
      LinkMerge(h1, h2);
      RecordsFrame(before, chunks, home.Keys, freeChunksList, recycled);
      OwnersFrame(before, chunks, ownershipIndex.owner);
      ghost var linked := chunks;
      DeleteChunk(h2);
      MergeRestores(before, linked, chunks, was, regionManager.spans, old(regionManager.slots), bins, h1, h2);
    }

    /** Take whichever of two mergeable neighbours is binned out of its bin, and merge them. */
    method Join(h1: Handle, h2: Handle, binned: Handle)
      requires Structure() && h1 in home && h2 in home && h1 != h2 && chunks[h1].next == h2
      requires CanMerge(chunks[h1], chunks[h2]) && (binned == h1 || binned == h2)
      requires FreeAreBinned(chunks, home, if binned == h1 then h2 else h1)
      requires chunks[if binned == h1 then h2 else h1].binNum == NO_BIN
      modifies this`chunks, this`freeChunksList, this`recycled, this`home, this`bins, regionManager, ownershipIndex
      ensures Structure()
      ensures home == old(home) - {h2} && |chunks| == |old(chunks)| && 0 <= h1 < |chunks|
      ensures chunks[h1] == old(chunks)[h1].(size := chunks[h1].size, next := chunks[h1].next, binNum := NO_BIN)
      ensures chunks[h1].End() == old(chunks)[h2].End()
      ensures FreeAreBinned(chunks, home, h1)
      ensures Quiet(old(chunks), chunks, old(home), home)
      ensures forall p :: Seam(chunks, home, p) ==> Seam(old(chunks), old(home), p) && p != old(chunks)[h2].ptr
      ensures regionManager.spans == old(regionManager.spans)
      ensures regionManager.slots == old(regionManager.slots)[old(chunks)[h2].ptr := NO_CHUNK]
      ensures SameRegions(old(regionManager.regions), regionManager.regions)
    {
      ghost var before, was := chunks, home;
      hide Structure, Quiet, Seam, Layout, FreeAreBinned, MergeOf, MergeRecords, SameRegions;
      PlacedHere(h1);
      PlacedHere(h2);
      LayoutHere();
      BinnedHere(h1, h2, binned);
      BinsOfStructure();
      RemoveFreeChunkFromBin(binned);
      LayoutHere();
      ghost var out := chunks;
      Merge(h1, h2);
      LayoutHere();
      JoinIsQuiet(before, out, chunks, was, regionManager.spans, h1, h2, binned);
      Joined(before, out, was, h1, h2, binned);
    }

    lemma BinsOfStructure()
      requires Structure()
      ensures BinsOk(chunks, home, bins)
    {
    }

    lemma PlacedHere(h: Handle)
      requires Structure() && h in home
      ensures 0 <= h < |chunks| && Placed(chunks, home, regionManager.spans, NO_CHUNK, h)
    {
      PlacedAt(chunks, home, regionManager.spans, NO_CHUNK, h);
    }

    lemma BinnedHere(h1: Handle, h2: Handle, binned: Handle)
      requires h1 in home && h2 in home && 0 <= h1 < |chunks| && 0 <= h2 < |chunks| && h1 != h2
      requires CanMerge(chunks[h1], chunks[h2]) && (binned == h1 || binned == h2)
      requires FreeAreBinned(chunks, home, if binned == h1 then h2 else h1)
      ensures chunks[binned].binNum != NO_BIN
    {
    }

    /** The surviving record of a join, and the bins of everything else. */
    lemma Joined(before: seq<Chunk>, out: seq<Chunk>, was: map<Handle, int>, h1: Handle, h2: Handle, binned: Handle)
      requires Layout(before, was, regionManager.spans, NO_CHUNK) && h1 in was && h2 in was && h1 != h2
      requires FreeAreBinned(before, was, if binned == h1 then h2 else h1) && (binned == h1 || binned == h2)
      requires 0 <= binned < |before| && out == before[binned := before[binned].(binNum := NO_BIN)]
      requires 0 <= h1 < |before| && 0 <= h2 < |before|
      requires before[if binned == h1 then h2 else h1].binNum == NO_BIN
      requires MergeOf(out, chunks, was, h1, h2) && MergeRecords(out, chunks, was, h1, h2) && home == was - {h2}
      ensures |chunks| == |before|
      ensures chunks[h1] == before[h1].(size := chunks[h1].size, next := chunks[h1].next, binNum := NO_BIN)
      ensures chunks[h1].End() == before[h2].End()
      ensures FreeAreBinned(chunks, home, h1)
    {
      assert Placed(before, was, regionManager.spans, NO_CHUNK, h1);
    }

    /** Absorb the successor of a free chunk in hand, if owners agree. */
    method CoalesceNext(h: Handle)
      requires Structure() && h in home && 0 <= h < |chunks| && !chunks[h].InUse() && chunks[h].binNum == NO_BIN
      requires FreeAreBinned(chunks, home, h) && FirstChunks(home, regionManager.spans, regionManager.slots)
      modifies this`chunks, this`freeChunksList, this`recycled, this`home, this`bins, regionManager, ownershipIndex
      ensures Structure() && h in home && |chunks| == |old(chunks)| && Base(home, h) == Base(old(home), h)
      ensures chunks[h] == old(chunks)[h].(size := chunks[h].size, next := chunks[h].next)
      ensures old(chunks)[h].End() <= chunks[h].End()
      ensures FreeAreBinned(chunks, home, h) && FirstChunks(home, regionManager.spans, regionManager.slots)
      ensures Quiet(old(chunks), chunks, old(home), home)
      ensures forall p :: Seam(chunks, home, p) ==> Seam(old(chunks), old(home), p) && p != old(chunks)[h].End()
      ensures regionManager.spans == old(regionManager.spans)
      ensures SameRegions(old(regionManager.regions), regionManager.regions)
    {
      hide Structure, Quiet, Seam, FirstChunks, FreeAreBinned, SameRegions, Layout;
      PlacedHere(h);
      LayoutHere();
      var next := chunks[h].next;
      if next != NO_CHUNK && CanMerge(chunks[next], chunks[h]) {
        PlacedHere(next);
        DropHere(next);
        Join(h, next, next);
      } else {
        QuietHere();
        NoSeamAfter(chunks, home, regionManager.spans, h);
        SameRegionsRefl(regionManager.regions);
      }
    }

    lemma DropHere(k: Handle)
      requires Structure() && k in home && 0 <= k < |chunks| && chunks[k].prev != NO_CHUNK
      requires FirstChunks(home, regionManager.spans, regionManager.slots)
      ensures FirstChunks(home - {k}, regionManager.spans, regionManager.slots[chunks[k].ptr := NO_CHUNK])
    {
      DropKeepsFirst(chunks, home, regionManager.spans, regionManager.slots, k);
    }

    lemma QuietHere()
      requires Structure()
      ensures Quiet(chunks, chunks, home, home)
    {
      QuietRefl(chunks, home);
    }

    /** Let the predecessor of a free chunk in hand absorb it, if owners agree. */
    method CoalescePrev(h: Handle) returns (r: Handle)
      requires Structure() && h in home && 0 <= h < |chunks| && !chunks[h].InUse() && chunks[h].binNum == NO_BIN
      requires FreeAreBinned(chunks, home, h) && FirstChunks(home, regionManager.spans, regionManager.slots)
      modifies this`chunks, this`freeChunksList, this`recycled, this`home, this`bins, regionManager, ownershipIndex
      ensures Structure() && r in home && |chunks| == |old(chunks)| && 0 <= r < |chunks|
      ensures Base(home, r) == Base(old(home), h)
      ensures !chunks[r].InUse() && chunks[r].binNum == NO_BIN && chunks[r].stream == old(chunks)[h].stream
      ensures chunks[r].ptr <= old(chunks)[h].ptr && old(chunks)[h].End() <= chunks[r].End()
      ensures FreeAreBinned(chunks, home, r) && FirstChunks(home, regionManager.spans, regionManager.slots)
      ensures Quiet(old(chunks), chunks, old(home), home)
      ensures forall p :: Seam(chunks, home, p) ==> Seam(old(chunks), old(home), p) && p != old(chunks)[h].ptr
      ensures regionManager.spans == old(regionManager.spans)
      ensures SameRegions(old(regionManager.regions), regionManager.regions)
    {
      hide Structure, Quiet, Seam, FirstChunks, FreeAreBinned, SameRegions, Layout;
      PlacedHere(h);
      LayoutHere();
      r := h;
      var prev := chunks[h].prev;
      if prev != NO_CHUNK && CanMerge(chunks[prev], chunks[h]) {
        DropHere(h);
        r := prev;
        Join(prev, h, prev);
      } else {
        QuietHere();
        NoSeamBefore(chunks, home, regionManager.spans, h);
        SameRegionsRefl(regionManager.regions);
      }
    }

    /**
     * Merge a free chunk in hand with its successor and its predecessor where owners agree. Seams
     * at its two ends disappear; no new one appears; nothing a client can see changes.
     */
    method Coalesce(h: Handle) returns (r: Handle)
      requires Structure() && h in home && 0 <= h < |chunks| && !chunks[h].InUse() && chunks[h].binNum == NO_BIN
      requires FreeAreBinned(chunks, home, h) && FirstChunks(home, regionManager.spans, regionManager.slots)
      modifies this`chunks, this`freeChunksList, this`recycled, this`home, this`bins, regionManager, ownershipIndex
      ensures Structure() && r in home && |chunks| == |old(chunks)| && 0 <= r < |chunks|
      ensures Base(home, r) == Base(old(home), h)
      ensures !chunks[r].InUse() && chunks[r].binNum == NO_BIN && chunks[r].stream == old(chunks)[h].stream
      ensures chunks[r].ptr <= old(chunks)[h].ptr && old(chunks)[h].End() <= chunks[r].End()
      ensures FreeAreBinned(chunks, home, r) && FirstChunks(home, regionManager.spans, regionManager.slots)
      ensures Quiet(old(chunks), chunks, old(home), home)
      ensures forall p :: Seam(chunks, home, p) ==>
        Seam(old(chunks), old(home), p) && p != old(chunks)[h].ptr && p != old(chunks)[h].End()
      ensures regionManager.spans == old(regionManager.spans)
      ensures SameRegions(old(regionManager.regions), regionManager.regions)
    {
      ghost var c0, home0 := chunks, home;
      StructureInRange();
      hide Structure, Quiet, Seam, FirstChunks, FreeAreBinned, InRange;
      CoalesceNext(h);
      ghost var c1, home1 := chunks, home;
      StructureInRange();
      r := CoalescePrev(h);
      StructureInRange();
      QuietTrans(c0, c1, chunks, home0, home1, home);
    }

    /** Coalesce a free chunk in hand and bin the result. */
    method CoalesceAndInsert(h: Handle) returns (r: Handle)
      requires Structure() && h in home && 0 <= h < |chunks| && !chunks[h].InUse() && chunks[h].binNum == NO_BIN
      requires FreeAreBinned(chunks, home, h) && FirstChunks(home, regionManager.spans, regionManager.slots)
      modifies this`chunks, this`freeChunksList, this`recycled, this`home, this`bins, regionManager, ownershipIndex
      ensures Structure() && r in home && |chunks| == |old(chunks)| && 0 <= r < |chunks|
      ensures Base(home, r) == Base(old(home), h)
      ensures chunks[r].ptr <= old(chunks)[h].ptr && old(chunks)[h].End() <= chunks[r].End()
      ensures FreeAreBinned(chunks, home, NO_CHUNK) && FirstChunks(home, regionManager.spans, regionManager.slots)
      ensures Quiet(old(chunks), chunks, old(home), home)
      ensures forall p :: Seam(chunks, home, p) ==>
        Seam(old(chunks), old(home), p) && p != old(chunks)[h].ptr && p != old(chunks)[h].End()
      ensures regionManager.spans == old(regionManager.spans)
      ensures SameRegions(old(regionManager.regions), regionManager.regions)
    {
      ghost var c0, home0 := chunks, home;
      hide Structure, Quiet, Seam, FirstChunks, FreeAreBinned, InRange, Layout, SameRegions;
      StructureInRange();
      r := Coalesce(h);
      ghost var c1 := chunks;
      StructureInRange();
      LayoutHere();
      BinningIsQuiet(chunks, home, regionManager.spans, r, BinNumForSize(chunks[r].size));
      InsertFreeChunkIntoBin(r);
      StructureInRange();
      QuietTrans(c0, c1, chunks, home0, home, home);
      BinnedAll(c1, r);
    }

    lemma BinnedAll(before: seq<Chunk>, h: Handle)
      requires FreeAreBinned(before, home, h) && 0 <= h < |before| && !before[h].InUse()
      requires chunks == before[h := before[h].(binNum := BinNumForSize(before[h].size))]
      ensures FreeAreBinned(chunks, home, NO_CHUNK)
    {
    }

    lemma StructureInRange()
      requires Structure()
      ensures InRange(chunks, home)
    {
    }

    // ---------------------------------------------------------------- returning memory

    /** No chunk and its successor are both free and of one owner, or both free and unowned. */
    ghost predicate FullyJoined()
      reads this`chunks, this`home
    {
      forall h {:trigger h in home} :: h in home && 0 <= h < |chunks| && 0 <= chunks[h].next < |chunks| ==>
        || chunks[h].allocationId != NOT_ALLOCATED || chunks[chunks[h].next].allocationId != NOT_ALLOCATED
        || chunks[h].stream != chunks[chunks[h].next].stream
    }

    /** Whatever can be joined has been joined, in every valid state. */
    lemma MaximallyCoalesced()
      requires Valid()
      ensures FullyJoined()
    {
      forall h | h in home && 0 <= h < |chunks| && 0 <= chunks[h].next < |chunks|
                 && chunks[h].allocationId == NOT_ALLOCATED && chunks[chunks[h].next].allocationId == NOT_ALLOCATED
        ensures chunks[h].stream != chunks[chunks[h].next].stream
      {
        if chunks[h].stream == chunks[chunks[h].next].stream {
          assert SeamAt(chunks, home, h, chunks[h].End());
          assert Seam(chunks, home, chunks[h].End());
        }
      }
    }

    lemma QuietLedger(cs: seq<Chunk>, cs': seq<Chunk>, home0: map<Handle, int>, home1: map<Handle, int>,
                      spans: map<int, int>, blocks: map<int, int>)
      requires InRange(cs, home0) && InRange(cs', home1) && Quiet(cs, cs', home0, home1)
      requires Ledger(cs, home0, spans, blocks)
      ensures Ledger(cs', home1, spans, blocks)
    {
      QuietKeeps(cs, cs', home0, home1, spans, reservedChunks, trace, implOf, config.maxDeadBytesPerChunk);
    }

    lemma InUseIsUnbinned(h: Handle)
      requires Valid() && h in home && 0 <= h < |chunks| && chunks[h].InUse()
      ensures chunks[h].binNum == NO_BIN
    {
    }

    /** The records after chunk h was marked free, while the rest of the arena still counts it in use. */
    lemma MarkedFree(h: Handle)
      requires Valid() && h in home && 0 <= h < |chunks| && chunks[h].InUse()
      ensures var freed := chunks[h := chunks[h].(allocationId := NOT_ALLOCATED)];
              && StructureOn(freed)
              && FreeAreBinned(freed, home, h)
              && (forall p :: Seam(freed, home, p) ==> p == chunks[h].ptr || p == chunks[h].End())
    {
      FreeSeams(chunks, home, regionManager.spans, h);
      AllocationWriteKeeps(chunks, ThisIndex(), h, NOT_ALLOCATED, chunks[h].requestedSize);
    }

    lemma MarkedFreeLedger(h: Handle)
      requires Valid() && h in home && 0 <= h < |chunks| && chunks[h].InUse()
      ensures var freed := chunks[h := chunks[h].(allocationId := NOT_ALLOCATED)];
              && AllTight(freed, home, config.maxDeadBytesPerChunk)
              && HistoryAgrees(freed, home, regionManager.spans, reservedChunks, Then(trace, Freed(chunks[h].ptr)),
                               implOf)
              && MapSum(InUseSizes(freed, home)) == MapSum(InUseSizes(chunks, home)) - chunks[h].size
    {
      StructureInRange();
      ghost var freed := chunks[h := chunks[h].(allocationId := NOT_ALLOCATED)];
      FreeStep(chunks, freed, home, regionManager.spans, reservedChunks, device.blocks, trace, implOf, h);
      InUseLost(chunks, freed, home, h);
    }

    /** The first half of a return: the chunk is free, but in no bin and not yet coalesced. */
    method MarkFree(h: Handle)
      requires Valid() && h in home && 0 <= h < |chunks| && chunks[h].InUse()
      modifies this`chunks, this`stats, this`trace
      ensures Structure() && FreeAreBinned(chunks, home, h)
      ensures FirstChunks(home, regionManager.spans, regionManager.slots)
      ensures forall p :: Seam(chunks, home, p) ==> p == chunks[h].ptr || p == chunks[h].End()
      ensures Ledger(chunks, home, regionManager.spans, device.blocks)
      ensures chunks == old(chunks)[h := old(chunks)[h].(allocationId := NOT_ALLOCATED)] && chunks[h].binNum == NO_BIN
      ensures trace == Then(old(trace), Freed(old(chunks)[h].ptr))
    {
      hide Structure, StructureOn, FreeAreBinned, FirstChunks, Seam, Coalesced, AllTight, BlocksAgree, HistoryAgrees,
           InUseSizes, MapSum;
      InUseIsUnbinned(h);
      MarkedFree(h);
      MarkedFreeLedger(h);
      trace := Then(trace, Freed(chunks[h].ptr));
      chunks := chunks[h := chunks[h].(allocationId := NOT_ALLOCATED)];
      stats := stats.(bytesInUse := stats.bytesInUse - chunks[h].size);
      StructureHere();
    }

    /** Give a chunk back; refused, without effect, unless the chunk is in use. */
    method FreeAndMaybeCoalesce(h: Handle) returns (ok: bool)
      requires Valid() && h in home && 0 <= h < |chunks|
      modifies this, regionManager, ownershipIndex
      ensures Valid() && FullyJoined()
      ensures ok == old(chunks)[h].InUse()
      ensures trace == if ok then Then(old(trace), Freed(old(chunks)[h].ptr)) else old(trace)
      ensures !ok ==> chunks == old(chunks)
      ensures leaked == old(leaked) && reservedChunks == old(reservedChunks)
    {
      hide Structure, Ledger, FreeAreBinned, FirstChunks, Quiet, Seam, FullyJoined;
      MaximallyCoalesced();
      if chunks[h].InUse() {
        InUseIsUnbinned(h);
      }
      if !(chunks[h].InUse() && chunks[h].binNum == NO_BIN) {
        return false;
      }
      MarkFree(h);
      ghost var freed, was := chunks, home;
      StructureInRange();
      var r := CoalesceAndInsert(h);
      StructureInRange();
      QuietLedger(freed, chunks, was, home, regionManager.spans, device.blocks);
      MaximallyCoalesced();
      return true;
    }

    /** A chunk found in a slot starts at the slot's granule, and if in use it is outstanding. */
    lemma SlotChunk(b: int, p: int, h: Handle)
      requires Valid() && SpanCovers(regionManager.spans, b, p)
      requires HasSlot(regionManager.slots, GranuleStart(b, p), h) && h != NO_CHUNK
      ensures h in home && 0 <= h < |chunks| && chunks[h].ptr <= p < chunks[h].ptr + GRANULE
      ensures chunks[h].ptr == GranuleStart(b, p)
      ensures chunks[h].InUse() ==> chunks[h].ptr in Outstanding(trace)
    {
      assert SlotOf(regionManager.slots, GranuleStart(b, p)) == h;
      assert InUseAt(chunks, home, h, chunks[h].ptr, chunks[h].size) ==> IsOut(trace, chunks[h].ptr, chunks[h].size);
    }

    /** An outstanding address that is no reserved block is the start of an in-use chunk, in its slot. */
    lemma OutstandingChunk(p: int) returns (b: int, h: Handle)
      requires Valid() && p in Outstanding(trace) && p !in reservedChunks
      ensures h in home && 0 <= h < |chunks| && chunks[h].InUse() && chunks[h].ptr == p
      ensures SpanCovers(regionManager.spans, b, p) && GranuleStart(b, p) == p && b == Base(home, h)
      ensures SlotOf(regionManager.slots, p) == h && h != NO_CHUNK
    {
      assert IsOut(trace, p, Outstanding(trace)[p]);
      assert !IsReserved(reservedChunks, p, Outstanding(trace)[p]);
      h :| InUseAt(chunks, home, h, p, Outstanding(trace)[p]);
      b := Base(home, h);
      PlacedAt(chunks, home, regionManager.spans, NO_CHUNK, h);
      GranuleStartExact(b, p);
    }

    /** The books after reserved block p went back to the device. */
    lemma UnreservedBooks(p: int)
      requires Valid() && p in reservedChunks
      ensures p in device.blocks && p !in regionManager.spans && PairwiseDisjoint(device.blocks)
      ensures BlocksAgree(device.blocks - {p}, regionManager.spans, reservedChunks - {p})
      ensures HistoryAgrees(chunks, home, regionManager.spans, reservedChunks - {p}, Then(trace, Freed(p)), implOf)
      ensures MapSum(reservedChunks) == reservedChunks[p] + MapSum(reservedChunks - {p})
      ensures reservedChunks[p] > 0 && p in Outstanding(trace)
    {
      hide Layout, SlotsAgree, BinsOk, RecordsOk, OwnersAgree, FaithfulImpls, Consistent, Tables, HistoryAgrees,
           BlocksAgree, FirstChunks, Coalesced, FreeAreBinned, AllTight;
      ReservedIsOutstanding(chunks, home, regionManager.spans, reservedChunks, trace, implOf, p);
      UnreserveStep(chunks, home, regionManager.spans, reservedChunks, device.blocks, trace, implOf, p);
      UnreserveBlock(device.blocks, regionManager.spans, reservedChunks, p);
      MapSumRemove(reservedChunks, p);
    }

    method FreeReserved(p: int)
      requires Valid() && p in reservedChunks
      modifies this`stats, this`reservedChunks, this`trace, device
      ensures Valid()
      ensures trace == Then(old(trace), Freed(p)) && p in Outstanding(old(trace))
      ensures reservedChunks == old(reservedChunks) - {p}
    {
      hide StructureOn, FreeAreBinned, FirstChunks, Coalesced, AllTight, BlocksAgree, HistoryAgrees, InUseSizes, MapSum,
           Outstanding, PairwiseDisjoint;
      UnreservedBooks(p);
      trace := Then(trace, Freed(p));
      device.Free(p);
      stats := stats.(bytesInUse := stats.bytesInUse - reservedChunks[p],
                      totalAllocatedBytes := stats.totalAllocatedBytes - reservedChunks[p]);
      reservedChunks := reservedChunks - {p};
    }

    /** The slot lookup finds every in-use chunk by any address of its first granule. */
    lemma FoundByGranule(p: int, found: Option<Handle>)
      requires Structure()
      requires forall b :: SpanCovers(regionManager.spans, b, p) ==>
                 found.Some? && HasSlot(regionManager.slots, GranuleStart(b, p), found.value)
      ensures forall h :: InFirstGranule(chunks, home, h, p) ==> found == Some(h)
      ensures found == Some(NO_CHUNK) ==> forall h :: !InFirstGranule(chunks, home, h, p)
    {
      forall h | InFirstGranule(chunks, home, h, p)
        ensures found == Some(h) && h != NO_CHUNK
      {
        FirstGranuleSlot(chunks, home, regionManager.spans, regionManager.slots, h, p);
        assert SpanCovers(regionManager.spans, Base(home, h), p);
      }
    }

    /** Address p is in the first granule of some in-use chunk. */
    ghost predicate FindsInUse(p: int)
      reads this`chunks, this`home
    {
      exists h :: InFirstGranule(chunks, home, h, p)
    }

    /**
     * Return a block. Accepted are exactly null, the reserved blocks, and the addresses in the first
     * granule of an in-use chunk: each of these returns that chunk, also when it is not the chunk's own
     * address. Any other address is refused without effect.
     */
    method Free(p: int) returns (ok: bool)
      requires Valid()
      modifies this, device, regionManager, ownershipIndex
      ensures Valid() && FullyJoined() && leaked == old(leaked)
      ensures ok <==> p == 0 || p in old(reservedChunks) || old(FindsInUse(p))
      ensures p in Outstanding(old(trace)) ==> ok && trace == Then(old(trace), Freed(p))
      ensures forall h :: p !in old(reservedChunks) && InFirstGranule(old(chunks), old(home), h, p) ==>
                trace == Then(old(trace), Freed(old(chunks)[h].ptr)) && old(chunks)[h].ptr in Outstanding(old(trace))
      ensures ok && p != 0 ==>
        exists q :: q in Outstanding(old(trace)) && q <= p < q + GRANULE && trace == Then(old(trace), Freed(q))
      ensures reservedChunks == old(reservedChunks) - {p}
      ensures !ok || p == 0 ==> trace == old(trace) && chunks == old(chunks) && reservedChunks == old(reservedChunks)
    {
      hide Structure, StructureOn, Settled, Outstanding, SpanCovers, HasSlot, InRange, FindsInUse, InFirstGranule,
           FullyJoined;
      MaximallyCoalesced();
      NullIsNotOutstanding();
      if p == 0 {
        return true;
      }
      if p in reservedChunks {
        FreeReserved(p);
        MaximallyCoalesced();
        return true;
      }
      ok := DeallocateRawInternal(p);
    }

    /** Address 0 is no block, and in no chunk. */
    lemma NullIsNotOutstanding()
      requires Valid()
      ensures 0 !in Outstanding(trace) && 0 !in reservedChunks
      ensures !FindsInUse(0) && forall h :: !InFirstGranule(chunks, home, h, 0)
    {
      BlocksPositive(device.blocks, regionManager.spans, reservedChunks);
      if 0 in Outstanding(trace) && 0 !in reservedChunks {
        var b, h := OutstandingChunk(0);
      }
      forall h
        ensures !InFirstGranule(chunks, home, h, 0)
      {
        if InFirstGranule(chunks, home, h, 0) {
          PlacedAt(chunks, home, regionManager.spans, NO_CHUNK, h);
        }
      }
    }

    method DeallocateRawInternal(p: int) returns (ok: bool)
      requires Valid() && p !in reservedChunks
      modifies this, regionManager, ownershipIndex
      ensures Valid() && FullyJoined() && leaked == old(leaked)
      ensures ok <==> old(FindsInUse(p))
      ensures p in Outstanding(old(trace)) ==> ok && trace == Then(old(trace), Freed(p))
      ensures forall h :: InFirstGranule(old(chunks), old(home), h, p) ==>
                trace == Then(old(trace), Freed(old(chunks)[h].ptr)) && old(chunks)[h].ptr in Outstanding(old(trace))
      ensures ok ==>
        exists q :: q in Outstanding(old(trace)) && q <= p < q + GRANULE && trace == Then(old(trace), Freed(q))
      ensures reservedChunks == old(reservedChunks)
      ensures !ok ==> trace == old(trace) && chunks == old(chunks)
    {
      hide Structure, StructureOn, Settled, Outstanding, SpanCovers, InRange, FullyJoined;
      MaximallyCoalesced();
      RegionsValid();
      if p in Outstanding(trace) {
        ghost var b0, h0 := OutstandingChunk(p);
        assert InFirstGranule(chunks, home, h0, p);
      }
      var found := regionManager.GetHandle(p);
      FoundByGranule(p, found);
      if found.None? || found.value == NO_CHUNK {
        return false;
      }
      var h := found.value;
      ghost var b :| SpanCovers(regionManager.spans, b, p);
      SlotChunk(b, p, h);
      assert chunks[h].InUse() ==> InFirstGranule(chunks, home, h, p);
      ok := FreeAndMaybeCoalesce(h);
    }

    /** An address just behind a block's start gives the block back as well, in every state. */
    method FreeInsideBlock(p: int, offset: nat) returns (ok: bool)
      requires Valid() && p in Outstanding(trace) && p !in reservedChunks && offset < GRANULE
      modifies this, device, regionManager, ownershipIndex
      ensures Valid() && ok && trace == Then(old(trace), Freed(p)) && p !in Outstanding(trace)
    {
      hide Structure, StructureOn, Settled, SpanCovers, InRange, FindsInUse, Outstanding;
      ghost var before := trace;
      ghost var h := InsideBlock(p, offset);
      ok := Free(p + offset);
      GoneAfterFree(before, p);
    }

    lemma GoneAfterFree(before: Trace, p: int)
      requires trace == Then(before, Freed(p))
      ensures p !in Outstanding(trace)
    {
    }

    /** The chunk of an arena block is found by any address of the block's first granule. */
    lemma InsideBlock(p: int, offset: nat) returns (h: Handle)
      requires Valid() && p in Outstanding(trace) && p !in reservedChunks && offset < GRANULE
      ensures InFirstGranule(chunks, home, h, p + offset) && chunks[h].ptr == p
      ensures FindsInUse(p + offset) && p + offset !in reservedChunks
    {
      hide StructureOn, Settled, Outstanding;
      var b;
      b, h := OutstandingChunk(p);
      assert InFirstGranule(chunks, home, h, p + offset);
      InsideIsNotReserved(h, p + offset);
    }

    /** Chunks are in regions, which overlap no reserved block. */
    lemma InsideIsNotReserved(h: Handle, q: int)
      requires Valid() && InFirstGranule(chunks, home, h, q)
      ensures q !in reservedChunks
    {
      FirstGranuleSlot(chunks, home, regionManager.spans, regionManager.slots, h, q);
      var b := Base(home, h);
      BlocksPositive(device.blocks, regionManager.spans, reservedChunks);
      if q in reservedChunks {
        ReservedOutsideRegions(device.blocks, regionManager.spans, reservedChunks, q, b);
      }
    }

    lemma RegionsValid()
      requires Structure()
      ensures regionManager.Valid()
    {
    }

    // ---------------------------------------------------------------- blocks outside the arena

    /** The books after a fresh block, beside those in blocks, went to a client directly. */
    lemma ReservedBooks(blocks: map<int, int>, p: int, n: int)
      requires Layout(chunks, home, regionManager.spans, NO_CHUNK)
      requires BlocksAgree(blocks, regionManager.spans, reservedChunks)
      requires HistoryAgrees(chunks, home, regionManager.spans, reservedChunks, trace, implOf)
      requires p > 0 && n > 0 && p !in blocks && forall q :: q in blocks ==> Disjoint(p, n, q, blocks[q])
      ensures p !in reservedChunks
      ensures BlocksAgree(blocks[p := n], regionManager.spans, reservedChunks[p := n])
      ensures HistoryAgrees(chunks, home, regionManager.spans, reservedChunks[p := n], Then(trace, Reserved(p, n)),
                            implOf)
      ensures MapSum(reservedChunks[p := n]) == MapSum(reservedChunks) + n
    {
      hide Layout, HistoryAgrees, BlocksAgree;
      ReserveStep(chunks, home, regionManager.spans, reservedChunks, blocks, trace, implOf, p, n);
      AddBlock(blocks, regionManager.spans, reservedChunks, p, n);
      MapSumInsert(reservedChunks, p, n);
    }

    /**
     * A block outside the arena is handed out exactly for a request of at least one byte that the
     * budget leaves room for and the device grants; it is counted and recorded.
     */
    twostate predicate ReservedFor(size: nat, p: int)
      reads this`stats, this`reservedChunks, this`trace
    {
      && (p != 0 <==>
            size > 0 && old(stats.totalAllocatedBytes) + size <= config.maxMem && old(device.Grants(size)))
      && (p == 0 ==> trace == old(trace) && reservedChunks == old(reservedChunks) && stats == old(stats))
      && (p != 0 ==>
            && p == old(device.answer(device.calls, size)) && trace == Then(old(trace), Reserved(p, size))
            && reservedChunks == old(reservedChunks)[p := size]
            && stats == old(stats).(bytesInUse := old(stats).bytesInUse + size,
                                    numReserves := old(stats).numReserves + 1,
                                    numAllocs := old(stats).numAllocs + 1,
                                    maxAllocSize := Max(old(stats).maxAllocSize, size),
                                    maxBytesInUse := Max(old(stats).maxBytesInUse, old(stats).bytesInUse + size),
                                    totalAllocatedBytes := old(stats).totalAllocatedBytes + size))
    }

    /** Hand out a device block outside the arena, within the memory budget. */
    method Reserve(size: nat) returns (p: int)
      requires Valid()
      modifies this`stats, this`reservedChunks, this`trace, device
      ensures Valid() && leaked == old(leaked) && p >= 0 && ReservedFor(size, p)
    {
      hide StructureOn, FreeAreBinned, FirstChunks, Coalesced, AllTight, BlocksAgree, HistoryAgrees, InUseSizes, MapSum,
           PairwiseDisjoint;
      if size == 0 {
        return 0;
      }
      var used := stats.totalAllocatedBytes;
      if used > config.maxMem || size > config.maxMem - used {
        return 0;
      }
      DeviceValid();
      p := device.Alloc(size);
      if p == 0 {
        return;
      }
      LayoutHere();
      ReservedBooks(old(device.blocks), p, size);
      assert p !in reservedChunks;
      reservedChunks := reservedChunks[p := size];
      stats := stats.(bytesInUse := stats.bytesInUse + size,
                      numReserves := stats.numReserves + 1,
                      numAllocs := stats.numAllocs + 1,
                      maxAllocSize := Max(stats.maxAllocSize, size),
                      maxBytesInUse := Max(stats.maxBytesInUse, stats.bytesInUse + size),
                      totalAllocatedBytes := stats.totalAllocatedBytes + size);
      trace := Then(trace, Reserved(p, size));
    }

    lemma LayoutHere()
      requires Structure()
      ensures Layout(chunks, home, regionManager.spans, NO_CHUNK)
    {
    }

    lemma DeviceValid()
      requires Valid()
      ensures device.Valid()
    {
      assert BlocksAgree(device.blocks, regionManager.spans, reservedChunks);
    }

    /** A caller without a stream gives no way to order reuse, so its memory never enters the arena. */
    method Alloc(size: nat) returns (p: int)
      requires Valid()
      modifies this`stats, this`reservedChunks, this`trace, device
      ensures Valid() && leaked == old(leaked) && p >= 0 && ReservedFor(size, p)
    {
      p := Reserve(size);
    }

    // ---------------------------------------------------------------- allocation from the arena

    /** The chunk is cut when what is left over is as large as the request or as the configured bound. */
    predicate ShouldSplit(size: nat, rounded: nat) {
      size >= rounded * 2 || size - rounded >= config.maxDeadBytesPerChunk
    }

    /**
     * The size handed out: a chunk is cut exactly if the rest is at least as large as the request or as
     * the configured bound, and stays whole otherwise.
     */
    ghost function Piece(size: nat, rounded: nat): nat {
      if size - rounded >= Min(rounded, config.maxDeadBytesPerChunk) then rounded else size
    }

    lemma BinMember(b: nat, pos: nat)
      requires Structure() && b < |bins| && pos < |bins[b]|
      ensures var h := bins[b][pos];
              h in home && 0 <= h < |chunks| && !chunks[h].InUse() && chunks[h].binNum != NO_BIN
    {
      assert InBin(bins, b, bins[b][pos]);
    }

    /** A chunk taken out of its bin whole is quiet and opens no seam. */
    lemma TakenWhole(before: seq<Chunk>, h: Handle)
      requires Structure() && h in home && 0 <= h < |before|
      requires Layout(before, home, regionManager.spans, NO_CHUNK) && Coalesced(before, home)
      requires chunks == before[h := before[h].(binNum := NO_BIN)]
      ensures Quiet(before, chunks, home, home) && Coalesced(chunks, home)
    {
      BinningIsQuiet(before, home, regionManager.spans, h, NO_BIN);
    }

    lemma TakenCut(before: seq<Chunk>, out: seq<Chunk>, was: map<Handle, int>, slots: map<int, Handle>,
                   h: Handle, k: Handle, n: nat)
      requires Structure() && h in was && 0 <= h < |before| && !before[h].InUse() && 0 < n < before[h].size
      requires Layout(before, was, regionManager.spans, NO_CHUNK) && Coalesced(before, was)
      requires Layout(out, was, regionManager.spans, NO_CHUNK) && SlotsAgree(out, was, slots)
      requires FirstChunks(was, regionManager.spans, slots) && FreeAreBinned(before, was, NO_CHUNK)
      requires out == before[h := before[h].(binNum := NO_BIN)]
      requires SplitOf(out, chunks, was, h, k, n) && SplitRecords(out, chunks, was, h, k, n)
      requires k !in was && home == was[k := Base(was, h)] && regionManager.slots == slots[chunks[k].ptr := k]
      requires !chunks[k].InUse() && chunks[k].binNum != NO_BIN
      ensures Quiet(before, chunks, was, home)
      ensures forall p :: Seam(chunks, home, p) ==> p == chunks[h].End()
      ensures FreeAreBinned(chunks, home, h) && FirstChunks(home, regionManager.spans, regionManager.slots)
    {
      CutIsQuiet(before, out, chunks, was, regionManager.spans, h, k, n);
      SplitKeepsFirst(out, chunks, was, regionManager.spans, slots, h, k, n);
    }

    /** Take a binned chunk in hand, cut to the rounded request if the rest is worth keeping. */
    method TakeChunk(b: nat, pos: nat, rounded: nat) returns (h: Handle)
      requires Structure() && b < |bins| && pos < |bins[b]| && 0 <= bins[b][pos] < |chunks|
      requires FreeAreBinned(chunks, home, NO_CHUNK) && FirstChunks(home, regionManager.spans, regionManager.slots)
      requires Coalesced(chunks, home) && config.IsValid()
      requires 0 < rounded <= chunks[bins[b][pos]].size && rounded % GRANULE == 0
      modifies this`chunks, this`freeChunksList, this`recycled, this`home, this`bins, regionManager, ownershipIndex
      ensures Structure() && h == old(bins)[b][pos] && h in home && 0 <= h < |old(chunks)| <= |chunks|
      ensures Taken(old(chunks), chunks, old(home), home, regionManager.spans, h)
      ensures chunks[h].size == Piece(old(chunks)[h].size, rounded)
      ensures FirstChunks(home, regionManager.spans, regionManager.slots)
      ensures regionManager.spans == old(regionManager.spans)
    {
      ghost var before, was, slots := chunks, home, regionManager.slots;
      hide Structure, FirstChunks, Quiet, Coalesced, Seam, FreeAreBinned, SplitOf;
      BinMember(b, pos);
      BinsOfStructure();
      LayoutHere();
      h := bins[b][pos];
      RemoveFreeChunkIterFromBin(b, pos);
      LayoutHere();
      if ShouldSplit(chunks[h].size, rounded) {
        ghost var out := chunks;
        SlotsHere();
        ghost var k := SplitChunk(h, rounded);
        TakenCut(before, out, was, slots, h, k, rounded);
      } else {
        TakenWhole(before, h);
        FreeButOne(before, h);
        NoSeams(chunks, home);
      }
      LayoutHere();
    }

    lemma SlotsHere()
      requires Structure()
      ensures SlotsAgree(chunks, home, regionManager.slots)
    {
    }

    lemma FreeButOne(before: seq<Chunk>, h: Handle)
      requires FreeAreBinned(before, home, NO_CHUNK) && 0 <= h < |before|
      requires chunks == before[h := before[h].(binNum := NO_BIN)]
      ensures FreeAreBinned(chunks, home, h)
    {
    }

    /**
     * Make the chunk at a bin position an allocation. Its owner is settled by the caller; taken is
     * the record vector just before the chunk was marked in use.
     */
    method SplitFreeChunkFromBin(b: nat, pos: nat, rounded: nat, numBytes: nat)
      returns (h: Handle, ghost taken: seq<Chunk>)
      requires Valid() && b < |bins| && pos < |bins[b]| && 0 <= bins[b][pos] < |chunks|
      requires 0 < numBytes <= rounded <= chunks[bins[b][pos]].size && rounded == RoundedBytes(numBytes)
      modifies this`chunks, this`freeChunksList, this`recycled, this`home, this`bins, this`stats, this`nextAllocationId,
               regionManager, ownershipIndex
      ensures Structure() && h == old(bins)[b][pos] && h in home && 0 <= h < |old(chunks)| <= |chunks| == |taken|
      ensures Taken(old(chunks), taken, old(home), home, regionManager.spans, h)
      ensures taken[h].size == Piece(old(chunks)[h].size, rounded)
      ensures chunks == taken[h := taken[h].(allocationId := old(nextAllocationId), requestedSize := numBytes)]
      ensures FirstChunks(home, regionManager.spans, regionManager.slots)
      ensures regionManager.spans == old(regionManager.spans)
      ensures nextAllocationId == old(nextAllocationId) + 1
      ensures stats == old(stats).(numAllocs := old(stats).numAllocs + 1,
                                   bytesInUse := old(stats).bytesInUse + taken[h].size,
                                   maxBytesInUse := Max(old(stats).maxBytesInUse,
                                                        old(stats).bytesInUse + taken[h].size),
                                   maxAllocSize := Max(old(stats).maxAllocSize, taken[h].size))
    {
      hide Structure, FirstChunks, Coalesced, FreeAreBinned, AllTight, BlocksAgree, HistoryAgrees, Taken;
      h := TakeChunk(b, pos, rounded);
      taken := chunks;
      TakenFacts(old(chunks), taken, old(home), home, regionManager.spans, h);
      AllocationWriteHere(h, nextAllocationId, numBytes);
      chunks := chunks[h := chunks[h].(requestedSize := numBytes)];
      chunks := chunks[h := chunks[h].(allocationId := nextAllocationId)];
      assert chunks == taken[h := taken[h].(allocationId := nextAllocationId, requestedSize := numBytes)];
      nextAllocationId := nextAllocationId + 1;
      stats := stats.(numAllocs := stats.numAllocs + 1,
                      bytesInUse := stats.bytesInUse + chunks[h].size,
                      maxBytesInUse := Max(stats.maxBytesInUse, stats.bytesInUse + chunks[h].size),
                      maxAllocSize := Max(stats.maxAllocSize, chunks[h].size));
      StructureHere();
    }

    lemma AllocationWriteHere(h: Handle, id: int, requested: nat)
      requires Structure() && h in home && 0 <= h < |chunks| && chunks[h].binNum == NO_BIN
      ensures StructureOn(chunks[h := chunks[h].(allocationId := id, requestedSize := requested)])
    {
      AllocationWriteKeeps(chunks, ThisIndex(), h, id, requested);
    }

    /** Change the owner of a live chunk. */
    method Reassign(h: Handle, stream: Stream)
      requires Structure() && h in home && 0 <= h < |chunks|
      modifies this`chunks, ownershipIndex
      ensures Structure()
      ensures chunks == old(chunks)[h := old(chunks)[h].(stream := stream)]
    {
      hide Layout, SlotsAgree, BinsOk, RecordsOk, OwnersAgree, FaithfulImpls, Consistent, Tables;
      OwnerWriteKeeps(chunks, ThisIndex(), h, stream);
      SetChunkStream(h, stream);
    }

    /** A request the arena can round up without wrapping. */
    ghost predicate Roundable(numBytes: nat, rounded: nat) {
      0 < numBytes <= rounded == RoundedBytes(numBytes)
    }

    /** The least chunk, by size and then address, among all free chunks that suit the request. */
    ghost predicate IsBestFit(cs: seq<Chunk>, home0: map<Handle, int>, rounded: nat, stream: Stream, h: Handle) {
      && Candidate(cs, home0, rounded, stream, h)
      && forall g :: Candidate(cs, home0, rounded, stream, g) && g != h ==> Before(cs, h, g)
    }

    /** cs[h] was handed out as cs'[h] for the request. */
    ghost predicate HandedOut(cs: seq<Chunk>, cs': seq<Chunk>, h: Handle, numBytes: nat, stream: Stream) {
      var rounded := RoundedBytes(numBytes);
      && 0 <= h < |cs| <= |cs'| && cs'[h].ptr == cs[h].ptr
      && cs'[h].size == Piece(cs[h].size, rounded)
      && cs'[h].InUse() && cs'[h].requestedSize == numBytes && cs'[h].stream == stream
    }

    /** From cs, chunk h was taken (taken) and made an allocation of numBytes on stream t (cs'). */
    ghost predicate Claim(cs: seq<Chunk>, taken: seq<Chunk>, cs': seq<Chunk>, home0: map<Handle, int>,
                          home1: map<Handle, int>, spans: map<int, int>, h: Handle, numBytes: nat, t: Stream) {
      && Taken(cs, taken, home0, home1, spans, h) && |cs'| == |taken|
      && cs' == taken[h := taken[h].(allocationId := cs'[h].allocationId, requestedSize := numBytes, stream := t)]
      && cs'[h].InUse() && (cs[h].stream == NO_STREAM || cs[h].stream == t)
      && HandedOut(cs, cs', h, numBytes, t) && Tight(cs'[h], config.maxDeadBytesPerChunk)
    }

    lemma Claimed(cs: seq<Chunk>, taken: seq<Chunk>, home0: map<Handle, int>, h: Handle, numBytes: nat, t: Stream)
      requires Claim(cs, taken, chunks, home0, home, regionManager.spans, h, numBytes, t)
      requires InRange(cs, home0) && BlocksAgree(device.blocks, regionManager.spans, reservedChunks)
      requires HistoryAgrees(cs, home0, regionManager.spans, reservedChunks, trace, implOf)
      requires AllTight(cs, home0, config.maxDeadBytesPerChunk)
      ensures 0 <= h < |chunks| && h in home && HandedOut(cs, chunks, h, numBytes, t)
      ensures HistoryAgrees(chunks, home, regionManager.spans, reservedChunks,
                            Then(trace, Allocated(chunks[h].ptr, chunks[h].size, t)), implOf)
      ensures AllTight(chunks, home, config.maxDeadBytesPerChunk) && Coalesced(chunks, home)
      ensures FreeAreBinned(chunks, home, NO_CHUNK)
      ensures MapSum(InUseSizes(chunks, home)) == MapSum(InUseSizes(cs, home0)) + chunks[h].size
    {
      hide HandedOut, Tight;
      assert ClaimedAs(taken, chunks, h, t);
      ClaimSettles(cs, taken, chunks, home0, home, ThisBooks(regionManager.spans, device.blocks), h, t);
    }

    lemma TakenFacts(cs: seq<Chunk>, taken: seq<Chunk>, home0: map<Handle, int>, home1: map<Handle, int>,
                     spans: map<int, int>, h: Handle)
      requires Taken(cs, taken, home0, home1, spans, h)
      ensures 0 <= h < |cs| <= |taken| && h in home0 && !taken[h].InUse() && taken[h].binNum == NO_BIN
      ensures taken[h].ptr == cs[h].ptr && taken[h].stream == cs[h].stream
    {
    }

    lemma FitIsTight(c: Chunk, d: Chunk, rounded: nat, numBytes: nat)
      requires config.IsValid() && Roundable(numBytes, rounded) && rounded <= c.size && d.requestedSize == numBytes
      requires d.size == Piece(c.size, rounded)
      ensures Tight(d, config.maxDeadBytesPerChunk)
    {
    }

    lemma LedgerFacts()
      requires Valid()
      ensures BlocksAgree(device.blocks, regionManager.spans, reservedChunks)
      ensures HistoryAgrees(chunks, home, regionManager.spans, reservedChunks, trace, implOf)
      ensures AllTight(chunks, home, config.maxDeadBytesPerChunk) && config.IsValid() && InRange(chunks, home)
    {
    }

    /** Make the chunk at a bin position an allocation under its new owner, before it is recorded. */
    method MakeAllocation(b: nat, pos: nat, rounded: nat, numBytes: nat, stream: Stream)
      returns (h: Handle, ghost taken: seq<Chunk>)
      requires Valid() && Roundable(numBytes, rounded)
      requires b < |bins| && pos < |bins[b]| && Candidate(chunks, home, rounded, stream, bins[b][pos])
      modifies this`chunks, this`freeChunksList, this`recycled, this`home, this`bins, this`stats, this`nextAllocationId,
               regionManager, ownershipIndex
      ensures Structure() && h == old(bins)[b][pos] && 0 <= h < |chunks|
      ensures Claim(old(chunks), taken, chunks, old(home), home, regionManager.spans, h, numBytes, stream)
      ensures FirstChunks(home, regionManager.spans, regionManager.slots)
      ensures regionManager.spans == old(regionManager.spans) && nextAllocationId == old(nextAllocationId) + 1
      ensures stats == old(stats).(numAllocs := old(stats).numAllocs + 1,
                                   bytesInUse := old(stats).bytesInUse + chunks[h].size,
                                   maxBytesInUse := Max(old(stats).maxBytesInUse,
                                                        old(stats).bytesInUse + chunks[h].size),
                                   maxAllocSize := Max(old(stats).maxAllocSize, chunks[h].size))
    {
      hide StructureOn, FirstChunks, Coalesced, AllTight, BlocksAgree, HistoryAgrees, InRange, Tight,
           MapSum, InUseSizes, FreeAreBinned, Candidate, Taken, Piece;
      CandidateFacts(bins[b][pos], rounded, stream);
      ghost var before, was := chunks, home;
      h, taken := SplitFreeChunkFromBin(b, pos, rounded, numBytes);
      TakenFacts(before, taken, was, home, regionManager.spans, h);
      if stream != NO_STREAM {
        Reassign(h, stream);
      }
      FitIsTight(before[h], chunks[h], rounded, numBytes);
    }

    /** Hand out the chunk at a bin position. */
    method ClaimChunk(b: nat, pos: nat, rounded: nat, numBytes: nat, stream: Stream) returns (h: Handle)
      requires Valid() && Roundable(numBytes, rounded)
      requires b < |bins| && pos < |bins[b]| && Candidate(chunks, home, rounded, stream, bins[b][pos])
      modifies this`chunks, this`freeChunksList, this`recycled, this`home, this`bins, this`stats, this`nextAllocationId,
               this`trace, regionManager, ownershipIndex
      ensures Valid()
      ensures h == old(bins)[b][pos] && h in home && HandedOut(old(chunks), chunks, h, numBytes, stream)
      ensures trace == Then(old(trace), Allocated(chunks[h].ptr, chunks[h].size, stream))
    {
      hide StructureOn, FirstChunks, Coalesced, AllTight, BlocksAgree, HistoryAgrees, InRange, Tight,
           MapSum, InUseSizes, FreeAreBinned, Candidate, Claim, HandedOut, Roundable;
      LedgerFacts();
      ghost var before, was := chunks, home;
      ghost var taken;
      h, taken := MakeAllocation(b, pos, rounded, numBytes, stream);
      Claimed(before, taken, was, h, numBytes, stream);
      trace := Then(trace, Allocated(chunks[h].ptr, chunks[h].size, stream));
    }

    /** Hand out the best-fitting free chunk the stream may use; NO_CHUNK exactly if there is none. */
    method FindChunkPtr(rounded: nat, numBytes: nat, stream: Stream) returns (h: Handle)
      requires Valid() && Roundable(numBytes, rounded)
      modifies this`chunks, this`freeChunksList, this`recycled, this`home, this`bins, this`stats, this`nextAllocationId,
               this`trace, regionManager, ownershipIndex
      ensures Valid()
      ensures h == NO_CHUNK ==> forall g :: !Candidate(old(chunks), old(home), rounded, stream, g)
      ensures h == NO_CHUNK ==>
        trace == old(trace) && chunks == old(chunks) && home == old(home) && stats == old(stats)
      ensures h != NO_CHUNK ==>
        && IsBestFit(old(chunks), old(home), rounded, stream, h)
        && HandedOut(old(chunks), chunks, h, numBytes, stream) && h in home
        && trace == Then(old(trace), Allocated(chunks[h].ptr, chunks[h].size, stream))
    {
      hide Structure, Settled, Candidate, HandedOut, Before;
      BinsHere();
      var found, b, pos := FindBestFit(chunks, home, bins, rounded, stream);
      if found {
        CandidateFacts(bins[b][pos], rounded, stream);
        h := ClaimChunk(b, pos, rounded, numBytes, stream);
      } else {
        h := NO_CHUNK;
      }
    }

    lemma BinsHere()
      requires Valid()
      ensures BinsOk(chunks, home, bins) && FreeAreBinned(chunks, home, NO_CHUNK)
    {
    }

    lemma CandidateFacts(h: Handle, rounded: nat, stream: Stream)
      requires Candidate(chunks, home, rounded, stream, h)
      ensures h in home && 0 <= h < |chunks| && !chunks[h].InUse() && Suits(chunks[h], rounded, stream)
    {
    }

    // ---------------------------------------------------------------- growing the arena

    /** Double the growth size until the request fits. */
    method GrowToFit(bytes: nat) returns (increased: bool)
      requires 0 < currRegionAllocationBytes <= SIZE_MAX
      modifies this`currRegionAllocationBytes
      ensures currRegionAllocationBytes == GrownTo(old(currRegionAllocationBytes), bytes)
      ensures increased <==> old(currRegionAllocationBytes) < bytes && old(currRegionAllocationBytes) <= SIZE_MAX / 2
    {
      increased := false;
      while bytes > currRegionAllocationBytes
        invariant 0 < currRegionAllocationBytes <= SIZE_MAX
        invariant GrownTo(currRegionAllocationBytes, bytes) == GrownTo(old(currRegionAllocationBytes), bytes)
        invariant increased ==> old(currRegionAllocationBytes) < bytes && old(currRegionAllocationBytes) <= SIZE_MAX / 2
        invariant !increased ==> currRegionAllocationBytes == old(currRegionAllocationBytes)
        decreases SIZE_MAX - currRegionAllocationBytes
      {
        if currRegionAllocationBytes > SIZE_MAX / 2 {
          currRegionAllocationBytes := SIZE_MAX;
          break;
        }
        currRegionAllocationBytes := currRegionAllocationBytes * 2;
        increased := true;
      }
    }

    /** What the memory budget leaves, in whole granules. */
    ghost function Available(): (a: nat)
      requires 0 <= stats.totalAllocatedBytes <= config.maxMem
      reads this`stats
      ensures a % GRANULE == 0
    {
      (config.maxMem - stats.totalAllocatedBytes) / GRANULE * GRANULE
    }

    /** The configuration and the counters allow for growing. */
    ghost predicate CanGrow()
      reads this`stats, this`currRegionAllocationBytes
    {
      && config.IsValid() && config.InRange()
      && 0 <= stats.totalAllocatedBytes <= config.maxMem && 0 < currRegionAllocationBytes <= SIZE_MAX
    }

    /** The region size the device is asked for first, if the budget allows for the request. */
    ghost function FirstAttempt(rounded: nat): (bytes: nat)
      requires CanGrow() && rounded <= Available()
      reads this`stats, this`currRegionAllocationBytes
      ensures rounded <= bytes <= Available()
    {
      GrownToFits(currRegionAllocationBytes, rounded);
      if config.extendStrategy.SameAsRequested? then rounded
      else Min(GrownTo(currRegionAllocationBytes, rounded), Available())
    }

    /** The growth size after asking; beyond the budget nothing is asked. */
    ghost function NextGrowth(rounded: nat): nat
      requires CanGrow()
      reads this`stats, this`currRegionAllocationBytes
    {
      if rounded > Available() || config.extendStrategy.SameAsRequested? then currRegionAllocationBytes
      else GrowthAfter(currRegionAllocationBytes, rounded, config.maxPowerOfTwoExtendBytes)
    }

    /** The block the device gives for a request: of the first attempt that it grants, if it grants any. */
    ghost function Grant(rounded: nat): (block: Option<Block>)
      requires CanGrow()
      reads this`stats, this`currRegionAllocationBytes, device
    {
      if rounded == 0 || rounded > Available() then None
      else
        var sizes := Attempts(FirstAttempt(rounded), rounded);
        var k := device.FirstGranted(sizes, 0);
        if k == |sizes| then None else Some(Block(device.answer(device.calls + k, sizes[k]), sizes[k]))
    }

    /** The next region's size, and how the growth size moves on. */
    method GetExtendBytes(bytes: nat, available: nat) returns (extendBytes: nat)
      requires 0 < bytes <= available <= Ceiling(config.maxMem) && bytes % GRANULE == 0 && available % GRANULE == 0
      requires 0 < currRegionAllocationBytes <= SIZE_MAX && config.IsValid() && config.InRange()
      modifies this`currRegionAllocationBytes
      ensures bytes <= extendBytes <= available && 0 < currRegionAllocationBytes <= SIZE_MAX
      ensures config.extendStrategy.SameAsRequested? ==>
        extendBytes == bytes && currRegionAllocationBytes == old(currRegionAllocationBytes)
      ensures config.extendStrategy.NextPowerOfTwo? ==>
        && extendBytes == Min(GrownTo(old(currRegionAllocationBytes), bytes), available)
        && currRegionAllocationBytes ==
             GrowthAfter(old(currRegionAllocationBytes), bytes, config.maxPowerOfTwoExtendBytes)
      ensures config.extendStrategy.NextPowerOfTwo? ==>
        var curr, cap := old(currRegionAllocationBytes), config.maxPowerOfTwoExtendBytes;
        if curr < bytes && curr <= SIZE_MAX / 2 then currRegionAllocationBytes == GrownTo(curr, bytes)
        else if curr < bytes then currRegionAllocationBytes == cap
        else currRegionAllocationBytes == if curr < cap / 2 then curr * 2 else cap
      ensures
        WholeGrowth(config)
        && (config.extendStrategy.NextPowerOfTwo? ==> GrowsWhole(old(currRegionAllocationBytes), config.maxMem)) ==>
          && extendBytes % GRANULE == 0
          && (config.extendStrategy.NextPowerOfTwo? ==> GrowsWhole(currRegionAllocationBytes, config.maxMem))
    {
      GrownToFits(currRegionAllocationBytes, bytes);
      if config.extendStrategy.NextPowerOfTwo? && WholeGrowth(config)
         && GrowsWhole(currRegionAllocationBytes, config.maxMem) {
        GrowsWholeFor(currRegionAllocationBytes, bytes, config.maxMem);
        GrowthStaysWhole(currRegionAllocationBytes, bytes, config.maxPowerOfTwoExtendBytes, config.maxMem);
      }
      hide GrownTo, GrowsWhole;
      if config.extendStrategy.NextPowerOfTwo? {
        var increased := GrowToFit(bytes);
        extendBytes := Min(currRegionAllocationBytes, available);
        if !increased {
          var maxExtend := config.maxPowerOfTwoExtendBytes;
          if currRegionAllocationBytes < maxExtend / 2 {
            currRegionAllocationBytes := currRegionAllocationBytes * 2;
          } else {
            currRegionAllocationBytes := maxExtend;
          }
        }
      } else {
        extendBytes := bytes;
      }
    }

    /** Ask the device, backing off by a tenth at a time while the request still fits above 8 KiB. */
    method AllocateWithBackpedal(bytes: nat, rounded: nat) returns (mem: int, got: nat)
      requires device.Valid() && 0 < rounded <= bytes <= SIZE_MAX
      modifies device
      ensures device.Valid()
      ensures var sizes := Attempts(bytes, rounded); var k := old(device.FirstGranted(sizes, 0));
              && (mem == 0 <==> k == |sizes|)
              && (mem != 0 ==> got == sizes[k] && mem == device.answer(old(device.calls) + k, got))
              && device.calls == old(device.calls) + Min(k + 1, |sizes|)
      ensures mem == 0 ==> device.blocks == old(device.blocks)
      ensures mem != 0 ==>
        && rounded <= got <= bytes && (got == bytes || (got % GRANULE == 0 && got >= 8 * 1024))
        && mem !in old(device.blocks) && device.blocks == old(device.blocks)[mem := got]
        && forall q :: q in old(device.blocks) ==> Disjoint(mem, got, q, old(device.blocks)[q])
    {
      hide Attempts, RoundedBytes, Fits, PairwiseDisjoint, Disjoint;
      ghost var sizes, k: nat := Attempts(bytes, rounded), 0;
      got := bytes;
      mem := device.Alloc(got);
      while mem == 0
        invariant device.Valid() && k < |sizes| && got == sizes[k] > 0 && device.calls == old(device.calls) + k + 1
        invariant old(device.FirstGranted(sizes, 0)) == old(device.FirstGranted(sizes, k))
        invariant old(device.GrantsAt(k, sizes[k])) <==> mem != 0
        invariant mem == 0 ==> device.blocks == old(device.blocks)
        invariant mem != 0 ==>
          && mem == device.answer(old(device.calls) + k, got)
          && mem !in old(device.blocks) && device.blocks == old(device.blocks)[mem := got]
          && forall q :: q in old(device.blocks) ==> Disjoint(mem, got, q, old(device.blocks)[q])
        decreases got, mem == 0
      {
        AttemptsShrink(bytes, rounded, k);
        var next := RoundedBytes(got * 9 / 10);
        if next < rounded || next < 8 * 1024 {
          k := k + 1;
          return;
        }
        k := k + 1;
        got := next;
        mem := device.Alloc(got);
      }
      AttemptsShrink(bytes, rounded, k);
    }

    /** A record describing a whole region as one free, unowned chunk, not linked in yet. */
    method RecordForRegion(b: int, n: nat) returns (h: Handle)
      requires RecordsOk(chunks, home.Keys, freeChunksList, recycled) && OwnersAgree(chunks, ownershipIndex.owner)
      requires InRange(chunks, home)
      modifies this`chunks, this`freeChunksList, this`recycled
      ensures RecordsOk(chunks, home.Keys + {h}, freeChunksList, recycled) && OwnersAgree(chunks, ownershipIndex.owner)
      ensures RegionChunk(old(chunks), chunks, home, h, b, n) && chunks[h].binNum == NO_BIN
    {
      hide RecordsOk, OwnersAgree;
      ghost var before := chunks;
      h := AllocateChunk();
      ghost var grown := chunks;
      OwnersFrame(before, grown, ownershipIndex.owner);
      chunks := chunks[h := chunks[h].(ptr := b, size := n, allocationId := NOT_ALLOCATED,
                                       prev := NO_CHUNK, next := NO_CHUNK, stream := NO_STREAM)];
      RecordsFrame(grown, chunks, home.Keys + {h}, freeChunksList, recycled);
      OwnersFrame(grown, chunks, ownershipIndex.owner);
    }

    /** Enter a fresh block as a region with one free, unowned chunk; refused if it is no whole number of granules. */
    method InstallRegion(b: int, n: nat) returns (ok: bool, ghost h: Handle)
      requires Structure() && Coalesced(chunks, home) && FreeAreBinned(chunks, home, NO_CHUNK)
      requires FirstChunks(home, regionManager.spans, regionManager.slots)
      requires n > 0 && b !in regionManager.spans
      requires forall c :: c in regionManager.spans ==> Disjoint(c, regionManager.spans[c], b, n)
      modifies this`chunks, this`freeChunksList, this`recycled, this`home, this`bins, regionManager
      ensures ok <==> n % GRANULE == 0
      ensures Structure() && Coalesced(chunks, home) && FreeAreBinned(chunks, home, NO_CHUNK)
      ensures FirstChunks(home, regionManager.spans, regionManager.slots)
      ensures ok ==>
        && regionManager.spans == old(regionManager.spans)[b := n]
        && home == old(home)[h := b] && RegionChunk(old(chunks), chunks, old(home), h, b, n)
      ensures !ok ==> chunks == old(chunks) && home == old(home) && regionManager.spans == old(regionManager.spans)
    {
      hide Layout, SlotsAgree, BinsOk, RecordsOk, OwnersAgree, FaithfulImpls, Consistent, Tables, FirstChunks,
           Coalesced, Seam,
           SameRegions, InRange, FreeAreBinned;
      ghost var before, was, spans := chunks, home, regionManager.spans;
      LayoutInRange(chunks, home, spans);
      ok := regionManager.AddAllocationRegion(b, n, stats.numArenaExtensions);
      if !ok {
        h := NO_CHUNK;
        return;
      }
      var handle := RecordForRegion(b, n);
      h := handle;
      assert SpanCovers(regionManager.spans, b, b);
      GranuleStartExact(b, b);
      var entered := regionManager.SetHandle(b, handle);
      assert entered;
      home := home[handle := b];
      RegionRestores(before, chunks, ThisIndex().(home := was, spans := spans, slots := old(regionManager.slots)), h,
                     b, n);
      AddRegionSeams(before, chunks, was, spans, h, b);
      FreeButNew(before, was, h, b, n);
      BinNewChunk(handle);
    }

    lemma FreeButNew(before: seq<Chunk>, was: map<Handle, int>, h: Handle, b: int, n: int)
      requires InRange(before, was) && FreeAreBinned(before, was, NO_CHUNK) && RegionChunk(before, chunks, was, h, b, n)
      requires home == was[h := b]
      ensures FreeAreBinned(chunks, home, h)
    {
    }

    /** Bin a chunk in hand; no seam comes or goes. */
    method BinNewChunk(h: Handle)
      requires Structure() && h in home && 0 <= h < |chunks| && !chunks[h].InUse() && chunks[h].binNum == NO_BIN
      requires FreeAreBinned(chunks, home, h) && Coalesced(chunks, home)
      modifies this`chunks, this`bins
      ensures Structure() && FreeAreBinned(chunks, home, NO_CHUNK) && Coalesced(chunks, home)
      ensures |chunks| == |old(chunks)| && chunks[h] == old(chunks)[h].(binNum := chunks[h].binNum)
      ensures forall g :: 0 <= g < |chunks| && g != h ==> chunks[g] == old(chunks)[g]
    {
      LayoutHere();
      BinningIsQuiet(chunks, home, regionManager.spans, h, BinNumForSize(chunks[h].size));
      hide Structure, Seam;
      InsertFreeChunkIntoBin(h);
    }

    /** A free chunk that any stream may use for the request. */
    ghost predicate FreshChunk(h: Handle, rounded: nat)
      reads this`chunks, this`home
    {
      h in home && 0 <= h < |chunks| && !chunks[h].InUse() && chunks[h].size >= rounded && chunks[h].stream == NO_STREAM
    }

    lemma BeyondBudget(rounded: nat)
      requires CanGrow() && rounded > Available()
      ensures Grant(rounded).None? && NextGrowth(rounded) == currRegionAllocationBytes
    {
    }

    /** What Grant and NextGrowth say about a request within the budget. */
    lemma GrowthPlan(rounded: nat)
      requires CanGrow() && 0 < rounded <= Available()
      ensures config.extendStrategy.SameAsRequested? ==>
        FirstAttempt(rounded) == rounded && NextGrowth(rounded) == currRegionAllocationBytes
      ensures config.extendStrategy.NextPowerOfTwo? ==>
        && FirstAttempt(rounded) == Min(GrownTo(currRegionAllocationBytes, rounded), Available())
        && NextGrowth(rounded) ==
             GrowthAfter(currRegionAllocationBytes, rounded, config.maxPowerOfTwoExtendBytes)
      ensures Grant(rounded) ==
        var sizes := Attempts(FirstAttempt(rounded), rounded); var k := device.FirstGranted(sizes, 0);
        if k == |sizes| then None else Some(Block(device.answer(device.calls + k, sizes[k]), sizes[k]))
    {
    }

    /** A request gets a block exactly if the device grants one of the attempts; the block then holds it. */
    lemma GrantIff(rounded: nat)
      requires CanGrow() && 0 < rounded <= Available()
      ensures var sizes := Attempts(FirstAttempt(rounded), rounded);
              Grant(rounded).Some? <==> exists i :: 0 <= i < |sizes| && device.GrantsAt(i, sizes[i])
      ensures Grant(rounded).Some? ==> rounded <= Grant(rounded).value.size <= Available()
    {
      hide FirstAttempt, Attempts, NextGrowth, GrownTo, GrowthAfter;
      GrowthPlan(rounded);
      var first := FirstAttempt(rounded);
      var sizes := Attempts(first, rounded);
      var k := device.FirstGranted(sizes, 0);
      if k < |sizes| {
        AttemptsShrink(first, rounded, k);
      }
    }

    /** The block is ragged, so that the region table refuses it, exactly if the first attempt is and is granted. */
    lemma RaggedIff(rounded: nat)
      requires CanGrow() && 0 < rounded <= Available()
      ensures Grant(rounded).Some? && Grant(rounded).value.size % GRANULE != 0 <==>
              FirstAttempt(rounded) % GRANULE != 0 && device.Grants(FirstAttempt(rounded))
    {
      hide FirstAttempt, Attempts, NextGrowth, GrownTo, GrowthAfter;
      GrowthPlan(rounded);
      var first := FirstAttempt(rounded);
      var sizes := Attempts(first, rounded);
      var k := device.FirstGranted(sizes, 0);
      if k < |sizes| {
        AttemptsShrink(first, rounded, k);
      }
      assert device.GrantsAt(0, sizes[0]) == device.Grants(first);
    }

    /** Choose a size and ask the device for a block; the request is within the budget. */
    method AskDevice(rounded: nat, available: nat) returns (mem: int, got: nat)
      requires device.Valid() && CanGrow() && 0 < rounded <= available && rounded % GRANULE == 0
      requires available == Available()
      modifies this`currRegionAllocationBytes, device
      ensures device.Valid() && 0 < currRegionAllocationBytes <= SIZE_MAX
      ensures currRegionAllocationBytes == old(NextGrowth(rounded))
      ensures old(Grant(rounded)) == if mem == 0 then None else Some(Block(mem, got))
      ensures mem == 0 ==> device.blocks == old(device.blocks)
      ensures mem != 0 ==>
        && rounded <= got <= available
        && mem !in old(device.blocks) && device.blocks == old(device.blocks)[mem := got]
        && (forall q :: q in old(device.blocks) ==> Disjoint(mem, got, q, old(device.blocks)[q]))
      ensures
        WholeGrowth(config)
        && (config.extendStrategy.NextPowerOfTwo? ==> GrowsWhole(old(currRegionAllocationBytes), config.maxMem)) ==>
          && (mem != 0 ==> got % GRANULE == 0)
          && (config.extendStrategy.NextPowerOfTwo? ==> GrowsWhole(currRegionAllocationBytes, config.maxMem))
    {
      hide GrowthAfter, GrownTo, PairwiseDisjoint, RoundedBytes, Grant, NextGrowth, FirstAttempt, Attempts, GrowsWhole;
      GrowthPlan(rounded);
      assert available <= Ceiling(config.maxMem);
      var bytes := GetExtendBytes(rounded, available);
      mem, got := AllocateWithBackpedal(bytes, rounded);
    }

    /** Ask the device for a block, within the memory budget. */
    method ObtainBlock(rounded: nat) returns (mem: int, got: nat)
      requires Valid() && 0 < rounded <= SIZE_MAX && rounded % GRANULE == 0
      modifies this`currRegionAllocationBytes, device
      ensures mem == 0 ==> Valid() && device.blocks == old(device.blocks)
      ensures 0 <= stats.totalAllocatedBytes <= config.maxMem && CanGrow() && old(CanGrow())
      ensures mem != 0 ==>
        && rounded <= got && stats.totalAllocatedBytes + got <= config.maxMem
        && mem !in old(device.blocks) && device.blocks == old(device.blocks)[mem := got]
        && (forall q :: q in old(device.blocks) ==> Disjoint(mem, got, q, old(device.blocks)[q]))
        && (WholeGrowth(config) ==> got % GRANULE == 0)
        && Structure() && Coalesced(chunks, home) && FreeAreBinned(chunks, home, NO_CHUNK)
        && FirstChunks(home, regionManager.spans, regionManager.slots)
        && Ledger(chunks, home, regionManager.spans, old(device.blocks)) && device.Valid()
      ensures currRegionAllocationBytes == old(NextGrowth(rounded))
      ensures old(Grant(rounded)) == if mem == 0 then None else Some(Block(mem, got))
    {
      hide StructureOn, FirstChunks, Coalesced, AllTight, BlocksAgree, HistoryAgrees, GrowsWhole, Balanced,
           MapSum, InUseSizes, FreeAreBinned, PairwiseDisjoint, Grant, NextGrowth;
      DeviceValid();
      TotalsNonNegative();
      var available: nat := (config.maxMem - stats.totalAllocatedBytes) / GRANULE * GRANULE;
      if rounded > available {
        BeyondBudget(rounded);
        return 0, 0;
      }
      mem, got := AskDevice(rounded, available);
    }

    lemma LedgerBlocks(spans: map<int, int>, blocks: map<int, int>)
      requires Ledger(chunks, home, spans, blocks)
      ensures BlocksAgree(blocks, spans, reservedChunks)
    {
    }

    /** The block goes back to the device, but stays counted. */
    method CountLeak(mem: int, got: nat, ghost blocks: map<int, int>)
      requires Ledger(chunks, home, regionManager.spans, blocks) && device.Valid()
      requires stats.totalAllocatedBytes + got <= config.maxMem && mem !in blocks && device.blocks == blocks[mem := got]
      requires !WholeGrowth(config)
      modifies this`stats, this`leaked, device
      ensures Ledger(chunks, home, regionManager.spans, device.blocks) && leaked == old(leaked) + got
      ensures device.blocks == blocks
    {
      hide AllTight, BlocksAgree, HistoryAgrees, InUseSizes, Balanced, PairwiseDisjoint;
      BalancedAfterLeak(stats, regionManager.spans, reservedChunks, InUseSizes(chunks, home), leaked, config.maxMem,
                        got);
      stats := stats.(totalAllocatedBytes := stats.totalAllocatedBytes + got);
      device.Free(mem);
      assert device.blocks == blocks;
      leaked := leaked + got;
    }

    /** The block is counted and recorded as a region. */
    method CountRegion(ghost before: seq<Chunk>, ghost was: map<Handle, int>, ghost spans: map<int, int>,
                       ghost h: Handle, mem: int, got: nat, ghost blocks: map<int, int>)
      requires Ledger(before, was, spans, blocks) && Layout(before, was, spans, NO_CHUNK)
      requires got > 0 && mem > 0 && mem !in spans && mem !in blocks && device.blocks == blocks[mem := got]
      requires forall q :: q in blocks ==> Disjoint(mem, got, q, blocks[q])
      requires stats.totalAllocatedBytes + got <= config.maxMem && regionManager.spans == spans[mem := got]
      requires RegionChunk(before, chunks, was, h, mem, got) && home == was[h := mem]
      modifies this`stats, this`trace
      ensures Ledger(chunks, home, regionManager.spans, device.blocks) && trace == Then(old(trace), Mapped(mem, got))
    {
      hide AllTight, BlocksAgree, HistoryAgrees, InUseSizes, Balanced, Layout, RegionChunk, MapSum;
      RegionBooks(before, chunks, was, ThisBooks(spans, blocks), h, mem, got);
      BalancedAfterRegion(stats, spans, reservedChunks, InUseSizes(before, was), InUseSizes(chunks, home), leaked,
                          config.maxMem, mem, got);
      stats := stats.(totalAllocatedBytes := stats.totalAllocatedBytes + got,
                      numArenaExtensions := stats.numArenaExtensions + 1);
      trace := Then(trace, Mapped(mem, got));
    }

    /** Enter the block just obtained, or give it back if it cannot be a region. */
    method EnterBlock(mem: int, got: nat, ghost blocks: map<int, int>) returns (ok: bool, ghost h: Handle)
      requires Structure() && Coalesced(chunks, home) && FreeAreBinned(chunks, home, NO_CHUNK)
      requires FirstChunks(home, regionManager.spans, regionManager.slots)
      requires Ledger(chunks, home, regionManager.spans, blocks) && device.Valid()
      requires got > 0 && stats.totalAllocatedBytes + got <= config.maxMem
      requires mem > 0 && mem !in blocks && device.blocks == blocks[mem := got]
      requires forall q :: q in blocks ==> Disjoint(mem, got, q, blocks[q])
      requires WholeGrowth(config) ==> got % GRANULE == 0
      modifies this`chunks, this`freeChunksList, this`recycled, this`home, this`bins, this`stats, this`trace,
               this`leaked,
               device, regionManager
      ensures Valid() && (ok <==> got % GRANULE == 0)
      ensures ok ==>
        && RegionChunk(old(chunks), chunks, old(home), h, mem, got) && home == old(home)[h := mem]
        && trace == Then(old(trace), Mapped(mem, got)) && leaked == old(leaked)
      ensures !ok ==>
        && chunks == old(chunks) && home == old(home) && trace == old(trace) && leaked == old(leaked) + got
        && device.blocks == blocks
    {
      hide Structure, FirstChunks, Coalesced, FreeAreBinned, RegionChunk, PairwiseDisjoint, Ledger;
      ghost var before, was, spans := chunks, home, regionManager.spans;
      LayoutHere();
      LedgerBlocks(spans, blocks);
      FreshForRegions(blocks, spans, reservedChunks, mem, got);
      ok, h := InstallRegion(mem, got);
      if !ok {
        CountLeak(mem, got, blocks);
      } else {
        CountRegion(before, was, spans, h, mem, got, blocks);
      }
    }

    /**
     * Obtain a region for the request. It comes in as one free, unowned chunk large enough for it.
     * The one way to throw is a first attempt that the device grants and that is no whole number of
     * granules: the block goes back to the device, but its bytes stay counted as allocated.
     */
    method Extend(rounded: nat) returns (result: ExtendResult, ghost h: Handle)
      requires Valid() && 0 < rounded <= SIZE_MAX && rounded % GRANULE == 0
      modifies this`chunks, this`freeChunksList, this`recycled, this`home, this`bins, this`stats, this`trace,
               this`leaked,
               this`currRegionAllocationBytes, device, regionManager
      ensures Valid() && old(CanGrow())
      ensures currRegionAllocationBytes == old(NextGrowth(rounded))
      ensures match old(Grant(rounded))
              case None => result.Refused?
              case Some(block) => if block.size % GRANULE == 0 then result.Extended? else result.Threw?
      ensures result.Extended? ==>
        var block := old(Grant(rounded)).value;
        && RegionChunk(old(chunks), chunks, old(home), h, block.ptr, block.size) && home == old(home)[h := block.ptr]
        && FreshChunk(h, rounded) && leaked == old(leaked)
        && trace == Then(old(trace), Mapped(block.ptr, block.size))
      ensures !result.Extended? ==>
        trace == old(trace) && chunks == old(chunks) && home == old(home) && device.blocks == old(device.blocks)
      ensures result.Refused? ==> leaked == old(leaked) && stats == old(stats)
      ensures result.Threw? ==> !WholeGrowth(config) && leaked == old(leaked) + old(Grant(rounded)).value.size
    {
      hide Structure, Settled, Coalesced, FreeAreBinned, FirstChunks, Ledger, RegionChunk;
      h := NO_CHUNK;
      ghost var blocks := device.blocks;
      var mem, got := ObtainBlock(rounded);
      if mem == 0 {
        return Refused, h;
      }
      ghost var before, was := chunks, home;
      var ok;
      ok, h := EnterBlock(mem, got, blocks);
      if !ok {
        return Threw, h;
      }
      RegionChunkFacts(before, was, h, mem, got);
      return Extended, h;
    }

    /** What was lost to ragged regions is still counted. */
    lemma LeakIsCounted()
      requires Valid()
      ensures 0 <= leaked <= stats.totalAllocatedBytes
    {
      hide StructureOn, FirstChunks, Coalesced, AllTight, HistoryAgrees, BlocksAgree, FreeAreBinned, InUseSizes, MapSum;
      TotalsNonNegative();
    }

    lemma GrowthHere()
      requires Valid()
      ensures CanGrow()
    {
      hide StructureOn, FirstChunks, Coalesced, AllTight, HistoryAgrees, BlocksAgree, FreeAreBinned, InUseSizes, MapSum;
      TotalsNonNegative();
    }

    lemma TotalsNonNegative()
      requires Valid()
      ensures MapSum(regionManager.spans) >= 0 && MapSum(reservedChunks) >= 0
      ensures 0 <= stats.totalAllocatedBytes <= config.maxMem <= SIZE_MAX
    {
      hide StructureOn, FirstChunks, Coalesced, AllTight, HistoryAgrees, BlocksAgree, FreeAreBinned, InUseSizes, MapSum;
      BlocksPositive(device.blocks, regionManager.spans, reservedChunks);
      assert forall b :: b in regionManager.spans ==> regionManager.spans[b] >= 0;
      assert forall b :: b in reservedChunks ==> reservedChunks[b] >= 0;
      MapSumNonNegative(regionManager.spans);
      MapSumNonNegative(reservedChunks);
    }

    lemma RegionChunkFacts(before: seq<Chunk>, was: map<Handle, int>, h: Handle, b: int, n: nat)
      requires RegionChunk(before, chunks, was, h, b, n) && home == was[h := b]
      ensures FreshChunk(h, n) && h !in was && chunks[h].ptr == b && chunks[h].size == n
    {
    }

    /** The block at ptr was handed out for the request: big enough, tight, and recorded last. */
    ghost predicate Served(before: Trace, ptr: int, numBytes: nat, stream: Stream)
      reads this
    {
      exists h :: ServedBy(before, ptr, numBytes, stream, h)
    }

    ghost predicate ServedBy(before: Trace, ptr: int, numBytes: nat, stream: Stream, h: Handle)
      reads this
    {
      && h in home && 0 <= h < |chunks| && ptr == chunks[h].ptr
      && chunks[h].InUse() && chunks[h].requestedSize == numBytes && numBytes <= chunks[h].size
      && Tight(chunks[h], config.maxDeadBytesPerChunk)
      && trace == Then(before, Allocated(ptr, chunks[h].size, stream))
    }

    lemma ServedLast(before: Trace, ptr: int, numBytes: nat, stream: Stream) returns (n: nat)
      requires Served(before, ptr, numBytes, stream)
      ensures trace == Then(before, Allocated(ptr, n, stream))
    {
      var h :| ServedBy(before, ptr, numBytes, stream, h);
      n := chunks[h].size;
    }

    lemma ServedHere(before: Trace, numBytes: nat, stream: Stream, h: Handle, cs: seq<Chunk>)
      requires Valid() && h in home && HandedOut(cs, chunks, h, numBytes, stream)
      requires Roundable(numBytes, RoundedBytes(numBytes))
      requires trace == Then(before, Allocated(chunks[h].ptr, chunks[h].size, stream))
      ensures Served(before, chunks[h].ptr, numBytes, stream) && chunks[h].ptr > 0
    {
      assert ServedBy(before, chunks[h].ptr, numBytes, stream, h);
      PlacedAt(chunks, home, regionManager.spans, NO_CHUNK, h);
      BlocksPositive(device.blocks, regionManager.spans, reservedChunks);
      hide StructureOn;
    }

    /** Some free chunk suits the request. */
    ghost predicate AnySuits(numBytes: nat, stream: Stream)
      reads this`chunks, this`home
    {
      exists h :: Candidate(chunks, home, RoundedBytes(numBytes), stream, h)
    }

    /**
     * A request whose rounding wraps is taken for one of no bytes: any free chunk that the stream may use
     * suits it, and is cut to nothing. AllocateRawInternal takes only requests that do not wrap.
     */
    lemma WrappedRequest(numBytes: nat, stream: Stream, h: Handle)
      requires numBytes <= SIZE_MAX < numBytes + GRANULE - 1
      requires h in home && 0 <= h < |chunks| && !chunks[h].InUse()
      requires chunks[h].stream == NO_STREAM || chunks[h].stream == stream
      ensures RoundedBytes(numBytes) == 0 && Candidate(chunks, home, RoundedBytes(numBytes), stream, h)
      ensures ShouldSplit(chunks[h].size, RoundedBytes(numBytes))
    {
      assert (numBytes + GRANULE - 1) % (SIZE_MAX + 1) == numBytes + GRANULE - 1 - (SIZE_MAX + 1);
    }

    lemma EmptySuitsNothing(numBytes: nat, stream: Stream)
      requires home == map[]
      ensures !AnySuits(numBytes, stream)
    {
    }

    /** The request was served from the free chunk that fits it best, without growing. */
    twostate predicate BestFitServed(numBytes: nat, stream: Stream, p: int)
      reads this
    {
      && Served(old(trace), p, numBytes, stream) && leaked == old(leaked)
      && exists h ::
           && IsBestFit(old(chunks), old(home), RoundedBytes(numBytes), stream, h) && p == old(chunks)[h].ptr
           && trace == Then(old(trace), Allocated(p, Piece(old(chunks)[h].size, RoundedBytes(numBytes)), stream))
    }

    /**
     * What a request does that no free chunk suits. If the device grants none of the attempts, or the
     * budget allows for none, nothing but the growth size changes. A granted block of whole granules
     * becomes a region, and the request is served at its start. Any other granted block is given back,
     * and its bytes stay counted.
     */
    twostate predicate GrewFor(numBytes: nat, stream: Stream, p: int)
      requires old(CanGrow())
      reads this, device
    {
      && currRegionAllocationBytes == old(NextGrowth(RoundedBytes(numBytes)))
      && (p == 0 ==>
            trace == old(trace) && chunks == old(chunks) && home == old(home) && device.blocks == old(device.blocks))
      && match old(Grant(RoundedBytes(numBytes)))
         case None => p == 0 && leaked == old(leaked) && stats == old(stats)
         case Some(block) =>
           if block.size % GRANULE != 0 then p == 0 && leaked == old(leaked) + block.size
           else
             && p == block.ptr && leaked == old(leaked)
             && Served(Then(old(trace), Mapped(block.ptr, block.size)), p, numBytes, stream)
             && trace == Then(Then(old(trace), Mapped(block.ptr, block.size)),
                              Allocated(p, Piece(block.size, RoundedBytes(numBytes)), stream))
    }

    /**
     * Allocate on a stream. If any free chunk suits, the best-fitting one is handed out and the
     * arena does not grow; otherwise the arena grows, and then always has a chunk for the request.
     */
    method AllocateRawInternal(numBytes: nat, stream: Stream) returns (p: int)
      requires Valid() && numBytes + GRANULE - 1 <= SIZE_MAX
      modifies this`chunks, this`freeChunksList, this`recycled, this`home, this`bins, this`stats, this`trace,
               this`leaked,
               this`nextAllocationId, this`currRegionAllocationBytes, device, regionManager, ownershipIndex
      ensures Valid() && reservedChunks == old(reservedChunks) && old(CanGrow())
      ensures WholeGrowth(config) ==> leaked == old(leaked)
      ensures numBytes == 0 ==>
        p == 0 && trace == old(trace) && chunks == old(chunks) && home == old(home) && stats == old(stats)
      ensures numBytes > 0 && old(AnySuits(numBytes, stream)) ==> p > 0 && BestFitServed(numBytes, stream, p)
      ensures numBytes > 0 && !old(AnySuits(numBytes, stream)) ==> p >= 0 && GrewFor(numBytes, stream, p)
    {
      hide Structure, Settled, Candidate, Before, Served, HandedOut, ServedBy, FreshChunk, RegionChunk, InRange, Grant,
           Piece;
      GrowthHere();
      if numBytes == 0 {
        return 0;
      }
      var rounded := RoundedBytes(numBytes);
      RoundedBytesCovers(numBytes);
      ghost var start := trace;
      ghost var cs := chunks;
      var h := FindChunkPtr(rounded, numBytes, stream);
      if h != NO_CHUNK {
        HandedOutFacts(cs, h, numBytes, stream);
        ServedHere(start, numBytes, stream, h, cs);
        return chunks[h].ptr;
      }
      StructureInRange();
      ghost var was, block := home, Grant(rounded);
      var result;
      ghost var added;
      result, added := Extend(rounded);
      if !result.Extended? {
        return 0;
      }
      OnlyFreshSuits(cs, was, added, block.value.ptr, block.value.size, rounded, stream);
      cs := chunks;
      h := FindChunkPtr(rounded, numBytes, stream);
      if h == NO_CHUNK {
        assert false;
      }
      HandedOutFacts(cs, h, numBytes, stream);
      ServedHere(Then(start, Mapped(block.value.ptr, block.value.size)), numBytes, stream, h, cs);
      return chunks[h].ptr;
    }

    lemma HandedOutFacts(cs: seq<Chunk>, h: Handle, numBytes: nat, stream: Stream)
      requires HandedOut(cs, chunks, h, numBytes, stream)
      ensures 0 <= h < |cs| <= |chunks| && chunks[h].ptr == cs[h].ptr
      ensures chunks[h].size == Piece(cs[h].size, RoundedBytes(numBytes))
    {
    }

    /** Where nothing suited before, the new region's chunk is all that suits. */
    lemma OnlyFreshSuits(cs: seq<Chunk>, was: map<Handle, int>, h: Handle, b: int, n: nat, rounded: nat, stream: Stream)
      requires RegionChunk(cs, chunks, was, h, b, n) && home == was[h := b] && FreshChunk(h, rounded)
      requires InRange(cs, was) && forall g :: !Candidate(cs, was, rounded, stream, g)
      ensures 0 <= h < |chunks| && chunks[h].ptr == b && chunks[h].size == n
      ensures Candidate(chunks, home, rounded, stream, h)
      ensures forall g :: Candidate(chunks, home, rounded, stream, g) <==> g == h
    {
      forall g
        ensures Candidate(chunks, home, rounded, stream, g) <==> g == h
      {
        assert g in was ==> !Candidate(cs, was, rounded, stream, g);
      }
    }

    /** A chunk suits the request, or the device grants a block of whole granules for it. */
    ghost predicate CanServe(size: nat, stream: Stream)
      requires CanGrow()
      reads this, device
    {
      var block := Grant(RoundedBytes(size));
      AnySuits(size, stream) || (block.Some? && block.value.size % GRANULE == 0)
    }

    /**
     * Allocate for a stream, or outside the arena if there is no stream or the stream has no native
     * handle and so no release to wait for. Exceptions become a null result.
     */
    method AllocOnStream(size: nat, stream: Stream, hasHandle: bool) returns (p: int)
      requires Valid() && (stream != NO_STREAM && hasHandle ==> size + GRANULE - 1 <= SIZE_MAX)
      modifies this`chunks, this`freeChunksList, this`recycled, this`home, this`bins, this`stats, this`trace,
               this`leaked,
               this`nextAllocationId, this`currRegionAllocationBytes, this`reservedChunks, device, regionManager,
               ownershipIndex
      ensures Valid() && old(CanGrow())
      ensures WholeGrowth(config) ==> leaked == old(leaked)
      ensures p == 0 ==> trace == old(trace)
      ensures stream == NO_STREAM || !hasHandle ==> ReservedFor(size, p)
      ensures stream != NO_STREAM && hasHandle ==>
        && reservedChunks == old(reservedChunks)
        && (size == 0 ==> p == 0)
        && (size > 0 && old(AnySuits(size, stream)) ==> BestFitServed(size, stream, p))
        && (size > 0 && !old(AnySuits(size, stream)) ==> GrewFor(size, stream, p))
      ensures stream != NO_STREAM && hasHandle ==> (p != 0 <==> size > 0 && old(CanServe(size, stream)))
    {
      hide Structure, Settled, Candidate, Before, Served, AnySuits;
      GrowthHere();
      if stream == NO_STREAM || !hasHandle {
        p := Reserve(size);
      } else {
        p := AllocateRawInternal(size, stream);
      }
    }

    // ---------------------------------------------------------------- releasing a stream

    lemma StartOfWalk(i: nat)
      requires Structure() && FirstChunks(home, regionManager.spans, regionManager.slots)
      requires i < |regionManager.regions|
      ensures var b := regionManager.regions[i].ptr;
              && SpanCovers(regionManager.spans, b, b) && GranuleStart(b, b) == b
              && b + regionManager.spans[b] == regionManager.regions[i].End()
              && var h := SlotOf(regionManager.slots, b);
                 h in home && 0 <= h < |chunks| && Base(home, h) == b && chunks[h].ptr == b
    {
      var r := regionManager.regions[i];
      assert IsRegion(regionManager.regions, i, r.ptr, r.memorySize);
      assert IsSpan(regionManager.spans, r.ptr, r.memorySize);
      GranuleStartExact(r.ptr, r.ptr);
    }

    /** One step of the walk over a region's chunks: coalesce the chunk if it is free, and move on. */
    method WalkStep(h: Handle, ghost impl: Impl) returns (next: Handle, ghost limit: int)
      requires Structure() && h in home && 0 <= h < |chunks|
      requires FreeAreBinned(chunks, home, NO_CHUNK) && FirstChunks(home, regionManager.spans, regionManager.slots)
      requires Ledger(chunks, home, regionManager.spans, device.blocks) && Disowned(chunks, home, implOf, impl)
      requires NoSeamBelow(chunks, home, chunks[h].ptr)
      modifies this`chunks, this`freeChunksList, this`recycled, this`home, this`bins, regionManager, ownershipIndex
      ensures Structure()
      ensures FreeAreBinned(chunks, home, NO_CHUNK) && FirstChunks(home, regionManager.spans, regionManager.slots)
      ensures Ledger(chunks, home, regionManager.spans, device.blocks) && Disowned(chunks, home, implOf, impl)
      ensures NoSeamBelow(chunks, home, limit) && limit > old(chunks)[h].ptr
      ensures next == NO_CHUNK ==> limit == SpanEnd(regionManager.spans, Base(old(home), h))
      ensures next != NO_CHUNK ==>
        && next in home && 0 <= next < |chunks| && chunks[next].ptr == limit && Base(home, next) == Base(old(home), h)
        && limit < SpanEnd(regionManager.spans, Base(old(home), h))
      ensures regionManager.spans == old(regionManager.spans)
      ensures SameRegions(old(regionManager.regions), regionManager.regions)
    {
      hide Structure, FreeAreBinned, FirstChunks, Ledger, Seam, Layout, Quiet, Disowned, NoSeamBelow, SameRegions;
      PlacedHere(h);
      LayoutHere();
      ghost var b, at := Base(home, h), chunks[h].ptr;
      var r := h;
      if !chunks[h].InUse() {
        r := CoalesceInPlace(h, impl);
      } else {
        SeamsPastUsed(chunks, home, regionManager.spans, h);
        SameRegionsRefl(regionManager.regions);
      }
      PlacedHere(r);
      limit := chunks[r].End();
      next := chunks[r].next;
      if next != NO_CHUNK {
        PlacedHere(next);
      }
    }

    /** The free case of a walk step. */
    method CoalesceInPlace(h: Handle, ghost impl: Impl) returns (r: Handle)
      requires Structure() && h in home && 0 <= h < |chunks| && !chunks[h].InUse()
      requires FreeAreBinned(chunks, home, NO_CHUNK) && FirstChunks(home, regionManager.spans, regionManager.slots)
      requires Ledger(chunks, home, regionManager.spans, device.blocks) && Disowned(chunks, home, implOf, impl)
      requires NoSeamBelow(chunks, home, chunks[h].ptr)
      modifies this`chunks, this`freeChunksList, this`recycled, this`home, this`bins, regionManager, ownershipIndex
      ensures Structure() && r in home && 0 <= r < |chunks| && Base(home, r) == Base(old(home), h)
      ensures FreeAreBinned(chunks, home, NO_CHUNK) && FirstChunks(home, regionManager.spans, regionManager.slots)
      ensures Ledger(chunks, home, regionManager.spans, device.blocks) && Disowned(chunks, home, implOf, impl)
      ensures NoSeamBelow(chunks, home, chunks[r].End()) && old(chunks)[h].End() <= chunks[r].End()
      ensures regionManager.spans == old(regionManager.spans)
      ensures SameRegions(old(regionManager.regions), regionManager.regions)
    {
      hide Structure, FreeAreBinned, FirstChunks, Ledger, Seam, Layout, Quiet, Disowned, InRange, SameRegions;
      ghost var before, was := chunks, home;
      ghost var at := chunks[h].ptr;
      StructureInRange();
      LayoutHere();
      FreeIsBinned(h);
      BinsOfStructure();
      RemoveFreeChunkFromBin(h);
      ghost var out := chunks;
      StructureInRange();
      OutOfBin(before, h);
      r := CoalesceAndInsert(h);
      StructureInRange();
      LayoutHere();
      QuietTrans(before, out, chunks, was, was, home);
      QuietLedger(before, chunks, was, home, regionManager.spans, device.blocks);
      SeamsPastFree(chunks, home, regionManager.spans, r, at);
      QuietDisowned(before, was, impl);
    }

    lemma FreeIsBinned(h: Handle)
      requires FreeAreBinned(chunks, home, NO_CHUNK) && h in home && 0 <= h < |chunks| && !chunks[h].InUse()
      ensures chunks[h].binNum != NO_BIN
    {
    }

    lemma OutOfBin(before: seq<Chunk>, h: Handle)
      requires Layout(before, home, regionManager.spans, NO_CHUNK) && h in home && 0 <= h < |before|
      requires FreeAreBinned(before, home, NO_CHUNK) && chunks == before[h := before[h].(binNum := NO_BIN)]
      ensures FreeAreBinned(chunks, home, h) && Quiet(before, chunks, home, home)
      ensures forall p :: Seam(chunks, home, p) <==> Seam(before, home, p)
    {
      BinningIsQuiet(before, home, regionManager.spans, h, NO_BIN);
    }

    lemma QuietDisowned(before: seq<Chunk>, was: map<Handle, int>, impl: Impl)
      requires Structure() && Disowned(before, was, implOf, impl) && Quiet(before, chunks, was, home)
      ensures Disowned(chunks, home, implOf, impl)
    {
      DisownedStays(before, chunks, was, home, regionManager.spans, implOf, impl);
    }

    /** Walk one region's chunks; the list shrinks under the cursor, the cursor's address only grows. */
    method CoalesceRegion(i: nat, ghost impl: Impl)
      requires Structure() && i < |regionManager.regions|
      requires FreeAreBinned(chunks, home, NO_CHUNK) && FirstChunks(home, regionManager.spans, regionManager.slots)
      requires Ledger(chunks, home, regionManager.spans, device.blocks) && Disowned(chunks, home, implOf, impl)
      requires NoSeamBelow(chunks, home, regionManager.regions[i].ptr)
      modifies this`chunks, this`freeChunksList, this`recycled, this`home, this`bins, regionManager, ownershipIndex
      ensures Structure()
      ensures FreeAreBinned(chunks, home, NO_CHUNK) && FirstChunks(home, regionManager.spans, regionManager.slots)
      ensures Ledger(chunks, home, regionManager.spans, device.blocks) && Disowned(chunks, home, implOf, impl)
      ensures NoSeamBelow(chunks, home, old(regionManager.regions)[i].End())
      ensures regionManager.spans == old(regionManager.spans)
      ensures SameRegions(old(regionManager.regions), regionManager.regions)
    {
      hide Structure, FreeAreBinned, FirstChunks, Ledger, Seam, Disowned, NoSeamBelow, SlotOf;
      ghost var regions := regionManager.regions;
      ghost var b, end := regions[i].ptr, regions[i].End();
      StartOfWalk(i);
      RegionsValid();
      var found := regionManager.GetHandle(regionManager.regions[i].ptr);
      assert HasSlot(regionManager.slots, b, found.value);
      SlotIs(b, found.value);
      var h := found.value;
      ghost var limit := b;
      while h != NO_CHUNK
        invariant Structure()
        invariant FreeAreBinned(chunks, home, NO_CHUNK) && FirstChunks(home, regionManager.spans, regionManager.slots)
        invariant Ledger(chunks, home, regionManager.spans, device.blocks) && Disowned(chunks, home, implOf, impl)
        invariant NoSeamBelow(chunks, home, limit)
        invariant h == NO_CHUNK ==> limit == end
        invariant h != NO_CHUNK ==>
          h in home && 0 <= h < |chunks| && chunks[h].ptr == limit && Base(home, h) == b && limit < end
        invariant regionManager.spans == old(regionManager.spans) && end == SpanEnd(regionManager.spans, b)
        invariant SameRegions(regions, regionManager.regions)
        decreases end - limit
      {
        h, limit := WalkStep(h, impl);
      }
    }

    lemma SlotIs(p: int, h: Handle)
      requires HasSlot(regionManager.slots, p, h)
      ensures SlotOf(regionManager.slots, p) == h
    {
    }

    /** An owned record is a live chunk. */
    lemma OwnedIsLive(s: Stream, h: Handle)
      requires Structure() && Owns(ownershipIndex.owner, s, h)
      ensures 0 <= h < |chunks| && chunks[h].stream == s && s != NO_STREAM && h in home
    {
      assert 0 <= h < |chunks| && chunks[h].stream == s;
      if h !in home {
        assert h in recycled;
        IdleInChain(chunks, freeChunksList, recycled, h);
      }
    }

    lemma OwnersHere()
      requires Structure()
      ensures ownershipIndex.Valid(implOf) && FaithfulImpls(implOf)
      ensures forall s, h :: Owns(ownershipIndex.owner, s, h) <==>
                0 <= h < |chunks| && chunks[h].stream == s && s != NO_STREAM
    {
    }

    /** Take the stream off every chunk in its set. */
    method ReleaseOwned(handles: set<Handle>, stream: Stream, ghost impl: Impl)
      requires Structure() && stream != NO_STREAM && implOf(stream) == impl
      requires forall h :: h in handles <==> Owns(ownershipIndex.owner, stream, h)
      modifies this`chunks, ownershipIndex
      ensures Structure() && ReleasedFrom(old(chunks), chunks, implOf, impl)
    {
      OwnersHere();
      ImplsDistinct(stream);
      forall h | h in handles
        ensures h in home
      {
        OwnedIsLive(stream, h);
      }
      hide Structure, FaithfulImpls;
      ghost var before := chunks;
      var todo := handles;
      while todo != {}
        invariant Structure() && |chunks| == |before| && todo <= handles
        invariant forall g {:trigger chunks[g]} :: 0 <= g < |chunks| ==>
          chunks[g] == if before[g].stream == stream && g !in todo then before[g].(stream := NO_STREAM) else before[g]
        decreases todo
      {
        assert exists h :: h in todo by {
          var g := Element(todo);
        }
        var h :| h in todo;
        assert chunks[h].stream == stream;
        Reassign(h, NO_STREAM);
        todo := todo - {h};
      }
    }

    lemma ImplsDistinct(stream: Stream)
      requires FaithfulImpls(implOf)
      ensures forall s :: implOf(s) == implOf(stream) ==> s == stream
    {
    }

    /** Records and events after a release, while its effects on the seams are still open. */
    lemma Forgotten(before: seq<Chunk>, t: Trace, impl: Impl)
      requires ReleasedFrom(before, chunks, implOf, impl) && InRange(before, home)
      requires FreeAreBinned(before, home, NO_CHUNK) && AllTight(before, home, config.maxDeadBytesPerChunk)
      requires HistoryAgrees(before, home, regionManager.spans, reservedChunks, t, implOf)
      ensures FreeAreBinned(chunks, home, NO_CHUNK) && Disowned(chunks, home, implOf, impl)
      ensures AllTight(chunks, home, config.maxDeadBytesPerChunk)
      ensures HistoryAgrees(chunks, home, regionManager.spans, reservedChunks, Then(t, Released(impl)), implOf)
      ensures InUseSizes(chunks, home) == InUseSizes(before, home)
    {
      ReleaseStep(before, chunks, home, regionManager.spans, reservedChunks, t, implOf, impl);
      InUseFrame(before, chunks, home, home);
    }

    /** Clear the owner of everything the stream owns, and record the release. */
    method ForgetStream(impl: Impl) returns (known: bool)
      requires Valid()
      modifies this`chunks, this`trace, ownershipIndex
      ensures Structure() && FreeAreBinned(chunks, home, NO_CHUNK)
      ensures FirstChunks(home, regionManager.spans, regionManager.slots)
      ensures Ledger(chunks, home, regionManager.spans, device.blocks) && Disowned(chunks, home, implOf, impl)
      ensures trace == Then(old(trace), Released(impl))
      ensures !known ==> Coalesced(chunks, home)
    {
      hide Structure, FreeAreBinned, FirstChunks, Coalesced, AllTight, BlocksAgree, HistoryAgrees, InRange, Disowned,
           InUseSizes, Balanced, Consistent;
      ghost var before := chunks;
      StructureInRange();
      OwnersHere();
      var stream := ownershipIndex.FindStream(impl, implOf);
      known := stream != NO_STREAM;
      if known {
        var found, handles := ownershipIndex.FindChunks(stream, implOf);
        if found {
          ReleaseOwned(handles, stream, impl);
        }
      } else {
        NothingOwned(impl);
      }
      Forgotten(before, trace, impl);
      trace := Then(trace, Released(impl));
    }

    lemma NothingOwned(impl: Impl)
      requires Structure() && forall s, h :: Owns(ownershipIndex.owner, s, h) ==> implOf(s) != impl
      ensures ReleasedFrom(chunks, chunks, implOf, impl)
    {
      forall h | 0 <= h < |chunks| && chunks[h].stream != NO_STREAM
        ensures implOf(chunks[h].stream) != impl
      {
        assert Owns(ownershipIndex.owner, chunks[h].stream, h);
      }
    }

    /** Regions are sorted: past the end of one, the next seam can only be in a later one. */
    lemma SeamsPastRegion(i: nat)
      requires Structure() && i < |regionManager.regions| && NoSeamBelow(chunks, home, regionManager.regions[i].End())
      ensures i + 1 < |regionManager.regions| ==> NoSeamBelow(chunks, home, regionManager.regions[i + 1].ptr)
      ensures i + 1 == |regionManager.regions| ==> Coalesced(chunks, home)
    {
      forall p | Seam(chunks, home, p)
        ensures i + 1 < |regionManager.regions| && p >= regionManager.regions[i + 1].ptr
      {
        var b := SeamInRegion(chunks, home, regionManager.spans, p);
        var j := regionManager.CoveringRegion(b, p);
        if j <= i {
          EndsInOrder(regionManager.regions, j, i);
        } else {
          EndsInOrder(regionManager.regions, i + 1, j);
        }
      }
    }

    lemma NoRegionsNoSeams()
      requires Structure()
      ensures |regionManager.regions| == 0 ==> Coalesced(chunks, home)
      ensures |regionManager.regions| > 0 ==> NoSeamBelow(chunks, home, regionManager.regions[0].ptr)
    {
      forall p | Seam(chunks, home, p)
        ensures |regionManager.regions| > 0 && p >= regionManager.regions[0].ptr
      {
        var b := SeamInRegion(chunks, home, regionManager.spans, p);
        var j := regionManager.CoveringRegion(b, p);
        EndsInOrder(regionManager.regions, 0, j);
      }
    }

    /**
     * A released stream owns nothing any more, in the records and in the index, and what its release
     * made mergeable has been merged.
     */
    method ResetChunksUsingStream(impl: Impl)
      requires Valid()
      modifies this`chunks, this`freeChunksList, this`recycled, this`home, this`bins, this`trace, regionManager,
               ownershipIndex
      ensures Valid() && FullyJoined()
      ensures trace == Then(old(trace), Released(impl))
      ensures forall s, h :: Owns(ownershipIndex.owner, s, h) ==> implOf(s) != impl
      ensures forall h :: 0 <= h < |chunks| && chunks[h].stream != NO_STREAM ==> implOf(chunks[h].stream) != impl
    {
      hide Structure, FreeAreBinned, FirstChunks, Coalesced, Disowned, NoSeamBelow, Ledger, FullyJoined;
      var known := ForgetStream(impl);
      if !known {
        NoTraceOf(impl);
        MaximallyCoalesced();
        return;
      }
      NoRegionsNoSeams();
      var i := 0;
      while i < |regionManager.regions|
        invariant 0 <= i <= |regionManager.regions| && trace == Then(old(trace), Released(impl))
        invariant Structure()
        invariant FreeAreBinned(chunks, home, NO_CHUNK) && FirstChunks(home, regionManager.spans, regionManager.slots)
        invariant Ledger(chunks, home, regionManager.spans, device.blocks) && Disowned(chunks, home, implOf, impl)
        invariant i < |regionManager.regions| ==> NoSeamBelow(chunks, home, regionManager.regions[i].ptr)
        invariant i == |regionManager.regions| ==> Coalesced(chunks, home)
      {
        CoalesceRegion(i, impl);
        SeamsPastRegion(i);
        i := i + 1;
      }
      NoTraceOf(impl);
      MaximallyCoalesced();
    }

    lemma NoTraceOf(impl: Impl)
      requires Structure() && Disowned(chunks, home, implOf, impl)
      ensures forall s, h :: Owns(ownershipIndex.owner, s, h) ==> implOf(s) != impl
      ensures forall h :: 0 <= h < |chunks| && chunks[h].stream != NO_STREAM ==> implOf(chunks[h].stream) != impl
    {
      forall s, h | Owns(ownershipIndex.owner, s, h)
        ensures implOf(s) != impl
      {
        OwnedIsLive(s, h);
      }
      forall h | 0 <= h < |chunks| && chunks[h].stream != NO_STREAM
        ensures implOf(chunks[h].stream) != impl
      {
        assert Owns(ownershipIndex.owner, chunks[h].stream, h);
      }
    }

    // ---------------------------------------------------------------- shrinking

    /** Look through a region's chunks for one in use. */
    method RegionIsFree(first: Handle, ghost b: int) returns (free: bool)
      requires Structure() && first in home && 0 <= first < |chunks| && Base(home, first) == b && chunks[first].ptr == b
      ensures free <==> !UsedRegion(chunks, home, b)
    {
      hide Structure, Layout;
      LayoutHere();
      PlacedHere(first);
      var h := first;
      ghost var limit := b;
      ghost var end := SpanEnd(regionManager.spans, b);
      forall g | UsedAt(chunks, home, g, b)
        ensures chunks[g].ptr >= b
      {
        ChunkBounds(chunks, home, regionManager.spans, NO_CHUNK, g);
      }
      while h != NO_CHUNK
        invariant h == NO_CHUNK ==> limit == end
        invariant h != NO_CHUNK ==>
          h in home && 0 <= h < |chunks| && Base(home, h) == b && chunks[h].ptr == limit && limit < end
        invariant forall g :: UsedAt(chunks, home, g, b) ==> chunks[g].ptr >= limit
        decreases end - limit
      {
        if chunks[h].InUse() {
          assert UsedAt(chunks, home, h, b);
          return false;
        }
        PlacedHere(h);
        forall g | UsedAt(chunks, home, g, b)
          ensures chunks[g].ptr >= chunks[h].End()
        {
          if chunks[g].ptr < chunks[h].End() {
            NextStart(chunks, home, regionManager.spans, h, g);
          }
        }
        limit := chunks[h].End();
        h := chunks[h].next;
        if h != NO_CHUNK {
          PlacedHere(h);
        }
      }
      forall g
        ensures !UsedAt(chunks, home, g, b)
      {
        if UsedAt(chunks, home, g, b) {
          ChunkBounds(chunks, home, regionManager.spans, NO_CHUNK, g);
        }
      }
      free := true;
    }

    lemma StartDismantling(h: Handle)
      requires Structure() && h in home && 0 <= h < |chunks| && chunks[h].ptr == Base(home, h)
      ensures Dismantling(h)
    {
      FirstIsOrphan(chunks, home, regionManager.spans, h);
    }

    lemma EndDismantling()
      requires Dismantling(NO_CHUNK)
      ensures Structure()
    {
    }

    lemma OrphanPlaced(orphan: Handle)
      requires Dismantling(orphan) && orphan in home
      ensures 0 <= orphan < |chunks| && Placed(chunks, home, regionManager.spans, orphan, orphan)
      ensures InRange(chunks, home) && BinsOk(chunks, home, bins)
    {
      PlacedAt(chunks, home, regionManager.spans, orphan, orphan);
    }

    /** Take the front chunk of a region being dismantled out of its bin and recycle it. */
    method DropFront(h: Handle)
      requires Dismantling(h) && h in home && 0 <= h < |chunks| && !chunks[h].InUse() && chunks[h].binNum != NO_BIN
      modifies this`chunks, this`freeChunksList, this`recycled, this`home, this`bins, regionManager, ownershipIndex
      ensures Dismantling(old(chunks)[h].next)
      ensures home == old(home) - {h} && |chunks| == |old(chunks)|
      ensures forall g :: 0 <= g < |chunks| && g != h ==> chunks[g] == old(chunks)[g]
      ensures regionManager.spans == old(regionManager.spans)
      ensures regionManager.slots == old(regionManager.slots)[old(chunks)[h].ptr := NO_CHUNK]
    {
      hide Layout, SlotsAgree, BinsOk, RecordsOk, OwnersAgree, FaithfulImpls, Consistent, Tables, SameRegions;
      ghost var before, was, slots := chunks, home, regionManager.slots;
      OrphanPlaced(h);
      RemoveFreeChunkFromBin(h);
      BinWriteKeeps(before, h, h, NO_BIN);
      ghost var out := chunks;
      DeleteChunk(h);
      DropKeepsLayout(out, chunks, was, regionManager.spans, h);
      DropKeepsSlots(out, chunks, was, slots, h);
      StillInRange(was);
      BinsFrame(out, chunks, was, home, bins);
    }

    lemma StillInRange(was: map<Handle, int>)
      requires forall h :: h in was ==> 0 <= h < |chunks|
      requires forall h :: h in home ==> h in was
      ensures InRange(chunks, home)
    {
    }

    /** While a region is dismantled: everything outside it is as before, and its rest starts at limit. */
    ghost predicate Remaining(before: seq<Chunk>, was: map<Handle, int>, b: int, limit: int)
      reads this`chunks, this`home, regionManager
    {
      && SubsetOf(before, chunks, was, home)
      && (forall g {:trigger g in was} :: g in was && Base(was, g) != b ==> g in home)
      && (forall g {:trigger g in home} :: g in home && 0 <= g < |chunks| && Base(home, g) == b ==>
            chunks[g].ptr >= limit)
      && FreeAreBinned(chunks, home, NO_CHUNK)
      && FirstChunksBut(home, regionManager.spans, regionManager.slots, b)
    }

    lemma RemainingAfterDrop(before: seq<Chunk>, was: map<Handle, int>, b: int, limit: int,
                             mid: seq<Chunk>, home1: map<Handle, int>, slots: map<int, Handle>, h: Handle)
      requires SubsetOf(before, mid, was, home1) && InRange(mid, home1)
      requires forall g {:trigger g in was} :: g in was && Base(was, g) != b ==> g in home1
      requires forall g {:trigger g in home1} :: g in home1 && 0 <= g < |mid| && Base(home1, g) == b ==>
        mid[g].ptr >= limit
      requires FreeAreBinned(mid, home1, NO_CHUNK) && FirstChunksBut(home1, regionManager.spans, slots, b)
      requires Layout(mid, home1, regionManager.spans, h) && SlotsAgree(mid, home1, slots)
      requires h in home1 && 0 <= h < |mid| && Base(home1, h) == b && mid[h].ptr == limit
      requires home == home1 - {h} && |chunks| == |mid| && forall g :: 0 <= g < |mid| && g != h ==> chunks[g] == mid[g]
      requires regionManager.slots == slots[mid[h].ptr := NO_CHUNK]
      ensures Remaining(before, was, b, mid[h].End())
    {
      DropKeepsFirstBut(mid, home1, regionManager.spans, slots, h, b);
      forall g | g in home && 0 <= g < |chunks| && Base(home, g) == b
        ensures chunks[g].ptr >= mid[h].End()
      {
        ChunkBounds(mid, home1, regionManager.spans, h, g);
        assert Apart(mid, g, h);
      }
    }

    /** Remove every chunk of a region whose chunks are all free. */
    method DismantleRegion(first: Handle, ghost b: int)
      requires Structure() && FreeAreBinned(chunks, home, NO_CHUNK)
      requires FirstChunks(home, regionManager.spans, regionManager.slots)
      requires first in home && 0 <= first < |chunks| && Base(home, first) == b && chunks[first].ptr == b
      requires !UsedRegion(chunks, home, b)
      modifies this`chunks, this`freeChunksList, this`recycled, this`home, this`bins, regionManager, ownershipIndex
      ensures Structure() && FreeAreBinned(chunks, home, NO_CHUNK)
      ensures FirstChunksBut(home, regionManager.spans, regionManager.slots, b)
      ensures regionManager.spans == old(regionManager.spans)
      ensures SubsetOf(old(chunks), chunks, old(home), home)
      ensures forall g :: g in old(home) ==> (g in home <==> Base(old(home), g) != b)
    {
      hide Structure, Dismantling, FreeAreBinned, Layout, SlotsAgree, BinsOk, FirstChunks, FirstChunksBut, SubsetOf,
           Remaining,
           UsedRegion, InRange;
      ghost var before, was := chunks, home;
      ghost var end := SpanEnd(regionManager.spans, b);
      PlacedHere(first);
      StartDismantling(first);
      StartRemaining(b);
      var h := first;
      ghost var limit := b;
      while h != NO_CHUNK
        invariant Dismantling(h) && Remaining(before, was, b, limit)
        invariant |chunks| == |before| && end == SpanEnd(regionManager.spans, b)
        invariant regionManager.spans == old(regionManager.spans)
        invariant h == NO_CHUNK ==> limit == end
        invariant h != NO_CHUNK ==>
          h in home && 0 <= h < |chunks| && Base(home, h) == b && chunks[h].ptr == limit && limit < end
        decreases end - limit
      {
        ghost var mid, home1, slots := chunks, home, regionManager.slots;
        OrphanPlaced(h);
        FrontIsFree(before, was, b, limit, h);
        DismantlingFacts(before, was, b, limit, h);
        var temp := chunks[h].next;
        DropFront(h);
        RemainingAfterDrop(before, was, b, limit, mid, home1, slots, h);
        limit := mid[h].End();
        h := temp;
        if h != NO_CHUNK {
          OrphanPlaced(h);
        }
      }
      EndDismantling();
      AllDropped(before, was, b, end);
    }

    lemma StartRemaining(b: int)
      requires Structure() && FreeAreBinned(chunks, home, NO_CHUNK)
      requires FirstChunks(home, regionManager.spans, regionManager.slots)
      ensures Remaining(chunks, home, b, b)
    {
      forall g | g in home && 0 <= g < |chunks| && Base(home, g) == b
        ensures chunks[g].ptr >= b
      {
        ChunkBounds(chunks, home, regionManager.spans, NO_CHUNK, g);
      }
    }

    lemma FrontIsFree(before: seq<Chunk>, was: map<Handle, int>, b: int, limit: int, h: Handle)
      requires Remaining(before, was, b, limit) && !UsedRegion(before, was, b)
      requires h in home && 0 <= h < |chunks| && Base(home, h) == b
      ensures !chunks[h].InUse() && chunks[h].binNum != NO_BIN
    {
      assert !UsedAt(before, was, h, b);
    }

    lemma DismantlingFacts(before: seq<Chunk>, was: map<Handle, int>, b: int, limit: int, h: Handle)
      requires Dismantling(h) && Remaining(before, was, b, limit)
      ensures SubsetOf(before, chunks, was, home) && InRange(chunks, home)
      ensures forall g {:trigger g in was} :: g in was && Base(was, g) != b ==> g in home
      ensures forall g {:trigger g in home} :: g in home && 0 <= g < |chunks| && Base(home, g) == b ==>
        chunks[g].ptr >= limit
      ensures FreeAreBinned(chunks, home, NO_CHUNK) && FirstChunksBut(home, regionManager.spans, regionManager.slots, b)
      ensures Layout(chunks, home, regionManager.spans, h) && SlotsAgree(chunks, home, regionManager.slots)
    {
    }

    lemma AllDropped(before: seq<Chunk>, was: map<Handle, int>, b: int, end: int)
      requires Structure() && Remaining(before, was, b, end) && end == SpanEnd(regionManager.spans, b)
      ensures FreeAreBinned(chunks, home, NO_CHUNK) && SubsetOf(before, chunks, was, home)
      ensures FirstChunksBut(home, regionManager.spans, regionManager.slots, b)
      ensures forall g :: g in was ==> (g in home <==> Base(was, g) != b)
    {
      forall g | g in home
        ensures Base(home, g) != b && Base(was, g) != b
      {
        ChunkBounds(chunks, home, regionManager.spans, NO_CHUNK, g);
      }
    }

    /** The structure and the books once region b, left without chunks, is gone. */
    lemma RegionGone(b: int)
      requires Structure() && FirstChunksBut(home, regionManager.spans, regionManager.slots, b)
      requires Ledger(chunks, home, regionManager.spans, device.blocks)
      requires b in regionManager.spans && forall g :: g in home ==> Base(home, g) != b
      ensures var slots' := map p | p in regionManager.slots && !IsGranule(b, regionManager.spans[b], p)
                                :: regionManager.slots[p];
              && Layout(chunks, home, regionManager.spans - {b}, NO_CHUNK)
              && SlotsAgree(chunks, home, slots')
              && FirstChunks(home, regionManager.spans - {b}, slots')
    {
      hide HistoryAgrees, BlocksAgree, AllTight, Balanced, InUseSizes, BinsOk, RecordsOk, OwnersAgree, Consistent,
           Tables;
      BlocksPositive(device.blocks, regionManager.spans, reservedChunks);
      forall c | c in regionManager.spans && c != b
        ensures Disjoint(c, regionManager.spans[c], b, regionManager.spans[b])
      {
        RegionsDisjoint(device.blocks, regionManager.spans, reservedChunks, c, b);
      }
      RemoveSpanKeepsLayout(chunks, home, regionManager.spans, b);
      RemoveSpanKeepsSlots(chunks, home, regionManager.spans, regionManager.slots, b);
      FirstAfterRemove(home, regionManager.spans, regionManager.slots, b);
    }

    lemma UnmappedBooks(b: int)
      requires Structure() && Ledger(chunks, home, regionManager.spans, device.blocks)
      requires b in regionManager.spans && forall g :: g in home ==> Base(home, g) != b
      ensures b in device.blocks && device.Valid() && regionManager.spans[b] > 0
      ensures BlocksAgree(device.blocks - {b}, regionManager.spans - {b}, reservedChunks)
      ensures HistoryAgrees(chunks, home, regionManager.spans - {b}, reservedChunks, Then(trace, Unmapped(b)), implOf)
    {
      hide HistoryAgrees, BlocksAgree, AllTight, Balanced, InUseSizes, BinsOk, RecordsOk, OwnersAgree, Consistent,
           Tables;
      UnmapStep(chunks, home, regionManager.spans, reservedChunks, device.blocks, trace, implOf, b);
      RemoveSpanBlock(device.blocks, regionManager.spans, reservedChunks, b);
    }

    /** Give an empty region back to the device. */
    method ReturnRegion(b: int, size: int)
      requires Structure() && FreeAreBinned(chunks, home, NO_CHUNK) && Coalesced(chunks, home)
      requires FirstChunksBut(home, regionManager.spans, regionManager.slots, b)
      requires Ledger(chunks, home, regionManager.spans, device.blocks)
      requires b in regionManager.spans && regionManager.spans[b] == size
      requires forall g :: g in home ==> Base(home, g) != b
      modifies this`stats, this`trace, device, regionManager
      ensures Valid()
      ensures regionManager.spans == old(regionManager.spans) - {b}
      ensures trace == Then(old(trace), Unmapped(b))
      ensures stats == old(stats).(totalAllocatedBytes := old(stats).totalAllocatedBytes - size,
                                   numArenaExtensions := old(stats).numArenaExtensions - 1,
                                   numArenaShrinkages := old(stats).numArenaShrinkages + 1)
    {
      hide FaithfulImpls, Layout, SlotsAgree, BinsOk, RecordsOk, OwnersAgree, Consistent, Tables, FreeAreBinned,
           Coalesced,
           FirstChunks, FirstChunksBut, AllTight, BlocksAgree, HistoryAgrees, InUseSizes, Balanced, PairwiseDisjoint,
           SpanCovers;
      RegionGone(b);
      UnmappedBooks(b);
      BalancedAfterShrink(stats, regionManager.spans, reservedChunks, InUseSizes(chunks, home), leaked, config.maxMem,
                          b);
      stats := stats.(numArenaShrinkages := stats.numArenaShrinkages + 1,
                      totalAllocatedBytes := stats.totalAllocatedBytes - size);
      device.Free(b);
      var ok, _ := regionManager.RemoveAllocationRegion(b);
      assert ok;
      stats := stats.(numArenaExtensions := stats.numArenaExtensions - 1);
      trace := Then(trace, Unmapped(b));
    }

    lemma BaseOfSpan(b: int)
      requires Valid() && b in regionManager.spans
      ensures SpanCovers(regionManager.spans, b, b) && GranuleStart(b, b) == b
      ensures var h := SlotOf(regionManager.slots, b);
              h in home && 0 <= h < |chunks| && Base(home, h) == b && chunks[h].ptr == b
    {
      BlocksPositive(device.blocks, regionManager.spans, reservedChunks);
      GranuleStartExact(b, b);
    }

    lemma SettledParts()
      requires Valid()
      ensures FreeAreBinned(chunks, home, NO_CHUNK) && FirstChunks(home, regionManager.spans, regionManager.slots)
      ensures Coalesced(chunks, home) && Ledger(chunks, home, regionManager.spans, device.blocks)
      ensures InRange(chunks, home) && regionManager.Valid()
    {
    }

    lemma DismantledParts(before: seq<Chunk>, was: map<Handle, int>, b: int)
      requires Structure() && InRange(before, was) && SubsetOf(before, chunks, was, home) && !UsedRegion(before, was, b)
      requires forall g :: g in was ==> (g in home <==> Base(was, g) != b)
      requires Coalesced(before, was) && Ledger(before, was, regionManager.spans, device.blocks)
      ensures Coalesced(chunks, home) && Ledger(chunks, home, regionManager.spans, device.blocks)
      ensures forall g :: g in home ==> Base(home, g) != b
    {
      hide FaithfulImpls, SlotsAgree, BinsOk, RecordsOk, OwnersAgree, Consistent, Tables, Ledger, Coalesced;
      SubsetCoalesced(before, chunks, was, home, regionManager.spans);
      SubsetIsQuiet(before, chunks, was, home, b);
      QuietLedger(before, chunks, was, home, regionManager.spans, device.blocks);
    }

    /** Give region b back unless one of its chunks is in use. */
    method ShrinkRegion(b: int, size: int)
      requires Valid() && b in regionManager.spans && regionManager.spans[b] == size
      modifies this`chunks, this`freeChunksList, this`recycled, this`home, this`bins, this`stats, this`trace,
               device, regionManager, ownershipIndex
      ensures Valid()
      ensures UsedRegion(old(chunks), old(home), b) ==>
        && chunks == old(chunks) && home == old(home) && regionManager.spans == old(regionManager.spans)
        && trace == old(trace) && stats == old(stats)
      ensures !UsedRegion(old(chunks), old(home), b) ==>
        && regionManager.spans == old(regionManager.spans) - {b} && trace == Then(old(trace), Unmapped(b))
        && stats == old(stats).(totalAllocatedBytes := old(stats).totalAllocatedBytes - size,
                                numArenaExtensions := old(stats).numArenaExtensions - 1,
                                numArenaShrinkages := old(stats).numArenaShrinkages + 1)
        && SubsetOf(old(chunks), chunks, old(home), home)
        && forall g :: g in old(home) ==> (g in home <==> Base(old(home), g) != b)
    {
      hide Structure, Settled, FreeAreBinned, FirstChunks, FirstChunksBut, Coalesced, Ledger, UsedRegion, SubsetOf,
           InRange,
           SlotOf, Tables;
      ghost var before, was := chunks, home;
      BaseOfSpan(b);
      SettledParts();
      var found := regionManager.GetHandle(b);
      SlotIs(b, found.value);
      var first := found.value;
      var free := RegionIsFree(first, b);
      if free {
        DismantleRegion(first, b);
        DismantledParts(before, was, b);
        ReturnRegion(b, size);
      }
    }

    /** Where the walk over the snapshot stands: regions in the rest of it, and used ones, are still there. */
    ghost predicate ShrunkSo(cs: seq<Chunk>, home0: map<Handle, int>, spans0: map<int, int>, rest: seq<int>)
      reads this`chunks, this`home, regionManager
    {
      && UsedKept(cs, chunks, home0, home)
      && (forall b :: b in regionManager.spans <==> b in spans0 && (b in rest || UsedRegion(cs, home0, b)))
      && (forall b :: b in regionManager.spans ==> regionManager.spans[b] == spans0[b])
    }

    lemma ShrunkOneMore(cs: seq<Chunk>, home0: map<Handle, int>, spans0: map<int, int>, rest: seq<int>,
                        mid: seq<Chunk>, home1: map<Handle, int>, spans1: map<int, int>)
      requires |rest| > 0 && rest[0] in spans0 && rest[0] !in rest[1..]
      requires UsedKept(cs, mid, home0, home1)
      requires forall b :: b in spans1 <==> b in spans0 && (b in rest || UsedRegion(cs, home0, b))
      requires forall b :: b in spans1 ==> spans1[b] == spans0[b]
      requires var b := rest[0];
               if UsedRegion(mid, home1, b) then chunks == mid && home == home1 && regionManager.spans == spans1
               else
                 && regionManager.spans == spans1 - {b} && SubsetOf(mid, chunks, home1, home)
                 && forall g :: g in home1 ==> (g in home <==> Base(home1, g) != b)
      ensures ShrunkSo(cs, home0, spans0, rest[1..])
    {
      var b := rest[0];
      SameUsedRegions(cs, mid, home0, home1, b);
      hide UsedRegion;
      if !UsedRegion(mid, home1, b) {
        UsedKeptTrans(cs, mid, chunks, home0, home1, home, b);
      }
      assert rest == [b] + rest[1..];
    }

    /** The snapshot lists every region once, with its size. */
    lemma Snapshot(ptrs: seq<int>, sizes: seq<int>)
      requires Valid() && |ptrs| == |sizes| == |regionManager.regions|
      requires forall i :: 0 <= i < |ptrs| ==>
                 ptrs[i] == regionManager.regions[i].ptr && sizes[i] == regionManager.regions[i].memorySize
      ensures forall i :: 0 <= i < |ptrs| ==> ptrs[i] in regionManager.spans && regionManager.spans[ptrs[i]] == sizes[i]
      ensures forall i :: 0 <= i < |ptrs| ==> ptrs[i] !in ptrs[i + 1..]
      ensures ShrunkSo(chunks, home, regionManager.spans, ptrs)
    {
      var spans, regions := regionManager.spans, regionManager.regions;
      forall i | 0 <= i < |ptrs|
        ensures ptrs[i] in spans && spans[ptrs[i]] == sizes[i]
      {
        assert IsRegion(regions, i, ptrs[i], sizes[i]);
        assert IsSpan(spans, ptrs[i], sizes[i]);
      }
      forall i, j | 0 <= i < j < |ptrs|
        ensures ptrs[i] != ptrs[j]
      {
        assert regions[i].WellFormed() && regions[i].End() <= regions[j].ptr;
      }
      forall b | b in spans
        ensures b in ptrs
      {
        assert IsSpan(spans, b, spans[b]);
        var i :| IsRegion(regions, i, b, spans[b]);
        assert ptrs[i] == b;
      }
    }

    /**
     * Give back exactly the regions without an in-use chunk. Every in-use chunk keeps its record,
     * nothing outstanding changes, and growth starts afresh.
     */
    method Shrink()
      requires Valid()
      modifies this`chunks, this`freeChunksList, this`recycled, this`home, this`bins, this`stats, this`trace,
               this`currRegionAllocationBytes, device, regionManager, ownershipIndex
      ensures Valid()
      ensures forall b :: b in regionManager.spans <==>
                b in old(regionManager.spans) && UsedRegion(old(chunks), old(home), b)
      ensures UsedKept(old(chunks), chunks, old(home), home)
      ensures Outstanding(trace) == Outstanding(old(trace))
      ensures currRegionAllocationBytes == RoundedBytes(config.initialGrowthChunkSizeBytes)
      ensures stats.numArenaShrinkages + stats.numArenaExtensions
           == old(stats.numArenaShrinkages + stats.numArenaExtensions)
      ensures stats == old(stats).(totalAllocatedBytes := stats.totalAllocatedBytes,
                                   numArenaExtensions := stats.numArenaExtensions,
                                   numArenaShrinkages := stats.numArenaShrinkages)
    {
      hide Structure, FreeAreBinned, FirstChunks, Coalesced, UsedRegion, UsedKept, SubsetOf, Tables,
           AllTight, BlocksAgree, HistoryAgrees, InUseSizes, Balanced;
      ghost var cs, home0, spans0, outstanding := chunks, home, regionManager.spans, Outstanding(trace);
      SettledParts();
      var ptrs := seq(|regionManager.regions|, i requires 0 <= i < |regionManager.regions| reads regionManager =>
        regionManager.regions[i].ptr);
      var sizes := seq(|regionManager.regions|, i requires 0 <= i < |regionManager.regions| reads regionManager =>
        regionManager.regions[i].memorySize);
      Snapshot(ptrs, sizes);
      var i := 0;
      assert ptrs[0..] == ptrs;
      while i < |ptrs|
        invariant 0 <= i <= |ptrs| == |sizes| && Valid()
        invariant ShrunkSo(cs, home0, spans0, ptrs[i..])
        invariant Outstanding(trace) == outstanding
        invariant stats.numArenaShrinkages + stats.numArenaExtensions
               == old(stats.numArenaShrinkages + stats.numArenaExtensions)
        invariant stats == old(stats).(totalAllocatedBytes := stats.totalAllocatedBytes,
                                       numArenaExtensions := stats.numArenaExtensions,
                                       numArenaShrinkages := stats.numArenaShrinkages)
      {
        ghost var mid, home1, spans1 := chunks, home, regionManager.spans;
        assert ptrs[i..][0] == ptrs[i] && ptrs[i..][1..] == ptrs[i + 1..];
        assert ptrs[i] in ptrs[i..];
        ShrinkRegion(ptrs[i], sizes[i]);
        ShrunkOneMore(cs, home0, spans0, ptrs[i..], mid, home1, spans1);
        i := i + 1;
      }
      RoundedBytesCovers(config.initialGrowthChunkSizeBytes);
      currRegionAllocationBytes := RoundedBytes(config.initialGrowthChunkSizeBytes);
    }

    // ---------------------------------------------------------------- destruction

    lemma BlocksHere()
      requires Valid()
      ensures BlocksAgree(device.blocks, regionManager.spans, reservedChunks) && regionManager.Valid()
    {
    }

    /** Everything obtained from the device goes back, each block once. */
    method Destroy()
      requires Valid()
      modifies device
      ensures device.blocks == map[]
    {
      hide Structure, Settled;
      BlocksHere();
      ghost var spans := regionManager.spans;
      ghost var regions := regionManager.regions;
      var i := 0;
      while i < |regionManager.regions|
        invariant 0 <= i <= |regionManager.regions| && device.Valid()
        invariant forall b :: b in device.blocks <==>
          b in reservedChunks || (b in spans && forall j :: 0 <= j < i ==> regions[j].ptr != b)
      {
        RegionStillHeld(i);
        device.Free(regionManager.regions[i].ptr);
        i := i + 1;
      }
      AllRegionsListed();
      var rest := reservedChunks.Keys;
      while rest != {}
        invariant rest <= reservedChunks.Keys && device.Valid()
        invariant forall b :: b in device.blocks <==> b in rest
        decreases rest
      {
        assert exists p :: p in rest by {
          var p := Element(rest);
        }
        var p :| p in rest;
        device.Free(p);
        rest := rest - {p};
      }
      if device.blocks.Keys != {} {
        ghost var b := Element(device.blocks.Keys);
      }
    }

    lemma RegionStillHeld(i: nat)
      requires regionManager.Valid() && i < |regionManager.regions|
      ensures regionManager.regions[i].ptr in regionManager.spans
      ensures forall j :: 0 <= j < i ==> regionManager.regions[j].ptr != regionManager.regions[i].ptr
    {
      var regions := regionManager.regions;
      assert IsRegion(regions, i, regions[i].ptr, regions[i].memorySize);
      assert IsSpan(regionManager.spans, regions[i].ptr, regions[i].memorySize);
      forall j | 0 <= j < i
        ensures regions[j].ptr != regions[i].ptr
      {
        assert regions[j].WellFormed() && regions[j].End() <= regions[i].ptr;
      }
    }

    lemma AllRegionsListed()
      requires regionManager.Valid()
      ensures forall b :: b in regionManager.spans ==>
                exists j :: 0 <= j < |regionManager.regions| && regionManager.regions[j].ptr == b
    {
      forall b | b in regionManager.spans
        ensures exists j :: 0 <= j < |regionManager.regions| && regionManager.regions[j].ptr == b
      {
        assert IsSpan(regionManager.spans, b, regionManager.spans[b]);
        var j :| IsRegion(regionManager.regions, j, b, regionManager.spans[b]);
      }
    }

    // ---------------------------------------------------------------- what validity gives a client

    /** Held and reserved memory stays within the budget, and is counted exactly when growth is whole. */
    lemma WithinBudget()
      requires Valid()
      ensures MapSum(regionManager.spans) + MapSum(reservedChunks) <= stats.totalAllocatedBytes <= config.maxMem
      ensures WholeGrowth(config) ==> stats.totalAllocatedBytes == MapSum(regionManager.spans) + MapSum(reservedChunks)
      ensures stats.numArenaExtensions == |regionManager.spans|
    {
    }

    /** A chunk's owner is the last user of each of its bytes, whoever allocated, freed, split or merged it. */
    lemma OwnerIsLastUser(h: Handle, x: int)
      requires Valid() && h in home && 0 <= h < |chunks| && chunks[h].ptr <= x < chunks[h].End()
      ensures LastUser(trace, implOf, x) == chunks[h].stream
    {
      assert Within(chunks, home, h, x);
    }

    /** The arena's run so far is safe. */
    lemma RunIsSafe()
      requires Valid()
      ensures SafeTrace(trace, implOf) && HeldRegions(trace) == regionManager.spans
    {
    }
  }
}
