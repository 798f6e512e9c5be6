/**
 * The pinned host memory pool as a protocol: every critical section is one atomic step, and what a
 * thread holds between its sections is written down in transit, so that any interleaving of client
 * threads and the polling thread is a sequence of these steps.
 */
module PinnedPool {
  import opened ArenaTypes
  import opened Options
  import opened PinnedBlocks
  import opened PinnedSteps
  import opened PinnedTrace

  class PinnedHostPool {
    var freeBlocks: seq<FreeBlock>
    var liveBlocks: map<Ptr, nat>
    var pendingFrees: seq<PendingBlock>
    var reusableEvents: seq<Event>
    var cachedBytes: nat

    /** What threads hold between critical sections. */
    ghost var transit: map<Ptr, Transit>
    /** Host blocks the pool got from the driver, and those other code got. */
    ghost var obtained: set<Ptr>
    ghost var foreign: set<Ptr>
    ghost var events: set<Event>
    /** Where each event was last recorded. */
    ghost var recorded: map<Event, Mark>
    /** The steps so far, as clients, the device and the driver see them. */
    ghost var run: Run

    ghost function State(): Pool
      reads this
    {
      Pool(liveBlocks, freeBlocks, pendingFrees, reusableEvents, transit, obtained, foreign, events, recorded, run)
    }

    ghost predicate Blocks()
      reads `liveBlocks, `freeBlocks, `pendingFrees, `transit, `obtained, `foreign
    {
      BlocksPlaced(liveBlocks, freeBlocks, pendingFrees, transit, obtained, foreign)
    }

    ghost predicate Events()
      reads `reusableEvents, `pendingFrees, `transit, `events
    {
      EventsPlaced(reusableEvents, pendingFrees, transit, events)
    }

    ghost predicate Waiting()
      reads `liveBlocks, `freeBlocks, `pendingFrees, `transit, `recorded, `run, `obtained
    {
      && Waits(FreePtrs(freeBlocks), pendingFrees, transit, recorded, run)
      && GuardsIn(run).Keys <= obtained - liveBlocks.Keys
    }

    ghost predicate History()
      reads `run, `liveBlocks
    {
      SafeRun(run) && OutIn(run) == liveBlocks.Keys
    }

    ghost predicate Sums()
      reads `freeBlocks, `cachedBytes
    {
      cachedBytes == TotalSize(freeBlocks)
    }

    ghost predicate Valid()
      reads this
    {
      Blocks() && Events() && Waiting() && History() && Sums()
    }

    ghost function Polled(): View
      reads `freeBlocks, `reusableEvents, `obtained, `run
    {
      View(FreeSet(freeBlocks), reusableEvents, obtained, run)
    }

    constructor ()
      ensures Valid() && run == Start && obtained == {} && events == {} && foreign == {}
      ensures freeBlocks == [] && liveBlocks == map[] && pendingFrees == [] && reusableEvents == [] && cachedBytes == 0
    {
      freeBlocks, liveBlocks, pendingFrees, reusableEvents, cachedBytes := [], map[], [], [], 0;
      transit, obtained, foreign, events, recorded, run := map[], {}, {}, {}, map[], Start;
    }

    // The world outside the pool.

    /** Work is issued to a stream. */
    ghost method Issue(stream: Stream)
      requires Valid()
      modifies `run
      ensures Valid() && run == Then(old(run), Issued(stream))
    {
      hide Waits;
      MoreWaits(FreePtrs(freeBlocks), pendingFrees, transit, recorded, run, Issued(stream));
      run := Then(run, Issued(stream));
    }

    /** The device completes work up to a position among what was issued. */
    ghost method Progress(stream: Stream, position: nat)
      requires Valid() && position <= IssuedIn(run, stream)
      modifies `run
      ensures Valid() && run == Then(old(run), Ran(stream, position))
    {
      hide Waits;
      MoreWaits(FreePtrs(freeBlocks), pendingFrees, transit, recorded, run, Ran(stream, position));
      run := Then(run, Ran(stream, position));
    }

    // Driver calls.

    /**
     * Return a block to the driver: it must be one the driver gave, and idle unless its own wait was
     * answered with an error.
     */
    method HostFree(ptr: Ptr)
      requires ptr in obtained + foreign && SafeRun(run) && (Busy(run, ptr) ==> ptr in LapsedIn(run))
      modifies `obtained, `foreign, `run
      ensures obtained == old(obtained) - {ptr} && foreign == old(foreign) - {ptr}
      ensures SafeRun(run) && run == Then(old(run), Returned(ptr))
    {
      obtained, foreign, run := obtained - {ptr}, foreign - {ptr}, Then(run, Returned(ptr));
    }

    // Parts of critical sections.

    /** Put a block among the free ones. */
    method CacheBlock(size: nat, ptr: Ptr)
      requires BySize(freeBlocks) && Sums() && ptr !in FreePtrs(freeBlocks)
      modifies `freeBlocks, `cachedBytes
      ensures BySize(freeBlocks) && Sums() && cachedBytes == old(cachedBytes) + size
      ensures FreePtrs(freeBlocks) == old(FreePtrs(freeBlocks)) + {ptr}
      ensures FreeSet(freeBlocks) == old(FreeSet(freeBlocks)) + {FreeBlock(size, ptr)}
    {
      var i := UpperBound(freeBlocks, size);
      var b := FreeBlock(size, ptr);
      InsertedKeepsOrder(freeBlocks, i, b);
      InsertedContents(freeBlocks, i, b);
      InsertedSize(freeBlocks, i, b);
      forall c
        ensures c in Inserted(freeBlocks, i, b) <==> c in freeBlocks || c == b
      {
        InsertedMembers(freeBlocks, i, b, c);
      }
      freeBlocks := Inserted(freeBlocks, i, b);
      cachedBytes := cachedBytes + size;
    }

    predicate ShouldReleaseBlock(size: nat, limit: nat)
      reads `cachedBytes
    {
      limit == 0 || cachedBytes + size > limit
    }

    /** There is no cache, or the block would take it past its limit. */
    ghost predicate Overfull(size: nat, limit: nat)
      reads `cachedBytes
    {
      limit == 0 || cachedBytes + size > limit
    }

    /** Return a block to the driver or cache it. */
    method ReleaseOrCache(size: nat, ptr: Ptr, release: bool)
      requires BySize(freeBlocks) && Sums() && ptr !in FreePtrs(freeBlocks) && ptr in obtained && ptr !in foreign
      requires SafeRun(run) && (Busy(run, ptr) ==> ptr in LapsedIn(run))
      modifies `freeBlocks, `cachedBytes, `obtained, `foreign, `run
      ensures BySize(freeBlocks) && Sums() && foreign == old(foreign) && SafeRun(run)
      ensures release ==> freeBlocks == old(freeBlocks)
      ensures cachedBytes == if release then old(cachedBytes) else old(cachedBytes) + size
      ensures LetGo(release, ptr, old(FreePtrs(freeBlocks)), old(obtained), FreePtrs(freeBlocks), obtained)
      ensures FreeSet(freeBlocks) ==
        if release then old(FreeSet(freeBlocks)) else old(FreeSet(freeBlocks)) + {FreeBlock(size, ptr)}
      ensures run == if release then Then(old(run), Returned(ptr)) else old(run)
    {
      hide TotalSize, BySize, FreePtrs, FreeSet, SafeRun, Busy;
      if release {
        HostFree(ptr);
        assert foreign == old(foreign);
      } else {
        CacheBlock(size, ptr);
      }
    }

    /** One pending block whose event has been seen: let block and event go. */
    method SettlePending(i: nat, status: Event -> QueryStatus)
      requires Valid() && i < |pendingFrees| && Truthful(status, recorded, run)
      requires status(pendingFrees[i].event) != NotReady
      modifies `freeBlocks, `pendingFrees, `reusableEvents, `cachedBytes, `obtained, `foreign, `events, `run
      ensures Valid() && foreign == old(foreign)
      ensures pendingFrees == Dropped(old(pendingFrees), i)
      ensures events <= old(events)
      ensures Polled() == AfterOne(old(pendingFrees)[i], status(old(pendingFrees)[i].event), old(Polled()))
    {
      hide TotalSize, BySize, FreePtrs, FreeSet, PendingPtrs, BlocksPlaced, EventsPlaced, Waits, Separate, Dropped,
           LetGo, AfterOne, Past, Busy;
      var b := pendingFrees[i];
      var success := status(b.event) == Success;
      PendingPlace(liveBlocks, freeBlocks, pendingFrees, transit, obtained, foreign, i);
      assert b in pendingFrees;
      SettledIsIdle(FreePtrs(freeBlocks), pendingFrees, transit, recorded, run, status(b.event), b);
      ShedIsSafe(run, b.ptr, b.release, status(b.event));
      if success {
        reusableEvents := reusableEvents + [b.event];
      } else {
        events, run := events - {b.event}, Then(run, Lapsed(b.ptr));
      }
      ReleaseOrCache(b.size, b.ptr, b.release);
      pendingFrees := Dropped(pendingFrees, i);
      SettledAll(old(State()), State(), old(Polled()), Polled(), status(b.event), i);
    }

    /**
     * Let go of every pending block whose event is no longer waiting. status is what the queries
     * report; blocks whose query fails are let go as well.
     */
    method PollPendingFrees(status: Event -> QueryStatus)
      requires Valid() && Truthful(status, recorded, run)
      modifies `freeBlocks, `pendingFrees, `reusableEvents, `cachedBytes, `obtained, `foreign, `events, `run
      ensures Valid() && foreign == old(foreign)
      ensures pendingFrees == Kept(old(pendingFrees), status) && events <= old(events)
      ensures Polled() == AfterPoll(old(pendingFrees), status, old(Polled()))
    {
      hide Valid, Truthful, Kept, Dropped, AfterPoll, AfterOne, ShedAll, FreeSet;
      ghost var was, k, run0 := pendingFrees, 0, run;
      var i := 0;
      NothingSeen(status, Polled());
      assert pendingFrees == [] + was && was[..0] == [];
      while i < |pendingFrees|
        invariant Valid() && Truthful(status, recorded, run0) && foreign == old(foreign)
        invariant 0 <= k <= |was| && i == |Kept(was[..k], status)| && pendingFrees == Kept(was[..k], status) + was[k..]
        invariant Polled() == AfterPoll(was[..k], status, old(Polled())) && run == ShedAll(was[..k], status, run0)
        invariant events <= old(events)
        decreases |was| - k
      {
        var b := pendingFrees[i];
        KeptStep(was, k, status, pendingFrees);
        ViewStep(was, k, status, old(Polled()));
        StillTruthful(was[..k], status, recorded, run0);
        if status(b.event) == NotReady {
          NotReadyStays(b, AfterPoll(was[..k], status, old(Polled())));
          i := i + 1;
        } else {
          SettlePending(i, status);
        }
        k := k + 1;
        RunOfView(was[..k], status, old(Polled()), Polled());
      }
      assert was[..k] == was && was[k..] == [];
    }

    // Allocation.

    /** Hand out the free block at i. */
    method TakeFree(i: nat) returns (ptr: Ptr)
      requires Valid() && i < |freeBlocks|
      modifies `freeBlocks, `liveBlocks, `cachedBytes, `run
      ensures Valid() && ptr == old(freeBlocks)[i].ptr && freeBlocks == Dropped(old(freeBlocks), i)
      ensures ptr in old(FreePtrs(freeBlocks)) && ptr !in old(liveBlocks) && ptr in obtained && ptr != NO_PTR
      ensures FreePtrs(freeBlocks) == old(FreePtrs(freeBlocks)) - {ptr}
      ensures FreeSet(freeBlocks) == old(FreeSet(freeBlocks)) - {old(freeBlocks)[i]}
      ensures liveBlocks == old(liveBlocks)[ptr := old(freeBlocks)[i].size] && run == Then(old(run), HandedOut(ptr))
    {
      hide TotalSize, FreePtrs, FreeSet, BlocksPlaced, EventsPlaced, Waits, Dropped, BySize, Busy;
      var b := freeBlocks[i];
      FreePlace(liveBlocks, freeBlocks, pendingFrees, transit, obtained, foreign, i);
      TakenBlocks(liveBlocks, freeBlocks, pendingFrees, transit, obtained, foreign, i);
      DroppedKeepsOrder(freeBlocks, i);
      GoneWaiting(FreePtrs(freeBlocks), pendingFrees, transit, recorded, run, b.ptr, HandedOut(b.ptr));
      DroppedSize(freeBlocks, i);
      DroppedSet(freeBlocks, i);
      cachedBytes := cachedBytes - b.size;
      freeBlocks := Dropped(freeBlocks, i);
      liveBlocks, run := liveBlocks[b.ptr := b.size], Then(run, HandedOut(b.ptr));
      assert liveBlocks.Keys == old(liveBlocks).Keys + {b.ptr} && transit - {b.ptr} == transit;
      ptr := b.ptr;
    }

    /** First critical section of an allocation: poll, then take the smallest free block that is large enough. */
    method TakeCached(size: nat, status: Event -> QueryStatus) returns (found: Option<Ptr>)
      requires Valid() && Truthful(status, recorded, run)
      modifies `freeBlocks, `liveBlocks, `pendingFrees, `reusableEvents, `cachedBytes, `obtained, `foreign, `events,
               `run
      ensures Valid() && foreign == old(foreign) && pendingFrees == Kept(old(pendingFrees), status)
      ensures events <= old(events)
      ensures
        var v := AfterPoll(old(pendingFrees), status, old(Polled()));
        && obtained == v.obtained && reusableEvents == v.reusable
        && match found
           case None =>
             && liveBlocks == old(liveBlocks) && FreeSet(freeBlocks) == v.free && run == v.run
             && forall b :: b in v.free ==> b.size < size
           case Some(p) =>
             && p !in old(liveBlocks) && p in liveBlocks && liveBlocks == old(liveBlocks)[p := liveBlocks[p]]
             && FreeBlock(liveBlocks[p], p) in v.free && FreeSet(freeBlocks) == v.free - {FreeBlock(liveBlocks[p], p)}
             && size <= liveBlocks[p] && (forall b :: b in v.free && size <= b.size ==> liveBlocks[p] <= b.size)
             && p != NO_PTR && run == Then(v.run, HandedOut(p))
    {
      hide FreePtrs, BlocksPlaced, EventsPlaced, Waits, Dropped, Truthful, Kept, BySize, AfterPoll, Busy;
      PollPendingFrees(status);
      FreeInOrder(liveBlocks, freeBlocks, pendingFrees, transit, obtained, foreign);
      var i := LowerBound(freeBlocks, size);
      if i == |freeBlocks| {
        return None;
      }
      DroppedAtLeast(freeBlocks, i, size);
      FreeHas(freeBlocks, i);
      var p := TakeFree(i);
      found := Some(p);
    }

    /** A block from the driver, held by the allocating thread until the second critical section. */
    method HostAlloc(size: nat, ok: bool, given: Ptr) returns (ptr: Ptr)
      requires Valid() && (ok ==> given != NO_PTR && given !in obtained + foreign)
      modifies `obtained, `transit
      ensures Valid() && ptr == if ok then given else NO_PTR
      ensures ok ==> obtained == old(obtained) + {given} && transit == old(transit)[given := Allocating(size)]
      ensures !ok ==> obtained == old(obtained) && transit == old(transit)
    {
      if !ok {
        return NO_PTR;
      }
      hide FreePtrs, BlocksPlaced, EventsPlaced, Waits, SafeRun;
      Arrived(State(), Allocating(size), given);
      obtained, transit := obtained + {given}, transit[given := Allocating(size)];
      ptr := given;
    }

    /** Second critical section of an allocation that missed. */
    method InsertLive(ptr: Ptr, size: nat)
      requires Valid() && ptr in transit && transit[ptr] == Allocating(size)
      modifies `liveBlocks, `transit, `run
      ensures Valid() && ptr !in old(liveBlocks)
      ensures liveBlocks == old(liveBlocks)[ptr := size] && transit == old(transit) - {ptr}
      ensures run == Then(old(run), HandedOut(ptr))
    {
      hide FreePtrs, BlocksPlaced, EventsPlaced, Waits;
      MadeLive(State(), ptr, size);
      liveBlocks, transit, run := liveBlocks[ptr := size], transit - {ptr}, Then(run, HandedOut(ptr));
      assert liveBlocks.Keys == old(liveBlocks).Keys + {ptr};
    }

    /** hostOk and given are the driver's answer, if it is asked. */
    method Allocate(requestedSize: nat, status: Event -> QueryStatus, hostOk: bool, given: Ptr) returns (ptr: Ptr)
      requires Valid() && Truthful(status, recorded, run)
      requires hostOk ==> given != NO_PTR && given !in obtained + foreign
      modifies this
      ensures Valid() && events <= old(events)
      ensures requestedSize == 0 ==> ptr == NO_PTR && liveBlocks == old(liveBlocks) && run == old(run)
      ensures requestedSize > 0 ==>
        AllocationOutcome(RoundedBytes(requestedSize), AfterPoll(old(pendingFrees), status, old(Polled())),
                          old(liveBlocks),
                          if hostOk then given else NO_PTR, ptr, liveBlocks, FreeSet(freeBlocks), run)
      ensures requestedSize > 0 ==> pendingFrees == Kept(old(pendingFrees), status)
      ensures forall p :: p in old(transit) ==> p in transit && transit[p] == old(transit)[p]
    {
      hide *;
      if requestedSize == 0 {
        return NO_PTR;
      }
      var size := RoundedBytes(requestedSize);
      ghost var v := AfterPoll(pendingFrees, status, Polled());
      ghost var live := liveBlocks;
      ViewOf();
      PollObtainsNothing(pendingFrees, status, Polled());
      InTransitIsObtained();
      var found := TakeCached(size, status);
      if found.Some? {
        OutcomeHit(size, v, live, if hostOk then given else NO_PTR, found.value, liveBlocks, FreeSet(freeBlocks), run);
        return found.value;
      }
      ptr := HostAlloc(size, hostOk, given);
      if ptr != NO_PTR {
        InsertLive(ptr, size);
      }
      OutcomeMiss(size, v, live, ptr, liveBlocks, FreeSet(freeBlocks), run);
    }

    // Freeing.

    /** The thread that holds the block has waited for the stream. */
    ghost predicate HasWaited(ptr: Ptr)
      reads `transit
    {
      ptr in transit && transit[ptr].Waited?
    }

    /**
     * Free a block whose work is done: one handed out by the pool, one from elsewhere, or one taken
     * back for a stream when its event could not be used. limit is the configured cache size.
     */
    method FreeCompleted(ptr: Ptr, limit: nat)
      requires Valid()
      requires ptr == NO_PTR || ptr in liveBlocks || ptr in foreign || HasWaited(ptr)
      modifies `liveBlocks, `freeBlocks, `cachedBytes, `obtained, `foreign, `transit, `run
      ensures Valid() && foreign == old(foreign) - {ptr}
      ensures liveBlocks == old(liveBlocks) - {ptr} && transit == old(transit) - {ptr}
      ensures
        if ptr in old(liveBlocks) && limit > 0 && old(cachedBytes) + old(liveBlocks)[ptr] <= limit then
          && cachedBytes == old(cachedBytes) + old(liveBlocks)[ptr] <= limit
          && obtained == old(obtained) && run == Then(old(run), FreedIdle(ptr))
          && FreeSet(freeBlocks) == old(FreeSet(freeBlocks)) + {FreeBlock(old(liveBlocks)[ptr], ptr)}
        else
          && obtained == old(obtained) - {ptr} && freeBlocks == old(freeBlocks) && cachedBytes == old(cachedBytes)
          && run == (if ptr == NO_PTR then old(run)
                     else Then(if ptr in old(liveBlocks) then Then(old(run), FreedIdle(ptr)) else old(run),
                               Returned(ptr)))
    {
      hide FreePtrs, FreeSet, BlocksPlaced, EventsPlaced, Waits, BySize, LetGo;
      if ptr == NO_PTR {
        Elsewhere(liveBlocks, freeBlocks, pendingFrees, transit, obtained, foreign, run, ptr);
        return;
      }
      if ptr !in liveBlocks {
        FreeElsewhere(ptr);
        return;
      }
      var size := liveBlocks[ptr];
      var release := ShouldReleaseBlock(size, limit);
      LivePlace(liveBlocks, freeBlocks, pendingFrees, transit, obtained, foreign, run, ptr);
      ghost var told := Then(run, FreedIdle(ptr));
      liveBlocks, run := liveBlocks - {ptr}, told;
      assert OutIn(told) == liveBlocks.Keys == old(liveBlocks).Keys - {ptr};
      ReleaseOrCache(size, ptr, release);
      assert liveBlocks.Keys - {ptr} == liveBlocks.Keys;
      CompletedBlocks(old(liveBlocks), old(freeBlocks), freeBlocks, pendingFrees, transit, old(obtained), obtained,
                      foreign,
                      old(run), run, release, ptr);
      CompletedWaiting(old(FreePtrs(freeBlocks)), FreePtrs(freeBlocks), pendingFrees, transit, old(obtained), obtained,
                       recorded, old(run), release, ptr);
      LetGoObtained(release, ptr, old(FreePtrs(freeBlocks)), old(obtained), FreePtrs(freeBlocks), obtained);
    }

    /** A block that is not in a client's hands: the driver gets it. */
    method FreeElsewhere(ptr: Ptr)
      requires Valid() && ptr !in liveBlocks && (ptr in foreign || HasWaited(ptr))
      modifies `obtained, `foreign, `transit, `run
      ensures Valid() && foreign == old(foreign) - {ptr} && transit == old(transit) - {ptr}
      ensures obtained == old(obtained) - {ptr} && liveBlocks - {ptr} == liveBlocks && ptr != NO_PTR
      ensures ptr in old(foreign) ==> obtained == old(obtained) && transit == old(transit)
      ensures run == Then(old(run), Returned(ptr))
    {
      hide FreePtrs, BlocksPlaced, EventsPlaced, Waits, BySize, Busy;
      Elsewhere(liveBlocks, freeBlocks, pendingFrees, transit, obtained, foreign, run, ptr);
      GoneBlocks(liveBlocks, freeBlocks, pendingFrees, transit, obtained, foreign, ptr);
      GoneWaiting(FreePtrs(freeBlocks), pendingFrees, transit, recorded, run, ptr, Returned(ptr));
      SameHolders(reusableEvents, pendingFrees, transit, transit - {ptr}, events);
      assert FreePtrs(freeBlocks) - {ptr} == FreePtrs(freeBlocks);
      HostFree(ptr);
      transit := transit - {ptr};
    }

    /**
     * First critical section of freeing behind a stream: take the block back from the client, with a
     * used event if there is one. A block that is not the pool's goes to the driver.
     */
    method BeginFreeAsync(ptr: Ptr, stream: Stream, limit: nat)
      returns (taken: bool, size: nat, event: Option<Event>, release: bool)
      requires Valid() && (ptr in liveBlocks || ptr in foreign)
      modifies `liveBlocks, `reusableEvents, `obtained, `foreign, `transit, `run
      ensures Valid() && taken == (ptr in old(liveBlocks)) && liveBlocks == old(liveBlocks) - {ptr}
      ensures foreign == old(foreign) - {ptr} && obtained == old(obtained)
      ensures !taken ==> transit == old(transit) && reusableEvents == old(reusableEvents)
      ensures !taken ==> run == Then(old(run), Returned(ptr))
      ensures taken ==>
        var n := |old(reusableEvents)|;
        && size == old(liveBlocks)[ptr] && release == (limit == 0 || old(cachedBytes) + size > limit)
        && event == (if n == 0 then None else Some(old(reusableEvents)[n - 1]))
        && reusableEvents == (if n == 0 then old(reusableEvents) else old(reusableEvents)[..n - 1])
        && transit == old(transit)[ptr := Freeing(size, stream, event, release, false)]
        && run == Then(old(run), TakenBack(ptr, stream))
    {
      hide FreePtrs, BlocksPlaced, EventsPlaced, Waits, Busy;
      if ptr !in liveBlocks {
        FreeElsewhere(ptr);
        taken, size, event, release := false, 0, None, false;
        return;
      }
      size := liveBlocks[ptr];
      release := ShouldReleaseBlock(size, limit);
      event := None;
      if reusableEvents != [] {
        event := Some(reusableEvents[|reusableEvents| - 1]);
      }
      ghost var t := Freeing(size, stream, event, release, false);
      LivePlace(liveBlocks, freeBlocks, pendingFrees, transit, obtained, foreign, run, ptr);
      TakenBackWaits(State(), ptr, t);
      TakenEvent(reusableEvents, pendingFrees, transit, events, ptr, t);
      liveBlocks := liveBlocks - {ptr};
      assert liveBlocks.Keys == old(liveBlocks).Keys - {ptr};
      if event.Some? {
        reusableEvents := reusableEvents[..|reusableEvents| - 1];
      }
      transit, run := transit[ptr := t], Then(run, TakenBack(ptr, stream));
      taken := true;
    }

    /** The thread holds the block behind a stream, with this event. */
    ghost predicate Holds(ptr: Ptr, size: nat, stream: Stream, event: Option<Event>, release: bool, isRecorded: bool)
      reads `transit
    {
      ptr in transit && transit[ptr] == Freeing(size, stream, event, release, isRecorded)
    }

    /** Make an event if none was reused. ok and made are the driver's answer. */
    method ObtainEvent(ptr: Ptr, size: nat, stream: Stream, event: Option<Event>, release: bool, ok: bool, made: Event)
      returns (event': Option<Event>)
      requires Valid() && Holds(ptr, size, stream, event, release, false) && (ok ==> made !in events)
      modifies `transit, `events
      ensures Valid() && transit == old(transit)[ptr := Freeing(size, stream, event', release, false)]
      ensures event' == if event.Some? then event else if ok then Some(made) else None
    {
      if event.Some? || !ok {
        event' := event;
        assert transit == transit[ptr := Freeing(size, stream, event', release, false)];
        return;
      }
      hide FreePtrs, BlocksPlaced, EventsPlaced, Waits, SafeRun;
      event' := Some(made);
      ghost var t := Freeing(size, stream, event', release, false);
      HeldInPlace(State(), ptr, t);
      NewEvent(reusableEvents, pendingFrees, transit, events, ptr, t);
      transit, events := transit[ptr := t], events + {made};
    }

    /** Record the event behind the work issued so far. If that fails, the event is destroyed. */
    method RecordEvent(ptr: Ptr, size: nat, stream: Stream, event: Event, release: bool, ok: bool)
      requires Valid() && Holds(ptr, size, stream, Some(event), release, false)
      modifies `transit, `events, `recorded
      ensures Valid()
      ensures ok ==>
        && transit == old(transit)[ptr := Freeing(size, stream, Some(event), release, true)] && events == old(events)
        && recorded == old(recorded)[event := Mark(stream, IssuedIn(run, stream))]
      ensures !ok ==>
        && transit == old(transit)[ptr := Freeing(size, stream, None, release, false)]
        && recorded == old(recorded)
    {
      hide FreePtrs, BlocksPlaced, EventsPlaced, Waits, SafeRun;
      ghost var t := Freeing(size, stream, if ok then Some(event) else None, release, ok);
      if ok {
        HeldRecorded(State(), ptr, t);
        transit, recorded := transit[ptr := t], recorded[event := Mark(stream, IssuedIn(run, stream))];
      } else {
        HeldInPlace(State(), ptr, t);
        LostEvent(reusableEvents, pendingFrees, transit, events, ptr, t);
        transit, events := transit[ptr := t], events - {event};
      }
    }

    /** Second critical section: leave block and event to be polled. */
    method FinishFreeAsync(ptr: Ptr, size: nat, stream: Stream, event: Event, release: bool)
      requires Valid() && Holds(ptr, size, stream, Some(event), release, true)
      modifies `transit, `pendingFrees
      ensures Valid() && transit == old(transit) - {ptr}
      ensures pendingFrees == old(pendingFrees) + [PendingBlock(ptr, size, event, release)]
    {
      hide FreePtrs, BlocksPlaced, EventsPlaced, Waits, SafeRun;
      var b := PendingBlock(ptr, size, event, release);
      Handed(State(), b);
      transit := transit - {ptr};
      pendingFrees := pendingFrees + [b];
    }

    /** Without an event, wait until everything issued to the stream is done. The driver's answer is not looked at. */
    method Synchronize(ptr: Ptr, size: nat, stream: Stream, release: bool, ok: bool)
      requires Valid() && Holds(ptr, size, stream, None, release, false)
      modifies `transit, `run
      ensures Valid() && transit == old(transit)[ptr := Waited(stream)]
      ensures run == Then(old(run), if ok then Ran(stream, IssuedIn(old(run), stream)) else Lapsed(ptr))
    {
      hide FreePtrs, BlocksPlaced, EventsPlaced, Waits, Busy;
      ghost var t := Waited(stream);
      ghost var step := if ok then Ran(stream, IssuedIn(run, stream)) else Lapsed(ptr);
      HasWaitedWaits(State(), ptr, t, step);
      transit, run := transit[ptr := t], Then(run, step);
    }

    /** Without an event, wait for the stream and give the block back to the driver. */
    method AbandonFreeAsync(ptr: Ptr, size: nat, stream: Stream, release: bool, syncOk: bool, limit: nat)
      requires Valid() && Holds(ptr, size, stream, None, release, false)
      modifies `liveBlocks, `freeBlocks, `cachedBytes, `obtained, `foreign, `transit, `run
      ensures Valid() && transit == old(transit) - {ptr} && obtained == old(obtained) - {ptr}
      ensures liveBlocks == old(liveBlocks) && freeBlocks == old(freeBlocks) && foreign == old(foreign)
      ensures run == Abandoned(old(run), ptr, stream, syncOk)
    {
      hide FreePtrs, EventsPlaced, Waits, SafeRun;
      InTransit(liveBlocks, freeBlocks, pendingFrees, transit, obtained, foreign, ptr);
      Synchronize(ptr, size, stream, release, syncOk);
      FreeCompleted(ptr, limit);
    }

    /** From having taken the block back to leaving it to be polled. */
    method FreeBehindEvent(ptr: Ptr, size: nat, stream: Stream, event0: Option<Event>, release: bool, limit: nat,
                           createOk: bool, made: Event, recordOk: bool, syncOk: bool)
      requires Valid() && Holds(ptr, size, stream, event0, release, false) && (createOk ==> made !in events)
      modifies `liveBlocks, `freeBlocks, `pendingFrees, `cachedBytes, `obtained, `foreign, `transit, `events, `recorded,
               `run
      ensures Valid() && transit == old(transit) - {ptr}
      ensures liveBlocks == old(liveBlocks) && freeBlocks == old(freeBlocks) && foreign == old(foreign)
      ensures Parked(old(pendingFrees), pendingFrees, ptr, size, release, (event0.Some? || createOk) && recordOk)
      ensures (event0.Some? || createOk) && recordOk ==> obtained == old(obtained) && run == old(run)
      ensures !((event0.Some? || createOk) && recordOk) ==>
        obtained == old(obtained) - {ptr} && run == Abandoned(old(run), ptr, stream, syncOk)
    {
      hide Valid;
      var event := ObtainEvent(ptr, size, stream, event0, release, createOk, made);
      if event == None {
        AbandonFreeAsync(ptr, size, stream, release, syncOk, limit);
        return;
      }
      RecordEvent(ptr, size, stream, event.value, release, recordOk);
      if !recordOk {
        AbandonFreeAsync(ptr, size, stream, release, syncOk, limit);
        return;
      }
      FinishFreeAsync(ptr, size, stream, event.value, release);
    }

    /**
     * Free a block behind the work issued to a stream. The sections are run here one after the
     * other; what is required between them is only what the thread itself holds.
     */
    method FreeAsync(ptr: Ptr, stream: Stream, limit: nat, createOk: bool, made: Event, recordOk: bool, syncOk: bool)
      requires Valid() && (ptr == NO_PTR || ptr in liveBlocks || ptr in foreign) && (createOk ==> made !in events)
      modifies this
      ensures Valid() && liveBlocks == old(liveBlocks) - {ptr} && foreign == old(foreign) - {ptr}
      ensures ptr !in old(liveBlocks) ==>
        && freeBlocks == old(freeBlocks) && pendingFrees == old(pendingFrees)
        && run == if ptr == NO_PTR then old(run) else Then(old(run), Returned(ptr))
      ensures ptr in old(liveBlocks) && stream == NO_STREAM && !old(Overfull(liveBlocks[ptr], limit)) ==>
        && pendingFrees == old(pendingFrees) && run == Then(old(run), FreedIdle(ptr))
        && FreeSet(freeBlocks) == old(FreeSet(freeBlocks)) + {FreeBlock(old(liveBlocks)[ptr], ptr)}
      ensures ptr in old(liveBlocks) && stream == NO_STREAM && old(Overfull(liveBlocks[ptr], limit)) ==>
        && pendingFrees == old(pendingFrees) && freeBlocks == old(freeBlocks) && obtained == old(obtained) - {ptr}
        && run == Then(Then(old(run), FreedIdle(ptr)), Returned(ptr))
      ensures ptr in old(liveBlocks) && stream != NO_STREAM ==>
        && freeBlocks == old(freeBlocks)
        && Parked(old(pendingFrees), pendingFrees, ptr, old(liveBlocks)[ptr],
                  old(Overfull(liveBlocks[ptr], limit)), (old(reusableEvents) != [] || createOk) && recordOk)
      ensures ptr in old(liveBlocks) && stream != NO_STREAM && (old(reusableEvents) != [] || createOk) && recordOk ==>
        obtained == old(obtained) && run == Then(old(run), TakenBack(ptr, stream))
      ensures ptr in old(liveBlocks) && stream != NO_STREAM
              && !((old(reusableEvents) != [] || createOk) && recordOk) ==>
        && obtained == old(obtained) - {ptr}
        && run == Abandoned(Then(old(run), TakenBack(ptr, stream)), ptr, stream, syncOk)
    {
      hide Valid, FreeSet;
      if ptr == NO_PTR {
        NullIsNowhere();
        return;
      }
      if stream == NO_STREAM {
        FreeCompleted(ptr, limit);
        return;
      }
      var taken, size, event, release := BeginFreeAsync(ptr, stream, limit);
      if !taken {
        return;
      }
      FreeBehindEvent(ptr, size, stream, event, release, limit, createOk, made, recordOk, syncOk);
    }

    lemma NothingCached()
      requires Valid() && freeBlocks == []
      ensures cachedBytes == 0
    {
    }

    lemma NullIsNowhere()
      requires Valid()
      ensures liveBlocks - {NO_PTR} == liveBlocks && foreign - {NO_PTR} == foreign && NO_PTR !in liveBlocks
    {
      Elsewhere(liveBlocks, freeBlocks, pendingFrees, transit, obtained, foreign, run, NO_PTR);
    }

    // What the invariant means over whole runs.

    /** Every run of the pool is a safe run, whatever the threads, the device and the driver do. */
    lemma RunIsSafe()
      requires Valid()
      ensures SafeRun(run) && OutIn(run) == liveBlocks.Keys
    {
    }

    /**
     * A poll lets a pending block go while work may still use it if and only if the block's own query
     * fails: a block to be released goes back to the driver, any other joins the free blocks.
     */
    lemma LetGoBusyIff(status: Event -> QueryStatus, b: PendingBlock)
      requires Valid() && Truthful(status, recorded, run) && b in pendingFrees
      ensures b !in Kept(pendingFrees, status) && Busy(run, b.ptr) <==> status(b.event) == Error && Busy(run, b.ptr)
      ensures UsedEarlySince(run, ShedAll(pendingFrees, status, run), b.ptr) <==>
              status(b.event) == Error && b.release && Busy(run, b.ptr)
      ensures !b.release ==>
        && (FreeBlock(b.size, b.ptr) in Cached(pendingFrees, status) <==> status(b.event) != NotReady)
        && Busy(ShedAll(pendingFrees, status, run), b.ptr) == Busy(run, b.ptr)
    {
      hide FreePtrs, EventsPlaced, Waits, Busy, UsedEarlySince, Separate;
      KeptAreNotReady(pendingFrees, status, b);
      SettledIsIdle(FreePtrs(freeBlocks), pendingFrees, transit, recorded, run, status(b.event), b);
      ShedOfOne(pendingFrees, status, run, b);
      if !b.release {
        CachedOfOne(pendingFrees, status, b);
      }
    }

    /**
     * Asking for blocks of its size gets any free block out to a client, busy or not: nothing looks
     * at the work again once a block is free.
     */
    method ReuseCached(b: FreeBlock)
      requires Valid() && b in FreeSet(freeBlocks)
      modifies `freeBlocks, `liveBlocks, `pendingFrees, `reusableEvents, `cachedBytes, `obtained, `foreign, `events,
               `run
      ensures Valid() && b.ptr in liveBlocks && pendingFrees == old(pendingFrees)
      ensures run.Then? && run.last == HandedOut(b.ptr) && IsPrefix(old(run), run.before)
      ensures Busy(run.before, b.ptr) == Busy(old(run), b.ptr)
    {
      hide *;
      ghost var run0 := run;
      var nothing := (e: Event) => NotReady;
      PrefixOfItself(run);
      FreeNotLive(b);
      while b.ptr !in liveBlocks
        invariant Valid() && pendingFrees == old(pendingFrees)
        invariant b.ptr !in liveBlocks ==>
          b in FreeSet(freeBlocks) && IsPrefix(run0, run) && Busy(run, b.ptr) == Busy(run0, b.ptr)
        invariant b.ptr in liveBlocks ==>
          && run.Then? && run.last == HandedOut(b.ptr) && IsPrefix(run0, run.before)
          && Busy(run.before, b.ptr) == Busy(run0, b.ptr)
        decreases FreeSet(freeBlocks)
      {
        NothingReady(pendingFrees, nothing, Polled());
        NothingTold(nothing, recorded, run);
        ViewOf();
        var found := TakeCached(b.size, nothing);
        assert found.Some?;
        HandedOutOther(run0, run.before, found.value, b.ptr);
      }
    }

    /**
     * So one failed query is enough: from any state in which a pending block's own query fails while
     * work may still use it, and that is to be cached, a client can get the block in that time.
     */
    method FailedQueryReuses(b: PendingBlock, status: Event -> QueryStatus)
      requires Valid() && Truthful(status, recorded, run) && b in pendingFrees && !b.release
      requires status(b.event) == Error && Busy(run, b.ptr)
      modifies `freeBlocks, `liveBlocks, `pendingFrees, `reusableEvents, `cachedBytes, `obtained, `foreign, `events,
               `run
      ensures Valid() && b.ptr in liveBlocks && IsPrefix(old(run), run)
      ensures run.Then? && run.last == HandedOut(b.ptr) && Busy(run.before, b.ptr)
    {
      hide *;
      LetGoBusyIff(status, b);
      ViewOf();
      ghost var seen, v := pendingFrees, Polled();
      PollPendingFrees(status);
      ViewOf();
      AfterPollView(seen, status, v);
      PrefixOfPoll(seen, status, v.run);
      ReuseCached(FreeBlock(b.size, b.ptr));
      PrefixGrows(v.run, ShedAll(seen, status, v.run), run);
    }

    lemma InTransitIsObtained()
      requires Valid()
      ensures forall p :: p in transit ==> p in obtained
    {
      assert forall p :: p in transit ==> p in transit.Keys;
    }

    lemma ViewOf()
      ensures Polled().free == FreeSet(freeBlocks) && Polled().run == run && Polled().obtained == obtained
    {
    }

    lemma FreeNotLive(b: FreeBlock)
      requires Valid() && b in FreeSet(freeBlocks)
      ensures b.ptr !in liveBlocks
    {
      hide EventsPlaced, Waits, BySize, Separate;
      assert b.ptr in FreePtrs(freeBlocks);
      assert b.ptr in liveBlocks ==> b.ptr in liveBlocks.Keys;
    }

    // Tearing down.

    /** The pool is being torn down from this state: nothing is in transit and every event has been waited for. */
    ghost predicate WaitedFor(status: Event -> QueryStatus)
      reads `transit, `pendingFrees, `recorded, `run
    {
      && transit == map[] && Truthful(status, recorded, run)
      && forall b :: b in pendingFrees ==> status(b.event) != NotReady
    }

    /**
     * The destructor, after the polling thread has stopped. status is what each query returned
     * when it no longer said that the event is not ready. Every block goes back to the driver
     * once, and every event is destroyed once.
     */
    method Destroy(status: Event -> QueryStatus)
      requires Valid() && WaitedFor(status)
      modifies `obtained, `foreign, `events, `run
      ensures obtained == {} && events == {} && foreign == old(foreign) && SafeRun(run) && OutIn(run) == {}
    {
      DropPending(status);
      DropFree();
      DropLive();
      var i := 0;
      while i < |reusableEvents|
        invariant 0 <= i <= |reusableEvents|
        invariant obtained == {} && foreign == old(foreign) && SafeRun(run) && OutIn(run) == {}
        invariant events == EventSet(reusableEvents[i..])
      {
        NextEvent(reusableEvents, i);
        events := events - {reusableEvents[i]};
        i := i + 1;
      }
    }

    method DropPending(status: Event -> QueryStatus)
      requires Valid() && WaitedFor(status)
      modifies `obtained, `foreign, `events, `run
      ensures obtained == liveBlocks.Keys + FreePtrs(freeBlocks) && foreign == old(foreign)
      ensures events == EventSet(reusableEvents) && Distinct(reusableEvents)
      ensures BySize(freeBlocks) && liveBlocks.Keys !! FreePtrs(freeBlocks) && obtained !! foreign
      ensures IdleUnlessLapsed(FreePtrs(freeBlocks), map[], run) && GuardsIn(run).Keys !! liveBlocks.Keys
      ensures SafeRun(run) && OutIn(run) == liveBlocks.Keys
    {
      hide *;
      TearDownStart(status);
      var i := 0;
      while i < |pendingFrees|
        invariant 0 <= i <= |pendingFrees|
        invariant obtained == liveBlocks.Keys + FreePtrs(freeBlocks) + PendingPtrs(pendingFrees[i..])
        invariant events == EventSet(reusableEvents) + PendingEvents(pendingFrees[i..]) && foreign == old(foreign)
        invariant Waits(FreePtrs(freeBlocks), pendingFrees[i..], map[], recorded, run) && Separate(pendingFrees[i..])
        invariant Truthful(status, recorded, run) && GuardsIn(run).Keys !! liveBlocks.Keys
        invariant SafeRun(run) && OutIn(run) == liveBlocks.Keys
      {
        var b := pendingFrees[i];
        NextPending(pendingFrees, i);
        LetGoNext(FreePtrs(freeBlocks), pendingFrees[i..], recorded, run, liveBlocks.Keys, status);
        if status(b.event) == Error {
          run := Then(run, Lapsed(b.ptr));
        }
        events := events - {b.event};
        HostFree(b.ptr);
        i := i + 1;
      }
      NothingPending(pendingFrees);
      WaitsIdle(FreePtrs(freeBlocks), pendingFrees[i..], map[], recorded, run);
    }

    lemma TearDownStart(status: Event -> QueryStatus)
      requires Valid() && WaitedFor(status)
      ensures obtained == liveBlocks.Keys + FreePtrs(freeBlocks) + PendingPtrs(pendingFrees[0..])
      ensures events == EventSet(reusableEvents) + PendingEvents(pendingFrees[0..])
      ensures PendingPtrs(pendingFrees) !! liveBlocks.Keys + FreePtrs(freeBlocks)
      ensures PendingEvents(pendingFrees) !! EventSet(reusableEvents)
      ensures Distinct(reusableEvents) && BySize(freeBlocks) && Separate(pendingFrees) && Separate(pendingFrees[0..])
      ensures liveBlocks.Keys !! FreePtrs(freeBlocks) && obtained !! foreign
      ensures Waits(FreePtrs(freeBlocks), pendingFrees[0..], map[], recorded, run)
      ensures GuardsIn(run).Keys !! liveBlocks.Keys && SafeRun(run) && OutIn(run) == liveBlocks.Keys
      ensures Truthful(status, recorded, run) && forall b :: b in pendingFrees ==> status(b.event) != NotReady
    {
      hide FreePtrs, PendingPtrs, PendingEvents, EventSet, Distinct, BySize, Separate, Waits, Truthful, HeldEvents;
      NothingHeld(transit);
      assert pendingFrees[0..] == pendingFrees;
    }

    method DropFree()
      requires obtained == liveBlocks.Keys + FreePtrs(freeBlocks) && obtained !! foreign
      requires BySize(freeBlocks) && liveBlocks.Keys !! FreePtrs(freeBlocks)
      requires IdleUnlessLapsed(FreePtrs(freeBlocks), map[], run) && GuardsIn(run).Keys !! liveBlocks.Keys
      requires SafeRun(run) && OutIn(run) == liveBlocks.Keys
      modifies `obtained, `foreign, `run
      ensures obtained == liveBlocks.Keys && foreign == old(foreign) && GuardsIn(run).Keys !! liveBlocks.Keys
      ensures SafeRun(run) && OutIn(run) == liveBlocks.Keys
    {
      assert freeBlocks[0..] == freeBlocks;
      hide FreePtrs, BySize, Busy;
      var i := 0;
      while i < |freeBlocks|
        invariant 0 <= i <= |freeBlocks|
        invariant obtained == liveBlocks.Keys + FreePtrs(freeBlocks[i..]) && foreign == old(foreign)
        invariant IdleUnlessLapsed(FreePtrs(freeBlocks[i..]), map[], run) && GuardsIn(run).Keys !! liveBlocks.Keys
        invariant SafeRun(run) && OutIn(run) == liveBlocks.Keys
      {
        NextFree(freeBlocks, i);
        ReturnedIdle(FreePtrs(freeBlocks[i..]), run, freeBlocks[i].ptr);
        HostFree(freeBlocks[i].ptr);
        i := i + 1;
      }
      NothingFree(freeBlocks);
    }

    method DropLive()
      requires obtained == liveBlocks.Keys && obtained !! foreign && GuardsIn(run).Keys !! liveBlocks.Keys
      requires SafeRun(run) && OutIn(run) == liveBlocks.Keys
      modifies `obtained, `foreign, `run
      ensures obtained == {} && foreign == old(foreign) && SafeRun(run) && OutIn(run) == {}
    {
      var rest := liveBlocks.Keys;
      while rest != {}
        invariant rest <= liveBlocks.Keys && obtained == rest && foreign == old(foreign)
        invariant GuardsIn(run).Keys !! liveBlocks.Keys && SafeRun(run) && OutIn(run) == rest
        decreases rest
      {
        var p :| p in rest;
        assert p !in GuardsIn(run).Keys;
        HostFree(p);
        rest := rest - {p};
      }
    }
  }

  /** A pool that has handed out one block of 256 bytes. */
  method OneLiveBlock() returns (pool: PinnedHostPool)
    ensures fresh(pool) && pool.Valid() && pool.liveBlocks == map[4096 := 256] && pool.freeBlocks == []
    ensures pool.pendingFrees == [] && pool.cachedBytes == 0 && pool.events == {}
    ensures pool.run == Then(Start, HandedOut(4096))
  {
    hide PinnedHostPool.Valid, BlocksPlaced, EventsPlaced, Waits;
    pool := new PinnedHostPool();
    NothingSeen(e => NotReady, pool.Polled());
    assert pool.Polled().free == {};
    assert RoundedBytes(256) == 256;
    var first := pool.Allocate(256, e => NotReady, true, 4096);
    EmptyFree(pool.freeBlocks);
    pool.NothingCached();
  }

  /** That pool with the block left to be polled, behind work that has not run. */
  method OnePendingBlock() returns (pool: PinnedHostPool, ghost b: PendingBlock)
    ensures fresh(pool) && pool.Valid() && pool.liveBlocks == map[] && pool.freeBlocks == []
    ensures pool.pendingFrees == [b] && b.ptr == 4096 && b.size == 256 && !b.release
    ensures pool.run == Then(Then(Then(Start, HandedOut(4096)), Issued(1)), TakenBack(4096, 1))
  {
    hide PinnedHostPool.Valid;
    pool := OneLiveBlock();
    pool.Issue(1);
    pool.FreeAsync(4096, 1, 1024, true, 7, true, true);
    b := pool.pendingFrees[0];
  }

  /**
   * A run in which a block is handed out while the work issued before its FreeAsync has not run. b
   * and was are the pending block and the run before the last Allocate.
   */
  method FailedQueryReissuesEarly() returns (pool: PinnedHostPool, ghost b: PendingBlock, ghost was: Run)
    ensures fresh(pool) && pool.Valid() && b.ptr in pool.liveBlocks && pool.pendingFrees == []
    ensures was == Then(Then(Then(Start, HandedOut(b.ptr)), Issued(1)), TakenBack(b.ptr, 1))
    ensures GuardsIn(was) == map[b.ptr := Mark(1, 1)] && IssuedIn(was, 1) == 1 && Busy(was, b.ptr)
    ensures pool.run == Then(Then(was, Lapsed(b.ptr)), HandedOut(b.ptr)) && Busy(pool.run.before, b.ptr)
  {
    hide PinnedHostPool.Valid;
    pool, b := OnePendingBlock();
    was := pool.run;
    var status := (e: Event) => Error;
    assert b in pool.pendingFrees;
    assert Cached(pool.pendingFrees, status) == {FreeBlock(256, 4096)};
    assert RoundedBytes(256) == 256;
    assert pool.pendingFrees[..0] == [];
    assert ShedAll(pool.pendingFrees, status, was) == Then(was, Lapsed(4096));
    var ptr := pool.Allocate(256, status, false, NO_PTR);
  }
}
