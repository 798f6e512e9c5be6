/** The pinned host pool's invariants on plain values, and what each atomic step does to them. */
module PinnedSteps {
  import opened ArenaTypes
  import opened Options
  import opened PinnedBlocks
  import opened PinnedTrace

  const NO_PTR: Ptr := 0

  /**
   * What a thread holds: a block from the driver, a block taken back to be freed behind a stream, or
   * one whose event could not be used, after waiting for the stream.
   */
  datatype Transit =
    | Allocating(size: nat)
    | Freeing(size: nat, stream: Stream, event: Option<Event>, release: bool, recorded: bool)
    | Waited(stream: Stream)

  predicate Covers(later: Mark, m: Mark) {
    later.stream == m.stream && m.position <= later.position
  }

  // The invariants, on values.

  /** Each block the pool has obtained is in exactly one place. */
  ghost predicate Partition(whole: set<nat>, a: set<nat>, b: set<nat>, c: set<nat>, d: set<nat>) {
    whole == a + b + c + d && a !! b && (a + b) !! c && (a + b + c) !! d
  }

  ghost predicate BlocksPlaced(live: map<Ptr, nat>, free: seq<FreeBlock>, pending: seq<PendingBlock>,
                               transit: map<Ptr, Transit>, obtained: set<Ptr>, foreign: set<Ptr>) {
    && BySize(free) && Separate(pending)
    && Partition(obtained, live.Keys, FreePtrs(free), PendingPtrs(pending), transit.Keys)
    && obtained !! foreign && NO_PTR !in obtained + foreign
  }

  ghost function HeldEvents(transit: map<Ptr, Transit>): set<Event> {
    set p | p in transit && transit[p].Freeing? && transit[p].event.Some? :: transit[p].event.value
  }

  ghost predicate HoldsEvent(transit: map<Ptr, Transit>, p: Ptr, e: Event) {
    p in transit && transit[p].Freeing? && transit[p].event == Some(e)
  }

  /** Each event made and not destroyed is in exactly one place. */
  ghost predicate EventsPlaced(reusable: seq<Event>, pending: seq<PendingBlock>, transit: map<Ptr, Transit>,
                               events: set<Event>) {
    && Distinct(reusable)
    && Partition(events, EventSet(reusable), PendingEvents(pending), HeldEvents(transit), {})
    && HoldersApart(transit)
  }

  /** No two blocks in transit hold the same event. */
  ghost predicate HoldersApart(transit: map<Ptr, Transit>) {
    forall p, q, e :: HoldsEvent(transit, p, e) && HoldsEvent(transit, q, e) ==> p == q
  }

  ghost predicate Follows(m: Mark, event: Event, recorded: map<Event, Mark>) {
    event in recorded && Covers(recorded[event], m)
  }

  /** A block on its way back is guarded by an event recorded behind the work that may still use it. */
  ghost predicate Guarded(pending: seq<PendingBlock>, transit: map<Ptr, Transit>, recorded: map<Event, Mark>,
                          run: Run) {
    var guards := GuardsIn(run);
    && (forall b :: b in pending ==> b.ptr in guards && Follows(guards[b.ptr], b.event, recorded))
    && (forall p {:trigger transit[p]} :: p in transit ==>
          if transit[p].Allocating? then p !in guards
          else
            && p in guards && guards[p].stream == transit[p].stream
            && (transit[p].Freeing? && transit[p].recorded ==>
                  transit[p].event.Some? && Follows(guards[p], transit[p].event.value, recorded)))
  }

  /**
   * The work that used a block is done when the block is free, or when its thread has waited for
   * it; but for those blocks whose own wait was answered with an error.
   */
  ghost predicate IdleUnlessLapsed(free: set<Ptr>, transit: map<Ptr, Transit>, run: Run) {
    && (forall p {:trigger p in free} :: p in free && Busy(run, p) ==> p in LapsedIn(run))
    && (forall p {:trigger transit[p]} :: p in transit && transit[p].Waited? && Busy(run, p) ==> p in LapsedIn(run))
  }

  /** Only a block that is no longer waiting can have lapsed. */
  ghost predicate LapsedPlaced(pending: set<Ptr>, transit: map<Ptr, Transit>, run: Run) {
    && LapsedIn(run) <= GuardsIn(run).Keys && LapsedIn(run) !! pending
    && forall p {:trigger transit[p]} :: p in transit && p in LapsedIn(run) ==> transit[p].Waited?
  }

  ghost predicate WithinIssued(run: Run) {
    forall p {:trigger p in GuardsIn(run)} :: p in GuardsIn(run) ==>
      GuardsIn(run)[p].position <= IssuedIn(run, GuardsIn(run)[p].stream)
  }

  /** What every block that is not in a client's hands is waiting for. */
  ghost predicate Waits(free: set<Ptr>, pending: seq<PendingBlock>, transit: map<Ptr, Transit>,
                        recorded: map<Event, Mark>, run: Run) {
    && Guarded(pending, transit, recorded, run)
    && IdleUnlessLapsed(free, transit, run)
    && LapsedPlaced(PendingPtrs(pending), transit, run)
    && WithinIssued(run)
  }

  /** The pool's records, and what its threads hold, the device has been told and has done. */
  datatype Pool = Pool(live: map<Ptr, nat>, free: seq<FreeBlock>, pending: seq<PendingBlock>, reusable: seq<Event>,
                       transit: map<Ptr, Transit>, obtained: set<Ptr>, foreign: set<Ptr>, events: set<Event>,
                       recorded: map<Event, Mark>, run: Run) {
    /** Every block and every event is in its place, and waits for what it has to wait for. */
    ghost predicate Settled() {
      && BlocksPlaced(live, free, pending, transit, obtained, foreign)
      && EventsPlaced(reusable, pending, transit, events)
      && Waits(FreePtrs(free), pending, transit, recorded, run) && GuardsIn(run).Keys <= obtained - live.Keys
    }
  }

  ghost predicate Past(run: Run, m: Mark) {
    m.position <= DoneIn(run, m.stream)
  }

  /** Statuses that the device may report now. */
  ghost predicate Truthful(status: Event -> QueryStatus, recorded: map<Event, Mark>, run: Run) {
    forall e :: e in recorded && status(e) == Success ==> Past(run, recorded[e])
  }

  /** An idle block goes back to the driver, or joins the free blocks. */
  ghost predicate LetGo(release: bool, ptr: Ptr, free: set<Ptr>, obtained: set<Ptr>, free': set<Ptr>,
                        obtained': set<Ptr>) {
    if release then free' == free && obtained' == obtained - {ptr} else free' == free + {ptr} && obtained' == obtained
  }

  ghost predicate EventLetGo(success: bool, e: Event, reusable: seq<Event>, events: set<Event>,
                             reusable': seq<Event>, events': set<Event>) {
    if success then reusable' == reusable + [e] && events' == events
    else reusable' == reusable && events' == events - {e}
  }

  /** What polling can change, but for the pending list itself. */
  datatype View = View(free: set<FreeBlock>, reusable: seq<Event>, obtained: set<Ptr>, run: Run)

  /** A block whose event answered with this status is let go. */
  ghost function Shed(ptr: Ptr, release: bool, status: QueryStatus, run: Run): Run {
    var told := if status == Error then Then(run, Lapsed(ptr)) else run;
    if status != NotReady && release then Then(told, Returned(ptr)) else told
  }

  /** What a poll adds to the run. */
  ghost function ShedAll(seen: seq<PendingBlock>, status: Event -> QueryStatus, run: Run): Run {
    if seen == [] then run
    else
      var b := seen[|seen| - 1];
      Shed(b.ptr, b.release, status(b.event), ShedAll(seen[..|seen| - 1], status, run))
  }

  /** A pending block whose event was seen with this status is let go, and its event. */
  ghost function AfterOne(b: PendingBlock, status: QueryStatus, v: View): View {
    if status == NotReady then v
    else
      View(if b.release then v.free else v.free + {FreeBlock(b.size, b.ptr)},
           if status == Success then v.reusable + [b.event] else v.reusable,
           if b.release then v.obtained - {b.ptr} else v.obtained,
           Shed(b.ptr, b.release, status, v.run))
  }

  /** Everything seen is let go unless its event is still waiting. */
  ghost function AfterPoll(seen: seq<PendingBlock>, status: Event -> QueryStatus, v: View): View {
    View(v.free + Cached(seen, status), v.reusable + Finished(seen, status), v.obtained - Released(seen, status),
         ShedAll(seen, status, v.run))
  }

  lemma AfterPollStep(seen: seq<PendingBlock>, b: PendingBlock, status: Event -> QueryStatus, v: View)
    ensures AfterPoll(seen + [b], status, v) == AfterOne(b, status(b.event), AfterPoll(seen, status, v))
  {
    hide Cached, Finished, Released;
    PollStep(seen, b, status);
    CachedStep(seen, b, status);
    ReleasedStep(seen, b, status);
    var v1, v2 := AfterPoll(seen + [b], status, v), AfterOne(b, status(b.event), AfterPoll(seen, status, v));
    assert v1.free == v2.free;
    assert v1.reusable == v2.reusable;
    assert v1.obtained == v2.obtained;
    assert (seen + [b])[..|seen|] == seen;
  }

  // What settling one pending block does to the invariants.

  lemma SettledBlocks(live: map<Ptr, nat>, free: seq<FreeBlock>, free': seq<FreeBlock>, pending: seq<PendingBlock>,
                      transit: map<Ptr, Transit>, obtained: set<Ptr>, obtained': set<Ptr>, foreign: set<Ptr>, i: nat)
    requires BlocksPlaced(live, free, pending, transit, obtained, foreign) && i < |pending| && BySize(free')
    requires LetGo(pending[i].release, pending[i].ptr, FreePtrs(free), obtained, FreePtrs(free'), obtained')
    ensures BlocksPlaced(live, free', Dropped(pending, i), transit, obtained', foreign)
  {
    hide FreePtrs, PendingPtrs, BySize;
    PendingHas(pending, i);
    DropSeparate(pending, i);
  }

  lemma PendingPlace(live: map<Ptr, nat>, free: seq<FreeBlock>, pending: seq<PendingBlock>,
                     transit: map<Ptr, Transit>, obtained: set<Ptr>, foreign: set<Ptr>, i: nat)
    requires BlocksPlaced(live, free, pending, transit, obtained, foreign) && i < |pending|
    ensures BySize(free) && Separate(pending) && transit.Keys !! PendingPtrs(pending)
    ensures pending[i].ptr in obtained && pending[i].ptr !in FreePtrs(free) && pending[i].ptr !in foreign
    ensures pending[i].ptr !in live
  {
    PendingHas(pending, i);
  }

  lemma PendingHas(pending: seq<PendingBlock>, i: nat)
    requires i < |pending|
    ensures pending[i] in pending
    ensures pending[i].ptr in PendingPtrs(pending) && pending[i].event in PendingEvents(pending)
  {
    assert pending[i] in pending;
  }

  lemma SettledEvents(reusable: seq<Event>, pending: seq<PendingBlock>, transit: map<Ptr, Transit>, events: set<Event>,
                      i: nat, success: bool, reusable': seq<Event>, events': set<Event>)
    requires Separate(pending) && EventsPlaced(reusable, pending, transit, events) && i < |pending|
    requires EventLetGo(success, pending[i].event, reusable, events, reusable', events')
    ensures EventsPlaced(reusable', Dropped(pending, i), transit, events')
  {
    hide PendingEvents, EventSet, HeldEvents, HoldsEvent;
    PendingHas(pending, i);
    DropSeparate(pending, i);
    if success {
      PushEvent(reusable, pending[i].event);
    }
  }

  /** The query of a block's own event tells the truth about the block. */
  ghost predicate TrueOf(b: PendingBlock, status: QueryStatus, recorded: map<Event, Mark>, run: Run) {
    status == Success && b.event in recorded ==> Past(run, recorded[b.event])
  }

  /** A pending block is not let go while busy, unless its own query fails. */
  lemma SettledIsIdle(free: set<Ptr>, pending: seq<PendingBlock>, transit: map<Ptr, Transit>,
                      recorded: map<Event, Mark>, run: Run, status: QueryStatus, b: PendingBlock)
    requires b in pending && Waits(free, pending, transit, recorded, run) && TrueOf(b, status, recorded, run)
    ensures b.ptr in GuardsIn(run) && b.ptr !in LapsedIn(run)
    ensures status == Success ==> !Busy(run, b.ptr)
  {
    assert b.ptr in PendingPtrs(pending);
  }

  /** Letting one block go keeps what all others wait for. */
  lemma SettledWaiting(free: set<Ptr>, free': set<Ptr>, pending: seq<PendingBlock>, transit: map<Ptr, Transit>,
                       recorded: map<Event, Mark>, run: Run, run': Run, release: bool, status: QueryStatus, i: nat)
    requires i < |pending| && Separate(pending) && transit.Keys !! PendingPtrs(pending) && status != NotReady
    requires Waits(free, pending, transit, recorded, run) && TrueOf(pending[i], status, recorded, run)
    requires run' == Shed(pending[i].ptr, release, status, run)
    requires free' == if release then free else free + {pending[i].ptr}
    ensures Waits(free', Dropped(pending, i), transit, recorded, run')
    ensures GuardsIn(run').Keys <= GuardsIn(run).Keys && (release ==> pending[i].ptr !in GuardsIn(run').Keys)
  {
    hide PendingPtrs, Dropped, Follows;
    PendingHas(pending, i);
    DropSeparate(pending, i);
    var b := pending[i];
    SettledIsIdle(free, pending, transit, recorded, run, status, b);
    forall c | c in Dropped(pending, i)
      ensures c.ptr != b.ptr
    {
      DroppedPending(pending, i, c);
    }
    assert b.ptr !in transit;
    var told := if status == Error then Then(run, Lapsed(b.ptr)) else run;
    assert GuardsIn(told) == GuardsIn(run);
    assert LapsedIn(told) == LapsedIn(run) + (if status == Error then {b.ptr} else {});
    assert forall p :: Busy(told, p) <==> Busy(run, p);
    assert forall s :: IssuedIn(told, s) == IssuedIn(run, s);
  }

  /** A run goes on safely when a block that may be let go is let go. */
  lemma ShedIsSafe(run: Run, ptr: Ptr, release: bool, status: QueryStatus)
    requires SafeRun(run) && ptr in GuardsIn(run) && ptr !in OutIn(run) && (status == Success ==> !Busy(run, ptr))
    requires status != NotReady
    ensures SafeRun(Shed(ptr, release, status, run)) && OutIn(Shed(ptr, release, status, run)) == OutIn(run)
  {
    assert OutIn(run) - {ptr} == OutIn(run);
  }

  /** A thread without an event waits for the stream and gives the block to the driver. */
  ghost function Abandoned(run: Run, ptr: Ptr, stream: Stream, syncOk: bool): Run {
    Then(Then(run, if syncOk then Ran(stream, IssuedIn(run, stream)) else Lapsed(ptr)), Returned(ptr))
  }

  /** The block is appended to the pending list, or the list stays as it was. */
  ghost predicate Parked(before: seq<PendingBlock>, after: seq<PendingBlock>, ptr: Ptr, size: nat, release: bool,
                         parked: bool) {
    if parked then exists e :: after == before + [PendingBlock(ptr, size, e, release)] else after == before
  }

  /**
   * What an allocation of size bytes does after polling has left the view v: it takes the smallest
   * free block that is large enough, and asks the driver only if there is none.
   */
  ghost predicate AllocationOutcome(size: nat, v: View, live: map<Ptr, nat>, fromDriver: Ptr,
                                    ptr: Ptr, live': map<Ptr, nat>, free': set<FreeBlock>, run': Run) {
    && (ptr != NO_PTR ==> ptr !in live && ptr in live' && live' == live[ptr := live'[ptr]] && size <= live'[ptr])
    && run' == (if ptr == NO_PTR then v.run else Then(v.run, HandedOut(ptr)))
    && if exists b :: b in v.free && size <= b.size then
         && ptr != NO_PTR && FreeBlock(live'[ptr], ptr) in v.free && free' == v.free - {FreeBlock(live'[ptr], ptr)}
         && (forall b :: b in v.free && size <= b.size ==> live'[ptr] <= b.size)
       else
         && ptr == fromDriver && free' == v.free
         && live' == if ptr == NO_PTR then live else live[ptr := size]
  }

  lemma OutcomeHit(size: nat, v: View, live: map<Ptr, nat>, fromDriver: Ptr,
                   ptr: Ptr, live': map<Ptr, nat>, free': set<FreeBlock>, run': Run)
    requires ptr !in live && ptr in live' && live' == live[ptr := live'[ptr]] && size <= live'[ptr]
    requires ptr != NO_PTR && FreeBlock(live'[ptr], ptr) in v.free && free' == v.free - {FreeBlock(live'[ptr], ptr)}
    requires (forall b :: b in v.free && size <= b.size ==> live'[ptr] <= b.size) && run' == Then(v.run, HandedOut(ptr))
    ensures AllocationOutcome(size, v, live, fromDriver, ptr, live', free', run')
  {
  }

  lemma OutcomeMiss(size: nat, v: View, live: map<Ptr, nat>, ptr: Ptr, live': map<Ptr, nat>, free': set<FreeBlock>,
                    run': Run)
    requires free' == v.free && forall b :: b in v.free ==> b.size < size
    requires live' == (if ptr == NO_PTR then live else live[ptr := size]) && (ptr != NO_PTR ==> ptr !in live)
    requires run' == if ptr == NO_PTR then v.run else Then(v.run, HandedOut(ptr))
    ensures AllocationOutcome(size, v, live, ptr, ptr, live', free', run')
  {
  }

  // What a step does to the invariants.

  /** Work issued or done makes no block less idle. */
  lemma MoreWaits(free: set<Ptr>, pending: seq<PendingBlock>, transit: map<Ptr, Transit>, recorded: map<Event, Mark>,
                  run: Run, step: Step)
    requires Waits(free, pending, transit, recorded, run) && (step.Issued? || step.Ran?)
    ensures Waits(free, pending, transit, recorded, Then(run, step)) && GuardsIn(Then(run, step)) == GuardsIn(run)
  {
    hide PendingPtrs, Follows;
  }

  /** A new block is in transit only. */
  lemma Arrived(s: Pool, t: Transit, ptr: Ptr)
    requires s.Settled() && ptr !in s.obtained + s.foreign && ptr != NO_PTR && t.Allocating?
    ensures s.(transit := s.transit[ptr := t], obtained := s.obtained + {ptr}).Settled()
  {
    hide FreePtrs, PendingPtrs, BySize, Separate, EventsPlaced, Busy, Follows;
    var Pool(live, free, pending, reusable, transit, obtained, foreign, events, recorded, run) := s;
    assert transit[ptr := t].Keys == transit.Keys + {ptr};
    assert ptr in GuardsIn(run) ==> ptr in GuardsIn(run).Keys;
    assert ptr in transit ==> ptr in transit.Keys;
    SameHolders(reusable, pending, transit, transit[ptr := t], events);
  }

  /** It moves from transit to the live blocks. */
  lemma MadeLive(s: Pool, ptr: Ptr, size: nat)
    requires s.Settled() && ptr in s.transit && s.transit[ptr].Allocating?
    ensures s.(live := s.live[ptr := size], transit := s.transit - {ptr}, run := Then(s.run, HandedOut(ptr))).Settled()
    ensures ptr !in GuardsIn(s.run) && ptr !in s.live
  {
    hide FreePtrs, BySize, Separate, EventsPlaced, Follows;
    var Pool(live, free, pending, reusable, transit, obtained, foreign, events, recorded, run) := s;
    assert ptr in transit.Keys && (ptr in live ==> ptr in live.Keys);
    assert live[ptr := size].Keys == live.Keys + {ptr} && (transit - {ptr}).Keys == transit.Keys - {ptr};
    GoneWaiting(FreePtrs(free), pending, transit, recorded, run, ptr, HandedOut(ptr));
    SameHolders(reusable, pending, transit, transit - {ptr}, events);
  }

  ghost function EventOf(transit: map<Ptr, Transit>, p: Ptr): set<Event> {
    if p in transit && transit[p].Freeing? && transit[p].event.Some? then {transit[p].event.value} else {}
  }

  lemma HeldAfter(transit: map<Ptr, Transit>, t: Transit, p: Ptr)
    requires HoldersApart(transit)
    ensures HeldEvents(transit[p := t]) == HeldEvents(transit) - EventOf(transit, p) + EventOf(transit[p := t], p)
  {
    var transit' := transit[p := t];
    forall e
      ensures e in HeldEvents(transit') <==> e in HeldEvents(transit) - EventOf(transit, p) + EventOf(transit', p)
    {
      HeldBy(transit, e);
      HeldBy(transit', e);
      assert e in EventOf(transit, p) <==> HoldsEvent(transit, p, e);
      assert e in EventOf(transit', p) <==> HoldsEvent(transit', p, e);
      assert forall q :: q != p ==> (HoldsEvent(transit, q, e) <==> HoldsEvent(transit', q, e));
    }
  }

  /** A live block is taken back to be freed behind a stream. */
  lemma TakenBackWaits(s: Pool, ptr: Ptr, t: Transit)
    requires s.Settled() && ptr in s.live && t.Freeing? && !t.recorded
    ensures BlocksPlaced(s.live - {ptr}, s.free, s.pending, s.transit[ptr := t], s.obtained, s.foreign)
    ensures GuardsIn(Then(s.run, TakenBack(ptr, t.stream))).Keys <= s.obtained - (s.live - {ptr}).Keys
    ensures Waits(FreePtrs(s.free), s.pending, s.transit[ptr := t], s.recorded, Then(s.run, TakenBack(ptr, t.stream)))
  {
    hide FreePtrs, BySize, Separate, Follows, EventsPlaced;
    var Pool(live, free, pending, reusable, transit, obtained, foreign, events, recorded, run) := s;
    assert ptr in live.Keys;
    assert (live - {ptr}).Keys == live.Keys - {ptr} && transit[ptr := t].Keys == transit.Keys + {ptr};
    assert GuardsIn(Then(run, TakenBack(ptr, t.stream))).Keys == GuardsIn(run).Keys + {ptr};
    assert forall b :: b in pending ==> b.ptr in PendingPtrs(pending);
  }

  /** Its event, if any, comes off the end of the used ones. */
  lemma TakenEvent(reusable: seq<Event>, pending: seq<PendingBlock>, transit: map<Ptr, Transit>, events: set<Event>,
                   ptr: Ptr, t: Transit)
    requires EventsPlaced(reusable, pending, transit, events) && ptr !in transit && t.Freeing?
    requires t.event == if reusable == [] then None else Some(reusable[|reusable| - 1])
    ensures EventsPlaced(if reusable == [] then reusable else reusable[..|reusable| - 1], pending, transit[ptr := t],
                         events)
  {
    hide EventSet, PendingEvents;
    HeldAfter(transit, t, ptr);
    if reusable != [] {
      PopEvent(reusable);
      LastIn(reusable);
      HeldBy(transit, t.event.value);
      assert t.event.value !in HeldEvents(transit);
    }
    HoldersStayApart(transit, t, ptr);
  }

  /** Giving a block an event that no other block holds. */
  lemma HoldersStayApart(transit: map<Ptr, Transit>, t: Transit, p: Ptr)
    requires HoldersApart(transit)
    requires t.Freeing? && t.event.Some? ==> forall q :: HoldsEvent(transit, q, t.event.value) ==> q == p
    ensures HoldersApart(transit[p := t])
  {
    var transit' := transit[p := t];
    forall q, e | HoldsEvent(transit', q, e) && q != p
      ensures HoldsEvent(transit, q, e)
    {
    }
  }

  /** A block held behind a stream stays in transit; its event may change. */
  lemma HeldInPlace(s: Pool, ptr: Ptr, t: Transit)
    requires s.Settled() && ptr in s.transit && s.transit[ptr].Freeing?
    requires t.Freeing? && t.stream == s.transit[ptr].stream && !t.recorded
    ensures BlocksPlaced(s.live, s.free, s.pending, s.transit[ptr := t], s.obtained, s.foreign)
    ensures Waits(FreePtrs(s.free), s.pending, s.transit[ptr := t], s.recorded, s.run)
  {
    hide FreePtrs, PendingPtrs, BySize, Separate, Busy, Follows, EventsPlaced;
    var Pool(live, free, pending, reusable, transit, obtained, foreign, events, recorded, run) := s;
    assert transit[ptr := t].Keys == transit.Keys;
  }

  /** A thread has waited for the stream of its block, with or without an error. */
  lemma HasWaitedWaits(s: Pool, ptr: Ptr, t: Transit, step: Step)
    requires s.Settled() && ptr in s.transit && s.transit[ptr].Freeing? && t == Waited(s.transit[ptr].stream)
    requires s.transit[ptr].event == None
    requires step == Lapsed(ptr) || step == Ran(t.stream, IssuedIn(s.run, t.stream))
    ensures s.(transit := s.transit[ptr := t], run := Then(s.run, step)).Settled()
    ensures SafeStep(s.run, step) && OutIn(Then(s.run, step)) == OutIn(s.run)
  {
    hide FreePtrs, PendingPtrs, BySize, Separate, Follows, EventsPlaced;
    var Pool(live, free, pending, reusable, transit, obtained, foreign, events, recorded, run) := s;
    assert transit[ptr := t].Keys == transit.Keys && ptr in transit.Keys;
    assert GuardsIn(Then(run, step)) == GuardsIn(run);
    SameHolders(reusable, pending, transit, transit[ptr := t], events);
    assert LapsedIn(Then(run, step)) == LapsedIn(run) + (if step == Lapsed(ptr) then {ptr} else {});
  }

  lemma NewEvent(reusable: seq<Event>, pending: seq<PendingBlock>, transit: map<Ptr, Transit>, events: set<Event>,
                 ptr: Ptr, t: Transit)
    requires EventsPlaced(reusable, pending, transit, events) && EventOf(transit, ptr) == {}
    requires t.Freeing? && t.event.Some? && t.event.value !in events
    ensures EventsPlaced(reusable, pending, transit[ptr := t], events + {t.event.value})
  {
    hide EventSet, PendingEvents;
    HeldAfter(transit, t, ptr);
    HeldBy(transit, t.event.value);
    assert t.event.value !in HeldEvents(transit);
    HoldersStayApart(transit, t, ptr);
  }

  lemma LostEvent(reusable: seq<Event>, pending: seq<PendingBlock>, transit: map<Ptr, Transit>, events: set<Event>,
                  ptr: Ptr, t: Transit)
    requires EventsPlaced(reusable, pending, transit, events)
    requires ptr in transit && transit[ptr].Freeing? && transit[ptr].event.Some? && t.Freeing? && t.event == None
    ensures EventsPlaced(reusable, pending, transit[ptr := t], events - {transit[ptr].event.value})
  {
    hide EventSet, PendingEvents;
    HeldAfter(transit, t, ptr);
    HoldersStayApart(transit, t, ptr);
    var e := transit[ptr].event.value;
    assert HoldsEvent(transit, ptr, e);
    HeldBy(transit, e);
  }

  /** Recording an event changes only what the block that holds it waits for. */
  lemma HeldRecorded(s: Pool, ptr: Ptr, t: Transit)
    requires s.Settled() && ptr in s.transit && s.transit[ptr].Freeing? && s.transit[ptr].event.Some?
    requires t == s.transit[ptr].(recorded := true)
    ensures s.(transit := s.transit[ptr := t],
               recorded := s.recorded[t.event.value := Mark(t.stream, IssuedIn(s.run, t.stream))]).Settled()
  {
    hide FreePtrs, PendingPtrs, BySize, Separate, EventSet, Distinct, Busy;
    var Pool(live, free, pending, reusable, transit, obtained, foreign, events, recorded, run) := s;
    assert transit[ptr := t].Keys == transit.Keys;
    SameHolders(reusable, pending, transit, transit[ptr := t], events);
    var e := t.event.value;
    assert HoldsEvent(transit, ptr, e);
    HeldBy(transit, e);
    forall b | b in pending
      ensures b.event != e
    {
      assert b.event in PendingEvents(pending);
    }
    forall p | p in transit && p != ptr && transit[p].Freeing? && transit[p].event.Some?
      ensures transit[p].event.value != e
    {
      assert HoldsEvent(transit, p, transit[p].event.value);
    }
  }

  /** The recorded block goes to the end of the pending list. */
  lemma Handed(s: Pool, b: PendingBlock)
    requires s.Settled() && HoldsEvent(s.transit, b.ptr, b.event) && s.transit[b.ptr].recorded
    ensures s.(pending := s.pending + [b], transit := s.transit - {b.ptr}).Settled()
  {
    hide FreePtrs, PendingPtrs, PendingEvents, BySize, Separate, EventSet, Distinct, Busy;
    var Pool(live, free, pending, reusable, transit, obtained, foreign, events, recorded, run) := s;
    HeldBy(transit, b.event);
    assert b.ptr in transit.Keys && (transit - {b.ptr}).Keys == transit.Keys - {b.ptr};
    AppendSeparate(pending, b);
    HeldWithout(transit, b.ptr);
    assert EventOf(transit, b.ptr) == {b.event};
    assert forall c :: c in pending + [b] <==> c in pending || c == b;
  }

  lemma HeldWithout(transit: map<Ptr, Transit>, p: Ptr)
    requires HoldersApart(transit)
    ensures HeldEvents(transit - {p}) == HeldEvents(transit) - EventOf(transit, p) && HoldersApart(transit - {p})
  {
    var transit' := transit - {p};
    assert forall q, e :: HoldsEvent(transit', q, e) <==> HoldsEvent(transit, q, e) && q != p;
    forall e
      ensures e in HeldEvents(transit') <==> e in HeldEvents(transit) - EventOf(transit, p)
    {
      HeldBy(transit, e);
      HeldBy(transit', e);
      assert e in EventOf(transit, p) <==> HoldsEvent(transit, p, e);
    }
  }

  lemma InTransit(live: map<Ptr, nat>, free: seq<FreeBlock>, pending: seq<PendingBlock>, transit: map<Ptr, Transit>,
                  obtained: set<Ptr>, foreign: set<Ptr>, ptr: Ptr)
    requires BlocksPlaced(live, free, pending, transit, obtained, foreign) && ptr in transit
    ensures ptr !in live && ptr !in foreign && live - {ptr} == live && foreign - {ptr} == foreign && ptr != NO_PTR
  {
    hide FreePtrs, PendingPtrs, BySize, Separate;
    assert ptr in transit.Keys;
    assert ptr in live ==> ptr in live.Keys;
  }

  lemma LastIn(events: seq<Event>)
    requires events != []
    ensures events[|events| - 1] in EventSet(events)
  {
  }

  lemma LivePlace(live: map<Ptr, nat>, free: seq<FreeBlock>, pending: seq<PendingBlock>, transit: map<Ptr, Transit>,
                  obtained: set<Ptr>, foreign: set<Ptr>, run: Run, ptr: Ptr)
    requires BlocksPlaced(live, free, pending, transit, obtained, foreign) && ptr in live
    requires GuardsIn(run).Keys <= obtained - live.Keys
    ensures ptr in obtained && ptr !in FreePtrs(free) && ptr !in PendingPtrs(pending) && ptr !in transit
    ensures ptr !in foreign
    ensures ptr !in GuardsIn(run) && BySize(free) && ptr != NO_PTR
  {
    hide FreePtrs, PendingPtrs, BySize, Separate;
    assert ptr in live.Keys;
  }

  /** A block that is not the pool's, or only in transit. */
  lemma Elsewhere(live: map<Ptr, nat>, free: seq<FreeBlock>, pending: seq<PendingBlock>, transit: map<Ptr, Transit>,
                  obtained: set<Ptr>, foreign: set<Ptr>, run: Run, ptr: Ptr)
    requires BlocksPlaced(live, free, pending, transit, obtained, foreign) && GuardsIn(run).Keys <= obtained - live.Keys
    requires ptr == NO_PTR || ptr in foreign || ptr in transit
    ensures ptr !in live && ptr !in FreePtrs(free) && ptr !in PendingPtrs(pending) && live - {ptr} == live
    ensures ptr !in transit ==> ptr !in obtained && ptr !in GuardsIn(run)
    ensures ptr !in transit ==> obtained - {ptr} == obtained && transit - {ptr} == transit
    ensures ptr == NO_PTR ==> foreign - {ptr} == foreign && ptr !in transit
    ensures ptr in foreign ==> ptr !in transit && ptr != NO_PTR
    ensures ptr in transit ==> ptr in obtained && ptr != NO_PTR
  {
    hide FreePtrs, PendingPtrs, BySize, Separate;
    assert ptr in transit ==> ptr in transit.Keys;
    assert ptr in live ==> ptr in live.Keys;
    assert ptr in GuardsIn(run) ==> ptr in GuardsIn(run).Keys;
  }

  lemma GoneBlocks(live: map<Ptr, nat>, free: seq<FreeBlock>, pending: seq<PendingBlock>, transit: map<Ptr, Transit>,
                   obtained: set<Ptr>, foreign: set<Ptr>, ptr: Ptr)
    requires BlocksPlaced(live, free, pending, transit, obtained, foreign)
    requires ptr !in live && ptr !in FreePtrs(free) && ptr !in PendingPtrs(pending)
    ensures BlocksPlaced(live, free, pending, transit - {ptr}, obtained - {ptr}, foreign - {ptr})
  {
    hide FreePtrs, PendingPtrs, BySize, Separate;
    assert (transit - {ptr}).Keys == transit.Keys - {ptr};
  }

  /** A block that is not pending is handed out or returned; it was idle unless it had lapsed. */
  lemma GoneWaiting(free: set<Ptr>, pending: seq<PendingBlock>, transit: map<Ptr, Transit>, recorded: map<Event, Mark>,
                    run: Run, ptr: Ptr, step: Step)
    requires Waits(free, pending, transit, recorded, run) && ptr !in PendingPtrs(pending)
    requires step == HandedOut(ptr) || step == Returned(ptr)
    ensures Waits(free - {ptr}, pending, transit - {ptr}, recorded, Then(run, step))
    ensures GuardsIn(Then(run, step)) == GuardsIn(run) - {ptr}
    ensures ptr in free || (ptr in transit && transit[ptr].Waited?) || ptr !in GuardsIn(run) ==>
      Busy(run, ptr) ==> ptr in LapsedIn(run)
  {
    hide Follows;
    assert forall b :: b in pending ==> b.ptr in PendingPtrs(pending);
  }

  lemma CompletedBlocks(live: map<Ptr, nat>, free: seq<FreeBlock>, free': seq<FreeBlock>, pending: seq<PendingBlock>,
                        transit: map<Ptr, Transit>, obtained: set<Ptr>, obtained': set<Ptr>, foreign: set<Ptr>,
                        run: Run, run': Run, release: bool, ptr: Ptr)
    requires BlocksPlaced(live, free, pending, transit, obtained, foreign) && ptr in live && BySize(free')
    requires GuardsIn(run).Keys <= obtained - live.Keys && run' == Completed(run, ptr, release)
    requires LetGo(release, ptr, FreePtrs(free), obtained, FreePtrs(free'), obtained')
    ensures BlocksPlaced(live - {ptr}, free', pending, transit, obtained', foreign)
    ensures GuardsIn(run').Keys <= obtained' - (live - {ptr}).Keys
  {
    hide FreePtrs, PendingPtrs, BySize, Separate;
    assert (live - {ptr}).Keys == live.Keys - {ptr};
  }

  /** A client frees a block and says that its work is done. */
  ghost function Completed(run: Run, ptr: Ptr, release: bool): Run {
    var told := Then(run, FreedIdle(ptr));
    if release then Then(told, Returned(ptr)) else told
  }

  lemma CompletedWaiting(free: set<Ptr>, free': set<Ptr>, pending: seq<PendingBlock>, transit: map<Ptr, Transit>,
                         obtained: set<Ptr>, obtained': set<Ptr>, recorded: map<Event, Mark>, run: Run,
                         release: bool, ptr: Ptr)
    requires Waits(free, pending, transit, recorded, run) && ptr !in GuardsIn(run)
    requires ptr !in free && ptr !in transit && ptr !in PendingPtrs(pending)
    requires LetGo(release, ptr, free, obtained, free', obtained')
    ensures Waits(free', pending, transit, recorded, Completed(run, ptr, release))
  {
    hide PendingPtrs, Follows;
    var told := Then(run, FreedIdle(ptr));
    assert Waits(free, pending, transit, recorded, told);
    if release {
      GoneWaiting(free, pending, transit, recorded, told, ptr, Returned(ptr));
      assert free - {ptr} == free && transit - {ptr} == transit;
    }
  }

  /** Events do not move when the blocks in transit that hold them stay the same. */
  lemma SameHolders(reusable: seq<Event>, pending: seq<PendingBlock>, transit: map<Ptr, Transit>,
                    transit': map<Ptr, Transit>,
                    events: set<Event>)
    requires EventsPlaced(reusable, pending, transit, events)
    requires forall p, e :: HoldsEvent(transit, p, e) <==> HoldsEvent(transit', p, e)
    ensures EventsPlaced(reusable, pending, transit', events)
  {
    forall e
      ensures e in HeldEvents(transit) <==> e in HeldEvents(transit')
    {
      HeldBy(transit, e);
      HeldBy(transit', e);
    }
  }

  lemma HeldBy(transit: map<Ptr, Transit>, e: Event)
    ensures e in HeldEvents(transit) <==> exists p :: HoldsEvent(transit, p, e)
  {
    if e in HeldEvents(transit) {
      var p :| p in transit && transit[p].Freeing? && transit[p].event.Some? && transit[p].event.value == e;
      assert HoldsEvent(transit, p, e);
    }
  }

  lemma FreePlace(live: map<Ptr, nat>, free: seq<FreeBlock>, pending: seq<PendingBlock>,
                  transit: map<Ptr, Transit>, obtained: set<Ptr>, foreign: set<Ptr>, i: nat)
    requires BlocksPlaced(live, free, pending, transit, obtained, foreign) && i < |free|
    ensures var p := free[i].ptr;
      p in FreePtrs(free) && p in obtained && p !in live && p !in PendingPtrs(pending) && p !in transit && p != NO_PTR
    ensures forall b :: b in pending ==> b.ptr != free[i].ptr
    ensures BySize(free)
  {
    FreeHas(free, i);
  }

  lemma FreeInOrder(live: map<Ptr, nat>, free: seq<FreeBlock>, pending: seq<PendingBlock>,
                    transit: map<Ptr, Transit>, obtained: set<Ptr>, foreign: set<Ptr>)
    requires BlocksPlaced(live, free, pending, transit, obtained, foreign)
    ensures BySize(free)
  {
  }

  lemma TakenBlocks(live: map<Ptr, nat>, free: seq<FreeBlock>, pending: seq<PendingBlock>,
                    transit: map<Ptr, Transit>, obtained: set<Ptr>, foreign: set<Ptr>, i: nat)
    requires BlocksPlaced(live, free, pending, transit, obtained, foreign) && i < |free|
    ensures BlocksPlaced(live[free[i].ptr := free[i].size], Dropped(free, i), pending, transit, obtained, foreign)
  {
    hide FreePtrs, PendingPtrs, BySize, Separate;
    FreeHas(free, i);
    DroppedKeepsOrder(free, i);
  }

  /** All of the above at once: what was polled moves from v to v', and the ith pending block is gone. */
  lemma SettledAll(s: Pool, s': Pool, v: View, v': View, status: QueryStatus, i: nat)
    requires i < |s.pending| && status != NotReady
    requires s.Settled() && BySize(s'.free) && TrueOf(s.pending[i], status, s.recorded, s.run)
    requires v.reusable == s.reusable && v.obtained == s.obtained && v.run == s.run
    requires var b := s.pending[i];
             && LetGo(b.release, b.ptr, FreePtrs(s.free), s.obtained, FreePtrs(s'.free), s'.obtained)
             && s'.reusable == (if status == Success then s.reusable + [b.event] else s.reusable)
             && s'.events == (if status == Success then s.events else s.events - {b.event})
             && s'.run == Shed(b.ptr, b.release, status, s.run)
             && s' == s.(free := s'.free, pending := Dropped(s.pending, i), reusable := s'.reusable,
                         obtained := s'.obtained, events := s'.events, run := s'.run)
             && v' == View(if b.release then v.free else v.free + {FreeBlock(b.size, b.ptr)}, s'.reusable, s'.obtained,
                           s'.run)
    ensures s'.Settled() && v' == AfterOne(s.pending[i], status, v)
  {
    hide BlocksPlaced, EventsPlaced, Waits, FreePtrs, BySize, LetGo, AfterOne, TrueOf, Shed, Dropped, GuardsIn;
    var b := s.pending[i];
    PendingPlace(s.live, s.free, s.pending, s.transit, s.obtained, s.foreign, i);
    EventGone(status == Success, b.event, s.reusable, s.events, s'.reusable, s'.events);
    LetGoFree(b.release, b.ptr, FreePtrs(s.free), s.obtained, FreePtrs(s'.free), s'.obtained);
    SettledBlocks(s.live, s.free, s'.free, s.pending, s.transit, s.obtained, s'.obtained, s.foreign, i);
    SettledEvents(s.reusable, s.pending, s.transit, s.events, i, status == Success, s'.reusable, s'.events);
    SettledWaiting(FreePtrs(s.free), FreePtrs(s'.free), s.pending, s.transit, s.recorded, s.run, s'.run, b.release,
                   status, i);
    SettledView(b, status, FreePtrs(s.free), FreePtrs(s'.free), v, v', s.events, s'.events);
  }

  lemma EventGone(success: bool, e: Event, reusable: seq<Event>, events: set<Event>, reusable': seq<Event>,
                  events': set<Event>)
    requires success ==> reusable' == reusable + [e] && events' == events
    requires !success ==> reusable' == reusable && events' == events - {e}
    ensures EventLetGo(success, e, reusable, events, reusable', events')
  {
  }

  lemma SettledView(b: PendingBlock, status: QueryStatus, free: set<Ptr>, free': set<Ptr>, v: View, v': View,
                    events: set<Event>, events': set<Event>)
    requires status != NotReady && v'.run == Shed(b.ptr, b.release, status, v.run)
    requires LetGo(b.release, b.ptr, free, v.obtained, free', v'.obtained)
    requires EventLetGo(status == Success, b.event, v.reusable, events, v'.reusable, events')
    requires v'.free == if b.release then v.free else v.free + {FreeBlock(b.size, b.ptr)}
    ensures v' == AfterOne(b, status, v)
  {
  }

  lemma LetGoObtained(release: bool, ptr: Ptr, free: set<Ptr>, obtained: set<Ptr>, free': set<Ptr>, obtained': set<Ptr>)
    requires LetGo(release, ptr, free, obtained, free', obtained')
    ensures obtained' == (if release then obtained - {ptr} else obtained)
  {
  }

  lemma LetGoFree(release: bool, ptr: Ptr, free: set<Ptr>, obtained: set<Ptr>, free': set<Ptr>, obtained': set<Ptr>)
    requires LetGo(release, ptr, free, obtained, free', obtained')
    ensures free' == (if release then free else free + {ptr})
    ensures obtained' == (if release then obtained - {ptr} else obtained)
  {
  }

  lemma NothingSeen(status: Event -> QueryStatus, v: View)
    ensures Kept([], status) == [] && AfterPoll([], status, v) == v && ShedAll([], status, v.run) == v.run
  {
    assert v.reusable + [] == v.reusable;
  }

  lemma RunOfView(seen: seq<PendingBlock>, status: Event -> QueryStatus, v: View, v': View)
    requires v' == AfterPoll(seen, status, v)
    ensures v'.run == ShedAll(seen, status, v.run)
  {
  }

  lemma PollObtainsNothing(seen: seq<PendingBlock>, status: Event -> QueryStatus, v: View)
    ensures AfterPoll(seen, status, v).obtained <= v.obtained
  {
  }

  lemma AfterPollView(seen: seq<PendingBlock>, status: Event -> QueryStatus, v: View)
    ensures AfterPoll(seen, status, v).free == v.free + Cached(seen, status)
    ensures AfterPoll(seen, status, v).run == ShedAll(seen, status, v.run)
  {
  }

  /** A poll that finds nothing ready changes nothing. */
  lemma {:induction false} NothingReady(pending: seq<PendingBlock>, status: Event -> QueryStatus, v: View)
    requires forall e :: status(e) == NotReady
    ensures Kept(pending, status) == pending && AfterPoll(pending, status, v) == v
  {
    if pending == [] {
      NothingSeen(status, v);
    } else {
      var n := |pending| - 1;
      NothingReady(pending[..n], status, v);
      assert pending == pending[..n] + [pending[n]];
      AfterPollStep(pending[..n], pending[n], status, v);
      PollStep(pending[..n], pending[n], status);
    }
  }

  lemma NothingTold(status: Event -> QueryStatus, recorded: map<Event, Mark>, run: Run)
    requires forall e :: status(e) == NotReady
    ensures Truthful(status, recorded, run)
  {
  }

  /** Handing out one block leaves another as it was. */
  lemma HandedOutOther(since: Run, run: Run, p: Ptr, other: Ptr)
    requires IsPrefix(since, run)
    ensures IsPrefix(since, Then(run, HandedOut(p)))
    ensures p != other ==> Busy(Then(run, HandedOut(p)), other) == Busy(run, other)
  {
  }

  lemma {:induction false} PrefixOfPoll(seen: seq<PendingBlock>, status: Event -> QueryStatus, run: Run)
    ensures IsPrefix(run, ShedAll(seen, status, run))
  {
    if seen != [] {
      var b := seen[|seen| - 1];
      var before := ShedAll(seen[..|seen| - 1], status, run);
      PrefixOfPoll(seen[..|seen| - 1], status, run);
      assert IsPrefix(run, Then(before, Lapsed(b.ptr)));
    }
  }

  /** Letting one block go is nothing to another. */
  lemma ShedOther(since: Run, run: Run, c: PendingBlock, status: QueryStatus, p: Ptr)
    requires c.ptr != p && IsPrefix(since, run)
    ensures
      var run' := Shed(c.ptr, c.release, status, run);
      && Busy(run', p) == Busy(run, p) && UsedEarlySince(since, run', p) == UsedEarlySince(since, run, p)
      && IsPrefix(since, run')
  {
    var told := if status == Error then Then(run, Lapsed(c.ptr)) else run;
    LongerIsOther(since, run, Lapsed(c.ptr));
    assert IsPrefix(since, told);
    LongerIsOther(since, told, Returned(c.ptr));
    assert Busy(told, p) == Busy(run, p);
    assert UsedEarlySince(since, told, p) == UsedEarlySince(since, run, p);
  }

  lemma {:induction false} ShedOthers(seen: seq<PendingBlock>, status: Event -> QueryStatus, run: Run, p: Ptr)
    requires forall b :: b in seen ==> b.ptr != p
    ensures
      var run' := ShedAll(seen, status, run);
      Busy(run', p) == Busy(run, p) && !UsedEarlySince(run, run', p) && IsPrefix(run, run')
  {
    if seen != [] {
      var n := |seen| - 1;
      ShedOthers(seen[..n], status, run, p);
      ShedOther(run, ShedAll(seen[..n], status, run), seen[n], status(seen[n].event), p);
    }
  }

  /** What a poll does to one of the pending blocks. */
  lemma {:induction false} ShedOfOne(seen: seq<PendingBlock>, status: Event -> QueryStatus, run: Run, b: PendingBlock)
    requires Separate(seen) && b in seen
    ensures
      var run' := ShedAll(seen, status, run);
      && IsPrefix(run, run')
      && (!b.release ==> Busy(run', b.ptr) == Busy(run, b.ptr))
      && (UsedEarlySince(run, run', b.ptr) <==> b.release && status(b.event) != NotReady && Busy(run, b.ptr))
  {
    var n := |seen| - 1;
    var rest := ShedAll(seen[..n], status, run);
    if seen[n] == b {
      forall c | c in seen[..n]
        ensures c.ptr != b.ptr
      {
        var k :| 0 <= k < n && seen[k] == c;
      }
      ShedOthers(seen[..n], status, run, b.ptr);
      ShedLast(run, rest, b, status(b.event));
    } else {
      assert b in seen[..n] by {
        var k :| 0 <= k < |seen| && seen[k] == b;
        assert seen[..n][k] == b;
      }
      ShedOfOne(seen[..n], status, run, b);
      assert seen[n].ptr != b.ptr by {
        var k :| 0 <= k < n && seen[k] == b;
      }
      ShedOther(run, rest, seen[n], status(seen[n].event), b.ptr);
    }
  }

  lemma ShedLast(since: Run, run: Run, b: PendingBlock, status: QueryStatus)
    requires IsPrefix(since, run) && !UsedEarlySince(since, run, b.ptr)
    ensures
      var run' := Shed(b.ptr, b.release, status, run);
      && IsPrefix(since, run') && (!b.release ==> Busy(run', b.ptr) == Busy(run, b.ptr))
      && (UsedEarlySince(since, run', b.ptr) <==> b.release && status != NotReady && Busy(run, b.ptr))
  {
    var told := if status == Error then Then(run, Lapsed(b.ptr)) else run;
    LongerIsOther(since, run, Lapsed(b.ptr));
    assert IsPrefix(since, told) && Busy(told, b.ptr) == Busy(run, b.ptr) && !UsedEarlySince(since, told, b.ptr);
    LongerIsOther(since, told, Returned(b.ptr));
  }

  lemma CachedOfOne(pending: seq<PendingBlock>, status: Event -> QueryStatus, b: PendingBlock)
    requires Separate(pending) && b in pending && !b.release
    ensures FreeBlock(b.size, b.ptr) in Cached(pending, status) <==> status(b.event) != NotReady
  {
    var k :| 0 <= k < |pending| && pending[k] == b;
    forall c | c in pending && c.ptr == b.ptr
      ensures c == b
    {
      var j :| 0 <= j < |pending| && pending[j] == c;
    }
  }

  /** Waiting for a stream that fails gives a busy block away, and nothing else does on this path. */
  lemma AbandonedEarlyIff(run: Run, ptr: Ptr, stream: Stream, syncOk: bool)
    requires ptr in GuardsIn(run) && GuardsIn(run)[ptr].stream == stream
    requires GuardsIn(run)[ptr].position <= IssuedIn(run, stream)
    ensures UsedEarlySince(run, Abandoned(run, ptr, stream, syncOk), ptr) <==> !syncOk && Busy(run, ptr)
  {
    var step := if syncOk then Ran(stream, IssuedIn(run, stream)) else Lapsed(ptr);
    var told := Then(run, step);
    LongerIsOther(run, run, step);
    LongerIsOther(run, told, Returned(ptr));
    assert !UsedEarlySince(run, run, ptr) && !UsedEarlySince(run, told, ptr);
    assert Busy(told, ptr) <==> !syncOk && Busy(run, ptr);
  }

  /** What a poll adds to the run says nothing of the device. */
  lemma {:induction false} PollsRunNothing(seen: seq<PendingBlock>, status: Event -> QueryStatus, run: Run, s: Stream)
    ensures DoneIn(ShedAll(seen, status, run), s) == DoneIn(run, s)
  {
    if seen != [] {
      PollsRunNothing(seen[..|seen| - 1], status, run, s);
    }
  }

  lemma StillTruthful(seen: seq<PendingBlock>, status: Event -> QueryStatus, recorded: map<Event, Mark>, run: Run)
    requires Truthful(status, recorded, run)
    ensures Truthful(status, recorded, ShedAll(seen, status, run))
  {
    forall e | e in recorded && status(e) == Success
      ensures Past(ShedAll(seen, status, run), recorded[e])
    {
      PollsRunNothing(seen, status, run, recorded[e].stream);
    }
  }

  lemma NotReadyStays(b: PendingBlock, v: View)
    ensures AfterOne(b, NotReady, v) == v
  {
  }

  lemma FreeHas(free: seq<FreeBlock>, i: nat)
    requires i < |free|
    ensures free[i] in FreeSet(free) && free[i].ptr in FreePtrs(free)
  {
    assert free[i] in free;
  }

  lemma DroppedSet(free: seq<FreeBlock>, i: nat)
    requires BySize(free) && i < |free|
    ensures FreeSet(Dropped(free, i)) == FreeSet(free) - {free[i]}
  {
    hide Dropped;
    forall c
      ensures c in FreeSet(Dropped(free, i)) <==> c in FreeSet(free) - {free[i]}
    {
      DroppedContents(free, i, c);
      assert c in free && c.ptr == free[i].ptr ==> c == free[i];
    }
  }

  lemma DroppedAtLeast(free: seq<FreeBlock>, i: nat, size: nat)
    requires BySize(free) && i < |free|
    requires (forall k :: 0 <= k < i ==> free[k].size < size) && (forall k :: i <= k < |free| ==> size <= free[k].size)
    ensures forall b :: b in FreeSet(free) && size <= b.size ==> free[i].size <= b.size
  {
  }

  /** One step of the loop over the pending list, which shrinks behind the cursor. */
  lemma KeptStep(was: seq<PendingBlock>, k: nat, status: Event -> QueryStatus, now: seq<PendingBlock>)
    requires k < |was| && now == Kept(was[..k], status) + was[k..]
    ensures
      var i := |Kept(was[..k], status)|;
      && i < |now| && now[i] == was[k]
      && (status(was[k].event) == NotReady ==>
            now == Kept(was[..k + 1], status) + was[k + 1..] && |Kept(was[..k + 1], status)| == i + 1)
      && (status(was[k].event) != NotReady ==>
            Dropped(now, i) == Kept(was[..k + 1], status) + was[k + 1..] && |Kept(was[..k + 1], status)| == i)
  {
    hide Kept;
    assert was[..k + 1] == was[..k] + [was[k]] && was[k..] == [was[k]] + was[k + 1..];
    PollStep(was[..k], was[k], status);
  }

  lemma ViewStep(was: seq<PendingBlock>, k: nat, status: Event -> QueryStatus, v: View)
    requires k < |was|
    ensures AfterPoll(was[..k + 1], status, v) == AfterOne(was[k], status(was[k].event), AfterPoll(was[..k], status, v))
  {
    hide *;
    assert was[..k + 1] == was[..k] + [was[k]];
    AfterPollStep(was[..k], was[k], status, v);
  }

  lemma NothingHeld(transit: map<Ptr, Transit>)
    requires transit == map[]
    ensures HeldEvents(transit) == {} && transit.Keys == {}
  {
  }

  lemma NothingPending(pending: seq<PendingBlock>)
    ensures PendingPtrs(pending[|pending|..]) == {} && PendingEvents(pending[|pending|..]) == {}
  {
  }

  lemma NextPending(pending: seq<PendingBlock>, i: nat)
    requires Separate(pending) && i < |pending|
    ensures PendingPtrs(pending[i..]) == PendingPtrs(pending[i + 1..]) + {pending[i].ptr}
    ensures PendingEvents(pending[i..]) == PendingEvents(pending[i + 1..]) + {pending[i].event}
    ensures pending[i].ptr !in PendingPtrs(pending[i + 1..]) && pending[i].event !in PendingEvents(pending[i + 1..])
    ensures PendingPtrs(pending[i + 1..]) <= PendingPtrs(pending) && pending[i].ptr in PendingPtrs(pending)
    ensures PendingEvents(pending[i + 1..]) <= PendingEvents(pending) && pending[i].event in PendingEvents(pending)
  {
    assert pending[i..] == [pending[i]] + pending[i + 1..];
    assert pending == pending[..i] + pending[i..];
  }

  lemma NothingFree(free: seq<FreeBlock>)
    ensures FreePtrs(free[|free|..]) == {}
  {
  }

  lemma NextFree(free: seq<FreeBlock>, i: nat)
    requires BySize(free) && i < |free|
    ensures FreePtrs(free[i..]) == FreePtrs(free[i + 1..]) + {free[i].ptr} && free[i].ptr !in FreePtrs(free[i + 1..])
    ensures FreePtrs(free[i..]) <= FreePtrs(free)
  {
    assert free[i..] == [free[i]] + free[i + 1..];
    assert free == free[..i] + free[i..];
  }

  lemma NextEvent(events: seq<Event>, i: nat)
    requires Distinct(events) && i < |events|
    ensures EventSet(events[i..]) == EventSet(events[i + 1..]) + {events[i]} && events[i] !in EventSet(events[i + 1..])
  {
    assert events[i..] == [events[i]] + events[i + 1..];
  }

  /** The first of the blocks that still wait is let go, whatever its status. */
  lemma LetGoNext(free: set<Ptr>, pending: seq<PendingBlock>, recorded: map<Event, Mark>, run: Run, live: set<Ptr>,
                  status: Event -> QueryStatus)
    requires pending != [] && Separate(pending) && Waits(free, pending, map[], recorded, run)
    requires Truthful(status, recorded, run) && status(pending[0].event) != NotReady
    requires SafeRun(run) && OutIn(run) == live && GuardsIn(run).Keys !! live
    ensures
      var b := pending[0];
      var told := if status(b.event) == Error then Then(run, Lapsed(b.ptr)) else run;
      var run' := Then(told, Returned(b.ptr));
      && Separate(pending[1..]) && Waits(free, pending[1..], map[], recorded, run') && Truthful(status, recorded, run')
      && SafeRun(told) && (Busy(told, b.ptr) ==> b.ptr in LapsedIn(told))
      && GuardsIn(run').Keys !! live && OutIn(run') == live
  {
    hide Waits, PendingPtrs, Dropped, Separate;
    var b := pending[0];
    assert b in pending;
    var nobody: map<Ptr, Transit> := map[];
    SettledIsIdle(free, pending, nobody, recorded, run, status(b.event), b);
    SettledWaiting(free, free, pending, nobody, recorded, run, Shed(b.ptr, true, status(b.event), run), true,
                   status(b.event), 0);
    FirstDropped(pending);
    assert b.ptr in GuardsIn(run).Keys;
    var run' := Shed(b.ptr, true, status(b.event), run);
    forall e | e in recorded && status(e) == Success
      ensures Past(run', recorded[e])
    {
      assert DoneIn(run', recorded[e].stream) == DoneIn(run, recorded[e].stream);
    }
  }

  lemma FirstDropped(pending: seq<PendingBlock>)
    requires pending != [] && Separate(pending)
    ensures Dropped(pending, 0) == pending[1..] && Separate(pending[1..])
  {
  }

  lemma WaitsIdle(free: set<Ptr>, pending: seq<PendingBlock>, transit: map<Ptr, Transit>, recorded: map<Event, Mark>,
                  run: Run)
    requires Waits(free, pending, transit, recorded, run)
    ensures IdleUnlessLapsed(free, transit, run)
  {
  }

  lemma ReturnedIdle(free: set<Ptr>, run: Run, p: Ptr)
    requires IdleUnlessLapsed(free, map[], run) && p in free
    ensures IdleUnlessLapsed(free - {p}, map[], Then(run, Returned(p))) && (Busy(run, p) ==> p in LapsedIn(run))
  {
  }

  lemma EmptyFree(free: seq<FreeBlock>)
    ensures FreeSet(free) == {} ==> free == []
  {
    if free != [] {
      assert free[0] in FreeSet(free);
    }
  }
}
