/** The lists the pinned host pool keeps its blocks and events in. */
module PinnedBlocks {
  type Ptr = nat
  type Event = nat

  datatype FreeBlock = FreeBlock(size: nat, ptr: Ptr)

  datatype PendingBlock = PendingBlock(ptr: Ptr, size: nat, event: Event, release: bool)

  datatype QueryStatus = Success | NotReady | Error

  // Free blocks, ordered by size; equal sizes in order of arrival.

  function FreePtrs(free: seq<FreeBlock>): set<Ptr> {
    set b | b in free :: b.ptr
  }

  function TotalSize(free: seq<FreeBlock>): nat {
    if free == [] then 0 else free[0].size + TotalSize(free[1..])
  }

  ghost predicate BySize(free: seq<FreeBlock>) {
    && (forall i, j :: 0 <= i < j < |free| ==> free[i].size <= free[j].size)
    && (forall i, j :: 0 <= i < j < |free| ==> free[i].ptr != free[j].ptr)
  }

  lemma {:induction false} TotalSizeAppend(a: seq<FreeBlock>, b: seq<FreeBlock>)
    ensures TotalSize(a + b) == TotalSize(a) + TotalSize(b)
  {
    if a == [] {
      assert a + b == b;
    } else {
      assert (a + b)[1..] == a[1..] + b;
      TotalSizeAppend(a[1..], b);
    }
  }

  lemma TotalSizeOne(b: FreeBlock)
    ensures TotalSize([b]) == b.size
  {
  }

  function Inserted(free: seq<FreeBlock>, i: nat, b: FreeBlock): seq<FreeBlock>
    requires i <= |free|
  {
    free[..i] + [b] + free[i..]
  }

  function Dropped<T>(s: seq<T>, i: nat): seq<T>
    requires i < |s|
  {
    s[..i] + s[i + 1..]
  }

  lemma InsertedSize(free: seq<FreeBlock>, i: nat, b: FreeBlock)
    requires i <= |free|
    ensures TotalSize(Inserted(free, i, b)) == TotalSize(free) + b.size
  {
    hide TotalSize;
    TotalSizeOne(b);
    assert free == free[..i] + free[i..];
    TotalSizeAppend(free[..i], free[i..]);
    TotalSizeAppend(free[..i], [b]);
    TotalSizeAppend(free[..i] + [b], free[i..]);
  }

  lemma InsertedMembers(free: seq<FreeBlock>, i: nat, b: FreeBlock, c: FreeBlock)
    requires i <= |free|
    ensures c in Inserted(free, i, b) <==> c in free || c == b
  {
    assert free == free[..i] + free[i..];
  }

  lemma InsertedContents(free: seq<FreeBlock>, i: nat, b: FreeBlock)
    requires i <= |free|
    ensures FreePtrs(Inserted(free, i, b)) == FreePtrs(free) + {b.ptr}
  {
    hide Inserted;
    forall c
      ensures c in Inserted(free, i, b) <==> c in free || c == b
    {
      InsertedMembers(free, i, b, c);
    }
    var free' := Inserted(free, i, b);
    assert b in free';
    forall p
      ensures p in FreePtrs(free') <==> p in FreePtrs(free) + {b.ptr}
    {
    }
  }

  lemma InsertedKeepsOrder(free: seq<FreeBlock>, i: nat, b: FreeBlock)
    requires BySize(free) && i <= |free| && b.ptr !in FreePtrs(free)
    requires (forall k :: 0 <= k < i ==> free[k].size <= b.size)
    requires (forall k :: i <= k < |free| ==> b.size < free[k].size)
    ensures BySize(Inserted(free, i, b))
  {
    forall k | 0 <= k < |free|
      ensures free[k].ptr != b.ptr
    {
      assert free[k] in free;
    }
  }

  lemma DroppedContents(free: seq<FreeBlock>, i: nat, c: FreeBlock)
    requires BySize(free) && i < |free|
    ensures c in Dropped(free, i) <==> c in free && c.ptr != free[i].ptr
  {
    var free' := Dropped(free, i);
    if c in free && c.ptr != free[i].ptr {
      var k :| 0 <= k < |free| && free[k] == c;
      assert k < i ==> free'[k] == c;
      assert k > i ==> free'[k - 1] == c;
    }
    if c in free' {
      var k :| 0 <= k < |free'| && free'[k] == c;
      assert c == free[if k < i then k else k + 1];
    }
  }

  lemma DroppedKeepsOrder(free: seq<FreeBlock>, i: nat)
    requires BySize(free) && i < |free|
    ensures BySize(Dropped(free, i))
    ensures FreePtrs(Dropped(free, i)) == FreePtrs(free) - {free[i].ptr}
  {
    forall c
      ensures c in Dropped(free, i) <==> c in free && c.ptr != free[i].ptr
    {
      DroppedContents(free, i, c);
    }
    hide Dropped;
    var free' := Dropped(free, i);
    forall p
      ensures p in FreePtrs(free') <==> p in FreePtrs(free) - {free[i].ptr}
    {
    }
    DroppedIsOrdered(free, i);
  }

  lemma DroppedIsOrdered(free: seq<FreeBlock>, i: nat)
    requires BySize(free) && i < |free|
    ensures BySize(Dropped(free, i))
  {
  }

  lemma DroppedSize(free: seq<FreeBlock>, i: nat)
    requires i < |free|
    ensures TotalSize(Dropped(free, i)) + free[i].size == TotalSize(free)
  {
    hide TotalSize;
    TotalSizeOne(free[i]);
    assert free == free[..i] + ([free[i]] + free[i + 1..]);
    TotalSizeAppend(free[..i], [free[i]] + free[i + 1..]);
    TotalSizeAppend([free[i]], free[i + 1..]);
    TotalSizeAppend(free[..i], free[i + 1..]);
  }

  /** First block of at least this size. */
  method LowerBound(free: seq<FreeBlock>, size: nat) returns (i: nat)
    requires BySize(free)
    ensures i <= |free| && (forall k :: 0 <= k < i ==> free[k].size < size)
    ensures (forall k :: i <= k < |free| ==> size <= free[k].size)
  {
    i := 0;
    while i < |free| && free[i].size < size
      invariant i <= |free|
      invariant forall k :: 0 <= k < i ==> free[k].size < size
    {
      i := i + 1;
    }
  }

  /** Past the last block of at most this size, which is where a new block of the size goes. */
  method UpperBound(free: seq<FreeBlock>, size: nat) returns (i: nat)
    requires BySize(free)
    ensures i <= |free| && (forall k :: 0 <= k < i ==> free[k].size <= size)
    ensures (forall k :: i <= k < |free| ==> size < free[k].size)
  {
    i := 0;
    while i < |free| && free[i].size <= size
      invariant i <= |free|
      invariant forall k :: 0 <= k < i ==> free[k].size <= size
    {
      i := i + 1;
    }
  }

  // Pending blocks.

  function PendingPtrs(pending: seq<PendingBlock>): set<Ptr> {
    set b | b in pending :: b.ptr
  }

  function PendingEvents(pending: seq<PendingBlock>): set<Event> {
    set b | b in pending :: b.event
  }

  ghost predicate Separate(pending: seq<PendingBlock>) {
    forall i, j :: 0 <= i < j < |pending| ==> pending[i].ptr != pending[j].ptr && pending[i].event != pending[j].event
  }

  lemma AppendSeparate(pending: seq<PendingBlock>, b: PendingBlock)
    requires Separate(pending) && b.ptr !in PendingPtrs(pending) && b.event !in PendingEvents(pending)
    ensures Separate(pending + [b])
    ensures PendingPtrs(pending + [b]) == PendingPtrs(pending) + {b.ptr}
    ensures PendingEvents(pending + [b]) == PendingEvents(pending) + {b.event}
  {
    forall c
      ensures c in pending + [b] <==> c in pending || c == b
    {
    }
    forall i | 0 <= i < |pending|
      ensures pending[i].ptr != b.ptr && pending[i].event != b.event
    {
      assert pending[i] in pending;
    }
  }

  lemma DroppedPending(pending: seq<PendingBlock>, i: nat, c: PendingBlock)
    requires Separate(pending) && i < |pending|
    ensures c in Dropped(pending, i) <==> c in pending && c != pending[i]
    ensures c in Dropped(pending, i) ==> c.ptr != pending[i].ptr && c.event != pending[i].event
  {
    var pending' := Dropped(pending, i);
    if c in pending && c != pending[i] {
      var k :| 0 <= k < |pending| && pending[k] == c;
      assert k < i ==> pending'[k] == c;
      assert k > i ==> pending'[k - 1] == c;
    }
    if c in pending' {
      var k :| 0 <= k < |pending'| && pending'[k] == c;
      assert c == pending[if k < i then k else k + 1];
    }
  }

  lemma DroppedIsSeparate(pending: seq<PendingBlock>, i: nat)
    requires Separate(pending) && i < |pending|
    ensures Separate(Dropped(pending, i))
  {
  }

  lemma DropSeparate(pending: seq<PendingBlock>, i: nat)
    requires Separate(pending) && i < |pending|
    ensures Separate(Dropped(pending, i))
    ensures PendingPtrs(Dropped(pending, i)) == PendingPtrs(pending) - {pending[i].ptr}
    ensures PendingEvents(Dropped(pending, i)) == PendingEvents(pending) - {pending[i].event}
    ensures forall c :: c in Dropped(pending, i) <==> c in pending && c != pending[i]
  {
    hide Dropped;
    DroppedIsSeparate(pending, i);
    hide Separate;
    forall c
      ensures c in Dropped(pending, i) <==> c in pending && c != pending[i]
      ensures c in Dropped(pending, i) ==> c.ptr != pending[i].ptr && c.event != pending[i].event
    {
      DroppedPending(pending, i, c);
    }
  }

  // Reusable events.

  function EventSet(events: seq<Event>): set<Event> {
    set e | e in events
  }

  ghost predicate Distinct(events: seq<Event>) {
    forall i, j :: 0 <= i < j < |events| ==> events[i] != events[j]
  }

  lemma PushEvent(events: seq<Event>, e: Event)
    requires Distinct(events) && e !in EventSet(events)
    ensures Distinct(events + [e]) && EventSet(events + [e]) == EventSet(events) + {e}
  {
    forall i | 0 <= i < |events|
      ensures events[i] != e
    {
      assert events[i] in events;
    }
  }

  lemma PopEvent(events: seq<Event>)
    requires Distinct(events) && events != []
    ensures Distinct(events[..|events| - 1])
    ensures EventSet(events[..|events| - 1]) == EventSet(events) - {events[|events| - 1]}
  {
    var e, rest := events[|events| - 1], events[..|events| - 1];
    assert events == rest + [e];
    forall x
      ensures x in rest <==> x in events && x != e
    {
      if x in rest {
        var k :| 0 <= k < |rest| && rest[k] == x;
        assert events[k] == x;
      }
    }
  }

  function FreeSet(free: seq<FreeBlock>): set<FreeBlock> {
    set b | b in free
  }

  // What one poll does to the pending list, as functions of the statuses it sees.

  function Kept(pending: seq<PendingBlock>, status: Event -> QueryStatus): seq<PendingBlock> {
    if pending == [] then []
    else (if status(pending[0].event) == NotReady then [pending[0]] else []) + Kept(pending[1..], status)
  }

  function Finished(pending: seq<PendingBlock>, status: Event -> QueryStatus): seq<Event> {
    if pending == [] then []
    else (if status(pending[0].event) == Success then [pending[0].event] else []) + Finished(pending[1..], status)
  }

  /** Blocks that go back to the driver. */
  function Released(pending: seq<PendingBlock>, status: Event -> QueryStatus): set<Ptr> {
    set b | b in pending && b.release && status(b.event) != NotReady :: b.ptr
  }

  /** Blocks that join the free ones. */
  function Cached(pending: seq<PendingBlock>, status: Event -> QueryStatus): set<FreeBlock> {
    set b | b in pending && !b.release && status(b.event) != NotReady :: FreeBlock(b.size, b.ptr)
  }

  lemma CachedStep(seen: seq<PendingBlock>, b: PendingBlock, status: Event -> QueryStatus)
    ensures Cached(seen + [b], status) ==
      Cached(seen, status) + (if !b.release && status(b.event) != NotReady then {FreeBlock(b.size, b.ptr)} else {})
  {
    forall f
      ensures f in Cached(seen + [b], status) <==>
        f in Cached(seen, status)
           + (if !b.release && status(b.event) != NotReady then {FreeBlock(b.size, b.ptr)} else {})
    {
      assert b in seen + [b];
      assert forall c :: c in seen + [b] <==> c in seen || c == b;
    }
  }

  /** One more pending block seen. */
  lemma {:induction false} PollStep(seen: seq<PendingBlock>, b: PendingBlock, status: Event -> QueryStatus)
    ensures Kept(seen + [b], status) == Kept(seen, status) + (if status(b.event) == NotReady then [b] else [])
    ensures Finished(seen + [b], status)
        == Finished(seen, status) + (if status(b.event) == Success then [b.event] else [])
  {
    if seen == [] {
      assert [] + [b] == [b] && Kept([b][1..], status) == [] && Finished([b][1..], status) == [];
    } else {
      assert (seen + [b])[1..] == seen[1..] + [b];
      PollStep(seen[1..], b, status);
    }
  }

  lemma ReleasedStep(seen: seq<PendingBlock>, b: PendingBlock, status: Event -> QueryStatus)
    ensures Released(seen + [b], status) ==
      Released(seen, status) + (if b.release && status(b.event) != NotReady then {b.ptr} else {})
  {
    forall p
      ensures p in Released(seen + [b], status) <==>
        p in Released(seen, status) + (if b.release && status(b.event) != NotReady then {b.ptr} else {})
    {
      assert b in seen + [b];
      assert forall c :: c in seen + [b] <==> c in seen || c == b;
    }
  }

  /** What stays pending is what was pending and not ready. */
  lemma {:induction false} KeptAreNotReady(pending: seq<PendingBlock>, status: Event -> QueryStatus, b: PendingBlock)
    ensures b in Kept(pending, status) <==> b in pending && status(b.event) == NotReady
  {
    if pending != [] {
      KeptAreNotReady(pending[1..], status, b);
      assert pending == [pending[0]] + pending[1..];
    }
  }
}
