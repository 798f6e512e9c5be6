/** The record writes of splitting and merging chunks restore the whole structure. */
module ArenaSteps {
  import opened ArenaTypes
  import opened OwnershipIndex
  import opened Regions
  import opened ArenaLayout
  import opened ArenaBins
  import opened ArenaRecords
  import opened ArenaAccounts
  import opened ArenaHistory
  import opened ArenaPolicy
  import opened ArenaTrace
  import opened DeviceMemory

  /** What the arena keeps about its chunk records: lists, slots, bins, the free list and the owners. */
  datatype Index = Index(home: map<Handle, int>, spans: map<int, int>, slots: map<int, Handle>, bins: seq<seq<Handle>>,
                         head: Handle, recycled: seq<Handle>, owner: map<Handle, Stream>) {
    ghost predicate Fits(cs: seq<Chunk>) {
      && Layout(cs, home, spans, NO_CHUNK) && SlotsAgree(cs, home, slots) && BinsOk(cs, home, bins)
      && RecordsOk(cs, home.Keys, head, recycled) && OwnersAgree(cs, owner)
    }
  }

  /** What clients and the device have been given, and what has happened so far. */
  datatype Books = Books(spans: map<int, int>, reserved: map<int, int>, blocks: map<int, int>, trace: Trace,
                         implOf: Stream -> Impl, maxDead: int) {
    ghost predicate Agree(cs: seq<Chunk>, home: map<Handle, int>) {
      && BlocksAgree(blocks, spans, reserved) && HistoryAgrees(cs, home, spans, reserved, trace, implOf)
      && AllTight(cs, home, maxDead)
    }
  }

  ghost predicate LinkedSplit(cs: seq<Chunk>, cs': seq<Chunk>, h: Handle, k: Handle, n: nat) {
    && |cs'| == |cs| && 0 <= h < |cs| && 0 <= k < |cs| && h != k && n <= cs[h].size
    && cs'[h] == cs[h].(size := n, next := k)
    && cs'[k] == cs[k].(ptr := cs[h].ptr + n, size := cs[h].size - n, allocationId := NOT_ALLOCATED,
                        prev := h, next := cs[h].next)
    && (forall g :: 0 <= g < |cs| && g != h && g != k ==>
          cs'[g] == if g == cs[h].next then cs[g].(prev := k) else cs[g])
  }

  /** Beside the links, the split changes no live record, and the tail has h's owner. */
  ghost predicate SplitRecords(cs: seq<Chunk>, cs': seq<Chunk>, home: map<Handle, int>, h: Handle, k: Handle, n: nat) {
    && |cs| <= |cs'| && 0 <= h < |cs| && 0 <= k < |cs'| && h != k
    && cs'[h] == cs[h].(size := n, next := k) && cs'[k].stream == cs[h].stream
    && (forall g {:trigger g in home} :: g in home && 0 <= g < |cs| && g != h ==> cs'[g] == cs[g].(prev := cs'[g].prev))
  }

  ghost predicate LinkedMerge(cs: seq<Chunk>, cs': seq<Chunk>, h: Handle, k: Handle) {
    && |cs'| == |cs| && 0 <= h < |cs| && 0 <= k < |cs| && h != k
    && cs'[h] == cs[h].(size := cs[h].size + cs[k].size, next := cs[k].next)
    && (forall g :: 0 <= g < |cs| && g != h ==>
          cs'[g] == if g == cs[k].next then cs[g].(prev := h) else cs[g])
  }

  /** Record k has been handed out for the tail of h and put under h's owner. */
  ghost predicate TailReady(cs: seq<Chunk>, owned: seq<Chunk>, home: map<Handle, int>, h: Handle, k: Handle) {
    && |cs| <= |owned| && 0 <= h < |cs| && k !in home && 0 <= k < |owned|
    && (forall g {:trigger owned[g]} :: 0 <= g < |cs| && g != k ==> owned[g] == cs[g])
    && !owned[k].InUse() && owned[k].binNum == NO_BIN && owned[k].stream == cs[h].stream
  }

  /** The tail starts on a granule of h's region. */
  lemma TailInRegion(cs: seq<Chunk>, owned: seq<Chunk>, cs': seq<Chunk>, home: map<Handle, int>, spans: map<int, int>,
                     h: Handle, k: Handle, n: nat)
    requires Placed(cs, home, spans, NO_CHUNK, h) && TailReady(cs, owned, home, h, k)
    requires LinkedSplit(owned, cs', h, k, n) && 0 < n < cs[h].size && n % GRANULE == 0
    ensures |cs'| == |owned| && 0 <= k < |cs'|
    ensures SpanCovers(spans, Base(home, h), cs'[k].ptr)
    ensures GranuleStart(Base(home, h), cs'[k].ptr) == cs'[k].ptr
  {
    GranuleStartExact(Base(home, h), cs'[k].ptr);
  }

  /** From the records before the split (cs), with the tail's record ready (owned), to cs'. */
  lemma SplitRestores(cs: seq<Chunk>, owned: seq<Chunk>, cs': seq<Chunk>, x: Index, h: Handle, k: Handle, n: nat)
    requires Layout(cs, x.home, x.spans, NO_CHUNK) && SlotsAgree(cs, x.home, x.slots) && BinsOk(cs, x.home, x.bins)
    requires h in x.home && 0 <= h < |cs| && !cs[h].InUse() && cs[h].binNum == NO_BIN && 0 < n < cs[h].size
    requires n % GRANULE == 0
    requires TailReady(cs, owned, x.home, h, k)
    requires RecordsOk(owned, x.home.Keys + {k}, x.head, x.recycled) && OwnersAgree(owned, x.owner)
    requires LinkedSplit(owned, cs', h, k, n)
    ensures |cs'| == |owned| && SplitOf(cs, cs', x.home, h, k, n) && SplitRecords(cs, cs', x.home, h, k, n)
    ensures x.(home := x.home[k := Base(x.home, h)], slots := x.slots[cs'[k].ptr := k]).Fits(cs')
    ensures !cs'[k].InUse() && cs'[k].binNum == NO_BIN
  {
    var Index(home, spans, slots, bins, head, recycled, owner) := x;
    var home' := home[k := Base(home, h)];
    assert home'.Keys == home.Keys + {k};
    PlacedAt(cs, home, spans, NO_CHUNK, h);
    hide Layout, SlotsAgree, BinsOk, RecordsOk, OwnersAgree;
    assert SplitOf(cs, cs', home, h, k, n);
    SplitKeepsLayout(cs, cs', home, spans, h, k, n);
    SplitKeepsSlots(cs, cs', home, spans, slots, h, k, n);
    LayoutInRange(cs', home', spans);
    BinsFrame(cs, cs', home, home', bins);
    RecordsFrame(owned, cs', home'.Keys, head, recycled);
    OwnersFrame(owned, cs', owner);
  }

  /** Beside the links, the merge changes no surviving record. */
  ghost predicate MergeRecords(cs: seq<Chunk>, cs': seq<Chunk>, home: map<Handle, int>, h: Handle, k: Handle) {
    && |cs'| == |cs| && 0 <= h < |cs|
    && cs'[h] == cs[h].(size := cs'[h].size, next := cs'[h].next)
    && (forall g {:trigger g in home} :: g in home && 0 <= g < |cs| && g != h && g != k ==>
          cs'[g] == cs[g].(prev := cs'[g].prev))
  }

  /** From the records before the merge (cs), relinked (linked), to cs' with k recycled. */
  lemma MergeRestores(cs: seq<Chunk>, linked: seq<Chunk>, cs': seq<Chunk>,
                      home: map<Handle, int>, spans: map<int, int>, slots: map<int, Handle>, bins: seq<seq<Handle>>,
                      h: Handle, k: Handle)
    requires Layout(cs, home, spans, NO_CHUNK) && SlotsAgree(cs, home, slots) && BinsOk(cs, home, bins)
    requires h in home && k in home && h != k && cs[h].next == k && cs[h].binNum == NO_BIN && cs[k].binNum == NO_BIN
    requires LinkedMerge(cs, linked, h, k)
    requires |cs'| == |cs| && forall g :: 0 <= g < |cs| && g != k ==> cs'[g] == linked[g]
    ensures MergeOf(cs, cs', home, h, k)
    ensures Layout(cs', home - {k}, spans, NO_CHUNK)
    ensures SlotsAgree(cs', home - {k}, slots[cs[k].ptr := NO_CHUNK])
    ensures BinsOk(cs', home - {k}, bins)
    ensures MergeRecords(cs, cs', home, h, k)
  {
    PlacedAt(cs, home, spans, NO_CHUNK, h);
    PlacedAt(cs, home, spans, NO_CHUNK, k);
    hide Layout, SlotsAgree, BinsOk;
    assert MergeOf(cs, cs', home, h, k);
    MergeKeepsLayout(cs, cs', home, spans, h, k);
    DropKeepsSlots(cs, cs', home, slots, k);
    LayoutInRange(cs', home - {k}, spans);
    BinsFrame(cs, cs', home, home - {k}, bins);
  }

  /** Taking one of two mergeable neighbours out of its bin and merging them is invisible outside. */
  lemma JoinIsQuiet(cs: seq<Chunk>, out: seq<Chunk>, cs': seq<Chunk>, home: map<Handle, int>, spans: map<int, int>,
                    h: Handle, k: Handle, binned: Handle)
    requires Layout(cs, home, spans, NO_CHUNK) && Layout(out, home, spans, NO_CHUNK)
    requires 0 <= binned < |cs| && out == cs[binned := cs[binned].(binNum := NO_BIN)]
    requires MergeOf(out, cs', home, h, k) && MergeRecords(out, cs', home, h, k)
    requires CanMerge(cs[h], cs[k]) && Layout(cs', home - {k}, spans, NO_CHUNK)
    ensures Quiet(cs, cs', home, home - {k})
    ensures forall p :: Seam(cs', home - {k}, p) ==> Seam(cs, home, p) && p != cs[k].ptr
  {
    LayoutInRange(cs, home, spans);
    LayoutInRange(out, home, spans);
    LayoutInRange(cs', home - {k}, spans);
    hide Layout;
    KeptOwnersStay(cs, out, home, home);
    MergeOwnersStay(out, cs', home, spans, h, k);
    QuietTrans(cs, out, cs', home, home, home - {k});
    SeamFrame(cs, out, home, spans);
    MergeSeams(out, cs', home, spans, h, k);
  }

  /** A quiet step keeps the history, the fits and the byte counts. */
  lemma QuietKeeps(cs: seq<Chunk>, cs': seq<Chunk>, home: map<Handle, int>, home': map<Handle, int>,
                   spans: map<int, int>, reserved: map<int, int>, trace: Trace, implOf: Stream -> Impl, maxDead: int)
    requires InRange(cs, home) && InRange(cs', home') && Quiet(cs, cs', home, home')
    requires HistoryAgrees(cs, home, spans, reserved, trace, implOf) && AllTight(cs, home, maxDead)
    ensures HistoryAgrees(cs', home', spans, reserved, trace, implOf) && AllTight(cs', home', maxDead)
    ensures InUseSizes(cs', home') == InUseSizes(cs, home)
  {
    HistoryQuiet(cs, cs', home, home', spans, reserved, trace, implOf);
    InUseFrame(cs, cs', home, home');
  }

  /** Binning a chunk is quiet and leaves the seams alone. */
  lemma BinningIsQuiet(cs: seq<Chunk>, home: map<Handle, int>, spans: map<int, int>, h: Handle, b: int)
    requires Layout(cs, home, spans, NO_CHUNK) && h in home && 0 <= h < |cs|
    ensures var cs' := cs[h := cs[h].(binNum := b)];
            && Quiet(cs, cs', home, home)
            && (forall p :: Seam(cs', home, p) <==> Seam(cs, home, p))
  {
    var cs' := cs[h := cs[h].(binNum := b)];
    LayoutInRange(cs, home, spans);
    KeptOwnersStay(cs, cs', home, home);
    SeamFrame(cs, cs', home, spans);
  }

  /** Returning chunk h can leave seams at its two ends only. */
  lemma FreeSeams(cs: seq<Chunk>, home: map<Handle, int>, spans: map<int, int>, h: Handle)
    requires Layout(cs, home, spans, NO_CHUNK) && Coalesced(cs, home) && h in home && 0 <= h < |cs|
    ensures var cs' := cs[h := cs[h].(allocationId := NOT_ALLOCATED)];
            forall p :: Seam(cs', home, p) ==> p == cs[h].ptr || p == cs[h].End()
  {
    var cs' := cs[h := cs[h].(allocationId := NOT_ALLOCATED)];
    LayoutFrame(cs, cs', home, spans, NO_CHUNK);
    forall a, p | SeamAt(cs', home, a, p)
      ensures p == cs[h].ptr || p == cs[h].End()
    {
      SeamNeighbours(cs', home, spans, a, h, p);
      assert Placed(cs, home, spans, NO_CHUNK, a);
      if p != cs[h].ptr && p != cs[h].End() {
        assert SeamAt(cs, home, a, p);
        assert Seam(cs, home, p);
      }
    }
  }

  /** Writing the allocation fields of an unbinned chunk is no matter of structure. */
  lemma AllocationWriteKeeps(cs: seq<Chunk>, x: Index, h: Handle, id: int, requested: nat)
    requires x.Fits(cs) && h in x.home && 0 <= h < |cs| && cs[h].binNum == NO_BIN
    ensures x.Fits(cs[h := cs[h].(allocationId := id, requestedSize := requested)])
  {
    var Index(home, spans, slots, bins, head, recycled, owner) := x;
    var cs' := cs[h := cs[h].(allocationId := id, requestedSize := requested)];
    LayoutInRange(cs, home, spans);
    LayoutFrame(cs, cs', home, spans, NO_CHUNK);
    SlotsFrame(cs, cs', home, slots);
    BinsFrame(cs, cs', home, home, bins);
    RecordsFrame(cs, cs', home.Keys, head, recycled);
    OwnersFrame(cs, cs', owner);
  }

  /** Taking a free chunk out of its bin and cutting off its tail is quiet; the cut is the only seam. */
  lemma CutIsQuiet(cs: seq<Chunk>, out: seq<Chunk>, cs': seq<Chunk>, home: map<Handle, int>, spans: map<int, int>,
                   h: Handle, k: Handle, n: nat)
    requires Layout(cs, home, spans, NO_CHUNK) && Layout(out, home, spans, NO_CHUNK) && Coalesced(cs, home)
    requires 0 <= h < |cs| && out == cs[h := cs[h].(binNum := NO_BIN)] && !cs[h].InUse() && 0 < n < cs[h].size
    requires SplitOf(out, cs', home, h, k, n) && SplitRecords(out, cs', home, h, k, n) && !cs'[k].InUse()
    requires Layout(cs', home[k := Base(home, h)], spans, NO_CHUNK)
    ensures var home' := home[k := Base(home, h)];
            Quiet(cs, cs', home, home') && forall p :: Seam(cs', home', p) ==> p == cs'[h].End()
  {
    var home' := home[k := Base(home, h)];
    LayoutInRange(cs, home, spans);
    LayoutInRange(out, home, spans);
    LayoutInRange(cs', home', spans);
    hide Layout;
    KeptOwnersStay(cs, out, home, home);
    SplitOwnersStay(out, cs', home, h, k, n, Base(home, h));
    QuietTrans(cs, out, cs', home, home, home');
    SeamFrame(cs, out, home, spans);
    SplitSeams(out, cs', home, spans, h, k, n);
    forall p | Seam(cs', home', p)
      ensures p == cs'[h].End()
    {
      assert !Seam(cs, home, p);
    }
  }

  /** Chunk h is in hand, free and possibly cut; nothing outside can tell. */
  ghost predicate Taken(cs: seq<Chunk>, taken: seq<Chunk>, home: map<Handle, int>, home': map<Handle, int>,
                        spans: map<int, int>, h: Handle) {
    && 0 <= h < |cs| <= |taken| && h in home && h in home'
    && !taken[h].InUse() && taken[h].binNum == NO_BIN
    && taken[h].ptr == cs[h].ptr && taken[h].stream == cs[h].stream
    && Layout(taken, home', spans, NO_CHUNK) && Quiet(cs, taken, home, home')
    && FreeAreBinned(taken, home', h)
    && (forall p {:trigger Seam(taken, home', p)} :: Seam(taken, home', p) ==> p == taken[h].End())
  }

  /** A chunk in hand becomes chunk h of cs', in use on stream t; every other record is as it was. */
  ghost predicate ClaimedAs(taken: seq<Chunk>, cs': seq<Chunk>, h: Handle, t: Stream) {
    && |cs'| == |taken| && 0 <= h < |taken| && !taken[h].InUse() && cs'[h].InUse()
    && cs'[h].size == taken[h].size && cs'[h].ptr == taken[h].ptr
    && cs'[h].prev == taken[h].prev && cs'[h].next == taken[h].next && cs'[h].stream == t
    && (taken[h].stream == NO_STREAM || taken[h].stream == t)
    && (forall g {:trigger cs'[g]} :: 0 <= g < |taken| && g != h ==> cs'[g] == taken[g])
  }

  lemma ClaimSettles(cs: seq<Chunk>, taken: seq<Chunk>, cs': seq<Chunk>, home: map<Handle, int>,
                     home': map<Handle, int>, books: Books, h: Handle, t: Stream)
    requires InRange(cs, home) && Layout(taken, home', books.spans, NO_CHUNK) && books.Agree(cs, home)
    requires Quiet(cs, taken, home, home') && h in home' && ClaimedAs(taken, cs', h, t) && Tight(cs'[h], books.maxDead)
    requires forall p :: Seam(taken, home', p) ==> p == taken[h].End()
    ensures books.(trace := Then(books.trace, Allocated(cs'[h].ptr, cs'[h].size, t))).Agree(cs', home')
    ensures Coalesced(cs', home')
    ensures MapSum(InUseSizes(cs', home')) == MapSum(InUseSizes(cs, home)) + cs'[h].size
  {
    var Books(spans, reserved, blocks, trace, implOf, maxDead) := books;
    LayoutInRange(taken, home', spans);
    hide Layout, HistoryAgrees, BlocksAgree, Quiet;
    QuietKeeps(cs, taken, home, home', spans, reserved, trace, implOf, maxDead);
    ClaimStep(taken, cs', home', spans, reserved, blocks, trace, implOf, h, t);
    ClaimKeepsCoalesced(taken, cs', home', spans, h);
    InUseGained(taken, cs', home', h);
  }

  /** An owner is no matter of layout, slots, bins or free list. */
  lemma OwnerWriteKeeps(cs: seq<Chunk>, x: Index, h: Handle, s: Stream)
    requires x.Fits(cs) && h in x.home && 0 <= h < |cs|
    ensures var cs' := cs[h := cs[h].(stream := s)];
            forall owner' :: OwnersAgree(cs', owner') ==> x.(owner := owner').Fits(cs')
  {
    var Index(home, spans, slots, bins, head, recycled, owner) := x;
    var cs' := cs[h := cs[h].(stream := s)];
    LayoutInRange(cs, home, spans);
    LayoutFrame(cs, cs', home, spans, NO_CHUNK);
    SlotsFrame(cs, cs', home, slots);
    BinsFrame(cs, cs', home, home, bins);
    RecordsFrame(cs, cs', home.Keys, head, recycled);
  }

  /** A fresh region has come in as free, unowned, unbinned chunk h; live records are as they were. */
  ghost predicate RegionChunk(cs: seq<Chunk>, cs': seq<Chunk>, home: map<Handle, int>, h: Handle, b: int, n: int) {
    && |cs| <= |cs'| && h !in home && 0 <= h < |cs'|
    && !cs'[h].InUse() && cs'[h].stream == NO_STREAM && cs'[h].ptr == b && cs'[h].size == n
    && cs'[h].prev == NO_CHUNK && cs'[h].next == NO_CHUNK
    && (forall g {:trigger g in home} :: g in home && 0 <= g < |cs| ==> cs'[g] == cs[g])
  }

  lemma RegionRestores(cs: seq<Chunk>, cs': seq<Chunk>, x: Index, h: Handle, b: int, n: int)
    requires Layout(cs, x.home, x.spans, NO_CHUNK) && SlotsAgree(cs, x.home, x.slots) && BinsOk(cs, x.home, x.bins)
    requires FirstChunks(x.home, x.spans, x.slots)
    requires RecordsOk(cs', x.home.Keys + {h}, x.head, x.recycled) && OwnersAgree(cs', x.owner)
    requires RegionChunk(cs, cs', x.home, h, b, n) && cs'[h].binNum == NO_BIN && n > 0 && n % GRANULE == 0
    requires b !in x.spans && forall c :: c in x.spans ==> Disjoint(c, x.spans[c], b, n)
    ensures var home', spans', slots' := x.home[h := b], x.spans[b := n], (x.slots + FreshSlots(b, n))[b := h];
            x.(home := home', spans := spans', slots := slots').Fits(cs') && FirstChunks(home', spans', slots')
  {
    var Index(home, spans, slots, bins, head, recycled, owner) := x;
    var home' := home[h := b];
    assert home'.Keys == home.Keys + {h};
    LayoutInRange(cs, home, spans);
    FirstAfterRegion(cs, home, spans, slots, h, b, n);
    hide Layout, SlotsAgree, BinsOk, RecordsOk, OwnersAgree, FirstChunks;
    AddRegionKeepsLayout(cs, cs', home, spans, h, b, n);
    AddRegionKeepsSlots(cs, cs', home, spans, slots, h, b, n);
    LayoutInRange(cs', home', spans[b := n]);
    BinsFrame(cs, cs', home, home', bins);
  }

  lemma FirstAfterRegion(cs: seq<Chunk>, home: map<Handle, int>, spans: map<int, int>, slots: map<int, Handle>,
                         h: Handle, b: int, n: int)
    requires Layout(cs, home, spans, NO_CHUNK) && SlotsAgree(cs, home, slots) && FirstChunks(home, spans, slots)
    requires h !in home && h != NO_CHUNK && n > 0 && b !in spans
    requires forall c :: c in spans ==> Disjoint(c, spans[c], b, n)
    ensures FirstChunks(home[h := b], spans[b := n], (slots + FreshSlots(b, n))[b := h])
  {
    var slots' := (slots + FreshSlots(b, n))[b := h];
    forall c | c in spans
      ensures SlotOf(slots', c) == SlotOf(slots, c) && SlotOf(slots, c) != h
    {
      assert cs[SlotOf(slots, c)].ptr == c;
      assert Placed(cs, home, spans, NO_CHUNK, SlotOf(slots, c));
      assert Disjoint(c, spans[c], b, n);
    }
  }

  /** The books after a fresh region came in. */
  lemma RegionBooks(cs: seq<Chunk>, cs': seq<Chunk>, home: map<Handle, int>, books: Books, h: Handle, b: int, n: int)
    requires Layout(cs, home, books.spans, NO_CHUNK) && books.Agree(cs, home)
    requires RegionChunk(cs, cs', home, h, b, n) && n > 0 && b > 0 && b !in books.blocks
    requires forall q :: q in books.blocks ==> Disjoint(b, n, q, books.blocks[q])
    ensures books.(spans := books.spans[b := n], blocks := books.blocks[b := n],
                   trace := Then(books.trace, Mapped(b, n))).Agree(cs', home[h := b])
    ensures MapSum(InUseSizes(cs', home[h := b])) == MapSum(InUseSizes(cs, home))
  {
    var Books(spans, reserved, blocks, trace, implOf, maxDead) := books;
    LayoutInRange(cs, home, spans);
    hide Layout, HistoryAgrees, BlocksAgree;
    MapStep(cs, cs', home, spans, reserved, blocks, trace, implOf, h, b, n);
    AddBlock(blocks, spans, reserved, b, n);
    InUseFrame(cs, cs', home, home[h := b]);
  }

  /** Dropping the chunks of a region without in-use chunks is quiet. */
  lemma SubsetIsQuiet(cs: seq<Chunk>, cs': seq<Chunk>, home: map<Handle, int>, home': map<Handle, int>, b: int)
    requires SubsetOf(cs, cs', home, home') && !UsedRegion(cs, home, b)
    requires forall g {:trigger g in home} :: g in home && Base(home, g) != b ==> g in home'
    ensures Quiet(cs, cs', home, home')
  {
    forall h | h in home && 0 <= h < |cs| && cs[h].InUse()
      ensures h in home' && cs'[h] == cs[h]
    {
      assert !UsedAt(cs, home, h, b);
    }
    KeptOwnersStay(cs, cs', home, home');
  }
}
