/**
 * The structural invariant of the arena, read off plain values: chunk records, the region each live
 * chunk belongs to (home), the regions (spans) and the slot table. One lemma per mutation.
 */
module ArenaLayout {
  import opened ArenaTypes
  import opened DeviceMemory
  import opened Regions

  /** Base address of the region of live chunk h; the live chunks are the keys of home. */
  function Base(home: map<Handle, int>, h: Handle): int {
    if h in home then home[h] else 0
  }

  function SpanEnd(spans: map<int, int>, b: int): int {
    if b in spans then b + spans[b] else b
  }

  function SlotOf(slots: map<int, Handle>, p: int): Handle {
    if p in slots then slots[p] else NO_CHUNK
  }

  ghost predicate InRange(cs: seq<Chunk>, home: map<Handle, int>) {
    forall h {:trigger h in home} :: h in home ==> 0 <= h < |cs|
  }

  ghost predicate NextOk(cs: seq<Chunk>, home: map<Handle, int>, spans: map<int, int>, h: Handle)
    requires 0 <= h < |cs|
  {
    var c := cs[h];
    if c.next == NO_CHUNK then c.End() == SpanEnd(spans, Base(home, h))
    else
      && c.next in home && 0 <= c.next < |cs| && Base(home, c.next) == Base(home, h)
      && cs[c.next].prev == h && cs[c.next].ptr == c.End()
  }

  /** orphan is the one chunk, if any, whose predecessor record has already been recycled. */
  ghost predicate PrevOk(cs: seq<Chunk>, home: map<Handle, int>, orphan: Handle, h: Handle)
    requires 0 <= h < |cs|
  {
    var c := cs[h];
    && (c.prev == NO_CHUNK <==> c.ptr == Base(home, h))
    && (if h == orphan then c.prev !in home
        else c.prev != NO_CHUNK ==>
          && c.prev in home && 0 <= c.prev < |cs| && Base(home, c.prev) == Base(home, h)
          && cs[c.prev].next == h && cs[c.prev].End() == c.ptr)
  }

  /** Chunk h lies in its region on whole granules and abuts exactly its list neighbours. */
  ghost predicate Placed(cs: seq<Chunk>, home: map<Handle, int>, spans: map<int, int>, orphan: Handle, h: Handle) {
    && 0 <= h < |cs| && h in home && Base(home, h) in spans
    && cs[h].size > 0 && cs[h].size % GRANULE == 0 && (cs[h].ptr - Base(home, h)) % GRANULE == 0
    && Base(home, h) <= cs[h].ptr && cs[h].End() <= SpanEnd(spans, Base(home, h))
    && NextOk(cs, home, spans, h) && PrevOk(cs, home, orphan, h)
  }

  ghost predicate Apart(cs: seq<Chunk>, a: Handle, b: Handle) {
    0 <= a < |cs| && 0 <= b < |cs| && Disjoint(cs[a].ptr, cs[a].size, cs[b].ptr, cs[b].size)
  }

  ghost predicate AllApart(cs: seq<Chunk>, home: map<Handle, int>) {
    forall a, b {:trigger Apart(cs, a, b)} :: a in home && b in home && a != b ==> Apart(cs, a, b)
  }

  ghost predicate AllPlaced(cs: seq<Chunk>, home: map<Handle, int>, spans: map<int, int>, orphan: Handle) {
    forall h {:trigger Placed(cs, home, spans, orphan, h)} :: h in home ==> Placed(cs, home, spans, orphan, h)
  }

  ghost predicate Layout(cs: seq<Chunk>, home: map<Handle, int>, spans: map<int, int>, orphan: Handle) {
    InRange(cs, home) && AllPlaced(cs, home, spans, orphan) && AllApart(cs, home)
  }

  lemma PlacedAt(cs: seq<Chunk>, home: map<Handle, int>, spans: map<int, int>, orphan: Handle, h: Handle)
    requires Layout(cs, home, spans, orphan) && h in home
    ensures Placed(cs, home, spans, orphan, h) && InRange(cs, home)
  {
  }

  lemma LayoutInRange(cs: seq<Chunk>, home: map<Handle, int>, spans: map<int, int>)
    requires Layout(cs, home, spans, NO_CHUNK)
    ensures InRange(cs, home)
  {
  }

  /** A live chunk is in the slot of its start address, and no other slot names a chunk. */
  ghost predicate SlotsAgree(cs: seq<Chunk>, home: map<Handle, int>, slots: map<int, Handle>) {
    && InRange(cs, home)
    && (forall h {:trigger h in home} :: h in home ==> SlotOf(slots, cs[h].ptr) == h)
    && (forall p {:trigger SlotOf(slots, p)} :: SlotOf(slots, p) != NO_CHUNK ==>
          SlotOf(slots, p) in home && cs[SlotOf(slots, p)].ptr == p)
  }

  /** Every region has a chunk at its base. */
  ghost predicate FirstChunks(home: map<Handle, int>, spans: map<int, int>, slots: map<int, Handle>) {
    forall b {:trigger b in spans} :: b in spans ==>
      SlotOf(slots, b) != NO_CHUNK && SlotOf(slots, b) in home && Base(home, SlotOf(slots, b)) == b
  }

  ghost predicate SameLinks(c: Chunk, d: Chunk) {
    c.size == d.size && c.ptr == d.ptr && c.prev == d.prev && c.next == d.next
  }

  ghost predicate LinksKept(cs: seq<Chunk>, cs': seq<Chunk>, home: map<Handle, int>) {
    |cs| <= |cs'| && forall h {:trigger h in home} :: h in home && 0 <= h < |cs| ==> SameLinks(cs[h], cs'[h])
  }

  // ---------------------------------------------------------------- records change, links do not

  lemma LayoutFrame(cs: seq<Chunk>, cs': seq<Chunk>, home: map<Handle, int>, spans: map<int, int>, orphan: Handle)
    requires Layout(cs, home, spans, orphan) && LinksKept(cs, cs', home)
    ensures Layout(cs', home, spans, orphan)
  {
    forall h | h in home
      ensures Placed(cs', home, spans, orphan, h)
    {
      assert Placed(cs, home, spans, orphan, h);
    }
    forall a, b | a in home && b in home && a != b
      ensures Apart(cs', a, b)
    {
      assert Apart(cs, a, b);
    }
  }

  lemma SlotsFrame(cs: seq<Chunk>, cs': seq<Chunk>, home: map<Handle, int>, slots: map<int, Handle>)
    requires SlotsAgree(cs, home, slots) && LinksKept(cs, cs', home)
    ensures SlotsAgree(cs', home, slots)
  {
  }

  // ---------------------------------------------------------------- split

  /** cs' is cs after chunk h was cut to n bytes and the rest became the new chunk k. */
  ghost predicate SplitOf(cs: seq<Chunk>, cs': seq<Chunk>, home: map<Handle, int>, h: Handle, k: Handle, n: int) {
    && |cs| <= |cs'| && 0 <= h < |cs| && 0 <= k < |cs'| && h in home && k !in home && k != NO_CHUNK
    && cs'[h].size == n && cs'[h].ptr == cs[h].ptr && cs'[h].prev == cs[h].prev && cs'[h].next == k
    && cs'[k].size == cs[h].size - n && cs'[k].ptr == cs[h].ptr + n && cs'[k].prev == h && cs'[k].next == cs[h].next
    && (cs[h].next in home && 0 <= cs[h].next < |cs| ==>
          var d, d' := cs[cs[h].next], cs'[cs[h].next];
          d'.size == d.size && d'.ptr == d.ptr && d'.next == d.next && d'.prev == k)
    && (forall g {:trigger g in home} :: g in home && 0 <= g < |cs| && g != h && g != cs[h].next ==>
          SameLinks(cs[g], cs'[g]))
  }

  lemma SplitKeepsPlaced(cs: seq<Chunk>, cs': seq<Chunk>, home: map<Handle, int>, spans: map<int, int>,
                         h: Handle, k: Handle, n: int)
    requires Layout(cs, home, spans, NO_CHUNK) && SplitOf(cs, cs', home, h, k, n)
    requires 0 < n < cs[h].size && n % GRANULE == 0
    ensures AllPlaced(cs', home[k := Base(home, h)], spans, NO_CHUNK)
  {
    var home' := home[k := Base(home, h)];
    assert Placed(cs, home, spans, NO_CHUNK, h);
    forall g | g in home'
      ensures Placed(cs', home', spans, NO_CHUNK, g)
    {
      if g != k {
        assert Placed(cs, home, spans, NO_CHUNK, g);
      } else if cs[h].next != NO_CHUNK {
        assert Placed(cs, home, spans, NO_CHUNK, cs[h].next);
      }
    }
  }

  lemma SplitKeepsApart(cs: seq<Chunk>, cs': seq<Chunk>, home: map<Handle, int>, h: Handle, k: Handle, n: int, b: int)
    requires InRange(cs, home) && AllApart(cs, home) && SplitOf(cs, cs', home, h, k, n) && 0 < n < cs[h].size
    ensures AllApart(cs', home[k := b])
  {
    forall x, y | x in home[k := b] && y in home[k := b] && x != y
      ensures Apart(cs', x, y)
    {
      var x0, y0 := if x == k then h else x, if y == k then h else y;
      assert x0 != y0 ==> Apart(cs, x0, y0);
    }
  }

  lemma SplitKeepsLayout(cs: seq<Chunk>, cs': seq<Chunk>, home: map<Handle, int>, spans: map<int, int>,
                         h: Handle, k: Handle, n: int)
    requires Layout(cs, home, spans, NO_CHUNK) && SplitOf(cs, cs', home, h, k, n)
    requires 0 < n < cs[h].size && n % GRANULE == 0
    ensures Layout(cs', home[k := Base(home, h)], spans, NO_CHUNK)
  {
    SplitKeepsPlaced(cs, cs', home, spans, h, k, n);
    SplitKeepsApart(cs, cs', home, h, k, n, Base(home, h));
  }

  lemma SplitKeepsSlots(cs: seq<Chunk>, cs': seq<Chunk>, home: map<Handle, int>, spans: map<int, int>,
                        slots: map<int, Handle>, h: Handle, k: Handle, n: int)
    requires Layout(cs, home, spans, NO_CHUNK) && SplitOf(cs, cs', home, h, k, n)
    requires 0 < n < cs[h].size
    requires SlotsAgree(cs, home, slots)
    ensures SlotsAgree(cs', home[k := Base(home, h)], slots[cs'[k].ptr := k])
  {
    var slots' := slots[cs'[k].ptr := k];
    forall g | g in home && g != k
      ensures SlotOf(slots', cs'[g].ptr) == g
      ensures cs'[g].ptr == cs[g].ptr
    {
      if g != h {
        assert Apart(cs, g, h);
        assert Placed(cs, home, spans, NO_CHUNK, g);
      }
    }
    forall p | p != cs'[k].ptr
      ensures SlotOf(slots, p) == SlotOf(slots', p)
    {
    }
  }

  lemma SplitKeepsFirst(cs: seq<Chunk>, cs': seq<Chunk>, home: map<Handle, int>, spans: map<int, int>,
                        slots: map<int, Handle>, h: Handle, k: Handle, n: int)
    requires Layout(cs, home, spans, NO_CHUNK) && SplitOf(cs, cs', home, h, k, n) && 0 < n < cs[h].size
    requires SlotsAgree(cs, home, slots) && FirstChunks(home, spans, slots)
    ensures FirstChunks(home[k := Base(home, h)], spans, slots[cs'[k].ptr := k])
  {
    forall b | b in spans
      ensures b != cs'[k].ptr
    {
      var f := SlotOf(slots, b);
      assert cs[f].ptr == b;
      assert Placed(cs, home, spans, NO_CHUNK, f);
      if f != h {
        assert Apart(cs, f, h);
      }
    }
  }

  /** A chunk with a predecessor is nobody's first chunk. */
  lemma DropKeepsFirst(cs: seq<Chunk>, home: map<Handle, int>, spans: map<int, int>, slots: map<int, Handle>, k: Handle)
    requires Layout(cs, home, spans, NO_CHUNK) && SlotsAgree(cs, home, slots) && FirstChunks(home, spans, slots)
    requires k in home && 0 <= k < |cs| && cs[k].prev != NO_CHUNK
    ensures FirstChunks(home - {k}, spans, slots[cs[k].ptr := NO_CHUNK])
  {
    assert Placed(cs, home, spans, NO_CHUNK, k);
    forall b | b in spans
      ensures SlotOf(slots, b) != k && b != cs[k].ptr
    {
      assert cs[SlotOf(slots, b)].ptr == b;
    }
  }

  // ---------------------------------------------------------------- merge

  /** cs' is cs after chunk h absorbed its successor k. */
  ghost predicate MergeOf(cs: seq<Chunk>, cs': seq<Chunk>, home: map<Handle, int>, h: Handle, k: Handle) {
    && |cs| <= |cs'| && 0 <= h < |cs| && 0 <= k < |cs| && h in home && k in home && h != k && cs[h].next == k
    && cs'[h].size == cs[h].size + cs[k].size && cs'[h].ptr == cs[h].ptr
    && cs'[h].prev == cs[h].prev && cs'[h].next == cs[k].next
    && (cs[k].next in home && 0 <= cs[k].next < |cs| ==>
          var d, d' := cs[cs[k].next], cs'[cs[k].next];
          d'.size == d.size && d'.ptr == d.ptr && d'.next == d.next && d'.prev == h)
    && (forall g {:trigger g in home} :: g in home && 0 <= g < |cs| && g != h && g != k && g != cs[k].next ==>
          SameLinks(cs[g], cs'[g]))
  }

  lemma MergeKeepsPlaced(cs: seq<Chunk>, cs': seq<Chunk>, home: map<Handle, int>, spans: map<int, int>,
                         h: Handle, k: Handle)
    requires Layout(cs, home, spans, NO_CHUNK) && MergeOf(cs, cs', home, h, k)
    ensures AllPlaced(cs', home - {k}, spans, NO_CHUNK)
  {
    var home' := home - {k};
    assert Placed(cs, home, spans, NO_CHUNK, h);
    assert Placed(cs, home, spans, NO_CHUNK, k);
    forall g | g in home'
      ensures Placed(cs', home', spans, NO_CHUNK, g)
    {
      assert Placed(cs, home, spans, NO_CHUNK, g);
      if g == h && cs[k].next != NO_CHUNK {
        assert Placed(cs, home, spans, NO_CHUNK, cs[k].next);
      }
    }
  }

  lemma MergeKeepsApart(cs: seq<Chunk>, cs': seq<Chunk>, home: map<Handle, int>, h: Handle, k: Handle)
    requires InRange(cs, home) && AllApart(cs, home) && MergeOf(cs, cs', home, h, k)
    requires cs[k].ptr == cs[h].End() && forall g :: g in home ==> cs[g].size > 0
    ensures AllApart(cs', home - {k})
  {
    forall x, y | x in home - {k} && y in home - {k} && x != y
      ensures Apart(cs', x, y)
    {
      assert Apart(cs, x, y);
      if x == h {
        assert Apart(cs, k, y);
      } else if y == h {
        assert Apart(cs, x, k);
      }
    }
  }

  lemma MergeKeepsLayout(cs: seq<Chunk>, cs': seq<Chunk>, home: map<Handle, int>, spans: map<int, int>,
                         h: Handle, k: Handle)
    requires Layout(cs, home, spans, NO_CHUNK) && MergeOf(cs, cs', home, h, k)
    ensures Layout(cs', home - {k}, spans, NO_CHUNK)
  {
    MergeKeepsPlaced(cs, cs', home, spans, h, k);
    assert Placed(cs, home, spans, NO_CHUNK, h);
    forall g | g in home
      ensures cs[g].size > 0
    {
      assert Placed(cs, home, spans, NO_CHUNK, g);
    }
    MergeKeepsApart(cs, cs', home, h, k);
  }

  lemma DropKeepsSlots(cs: seq<Chunk>, cs': seq<Chunk>, home: map<Handle, int>, slots: map<int, Handle>, k: Handle)
    requires SlotsAgree(cs, home, slots) && k in home && |cs| <= |cs'|
    requires forall g :: g in home && g != k ==> 0 <= g < |cs| && cs'[g].ptr == cs[g].ptr
    ensures SlotsAgree(cs', home - {k}, slots[cs[k].ptr := NO_CHUNK])
  {
    var slots' := slots[cs[k].ptr := NO_CHUNK];
    assert SlotOf(slots, cs[k].ptr) == k;
    forall p | p != cs[k].ptr
      ensures SlotOf(slots, p) == SlotOf(slots', p)
    {
    }
  }

  // ---------------------------------------------------------------- dismantling a region

  /** Recycling the front chunk k of what is left of a region orphans its successor. */
  lemma DropKeepsLayout(cs: seq<Chunk>, cs': seq<Chunk>, home: map<Handle, int>, spans: map<int, int>, k: Handle)
    requires Layout(cs, home, spans, k) && k in home
    requires |cs| <= |cs'| && forall g :: g in home && g != k ==> 0 <= g < |cs| && SameLinks(cs[g], cs'[g])
    ensures Layout(cs', home - {k}, spans, cs[k].next)
  {
    var home' := home - {k};
    var orphan := cs[k].next;
    assert Placed(cs, home, spans, k, k);
    forall g | g in home'
      ensures Placed(cs', home', spans, orphan, g)
    {
      assert Placed(cs, home, spans, k, g);
    }
    forall a, b | a in home' && b in home' && a != b
      ensures Apart(cs', a, b)
    {
      assert Apart(cs, a, b);
    }
  }

  /** The first chunk of a region may be taken for the orphan: it has no predecessor anyway. */
  lemma FirstIsOrphan(cs: seq<Chunk>, home: map<Handle, int>, spans: map<int, int>, k: Handle)
    requires Layout(cs, home, spans, NO_CHUNK) && k in home && cs[k].ptr == Base(home, k)
    ensures Layout(cs, home, spans, k)
  {
    assert Placed(cs, home, spans, NO_CHUNK, k);
    forall g | g in home
      ensures Placed(cs, home, spans, k, g)
    {
      assert Placed(cs, home, spans, NO_CHUNK, g);
    }
  }

  lemma RemoveSpanKeepsLayout(cs: seq<Chunk>, home: map<Handle, int>, spans: map<int, int>, b: int)
    requires Layout(cs, home, spans, NO_CHUNK)
    requires forall g :: g in home ==> Base(home, g) != b
    ensures Layout(cs, home, spans - {b}, NO_CHUNK)
  {
    forall g | g in home
      ensures Placed(cs, home, spans - {b}, NO_CHUNK, g)
    {
      assert Placed(cs, home, spans, NO_CHUNK, g);
    }
  }

  // ---------------------------------------------------------------- a new region with its one chunk

  lemma AddRegionKeepsLayout(cs: seq<Chunk>, cs': seq<Chunk>, home: map<Handle, int>, spans: map<int, int>,
                             h: Handle, b: int, n: int)
    requires Layout(cs, home, spans, NO_CHUNK) && LinksKept(cs, cs', home)
    requires h !in home && 0 <= h < |cs'| && n > 0 && n % GRANULE == 0
    requires cs'[h].ptr == b && cs'[h].size == n && cs'[h].prev == NO_CHUNK && cs'[h].next == NO_CHUNK
    requires b !in spans && forall c :: c in spans ==> Disjoint(c, spans[c], b, n)
    ensures Layout(cs', home[h := b], spans[b := n], NO_CHUNK)
  {
    var home', spans' := home[h := b], spans[b := n];
    forall g | g in home'
      ensures Placed(cs', home', spans', NO_CHUNK, g)
    {
      if g != h {
        assert Placed(cs, home, spans, NO_CHUNK, g);
      }
    }
    forall a, c | a in home' && c in home' && a != c
      ensures Apart(cs', a, c)
    {
      if a == h {
        assert Placed(cs, home, spans, NO_CHUNK, c);
        assert Disjoint(Base(home, c), spans[Base(home, c)], b, n);
      } else if c == h {
        assert Placed(cs, home, spans, NO_CHUNK, a);
        assert Disjoint(Base(home, a), spans[Base(home, a)], b, n);
      } else {
        assert Apart(cs, a, c);
      }
    }
  }

  lemma AddRegionKeepsSlots(cs: seq<Chunk>, cs': seq<Chunk>, home: map<Handle, int>, spans: map<int, int>,
                            slots: map<int, Handle>, h: Handle, b: int, n: int)
    requires Layout(cs, home, spans, NO_CHUNK) && LinksKept(cs, cs', home) && SlotsAgree(cs, home, slots)
    requires h !in home && 0 <= h < |cs'| && n > 0 && cs'[h].ptr == b
    requires b !in spans && forall c :: c in spans ==> Disjoint(c, spans[c], b, n)
    ensures SlotsAgree(cs', home[h := b], (slots + FreshSlots(b, n))[b := h])
  {
    var slots' := (slots + FreshSlots(b, n))[b := h];
    forall g | g in home
      ensures SlotOf(slots', cs'[g].ptr) == g
    {
      assert Placed(cs, home, spans, NO_CHUNK, g);
      assert Disjoint(Base(home, g), spans[Base(home, g)], b, n);
    }
    forall p | SlotOf(slots', p) != NO_CHUNK && p != b
      ensures SlotOf(slots, p) == SlotOf(slots', p)
    {
    }
  }

  lemma RemoveSpanKeepsSlots(cs: seq<Chunk>, home: map<Handle, int>, spans: map<int, int>, slots: map<int, Handle>,
                             b: int)
    requires Layout(cs, home, spans, NO_CHUNK) && SlotsAgree(cs, home, slots)
    requires b in spans && forall g :: g in home ==> Base(home, g) != b
    requires forall c {:trigger c in spans} :: c in spans && c != b ==> Disjoint(c, spans[c], b, spans[b])
    ensures SlotsAgree(cs, home, map p | p in slots && !IsGranule(b, spans[b], p) :: slots[p])
  {
    var slots' := map p | p in slots && !IsGranule(b, spans[b], p) :: slots[p];
    forall g | g in home
      ensures SlotOf(slots', cs[g].ptr) == g
    {
      assert Placed(cs, home, spans, NO_CHUNK, g);
      assert Disjoint(Base(home, g), spans[Base(home, g)], b, spans[b]);
      assert SlotOf(slots, cs[g].ptr) == g;
    }
    forall p | SlotOf(slots', p) != NO_CHUNK
      ensures SlotOf(slots, p) == SlotOf(slots', p)
    {
    }
  }

  /** Every region but b has a chunk at its base. */
  ghost predicate FirstChunksBut(home: map<Handle, int>, spans: map<int, int>, slots: map<int, Handle>, b: int) {
    forall c {:trigger c in spans} :: c in spans && c != b ==>
      SlotOf(slots, c) != NO_CHUNK && SlotOf(slots, c) in home && Base(home, SlotOf(slots, c)) == c
  }

  lemma DropKeepsFirstBut(cs: seq<Chunk>, home: map<Handle, int>, spans: map<int, int>, slots: map<int, Handle>,
                          k: Handle, b: int)
    requires SlotsAgree(cs, home, slots) && FirstChunksBut(home, spans, slots, b)
    requires k in home && 0 <= k < |cs| && Base(home, k) == b
    ensures FirstChunksBut(home - {k}, spans, slots[cs[k].ptr := NO_CHUNK], b)
  {
    forall c | c in spans && c != b
      ensures SlotOf(slots, c) != k && c != cs[k].ptr
    {
      assert cs[SlotOf(slots, c)].ptr == c;
    }
  }

  /** Live chunks are some of those before, unchanged. */
  ghost predicate SubsetOf(cs: seq<Chunk>, cs': seq<Chunk>, home: map<Handle, int>, home': map<Handle, int>) {
    && |cs| == |cs'|
    && (forall h {:trigger h in home'} :: h in home' && 0 <= h < |cs'| ==>
          h in home && cs'[h] == cs[h] && Base(home', h) == Base(home, h))
  }

  /** Some chunk of the region at b is in use. */
  ghost predicate UsedRegion(cs: seq<Chunk>, home: map<Handle, int>, b: int) {
    exists h :: UsedAt(cs, home, h, b)
  }

  ghost predicate UsedAt(cs: seq<Chunk>, home: map<Handle, int>, h: Handle, b: int) {
    h in home && 0 <= h < |cs| && Base(home, h) == b && cs[h].InUse()
  }

  /** Chunks that start before the end of a free chunk start before it, or are it. */
  lemma NextStart(cs: seq<Chunk>, home: map<Handle, int>, spans: map<int, int>, h: Handle, g: Handle)
    requires Layout(cs, home, spans, NO_CHUNK) && h in home && g in home && 0 <= h < |cs| && 0 <= g < |cs|
    requires cs[g].ptr < cs[h].End()
    ensures g == h || cs[g].ptr < cs[h].ptr
  {
    assert Placed(cs, home, spans, NO_CHUNK, g);
    assert Placed(cs, home, spans, NO_CHUNK, h);
    if g != h {
      assert Apart(cs, g, h);
    }
  }

  lemma ChunkBounds(cs: seq<Chunk>, home: map<Handle, int>, spans: map<int, int>, orphan: Handle, h: Handle)
    requires Layout(cs, home, spans, orphan) && h in home
    ensures 0 <= h < |cs| && Base(home, h) in spans && cs[h].size > 0
    ensures Base(home, h) <= cs[h].ptr && cs[h].End() <= SpanEnd(spans, Base(home, h))
  {
    assert Placed(cs, home, spans, orphan, h);
  }

  /** Giving back a region clears only its own slots. */
  lemma FirstAfterRemove(home: map<Handle, int>, spans: map<int, int>, slots: map<int, Handle>, b: int)
    requires FirstChunksBut(home, spans, slots, b) && b in spans && forall c :: c in spans ==> spans[c] > 0
    requires forall c {:trigger c in spans} :: c in spans && c != b ==> Disjoint(c, spans[c], b, spans[b])
    ensures FirstChunks(home, spans - {b}, map p | p in slots && !IsGranule(b, spans[b], p) :: slots[p])
  {
    var slots' := map p | p in slots && !IsGranule(b, spans[b], p) :: slots[p];
    forall c | c in spans && c != b
      ensures SlotOf(slots', c) == SlotOf(slots, c)
    {
      assert Disjoint(c, spans[c], b, spans[b]);
    }
  }

  /** Some live chunks were dropped, none of them in use. */
  ghost predicate UsedKept(cs: seq<Chunk>, cs': seq<Chunk>, home: map<Handle, int>, home': map<Handle, int>) {
    && SubsetOf(cs, cs', home, home')
    && (forall h {:trigger h in home} :: h in home && 0 <= h < |cs| && cs[h].InUse() ==> h in home')
  }

  lemma UsedKeptTrans(cs: seq<Chunk>, cs1: seq<Chunk>, cs2: seq<Chunk>,
                      home: map<Handle, int>, home1: map<Handle, int>, home2: map<Handle, int>, b: int)
    requires UsedKept(cs, cs1, home, home1) && SubsetOf(cs1, cs2, home1, home2) && !UsedRegion(cs1, home1, b)
    requires forall g :: g in home1 && Base(home1, g) != b ==> g in home2
    ensures UsedKept(cs, cs2, home, home2)
  {
    forall h | h in home && 0 <= h < |cs| && cs[h].InUse()
      ensures h in home2
    {
      assert !UsedAt(cs1, home1, h, b);
    }
  }

  lemma SameUsedRegions(cs: seq<Chunk>, cs': seq<Chunk>, home: map<Handle, int>, home': map<Handle, int>, b: int)
    requires UsedKept(cs, cs', home, home')
    ensures UsedRegion(cs', home', b) <==> UsedRegion(cs, home, b)
  {
    forall h
      ensures UsedAt(cs', home', h, b) <==> UsedAt(cs, home, h, b)
    {
    }
  }

  // ---------------------------------------------------------------- exact tiling

  ghost predicate Covers(cs: seq<Chunk>, home: map<Handle, int>, b: int, h: Handle, x: int) {
    h in home && 0 <= h < |cs| && Base(home, h) == b && cs[h].ptr <= x < cs[h].End()
  }

  ghost predicate InRegion(cs: seq<Chunk>, home: map<Handle, int>, b: int, h: Handle) {
    h in home && 0 <= h < |cs| && Base(home, h) == b
  }

  /** Each chunk's next is the one after it in the list, and starts where it ends; the last ends the region. */
  ghost predicate ChunkList(cs: seq<Chunk>, home: map<Handle, int>, spans: map<int, int>, b: int, list: seq<Handle>) {
    && |list| > 0
    && (forall i {:trigger list[i]} :: 0 <= i < |list| ==> InRegion(cs, home, b, list[i]))
    && (forall i, j {:trigger list[i], list[j]} :: 0 <= i < |list| && j == i + 1 < |list| ==>
          cs[list[i]].next == list[j] && cs[list[i]].End() == cs[list[j]].ptr)
    && cs[list[|list| - 1]].next == NO_CHUNK && cs[list[|list| - 1]].End() == SpanEnd(spans, b)
  }

  ghost function SizeSum(cs: seq<Chunk>, list: seq<Handle>): int
    requires forall i :: 0 <= i < |list| ==> 0 <= list[i] < |cs|
  {
    if |list| == 0 then 0 else cs[list[0]].size + SizeSum(cs, list[1..])
  }

  lemma ChunkBefore(cs: seq<Chunk>, home: map<Handle, int>, spans: map<int, int>, b: int, h: Handle, rest: seq<Handle>)
    requires InRegion(cs, home, b, h) && ChunkList(cs, home, spans, b, rest)
    requires cs[h].next == rest[0] && cs[h].End() == cs[rest[0]].ptr
    ensures ChunkList(cs, home, spans, b, [h] + rest)
    ensures SizeSum(cs, [h] + rest) == cs[h].size + SizeSum(cs, rest)
  {
    assert ([h] + rest)[1..] == rest;
  }

  /** Following next from a chunk ends, at the end of its region. */
  lemma {:induction false} WalkFrom(cs: seq<Chunk>, home: map<Handle, int>, spans: map<int, int>, b: int, h: Handle)
    returns (list: seq<Handle>)
    requires Layout(cs, home, spans, NO_CHUNK) && InRegion(cs, home, b, h)
    ensures ChunkList(cs, home, spans, b, list) && list[0] == h
    ensures SizeSum(cs, list) == SpanEnd(spans, b) - cs[h].ptr
    decreases SpanEnd(spans, b) - cs[h].ptr
  {
    PlacedAt(cs, home, spans, NO_CHUNK, h);
    if cs[h].next == NO_CHUNK {
      list := [h];
    } else {
      PlacedAt(cs, home, spans, NO_CHUNK, cs[h].next);
      var rest := WalkFrom(cs, home, spans, b, cs[h].next);
      ChunkBefore(cs, home, spans, b, h, rest);
      list := [h] + rest;
    }
  }

  lemma {:induction false} ListAscends(cs: seq<Chunk>, home: map<Handle, int>, spans: map<int, int>, b: int,
                                       list: seq<Handle>, i: nat, j: nat)
    requires Layout(cs, home, spans, NO_CHUNK) && ChunkList(cs, home, spans, b, list) && i < j < |list|
    ensures cs[list[i]].End() <= cs[list[j]].ptr && list[i] != list[j]
    decreases j - i
  {
    PlacedAt(cs, home, spans, NO_CHUNK, list[i]);
    hide Layout;
    assert cs[list[i]].End() == cs[list[i + 1]].ptr;
    if i + 1 < j {
      ListAscends(cs, home, spans, b, list, i + 1, j);
      assert cs[list[i + 1]].End() >= cs[list[i + 1]].ptr;
    }
  }

  ghost predicate CoveredOnce(cs: seq<Chunk>, home: map<Handle, int>, b: int, x: int) {
    exists h :: Covers(cs, home, b, h, x) && forall g :: Covers(cs, home, Base(home, g), g, x) ==> g == h
  }

  /**
   * Following next from the chunk in the slot of a region's base meets each of the region's chunks once,
   * their sizes add up to the region's, and each of its addresses lies in exactly one live chunk.
   */
  lemma RegionTiled(cs: seq<Chunk>, home: map<Handle, int>, spans: map<int, int>, slots: map<int, Handle>, b: int)
    returns (list: seq<Handle>)
    requires Layout(cs, home, spans, NO_CHUNK) && SlotsAgree(cs, home, slots) && FirstChunks(home, spans, slots)
    requires b in spans
    ensures ChunkList(cs, home, spans, b, list) && list[0] == SlotOf(slots, b) && cs[list[0]].ptr == b
    ensures SizeSum(cs, list) == spans[b]
    ensures forall h :: h in list <==> InRegion(cs, home, b, h)
    ensures forall i, j :: 0 <= i < j < |list| ==> list[i] != list[j]
    ensures forall x :: b <= x < b + spans[b] ==> CoveredOnce(cs, home, b, x)
  {
    var first := SlotOf(slots, b);
    assert InRegion(cs, home, b, first) && cs[first].ptr == b;
    list := WalkFrom(cs, home, spans, b, first);
    forall h | InRegion(cs, home, b, h)
      ensures h in list
    {
      PlacedAt(cs, home, spans, NO_CHUNK, h);
      var g := CoverIn(cs, home, spans, b, list, cs[h].ptr);
      assert g != h ==> Apart(cs, g, h);
    }
    forall i, j | 0 <= i < j < |list|
      ensures list[i] != list[j]
    {
      ListAscends(cs, home, spans, b, list, i, j);
    }
    forall x | b <= x < b + spans[b]
      ensures CoveredOnce(cs, home, b, x)
    {
      var h := CoverIn(cs, home, spans, b, list, x);
      CoverOnce(cs, home, spans, b, h, x);
    }
  }

  lemma CoverOnce(cs: seq<Chunk>, home: map<Handle, int>, spans: map<int, int>, b: int, h: Handle, x: int)
    requires Layout(cs, home, spans, NO_CHUNK) && Covers(cs, home, b, h, x)
    ensures CoveredOnce(cs, home, b, x)
  {
    forall g | Covers(cs, home, Base(home, g), g, x)
      ensures g == h
    {
      assert g != h ==> Apart(cs, g, h);
    }
  }

  /** The chunks of a list leave no gap. */
  lemma {:induction false} CoverIn(cs: seq<Chunk>, home: map<Handle, int>, spans: map<int, int>, b: int,
                                   list: seq<Handle>, x: int)
    returns (h: Handle)
    requires ChunkList(cs, home, spans, b, list) && cs[list[0]].ptr <= x < SpanEnd(spans, b)
    ensures Covers(cs, home, b, h, x) && h in list
    decreases list
  {
    if x < cs[list[0]].End() {
      h := list[0];
    } else {
      h := CoverIn(cs, home, spans, b, list[1..], x);
    }
  }

  // ---------------------------------------------------------------- the chunk of an address

  /** Address p lies in the first granule of the in-use chunk h. */
  ghost predicate InFirstGranule(cs: seq<Chunk>, home: map<Handle, int>, h: Handle, p: int) {
    h in home && 0 <= h < |cs| && cs[h].InUse() && cs[h].ptr <= p < cs[h].ptr + GRANULE
  }

  lemma SameGranule(b: int, at: int, p: int)
    requires (at - b) % GRANULE == 0 && at <= p < at + GRANULE
    ensures GranuleStart(b, p) == at
  {
    var n := (at - b) / GRANULE;
    assert at == b + GRANULE * n;
  }

  /** The slot of such an address names that chunk. */
  lemma FirstGranuleSlot(cs: seq<Chunk>, home: map<Handle, int>, spans: map<int, int>, slots: map<int, Handle>,
                         h: Handle, p: int)
    requires Layout(cs, home, spans, NO_CHUNK) && SlotsAgree(cs, home, slots) && InFirstGranule(cs, home, h, p)
    ensures SpanCovers(spans, Base(home, h), p) && GranuleStart(Base(home, h), p) == cs[h].ptr
    ensures SlotOf(slots, cs[h].ptr) == h
  {
    PlacedAt(cs, home, spans, NO_CHUNK, h);
    hide Layout;
    SameGranule(Base(home, h), cs[h].ptr, p);
  }
}
