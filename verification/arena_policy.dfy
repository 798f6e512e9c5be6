/** What holds between operations: no seams left to merge, and tight fits. */
module ArenaPolicy {
  import opened ArenaTypes
  import opened Regions
  import opened ArenaLayout

  /** Neighbours that coalescing would join. */
  predicate CanMerge(c: Chunk, d: Chunk) {
    !c.InUse() && !d.InUse() && c.stream == d.stream
  }

  /** Chunk a ends at address p, and both it and its successor there are free and of one owner, or unowned. */
  ghost predicate SeamAt(cs: seq<Chunk>, home: map<Handle, int>, a: Handle, p: int) {
    && a in home && 0 <= a < |cs| && 0 <= cs[a].next < |cs| && cs[a].End() == p
    && cs[a].allocationId == NOT_ALLOCATED && cs[cs[a].next].allocationId == NOT_ALLOCATED
    && cs[a].stream == cs[cs[a].next].stream
  }

  ghost predicate Seam(cs: seq<Chunk>, home: map<Handle, int>, p: int) {
    exists a :: SeamAt(cs, home, a, p)
  }

  ghost predicate NoSeamBelow(cs: seq<Chunk>, home: map<Handle, int>, limit: int) {
    forall p {:trigger Seam(cs, home, p)} :: Seam(cs, home, p) ==> p >= limit
  }

  /** No two adjacent free chunks of a region have the same owner. */
  ghost predicate Coalesced(cs: seq<Chunk>, home: map<Handle, int>) {
    forall p {:trigger Seam(cs, home, p)} :: !Seam(cs, home, p)
  }

  lemma NoSeams(cs: seq<Chunk>, home: map<Handle, int>)
    requires Coalesced(cs, home)
    ensures forall p :: !Seam(cs, home, p)
  {
  }

  /** Seams survive a change of record fields that leaves links, freeness and owners alone. */
  lemma SeamFrame(cs: seq<Chunk>, cs': seq<Chunk>, home: map<Handle, int>, spans: map<int, int>)
    requires Layout(cs, home, spans, NO_CHUNK) && LinksKept(cs, cs', home)
    requires forall h :: h in home ==> cs'[h].InUse() == cs[h].InUse() && cs'[h].stream == cs[h].stream
    ensures forall p :: Seam(cs', home, p) <==> Seam(cs, home, p)
  {
    forall a, p
      ensures SeamAt(cs', home, a, p) <==> SeamAt(cs, home, a, p)
    {
      if a in home {
        assert Placed(cs, home, spans, NO_CHUNK, a);
      }
    }
  }

  /** Where a seam is, the chunk starting there is the successor of the chunk ending there. */
  lemma SeamNeighbours(cs: seq<Chunk>, home: map<Handle, int>, spans: map<int, int>, a: Handle, h: Handle, p: int)
    requires Layout(cs, home, spans, NO_CHUNK) && SeamAt(cs, home, a, p) && h in home
    ensures cs[h].ptr == p ==> cs[a].next == h && cs[h].prev == a
    ensures cs[h].End() == p ==> a == h
    ensures !(cs[h].ptr < p < cs[h].End())
  {
    assert Placed(cs, home, spans, NO_CHUNK, a);
    assert Placed(cs, home, spans, NO_CHUNK, h);
    var n := cs[a].next;
    if a != h {
      assert Apart(cs, a, h);
    }
    if n != h {
      assert Apart(cs, n, h);
    }
    assert Placed(cs, home, spans, NO_CHUNK, n);
  }

  /** Past an in-use chunk there is no seam before its end. */
  lemma SeamsPastUsed(cs: seq<Chunk>, home: map<Handle, int>, spans: map<int, int>, h: Handle)
    requires Layout(cs, home, spans, NO_CHUNK) && h in home && 0 <= h < |cs| && cs[h].InUse()
    requires NoSeamBelow(cs, home, cs[h].ptr)
    ensures NoSeamBelow(cs, home, cs[h].End())
  {
    forall p | Seam(cs, home, p)
      ensures p >= cs[h].End()
    {
      var a :| SeamAt(cs, home, a, p);
      SeamNeighbours(cs, home, spans, a, h, p);
    }
  }

  /** If coalescing at address at left no seam there, none is left before the end of the result. */
  lemma SeamsPastFree(cs: seq<Chunk>, home: map<Handle, int>, spans: map<int, int>, r: Handle, at: int)
    requires Layout(cs, home, spans, NO_CHUNK) && r in home && 0 <= r < |cs| && cs[r].ptr <= at
    requires forall p :: Seam(cs, home, p) ==> p > at
    ensures NoSeamBelow(cs, home, cs[r].End())
  {
    forall p | Seam(cs, home, p)
      ensures p >= cs[r].End()
    {
      var a :| SeamAt(cs, home, a, p);
      SeamNeighbours(cs, home, spans, a, r, p);
    }
  }

  /** A seam lies strictly inside a region. */
  lemma SeamInRegion(cs: seq<Chunk>, home: map<Handle, int>, spans: map<int, int>, p: int) returns (b: int)
    requires Layout(cs, home, spans, NO_CHUNK) && Seam(cs, home, p)
    ensures b in spans && b < p < b + spans[b]
  {
    var a :| SeamAt(cs, home, a, p);
    assert Placed(cs, home, spans, NO_CHUNK, a);
    assert Placed(cs, home, spans, NO_CHUNK, cs[a].next);
    b := Base(home, a);
  }

  lemma NoSeamAfter(cs: seq<Chunk>, home: map<Handle, int>, spans: map<int, int>, h: Handle)
    requires Layout(cs, home, spans, NO_CHUNK) && h in home && 0 <= h < |cs|
    requires 0 <= cs[h].next < |cs| ==> !CanMerge(cs[cs[h].next], cs[h])
    ensures !Seam(cs, home, cs[h].End())
  {
    forall a
      ensures !SeamAt(cs, home, a, cs[h].End())
    {
      if SeamAt(cs, home, a, cs[h].End()) {
        SeamNeighbours(cs, home, spans, a, h, cs[h].End());
      }
    }
  }

  lemma NoSeamBefore(cs: seq<Chunk>, home: map<Handle, int>, spans: map<int, int>, h: Handle)
    requires Layout(cs, home, spans, NO_CHUNK) && h in home && 0 <= h < |cs|
    requires 0 <= cs[h].prev < |cs| ==> !CanMerge(cs[cs[h].prev], cs[h])
    ensures !Seam(cs, home, cs[h].ptr)
  {
    forall a
      ensures !SeamAt(cs, home, a, cs[h].ptr)
    {
      if SeamAt(cs, home, a, cs[h].ptr) {
        SeamNeighbours(cs, home, spans, a, h, cs[h].ptr);
      }
    }
  }

  /** Merging h with its successor k removes their seam and adds none. */
  lemma MergeSeams(cs: seq<Chunk>, cs': seq<Chunk>, home: map<Handle, int>, spans: map<int, int>, h: Handle, k: Handle)
    requires Layout(cs, home, spans, NO_CHUNK) && MergeOf(cs, cs', home, h, k)
    requires Layout(cs', home - {k}, spans, NO_CHUNK)
    requires CanMerge(cs[h], cs[k])
    requires forall g :: g in home && g != k ==> cs'[g].InUse() == cs[g].InUse() && cs'[g].stream == cs[g].stream
    ensures forall p :: Seam(cs', home - {k}, p) ==> Seam(cs, home, p) && p != cs[k].ptr
  {
    var home' := home - {k};
    assert Placed(cs, home, spans, NO_CHUNK, h);
    assert Placed(cs, home, spans, NO_CHUNK, k);
    forall a, p | SeamAt(cs', home', a, p)
      ensures Seam(cs, home, p) && p != cs[k].ptr
    {
      SeamNeighbours(cs', home', spans, a, h, p);
      assert Placed(cs, home, spans, NO_CHUNK, a);
      if a == h {
        assert SeamAt(cs, home, k, p);
      } else {
        assert SeamAt(cs, home, a, p);
      }
    }
  }

  /** A chunk taken into use has no seams; cutting off its tail first adds none. */
  lemma ClaimKeepsCoalesced(cs: seq<Chunk>, cs': seq<Chunk>, home: map<Handle, int>, spans: map<int, int>, h: Handle)
    requires Layout(cs, home, spans, NO_CHUNK) && LinksKept(cs, cs', home) && h in home && cs'[h].InUse()
    requires forall g :: g in home && g != h ==> cs'[g].InUse() == cs[g].InUse() && cs'[g].stream == cs[g].stream
    requires forall p :: Seam(cs, home, p) ==> p == cs[h].End()
    ensures Coalesced(cs', home)
  {
    forall a, p
      ensures !SeamAt(cs', home, a, p)
    {
      if SeamAt(cs', home, a, p) {
        assert Placed(cs, home, spans, NO_CHUNK, a);
        assert SeamAt(cs, home, a, p);
        assert Seam(cs, home, p);
        SeamNeighbours(cs, home, spans, a, h, p);
      }
    }
  }

  /** Cutting h in two adds a seam only at the cut. */
  lemma SplitSeams(cs: seq<Chunk>, cs': seq<Chunk>, home: map<Handle, int>, spans: map<int, int>,
                   h: Handle, k: Handle, n: int)
    requires Layout(cs, home, spans, NO_CHUNK) && SplitOf(cs, cs', home, h, k, n) && 0 < n < cs[h].size
    requires cs'[k].InUse() == cs[h].InUse() && cs'[k].stream == cs[h].stream
    requires forall g :: g in home ==> cs'[g].InUse() == cs[g].InUse() && cs'[g].stream == cs[g].stream
    ensures forall p :: Seam(cs', home[k := Base(home, h)], p) ==> Seam(cs, home, p) || p == cs'[k].ptr
  {
    var home' := home[k := Base(home, h)];
    assert Placed(cs, home, spans, NO_CHUNK, h);
    forall a, p | SeamAt(cs', home', a, p) && p != cs'[k].ptr
      ensures Seam(cs, home, p)
    {
      if a == k {
        assert SeamAt(cs, home, h, p);
      } else {
        assert Placed(cs, home, spans, NO_CHUNK, a);
        assert SeamAt(cs, home, a, p);
      }
    }
  }

  /** A region that comes in as one chunk has no seam. */
  lemma AddRegionSeams(cs: seq<Chunk>, cs': seq<Chunk>, home: map<Handle, int>, spans: map<int, int>, h: Handle, b: int)
    requires Layout(cs, home, spans, NO_CHUNK) && |cs| <= |cs'|
    requires forall g :: g in home ==> cs'[g] == cs[g]
    requires h !in home && 0 <= h < |cs'| && cs'[h].next == NO_CHUNK
    requires Coalesced(cs, home)
    ensures Coalesced(cs', home[h := b])
  {
    var home' := home[h := b];
    forall a, p
      ensures !SeamAt(cs', home', a, p)
    {
      if SeamAt(cs', home', a, p) {
        assert Placed(cs, home, spans, NO_CHUNK, a);
        assert SeamAt(cs, home, a, p);
        assert Seam(cs, home, p);
      }
    }
  }

  /** Dropping whole regions opens no seam. */
  lemma SubsetCoalesced(cs: seq<Chunk>, cs': seq<Chunk>, home: map<Handle, int>, home': map<Handle, int>,
                        spans: map<int, int>)
    requires Coalesced(cs, home) && SubsetOf(cs, cs', home, home') && Layout(cs', home', spans, NO_CHUNK)
    ensures Coalesced(cs', home')
  {
    forall a, p
      ensures !SeamAt(cs', home', a, p)
    {
      if SeamAt(cs', home', a, p) {
        assert Placed(cs', home', spans, NO_CHUNK, a);
        assert SeamAt(cs, home, a, p);
        assert Seam(cs, home, p);
      }
    }
  }

  // ---------------------------------------------------------------- internal fragmentation

  /**
   * The waste inside an allocated chunk, over its rounded request, is below both the rounded
   * request itself and the configured bound.
   */
  predicate Tight(c: Chunk, maxDead: int) {
    var rounded := RoundedBytes(c.requestedSize);
    && 0 < c.requestedSize <= rounded <= c.size
    && c.size - rounded < rounded && c.size - rounded < maxDead
  }

  ghost predicate AllTight(cs: seq<Chunk>, home: map<Handle, int>, maxDead: int) {
    forall h {:trigger h in home} :: h in home && 0 <= h < |cs| && cs[h].InUse() ==> Tight(cs[h], maxDead)
  }
}
