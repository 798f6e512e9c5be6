/** The arena's records tell the same story as the event trace. */
module ArenaHistory {
  import opened ArenaTypes
  import opened DeviceMemory
  import opened OwnershipIndex
  import opened Regions
  import opened ArenaLayout
  import opened ArenaAccounts
  import opened ArenaTrace

  ghost predicate IsOut(trace: Trace, p: int, n: int) {
    p in Outstanding(trace) && Outstanding(trace)[p] == n
  }

  ghost predicate IsReserved(reserved: map<int, int>, p: int, n: int) {
    p in reserved && reserved[p] == n
  }

  ghost predicate InUseAt(cs: seq<Chunk>, home: map<Handle, int>, h: Handle, p: int, n: int) {
    h in home && 0 <= h < |cs| && cs[h].InUse() && cs[h].ptr == p && cs[h].size == n
  }

  /** Outstanding blocks are exactly the in-use chunks and the reserved blocks. */
  ghost predicate OutstandingAgrees(cs: seq<Chunk>, home: map<Handle, int>, reserved: map<int, int>, trace: Trace) {
    && (forall h, p, n {:trigger InUseAt(cs, home, h, p, n)} :: InUseAt(cs, home, h, p, n) ==> IsOut(trace, p, n))
    && (forall p, n {:trigger IsReserved(reserved, p, n)} :: IsReserved(reserved, p, n) ==> IsOut(trace, p, n))
    && (forall p, n {:trigger IsOut(trace, p, n)} :: IsOut(trace, p, n) ==>
          IsReserved(reserved, p, n) || exists h :: InUseAt(cs, home, h, p, n))
  }

  ghost predicate Within(cs: seq<Chunk>, home: map<Handle, int>, h: Handle, x: int) {
    h in home && 0 <= h < |cs| && cs[h].ptr <= x < cs[h].End()
  }

  /** The owner of a chunk, free or in use, is the last user of every byte of it. */
  ghost predicate UsersAgree(cs: seq<Chunk>, home: map<Handle, int>, trace: Trace, implOf: Stream -> Impl) {
    forall h, x {:trigger Within(cs, home, h, x)} :: Within(cs, home, h, x) ==>
      LastUser(trace, implOf, x) == cs[h].stream
  }

  /** The device has handed the arena exactly its regions and its reserved blocks. */
  ghost predicate BlocksAgree(blocks: map<int, int>, spans: map<int, int>, reserved: map<int, int>) {
    && PairwiseDisjoint(blocks)
    && blocks == spans + reserved
    && spans.Keys !! reserved.Keys
  }

  ghost predicate HistoryAgrees(cs: seq<Chunk>, home: map<Handle, int>, spans: map<int, int>, reserved: map<int, int>,
                                trace: Trace, implOf: Stream -> Impl) {
    && SafeTrace(trace, implOf)
    && HeldRegions(trace) == spans
    && OutstandingAgrees(cs, home, reserved, trace)
    && UsersAgree(cs, home, trace, implOf)
  }

  // ---------------------------------------------------------------- steps that no client sees

  lemma OutstandingFrame(cs: seq<Chunk>, cs': seq<Chunk>, home: map<Handle, int>, home': map<Handle, int>,
                         reserved: map<int, int>, trace: Trace)
    requires OutstandingAgrees(cs, home, reserved, trace) && SameInUse(cs, cs', home, home')
    ensures OutstandingAgrees(cs', home', reserved, trace)
  {
    forall h, p, n
      ensures InUseAt(cs, home, h, p, n) <==> InUseAt(cs', home', h, p, n)
    {
    }
  }

  /** Chunks were cut, joined or dropped, but no byte moved to a chunk with another owner. */
  ghost predicate OwnersStay(cs: seq<Chunk>, cs': seq<Chunk>, home: map<Handle, int>, home': map<Handle, int>) {
    forall h, x {:trigger Within(cs', home', h, x)} :: Within(cs', home', h, x) ==>
      exists g :: Within(cs, home, g, x) && cs[g].stream == cs'[h].stream
  }

  lemma UsersFrame(cs: seq<Chunk>, cs': seq<Chunk>, home: map<Handle, int>, home': map<Handle, int>,
                   trace: Trace, implOf: Stream -> Impl)
    requires UsersAgree(cs, home, trace, implOf) && OwnersStay(cs, cs', home, home')
    ensures UsersAgree(cs', home', trace, implOf)
  {
  }

  lemma SplitOwnersStay(cs: seq<Chunk>, cs': seq<Chunk>, home: map<Handle, int>, h: Handle, k: Handle, n: int, b: int)
    requires InRange(cs, home) && SplitOf(cs, cs', home, h, k, n) && 0 < n < cs[h].size
    requires cs'[k].stream == cs[h].stream && forall g :: g in home ==> cs'[g].stream == cs[g].stream
    ensures OwnersStay(cs, cs', home, home[k := b])
  {
    var home' := home[k := b];
    forall g, x | Within(cs', home', g, x)
      ensures exists f :: Within(cs, home, f, x) && cs[f].stream == cs'[g].stream
    {
      var f := if g == k then h else g;
      assert f in home;
      assert Within(cs, home, f, x);
    }
  }

  lemma MergeOwnersStay(cs: seq<Chunk>, cs': seq<Chunk>, home: map<Handle, int>, spans: map<int, int>, h: Handle,
                        k: Handle)
    requires Layout(cs, home, spans, NO_CHUNK) && MergeOf(cs, cs', home, h, k)
    requires cs[k].stream == cs[h].stream && forall g :: g in home && g != k ==> cs'[g].stream == cs[g].stream
    ensures OwnersStay(cs, cs', home, home - {k})
  {
    assert Placed(cs, home, spans, NO_CHUNK, h);
    var home' := home - {k};
    forall g, x | Within(cs', home', g, x)
      ensures exists f :: Within(cs, home, f, x) && cs[f].stream == cs'[g].stream
    {
      assert g in home;
      var f := if g == h && x >= cs[h].End() then k else g;
      assert Within(cs, home, f, x);
    }
  }

  lemma KeptOwnersStay(cs: seq<Chunk>, cs': seq<Chunk>, home: map<Handle, int>, home': map<Handle, int>)
    requires forall h :: h in home' && 0 <= h < |cs'| ==>
               && h in home && h < |cs|
               && cs'[h].ptr == cs[h].ptr && cs'[h].size == cs[h].size && cs'[h].stream == cs[h].stream
    ensures OwnersStay(cs, cs', home, home')
  {
    forall h, x | Within(cs', home', h, x)
      ensures exists g :: Within(cs, home, g, x) && cs[g].stream == cs'[h].stream
    {
      assert Within(cs, home, h, x);
    }
  }

  /** A step that neither a client nor the accounts can see. */
  ghost predicate Quiet(cs: seq<Chunk>, cs': seq<Chunk>, home: map<Handle, int>, home': map<Handle, int>) {
    SameInUse(cs, cs', home, home') && OwnersStay(cs, cs', home, home')
  }

  lemma QuietRefl(cs: seq<Chunk>, home: map<Handle, int>)
    requires InRange(cs, home)
    ensures Quiet(cs, cs, home, home)
  {
    KeptOwnersStay(cs, cs, home, home);
  }

  lemma QuietTrans(cs: seq<Chunk>, cs1: seq<Chunk>, cs2: seq<Chunk>,
                   home: map<Handle, int>, home1: map<Handle, int>, home2: map<Handle, int>)
    requires InRange(cs, home) && InRange(cs1, home1) && InRange(cs2, home2)
    requires Quiet(cs, cs1, home, home1) && Quiet(cs1, cs2, home1, home2)
    ensures Quiet(cs, cs2, home, home2)
  {
    forall h, x | Within(cs2, home2, h, x)
      ensures exists g :: Within(cs, home, g, x) && cs[g].stream == cs2[h].stream
    {
      var f :| Within(cs1, home1, f, x) && cs1[f].stream == cs2[h].stream;
    }
  }

  /** No live chunk belongs to a stream with the given implementation. */
  ghost predicate Disowned(cs: seq<Chunk>, home: map<Handle, int>, implOf: Stream -> Impl, impl: Impl) {
    forall h {:trigger h in home} :: h in home && 0 <= h < |cs| ==>
      cs[h].stream == NO_STREAM || implOf(cs[h].stream) != impl
  }

  lemma DisownedStays(cs: seq<Chunk>, cs': seq<Chunk>, home: map<Handle, int>, home': map<Handle, int>,
                      spans: map<int, int>, implOf: Stream -> Impl, impl: Impl)
    requires Disowned(cs, home, implOf, impl) && OwnersStay(cs, cs', home, home')
    requires Layout(cs', home', spans, NO_CHUNK)
    ensures Disowned(cs', home', implOf, impl)
  {
    forall h | h in home' && 0 <= h < |cs'|
      ensures cs'[h].stream == NO_STREAM || implOf(cs'[h].stream) != impl
    {
      ChunkInRegion(cs', home', spans, h);
      assert Within(cs', home', h, cs'[h].ptr);
    }
  }

  lemma HistoryQuiet(cs: seq<Chunk>, cs': seq<Chunk>, home: map<Handle, int>, home': map<Handle, int>,
                     spans: map<int, int>, reserved: map<int, int>, trace: Trace, implOf: Stream -> Impl)
    requires HistoryAgrees(cs, home, spans, reserved, trace, implOf) && Quiet(cs, cs', home, home')
    ensures HistoryAgrees(cs', home', spans, reserved, trace, implOf)
  {
    OutstandingFrame(cs, cs', home, home', reserved, trace);
    UsersFrame(cs, cs', home, home', trace, implOf);
  }

  // ---------------------------------------------------------------- memory a region or block may touch

  lemma ChunkInRegion(cs: seq<Chunk>, home: map<Handle, int>, spans: map<int, int>, h: Handle)
    requires Layout(cs, home, spans, NO_CHUNK) && h in home
    ensures 0 <= h < |cs| && Base(home, h) in spans && cs[h].size > 0
    ensures Base(home, h) <= cs[h].ptr && cs[h].End() <= Base(home, h) + spans[Base(home, h)]
  {
    assert Placed(cs, home, spans, NO_CHUNK, h);
  }

  lemma ReservedOutsideRegions(blocks: map<int, int>, spans: map<int, int>, reserved: map<int, int>, p: int, b: int)
    requires BlocksAgree(blocks, spans, reserved) && p in reserved && b in spans
    ensures Disjoint(p, reserved[p], b, spans[b])
  {
    assert p !in spans && b !in reserved;
    assert Disjoint(p, blocks[p], b, blocks[b]);
  }

  lemma BlocksPositive(blocks: map<int, int>, spans: map<int, int>, reserved: map<int, int>)
    requires BlocksAgree(blocks, spans, reserved)
    ensures forall b :: b in spans ==> b > 0 && spans[b] > 0
    ensures forall p :: p in reserved ==> p > 0 && reserved[p] > 0
  {
    assert forall b :: b in spans ==> b in blocks && b !in reserved;
    assert forall p :: p in reserved ==> p in blocks;
  }

  lemma UnreserveBlock(blocks: map<int, int>, spans: map<int, int>, reserved: map<int, int>, p: int)
    requires BlocksAgree(blocks, spans, reserved) && p in reserved
    ensures p in blocks && p !in spans && reserved[p] > 0 && PairwiseDisjoint(blocks)
    ensures BlocksAgree(blocks - {p}, spans, reserved - {p})
  {
    assert blocks - {p} == spans + (reserved - {p});
    assert p in blocks;
    var blocks' := blocks - {p};
    forall q, r | q in blocks' && r in blocks' && q != r
      ensures Disjoint(q, blocks'[q], r, blocks'[r])
    {
      assert Disjoint(q, blocks[q], r, blocks[r]);
    }
  }

  /** A block that overlaps nothing handed out is no region and overlaps none. */
  lemma FreshForRegions(blocks: map<int, int>, spans: map<int, int>, reserved: map<int, int>, p: int, n: int)
    requires BlocksAgree(blocks, spans, reserved) && p !in blocks
    requires forall q :: q in blocks ==> Disjoint(p, n, q, blocks[q])
    ensures p !in spans && forall c :: c in spans ==> Disjoint(c, spans[c], p, n)
  {
    forall c | c in spans
      ensures Disjoint(c, spans[c], p, n)
    {
      assert c !in reserved;
      assert Disjoint(p, n, c, blocks[c]);
    }
  }

  lemma AddBlock(blocks: map<int, int>, spans: map<int, int>, reserved: map<int, int>, p: int, n: int)
    requires BlocksAgree(blocks, spans, reserved) && p > 0 && n > 0
    requires p !in blocks && forall q :: q in blocks ==> Disjoint(p, n, q, blocks[q])
    ensures p !in spans && p !in reserved
    ensures BlocksAgree(blocks[p := n], spans[p := n], reserved)
    ensures BlocksAgree(blocks[p := n], spans, reserved[p := n])
  {
    assert p !in spans && p !in reserved;
    var blocks' := blocks[p := n];
    forall q, r | q in blocks' && r in blocks' && q != r
      ensures Disjoint(q, blocks'[q], r, blocks'[r])
    {
      if q == p {
        assert Disjoint(p, n, r, blocks[r]);
      } else if r == p {
        assert Disjoint(p, n, q, blocks[q]);
      } else {
        assert Disjoint(q, blocks[q], r, blocks[r]);
      }
    }
    assert blocks' == spans[p := n] + reserved;
    assert blocks' == spans + reserved[p := n];
  }

  lemma RemoveSpanBlock(blocks: map<int, int>, spans: map<int, int>, reserved: map<int, int>, b: int)
    requires BlocksAgree(blocks, spans, reserved) && b in spans
    ensures b in blocks && b !in reserved && spans[b] > 0 && PairwiseDisjoint(blocks)
    ensures BlocksAgree(blocks - {b}, spans - {b}, reserved)
  {
    assert blocks - {b} == (spans - {b}) + reserved;
    assert b in blocks && b !in reserved;
    var blocks' := blocks - {b};
    forall q, r | q in blocks' && r in blocks' && q != r
      ensures Disjoint(q, blocks'[q], r, blocks'[r])
    {
      assert Disjoint(q, blocks[q], r, blocks[r]);
    }
  }

  lemma ReservedIsOutstanding(cs: seq<Chunk>, home: map<Handle, int>, spans: map<int, int>, reserved: map<int, int>,
                              trace: Trace, implOf: Stream -> Impl, p: int)
    requires HistoryAgrees(cs, home, spans, reserved, trace, implOf) && p in reserved
    ensures p in Outstanding(trace)
  {
    assert IsReserved(reserved, p, reserved[p]);
  }

  lemma RegionsDisjoint(blocks: map<int, int>, spans: map<int, int>, reserved: map<int, int>, b: int, c: int)
    requires BlocksAgree(blocks, spans, reserved) && b in spans && c in spans && b != c
    ensures Disjoint(b, spans[b], c, spans[c])
  {
    assert b !in reserved && c !in reserved;
    assert Disjoint(b, blocks[b], c, blocks[c]);
  }

  /** A block clear of everything the device has handed out is clear of every outstanding block. */
  lemma FreshIsClear(cs: seq<Chunk>, home: map<Handle, int>, spans: map<int, int>, reserved: map<int, int>,
                     trace: Trace, blocks: map<int, int>, p: int, n: int)
    requires Layout(cs, home, spans, NO_CHUNK) && OutstandingAgrees(cs, home, reserved, trace)
    requires BlocksAgree(blocks, spans, reserved)
    requires forall q :: q in blocks ==> Disjoint(p, n, q, blocks[q])
    ensures ClearOf(Outstanding(trace), p, n) && ClearOf(spans, p, n)
  {
    forall q | q in Outstanding(trace)
      ensures Disjoint(q, Outstanding(trace)[q], p, n)
    {
      var m := Outstanding(trace)[q];
      assert IsOut(trace, q, m);
      if IsReserved(reserved, q, m) {
        assert Disjoint(p, n, q, blocks[q]);
      } else {
        var h :| InUseAt(cs, home, h, q, m);
        ChunkInRegion(cs, home, spans, h);
        var b := Base(home, h);
        assert b !in reserved;
        assert Disjoint(p, n, b, blocks[b]);
      }
    }
    forall b | b in spans
      ensures Disjoint(b, spans[b], p, n)
    {
      assert b !in reserved;
      assert Disjoint(p, n, b, blocks[b]);
    }
  }

  // ---------------------------------------------------------------- visible steps

  /** A free chunk, unowned or owned by t, is handed out on t. */
  lemma ClaimStep(cs: seq<Chunk>, cs': seq<Chunk>, home: map<Handle, int>, spans: map<int, int>,
                  reserved: map<int, int>,
                  blocks: map<int, int>, trace: Trace, implOf: Stream -> Impl, h: Handle, t: Stream)
    requires Layout(cs, home, spans, NO_CHUNK) && BlocksAgree(blocks, spans, reserved)
    requires HistoryAgrees(cs, home, spans, reserved, trace, implOf)
    requires h in home && !cs[h].InUse() && (cs[h].stream == NO_STREAM || cs[h].stream == t)
    requires |cs'| == |cs| && cs'[h].InUse() && cs'[h].stream == t && cs'[h].ptr == cs[h].ptr
    requires cs'[h].size == cs[h].size
    requires forall g :: 0 <= g < |cs| && g != h ==> cs'[g] == cs[g]
    ensures HistoryAgrees(cs', home, spans, reserved, Then(trace, Allocated(cs[h].ptr, cs[h].size, t)), implOf)
  {
    var p, m := cs[h].ptr, cs[h].size;
    var trace' := Then(trace, Allocated(p, m, t));
    ChunkInRegion(cs, home, spans, h);
    ClaimIsClear(cs, home, spans, reserved, blocks, trace, h);
    forall x | p <= x < p + m
      ensures LastUser(trace, implOf, x) == cs[h].stream
    {
      assert Within(cs, home, h, x);
    }
    assert SafeStep(trace, Allocated(p, m, t), implOf);
    forall g, x | Within(cs', home, g, x)
      ensures LastUser(trace', implOf, x) == cs'[g].stream
    {
      if g != h {
        assert Within(cs, home, g, x);
        assert Apart(cs, g, h);
      }
    }
    ClaimOutstanding(cs, cs', home, reserved, trace, h, t);
  }

  lemma ClaimIsClear(cs: seq<Chunk>, home: map<Handle, int>, spans: map<int, int>, reserved: map<int, int>,
                     blocks: map<int, int>, trace: Trace, h: Handle)
    requires Layout(cs, home, spans, NO_CHUNK) && BlocksAgree(blocks, spans, reserved)
    requires OutstandingAgrees(cs, home, reserved, trace)
    requires h in home && !cs[h].InUse()
    ensures ClearOf(Outstanding(trace), cs[h].ptr, cs[h].size) && cs[h].ptr !in Outstanding(trace)
  {
    ChunkInRegion(cs, home, spans, h);
    forall q | q in Outstanding(trace)
      ensures Disjoint(q, Outstanding(trace)[q], cs[h].ptr, cs[h].size) && q != cs[h].ptr
    {
      var m := Outstanding(trace)[q];
      assert IsOut(trace, q, m);
      if IsReserved(reserved, q, m) {
        ReservedOutsideRegions(blocks, spans, reserved, q, Base(home, h));
        assert q in blocks;
      } else {
        var g :| InUseAt(cs, home, g, q, m);
        assert Apart(cs, g, h);
        ChunkInRegion(cs, home, spans, g);
      }
    }
  }

  lemma ClaimOutstanding(cs: seq<Chunk>, cs': seq<Chunk>, home: map<Handle, int>, reserved: map<int, int>,
                         trace: Trace, h: Handle, t: Stream)
    requires InRange(cs, home) && OutstandingAgrees(cs, home, reserved, trace)
    requires h in home && !cs[h].InUse()
    requires cs[h].ptr !in Outstanding(trace)
    requires |cs'| == |cs| && cs'[h].InUse() && cs'[h].ptr == cs[h].ptr && cs'[h].size == cs[h].size
    requires forall g :: 0 <= g < |cs| && g != h ==> cs'[g] == cs[g]
    ensures OutstandingAgrees(cs', home, reserved, Then(trace, Allocated(cs[h].ptr, cs[h].size, t)))
  {
    var p, m := cs[h].ptr, cs[h].size;
    var trace' := Then(trace, Allocated(p, m, t));
    forall q, n
      ensures IsOut(trace', q, n) <==> IsOut(trace, q, n) || (q == p && n == m)
    {
    }
    assert InUseAt(cs', home, h, p, m);
    forall g, q, n
      ensures InUseAt(cs', home, g, q, n) <==> InUseAt(cs, home, g, q, n) || (g == h && q == p && n == m)
    {
    }
  }

  /** An outstanding chunk is returned; its owner, and so its bytes' last user, stays. */
  lemma FreeStep(cs: seq<Chunk>, cs': seq<Chunk>, home: map<Handle, int>, spans: map<int, int>, reserved: map<int, int>,
                 blocks: map<int, int>, trace: Trace, implOf: Stream -> Impl, h: Handle)
    requires Layout(cs, home, spans, NO_CHUNK) && BlocksAgree(blocks, spans, reserved)
    requires HistoryAgrees(cs, home, spans, reserved, trace, implOf)
    requires h in home && cs[h].InUse() && |cs'| == |cs| && cs'[h] == cs[h].(allocationId := NOT_ALLOCATED)
    requires forall g :: 0 <= g < |cs| && g != h ==> cs'[g] == cs[g]
    ensures HistoryAgrees(cs', home, spans, reserved, Then(trace, Freed(cs[h].ptr)), implOf)
  {
    var p := cs[h].ptr;
    var trace' := Then(trace, Freed(p));
    assert InUseAt(cs, home, h, p, cs[h].size);
    forall g, x | Within(cs', home, g, x)
      ensures LastUser(trace', implOf, x) == cs'[g].stream
    {
      assert Within(cs, home, g, x);
    }
    forall g, q, n
      ensures InUseAt(cs', home, g, q, n) <==> (InUseAt(cs, home, g, q, n) && q != p)
    {
      if InUseAt(cs, home, g, q, n) && g != h {
        ChunkInRegion(cs, home, spans, g);
        assert Apart(cs, g, h);
      }
    }
    forall q, n
      ensures IsReserved(reserved, q, n) ==> q != p
      ensures IsOut(trace', q, n) <==> (IsOut(trace, q, n) && q != p)
    {
      if IsReserved(reserved, q, n) {
        ChunkInRegion(cs, home, spans, h);
        ReservedOutsideRegions(blocks, spans, reserved, q, Base(home, h));
        assert q in blocks;
      }
    }
  }

  /** A fresh region comes in as one free, unowned chunk. */
  lemma MapStep(cs: seq<Chunk>, cs': seq<Chunk>, home: map<Handle, int>, spans: map<int, int>, reserved: map<int, int>,
                blocks: map<int, int>, trace: Trace, implOf: Stream -> Impl, h: Handle, b: int, n: int)
    requires Layout(cs, home, spans, NO_CHUNK) && BlocksAgree(blocks, spans, reserved)
    requires HistoryAgrees(cs, home, spans, reserved, trace, implOf)
    requires n > 0 && forall q :: q in blocks ==> Disjoint(b, n, q, blocks[q])
    requires h !in home && 0 <= h < |cs'| && |cs| <= |cs'| && !cs'[h].InUse()
    requires cs'[h].ptr == b && cs'[h].size == n && cs'[h].stream == NO_STREAM
    requires forall g :: g in home ==> cs'[g] == cs[g]
    ensures HistoryAgrees(cs', home[h := b], spans[b := n], reserved, Then(trace, Mapped(b, n)), implOf)
  {
    var home', trace' := home[h := b], Then(trace, Mapped(b, n));
    FreshIsClear(cs, home, spans, reserved, trace, blocks, b, n);
    forall g, x | Within(cs', home', g, x)
      ensures LastUser(trace', implOf, x) == cs'[g].stream
    {
      if g != h {
        assert Within(cs, home, g, x);
        ChunkInRegion(cs, home, spans, g);
        assert Disjoint(Base(home, g), spans[Base(home, g)], b, n);
      }
    }
    OutstandingFrame(cs, cs', home, home', reserved, trace);
    forall q, m
      ensures IsOut(trace', q, m) <==> IsOut(trace, q, m)
    {
    }
  }

  /** A region without live chunks goes back. */
  lemma UnmapStep(cs: seq<Chunk>, home: map<Handle, int>, spans: map<int, int>, reserved: map<int, int>,
                  blocks: map<int, int>, trace: Trace, implOf: Stream -> Impl, b: int)
    requires Layout(cs, home, spans, NO_CHUNK) && BlocksAgree(blocks, spans, reserved)
    requires HistoryAgrees(cs, home, spans, reserved, trace, implOf)
    requires b in spans && forall g :: g in home ==> Base(home, g) != b
    ensures HistoryAgrees(cs, home, spans - {b}, reserved, Then(trace, Unmapped(b)), implOf)
  {
    var trace' := Then(trace, Unmapped(b));
    forall q | q in Outstanding(trace)
      ensures Disjoint(q, Outstanding(trace)[q], b, spans[b])
    {
      var m := Outstanding(trace)[q];
      assert IsOut(trace, q, m);
      if IsReserved(reserved, q, m) {
        ReservedOutsideRegions(blocks, spans, reserved, q, b);
      } else {
        var g :| InUseAt(cs, home, g, q, m);
        ChunkInRegion(cs, home, spans, g);
        RegionsDisjoint(blocks, spans, reserved, Base(home, g), b);
      }
    }
    forall q, m
      ensures IsOut(trace', q, m) <==> IsOut(trace, q, m)
    {
    }
    forall g, x | Within(cs, home, g, x)
      ensures LastUser(trace', implOf, x) == cs[g].stream
    {
    }
  }

  /** A block outside the arena is handed out. */
  lemma ReserveStep(cs: seq<Chunk>, home: map<Handle, int>, spans: map<int, int>, reserved: map<int, int>,
                    blocks: map<int, int>, trace: Trace, implOf: Stream -> Impl, p: int, n: int)
    requires Layout(cs, home, spans, NO_CHUNK) && BlocksAgree(blocks, spans, reserved)
    requires HistoryAgrees(cs, home, spans, reserved, trace, implOf)
    requires n > 0 && p !in blocks && forall q :: q in blocks ==> Disjoint(p, n, q, blocks[q])
    ensures HistoryAgrees(cs, home, spans, reserved[p := n], Then(trace, Reserved(p, n)), implOf)
  {
    var trace', reserved' := Then(trace, Reserved(p, n)), reserved[p := n];
    FreshIsClear(cs, home, spans, reserved, trace, blocks, p, n);
    if p in Outstanding(trace) {
      var m := Outstanding(trace)[p];
      assert IsOut(trace, p, m);
      assert !IsReserved(reserved, p, m);
      var g :| InUseAt(cs, home, g, p, m);
      ChunkInRegion(cs, home, spans, g);
      assert false;
    }
    forall q, m
      ensures IsOut(trace', q, m) <==> (IsOut(trace, q, m) || (q == p && m == n))
      ensures IsReserved(reserved', q, m) <==> (IsReserved(reserved, q, m) || (q == p && m == n))
    {
    }
    forall g, x | Within(cs, home, g, x)
      ensures LastUser(trace', implOf, x) == cs[g].stream
    {
    }
  }

  /** A block outside the arena is returned. */
  lemma UnreserveStep(cs: seq<Chunk>, home: map<Handle, int>, spans: map<int, int>, reserved: map<int, int>,
                      blocks: map<int, int>, trace: Trace, implOf: Stream -> Impl, p: int)
    requires Layout(cs, home, spans, NO_CHUNK) && BlocksAgree(blocks, spans, reserved)
    requires HistoryAgrees(cs, home, spans, reserved, trace, implOf)
    requires p in reserved
    ensures HistoryAgrees(cs, home, spans, reserved - {p}, Then(trace, Freed(p)), implOf)
  {
    var trace', reserved' := Then(trace, Freed(p)), reserved - {p};
    assert IsReserved(reserved, p, reserved[p]);
    forall g, q, m | InUseAt(cs, home, g, q, m)
      ensures q != p
    {
      ChunkInRegion(cs, home, spans, g);
      ReservedOutsideRegions(blocks, spans, reserved, p, Base(home, g));
      assert p in blocks;
    }
    forall q, m
      ensures IsOut(trace', q, m) <==> (IsOut(trace, q, m) && q != p)
      ensures IsReserved(reserved', q, m) <==> (IsReserved(reserved, q, m) && q != p)
    {
    }
    forall g, x | Within(cs, home, g, x)
      ensures LastUser(trace', implOf, x) == cs[g].stream
    {
    }
  }

  /** Every record of a stream with the given implementation lost its owner; nothing else changed. */
  ghost predicate ReleasedFrom(cs: seq<Chunk>, cs': seq<Chunk>, implOf: Stream -> Impl, impl: Impl) {
    && |cs'| == |cs|
    && forall h {:trigger cs'[h]} :: 0 <= h < |cs| ==>
         cs'[h] == if cs[h].stream != NO_STREAM && implOf(cs[h].stream) == impl then cs[h].(stream := NO_STREAM)
                   else cs[h]
  }

  /** A released stream's chunks become unowned. */
  lemma ReleaseStep(cs: seq<Chunk>, cs': seq<Chunk>, home: map<Handle, int>, spans: map<int, int>,
                    reserved: map<int, int>, trace: Trace, implOf: Stream -> Impl, impl: Impl)
    requires HistoryAgrees(cs, home, spans, reserved, trace, implOf) && ReleasedFrom(cs, cs', implOf, impl)
    ensures HistoryAgrees(cs', home, spans, reserved, Then(trace, Released(impl)), implOf)
  {
    var trace' := Then(trace, Released(impl));
    OutstandingFrame(cs, cs', home, home, reserved, trace);
    forall q, m
      ensures IsOut(trace', q, m) <==> IsOut(trace, q, m)
    {
    }
    forall g, x | Within(cs', home, g, x)
      ensures LastUser(trace', implOf, x) == cs'[g].stream
    {
      assert Within(cs, home, g, x);
    }
  }
}
