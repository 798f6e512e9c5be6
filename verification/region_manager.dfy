/** Sorted address regions with one handle slot per granule, found by binary search. */
module Regions {
  import opened ArenaTypes
  import opened Options
  import opened DeviceMemory

  /** p starts a granule of the block at ptr. */
  predicate IsGranule(ptr: int, size: int, p: int) {
    ptr <= p < ptr + size && (p - ptr) % GRANULE == 0
  }

  datatype AllocationRegion = AllocationRegion(ptr: int, memorySize: int, id: int, handles: seq<Handle>) {
    function End(): int {
      ptr + memorySize
    }

    predicate Covers(p: int) {
      ptr <= p < End()
    }

    /** p starts a granule of this region. */
    predicate At(p: int) {
      IsGranule(ptr, memorySize, p)
    }

    ghost predicate WellFormed() {
      memorySize > 0 && memorySize % GRANULE == 0 && |handles| == memorySize / GRANULE
    }

    function IndexFor(p: int): (i: int)
      requires WellFormed() && Covers(p)
      ensures 0 <= i < |handles|
    {
      (p - ptr) / GRANULE
    }

    function HandleFor(p: int): Handle
      requires WellFormed() && Covers(p)
    {
      handles[IndexFor(p)]
    }
  }

  /** Start of the granule of the region based at b that contains p. */
  function GranuleStart(b: int, p: int): int {
    b + (p - b) / GRANULE * GRANULE
  }

  /** Only handles differ. */
  ghost predicate SameRegions(regions: seq<AllocationRegion>, regions': seq<AllocationRegion>) {
    && |regions'| == |regions|
    && forall i :: 0 <= i < |regions| ==>
         regions'[i].ptr == regions[i].ptr && regions'[i].memorySize == regions[i].memorySize
  }

  lemma SameRegionsRefl(regions: seq<AllocationRegion>)
    ensures SameRegions(regions, regions)
  {
  }

  lemma GranuleStartExact(b: int, p: int)
    requires (p - b) % GRANULE == 0
    ensures GranuleStart(b, p) == p
  {
  }

  ghost predicate IsSpan(spans: map<int, int>, b: int, n: int) {
    b in spans && spans[b] == n
  }

  ghost predicate SpanCovers(spans: map<int, int>, b: int, p: int) {
    b in spans && b <= p < b + spans[b]
  }

  ghost predicate HasSlot(slots: map<int, Handle>, p: int, h: Handle) {
    p in slots && slots[p] == h
  }

  ghost function FreshSlots(ptr: int, size: int): map<int, Handle> {
    map p {:trigger IsGranule(ptr, size, p)} | ptr <= p < ptr + size && IsGranule(ptr, size, p) :: NO_CHUNK
  }

  ghost predicate Sorted(regions: seq<AllocationRegion>) {
    && (forall i {:trigger regions[i]} :: 0 <= i < |regions| ==> regions[i].WellFormed())
    && (forall i, j {:trigger regions[i], regions[j]} ::
          0 <= i < j < |regions| ==> regions[i].End() <= regions[j].ptr)
  }

  ghost predicate IsRegion(regions: seq<AllocationRegion>, i: int, b: int, n: int) {
    0 <= i < |regions| && regions[i].ptr == b && regions[i].memorySize == n
  }

  /** Address p is the start of granule number regions[i].IndexFor(p) of region i. */
  ghost predicate IsSlot(regions: seq<AllocationRegion>, i: int, p: int) {
    0 <= i < |regions| && regions[i].At(p)
  }

  ghost predicate SpanTable(regions: seq<AllocationRegion>, spans: map<int, int>) {
    && (forall i, b, n {:trigger IsRegion(regions, i, b, n)} :: IsRegion(regions, i, b, n) ==> IsSpan(spans, b, n))
    && (forall b, n {:trigger IsSpan(spans, b, n)} :: IsSpan(spans, b, n) ==> exists i :: IsRegion(regions, i, b, n))
  }

  ghost predicate SlotTable(regions: seq<AllocationRegion>, slots: map<int, Handle>)
    requires Sorted(regions)
  {
    && (forall i, p {:trigger IsSlot(regions, i, p)} :: IsSlot(regions, i, p) ==>
          HasSlot(slots, p, regions[i].HandleFor(p)))
    && (forall p {:trigger p in slots} :: p in slots ==> exists i :: IsSlot(regions, i, p))
  }

  /** spans and slots are the region list read as two address maps. */
  ghost predicate Tables(regions: seq<AllocationRegion>, spans: map<int, int>, slots: map<int, Handle>) {
    Sorted(regions) && SpanTable(regions, spans) && SlotTable(regions, slots)
  }

  lemma GranuleIsSlot(r: AllocationRegion, p: int)
    requires r.WellFormed() && r.Covers(p)
    ensures r.At(GranuleStart(r.ptr, p)) && r.IndexFor(GranuleStart(r.ptr, p)) == r.IndexFor(p)
  {
  }

  lemma DistinctSlots(r: AllocationRegion, p: int, q: int)
    requires r.WellFormed() && r.At(p) && r.At(q) && p != q
    ensures r.IndexFor(p) != r.IndexFor(q)
  {
  }

  lemma OneRegionPerAddress(regions: seq<AllocationRegion>, i: int, j: int, p: int)
    requires Sorted(regions) && 0 <= i < |regions| && 0 <= j < |regions|
    requires regions[i].Covers(p) && regions[j].Covers(p)
    ensures i == j
  {
  }

  lemma EndsInOrder(regions: seq<AllocationRegion>, i: int, j: int)
    requires Sorted(regions) && 0 <= i <= j < |regions|
    ensures regions[i].ptr <= regions[j].ptr && regions[i].End() <= regions[j].End()
  {
    assert regions[i].WellFormed() && regions[j].WellFormed();
  }

  lemma SetKeepsSlots(regions: seq<AllocationRegion>, slots: map<int, Handle>, i: nat, p: int, h: Handle)
    requires Sorted(regions) && SlotTable(regions, slots)
    requires i < |regions| && regions[i].Covers(p)
    ensures var r := regions[i];
            var regions' := regions[i := r.(handles := r.handles[r.IndexFor(p) := h])];
            Sorted(regions') && SlotTable(regions', slots[GranuleStart(r.ptr, p) := h])
  {
    var r := regions[i];
    var g := GranuleStart(r.ptr, p);
    GranuleIsSlot(r, p);
    var r' := r.(handles := r.handles[r.IndexFor(p) := h]);
    var regions' := regions[i := r'];
    var slots' := slots[g := h];
    assert Sorted(regions');
    forall j, q | IsSlot(regions', j, q)
      ensures HasSlot(slots', q, regions'[j].HandleFor(q))
    {
      assert IsSlot(regions, j, q);
      if j == i && q != g {
        DistinctSlots(r, q, g);
      } else if j != i && q == g {
        OneRegionPerAddress(regions, i, j, q);
      }
    }
    forall q | q in slots'
      ensures exists j :: IsSlot(regions', j, q)
    {
      if q == g {
        assert IsSlot(regions', i, q);
      } else {
        var j :| IsSlot(regions, j, q);
        assert IsSlot(regions', j, q);
      }
    }
  }

  lemma SetKeepsSpans(regions: seq<AllocationRegion>, spans: map<int, int>, i: nat, r': AllocationRegion)
    requires SpanTable(regions, spans)
    requires i < |regions| && r'.ptr == regions[i].ptr && r'.memorySize == regions[i].memorySize
    ensures SpanTable(regions[i := r'], spans)
  {
    var regions' := regions[i := r'];
    forall j, b, n
      ensures IsRegion(regions', j, b, n) <==> IsRegion(regions, j, b, n)
    {
    }
  }

  ghost predicate Inserted(regions: seq<AllocationRegion>, i: nat, r: AllocationRegion, regions': seq<AllocationRegion>)
    requires i <= |regions|
  {
    && |regions'| == |regions| + 1 && regions'[i] == r
    && (forall j {:trigger regions[j]} :: 0 <= j < i ==> regions'[j] == regions[j])
    && (forall j {:trigger regions[j]} :: i <= j < |regions| ==> regions'[j + 1] == regions[j])
  }

  lemma InsertKeepsSorted(regions: seq<AllocationRegion>, i: nat, r: AllocationRegion)
    requires Sorted(regions) && i <= |regions| && r.WellFormed()
    requires forall j :: 0 <= j < i ==> regions[j].End() <= r.ptr
    requires forall j :: i <= j < |regions| ==> r.End() <= regions[j].ptr
    ensures Sorted(regions[..i] + [r] + regions[i..])
  {
    var regions' := regions[..i] + [r] + regions[i..];
    forall j, k | 0 <= j < k < |regions'|
      ensures regions'[j].End() <= regions'[k].ptr
    {
      assert j != i ==> regions'[j] == regions[if j < i then j else j - 1];
      assert k != i ==> regions'[k] == regions[if k < i then k else k - 1];
    }
  }

  lemma InsertKeepsSpans(regions: seq<AllocationRegion>, spans: map<int, int>, i: nat, r: AllocationRegion)
    requires SpanTable(regions, spans) && i <= |regions| && r.ptr !in spans
    ensures SpanTable(regions[..i] + [r] + regions[i..], spans[r.ptr := r.memorySize])
  {
    var regions' := regions[..i] + [r] + regions[i..];
    var spans' := spans[r.ptr := r.memorySize];
    forall j, b, n | IsRegion(regions', j, b, n)
      ensures IsSpan(spans', b, n)
    {
      if j != i {
        assert IsRegion(regions, if j < i then j else j - 1, b, n);
        assert IsSpan(spans, b, n);
      }
    }
    forall b, n | IsSpan(spans', b, n)
      ensures exists j :: IsRegion(regions', j, b, n)
    {
      if b == r.ptr {
        assert IsRegion(regions', i, b, n);
      } else {
        assert IsSpan(spans, b, n);
        var j :| IsRegion(regions, j, b, n);
        assert IsRegion(regions', if j < i then j else j + 1, b, n);
      }
    }
  }

  lemma InsertKeepsSlots(regions: seq<AllocationRegion>, slots: map<int, Handle>, i: nat, r: AllocationRegion)
    requires Sorted(regions) && SlotTable(regions, slots) && i <= |regions| && r.WellFormed()
    requires forall j :: 0 <= j < |r.handles| ==> r.handles[j] == NO_CHUNK
    requires Sorted(regions[..i] + [r] + regions[i..])
    ensures SlotTable(regions[..i] + [r] + regions[i..], slots + FreshSlots(r.ptr, r.memorySize))
  {
    var regions' := regions[..i] + [r] + regions[i..];
    var slots' := slots + FreshSlots(r.ptr, r.memorySize);
    assert forall q :: q in FreshSlots(r.ptr, r.memorySize) <==> r.At(q);
    hide IsGranule;
    assert regions'[i] == r;
    forall j, q | IsSlot(regions', j, q)
      ensures HasSlot(slots', q, regions'[j].HandleFor(q))
    {
      if j != i {
        assert IsSlot(regions, if j < i then j else j - 1, q);
        if r.At(q) {
          OneRegionPerAddress(regions', i, j, q);
        }
      }
    }
    forall q | q in slots'
      ensures exists j :: IsSlot(regions', j, q)
    {
      if r.At(q) {
        assert IsSlot(regions', i, q);
      } else {
        assert q in slots;
        var j :| IsSlot(regions, j, q);
        assert IsSlot(regions', if j < i then j else j + 1, q);
      }
    }
  }

  lemma RemoveKeepsSpans(regions: seq<AllocationRegion>, spans: map<int, int>, i: nat)
    requires Sorted(regions) && SpanTable(regions, spans) && i < |regions|
    ensures Sorted(regions[..i] + regions[i + 1..])
    ensures SpanTable(regions[..i] + regions[i + 1..], spans - {regions[i].ptr})
  {
    var r := regions[i];
    var regions' := regions[..i] + regions[i + 1..];
    var spans' := spans - {r.ptr};
    forall j, b, n | IsRegion(regions', j, b, n)
      ensures IsSpan(spans', b, n)
    {
      var j0 := if j < i then j else j + 1;
      assert IsRegion(regions, j0, b, n);
      assert IsSpan(spans, b, n);
      assert regions[j0].Covers(b);
      assert regions[i].Covers(r.ptr);
    }
    forall b, n | IsSpan(spans', b, n)
      ensures exists j :: IsRegion(regions', j, b, n)
    {
      assert IsSpan(spans, b, n);
      var j :| IsRegion(regions, j, b, n);
      assert IsRegion(regions', if j < i then j else j - 1, b, n);
    }
  }

  lemma RemoveKeepsSlots(regions: seq<AllocationRegion>, slots: map<int, Handle>, i: nat)
    requires Sorted(regions) && SlotTable(regions, slots) && i < |regions|
    requires Sorted(regions[..i] + regions[i + 1..])
    ensures SlotTable(regions[..i] + regions[i + 1..], map p | p in slots && !regions[i].At(p) :: slots[p])
  {
    var r := regions[i];
    var regions' := regions[..i] + regions[i + 1..];
    var slots' := map p | p in slots && !r.At(p) :: slots[p];
    hide IsGranule;
    forall j, q | IsSlot(regions', j, q)
      ensures HasSlot(slots', q, regions'[j].HandleFor(q))
    {
      var j0 := if j < i then j else j + 1;
      assert IsSlot(regions, j0, q);
      if r.At(q) {
        OneRegionPerAddress(regions, i, j0, q);
      }
    }
    forall q | q in slots'
      ensures exists j :: IsSlot(regions', j, q)
    {
      var j :| IsSlot(regions, j, q);
      assert IsSlot(regions', if j < i then j else j - 1, q);
    }
  }

  class RegionManager {
    var regions: seq<AllocationRegion>

    /** Region sizes by base address, and the handle of every granule, as address maps. */
    ghost var spans: map<int, int>
    ghost var slots: map<int, Handle>

    ghost predicate Valid()
      reads this
    {
      Tables(regions, spans, slots)
    }

    constructor ()
      ensures Valid() && regions == [] && spans == map[] && slots == map[]
    {
      regions := [];
      spans := map[];
      slots := map[];
    }

    /** First region that ends above p. */
    method UpperBound(p: int) returns (first: nat)
      requires Valid()
      ensures first <= |regions|
      ensures forall i :: 0 <= i < first ==> regions[i].End() <= p
      ensures forall i :: first <= i < |regions| ==> p < regions[i].End()
    {
      first := 0;
      var count := |regions|;
      while count > 0
        invariant 0 <= count && first + count <= |regions|
        invariant forall i :: 0 <= i < first ==> regions[i].End() <= p
        invariant forall i :: first + count <= i < |regions| ==> p < regions[i].End()
      {
        var step := count / 2;
        var middle := regions[first + step];
        if p < middle.End() {
          count := step;
        } else {
          first := first + step + 1;
          count := count - step - 1;
        }
      }
    }

    /** The one region that covers p; fails exactly when none does. */
    method RegionFor(p: int) returns (found: Option<nat>)
      requires Valid()
      ensures found.Some? ==> found.value < |regions| && regions[found.value].Covers(p)
      ensures found.Some? <==> exists b :: SpanCovers(spans, b, p)
    {
      var entry := UpperBound(p);
      if entry == |regions| || p < regions[entry].ptr {
        found := None;
        forall b
          ensures !SpanCovers(spans, b, p)
        {
          if SpanCovers(spans, b, p) {
            var i := CoveringRegion(b, p);
          }
        }
      } else {
        found := Some(entry);
        assert IsRegion(regions, entry, regions[entry].ptr, regions[entry].memorySize);
        assert SpanCovers(spans, regions[entry].ptr, p);
      }
    }

    /** Any address of a granule reads that granule's slot; an address in no region fails. */
    method GetHandle(p: int) returns (found: Option<Handle>)
      requires Valid()
      ensures found.Some? <==> exists b :: SpanCovers(spans, b, p)
      ensures forall b :: SpanCovers(spans, b, p) ==>
        found.Some? && HasSlot(slots, GranuleStart(b, p), found.value)
    {
      var entry := RegionFor(p);
      match entry {
        case None => found := None;
        case Some(i) =>
          var r := regions[i];
          found := Some(r.handles[r.IndexFor(p)]);
          CoverUnique(i, p);
          GranuleIsSlot(r, p);
          assert IsSlot(regions, i, GranuleStart(r.ptr, p));
      }
    }

    method SetHandle(p: int, h: Handle) returns (ok: bool)
      requires Valid()
      modifies this
      ensures Valid() && spans == old(spans)
      ensures ok <==> exists b :: SpanCovers(spans, b, p)
      ensures forall b :: SpanCovers(spans, b, p) ==> slots == old(slots)[GranuleStart(b, p) := h]
      ensures !ok ==> slots == old(slots)
      ensures SameRegions(old(regions), regions)
    {
      var entry := RegionFor(p);
      if entry.None? {
        return false;
      }
      var i := entry.value;
      var r := regions[i];
      CoverUnique(i, p);
      SetKeepsSlots(regions, slots, i, p, h);
      SetKeepsSpans(regions, spans, i, r.(handles := r.handles[r.IndexFor(p) := h]));
      slots := slots[GranuleStart(r.ptr, p) := h];
      regions := regions[i := r.(handles := r.handles[r.IndexFor(p) := h])];
      return true;
    }

    method Erase(p: int) returns (ok: bool)
      requires Valid()
      modifies this
      ensures Valid() && spans == old(spans)
      ensures ok <==> exists b :: SpanCovers(spans, b, p)
      ensures forall b :: SpanCovers(spans, b, p) ==> slots == old(slots)[GranuleStart(b, p) := NO_CHUNK]
      ensures !ok ==> slots == old(slots)
      ensures SameRegions(old(regions), regions)
    {
      ok := SetHandle(p, NO_CHUNK);
    }

    /** Enter a block that overlaps no region; a size that is no whole number of granules fails. */
    method AddAllocationRegion(ptr: int, memorySize: int, id: int) returns (ok: bool)
      requires Valid() && memorySize > 0
      requires forall b :: b in spans ==> Disjoint(b, spans[b], ptr, memorySize)
      modifies this
      ensures Valid()
      ensures ok <==> memorySize % GRANULE == 0
      ensures ok ==> spans == old(spans)[ptr := memorySize] && slots == old(slots) + FreshSlots(ptr, memorySize)
      ensures !ok ==> regions == old(regions) && spans == old(spans) && slots == old(slots)
    {
      var entry := UpperBound(ptr);
      if memorySize % GRANULE != 0 {
        return false;
      }
      var region := AllocationRegion(ptr, memorySize, id, seq(memorySize / GRANULE, _ => NO_CHUNK));
      forall j | 0 <= j < |regions|
        ensures Disjoint(regions[j].ptr, regions[j].memorySize, ptr, memorySize)
      {
        assert IsRegion(regions, j, regions[j].ptr, regions[j].memorySize);
        assert IsSpan(spans, regions[j].ptr, regions[j].memorySize);
      }
      assert ptr in spans ==> Disjoint(ptr, spans[ptr], ptr, memorySize) && IsSpan(spans, ptr, spans[ptr]);
      InsertKeepsSorted(regions, entry, region);
      InsertKeepsSpans(regions, spans, entry, region);
      InsertKeepsSlots(regions, slots, entry, region);
      regions := regions[..entry] + [region] + regions[entry..];
      spans := spans[ptr := memorySize];
      slots := slots + FreshSlots(ptr, memorySize);
      return true;
    }

    /** Drop the first region that ends above ptr; for a region's base that is the region itself. */
    method RemoveAllocationRegion(ptr: int) returns (ok: bool, ghost k: nat)
      requires Valid()
      modifies this
      ensures Valid()
      ensures old(ptr in spans) ==>
        && ok && spans == old(spans) - {ptr}
        && slots == map p | p in old(slots) && !IsGranule(ptr, old(spans)[ptr], p) :: old(slots)[p]
      ensures k <= |old(regions)| && (forall i :: 0 <= i < k ==> old(regions)[i].End() <= ptr)
      ensures ok <==> k < |old(regions)|
      ensures ok ==>
        && ptr < old(regions)[k].End() && spans == old(spans) - {old(regions)[k].ptr}
        && regions == old(regions)[..k] + old(regions)[k + 1..]
      ensures !ok ==> regions == old(regions) && spans == old(spans) && slots == old(slots)
    {
      var entry := UpperBound(ptr);
      k := entry;
      if ptr in spans {
        BaseIsUpperBound(ptr, entry);
      }
      if entry == |regions| {
        ok := false;
        return;
      }
      hide IsGranule;
      var r := regions[entry];
      RemoveKeepsSpans(regions, spans, entry);
      RemoveKeepsSlots(regions, slots, entry);
      slots := map p | p in slots && !r.At(p) :: slots[p];
      spans := spans - {r.ptr};
      regions := regions[..entry] + regions[entry + 1..];
      ok := true;
    }

    lemma CoveringRegion(b: int, p: int) returns (i: nat)
      requires Valid() && SpanCovers(spans, b, p)
      ensures i < |regions| && regions[i].ptr == b && regions[i].Covers(p)
    {
      assert IsSpan(spans, b, spans[b]);
      i :| IsRegion(regions, i, b, spans[b]);
    }

    lemma BaseIsUpperBound(ptr: int, entry: nat)
      requires Valid() && ptr in spans && entry <= |regions|
      requires forall i :: 0 <= i < entry ==> regions[i].End() <= ptr
      requires forall i :: entry <= i < |regions| ==> ptr < regions[i].End()
      ensures entry < |regions| && regions[entry].ptr == ptr && regions[entry].memorySize == spans[ptr]
    {
      assert IsSpan(spans, ptr, spans[ptr]);
      var i :| IsRegion(regions, i, ptr, spans[ptr]);
      assert regions[i].WellFormed();
    }

    /** Regions are disjoint, so a covering span is the region found. */
    lemma CoverUnique(i: nat, p: int)
      requires Valid() && i < |regions| && regions[i].Covers(p)
      ensures forall b :: SpanCovers(spans, b, p) <==> b == regions[i].ptr
    {
      forall b
        ensures SpanCovers(spans, b, p) <==> b == regions[i].ptr
      {
        assert IsRegion(regions, i, regions[i].ptr, regions[i].memorySize);
        assert IsSpan(spans, regions[i].ptr, regions[i].memorySize);
        if SpanCovers(spans, b, p) {
          assert IsSpan(spans, b, spans[b]);
          var j :| IsRegion(regions, j, b, spans[b]);
          OneRegionPerAddress(regions, i, j, p);
        }
      }
    }
  }
}
