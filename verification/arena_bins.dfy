/** The size-class bins: ordered sets of free chunks, kept as sequences in comparator order. */
module ArenaBins {
  import opened ArenaTypes
  import opened ArenaLayout

  /** The comparator of a bin: by size, then by address. */
  predicate Less(c: Chunk, d: Chunk) {
    if c.size != d.size then c.size < d.size else c.ptr < d.ptr
  }

  /** Chunk a is smaller than chunk b, or as large and at a lower address. */
  ghost predicate Before(cs: seq<Chunk>, a: Handle, b: Handle) {
    && 0 <= a < |cs| && 0 <= b < |cs|
    && (cs[a].size < cs[b].size || (cs[a].size == cs[b].size && cs[a].ptr < cs[b].ptr))
  }

  ghost predicate BinSorted(cs: seq<Chunk>, bin: seq<Handle>) {
    forall i, j {:trigger bin[i], bin[j]} :: 0 <= i < j < |bin| ==> Before(cs, bin[i], bin[j])
  }

  ghost predicate InBin(bins: seq<seq<Handle>>, b: int, h: Handle) {
    0 <= b < |bins| && h in bins[b]
  }

  /** Every binned chunk is free and in exactly the bin of its size class; every bin is in order. */
  ghost predicate BinsOk(cs: seq<Chunk>, home: map<Handle, int>, bins: seq<seq<Handle>>) {
    && InRange(cs, home)
    && |bins| == NUM_BINS
    && (forall b, h {:trigger InBin(bins, b, h)} :: InBin(bins, b, h) ==> h in home && cs[h].binNum == b)
    && (forall h {:trigger h in home} :: h in home && cs[h].binNum != NO_BIN ==>
          !cs[h].InUse() && cs[h].binNum == BinNumForSize(cs[h].size) && InBin(bins, cs[h].binNum, h))
    && (forall b {:trigger bins[b]} :: 0 <= b < |bins| ==> BinSorted(cs, bins[b]))
  }

  ghost predicate DistinctPtr(cs: seq<Chunk>, home: map<Handle, int>, h: Handle)
    requires InRange(cs, home) && 0 <= h < |cs|
  {
    forall g {:trigger g in home} :: g in home && g != h ==> cs[g].ptr != cs[h].ptr
  }

  /** Chunks outside the bins may change; binned chunks keep their size, address and class. */
  ghost predicate BinnedKept(cs: seq<Chunk>, cs': seq<Chunk>, home: map<Handle, int>, home': map<Handle, int>)
    requires InRange(cs, home) && InRange(cs', home')
  {
    && |cs| <= |cs'|
    && (forall h {:trigger h in home} :: h in home && cs[h].binNum != NO_BIN ==>
          && h in home' && cs'[h].size == cs[h].size && cs'[h].ptr == cs[h].ptr
          && cs'[h].binNum == cs[h].binNum && cs'[h].InUse() == cs[h].InUse())
    && (forall h {:trigger h in home'} :: h in home' && cs'[h].binNum != NO_BIN ==>
          h in home && cs[h].binNum != NO_BIN)
  }

  lemma BinsFrame(cs: seq<Chunk>, cs': seq<Chunk>, home: map<Handle, int>, home': map<Handle, int>,
                  bins: seq<seq<Handle>>)
    requires BinsOk(cs, home, bins) && InRange(cs', home') && BinnedKept(cs, cs', home, home')
    ensures BinsOk(cs', home', bins)
  {
    forall b | 0 <= b < |bins|
      ensures BinSorted(cs', bins[b])
    {
      forall i, j | 0 <= i < j < |bins[b]|
        ensures Before(cs', bins[b][i], bins[b][j])
      {
        assert InBin(bins, b, bins[b][i]) && InBin(bins, b, bins[b][j]);
        assert Before(cs, bins[b][i], bins[b][j]);
      }
    }
  }

  /** Where the ordered set would put h: after everything that sorts before it. */
  method LowerBound(cs: seq<Chunk>, bin: seq<Handle>, h: Handle) returns (pos: nat)
    requires 0 <= h < |cs| && forall i :: 0 <= i < |bin| ==> 0 <= bin[i] < |cs|
    requires BinSorted(cs, bin)
    ensures pos <= |bin|
    ensures forall i :: 0 <= i < pos ==> Less(cs[bin[i]], cs[h])
    ensures forall i :: pos <= i < |bin| ==> !Less(cs[bin[i]], cs[h])
  {
    pos := 0;
    while pos < |bin| && Less(cs[bin[pos]], cs[h])
      invariant pos <= |bin|
      invariant forall i :: 0 <= i < pos ==> Less(cs[bin[i]], cs[h])
    {
      pos := pos + 1;
    }
    forall i | pos <= i < |bin|
      ensures !Less(cs[bin[i]], cs[h])
    {
      if pos < i {
        assert Before(cs, bin[pos], bin[i]);
      }
    }
  }

  /** In an ordered bin, the lower bound of a member is the member itself. */
  lemma ErasePosition(cs: seq<Chunk>, bin: seq<Handle>, h: Handle, pos: nat)
    requires BinSorted(cs, bin) && h in bin && 0 <= h < |cs| && pos <= |bin|
    requires forall i :: 0 <= i < |bin| ==> 0 <= bin[i] < |cs|
    requires forall i :: 0 <= i < pos ==> Less(cs[bin[i]], cs[h])
    requires forall i :: pos <= i < |bin| ==> !Less(cs[bin[i]], cs[h])
    ensures pos < |bin| && bin[pos] == h
  {
    var i: nat :| i < |bin| && bin[i] == h;
    if pos < i {
      InOrder(cs, bin, pos, i);
    }
  }

  lemma InOrder(cs: seq<Chunk>, bin: seq<Handle>, i: nat, j: nat)
    requires BinSorted(cs, bin) && i < j < |bin|
    ensures Before(cs, bin[i], bin[j])
  {
  }

  lemma InsertKeepsSorted(cs: seq<Chunk>, bin: seq<Handle>, h: Handle, pos: nat)
    requires BinSorted(cs, bin) && 0 <= h < |cs| && pos <= |bin|
    requires forall i :: 0 <= i < |bin| ==> 0 <= bin[i] < |cs| && cs[bin[i]].ptr != cs[h].ptr
    requires forall i :: 0 <= i < pos ==> Less(cs[bin[i]], cs[h])
    requires forall i :: pos <= i < |bin| ==> !Less(cs[bin[i]], cs[h])
    ensures BinSorted(cs, bin[..pos] + [h] + bin[pos..])
  {
    var bin' := bin[..pos] + [h] + bin[pos..];
    forall i, j | 0 <= i < j < |bin'|
      ensures Before(cs, bin'[i], bin'[j])
    {
      if i != pos && j != pos {
        var i0, j0 := if i < pos then i else i - 1, if j < pos then j else j - 1;
        assert bin'[i] == bin[i0] && bin'[j] == bin[j0];
      } else if i == pos {
        assert bin'[j] == bin[j - 1];
      } else {
        assert bin'[i] == bin[i];
      }
    }
  }

  /** Order depends only on sizes and addresses. */
  lemma SortedFrame(cs: seq<Chunk>, cs': seq<Chunk>, bin: seq<Handle>)
    requires BinSorted(cs, bin) && |cs| <= |cs'|
    requires forall g :: 0 <= g < |cs| ==> cs'[g].size == cs[g].size && cs'[g].ptr == cs[g].ptr
    ensures BinSorted(cs', bin)
  {
    forall i, j | 0 <= i < j < |bin|
      ensures Before(cs', bin[i], bin[j])
    {
      assert Before(cs, bin[i], bin[j]);
    }
  }

  lemma InsertedMembers(bin: seq<Handle>, h: Handle, pos: nat)
    requires pos <= |bin|
    ensures forall g :: g in bin[..pos] + [h] + bin[pos..] <==> g == h || g in bin
  {
    assert bin == bin[..pos] + bin[pos..];
  }

  lemma InsertKeepsBins(cs: seq<Chunk>, home: map<Handle, int>, bins: seq<seq<Handle>>, h: Handle, pos: nat)
    requires BinsOk(cs, home, bins) && h in home && !cs[h].InUse() && cs[h].binNum == NO_BIN
    requires DistinctPtr(cs, home, h)
    requires pos <= |bins[BinNumForSize(cs[h].size)]|
    requires var bin := bins[BinNumForSize(cs[h].size)];
             (forall i :: 0 <= i < |bin| ==> 0 <= bin[i] < |cs|) &&
             (forall i :: 0 <= i < pos ==> Less(cs[bin[i]], cs[h])) &&
             (forall i :: pos <= i < |bin| ==> !Less(cs[bin[i]], cs[h]))
    ensures var b := BinNumForSize(cs[h].size);
            BinsOk(cs[h := cs[h].(binNum := b)], home, bins[b := bins[b][..pos] + [h] + bins[b][pos..]])
  {
    var b := BinNumForSize(cs[h].size);
    var bin := bins[b];
    forall i | 0 <= i < |bin|
      ensures cs[bin[i]].ptr != cs[h].ptr
    {
      assert InBin(bins, b, bin[i]);
    }
    InsertKeepsSorted(cs, bin, h, pos);
    InsertedMembers(bin, h, pos);
    RebinKeepsBins(cs, home, bins, h, b, bin[..pos] + [h] + bin[pos..]);
  }

  /** Bin b gained chunk h and stayed in order. */
  lemma RebinKeepsBins(cs: seq<Chunk>, home: map<Handle, int>, bins: seq<seq<Handle>>, h: Handle, b: nat,
                       bin': seq<Handle>)
    requires BinsOk(cs, home, bins) && h in home && !cs[h].InUse() && cs[h].binNum == NO_BIN
    requires b == BinNumForSize(cs[h].size)
    requires BinSorted(cs, bin') && forall g :: g in bin' <==> g == h || g in bins[b]
    ensures BinsOk(cs[h := cs[h].(binNum := b)], home, bins[b := bin'])
  {
    var bins' := bins[b := bin'];
    var cs' := cs[h := cs[h].(binNum := b)];
    forall c, g
      ensures InBin(bins', c, g) <==> (InBin(bins, c, g) || (c == b && g == h))
    {
    }
    forall c | 0 <= c < |bins'|
      ensures BinSorted(cs', bins'[c])
    {
      SortedFrame(cs, cs', bins'[c]);
    }
  }

  lemma RemoveKeepsBins(cs: seq<Chunk>, home: map<Handle, int>, bins: seq<seq<Handle>>, b: nat, pos: nat)
    requires BinsOk(cs, home, bins) && b < |bins| && pos < |bins[b]| && 0 <= bins[b][pos] < |cs|
    ensures var h := bins[b][pos];
            BinsOk(cs[h := cs[h].(binNum := NO_BIN)], home, bins[b := bins[b][..pos] + bins[b][pos + 1..]])
  {
    var bin, h := bins[b], bins[b][pos];
    var bin' := bin[..pos] + bin[pos + 1..];
    var bins' := bins[b := bin'];
    var cs' := cs[h := cs[h].(binNum := NO_BIN)];
    assert InBin(bins, b, h);
    forall i | 0 <= i < |bin'|
      ensures bin'[i] in bin && bin'[i] != h
    {
      var i0 := if i < pos then i else i + 1;
      assert bin'[i] == bin[i0];
      assert if i0 < pos then Before(cs, bin[i0], bin[pos]) else Before(cs, bin[pos], bin[i0]);
    }
    forall g | g in bin && g != h
      ensures g in bin'
    {
      var i :| 0 <= i < |bin| && bin[i] == g;
      assert bin'[if i < pos then i else i - 1] == g;
    }
    forall c, g
      ensures InBin(bins', c, g) <==> (InBin(bins, c, g) && g != h)
    {
      if InBin(bins, c, g) && g == h {
        assert c == b;
      }
    }
    forall c | 0 <= c < |bins'|
      ensures BinSorted(cs', bins'[c])
    {
      forall i, j | 0 <= i < j < |bins'[c]|
        ensures Before(cs', bins'[c][i], bins'[c][j])
      {
        assert InBin(bins', c, bins'[c][i]) && InBin(bins', c, bins'[c][j]);
        if c == b {
          var i0, j0 := if i < pos then i else i + 1, if j < pos then j else j + 1;
          assert bin'[i] == bin[i0] && bin'[j] == bin[j0];
          assert Before(cs, bin[i0], bin[j0]);
        } else {
          assert Before(cs, bins[c][i], bins[c][j]);
        }
      }
    }
  }

  // ---------------------------------------------------------------- best fit

  /** A free chunk the stream may take for a request of the given rounded size. */
  predicate Suits(c: Chunk, rounded: nat, stream: Stream) {
    c.size >= rounded && (c.stream == stream || c.stream == NO_STREAM)
  }

  /** Chunk h is free, large enough, and owned by the stream or by nobody. */
  ghost predicate Candidate(cs: seq<Chunk>, home: map<Handle, int>, rounded: nat, stream: Stream, h: Handle) {
    && h in home && 0 <= h < |cs| && cs[h].allocationId == NOT_ALLOCATED
    && cs[h].size >= rounded && (cs[h].stream == stream || cs[h].stream == NO_STREAM)
  }

  /** Every live chunk but the exception is in a bin exactly if it is free. */
  ghost predicate FreeAreBinned(cs: seq<Chunk>, home: map<Handle, int>, except: Handle) {
    forall h {:trigger h in home} :: h in home && 0 <= h < |cs| && h != except ==>
      (cs[h].InUse() <==> cs[h].binNum == NO_BIN)
  }

  /** Everything in a lower bin is smaller than everything in a higher one. */
  lemma LowerBinIsSmaller(cs: seq<Chunk>, home: map<Handle, int>, bins: seq<seq<Handle>>, g: Handle, h: Handle)
    requires BinsOk(cs, home, bins) && g in home && h in home
    requires cs[g].binNum != NO_BIN && cs[h].binNum != NO_BIN && cs[g].binNum < cs[h].binNum
    ensures cs[g].size < cs[h].size
  {
    if cs[h].size <= cs[g].size {
      BinMonotone(cs[h].size, cs[g].size);
    }
  }

  /**
   * The scan from the request's own size class upwards, each bin in order: the first suitable chunk
   * is the least one, by size and then address, among all free chunks of the arena.
   */
  method FindBestFit(cs: seq<Chunk>, ghost home: map<Handle, int>, bins: seq<seq<Handle>>, rounded: nat, stream: Stream)
    returns (found: bool, bin: nat, pos: nat)
    requires BinsOk(cs, home, bins) && FreeAreBinned(cs, home, NO_CHUNK)
    ensures found ==> bin < |bins| && pos < |bins[bin]| && Candidate(cs, home, rounded, stream, bins[bin][pos])
    ensures found ==> forall g :: Candidate(cs, home, rounded, stream, g) && g != bins[bin][pos] ==>
      Before(cs, bins[bin][pos], g)
    ensures !found ==> forall g :: !Candidate(cs, home, rounded, stream, g)
  {
    bin := BinNumForSize(rounded);
    forall g | Candidate(cs, home, rounded, stream, g)
      ensures bin <= cs[g].binNum < NUM_BINS
    {
      assert cs[g].binNum == BinNumForSize(cs[g].size);
      BinMonotone(rounded, cs[g].size);
    }
    while bin < NUM_BINS
      invariant bin <= NUM_BINS
      invariant forall g :: Candidate(cs, home, rounded, stream, g) ==> bin <= cs[g].binNum < NUM_BINS
    {
      pos := 0;
      while pos < |bins[bin]|
        invariant pos <= |bins[bin]|
        invariant forall i :: 0 <= i < pos ==> !Candidate(cs, home, rounded, stream, bins[bin][i])
      {
        var h := bins[bin][pos];
        assert InBin(bins, bin, h);
        assert !cs[h].InUse();
        if Suits(cs[h], rounded, stream) {
          forall g | Candidate(cs, home, rounded, stream, g) && g != h
            ensures Before(cs, h, g)
          {
            FirstIsLeast(cs, home, bins, bin, pos, rounded, stream, g);
          }
          return true, bin, pos;
        }
        pos := pos + 1;
      }
      forall g | Candidate(cs, home, rounded, stream, g)
        ensures cs[g].binNum != bin
      {
        assert cs[g].binNum == bin ==> InBin(bins, bin, g);
      }
      bin := bin + 1;
    }
    found, pos := false, 0;
  }

  lemma FirstIsLeast(cs: seq<Chunk>, home: map<Handle, int>, bins: seq<seq<Handle>>, b: nat, pos: nat,
                     rounded: nat, stream: Stream, g: Handle)
    requires BinsOk(cs, home, bins) && FreeAreBinned(cs, home, NO_CHUNK)
    requires b < |bins| && pos < |bins[b]|
    requires forall i :: 0 <= i < pos ==> !Candidate(cs, home, rounded, stream, bins[b][i])
    requires Candidate(cs, home, rounded, stream, g) && g != bins[b][pos] && b <= cs[g].binNum
    ensures Before(cs, bins[b][pos], g)
  {
    var h := bins[b][pos];
    assert InBin(bins, b, h);
    assert InBin(bins, cs[g].binNum, g);
    if cs[g].binNum == b {
      var i :| 0 <= i < |bins[b]| && bins[b][i] == g;
      assert pos < i;
    } else {
      LowerBinIsSmaller(cs, home, bins, h, g);
    }
  }
}
