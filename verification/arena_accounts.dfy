/** Byte accounting: sums over finite maps. */
module ArenaAccounts {
  import opened ArenaTypes

  ghost function MapSum<K>(m: map<K, int>): int
    decreases |m|
  {
    if m == map[] then 0 else
      var k :| k in m;
      assert (m - {k}).Keys == m.Keys - {k};
      m[k] + MapSum(m - {k})
  }

  lemma {:induction false} MapSumRemove<K>(m: map<K, int>, k: K)
    requires k in m
    ensures MapSum(m) == m[k] + MapSum(m - {k})
    decreases |m|
  {
    var j :| j in m && MapSum(m) == m[j] + MapSum(m - {j});
    if j != k {
      assert (m - {j}).Keys == m.Keys - {j};
      assert (m - {k}).Keys == m.Keys - {k};
      MapSumRemove(m - {j}, k);
      MapSumRemove(m - {k}, j);
      assert m - {j} - {k} == m - {k} - {j};
    }
  }

  lemma MapSumInsert<K>(m: map<K, int>, k: K, v: int)
    requires k !in m
    ensures MapSum(m[k := v]) == MapSum(m) + v
  {
    MapSumRemove(m[k := v], k);
    assert m[k := v] - {k} == m;
  }

  lemma MapSizeInsert<K, V>(m: map<K, V>, k: K, v: V)
    requires k !in m
    ensures |m[k := v]| == |m| + 1
  {
    assert m[k := v].Keys == m.Keys + {k};
  }

  lemma MapSizeRemove<K, V>(m: map<K, V>, k: K)
    requires k in m
    ensures |m - {k}| == |m| - 1
  {
    assert (m - {k}).Keys == m.Keys - {k};
  }

  lemma {:induction false} MapSumNonNegative<K>(m: map<K, int>)
    requires forall k :: k in m ==> m[k] >= 0
    ensures MapSum(m) >= 0
    decreases |m|
  {
    if m != map[] {
      var k :| k in m;
      MapSumRemove(m, k);
      assert (m - {k}).Keys == m.Keys - {k};
      MapSumNonNegative(m - {k});
    }
  }

  /** Sizes of the live chunks that are in use. */
  ghost function InUseSizes(cs: seq<Chunk>, home: map<Handle, int>): map<Handle, int> {
    map h | h in home && 0 <= h < |cs| && cs[h].InUse() :: cs[h].size
  }

  /** The in-use chunks, with their addresses, sizes and requests, are the same. */
  ghost predicate SameInUse(cs: seq<Chunk>, cs': seq<Chunk>, home: map<Handle, int>, home': map<Handle, int>) {
    && (forall h {:trigger h in home} :: h in home && 0 <= h < |cs| && cs[h].InUse() ==>
          && h in home' && h < |cs'| && cs'[h].InUse() && cs'[h].size == cs[h].size && cs'[h].ptr == cs[h].ptr
          && cs'[h].requestedSize == cs[h].requestedSize)
    && (forall h {:trigger h in home'} :: h in home' && 0 <= h < |cs'| && cs'[h].InUse() ==>
          h in home && h < |cs| && cs[h].InUse())
  }

  lemma InUseFrame(cs: seq<Chunk>, cs': seq<Chunk>, home: map<Handle, int>, home': map<Handle, int>)
    requires SameInUse(cs, cs', home, home')
    ensures InUseSizes(cs', home') == InUseSizes(cs, home)
  {
  }

  /** Chunk h came into use; no other record changed. */
  lemma InUseGained(cs: seq<Chunk>, cs': seq<Chunk>, home: map<Handle, int>, h: Handle)
    requires h in home && 0 <= h < |cs| && |cs'| == |cs| && !cs[h].InUse() && cs'[h].InUse()
    requires forall g :: 0 <= g < |cs| && g != h ==> cs'[g] == cs[g]
    ensures MapSum(InUseSizes(cs', home)) == MapSum(InUseSizes(cs, home)) + cs'[h].size
  {
    assert InUseSizes(cs', home) == InUseSizes(cs, home)[h := cs'[h].size];
    MapSumInsert(InUseSizes(cs, home), h, cs'[h].size);
  }

  /** Chunk h went out of use; no other record changed. */
  lemma InUseLost(cs: seq<Chunk>, cs': seq<Chunk>, home: map<Handle, int>, h: Handle)
    requires h in home && 0 <= h < |cs| && |cs'| == |cs| && cs[h].InUse() && !cs'[h].InUse()
    requires forall g :: 0 <= g < |cs| && g != h ==> cs'[g] == cs[g]
    ensures MapSum(InUseSizes(cs', home)) == MapSum(InUseSizes(cs, home)) - cs[h].size
  {
    assert InUseSizes(cs', home) == InUseSizes(cs, home) - {h};
    MapSumRemove(InUseSizes(cs, home), h);
  }
}
