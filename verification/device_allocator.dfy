/** The raw device allocator below the arena: any fresh block, or none. */
module DeviceMemory {

  predicate Disjoint(p: int, pSize: int, q: int, qSize: int) {
    p + pSize <= q || q + qSize <= p
  }

  ghost predicate PairwiseDisjoint(blocks: map<int, int>) {
    && (forall p {:trigger p in blocks} :: p in blocks ==> p > 0 && blocks[p] > 0)
    && (forall p, q {:trigger Disjoint(p, blocks[p], q, blocks[q])} ::
          p in blocks && q in blocks && p != q ==> Disjoint(p, blocks[p], q, blocks[q]))
  }

  /** p can be the start of a new block beside those handed out. Address 0 is the null pointer. */
  predicate Fits(blocks: map<int, int>, p: int, bytes: int) {
    p > 0 && forall q :: q in blocks ==> Disjoint(p, bytes, q, blocks[q])
  }

  class DeviceAllocator {
    /**
     * Where the driver would place the block of its nth call, for any size asked; an address that
     * does not fit is a failure.
     */
    const answer: (nat, int) -> int
    var calls: nat
    /** Blocks handed out and not given back, by start address. */
    var blocks: map<int, int>

    ghost predicate Valid()
      reads this
    {
      PairwiseDisjoint(blocks)
    }

    /** The next call is granted if it asks for this size. */
    predicate Grants(bytes: int)
      reads this
    {
      Fits(blocks, answer(calls, bytes), bytes)
    }

    /** The ith call from here is granted if it asks for this size and all calls before it are refused. */
    predicate GrantsAt(i: nat, bytes: int)
      reads this
    {
      Fits(blocks, answer(calls + i, bytes), bytes)
    }

    /** The first size of the list to be granted, asking for one after the other; |sizes| if none is. */
    ghost function FirstGranted(sizes: seq<nat>, from: nat): (k: nat)
      requires from <= |sizes|
      reads this
      ensures from <= k <= |sizes| && (k < |sizes| ==> GrantsAt(k, sizes[k]))
      ensures forall i :: from <= i < k ==> !GrantsAt(i, sizes[i])
      decreases |sizes| - from
    {
      if from == |sizes| || GrantsAt(from, sizes[from]) then from else FirstGranted(sizes, from + 1)
    }

    constructor (answer: (nat, int) -> int)
      ensures Valid() && blocks == map[] && this.answer == answer && calls == 0
    {
      this.answer := answer;
      calls := 0;
      blocks := map[];
    }

    /** The driver may place a block anywhere it overlaps nothing outstanding, or fail. */
    method Alloc(bytes: int) returns (p: int)
      requires Valid() && bytes > 0
      modifies this
      ensures Valid() && calls == old(calls) + 1 && p == if old(Grants(bytes)) then answer(old(calls), bytes) else 0
      ensures p != 0 <==> old(Grants(bytes))
      ensures p == 0 ==> blocks == old(blocks)
      ensures p != 0 ==>
        && p > 0 && p !in old(blocks) && blocks == old(blocks)[p := bytes]
        && forall q :: q in old(blocks) ==> Disjoint(p, bytes, q, old(blocks)[q])
    {
      p := if Grants(bytes) then answer(calls, bytes) else 0;
      calls := calls + 1;
      if p != 0 {
        assert p !in blocks;
        blocks := blocks[p := bytes];
      }
    }

    method Free(p: int)
      requires Valid() && p in blocks
      modifies this`blocks
      ensures Valid() && blocks == old(blocks) - {p}
    {
      blocks := blocks - {p};
    }
  }
}
