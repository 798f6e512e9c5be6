/** The chunk-record vector: which records are live, which are recycled, and who owns them. */
module ArenaRecords {
  import opened ArenaTypes
  import opened OwnershipIndex

  /** A recycled record is free, in no bin and owned by nobody. */
  predicate Idle(c: Chunk) {
    !c.InUse() && c.binNum == NO_BIN && c.stream == NO_STREAM
  }

  /** The recycled records, linked through their next fields from head. */
  ghost predicate Chain(cs: seq<Chunk>, head: Handle, recycled: seq<Handle>)
    decreases |recycled|
  {
    if recycled == [] then head == NO_CHUNK
    else
      && head == recycled[0] && 0 <= head < |cs| && Idle(cs[head])
      && head !in recycled[1..] && Chain(cs, cs[head].next, recycled[1..])
  }

  /** Every record is live or recycled, and none is both. */
  ghost predicate Partition(count: nat, live: set<Handle>, recycled: seq<Handle>) {
    && (forall h {:trigger h in live} {:trigger h in recycled} :: 0 <= h < count <==> h in live || h in recycled)
    && (forall h {:trigger h in live} {:trigger h in recycled} :: !(h in live && h in recycled))
  }

  ghost predicate RecordsOk(cs: seq<Chunk>, live: set<Handle>, head: Handle, recycled: seq<Handle>) {
    Chain(cs, head, recycled) && Partition(|cs|, live, recycled)
  }

  lemma {:induction false} ChainFrame(cs: seq<Chunk>, cs': seq<Chunk>, head: Handle, recycled: seq<Handle>)
    requires Chain(cs, head, recycled) && |cs| <= |cs'|
    requires forall h :: h in recycled && 0 <= h < |cs| ==>
               cs'[h].next == cs[h].next && (Idle(cs[h]) ==> Idle(cs'[h]))
    ensures Chain(cs', head, recycled)
    decreases |recycled|
  {
    if recycled != [] {
      ChainFrame(cs, cs', cs[head].next, recycled[1..]);
    }
  }

  /** Handing out the head record. */
  lemma PopRecord(cs: seq<Chunk>, live: set<Handle>, head: Handle, recycled: seq<Handle>)
    requires RecordsOk(cs, live, head, recycled) && head != NO_CHUNK
    ensures recycled != [] && head == recycled[0] && 0 <= head < |cs| && head !in live && Idle(cs[head])
    ensures RecordsOk(cs, live + {head}, cs[head].next, recycled[1..])
  {
    assert recycled == [recycled[0]] + recycled[1..];
    assert forall h :: h in recycled <==> h == head || h in recycled[1..];
    assert head in recycled;
  }

  /** Handing out a record appended to the vector. */
  lemma GrowRecords(cs: seq<Chunk>, live: set<Handle>, head: Handle, recycled: seq<Handle>)
    requires RecordsOk(cs, live, head, recycled)
    ensures |cs| !in live && |cs| !in recycled
    ensures RecordsOk(cs + [BLANK_CHUNK], live + {|cs|}, head, recycled)
  {
    ChainFrame(cs, cs + [BLANK_CHUNK], head, recycled);
  }

  /** Returning a live record to the front of the free list. */
  lemma PushRecord(cs: seq<Chunk>, live: set<Handle>, head: Handle, recycled: seq<Handle>, h: Handle)
    requires RecordsOk(cs, live, head, recycled) && h in live && 0 <= h < |cs| && Idle(cs[h])
    ensures RecordsOk(cs[h := cs[h].(next := head)], live - {h}, h, [h] + recycled)
  {
    var cs' := cs[h := cs[h].(next := head)];
    ChainFrame(cs, cs', head, recycled);
    assert ([h] + recycled)[1..] == recycled;
  }

  /** Writing live records does not disturb the free list. */
  lemma RecordsFrame(cs: seq<Chunk>, cs': seq<Chunk>, live: set<Handle>, head: Handle, recycled: seq<Handle>)
    requires RecordsOk(cs, live, head, recycled) && |cs| == |cs'|
    requires forall h :: 0 <= h < |cs| && h !in live ==> cs'[h] == cs[h]
    ensures RecordsOk(cs', live, head, recycled)
  {
    ChainFrame(cs, cs', head, recycled);
  }

  lemma {:induction false} IdleInChain(cs: seq<Chunk>, head: Handle, recycled: seq<Handle>, h: Handle)
    requires Chain(cs, head, recycled) && h in recycled
    ensures 0 <= h < |cs| && Idle(cs[h])
    decreases |recycled|
  {
    if h != recycled[0] {
      IdleInChain(cs, cs[head].next, recycled[1..], h);
    }
  }

  /** The index owns for each stream exactly the records whose stream field names it. */
  ghost predicate OwnersAgree(cs: seq<Chunk>, owner: map<Handle, Stream>) {
    forall s, h {:trigger Owns(owner, s, h)} ::
      Owns(owner, s, h) <==> 0 <= h < |cs| && cs[h].stream == s && s != NO_STREAM
  }

  lemma OwnersFrame(cs: seq<Chunk>, cs': seq<Chunk>, owner: map<Handle, Stream>)
    requires OwnersAgree(cs, owner) && |cs| <= |cs'|
    requires forall h :: 0 <= h < |cs| ==> cs'[h].stream == cs[h].stream
    requires forall h :: |cs| <= h < |cs'| ==> cs'[h].stream == NO_STREAM
    ensures OwnersAgree(cs', owner)
  {
  }

  lemma OwnersAfterAssign(cs: seq<Chunk>, owner: map<Handle, Stream>, h: Handle, s: Stream)
    requires OwnersAgree(cs, owner) && 0 <= h < |cs|
    ensures OwnersAgree(cs[h := cs[h].(stream := s)],
                        if s == NO_STREAM then owner - {h} else owner[h := s])
  {
    var owner' := if s == NO_STREAM then owner - {h} else owner[h := s];
    forall t, g
      ensures Owns(owner', t, g) <==> (if g == h then t == s && s != NO_STREAM else Owns(owner, t, g))
    {
    }
  }
}
