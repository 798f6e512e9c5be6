/**
 * Copying tensors from the device to the host: one at a time, or as a batch that goes through one
 * staging buffer and waits for the stream once. Host and device share one address space.
 */
module DeviceToHost {
  import opened ArenaTypes
  import opened Options

  datatype Place = GpuDefault | HostAccessible | Pageable

  datatype TensorCopy = TensorCopy(src: nat, dst: nat, bytes: nat, from: Place, to: Place, stream: Stream)

  predicate Active(c: TensorCopy) {
    c.bytes != 0 && c.src != c.dst
  }

  predicate NeedsStaging(c: TensorCopy) {
    Active(c) && c.to != HostAccessible
  }

  // Transfers of bytes, and what a list of them does.

  datatype Transfer = Transfer(src: nat, dst: nat, bytes: nat)

  const NOTHING := Transfer(0, 0, 0)

  predicate InRange(t: Transfer, size: nat) {
    t.src + t.bytes <= size && t.dst + t.bytes <= size
  }

  predicate Apart(a: nat, n: nat, b: nat, m: nat) {
    n == 0 || m == 0 || a + n <= b || b + m <= a
  }

  /** No transfer writes what another reads or writes. */
  ghost predicate Independent(ts: seq<Transfer>, size: nat) {
    && (forall i :: 0 <= i < |ts| ==> InRange(ts[i], size))
    && (forall i, j :: 0 <= i < j < |ts| ==> Apart(ts[i].dst, ts[i].bytes, ts[j].dst, ts[j].bytes))
    && forall i, j :: 0 <= i < |ts| && 0 <= j < |ts| ==> Apart(ts[i].src, ts[i].bytes, ts[j].dst, ts[j].bytes)
  }

  function Copied<T>(mem: seq<T>, t: Transfer): (mem': seq<T>)
    requires InRange(t, |mem|)
    ensures |mem'| == |mem|
  {
    mem[..t.dst] + mem[t.src..t.src + t.bytes] + mem[t.dst + t.bytes..]
  }

  function RunAll<T>(mem: seq<T>, ts: seq<Transfer>): (mem': seq<T>)
    requires forall i :: 0 <= i < |ts| ==> InRange(ts[i], |mem|)
    ensures |mem'| == |mem|
  {
    if ts == [] then mem else Copied(RunAll(mem, ts[..|ts| - 1]), ts[|ts| - 1])
  }

  predicate Hits(t: Transfer, a: nat) {
    t.dst <= a < t.dst + t.bytes
  }

  lemma RunAllLast<T>(mem: seq<T>, ts: seq<Transfer>)
    requires ts != [] && forall i :: 0 <= i < |ts| ==> InRange(ts[i], |mem|)
    ensures RunAll(mem, ts) == Copied(RunAll(mem, ts[..|ts| - 1]), ts[|ts| - 1])
  {
  }

  /** A byte that no transfer hits is left alone. */
  lemma {:induction false} RunAllMiss<T>(mem: seq<T>, ts: seq<Transfer>, a: nat)
    requires a < |mem| && forall i :: 0 <= i < |ts| ==> InRange(ts[i], |mem|) && !Hits(ts[i], a)
    ensures RunAll(mem, ts)[a] == mem[a]
  {
    if ts == [] {
      RunNothing(mem);
    } else {
      hide Copied, RunAll;
      var n := |ts| - 1;
      RunAllLast(mem, ts);
      RunAllMiss(mem, ts[..n], a);
      CopiedAt(RunAll(mem, ts[..n]), ts[n], a);
    }
  }

  /** Independent transfers bring the original bytes. */
  lemma {:induction false} RunAllHit<T>(mem: seq<T>, ts: seq<Transfer>, a: nat, i: nat)
    requires Independent(ts, |mem|) && a < |mem| && i < |ts| && Hits(ts[i], a)
    ensures RunAll(mem, ts)[a] == mem[ts[i].src + (a - ts[i].dst)]
  {
    hide Copied, RunAll;
    var n := |ts| - 1;
    RunAllLast(mem, ts);
    assert InRange(ts[i], |mem|) && InRange(ts[n], |mem|);
    CopiedAt(RunAll(mem, ts[..n]), ts[n], a);
    if i == n {
      var s := ts[n].src + (a - ts[n].dst);
      forall j | 0 <= j < n
        ensures !Hits(ts[..n][j], s)
      {
        assert Apart(ts[n].src, ts[n].bytes, ts[j].dst, ts[j].bytes);
      }
      RunAllMiss(mem, ts[..n], s);
    } else {
      assert Apart(ts[i].dst, ts[i].bytes, ts[n].dst, ts[n].bytes);
      assert Independent(ts[..n], |mem|);
      RunAllHit(mem, ts[..n], a, i);
    }
  }

  /** Both together. */
  lemma RunAllAt<T>(mem: seq<T>, ts: seq<Transfer>, a: nat)
    requires Independent(ts, |mem|) && a < |mem|
    ensures forall i :: 0 <= i < |ts| && Hits(ts[i], a) ==> RunAll(mem, ts)[a] == mem[ts[i].src + (a - ts[i].dst)]
    ensures (forall i :: 0 <= i < |ts| ==> !Hits(ts[i], a)) ==> RunAll(mem, ts)[a] == mem[a]
  {
    hide Copied, RunAll;
    forall i | 0 <= i < |ts| && Hits(ts[i], a)
      ensures InRange(ts[i], |mem|) && RunAll(mem, ts)[a] == mem[ts[i].src + (a - ts[i].dst)]
    {
      RunAllHit(mem, ts, a, i);
    }
    if forall i :: 0 <= i < |ts| ==> !Hits(ts[i], a) {
      RunAllMiss(mem, ts, a);
    }
  }

  lemma CopiedAt<T>(mem: seq<T>, t: Transfer, a: nat)
    requires InRange(t, |mem|) && a < |mem|
    ensures Copied(mem, t)[a] == if Hits(t, a) then mem[t.src + (a - t.dst)] else mem[a]
  {
  }

  /** memcpy, or the device's copy engine. */
  method CopyBytes<T>(mem: array<T>, t: Transfer)
    requires InRange(t, mem.Length)
    modifies mem
    ensures mem[..] == Copied(old(mem[..]), t)
  {
    hide Copied;
    ghost var was := mem[..];
    forall k | 0 <= k < t.bytes {
      mem[t.dst + k] := mem[t.src + k];
    }
    forall a | 0 <= a < mem.Length
      ensures mem[a] == Copied(was, t)[a]
    {
      CopiedAt(was, t, a);
      assert Hits(t, a) ==> mem[t.dst + (a - t.dst)] == was[t.src + (a - t.dst)];
    }
  }

  // Tensor by tensor.

  function Direct(c: TensorCopy): Transfer {
    if Active(c) then Transfer(c.src, c.dst, c.bytes) else NOTHING
  }

  function DirectAll(copies: seq<TensorCopy>): seq<Transfer> {
    seq(|copies|, i requires 0 <= i < |copies| => Direct(copies[i]))
  }

  /** Device to host: on a stream, copy and wait; without one, wait for the whole device first. */
  method CopyImpl<T>(mem: array<T>, c: TensorCopy, ok: bool) returns (done: bool)
    requires c.bytes != 0 && c.src != c.dst ==> c.src + c.bytes <= mem.Length && c.dst + c.bytes <= mem.Length
    modifies mem
    ensures done <==> c.bytes == 0 || c.src == c.dst || ok
    ensures done && c.bytes != 0 && c.src != c.dst ==>
      mem[c.dst..c.dst + c.bytes] == old(mem[c.src..c.src + c.bytes])
    ensures forall a :: 0 <= a < mem.Length && !(done && c.src != c.dst && c.dst <= a < c.dst + c.bytes) ==>
      mem[a] == old(mem[a])
  {
    if !Active(c) {
      return true;
    }
    if !ok {
      return false;
    }
    ghost var was := mem[..];
    CopyBytes(mem, Transfer(c.src, c.dst, c.bytes));
    done := true;
    forall a | 0 <= a < mem.Length
      ensures mem[a] == if c.dst <= a < c.dst + c.bytes then was[c.src + (a - c.dst)] else was[a]
    {
      CopiedAt(was, Transfer(c.src, c.dst, c.bytes), a);
      assert mem[a] == mem[..][a];
    }
  }

  /** Both ends of every copy that is to be made are in memory. */
  ghost predicate InMemory(copies: seq<TensorCopy>, size: nat) {
    forall i :: 0 <= i < |copies| && copies[i].bytes != 0 && copies[i].src != copies[i].dst ==>
      copies[i].src + copies[i].bytes <= size && copies[i].dst + copies[i].bytes <= size
  }

  /** Memory after the first n copies were made one after the other. */
  ghost function OneByOne<T>(mem: seq<T>, copies: seq<TensorCopy>, n: nat): (mem': seq<T>)
    requires InMemory(copies, |mem|) && n <= |copies|
    ensures |mem'| == |mem|
  {
    if n == 0 then mem
    else
      var c := copies[n - 1];
      var before := OneByOne(mem, copies, n - 1);
      if c.bytes == 0 || c.src == c.dst then before
      else before[..c.dst] + before[c.src..c.src + c.bytes] + before[c.dst + c.bytes..]
  }

  lemma DirectInRange(copies: seq<TensorCopy>, size: nat)
    requires InMemory(copies, size)
    ensures forall i :: 0 <= i < |copies| ==> InRange(DirectAll(copies)[i], size)
  {
  }

  lemma OneByOneNone<T>(mem: seq<T>, copies: seq<TensorCopy>)
    requires InMemory(copies, |mem|)
    ensures OneByOne(mem, copies, 0) == mem
  {
  }

  lemma OneByOneStep<T>(mem: seq<T>, copies: seq<TensorCopy>, n: nat)
    requires InMemory(copies, |mem|) && 0 < n <= |copies|
    ensures InRange(Direct(copies[n - 1]), |mem|)
    ensures OneByOne(mem, copies, n) == Copied(OneByOne(mem, copies, n - 1), Direct(copies[n - 1]))
  {
    var before := OneByOne(mem, copies, n - 1);
    if !Active(copies[n - 1]) {
      assert before == before[..0] + before[0..0] + before[0..];
    }
  }

  lemma {:induction false} OneByOneRuns<T>(mem: seq<T>, copies: seq<TensorCopy>, n: nat)
    requires InMemory(copies, |mem|) && n <= |copies|
    ensures forall i :: 0 <= i < |copies| ==> InRange(DirectAll(copies)[i], |mem|)
    ensures OneByOne(mem, copies, n) == RunAll(mem, DirectAll(copies)[..n])
  {
    hide RunAll, OneByOne, Copied, Direct, InRange;
    var d := DirectAll(copies);
    DirectInRange(copies, |mem|);
    if n == 0 {
      OneByOneNone(mem, copies);
      RunNothing(mem);
    } else {
      OneByOneRuns(mem, copies, n - 1);
      assert d[..n] == d[..n - 1] + [d[n - 1]];
      RunAllPush(mem, d[..n - 1], d[n - 1]);
      OneByOneStep(mem, copies, n);
    }
  }

  lemma RunNothing<T>(mem: seq<T>)
    ensures RunAll(mem, []) == mem
  {
  }

  lemma RunAllPush<T>(mem: seq<T>, ts: seq<Transfer>, t: Transfer)
    requires (forall i :: 0 <= i < |ts| ==> InRange(ts[i], |mem|)) && InRange(t, |mem|)
    ensures RunAll(mem, ts + [t]) == Copied(RunAll(mem, ts), t)
  {
    assert (ts + [t])[..|ts|] == ts;
  }

  /** What one CopyImpl does is the next step of OneByOne. */
  lemma OneMore<T>(mem: seq<T>, copies: seq<TensorCopy>, i: nat, before: seq<T>, after: seq<T>)
    requires InMemory(copies, |mem|) && i < |copies| && before == OneByOne(mem, copies, i) && |after| == |mem|
    requires var c := copies[i];
             && (c.bytes != 0 && c.src != c.dst ==>
                   after[c.dst..c.dst + c.bytes] == before[c.src..c.src + c.bytes])
             && (forall a :: 0 <= a < |mem| && !(c.src != c.dst && c.dst <= a < c.dst + c.bytes) ==>
                   after[a] == before[a])
    ensures after == OneByOne(mem, copies, i + 1)
  {
    var c := copies[i];
    if c.bytes != 0 && c.src != c.dst {
      assert after == after[..c.dst] + after[c.dst..c.dst + c.bytes] + after[c.dst + c.bytes..];
    }
  }

  /** One CopyImpl after the other. */
  method CopyEach<T>(mem: array<T>, copies: seq<TensorCopy>)
    requires InMemory(copies, mem.Length)
    modifies mem
    ensures mem[..] == OneByOne(old(mem[..]), copies, |copies|)
  {
    hide OneByOne;
    ghost var was := mem[..];
    OneByOneNone(was, copies);
    var i := 0;
    while i < |copies|
      invariant 0 <= i <= |copies| && mem[..] == OneByOne(was, copies, i)
    {
      ghost var before := mem[..];
      var done := CopyImpl(mem, copies[i], true);
      OneMore(was, copies, i, before, mem[..]);
      i := i + 1;
    }
  }

  // In a batch.

  /** A batch is possible if something is to be copied, all of it to the host, on one stream. */
  ghost predicate Batchable(copies: seq<TensorCopy>, stream: Stream) {
    && stream != NO_STREAM
    && (exists i :: 0 <= i < |copies| && copies[i].bytes != 0 && copies[i].src != copies[i].dst)
    && forall i :: 0 <= i < |copies| && copies[i].bytes != 0 && copies[i].src != copies[i].dst ==>
         copies[i].from == GpuDefault && copies[i].to != GpuDefault && copies[i].stream == stream
  }

  method CanBatchDeviceToHost(copies: seq<TensorCopy>) returns (ok: bool, batchStream: Stream)
    ensures ok <==> exists s :: Batchable(copies, s)
    ensures ok ==> Batchable(copies, batchStream)
  {
    batchStream := NO_STREAM;
    var activeCopies := 0;
    ghost var first := 0;
    var i := 0;
    while i < |copies|
      invariant 0 <= i <= |copies| && 0 <= activeCopies
      invariant activeCopies == 0 ==> forall j :: 0 <= j < i ==> !Active(copies[j])
      invariant activeCopies > 0 ==>
        0 <= first < i && Active(copies[first]) && copies[first].stream == batchStream != NO_STREAM
      invariant forall j :: 0 <= j < i && Active(copies[j]) ==>
        copies[j].from == GpuDefault && copies[j].to != GpuDefault && copies[j].stream == batchStream
    {
      var copy := copies[i];
      if Active(copy) {
        if copy.from != GpuDefault || copy.to == GpuDefault || copy.stream == NO_STREAM {
          return false, batchStream;
        }
        if activeCopies == 0 {
          batchStream := copy.stream;
          first := i;
        } else if copy.stream != batchStream {
          return false, batchStream;
        }
        activeCopies := activeCopies + 1;
      }
      i := i + 1;
    }
    ok := activeCopies != 0;
    assert ok ==> Batchable(copies, batchStream);
  }

  /** Bytes staged for the first n copies: what the host cannot reach for the device, if it is to be copied. */
  function Staged(copies: seq<TensorCopy>, n: nat): nat
    requires n <= |copies|
  {
    if n == 0 then 0
    else
      var c := copies[n - 1];
      Staged(copies, n - 1) + if c.src != c.dst && c.to != HostAccessible then c.bytes else 0
  }

  lemma {:induction false} StagedGrows(copies: seq<TensorCopy>, i: nat, n: nat)
    requires i < n <= |copies|
    ensures Staged(copies, i + 1) <= Staged(copies, n)
    ensures Staged(copies, i) + (if NeedsStaging(copies[i]) then copies[i].bytes else 0) <= Staged(copies, n)
  {
    if i + 1 < n {
      StagedGrows(copies, i, n - 1);
    }
  }

  /** The part of the staging buffer that holds copy i. */
  predicate Holds(copies: seq<TensorCopy>, offsets: seq<nat>, n: nat) {
    n <= |copies| == |offsets| && forall i :: 0 <= i < n && NeedsStaging(copies[i]) ==> offsets[i] == Staged(copies, i)
  }

  /** Parts of the staging buffer do not overlap, and the last one ends where the buffer ends. */
  lemma StagingIsTiled(copies: seq<TensorCopy>, offsets: seq<nat>, i: nat, j: nat)
    requires Holds(copies, offsets, |copies|) && i < |copies| && NeedsStaging(copies[i])
    ensures offsets[i] + copies[i].bytes <= Staged(copies, |copies|)
    ensures i < j < |copies| && NeedsStaging(copies[j]) ==> offsets[i] + copies[i].bytes <= offsets[j]
    ensures (forall k :: i < k < |copies| ==> !NeedsStaging(copies[k])) ==>
      offsets[i] + copies[i].bytes == Staged(copies, |copies|)
  {
    StagedGrows(copies, i, |copies|);
    if i < j < |copies| {
      StagedGrows(copies, i, j);
    }
    if forall k :: i < k < |copies| ==> !NeedsStaging(copies[k]) {
      NothingMoreStaged(copies, i + 1, |copies|);
    }
  }

  lemma {:induction false} NothingMoreStaged(copies: seq<TensorCopy>, i: nat, n: nat)
    requires i <= n <= |copies| && forall k :: i <= k < n ==> !NeedsStaging(copies[k])
    ensures Staged(copies, n) == Staged(copies, i)
    decreases n
  {
    if i < n {
      NothingMoreStaged(copies, i, n - 1);
    }
  }

  /** What is enqueued for a copy: into its part of the staging buffer, or straight to its place. */
  function Enqueued(c: TensorCopy, staging: Option<nat>, offset: nat): Transfer {
    if !Active(c) then NOTHING
    else Transfer(c.src, if staging.Some? && NeedsStaging(c) then staging.value + offset else c.dst, c.bytes)
  }

  /** What follows the wait for a staged copy. */
  function Unstaged(c: TensorCopy, staging: Option<nat>, offset: nat): Transfer {
    if staging.Some? && NeedsStaging(c) then Transfer(staging.value + offset, c.dst, c.bytes) else NOTHING
  }

  function Queue(copies: seq<TensorCopy>, staging: Option<nat>): seq<Transfer> {
    seq(|copies|, i requires 0 <= i < |copies| => Enqueued(copies[i], staging, Staged(copies, i)))
  }

  function Emptying(copies: seq<TensorCopy>, staging: Option<nat>): seq<Transfer> {
    seq(|copies|, i requires 0 <= i < |copies| => Unstaged(copies[i], staging, Staged(copies, i)))
  }

  predicate InStaging(copies: seq<TensorCopy>, staging: Option<nat>, a: nat) {
    staging.Some? && staging.value <= a < staging.value + Staged(copies, |copies|)
  }

  /** The copies are independent, and the staging buffer is nobody's source or destination. */
  ghost predicate WellPlaced(copies: seq<TensorCopy>, staging: Option<nat>, size: nat) {
    && Independent(DirectAll(copies), size)
    && (staging.Some? ==> staging.value + Staged(copies, |copies|) <= size)
    && (staging.Some? ==> forall i :: 0 <= i < |copies| && Active(copies[i]) ==>
          OutsideStaging(copies, staging.value, i))
  }

  predicate OutsideStaging(copies: seq<TensorCopy>, base: nat, i: nat)
    requires i < |copies|
  {
    && Apart(copies[i].src, copies[i].bytes, base, Staged(copies, |copies|))
    && Apart(copies[i].dst, copies[i].bytes, base, Staged(copies, |copies|))
  }

  ghost predicate Off(a: nat, n: nat, b: nat, m: nat) {
    a + n <= b || b + m <= a
  }

  /**
   * What the batch asks for: the copies that are to be made lie in memory, no destination overlaps
   * another or a source, and the staging buffer overlaps none of them.
   */
  ghost predicate Separate(copies: seq<TensorCopy>, staging: Option<nat>, size: nat) {
    && InMemory(copies, size)
    && (forall i, j :: 0 <= i < j < |copies| && copies[i].bytes != 0 && copies[i].src != copies[i].dst
                       && copies[j].bytes != 0 && copies[j].src != copies[j].dst ==>
          Off(copies[i].dst, copies[i].bytes, copies[j].dst, copies[j].bytes))
    && (forall i, j :: 0 <= i < |copies| && 0 <= j < |copies| && copies[i].bytes != 0 && copies[i].src != copies[i].dst
                       && copies[j].bytes != 0 && copies[j].src != copies[j].dst ==>
          Off(copies[i].src, copies[i].bytes, copies[j].dst, copies[j].bytes))
    && (staging.Some? ==>
          && staging.value + Staged(copies, |copies|) <= size
          && forall i :: 0 <= i < |copies| && copies[i].bytes != 0 && copies[i].src != copies[i].dst ==>
               && Off(copies[i].src, copies[i].bytes, staging.value, Staged(copies, |copies|))
               && Off(copies[i].dst, copies[i].bytes, staging.value, Staged(copies, |copies|)))
  }

  lemma SeparateInMemory(copies: seq<TensorCopy>, staging: Option<nat>, size: nat)
    requires Separate(copies, staging, size)
    ensures InMemory(copies, size)
  {
  }

  lemma SeparateIsWellPlaced(copies: seq<TensorCopy>, staging: Option<nat>, size: nat)
    requires Separate(copies, staging, size)
    ensures WellPlaced(copies, staging, size)
  {
    hide Staged;
    DirectInRange(copies, size);
  }

  lemma QueueAt(copies: seq<TensorCopy>, staging: Option<nat>, size: nat, i: nat)
    requires WellPlaced(copies, staging, size) && i < |copies|
    ensures InRange(Queue(copies, staging)[i], size) && InRange(Emptying(copies, staging)[i], size)
    ensures Queue(copies, staging)[i].bytes == Direct(copies[i]).bytes
    ensures Queue(copies, staging)[i].src == Direct(copies[i]).src
    ensures staging.Some? && NeedsStaging(copies[i]) ==> OutsideStaging(copies, staging.value, i)
    ensures NeedsStaging(copies[i]) ==> Staged(copies, i) + copies[i].bytes <= Staged(copies, |copies|)
  {
    assert InRange(DirectAll(copies)[i], size);
    StagedGrows(copies, i, |copies|);
  }

  lemma QueueIsIndependent(copies: seq<TensorCopy>, staging: Option<nat>, size: nat)
    requires WellPlaced(copies, staging, size)
    ensures Independent(Queue(copies, staging), size)
  {
    var q, d := Queue(copies, staging), DirectAll(copies);
    hide Staged;
    forall i | 0 <= i < |q|
      ensures InRange(q[i], size)
    {
      QueueAt(copies, staging, size, i);
    }
    forall i, j | 0 <= i < j < |q|
      ensures Apart(q[i].dst, q[i].bytes, q[j].dst, q[j].bytes)
    {
      QueueAt(copies, staging, size, i);
      QueueAt(copies, staging, size, j);
      StagedGrows(copies, i, j);
      assert Apart(d[i].dst, d[i].bytes, d[j].dst, d[j].bytes);
    }
    forall i, j | 0 <= i < |q| && 0 <= j < |q|
      ensures Apart(q[i].src, q[i].bytes, q[j].dst, q[j].bytes)
    {
      QueueAt(copies, staging, size, i);
      QueueAt(copies, staging, size, j);
      assert Apart(d[i].src, d[i].bytes, d[j].dst, d[j].bytes);
    }
  }

  lemma EmptyingIsIndependent(copies: seq<TensorCopy>, staging: Option<nat>, size: nat)
    requires WellPlaced(copies, staging, size)
    ensures Independent(Emptying(copies, staging), size)
  {
    var u, d := Emptying(copies, staging), DirectAll(copies);
    hide Staged;
    forall i | 0 <= i < |u|
      ensures InRange(u[i], size)
    {
      QueueAt(copies, staging, size, i);
    }
    forall i, j | 0 <= i < j < |u|
      ensures Apart(u[i].dst, u[i].bytes, u[j].dst, u[j].bytes)
    {
      assert Apart(d[i].dst, d[i].bytes, d[j].dst, d[j].bytes);
    }
    forall i, j | 0 <= i < |u| && 0 <= j < |u|
      ensures Apart(u[i].src, u[i].bytes, u[j].dst, u[j].bytes)
    {
      QueueAt(copies, staging, size, i);
      QueueAt(copies, staging, size, j);
    }
  }

  lemma TransfersFit(copies: seq<TensorCopy>, staging: Option<nat>, size: nat)
    requires WellPlaced(copies, staging, size)
    ensures forall i :: 0 <= i < |copies| ==> InRange(DirectAll(copies)[i], size)
    ensures forall i :: 0 <= i < |copies| ==> InRange(Queue(copies, staging)[i], size)
    ensures forall i :: 0 <= i < |copies| ==> InRange(Emptying(copies, staging)[i], size)
  {
    forall i | 0 <= i < |copies|
      ensures InRange(Queue(copies, staging)[i], size) && InRange(Emptying(copies, staging)[i], size)
    {
      QueueAt(copies, staging, size, i);
    }
  }

  /** Memory after the stream has run the queue. */
  ghost function AfterQueue<T>(mem: seq<T>, copies: seq<TensorCopy>, staging: Option<nat>): (mem': seq<T>)
    requires WellPlaced(copies, staging, |mem|)
    ensures |mem'| == |mem|
  {
    TransfersFit(copies, staging, |mem|);
    RunAll(mem, Queue(copies, staging))
  }

  /** Memory after the staging buffer has been emptied. */
  ghost function AfterBatch<T>(mem: seq<T>, copies: seq<TensorCopy>, staging: Option<nat>): (mem': seq<T>)
    requires WellPlaced(copies, staging, |mem|)
    ensures |mem'| == |mem|
  {
    TransfersFit(copies, staging, |mem|);
    RunAll(AfterQueue(mem, copies, staging), Emptying(copies, staging))
  }

  /** What a byte is after the queue, and after the emptying. */
  lemma AfterQueueAt<T>(mem: seq<T>, copies: seq<TensorCopy>, staging: Option<nat>, a: nat)
    requires WellPlaced(copies, staging, |mem|) && a < |mem|
    ensures forall i :: 0 <= i < |copies| && Hits(Queue(copies, staging)[i], a) ==>
      copies[i].src + (a - Queue(copies, staging)[i].dst) < |mem|
      && AfterQueue(mem, copies, staging)[a] == mem[copies[i].src + (a - Queue(copies, staging)[i].dst)]
    ensures (forall i :: 0 <= i < |copies| ==> !Hits(Queue(copies, staging)[i], a)) ==>
      AfterQueue(mem, copies, staging)[a] == mem[a]
  {
    hide Staged, RunAll, WellPlaced;
    TransfersFit(copies, staging, |mem|);
    QueueIsIndependent(copies, staging, |mem|);
    RunAllAt(mem, Queue(copies, staging), a);
  }

  lemma AfterBatchAt<T>(mem: seq<T>, copies: seq<TensorCopy>, staging: Option<nat>, a: nat)
    requires WellPlaced(copies, staging, |mem|) && a < |mem|
    ensures forall i :: 0 <= i < |copies| && Hits(Emptying(copies, staging)[i], a) ==>
      Emptying(copies, staging)[i].src + (a - Emptying(copies, staging)[i].dst) < |mem|
      && AfterBatch(mem, copies, staging)[a]
           == AfterQueue(mem, copies, staging)[
                Emptying(copies, staging)[i].src + (a - Emptying(copies, staging)[i].dst)]
    ensures (forall i :: 0 <= i < |copies| ==> !Hits(Emptying(copies, staging)[i], a)) ==>
      AfterBatch(mem, copies, staging)[a] == AfterQueue(mem, copies, staging)[a]
  {
    hide Staged, RunAll, WellPlaced, AfterQueue;
    TransfersFit(copies, staging, |mem|);
    EmptyingIsIndependent(copies, staging, |mem|);
    RunAllAt(AfterQueue(mem, copies, staging), Emptying(copies, staging), a);
  }

  /** A byte that copy i brings through the staging buffer. */
  lemma BroughtStaged<T>(mem: seq<T>, copies: seq<TensorCopy>, staging: Option<nat>, a: nat, i: nat)
    requires WellPlaced(copies, staging, |mem|) && a < |mem| && i < |copies| && Hits(DirectAll(copies)[i], a)
    requires staging.Some? && NeedsStaging(copies[i])
    ensures copies[i].src + (a - copies[i].dst) < |mem|
    ensures AfterBatch(mem, copies, staging)[a] == mem[copies[i].src + (a - copies[i].dst)]
  {
    hide Staged, WellPlaced, AfterQueue, AfterBatch;
    QueueAt(copies, staging, |mem|, i);
    AfterBatchAt(mem, copies, staging, a);
    var u := Emptying(copies, staging)[i];
    var s := u.src + (a - u.dst);
    assert Hits(u, a);
    assert Hits(Queue(copies, staging)[i], s);
    AfterQueueAt(mem, copies, staging, s);
  }

  /** A byte that copy i brings directly. */
  lemma BroughtDirectly<T>(mem: seq<T>, copies: seq<TensorCopy>, staging: Option<nat>, a: nat, i: nat)
    requires WellPlaced(copies, staging, |mem|) && a < |mem| && i < |copies| && Hits(DirectAll(copies)[i], a)
    requires !(staging.Some? && NeedsStaging(copies[i]))
    ensures copies[i].src + (a - copies[i].dst) < |mem|
    ensures AfterBatch(mem, copies, staging)[a] == mem[copies[i].src + (a - copies[i].dst)]
  {
    hide Staged, WellPlaced, AfterQueue, AfterBatch;
    OnlyOneHits(copies, staging, |mem|, a, i);
    AfterBatchAt(mem, copies, staging, a);
    AfterQueueAt(mem, copies, staging, a);
    assert Hits(Queue(copies, staging)[i], a);
  }

  lemma OnlyOneHits(copies: seq<TensorCopy>, staging: Option<nat>, size: nat, a: nat, i: nat)
    requires WellPlaced(copies, staging, size) && i < |copies| && Hits(DirectAll(copies)[i], a)
    requires !(staging.Some? && NeedsStaging(copies[i]))
    ensures forall j :: 0 <= j < |copies| ==> !Hits(Emptying(copies, staging)[j], a)
  {
    hide Staged;
    var u, d := Emptying(copies, staging), DirectAll(copies);
    forall j | 0 <= j < |copies|
      ensures !Hits(u[j], a)
    {
      assert i < j ==> Apart(d[i].dst, d[i].bytes, d[j].dst, d[j].bytes);
      assert j < i ==> Apart(d[j].dst, d[j].bytes, d[i].dst, d[i].bytes);
    }
  }

  /** A byte that no copy brings, outside the staging buffer. */
  lemma LeftAlone<T>(mem: seq<T>, copies: seq<TensorCopy>, staging: Option<nat>, a: nat)
    requires WellPlaced(copies, staging, |mem|) && a < |mem| && !InStaging(copies, staging, a)
    requires forall i :: 0 <= i < |copies| ==> !Hits(DirectAll(copies)[i], a)
    ensures AfterBatch(mem, copies, staging)[a] == mem[a]
  {
    hide Staged, WellPlaced, AfterQueue, AfterBatch;
    forall j | 0 <= j < |copies|
      ensures !Hits(Emptying(copies, staging)[j], a) && !Hits(Queue(copies, staging)[j], a)
    {
      assert !Hits(DirectAll(copies)[j], a);
      QueueAt(copies, staging, |mem|, j);
    }
    AfterBatchAt(mem, copies, staging, a);
    AfterQueueAt(mem, copies, staging, a);
  }

  /** Outside the staging buffer, the batch does what copying tensor by tensor does. */
  lemma BatchIsOneByOne<T>(mem: seq<T>, copies: seq<TensorCopy>, staging: Option<nat>, a: nat)
    requires WellPlaced(copies, staging, |mem|) && a < |mem| && !InStaging(copies, staging, a)
    ensures InMemory(copies, |mem|) && AfterBatch(mem, copies, staging)[a] == OneByOne(mem, copies, |copies|)[a]
  {
    hide Staged, RunAll, AfterQueue, AfterBatch, InStaging, OneByOne;
    var d := DirectAll(copies);
    MovesInMemory(copies, |mem|);
    OneByOneRuns(mem, copies, |copies|);
    assert d[..|copies|] == d;
    RunAllAt(mem, d, a);
    if i :| 0 <= i < |d| && Hits(d[i], a) {
      if staging.Some? && NeedsStaging(copies[i]) {
        BroughtStaged(mem, copies, staging, a, i);
      } else {
        BroughtDirectly(mem, copies, staging, a, i);
      }
    } else {
      LeftAlone(mem, copies, staging, a);
    }
  }

  lemma MovesInMemory(copies: seq<TensorCopy>, size: nat)
    requires Independent(DirectAll(copies), size)
    ensures InMemory(copies, size)
  {
    forall i | 0 <= i < |copies| && copies[i].bytes != 0 && copies[i].src != copies[i].dst
      ensures copies[i].src + copies[i].bytes <= size && copies[i].dst + copies[i].bytes <= size
    {
      assert InRange(DirectAll(copies)[i], size);
    }
  }

  /** The stream runs the first n transfers. */
  method RunQueue<T>(mem: array<T>, queue: seq<Transfer>, n: nat)
    requires n <= |queue| && forall i :: 0 <= i < |queue| ==> InRange(queue[i], mem.Length)
    modifies mem
    ensures mem[..] == RunAll(old(mem[..]), queue[..n])
  {
    hide RunAll, Copied;
    RunNothing(mem[..]);
    assert queue[..0] == [];
    var i := 0;
    while i < n
      invariant 0 <= i <= n
      invariant mem[..] == RunAll(old(mem[..]), queue[..i])
    {
      assert queue[..i + 1] == queue[..i] + [queue[i]];
      RunAllPush(old(mem[..]), queue[..i], queue[i]);
      CopyBytes(mem, queue[i]);
      i := i + 1;
    }
  }

  /** Running part of the queue touches only destinations and the staging buffer. */
  lemma PartOfQueueAt<T>(mem: seq<T>, copies: seq<TensorCopy>, staging: Option<nat>, n: nat, a: nat)
    requires WellPlaced(copies, staging, |mem|) && n <= |copies| && a < |mem| && !InStaging(copies, staging, a)
    requires forall i :: 0 <= i < |copies| ==> !Hits(DirectAll(copies)[i], a)
    ensures forall i :: 0 <= i < |copies| ==> InRange(Queue(copies, staging)[i], |mem|)
    ensures RunAll(mem, Queue(copies, staging)[..n])[a] == mem[a]
  {
    hide Staged, RunAll, WellPlaced;
    TransfersFit(copies, staging, |mem|);
    QueueIsIndependent(copies, staging, |mem|);
    var q := Queue(copies, staging);
    forall j | 0 <= j < n
      ensures !Hits(q[..n][j], a)
    {
      assert !Hits(DirectAll(copies)[j], a);
      QueueAt(copies, staging, |mem|, j);
    }
    RunAllAt(mem, q[..n], a);
  }

  method CountStaging(copies: seq<TensorCopy>) returns (bytes: nat)
    ensures bytes == Staged(copies, |copies|)
  {
    bytes := 0;
    var i := 0;
    while i < |copies|
      invariant 0 <= i <= |copies| && bytes == Staged(copies, i)
    {
      if NeedsStaging(copies[i]) {
        bytes := bytes + copies[i].bytes;
      }
      i := i + 1;
    }
  }

  lemma DirectIsIndependent(copies: seq<TensorCopy>, staging: Option<nat>, size: nat)
    requires WellPlaced(copies, staging, size)
    ensures Independent(DirectAll(copies), size)
  {
  }

  lemma StagedStart(copies: seq<TensorCopy>)
    ensures Staged(copies, 0) == 0
  {
  }

  lemma StagedStep(copies: seq<TensorCopy>, i: nat)
    requires i < |copies|
    ensures Staged(copies, i + 1) == Staged(copies, i) + if NeedsStaging(copies[i]) then copies[i].bytes else 0
  {
  }

  lemma QueueDone<T>(mem: seq<T>, copies: seq<TensorCopy>, staging: Option<nat>)
    requires WellPlaced(copies, staging, |mem|)
    ensures forall i :: 0 <= i < |copies| ==> InRange(Queue(copies, staging)[i], |mem|)
    ensures RunAll(mem, Queue(copies, staging)) == AfterQueue(mem, copies, staging)
  {
    TransfersFit(copies, staging, |mem|);
  }

  lemma BatchDone<T>(mem: seq<T>, copies: seq<TensorCopy>, staging: Option<nat>)
    requires WellPlaced(copies, staging, |mem|)
    ensures forall i :: 0 <= i < |copies| ==> InRange(Emptying(copies, staging)[i], |mem|)
    ensures RunAll(AfterQueue(mem, copies, staging), Emptying(copies, staging)) == AfterBatch(mem, copies, staging)
  {
    TransfersFit(copies, staging, |mem|);
  }

  lemma CopiedNothing<T>(mem: seq<T>)
    ensures Copied(mem, NOTHING) == mem
  {
  }

  lemma {:induction false} NothingToEmpty<T>(mem: seq<T>, ts: seq<Transfer>)
    requires forall i :: 0 <= i < |ts| ==> ts[i] == NOTHING
    ensures RunAll(mem, ts) == mem
  {
    if ts != [] {
      NothingToEmpty(mem, ts[..|ts| - 1]);
      CopiedNothing(mem);
    }
  }

  /** Neither a destination nor part of the staging buffer. */
  ghost predicate Untouched(copies: seq<TensorCopy>, staging: Option<nat>, a: nat) {
    && !(staging.Some? && staging.value <= a < staging.value + Staged(copies, |copies|))
    && forall i :: 0 <= i < |copies| && copies[i].src != copies[i].dst ==>
         !(copies[i].dst <= a < copies[i].dst + copies[i].bytes)
  }

  lemma UntouchedMisses(copies: seq<TensorCopy>, staging: Option<nat>, a: nat)
    requires Untouched(copies, staging, a)
    ensures !InStaging(copies, staging, a) && forall i :: 0 <= i < |copies| ==> !Hits(DirectAll(copies)[i], a)
  {
  }

  /** What each byte is after a batch that succeeded. */
  lemma BatchBrings<T>(mem: seq<T>, copies: seq<TensorCopy>, staging: Option<nat>, i: nat)
    requires WellPlaced(copies, staging, |mem|) && Separate(copies, staging, |mem|)
    requires i < |copies| && copies[i].bytes != 0 && copies[i].src != copies[i].dst
    ensures copies[i].src + copies[i].bytes <= |mem| && copies[i].dst + copies[i].bytes <= |mem|
    ensures AfterBatch(mem, copies, staging)[copies[i].dst..copies[i].dst + copies[i].bytes]
         == mem[copies[i].src..copies[i].src + copies[i].bytes]
  {
    hide Staged, AfterQueue, AfterBatch, WellPlaced;
    var c, after := copies[i], AfterBatch(mem, copies, staging);
    forall a | c.dst <= a < c.dst + c.bytes
      ensures after[a] == mem[c.src + (a - c.dst)]
    {
      assert Hits(DirectAll(copies)[i], a);
      if staging.Some? && NeedsStaging(c) {
        BroughtStaged(mem, copies, staging, a, i);
      } else {
        BroughtDirectly(mem, copies, staging, a, i);
      }
    }
  }

  lemma BatchLeaves<T>(mem: seq<T>, copies: seq<TensorCopy>, staging: Option<nat>, a: nat)
    requires WellPlaced(copies, staging, |mem|) && a < |mem| && Untouched(copies, staging, a)
    ensures AfterBatch(mem, copies, staging)[a] == mem[a]
  {
    hide Staged, AfterQueue, AfterBatch, WellPlaced, InStaging;
    UntouchedMisses(copies, staging, a);
    LeftAlone(mem, copies, staging, a);
  }

  /** Something failed after part of the queue had run. */
  method RunPart<T>(mem: array<T>, ghost copies: seq<TensorCopy>, ghost staging: Option<nat>, queue: seq<Transfer>,
                    n: nat)
    requires WellPlaced(copies, staging, mem.Length) && n <= |queue| <= |copies|
    requires queue == Queue(copies, staging)[..|queue|]
    modifies mem
    ensures forall a :: 0 <= a < mem.Length && Untouched(copies, staging, a) ==> mem[a] == old(mem[a])
  {
    hide Staged, RunAll, WellPlaced, InStaging;
    ghost var was := mem[..];
    TransfersFit(copies, staging, mem.Length);
    RunQueue(mem, queue, n);
    assert queue[..n] == Queue(copies, staging)[..n];
    forall a | 0 <= a < mem.Length && Untouched(copies, staging, a)
      ensures mem[a] == was[a]
    {
      UntouchedMisses(copies, staging, a);
      PartOfQueueAt(was, copies, staging, n, a);
      assert mem[a] == mem[..][a];
    }
  }

  /** Copy each staged part to its place. */
  method EmptyStaging<T>(mem: array<T>, copies: seq<TensorCopy>, base: nat, offsets: seq<nat>)
    requires Holds(copies, offsets, |copies|)
    requires forall i :: 0 <= i < |copies| ==> InRange(Emptying(copies, Some(base))[i], mem.Length)
    modifies mem
    ensures mem[..] == RunAll(old(mem[..]), Emptying(copies, Some(base)))
  {
    hide RunAll, Copied, Staged;
    ghost var u := Emptying(copies, Some(base));
    RunNothing(mem[..]);
    assert u[..0] == [];
    var i := 0;
    while i < |copies|
      invariant 0 <= i <= |copies|
      invariant mem[..] == RunAll(old(mem[..]), u[..i])
    {
      assert u[..i + 1] == u[..i] + [u[i]];
      RunAllPush(old(mem[..]), u[..i], u[i]);
      if NeedsStaging(copies[i]) {
        CopyBytes(mem, Transfer(base + offsets[i], copies[i].dst, copies[i].bytes));
      } else {
        CopiedNothing(mem[..]);
      }
      i := i + 1;
    }
    assert u[..i] == u;
  }

  /**
   * Copy a batch. staging is the buffer the pool gave, if it was asked and had one. enqueueOk,
   * syncOk and ran are what the device reports: which copies it takes, whether waiting succeeds,
   * and how much of the queue has run when something fails.
   */
  method CopyDeviceToHostBatch<T>(mem: array<T>, copies: seq<TensorCopy>, stream: Stream, staging: Option<nat>,
                                  enqueueOk: seq<bool>, syncOk: bool, ran: nat) returns (ok: bool)
    requires Batchable(copies, stream) && Separate(copies, staging, mem.Length)
    requires staging.Some? ==> Staged(copies, |copies|) > 0
    requires |enqueueOk| == |copies| && ran <= |copies|
    modifies mem
    ensures ok <==>
      syncOk && forall i :: 0 <= i < |copies| && copies[i].bytes != 0 && copies[i].src != copies[i].dst ==> enqueueOk[i]
    ensures ok ==> forall i :: 0 <= i < |copies| && copies[i].bytes != 0 && copies[i].src != copies[i].dst ==>
      mem[copies[i].dst..copies[i].dst + copies[i].bytes] == old(mem[copies[i].src..copies[i].src + copies[i].bytes])
    ensures forall a :: 0 <= a < mem.Length && Untouched(copies, staging, a) ==> mem[a] == old(mem[a])
    ensures ok ==> forall a :: 0 <= a < mem.Length && !InStaging(copies, staging, a) ==>
      mem[a] == OneByOne(old(mem[..]), copies, |copies|)[a]
  {
    hide Staged, RunAll, AfterQueue, AfterBatch, WellPlaced, Separate, OneByOne, Copied, InStaging;
    SeparateIsWellPlaced(copies, staging, mem.Length);
    SeparateInMemory(copies, staging, mem.Length);
    var stagingBytes := CountStaging(copies);
    TransfersFit(copies, staging, mem.Length);
    ghost var was := mem[..];
    var queue: seq<Transfer>, offsets: seq<nat> := [], [];
    var nextOffset := 0;
    StagedStart(copies);
    var i := 0;
    while i < |copies|
      invariant 0 <= i <= |copies| && |offsets| == |queue| == i
      invariant staging.Some? ==> nextOffset == Staged(copies, i)
      invariant staging.Some? ==> forall j :: 0 <= j < i && NeedsStaging(copies[j]) ==> offsets[j] == Staged(copies, j)
      invariant queue == Queue(copies, staging)[..i]
      invariant mem[..] == was
      invariant forall j :: 0 <= j < i && Active(copies[j]) ==> enqueueOk[j]
    {
      StagedStep(copies, i);
      var copy := copies[i];
      var target, offset := copy.dst, 0;
      if Active(copy) {
        if staging.Some? && NeedsStaging(copy) {
          offset := nextOffset;
          target := staging.value + nextOffset;
          nextOffset := nextOffset + copy.bytes;
        }
        if !enqueueOk[i] {
          RunPart(mem, copies, staging, queue, if ran <= |queue| then ran else |queue|);
          return false;
        }
        queue := queue + [Transfer(copy.src, target, copy.bytes)];
      } else {
        queue := queue + [NOTHING];
      }
      offsets := offsets + [offset];
      i := i + 1;
    }
    assert Queue(copies, staging)[..i] == Queue(copies, staging);
    assert staging.Some? ==> nextOffset == stagingBytes;
    if !syncOk {
      RunPart(mem, copies, staging, queue, ran);
      return false;
    }
    RunQueue(mem, queue, |queue|);
    assert queue[..|queue|] == queue;
    QueueDone(was, copies, staging);
    if staging.Some? {
      EmptyStaging(mem, copies, staging.value, offsets);
    } else {
      NothingToEmpty(mem[..], Emptying(copies, staging));
    }
    BatchDone(was, copies, staging);
    DirectIsIndependent(copies, staging, |was|);
    ok := true;
    forall a | 0 <= a < mem.Length && !InStaging(copies, staging, a)
      ensures mem[a] == OneByOne(was, copies, |copies|)[a]
    {
      BatchIsOneByOne(was, copies, staging, a);
      assert mem[a] == mem[..][a];
    }
    forall a | 0 <= a < mem.Length && Untouched(copies, staging, a)
      ensures mem[a] == was[a]
    {
      BatchLeaves(was, copies, staging, a);
      assert mem[a] == mem[..][a];
    }
    forall i | 0 <= i < |copies| && copies[i].bytes != 0 && copies[i].src != copies[i].dst
      ensures mem[copies[i].dst..copies[i].dst + copies[i].bytes] == was[copies[i].src..copies[i].src + copies[i].bytes]
    {
      BatchBrings(was, copies, staging, i);
    }
  }
}
