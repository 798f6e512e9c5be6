/**
 * What the arena promises, said of the bare sequence of events a client and the device can see:
 * no mention of chunks, bins, slots or owner fields.
 */
module ArenaTrace {
  import opened ArenaTypes
  import opened DeviceMemory
  import opened OwnershipIndex

  datatype Event =
    | Mapped(base: int, size: int)                      // a region was obtained from the device
    | Unmapped(base: int)                               // a region was given back
    | Allocated(ptr: int, size: int, stream: Stream)    // a chunk was handed out on a stream
    | Reserved(ptr: int, size: int)                     // a block outside the arena was handed out
    | Freed(ptr: int)                                   // either kind was returned
    | Released(impl: Impl)                              // a stream was synchronised and released

  datatype Trace = Start | Then(before: Trace, last: Event)

  /** Blocks handed out and not returned, with their sizes. */
  ghost function Outstanding(trace: Trace): map<int, int> {
    match trace
    case Start => map[]
    case Then(before, Allocated(p, n, _)) => Outstanding(before)[p := n]
    case Then(before, Reserved(p, n)) => Outstanding(before)[p := n]
    case Then(before, Freed(p)) => Outstanding(before) - {p}
    case Then(before, _) => Outstanding(before)
  }

  /** Those of them that were handed out on a stream. */
  ghost function InArena(trace: Trace): set<int> {
    match trace
    case Start => {}
    case Then(before, Allocated(p, _, _)) => InArena(before) + {p}
    case Then(before, Reserved(p, _)) => InArena(before) - {p}
    case Then(before, Freed(p)) => InArena(before) - {p}
    case Then(before, _) => InArena(before)
  }

  /** Regions held from the device, with their sizes. */
  ghost function HeldRegions(trace: Trace): map<int, int> {
    match trace
    case Start => map[]
    case Then(before, Mapped(b, n)) => HeldRegions(before)[b := n]
    case Then(before, Unmapped(b)) => HeldRegions(before) - {b}
    case Then(before, _) => HeldRegions(before)
  }

  /**
   * The stream that last allocated address x since its memory came from the device and since that
   * stream was last released; NO_STREAM if there is none.
   */
  ghost function LastUser(trace: Trace, implOf: Stream -> Impl, x: int): Stream {
    match trace
    case Start => NO_STREAM
    case Then(before, Mapped(b, n)) => if b <= x < b + n then NO_STREAM else LastUser(before, implOf, x)
    case Then(before, Allocated(p, n, t)) => if p <= x < p + n then t else LastUser(before, implOf, x)
    case Then(before, Released(i)) =>
      var u := LastUser(before, implOf, x);
      if u != NO_STREAM && implOf(u) == i then NO_STREAM else u
    case Then(before, _) => LastUser(before, implOf, x)
  }

  ghost predicate ClearOf(blocks: map<int, int>, p: int, n: int) {
    forall q {:trigger q in blocks} :: q in blocks ==> Disjoint(q, blocks[q], p, n)
  }

  /** Which events are allowed after which past. */
  ghost predicate SafeStep(before: Trace, e: Event, implOf: Stream -> Impl) {
    match e
    case Mapped(b, n) =>
      n > 0 && ClearOf(HeldRegions(before), b, n) && ClearOf(Outstanding(before), b, n)
    case Unmapped(b) =>
      b in HeldRegions(before) && ClearOf(Outstanding(before), b, HeldRegions(before)[b])
    case Allocated(p, n, t) =>
      && n > 0
      && ClearOf(Outstanding(before), p, n)
      && (exists b :: b in HeldRegions(before) && b <= p && p + n <= b + HeldRegions(before)[b])
      && (forall x :: p <= x < p + n ==>
            LastUser(before, implOf, x) == NO_STREAM || LastUser(before, implOf, x) == t)
    case Reserved(p, n) =>
      n > 0 && ClearOf(HeldRegions(before), p, n) && ClearOf(Outstanding(before), p, n)
    case Freed(p) =>
      p in Outstanding(before)
    case Released(_) =>
      true
  }

  ghost predicate SafeTrace(trace: Trace, implOf: Stream -> Impl) {
    match trace
    case Start => true
    case Then(before, e) => SafeTrace(before, implOf) && SafeStep(before, e, implOf)
  }

  // ---------------------------------------------------------------- what a safe trace means

  /** At any time the outstanding blocks are pairwise disjoint and not empty. */
  lemma {:induction false} OutstandingDisjoint(trace: Trace, implOf: Stream -> Impl, p: int, q: int)
    requires SafeTrace(trace, implOf)
    requires p in Outstanding(trace) && q in Outstanding(trace)
    ensures Outstanding(trace)[p] > 0
    ensures p != q ==> Disjoint(p, Outstanding(trace)[p], q, Outstanding(trace)[q])
  {
    var before := trace.before;
    if p in Outstanding(before) {
      OutstandingDisjoint(before, implOf, p, p);
    }
    if q in Outstanding(before) {
      OutstandingDisjoint(before, implOf, q, q);
    }
    if p in Outstanding(before) && q in Outstanding(before) {
      OutstandingDisjoint(before, implOf, p, q);
    }
  }

  ghost predicate IsPrefix(early: Trace, late: Trace) {
    late == early || (late.Then? && IsPrefix(early, late.before))
  }

  /** Between early and late, stream s was released, or the memory at x came afresh from the device. */
  ghost predicate HandedBack(early: Trace, late: Trace, implOf: Stream -> Impl, s: Stream, x: int) {
    late != early && late.Then? &&
    (HandedBack(early, late.before, implOf, s, x) ||
     match late.last
     case Released(i) => i == implOf(s)
     case Mapped(b, n) => b <= x < b + n
     case _ => false)
  }

  lemma {:induction false} UserStays(early: Trace, late: Trace, implOf: Stream -> Impl, p: int, n: int, s: Stream,
                                     x: int)
    requires SafeTrace(late, implOf) && IsPrefix(Then(early, Allocated(p, n, s)), late)
    requires s != NO_STREAM && p <= x < p + n
    requires !HandedBack(Then(early, Allocated(p, n, s)), late, implOf, s, x)
    ensures LastUser(late, implOf, x) == s
  {
    if late != Then(early, Allocated(p, n, s)) {
      UserStays(early, late.before, implOf, p, n, s, x);
    }
  }

  /**
   * Memory crosses streams only after the owner is released: if a byte allocated on stream s is
   * later allocated on another stream, then in between s was released or the byte's region was
   * obtained afresh from the device.
   */
  lemma CrossStreamReuseNeedsRelease(early: Trace, late: Trace, implOf: Stream -> Impl,
                                     p: int, n: int, s: Stream, q: int, m: int, t: Stream, x: int)
    requires SafeTrace(Then(late, Allocated(q, m, t)), implOf)
    requires IsPrefix(Then(early, Allocated(p, n, s)), late)
    requires s != NO_STREAM && s != t && p <= x < p + n && q <= x < q + m
    ensures HandedBack(Then(early, Allocated(p, n, s)), late, implOf, s, x)
  {
    if !HandedBack(Then(early, Allocated(p, n, s)), late, implOf, s, x) {
      UserStays(early, late, implOf, p, n, s, x);
    }
  }

  /**
   * A region is never given back under an outstanding block: at any time each outstanding arena
   * block lies whole in a region that is still held.
   */
  lemma {:induction false} OutstandingInHeldRegion(trace: Trace, implOf: Stream -> Impl, p: int) returns (b: int)
    requires SafeTrace(trace, implOf) && p in InArena(trace)
    ensures p in Outstanding(trace) && Outstanding(trace)[p] > 0
    ensures b in HeldRegions(trace) && b <= p && p + Outstanding(trace)[p] <= b + HeldRegions(trace)[b]
  {
    var before, last := trace.before, trace.last;
    if last.Allocated? && last.ptr == p {
      b :| b in HeldRegions(before) && b <= p && p + last.size <= b + HeldRegions(before)[b];
    } else {
      b := OutstandingInHeldRegion(before, implOf, p);
      var n, m := Outstanding(before)[p], HeldRegions(before)[b];
      match last
      case Unmapped(c) =>
        assert Disjoint(p, n, c, HeldRegions(before)[c]);
      case Mapped(c, k) =>
        assert Disjoint(b, m, c, k);
      case Reserved(q, k) =>
        assert Disjoint(p, n, q, k);
      case _ =>
    }
  }
}
