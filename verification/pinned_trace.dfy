/**
 * What the pinned host pool promises, said of the bare sequence of steps that clients, the device
 * and the driver can see: no mention of lists, events or who holds what between two locks.
 */
module PinnedTrace {
  import opened ArenaTypes
  import opened PinnedBlocks

  /** The end of the work issued to a stream at some time. */
  datatype Mark = Mark(stream: Stream, position: nat)

  datatype Step =
    | Issued(stream: Stream)               // work is issued to a stream
    | Ran(stream: Stream, position: nat)   // the device has come this far on a stream
    | HandedOut(ptr: Ptr)                  // a client gets the block
    | TakenBack(ptr: Ptr, stream: Stream)  // a client frees it behind the work issued to a stream
    | FreedIdle(ptr: Ptr)                  // a client frees it and says that its work is done
    | Lapsed(ptr: Ptr)                     // waiting for this block's work was answered with an error
    | Returned(ptr: Ptr)                   // the block goes back to the driver

  datatype Run = Start | Then(before: Run, last: Step)

  ghost function IssuedIn(run: Run, s: Stream): nat {
    match run
    case Start => 0
    case Then(before, Issued(t)) => IssuedIn(before, s) + (if s == t then 1 else 0)
    case Then(before, _) => IssuedIn(before, s)
  }

  ghost function DoneIn(run: Run, s: Stream): nat {
    match run
    case Start => 0
    case Then(before, Ran(t, n)) => if s == t && DoneIn(before, s) < n then n else DoneIn(before, s)
    case Then(before, _) => DoneIn(before, s)
  }

  /** Blocks in the hands of clients. */
  ghost function OutIn(run: Run): set<Ptr> {
    match run
    case Start => {}
    case Then(before, HandedOut(p)) => OutIn(before) + {p}
    case Then(before, TakenBack(p, _)) => OutIn(before) - {p}
    case Then(before, FreedIdle(p)) => OutIn(before) - {p}
    case Then(before, Returned(p)) => OutIn(before) - {p}
    case Then(before, _) => OutIn(before)
  }

  /** For each block last freed behind a stream, the work that was issued to the stream by then. */
  ghost function GuardsIn(run: Run): map<Ptr, Mark> {
    match run
    case Start => map[]
    case Then(before, HandedOut(p)) => GuardsIn(before) - {p}
    case Then(before, TakenBack(p, s)) => GuardsIn(before)[p := Mark(s, IssuedIn(before, s))]
    case Then(before, Returned(p)) => GuardsIn(before) - {p}
    case Then(before, _) => GuardsIn(before)
  }

  /** Blocks for which waiting has failed since they were last freed. */
  ghost function LapsedIn(run: Run): set<Ptr> {
    match run
    case Start => {}
    case Then(before, HandedOut(p)) => LapsedIn(before) - {p}
    case Then(before, TakenBack(p, _)) => LapsedIn(before) - {p}
    case Then(before, Lapsed(p)) => LapsedIn(before) + {p}
    case Then(before, Returned(p)) => LapsedIn(before) - {p}
    case Then(before, _) => LapsedIn(before)
  }

  /** Work issued before the block was freed may still use it. */
  ghost predicate Busy(run: Run, p: Ptr) {
    p in GuardsIn(run) && DoneIn(run, GuardsIn(run)[p].stream) < GuardsIn(run)[p].position
  }

  /** Which steps are allowed after which past. */
  ghost predicate SafeStep(before: Run, step: Step) {
    match step
    case Issued(_) => true
    case Ran(s, n) => n <= IssuedIn(before, s)
    case HandedOut(p) => p !in OutIn(before) && (Busy(before, p) ==> p in LapsedIn(before))
    case TakenBack(p, _) => p in OutIn(before)
    case FreedIdle(p) => p in OutIn(before)
    case Lapsed(p) => p in GuardsIn(before)
    case Returned(p) => Busy(before, p) ==> p in LapsedIn(before)
  }

  ghost predicate SafeRun(run: Run) {
    match run
    case Start => true
    case Then(before, step) => SafeRun(before) && SafeStep(before, step)
  }

  // ---------------------------------------------------------------- what a safe run means

  ghost predicate IsPrefix(early: Run, late: Run) {
    late == early || (late.Then? && IsPrefix(early, late.before))
  }

  /** Between early and late, waiting for p's work was answered with an error. */
  ghost predicate LapsedBetween(early: Run, late: Run, p: Ptr) {
    late != early && late.Then? && (late.last == Lapsed(p) || LapsedBetween(early, late.before, p))
  }

  /** Between early and late, p left the hands of its client. */
  ghost predicate GivenUpBetween(early: Run, late: Run, p: Ptr) {
    late != early && late.Then? &&
    (GivenUpBetween(early, late.before, p) ||
     match late.last
     case TakenBack(q, _) => q == p
     case FreedIdle(q) => q == p
     case Returned(q) => q == p
     case _ => false)
  }

  /** Between early and late, p was handed out or given back while work could still use it. */
  ghost predicate UsedEarlySince(early: Run, late: Run, p: Ptr) {
    late != early && late.Then? &&
    (UsedEarlySince(early, late.before, p) ||
     ((late.last == HandedOut(p) || late.last == Returned(p)) && Busy(late.before, p)))
  }

  lemma PrefixOfItself(run: Run)
    ensures IsPrefix(run, run)
  {
  }

  lemma {:induction false} PrefixGrows(early: Run, middle: Run, late: Run)
    requires IsPrefix(early, middle) && late.Then? && IsPrefix(middle, late.before)
    ensures IsPrefix(early, late)
  {
    if late.before != middle {
      PrefixGrows(early, middle, late.before);
    }
  }

  ghost function Length(run: Run): nat {
    if run.Start? then 0 else 1 + Length(run.before)
  }

  lemma {:induction false} PrefixIsShorter(early: Run, late: Run)
    requires IsPrefix(early, late)
    ensures Length(early) <= Length(late)
  {
    if early != late {
      PrefixIsShorter(early, late.before);
    }
  }

  lemma LongerIsOther(early: Run, late: Run, step: Step)
    requires IsPrefix(early, late)
    ensures Then(late, step) != early && IsPrefix(early, Then(late, step))
  {
    PrefixIsShorter(early, late);
  }

  /** Until the work ahead of a free is done, the block keeps waiting for it. */
  lemma {:induction false} WorkIsAwaited(early: Run, late: Run, p: Ptr, s: Stream)
    requires SafeRun(late) && IsPrefix(Then(early, TakenBack(p, s)), late)
    requires !LapsedBetween(Then(early, TakenBack(p, s)), late, p)
    ensures IssuedIn(early, s) <= DoneIn(late, s)
         || (p !in OutIn(late) && p !in LapsedIn(late)
             && p in GuardsIn(late) && GuardsIn(late)[p] == Mark(s, IssuedIn(early, s)))
  {
    if late != Then(early, TakenBack(p, s)) {
      WorkIsAwaited(early, late.before, p, s);
    }
  }

  /**
   * No early reuse, over whole runs: a block that was freed behind a stream is handed out again, or
   * goes back to the driver, only when the work issued to the stream before is done, unless waiting
   * for this very block was answered with an error in between.
   */
  lemma ReuseAwaitsWork(early: Run, late: Run, p: Ptr, s: Stream, step: Step)
    requires step == HandedOut(p) || step == Returned(p)
    requires SafeRun(Then(late, step)) && IsPrefix(Then(early, TakenBack(p, s)), late)
    ensures IssuedIn(early, s) <= DoneIn(late, s) || LapsedBetween(Then(early, TakenBack(p, s)), late, p)
  {
    if !LapsedBetween(Then(early, TakenBack(p, s)), late, p) {
      WorkIsAwaited(early, late, p, s);
    }
  }

  lemma {:induction false} ClientKeeps(early: Run, late: Run, p: Ptr)
    requires IsPrefix(Then(early, HandedOut(p)), late)
    ensures p in OutIn(late) || GivenUpBetween(Then(early, HandedOut(p)), late, p)
  {
    if late != Then(early, HandedOut(p)) {
      ClientKeeps(early, late.before, p);
    }
  }

  /** A block has one client at a time. */
  lemma OneClient(early: Run, late: Run, p: Ptr)
    requires SafeRun(Then(late, HandedOut(p))) && IsPrefix(Then(early, HandedOut(p)), late)
    ensures GivenUpBetween(Then(early, HandedOut(p)), late, p)
  {
    ClientKeeps(early, late, p);
  }

  /** The device does not run ahead of what was issued. */
  lemma {:induction false} DoneWithinIssued(run: Run, s: Stream)
    requires SafeRun(run)
    ensures DoneIn(run, s) <= IssuedIn(run, s)
  {
    if run.Then? {
      DoneWithinIssued(run.before, s);
    }
  }
}
