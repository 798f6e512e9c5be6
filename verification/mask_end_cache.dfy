/**
 * The attention fusion's cache of its mask's Slice end: a scalar read from the device only when the
 * shapes of certain fused inputs change.
 */
module MaskEndCaching {
  import opened ShapeProvenance

  /** One execution: shapes of the source inputs in order, the scalar in the end tensor, and Sk. */
  datatype Request = Request(dims: seq<Shape>, end: int, seqlenK: int)

  datatype Outcome = Accepted | WrongEnd | ReadFailed

  predicate AreShapes(dims: seq<Shape>) {
    forall i, j :: 0 <= i < |dims| && 0 <= j < |dims[i]| ==> dims[i][j] >= 0
  }

  function ShapeKey(dims: seq<Shape>): seq<int> {
    if dims == [] then [] else dims[0] + [-1] + ShapeKey(dims[1..])
  }

  lemma {:induction false} ShapeKeyAppend(a: seq<Shape>, s: Shape)
    ensures ShapeKey(a + [s]) == ShapeKey(a) + s + [-1]
  {
    if a == [] {
      assert a + [s] == [s] && ShapeKey([s][1..]) == [];
    } else {
      ShapeKeyAppend(a[1..], s);
      assert (a + [s])[1..] == a[1..] + [s];
    }
  }

  /** The end marker cannot be a dimension, so the key tells the shapes apart, whatever their number. */
  lemma {:induction false} ShapeKeyInjective(a: seq<Shape>, b: seq<Shape>)
    requires AreShapes(a) && AreShapes(b) && ShapeKey(a) == ShapeKey(b)
    ensures a == b
  {
    if a != [] && b != [] {
      FirstMarker(a[0], ShapeKey(a[1..]), |b[0]|);
      assert a[0] == ShapeKey(a)[..|a[0]|] && b[0] == ShapeKey(b)[..|b[0]|];
      assert ShapeKey(a[1..]) == ShapeKey(a)[|a[0]| + 1..] && ShapeKey(b[1..]) == ShapeKey(b)[|b[0]| + 1..];
      ShapeKeyInjective(a[1..], b[1..]);
      assert a == [a[0]] + a[1..] && b == [b[0]] + b[1..];
    }
  }

  lemma FirstMarker(s: Shape, rest: seq<int>, k: nat)
    requires forall j :: 0 <= j < |s| ==> s[j] >= 0
    requires k <= |s| + |rest| && (s + [-1] + rest)[k] == -1
    requires forall j :: 0 <= j < k ==> (s + [-1] + rest)[j] >= 0
    ensures k == |s|
  {
    assert (s + [-1] + rest)[|s|] == -1;
  }

  /** Requests with the same shapes have the same end. */
  ghost predicate Functional(history: seq<Request>) {
    forall i, j :: 0 <= i < |history| && 0 <= j < |history| && history[i].dims == history[j].dims ==>
      history[i].end == history[j].end
  }

  class MaskEndCache {
    const cacheable: bool
    var cached: bool
    var cachedValue: int
    var cachedShapeKey: seq<int>
    ghost var history: seq<Request>

    /** The cached value is the end of some earlier request with the cached shapes. */
    ghost predicate Valid()
      reads this
    {
      cached ==> cacheable && exists i :: Cached(i)
    }

    ghost predicate Cached(i: int)
      reads this
    {
      && 0 <= i < |history| && AreShapes(history[i].dims)
      && ShapeKey(history[i].dims) == cachedShapeKey && history[i].end == cachedValue
    }

    constructor (cacheable: bool)
      ensures Valid() && history == [] && this.cacheable == cacheable
    {
      this.cacheable := cacheable;
      cached, cachedValue, cachedShapeKey := false, -1, [];
      history := [];
    }

    /**
     * Check that the mask ends at Sk. readOk says whether a read from the device would succeed.
     * Shapes that have determined the end so far make the check the one that reads every time. The
     * end last read for these shapes is enough to accept it again, without a read.
     */
    method CheckMaskEnd(request: Request, readOk: bool) returns (outcome: Outcome)
      requires Valid() && AreShapes(request.dims)
      modifies this
      ensures Valid() && history == old(history) + [request]
      ensures readOk && request.end == request.seqlenK ==> outcome == Accepted
      ensures outcome == WrongEnd ==> request.end != request.seqlenK
      ensures outcome == ReadFailed ==> !readOk
      ensures outcome == Accepted && request.end != request.seqlenK ==>
        cacheable && exists i :: 0 <= i < |old(history)| && old(history)[i].dims == request.dims
                       && old(history)[i].end == request.seqlenK
      ensures Functional(history) && outcome == Accepted ==> request.end == request.seqlenK
      ensures
        cacheable && old(cached) && old(cachedShapeKey) == ShapeKey(request.dims)
        && old(cachedValue) == request.seqlenK ==>
          outcome == Accepted
      ensures cacheable && outcome == Accepted ==>
        cached && cachedShapeKey == ShapeKey(request.dims) && cachedValue == request.seqlenK
    {
      ghost var source: int := 0;
      if cached {
        source :| Cached(source);
      }
      var shapeKey := [];
      if cacheable {
        shapeKey := BuildKey(request.dims);
      }
      var cacheHit := cacheable && cached && cachedShapeKey == shapeKey;
      if cacheHit {
        ShapeKeyInjective(history[source].dims, request.dims);
      }
      history := history + [request];
      assert cached ==> Cached(source);
      assert history[|history| - 1] == request;
      var value;
      if cacheHit {
        value := cachedValue;
      } else {
        if !readOk {
          return ReadFailed;
        }
        value := request.end;
        if cacheable {
          cached, cachedValue, cachedShapeKey := true, value, shapeKey;
          assert Cached(|history| - 1);
        }
      }
      if value != request.seqlenK && cacheHit {
        if !readOk {
          return ReadFailed;
        }
        value := request.end;
        cachedValue := value;
        assert Cached(|history| - 1);
      }
      outcome := if value != request.seqlenK then WrongEnd else Accepted;
    }

    /** Once a check was accepted, the same shapes and the same Sk are accepted although nothing can be read. */
    method CheckAgain(request: Request, again: Request, readOk: bool) returns (first: Outcome, second: Outcome)
      requires Valid() && cacheable && AreShapes(request.dims)
      requires again.dims == request.dims && again.seqlenK == request.seqlenK
      modifies this
      ensures Valid() && history == old(history) + [request, again]
      ensures first == Accepted ==> second == Accepted
    {
      first := CheckMaskEnd(request, readOk);
      second := CheckMaskEnd(again, false);
    }

    method BuildKey(dims: seq<Shape>) returns (key: seq<int>)
      ensures key == ShapeKey(dims)
    {
      key := [];
      var i := 0;
      while i < |dims|
        invariant 0 <= i <= |dims|
        invariant key == ShapeKey(dims[..i])
      {
        ShapeKeyAppend(dims[..i], dims[i]);
        assert dims[..i + 1] == dims[..i] + [dims[i]];
        key := key + dims[i];
        key := key + [-1];
        i := i + 1;
      }
      assert dims[..i] == dims;
    }
  }

  // The analysis of the graph is what makes the requests functional.

  /** Names of the fused inputs whose shapes are read, in the order they are read. */
  ghost predicate NamesSources(ctx: Context, sources: set<nat>, names: seq<string>) {
    forall n :: n in ctx.inputIndices && ctx.inputIndices[n] in sources ==> n in names
  }

  function DimsOf<V>(sem: Semantics<V>, run: Run<V>, names: seq<string>): seq<Shape> {
    seq(|names|, i requires 0 <= i < |names| => sem.shapeOf(run(names[i])))
  }

  /** The request a run of the graph makes. */
  function RequestOf<V>(sem: Semantics<V>, run: Run<V>, names: seq<string>, end: string, scalar: V -> int,
                        seqlenK: int): Request {
    Request(DimsOf(sem, run, names), scalar(run(end)), seqlenK)
  }

  /**
   * If the walk accepted the end, then over all runs of the graph with the same constants the
   * shapes read determine the end, so a hit returns what a fresh read would.
   */
  lemma AcceptedEndIsFunctional<V>(sem: Semantics<V>, ctx: Context, rank: string -> nat, end: string, sources: set<nat>,
                                   names: seq<string>, scalar: V -> int, runs: seq<Run<V>>, seqlens: seq<int>)
    requires "" !in ctx.inputIndices && Sound(ctx.producers) && Ordered(ctx, rank)
    requires ValueDetermined(ctx, end, sources) && NamesSources(ctx, sources, names)
    requires |runs| == |seqlens| && forall i :: 0 <= i < |runs| ==> IsRun(sem, ctx, runs[i])
    requires forall i, j, n :: 0 <= i < |runs| && 0 <= j < |runs| && n in ctx.initializers ==> runs[i](n) == runs[j](n)
    ensures Functional(seq(|runs|, i requires 0 <= i < |runs| =>
      RequestOf(sem, runs[i], names, end, scalar, seqlens[i])))
  {
    forall i, j | 0 <= i < |runs| && 0 <= j < |runs| && DimsOf(sem, runs[i], names) == DimsOf(sem, runs[j], names)
      ensures runs[i](end) == runs[j](end)
    {
      forall n | n in ctx.inputIndices && ctx.inputIndices[n] in sources
        ensures sem.shapeOf(runs[i](n)) == sem.shapeOf(runs[j](n))
      {
        var k :| 0 <= k < |names| && names[k] == n;
        assert DimsOf(sem, runs[i], names)[k] == DimsOf(sem, runs[j], names)[k];
      }
      DeterminedValueIsFixedByShapes(sem, ctx, rank, end, sources, runs[i], runs[j]);
    }
  }
}
