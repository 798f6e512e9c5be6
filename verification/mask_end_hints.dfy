/**
 * How what the matcher proves about a mask's Slice end reaches the compiled fusion: as names of
 * fused inputs, stored under the fusion's boundary key and the name of the end.
 */
module MaskEndHints {
  import opened Options
  import opened ShapeProvenance
  import opened MaskEndCaching
  import opened BoundaryKey

  /** One output of a node, with the nodes that read it. */
  datatype Output = Output(name: string, consumers: seq<nat>)

  /** A node of the fusion. An omitted input or output has an empty name. */
  datatype FusionNode = FusionNode(id: nat, inputs: seq<string>, outputs: seq<Output>)

  /** Boundary key, then name of the end, then the inputs whose shapes determine it. */
  type Hints = map<string, map<string, seq<string>>>

  // The boundary of a fusion.

  predicate IsInternal(nodes: seq<FusionNode>, name: string) {
    exists i, o :: 0 <= i < |nodes| && 0 <= o < |nodes[i].outputs| && nodes[i].outputs[o].name == name
  }

  /** Some node of the fusion reads the name, and none has it as an output. */
  ghost predicate IsBoundaryInput(nodes: seq<FusionNode>, name: string) {
    && name != "" && (exists i :: 0 <= i < |nodes| && name in nodes[i].inputs)
    && forall i, o :: 0 <= i < |nodes| && 0 <= o < |nodes[i].outputs| ==> nodes[i].outputs[o].name != name
  }

  /** Each name has its place in the list, and nothing else is in the table. */
  ghost predicate Indexed(names: seq<string>, indices: map<string, nat>) {
    && (forall i :: 0 <= i < |names| ==> names[i] in indices && indices[names[i]] == i)
    && (forall n {:trigger indices[n]} :: n in indices ==> indices[n] < |names| && names[indices[n]] == n)
  }

  /** The inputs of the fusion, numbered in the order in which its nodes name them. */
  method BoundaryInputs(nodes: seq<FusionNode>) returns (names: seq<string>, indices: map<string, nat>)
    ensures Indexed(names, indices) && forall n :: n in names <==> IsBoundaryInput(nodes, n)
  {
    names, indices := [], map[];
    var i := 0;
    while i < |nodes|
      invariant 0 <= i <= |nodes| && Indexed(names, indices)
      invariant forall n :: n in names <==>
        n != "" && !IsInternal(nodes, n) && exists j :: 0 <= j < i && n in nodes[j].inputs
    {
      var inputs := nodes[i].inputs;
      ghost var before := names;
      var k := 0;
      while k < |inputs|
        invariant 0 <= k <= |inputs| && Indexed(names, indices)
        invariant forall n :: n in names <==>
          n in before || (n != "" && !IsInternal(nodes, n) && n in inputs[..k])
      {
        var name := inputs[k];
        assert inputs[..k + 1] == inputs[..k] + [name];
        if name != "" && !IsInternal(nodes, name) && name !in indices {
          indices, names := indices[name := |names|], names + [name];
        }
        k := k + 1;
      }
      assert inputs[..k] == inputs;
      i := i + 1;
    }
  }

  predicate LeavesFusion(nodes: seq<FusionNode>, graphOutputs: set<string>, o: Output) {
    o.name in graphOutputs ||
    exists c :: 0 <= c < |o.consumers| && forall i :: 0 <= i < |nodes| ==> nodes[i].id != o.consumers[c]
  }

  /** n is output k of node i, and an output of the graph or read by a node outside the fusion. */
  ghost predicate LeavesAs(nodes: seq<FusionNode>, graphOutputs: set<string>, n: string, i: int, k: int) {
    && 0 <= i < |nodes| && 0 <= k < |nodes[i].outputs| && nodes[i].outputs[k].name == n
    && (n in graphOutputs ||
        exists c :: c in nodes[i].outputs[k].consumers && forall j :: 0 <= j < |nodes| ==> nodes[j].id != c)
  }

  lemma LeavesMeans(nodes: seq<FusionNode>, graphOutputs: set<string>, i: nat, k: nat)
    requires i < |nodes| && k < |nodes[i].outputs|
    ensures var o := nodes[i].outputs[k];
            LeavesFusion(nodes, graphOutputs, o) <==> LeavesAs(nodes, graphOutputs, o.name, i, k)
  {
    var o := nodes[i].outputs[k];
    if LeavesFusion(nodes, graphOutputs, o) && o.name !in graphOutputs {
      var d :| 0 <= d < |o.consumers| && forall j :: 0 <= j < |nodes| ==> nodes[j].id != o.consumers[d];
      assert o.consumers[d] in o.consumers;
    }
    if LeavesAs(nodes, graphOutputs, o.name, i, k) && o.name !in graphOutputs {
      var c :| c in o.consumers && forall j :: 0 <= j < |nodes| ==> nodes[j].id != c;
      var d :| 0 <= d < |o.consumers| && o.consumers[d] == c;
    }
  }

  /** The outputs that something outside the fusion reads. */
  method BoundaryOutputs(nodes: seq<FusionNode>, graphOutputs: set<string>) returns (names: seq<string>)
    ensures forall n :: n in names <==> exists i, k :: LeavesAs(nodes, graphOutputs, n, i, k)
  {
    names := [];
    var i := 0;
    while i < |nodes|
      invariant 0 <= i <= |nodes|
      invariant forall n :: n in names <==> exists j, k :: 0 <= j < i && LeavesAs(nodes, graphOutputs, n, j, k)
    {
      ghost var before := names;
      var k := 0;
      while k < |nodes[i].outputs|
        invariant 0 <= k <= |nodes[i].outputs|
        invariant forall n :: n in names <==>
          n in before || exists l :: 0 <= l < k && LeavesAs(nodes, graphOutputs, n, i, l)
      {
        var o := nodes[i].outputs[k];
        LeavesMeans(nodes, graphOutputs, i, k);
        if LeavesFusion(nodes, graphOutputs, o) {
          names := names + [o.name];
        }
        k := k + 1;
      }
      assert forall n, l :: LeavesAs(nodes, graphOutputs, n, i, l) ==> 0 <= l < k;
      i := i + 1;
    }
  }

  // The matcher's side.

  /** Shapes of the named values determine the end, in the graph with these producers and constants. */
  ghost predicate SoundHint(producers: map<string, Node>, initializers: set<string>, end: string, names: seq<string>) {
    exists indices, sources :: ProvedBy(producers, initializers, end, names, indices, sources)
  }

  ghost predicate ProvedBy(producers: map<string, Node>, initializers: set<string>, end: string, names: seq<string>,
                           indices: map<string, nat>, sources: set<nat>) {
    var ctx := Context(producers, indices, initializers);
    "" !in indices && ValueDetermined(ctx, end, sources) && NamesSources(ctx, sources, names)
  }

  ghost predicate SoundHints(producers: map<string, Node>, initializers: set<string>, hints: Hints) {
    forall key, end :: key in hints && end in hints[key] ==> SoundHint(producers, initializers, end, hints[key][end])
  }

  /** The names at the given places, in increasing order of the places. */
  method SourceNames(names: seq<string>, sources: set<nat>) returns (listed: seq<string>)
    ensures |listed| <= |names| && forall n :: n in listed <==> exists i :: i in sources && i < |names| && names[i] == n
  {
    listed := [];
    var i := 0;
    while i < |names|
      invariant 0 <= i <= |names| && |listed| <= i
      invariant forall n :: n in listed <==> exists j :: j in sources && j < i && names[j] == n
    {
      if i in sources {
        listed := listed + [names[i]];
      }
      i := i + 1;
    }
  }

  /**
   * Store the inputs whose shapes determine the end: exactly if they do, and it is not fixed without
   * any; each of them tells the shape of something that the end is made from. Whatever was stored
   * before for the same key and end is replaced; hints that were right stay right. ctx is the graph
   * seen through the numbered boundary.
   */
  method AddMaskEndHint(end: string, nodes: seq<FusionNode>, graphOutputs: set<string>, producers: map<string, Node>,
                        order: seq<string>, initializers: set<string>, hints: Hints)
    returns (hints': Hints, ghost stored: bool, ghost ctx: Context)
    requires forall k :: k in order <==> k in producers
    requires SoundHints(producers, initializers, hints)
    ensures SoundHints(producers, initializers, hints')
    ensures ctx.producers == producers && ctx.initializers == initializers
    ensures forall n :: n in ctx.inputIndices <==> IsBoundaryInput(nodes, n)
    ensures stored ==> end != "" && nodes != [] && ValueDetermined(ctx, end, AllSources(ctx))
    ensures end != "" && nodes != [] && ValueDetermined(ctx, end, AllSources(ctx)) && !ValueDetermined(ctx, end, {}) ==>
      stored
    ensures !stored ==> hints' == hints
    ensures stored ==> exists inputs, outputs, names ::
      && (forall n :: n in names ==>
            IsBoundaryInput(nodes, n) && n in ctx.inputIndices && Relevant(ctx, end, ctx.inputIndices[n]))
      && names != []
      && (forall n :: n in inputs <==> IsBoundaryInput(nodes, n))
      && (forall n :: n in outputs <==> n != "" && exists i, k :: LeavesAs(nodes, graphOutputs, n, i, k))
      && AddedTo(hints, hints', Key(inputs, outputs), end, names)
  {
    hide ValueDetermined, NamesSources, Increasing, Key, Relevant, IsBoundaryInput;
    hints', stored := hints, false;
    var inputNames, indices := BoundaryInputs(nodes);
    IndexedAreNames(inputNames, indices);
    var seen := Context(producers, indices, initializers);
    ctx := seen;
    if end == "" || nodes == [] {
      return;
    }
    var outputNames := BoundaryOutputs(nodes, graphOutputs);
    var ok, sources := ValueDependsOnlyOnInputShapes(seen, end, order);
    if !ok || sources == {} {
      return;
    }
    var names := SourceNames(inputNames, sources);
    ListedSources(ctx, inputNames, sources, names);
    NamelessIsNoInput(nodes);
    assert ProvedBy(producers, initializers, end, names, indices, sources);
    var key;
    ghost var inputs, outputs;
    key, inputs, outputs := FusionBoundaryKey(inputNames, outputNames);
    SameNames(inputNames, inputs);
    SameNames(outputNames, outputs);
    StoredKeeps(hints, key, end, names);
    hints', stored := Stored(hints, key, end, names), true;
  }

  /** more is the hints with this one entered: every other hint is as it was. */
  ghost predicate AddedTo(hints: Hints, more: Hints, key: string, end: string, names: seq<string>) {
    && Has(more, key, end) && more[key][end] == names
    && forall k, e {:trigger Has(hints, k, e)} {:trigger Has(more, k, e)} :: k != key || e != end ==>
         (Has(hints, k, e) <==> Has(more, k, e)) && (Has(hints, k, e) ==> more[k][e] == hints[k][e])
  }

  /** Storing a hint touches no hint for another end or under another key. */
  lemma StoredKeeps(hints: Hints, key: string, end: string, names: seq<string>)
    ensures AddedTo(hints, Stored(hints, key, end, names), key, end, names)
  {
  }

  lemma NamelessIsNoInput(nodes: seq<FusionNode>)
    ensures !IsBoundaryInput(nodes, "")
  {
  }

  function Stored(hints: Hints, key: string, end: string, names: seq<string>): Hints {
    hints[key := Under(hints, key)[end := names]]
  }

  lemma IndexedAreNames(names: seq<string>, indices: map<string, nat>)
    requires Indexed(names, indices)
    ensures forall n :: n in indices <==> n in names
  {
    forall n | n in indices
      ensures n in names
    {
      assert names[indices[n]] == n;
    }
  }

  lemma SameNames(names: seq<string>, listing: seq<string>)
    requires Elements(listing) == Elements(names) - {""}
    ensures forall n :: n in listing <==> n in names && n != ""
  {
    assert forall n :: n in listing <==> n in Elements(listing);
  }

  lemma ListedSources(ctx: Context, inputNames: seq<string>, sources: set<nat>, names: seq<string>)
    requires Indexed(inputNames, ctx.inputIndices) && sources <= AllSources(ctx) && sources != {}
    requires forall n :: n in names <==> exists i :: i in sources && i < |inputNames| && inputNames[i] == n
    ensures NamesSources(ctx, sources, names) && names != []
    ensures forall n :: n in names ==> n in ctx.inputIndices && ctx.inputIndices[n] in sources
  {
    var i :| i in sources;
    assert i in ctx.inputIndices.Values;
    var n :| n in ctx.inputIndices && ctx.inputIndices[n] == i;
    assert n in names;
  }

  // The compiled fusion's side.

  /**
   * Look the end up under the fusion's own boundary, and turn the names found into places among the
   * inputs of the fused node. Without a hint, or with a name that is no input, nothing is cached.
   */
  method MaskEndCacheHint(hints: Hints, inputNames: seq<string>, outputNames: seq<string>,
                          fusedIndices: map<string, nat>, end: string)
    returns (cacheable: bool, indices: seq<nat>, ghost key: string)
    ensures exists inputs, outputs ::
      && key == Key(inputs, outputs)
      && Elements(inputs) == Elements(inputNames) - {""} && Elements(outputs) == Elements(outputNames) - {""}
    ensures cacheable <==>
      && key in hints && end in hints[key] && hints[key][end] != []
      && forall n :: n in hints[key][end] ==> n in fusedIndices
    ensures cacheable ==> ReadAt(hints[key][end], fusedIndices, indices)
    ensures !cacheable ==> indices == []
  {
    cacheable, indices := false, [];
    var found;
    ghost var inputs, outputs;
    found, inputs, outputs := FusionBoundaryKey(inputNames, outputNames);
    key := found;
    if found !in hints || end !in hints[found] || hints[found][end] == [] {
      return;
    }
    var names := hints[found][end];
    var places: seq<nat> := [];
    var i := 0;
    while i < |names|
      invariant 0 <= i <= |names| && ReadAt(names[..i], fusedIndices, places)
    {
      if names[i] !in fusedIndices {
        return;
      }
      places := places + [fusedIndices[names[i]]];
      i := i + 1;
    }
    assert names[..i] == names;
    assert forall n :: n in names ==> exists k :: 0 <= k < |names| && names[k] == n;
    cacheable, indices := true, places;
  }

  ghost predicate ReadAt(names: seq<string>, places: map<string, nat>, indices: seq<nat>) {
    |indices| == |names| && forall k :: 0 <= k < |names| ==> names[k] in places && indices[k] == places[names[k]]
  }

  /** The shapes that the compiled fusion reads, at these places among its inputs. */
  function DimsRead<V>(sem: Semantics<V>, run: Run<V>, fusedInputs: seq<string>, indices: seq<nat>): seq<Shape>
    requires forall k :: 0 <= k < |indices| ==> indices[k] < |fusedInputs|
  {
    seq(|indices|, k requires 0 <= k < |indices| => sem.shapeOf(run(fusedInputs[indices[k]])))
  }

  /** Both sides name the same inputs: what is read at the places found is what the hint names. */
  lemma ReadsWhatIsNamed<V>(sem: Semantics<V>, run: Run<V>, names: seq<string>, fusedInputs: seq<string>,
                            fusedIndices: map<string, nat>, indices: seq<nat>)
    requires Indexed(fusedInputs, fusedIndices) && ReadAt(names, fusedIndices, indices)
    ensures forall k :: 0 <= k < |indices| ==> indices[k] < |fusedInputs| && fusedInputs[indices[k]] == names[k]
    ensures DimsRead(sem, run, fusedInputs, indices) == DimsOf(sem, run, names)
  {
  }

  // The store, which outlives the graphs.

  ghost predicate Has(hints: Hints, key: string, end: string) {
    key in hints && end in hints[key]
  }

  function Under(hints: Hints, key: string): map<string, seq<string>> {
    if key in hints then hints[key] else map[]
  }

  /** Hints of one graph entered over those stored before. */
  function Merged(stored: Hints, more: Hints): Hints {
    map key | key in stored.Keys + more.Keys :: Under(stored, key) + Under(more, key)
  }

  /** The store after these graphs' hints were entered, in this order. */
  function Store(entered: seq<Hints>): Hints {
    if entered == [] then map[] else Merged(Store(entered[..|entered| - 1]), entered[|entered| - 1])
  }

  lemma MergedAt(stored: Hints, more: Hints, key: string, end: string)
    ensures Has(Merged(stored, more), key, end) <==> Has(stored, key, end) || Has(more, key, end)
    ensures Has(more, key, end) ==> Merged(stored, more)[key][end] == more[key][end]
    ensures Has(stored, key, end) && !Has(more, key, end) ==> Merged(stored, more)[key][end] == stored[key][end]
  {
  }

  /** Graph k has a hint for the end under this key, and no graph entered later has. */
  ghost predicate LastToHint(entered: seq<Hints>, key: string, end: string, k: int) {
    0 <= k < |entered| && Has(entered[k], key, end) && forall j :: k < j < |entered| ==> !Has(entered[j], key, end)
  }

  lemma MergedNothing(stored: Hints, more: Hints)
    ensures Merged(stored, more - more.Keys) == stored
  {
    forall key | key in stored
      ensures Under(stored, key) + Under(more - more.Keys, key) == stored[key]
    {
      assert Under(more - more.Keys, key) == map[];
    }
  }

  /** Entering the hints of one key that is still to do. */
  lemma MergedOneMore(stored: Hints, more: Hints, todo: set<string>, key: string)
    requires key in todo && key in more
    ensures var merged := Merged(stored, more - todo);
            Merged(stored, more - (todo - {key})) == merged[key := Under(merged, key) + more[key]]
  {
    var left, right := Merged(stored, more - todo), Merged(stored, more - (todo - {key}));
    var target := left[key := Under(left, key) + more[key]];
    assert Under(left, key) == Under(stored, key);
    forall k | k in target
      ensures k in right && right[k] == target[k]
    {
      assert k != key ==> Under(more - todo, k) == Under(more - (todo - {key}), k);
    }
    assert right.Keys == target.Keys;
  }

  lemma StoreOneMore(entered: seq<Hints>, more: Hints)
    ensures Store(entered + [more]) == Merged(Store(entered), more)
  {
    assert (entered + [more])[..|entered|] == entered;
  }

  /** One table of hints for all graphs that the provider is shown. */
  class HintStore {
    var hints: Hints
    ghost var entered: seq<Hints>

    ghost predicate Valid()
      reads this
    {
      hints == Store(entered)
    }

    constructor ()
      ensures Valid() && entered == []
    {
      hints, entered := map[], [];
    }

    method AddMaskEndHints(more: Hints)
      requires Valid()
      modifies this
      ensures Valid() && entered == old(entered) + [more]
      ensures forall key, end :: Has(hints, key, end) <==> Has(old(hints), key, end) || Has(more, key, end)
      ensures forall key, end :: Has(more, key, end) ==> hints[key][end] == more[key][end]
      ensures forall key, end :: Has(old(hints), key, end) && !Has(more, key, end) ==>
                hints[key][end] == old(hints)[key][end]
    {
      hide Merged;
      ghost var before := hints;
      MergedNothing(before, more);
      var todo := more.Keys;
      while todo != {}
        invariant todo <= more.Keys && entered == old(entered) && hints == Merged(before, more - todo)
        decreases todo
      {
        var key :| key in todo;
        MergedOneMore(before, more, todo, key);
        hints := hints[key := Under(hints, key) + more[key]];
        todo := todo - {key};
      }
      assert more - {} == more;
      StoreOneMore(entered, more);
      entered := entered + [more];
      forall key, end
        ensures Has(hints, key, end) <==> Has(before, key, end) || Has(more, key, end)
        ensures Has(more, key, end) ==> hints[key][end] == more[key][end]
        ensures Has(before, key, end) && !Has(more, key, end) ==> hints[key][end] == before[key][end]
      {
        MergedAt(before, more, key, end);
      }
    }
  }

  /** Something is found for an end under a key exactly if some graph has a hint there. */
  lemma {:induction false} FoundIfHinted(entered: seq<Hints>, key: string, end: string)
    ensures Has(Store(entered), key, end) <==> exists k :: LastToHint(entered, key, end, k)
  {
    if entered != [] {
      var n := |entered| - 1;
      FoundIfHinted(entered[..n], key, end);
      MergedAt(Store(entered[..n]), entered[n], key, end);
      if Has(entered[n], key, end) {
        assert LastToHint(entered, key, end, n);
      } else {
        forall k
          ensures LastToHint(entered, key, end, k) <==> LastToHint(entered[..n], key, end, k)
        {
          LastBefore(entered, key, end, k);
        }
      }
    }
  }

  lemma LastBefore(entered: seq<Hints>, key: string, end: string, k: int)
    requires |entered| > 0 && !Has(entered[|entered| - 1], key, end)
    ensures LastToHint(entered, key, end, k) <==> LastToHint(entered[..|entered| - 1], key, end, k)
  {
    var n := |entered| - 1;
    forall j | 0 <= j < n
      ensures entered[..n][j] == entered[j]
    {
    }
  }

  /** And what is found is the hint of the last graph that has one. */
  lemma {:induction false} FoundIsLast(entered: seq<Hints>, key: string, end: string, k: int)
    requires LastToHint(entered, key, end, k)
    ensures Has(Store(entered), key, end) && Store(entered)[key][end] == entered[k][key][end]
  {
    var n := |entered| - 1;
    MergedAt(Store(entered[..n]), entered[n], key, end);
    if k < n {
      LastBefore(entered, key, end, k);
      FoundIsLast(entered[..n], key, end, k);
    }
  }

  /**
   * If the graph that is compiled is the last to have stored a hint for the end, the hint found makes
   * the requests of all its runs functional, so a hit of the cache is what a fresh read would give. That
   * two boundaries of one graph can share the key does no harm: the hint is a fact about the end and
   * the named values, not about the boundary.
   */
  lemma HintedRequestsAreFunctional<V>(sem: Semantics<V>, producers: map<string, Node>, initializers: set<string>,
                                       rank: string -> nat, entered: seq<Hints>, graph: nat,
                                       key: string, end: string,
                                       fusedInputs: seq<string>, fusedIndices: map<string, nat>, indices: seq<nat>,
                                       scalar: V -> int, runs: seq<Run<V>>, seqlens: seq<int>)
    requires LastToHint(entered, key, end, graph) && SoundHints(producers, initializers, entered[graph])
    requires Sound(producers) && Ordered(Context(producers, map[], initializers), rank)
    requires Indexed(fusedInputs, fusedIndices)
    requires Has(Store(entered), key, end) ==> ReadAt(Store(entered)[key][end], fusedIndices, indices)
    requires |runs| == |seqlens|
    requires forall i :: 0 <= i < |runs| ==> IsRun(sem, Context(producers, map[], initializers), runs[i])
    requires forall i, j, n :: 0 <= i < |runs| && 0 <= j < |runs| && n in initializers ==> runs[i](n) == runs[j](n)
    ensures Has(Store(entered), key, end)
    ensures forall k :: 0 <= k < |indices| ==> indices[k] < |fusedInputs|
    ensures Functional(seq(|runs|, i requires 0 <= i < |runs| =>
      Request(DimsRead(sem, runs[i], fusedInputs, indices), scalar(runs[i](end)), seqlens[i])))
  {
    hide Store, Sound, ValueDetermined, NamesSources;
    FoundIsLast(entered, key, end, graph);
    var names := Store(entered)[key][end];
    assert SoundHint(producers, initializers, end, names);
    var inputIndices, sources :| ProvedBy(producers, initializers, end, names, inputIndices, sources);
    var ctx := Context(producers, inputIndices, initializers);
    AcceptedEndIsFunctional(sem, ctx, rank, end, sources, names, scalar, runs, seqlens);
    forall i | 0 <= i < |runs|
      ensures DimsRead(sem, runs[i], fusedInputs, indices) == DimsOf(sem, runs[i], names)
    {
      ReadsWhatIsNamed(sem, runs[i], names, fusedInputs, fusedIndices, indices);
    }
    var asked := seq(|runs|, i requires 0 <= i < |runs| => RequestOf(sem, runs[i], names, end, scalar, seqlens[i]));
    assert Functional(asked);
    assert asked == seq(|runs|, i requires 0 <= i < |runs| =>
      Request(DimsRead(sem, runs[i], fusedInputs, indices), scalar(runs[i](end)), seqlens[i]));
  }

  /** Sole producer of a graph in which the end is computed from x by the given operator. */
  function EndBy(op: string, x: string, end: string): map<string, Node> {
    map[end := Node(op, "", [x], [end], None)]
  }

  /**
   * The graph matters: whatever is found for an end by a graph that has stored nothing, the graph may be
   * one in which the end is the ArgMax of some input, and then two of its runs with the same shapes at
   * the places read have different ends.
   */
  lemma ForeignHintMisleads(entered: seq<Hints>, graph: nat, key: string, end: string, x: string)
    returns (sem: Semantics<int>, first: Run<int>, second: Run<int>)
    requires graph < |entered| && entered[graph] == map[] && end != "" && Has(Store(entered), key, end)
    ensures SoundHints(EndBy("ArgMax", x, end), {}, entered[graph])
    ensures IsRun(sem, Context(EndBy("ArgMax", x, end), map[], {}), first)
    ensures IsRun(sem, Context(EndBy("ArgMax", x, end), map[], {}), second)
    ensures var names := Store(entered)[key][end];
            !Functional([RequestOf(sem, first, names, end, v => v, 1), RequestOf(sem, second, names, end, v => v, 1)])
  {
    hide Store;
    var names := Store(entered)[key][end];
    sem := Semantics((node, o, args) => 0, (node, o, shape) => 0, v => [], 0);
    first, second := n => 0, n => if n == end then 1 else 0;
    assert "ArgMax" !in SHAPE_ONLY_OPS;
    var requests := [RequestOf(sem, first, names, end, v => v, 1), RequestOf(sem, second, names, end, v => v, 1)];
    assert requests[0].dims == requests[1].dims && requests[0].end != requests[1].end;
  }

  /**
   * Such a store comes about with two graphs that have a fusion each that reads e and x and gives y: in
   * the first e is the Shape of x, and its matcher stores that; the second one's matcher stores nothing.
   */
  lemma ForeignHintIsFound() returns (key: string, entered: seq<Hints>)
    ensures key == Key(["e", "x"], ["y"]) && |entered| == 2 && entered[1] == map[]
    ensures SoundHints(EndBy("Shape", "x", "e"), {}, entered[0])
    ensures Has(Store(entered), key, "e") && Store(entered)[key]["e"] == ["x"]
  {
    hide Key;
    key := Key(["e", "x"], ["y"]);
    entered := [map[key := map["e" := ["x"]]], map[]];
    ShapeIsSound();
    assert LastToHint(entered, key, "e", 0);
    FoundIsLast(entered, key, "e", 0);
  }

  /** The shape of x determines its Shape. */
  lemma ShapeIsSound()
    ensures SoundHint(EndBy("Shape", "x", "e"), {}, "e", ["x"])
  {
    var indices: map<string, nat> := map["x" := 0];
    var ctx := Context(EndBy("Shape", "x", "e"), indices, {});
    assert OperandShapeKnown(ctx, "x", {0});
    assert ValueClosed(ctx, {"e"}, {"e"}, {0});
    assert "e" in {"e"};
    assert ValueDetermined(ctx, "e", {0});
    assert ProvedBy(EndBy("Shape", "x", "e"), {}, "e", ["x"], indices, {0});
  }
}
