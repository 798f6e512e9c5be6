/**
 * Provenance of a value: the two worklists that decide whether a value is fixed by the shapes of
 * the fused inputs, and why a value they accept cannot differ between two runs that agree on those
 * shapes.
 */
module ShapeProvenance {
  import opened Options

  type Shape = seq<int>

  /** perm is the attribute of a Transpose, absent when the dimensions are reversed. */
  datatype Node = Node(op: string, domain: string, inputs: seq<string>, outputs: seq<string>, perm: Option<seq<nat>>)

  /** What the walks look things up in. Input indices are those of the fused node. */
  datatype Context = Context(producers: map<string, Node>, inputIndices: map<string, nat>, initializers: set<string>)

  const SHAPE_ONLY_OPS: set<string> := {
    "Gather", "Unsqueeze", "Squeeze", "Concat", "Add", "Sub", "Mul", "Div", "Cast", "Slice",
    "Identity", "Mod", "Floor", "Ceil", "Reshape", "ReduceProd", "Constant", "ConstantOfShape"}

  predicate IsShapePreservingDataOp(op: string) {
    op == "Transpose" || op == "Cast" || op == "Identity"
  }

  predicate IsOnnxOp(node: Node, op: string) {
    node.op == op && (node.domain == "" || node.domain == "ai.onnx")
  }

  /** First node wins when two name the same output. */
  method BuildProducerMap(nodes: seq<Node>) returns (producers: map<string, Node>)
    ensures forall k :: k in producers <==> exists n :: n in nodes && k in n.outputs
    ensures Sound(producers)
    ensures forall k {:trigger producers[k]} :: k in producers ==> producers[k] in nodes
  {
    producers := map[];
    var i := 0;
    while i < |nodes|
      invariant 0 <= i <= |nodes|
      invariant forall k :: k in producers <==> exists n :: n in nodes[..i] && k in n.outputs
      invariant Sound(producers)
      invariant forall k {:trigger producers[k]} :: k in producers ==> producers[k] in nodes
    {
      var node := nodes[i];
      assert nodes[..i + 1] == nodes[..i] + [node];
      ghost var before := producers;
      var o := 0;
      while o < |node.outputs|
        invariant 0 <= o <= |node.outputs|
        invariant producers.Keys == before.Keys + (set k | k in node.outputs[..o])
        invariant Sound(producers)
        invariant forall k {:trigger producers[k]} :: k in producers ==> producers[k] in nodes
      {
        assert node.outputs[..o + 1] == node.outputs[..o] + [node.outputs[o]];
        if node.outputs[o] !in producers {
          producers := producers[node.outputs[o] := node];
        }
        o := o + 1;
      }
      assert node.outputs[..o] == node.outputs;
      forall k
        ensures k in producers <==> exists n :: n in nodes[..i + 1] && k in n.outputs
      {
        if k in node.outputs {
          assert node in nodes[..i + 1];
        }
      }
      i := i + 1;
    }
    assert nodes[..i] == nodes;
  }

  /** Every name is an output of the node recorded for it. */
  ghost predicate Sound(producers: map<string, Node>) {
    forall k {:trigger producers[k]} :: k in producers ==> k in producers[k].outputs
  }

  // What the walks accept, as properties of a set of visited names.

  ghost predicate KeepsShape(op: string) {
    op == "Transpose" || op == "Cast" || op == "Identity"
  }

  /** Operators that compute their output from the values of their inputs, and from nothing else. */
  ghost predicate ComputesValue(op: string) {
    || op == "Gather" || op == "Unsqueeze" || op == "Squeeze" || op == "Concat" || op == "Add" || op == "Sub"
    || op == "Mul" || op == "Div" || op == "Cast" || op == "Slice" || op == "Identity" || op == "Mod"
    || op == "Floor" || op == "Ceil" || op == "Reshape" || op == "ReduceProd" || op == "Constant"
    || op == "ConstantOfShape"
  }

  /** A Transpose of exactly this name produces a fused input whose index is among the sources. */
  ghost predicate KeyedFromConsumer(ctx: Context, name: string, sources: set<nat>) {
    exists k, o :: KeyedBy(ctx, name, sources, k, o)
  }

  predicate KeyedBy(ctx: Context, name: string, sources: set<nat>, k: string, o: string) {
    && k in ctx.producers
    && ctx.producers[k].op == "Transpose" && (ctx.producers[k].domain == "" || ctx.producers[k].domain == "ai.onnx")
    && ctx.producers[k].inputs == [name] && name != ""
    && o in ctx.producers[k].outputs && o in ctx.inputIndices && ctx.inputIndices[o] in sources
  }

  ghost predicate ShapeKnown(ctx: Context, name: string, sources: set<nat>) {
    || (name in ctx.inputIndices && ctx.inputIndices[name] in sources)
    || name in ctx.initializers
    || KeyedFromConsumer(ctx, name, sources)
  }

  predicate InputsIn(inputs: seq<string>, names: set<string>) {
    forall i :: i in inputs && i != "" ==> i in names
  }

  /** Transpose, Cast and Identity carry a shape over, permuted or as it is. */
  ghost predicate ShapeStep(ctx: Context, name: string, names: set<string>) {
    && name in ctx.producers && KeepsShape(ctx.producers[name].op)
    && InputsIn(ctx.producers[name].inputs, names)
  }

  /** The shape of every name in the set is known, or is carried over from other names in the set. */
  ghost predicate ShapeClosed(ctx: Context, names: set<string>, rest: set<string>, sources: set<nat>) {
    forall name {:trigger name in names} :: name in names ==>
      ShapeKnown(ctx, name, sources) || ShapeStep(ctx, name, rest)
  }

  ghost predicate ShapeDetermined(ctx: Context, name: string, sources: set<nat>) {
    exists names :: name in names && ShapeClosed(ctx, names, names, sources)
  }

  ghost predicate OperandShapeKnown(ctx: Context, source: string, sources: set<nat>) {
    || (source in ctx.inputIndices && ctx.inputIndices[source] in sources)
    || source in ctx.initializers
    || ShapeDetermined(ctx, source, sources)
  }

  ghost predicate ValueStep(ctx: Context, name: string, names: set<string>, sources: set<nat>) {
    if name !in ctx.producers then name in ctx.initializers
    else
      var node := ctx.producers[name];
      if node.op == "Shape" then
        |node.inputs| == 1 && OperandShapeKnown(ctx, node.inputs[0], sources)
      else ComputesValue(node.op) && InputsIn(node.inputs, names)
  }

  /** Every name in the set is a constant, a Shape of something determined, or computed from the set. */
  ghost predicate ValueClosed(ctx: Context, names: set<string>, rest: set<string>, sources: set<nat>) {
    forall name {:trigger name in names} :: name in names ==> ValueStep(ctx, name, rest, sources)
  }

  ghost predicate ValueDetermined(ctx: Context, name: string, sources: set<nat>) {
    exists names :: name in names && ValueClosed(ctx, names, names, sources)
  }

  lemma MoreSources(ctx: Context, name: string, few: set<nat>, many: set<nat>)
    requires few <= many
    ensures ShapeKnown(ctx, name, few) ==> ShapeKnown(ctx, name, many)
    ensures ShapeDetermined(ctx, name, few) ==> ShapeDetermined(ctx, name, many)
    ensures forall names :: ValueStep(ctx, name, names, few) ==> ValueStep(ctx, name, names, many)
  {
    forall n | KeyedFromConsumer(ctx, n, few)
      ensures KeyedFromConsumer(ctx, n, many)
    {
      var k, o :| KeyedBy(ctx, n, few, k, o);
      assert KeyedBy(ctx, n, many, k, o);
    }
    forall n | ShapeDetermined(ctx, n, few)
      ensures ShapeDetermined(ctx, n, many)
    {
      var names :| n in names && ShapeClosed(ctx, names, names, few);
      assert ShapeClosed(ctx, names, names, many);
    }
  }

  // What a value comes from.

  /** Each name of the path is made from the next one. */
  ghost predicate IsPath(ctx: Context, path: seq<string>) {
    forall i {:trigger path[i]} :: 0 <= i < |path| - 1 ==>
      path[i] in ctx.producers && path[i + 1] in ctx.producers[path[i]].inputs
  }

  ghost predicate ReachedBy(ctx: Context, start: string, name: string, path: seq<string>) {
    path != [] && path[0] == start && path[|path| - 1] == name && IsPath(ctx, path)
  }

  /** start is made from name, through any number of nodes. */
  ghost predicate Reaches(ctx: Context, start: string, name: string) {
    exists path :: ReachedBy(ctx, start, name, path)
  }

  /** The fused input with this index is the name, or a Transpose of it. */
  ghost predicate KeysName(ctx: Context, name: string, index: nat) {
    (name in ctx.inputIndices && ctx.inputIndices[name] == index) || KeyedFromConsumer(ctx, name, {index})
  }

  /** The fused input with this index tells the shape of something that start is made from. */
  ghost predicate Relevant(ctx: Context, start: string, index: nat) {
    exists name :: Reaches(ctx, start, name) && KeysName(ctx, name, index)
  }

  lemma ReachesItself(ctx: Context, name: string)
    ensures Reaches(ctx, name, name)
  {
    assert ReachedBy(ctx, name, name, [name]);
  }

  lemma ReachesInputs(ctx: Context, start: string, name: string)
    requires Reaches(ctx, start, name) && name in ctx.producers
    ensures forall i :: i in ctx.producers[name].inputs ==> Reaches(ctx, start, i)
  {
    var path :| ReachedBy(ctx, start, name, path);
    forall i | i in ctx.producers[name].inputs
      ensures Reaches(ctx, start, i)
    {
      assert ReachedBy(ctx, start, i, path + [i]);
    }
  }

  lemma ReachesThrough(ctx: Context, a: string, b: string, c: string)
    requires Reaches(ctx, a, b) && Reaches(ctx, b, c)
    ensures Reaches(ctx, a, c)
  {
    var p :| ReachedBy(ctx, a, b, p);
    var q :| ReachedBy(ctx, b, c, q);
    var n := |p| - 1;
    var path := p + q[1..];
    assert forall i :: 0 <= i < |q| ==> path[n + i] == q[i];
    forall i | 0 <= i < |path| - 1
      ensures path[i] in ctx.producers && path[i + 1] in ctx.producers[path[i]].inputs
    {
      if i >= n {
        assert path[i] == q[i - n] && path[i + 1] == q[i - n + 1];
      } else {
        assert path[i] == p[i] && path[i + 1] == p[i + 1];
      }
    }
    assert ReachedBy(ctx, a, c, path);
  }

  lemma RelevantThrough(ctx: Context, a: string, b: string)
    requires Reaches(ctx, a, b)
    ensures forall i :: Relevant(ctx, b, i) ==> Relevant(ctx, a, i)
  {
    forall i | Relevant(ctx, b, i)
      ensures Relevant(ctx, a, i)
    {
      var name :| Reaches(ctx, b, name) && KeysName(ctx, name, i);
      ReachesThrough(ctx, a, b, name);
    }
  }

  // The walks.

  /** Names a walk can push. */
  function Universe(ctx: Context, name: string): set<string> {
    (set k, i | k in ctx.producers && i in ctx.producers[k].inputs :: i) + {name}
  }

  ghost predicate Consumes(ctx: Context, name: string, n: Node) {
    name != "" && name in n.inputs && exists k :: k in ctx.producers && ctx.producers[k] == n
  }

  ghost predicate ConsumesAmong(ctx: Context, order: seq<string>, done: nat, name: string, n: Node)
    requires done <= |order| && forall k :: k in order <==> k in ctx.producers
  {
    name != "" && name in n.inputs && exists j :: 0 <= j < done && ctx.producers[order[j]] == n
  }

  predicate Lists(consumers: map<string, seq<Node>>, name: string, n: Node) {
    name in consumers && n in consumers[name]
  }

  /** Who reads each name. order is the iteration order of the producer table. */
  method BuildConsumers(ctx: Context, order: seq<string>) returns (consumers: map<string, seq<Node>>)
    requires forall k :: k in order <==> k in ctx.producers
    ensures forall name, n :: Lists(consumers, name, n) <==> Consumes(ctx, name, n)
  {
    consumers := map[];
    var i := 0;
    while i < |order|
      invariant 0 <= i <= |order|
      invariant forall name, n :: Lists(consumers, name, n) <==>
        ConsumesAmong(ctx, order, i, name, n)
    {
      var node := ctx.producers[order[i]];
      ghost var before := consumers;
      var c := 0;
      while c < |node.inputs|
        invariant 0 <= c <= |node.inputs|
        invariant forall name, n :: Lists(consumers, name, n) <==>
          (Lists(before, name, n) || (n == node && name != "" && name in node.inputs[..c]))
      {
        var name := node.inputs[c];
        assert node.inputs[..c + 1] == node.inputs[..c] + [name];
        if name != "" {
          var readers := if name in consumers then consumers[name] else [];
          consumers := consumers[name := readers + [node]];
        }
        c := c + 1;
      }
      assert node.inputs[..c] == node.inputs;
      forall name, n
        ensures ConsumesAmong(ctx, order, i + 1, name, n) <==>
          ConsumesAmong(ctx, order, i, name, n) || (n == node && name != "" && name in node.inputs)
      {
        if n == node {
          assert ctx.producers[order[i]] == n;
        }
      }
      i := i + 1;
    }
    forall name, n
      ensures Lists(consumers, name, n) <==> Consumes(ctx, name, n)
    {
      if Consumes(ctx, name, n) {
        var k :| k in ctx.producers && ctx.producers[k] == n;
        assert k in order;
        var j :| 0 <= j < |order| && order[j] == k;
      }
    }
  }

  function Names(s: seq<string>): set<string> {
    set x | x in s
  }

  function AllSources(ctx: Context): set<nat> {
    ctx.inputIndices.Values
  }

  lemma NamesPush(s: seq<string>, x: string)
    ensures Names(s + [x]) == Names(s) + {x}
  {
    forall n
      ensures n in Names(s + [x]) <==> n in Names(s) + {x}
    {
    }
  }

  /** Push the named inputs; an omitted input has an empty name. */
  method Push(pending: seq<string>, inputs: seq<string>) returns (pending': seq<string>)
    ensures Names(pending') == Names(pending) + (Names(inputs) - {""})
  {
    pending' := pending;
    var i := 0;
    while i < |inputs|
      invariant 0 <= i <= |inputs|
      invariant Names(pending') == Names(pending) + (Names(inputs[..i]) - {""})
    {
      assert inputs[..i + 1] == inputs[..i] + [inputs[i]];
      NamesPush(inputs[..i], inputs[i]);
      NamesPush(pending', inputs[i]);
      if inputs[i] != "" {
        pending' := pending' + [inputs[i]];
      }
      i := i + 1;
    }
    assert inputs[..i] == inputs;
  }

  /** Look for a Transpose of the name that produces fused inputs; the first one found keys the shape. */
  method KeyFromConsumers(ctx: Context, name: string, readers: seq<Node>, sources: set<nat>)
    returns (keyed: bool, sources': set<nat>)
    requires forall n :: n in readers <==> Consumes(ctx, name, n)
    ensures keyed <==> KeyedFromConsumer(ctx, name, AllSources(ctx))
    ensures keyed ==> KeyedFromConsumer(ctx, name, sources')
    ensures sources <= sources' <= sources + AllSources(ctx)
    ensures forall j :: j in sources' && j !in sources ==> KeyedFromConsumer(ctx, name, {j})
  {
    keyed, sources' := false, sources;
    var i := 0;
    while i < |readers| && !keyed
      invariant 0 <= i <= |readers|
      invariant sources <= sources' <= sources + AllSources(ctx)
      invariant forall j :: j in sources' && j !in sources ==> KeyedFromConsumer(ctx, name, {j})
      invariant keyed ==> KeyedFromConsumer(ctx, name, sources')
      invariant !keyed ==> forall k, o :: KeyedBy(ctx, name, AllSources(ctx), k, o) ==>
        ctx.producers[k] !in readers[..i]
    {
      var consumer := readers[i];
      assert readers[..i + 1] == readers[..i] + [consumer];
      assert Consumes(ctx, name, consumer);
      if IsOnnxOp(consumer, "Transpose") && |consumer.inputs| == 1 {
        ghost var k :| k in ctx.producers && ctx.producers[k] == consumer;
        var o := 0;
        while o < |consumer.outputs|
          invariant 0 <= o <= |consumer.outputs|
          invariant sources <= sources' <= sources + AllSources(ctx)
          invariant forall j :: j in sources' && j !in sources ==> KeyedFromConsumer(ctx, name, {j})
          invariant keyed ==> KeyedFromConsumer(ctx, name, sources')
          invariant !keyed ==> forall p :: p in consumer.outputs[..o] ==> p !in ctx.inputIndices
        {
          var output := consumer.outputs[o];
          assert consumer.outputs[..o + 1] == consumer.outputs[..o] + [output];
          if output in ctx.inputIndices {
            sources' := sources' + {ctx.inputIndices[output]};
            assert KeyedBy(ctx, name, sources', k, output);
            assert KeyedBy(ctx, name, {ctx.inputIndices[output]}, k, output);
            keyed := true;
          }
          o := o + 1;
        }
        assert consumer.outputs[..o] == consumer.outputs;
      }
      i := i + 1;
    }
    if keyed {
      var k, o :| KeyedBy(ctx, name, sources', k, o);
      assert KeyedBy(ctx, name, AllSources(ctx), k, o);
    } else {
      assert readers[..i] == readers;
      forall k, o
        ensures !KeyedBy(ctx, name, AllSources(ctx), k, o)
      {
        assert k in ctx.producers ==> (Consumes(ctx, name, ctx.producers[k]) ==> ctx.producers[k] in readers);
      }
    }
  }

  /** Everything the walk has seen or will see lies in every closed set that holds the name it started from. */
  ghost predicate ShapeNeeds(ctx: Context, name: string, seen: set<string>) {
    forall names :: name in names && ShapeClosed(ctx, names, names, AllSources(ctx)) ==> seen <= names
  }

  lemma ShapeClosedGrows(ctx: Context, names: set<string>, rest: set<string>, few: set<nat>,
                         name: string, rest': set<string>, many: set<nat>)
    requires ShapeClosed(ctx, names, rest, few) && rest <= rest' && few <= many
    requires ShapeKnown(ctx, name, many) || ShapeStep(ctx, name, rest')
    ensures ShapeClosed(ctx, names + {name}, rest', many)
  {
    hide ShapeKnown;
    forall n | n in names
      ensures ShapeKnown(ctx, n, many) || ShapeStep(ctx, n, rest')
    {
      MoreSources(ctx, n, few, many);
    }
  }

  /** The three ways the shape of a name is known on the spot. */
  method ShapeSource(ctx: Context, consumers: map<string, seq<Node>>, name: string, sources: set<nat>)
    returns (known: bool, sources': set<nat>)
    requires forall name, n :: Lists(consumers, name, n) <==> Consumes(ctx, name, n)
    ensures known <==> ShapeKnown(ctx, name, AllSources(ctx))
    ensures known ==> ShapeKnown(ctx, name, sources')
    ensures sources <= sources' <= sources + AllSources(ctx)
    ensures forall j :: j in sources' && j !in sources ==> KeysName(ctx, name, j)
  {
    hide KeyedFromConsumer, Consumes;
    if name in ctx.inputIndices {
      return true, sources + {ctx.inputIndices[name]};
    }
    if name in ctx.initializers {
      return true, sources;
    }
    var readers := if name in consumers then consumers[name] else [];
    assert forall n :: n in readers <==> Lists(consumers, name, n);
    known, sources' := KeyFromConsumers(ctx, name, readers, sources);
  }

  /** A name whose shape is not known must be produced by a shape-preserving node, whose inputs are needed too. */
  lemma NeedStep(ctx: Context, start: string, seen: set<string>, name: string)
    requires ShapeNeeds(ctx, start, seen) && name in seen && !ShapeKnown(ctx, name, AllSources(ctx))
    ensures
      var carried := name in ctx.producers && KeepsShape(ctx.producers[name].op);
      && (!carried ==> !ShapeDetermined(ctx, start, AllSources(ctx)))
      && (carried ==> ShapeNeeds(ctx, start, seen + (Names(ctx.producers[name].inputs) - {""})))
  {
    hide ShapeKnown;
    forall names | start in names && ShapeClosed(ctx, names, names, AllSources(ctx))
      ensures ShapeStep(ctx, name, names)
    {
      assert name in names;
    }
  }

  lemma PushedAreInUniverse(ctx: Context, start: string, name: string)
    requires name in ctx.producers
    ensures Names(ctx.producers[name].inputs) <= Universe(ctx, start)
  {
  }

  lemma PopNames(s: seq<string>)
    requires s != []
    ensures Names(s) == Names(s[..|s| - 1]) + {s[|s| - 1]}
  {
    assert s == s[..|s| - 1] + [s[|s| - 1]];
    NamesPush(s[..|s| - 1], s[|s| - 1]);
  }

  ghost predicate AllReached(ctx: Context, start: string, names: set<string>) {
    forall n :: n in names ==> Reaches(ctx, start, n)
  }

  lemma StartReached(ctx: Context, start: string)
    ensures AllReached(ctx, start, {start})
  {
    ReachesItself(ctx, start);
  }

  lemma PushedAreReached(ctx: Context, start: string, name: string, seen: set<string>)
    requires AllReached(ctx, start, seen) && name in seen && name in ctx.producers
    ensures AllReached(ctx, start, seen + (Names(ctx.producers[name].inputs) - {""}))
  {
    ReachesInputs(ctx, start, name);
  }

  lemma KeysAreRelevant(ctx: Context, start: string, name: string, seen: set<string>, few: set<nat>, many: set<nat>)
    requires AllReached(ctx, start, seen) && name in seen
    requires forall j :: j in many && j !in few ==> KeysName(ctx, name, j)
    ensures forall j :: j in many && j !in few ==> Relevant(ctx, start, j)
  {
  }

  lemma StartShapeWalk(ctx: Context, name: string, sources: set<nat>)
    ensures Names([name]) == {name} && name in Universe(ctx, name)
    ensures ShapeClosed(ctx, {}, {name}, sources) && ShapeNeeds(ctx, name, {name})
  {
  }

  lemma EndShapeWalk(ctx: Context, name: string, names: set<string>, sources: set<nat>)
    requires name in names && ShapeClosed(ctx, names, names, sources) && sources <= AllSources(ctx)
    ensures ShapeDetermined(ctx, name, sources) && ShapeDetermined(ctx, name, AllSources(ctx))
  {
    MoreSources(ctx, name, sources, AllSources(ctx));
  }

  lemma StepFromInputs(ctx: Context, name: string, names: set<string>)
    requires name in ctx.producers && KeepsShape(ctx.producers[name].op)
    requires Names(ctx.producers[name].inputs) - {""} <= names
    ensures ShapeStep(ctx, name, names)
  {
    forall i | i in ctx.producers[name].inputs && i != ""
      ensures i in names
    {
      assert i in Names(ctx.producers[name].inputs);
    }
  }

  /**
   * Walk back through shape-preserving producers. It succeeds exactly when the shape is determined
   * by shapes of fused inputs and constants, and then the indices it added suffice. Each of them is of
   * an input that tells the shape of something the value is made from.
   */
  method CollectShapePreservingSources(ctx: Context, valueName: string, order: seq<string>, sources: set<nat>)
    returns (ok: bool, sources': set<nat>)
    requires sources <= AllSources(ctx)
    requires forall k :: k in order <==> k in ctx.producers
    ensures ok <==> ShapeDetermined(ctx, valueName, AllSources(ctx))
    ensures ok ==> ShapeDetermined(ctx, valueName, sources')
    ensures sources <= sources' <= AllSources(ctx)
    ensures forall j :: j in sources' && j !in sources ==> Relevant(ctx, valueName, j)
  {
    hide ShapeKnown, ShapeStep, ShapeClosed, ShapeDetermined, ShapeNeeds, Universe, Names, Lists, Consumes, Reaches,
         KeysName, Relevant;
    var consumers := BuildConsumers(ctx, order);
    var pending, visited := [valueName], {};
    sources' := sources;
    StartShapeWalk(ctx, valueName, sources);
    StartReached(ctx, valueName);
    assert visited + Names(pending) == {valueName};
    while pending != []
      invariant sources <= sources' <= AllSources(ctx)
      invariant visited + Names(pending) <= Universe(ctx, valueName)
      invariant valueName in visited + Names(pending)
      invariant ShapeClosed(ctx, visited, visited + Names(pending), sources')
      invariant ShapeNeeds(ctx, valueName, visited + Names(pending))
      invariant AllReached(ctx, valueName, visited + Names(pending))
      invariant forall j :: j in sources' && j !in sources ==> Relevant(ctx, valueName, j)
      decreases Universe(ctx, valueName) - visited, |pending|
    {
      ghost var seen, done, before := visited + Names(pending), visited, sources';
      PopNames(pending);
      var name := pending[|pending| - 1];
      pending := pending[..|pending| - 1];
      if name in visited {
        assert seen == visited + Names(pending);
        continue;
      }
      visited := visited + {name};
      assert seen == visited + Names(pending);
      var known;
      known, sources' := ShapeSource(ctx, consumers, name, sources');
      KeysAreRelevant(ctx, valueName, name, seen, before, sources');
      if known {
        ShapeClosedGrows(ctx, done, seen, before, name, seen, sources');
        continue;
      }
      NeedStep(ctx, valueName, seen, name);
      if name !in ctx.producers || !IsShapePreservingDataOp(ctx.producers[name].op) {
        return false, sources';
      }
      var inputs := ctx.producers[name].inputs;
      PushedAreInUniverse(ctx, valueName, name);
      PushedAreReached(ctx, valueName, name, seen);
      pending := Push(pending, inputs);
      assert visited + Names(pending) == seen + (Names(inputs) - {""});
      StepFromInputs(ctx, name, visited + Names(pending));
      ShapeClosedGrows(ctx, done, seen, before, name, visited + Names(pending), sources');
    }
    PopNothing();
    assert visited + Names([]) == visited;
    EndShapeWalk(ctx, valueName, visited, sources');
    ok := true;
  }

  lemma PopNothing()
    ensures Names([]) == {}
  {
  }

  /** Whether the operand of a Shape node has a shape that the sources fix. */
  method ShapeOperand(ctx: Context, source: string, order: seq<string>, sources: set<nat>)
    returns (known: bool, sources': set<nat>)
    requires sources <= AllSources(ctx)
    requires forall k :: k in order <==> k in ctx.producers
    ensures known <==> OperandShapeKnown(ctx, source, AllSources(ctx))
    ensures known ==> OperandShapeKnown(ctx, source, sources')
    ensures sources <= sources' <= AllSources(ctx)
    ensures forall j :: j in sources' && j !in sources ==> Relevant(ctx, source, j)
  {
    hide ShapeDetermined, Reaches, KeyedFromConsumer;
    ReachesItself(ctx, source);
    if source in ctx.inputIndices {
      assert KeysName(ctx, source, ctx.inputIndices[source]);
      return true, sources + {ctx.inputIndices[source]};
    }
    if source in ctx.initializers {
      return true, sources;
    }
    known, sources' := CollectShapePreservingSources(ctx, source, order, sources);
  }

  ghost predicate ValueNeeds(ctx: Context, name: string, seen: set<string>) {
    forall names :: name in names && ValueClosed(ctx, names, names, AllSources(ctx)) ==> seen <= names
  }

  /** The name is settled without looking at other values. */
  ghost predicate ValueLeaf(ctx: Context, name: string, sources: set<nat>) {
    if name !in ctx.producers then name in ctx.initializers
    else
      && ctx.producers[name].op == "Shape" && |ctx.producers[name].inputs| == 1
      && OperandShapeKnown(ctx, ctx.producers[name].inputs[0], sources)
  }

  ghost predicate IsComputed(ctx: Context, name: string) {
    name in ctx.producers && ComputesValue(ctx.producers[name].op)
  }

  lemma ValueNeedStep(ctx: Context, start: string, seen: set<string>, name: string)
    requires ValueNeeds(ctx, start, seen) && name in seen && !ValueLeaf(ctx, name, AllSources(ctx))
    ensures !IsComputed(ctx, name) ==> !ValueDetermined(ctx, start, AllSources(ctx))
    ensures IsComputed(ctx, name) ==> ValueNeeds(ctx, start, seen + (Names(ctx.producers[name].inputs) - {""}))
  {
    hide OperandShapeKnown;
    forall names | start in names && ValueClosed(ctx, names, names, AllSources(ctx))
      ensures ValueStep(ctx, name, names, AllSources(ctx))
    {
      assert name in names;
    }
  }

  lemma ValueClosedGrows(ctx: Context, names: set<string>, rest: set<string>, few: set<nat>,
                         name: string, rest': set<string>, many: set<nat>)
    requires ValueClosed(ctx, names, rest, few) && rest <= rest' && few <= many
    requires ValueLeaf(ctx, name, many) || ValueStep(ctx, name, rest', many)
    ensures ValueClosed(ctx, names + {name}, rest', many)
  {
    hide OperandShapeKnown;
    forall n | n in names
      ensures ValueStep(ctx, n, rest', many)
    {
      assert ValueStep(ctx, n, rest, few);
      MoreSources(ctx, n, few, many);
      assert ValueStep(ctx, n, rest, many);
    }
  }

  lemma StartValueWalk(ctx: Context, name: string, sources: set<nat>)
    ensures Names([name]) == {name} && name in Universe(ctx, name)
    ensures ValueClosed(ctx, {}, {name}, sources) && ValueNeeds(ctx, name, {name})
  {
  }

  lemma EndValueWalk(ctx: Context, name: string, names: set<string>, sources: set<nat>)
    requires name in names && ValueClosed(ctx, names, names, sources) && sources <= AllSources(ctx)
    ensures ValueDetermined(ctx, name, sources) && ValueDetermined(ctx, name, AllSources(ctx))
  {
    hide ValueStep;
    forall n | n in names
      ensures ValueStep(ctx, n, names, AllSources(ctx))
    {
      MoreSources(ctx, n, sources, AllSources(ctx));
    }
    assert ValueClosed(ctx, names, names, AllSources(ctx));
  }

  lemma ValueStepFromInputs(ctx: Context, name: string, names: set<string>, sources: set<nat>)
    requires IsComputed(ctx, name) && Names(ctx.producers[name].inputs) - {""} <= names
    ensures ValueStep(ctx, name, names, sources)
  {
    forall i | i in ctx.producers[name].inputs && i != ""
      ensures i in names
    {
      assert i in Names(ctx.producers[name].inputs);
    }
  }

  /**
   * Walk back from a value through shape arithmetic. It succeeds exactly when the value is
   * determined by shapes of fused inputs and constants, and then the indices it returns suffice. Each
   * of them is of an input that tells the shape of something the value is made from.
   */
  method ValueDependsOnlyOnInputShapes(ctx: Context, valueName: string, order: seq<string>)
    returns (ok: bool, sources: set<nat>)
    requires forall k :: k in order <==> k in ctx.producers
    ensures ok <==> ValueDetermined(ctx, valueName, AllSources(ctx))
    ensures ok ==> ValueDetermined(ctx, valueName, sources)
    ensures sources <= AllSources(ctx) && forall j :: j in sources ==> Relevant(ctx, valueName, j)
  {
    hide ValueStep, ValueClosed, ValueNeeds, ValueDetermined, OperandShapeKnown, ShapeDetermined, Universe, Names,
         Reaches, KeysName, Relevant;
    var pending, visited := [valueName], {};
    sources := {};
    StartValueWalk(ctx, valueName, sources);
    StartReached(ctx, valueName);
    assert visited + Names(pending) == {valueName};
    while pending != []
      invariant sources <= AllSources(ctx)
      invariant visited + Names(pending) <= Universe(ctx, valueName)
      invariant valueName in visited + Names(pending)
      invariant ValueClosed(ctx, visited, visited + Names(pending), sources)
      invariant ValueNeeds(ctx, valueName, visited + Names(pending))
      invariant AllReached(ctx, valueName, visited + Names(pending))
      invariant forall j :: j in sources ==> Relevant(ctx, valueName, j)
      decreases Universe(ctx, valueName) - visited, |pending|
    {
      ghost var seen, done, before := visited + Names(pending), visited, sources;
      PopNames(pending);
      var name := pending[|pending| - 1];
      pending := pending[..|pending| - 1];
      if name in visited {
        assert seen == visited + Names(pending);
        continue;
      }
      visited := visited + {name};
      assert seen == visited + Names(pending);
      if name !in ctx.producers {
        if name !in ctx.initializers {
          ValueNeedStep(ctx, valueName, seen, name);
          return false, sources;
        }
        ValueClosedGrows(ctx, done, seen, before, name, seen, sources);
        continue;
      }
      var node := ctx.producers[name];
      if node.op == "Shape" {
        if |node.inputs| != 1 {
          ValueNeedStep(ctx, valueName, seen, name);
          return false, sources;
        }
        ReachesInputs(ctx, valueName, name);
        RelevantThrough(ctx, valueName, node.inputs[0]);
        var known;
        known, sources := ShapeOperand(ctx, node.inputs[0], order, sources);
        if !known {
          ValueNeedStep(ctx, valueName, seen, name);
          return false, sources;
        }
        ValueClosedGrows(ctx, done, seen, before, name, seen, sources);
        continue;
      }
      ValueNeedStep(ctx, valueName, seen, name);
      if node.op !in SHAPE_ONLY_OPS {
        return false, sources;
      }
      PushedAreInUniverse(ctx, valueName, name);
      PushedAreReached(ctx, valueName, name, seen);
      pending := Push(pending, node.inputs);
      assert visited + Names(pending) == seen + (Names(node.inputs) - {""});
      ValueStepFromInputs(ctx, name, visited + Names(pending), sources);
      ValueClosedGrows(ctx, done, seen, before, name, visited + Names(pending), sources);
    }
    PopNothing();
    assert visited + Names([]) == visited;
    EndValueWalk(ctx, valueName, visited, sources);
    ok := true;
  }

  // What a run of the graph computes, and what acceptance says about it.

  /**
   * apply computes a tensor from input tensors, shapeTensor is the Shape operator (section "Shape"
   * of the ONNX operators).
   */
  datatype Semantics<!V> = Semantics(apply: (Node, string, seq<V>) -> V, shapeTensor: (Node, string, Shape) -> V,
                                     shapeOf: V -> Shape, omitted: V)

  type Run<!V> = string -> V

  function Permutation(perm: Option<seq<nat>>, rank: nat): (p: seq<nat>) {
    if perm.Some? then perm.value else seq(rank, i requires 0 <= i < rank => rank - 1 - i)
  }

  ghost predicate IsPermutation(p: seq<nat>, rank: nat) {
    |p| == rank && (forall i :: 0 <= i < rank ==> p[i] < rank) && (forall d :: 0 <= d < rank ==> d in p)
  }

  ghost function Transposed(perm: Option<seq<nat>>, s: Shape): Shape
    requires IsPermutation(Permutation(perm, |s|), |s|)
  {
    var p := Permutation(perm, |s|);
    seq(|s|, i requires 0 <= i < |s| => s[p[i]])
  }

  /** Every valid permutation can be undone, so the transposed shape determines the shape. */
  lemma TransposedIsInjective(perm: Option<seq<nat>>, s: Shape, t: Shape)
    requires IsPermutation(Permutation(perm, |s|), |s|) && IsPermutation(Permutation(perm, |t|), |t|)
    requires Transposed(perm, s) == Transposed(perm, t)
    ensures s == t
  {
    assert |Transposed(perm, s)| == |s| && |Transposed(perm, t)| == |t|;
    var p := Permutation(perm, |s|);
    forall d | 0 <= d < |s|
      ensures s[d] == t[d]
    {
      assert d in p;
      var i :| 0 <= i < |p| && p[i] == d;
      assert Transposed(perm, s)[i] == s[d] && Transposed(perm, t)[i] == t[d];
    }
  }

  ghost predicate CarriesShape(node: Node, from: Shape, to: Shape) {
    if node.op == "Transpose" then
      IsPermutation(Permutation(node.perm, |from|), |from|) && to == Transposed(node.perm, from)
    else to == from
  }

  function Tensors<V>(run: Run<V>, inputs: seq<string>): seq<V> {
    seq(|inputs|, i requires 0 <= i < |inputs| => run(inputs[i]))
  }

  /** The run gives output o of the node what its operator computes. Other operators may compute anything. */
  ghost predicate Computes<V>(sem: Semantics<V>, node: Node, o: string, run: Run<V>) {
    && (node.op == "Shape" && |node.inputs| == 1 ==>
          run(o) == sem.shapeTensor(node, o, sem.shapeOf(run(node.inputs[0]))))
    && (ComputesValue(node.op) ==> run(o) == sem.apply(node, o, Tensors(run, node.inputs)))
    && (node.op == "Transpose" || node.op == "Cast" || node.op == "Identity" ==>
          |node.inputs| > 0 && CarriesShape(node, sem.shapeOf(run(node.inputs[0])), sem.shapeOf(run(o))))
  }

  ghost predicate IsRun<V>(sem: Semantics<V>, ctx: Context, run: Run<V>) {
    && run("") == sem.omitted
    && forall k, o {:trigger o in ctx.producers[k].outputs} ::
         k in ctx.producers && o in ctx.producers[k].outputs && o != "" ==> Computes(sem, ctx.producers[k], o, run)
  }

  /** Inputs come before outputs. */
  ghost predicate Ordered(ctx: Context, rank: string -> nat) {
    forall k, o, i {:trigger o in ctx.producers[k].outputs, i in ctx.producers[k].inputs} ::
      k in ctx.producers && o in ctx.producers[k].outputs && i in ctx.producers[k].inputs && o != "" && i != "" ==>
        rank(i) < rank(o)
  }

  /** The runs have the same constants, and the same shapes for the fused inputs among the sources. */
  ghost predicate Agree<V>(sem: Semantics<V>, ctx: Context, sources: set<nat>, first: Run<V>, second: Run<V>) {
    && (forall n :: n in ctx.initializers ==> first(n) == second(n))
    && (forall n :: n in ctx.inputIndices && ctx.inputIndices[n] in sources ==>
          sem.shapeOf(first(n)) == sem.shapeOf(second(n)))
  }

  lemma KeyedShapesAgree<V>(sem: Semantics<V>, ctx: Context, name: string, sources: set<nat>, first: Run<V>,
                            second: Run<V>)
    requires "" !in ctx.inputIndices && KeyedFromConsumer(ctx, name, sources)
    requires IsRun(sem, ctx, first) && IsRun(sem, ctx, second) && Agree(sem, ctx, sources, first, second)
    ensures sem.shapeOf(first(name)) == sem.shapeOf(second(name))
  {
    var k, o :| KeyedBy(ctx, name, sources, k, o);
    var node := ctx.producers[k];
    assert Computes(sem, node, o, first) && Computes(sem, node, o, second);
    TransposedIsInjective(node.perm, sem.shapeOf(first(name)), sem.shapeOf(second(name)));
  }

  lemma {:induction false} ShapesAgree<V>(sem: Semantics<V>, ctx: Context, rank: string -> nat, name: string,
                                          names: set<string>, sources: set<nat>, first: Run<V>, second: Run<V>)
    requires "" !in ctx.inputIndices && Sound(ctx.producers) && Ordered(ctx, rank)
    requires name in names && ShapeClosed(ctx, names, names, sources)
    requires IsRun(sem, ctx, first) && IsRun(sem, ctx, second) && Agree(sem, ctx, sources, first, second)
    ensures sem.shapeOf(first(name)) == sem.shapeOf(second(name))
    decreases rank(name)
  {
    if name == "" || (name in ctx.inputIndices && ctx.inputIndices[name] in sources) || name in ctx.initializers {
    } else if KeyedFromConsumer(ctx, name, sources) {
      KeyedShapesAgree(sem, ctx, name, sources, first, second);
    } else {
      assert ShapeStep(ctx, name, names);
      var node := ctx.producers[name];
      assert name in node.outputs;
      assert Computes(sem, node, name, first) && Computes(sem, node, name, second);
      if node.inputs[0] != "" {
        assert node.inputs[0] in node.inputs;
        ShapesAgree(sem, ctx, rank, node.inputs[0], names, sources, first, second);
      }
    }
  }

  lemma {:induction false} ValuesAgree<V>(sem: Semantics<V>, ctx: Context, rank: string -> nat, name: string,
                                          names: set<string>, sources: set<nat>, first: Run<V>, second: Run<V>)
    requires "" !in ctx.inputIndices && Sound(ctx.producers) && Ordered(ctx, rank)
    requires name in names && ValueClosed(ctx, names, names, sources)
    requires IsRun(sem, ctx, first) && IsRun(sem, ctx, second) && Agree(sem, ctx, sources, first, second)
    ensures first(name) == second(name)
    decreases rank(name)
  {
    assert ValueStep(ctx, name, names, sources);
    if name == "" || name !in ctx.producers {
    } else {
      var node := ctx.producers[name];
      assert name in node.outputs;
      assert Computes(sem, node, name, first) && Computes(sem, node, name, second);
      if node.op == "Shape" {
        var source := node.inputs[0];
        if ShapeDetermined(ctx, source, sources) {
          var closed :| source in closed && ShapeClosed(ctx, closed, closed, sources);
          ShapesAgree(sem, ctx, rank, source, closed, sources, first, second);
        }
      } else {
        forall i | 0 <= i < |node.inputs|
          ensures first(node.inputs[i]) == second(node.inputs[i])
        {
          if node.inputs[i] != "" {
            assert node.inputs[i] in node.inputs;
            ValuesAgree(sem, ctx, rank, node.inputs[i], names, sources, first, second);
          }
        }
        assert Tensors(first, node.inputs) == Tensors(second, node.inputs);
      }
    }
  }

  /** What acceptance means: no two runs with these shapes in common can give the value differently. */
  lemma DeterminedValueIsFixedByShapes<V>(sem: Semantics<V>, ctx: Context, rank: string -> nat, name: string,
                                          sources: set<nat>, first: Run<V>, second: Run<V>)
    requires "" !in ctx.inputIndices && Sound(ctx.producers) && Ordered(ctx, rank)
    requires ValueDetermined(ctx, name, sources)
    requires IsRun(sem, ctx, first) && IsRun(sem, ctx, second) && Agree(sem, ctx, sources, first, second)
    ensures first(name) == second(name)
  {
    var names :| name in names && ValueClosed(ctx, names, names, sources);
    ValuesAgree(sem, ctx, rank, name, names, sources, first, second);
  }

  // Both ends of the operator lists.

  /** e is the Shape of what the operator makes of the fused input x. */
  function ShapeOf(op: string): Context {
    Context(map["n" := Node(op, "", ["x"], ["n"], None), "e" := Node("Shape", "", ["n"], ["e"], None)],
            map["x" := 0], {})
  }

  /** e is what the operator makes of the Shape of the fused input x. */
  function OfShape(op: string): Context {
    Context(map["n" := Node("Shape", "", ["x"], ["n"], None), "e" := Node(op, "", ["n"], ["e"], None)],
            map["x" := 0], {})
  }

  lemma SourcesOfX(op: string)
    ensures AllSources(ShapeOf(op)) == {0} == AllSources(OfShape(op))
  {
    assert 0 in (map["x" := 0 as nat]).Values by {
      assert (map["x" := 0 as nat])["x"] == 0;
    }
  }

  lemma ShapeOfKept(op: string)
    requires KeepsShape(op)
    ensures ValueDetermined(ShapeOf(op), "e", {0})
  {
    var ctx := ShapeOf(op);
    assert ShapeClosed(ctx, {"n", "x"}, {"n", "x"}, {0});
    assert "n" in {"n", "x"};
    assert ShapeDetermined(ctx, "n", {0});
    assert ValueClosed(ctx, {"e"}, {"e"}, {0});
    assert "e" in {"e"};
  }

  lemma NotKeyed(op: string, sources: set<nat>)
    ensures !KeyedFromConsumer(ShapeOf(op), "n", sources) && !KeyedFromConsumer(OfShape(op), "n", sources)
  {
    assert ["x"][0] != ["n"][0];
  }

  lemma OnlyShapeOfKept(op: string)
    requires ValueDetermined(ShapeOf(op), "e", {0})
    ensures KeepsShape(op)
  {
    var ctx := ShapeOf(op);
    NotKeyed(op, {0});
    var names :| "e" in names && ValueClosed(ctx, names, names, {0});
    assert ValueStep(ctx, "e", names, {0});
    var closed :| "n" in closed && ShapeClosed(ctx, closed, closed, {0});
    assert ShapeStep(ctx, "n", closed);
  }

  /** A Shape over an operator is taken if and only if that is Transpose, Cast or Identity. */
  method ShapeOverOperator(op: string) returns (ok: bool, sources: set<nat>)
    ensures ok <==> op == "Transpose" || op == "Cast" || op == "Identity"
  {
    hide ValueDetermined;
    SourcesOfX(op);
    ok, sources := ValueDependsOnlyOnInputShapes(ShapeOf(op), "e", ["n", "e"]);
    if op == "Transpose" || op == "Cast" || op == "Identity" {
      ShapeOfKept(op);
    }
    if ok {
      OnlyShapeOfKept(op);
    }
  }

  lemma ComputedOfShape(op: string)
    requires ComputesValue(op)
    ensures ValueDetermined(OfShape(op), "e", {0})
  {
    var ctx := OfShape(op);
    assert OperandShapeKnown(ctx, "x", {0});
    assert ValueStep(ctx, "n", {"e", "n"}, {0}) && ValueStep(ctx, "e", {"e", "n"}, {0});
    assert ValueClosed(ctx, {"e", "n"}, {"e", "n"}, {0});
    assert "e" in {"e", "n"};
  }

  lemma OnlyComputedOfShape(op: string)
    requires ValueDetermined(OfShape(op), "e", {0})
    ensures ComputesValue(op)
  {
    var ctx := OfShape(op);
    NotKeyed(op, {0});
    var names :| "e" in names && ValueClosed(ctx, names, names, {0});
    assert ValueStep(ctx, "e", names, {0});
  }

  /** An operator over a Shape is taken if and only if it is one of those that compute values. */
  method OperatorOverShape(op: string) returns (ok: bool, sources: set<nat>)
    ensures ok <==> ComputesValue(op)
  {
    hide ValueDetermined, ComputesValue;
    SourcesOfX(op);
    ok, sources := ValueDependsOnlyOnInputShapes(OfShape(op), "e", ["n", "e"]);
    OnlyOps(op);
    if op in SHAPE_ONLY_OPS {
      ComputedOfShape(op);
    }
    if ok {
      OnlyComputedOfShape(op);
    }
  }

  lemma OnlyOps(op: string)
    ensures op in SHAPE_ONLY_OPS <==> ComputesValue(op)
  {
  }

  /** Tensors as a number and a shape. Operators may make the number into a dimension, and Shape back. */
  function Dimensioned(): Semantics<(int, Shape)> {
    Semantics((node, o, args: seq<(int, Shape)>) => (0, if args == [] then [] else [args[0].0]),
              (node, o, shape: Shape) => (if shape == [1] then 1 else 0, []), (v: (int, Shape)) => v.1, (0, []))
  }

  /** Beside the operators that carry a shape over, and Shape itself, none lets the input's shape fix its output's. */
  lemma OtherShapesDiffer(op: string)
    returns (sem: Semantics<(int, Shape)>, first: Run<(int, Shape)>, second: Run<(int, Shape)>)
    requires op != "Transpose" && op != "Cast" && op != "Identity" && op != "Shape"
    ensures IsRun(sem, ShapeOf(op), first) && IsRun(sem, ShapeOf(op), second)
    ensures sem.shapeOf(first("x")) == sem.shapeOf(second("x")) && first("e") != second("e")
  {
    sem := Dimensioned();
    first := name => if name == "n" then (0, [0]) else (0, []);
    second := name => if name == "x" then (1, []) else if name == "n" then (0, [1]) else if name == "e" then (1, [])
                      else (0, []);
  }

  /** Beside those that compute values, and Shape, no operator lets its input's value fix its output's. */
  lemma OtherValuesDiffer(op: string)
    returns (sem: Semantics<(int, Shape)>, first: Run<(int, Shape)>, second: Run<(int, Shape)>)
    requires !ComputesValue(op) && op != "Shape"
    ensures IsRun(sem, OfShape(op), first) && IsRun(sem, OfShape(op), second)
    ensures sem.shapeOf(first("x")) == sem.shapeOf(second("x")) && first("e") != second("e")
  {
    sem := Dimensioned();
    first := name => (0, []);
    second := name => if name == "e" then (1, []) else (0, []);
  }
}
