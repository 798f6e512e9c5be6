/**
 * Concat followed by Split on the last axis of matrices, with Concats and Sums of the Split's
 * outputs behind them: when the matcher takes such nodes, and the copy plan built from them.
 */
module ConcatSplitPlan {
  import opened Options

  // Widths.

  /** Sum of the first k sizes. */
  function Before(sizes: seq<int>, k: nat): int
    requires k <= |sizes|
  {
    if k == 0 then 0 else Before(sizes, k - 1) + sizes[k - 1]
  }

  predicate Positive(sizes: seq<int>) {
    forall i :: 0 <= i < |sizes| ==> sizes[i] > 0
  }

  lemma {:induction false} BeforeIncreases(sizes: seq<int>, k: nat, l: nat)
    requires Positive(sizes) && k <= l <= |sizes|
    ensures Before(sizes, k) <= Before(sizes, l) && (k < l ==> Before(sizes, k) < Before(sizes, l))
    decreases l
  {
    if k < l {
      BeforeIncreases(sizes, k, l - 1);
    }
  }

  /** Piece i of the Split lies in input k of the Concat. */
  predicate Inside(widths: seq<int>, sizes: seq<int>, i: nat, k: nat)
    requires i < |sizes|
  {
    k < |widths| && Before(widths, k) <= Before(sizes, i) && Before(sizes, i) + sizes[i] <= Before(widths, k + 1)
  }

  ghost predicate HasInput(widths: seq<int>, sizes: seq<int>, i: nat)
    requires i < |sizes|
  {
    exists k :: Inside(widths, sizes, i, k)
  }

  /** Every piece lies in one input. */
  ghost predicate Fits(widths: seq<int>, sizes: seq<int>) {
    forall i :: 0 <= i < |sizes| ==> HasInput(widths, sizes, i)
  }

  /** Skip the inputs that end at or before the offset. */
  method SkipInputs(widths: seq<int>, splitOffset: int, index: nat, offset: int) returns (index': nat, offset': int)
    requires index <= |widths| && offset == Before(widths, index)
    ensures index <= index' <= |widths| && offset' == Before(widths, index')
    ensures index' < |widths| ==> splitOffset < Before(widths, index' + 1)
    ensures index < index' ==> offset' <= splitOffset
  {
    index', offset' := index, offset;
    while index' < |widths| && splitOffset >= offset' + widths[index']
      invariant index <= index' <= |widths| && offset' == Before(widths, index')
      invariant index < index' ==> offset' <= splitOffset
    {
      offset' := offset' + widths[index'];
      index' := index' + 1;
    }
  }

  /** No input holds the piece that starts here. */
  lemma NotInside(widths: seq<int>, sizes: seq<int>, i: nat, index: nat)
    requires Positive(widths) && Positive(sizes) && i < |sizes| && index <= |widths|
    requires Before(widths, index) <= Before(sizes, i)
    requires index < |widths| ==> Before(sizes, i) < Before(widths, index + 1) < Before(sizes, i) + sizes[i]
    ensures !HasInput(widths, sizes, i)
  {
    forall k: nat | k < |widths|
      ensures !Inside(widths, sizes, i, k)
    {
      if k < index {
        BeforeIncreases(widths, k + 1, index);
      } else if index < k {
        BeforeIncreases(widths, index + 1, k);
      }
    }
  }

  /** Where a piece comes from. */
  datatype Located = Located(input: nat, offset: int)

  ghost predicate LocatedAt(widths: seq<int>, sizes: seq<int>, i: nat, at: Located)
    requires i < |sizes|
  {
    Inside(widths, sizes, i, at.input) && at.offset == Before(sizes, i) - Before(widths, at.input)
  }

  /** The matcher's walk over the widths. */
  method WidthsFit(widths: seq<int>, sizes: seq<int>) returns (ok: bool)
    requires Positive(widths) && Positive(sizes)
    ensures ok <==> Fits(widths, sizes)
  {
    var splitOffset, index, offset := 0, 0, 0;
    var i := 0;
    while i < |sizes|
      invariant 0 <= i <= |sizes| && splitOffset == Before(sizes, i)
      invariant index <= |widths| && offset == Before(widths, index) && offset <= splitOffset
      invariant forall j :: 0 <= j < i ==> HasInput(widths, sizes, j)
    {
      index, offset := SkipInputs(widths, splitOffset, index, offset);
      if index >= |widths| {
        NotInside(widths, sizes, i, index);
        return false;
      }
      var localStart := splitOffset - offset;
      if localStart < 0 || localStart + sizes[i] > widths[index] {
        NotInside(widths, sizes, i, index);
        return false;
      }
      assert Inside(widths, sizes, i, index);
      splitOffset := splitOffset + sizes[i];
      i := i + 1;
    }
    ok := true;
  }

  /** The creator's walk, which keeps where each piece comes from. It takes sizes of any sign. */
  method WalkSplits(widths: seq<int>, sizes: seq<int>) returns (ok: bool, at: seq<Located>)
    requires Positive(widths)
    ensures ok ==> |at| == |sizes| && forall i :: 0 <= i < |sizes| ==> LocatedAt(widths, sizes, i, at[i])
    ensures Positive(sizes) ==> (ok <==> Fits(widths, sizes))
  {
    var splitOffset, index, offset := 0, 0, 0;
    at := [];
    var i := 0;
    while i < |sizes|
      invariant 0 <= i <= |sizes| && splitOffset == Before(sizes, i) && |at| == i
      invariant index <= |widths| && offset == Before(widths, index)
      invariant Positive(sizes) ==> offset <= splitOffset
      invariant forall j :: 0 <= j < i ==> LocatedAt(widths, sizes, j, at[j])
    {
      index, offset := SkipInputs(widths, splitOffset, index, offset);
      if index >= |widths| {
        if Positive(sizes) {
          NotInside(widths, sizes, i, index);
        }
        return false, at;
      }
      var sourceOffset := splitOffset - offset;
      if sourceOffset < 0 || sourceOffset + sizes[i] > widths[index] {
        if Positive(sizes) {
          NotInside(widths, sizes, i, index);
        }
        return false, at;
      }
      at := at + [Located(index, sourceOffset)];
      splitOffset := splitOffset + sizes[i];
      i := i + 1;
    }
    ok := true;
    forall j | 0 <= j < |sizes|
      ensures HasInput(widths, sizes, j)
    {
      assert Inside(widths, sizes, j, at[j].input);
    }
  }

  // Nodes.

  /** axis is the attribute as stored, if present. */
  datatype ConcatNode = ConcatNode(axis: Option<int>, inputs: seq<string>, output: string)
  datatype SumNode = SumNode(inputs: seq<string>, output: string)

  /** sources[k] is the index, among the fused node's inputs, of the Concat's input k. */
  datatype Pattern = Pattern(concatAxis: Option<int>, widths: seq<int>, sources: seq<nat>,
                             splitAxis: Option<int>, splitOutputs: seq<string>, splitSizes: seq<int>,
                             concats: seq<ConcatNode>, sums: seq<SumNode>, outputs: seq<string>)

  /** Axes count from the end when negative. */
  function NormalizeAxis(axis: int, rank: nat): Option<int> {
    if rank == 0 || axis + rank < 0 || axis >= rank then None
    else Some(if axis < 0 then axis + rank else axis)
  }

  predicate IsLastAxis(axis: Option<int>) {
    axis.Some? && NormalizeAxis(axis.value, 2) == Some(1)
  }

  lemma LastAxisIsOneOrMinusOne(axis: Option<int>)
    ensures IsLastAxis(axis) <==> axis == Some(1) || axis == Some(-1)
  {
  }

  /** Each piece has its own name. */
  ghost predicate DistinctPieces(p: Pattern) {
    forall i, j :: 0 <= i < j < |p.splitOutputs| ==> p.splitOutputs[i] != p.splitOutputs[j]
  }

  // The matcher.

  ghost predicate FromSplit(p: Pattern, inputs: seq<string>) {
    forall t :: 0 <= t < |inputs| ==> inputs[t] in p.splitOutputs
  }

  /** These pieces are the inputs, in order. */
  ghost predicate Names(p: Pattern, inputs: seq<string>, parts: seq<nat>) {
    && |parts| == |inputs|
    && forall t :: 0 <= t < |parts| ==> parts[t] < |p.splitOutputs| && p.splitOutputs[parts[t]] == inputs[t]
  }

  ghost predicate NamedPiece(p: Pattern, j: nat, name: string) {
    j < |p.splitOutputs| && j < |p.splitSizes| && p.splitOutputs[j] == name
  }

  /** The pieces named by the inputs have one width. */
  ghost predicate SameWidths(p: Pattern, inputs: seq<string>) {
    forall i: nat, j: nat, t: nat, u: nat {:trigger NamedPiece(p, i, inputs[t]), NamedPiece(p, j, inputs[u])} ::
      (t < |inputs| && u < |inputs| && NamedPiece(p, i, inputs[t]) && NamedPiece(p, j, inputs[u])) ==>
        p.splitSizes[i] == p.splitSizes[j]
  }

  ghost predicate HeadMatches(p: Pattern) {
    && |p.widths| > 0 && Positive(p.widths) && |p.splitOutputs| > 0 && |p.splitSizes| == |p.splitOutputs|
    && IsLastAxis(p.concatAxis) && IsLastAxis(p.splitAxis)
    && Positive(p.splitSizes) && Before(p.splitSizes, |p.splitSizes|) == Before(p.widths, |p.widths|)
    && Fits(p.widths, p.splitSizes)
  }

  ghost predicate ConcatMatches(p: Pattern, c: ConcatNode) {
    IsLastAxis(c.axis) && FromSplit(p, c.inputs)
  }

  ghost predicate SumMatches(p: Pattern, s: SumNode) {
    |s.inputs| >= 2 && FromSplit(p, s.inputs) && SameWidths(p, s.inputs)
  }

  /** Total width, or nothing when some width is not positive. */
  method TotalWidth(sizes: seq<int>) returns (ok: bool, total: int)
    ensures ok <==> Positive(sizes)
    ensures ok ==> total == Before(sizes, |sizes|)
  {
    total := 0;
    var i := 0;
    while i < |sizes|
      invariant 0 <= i <= |sizes| && total == Before(sizes, i)
      invariant forall j :: 0 <= j < i ==> sizes[j] > 0
    {
      if sizes[i] <= 0 {
        return false, total;
      }
      total := total + sizes[i];
      i := i + 1;
    }
    ok := true;
  }

  /** Whether the matcher takes the Concat and the Split. */
  method CanFuseConcatSplit(p: Pattern) returns (ok: bool)
    ensures ok <==> HeadMatches(p)
  {
    if |p.widths| == 0 || |p.splitOutputs| == 0 || p.concatAxis == None {
      return false;
    }
    var splitAxis := if p.splitAxis.Some? then p.splitAxis.value else 0;
    if NormalizeAxis(p.concatAxis.value, 2) != Some(1) || NormalizeAxis(splitAxis, 2) != Some(1)
       || |p.splitSizes| != |p.splitOutputs| {
      return false;
    }
    var widthsOk, total := TotalWidth(p.widths);
    if !widthsOk {
      return false;
    }
    var sizesOk, splitTotal := TotalWidth(p.splitSizes);
    if !sizesOk || splitTotal != total {
      return false;
    }
    ok := WidthsFit(p.widths, p.splitSizes);
  }

  // The creator.

  datatype Segment = Segment(source: nat, output: nat, sourceOffset: int, width: int, dstOffset: int)
  datatype Term = Term(source: nat, sourceOffset: int)
  datatype SumSpec = SumSpec(output: nat, width: int, terms: seq<Term>)
  datatype Plan = Plan(widths: seq<int>, segments: seq<Segment>, sums: seq<SumSpec>)

  /** What an output of the fused node is: pieces side by side, or pieces added up. */
  datatype Kind = Copy(parts: seq<nat>) | Add(parts: seq<nat>)

  ghost predicate PartsOf(p: Pattern, parts: seq<nat>) {
    |p.sources| == |p.widths| && forall t :: 0 <= t < |parts| ==> parts[t] < |p.splitSizes|
  }

  ghost function PartsWidth(p: Pattern, parts: seq<nat>): int
    requires PartsOf(p, parts)
  {
    if parts == [] then 0 else PartsWidth(p, parts[..|parts| - 1]) + p.splitSizes[parts[|parts| - 1]]
  }

  ghost predicate AllLocated(p: Pattern, at: seq<Located>) {
    |at| == |p.splitSizes| && forall i :: 0 <= i < |at| ==> LocatedAt(p.widths, p.splitSizes, i, at[i])
  }

  /** The copies that put these pieces side by side in an output. */
  ghost function PartSegments(p: Pattern, at: seq<Located>, parts: seq<nat>, output: nat): seq<Segment>
    requires PartsOf(p, parts) && AllLocated(p, at)
  {
    seq(|parts|, t requires 0 <= t < |parts| =>
      Segment(p.sources[at[parts[t]].input], output, at[parts[t]].offset, p.splitSizes[parts[t]],
              PartsWidth(p, parts[..t])))
  }

  ghost function PartTerms(p: Pattern, at: seq<Located>, parts: seq<nat>): seq<Term>
    requires PartsOf(p, parts) && AllLocated(p, at)
  {
    seq(|parts|, t requires 0 <= t < |parts| => Term(p.sources[at[parts[t]].input], at[parts[t]].offset))
  }

  ghost predicate IsKind(p: Pattern, name: string, kind: Kind) {
    match kind
    case Copy(parts) =>
      || (|parts| == 1 && Names(p, [name], parts))
      || exists c :: c in p.concats && c.output == name && Names(p, c.inputs, parts)
    case Add(parts) =>
      |parts| > 0 && exists s :: s in p.sums && s.output == name && Names(p, s.inputs, parts) && SameWidths(p, s.inputs)
  }

  ghost predicate KindsOk(p: Pattern, kinds: seq<Kind>) {
    forall o :: 0 <= o < |kinds| ==> PartsOf(p, kinds[o].parts) && (kinds[o].Add? ==> kinds[o].parts != [])
  }

  ghost function WidthOf(p: Pattern, kind: Kind): int
    requires PartsOf(p, kind.parts) && (kind.Add? ==> kind.parts != [])
  {
    if kind.Copy? then PartsWidth(p, kind.parts) else p.splitSizes[kind.parts[0]]
  }

  ghost function SegmentsUpTo(p: Pattern, at: seq<Located>, kinds: seq<Kind>, n: nat): seq<Segment>
    requires n <= |kinds| && KindsOk(p, kinds) && AllLocated(p, at)
  {
    if n == 0 then []
    else SegmentsUpTo(p, at, kinds, n - 1)
         + if kinds[n - 1].Copy? then PartSegments(p, at, kinds[n - 1].parts, n - 1) else []
  }

  ghost function SumsUpTo(p: Pattern, at: seq<Located>, kinds: seq<Kind>, n: nat): seq<SumSpec>
    requires n <= |kinds| && KindsOk(p, kinds) && AllLocated(p, at)
  {
    if n == 0 then []
    else SumsUpTo(p, at, kinds, n - 1)
         + if kinds[n - 1].Add? then [SumSpec(n - 1, WidthOf(p, kinds[n - 1]), PartTerms(p, at, kinds[n - 1].parts))]
         else []
  }

  /** The plan copies and adds, for each output, the pieces that its node would combine. */
  ghost predicate Implements(p: Pattern, plan: Plan, at: seq<Located>, kinds: seq<Kind>) {
    && AllLocated(p, at) && KindsOk(p, kinds) && |kinds| == |p.outputs| == |plan.widths|
    && (forall o :: 0 <= o < |kinds| ==> IsKind(p, p.outputs[o], kinds[o]) && plan.widths[o] == WidthOf(p, kinds[o]))
    && plan.segments == SegmentsUpTo(p, at, kinds, |kinds|) && plan.sums == SumsUpTo(p, at, kinds, |kinds|)
  }

  ghost predicate Known(p: Pattern, name: string) {
    || name in p.splitOutputs || (exists c :: c in p.concats && c.output == name)
    || (exists s :: s in p.sums && s.output == name)
  }

  /** What the creator demands; it looks at the stored axes. */
  ghost predicate Buildable(p: Pattern) {
    && p.concatAxis == Some(1) && p.splitAxis == Some(1) && |p.splitOutputs| > 0 && |p.splitSizes| == |p.splitOutputs|
    && Fits(p.widths, p.splitSizes)
    && (forall c :: c in p.concats ==> c.axis == Some(1) && FromSplit(p, c.inputs))
    && (forall s :: s in p.sums ==> SumMatches(p, s))
    && (forall o :: 0 <= o < |p.outputs| ==> Known(p, p.outputs[o]))
  }

  /** What the creator looks names up in; pieces is which piece a name stands for. */
  ghost predicate SpecsOk(p: Pattern, at: seq<Located>, specs: map<string, Segment>, pieces: map<string, nat>) {
    && |p.sources| == |p.widths| && AllLocated(p, at) && |p.splitOutputs| == |p.splitSizes|
    && specs.Keys == pieces.Keys == (set n | n in p.splitOutputs)
    && forall name {:trigger specs[name]} :: name in specs ==> PieceSpec(p, at, pieces[name], name, specs[name])
  }

  ghost predicate PieceSpec(p: Pattern, at: seq<Located>, j: nat, name: string, s: Segment) {
    && NamedPiece(p, j, name) && j < |at| && at[j].input < |p.sources|
    && s == Segment(p.sources[at[j].input], 0, at[j].offset, p.splitSizes[j], 0)
  }

  method SplitSpecs(p: Pattern, at: seq<Located>) returns (specs: map<string, Segment>, ghost pieces: map<string, nat>)
    requires |p.sources| == |p.widths| && AllLocated(p, at) && |p.splitOutputs| == |p.splitSizes|
    ensures SpecsOk(p, at, specs, pieces)
  {
    specs, pieces := map[], map[];
    var i := 0;
    while i < |p.splitSizes|
      invariant 0 <= i <= |p.splitSizes|
      invariant specs.Keys == pieces.Keys == (set n | n in p.splitOutputs[..i])
      invariant forall name {:trigger specs[name]} :: name in specs ==>
        PieceSpec(p, at, pieces[name], name, specs[name])
    {
      var name := p.splitOutputs[i];
      assert p.splitOutputs[..i + 1] == p.splitOutputs[..i] + [name];
      assert LocatedAt(p.widths, p.splitSizes, i, at[i]);
      if name !in specs {
        specs := specs[name := Segment(p.sources[at[i].input], 0, at[i].offset, p.splitSizes[i], 0)];
        pieces := pieces[name := i];
      }
      i := i + 1;
    }
    assert p.splitOutputs[..i] == p.splitOutputs;
  }

  /** Put the named pieces side by side. */
  method ConcatSegments(p: Pattern, ghost at: seq<Located>, specs: map<string, Segment>, ghost pieces: map<string, nat>,
                        inputs: seq<string>)
    returns (ok: bool, segments: seq<Segment>, ghost parts: seq<nat>)
    requires SpecsOk(p, at, specs, pieces)
    ensures ok <==> FromSplit(p, inputs)
    ensures ok ==> Names(p, inputs, parts) && PartsOf(p, parts) && segments == PartSegments(p, at, parts, 0)
  {
    segments, parts := [], [];
    var dstOffset := 0;
    var i := 0;
    while i < |inputs|
      invariant 0 <= i <= |inputs|
      invariant FromSplit(p, inputs[..i]) && Names(p, inputs[..i], parts) && PartsOf(p, parts)
      invariant dstOffset == PartsWidth(p, parts) && segments == PartSegments(p, at, parts, 0)
    {
      if inputs[i] !in specs {
        assert inputs[i] !in p.splitOutputs;
        return false, segments, parts;
      }
      var segment := specs[inputs[i]].(dstOffset := dstOffset);
      PartsPush(p, at, parts, pieces[inputs[i]], 0);
      segments := segments + [segment];
      parts := parts + [pieces[inputs[i]]];
      dstOffset := dstOffset + segment.width;
      i := i + 1;
    }
    ok := true;
    assert inputs[..i] == inputs;
  }

  lemma NoParts(p: Pattern, at: seq<Located>)
    requires |p.sources| == |p.widths| && AllLocated(p, at)
    ensures PartTerms(p, at, []) == [] && PartsWidth(p, []) == 0
  {
  }

  lemma SpecLookup(p: Pattern, at: seq<Located>, specs: map<string, Segment>, pieces: map<string, nat>, name: string)
    requires SpecsOk(p, at, specs, pieces)
    ensures name in specs <==> name in p.splitOutputs
    ensures name in specs ==> name in pieces && PieceSpec(p, at, pieces[name], name, specs[name])
  {
    assert name in specs <==> name in specs.Keys;
    assert name in pieces <==> name in pieces.Keys;
  }

  lemma NamesPush(p: Pattern, inputs: seq<string>, i: nat, parts: seq<nat>, j: nat)
    requires i < |inputs| && FromSplit(p, inputs[..i]) && Names(p, inputs[..i], parts) && NamedPiece(p, j, inputs[i])
    ensures FromSplit(p, inputs[..i + 1]) && Names(p, inputs[..i + 1], parts + [j])
  {
  }

  lemma PartsPush(p: Pattern, at: seq<Located>, parts: seq<nat>, j: nat, output: nat)
    requires PartsOf(p, parts) && AllLocated(p, at) && j < |p.splitSizes|
    ensures PartsOf(p, parts + [j]) && PartsWidth(p, parts + [j]) == PartsWidth(p, parts) + p.splitSizes[j]
    ensures PartSegments(p, at, parts + [j], output) == PartSegments(p, at, parts, output)
      + [Segment(p.sources[at[j].input], output, at[j].offset, p.splitSizes[j], PartsWidth(p, parts))]
    ensures PartTerms(p, at, parts + [j]) == PartTerms(p, at, parts) + [Term(p.sources[at[j].input], at[j].offset)]
  {
    var all := parts + [j];
    assert all[..|parts|] == parts;
    assert forall t :: 0 <= t < |parts| ==> all[..t] == parts[..t];
  }

  /** Add the named pieces, which must have one width. */
  method SumTerms(p: Pattern, ghost at: seq<Located>, specs: map<string, Segment>, ghost pieces: map<string, nat>,
                  inputs: seq<string>)
    returns (ok: bool, spec: SumSpec, ghost parts: seq<nat>)
    requires SpecsOk(p, at, specs, pieces) && DistinctPieces(p) && Positive(p.splitSizes)
    ensures ok <==> |inputs| >= 2 && FromSplit(p, inputs) && SameWidths(p, inputs)
    ensures ok ==> Names(p, inputs, parts) && PartsOf(p, parts) && |parts| > 0
    ensures ok ==> spec == SumSpec(0, p.splitSizes[parts[0]], PartTerms(p, at, parts))
  {
    hide SpecsOk, PartTerms, PartSegments, PartsWidth, AllLocated, LocatedAt;
    spec, parts := SumSpec(0, -1, []), [];
    if |inputs| < 2 {
      return false, spec, parts;
    }
    SpecsGiveLocated(p, at, specs, pieces);
    NoParts(p, at);
    var terms: seq<Term> := [];
    var width := -1;
    var i := 0;
    while i < |inputs|
      invariant 0 <= i <= |inputs|
      invariant FromSplit(p, inputs[..i]) && Names(p, inputs[..i], parts) && PartsOf(p, parts)
      invariant terms == PartTerms(p, at, parts)
      invariant width == if i == 0 then -1 else p.splitSizes[parts[0]]
      invariant forall t :: 0 <= t < i ==> p.splitSizes[parts[t]] == p.splitSizes[parts[0]]
    {
      SpecLookup(p, at, specs, pieces, inputs[i]);
      if inputs[i] !in specs {
        return false, spec, parts;
      }
      var s := specs[inputs[i]];
      ghost var j := pieces[inputs[i]];
      if width < 0 {
        width := s.width;
      } else if width != s.width {
        assert NamedPiece(p, parts[0], inputs[0]);
        return false, spec, parts;
      }
      PartsPush(p, at, parts, j, 0);
      NamesPush(p, inputs, i, parts, j);
      terms := terms + [Term(s.source, s.sourceOffset)];
      parts := parts + [j];
      i := i + 1;
    }
    assert inputs[..i] == inputs;
    forall a: nat, b: nat, t: nat, u: nat |
        t < |inputs| && u < |inputs| && NamedPiece(p, a, inputs[t]) && NamedPiece(p, b, inputs[u])
      ensures p.splitSizes[a] == p.splitSizes[b]
    {
      assert a == parts[t] && b == parts[u];
    }
    spec := SumSpec(0, width, terms);
    ok := true;
  }

  ghost predicate ConcatsDone(p: Pattern, at: seq<Located>, n: nat, table: map<string, seq<Segment>>,
                              parts: map<string, seq<nat>>)
    requires n <= |p.concats| && |p.sources| == |p.widths| && AllLocated(p, at)
  {
    && table.Keys == parts.Keys == (set c | c in p.concats[..n] :: c.output)
    && forall name {:trigger table[name]} :: name in table ==> IsConcatEntry(p, at, name, table[name], parts[name])
  }

  ghost predicate IsConcatEntry(p: Pattern, at: seq<Located>, name: string, segments: seq<Segment>, parts: seq<nat>)
    requires |p.sources| == |p.widths| && AllLocated(p, at)
  {
    && PartsOf(p, parts) && segments == PartSegments(p, at, parts, 0)
    && exists c :: c in p.concats && c.output == name && Names(p, c.inputs, parts)
  }

  method CollectConcats(p: Pattern, ghost at: seq<Located>, specs: map<string, Segment>, ghost pieces: map<string, nat>)
    returns (ok: bool, table: map<string, seq<Segment>>, ghost parts: map<string, seq<nat>>)
    requires SpecsOk(p, at, specs, pieces)
    ensures ok <==> forall c :: c in p.concats ==> c.axis == Some(1) && FromSplit(p, c.inputs)
    ensures ok ==> ConcatsDone(p, at, |p.concats|, table, parts)
  {
    hide SpecsOk, PartSegments, PartsOf, FromSplit, Names;
    table, parts := map[], map[];
    SpecsGiveLocated(p, at, specs, pieces);
    var i := 0;
    while i < |p.concats|
      invariant 0 <= i <= |p.concats|
      invariant forall c :: c in p.concats[..i] ==> c.axis == Some(1) && FromSplit(p, c.inputs)
      invariant ConcatsDone(p, at, i, table, parts)
    {
      var c := p.concats[i];
      assert p.concats[..i + 1] == p.concats[..i] + [c];
      if c.axis != Some(1) {
        return false, table, parts;
      }
      var fine, segments;
      ghost var ps;
      fine, segments, ps := ConcatSegments(p, at, specs, pieces, c.inputs);
      if !fine {
        return false, table, parts;
      }
      if c.output !in table {
        assert IsConcatEntry(p, at, c.output, segments, ps);
        table := table[c.output := segments];
        parts := parts[c.output := ps];
      }
      i := i + 1;
    }
    assert p.concats[..i] == p.concats;
    ok := true;
  }

  lemma SpecsGiveLocated(p: Pattern, at: seq<Located>, specs: map<string, Segment>, pieces: map<string, nat>)
    requires SpecsOk(p, at, specs, pieces)
    ensures |p.sources| == |p.widths| && AllLocated(p, at)
  {
  }

  ghost predicate SumsDone(p: Pattern, at: seq<Located>, n: nat, table: map<string, SumSpec>,
                           parts: map<string, seq<nat>>)
    requires n <= |p.sums| && |p.sources| == |p.widths| && AllLocated(p, at)
  {
    && table.Keys == parts.Keys == (set s | s in p.sums[..n] :: s.output)
    && forall name {:trigger table[name]} :: name in table ==> IsSumEntry(p, at, name, table[name], parts[name])
  }

  ghost predicate IsSumEntry(p: Pattern, at: seq<Located>, name: string, spec: SumSpec, parts: seq<nat>)
    requires |p.sources| == |p.widths| && AllLocated(p, at)
  {
    && |parts| > 0 && PartsOf(p, parts) && spec == SumSpec(0, p.splitSizes[parts[0]], PartTerms(p, at, parts))
    && exists s :: s in p.sums && s.output == name && Names(p, s.inputs, parts) && SameWidths(p, s.inputs)
  }

  method CollectSums(p: Pattern, ghost at: seq<Located>, specs: map<string, Segment>, ghost pieces: map<string, nat>)
    returns (ok: bool, table: map<string, SumSpec>, ghost parts: map<string, seq<nat>>)
    requires SpecsOk(p, at, specs, pieces) && DistinctPieces(p) && Positive(p.splitSizes)
    ensures ok <==> forall s :: s in p.sums ==> SumMatches(p, s)
    ensures ok ==> SumsDone(p, at, |p.sums|, table, parts)
  {
    hide SpecsOk, PartTerms, PartsOf, FromSplit, SameWidths, Names;
    table, parts := map[], map[];
    SpecsGiveLocated(p, at, specs, pieces);
    var i := 0;
    while i < |p.sums|
      invariant 0 <= i <= |p.sums|
      invariant forall s :: s in p.sums[..i] ==> SumMatches(p, s)
      invariant SumsDone(p, at, i, table, parts)
    {
      var s := p.sums[i];
      assert p.sums[..i + 1] == p.sums[..i] + [s];
      assert s in p.sums;
      var fine, spec;
      ghost var ps;
      fine, spec, ps := SumTerms(p, at, specs, pieces, s.inputs);
      if !fine {
        return false, table, parts;
      }
      if s.output !in table {
        assert IsSumEntry(p, at, s.output, spec, ps);
        table := table[s.output := spec];
        parts := parts[s.output := ps];
      }
      i := i + 1;
    }
    assert p.sums[..i] == p.sums;
    ok := true;
  }

  /** Total width of the pieces, and their copies into this output. */
  method PlaceSegments(segments: seq<Segment>, output: nat) returns (width: int, placed: seq<Segment>)
    ensures placed == seq(|segments|, t requires 0 <= t < |segments| => segments[t].(output := output))
    ensures width == SegmentWidths(segments)
  {
    width, placed := 0, [];
    var i := 0;
    while i < |segments|
      invariant 0 <= i <= |segments| && width == SegmentWidths(segments[..i])
      invariant placed == seq(i, t requires 0 <= t < i => segments[t].(output := output))
    {
      assert segments[..i + 1][..i] == segments[..i];
      width := width + segments[i].width;
      placed := placed + [segments[i].(output := output)];
      i := i + 1;
    }
    assert segments[..i] == segments;
  }

  function SegmentWidths(segments: seq<Segment>): int {
    if segments == [] then 0 else SegmentWidths(segments[..|segments| - 1]) + segments[|segments| - 1].width
  }

  lemma PlacedParts(p: Pattern, at: seq<Located>, parts: seq<nat>, output: nat)
    requires PartsOf(p, parts) && AllLocated(p, at)
    ensures
      var segments := PartSegments(p, at, parts, 0);
      && seq(|segments|, t requires 0 <= t < |segments| => segments[t].(output := output))
           == PartSegments(p, at, parts, output)
      && SegmentWidths(segments) == PartsWidth(p, parts)
  {
    hide PartsWidth, LocatedAt, SegmentWidths;
    PlacedWidth(p, at, parts);
  }

  lemma {:induction false} PlacedWidth(p: Pattern, at: seq<Located>, parts: seq<nat>)
    requires PartsOf(p, parts) && AllLocated(p, at)
    ensures SegmentWidths(PartSegments(p, at, parts, 0)) == PartsWidth(p, parts)
  {
    if parts != [] {
      hide LocatedAt, PartSegments, PartTerms;
      var n := |parts| - 1;
      PlacedWidth(p, at, parts[..n]);
      assert parts == parts[..n] + [parts[n]];
      PartsPush(p, at, parts[..n], parts[n], 0);
      SegmentWidthsPush(PartSegments(p, at, parts[..n], 0),
        Segment(p.sources[at[parts[n]].input], 0, at[parts[n]].offset, p.splitSizes[parts[n]],
                PartsWidth(p, parts[..n])));
    } else {
      NoSegments(p, at, 0);
    }
  }

  lemma SegmentWidthsPush(segments: seq<Segment>, s: Segment)
    ensures SegmentWidths(segments + [s]) == SegmentWidths(segments) + s.width
  {
    assert (segments + [s])[..|segments|] == segments;
  }

  lemma OnePart(p: Pattern, at: seq<Located>, name: string, s: Segment, j: nat, output: nat)
    requires |p.sources| == |p.widths| && AllLocated(p, at) && PieceSpec(p, at, j, name, s)
    ensures PartsOf(p, [j]) && PartsWidth(p, [j]) == s.width
    ensures PartSegments(p, at, [j], output) == [s.(output := output)]
    ensures IsKind(p, name, Copy([j]))
  {
    hide PartTerms, PartsWidth, PartSegments, LocatedAt, SameWidths;
    NoParts(p, at);
    NoSegments(p, at, output);
    PartsPush(p, at, [], j, output);
    assert [] + [j] == [j];
    assert Names(p, [name], [j]);
  }

  lemma NoSegments(p: Pattern, at: seq<Located>, output: nat)
    requires |p.sources| == |p.widths| && AllLocated(p, at)
    ensures PartSegments(p, at, [], output) == []
  {
  }

  /** Width, copies and sum that this output needs. */
  ghost predicate PlannedOne(p: Pattern, at: seq<Located>, o: nat, kind: Kind, width: int, segments: seq<Segment>,
                             sums: seq<SumSpec>)
    requires |p.sources| == |p.widths| && AllLocated(p, at)
  {
    && PartsOf(p, kind.parts) && (kind.Add? ==> kind.parts != []) && width == WidthOf(p, kind)
    && segments == (if kind.Copy? then PartSegments(p, at, kind.parts, o) else [])
    && sums == (if kind.Add? then [SumSpec(o, width, PartTerms(p, at, kind.parts))] else [])
  }

  /** Look a name up as a piece, then as a Concat, then as a Sum. */
  method PlanOutput(p: Pattern, ghost at: seq<Located>, specs: map<string, Segment>, ghost pieces: map<string, nat>,
                    concats: map<string, seq<Segment>>, ghost concatParts: map<string, seq<nat>>,
                    sums: map<string, SumSpec>, ghost sumParts: map<string, seq<nat>>, name: string, o: nat)
    returns (ok: bool, width: int, segments: seq<Segment>, added: seq<SumSpec>, ghost kind: Kind)
    requires SpecsOk(p, at, specs, pieces) && |p.sources| == |p.widths| && AllLocated(p, at)
    requires ConcatsDone(p, at, |p.concats|, concats, concatParts) && SumsDone(p, at, |p.sums|, sums, sumParts)
    ensures ok <==> Known(p, name)
    ensures ok ==> IsKind(p, name, kind) && PlannedOne(p, at, o, kind, width, segments, added)
  {
    hide SpecsOk, PartTerms, PartSegments, PartsWidth, AllLocated, PartsOf, IsKind, ConcatsDone, SumsDone;
    SpecLookup(p, at, specs, pieces, name);
    EntryLookup(p, at, concats, concatParts, sums, sumParts, name);
    ok, width, segments, added, kind := true, 0, [], [], Copy([]);
    if name in specs {
      OnePart(p, at, name, specs[name], pieces[name], o);
      kind := Copy([pieces[name]]);
      width, segments := specs[name].width, [specs[name].(output := o)];
    } else if name in concats {
      PlacedParts(p, at, concatParts[name], o);
      kind := Copy(concatParts[name]);
      width, segments := PlaceSegments(concats[name], o);
    } else if name in sums {
      kind := Add(sumParts[name]);
      width, added := sums[name].width, [sums[name].(output := o)];
    } else {
      ok := false;
    }
  }

  /** The output loop. */
  method PlanOutputs(p: Pattern, ghost at: seq<Located>, specs: map<string, Segment>, ghost pieces: map<string, nat>,
                     concats: map<string, seq<Segment>>, ghost concatParts: map<string, seq<nat>>,
                     sums: map<string, SumSpec>, ghost sumParts: map<string, seq<nat>>)
    returns (ok: bool, plan: Plan, ghost kinds: seq<Kind>)
    requires SpecsOk(p, at, specs, pieces) && |p.sources| == |p.widths| && AllLocated(p, at)
    requires ConcatsDone(p, at, |p.concats|, concats, concatParts) && SumsDone(p, at, |p.sums|, sums, sumParts)
    ensures ok <==> forall o :: 0 <= o < |p.outputs| ==> Known(p, p.outputs[o])
    ensures ok ==> Implements(p, plan, at, kinds)
  {
    hide SpecsOk, AllLocated, Known, Built, PlannedOne, ConcatsDone, SumsDone, IsKind;
    plan, kinds := Plan([], [], []), [];
    BuiltNothing(p, at);
    var o := 0;
    while o < |p.outputs|
      invariant 0 <= o <= |p.outputs|
      invariant Built(p, at, plan, kinds, o)
      invariant forall q :: 0 <= q < o ==> Known(p, p.outputs[q])
    {
      var found, width, segments, added;
      ghost var kind;
      found, width, segments, added, kind := PlanOutput(p, at, specs, pieces, concats, concatParts, sums, sumParts,
                                                        p.outputs[o], o);
      if !found {
        return false, plan, kinds;
      }
      BuiltPush(p, at, plan, kinds, o, kind, width, segments, added);
      plan := Plan(plan.widths + [width], plan.segments + segments, plan.sums + added);
      kinds := kinds + [kind];
      o := o + 1;
    }
    BuiltAll(p, at, plan, kinds);
    ok := true;
  }

  lemma BuiltNothing(p: Pattern, at: seq<Located>)
    requires AllLocated(p, at)
    ensures Built(p, at, Plan([], [], []), [], 0)
  {
  }

  lemma BuiltAll(p: Pattern, at: seq<Located>, plan: Plan, kinds: seq<Kind>)
    requires Built(p, at, plan, kinds, |p.outputs|)
    ensures Implements(p, plan, at, kinds)
  {
  }

  lemma EntryLookup(p: Pattern, at: seq<Located>, concats: map<string, seq<Segment>>,
                    concatParts: map<string, seq<nat>>,
                    sums: map<string, SumSpec>, sumParts: map<string, seq<nat>>, name: string)
    requires |p.sources| == |p.widths| && AllLocated(p, at)
    requires ConcatsDone(p, at, |p.concats|, concats, concatParts) && SumsDone(p, at, |p.sums|, sums, sumParts)
    ensures name in concats <==> exists c :: c in p.concats && c.output == name
    ensures name in sums <==> exists s :: s in p.sums && s.output == name
    ensures name in concats ==> name in concatParts && PartsOf(p, concatParts[name])
    ensures name in concats ==> IsKind(p, name, Copy(concatParts[name]))
    ensures name in concats ==> concats[name] == PartSegments(p, at, concatParts[name], 0)
    ensures name in sums ==> name in sumParts && PartsOf(p, sumParts[name]) && |sumParts[name]| > 0
    ensures name in sums ==> IsKind(p, name, Add(sumParts[name]))
    ensures name in sums ==> sums[name] == SumSpec(0, p.splitSizes[sumParts[name][0]], PartTerms(p, at, sumParts[name]))
  {
    hide PartSegments, PartTerms, AllLocated, Names, SameWidths, PartsOf;
    assert p.concats[..|p.concats|] == p.concats && p.sums[..|p.sums|] == p.sums;
    assert name in concats <==> name in concats.Keys;
    assert name in sums <==> name in sums.Keys;
    assert name in concatParts <==> name in concatParts.Keys;
    assert name in sumParts <==> name in sumParts.Keys;
    if name in concats {
      assert IsConcatEntry(p, at, name, concats[name], concatParts[name]);
    }
    if name in sums {
      assert IsSumEntry(p, at, name, sums[name], sumParts[name]);
    }
  }

  /** The plan of the first n outputs. */
  ghost predicate Built(p: Pattern, at: seq<Located>, plan: Plan, kinds: seq<Kind>, n: nat)
    requires n <= |p.outputs|
  {
    && AllLocated(p, at) && KindsOk(p, kinds) && |kinds| == n == |plan.widths|
    && (forall o :: 0 <= o < n ==> IsKind(p, p.outputs[o], kinds[o]) && plan.widths[o] == WidthOf(p, kinds[o]))
    && plan.segments == SegmentsUpTo(p, at, kinds, n) && plan.sums == SumsUpTo(p, at, kinds, n)
  }

  lemma {:induction false} UpToPush(p: Pattern, at: seq<Located>, kinds: seq<Kind>, kind: Kind, n: nat)
    requires KindsOk(p, kinds) && KindsOk(p, kinds + [kind]) && AllLocated(p, at) && n <= |kinds|
    ensures SegmentsUpTo(p, at, kinds + [kind], n) == SegmentsUpTo(p, at, kinds, n)
    ensures SumsUpTo(p, at, kinds + [kind], n) == SumsUpTo(p, at, kinds, n)
  {
    if n > 0 {
      UpToPush(p, at, kinds, kind, n - 1);
      assert (kinds + [kind])[n - 1] == kinds[n - 1];
    }
  }

  lemma BuiltPush(p: Pattern, at: seq<Located>, plan: Plan, kinds: seq<Kind>, n: nat,
                  kind: Kind, width: int, segments: seq<Segment>, added: seq<SumSpec>)
    requires n < |p.outputs| && Built(p, at, plan, kinds, n) && |p.sources| == |p.widths| && AllLocated(p, at)
    requires IsKind(p, p.outputs[n], kind) && PlannedOne(p, at, n, kind, width, segments, added)
    ensures Built(p, at, Plan(plan.widths + [width], plan.segments + segments, plan.sums + added), kinds + [kind],
                  n + 1)
  {
    hide AllLocated, PartsOf, IsKind, PartSegments, PartTerms, PartsWidth;
    assert KindsOk(p, kinds + [kind]);
    UpToPush(p, at, kinds, kind, n);
    assert (kinds + [kind])[n] == kind;
  }

  /** Build the plan; failures are the exceptions of the original. */
  method CreateConcatSplitFusion(p: Pattern)
    returns (ok: bool, plan: Plan, ghost at: seq<Located>, ghost kinds: seq<Kind>)
    requires |p.sources| == |p.widths| && DistinctPieces(p) && Positive(p.splitSizes)
    ensures Positive(p.widths) && Buildable(p) ==> Implements(p, plan, at, kinds)
    ensures ok <==> Positive(p.widths) && Buildable(p) && plan.widths != [] && (plan.segments != [] || plan.sums != [])
  {
    hide Positive, Fits, AllLocated, SumMatches, FromSplit, Known, ConcatsDone, SumsDone, SpecsOk, Implements;
    plan, at, kinds := Plan([], [], []), [], [];
    if p.concatAxis != Some(1) || p.splitAxis != Some(1) || |p.splitOutputs| == 0
       || |p.splitSizes| != |p.splitOutputs| {
      return false, plan, at, kinds;
    }
    var widthsOk, total := TotalWidth(p.widths);
    if !widthsOk {
      return false, plan, at, kinds;
    }
    var fits, located := WalkSplits(p.widths, p.splitSizes);
    if !fits {
      return false, plan, at, kinds;
    }
    at := located;
    LocatedAll(p, at);
    var specs;
    ghost var pieces;
    specs, pieces := SplitSpecs(p, located);
    var concatsOk, concats;
    ghost var concatParts;
    concatsOk, concats, concatParts := CollectConcats(p, at, specs, pieces);
    if !concatsOk {
      return false, plan, at, kinds;
    }
    var sumsOk, sums;
    ghost var sumParts;
    sumsOk, sums, sumParts := CollectSums(p, at, specs, pieces);
    if !sumsOk {
      return false, plan, at, kinds;
    }
    SpecsGiveLocated(p, at, specs, pieces);
    ok, plan, kinds := PlanOutputs(p, at, specs, pieces, concats, concatParts, sums, sumParts);
    if plan.widths == [] || (plan.segments == [] && plan.sums == []) {
      ok := false;
    }
  }

  lemma LocatedAll(p: Pattern, at: seq<Located>)
    requires |at| == |p.splitSizes|
    requires forall i :: 0 <= i < |p.splitSizes| ==> LocatedAt(p.widths, p.splitSizes, i, at[i])
    ensures AllLocated(p, at)
  {
  }

  /** What the matcher takes, as a whole; the outputs are among what the nodes produce. */
  ghost predicate Matched(p: Pattern) {
    && HeadMatches(p)
    && (forall c :: c in p.concats ==> ConcatMatches(p, c) && c.inputs != [])
    && (forall s :: s in p.sums ==> SumMatches(p, s))
    && p.outputs != [] && forall o :: 0 <= o < |p.outputs| ==> Known(p, p.outputs[o])
  }

  ghost predicate AxesAreOne(p: Pattern) {
    p.concatAxis == Some(1) && p.splitAxis == Some(1) && forall c :: c in p.concats ==> c.axis == Some(1)
  }

  lemma KindHasParts(p: Pattern, name: string, kind: Kind)
    requires Matched(p) && IsKind(p, name, kind)
    ensures kind.parts != []
  {
  }

  /** A plan with an output has something to do. */
  lemma PlanIsNotEmpty(p: Pattern, plan: Plan, at: seq<Located>, kinds: seq<Kind>)
    requires Matched(p) && Implements(p, plan, at, kinds)
    ensures plan.widths != [] && (plan.segments != [] || plan.sums != [])
  {
    hide PartTerms, PartsWidth, AllLocated, SameWidths;
    var n := |kinds| - 1;
    assert IsKind(p, p.outputs[n], kinds[n]);
    KindHasParts(p, p.outputs[n], kinds[n]);
    if kinds[n].Copy? {
      assert |PartSegments(p, at, kinds[n].parts, n)| > 0;
    }
  }

  /**
   * What the matcher takes, the creator builds exactly when every axis is stored as 1: the matcher
   * also takes -1, which the creator does not normalize.
   */
  method MatchedBuildsIffAxesAreOne(p: Pattern) returns (ok: bool, plan: Plan)
    requires |p.sources| == |p.widths| && DistinctPieces(p) && Matched(p)
    ensures ok <==> AxesAreOne(p)
    ensures ok ==> exists at, kinds :: Implements(p, plan, at, kinds)
  {
    hide Fits, FromSplit, Known, SumMatches, Implements;
    ghost var at, kinds;
    ok, plan, at, kinds := CreateConcatSplitFusion(p);
    if Buildable(p) {
      PlanIsNotEmpty(p, plan, at, kinds);
    }
  }

  /** A pattern that the matcher takes and the creator refuses. */
  method MinusOneIsRefused() returns (p: Pattern, taken: bool, built: bool)
    ensures p.concatAxis == Some(-1) && p.splitAxis == Some(-1) && Matched(p) && !AxesAreOne(p)
    ensures |p.sources| == |p.widths| && DistinctPieces(p)
    ensures taken && !built
  {
    p := Pattern(Some(-1), [2, 3], [0, 1], Some(-1), ["a", "b"], [2, 3], [], [], ["a", "b"]);
    LastAxisIsOneOrMinusOne(p.concatAxis);
    assert Before(p.widths, 1) == 2 && Before(p.widths, 2) == 5;
    assert Inside(p.widths, p.splitSizes, 0, 0) && Inside(p.widths, p.splitSizes, 1, 1);
    taken := CanFuseConcatSplit(p);
    var plan;
    built, plan := MatchedBuildsIffAxesAreOne(p);
  }
}
