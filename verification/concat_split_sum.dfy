/**
 * Running the sums of a plan: one flat table of terms for all of them, and a grid of threads each
 * of which strides over the cells, in any order, against Sum of the ONNX operators.
 */
module ConcatSplitSum {
  import opened ConcatSplitPlan
  import opened ConcatSplitCopy

  // The sum of pieces, and of terms.

  /** Column c of the sum of the pieces, added in order from zero. */
  ghost function SumCell<T>(p: Pattern, at: seq<Located>, inputs: seq<Tensor<T>>, rows: nat, r: nat, parts: seq<nat>,
                            c: nat, zero: T, plus: (T, T) -> T): T
    requires Ready(p, at, inputs, rows) && r < rows && PartsOf(p, parts)
    requires forall t :: 0 <= t < |parts| ==> c < p.splitSizes[parts[t]]
  {
    if parts == [] then zero
    else
      PieceHasInput(p, at, inputs, rows, parts[|parts| - 1]);
      plus(SumCell(p, at, inputs, rows, r, parts[..|parts| - 1], c, zero, plus),
           SplitRow(p, inputs, rows, r, parts[|parts| - 1])[c])
  }

  ghost predicate TermFits<T>(term: Term, inputs: seq<Tensor<T>>, rows: nat, cols: int) {
    && term.source < |inputs| && |inputs[term.source].data| == rows * inputs[term.source].cols
    && 0 <= term.sourceOffset && term.sourceOffset + cols <= inputs[term.source].cols
  }

  ghost predicate TermsFit<T>(terms: seq<Term>, inputs: seq<Tensor<T>>, rows: nat, cols: int) {
    forall t :: 0 <= t < |terms| ==> TermFits(terms[t], inputs, rows, cols)
  }

  /** Column c of the sum of the inputs' stretches. */
  ghost function TermsCell<T>(terms: seq<Term>, inputs: seq<Tensor<T>>, rows: nat, cols: int, r: nat, c: nat,
                              zero: T, plus: (T, T) -> T): T
    requires TermsFit(terms, inputs, rows, cols) && r < rows && c < cols
  {
    if terms == [] then zero
    else
      var last := terms[|terms| - 1];
      assert TermFits(last, inputs, rows, cols);
      plus(TermsCell(terms[..|terms| - 1], inputs, rows, cols, r, c, zero, plus),
           Cell(inputs[last.source], rows, r, last.sourceOffset + c))
  }

  /** The plan's terms of some pieces add up to the sum of the pieces. */
  lemma {:induction false} TermsAddPieces<T>(p: Pattern, at: seq<Located>, inputs: seq<Tensor<T>>, rows: nat, cols: int,
                                             parts: seq<nat>, r: nat, c: nat, zero: T, plus: (T, T) -> T)
    requires Ready(p, at, inputs, rows) && PartsOf(p, parts) && r < rows && c < cols
    requires forall t :: 0 <= t < |parts| ==> p.splitSizes[parts[t]] == cols
    ensures TermsFit(PartTerms(p, at, parts), inputs, rows, cols)
    ensures TermsCell(PartTerms(p, at, parts), inputs, rows, cols, r, c, zero, plus)
         == SumCell(p, at, inputs, rows, r, parts, c, zero, plus)
  {
    hide SplitRow;
    if parts != [] {
      var n := |parts| - 1;
      TermsAddPieces(p, at, inputs, rows, cols, parts[..n], r, c, zero, plus);
      ReadyPiece(p, at, inputs, rows, parts[n]);
      PieceIsInInput(p, inputs, rows, r, parts[n], at[parts[n]], c);
      assert PartTerms(p, at, parts)[..n] == PartTerms(p, at, parts[..n]);
    }
  }

  // The tables.

  /** Where a sum goes, how wide the output is, and its stretch of the table of terms. */
  datatype SumOutput = SumOutput(output: nat, cols: int, termOffset: nat, termCount: nat)

  datatype SumTable = SumTable(outputs: seq<SumOutput>, terms: seq<Term>)

  ghost predicate HasTerms(table: SumTable, s: nat, spec: SumSpec) {
    && s < |table.outputs|
    && var out := table.outputs[s];
       && out.output == spec.output && out.cols == spec.width && out.termCount == |spec.terms|
       && out.termOffset + out.termCount <= |table.terms|
       && table.terms[out.termOffset..out.termOffset + out.termCount] == spec.terms
  }

  /** The table holds the plan's sums. */
  ghost predicate Tabulates(table: SumTable, sums: seq<SumSpec>) {
    |table.outputs| == |sums| && forall s :: 0 <= s < |sums| ==> HasTerms(table, s, sums[s])
  }

  /** Lay the terms of all sums one after the other. The columns are those of the output's shape. */
  method TabulateSums(sums: seq<SumSpec>, widths: seq<int>) returns (table: SumTable)
    requires forall s :: 0 <= s < |sums| ==> sums[s].output < |widths| && widths[sums[s].output] == sums[s].width
    ensures Tabulates(table, sums)
  {
    var outputs, terms := [], [];
    var s := 0;
    while s < |sums|
      invariant 0 <= s <= |sums| && |outputs| == s
      invariant forall q :: 0 <= q < s ==> HasTerms(SumTable(outputs, terms), q, sums[q])
    {
      var sum := sums[s];
      ghost var outputs0, terms0 := outputs, terms;
      outputs := outputs + [SumOutput(sum.output, widths[sum.output], |terms|, |sum.terms|)];
      var t := 0;
      while t < |sum.terms|
        invariant 0 <= t <= |sum.terms| && terms == terms0 + sum.terms[..t]
      {
        terms := terms + [sum.terms[t]];
        t := t + 1;
      }
      assert sum.terms[..t] == sum.terms;
      forall q | 0 <= q < s
        ensures HasTerms(SumTable(outputs, terms), q, sums[q])
      {
        var out := outputs0[q];
        assert HasTerms(SumTable(outputs0, terms0), q, sums[q]);
        assert terms[out.termOffset..out.termOffset + out.termCount]
            == terms0[out.termOffset..out.termOffset + out.termCount];
      }
      assert terms[|terms0|..|terms0| + |sum.terms|] == sum.terms;
      s := s + 1;
    }
    table := SumTable(outputs, terms);
  }

  /** The widest sum spans the grid. */
  method WidestSum(sums: seq<SumSpec>) returns (maxWidth: nat)
    ensures forall s :: 0 <= s < |sums| ==> sums[s].width <= maxWidth
    ensures maxWidth == 0 || exists s :: 0 <= s < |sums| && sums[s].width == maxWidth
  {
    maxWidth := 0;
    var s := 0;
    while s < |sums|
      invariant 0 <= s <= |sums|
      invariant forall q :: 0 <= q < s ==> sums[q].width <= maxWidth
      invariant maxWidth == 0 || exists q :: 0 <= q < s && sums[q].width == maxWidth
    {
      if maxWidth < sums[s].width {
        maxWidth := sums[s].width;
      }
      s := s + 1;
    }
  }

  // Threads. stride is the number of threads of the grid, and x the place of a thread among them.

  function TermsOf(table: SumTable, s: nat): seq<Term>
    requires s < |table.outputs| && table.outputs[s].termOffset + table.outputs[s].termCount <= |table.terms|
  {
    table.terms[table.outputs[s].termOffset..table.outputs[s].termOffset + table.outputs[s].termCount]
  }

  ghost predicate SumReady<T>(table: SumTable, s: nat, inputs: seq<Tensor<T>>, rows: nat) {
    && s < |table.outputs| && table.outputs[s].termOffset + table.outputs[s].termCount <= |table.terms|
    && TermsFit(TermsOf(table, s), inputs, rows, table.outputs[s].cols)
  }

  /** What the thread that gets to this cell of sum s stores. */
  ghost predicate StoresAt<T>(table: SumTable, s: nat, inputs: seq<Tensor<T>>, rows: nat, maxWidth: nat, linear: nat,
                              zero: T, plus: (T, T) -> T, w: Write<T>) {
    && SumReady(table, s, inputs, rows) && linear < rows * maxWidth && maxWidth > 0
    && var r, c := linear / maxWidth, linear - linear / maxWidth * maxWidth;
       var out := table.outputs[s];
       && 0 <= c < out.cols && r < rows
       && w == Write(out.output, r * out.cols + c,
                     TermsCell(TermsOf(table, s), inputs, rows, out.cols, r, c, zero, plus))
  }

  /** Thread x stores this in its kth round. */
  ghost predicate Stores<T>(table: SumTable, s: nat, inputs: seq<Tensor<T>>, rows: nat, maxWidth: nat, stride: nat,
                            x: nat, k: nat, zero: T, plus: (T, T) -> T, w: Write<T>) {
    x < stride && StoresAt(table, s, inputs, rows, maxWidth, x + k * stride, zero, plus, w)
  }

  /** The inner loop. */
  method AddTerms<T>(table: SumTable, s: nat, inputs: seq<Tensor<T>>, rows: nat, r: nat, c: nat, zero: T,
                     plus: (T, T) -> T)
    returns (sum: T)
    requires SumReady(table, s, inputs, rows) && r < rows && c < table.outputs[s].cols
    ensures sum == TermsCell(TermsOf(table, s), inputs, rows, table.outputs[s].cols, r, c, zero, plus)
  {
    ghost var terms, cols := TermsOf(table, s), table.outputs[s].cols;
    sum := zero;
    var i := 0;
    while i < table.outputs[s].termCount
      invariant 0 <= i <= |terms| && TermsFit(terms[..i], inputs, rows, cols)
      invariant sum == TermsCell(terms[..i], inputs, rows, cols, r, c, zero, plus)
    {
      var term := table.terms[table.outputs[s].termOffset + i];
      assert term == terms[i] && TermFits(terms[i], inputs, rows, cols);
      InRange(rows, inputs[term.source].cols, r, term.sourceOffset + c);
      assert terms[..i + 1][..i] == terms[..i];
      sum := plus(sum, inputs[term.source].data[r * inputs[term.source].cols + term.sourceOffset + c]);
      i := i + 1;
    }
    assert terms[..i] == terms;
  }

  /** One round of a thread: nothing is stored past the output's columns. */
  method SumAt<T(!new)>(table: SumTable, s: nat, inputs: seq<Tensor<T>>, rows: nat, maxWidth: nat, linear: nat,
                        zero: T, plus: (T, T) -> T) returns (writes: seq<Write<T>>)
    requires SumReady(table, s, inputs, rows) && linear < rows * maxWidth
    ensures forall w :: w in writes <==> StoresAt(table, s, inputs, rows, maxWidth, linear, zero, plus, w)
  {
    hide TermsCell, TermsFit;
    AddressParts(maxWidth, linear, rows);
    var row := linear / maxWidth;
    var col := linear - row * maxWidth;
    if col >= table.outputs[s].cols {
      return [];
    }
    var sum := AddTerms(table, s, inputs, rows, row, col, zero, plus);
    writes := [Write(table.outputs[s].output, row * table.outputs[s].cols + col, sum)];
  }

  /** One thread of the sum kernel strides over the cells of the widest sum. */
  method SumThread<T(!new)>(table: SumTable, s: nat, inputs: seq<Tensor<T>>, rows: nat, maxWidth: nat, stride: nat,
                            x: nat,
                            zero: T, plus: (T, T) -> T) returns (writes: seq<Write<T>>)
    requires SumReady(table, s, inputs, rows) && x < stride
    ensures forall w :: w in writes <==>
      exists k: nat :: Stores(table, s, inputs, rows, maxWidth, stride, x, k, zero, plus, w)
  {
    hide SumReady;
    writes := [];
    var linear := x;
    ghost var n := 0;
    while linear < rows * maxWidth
      invariant linear == x + n * stride
      invariant forall w :: w in writes <==>
        exists k: nat :: k < n && Stores(table, s, inputs, rows, maxWidth, stride, x, k, zero, plus, w)
      decreases rows * maxWidth - linear
    {
      ghost var before := writes;
      var stored := SumAt(table, s, inputs, rows, maxWidth, linear, zero, plus);
      assert forall w :: w in stored <==> Stores(table, s, inputs, rows, maxWidth, stride, x, n, zero, plus, w) by {
        hide StoresAt;
      }
      hide Stores, StoresAt;
      writes := writes + stored;
      linear := linear + stride;
      n := n + 1;
    }
    forall k: nat, w | Stores(table, s, inputs, rows, maxWidth, stride, x, k, zero, plus, w)
      ensures k < n
    {
      RoundInGrid(table, s, inputs, rows, maxWidth, stride, x, k, zero, plus, w, n);
    }
  }

  lemma RoundInGrid<T>(table: SumTable, s: nat, inputs: seq<Tensor<T>>, rows: nat, maxWidth: nat, stride: nat,
                       x: nat, k: nat, zero: T, plus: (T, T) -> T, w: Write<T>, n: nat)
    requires Stores(table, s, inputs, rows, maxWidth, stride, x, k, zero, plus, w) && x + n * stride >= rows * maxWidth
    ensures k < n
  {
    MulMonotone(n, k, stride);
  }

  // All threads, in any order.

  ghost predicate StoredTo<T>(table: SumTable, inputs: seq<Tensor<T>>, rows: nat, maxWidth: nat, stride: nat,
                              zero: T, plus: (T, T) -> T, o: nat, a: int, value: T) {
    exists s: nat, x: nat, k: nat ::
      Stores(table, s, inputs, rows, maxWidth, stride, x, k, zero, plus, Write(o, a, value))
  }

  /**
   * The buffers after all threads have run, in whatever order or at once: an address that was
   * written holds one of the values written to it.
   */
  ghost predicate Summed<T(!new)>(table: SumTable, inputs: seq<Tensor<T>>, rows: nat, maxWidth: nat, stride: nat,
                                  zero: T, plus: (T, T) -> T, widths: seq<int>, buffers: seq<seq<T>>) {
    && |buffers| == |widths| && (forall o :: 0 <= o < |buffers| ==> |buffers[o]| == rows * widths[o])
    && forall o, a, v {:trigger StoredTo(table, inputs, rows, maxWidth, stride, zero, plus, o, a, v)} ::
         0 <= o < |buffers| && 0 <= a < |buffers[o]|
         && StoredTo(table, inputs, rows, maxWidth, stride, zero, plus, o, a, v) ==>
           StoredTo(table, inputs, rows, maxWidth, stride, zero, plus, o, a, buffers[o][a])
  }

  // The plan's sums, found by output.

  lemma {:induction false} SumOfOutput(p: Pattern, at: seq<Located>, kinds: seq<Kind>, n: nat, o: nat) returns (s: nat)
    requires AllLocated(p, at) && KindsOk(p, kinds) && o < n <= |kinds| && kinds[o].Add?
    ensures s < |SumsUpTo(p, at, kinds, n)|
    ensures SumsUpTo(p, at, kinds, n)[s] == SumSpec(o, WidthOf(p, kinds[o]), PartTerms(p, at, kinds[o].parts))
  {
    if o == n - 1 {
      s := |SumsUpTo(p, at, kinds, n - 1)|;
    } else {
      s := SumOfOutput(p, at, kinds, n - 1, o);
    }
  }

  lemma {:induction false} OutputOfSum(p: Pattern, at: seq<Located>, kinds: seq<Kind>, n: nat, s: nat) returns (o: nat)
    requires AllLocated(p, at) && KindsOk(p, kinds) && n <= |kinds| && s < |SumsUpTo(p, at, kinds, n)|
    ensures o < n && kinds[o].Add?
    ensures SumsUpTo(p, at, kinds, n)[s] == SumSpec(o, WidthOf(p, kinds[o]), PartTerms(p, at, kinds[o].parts))
  {
    if s < |SumsUpTo(p, at, kinds, n - 1)| {
      o := OutputOfSum(p, at, kinds, n - 1, s);
    } else {
      o := n - 1;
    }
  }

  /** The pieces of a sum are all as wide as its output, and it adds those that a Sum node names. */
  lemma PiecesAreWide(p: Pattern, plan: Plan, at: seq<Located>, kinds: seq<Kind>, o: nat)
    requires Implements(p, plan, at, kinds) && o < |kinds| && kinds[o].Add? && |p.splitOutputs| == |p.splitSizes|
    ensures PartsOf(p, kinds[o].parts) && WidthOf(p, kinds[o]) == plan.widths[o]
    ensures forall t :: 0 <= t < |kinds[o].parts| ==> p.splitSizes[kinds[o].parts[t]] == plan.widths[o]
    ensures exists n :: n in p.sums && n.output == p.outputs[o] && Names(p, n.inputs, kinds[o].parts)
  {
    var parts := kinds[o].parts;
    assert IsKind(p, p.outputs[o], kinds[o]);
    var n :| n in p.sums && n.output == p.outputs[o] && Names(p, n.inputs, parts) && SameWidths(p, n.inputs);
    forall t | 0 <= t < |parts|
      ensures p.splitSizes[parts[t]] == p.splitSizes[parts[0]]
    {
      assert NamedPiece(p, parts[t], n.inputs[t]) && NamedPiece(p, parts[0], n.inputs[0]);
    }
  }

  lemma ImplementsSums(p: Pattern, plan: Plan, at: seq<Located>, kinds: seq<Kind>)
    requires Implements(p, plan, at, kinds)
    ensures AllLocated(p, at) && KindsOk(p, kinds) && |kinds| == |plan.widths|
    ensures plan.sums == SumsUpTo(p, at, kinds, |kinds|)
  {
  }

  /** Every write to a cell of a summed output stores the sum that belongs there. */
  lemma StoresTheSum<T>(p: Pattern, plan: Plan, at: seq<Located>, kinds: seq<Kind>, inputs: seq<Tensor<T>>, rows: nat,
                        table: SumTable, maxWidth: nat, zero: T, plus: (T, T) -> T,
                        o: nat, r: nat, c: nat, s: nat, linear: nat, value: T)
    requires Implements(p, plan, at, kinds) && |p.splitOutputs| == |p.splitSizes| && Ready(p, at, inputs, rows)
    requires Tabulates(table, plan.sums)
    requires o < |kinds| && kinds[o].Add? && r < rows && c < plan.widths[o]
    requires StoresAt(table, s, inputs, rows, maxWidth, linear, zero, plus, Write(o, r * plan.widths[o] + c, value))
    ensures PartsOf(p, kinds[o].parts) && forall t :: 0 <= t < |kinds[o].parts| ==> c < p.splitSizes[kinds[o].parts[t]]
    ensures value == SumCell(p, at, inputs, rows, r, kinds[o].parts, c, zero, plus)
  {
    hide SumCell, TermsCell, Ready, PartTerms, SumsUpTo, TermsFit, IsKind, Implements;
    ImplementsSums(p, plan, at, kinds);
    PiecesAreWide(p, plan, at, kinds, o);
    assert HasTerms(table, s, plan.sums[s]);
    var o' := OutputOfSum(p, at, kinds, |kinds|, s);
    assert o' == o;
    var r': nat, c': nat := linear / maxWidth, linear - linear / maxWidth * maxWidth;
    AddressUnique(plan.widths[o], r, c, r', c');
    TermsAddPieces(p, at, inputs, rows, plan.widths[o], kinds[o].parts, r, c, zero, plus);
  }

  /** Some thread gets to every cell of a summed output. */
  lemma CellIsStored<T>(p: Pattern, plan: Plan, at: seq<Located>, kinds: seq<Kind>, inputs: seq<Tensor<T>>, rows: nat,
                        table: SumTable, maxWidth: nat, stride: nat, zero: T, plus: (T, T) -> T, o: nat, r: nat, c: nat)
    returns (value: T)
    requires Implements(p, plan, at, kinds) && |p.splitOutputs| == |p.splitSizes| && Ready(p, at, inputs, rows)
    requires Tabulates(table, plan.sums) && (forall s :: 0 <= s < |plan.sums| ==> plan.sums[s].width <= maxWidth)
    requires stride > 0
    requires o < |kinds| && kinds[o].Add? && r < rows && c < plan.widths[o]
    ensures StoredTo(table, inputs, rows, maxWidth, stride, zero, plus, o, r * plan.widths[o] + c, value)
  {
    hide SumCell, TermsCell, Ready, PartTerms, SumsUpTo, TermsFit, IsKind, Implements;
    ImplementsSums(p, plan, at, kinds);
    PiecesAreWide(p, plan, at, kinds, o);
    var s := SumOfOutput(p, at, kinds, |kinds|, o);
    assert HasTerms(table, s, plan.sums[s]);
    TermsAddPieces(p, at, inputs, rows, plan.widths[o], kinds[o].parts, r, c, zero, plus);
    var linear := r * maxWidth + c;
    InRange(rows, maxWidth, r, c);
    AddressDivides(maxWidth, r, c);
    var x: nat, k: nat := linear % stride, linear / stride;
    assert linear == x + k * stride;
    value := TermsCell(TermsOf(table, s), inputs, rows, plan.widths[o], r, c, zero, plus);
    assert Stores(table, s, inputs, rows, maxWidth, stride, x, k, zero, plus, Write(o, r * plan.widths[o] + c, value));
  }

  /**
   * Outputs that are sums: whatever order the threads ran in and however many there were, each cell
   * of the buffer is the sum of the pieces that the Sum node names.
   */
  lemma SummedOutputsAreSums<T(!new)>(p: Pattern, plan: Plan, at: seq<Located>, kinds: seq<Kind>,
                                      inputs: seq<Tensor<T>>, rows: nat, table: SumTable, maxWidth: nat, stride: nat,
                                      zero: T, plus: (T, T) -> T, buffers: seq<seq<T>>, o: nat, r: nat, c: nat)
    requires Implements(p, plan, at, kinds) && |p.splitOutputs| == |p.splitSizes| && Ready(p, at, inputs, rows)
    requires Tabulates(table, plan.sums) && (forall s :: 0 <= s < |plan.sums| ==> plan.sums[s].width <= maxWidth)
    requires stride > 0
    requires Summed(table, inputs, rows, maxWidth, stride, zero, plus, plan.widths, buffers)
    requires o < |kinds| && kinds[o].Add? && r < rows && c < plan.widths[o]
    ensures PartsOf(p, kinds[o].parts) && forall t :: 0 <= t < |kinds[o].parts| ==> c < p.splitSizes[kinds[o].parts[t]]
    ensures exists n :: n in p.sums && n.output == p.outputs[o] && Names(p, n.inputs, kinds[o].parts)
    ensures r * plan.widths[o] + c < |buffers[o]|
    ensures buffers[o][r * plan.widths[o] + c] == SumCell(p, at, inputs, rows, r, kinds[o].parts, c, zero, plus)
  {
    hide SumCell, Implements, Ready, Tabulates, StoresAt;
    ImplementsSums(p, plan, at, kinds);
    PiecesAreWide(p, plan, at, kinds, o);
    InRange(rows, plan.widths[o], r, c);
    var a := r * plan.widths[o] + c;
    var value := CellIsStored(p, plan, at, kinds, inputs, rows, table, maxWidth, stride, zero, plus, o, r, c);
    assert StoredTo(table, inputs, rows, maxWidth, stride, zero, plus, o, a, buffers[o][a]);
    var s: nat, x: nat, k: nat :| Stores(table, s, inputs, rows, maxWidth, stride, x, k, zero, plus,
                                         Write(o, a, buffers[o][a]));
    StoresTheSum(p, plan, at, kinds, inputs, rows, table, maxWidth, zero, plus, o, r, c, s, x + k * stride,
                 buffers[o][a]);
  }
}
