/**
 * Running the copies of a plan: the blocks of 256 elements that the device copies, in any order,
 * against Concat and Split of the ONNX operators on whole rows.
 */
module ConcatSplitCopy {
  import opened ConcatSplitPlan

  const COPY_BLOCK_SIZE: nat := 256

  /** A matrix stored row by row. */
  datatype Tensor<T> = Tensor(cols: nat, data: seq<T>)

  // Row-major addresses.

  lemma InRange(rows: nat, cols: nat, r: nat, c: nat)
    requires r < rows && c < cols
    ensures r * cols + c < rows * cols
  {
    assert (r + 1) * cols <= rows * cols;
  }

  lemma MulMonotone(a: nat, b: nat, k: nat)
    ensures a <= b ==> a * k <= b * k
  {
    if a <= b {
      assert b * k == a * k + (b - a) * k;
    }
  }

  lemma AddressUnique(cols: nat, r: nat, c: nat, r': nat, c': nat)
    requires c < cols && c' < cols && r * cols + c == r' * cols + c'
    ensures r == r' && c == c'
  {
    MulMonotone(r + 1, r', cols);
    MulMonotone(r' + 1, r, cols);
  }

  lemma AddressParts(cols: nat, e: nat, rows: nat)
    requires cols > 0 && e < rows * cols
    ensures
      var r, c := e / cols, e - e / cols * cols;
      0 <= c < cols && r < rows && e == r * cols + c
  {
    var r := e / cols;
    assert e == r * cols + e % cols;
    MulMonotone(rows, r, cols);
  }

  lemma AddressDivides(cols: nat, r: nat, c: nat)
    requires c < cols
    ensures (r * cols + c) / cols == r && r * cols + c - (r * cols + c) / cols * cols == c
  {
    var e := r * cols + c;
    assert e == e / cols * cols + e % cols;
    AddressUnique(cols, r, c, e / cols, e % cols);
  }

  // What the operators compute, on rows.

  ghost predicate Shaped<T>(p: Pattern, inputs: seq<Tensor<T>>, rows: nat) {
    && |p.sources| == |p.widths| && Positive(p.widths)
    && forall k :: 0 <= k < |p.sources| ==> SourceShaped(p, inputs, rows, k)
  }

  ghost predicate SourceShaped<T>(p: Pattern, inputs: seq<Tensor<T>>, rows: nat, k: nat)
    requires k < |p.sources| == |p.widths|
  {
    && p.sources[k] < |inputs| && inputs[p.sources[k]].cols == p.widths[k]
    && |inputs[p.sources[k]].data| == rows * p.widths[k]
  }

  ghost function Cell<T>(t: Tensor<T>, rows: nat, r: nat, c: nat): T
    requires |t.data| == rows * t.cols && r < rows && c < t.cols
  {
    InRange(rows, t.cols, r, c);
    t.data[r * t.cols + c]
  }

  ghost function Row<T>(t: Tensor<T>, rows: nat, r: nat): seq<T>
    requires |t.data| == rows * t.cols && r < rows
  {
    seq(t.cols, c requires 0 <= c < t.cols => Cell(t, rows, r, c))
  }

  /** Row r of the first n inputs, side by side. */
  ghost function ConcatRow<T>(p: Pattern, inputs: seq<Tensor<T>>, rows: nat, r: nat, n: nat): seq<T>
    requires Shaped(p, inputs, rows) && r < rows && n <= |p.widths|
  {
    if n == 0 then []
    else
      assert SourceShaped(p, inputs, rows, n - 1);
      ConcatRow(p, inputs, rows, r, n - 1) + Row(inputs[p.sources[n - 1]], rows, r)
  }

  lemma {:induction false} ConcatRowLength<T>(p: Pattern, inputs: seq<Tensor<T>>, rows: nat, r: nat, n: nat)
    requires Shaped(p, inputs, rows) && r < rows && n <= |p.widths|
    ensures |ConcatRow(p, inputs, rows, r, n)| == Before(p.widths, n)
  {
    if n > 0 {
      ConcatRowLength(p, inputs, rows, r, n - 1);
      assert SourceShaped(p, inputs, rows, n - 1);
    }
  }

  lemma {:induction false} ConcatRowAt<T>(p: Pattern, inputs: seq<Tensor<T>>, rows: nat, r: nat, n: nat, k: nat, c: nat)
    requires Shaped(p, inputs, rows) && r < rows && k < n <= |p.widths| && c < p.widths[k]
    ensures SourceShaped(p, inputs, rows, k) && 0 <= Before(p.widths, k)
    ensures Before(p.widths, k) + c < Before(p.widths, n)
    ensures |ConcatRow(p, inputs, rows, r, n)| == Before(p.widths, n)
    ensures ConcatRow(p, inputs, rows, r, n)[Before(p.widths, k) + c] == Cell(inputs[p.sources[k]], rows, r, c)
  {
    ConcatRowLength(p, inputs, rows, r, n);
    ConcatRowLength(p, inputs, rows, r, n - 1);
    BeforeIncreases(p.widths, 0, k);
    BeforeIncreases(p.widths, k + 1, n);
    assert SourceShaped(p, inputs, rows, k) && SourceShaped(p, inputs, rows, n - 1);
    if k < n - 1 {
      ConcatRowAt(p, inputs, rows, r, n - 1, k, c);
    }
  }

  /** Row r of the Split's output j: a slice of the concatenated row. */
  ghost function SplitRow<T>(p: Pattern, inputs: seq<Tensor<T>>, rows: nat, r: nat, j: nat): (row: seq<T>)
    requires Shaped(p, inputs, rows) && r < rows && j < |p.splitSizes| && Positive(p.splitSizes)
    requires HasInput(p.widths, p.splitSizes, j)
    ensures |row| == p.splitSizes[j]
  {
    ConcatRowLength(p, inputs, rows, r, |p.widths|);
    PieceInRange(p, j);
    ConcatRow(p, inputs, rows, r, |p.widths|)[Before(p.splitSizes, j)..Before(p.splitSizes, j) + p.splitSizes[j]]
  }

  lemma PieceInRange(p: Pattern, j: nat)
    requires Positive(p.widths) && Positive(p.splitSizes) && j < |p.splitSizes| && HasInput(p.widths, p.splitSizes, j)
    ensures 0 <= Before(p.splitSizes, j) && Before(p.splitSizes, j) + p.splitSizes[j] <= Before(p.widths, |p.widths|)
  {
    var k: nat :| Inside(p.widths, p.splitSizes, j, k);
    BeforeIncreases(p.widths, k + 1, |p.widths|);
    BeforeIncreases(p.splitSizes, 0, j);
  }

  /** The piece as the plan reads it: from one input, at one offset. */
  lemma PieceIsInInput<T>(p: Pattern, inputs: seq<Tensor<T>>, rows: nat, r: nat, j: nat, at: Located, c: nat)
    requires Shaped(p, inputs, rows) && r < rows && Positive(p.splitSizes) && j < |p.splitSizes| && c < p.splitSizes[j]
    requires LocatedAt(p.widths, p.splitSizes, j, at)
    ensures HasInput(p.widths, p.splitSizes, j) && SourceShaped(p, inputs, rows, at.input)
    ensures 0 <= at.offset && at.offset + p.splitSizes[j] <= p.widths[at.input]
    ensures SplitRow(p, inputs, rows, r, j)[c] == Cell(inputs[p.sources[at.input]], rows, r, at.offset + c)
  {
    assert Inside(p.widths, p.splitSizes, j, at.input);
    PieceInRange(p, j);
    ConcatRowAt(p, inputs, rows, r, |p.widths|, at.input, at.offset + c);
  }

  ghost predicate Ready<T>(p: Pattern, at: seq<Located>, inputs: seq<Tensor<T>>, rows: nat) {
    Shaped(p, inputs, rows) && Positive(p.splitSizes) && AllLocated(p, at)
  }

  lemma PieceHasInput<T>(p: Pattern, at: seq<Located>, inputs: seq<Tensor<T>>, rows: nat, j: nat)
    requires Ready(p, at, inputs, rows) && j < |p.splitSizes|
    ensures HasInput(p.widths, p.splitSizes, j)
  {
    assert LocatedAt(p.widths, p.splitSizes, j, at[j]);
  }

  /** Row r of a Concat of pieces. */
  ghost function PartsRow<T>(p: Pattern, at: seq<Located>, inputs: seq<Tensor<T>>, rows: nat, r: nat,
                             parts: seq<nat>): (row: seq<T>)
    requires Ready(p, at, inputs, rows) && r < rows && PartsOf(p, parts)
    ensures |row| == PartsWidth(p, parts)
  {
    if parts == [] then []
    else
      PieceHasInput(p, at, inputs, rows, parts[|parts| - 1]);
      PartsRow(p, at, inputs, rows, r, parts[..|parts| - 1]) + SplitRow(p, inputs, rows, r, parts[|parts| - 1])
  }

  lemma {:induction false} PartsRowAt<T>(p: Pattern, at: seq<Located>, inputs: seq<Tensor<T>>, rows: nat, r: nat,
                                         parts: seq<nat>, t: nat, c: nat)
    requires Ready(p, at, inputs, rows) && r < rows && PartsOf(p, parts) && t < |parts| && c < p.splitSizes[parts[t]]
    ensures HasInput(p.widths, p.splitSizes, parts[t])
    ensures 0 <= PartsWidth(p, parts[..t]) && PartsWidth(p, parts[..t]) + p.splitSizes[parts[t]] <= PartsWidth(p, parts)
    ensures PartsRow(p, at, inputs, rows, r, parts)[PartsWidth(p, parts[..t]) + c]
        == SplitRow(p, inputs, rows, r, parts[t])[c]
  {
    var n := |parts| - 1;
    PieceHasInput(p, at, inputs, rows, parts[t]);
    var init := PartsRow(p, at, inputs, rows, r, parts[..n]);
    if t < n {
      PartsRowAt(p, at, inputs, rows, r, parts[..n], t, c);
      assert parts[..n][..t] == parts[..t];
    }
  }

  lemma {:induction false} FindPart(p: Pattern, parts: seq<nat>, c: nat) returns (t: nat)
    requires PartsOf(p, parts) && c < PartsWidth(p, parts)
    ensures t < |parts| && PartsWidth(p, parts[..t]) <= c < PartsWidth(p, parts[..t]) + p.splitSizes[parts[t]]
  {
    var n := |parts| - 1;
    if c < PartsWidth(p, parts[..n]) {
      t := FindPart(p, parts[..n], c);
      assert parts[..n][..t] == parts[..t];
    } else {
      t := n;
    }
  }

  // The plan's copies, found by output.

  lemma {:induction false} CopyOfPart(p: Pattern, at: seq<Located>, kinds: seq<Kind>, n: nat, o: nat, t: nat)
    returns (s: nat)
    requires AllLocated(p, at) && KindsOk(p, kinds) && o < n <= |kinds| && kinds[o].Copy? && t < |kinds[o].parts|
    ensures s < |SegmentsUpTo(p, at, kinds, n)|
    ensures SegmentsUpTo(p, at, kinds, n)[s] == PartSegments(p, at, kinds[o].parts, o)[t]
  {
    if o == n - 1 {
      s := |SegmentsUpTo(p, at, kinds, n - 1)| + t;
    } else {
      s := CopyOfPart(p, at, kinds, n - 1, o, t);
    }
  }

  lemma {:induction false} PartOfCopy(p: Pattern, at: seq<Located>, kinds: seq<Kind>, n: nat, s: nat)
    returns (o: nat, t: nat)
    requires AllLocated(p, at) && KindsOk(p, kinds) && n <= |kinds| && s < |SegmentsUpTo(p, at, kinds, n)|
    ensures o < n && kinds[o].Copy? && t < |kinds[o].parts|
    ensures SegmentsUpTo(p, at, kinds, n)[s] == PartSegments(p, at, kinds[o].parts, o)[t]
    ensures SegmentsUpTo(p, at, kinds, n)[s].output == o
  {
    var before := |SegmentsUpTo(p, at, kinds, n - 1)|;
    if s < before {
      o, t := PartOfCopy(p, at, kinds, n - 1, s);
    } else {
      o, t := n - 1, s - before;
    }
  }

  // Blocks.

  datatype Block = Block(segment: nat, offset: nat)

  /** Element e of a copy belongs to this block. */
  predicate InBlock(b: Block, segment: nat, e: nat) {
    b.segment == segment && b.offset <= e < b.offset + COPY_BLOCK_SIZE
  }

  ghost predicate InOneBlock(blocks: seq<Block>, segment: nat, e: nat) {
    && (exists b :: 0 <= b < |blocks| && InBlock(blocks[b], segment, e))
    && forall b, c :: 0 <= b < c < |blocks| ==> !(InBlock(blocks[b], segment, e) && InBlock(blocks[c], segment, e))
  }

  ghost predicate BlocksCover(segments: seq<Segment>, rows: nat, blocks: seq<Block>) {
    && (forall s, e :: 0 <= s < |segments| && 0 <= e < rows * segments[s].width ==> InOneBlock(blocks, s, e))
    && forall b :: 0 <= b < |blocks| ==> blocks[b].segment < |segments|
  }

  /** Cut the copies into blocks: each element is copied by one thread of one block. */
  method MakeCopyBlocks(segments: seq<Segment>, rows: nat) returns (blocks: seq<Block>)
    requires forall s :: 0 <= s < |segments| ==> segments[s].width > 0
    ensures BlocksCover(segments, rows, blocks)
  {
    blocks := [];
    var i := 0;
    while i < |segments|
      invariant 0 <= i <= |segments|
      invariant forall b :: 0 <= b < |blocks| ==> blocks[b].segment < i
      invariant forall s, e :: 0 <= s < i && 0 <= e < rows * segments[s].width ==> InOneBlock(blocks, s, e)
    {
      ghost var before := blocks;
      var elements := rows * segments[i].width;
      var offset := 0;
      while offset < elements
        invariant 0 <= offset && |before| <= |blocks| && blocks[..|before|] == before
        invariant forall b :: |before| <= b < |blocks| ==> blocks[b] == Block(i, (b - |before|) * COPY_BLOCK_SIZE)
        invariant offset == (|blocks| - |before|) * COPY_BLOCK_SIZE
      {
        blocks := blocks + [Block(i, offset)];
        offset := offset + COPY_BLOCK_SIZE;
      }
      forall s, e | 0 <= s < i + 1 && 0 <= e < rows * segments[s].width
        ensures InOneBlock(blocks, s, e)
      {
        if s == i {
          LastBlocks(before, blocks, i, e);
        } else {
          EarlierBlocks(before, blocks, s, e);
        }
      }
      i := i + 1;
    }
  }

  lemma LastBlocks(before: seq<Block>, blocks: seq<Block>, i: nat, e: nat)
    requires |before| <= |blocks| && blocks[..|before|] == before
    requires forall b :: 0 <= b < |before| ==> before[b].segment < i
    requires forall b :: |before| <= b < |blocks| ==> blocks[b] == Block(i, (b - |before|) * COPY_BLOCK_SIZE)
    requires e < (|blocks| - |before|) * COPY_BLOCK_SIZE
    ensures InOneBlock(blocks, i, e)
  {
    var b := |before| + e / COPY_BLOCK_SIZE;
    assert blocks[b] == Block(i, e / COPY_BLOCK_SIZE * COPY_BLOCK_SIZE);
    assert InBlock(blocks[b], i, e);
    assert forall c :: 0 <= c < |before| ==> blocks[c] == before[c];
  }

  lemma EarlierBlocks(before: seq<Block>, blocks: seq<Block>, s: nat, e: nat)
    requires |before| <= |blocks| && blocks[..|before|] == before && InOneBlock(before, s, e)
    requires forall b :: |before| <= b < |blocks| ==> blocks[b].segment != s
    ensures InOneBlock(blocks, s, e)
  {
    var b :| 0 <= b < |before| && InBlock(before[b], s, e);
    assert blocks[b] == before[b];
    forall c | 0 <= c < |blocks| && InBlock(blocks[c], s, e)
      ensures c < |before| && before[c] == blocks[c]
    {
    }
  }

  // Threads.

  /** What one element of one copy stores. */
  datatype Write<T> = Write(output: nat, address: int, value: T)

  ghost predicate CopyInRange<T>(g: Segment, inputs: seq<Tensor<T>>, rows: nat, e: nat) {
    && g.width > 0 && e < rows * g.width && g.source < |inputs|
    && |inputs[g.source].data| == rows * inputs[g.source].cols
    && 0 <= g.sourceOffset && g.sourceOffset + g.width <= inputs[g.source].cols
  }

  /** The kernel's addressing. */
  ghost function CopyWrite<T>(g: Segment, outputCols: int, inputs: seq<Tensor<T>>, rows: nat, e: nat): Write<T>
    requires CopyInRange(g, inputs, rows, e)
  {
    var row := e / g.width;
    var col := e - row * g.width;
    AddressParts(g.width, e, rows);
    InRange(rows, inputs[g.source].cols, row, g.sourceOffset + col);
    Write(g.output, row * outputCols + g.dstOffset + col,
          inputs[g.source].data[row * inputs[g.source].cols + g.sourceOffset + col])
  }

  lemma ReadyPiece<T>(p: Pattern, at: seq<Located>, inputs: seq<Tensor<T>>, rows: nat, j: nat)
    requires Ready(p, at, inputs, rows) && j < |p.splitSizes|
    ensures p.splitSizes[j] > 0 && LocatedAt(p.widths, p.splitSizes, j, at[j])
  {
  }

  lemma CopyReadsCell<T>(g: Segment, outputCols: int, inputs: seq<Tensor<T>>, rows: nat, e: nat, r: nat, c: nat)
    requires CopyInRange(g, inputs, rows, e) && r == e / g.width && c == e - r * g.width && r < rows && c < g.width
    ensures CopyWrite(g, outputCols, inputs, rows, e)
      == Write(g.output, r * outputCols + (g.dstOffset + c), Cell(inputs[g.source], rows, r, g.sourceOffset + c))
  {
    InRange(rows, inputs[g.source].cols, r, g.sourceOffset + c);
  }

  /** Element e of part t of output o. */
  lemma PartWrite<T>(p: Pattern, at: seq<Located>, inputs: seq<Tensor<T>>, rows: nat, parts: seq<nat>, o: nat, t: nat,
                     e: nat)
    requires Ready(p, at, inputs, rows) && PartsOf(p, parts) && t < |parts| && e < rows * p.splitSizes[parts[t]]
    ensures
      var g := PartSegments(p, at, parts, o)[t];
      var r, c := e / g.width, e - e / g.width * g.width;
      && CopyInRange(g, inputs, rows, e) && r < rows && 0 <= c && 0 <= g.dstOffset + c < PartsWidth(p, parts)
      && CopyWrite(g, PartsWidth(p, parts), inputs, rows, e)
           == Write(o, r * PartsWidth(p, parts) + (g.dstOffset + c),
                    PartsRow(p, at, inputs, rows, r, parts)[g.dstOffset + c])
  {
    hide PartsRow, PartsWidth, SplitRow, Before, Shaped, Positive;
    var j := parts[t];
    var g := PartSegments(p, at, parts, o)[t];
    ReadyPiece(p, at, inputs, rows, j);
    AddressParts(g.width, e, rows);
    var r: nat, c: nat := e / g.width, e - e / g.width * g.width;
    PieceIsInInput(p, inputs, rows, r, j, at[j], c);
    PartsRowAt(p, at, inputs, rows, r, parts, t, c);
    CopyReadsCell(g, PartsWidth(p, parts), inputs, rows, e, r, c);
  }

  /** Some thread of block b makes this write. */
  ghost predicate Written<T>(plan: Plan, inputs: seq<Tensor<T>>, rows: nat, blocks: seq<Block>, b: nat, e: nat,
                             w: Write<T>) {
    && b < |blocks| && blocks[b].segment < |plan.segments| && InBlock(blocks[b], blocks[b].segment, e)
    && var g := plan.segments[blocks[b].segment];
       CopyInRange(g, inputs, rows, e) && g.output < |plan.widths|
       && w == CopyWrite(g, plan.widths[g.output], inputs, rows, e)
  }

  ghost predicate WrittenTo<T>(plan: Plan, inputs: seq<Tensor<T>>, rows: nat, blocks: seq<Block>, o: nat, a: int,
                               value: T) {
    exists b, e :: Written(plan, inputs, rows, blocks, b, e, Write(o, a, value))
  }

  /**
   * The buffers after all blocks have run, in whatever order or at once: an address that was
   * written holds one of the values written to it.
   */
  ghost predicate Ran<T(!new)>(plan: Plan, inputs: seq<Tensor<T>>, rows: nat, blocks: seq<Block>,
                               buffers: seq<seq<T>>) {
    && |buffers| == |plan.widths| && (forall o :: 0 <= o < |buffers| ==> |buffers[o]| == rows * plan.widths[o])
    && forall o, a, v {:trigger WrittenTo(plan, inputs, rows, blocks, o, a, v)} ::
         0 <= o < |buffers| && 0 <= a < |buffers[o]| && WrittenTo(plan, inputs, rows, blocks, o, a, v) ==>
           WrittenTo(plan, inputs, rows, blocks, o, a, buffers[o][a])
  }

  /** Every write to a cell of a copied output stores what belongs there. */
  lemma WritesAreRight<T>(p: Pattern, plan: Plan, at: seq<Located>, kinds: seq<Kind>, inputs: seq<Tensor<T>>, rows: nat,
                          blocks: seq<Block>, o: nat, r: nat, c: nat, b: nat, e: nat, value: T)
    requires Implements(p, plan, at, kinds) && Ready(p, at, inputs, rows)
    requires o < |kinds| && kinds[o].Copy? && r < rows && c < PartsWidth(p, kinds[o].parts)
    requires Written(plan, inputs, rows, blocks, b, e, Write(o, r * PartsWidth(p, kinds[o].parts) + c, value))
    ensures value == PartsRow(p, at, inputs, rows, r, kinds[o].parts)[c]
  {
    hide PartsRow, PartsWidth, Shaped, AllLocated, PartSegments, SegmentsUpTo, Ready, CopyWrite, IsKind, SumsUpTo,
         PartTerms, KindsOk;
    ImplementsKinds(p, plan, at, kinds);
    var s := blocks[b].segment;
    var o', t := PartOfCopy(p, at, kinds, |kinds|, s);
    var parts := kinds[o].parts;
    assert o' == o by { CopyKeepsOutput(plan.segments[s], plan.widths[plan.segments[s].output], inputs, rows, e); }
    SegmentWidth(p, at, parts, o, t);
    PartWrite(p, at, inputs, rows, parts, o, t, e);
    var g := plan.segments[s];
    var r': nat, c': nat := e / g.width, e - e / g.width * g.width;
    AddressUnique(PartsWidth(p, parts), r, c, r', g.dstOffset + c');
  }

  lemma CopyKeepsOutput<T>(g: Segment, outputCols: int, inputs: seq<Tensor<T>>, rows: nat, e: nat)
    requires CopyInRange(g, inputs, rows, e)
    ensures CopyWrite(g, outputCols, inputs, rows, e).output == g.output
  {
  }

  lemma SegmentWidth(p: Pattern, at: seq<Located>, parts: seq<nat>, o: nat, t: nat)
    requires PartsOf(p, parts) && AllLocated(p, at) && t < |parts|
    ensures PartSegments(p, at, parts, o)[t].width == p.splitSizes[parts[t]]
    ensures PartSegments(p, at, parts, o)[t].dstOffset == PartsWidth(p, parts[..t])
    ensures PartSegments(p, at, parts, o)[t].output == o
  {
  }

  lemma ImplementsKinds(p: Pattern, plan: Plan, at: seq<Located>, kinds: seq<Kind>)
    requires Implements(p, plan, at, kinds)
    ensures AllLocated(p, at) && KindsOk(p, kinds) && |kinds| == |plan.widths|
    ensures plan.segments == SegmentsUpTo(p, at, kinds, |kinds|)
    ensures forall o :: 0 <= o < |kinds| ==> PartsOf(p, kinds[o].parts)
    ensures forall o :: 0 <= o < |kinds| && kinds[o].Copy? ==> plan.widths[o] == PartsWidth(p, kinds[o].parts)
  {
  }

  /** Every cell of a copied output is written. */
  lemma CellIsWritten<T>(p: Pattern, plan: Plan, at: seq<Located>, kinds: seq<Kind>, inputs: seq<Tensor<T>>, rows: nat,
                         blocks: seq<Block>, o: nat, r: nat, c: nat) returns (value: T)
    requires Implements(p, plan, at, kinds) && Ready(p, at, inputs, rows) && BlocksCover(plan.segments, rows, blocks)
    requires o < |kinds| && kinds[o].Copy? && r < rows && c < PartsWidth(p, kinds[o].parts)
    ensures WrittenTo(plan, inputs, rows, blocks, o, r * PartsWidth(p, kinds[o].parts) + c, value)
  {
    hide PartsRow, PartsWidth, Shaped, AllLocated, PartSegments, SegmentsUpTo, Ready, CopyWrite, IsKind, SumsUpTo,
         PartTerms, KindsOk;
    ImplementsKinds(p, plan, at, kinds);
    var parts := kinds[o].parts;
    var t := FindPart(p, parts, c);
    var s := CopyOfPart(p, at, kinds, |kinds|, o, t);
    SegmentWidth(p, at, parts, o, t);
    var g := plan.segments[s];
    var x := c - g.dstOffset;
    var e := r * g.width + x;
    InRange(rows, g.width, r, x);
    AddressDivides(g.width, r, x);
    PartWrite(p, at, inputs, rows, parts, o, t, e);
    assert InOneBlock(blocks, s, e);
    var b :| 0 <= b < |blocks| && InBlock(blocks[b], s, e);
    var w := CopyWrite(g, plan.widths[o], inputs, rows, e);
    assert Written(plan, inputs, rows, blocks, b, e, w);
    value := w.value;
    assert w == Write(o, r * PartsWidth(p, parts) + c, value);
  }

  /**
   * Outputs that are pieces side by side: whatever order the copies ran in, each row of the buffer
   * is the Concat of the Split's slices.
   */
  lemma CopiedOutputsAreConcats<T(!new)>(p: Pattern, plan: Plan, at: seq<Located>, kinds: seq<Kind>,
                                         inputs: seq<Tensor<T>>, rows: nat,
                                   blocks: seq<Block>, buffers: seq<seq<T>>, o: nat, r: nat, c: nat)
    requires Implements(p, plan, at, kinds) && Ready(p, at, inputs, rows) && BlocksCover(plan.segments, rows, blocks)
    requires Ran(plan, inputs, rows, blocks, buffers)
    requires o < |kinds| && kinds[o].Copy? && r < rows && c < PartsWidth(p, kinds[o].parts)
    ensures r * PartsWidth(p, kinds[o].parts) + c < |buffers[o]|
    ensures buffers[o][r * PartsWidth(p, kinds[o].parts) + c] == PartsRow(p, at, inputs, rows, r, kinds[o].parts)[c]
  {
    hide PartsRow, PartsWidth, Implements, Ready, BlocksCover, Written;
    ImplementsKinds(p, plan, at, kinds);
    var width := PartsWidth(p, kinds[o].parts);
    InRange(rows, width, r, c);
    var a := r * width + c;
    var value := CellIsWritten(p, plan, at, kinds, inputs, rows, blocks, o, r, c);
    assert WrittenTo(plan, inputs, rows, blocks, o, a, buffers[o][a]);
    var b, e :| Written(plan, inputs, rows, blocks, b, e, Write(o, a, buffers[o][a]));
    WritesAreRight(p, plan, at, kinds, inputs, rows, blocks, o, r, c, b, e, buffers[o][a]);
  }
}
