/**
 * Concat of tensors of any rank on any axis, followed by Unsqueeze and Reshape: the flat copy that
 * is run instead, and the shapes that are computed for its result.
 */
module ConcatReshape {
  import opened Options

  type Shape = seq<int>

  // Row-major layout.

  /** Number of elements. */
  function Num(shape: Shape): int {
    if shape == [] then 1 else Num(shape[..|shape| - 1]) * shape[|shape| - 1]
  }

  predicate IsShape(shape: Shape) {
    forall i :: 0 <= i < |shape| ==> shape[i] >= 0
  }

  predicate CoordsIn(shape: Shape, coords: seq<int>) {
    |coords| == |shape| && forall i :: 0 <= i < |shape| ==> 0 <= coords[i] < shape[i]
  }

  /** Position of an element. */
  function Flat(shape: Shape, coords: seq<int>): int
    requires |coords| == |shape|
  {
    if shape == [] then 0
    else Flat(shape[..|shape| - 1], coords[..|shape| - 1]) * shape[|shape| - 1] + coords[|shape| - 1]
  }

  lemma MulOrder(a: int, b: int, k: int)
    requires a <= b && k >= 0
    ensures a * k <= b * k
  {
    assert b * k == a * k + (b - a) * k;
  }

  /** Position inside a matrix with cols columns. */
  lemma RowMajorRange(rows: int, cols: int, r: int, c: int)
    requires 0 <= r < rows && 0 <= c < cols
    ensures 0 <= r * cols + c < rows * cols
  {
    MulOrder(r + 1, rows, cols);
    MulOrder(0, r, cols);
  }

  lemma {:induction false} FlatInRange(shape: Shape, coords: seq<int>)
    requires CoordsIn(shape, coords)
    ensures 0 <= Flat(shape, coords) < Num(shape)
  {
    if shape != [] {
      var n := |shape| - 1;
      FlatInRange(shape[..n], coords[..n]);
      RowMajorRange(Num(shape[..n]), shape[n], Flat(shape[..n], coords[..n]), coords[n]);
    }
  }

  lemma {:induction false} NumNatural(shape: Shape)
    requires IsShape(shape)
    ensures Num(shape) >= 0
  {
    if shape != [] {
      NumNatural(shape[..|shape| - 1]);
      MulOrder(0, Num(shape[..|shape| - 1]), shape[|shape| - 1]);
    }
  }

  /** Every position belongs to an element. */
  lemma {:induction false} CoordsOf(shape: Shape, f: int) returns (coords: seq<int>)
    requires IsShape(shape) && 0 <= f < Num(shape)
    ensures CoordsIn(shape, coords) && Flat(shape, coords) == f
  {
    if shape == [] {
      coords := [];
    } else {
      var n := |shape| - 1;
      NumNatural(shape[..n]);
      var q, c := f / shape[n], f % shape[n];
      assert f == q * shape[n] + c;
      Quotient(f, shape[n], Num(shape[..n]));
      var init := CoordsOf(shape[..n], q);
      coords := init + [c];
      assert coords[..n] == init;
    }
  }

  lemma Quotient(f: int, d: int, rows: int)
    requires d >= 0 && rows >= 0 && 0 <= f < rows * d
    ensures d > 0 && 0 <= f / d < rows
  {
    assert d == 0 ==> rows * d == 0;
    assert f == f / d * d + f % d;
    if f / d >= rows {
      MulOrder(rows, f / d, d);
    }
  }

  lemma {:induction false} NumAppend(a: Shape, b: Shape)
    ensures Num(a + b) == Num(a) * Num(b)
  {
    if b == [] {
      assert a + b == a;
    } else {
      var n := |b| - 1;
      assert (a + b)[..|a + b| - 1] == a + b[..n];
      NumAppend(a, b[..n]);
      MulAssociates(Num(a), Num(b[..n]), b[n]);
    }
  }

  lemma MulAssociates(a: int, b: int, c: int)
    ensures a * b * c == a * (b * c)
  {
  }

  lemma MulDistributes(a: int, b: int, c: int, d: int)
    ensures (a * b + c) * d == a * (b * d) + c * d
  {
  }

  /** A position in the joined shape is a position in the front, then one in the back. */
  lemma {:induction false} FlatAppend(a: Shape, b: Shape, ca: seq<int>, cb: seq<int>)
    requires |ca| == |a| && |cb| == |b|
    ensures Flat(a + b, ca + cb) == Flat(a, ca) * Num(b) + Flat(b, cb)
  {
    if b == [] {
      assert a + b == a && ca + cb == ca;
    } else {
      var n := |b| - 1;
      assert (a + b)[..|a + b| - 1] == a + b[..n] && (ca + cb)[..|a + b| - 1] == ca + cb[..n];
      FlatAppend(a, b[..n], ca, cb[..n]);
      MulDistributes(Flat(a, ca), Num(b[..n]), Flat(b[..n], cb[..n]), b[n]);
    }
  }

  // The joined shape.

  /** Sum of the first k dimensions on the axis. */
  function Offset(dims: seq<int>, k: nat): int
    requires k <= |dims|
  {
    if k == 0 then 0 else Offset(dims, k - 1) + dims[k - 1]
  }

  lemma {:induction false} OffsetGrows(dims: seq<int>, k: nat, l: nat)
    requires IsShape(dims) && k <= l <= |dims|
    ensures Offset(dims, k) <= Offset(dims, l)
    decreases l
  {
    if k < l {
      OffsetGrows(dims, k, l - 1);
    }
  }

  ghost predicate Joinable(shapes: seq<Shape>, axis: nat) {
    && |shapes| > 0 && axis < |shapes[0]|
    && forall k :: 0 <= k < |shapes| ==> MatchesOffAxis(shapes[k], shapes[0], axis)
  }

  ghost predicate MatchesOffAxis(shape: Shape, first: Shape, axis: nat) {
    |shape| == |first| && forall d :: 0 <= d < |first| && d != axis ==> shape[d] == first[d]
  }

  function AxisDims(shapes: seq<Shape>, axis: nat): seq<int>
    requires forall k :: 0 <= k < |shapes| ==> axis < |shapes[k]|
  {
    seq(|shapes|, k requires 0 <= k < |shapes| => shapes[k][axis])
  }

  ghost function Joined(shapes: seq<Shape>, axis: nat): Shape
    requires Joinable(shapes, axis)
  {
    assert forall k :: 0 <= k < |shapes| ==> MatchesOffAxis(shapes[k], shapes[0], axis);
    shapes[0][axis := Offset(AxisDims(shapes, axis), |shapes|)]
  }

  /** Check the shapes against the first one while adding up the axis. */
  method JoinShapes(shapes: seq<Shape>, axis: nat) returns (joined: Option<Shape>)
    requires |shapes| > 0 && axis < |shapes[0]|
    ensures joined.Some? <==> Joinable(shapes, axis)
    ensures joined.Some? ==> joined.value == Joined(shapes, axis)
  {
    var total := shapes[0][axis := 0];
    var k := 0;
    while k < |shapes|
      invariant 0 <= k <= |shapes|
      invariant forall j :: 0 <= j < k ==> MatchesOffAxis(shapes[j], shapes[0], axis)
      invariant total == shapes[0][axis := Offset(AxisDims(shapes[..k], axis), k)]
    {
      var shape := shapes[k];
      if |shape| != |total| {
        assert !MatchesOffAxis(shapes[k], shapes[0], axis);
        return None;
      }
      var d := 0;
      while d < |shape|
        invariant 0 <= d <= |shape|
        invariant forall c :: 0 <= c < d && c != axis ==> shape[c] == shapes[0][c]
      {
        if d != axis && shape[d] != total[d] {
          assert !MatchesOffAxis(shapes[k], shapes[0], axis);
          return None;
        }
        d := d + 1;
      }
      AxisDimsPush(shapes, axis, k);
      total := total[axis := total[axis] + shape[axis]];
      k := k + 1;
    }
    assert shapes[..k] == shapes;
    joined := Some(total);
  }

  lemma AxisDimsPush(shapes: seq<Shape>, axis: nat, k: nat)
    requires k < |shapes| && forall j :: 0 <= j <= k ==> axis < |shapes[j]|
    ensures Offset(AxisDims(shapes[..k + 1], axis), k + 1) == Offset(AxisDims(shapes[..k], axis), k) + shapes[k][axis]
  {
    OffsetPrefix(AxisDims(shapes[..k + 1], axis), AxisDims(shapes[..k], axis), k);
  }

  lemma {:induction false} OffsetPrefix(a: seq<int>, b: seq<int>, k: nat)
    requires k <= |a| && k <= |b| && forall i :: 0 <= i < k ==> a[i] == b[i]
    ensures Offset(a, k) == Offset(b, k)
  {
    if k > 0 {
      OffsetPrefix(a, b, k - 1);
    }
  }

  // Where each element of an output row comes from.

  datatype Source = Source(input: nat, width: int, local: int)

  ghost predicate Reads(dims: seq<int>, inner: int, e: int, s: Source) {
    && s.input < |dims| && s.width == dims[s.input] * inner && 0 <= s.local < s.width
    && e == Offset(dims, s.input) * inner + s.local
  }

  /** One element of the row has one source. */
  lemma SourceUnique(dims: seq<int>, inner: int, e: int, s: Source, t: Source)
    requires IsShape(dims) && inner >= 0 && Reads(dims, inner, e, s) && Reads(dims, inner, e, t)
    ensures s == t
  {
    SourceOrder(dims, inner, s.input, t.input);
    SourceOrder(dims, inner, t.input, s.input);
  }

  lemma OffsetStep(dims: seq<int>, inner: int, k: nat)
    requires k < |dims|
    ensures Offset(dims, k + 1) * inner == Offset(dims, k) * inner + dims[k] * inner
  {
    MulDistributes(1, Offset(dims, k), dims[k], inner);
  }

  lemma SourceOrder(dims: seq<int>, inner: int, k: nat, l: nat)
    requires IsShape(dims) && inner >= 0 && k < |dims| && l < |dims|
    ensures k < l ==> Offset(dims, k) * inner + dims[k] * inner <= Offset(dims, l) * inner
  {
    hide Offset;
    if k < l {
      OffsetGrows(dims, k + 1, l);
      MulOrder(Offset(dims, k + 1), Offset(dims, l), inner);
      OffsetStep(dims, inner, k);
    }
  }

  ghost predicate Described(dims: seq<int>, inner: int, table: seq<Source>, n: int) {
    0 <= n <= |table| && forall e :: 0 <= e < n ==> Reads(dims, inner, e, table[e])
  }

  /** Fill the descriptor table, input by input. */
  method BuildDescriptors(dims: seq<int>, inner: int, table: array<Source>)
    requires IsShape(dims) && inner >= 0 && table.Length == Offset(dims, |dims|) * inner
    modifies table
    ensures Described(dims, inner, table[..], table.Length)
  {
    var outputOffset := 0;
    var k := 0;
    while k < |dims|
      invariant 0 <= k <= |dims| && outputOffset == Offset(dims, k) * inner <= table.Length
      invariant Described(dims, inner, table[..], outputOffset)
    {
      var width := dims[k] * inner;
      OffsetGrows(dims, k + 1, |dims|);
      MulOrder(Offset(dims, k + 1), Offset(dims, |dims|), inner);
      OffsetStep(dims, inner, k);
      MulOrder(0, dims[k], inner);
      var local := 0;
      while local < width
        invariant 0 <= local <= width
        invariant Described(dims, inner, table[..], outputOffset + local)
      {
        table[outputOffset + local] := Source(k, width, local);
        assert table[..][outputOffset + local] == Source(k, width, local);
        local := local + 1;
      }
      outputOffset := outputOffset + width;
      k := k + 1;
    }
  }

  /** The direct kernel scans the inputs instead. */
  method FindSource(dims: seq<int>, inner: int, e: int) returns (s: Source)
    requires IsShape(dims) && inner >= 0 && 0 <= e < Offset(dims, |dims|) * inner
    ensures Reads(dims, inner, e, s)
  {
    var offset, k := 0, 0;
    var width := 0;
    StartOffset(dims, inner, e);
    while true
      invariant 0 <= k < |dims| && offset == Offset(dims, k) * inner <= e
      decreases |dims| - k
    {
      width := dims[k] * inner;
      OffsetStep(dims, inner, k);
      if e < offset + width {
        return Source(k, width, e - offset);
      }
      offset := offset + width;
      k := k + 1;
    }
  }

  lemma StartOffset(dims: seq<int>, inner: int, e: int)
    requires 0 <= e < Offset(dims, |dims|) * inner
    ensures |dims| > 0 && Offset(dims, 0) * inner == 0
  {
    assert Offset(dims, 0) * inner == 0;
  }

  /** The table pairs the elements of an output row with the elements of the inputs' rows, one to one. */
  lemma TableIsBijection(dims: seq<int>, inner: int, table: seq<Source>, k: nat, local: int)
    requires IsShape(dims) && inner >= 0 && |table| == Offset(dims, |dims|) * inner
    requires Described(dims, inner, table, |table|)
    requires k < |dims| && 0 <= local < dims[k] * inner
    ensures
      var e := Offset(dims, k) * inner + local;
      0 <= e < |table| && table[e] == Source(k, dims[k] * inner, local)
    ensures forall e :: 0 <= e < |table| && table[e].input == k && table[e].local == local ==>
      e == Offset(dims, k) * inner + local
  {
    var e := Offset(dims, k) * inner + local;
    OffsetGrows(dims, 0, k);
    MulOrder(0, Offset(dims, k), inner);
    OffsetGrows(dims, k + 1, |dims|);
    MulOrder(Offset(dims, k + 1), Offset(dims, |dims|), inner);
    OffsetStep(dims, inner, k);
    assert Reads(dims, inner, e, Source(k, dims[k] * inner, local));
    SourceUnique(dims, inner, e, table[e], Source(k, dims[k] * inner, local));
  }

  // The flat copy against Concat of the ONNX operators.

  ghost predicate Stored<T>(shapes: seq<Shape>, inputs: seq<seq<T>>) {
    |inputs| == |shapes| && forall k :: 0 <= k < |shapes| ==> IsShape(shapes[k]) && |inputs[k]| == Num(shapes[k])
  }

  function Outer(shape: Shape, axis: nat): int
    requires axis < |shape|
  {
    Num(shape[..axis])
  }

  function Inner(shape: Shape, axis: nat): int
    requires axis < |shape|
  {
    Num(shape[axis + 1..])
  }

  lemma NumOne(d: int)
    ensures Num([d]) == d
  {
    assert [d][..0] == [];
  }

  lemma FlatOne(d: int, c: int)
    ensures Flat([d], [c]) == c
  {
    assert [d][..0] == [] && [c][..0] == [];
  }

  lemma ShapeParts(shape: Shape, axis: nat)
    requires IsShape(shape) && axis < |shape|
    ensures shape == shape[..axis] + [shape[axis]] + shape[axis + 1..]
    ensures Num(shape) == Outer(shape, axis) * (shape[axis] * Inner(shape, axis))
    ensures Outer(shape, axis) >= 0 && Inner(shape, axis) >= 0
  {
    hide Num;
    var a, d, b := shape[..axis], [shape[axis]], shape[axis + 1..];
    assert shape == (a + d) + b;
    NumAppend(a + d, b);
    NumAppend(a, d);
    NumOne(shape[axis]);
    MulAssociates(Num(a), shape[axis], Num(b));
    NumNatural(a);
    NumNatural(b);
  }

  lemma FlatParts(shape: Shape, axis: nat, coords: seq<int>)
    requires CoordsIn(shape, coords) && axis < |shape|
    ensures Flat(shape, coords) == Flat(shape[..axis], coords[..axis]) * (shape[axis] * Inner(shape, axis))
      + (coords[axis] * Inner(shape, axis) + Flat(shape[axis + 1..], coords[axis + 1..]))
    ensures 0 <= Flat(shape[..axis], coords[..axis]) < Outer(shape, axis)
    ensures 0 <= Flat(shape[axis + 1..], coords[axis + 1..]) < Inner(shape, axis)
  {
    hide Flat, Num;
    FlatThrough(shape[..axis], shape[axis], shape[axis + 1..], coords[..axis], coords[axis], coords[axis + 1..]);
    assert shape == shape[..axis] + [shape[axis]] + shape[axis + 1..];
    assert coords == coords[..axis] + [coords[axis]] + coords[axis + 1..];
    FlatInRange(shape[..axis], coords[..axis]);
    FlatInRange(shape[axis + 1..], coords[axis + 1..]);
  }

  lemma FlatThrough(a: Shape, d: int, b: Shape, ca: seq<int>, c: int, cb: seq<int>)
    requires |ca| == |a| && |cb| == |b|
    ensures Flat(a + [d] + b, ca + [c] + cb) == Flat(a, ca) * (d * Num(b)) + (c * Num(b) + Flat(b, cb))
  {
    hide Flat, Num;
    FlatAppend(a + [d], b, ca + [c], cb);
    FlatAppend(a, [d], ca, [c]);
    NumOne(d);
    FlatOne(d, c);
    Through(Flat(a + [d] + b, ca + [c] + cb), Flat(a + [d], ca + [c]), Flat(a, ca), Num([d]), d, Flat([d], [c]), c,
            Num(b), Flat(b, cb));
  }

  lemma Through(whole: int, front: int, f: int, nd: int, d: int, fc: int, c: int, nb: int, fb: int)
    requires nd == d && fc == c && front == f * nd + fc && whole == front * nb + fb
    ensures whole == f * (d * nb) + (c * nb + fb)
  {
    MulDistributes(f, d, c, nb);
  }

  /** Which input an index on the axis falls into. */
  lemma {:induction false} FindInput(dims: seq<int>, n: nat, x: int) returns (k: nat)
    requires n <= |dims| && 0 <= x < Offset(dims, n)
    ensures k < n && Offset(dims, k) <= x < Offset(dims, k) + dims[k]
  {
    if x < Offset(dims, n - 1) {
      k := FindInput(dims, n - 1, x);
    } else {
      k := n - 1;
    }
  }

  /** What a thread of either kernel copies: element e of output row o. */
  ghost predicate RowsCopied<T>(dims: seq<int>, outer: int, inner: int, inputs: seq<seq<T>>, out: seq<T>) {
    && |inputs| == |dims| && |out| == outer * (Offset(dims, |dims|) * inner)
    && forall o, e, s {:trigger RowCopied(dims, outer, inner, inputs, out, o, e, s)} ::
         0 <= o < outer && 0 <= e < Offset(dims, |dims|) * inner && Reads(dims, inner, e, s) ==>
           RowCopied(dims, outer, inner, inputs, out, o, e, s)
  }

  ghost predicate RowCopied<T>(dims: seq<int>, outer: int, inner: int, inputs: seq<seq<T>>, out: seq<T>, o: int,
                               e: int, s: Source)
    requires |inputs| == |dims|
  {
    && 0 <= o * (Offset(dims, |dims|) * inner) + e < |out| && s.input < |inputs|
    && 0 <= o * s.width + s.local < |inputs[s.input]|
    && out[o * (Offset(dims, |dims|) * inner) + e] == inputs[s.input][o * s.width + s.local]
  }

  ghost function Shifted(coords: seq<int>, axis: nat, back: int): seq<int>
    requires axis < |coords|
  {
    coords[axis := coords[axis] - back]
  }

  /**
   * The copied rows are the Concat: the element at any coordinates is the element of the input that
   * holds its index on the axis, at the coordinates shifted by what the earlier inputs take up.
   */
  lemma RowsAreConcat<T>(shapes: seq<Shape>, axis: nat, inputs: seq<seq<T>>, out: seq<T>, coords: seq<int>)
    returns (k: nat)
    requires Joinable(shapes, axis) && Stored(shapes, inputs)
    requires RowsCopied(AxisDims(shapes, axis), Outer(shapes[0], axis), Inner(shapes[0], axis), inputs, out)
    requires CoordsIn(Joined(shapes, axis), coords)
    ensures k < |shapes| && 0 <= Flat(Joined(shapes, axis), coords) < |out|
    ensures
      var before := Offset(AxisDims(shapes, axis), k);
      && CoordsIn(shapes[k], Shifted(coords, axis, before))
      && 0 <= Flat(shapes[k], Shifted(coords, axis, before)) < |inputs[k]|
      && out[Flat(Joined(shapes, axis), coords)] == inputs[k][Flat(shapes[k], Shifted(coords, axis, before))]
  {
    hide Flat, Num, Offset, RowCopied, RowsCopied;
    var dims := AxisDims(shapes, axis);
    var joined := Joined(shapes, axis);
    var inner := Inner(shapes[0], axis);
    k := FindInput(dims, |dims|, coords[axis]);
    var before := Offset(dims, k);
    var coords' := Shifted(coords, axis, before);
    SameOffAxis(shapes, axis, k, coords, before);
    FlatParts(joined, axis, coords);
    FlatParts(shapes[k], axis, coords');
    FlatInRange(shapes[k], coords');
    var o := Flat(joined[..axis], coords[..axis]);
    var i := Flat(joined[axis + 1..], coords[axis + 1..]);
    var s := Source(k, dims[k] * inner, coords'[axis] * inner + i);
    SourceOfCoords(dims, inner, coords[axis], k, i);
    RowMajorRange(Offset(dims, |dims|), inner, coords[axis], i);
    RowIsCopied(dims, Outer(shapes[0], axis), inner, inputs, out, o, coords[axis] * inner + i, s);
  }

  lemma SameOffAxis(shapes: seq<Shape>, axis: nat, k: nat, coords: seq<int>, before: int)
    requires Joinable(shapes, axis) && k < |shapes| && CoordsIn(Joined(shapes, axis), coords)
    requires 0 <= coords[axis] - before < shapes[k][axis]
    ensures
      var joined, coords' := Joined(shapes, axis), Shifted(coords, axis, before);
      && CoordsIn(shapes[k], coords')
      && shapes[k][..axis] == shapes[0][..axis] == joined[..axis]
      && shapes[k][axis + 1..] == shapes[0][axis + 1..] == joined[axis + 1..]
      && coords'[..axis] == coords[..axis] && coords'[axis + 1..] == coords[axis + 1..]
  {
    assert MatchesOffAxis(shapes[k], shapes[0], axis);
  }

  lemma SourceOfCoords(dims: seq<int>, inner: int, x: int, k: nat, i: int)
    requires k < |dims| && Offset(dims, k) <= x < Offset(dims, k) + dims[k] && 0 <= i < inner
    ensures Reads(dims, inner, x * inner + i, Source(k, dims[k] * inner, (x - Offset(dims, k)) * inner + i))
  {
    hide Offset;
    RowMajorRange(dims[k], inner, x - Offset(dims, k), i);
    MulDistributes(1, Offset(dims, k), x - Offset(dims, k), inner);
  }

  lemma RowIsCopied<T>(dims: seq<int>, outer: int, inner: int, inputs: seq<seq<T>>, out: seq<T>, o: int, e: int,
                       s: Source)
    requires RowsCopied(dims, outer, inner, inputs, out) && 0 <= o < outer && Reads(dims, inner, e, s)
    requires 0 <= e < Offset(dims, |dims|) * inner
    ensures RowCopied(dims, outer, inner, inputs, out, o, e, s)
  {
  }

  /** The rows fill the joined shape exactly. */
  lemma RowsFillJoined(shapes: seq<Shape>, axis: nat)
    requires Joinable(shapes, axis) && forall k :: 0 <= k < |shapes| ==> IsShape(shapes[k])
    ensures IsShape(Joined(shapes, axis))
    ensures Num(Joined(shapes, axis))
      == Outer(shapes[0], axis) * (Offset(AxisDims(shapes, axis), |shapes|) * Inner(shapes[0], axis))
  {
    var joined := Joined(shapes, axis);
    assert forall k :: 0 <= k < |shapes| ==> MatchesOffAxis(shapes[k], shapes[0], axis);
    OffsetGrows(AxisDims(shapes, axis), 0, |shapes|);
    ShapeParts(joined, axis);
    assert joined[..axis] == shapes[0][..axis] && joined[axis + 1..] == shapes[0][axis + 1..];
  }

  /** The kernel over the descriptor table: every row reads through the same table. */
  ghost predicate TableRan<T>(table: seq<Source>, outer: int, inputs: seq<seq<T>>, out: seq<T>) {
    && |out| == outer * |table|
    && forall o, e :: 0 <= o < outer && 0 <= e < |table| ==> ThreadCopied(table, inputs, out, o, e)
  }

  ghost predicate ThreadCopied<T>(table: seq<Source>, inputs: seq<seq<T>>, out: seq<T>, o: int, e: int)
    requires 0 <= e < |table|
  {
    && 0 <= o * |table| + e < |out| && table[e].input < |inputs|
    && 0 <= o * table[e].width + table[e].local < |inputs[table[e].input]|
    && out[o * |table| + e] == inputs[table[e].input][o * table[e].width + table[e].local]
  }

  lemma TableCopiesRows<T>(dims: seq<int>, outer: int, inner: int, table: seq<Source>, inputs: seq<seq<T>>, out: seq<T>)
    requires IsShape(dims) && inner >= 0 && |inputs| == |dims| && |table| == Offset(dims, |dims|) * inner
    requires Described(dims, inner, table, |table|) && TableRan(table, outer, inputs, out)
    ensures RowsCopied(dims, outer, inner, inputs, out)
  {
    forall o, e, s | 0 <= o < outer && 0 <= e < |table| && Reads(dims, inner, e, s)
      ensures RowCopied(dims, outer, inner, inputs, out, o, e, s)
    {
      assert ThreadCopied(table, inputs, out, o, e);
      SourceUnique(dims, inner, e, s, table[e]);
    }
  }

  /** The cell was copied from the source that a scan of the inputs finds. */
  ghost predicate ThreadFound<T>(dims: seq<int>, outer: int, inner: int, inputs: seq<seq<T>>, out: seq<T>, o: int,
                                 e: int)
    requires |inputs| == |dims|
  {
    exists s :: Reads(dims, inner, e, s) && RowCopied(dims, outer, inner, inputs, out, o, e, s)
  }

  /** One thread of the kernel without a table: it finds its source and touches no other cell. */
  method DirectThread<T>(dims: seq<int>, outer: int, inner: int, inputs: seq<seq<T>>, out: array<T>, o: int, e: int)
    requires IsShape(dims) && inner >= 0 && |inputs| == |dims|
    requires forall k :: 0 <= k < |dims| ==> |inputs[k]| == outer * (dims[k] * inner)
    requires out.Length == outer * (Offset(dims, |dims|) * inner)
    requires 0 <= o < outer && 0 <= e < Offset(dims, |dims|) * inner
    modifies out
    ensures ThreadFound(dims, outer, inner, inputs, out[..], o, e)
    ensures forall a :: 0 <= a < out.Length && a != o * (Offset(dims, |dims|) * inner) + e ==> out[a] == old(out[a])
  {
    var s := FindSource(dims, inner, e);
    hide Offset;
    var rowElements := Offset(dims, |dims|) * inner;
    RowMajorRange(outer, rowElements, o, e);
    RowMajorRange(outer, s.width, o, s.local);
    out[o * rowElements + e] := inputs[s.input][o * s.width + s.local];
    assert out[..][o * rowElements + e] == inputs[s.input][o * s.width + s.local];
    assert RowCopied(dims, outer, inner, inputs, out[..], o, e, s);
  }

  /** The kernel without a table: a thread for each element of each row, in any order. */
  ghost predicate DirectRan<T>(dims: seq<int>, outer: int, inner: int, inputs: seq<seq<T>>, out: seq<T>) {
    && |inputs| == |dims| && |out| == outer * (Offset(dims, |dims|) * inner)
    && forall o, e :: 0 <= o < outer && 0 <= e < Offset(dims, |dims|) * inner ==>
         ThreadFound(dims, outer, inner, inputs, out, o, e)
  }

  lemma DirectCopiesRows<T>(dims: seq<int>, outer: int, inner: int, inputs: seq<seq<T>>, out: seq<T>)
    requires IsShape(dims) && inner >= 0 && DirectRan(dims, outer, inner, inputs, out)
    ensures RowsCopied(dims, outer, inner, inputs, out)
  {
    forall o, e, s | 0 <= o < outer && 0 <= e < Offset(dims, |dims|) * inner && Reads(dims, inner, e, s)
      ensures RowCopied(dims, outer, inner, inputs, out, o, e, s)
    {
      assert ThreadFound(dims, outer, inner, inputs, out, o, e);
      var found :| Reads(dims, inner, e, found) && RowCopied(dims, outer, inner, inputs, out, o, e, found);
      SourceUnique(dims, inner, e, s, found);
    }
  }

  /** One copy of outer rows per input, side by side. */
  ghost predicate PitchedCopies<T>(dims: seq<int>, outer: int, inner: int, inputs: seq<seq<T>>, out: seq<T>) {
    && |inputs| == |dims| && |out| == outer * (Offset(dims, |dims|) * inner)
    && forall k, o, c :: 0 <= k < |dims| && 0 <= o < outer && 0 <= c < dims[k] * inner ==>
         PitchedCopy(dims, inner, inputs, out, k, o, c)
  }

  ghost predicate PitchedCopy<T>(dims: seq<int>, inner: int, inputs: seq<seq<T>>, out: seq<T>, k: nat, o: int, c: int)
    requires k < |dims| == |inputs|
  {
    && 0 <= o * (Offset(dims, |dims|) * inner) + Offset(dims, k) * inner + c < |out|
    && 0 <= o * (dims[k] * inner) + c < |inputs[k]|
    && out[o * (Offset(dims, |dims|) * inner) + Offset(dims, k) * inner + c] == inputs[k][o * (dims[k] * inner) + c]
  }

  lemma PitchedCopiesRows<T>(dims: seq<int>, outer: int, inner: int, inputs: seq<seq<T>>, out: seq<T>)
    requires PitchedCopies(dims, outer, inner, inputs, out)
    ensures RowsCopied(dims, outer, inner, inputs, out)
  {
    forall o, e, s | 0 <= o < outer && 0 <= e < Offset(dims, |dims|) * inner && Reads(dims, inner, e, s)
      ensures RowCopied(dims, outer, inner, inputs, out, o, e, s)
    {
      assert PitchedCopy(dims, inner, inputs, out, s.input, o, s.local);
    }
  }

  // Reshape.

  /** Every 0 of the target that stands for the input's dimension has one to stand for. */
  ghost predicate ZerosHaveDims(input: Shape, target: seq<int>, allowzero: bool) {
    forall i :: 0 <= i < |target| && target[i] == 0 && !allowzero ==> i < |input|
  }

  /** The target with the input's dimension for each 0, unless zeros are allowed. */
  ghost function Target(input: Shape, target: seq<int>, allowzero: bool): seq<int>
    requires ZerosHaveDims(input, target, allowzero)
  {
    seq(|target|, i requires 0 <= i < |target| => if target[i] == 0 && !allowzero then input[i] else target[i])
  }

  ghost predicate Infers(shape: seq<int>, i: nat) {
    i < |shape| && shape[i] == -1
  }

  /** Product of all dimensions but the inferred ones. */
  ghost function KnownProduct(shape: seq<int>): int {
    if shape == [] then 1
    else KnownProduct(shape[..|shape| - 1]) * if shape[|shape| - 1] == -1 then 1 else shape[|shape| - 1]
  }

  method ProductOf(shape: seq<int>) returns (n: int)
    ensures n == Num(shape)
  {
    n := 1;
    var i := 0;
    while i < |shape|
      invariant 0 <= i <= |shape| && n == Num(shape[..i])
    {
      assert shape[..i + 1][..i] == shape[..i];
      n := n * shape[i];
      i := i + 1;
    }
    assert shape[..i] == shape;
  }

  lemma {:induction false} InferredProduct(shape: seq<int>, i: nat, d: int)
    requires Infers(shape, i) && forall j :: 0 <= j < |shape| && j != i ==> shape[j] != -1
    ensures Num(shape[i := d]) == KnownProduct(shape) * d
  {
    var n := |shape| - 1;
    assert shape[i := d][..n] == if i < n then shape[..n][i := d] else shape[..n];
    if i < n {
      InferredProduct(shape[..n], i, d);
      MulCommutes(KnownProduct(shape[..n]), d, shape[n]);
    } else {
      NothingInferred(shape[..n]);
    }
  }

  lemma MulCommutes(a: int, b: int, c: int)
    ensures a * b * c == a * c * b
  {
  }

  lemma {:induction false} NothingInferred(shape: seq<int>)
    requires forall j :: 0 <= j < |shape| ==> shape[j] != -1
    ensures KnownProduct(shape) == Num(shape)
  {
    if shape != [] {
      NothingInferred(shape[..|shape| - 1]);
    }
  }

  /** Quotient of an exact division; it rounds nothing, so it does not matter which way. */
  function Exact(n: int, d: int): (q: int)
    requires d != 0 && n % d == 0
    ensures q * d == n
  {
    n / d
  }

  /** Replace zeros and infer the dimension given as -1; None stands for an exception. */
  method ResolveReshapeOutputShape(inputShape: Shape, targetShape: seq<int>, allowzero: bool)
    returns (out: Option<seq<int>>)
    requires IsShape(inputShape)
    ensures !ZerosHaveDims(inputShape, targetShape, allowzero) ==> out == None
    ensures ZerosHaveDims(inputShape, targetShape, allowzero) ==>
      Resolved(inputShape, Target(inputShape, targetShape, allowzero), out)
  {
    var inputSize := ProductOf(inputShape);
    var known := 1;
    var infer := -1;
    var shape := targetShape;
    var i := 0;
    while i < |shape|
      invariant 0 <= i <= |shape| == |targetShape|
      invariant forall j :: i <= j < |shape| ==> shape[j] == targetShape[j]
      invariant forall j :: 0 <= j < i && targetShape[j] == 0 && !allowzero ==>
        j < |inputShape| && shape[j] == inputShape[j]
      invariant forall j :: 0 <= j < i && !(targetShape[j] == 0 && !allowzero) ==> shape[j] == targetShape[j]
      invariant known == KnownProduct(shape[..i])
      invariant -1 <= infer < i && (infer >= 0 ==> shape[infer] == -1)
      invariant forall j :: 0 <= j < i && j != infer ==> shape[j] != -1
    {
      if shape[i] == 0 && !allowzero {
        if i >= |inputShape| {
          assert targetShape[i] == 0 && i >= |inputShape|;
          return None;
        }
        ghost var was := shape;
        shape := shape[i := inputShape[i]];
        assert shape[..i] == was[..i];
      }
      assert shape[..i + 1][..i] == shape[..i];
      if shape[i] == -1 {
        if infer >= 0 {
          if ZerosHaveDims(inputShape, targetShape, allowzero) {
            assert Infers(Target(inputShape, targetShape, allowzero), infer);
            assert Infers(Target(inputShape, targetShape, allowzero), i);
          }
          return None;
        }
        infer := i;
      } else {
        known := known * shape[i];
      }
      i := i + 1;
    }
    assert shape[..i] == shape;
    assert shape == Target(inputShape, targetShape, allowzero);
    if infer >= 0 {
      assert Infers(shape, infer);
      if known == 0 || inputSize % known != 0 {
        return None;
      }
      InferredProduct(shape, infer, Exact(inputSize, known));
      shape := shape[infer := Exact(inputSize, known)];
    }
    out := Some(shape);
  }

  /**
   * What becomes of a target without zeros: at most one dimension is inferred, it is inferred if
   * and only if it can be, and then the element count is that of the input.
   */
  ghost predicate Resolved(input: Shape, target: seq<int>, out: Option<seq<int>>) {
    if exists i, j :: i != j && Infers(target, i) && Infers(target, j) then out == None
    else if exists i :: Infers(target, i) then
      if KnownProduct(target) == 0 || Num(input) % KnownProduct(target) != 0 then out == None
      else
        && out.Some? && |out.value| == |target| && Num(out.value) == Num(input)
        && forall i :: 0 <= i < |target| && !Infers(target, i) ==> out.value[i] == target[i]
    else out == Some(target)
  }

  // Unsqueeze.

  /** The shape without the dimensions at these places. */
  function Without(shape: seq<int>, places: set<int>): seq<int> {
    if shape == [] then []
    else
      var n := |shape| - 1;
      Without(shape[..n], places) + if n in places then [] else [shape[n]]
  }

  lemma {:induction false} WithoutDependsOnPlacesBelow(shape: seq<int>, p: set<int>, q: set<int>)
    requires forall i :: 0 <= i < |shape| ==> (i in p <==> i in q)
    ensures Without(shape, p) == Without(shape, q)
  {
    if shape != [] {
      WithoutDependsOnPlacesBelow(shape[..|shape| - 1], p, q);
    }
  }

  function InsertedAt(shape: seq<int>, a: nat, d: int): seq<int>
    requires a <= |shape|
  {
    shape[..a] + [d] + shape[a..]
  }

  /** A dimension inserted behind the places is taken out with its own place. */
  lemma {:induction false} InsertThenRemove(shape: seq<int>, places: set<int>, a: nat, d: int)
    requires a <= |shape| && forall p :: p in places ==> p < a
    ensures Without(InsertedAt(shape, a, d), places + {a}) == Without(shape, places)
  {
    var longer := InsertedAt(shape, a, d);
    var n := |shape|;
    if a == n {
      assert longer[..n] == shape;
      WithoutDependsOnPlacesBelow(shape, places + {a}, places);
    } else {
      assert longer[..n] == InsertedAt(shape[..n - 1], a, d);
      InsertThenRemove(shape[..n - 1], places, a, d);
    }
  }

  lemma {:induction false} WithoutNothing(shape: seq<int>)
    ensures Without(shape, {}) == shape
  {
    if shape != [] {
      WithoutNothing(shape[..|shape| - 1]);
    }
  }

  predicate Nondecreasing(a: seq<int>) {
    forall i, j :: 0 <= i < j < |a| ==> a[i] <= a[j]
  }

  ghost predicate Distinct(a: seq<int>) {
    forall i, j :: 0 <= i < j < |a| ==> a[i] != a[j]
  }

  lemma {:induction false} DistinctCounts(a: seq<int>)
    ensures Distinct(a) <==> forall x :: multiset(a)[x] <= 1
  {
    if a != [] {
      var n := |a| - 1;
      var init, last := a[..n], a[n];
      DistinctCounts(init);
      assert a == init + [last];
      assert multiset(a) == multiset(init) + multiset{last};
      if Distinct(a) {
        assert last !in multiset(init) by {
          assert last in multiset(init) ==> last in init;
        }
      } else if Distinct(init) {
        var i, j :| 0 <= i < j < |a| && a[i] == a[j];
        assert j == n ==> last in init;
        assert multiset(a)[last] > 1;
      } else {
        var x :| multiset(init)[x] > 1;
        assert multiset(a)[x] > 1;
      }
    }
  }

  method SortAxes(axes: seq<int>) returns (sorted: seq<int>)
    ensures Nondecreasing(sorted) && multiset(sorted) == multiset(axes)
  {
    sorted := [];
    var i := 0;
    while i < |axes|
      invariant 0 <= i <= |axes|
      invariant Nondecreasing(sorted) && multiset(sorted) == multiset(axes[..i])
    {
      var j := 0;
      while j < |sorted| && sorted[j] <= axes[i]
        invariant 0 <= j <= |sorted|
        invariant forall k :: 0 <= k < j ==> sorted[k] <= axes[i]
      {
        j := j + 1;
      }
      assert axes[..i + 1] == axes[..i] + [axes[i]];
      assert sorted == sorted[..j] + sorted[j..];
      sorted := sorted[..j] + [axes[i]] + sorted[j..];
      i := i + 1;
    }
    assert axes[..i] == axes;
  }

  function Places(axes: seq<int>): set<int> {
    set a | a in axes
  }

  /** Insert a 1 at each axis, in increasing order of the axes. */
  method InsertOnes(shape: Shape, sorted: seq<int>) returns (out: Shape)
    requires Nondecreasing(sorted) && Distinct(sorted)
    requires forall i :: 0 <= i < |sorted| ==> 0 <= sorted[i] < |shape| + |sorted|
    ensures |out| == |shape| + |sorted| && (forall i :: 0 <= i < |sorted| ==> out[sorted[i]] == 1)
    ensures Without(out, Places(sorted)) == shape
  {
    hide Without, Places, InsertedAt;
    out := shape;
    WithoutNothing(shape);
    NoPlaces();
    assert sorted[..0] == [];
    var k := 0;
    while k < |sorted|
      invariant 0 <= k <= |sorted| && |out| == |shape| + k
      invariant forall i :: 0 <= i < k ==> sorted[i] < |out| && out[sorted[i]] == 1
      invariant Without(out, Places(sorted[..k])) == shape
    {
      RoomForAxis(sorted, k, |shape| + |sorted|);
      PlacesBelow(sorted, k);
      InsertThenRemove(out, Places(sorted[..k]), sorted[k], 1);
      InsertedElements(out, sorted[k], 1);
      assert forall i :: 0 <= i < k ==> sorted[i] < sorted[k];
      out := InsertedAt(out, sorted[k], 1);
      k := k + 1;
    }
    assert sorted[..k] == sorted;
  }

  lemma NoPlaces()
    ensures Places([]) == {}
  {
  }

  lemma PlacesBelow(sorted: seq<int>, k: nat)
    requires Nondecreasing(sorted) && Distinct(sorted) && k < |sorted|
    ensures forall p :: p in Places(sorted[..k]) ==> p < sorted[k]
    ensures Places(sorted[..k + 1]) == Places(sorted[..k]) + {sorted[k]}
  {
    assert sorted[..k + 1] == sorted[..k] + [sorted[k]];
  }

  lemma InsertedElements(shape: seq<int>, a: nat, d: int)
    requires a <= |shape|
    ensures |InsertedAt(shape, a, d)| == |shape| + 1 && InsertedAt(shape, a, d)[a] == d
    ensures forall i :: 0 <= i < a ==> InsertedAt(shape, a, d)[i] == shape[i]
  {
  }

  lemma {:induction false} RoomForAxis(sorted: seq<int>, k: nat, rank: int)
    requires Nondecreasing(sorted) && Distinct(sorted) && k < |sorted| && sorted[|sorted| - 1] < rank
    ensures sorted[k] + (|sorted| - 1 - k) < rank
    decreases |sorted| - k
  {
    if k + 1 < |sorted| {
      RoomForAxis(sorted, k + 1, rank);
      assert sorted[k] != sorted[k + 1];
    }
  }

  /** Every axis is within the rank, and no two name one place; a negative one counts from the end. */
  ghost predicate AxesAreFine(axes: seq<int>, rank: nat) {
    && (forall i :: 0 <= i < |axes| ==> -(rank as int) <= axes[i] < rank)
    && forall i, j :: 0 <= i < j < |axes| ==>
         axes[i] != axes[j] && axes[i] + rank != axes[j] && axes[i] != axes[j] + rank
  }

  /** The places that the axes name. */
  ghost function Named(axes: seq<int>, rank: nat): set<int> {
    (set i | 0 <= i < |axes| && axes[i] >= 0 :: axes[i]) + (set i | 0 <= i < |axes| && axes[i] < 0 :: axes[i] + rank)
  }

  /** out has a 1 at each of those places, and is the shape without them. */
  ghost predicate Unsqueezed(shape: Shape, axes: seq<int>, out: Shape) {
    var rank := |shape| + |axes|;
    && |out| == rank && Without(out, Named(axes, rank)) == shape
    && (forall i :: 0 <= i < |axes| && axes[i] >= 0 ==> axes[i] < rank && out[axes[i]] == 1)
    && (forall i :: 0 <= i < |axes| && axes[i] < 0 ==> 0 <= axes[i] + rank && out[axes[i] + rank] == 1)
  }

  /** The axes counted from the front; None if one is out of range. */
  method FromTheFront(axes: seq<int>, rank: nat) returns (normal: Option<seq<int>>)
    ensures normal.Some? <==> forall i :: 0 <= i < |axes| ==> -(rank as int) <= axes[i] < rank
    ensures normal.Some? ==>
      && |normal.value| == |axes|
      && forall i :: 0 <= i < |axes| ==>
           0 <= normal.value[i] < rank && normal.value[i] == if axes[i] < 0 then axes[i] + rank else axes[i]
  {
    var result: seq<int> := [];
    var i := 0;
    while i < |axes|
      invariant 0 <= i <= |axes| && |result| == i
      invariant forall j :: 0 <= j < i ==> -(rank as int) <= axes[j] < rank
      invariant forall j :: 0 <= j < i ==> result[j] == if axes[j] < 0 then axes[j] + rank else axes[j]
    {
      var axis := if axes[i] < 0 then axes[i] + rank else axes[i];
      if axis < 0 || axis >= rank {
        return None;
      }
      result := result + [axis];
      i := i + 1;
    }
    normal := Some(result);
  }

  /** Among sorted axes, repeated ones are neighbours. */
  method HasRepeats(sorted: seq<int>) returns (repeated: bool)
    requires Nondecreasing(sorted)
    ensures repeated <==> !Distinct(sorted)
  {
    var i := 0;
    while i + 1 < |sorted|
      invariant 0 <= i <= |sorted|
      invariant forall j :: 0 < j <= i && j < |sorted| ==> sorted[j - 1] < sorted[j]
    {
      if sorted[i] == sorted[i + 1] {
        return true;
      }
      i := i + 1;
    }
    AdjacentIsDistinct(sorted);
    repeated := false;
  }

  /** Insert ones into the shape; None stands for an exception. */
  method ApplyUnsqueeze(shape: Shape, axes: seq<int>) returns (out: Option<Shape>)
    ensures out.Some? <==> AxesAreFine(axes, |shape| + |axes|)
    ensures out.Some? ==> Unsqueezed(shape, axes, out.value)
  {
    hide Unsqueezed, Without, Named, Places;
    var rank := |shape| + |axes|;
    if axes == [] {
      NothingNamed(shape);
      return Some(shape);
    }
    var normal := FromTheFront(axes, rank);
    if normal == None {
      return None;
    }
    FineIfDistinct(axes, rank, normal.value);
    var sorted := SortAxes(normal.value);
    SameElements(sorted, normal.value);
    DistinctCounts(sorted);
    DistinctCounts(normal.value);
    var repeated := HasRepeats(sorted);
    if repeated {
      return None;
    }
    SameMembers(sorted, normal.value);
    var result := InsertOnes(shape, sorted);
    OnesWhereNamed(shape, axes, normal.value, sorted, result);
    out := Some(result);
  }

  lemma NothingNamed(shape: Shape)
    ensures Unsqueezed(shape, [], shape)
  {
    WithoutNothing(shape);
    assert Named([], |shape|) == {};
  }

  lemma SameMembers(a: seq<int>, b: seq<int>)
    requires Places(a) == Places(b)
    ensures forall i :: 0 <= i < |a| ==> a[i] in b
    ensures forall i :: 0 <= i < |b| ==> b[i] in a
  {
    forall i | 0 <= i < |a|
      ensures a[i] in b
    {
      assert a[i] in Places(a);
    }
    forall i | 0 <= i < |b|
      ensures b[i] in a
    {
      assert b[i] in Places(b);
    }
  }

  lemma OnesWhereNamed(shape: Shape, axes: seq<int>, normal: seq<int>, sorted: seq<int>, out: Shape)
    requires |normal| == |axes| && |out| == |shape| + |axes| && Places(sorted) == Places(normal)
    requires forall j :: 0 <= j < |axes| ==> 0 <= normal[j] < |out|
    requires forall j :: 0 <= j < |axes| ==> normal[j] == if axes[j] < 0 then axes[j] + |out| else axes[j]
    requires Places(normal) == Named(axes, |out|) && Without(out, Places(sorted)) == shape
    requires forall i :: 0 <= i < |sorted| ==> 0 <= sorted[i] < |out| && out[sorted[i]] == 1
    ensures Unsqueezed(shape, axes, out)
  {
    hide Without;
    SameMembers(sorted, normal);
    hide Places, Named;
    forall j | 0 <= j < |axes|
      ensures out[normal[j]] == 1
    {
      assert normal[j] in sorted;
    }
  }

  /** Counted from the front, the axes name different places exactly if they do as given. */
  lemma FineIfDistinct(axes: seq<int>, rank: nat, normal: seq<int>)
    requires |normal| == |axes| && forall j :: 0 <= j < |axes| ==> 0 <= normal[j] < rank
    requires forall j :: 0 <= j < |axes| ==> normal[j] == if axes[j] < 0 then axes[j] + rank else axes[j]
    ensures Distinct(normal) <==> AxesAreFine(axes, rank)
    ensures Places(normal) == Named(axes, rank)
  {
    forall i, j | 0 <= i < j < |axes|
      ensures normal[i] != normal[j] <==>
              axes[i] != axes[j] && axes[i] + rank != axes[j] && axes[i] != axes[j] + rank
    {
    }
    forall p
      ensures p in Places(normal) <==> p in Named(axes, rank)
    {
      if p in Places(normal) {
        var j :| 0 <= j < |normal| && normal[j] == p;
        assert axes[j] in axes;
      }
      if p in Named(axes, rank) {
        var j :| 0 <= j < |axes| && p == if axes[j] < 0 then axes[j] + rank else axes[j];
        assert normal[j] == p;
      }
    }
  }

  lemma SameElements(a: seq<int>, b: seq<int>)
    requires multiset(a) == multiset(b)
    ensures |a| == |b| && Places(a) == Places(b)
  {
    assert |multiset(a)| == |a| && |multiset(b)| == |b|;
    forall x
      ensures x in a <==> x in b
    {
      assert x in a <==> x in multiset(a);
      assert x in b <==> x in multiset(b);
    }
  }

  lemma AdjacentIsDistinct(a: seq<int>)
    requires Nondecreasing(a) && forall j :: 0 < j < |a| ==> a[j - 1] < a[j]
    ensures Distinct(a)
  {
    forall i, j | 0 <= i < j < |a|
      ensures a[i] != a[j]
    {
      assert a[i] <= a[j - 1];
    }
  }

  /** Dimensions of 1 do not change the number of elements. */
  lemma {:induction false} OnesKeepCount(shape: seq<int>, places: set<int>)
    requires forall i :: 0 <= i < |shape| && i in places ==> shape[i] == 1
    ensures Num(Without(shape, places)) == Num(shape)
  {
    if shape != [] {
      var n := |shape| - 1;
      OnesKeepCount(shape[..n], places);
      var rest := Without(shape[..n], places);
      assert Num(shape) == Num(shape[..n]) * shape[n];
      if n in places {
        assert Without(shape, places) == rest + [] == rest;
      } else {
        NumAppend(rest, [shape[n]]);
        NumOne(shape[n]);
      }
    }
  }

  /**
   * The shape of the result, or None where the original fails: the joined shape unsqueezed, then
   * reshaped. It holds as many elements as the joined shape, and when a dimension was inferred the
   * closing comparison cannot fail.
   */
  method OutputShape(shapes: seq<Shape>, axis: nat, unsqueezeAxes: seq<int>, target: seq<int>, allowzero: bool)
    returns (out: Option<seq<int>>, ghost unsqueezed: Shape, ghost resolved: Option<seq<int>>)
    requires |shapes| > 0 && axis < |shapes[0]| && forall k :: 0 <= k < |shapes| ==> IsShape(shapes[k])
    ensures Joinable(shapes, axis) && AxesAreFine(unsqueezeAxes, |shapes[0]| + |unsqueezeAxes|) ==>
      && Unsqueezed(Joined(shapes, axis), unsqueezeAxes, unsqueezed)
      && (if ZerosHaveDims(unsqueezed, target, allowzero)
          then Resolved(unsqueezed, Target(unsqueezed, target, allowzero), resolved) else resolved == None)
      && out == (if resolved.Some? && Num(resolved.value) == Num(Joined(shapes, axis)) then resolved else None)
    ensures !(Joinable(shapes, axis) && AxesAreFine(unsqueezeAxes, |shapes[0]| + |unsqueezeAxes|)) ==> out == None
    ensures resolved.Some? && (exists i :: Infers(target, i)) ==> out == resolved
  {
    hide Unsqueezed, AxesAreFine, Named, Without, Resolved, Target, Joinable, Joined, Num;
    out, unsqueezed, resolved := None, [], None;
    var joined := JoinShapes(shapes, axis);
    if joined == None {
      return;
    }
    RowsFillJoined(shapes, axis);
    JoinedRank(shapes, axis);
    var longer := ApplyUnsqueeze(joined.value, unsqueezeAxes);
    if longer == None {
      return;
    }
    unsqueezed := longer.value;
    UnsqueezedKeepsCount(joined.value, unsqueezeAxes, unsqueezed);
    var reshaped := ResolveReshapeOutputShape(longer.value, target, allowzero);
    resolved := reshaped;
    if reshaped == None {
      return;
    }
    if i :| Infers(target, i) {
      InferredCount(unsqueezed, target, allowzero, i, resolved);
    }
    var outCount := ProductOf(reshaped.value);
    var joinedCount := ProductOf(joined.value);
    if outCount != joinedCount {
      return;
    }
    out := reshaped;
  }

  lemma JoinedRank(shapes: seq<Shape>, axis: nat)
    requires Joinable(shapes, axis)
    ensures |Joined(shapes, axis)| == |shapes[0]|
  {
  }

  lemma UnsqueezedKeepsCount(shape: Shape, axes: seq<int>, out: Shape)
    requires IsShape(shape) && Unsqueezed(shape, axes, out)
    ensures IsShape(out) && Num(out) == Num(shape)
  {
    hide Without, Num;
    var places := Named(axes, |out|);
    OnesKeepCount(out, places);
    UnsqueezedIsShape(out, places);
  }

  /** An inferred dimension makes up for the others. */
  lemma InferredCount(input: Shape, target: seq<int>, allowzero: bool, i: nat, out: Option<seq<int>>)
    requires Infers(target, i) && ZerosHaveDims(input, target, allowzero)
    requires out.Some? && Resolved(input, Target(input, target, allowzero), out)
    ensures Num(out.value) == Num(input)
  {
    assert Infers(Target(input, target, allowzero), i);
  }

  lemma {:induction false} UnsqueezedIsShape(shape: seq<int>, places: set<int>)
    requires IsShape(Without(shape, places)) && forall i :: 0 <= i < |shape| && i in places ==> shape[i] == 1
    ensures IsShape(shape)
  {
    if shape != [] {
      var n := |shape| - 1;
      var rest := Without(shape[..n], places);
      assert n !in places ==> Without(shape, places)[|rest|] == shape[n];
      assert forall i :: 0 <= i < |rest| ==> rest[i] == Without(shape, places)[i];
      UnsqueezedIsShape(shape[..n], places);
    }
  }
}
