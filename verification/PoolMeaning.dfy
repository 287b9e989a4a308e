/**
 * What Slice, MaxPool and AveragePool compute, after the ONNX operator specification: Slice with
 * every axis listed, pooling without padding.
 */
module PoolMeaning {
  import opened Options
  import opened Division
  import opened TensorValues
  import opened Broadcasting

  // The element at the coordinates, if there is one.
  function At(x: Tensor, c: seq<nat>): (n: Option<Num>) {
    if |c| == |x.shape| && (forall d :: 0 <= d < |c| ==> c[d] < x.shape[d]) then
      var i := Flatten(c, x.shape);
      if i < |x.data| then Some(x.data[i]) else None
    else None
  }

  function Build(dtype: DType, s: Shape, f: seq<nat> -> Num): (t: Tensor)
    ensures t.dtype == dtype && t.shape == s && |t.data| == Size(s)
  {
    Tensor(dtype, s, seq(Size(s), i requires 0 <= i < Size(s) => f(Unflatten(i, s))))
  }

  // --- Slice ----------------------------------------------------------------------------------

  // The number of elements between start and end, one every step.
  function SliceLength(dim: nat, start: nat, end: nat, step: nat): (n: nat)
    requires step > 0
  {
    var stop := if end < dim then end else dim;
    if stop <= start then 0 else (stop - start - 1) / step + 1
  }

  function SliceShape(s: Shape, starts: seq<nat>, ends: seq<nat>, steps: seq<nat>): (r: Shape)
    requires |s| == |starts| == |ends| == |steps| && forall d :: 0 <= d < |s| ==> steps[d] > 0
    ensures |r| == |s|
  {
    seq(|s|, d requires 0 <= d < |s| => SliceLength(s[d], starts[d], ends[d], steps[d]))
  }

  function SlicePosition(c: seq<nat>, starts: seq<nat>, steps: seq<nat>): (p: seq<nat>)
    requires |c| == |starts| == |steps|
    ensures |p| == |c|
  {
    seq(|c|, d requires 0 <= d < |c| => starts[d] + c[d] * steps[d])
  }

  function Sliced(x: Tensor, starts: seq<nat>, ends: seq<nat>, steps: seq<nat>): (t: Tensor)
    requires |x.shape| == |starts| == |ends| == |steps| && forall d :: 0 <= d < |steps| ==> steps[d] > 0
  {
    Build(x.dtype, SliceShape(x.shape, starts, ends, steps), c =>
      if |c| == |starts| then
        var n := At(x, SlicePosition(c, starts, steps));
        if n.Some? then n.value else NaN
      else NaN)
  }

  // --- Pooling --------------------------------------------------------------------------------

  datatype Window = Window(kernel: Shape, strides: Shape, dilations: Shape, ceilMode: bool)

  predicate IsWindow(w: Window, s: Shape) {
    && |w.kernel| == |w.strides| == |w.dilations| && |s| == |w.kernel| + 2
    && forall d :: 0 <= d < |w.kernel| ==>
        && w.kernel[d] > 0 && w.strides[d] > 0 && w.dilations[d] > 0
        && (w.kernel[d] - 1) * w.dilations[d] < s[d + 2]
  }

  // The number of windows along a dimension. In ceil mode a last window that hangs over the end
  // counts, as long as it starts inside.
  function PooledLength(dim: nat, kernel: nat, stride: nat, dilation: nat, ceilMode: bool): (n: nat)
    requires stride > 0 && kernel > 0 && (kernel - 1) * dilation < dim
    ensures n > 0
  {
    var room := dim - 1 - (kernel - 1) * dilation;
    var whole := room / stride + 1;
    if ceilMode && room % stride != 0 && whole * stride < dim then whole + 1 else whole
  }

  function PooledShape(s: Shape, w: Window): (r: Shape)
    requires IsWindow(w, s)
    ensures |r| == |s|
  {
    s[..2] + seq(|w.kernel|, d requires 0 <= d < |w.kernel| =>
      PooledLength(s[d + 2], w.kernel[d], w.strides[d], w.dilations[d], w.ceilMode))
  }

  // Where the window of output position o reads for kernel position k.
  function TapPosition(o: seq<nat>, k: seq<nat>, w: Window): (p: seq<nat>)
    requires |o| == |k| + 2 && |k| == |w.strides| == |w.dilations|
    ensures |p| == |o|
  {
    o[..2] + seq(|k|, d requires 0 <= d < |k| => o[d + 2] * w.strides[d] + k[d] * w.dilations[d])
  }

  function Tap(x: Tensor, o: seq<nat>, k: seq<nat>, w: Window): (n: Option<Num>) {
    if |o| == |k| + 2 && |k| == |w.strides| == |w.dilations| then At(x, TapPosition(o, k, w)) else None
  }

  // What has been taken in so far: the combination of the taps that exist and their number.
  datatype Gathered = Gathered(total: Option<Num>, count: nat)

  function Take(op: BinaryOp, g: Gathered, n: Option<Num>): (g': Gathered) {
    if n.None? then g
    else if g.total.None? then Gathered(n, g.count + 1)
    else Gathered(Some(op(g.total.value, n.value)), g.count + 1)
  }

  // Over every kernel position, one loop per dimension.
  function OverKernel(op: BinaryOp, f: seq<nat> -> Option<Num>, g: Gathered, prefix: seq<nat>, dims: Shape)
    : (g': Gathered)
    decreases |dims|
  {
    if dims == [] then Take(op, g, f(prefix)) else OverDimension(op, f, g, prefix, dims, 0)
  }

  function OverDimension(
    op: BinaryOp, f: seq<nat> -> Option<Num>, g: Gathered, prefix: seq<nat>, dims: Shape, k: nat)
    : (g': Gathered)
    requires dims != [] && k <= dims[0]
    decreases |dims|, dims[0] - k
  {
    if k == dims[0] then g
    else OverDimension(op, f, OverKernel(op, f, g, prefix + [k], dims[1..]), prefix, dims, k + 1)
  }

  function WindowAt(op: BinaryOp, x: Tensor, o: seq<nat>, w: Window): (g: Gathered) {
    OverKernel(op, k => Tap(x, o, k, w), Gathered(None, 0), [], w.kernel)
  }

  function Largest(g: Gathered): (n: Num) {
    if g.total.Some? then g.total.value else NaN
  }

  function Mean(g: Gathered): (n: Num) {
    if g.total.Some? then Over(g.total.value, Fin(g.count as real)) else NaN
  }

  function MaxPooled(x: Tensor, w: Window): (t: Tensor)
    requires IsWindow(w, x.shape)
  {
    Build(x.dtype, PooledShape(x.shape, w), o => Largest(WindowAt(TakingLarger(), x, o, w)))
  }

  function AveragePooled(x: Tensor, w: Window): (t: Tensor)
    requires IsWindow(w, x.shape)
  {
    Build(x.dtype, PooledShape(x.shape, w), o => Mean(WindowAt(Adding(), x, o, w)))
  }

  // --- One loop over all kernel positions -----------------------------------------------------

  // The first n kernel positions in row-major order.
  function OverTaps(op: BinaryOp, f: seq<nat> -> Option<Num>, g: Gathered, prefix: seq<nat>, dims: Shape, n: nat)
    : (g': Gathered)
    requires n <= Size(dims)
  {
    if n == 0 then g
    else Take(op, OverTaps(op, f, g, prefix, dims, n - 1), f(prefix + Unflatten(n - 1, dims)))
  }

  // Nested loops meet the kernel positions in the order in which one counter decodes them.
  lemma {:induction false} NestedIsFlat(
    op: BinaryOp, f: seq<nat> -> Option<Num>, g: Gathered, prefix: seq<nat>, dims: Shape)
    ensures OverKernel(op, f, g, prefix, dims) == OverTaps(op, f, g, prefix, dims, Size(dims))
    decreases |dims|
  {
    if dims == [] {
      assert prefix + Unflatten(0, dims) == prefix;
      assert OverTaps(op, f, g, prefix, dims, 0) == g;
    } else {
      DimensionIsFlat(op, f, g, prefix, dims, 0);
    }
  }

  // From coordinate k of the first dimension on.
  lemma {:induction false} DimensionIsFlat(
    op: BinaryOp, f: seq<nat> -> Option<Num>, g: Gathered, prefix: seq<nat>, dims: Shape, k: nat)
    requires dims != [] && k <= dims[0]
    ensures k * Size(dims[1..]) <= Size(dims)
    ensures OverDimension(op, f, OverTaps(op, f, g, prefix, dims, k * Size(dims[1..])), prefix, dims, k)
         == OverTaps(op, f, g, prefix, dims, Size(dims))
    decreases |dims|, dims[0] - k
  {
    var n := Size(dims[1..]);
    TimesMonotone(k, dims[0], n);
    if k < dims[0] {
      TimesMonotone(k + 1, dims[0], n);
      assert (k + 1) * n == k * n + n;
      NestedIsFlat(op, f, OverTaps(op, f, g, prefix, dims, k * n), prefix + [k], dims[1..]);
      RowIsFlat(op, f, g, prefix, dims, k, n);
      DimensionIsFlat(op, f, g, prefix, dims, k + 1);
    }
  }

  lemma {:induction false} RowIsFlat(
    op: BinaryOp, f: seq<nat> -> Option<Num>, g: Gathered, prefix: seq<nat>, dims: Shape, k: nat, n: nat)
    requires dims != [] && k < dims[0] && n <= Size(dims[1..])
    ensures k * Size(dims[1..]) + n <= Size(dims)
    ensures OverTaps(op, f, OverTaps(op, f, g, prefix, dims, k * Size(dims[1..])), prefix + [k], dims[1..], n)
         == OverTaps(op, f, g, prefix, dims, k * Size(dims[1..]) + n)
    decreases n
  {
    if n > 0 {
      RowIsFlat(op, f, g, prefix, dims, k, n - 1);
      RowPosition(prefix, dims, k, n - 1);
    } else {
      TimesMonotone(k, dims[0], Size(dims[1..]));
    }
  }

  lemma RowPosition(prefix: seq<nat>, dims: Shape, k: nat, r: nat)
    requires dims != [] && k < dims[0] && r < Size(dims[1..])
    ensures k * Size(dims[1..]) + r < Size(dims)
    ensures prefix + [k] + Unflatten(r, dims[1..]) == prefix + Unflatten(k * Size(dims[1..]) + r, dims)
  {
    UnflattenRow(k * Size(dims[1..]) + r, dims, k, r);
    assert prefix + [k] + Unflatten(r, dims[1..]) == prefix + ([k] + Unflatten(r, dims[1..]));
  }
}
