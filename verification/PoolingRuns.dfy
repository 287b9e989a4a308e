/** A pool taken apart computes the pool (src/pooling_dilation_compatibility.cc:462-579). */
module PoolingRuns {
  import opened Options
  import opened Hiding
  import opened TensorValues
  import opened Broadcasting
  import opened PoolMeaning
  import opened OnnxGraph
  import opened GraphRuns
  import opened LoweredNames
  import opened Drafts
  import opened PoolPlans
  import opened PoolingDilation

  // --- The tensor of a tap --------------------------------------------------------------------

  // The tensor of one tap, in a run where the pool reads x.
  function TapTensor(p: Plan, x: Tensor, tap: nat): (t: Tensor)
    requires IsPlan(p) && x.shape == p.input && tap < p.taps
  {
    PlanShapes(p);
    StepsArePositive(p);
    var k := TapCoordinates(p, tap);
    Sliced(x, Starts(p, k), Ends(p, k), Steps(p))
  }

  ghost predicate ReadFacts(p: Plan, x: Tensor, u: Unfolding) {
    WellFormed(x)
  }

  // x is what a pool with this plan reads.
  ghost predicate IsRead(p: Plan, x: Tensor) {
    && IsPlan(p) && x.shape == p.input && x.dtype == p.dtype
    && forall u {:trigger ReadFacts(p, x, u)} :: ReadFacts(p, x, u)
  }

  lemma TapTensorAt(p: Plan, x: Tensor, tap: nat)
    requires IsRead(p, x) && tap < p.taps
    ensures var t := TapTensor(p, x, tap);
      && t.dtype == p.dtype && t.shape == p.output && |t.data| == Size(p.output)
      && forall i: nat :: i < Size(p.output) ==>
          Some(t.data[i]) == Tap(x, Unflatten(i, p.output), TapCoordinates(p, tap), p.window)
  {
    assert PlanFacts(p, Unfolded) && ReadFacts(p, x, Unfolded);
    UnflattenWithin(tap, p.window.kernel);
    SliceIsTap(p, x, TapCoordinates(p, tap));
  }

  // --- Combining taps -------------------------------------------------------------------------

  function ElementTap(p: Plan, x: Tensor, i: nat): (f: seq<nat> -> Option<Num>)
    requires i < Size(p.output)
  {
    k => Tap(x, Unflatten(i, p.output), k, p.window)
  }

  // What the window of element i has gathered from its first n taps.
  function TapsAt(op: BinaryOp, p: Plan, x: Tensor, i: nat, n: nat): (g: Gathered)
    requires IsPlan(p) && i < Size(p.output) && n <= p.taps
  {
    assert PlanFacts(p, Unfolded);
    OverTaps(op, ElementTap(p, x, i), Gathered(None, 0), [], p.window.kernel, n)
  }

  lemma TapsAtStep(op: BinaryOp, p: Plan, x: Tensor, i: nat, n: nat)
    requires IsRead(p, x) && i < Size(p.output) && n < p.taps
    ensures TapsAt(op, p, x, i, 0) == Gathered(None, 0)
    ensures i < |TapTensor(p, x, n).data|
    ensures TapsAt(op, p, x, i, n + 1) == Take(op, TapsAt(op, p, x, i, n), Some(TapTensor(p, x, n).data[i]))
  {
    assert PlanFacts(p, Unfolded);
    TapTensorAt(p, x, n);
    assert [] + Unflatten(n, p.window.kernel) == TapCoordinates(p, n);
  }

  ghost predicate IsPresent(f: seq<nat> -> Option<Num>, dims: Shape, k: nat) {
    k < Size(dims) && f([] + Unflatten(k, dims)).Some?
  }

  lemma {:induction false} PresentTapsCount(op: BinaryOp, f: seq<nat> -> Option<Num>, dims: Shape, n: nat)
    requires n <= Size(dims) && forall k: nat {:trigger IsPresent(f, dims, k)} :: k < n ==> IsPresent(f, dims, k)
    ensures var g := OverTaps(op, f, Gathered(None, 0), [], dims, n); g.count == n && (n > 0 ==> g.total.Some?)
    decreases n
  {
    if n > 0 {
      PresentTapsCount(op, f, dims, n - 1);
      assert IsPresent(f, dims, n - 1);
    }
  }

  lemma EveryTapCounts(op: BinaryOp, p: Plan, x: Tensor, i: nat, n: nat)
    requires IsRead(p, x) && i < Size(p.output) && n <= p.taps
    ensures TapsAt(op, p, x, i, n).count == n && (n > 0 ==> TapsAt(op, p, x, i, n).total.Some?)
  {
    var f, dims := ElementTap(p, x, i), p.window.kernel;
    assert n <= Size(dims) by {
      assert PlanFacts(p, Unfolded);
    }
    forall k: nat | k < n ensures IsPresent(f, dims, k) {
      TapTensorAt(p, x, k);
      assert [] + Unflatten(k, dims) == TapCoordinates(p, k);
    }
    PresentTapsCount(op, f, dims, n);
  }

  function Combined(op: BinaryOp, p: Plan, x: Tensor, n: nat): (t: Tensor)
    requires IsPlan(p) && n <= p.taps
    ensures t.dtype == p.dtype && t.shape == p.output && |t.data| == Size(p.output)
  {
    Tensor(p.dtype, p.output, seq(Size(p.output), i requires 0 <= i < Size(p.output) => Largest(TapsAt(op, p, x, i, n))))
  }

  lemma FirstTap(op: BinaryOp, p: Plan, x: Tensor)
    requires IsRead(p, x)
    ensures Combined(op, p, x, 1) == TapTensor(p, x, 0)
  {
    TapTensorAt(p, x, 0);
    var c, t := Combined(op, p, x, 1), TapTensor(p, x, 0);
    forall i: nat | i < Size(p.output) ensures c.data[i] == t.data[i] {
      TapsAtStep(op, p, x, i, 0);
    }
    assert c.data == t.data;
  }

  // One more link of the chain takes in one more tap.
  lemma OneMoreTap(op: BinaryOp, p: Plan, x: Tensor, n: nat)
    requires IsRead(p, x) && 0 < n < p.taps
    ensures Zipped(Fitted(op, p.dtype), Combined(op, p, x, n), TapTensor(p, x, n)) == Some(Combined(op, p, x, n + 1))
  {
    TapTensorAt(p, x, n);
    var a, t, c := Combined(op, p, x, n), TapTensor(p, x, n), Combined(op, p, x, n + 1);
    ZippedWithParameter(Fitted(op, p.dtype), a, t);
    var z := Zipped(Fitted(op, p.dtype), a, t).value;
    forall i: nat | i < Size(p.output) ensures z.data[i] == c.data[i] {
      EveryTapCounts(op, p, x, i, n);
      TapsAtStep(op, p, x, i, n);
      ElementOfSelf(t, i);
    }
    assert z.data == c.data;
  }

  // All taps together are the window, however it is gone over.
  lemma AllTapsAreWindow(op: BinaryOp, p: Plan, x: Tensor, i: nat, w: Window)
    requires IsPlan(p) && i < Size(p.output)
    requires w.kernel == p.window.kernel && w.strides == p.window.strides && w.dilations == p.window.dilations
    ensures TapsAt(op, p, x, i, p.taps) == WindowAt(op, x, Unflatten(i, p.output), w)
  {
    assert PlanFacts(p, Unfolded);
    var o := Unflatten(i, p.output);
    var f, g := ElementTap(p, x, i), k => Tap(x, o, k, w);
    NestedIsFlat(op, f, Gathered(None, 0), [], w.kernel);
    NestedIsFlat(op, g, Gathered(None, 0), [], w.kernel);
    SameTapsGatherAlike(op, f, g, w.kernel, Size(w.kernel));
  }

  lemma {:induction false} SameTapsGatherAlike(
    op: BinaryOp, f: seq<nat> -> Option<Num>, g: seq<nat> -> Option<Num>, dims: Shape, n: nat)
    requires n <= Size(dims) && forall k :: f(k) == g(k)
    ensures OverTaps(op, f, Gathered(None, 0), [], dims, n) == OverTaps(op, g, Gathered(None, 0), [], dims, n)
    decreases n
  {
    if n > 0 {
      SameTapsGatherAlike(op, f, g, dims, n - 1);
    }
  }

  lemma MaximaArePooled(p: Plan, x: Tensor, w: Window)
    requires IsRead(p, x) && IsWindow(w, x.shape) && MaxPooled(x, w).shape == p.output
    requires w.kernel == p.window.kernel && w.strides == p.window.strides && w.dilations == p.window.dilations
    ensures Combined(TakingLarger(), p, x, p.taps) == MaxPooled(x, w)
  {
    var c, m := Combined(TakingLarger(), p, x, p.taps), MaxPooled(x, w);
    forall i: nat | i < Size(p.output) ensures c.data[i] == m.data[i] {
      AllTapsAreWindow(TakingLarger(), p, x, i, w);
    }
    assert c.data == m.data;
  }

  lemma MeansArePooled(p: Plan, x: Tensor, w: Window)
    requires IsRead(p, x) && IsWindow(w, x.shape) && AveragePooled(x, w).shape == p.output
    requires w.kernel == p.window.kernel && w.strides == p.window.strides && w.dilations == p.window.dilations
    ensures Zipped(Fitted(Dividing(), p.dtype), Combined(Adding(), p, x, p.taps), Divisor(p.dtype,
        p.taps)) == Some(AveragePooled(x, w))
  {
    var c, m, q := Combined(Adding(), p, x, p.taps), AveragePooled(x, w), Divisor(p.dtype, p.taps);
    assert Size(q.shape) == 1;
    forall i: nat | i < |c.data| ensures IsPoint(Fitted(Dividing(), p.dtype), c, q, m, i) {
      MeanIsPoint(p, x, w, i);
    }
    PointsMakeTensor(Fitted(Dividing(), p.dtype), c, q, m);
  }

  ghost predicate IsPoint(op: BinaryOp, a: Tensor, b: Tensor, m: Tensor, i: nat)
    requires |a.data| == Size(a.shape) == |m.data| && |b.data| == Size(b.shape) && i < |a.data|
    requires |b.shape| <= |a.shape|
  {
    m.data[i] == op(a.data[i], Element(b, Unflatten(i, a.shape)))
  }

  lemma PointsMakeTensor(op: BinaryOp, a: Tensor, b: Tensor, m: Tensor)
    requires |a.data| == Size(a.shape) && |b.data| == Size(b.shape) && a.dtype == b.dtype && Extends(b.shape, a.shape)
    requires m.dtype == a.dtype && m.shape == a.shape && |m.data| == |a.data|
    requires forall i: nat :: i < |a.data| ==> IsPoint(op, a, b, m, i)
    ensures Zipped(op, a, b) == Some(m)
  {
    ZippedWithParameter(op, a, b);
    var z := Zipped(op, a, b).value;
    forall i: nat | i < |a.data| ensures z.data[i] == m.data[i] {
      assert IsPoint(op, a, b, m, i);
    }
    assert z.data == m.data;
  }

  lemma MeanIsPoint(p: Plan, x: Tensor, w: Window, i: nat)
    requires IsRead(p, x) && IsWindow(w, x.shape) && AveragePooled(x, w).shape == p.output && i < Size(p.output)
    requires w.kernel == p.window.kernel && w.strides == p.window.strides && w.dilations == p.window.dilations
    requires Size(Divisor(p.dtype, p.taps).shape) == 1
    ensures IsPoint(Fitted(Dividing(), p.dtype), Combined(Adding(), p, x, p.taps), Divisor(p.dtype, p.taps),
        AveragePooled(x, w), i)
  {
    DivisorElement(p, Unflatten(i, p.output));
    MeanIsPooled(p, x, w, i);
    FittedDivides(p.dtype, Combined(Adding(), p, x, p.taps).data[i], Fin(p.taps as real));
  }

  lemma FittedDivides(t: DType, a: Num, b: Num)
    requires IsFloating(t)
    ensures Fitted(Dividing(), t)(a, b) == Over(a, b)
  {
    var divide := Dividing();
    assert divide(a, b) == Over(a, b);
    var fitted := Fitted(divide, t);
    assert fitted(a, b) == Converted(divide(a, b), t);
  }

  lemma DivisorElement(p: Plan, c: seq<nat>)
    ensures Element(Divisor(p.dtype, p.taps), c) == Fin(p.taps as real)
  {
    assert Flatten(Aligned(c, []), []) == 0;
  }

  lemma MeanIsPooled(p: Plan, x: Tensor, w: Window, i: nat)
    requires IsRead(p, x) && IsWindow(w, x.shape) && AveragePooled(x, w).shape == p.output && i < Size(p.output)
    requires w.kernel == p.window.kernel && w.strides == p.window.strides && w.dilations == p.window.dilations
    ensures Over(Combined(Adding(), p, x, p.taps).data[i], Fin(p.taps as real)) == AveragePooled(x, w).data[i]
  {
    AllTapsAreWindow(Adding(), p, x, i, w);
    EveryTapCounts(Adding(), p, x, i, p.taps);
    var g := TapsAt(Adding(), p, x, i, p.taps);
    assert AveragePooled(x, w).data[i] == Mean(g);
  }

  lemma SingleMaximumIsPooled(p: Plan, x: Tensor, w: Window)
    requires IsRead(p, x) && IsWindow(w, x.shape) && p.taps == 1 && MaxPooled(x, w).shape == p.output
    requires w.kernel == p.window.kernel && w.strides == p.window.strides && w.dilations == p.window.dilations
    ensures TapTensor(p, x, 0) == MaxPooled(x, w)
  {
    FirstTap(TakingLarger(), p, x);
    MaximaArePooled(p, x, w);
  }

  lemma SingleMeanIsPooled(p: Plan, x: Tensor, w: Window)
    requires IsRead(p, x) && IsWindow(w, x.shape) && p.taps == 1 && AveragePooled(x, w).shape == p.output
    requires w.kernel == p.window.kernel && w.strides == p.window.strides && w.dilations == p.window.dilations
    ensures TapTensor(p, x, 0) == AveragePooled(x, w)
  {
    FirstTap(Adding(), p, x);
    var c, m := Combined(Adding(), p, x, 1), AveragePooled(x, w);
    forall i: nat | i < Size(p.output) ensures c.data[i] == m.data[i] {
      MeanIsPooled(p, x, w, i);
      OneIsNoDivisor(c.data[i]);
    }
    assert c.data == m.data;
  }

  lemma OneIsNoDivisor(n: Num)
    ensures Over(n, Fin(1.0)) == n
  {
  }
}
