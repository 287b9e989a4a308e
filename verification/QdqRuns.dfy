/**
 * What the emitted arithmetic computes: step by step on whole tensors, the very tensor the
 * quantizing node gives.
 */
module QdqRuns {
  import opened Options
  import opened Hiding
  import opened TensorValues
  import opened Broadcasting
  import opened ParameterLayout
  import opened QuantizeRounding
  import opened OnnxGraph
  import opened Emission
  import opened QdqPolicy
  import opened QdqLowering

  // --- Parameters that line up ----------------------------------------------------------------

  ghost predicate ShowsAt(t: Tensor, s: Shape, p: Tensor, a: Attributes, i: nat) {
    i < Size(s) && |t.data| == Size(t.shape) && |t.shape| <= |s| ==>
      Element(t, Unflatten(i, s)) == ParameterAt(i, s, p, a)
  }

  ghost predicate LinesUpFacts(t: Tensor, s: Shape, p: Tensor, a: Attributes, u: Unfolding) {
    && |t.data| == Size(t.shape) && Extends(t.shape, s)
    && forall i: nat {:trigger ShowsAt(t, s, p, a, i)} :: ShowsAt(t, s, p, a, i)
  }

  // Aligned with a tensor of shape s, t shows at every element the parameter of that element.
  ghost predicate LinesUp(t: Tensor, s: Shape, p: Tensor, a: Attributes) {
    forall u {:trigger LinesUpFacts(t, s, p, a, u)} :: LinesUpFacts(t, s, p, a, u)
  }

  // Beforehand, nothing wrong is known of the tensor.
  predicate KnowsShape(site: Site, s: Shape) {
    && (site.rank.Some? ==> site.rank.value == |s|)
    && (site.shape.Some? ==> site.shape.value == s)
  }

  lemma HandedLinesUp(site: Site, s: Shape, p: Tensor, h: Handover, a: Attributes)
    requires LayoutFits(s, p, a.axis, BlockOf(a)) && KnowsShape(site, s) && LayoutOf(site, p, a) == Some(h)
    ensures LinesUp(HandedOver(p, h, a.axis, BlockOf(a)), s, p, a)
  {
    var t := HandedOver(p, h, a.axis, BlockOf(a));
    forall i: nat ensures ShowsAt(t, s, p, a, i) {
      if i < Size(s) {
        RoutesAgree(s, p, h, site.shape, a.axis, BlockOf(a), i);
      }
    }
    HandedExtends(site, s, p, h, a);
    forall u ensures LinesUpFacts(t, s, p, a, u) {
    }
  }

  lemma HandedExtends(site: Site, s: Shape, p: Tensor, h: Handover, a: Attributes)
    requires LayoutFits(s, p, a.axis, BlockOf(a)) && KnowsShape(site, s) && LayoutOf(site, p, a) == Some(h)
    ensures var t := HandedOver(p, h, a.axis, BlockOf(a)); |t.data| == Size(t.shape) && Extends(t.shape, s)
  {
    if IsSingle(p.shape) {
      SizeOneIsOnes(p.shape);
    } else if h.Reshaped? {
      var axis := Axis(a.axis, |s|);
      OnesExceptSize(|s|, axis, p.shape[0]);
      VectorPosition([0], p.shape);
      assert p.shape[0] == 1 || p.shape[0] == s[axis];
    }
  }

  lemma OnesExceptSize(rank: nat, axis: nat, dim: nat)
    requires axis < rank
    ensures Size(OnesExcept(rank, axis, dim)) == dim
  {
    OneAxisPosition(rank, axis, dim, seq(rank, _ => 0));
  }

  // The same numbers under another type.
  predicate Fits(t: Tensor, to: DType) {
    forall i :: 0 <= i < |t.data| ==> Converted(t.data[i], to) == t.data[i]
  }

  lemma CastIsRetyping(t: Tensor, to: DType)
    requires Fits(t, to)
    ensures Casted(t, to) == t.(dtype := to)
  {
    assert Casted(t, to).data == t.data;
  }

  lemma RetypedLinesUp(t: Tensor, s: Shape, p: Tensor, a: Attributes, to: DType)
    requires LinesUp(t, s, p, a)
    ensures LinesUp(t.(dtype := to), s, p, a)
  {
    var t' := t.(dtype := to);
    assert LinesUpFacts(t, s, p, a, Unfolded);
    forall i: nat ensures ShowsAt(t', s, p, a, i) {
      assert ShowsAt(t, s, p, a, i);
      if i < Size(s) {
        assert Element(t', Unflatten(i, s)) == Element(t, Unflatten(i, s));
      }
    }
    forall u ensures LinesUpFacts(t', s, p, a, u) {
    }
  }

  // A parameter stays in its layout when promoted.
  lemma PromotedLinesUp(t: Tensor, s: Shape, p: Tensor, a: Attributes, to: DType)
    requires LinesUp(t, s, p.(dtype := to), a)
    ensures LinesUp(t, s, p, a)
  {
    var p' := p.(dtype := to);
    assert LinesUpFacts(t, s, p', a, Unfolded);
    forall i: nat ensures ShowsAt(t, s, p, a, i) {
      assert ShowsAt(t, s, p', a, i);
    }
    forall u ensures LinesUpFacts(t, s, p, a, u) {
    }
  }

  // Integers of up to 32 bits fit in Int64, and any number in a floating type.
  predicate IsMathType(t: DType, to: DType) {
    IsFloating(to) || (to.Int64? && (t.Int32? || t.UInt32? || t.Int64?))
  }

  lemma IntegersFit(t: Tensor, to: DType)
    requires WellFormed(t) && IsMathType(t.dtype, to)
    ensures Fits(t, to)
  {
    forall i | 0 <= i < |t.data| ensures Converted(t.data[i], to) == t.data[i] {
      if !IsFloating(to) {
        ConvertedKeeps(t.data[i], to);
      }
    }
  }

  lemma HandedIsWellFormed(p: Tensor, h: Handover, a: Attributes)
    requires WellFormed(p) && (h.Expanded? ==> Accepts(h.shape, p.shape, a.axis, BlockOf(a)))
    requires h.Reshaped? ==> Size(h.shape) == |p.data|
    ensures WellFormed(HandedOver(p, h, a.axis, BlockOf(a)))
  {
    var t := HandedOver(p, h, a.axis, BlockOf(a));
    if h.Expanded? {
      forall i | 0 <= i < |t.data| ensures Holds(t.dtype, t.data[i]) {
        assert t.data[i] == p.data[ParameterIndex(i, h.shape, p.shape, a.axis, BlockOf(a))];
      }
    }
  }

  // --- One operator ---------------------------------------------------------------------------

  ghost predicate LinkedAt(op: BinaryOp, x: Tensor, p: Tensor, r: Tensor, i: nat)
    requires |x.data| == Size(x.shape) == |r.data| && |p.data| == Size(p.shape) && |p.shape| <= |x.shape|
  {
    i < |x.data| ==> r.data[i] == Converted(op(x.data[i], Element(p, Unflatten(i, x.shape))), x.dtype)
  }

  lemma ElementwiseLink(op: BinaryOp, x: Tensor, p: Tensor, r: Tensor)
    requires |x.data| == Size(x.shape) == |r.data| && |p.data| == Size(p.shape) && Extends(p.shape, x.shape)
    requires x.dtype == p.dtype == r.dtype && r.shape == x.shape
    requires forall i: nat {:trigger LinkedAt(op, x, p, r, i)} :: LinkedAt(op, x, p, r, i)
    ensures IsLink(op, x.dtype, x, p, r)
  {
    var f := Fitted(op, x.dtype);
    ZippedWithParameter(f, x, p);
    var z := Zipped(f, x, p).value;
    forall i: nat | i < |x.data| ensures z.data[i] == r.data[i] {
      assert LinkedAt(op, x, p, r, i);
    }
    assert z.data == r.data;
    LinkFolds(op, x.dtype, x, p, r);
  }

  // Combining with a parameter that lines up.
  lemma ParameterLink(op: BinaryOp, x: Tensor, t: Tensor, p: Tensor, a: Attributes, r: Tensor)
    requires |x.data| == Size(x.shape) == |r.data| && LinesUp(t, x.shape, p, a)
    requires x.dtype == t.dtype == r.dtype && r.shape == x.shape
    requires forall i :: 0 <= i < |x.data| ==>
        r.data[i] == Converted(op(x.data[i], ParameterAt(i, x.shape, p, a)), x.dtype)
    ensures IsLink(op, x.dtype, x, t, r)
  {
    assert LinesUpFacts(t, x.shape, p, a, Unfolded);
    forall i: nat ensures LinkedAt(op, x, t, r, i) {
      assert ShowsAt(t, x.shape, p, a, i);
    }
    ElementwiseLink(op, x, t, r);
  }

  // Combining with one number.
  lemma ScalarLink(op: BinaryOp, x: Tensor, n: Num, r: Tensor)
    requires |x.data| == Size(x.shape) == |r.data| && x.dtype == r.dtype && r.shape == x.shape
    requires forall i :: 0 <= i < |x.data| ==> r.data[i] == Converted(op(x.data[i], n), x.dtype)
    ensures IsLink(op, x.dtype, x, Tensor(x.dtype, [], [n]), r)
  {
    var t := Tensor(x.dtype, [], [n]);
    forall i: nat ensures LinkedAt(op, x, t, r, i) {
      if i < |x.data| {
        UnflattenWithin(i, x.shape);
        SingleElement(t, x.shape, Unflatten(i, x.shape));
      }
    }
    ElementwiseLink(op, x, t, r);
  }

  // --- Dequantizing ---------------------------------------------------------------------------

  function Differences(a: Attributes, x: Tensor, zero: Option<Tensor>, math: DType): (t: Tensor)
    requires |x.data| == Size(x.shape)
  {
    Tensor(math, x.shape, seq(|x.data|, i requires 0 <= i < |x.data| => Minus(x.data[i], ZeroAt(i, x.shape, zero, a))))
  }

  lemma MinusNothing(n: Num)
    ensures Minus(n, Fin(0.0)) == n
  {
    var zero := -0.0;
    assert Negated(Fin(0.0)) == Fin(zero) && zero == 0.0;
  }

  lemma NothingSubtracted(a: Attributes, x: Tensor, math: DType)
    requires WellFormed(x) && Fits(x, math)
    ensures Casted(x, math) == Differences(a, x, None, math)
  {
    CastIsRetyping(x, math);
    var r := Differences(a, x, None, math);
    forall i | 0 <= i < |x.data| ensures r.data[i] == x.data[i] {
      MinusNothing(x.data[i]);
    }
    assert r.data == x.data;
  }

  lemma DifferenceFits(x: Num, z: Num, t: DType, math: DType)
    requires IsFloating(math) || (math.Int64? && (t.Int32? || t.UInt32?) && Holds(t, x) && Holds(t, z))
    ensures Converted(Minus(x, z), math) == Minus(x, z)
  {
    if !IsFloating(math) {
      var n := x.r.Floor - z.r.Floor;
      assert Minus(x, z) == Fin(n as real);
      ConvertedKeeps(Fin(n as real), math);
    }
  }

  lemma ParameterHolds(i: nat, s: Shape, p: Tensor, a: Attributes)
    requires i < Size(s) && LayoutFits(s, p, a.axis, BlockOf(a)) && WellFormed(p)
    ensures Holds(p.dtype, ParameterAt(i, s, p, a))
  {
    IndexWithin(i, s, p.shape, a.axis, BlockOf(a));
  }

  // z: the zero point as the arithmetic reads it.
  lemma DifferenceLink(a: Attributes, x: Tensor, zero: Tensor, math: DType, z: Tensor)
    requires WellFormed(x) && WellFormed(zero) && LayoutFits(x.shape, zero, a.axis, BlockOf(a))
    requires zero.dtype == x.dtype && (IsFloating(math) || (math.Int64? && (x.dtype.Int32? || x.dtype.UInt32?)))
    requires LinesUp(z, x.shape, zero, a) && z.dtype == math
    ensures IsLink(Subtracting(), math, Casted(x, math), z, Differences(a, x, Some(zero), math))
  {
    IntegersFit(x, math);
    CastIsRetyping(x, math);
    var t, r := x.(dtype := math), Differences(a, x, Some(zero), math);
    forall i | 0 <= i < |t.data|
      ensures r.data[i] == Converted(Subtracting()(t.data[i], ParameterAt(i, t.shape, zero, a)), math)
    {
      ParameterHolds(i, x.shape, zero, a);
      DifferenceFits(x.data[i], ParameterAt(i, x.shape, zero, a), x.dtype, math);
    }
    ParameterLink(Subtracting(), t, z, zero, a, r);
  }

  lemma DifferenceCast(a: Attributes, x: Tensor, zero: Option<Tensor>, math: DType, arithmetic: DType)
    requires |x.data| == Size(x.shape) && IsFloating(arithmetic)
    ensures Casted(Differences(a, x, zero, math), arithmetic) == Differences(a, x, zero, arithmetic)
  {
    CastIsRetyping(Differences(a, x, zero, math), arithmetic);
  }

  lemma ProductLink(a: Attributes, x: Tensor, scale: Tensor, zero: Option<Tensor>, t: Tensor)
    requires |x.data| == Size(x.shape) && IsFloating(scale.dtype)
    requires LinesUp(t, x.shape, scale, a) && t.dtype == scale.dtype
    ensures IsLink(Multiplying(), scale.dtype, Differences(a, x, zero, scale.dtype), t, Dequantized(a, x, scale, zero))
  {
    ParameterLink(Multiplying(), Differences(a, x, zero, scale.dtype), t, scale, a, Dequantized(a, x, scale, zero));
  }

  // --- Quantizing -----------------------------------------------------------------------------

  function Quotients(a: Attributes, x: Tensor, scale: Tensor, t: DType): (q: Tensor)
    requires |x.data| == Size(x.shape)
  {
    Tensor(t, x.shape, seq(|x.data|, i requires 0 <= i < |x.data| => Over(x.data[i], ParameterAt(i, x.shape, scale, a))))
  }

  function ShiftedQuotients(a: Attributes, x: Tensor, scale: Tensor, zero: Tensor, t: DType): (q: Tensor)
    requires |x.data| == Size(x.shape)
  {
    var q := Quotients(a, x, scale, t);
    Tensor(t, x.shape, seq(|x.data|, i requires 0 <= i < |x.data| => Plus(q.data[i], ParameterAt(i, x.shape, zero, a))))
  }

  function WithFloor(x: Tensor, low: Num): (t: Tensor) {
    Mapped(n => Larger(n, low), x.dtype, x)
  }

  function WithCeiling(x: Tensor, high: Num): (t: Tensor) {
    Mapped(n => Smaller(n, high), x.dtype, x)
  }

  lemma QuotientLink(a: Attributes, x: Tensor, scale: Tensor, t: DType, s: Tensor)
    requires |x.data| == Size(x.shape) && IsFloating(t) && LinesUp(s, x.shape, scale, a) && s.dtype == t
    ensures IsLink(Dividing(), t, Casted(x, t), s, Quotients(a, x, scale, t))
  {
    CastIsRetyping(x, t);
    ParameterLink(Dividing(), x.(dtype := t), s, scale, a, Quotients(a, x, scale, t));
  }

  lemma ShiftLink(a: Attributes, x: Tensor, scale: Tensor, zero: Tensor, t: DType, z: Tensor)
    requires |x.data| == Size(x.shape) && IsFloating(t) && LinesUp(z, x.shape, zero, a) && z.dtype == t
    ensures IsLink(Adding(), t, Quotients(a, x, scale, t), z, ShiftedQuotients(a, x, scale, zero, t))
  {
    ParameterLink(Adding(), Quotients(a, x, scale, t), z, zero, a, ShiftedQuotients(a, x, scale, zero, t));
  }

  lemma LimitIsCast(t: DType, n: int)
    requires IsFloating(t)
    ensures Casted(Scalar(Int32, n), t) == Tensor(t, [], [Fin(n as real)])
  {
    CastIsRetyping(Scalar(Int32, n), t);
  }

  lemma FloorLink(x: Tensor, low: Num)
    requires |x.data| == Size(x.shape) && IsFloating(x.dtype)
    ensures IsLink(TakingLarger(), x.dtype, x, Tensor(x.dtype, [], [low]), WithFloor(x, low))
  {
    ScalarLink(TakingLarger(), x, low, WithFloor(x, low));
  }

  lemma CeilingLink(x: Tensor, high: Num)
    requires |x.data| == Size(x.shape) && IsFloating(x.dtype)
    ensures IsLink(TakingSmaller(), x.dtype, x, Tensor(x.dtype, [], [high]), WithCeiling(x, high))
  {
    ScalarLink(TakingSmaller(), x, high, WithCeiling(x, high));
  }

  function ClampedQuotients(q: Tensor, output: DType): (t: Tensor) {
    WithCeiling(WithFloor(RoundedTensor(q), Fin(MinOf(output) as real)), Fin(MaxOf(output) as real))
  }

  // The last cast gives what the node gives when its zero point is added before rounding.
  lemma SaturatedIsQuantized(a: Attributes, x: Tensor, scale: Tensor, zero: Tensor, t: DType)
    requires |x.data| == Size(x.shape)
    ensures Casted(ClampedQuotients(ShiftedQuotients(a, x, scale, zero, t), zero.dtype), zero.dtype)
         == Quantized(a, x, scale, Some(zero), true)
  {
    var q := ShiftedQuotients(a, x, scale, zero, t);
    var r, e := Casted(ClampedQuotients(q, zero.dtype), zero.dtype), Quantized(a, x, scale, Some(zero), true);
    forall i | 0 <= i < |x.data| ensures r.data[i] == e.data[i] {
      var s, z := ParameterAt(i, x.shape, scale, a), ParameterAt(i, x.shape, zero, a);
      assert q.data[i] == Plus(Over(x.data[i], s), z);
      assert ClampedQuotients(q, zero.dtype).data[i] == Clamped(Rounded(q.data[i]), zero.dtype);
      assert e.data[i] == ShiftThenRound(Over(x.data[i], s), z, zero.dtype);
    }
    assert r.data == e.data;
  }

  // --- Against ONNX ---------------------------------------------------------------------------

  predicate IsEvenInteger(n: Num) {
    n.Fin? && n.r == n.r.Floor as real && n.r.Floor % 2 == 0
  }

  predicate IsEven(zero: Tensor) {
    forall i :: 0 <= i < |zero.data| ==> IsEvenInteger(zero.data[i])
  }

  // At element i, adding the zero point before rounding is as good as after.
  predicate RoundsAlikeAt(a: Attributes, x: Tensor, scale: Tensor, zero: Tensor, i: nat)
    requires |x.data| == Size(x.shape) && i < |x.data|
  {
    var q, z := Over(x.data[i], ParameterAt(i, x.shape, scale, a)), ParameterAt(i, x.shape, zero, a);
    q.Fin? && z.Fin? ==> RoundsAlike(q.r, z.r.Floor, zero.dtype)
  }

  lemma QuantizedAt(a: Attributes, x: Tensor, scale: Tensor, zero: Tensor, i: nat)
    requires |x.data| == Size(x.shape) && i < |x.data| && IsQuantizedType(zero.dtype)
    requires WellFormed(zero) && LayoutFits(x.shape, zero, a.axis, BlockOf(a))
    ensures Quantized(a, x, scale, Some(zero), true).data[i] == Quantized(a, x, scale, Some(zero), false).data[i]
       <==> RoundsAlikeAt(a, x, scale, zero, i)
  {
    var q, z := Over(x.data[i], ParameterAt(i, x.shape, scale, a)), ParameterAt(i, x.shape, zero, a);
    ParameterHolds(i, x.shape, zero, a);
    QuantizingRelation(q, z.r.Floor, zero.dtype);
  }

  // Exactly when the emitted arithmetic gives what ONNX defines.
  lemma QuantizedAsOnnxHasIt(a: Attributes, x: Tensor, scale: Tensor, zero: Tensor)
    requires |x.data| == Size(x.shape) && IsQuantizedType(zero.dtype)
    requires WellFormed(zero) && LayoutFits(x.shape, zero, a.axis, BlockOf(a))
    ensures Quantized(a, x, scale, Some(zero), true) == Quantized(a, x, scale, Some(zero), false)
       <==> forall i: nat {:trigger RoundsAlikeAt(a, x, scale, zero, i)} ::
              i < |x.data| ==> RoundsAlikeAt(a, x, scale, zero, i)
  {
    var c, o := Quantized(a, x, scale, Some(zero), true), Quantized(a, x, scale, Some(zero), false);
    forall i: nat | i < |x.data| ensures c.data[i] == o.data[i] <==> RoundsAlikeAt(a, x, scale, zero, i) {
      QuantizedAt(a, x, scale, zero, i);
    }
    if forall i: nat {:trigger RoundsAlikeAt(a, x, scale, zero, i)} ::
         i < |x.data| ==> RoundsAlikeAt(a, x, scale, zero, i)
    {
      forall i | 0 <= i < |x.data| ensures c.data[i] == o.data[i] {
        assert RoundsAlikeAt(a, x, scale, zero, i);
      }
      assert c.data == o.data;
    }
  }

  lemma EvenZerosReadAlike(a: Attributes, x: Tensor, scale: Tensor, zero: Tensor)
    requires |x.data| == Size(x.shape) && IsQuantizedType(zero.dtype) && IsEven(zero)
    requires WellFormed(zero) && LayoutFits(x.shape, zero, a.axis, BlockOf(a))
    ensures Quantized(a, x, scale, Some(zero), true) == Quantized(a, x, scale, Some(zero), false)
  {
    forall i: nat | i < |x.data| ensures RoundsAlikeAt(a, x, scale, zero, i) {
      IndexWithin(i, x.shape, zero.shape, a.axis, BlockOf(a));
      assert IsEvenInteger(ParameterAt(i, x.shape, zero, a));
    }
    QuantizedAsOnnxHasIt(a, x, scale, zero);
  }

  // A zero point that is computed is dropped: the lowered node gives what the node gives exactly
  // when every element's zero point is zero.
  lemma DroppedZeroPoint(a: Attributes, x: Tensor, scale: Tensor, zero: Tensor)
    requires WellFormed(x) && IsInteger(x.dtype) && WellFormed(zero) && zero.dtype == x.dtype
    requires IsPositiveScale(scale) && LayoutFits(x.shape, scale, a.axis, BlockOf(a))
    requires LayoutFits(x.shape, zero, a.axis, BlockOf(a))
    ensures Dequantized(a, x, scale, None) == Dequantized(a, x, scale, Some(zero))
       <==> forall i: nat {:trigger ParameterAt(i, x.shape, zero, a)} ::
              i < |x.data| ==> ParameterAt(i, x.shape, zero, a) == Fin(0.0)
  {
    var t, t' := Dequantized(a, x, scale, None), Dequantized(a, x, scale, Some(zero));
    forall i: nat | i < |x.data|
      ensures t.data[i] == t'.data[i] <==> ParameterAt(i, x.shape, zero, a) == Fin(0.0)
    {
      IndexWithin(i, x.shape, scale.shape, a.axis, BlockOf(a));
      ParameterHolds(i, x.shape, zero, a);
      var s, z := ParameterAt(i, x.shape, scale, a).r, ParameterAt(i, x.shape, zero, a).r;
      ScaledApart(x.data[i].r, z, s);
    }
    if forall i: nat {:trigger ParameterAt(i, x.shape, zero, a)} ::
         i < |x.data| ==> ParameterAt(i, x.shape, zero, a) == Fin(0.0)
    {
      forall i | 0 <= i < |x.data| ensures t.data[i] == t'.data[i] {
        assert ParameterAt(i, x.shape, zero, a) == Fin(0.0);
      }
      assert t.data == t'.data;
    }
  }

  lemma ScaledApart(x: real, z: real, s: real)
    requires s > 0.0
    ensures Times(Minus(Fin(x), Fin(0.0)), Fin(s)) == Times(Minus(Fin(x), Fin(z)), Fin(s)) <==> z == 0.0
  {
    var a, b := x - 0.0, x - z;
    assert Minus(Fin(x), Fin(0.0)) == Fin(a) && Minus(Fin(x), Fin(z)) == Fin(b);
    ProductsApart(a, b, s);
  }

  lemma ProductsApart(a: real, b: real, s: real)
    requires s > 0.0
    ensures a * s == b * s <==> a == b
  {
    if a != b {
      var c := a - b;
      assert c * s != 0.0;
      assert c * s == a * s - b * s;
    }
  }
}
