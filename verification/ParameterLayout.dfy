/**
 * Which scale or zero point belongs to an element of a quantized tensor, and the two ways the
 * lowering hands it over: resolved at once while folding or expanding, or left to the alignment
 * rule after a Reshape (src/qdq_lowering.cc:934-1081, 1144-1293).
 */
module ParameterLayout {
  import opened Options
  import opened Division
  import opened TensorValues
  import opened Broadcasting

  // The axis attribute counts from the end when negative and is 1 when absent.
  function Axis(axisAttr: Option<int>, rank: nat): (a: int) {
    var axis := if axisAttr.Some? then axisAttr.value else 1;
    if axis < 0 then axis + rank else axis
  }

  predicate IsSingle(p: Shape) {
    p == [] || Size(p) == 1
  }

  predicate IsBlocked(p: nat, dim: nat, block: int) {
    block > 1 && p > 0 && p * block == dim
  }

  // The layouts in which every element of a tensor of shape s finds its parameter in shape p.
  predicate Accepts(s: Shape, p: Shape, axisAttr: Option<int>, block: int) {
    var axis := Axis(axisAttr, |s|);
    if IsSingle(p) then true
    else if |p| == 1 && |s| <= 1 then
      var dim := if s == [] then 1 else s[0];
      p[0] == dim || p[0] == 1 || IsBlocked(p[0], dim, block)
    else if |p| == 1 then
      && 0 <= axis < |s|
      && if block > 1 then IsBlocked(p[0], s[axis], block) else p[0] == 1 || p[0] == s[axis]
    else
      && |p| == |s|
      && forall d :: 0 <= d < |s| ==> (d == axis && IsBlocked(p[d], s[d], block)) || p[d] == 1 || p[d] == s[d]
  }

  // The dimension of the tensor that dimension d of the parameter runs along.
  function Along(d: nat, s: Shape, p: Shape, axisAttr: Option<int>): (e: int) {
    if |p| == 1 && |s| > 1 then Axis(axisAttr, |s|) else d
  }

  // Where along dimension d of the parameter the element at coordinates c finds its value: at
  // zero when there is one value, at its block when the dimension is blocked, at itself else.
  function ParameterCoordinate(c: seq<nat>, d: nat, s: Shape, p: Shape, axisAttr: Option<int>, block: int): (i: nat)
    requires |c| == |s| && d < |p|
  {
    var e := Along(d, s, p, axisAttr);
    if p[d] == 1 || !(0 <= e < |s|) then 0
    else if (e == Axis(axisAttr, |s|) || |s| == 1) && IsBlocked(p[d], s[e], block) then c[e] / block
    else c[e]
  }

  function ParameterCoordinates(c: seq<nat>, s: Shape, p: Shape, axisAttr: Option<int>, block: int): (q: seq<nat>)
    requires |c| == |s|
    ensures |q| == |p|
  {
    seq(|p|, d requires 0 <= d < |p| => ParameterCoordinate(c, d, s, p, axisAttr, block))
  }

  // The position of the parameter of element i.
  function ParameterIndex(i: nat, s: Shape, p: Shape, axisAttr: Option<int>, block: int): (k: nat)
    requires i < Size(s)
  {
    if IsSingle(p) then 0 else Flatten(ParameterCoordinates(Unflatten(i, s), s, p, axisAttr, block), p)
  }

  lemma ParameterCoordinatesWithin(c: seq<nat>, s: Shape, p: Shape, axisAttr: Option<int>, block: int)
    requires Within(c, s) && !IsSingle(p) && Accepts(s, p, axisAttr, block)
    ensures Within(ParameterCoordinates(c, s, p, axisAttr, block), p)
  {
    forall d | 0 <= d < |p| ensures ParameterCoordinates(c, s, p, axisAttr, block)[d] < p[d] {
      var e := Along(d, s, p, axisAttr);
      if 0 <= e < |s| && p[d] != 1 {
        if IsBlocked(p[d], s[e], block) {
          QuotientBelow(c[e], block, p[d]);
        }
      } else if p[d] != 1 {
        assert |p| == 1 && s == [];
        assert p[0] == 1 || block > 1;
        BlockOfNothing(p[0], block);
      }
    }
  }

  lemma BlockOfNothing(p: nat, block: int)
    ensures !IsBlocked(p, 1, block)
  {
    if p > 0 && block > 1 {
      TimesAtLeast(p, block);
    }
  }

  lemma IndexWithin(i: nat, s: Shape, p: Shape, axisAttr: Option<int>, block: int)
    requires i < Size(s) && Accepts(s, p, axisAttr, block)
    ensures ParameterIndex(i, s, p, axisAttr, block) < Size(p)
  {
    if !IsSingle(p) {
      UnflattenWithin(i, s);
      ParameterCoordinatesWithin(Unflatten(i, s), s, p, axisAttr, block);
      FlattenBelow(ParameterCoordinates(Unflatten(i, s), s, p, axisAttr, block), p);
    }
  }

  // In ONNX's terms: a parameter of the tensor's rank is read at 0 where it has one position, at
  // the element's own where it has as many, and along the axis else at the element's block.
  lemma FullRankMeans(c: seq<nat>, s: Shape, p: Shape, axisAttr: Option<int>, block: int, d: nat)
    requires Within(c, s) && |p| == |s| > 1 && !IsSingle(p) && Accepts(s, p, axisAttr, block) && d < |s|
    ensures p[d] != 1 && p[d] != s[d] ==> d == Axis(axisAttr, |s|) && block > 1 && p[d] * block == s[d]
    ensures ParameterCoordinates(c, s, p, axisAttr, block)[d]
         == if p[d] == 1 then 0 else if p[d] == s[d] then c[d] else c[d] / block
  {
    var e := Along(d, s, p, axisAttr);
    assert e == d;
    if IsBlocked(p[d], s[d], block) {
      BlockedIsNotSame(p[d], block, s[d]);
    }
    assert (d == Axis(axisAttr, |s|) && IsBlocked(p[d], s[d], block)) || p[d] == 1 || p[d] == s[d];
  }

  lemma BlockedIsNotSame(p: nat, block: int, dim: nat)
    requires IsBlocked(p, dim, block)
    ensures p != dim
  {
    TimesAtLeast(p, block - 1);
    assert p * block == p + p * (block - 1);
  }

  // And one of rank 1 is read along the axis.
  lemma AxisMeans(c: seq<nat>, s: Shape, p: Shape, axisAttr: Option<int>, block: int)
    requires Within(c, s) && |p| == 1 && |s| > 1 && !IsSingle(p) && Accepts(s, p, axisAttr, block)
    ensures var axis := Axis(axisAttr, |s|);
      0 <= axis < |s| && ParameterCoordinates(c, s, p, axisAttr, block)
                      == [if block > 1 then c[axis] / block else c[axis]]
  {
    assert p[1..] == [] && Size(p) == p[0] * Size(p[1..]);
    assert Along(0, s, p, axisAttr) == Axis(axisAttr, |s|);
  }

  // --- Resolving one element ------------------------------------------------------------------

  method StridesOf(s: Shape) returns (strides: seq<nat>)
    ensures |strides| == |s| && forall d :: 0 <= d < |s| ==> strides[d] == Size(s[d + 1..])
  {
    strides := seq(|s|, _ => 1);
    var dim := |s|;
    if dim > 0 {
      assert s[dim..] == [];
    }
    while dim > 1
      invariant |strides| == |s| && (dim == 0 <==> s == []) && 0 <= dim <= |s|
      invariant forall d :: dim - 1 <= d < |s| && d >= 0 ==> strides[d] == Size(s[d + 1..])
    {
      dim := dim - 1;
      assert s[dim..][1..] == s[dim + 1..];
      assert Size(s[dim..]) == s[dim] * Size(s[dim + 1..]);
      strides := strides[dim - 1 := strides[dim] * s[dim]];
    }
  }

  method CoordinatesOf(i: nat, s: Shape, strides: seq<nat>) returns (c: seq<nat>)
    requires i < Size(s)
    requires |strides| == |s| && forall d :: 0 <= d < |s| ==> strides[d] == Size(s[d + 1..])
    ensures c == Unflatten(i, s)
  {
    c := [];
    var remaining: nat := i;
    assert s[0..] == s;
    for dim := 0 to |s|
      invariant |c| == dim && remaining < Size(s[dim..])
      invariant c + Unflatten(remaining, s[dim..]) == Unflatten(i, s)
    {
      assert s[dim..][1..] == s[dim + 1..];
      QuotientBelow(remaining, strides[dim], s[dim]);
      assert Unflatten(remaining, s[dim..]) ==
             [remaining / strides[dim]] + Unflatten(remaining % strides[dim], s[dim + 1..]);
      c := c + [remaining / strides[dim]];
      remaining := remaining % strides[dim];
    }
  }

  method TryResolveBroadcastIndex(i: nat, s: Shape, p: Shape, axisAttr: Option<int>, block: int)
    returns (ok: bool, index: nat)
    requires i < Size(s)
    ensures ok <==> Accepts(s, p, axisAttr, block)
    ensures ok ==> index == ParameterIndex(i, s, p, axisAttr, block) && index < Size(p)
  {
    ok, index := false, 0;
    if |p| == 0 || Size(p) == 1 {
      return true, 0;
    }
    if Accepts(s, p, axisAttr, block) {
      IndexWithin(i, s, p, axisAttr, block);
    }
    var axis := if axisAttr.Some? then axisAttr.value else 1;
    if axis < 0 {
      axis := axis + |s|;
    }
    if |p| == 1 && |s| > 1 && (axis < 0 || axis >= |s|) {
      return;
    }
    var strides := StridesOf(s);
    var c := CoordinatesOf(i, s, strides);
    UnflattenWithin(i, s);
    if |p| == 1 {
      VectorPosition(p, p);
      ok, index := ResolveVector(c, s, p, axisAttr, axis, block);
    } else if |p| == |s| {
      ok, index := ResolveFullRank(c, s, p, axisAttr, axis, block);
    }
  }

  method ResolveVector(c: seq<nat>, s: Shape, p: Shape, axisAttr: Option<int>, axis: int, block: int)
    returns (ok: bool, index: nat)
    requires Within(c, s) && |p| == 1 && p[0] != 1 && axis == Axis(axisAttr, |s|)
    requires |s| > 1 ==> 0 <= axis < |s|
    ensures ok <==> Accepts(s, p, axisAttr, block)
    ensures ok ==> index == Flatten(ParameterCoordinates(c, s, p, axisAttr, block), p)
  {
    VectorPosition(ParameterCoordinates(c, s, p, axisAttr, block), p);
    if |s| <= 1 {
      VectorForVector(c, s, p, axisAttr, block);
      ok, index := ResolveInVector(if c == [] then 0 else c[0], if s == [] then 1 else s[0], p, block);
    } else {
      VectorAlongAxis(c, s, p, axisAttr, block);
      ok, index := ResolveAlongAxis(c[axis], s[axis], p, block);
    }
  }

  lemma VectorPosition(q: seq<nat>, p: Shape)
    requires |p| == |q| == 1
    ensures Size(p) == p[0] && Flatten(q, p) == q[0]
  {
    assert p[1..] == [] && q[1..] == [];
  }

  lemma VectorForVector(c: seq<nat>, s: Shape, p: Shape, axisAttr: Option<int>, block: int)
    requires Within(c, s) && |p| == 1 && p[0] != 1 && |s| <= 1 && Size(p) == p[0]
    ensures var dim := if s == [] then 1 else s[0];
      (Accepts(s, p, axisAttr, block) <==> p[0] == dim || IsBlocked(p[0], dim, block))
    ensures Accepts(s, p, axisAttr, block) ==> s != []
    ensures Accepts(s, p, axisAttr, block) ==>
      ParameterCoordinates(c, s, p, axisAttr, block)[0] == if IsBlocked(p[0], s[0], block) then c[0] / block else c[0]
    ensures s != [] && p[0] == s[0] ==> !IsBlocked(p[0], s[0], block)
  {
    BlockOfNothing(p[0], block);
    if s != [] && p[0] == s[0] && block > 1 {
      BlockIsSmaller(p[0], block);
    }
  }

  lemma BlockIsSmaller(p: nat, block: int)
    requires block > 1
    ensures p > 0 ==> p * block > p
  {
    if p > 0 {
      TimesMonotone(2, block, p);
    }
  }

  lemma VectorAlongAxis(c: seq<nat>, s: Shape, p: Shape, axisAttr: Option<int>, block: int)
    requires Within(c, s) && |p| == 1 && p[0] != 1 && |s| > 1 && Size(p) == p[0]
    requires 0 <= Axis(axisAttr, |s|) < |s|
    ensures var axis := Axis(axisAttr, |s|);
      && (Accepts(s, p, axisAttr, block) <==>
            if block > 1 then IsBlocked(p[0], s[axis], block) else p[0] == s[axis])
      && (Accepts(s, p, axisAttr, block) ==>
            ParameterCoordinates(c, s, p, axisAttr, block)[0] == if block > 1 then c[axis] / block else c[axis])
  {
  }

  method ResolveInVector(coordinate: nat, dim: nat, p: Shape, block: int) returns (ok: bool, index: nat)
    requires |p| == 1 && coordinate < dim && Size(p) == p[0]
    ensures ok <==> p[0] == dim || p[0] == 1 || IsBlocked(p[0], dim, block)
    ensures ok ==> index == if p[0] == dim then coordinate else if p[0] == 1 then 0 else coordinate / block
  {
    if p[0] == dim {
      return true, coordinate;
    }
    if p[0] == 1 {
      return true, 0;
    }
    if block > 1 && p[0] > 0 && p[0] * block == dim {
      QuotientBelow(coordinate, block, p[0]);
      index := coordinate / block;
      return index < Size(p), index;
    }
    ok, index := false, 0;
  }

  method ResolveAlongAxis(coordinate: nat, dim: nat, p: Shape, block: int) returns (ok: bool, index: nat)
    requires |p| == 1 && coordinate < dim && Size(p) == p[0]
    ensures ok <==> if block > 1 then IsBlocked(p[0], dim, block) else p[0] == 1 || p[0] == dim
    ensures ok ==> index == if p[0] == 1 then 0 else if block > 1 then coordinate / block else coordinate
  {
    ok, index := false, 0;
    var logical := coordinate;
    if block > 1 {
      if p[0] <= 0 || p[0] * block != dim {
        return;
      }
      QuotientBelow(coordinate, block, p[0]);
      logical := logical / block;
    } else if p[0] != 1 && p[0] != dim {
      return;
    }
    index := if p[0] == 1 then 0 else logical;
    ok := index < Size(p);
  }

  method ResolveDimension(coordinate: nat, dim: nat, p: nat, onAxis: bool, block: int)
    returns (fits: bool, logical: nat)
    ensures fits <==> (onAxis && IsBlocked(p, dim, block)) || p == 1 || p == dim
    ensures logical == if onAxis && IsBlocked(p, dim, block) then coordinate / block else coordinate
  {
    fits, logical := true, coordinate;
    if onAxis && block > 1 {
      if p > 0 && p * block == dim {
        logical := coordinate / block;
      } else if p != 1 && p != dim {
        fits := false;
      }
    } else if p != 1 && p != dim {
      fits := false;
    }
  }

  ghost predicate FitsDimension(s: Shape, p: Shape, axis: int, block: int, d: nat)
    requires d < |s| == |p|
  {
    (d == axis && IsBlocked(p[d], s[d], block)) || p[d] == 1 || p[d] == s[d]
  }

  lemma FullRankFits(s: Shape, p: Shape, axisAttr: Option<int>, block: int)
    requires |p| == |s| > 1 && !IsSingle(p)
    ensures Accepts(s, p, axisAttr, block) <==>
        forall d: nat {:trigger FitsDimension(s, p, Axis(axisAttr, |s|), block, d)} ::
          d < |s| ==> FitsDimension(s, p, Axis(axisAttr, |s|), block, d)
  {
    var axis := Axis(axisAttr, |s|);
    if Accepts(s, p, axisAttr, block) {
      forall d: nat | d < |s| ensures FitsDimension(s, p, axis, block, d) {
        assert (d == axis && IsBlocked(p[d], s[d], block)) || p[d] == 1 || p[d] == s[d];
      }
    } else {
      var d: nat :| d < |s| && !((d == axis && IsBlocked(p[d], s[d], block)) || p[d] == 1 || p[d] == s[d]);
      assert !FitsDimension(s, p, axis, block, d);
    }
  }

  lemma CoordinateIs(
    c: seq<nat>, s: Shape, p: Shape, axisAttr: Option<int>, block: int, d: nat, logical: nat)
    requires |c| == |s| == |p| > 1 && d < |s|
    requires logical == if d == Axis(axisAttr, |s|) && IsBlocked(p[d], s[d], block) then c[d] / block else c[d]
    requires FitsDimension(s, p, Axis(axisAttr, |s|), block, d)
    ensures ParameterCoordinates(c, s, p, axisAttr, block)[d] == if p[d] == 1 then 0 else logical
  {
  }

  lemma FlattenFrom(q: seq<nat>, p: Shape, d: nat, coordinate: nat, stride: nat)
    requires |q| == |p| && d < |p| && coordinate == q[d] && stride == Size(p[d + 1..])
    ensures Flatten(q[d..], p[d..]) == coordinate * stride + Flatten(q[d + 1..], p[d + 1..])
    ensures coordinate * stride >= 0
  {
    assert q[d..][1..] == q[d + 1..] && p[d..][1..] == p[d + 1..];
  }

  method ResolveFullRank(c: seq<nat>, s: Shape, p: Shape, axisAttr: Option<int>, axis: int, block: int)
    returns (ok: bool, index: nat)
    requires Within(c, s) && |p| == |s| > 1 && !IsSingle(p) && axis == Axis(axisAttr, |s|)
    ensures ok <==> Accepts(s, p, axisAttr, block)
    ensures ok ==> index == Flatten(ParameterCoordinates(c, s, p, axisAttr, block), p)
  {
    ok, index := false, 0;
    var strides := StridesOf(p);
    ghost var q := ParameterCoordinates(c, s, p, axisAttr, block);
    assert q[0..] == q && p[0..] == p;
    for dim := 0 to |s|
      invariant forall d: nat {:trigger FitsDimension(s, p, axis, block, d)} ::
          d < dim ==> FitsDimension(s, p, axis, block, d)
      invariant index + Flatten(q[dim..], p[dim..]) == Flatten(q, p)
    {
      var fits, logical := ResolveDimension(c[dim], s[dim], p[dim], dim == axis, block);
      if !fits {
        FullRankFits(s, p, axisAttr, block);
        assert !FitsDimension(s, p, axis, block, dim);
        return;
      }
      var coordinate := if p[dim] == 1 then 0 else logical;
      CoordinateIs(c, s, p, axisAttr, block, dim, logical);
      FlattenFrom(q, p, dim, coordinate, strides[dim]);
      index := index + coordinate * strides[dim];
    }
    FullRankFits(s, p, axisAttr, block);
    ParameterCoordinatesWithin(c, s, p, axisAttr, block);
    FlattenBelow(q, p);
    ok := index < Size(p);
  }

  // --- Handing a whole parameter over ---------------------------------------------------------

  datatype Handover = AsIs | Expanded(shape: Shape) | Reshaped(shape: Shape)

  // How the parameter is made to line up with the tensor, if it can be: `rank` and `shape` are
  // what the graph declares of the tensor.
  function HandoverFor(rank: Option<nat>, shape: Option<Shape>, p: Shape, axisAttr: Option<int>, block: int)
    : (h: Option<Handover>)
  {
    if IsSingle(p) then Some(AsIs)
    else if rank.None? then None
    else if block > 1 then
      if shape.None? || !Accepts(shape.value, p, axisAttr, block) then None else Some(Expanded(shape.value))
    else if |p| == 1 then
      var axis := Axis(axisAttr, rank.value);
      if rank.value <= 1 then Some(AsIs)
      else if axis < 0 || axis >= rank.value then None
      else if axis == rank.value - 1 then Some(AsIs)
      else Some(Reshaped(OnesExcept(rank.value, axis, p[0])))
    else if |p| == rank.value then Some(AsIs)
    else None
  }

  function OnesExcept(rank: nat, axis: nat, dim: nat): (s: Shape)
    requires axis < rank
    ensures |s| == rank && forall d :: 0 <= d < rank ==> s[d] == if d == axis then dim else 1
  {
    seq(rank, d => if d == axis then dim else 1)
  }

  // The tensor that stands for the parameter afterwards.
  function HandedOver(p: Tensor, h: Handover, axisAttr: Option<int>, block: int): (t: Tensor)
    requires |p.data| == Size(p.shape)
    requires h.Expanded? ==> Accepts(h.shape, p.shape, axisAttr, block)
    ensures t.dtype == p.dtype
  {
    match h
    case AsIs => p
    case Reshaped(shape) => Tensor(p.dtype, shape, p.data)
    case Expanded(shape) => ExpandedParameter(p, shape, axisAttr, block)
  }

  function ExpandedParameter(p: Tensor, s: Shape, axisAttr: Option<int>, block: int): (t: Tensor)
    requires |p.data| == Size(p.shape) && Accepts(s, p.shape, axisAttr, block)
    ensures t.dtype == p.dtype && t.shape == s && |t.data| == Size(s)
    ensures forall i: nat :: i < Size(s) ==>
        ParameterIndex(i, s, p.shape, axisAttr, block) < |p.data| &&
        t.data[i] == p.data[ParameterIndex(i, s, p.shape, axisAttr, block)]
  {
    forall i: nat | i < Size(s) ensures ParameterIndex(i, s, p.shape, axisAttr, block) < |p.data| {
      IndexWithin(i, s, p.shape, axisAttr, block);
    }
    Tensor(p.dtype, s, seq(Size(s), i requires 0 <= i < Size(s) =>
      var k := ParameterIndex(i, s, p.shape, axisAttr, block);
      if k < |p.data| then p.data[k] else NaN))
  }

  method AddExpandedInitializer(p: Tensor, s: Shape, axisAttr: Option<int>, block: int) returns (t: Option<Tensor>)
    requires |p.data| == Size(p.shape) && Size(s) > 0
    ensures t.Some? <==> Accepts(s, p.shape, axisAttr, block)
    ensures t.Some? ==> t.value == ExpandedParameter(p, s, axisAttr, block)
  {
    var data: seq<Num> := [];
    var count := Size(s);
    for i := 0 to count
      invariant |data| == i && (i > 0 ==> Accepts(s, p.shape, axisAttr, block))
      invariant forall j: nat :: j < i ==>
          ParameterIndex(j, s, p.shape, axisAttr, block) < |p.data| &&
          data[j] == p.data[ParameterIndex(j, s, p.shape, axisAttr, block)]
    {
      var ok, k := TryResolveBroadcastIndex(i, s, p.shape, axisAttr, block);
      if !ok {
        return None;
      }
      data := data + [p.data[k]];
    }
    t := Some(Tensor(p.dtype, s, data));
    assert data == ExpandedParameter(p, s, axisAttr, block).data;
  }

  // A single value wide enough in rank to lengthen the tensor's shape does not line up.
  predicate RankFits(s: Shape, p: Shape) {
    IsSingle(p) ==> |p| <= |s|
  }

  // A single value leaves the tensor's shape as it is exactly when its rank fits: a scalar tensor
  // with a scale of shape [1] comes out of the lowered arithmetic with shape [1].
  lemma SingleValueKeepsShape(s: Shape, p: Shape)
    requires IsSingle(p)
    ensures BroadcastShape(s, p) == Some(s) <==> |p| <= |s|
  {
    SizeOneIsOnes(p);
    if |p| <= |s| {
      ExtendsBroadcasts(p, s);
    } else if BroadcastShape(s, p).Some? {
      BroadcastRank(s, p);
    }
  }

  // The two routes agree: the tensor handed over lines up with the quantized tensor and shows at
  // every element the very value that resolving the element finds.
  lemma RoutesAgree(s: Shape, p: Tensor, h: Handover, shape: Option<Shape>, axisAttr: Option<int>, block: int, i: nat)
    requires |p.data| == Size(p.shape) && Accepts(s, p.shape, axisAttr, block) && RankFits(s, p.shape)
    requires HandoverFor(Some(|s|), shape, p.shape, axisAttr, block) == Some(h) && (shape.Some? ==> shape.value == s)
    requires i < Size(s)
    ensures ParameterIndex(i, s, p.shape, axisAttr, block) < |p.data|
    ensures var t := HandedOver(p, h, axisAttr, block);
      && Extends(t.shape, s) && |t.data| == Size(t.shape)
      && Element(t, Unflatten(i, s)) == p.data[ParameterIndex(i, s, p.shape, axisAttr, block)]
  {
    IndexWithin(i, s, p.shape, axisAttr, block);
    UnflattenWithin(i, s);
    var c := Unflatten(i, s);
    if IsSingle(p.shape) {
      SingleElement(p, s, c);
    } else if block > 1 {
      var t := ExpandedParameter(p, s, axisAttr, block);
      ElementOfSelf(t, i);
    } else if |p.shape| == 1 {
      VectorElement(s, p, h, axisAttr, block, c);
    } else {
      forall d | 0 <= d < |s| ensures Aligned(c, p.shape)[d] == ParameterCoordinates(c, s, p.shape, axisAttr, block)[d] {
      }
      assert Aligned(c, p.shape) == ParameterCoordinates(c, s, p.shape, axisAttr, block);
    }
  }

  lemma SingleElement(p: Tensor, s: Shape, c: seq<nat>)
    requires IsSingle(p.shape) && |p.data| == Size(p.shape) && |p.shape| <= |s| && Within(c, s)
    ensures Extends(p.shape, s) && Element(p, c) == p.data[0]
  {
    SizeOneIsOnes(p.shape);
    AlignedWithin(c, p.shape, s);
    FlattenBelow(Aligned(c, p.shape), p.shape);
  }

  lemma {:induction false} SizeOneIsOnes(p: Shape)
    requires Size(p) == 1
    ensures forall d :: 0 <= d < |p| ==> p[d] == 1
  {
    if p != [] {
      FactorsOfOne(p[0], Size(p[1..]));
      SizeOneIsOnes(p[1..]);
      forall d | 0 <= d < |p| ensures p[d] == 1 {
        assert d > 0 ==> p[d] == p[1..][d - 1];
      }
    }
  }

  lemma FactorsOfOne(a: nat, b: nat)
    requires a * b == 1
    ensures a == 1 && b == 1
  {
    if a >= 2 {
      TimesMonotone(2, a, b);
    }
  }

  lemma VectorElement(s: Shape, p: Tensor, h: Handover, axisAttr: Option<int>, block: int, c: seq<nat>)
    requires |p.data| == Size(p.shape) && |p.shape| == 1 && !IsSingle(p.shape) && block <= 1
    requires Accepts(s, p.shape, axisAttr, block) && Within(c, s)
    requires HandoverFor(Some(|s|), None, p.shape, axisAttr, block) == Some(h)
    ensures var t := HandedOver(p, h, axisAttr, block); var k := Flatten(ParameterCoordinates(c, s, p.shape,
        axisAttr, block), p.shape);
      && Extends(t.shape, s) && |t.data| == Size(t.shape) && k < |p.data| && Element(t, c) == p.data[k]
  {
    var q := ParameterCoordinates(c, s, p.shape, axisAttr, block);
    VectorPosition(q, p.shape);
    assert p.shape[0] != 1;
    if |s| <= 1 {
      assert s != [];
      VectorPosition(Aligned(c, p.shape), p.shape);
    } else {
      var axis := Axis(axisAttr, |s|);
      if axis == |s| - 1 {
        VectorPosition(Aligned(c, p.shape), p.shape);
      } else {
        OneAxisPosition(|s|, axis, p.shape[0], Aligned(c, h.shape));
      }
    }
  }

  lemma {:induction false} OneAxisPosition(rank: nat, axis: nat, dim: nat, c: seq<nat>)
    requires axis < rank && |c| == rank && forall d :: 0 <= d < rank && d != axis ==> c[d] == 0
    ensures Size(OnesExcept(rank, axis, dim)) == dim && Flatten(c, OnesExcept(rank, axis, dim)) == c[axis]
    decreases rank
  {
    var s := OnesExcept(rank, axis, dim);
    if axis == 0 {
      AllOnesPosition(s[1..], c[1..]);
    } else {
      assert s[1..] == OnesExcept(rank - 1, axis - 1, dim);
      OneAxisPosition(rank - 1, axis - 1, dim, c[1..]);
    }
  }

  lemma {:induction false} AllOnesPosition(s: Shape, c: seq<nat>)
    requires |c| == |s| && forall d :: 0 <= d < |s| ==> s[d] == 1 && c[d] == 0
    ensures Size(s) == 1 && Flatten(c, s) == 0
  {
    if s != [] {
      AllOnesPosition(s[1..], c[1..]);
    }
  }
}
