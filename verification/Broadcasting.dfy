/** Tensors and the ONNX rule that aligns shapes from the right. */
module Broadcasting {
  import opened Options
  import opened Division
  import opened TensorValues

  // Elements in row-major order.
  datatype Tensor = Tensor(dtype: DType, shape: Shape, data: seq<Num>)

  predicate WellFormed(t: Tensor) {
    |t.data| == Size(t.shape) && forall i :: 0 <= i < |t.data| ==> Holds(t.dtype, t.data[i])
  }

  function BroadcastShape(a: Shape, b: Shape): (s: Option<Shape>)
    decreases |a| + |b|
  {
    if |a| > |b| then
      match BroadcastShape(a[1..], b)
      case None => None
      case Some(rest) => Some([a[0]] + rest)
    else if |b| > |a| then
      match BroadcastShape(a, b[1..])
      case None => None
      case Some(rest) => Some([b[0]] + rest)
    else if a == [] then Some([])
    else if a[0] != b[0] && a[0] != 1 && b[0] != 1 then None
    else
      match BroadcastShape(a[1..], b[1..])
      case None => None
      case Some(rest) => Some([if a[0] == 1 then b[0] else a[0]] + rest)
  }

  // The coordinates at which a tensor of shape p is read when the result is at c.
  function Aligned(c: seq<nat>, p: Shape): (a: seq<nat>)
    requires |p| <= |c|
    ensures |a| == |p|
  {
    seq(|p|, d requires 0 <= d < |p| => if p[d] == 1 then 0 else c[|c| - |p| + d])
  }

  // p extends to s: no dimension of s has to grow.
  ghost predicate Extends(p: Shape, s: Shape) {
    |p| <= |s| && forall d :: 0 <= d < |p| ==> p[d] == 1 || p[d] == s[|s| - |p| + d]
  }

  lemma {:induction false} ExtendsBroadcasts(p: Shape, s: Shape)
    requires Extends(p, s)
    ensures BroadcastShape(s, p) == Some(s) && BroadcastShape(p, s) == Some(s)
    decreases |s|
  {
    if |s| > |p| {
      assert Extends(p, s[1..]) by {
        forall d | 0 <= d < |p| ensures p[d] == 1 || p[d] == s[1..][|s[1..]| - |p| + d] {
          assert s[1..][|s[1..]| - |p| + d] == s[|s| - |p| + d];
        }
      }
      ExtendsBroadcasts(p, s[1..]);
      assert [s[0]] + s[1..] == s;
    } else if s != [] {
      assert Extends(p[1..], s[1..]) by {
        forall d | 0 <= d < |p[1..]| ensures p[1..][d] == 1 || p[1..][d] == s[1..][d] {
          assert p[d + 1] == 1 || p[d + 1] == s[d + 1];
        }
      }
      ExtendsBroadcasts(p[1..], s[1..]);
      assert p[0] == 1 || p[0] == s[0];
      assert [s[0]] + s[1..] == s;
    }
  }

  lemma AlignedWithin(c: seq<nat>, p: Shape, s: Shape)
    requires Within(c, s) && Extends(p, s)
    ensures Within(Aligned(c, p), p)
  {
  }

  // A dimension of one is read at zero, which is where it is.
  lemma {:induction false} AlignedWithSelf(c: seq<nat>, s: Shape)
    requires Within(c, s)
    ensures Aligned(c, s) == c
  {
    forall d | 0 <= d < |s| ensures Aligned(c, s)[d] == c[d] {
    }
  }

  // The element of t that takes part in the result at c.
  function Element(t: Tensor, c: seq<nat>): (n: Num)
    requires |t.data| == Size(t.shape) && |t.shape| <= |c|
  {
    var i := Flatten(Aligned(c, t.shape), t.shape);
    if i < |t.data| then t.data[i] else NaN
  }

  lemma ElementOfSelf(t: Tensor, i: nat)
    requires |t.data| == Size(t.shape) && i < Size(t.shape)
    ensures Element(t, Unflatten(i, t.shape)) == t.data[i]
  {
    UnflattenWithin(i, t.shape);
    AlignedWithSelf(Unflatten(i, t.shape), t.shape);
  }

  // Elementwise application of a binary operator; operands must be of one type.
  function Zipped(op: BinaryOp, a: Tensor, b: Tensor): (r: Option<Tensor>) {
    if a.dtype != b.dtype || |a.data| != Size(a.shape) || |b.data| != Size(b.shape) then None
    else
      match BroadcastShape(a.shape, b.shape)
      case None => None
      case Some(s) =>
        BroadcastRank(a.shape, b.shape);
        Some(Tensor(a.dtype, s, seq(Size(s), i requires 0 <= i < Size(s) =>
          op(Element(a, Unflatten(i, s)), Element(b, Unflatten(i, s))))))
  }

  lemma {:induction false} BroadcastRank(a: Shape, b: Shape)
    requires BroadcastShape(a, b).Some?
    ensures |a| <= |BroadcastShape(a, b).value| && |b| <= |BroadcastShape(a, b).value|
    decreases |a| + |b|
  {
    if |a| > |b| {
      BroadcastRank(a[1..], b);
    } else if |b| > |a| {
      BroadcastRank(a, b[1..]);
    } else if a != [] {
      BroadcastRank(a[1..], b[1..]);
    }
  }

  // When the second operand extends to the first, the result has the first one's shape and
  // combines each of its elements with the aligned element of the second.
  lemma ZippedWithParameter(op: BinaryOp, x: Tensor, p: Tensor)
    requires |x.data| == Size(x.shape) && |p.data| == Size(p.shape)
    requires x.dtype == p.dtype && Extends(p.shape, x.shape)
    ensures var r := Zipped(op, x, p);
      && r.Some? && r.value.dtype == x.dtype && r.value.shape == x.shape && |r.value.data| == |x.data|
      && forall i: nat :: i < |x.data| ==> r.value.data[i] == op(x.data[i], Element(p, Unflatten(i, x.shape)))
  {
    ExtendsBroadcasts(p.shape, x.shape);
    forall i: nat | i < |x.data| ensures Element(x, Unflatten(i, x.shape)) == x.data[i] {
      ElementOfSelf(x, i);
    }
  }

  function Mapped(op: Num -> Num, dtype: DType, t: Tensor): (r: Tensor)
    ensures r.dtype == dtype && r.shape == t.shape && |r.data| == |t.data|
    ensures forall i :: 0 <= i < |t.data| ==> r.data[i] == op(t.data[i])
  {
    Tensor(dtype, t.shape, seq(|t.data|, i requires 0 <= i < |t.data| => op(t.data[i])))
  }
}
