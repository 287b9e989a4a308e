/**
 * Tensors with exact values: what the operators of the rewritten graphs compute when rounding is
 * not the point. Operator meanings follow the ONNX operator specification and its chapter
 * "Broadcasting in ONNX" (multidirectional broadcasting).
 */
module TensorValues {
  import opened Division

  // An exact number, an infinity, or not a number at all.
  datatype Num = NaN | NegInf | Fin(r: real) | PosInf

  datatype DType =
    | Float | Float16 | BFloat16 | Double
    | Int8 | UInt8 | Int16 | UInt16 | Int32 | UInt32 | Int64 | UInt64
    | Bool | OtherType

  predicate IsFloating(t: DType) {
    t in {Float, Float16, BFloat16, Double}
  }

  predicate IsInteger(t: DType) {
    t in {Int8, UInt8, Int16, UInt16, Int32, UInt32, Int64, UInt64}
  }

  function MinOf(t: DType): int {
    match t
    case Int8 => -0x80
    case Int16 => -0x8000
    case Int32 => -0x8000_0000
    case Int64 => -0x8000_0000_0000_0000
    case _ => 0
  }

  function MaxOf(t: DType): int {
    match t
    case Int8 => 0x7f
    case UInt8 => 0xff
    case Int16 => 0x7fff
    case UInt16 => 0xffff
    case Int32 => 0x7fff_ffff
    case UInt32 => 0xffff_ffff
    case Int64 => 0x7fff_ffff_ffff_ffff
    case UInt64 => 0xffff_ffff_ffff_ffff
    case Bool => 1
    case _ => 0
  }

  predicate Holds(t: DType, n: Num) {
    IsFloating(t) || t.OtherType? ||
    (n.Fin? && n.r == n.r.Floor as real && MinOf(t) <= n.r.Floor <= MaxOf(t))
  }

  // --- Arithmetic on numbers ------------------------------------------------------------------

  function Negated(a: Num): (n: Num) {
    match a
    case NaN => NaN
    case NegInf => PosInf
    case PosInf => NegInf
    case Fin(r) => Fin(-r)
  }

  function Plus(a: Num, b: Num): (n: Num) {
    if a.NaN? || b.NaN? then NaN
    else if a.Fin? && b.Fin? then Fin(a.r + b.r)
    else if a.Fin? then b
    else if b.Fin? || a == b then a
    else NaN
  }

  function Minus(a: Num, b: Num): (n: Num) {
    Plus(a, Negated(b))
  }

  function Sign(a: Num): (s: int)
    requires !a.NaN?
  {
    match a
    case NegInf => -1
    case PosInf => 1
    case Fin(r) => if r < 0.0 then -1 else if r > 0.0 then 1 else 0
  }

  function Times(a: Num, b: Num): (n: Num) {
    if a.NaN? || b.NaN? then NaN
    else if a.Fin? && b.Fin? then Fin(a.r * b.r)
    else if Sign(a) * Sign(b) > 0 then PosInf
    else if Sign(a) * Sign(b) < 0 then NegInf
    else NaN
  }

  function Over(a: Num, b: Num): (n: Num) {
    if a.NaN? || b.NaN? then NaN
    else if b.Fin? && b.r != 0.0 then Times(a, Fin(1.0 / b.r))
    else if b.Fin? then (if Sign(a) > 0 then PosInf else if Sign(a) < 0 then NegInf else NaN)
    else if a.Fin? then Fin(0.0)
    else NaN
  }

  predicate AtMost(a: Num, b: Num) {
    a == b || a.NegInf? || b.PosInf? || (a.Fin? && b.Fin? && a.r <= b.r)
  }

  function Larger(a: Num, b: Num): (n: Num) {
    if a.NaN? || b.NaN? then NaN else if AtMost(a, b) then b else a
  }

  function Smaller(a: Num, b: Num): (n: Num) {
    if a.NaN? || b.NaN? then NaN else if AtMost(a, b) then a else b
  }

  type BinaryOp = (Num, Num) -> Num

  function Adding(): (op: BinaryOp) { (a, b) => Plus(a, b) }
  function Subtracting(): (op: BinaryOp) { (a, b) => Minus(a, b) }
  function Multiplying(): (op: BinaryOp) { (a, b) => Times(a, b) }
  function Dividing(): (op: BinaryOp) { (a, b) => Over(a, b) }
  function TakingLarger(): (op: BinaryOp) { (a, b) => Larger(a, b) }
  function TakingSmaller(): (op: BinaryOp) { (a, b) => Smaller(a, b) }

  // Round to the nearest integer, ties to the even one.
  function RoundReal(r: real): (n: int)
    ensures -0.5 <= n as real - r <= 0.5
    ensures n as real - r == 0.5 || n as real - r == -0.5 ==> n % 2 == 0
  {
    var low := r.Floor;
    var rest := r - low as real;
    if rest < 0.5 || (rest == 0.5 && low % 2 == 0) then low else low + 1
  }

  function Rounded(a: Num): (n: Num) {
    if a.Fin? then Fin(RoundReal(a.r) as real) else a
  }

  function Truncated(r: real): (n: int) {
    if r >= 0.0 then r.Floor else -((-r).Floor)
  }

  // Conversion of one element. Between floating types nothing is lost here; what a number outside
  // the integer type becomes is left to `Outside`.
  function Converted(n: Num, to: DType): (m: Num) {
    if IsFloating(to) || to.OtherType? then n
    else if to.Bool? then (if n == Fin(0.0) then Fin(0.0) else Fin(1.0))
    else if n.Fin? && MinOf(to) <= Truncated(n.r) <= MaxOf(to) then Fin(Truncated(n.r) as real)
    else Outside(n, to)
  }

  // Excess high bits are dropped; a number with no integer part becomes the least value.
  function Outside(n: Num, to: DType): (m: Num) {
    var span := MaxOf(to) - MinOf(to) + 1;
    if n.Fin? && span > 0 then
      var low := (Truncated(n.r) - MinOf(to)) % span;
      Fin((low + MinOf(to)) as real)
    else Fin(MinOf(to) as real)
  }

  lemma ConvertedKeeps(n: Num, to: DType)
    requires Holds(to, n)
    ensures Converted(n, to) == n
  {
    if n.Fin? && n.r == n.r.Floor as real {
      TruncatedKeeps(n.r.Floor);
    }
  }

  lemma TruncatedKeeps(i: int)
    ensures Truncated(i as real) == i
  {
    assert (-i) as real == -(i as real);
  }

  // --- Shapes and positions -------------------------------------------------------------------

  type Shape = seq<nat>

  function Size(s: Shape): (n: nat) {
    if s == [] then 1 else s[0] * Size(s[1..])
  }

  lemma {:induction false} SizeIsPositive(s: Shape)
    requires 0 !in s
    ensures Size(s) >= 1
  {
    if s != [] {
      SizeIsPositive(s[1..]);
      assert s[0] in s;
      TimesMonotone(1, s[0], Size(s[1..]));
    }
  }

  ghost predicate Within(c: seq<nat>, s: Shape) {
    |c| == |s| && forall d :: 0 <= d < |s| ==> c[d] < s[d]
  }

  // The position in row-major order of the element with these coordinates, and back.
  function Flatten(c: seq<nat>, s: Shape): (i: nat)
    requires |c| == |s|
  {
    if s == [] then 0 else c[0] * Size(s[1..]) + Flatten(c[1..], s[1..])
  }

  function Unflatten(i: nat, s: Shape): (c: seq<nat>)
    requires i < Size(s)
    ensures |c| == |s|
  {
    if s == [] then []
    else
      QuotientBelow(i, Size(s[1..]), s[0]);
      [i / Size(s[1..])] + Unflatten(i % Size(s[1..]), s[1..])
  }

  lemma {:induction false} UnflattenWithin(i: nat, s: Shape)
    requires i < Size(s)
    ensures Within(Unflatten(i, s), s) && Flatten(Unflatten(i, s), s) == i
  {
    if s != [] {
      QuotientBelow(i, Size(s[1..]), s[0]);
      UnflattenWithin(i % Size(s[1..]), s[1..]);
      var c := Unflatten(i, s);
      assert c[1..] == Unflatten(i % Size(s[1..]), s[1..]);
      forall d | 0 <= d < |s| ensures c[d] < s[d] {
        if d > 0 {
          assert c[d] == c[1..][d - 1] && s[d] == s[1..][d - 1];
        }
      }
    }
  }

  lemma {:induction false} FlattenBelow(c: seq<nat>, s: Shape)
    requires Within(c, s)
    ensures Flatten(c, s) < Size(s) && Unflatten(Flatten(c, s), s) == c
  {
    if s != [] {
      assert Within(c[1..], s[1..]) by {
        forall d | 0 <= d < |s[1..]| ensures c[1..][d] < s[1..][d] {
          assert c[d + 1] < s[d + 1];
        }
      }
      FlattenBelow(c[1..], s[1..]);
      var n := Size(s[1..]);
      TimesMonotone(c[0] + 1, s[0], n);
      var rest := Flatten(c[1..], s[1..]);
      assert c[0] * n + rest < (c[0] + 1) * n;
      QuotientIs(c[0] * n + rest, n, c[0], rest);
      assert c == [c[0]] + c[1..];
    }
  }

  lemma UnflattenRow(i: nat, s: Shape, q: nat, r: nat)
    requires s != [] && q < s[0] && r < Size(s[1..]) && i == q * Size(s[1..]) + r
    ensures i < Size(s) && Unflatten(i, s) == [q] + Unflatten(r, s[1..])
  {
    var n := Size(s[1..]);
    assert i < (q + 1) * n;
    TimesMonotone(q + 1, s[0], n);
    QuotientIs(i, n, q, r);
  }
}
