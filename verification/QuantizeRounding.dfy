/**
 * Quantization of one number: what ONNX defines (QuantizeLinear) and what the emitted arithmetic
 * computes (src/qdq_lowering.cc:2175-2270). ONNX rounds the quotient and then adds the zero
 * point; the emitted nodes add the zero point and then round.
 */
module QuantizeRounding {
  import opened TensorValues

  function Clamped(n: Num, t: DType): (m: Num) {
    Smaller(Larger(n, Fin(MinOf(t) as real)), Fin(MaxOf(t) as real))
  }

  // saturate(round(quotient) + zero point)
  function RoundThenShift(quotient: Num, zero: Num, t: DType): (q: Num) {
    Converted(Clamped(Plus(Rounded(quotient), zero), t), t)
  }

  // cast(min(max(round(quotient + zero point), qmin), qmax))
  function ShiftThenRound(quotient: Num, zero: Num, t: DType): (q: Num) {
    Converted(Clamped(Rounded(Plus(quotient, zero)), t), t)
  }

  function QuantizedByOnnx(x: Num, scale: Num, zero: Num, t: DType): (q: Num) {
    RoundThenShift(Over(x, scale), zero, t)
  }

  function QuantizedByCode(x: Num, scale: Num, zero: Num, t: DType): (q: Num) {
    ShiftThenRound(Over(x, scale), zero, t)
  }

  // The quotient lies halfway between two integers.
  predicate IsTie(r: real) {
    r - r.Floor as real == 0.5
  }

  lemma FloorOfSum(r: real, z: int)
    ensures (r + z as real).Floor == r.Floor + z
  {
  }

  // Before clamping: the two agree unless an odd zero point meets a tie, and then they are one
  // apart, the code's result being the odd neighbour of the quotient shifted by the zero point.
  lemma RoundingRelation(r: real, z: int)
    ensures RoundReal(r + z as real) == RoundReal(r) + z <==> z % 2 == 0 || !IsTie(r)
    ensures z % 2 != 0 && IsTie(r) ==>
        RoundReal(r + z as real) == RoundReal(r) + z + (if r.Floor % 2 == 0 then 1 else -1)
  {
    FloorOfSum(r, z);
    assert IsTie(r + z as real) <==> IsTie(r);
  }

  lemma ClampedInteger(n: int, t: DType)
    ensures var low, high := MinOf(t), MaxOf(t);
      Clamped(Fin(n as real), t) == Fin((if high < low || n > high then high else if n < low then low else n) as real)
  {
    RangeIsOrdered(t);
  }

  lemma RangeIsOrdered(t: DType)
    ensures MinOf(t) <= MaxOf(t)
  {
  }

  lemma ClampedFits(n: Num, t: DType)
    requires !n.NaN? && (n.Fin? ==> n.r == n.r.Floor as real) && (IsInteger(t) || t.Bool?)
    ensures Holds(t, Clamped(n, t)) && Converted(Clamped(n, t), t) == Clamped(n, t)
  {
    RangeIsOrdered(t);
    ConvertedKeeps(Clamped(n, t), t);
  }

  predicate IsQuantizedType(t: DType) {
    t in {Int8, UInt8, Int16, UInt16}
  }

  // The condition a caller can check: the zero point is even, or the quotient is no tie, or the
  // shifted quotient lies outside the range of the type, where both saturate.
  predicate RoundsAlike(r: real, zero: int, t: DType) {
    || zero % 2 == 0 || !IsTie(r)
    || r + zero as real < MinOf(t) as real || r + zero as real > MaxOf(t) as real
  }

  // After clamping, exactly: the emitted arithmetic meets the ONNX definition for a number if and
  // only if that condition holds.
  lemma QuantizingRelation(quotient: Num, zero: int, t: DType)
    requires IsQuantizedType(t)
    ensures ShiftThenRound(quotient, Fin(zero as real), t) == RoundThenShift(quotient, Fin(zero as real), t)
       <==> (quotient.Fin? ==> RoundsAlike(quotient.r, zero, t))
  {
    if quotient.Fin? {
      var r := quotient.r;
      QuantizedIntegers(r, zero, t);
      ClampedApart(r, zero, RoundReal(r + zero as real), RoundReal(r) + zero, t);
    }
  }

  // Both results are integers clamped, which the conversion leaves alone.
  lemma QuantizedIntegers(r: real, zero: int, t: DType)
    requires IsQuantizedType(t)
    ensures Converted(Clamped(Rounded(Plus(Fin(r), Fin(zero as real))), t), t)
         == Clamped(Fin(RoundReal(r + zero as real) as real), t)
    ensures Converted(Clamped(Plus(Rounded(Fin(r)), Fin(zero as real)), t), t)
         == Clamped(Fin((RoundReal(r) + zero) as real), t)
  {
    ClampedFits(Fin(RoundReal(r + zero as real) as real), t);
    ClampedFits(Fin((RoundReal(r) + zero) as real), t);
    assert Plus(Rounded(Fin(r)), Fin(zero as real)) == Fin((RoundReal(r) + zero) as real);
  }

  // Two neighbours around the shifted tie clamp alike exactly when both saturate on one side.
  lemma ClampedApart(r: real, zero: int, byCode: int, byOnnx: int, t: DType)
    requires byCode == RoundReal(r + zero as real) && byOnnx == RoundReal(r) + zero
    ensures Clamped(Fin(byCode as real), t) == Clamped(Fin(byOnnx as real), t)
       <==> RoundsAlike(r, zero, t)
  {
    RoundingRelation(r, zero);
    FloorOfSum(r, zero);
    RangeIsOrdered(t);
    ClampedInteger(byCode, t);
    ClampedInteger(byOnnx, t);
  }

  // One input where the two differ: 0.5 with scale 1 and zero point 1 into uint8.
  lemma OddZeroDisagrees()
    ensures QuantizedByOnnx(Fin(0.5), Fin(1.0), Fin(1.0), UInt8) == Fin(1.0)
    ensures QuantizedByCode(Fin(0.5), Fin(1.0), Fin(1.0), UInt8) == Fin(2.0)
  {
    var one := 1;
    RoundingRelation(0.5, one);
    assert Over(Fin(0.5), Fin(1.0)) == Fin(0.5);
    assert RoundReal(0.5) == 0 && RoundReal(1.5) == 2;
    ClampedInteger(1, UInt8);
    ClampedInteger(2, UInt8);
    ClampedFits(Fin(one as real), UInt8);
    ClampedFits(Fin(2 as real), UInt8);
    assert Plus(Fin(0 as real), Fin(1.0)) == Fin(one as real);
    assert Plus(Fin(0.5), Fin(1.0)) == Fin(1.5);
  }
}
