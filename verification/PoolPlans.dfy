/**
 * When a dilated pool can be taken apart, and into which slices
 * (src/pooling_dilation_compatibility.cc:334-493).
 */
module PoolPlans {
  import opened Options
  import opened Hiding
  import opened Division
  import opened TensorValues
  import opened Broadcasting
  import opened PoolMeaning
  import opened OnnxGraph
  import opened Declarations

  const MAX_LOWERED_TAPS := 256

  datatype Plan = Plan(isAverage: bool, dtype: DType, input: Shape, output: Shape, window: Window, taps: nat)

  predicate AllPositive(v: seq<int>) {
    forall i :: 0 <= i < |v| ==> v[i] > 0
  }

  function Or(v: Option<seq<int>>, otherwise: seq<int>): (r: seq<int>) {
    if v.Some? then v.value else otherwise
  }

  predicate IsPoolNode(node: Node) {
    && InMainDomain(node) && (node.op.AveragePool? || node.op.MaxPool?)
    && |node.inputs| == 1 && node.inputs[0] != "" && |node.outputs| == 1 && node.outputs[0] != ""
    && (node.attributes.autoPad.None? || node.attributes.autoPad.value == "NOTSET")
  }

  // The window the attributes describe, provided it is dilated and not padded.
  function DilatedWindow(a: Attributes): (w: Option<Window>)
    ensures w.Some? ==> |w.value.kernel| == |w.value.strides| == |w.value.dilations| > 0
    ensures w.Some? ==> 0 !in w.value.kernel && 0 !in w.value.strides && 0 !in w.value.dilations
  {
    var kernel := Or(a.kernelShape, []);
    var rank := |kernel|;
    var strides, dilations := Or(a.strides, Ones(rank)), Or(a.dilations, Ones(rank));
    var pads := Or(a.pads, seq(2 * rank, _ => 0));
    if && kernel != [] && AllPositive(kernel)
       && |strides| == |dilations| == rank && |pads| == 2 * rank && AllPositive(strides) && AllPositive(dilations)
       && (exists i :: 0 <= i < rank && dilations[i] != 1) && (forall i :: 0 <= i < |pads| ==> pads[i] == 0)
    then
      var k, s, d := Naturals(kernel).value, Naturals(strides).value, Naturals(dilations).value;
      Some(Window(k, s, d, a.ceilMode.Some? && a.ceilMode.value != 0))
    else None
  }

  predicate FitsAlong(w: Window, input: Shape, output: Shape, d: nat)
    requires |w.kernel| == |w.strides| == |w.dilations| && |input| == |output| == |w.kernel| + 2 && d < |w.kernel|
  {
    && output[d + 2] > 0 && w.kernel[d] > 0
    && (output[d + 2] - 1) * w.strides[d] + (w.kernel[d] - 1) * w.dilations[d] < input[d + 2]
  }

  // Every window lies inside the input.
  predicate WindowsFit(w: Window, input: Shape, output: Shape)
    requires |w.kernel| == |w.strides| == |w.dilations|
  {
    && |input| == |output| == |w.kernel| + 2
    && forall d: nat {:trigger FitsAlong(w, input, output, d)} :: d < |w.kernel| ==> FitsAlong(w, input, output, d)
  }

  function PlanFor(node: Node, infos: map<string, ValueInfo>, inits: map<string, Tensor>): (p: Option<Plan>) {
    var w := DilatedWindow(node.attributes);
    if !IsPoolNode(node) || w.None? then None
    else
      var input, output := StaticShape(infos, inits, node.inputs[0]), StaticShape(infos, inits, node.outputs[0]);
      var t := ElementType(infos, inits, node.inputs[0]);
      if input.None? || output.None? || |input.value| != |w.value.kernel| + 2 || |output.value| != |input.value| ||
         output.value[0] != input.value[0] || output.value[1] != input.value[1] ||
         t.None? || (!t.value.Float? && !t.value.Float16?) ||
         Size(w.value.kernel) > MAX_LOWERED_TAPS || !WindowsFit(w.value, input.value, output.value) then None
      else Some(Plan(node.op.AveragePool?, t.value, input.value, output.value, w.value, Size(w.value.kernel)))
  }

  // What every plan provides.
  ghost predicate IsPlan(p: Plan) {
    && |p.window.kernel| == |p.window.strides| == |p.window.dilations| > 0
    && |p.input| == |p.output| == |p.window.kernel| + 2
    && (p.dtype.Float? || p.dtype.Float16?)
    && p.taps > 0
    && forall u {:trigger PlanFacts(p, u)} :: PlanFacts(p, u)
  }

  ghost predicate PlanFacts(p: Plan, u: Unfolding)
    requires |p.window.kernel| == |p.window.strides| == |p.window.dilations|
    requires |p.input| == |p.output| == |p.window.kernel| + 2
  {
    && 0 !in p.window.strides && 0 !in p.window.dilations && 0 !in p.input
    && WindowsFit(p.window, p.input, p.output)
    && p.output[0] == p.input[0] && p.output[1] == p.input[1]
    && p.taps == Size(p.window.kernel)
  }

  // The kernel position of a tap.
  function TapCoordinates(p: Plan, tap: nat): (k: seq<nat>)
    requires IsPlan(p) && tap < p.taps
    ensures |k| == |p.window.kernel|
  {
    assert PlanFacts(p, Unfolded);
    Unflatten(tap, p.window.kernel)
  }

  // The number of taps, given up as soon as it passes the limit.
  method CountTaps(kernel: Shape) returns (count: Option<nat>)
    requires 0 !in kernel
    ensures count == if Size(kernel) <= MAX_LOWERED_TAPS then Some(Size(kernel)) else None
  {
    var taps := 1;
    assert kernel[|kernel|..] == [];
    assert kernel[0..] == kernel;
    for i := 0 to |kernel|
      invariant 1 <= taps <= MAX_LOWERED_TAPS && taps * Size(kernel[i..]) == Size(kernel)
    {
      var rest := Size(kernel[i + 1..]);
      assert kernel[i..][1..] == kernel[i + 1..];
      assert kernel[i] in kernel;
      assert taps * (kernel[i] * rest) == taps * kernel[i] * rest;
      taps := taps * kernel[i];
      if taps > MAX_LOWERED_TAPS {
        SizeIsPositive(kernel[i + 1..]);
        TimesMonotone(1, rest, taps);
        return None;
      }
    }
    count := Some(taps);
  }

  method CheckWindow(w: Window, input: Shape, output: Shape, d: nat) returns (fits: bool)
    requires |w.kernel| == |w.strides| == |w.dilations| && |input| == |output| == |w.kernel| + 2 && d < |w.kernel|
    requires w.kernel[d] > 0
    ensures fits <==> FitsAlong(w, input, output, d)
  {
    if output[d + 2] == 0 {
      return false;
    }
    var last := (output[d + 2] - 1) * w.strides[d] + (w.kernel[d] - 1) * w.dilations[d];
    fits := last < input[d + 2];
  }

  method CheckWindows(w: Window, input: Shape, output: Shape) returns (fit: bool)
    requires |w.kernel| == |w.strides| == |w.dilations| && |input| == |output| == |w.kernel| + 2 && 0 !in w.kernel
    ensures fit <==> WindowsFit(w, input, output)
  {
    for d := 0 to |w.kernel|
      invariant forall e: nat {:trigger FitsAlong(w, input, output, e)} :: e < d ==> FitsAlong(w, input, output, e)
    {
      assert w.kernel[d] in w.kernel;
      fit := CheckWindow(w, input, output, d);
      if !fit {
        return;
      }
    }
    fit := true;
  }

  method TryBuildPoolLoweringPlan(node: Node, infos: map<string, ValueInfo>, inits: map<string, Tensor>)
    returns (p: Option<Plan>)
    ensures p == PlanFor(node, infos, inits)
  {
    var w := DilatedWindow(node.attributes);
    if !IsPoolNode(node) || w.None? {
      return None;
    }
    var input, output := StaticShape(infos, inits, node.inputs[0]), StaticShape(infos, inits, node.outputs[0]);
    if input.None? || output.None? || |input.value| != |w.value.kernel| + 2 || |output.value| != |input.value| ||
       output.value[0] != input.value[0] || output.value[1] != input.value[1] {
      return None;
    }
    var t := ElementType(infos, inits, node.inputs[0]);
    if t.None? || (!t.value.Float? && !t.value.Float16?) {
      return None;
    }
    var taps := CountTaps(w.value.kernel);
    if taps.None? {
      return None;
    }
    var fit := CheckWindows(w.value, input.value, output.value);
    p := if fit then Some(Plan(node.op.AveragePool?, t.value, input.value, output.value, w.value, taps.value)) else None;
  }

  // --- Decoding a tap -------------------------------------------------------------------------

  // Counting down from the last dimension gives the coordinates in row-major order, so every
  // kernel position is met once.
  method DecodeTapCoordinates(tap: nat, kernel: Shape) returns (k: seq<nat>)
    requires tap < Size(kernel) && 0 !in kernel
    ensures k == Unflatten(tap, kernel) && Within(k, kernel) && Flatten(k, kernel) == tap
  {
    k := seq(|kernel|, _ => 0);
    var remaining: nat := tap;
    var dim := |kernel|;
    NothingDecoded(tap, kernel, k);
    while dim > 0
      invariant 0 <= dim <= |kernel| == |k| && IsDecodedFrom(tap, kernel, remaining, k, dim)
    {
      dim := dim - 1;
      assert kernel[dim] in kernel;
      var quotient, rest := DivideBy(remaining, kernel[dim]);
      OneMoreDecoded(tap, kernel, remaining, k, dim, quotient, rest);
      k := k[dim := rest];
      remaining := quotient;
    }
    AllDecoded(tap, kernel, remaining, k);
  }

  method DivideBy(a: nat, n: nat) returns (quotient: nat, rest: nat)
    requires n > 0
    ensures quotient == a / n && rest == a % n
  {
    QuotientIsNat(a, n);
    quotient, rest := a / n, a % n;
  }

  lemma QuotientIsNat(a: nat, n: nat)
    requires n > 0
    ensures a / n >= 0
  {
  }

  ghost predicate DecodedFacts(tap: nat, kernel: Shape, remaining: nat, k: seq<nat>, dim: nat, u: Unfolding)
    requires dim <= |kernel| == |k|
  {
    && tap == remaining * Size(kernel[dim..]) + Flatten(k[dim..], kernel[dim..])
    && forall d :: dim <= d < |k| ==> k[d] < kernel[d]
  }

  // From dimension dim on, the coordinates are those of the tap; `remaining` counts the others.
  ghost predicate IsDecodedFrom(tap: nat, kernel: Shape, remaining: nat, k: seq<nat>, dim: nat)
    requires dim <= |kernel| == |k|
  {
    forall u {:trigger DecodedFacts(tap, kernel, remaining, k, dim, u)} :: DecodedFacts(tap, kernel, remaining, k, dim, u)
  }

  lemma DecodedFolds(tap: nat, kernel: Shape, remaining: nat, k: seq<nat>, dim: nat)
    requires dim <= |kernel| == |k| && DecodedFacts(tap, kernel, remaining, k, dim, Unfolded)
    ensures IsDecodedFrom(tap, kernel, remaining, k, dim)
  {
    forall u ensures DecodedFacts(tap, kernel, remaining, k, dim, u) {
    }
  }

  lemma NothingDecoded(tap: nat, kernel: Shape, k: seq<nat>)
    requires |k| == |kernel|
    ensures IsDecodedFrom(tap, kernel, tap, k, |kernel|)
  {
    assert kernel[|kernel|..] == [] && k[|kernel|..] == [];
    DecodedFolds(tap, kernel, tap, k, |kernel|);
  }

  lemma OneMoreDecoded(tap: nat, kernel: Shape, remaining: nat, k: seq<nat>, dim: nat, quotient: nat, rest: nat)
    requires dim < |kernel| == |k| && IsDecodedFrom(tap, kernel, remaining, k, dim + 1)
    requires kernel[dim] > 0 && quotient == remaining / kernel[dim] && rest == remaining % kernel[dim]
    ensures IsDecodedFrom(tap, kernel, quotient, k[dim := rest], dim)
  {
    assert DecodedFacts(tap, kernel, remaining, k, dim + 1, Unfolded);
    var s, c := kernel[dim..], k[dim + 1..];
    assert s[1..] == kernel[dim + 1..];
    DecodeStep(tap, remaining, s, c);
    assert k[dim := rest][dim..] == [rest] + c;
    DecodedFolds(tap, kernel, quotient, k[dim := rest], dim);
  }

  lemma AllDecoded(tap: nat, kernel: Shape, remaining: nat, k: seq<nat>)
    requires |k| == |kernel| && tap < Size(kernel) && IsDecodedFrom(tap, kernel, remaining, k, 0)
    ensures k == Unflatten(tap, kernel) && Within(k, kernel) && Flatten(k, kernel) == tap
  {
    assert DecodedFacts(tap, kernel, remaining, k, 0, Unfolded);
    assert kernel[0..] == kernel && k[0..] == k;
    NothingRemains(remaining, Size(kernel), Flatten(k, kernel));
    FlattenBelow(k, kernel);
  }

  lemma NothingRemains(remaining: nat, size: nat, rest: nat)
    requires remaining * size + rest < size
    ensures remaining == 0
  {
    if remaining >= 1 {
      TimesMonotone(1, remaining, size);
    }
  }

  lemma DecodeStep(tap: nat, remaining: nat, s: Shape, c: seq<nat>)
    requires s != [] && s[0] > 0 && |c| == |s| - 1
    requires tap == remaining * Size(s[1..]) + Flatten(c, s[1..])
    ensures tap == remaining / s[0] * Size(s) + Flatten([remaining % s[0]] + c, s)
  {
    CarryOver(remaining, s[0], Size(s[1..]));
    var next := [remaining % s[0]] + c;
    assert next[1..] == c;
  }

  // Decoding meets every kernel position once.
  lemma DecodingIsBijective(kernel: Shape, k: seq<nat>, tap: nat)
    requires Within(k, kernel) && tap < Size(kernel)
    ensures Flatten(k, kernel) < Size(kernel)
    ensures Unflatten(tap, kernel) == k <==> tap == Flatten(k, kernel)
  {
    FlattenBelow(k, kernel);
    UnflattenWithin(tap, kernel);
  }

  // --- Slicing out a tap ----------------------------------------------------------------------

  function Starts(p: Plan, k: seq<nat>): (v: seq<nat>)
    requires |k| == |p.window.dilations| && |p.input| == |k| + 2
    ensures |v| == |p.input|
  {
    seq(|p.input|, d requires 0 <= d < |p.input| => if d < 2 then 0 else k[d - 2] * p.window.dilations[d - 2])
  }

  function Ends(p: Plan, k: seq<nat>): (v: seq<nat>)
    requires |k| == |p.window.dilations| == |p.window.strides| && |p.input| == |p.output| == |k| + 2
    requires 0 !in p.output
    ensures |v| == |p.input|
  {
    seq(|p.input|, d requires 0 <= d < |p.input| =>
      assert p.output[d] in p.output;
      if d < 2 then p.input[d] else Starts(p, k)[d] + (p.output[d] - 1) * p.window.strides[d - 2] + 1)
  }

  function Steps(p: Plan): (v: seq<nat>)
    requires |p.input| == |p.window.strides| + 2
    ensures |v| == |p.input|
  {
    seq(|p.input|, d requires 0 <= d < |p.input| => if d < 2 then 1 else p.window.strides[d - 2])
  }

  lemma PlanShapes(p: Plan)
    requires IsPlan(p)
    ensures 0 !in p.output && |p.input| == |p.output| == |p.window.kernel| + 2
    ensures 0 !in Steps(p)
  {
    assert PlanFacts(p, Unfolded);
    forall d | 0 <= d < |p.output| ensures p.output[d] != 0 {
      assert d < 2 ==> p.input[d] in p.input;
      if d >= 2 {
        assert FitsAlong(p.window, p.input, p.output, d - 2);
      }
    }
    forall d | 0 <= d < |Steps(p)| ensures Steps(p)[d] != 0 {
      assert d >= 2 ==> p.window.strides[d - 2] in p.window.strides;
    }
  }

  method BuildSliceParameters(p: Plan, k: seq<nat>)
    returns (starts: seq<nat>, ends: seq<nat>, axes: seq<int>, steps: seq<nat>)
    requires IsPlan(p) && |k| == |p.window.kernel| && 0 !in p.output && |p.input| == |p.output| == |k| + 2
    ensures starts == Starts(p, k) && ends == Ends(p, k) && axes == AllAxes(|p.input|) && steps == Steps(p)
  {
    var rank := |p.input|;
    starts, ends, steps := seq(rank, _ => 0), p.input, seq(rank, _ => 1);
    axes := seq(rank, d => d);
    for dim := 0 to |k|
      invariant |starts| == |ends| == |steps| == rank
      invariant forall d :: 0 <= d < rank && d < dim + 2 ==>
          starts[d] == Starts(p, k)[d] && ends[d] == Ends(p, k)[d] && steps[d] == Steps(p)[d]
      invariant forall d :: dim + 2 <= d < rank ==> starts[d] == 0 && ends[d] == p.input[d] && steps[d] == 1
    {
      var t := dim + 2;
      assert p.output[t] in p.output;
      starts := starts[t := k[dim] * p.window.dilations[dim]];
      ends := ends[t := starts[t] + (p.output[t] - 1) * p.window.strides[dim] + 1];
      steps := steps[t := p.window.strides[dim]];
    }
  }

  // The slice of a tap has the shape of the pool's result and holds, at every position, the
  // element the window there reads for this tap.
  lemma SliceIsTap(p: Plan, x: Tensor, k: seq<nat>)
    requires IsPlan(p) && Within(k, p.window.kernel) && x.shape == p.input && WellFormed(x)
    ensures 0 !in p.output && |p.input| == |p.output| == |k| + 2 && 0 !in Steps(p)
    ensures forall d :: 0 <= d < |Steps(p)| ==> Steps(p)[d] > 0
    ensures var t := Sliced(x, Starts(p, k), Ends(p, k), Steps(p));
      && t.dtype == x.dtype && t.shape == p.output && |t.data| == Size(p.output)
      && forall i: nat :: i < Size(p.output) ==> Some(t.data[i]) == Tap(x, Unflatten(i, p.output), k, p.window)
  {
    PlanShapes(p);
    StepsArePositive(p);
    var starts, ends, steps := Starts(p, k), Ends(p, k), Steps(p);
    forall d | 0 <= d < |p.input| ensures SliceLength(p.input[d], starts[d], ends[d], steps[d]) == p.output[d] {
      SliceLengthIsOutput(p, k, d);
    }
    assert SliceShape(x.shape, starts, ends, steps) == p.output;
    var t := Sliced(x, starts, ends, steps);
    forall i: nat | i < Size(p.output) ensures Some(t.data[i]) == Tap(x, Unflatten(i, p.output), k, p.window) {
      UnflattenWithin(i, p.output);
      TapIsInside(p, x, k, Unflatten(i, p.output));
    }
  }

  lemma StepsArePositive(p: Plan)
    requires |p.input| == |p.window.strides| + 2 && 0 !in Steps(p)
    ensures forall d :: 0 <= d < |Steps(p)| ==> Steps(p)[d] > 0
  {
    forall d | 0 <= d < |Steps(p)| ensures Steps(p)[d] > 0 {
      assert Steps(p)[d] in Steps(p);
    }
  }

  lemma LastReadIsInside(p: Plan, k: seq<nat>, d: nat)
    requires IsPlan(p) && Within(k, p.window.kernel) && d < |k|
    ensures p.output[d + 2] > 0
    ensures (p.output[d + 2] - 1) * p.window.strides[d] + k[d] * p.window.dilations[d] < p.input[d + 2]
  {
    assert PlanFacts(p, Unfolded);
    assert FitsAlong(p.window, p.input, p.output, d);
    TimesMonotone(k[d], p.window.kernel[d] - 1, p.window.dilations[d]);
  }

  lemma SliceLengthIsOutput(p: Plan, k: seq<nat>, d: nat)
    requires IsPlan(p) && Within(k, p.window.kernel) && d < |p.input| && 0 !in p.output && 0 !in Steps(p)
    requires Steps(p)[d] > 0
    ensures SliceLength(p.input[d], Starts(p, k)[d], Ends(p, k)[d], Steps(p)[d]) == p.output[d]
  {
    assert PlanFacts(p, Unfolded);
    if d < 2 {
      assert p.input[d] in p.input;
    } else {
      LastReadIsInside(p, k, d - 2);
      var n, s := p.output[d] - 1, p.window.strides[d - 2];
      MultipleHasNoRemainder(n, s);
    }
  }

  lemma TapIsInside(p: Plan, x: Tensor, k: seq<nat>, o: seq<nat>)
    requires IsPlan(p) && Within(k, p.window.kernel) && x.shape == p.input && WellFormed(x) && Within(o, p.output)
    ensures Tap(x, o, k, p.window).Some?
    ensures SlicePosition(o, Starts(p, k), Steps(p)) == TapPosition(o, k, p.window)
  {
    assert PlanFacts(p, Unfolded);
    var position := TapPosition(o, k, p.window);
    forall d | 0 <= d < |o|
      ensures position[d] < p.input[d] && SlicePosition(o, Starts(p, k), Steps(p))[d] == position[d]
    {
      if d >= 2 {
        LastReadIsInside(p, k, d - 2);
        TimesMonotone(o[d], p.output[d] - 1, p.window.strides[d - 2]);
      }
    }
    assert SlicePosition(o, Starts(p, k), Steps(p)) == position;
    FlattenBelow(position, p.input);
  }
}
