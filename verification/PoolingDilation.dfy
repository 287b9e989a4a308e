/**
 * Taking a dilated pool apart into one Slice per tap and a chain of Max, or of Add and a Div
 * (src/pooling_dilation_compatibility.cc:495-600).
 */
module PoolingDilation {
  import opened Options
  import opened Hiding
  import opened TensorValues
  import opened Broadcasting
  import opened PoolMeaning
  import opened OnnxGraph
  import opened GraphRuns
  import opened LoweredNames
  import opened Drafts
  import opened PoolPlans

  const POOL_PREFIX := "__trt_rtx_pool_dilation_lowered_"

  function IntVector(v: seq<int>): (t: Tensor)
    ensures Integers(t) == Some(v)
  {
    var t := Tensor(Int64, [|v|], seq(|v|, i requires 0 <= i < |v| => Fin(v[i] as real)));
    assert Integers(t).value == v;
    t
  }

  function PoolName(naming: Naming, node: Node, suffix: string, uid: nat): (name: string)
    requires |node.outputs| == 1
  {
    naming.name(node.outputs[0], suffix, uid)
  }

  function Helper(node: Node, op: Op, name: string, inputs: seq<string>, output: string): (n: Node)
    ensures n.doc == node.doc && n.outputs == [output] && n.inputs == inputs
  {
    Node(op, Main, name, inputs, [output], NoAttributes, node.doc)
  }

  // --- Taps -----------------------------------------------------------------------------------

  // The parameters of one slice.
  datatype Cut = Cut(starts: Tensor, ends: Tensor, axes: Tensor, steps: Tensor)

  function CutOf(p: Plan, tap: nat): (c: Cut)
    requires IsPlan(p) && tap < p.taps
  {
    PlanShapes(p);
    var k := TapCoordinates(p, tap);
    Cut(IntVector(Starts(p, k)), IntVector(Ends(p, k)), IntVector(AllAxes(|p.input|)), IntVector(Steps(p)))
  }

  function CutsOf(p: Plan): (cuts: seq<Cut>)
    requires IsPlan(p)
    ensures |cuts| == p.taps && forall i :: 0 <= i < p.taps ==> cuts[i] == CutOf(p, i)
  {
    seq(p.taps, i requires 0 <= i < p.taps => CutOf(p, i))
  }

  function TapName(naming: Naming, node: Node, taps: nat, uid: nat): (name: string)
    requires |node.outputs| == 1
  {
    if taps == 1 then node.outputs[0] else PoolName(naming, node, "tap_output", uid)
  }

  datatype SliceNames = SliceNames(starts: string, ends: string, axes: string, steps: string, output: string)

  function NamesOfSlice(naming: Naming, node: Node, uid: nat): (n: SliceNames)
    requires |node.outputs| == 1
  {
    SliceNames(PoolName(naming, node, "tap_starts", uid), PoolName(naming, node, "tap_ends", uid),
               PoolName(naming, node, "tap_axes", uid), PoolName(naming, node, "tap_steps", uid),
               PoolName(naming, node, "tap_output", uid))
  }

  function WithCut(d: Draft, n: SliceNames, c: Cut): (d': Draft)
    ensures d'.naming == d.naming && d'.uid == d.uid
  {
    d.WithInit(n.starts, c.starts).WithInit(n.ends, c.ends).WithInit(n.axes, c.axes).WithInit(n.steps, c.steps)
  }

  function SliceNode(naming: Naming, node: Node, taps: nat, n: SliceNames, uid: nat): (slice: Node)
    requires |node.inputs| == |node.outputs| == 1
  {
    Helper(node, Slice, PoolName(naming, node, "tap_slice", uid),
           [node.inputs[0], n.starts, n.ends, n.axes, n.steps], TapName(naming, node, taps, uid))
  }

  function EmitTap(d: Draft, node: Node, taps: nat, c: Cut): (d': Draft)
    requires |node.inputs| == |node.outputs| == 1
    ensures d'.naming == d.naming && d'.uid == d.uid + 1
  {
    var n := NamesOfSlice(d.naming, node, d.uid + 1);
    WithCut(d.Numbered(), n, c).WithNode(SliceNode(d.naming, node, taps, n, d.uid + 1))
  }

  function EmitTaps(d: Draft, node: Node, cuts: seq<Cut>, n: nat): (d': Draft)
    requires |node.inputs| == |node.outputs| == 1 && n <= |cuts|
    ensures d'.naming == d.naming && d'.uid == d.uid + n
  {
    if n == 0 then d else EmitTap(EmitTaps(d, node, cuts, n - 1), node, |cuts|, cuts[n - 1])
  }

  // --- Chains ---------------------------------------------------------------------------------

  // One link: what has been combined and the next tap become `name`.
  function Chained(d: Draft, node: Node, op: Op, suffix: string, combined: string, tap: string, name: string): (d': Draft)
    ensures d'.naming == d.naming && d'.uid == d.uid
  {
    d.WithNode(Helper(node, op, name + suffix, [combined, tap], name))
  }

  // What the first n + 1 taps have been combined into; `uid` is the number before the first tap.
  function SumName(naming: Naming, node: Node, taps: nat, uid: nat, n: nat): (name: string)
    requires |node.outputs| == 1
  {
    if n == 0 then TapName(naming, node, taps, uid + 1) else PoolName(naming, node, "sum", uid + taps + n)
  }

  function EmitSums(d: Draft, node: Node, taps: nat, uid: nat, n: nat): (d': Draft)
    requires |node.outputs| == 1
    ensures d'.naming == d.naming && d'.uid == d.uid + n
  {
    if n == 0 then d
    else
      var before := EmitSums(d, node, taps, uid, n - 1).Numbered();
      Chained(before, node, Add, "_add", SumName(d.naming, node, taps, uid, n - 1),
              TapName(d.naming, node, taps, uid + n + 1), SumName(d.naming, node, taps, uid, n))
  }

  function Divisor(dtype: DType, taps: nat): (t: Tensor) {
    Tensor(dtype, [], [Fin(taps as real)])
  }

  function EmitMean(d: Draft, node: Node, dtype: DType, taps: nat, uid: nat): (d': Draft)
    requires |node.outputs| == 1 && taps > 0
    ensures d'.naming == d.naming && d'.uid == d.uid + 2
  {
    var name := PoolName(d.naming, node, "divisor", d.uid + 1);
    d.Numbered().WithInit(name, Divisor(dtype, taps)).Numbered()
     .WithNode(Helper(node, Div, PoolName(d.naming, node, "average", d.uid + 2),
                      [SumName(d.naming, node, taps, uid, taps - 1), name], node.outputs[0]))
  }

  // The last link of the chain of maxima carries the pool's own name.
  function MaxName(naming: Naming, node: Node, taps: nat, uid: nat, n: nat): (name: string)
    requires |node.outputs| == 1
  {
    if n == 0 then TapName(naming, node, taps, uid + 1)
    else if n + 1 == taps then node.outputs[0]
    else PoolName(naming, node, "max", uid + taps + n)
  }

  function EmitMaxima(d: Draft, node: Node, taps: nat, uid: nat, n: nat): (d': Draft)
    requires |node.outputs| == 1 && n < taps
    ensures d'.naming == d.naming && d'.uid == d.uid + if n + 1 == taps && n > 0 then n - 1 else n
  {
    if n == 0 then d
    else
      var before := EmitMaxima(d, node, taps, uid, n - 1);
      Chained(if n + 1 == taps then before else before.Numbered(), node, Max, "_max",
              MaxName(d.naming, node, taps, uid, n - 1), TapName(d.naming, node, taps, uid + n + 1),
              MaxName(d.naming, node, taps, uid, n))
  }

  function LoweredCuts(d: Draft, node: Node, cuts: seq<Cut>, isAverage: bool, dtype: DType): (d': Draft)
    requires |node.inputs| == |node.outputs| == 1 && cuts != []
    ensures d'.naming == d.naming
  {
    var sliced := EmitTaps(d, node, cuts, |cuts|);
    if |cuts| == 1 then sliced
    else if isAverage then EmitMean(EmitSums(sliced, node, |cuts|, d.uid, |cuts| - 1), node, dtype, |cuts|, d.uid)
    else EmitMaxima(sliced, node, |cuts|, d.uid, |cuts| - 1)
  }

  function LoweredPool(d: Draft, node: Node, p: Plan): (d': Draft)
    requires |node.inputs| == |node.outputs| == 1 && IsPlan(p)
    ensures d'.naming == d.naming
  {
    LoweredCuts(d, node, CutsOf(p), p.isAverage, p.dtype)
  }

  // --- The pass -------------------------------------------------------------------------------

  lemma PlansArePlans(node: Node, infos: map<string, ValueInfo>, inits: map<string, Tensor>)
    requires PlanFor(node, infos, inits).Some?
    ensures IsPlan(PlanFor(node, infos, inits).value) && IsPoolNode(node)
    ensures PlanFor(node, infos, inits).value.taps <= MAX_LOWERED_TAPS
    ensures 0 !in PlanFor(node, infos, inits).value.window.kernel
  {
    SizeIsPositive(PlanFor(node, infos, inits).value.window.kernel);
  }

  function AfterNode(d: Draft, node: Node, infos: map<string, ValueInfo>, inits: map<string, Tensor>): (d': Draft) {
    var p := PlanFor(node, infos, inits);
    if p.None? then d.WithNode(node)
    else
      PlansArePlans(node, infos, inits);
      LoweredPool(d, node, p.value)
  }

  function AfterNodes(d: Draft, nodes: seq<Node>, infos: map<string, ValueInfo>, inits: map<string, Tensor>, n: nat)
    : (d': Draft)
    requires n <= |nodes|
  {
    if n == 0 then d else AfterNode(AfterNodes(d, nodes, infos, inits, n - 1), nodes[n - 1], infos, inits)
  }

  method TryLowerPoolNode(d: Draft, node: Node, p: Plan) returns (d': Draft)
    requires IsPoolNode(node) && IsPlan(p) && 0 !in p.window.kernel
    ensures d' == LoweredPool(d, node, p)
  {
    var outputs;
    d', outputs := SliceTaps(d, node, p);
    if p.taps > 1 {
      if p.isAverage {
        d' := AddUp(d', node, p.dtype, outputs, d.uid);
      } else {
        d' := TakeMaxima(d', node, outputs, d.uid);
      }
    }
  }

  ghost predicate AreTapNames(outputs: seq<string>, naming: Naming, node: Node, taps: nat, uid: nat)
    requires |node.outputs| == 1
  {
    forall j :: 0 <= j < |outputs| ==> outputs[j] == TapName(naming, node, taps, uid + j + 1)
  }

  method SliceTaps(d: Draft, node: Node, p: Plan) returns (d': Draft, outputs: seq<string>)
    requires IsPoolNode(node) && IsPlan(p) && 0 !in p.window.kernel
    ensures d' == EmitTaps(d, node, CutsOf(p), p.taps)
    ensures |outputs| == p.taps && AreTapNames(outputs, d.naming, node, p.taps, d.uid)
  {
    outputs := [];
    d' := d;
    ghost var cuts := CutsOf(p);
    for tap := 0 to p.taps
      invariant d' == EmitTaps(d, node, cuts, tap) && d'.naming == d.naming && d'.uid == d.uid + tap
      invariant |outputs| == tap && AreTapNames(outputs, d.naming, node, p.taps, d.uid)
    {
      var output;
      assert cuts[tap] == CutOf(p, tap);
      d', output := SliceTap(d', node, p, tap);
      OneMoreCut(d, node, cuts, tap);
      OneMoreTapName(outputs, output, d.naming, node, p.taps, d.uid, d'.uid);
      outputs := outputs + [output];
    }
  }

  lemma OneMoreCut(d: Draft, node: Node, cuts: seq<Cut>, tap: nat)
    requires |node.inputs| == |node.outputs| == 1 && tap < |cuts|
    ensures EmitTaps(d, node, cuts, tap + 1) == EmitTap(EmitTaps(d, node, cuts, tap), node, |cuts|, cuts[tap])
  {
  }

  lemma OneMoreTapName(outputs: seq<string>, output: string, naming: Naming, node: Node, taps: nat, uid: nat, id: nat)
    requires |node.outputs| == 1 && AreTapNames(outputs, naming, node, taps, uid)
    requires id == uid + |outputs| + 1 && output == TapName(naming, node, taps, id)
    ensures AreTapNames(outputs + [output], naming, node, taps, uid)
  {
  }

  method SliceTap(d: Draft, node: Node, p: Plan, tap: nat) returns (d': Draft, output: string)
    requires IsPoolNode(node) && IsPlan(p) && 0 !in p.window.kernel && tap < p.taps
    ensures d' == EmitTap(d, node, p.taps, CutOf(p, tap)) && d'.naming == d.naming && d'.uid == d.uid + 1
    ensures output == TapName(d.naming, node, p.taps, d'.uid)
  {
    PlanShapes(p);
    assert PlanFacts(p, Unfolded);
    var k := DecodeTapCoordinates(tap, p.window.kernel);
    var starts, ends, axes, steps := BuildSliceParameters(p, k);
    d' := d.Numbered();
    var n := NamesOfSlice(d.naming, node, d'.uid);
    output := if p.taps == 1 then node.outputs[0] else n.output;
    var name := PoolName(d.naming, node, "tap_slice", d'.uid);
    d' := d'.WithInit(n.starts, IntVector(starts));
    d' := d'.WithInit(n.ends, IntVector(ends));
    d' := d'.WithInit(n.axes, IntVector(axes));
    d' := d'.WithInit(n.steps, IntVector(steps));
    d' := d'.WithNode(Helper(node, Slice, name, [node.inputs[0], n.starts, n.ends, n.axes, n.steps], output));
  }

  method AddUp(sliced: Draft, node: Node, dtype: DType, outputs: seq<string>, ghost uid: nat) returns (d': Draft)
    requires |node.outputs| == 1 && |outputs| > 1 && AreTapNames(outputs, sliced.naming, node, |outputs|, uid)
    requires sliced.uid == uid + |outputs|
    ensures d' == EmitMean(EmitSums(sliced, node, |outputs|, uid, |outputs| - 1), node, dtype, |outputs|, uid)
  {
    d' := sliced;
    var combined := outputs[0];
    for i := 1 to |outputs|
      invariant d' == EmitSums(sliced, node, |outputs|, uid, i - 1)
      invariant combined == SumName(sliced.naming, node, |outputs|, uid, i - 1)
    {
      d' := d'.Numbered();
      var name := PoolName(sliced.naming, node, "sum", d'.uid);
      d' := Chained(d', node, Add, "_add", combined, outputs[i], name);
      combined := name;
    }
    d' := DivideTotal(d', node, dtype, |outputs|, combined, uid);
  }

  method DivideTotal(summed: Draft, node: Node, dtype: DType, taps: nat, total: string, ghost uid: nat)
    returns (d': Draft)
    requires |node.outputs| == 1 && taps > 0 && total == SumName(summed.naming, node, taps, uid, taps - 1)
    ensures d' == EmitMean(summed, node, dtype, taps, uid)
  {
    d' := summed.Numbered();
    var divisor := PoolName(d'.naming, node, "divisor", d'.uid);
    d' := d'.WithInit(divisor, Tensor(dtype, [], [Fin(taps as real)])).Numbered();
    var name := PoolName(d'.naming, node, "average", d'.uid);
    d' := d'.WithNode(Helper(node, Div, name, [total, divisor], node.outputs[0]));
  }

  method TakeMaxima(sliced: Draft, node: Node, outputs: seq<string>, ghost uid: nat) returns (d': Draft)
    requires |node.outputs| == 1 && |outputs| > 1 && AreTapNames(outputs, sliced.naming, node, |outputs|, uid)
    requires sliced.uid == uid + |outputs|
    ensures d' == EmitMaxima(sliced, node, |outputs|, uid, |outputs| - 1)
  {
    d' := sliced;
    var combined := outputs[0];
    for i := 1 to |outputs|
      invariant d' == EmitMaxima(sliced, node, |outputs|, uid, i - 1)
      invariant combined == MaxName(sliced.naming, node, |outputs|, uid, i - 1)
    {
      var isLast := i == |outputs| - 1;
      if !isLast {
        d' := d'.Numbered();
      }
      var name := if isLast then node.outputs[0] else PoolName(sliced.naming, node, "max", d'.uid);
      d' := Chained(d', node, Max, "_max", combined, outputs[i], name);
      combined := name;
    }
  }
}
