/**
 * Two graphs the lowering of DequantizeLinear does not do justice to
 * (src/qdq_lowering.cc:955-1000, 1953-1955).
 */
module QdqExamples {
  import opened Options
  import opened TensorValues
  import opened Broadcasting
  import opened ParameterLayout
  import opened OnnxGraph
  import opened GraphRuns
  import opened LoweredNames
  import opened Drafts
  import opened Emission
  import opened Declarations
  import opened Following
  import opened QdqPolicy
  import opened QdqLowering
  import opened QdqRuns
  import opened QdqPass
  import opened QdqComputedZero
  import BoolBridge

  // --- A scale of higher rank than the tensor -------------------------------------------------

  function ScalingNode(): (node: Node) {
    Node(DequantizeLinear, Main, "", ["x", "scale"], ["y"], NoAttributes, "")
  }

  function ScalingGraph(scale: Tensor): (g: Graph) {
    Graph([ScalingNode()], map["scale" := scale], map["x" := ValueInfo(Int32, None)], {"x"}, {"y"})
  }

  // The nodes that stand for it.
  function ScalingNodes(n: Naming): (nodes: seq<Node>) {
    var node := ScalingNode();
    var wide, diff := n.name("y", "input_cast", 2), n.name("y", "diff_cast", 3);
    [HelperNode(node, Cast, Some(Int64), n.name("y", "cast_input", 2), ["x"], wide),
     HelperNode(node, Cast, Some(Float), n.name("y", "cast_diff", 3), [wide], diff),
     HelperNode(node, Mul, None, n.name("y", "mul", 4), [diff, "scale"], "y")]
  }

  function HelperNaming(): (n: Naming) {
    NamingOf(QDQ_PREFIX)
  }

  predicate IsSingleScale(scale: Tensor) {
    IsSingle(scale.shape) && |scale.data| == Size(scale.shape) && scale.dtype.Float? && IsPositiveScale(scale)
  }

  lemma ScalingIsDecided(scale: Tensor)
    requires IsSingleScale(scale)
    ensures var g, node, s := ScalingGraph(scale), ScalingNode(), Site(scale, None, Int32, None, None);
      && SiteOf(node, g.infos, g.inits) == Some(s) && ShouldLower(g, 0, s) && FoldingAt(node, s, g.inits).NotFolded?
      && LayoutOf(s, scale, node.attributes) == Some(AsIs)
  {
  }

  lemma ScalingArithmetic(d: Draft, s: Site)
    requires d.uid == 0 && s.input.Int32? && s.scale.dtype.Float? && s.zero.None?
    requires LayoutOf(s, s.scale, ScalingNode().attributes) == Some(AsIs)
    ensures LoweredDequantize(d, ScalingNode(), s)
         == d.(uid := 4, nodes := d.nodes + ScalingNodes(d.naming))
  {
    var node, d1 := ScalingNode(), d.Numbered();
    assert HandScale(d, node, s, Float) == Emitted(d1, "scale");
    assert Prepare(d, node, s, Float) == Prepared(d1, "scale", None);
    ScalingEmission(d1);
    assert d1.(uid := 4, nodes := d1.nodes + ScalingNodes(d.naming)) == d.(uid := 4, nodes := d.nodes + ScalingNodes(d.naming));
  }

  lemma ScalingEmission(d: Draft)
    requires d.uid == 1
    ensures Dequantizing(d, ScalingNode(), Int64, Float, "scale", None)
         == d.(uid := 4, nodes := d.nodes + ScalingNodes(d.naming))
  {
    var node, nodes := ScalingNode(), ScalingNodes(d.naming);
    var x := Applied(d, node, Cast, Some(Int64), "cast_input", "input_cast", ["x"]);
    assert x == Emitted(d.(uid := 2, nodes := d.nodes + [nodes[0]]), d.naming.name("y", "input_cast", 2));
    var e := Applied(x.draft, node, Cast, Some(Float), "cast_diff", "diff_cast", [x.name]);
    assert e == Emitted(d.(uid := 3, nodes := d.nodes + [nodes[0]] + [nodes[1]]), d.naming.name("y", "diff_cast", 3));
    assert d.nodes + [nodes[0]] + [nodes[1]] + [nodes[2]] == d.nodes + nodes;
  }

  lemma ScalingIsLowered(scale: Tensor)
    requires IsSingleScale(scale)
    ensures LoweredGraph(ScalingGraph(scale)).nodes == ScalingNodes(HelperNaming())
    ensures LoweredGraph(ScalingGraph(scale)).inits == map["scale" := scale]
  {
    var g, s := ScalingGraph(scale), Site(scale, None, Int32, None, None);
    var d := PassStart(g, NamingOf(QDQ_PREFIX));
    ScalingIsDecided(scale);
    ScalingArithmetic(d, s);
    assert AfterQdqNodes(d, g, 0) == d;
    assert AfterQdqNodes(d, g, 1) == AfterQdqNode(d, g, 0);
  }

  lemma HelperNamesApart(suffix: string, id: nat)
    ensures HelperNaming().name("y", suffix, id) !in {"", "x", "scale", "y"}
  {
    var name := HelperNaming().name("y", suffix, id);
    assert name[0] == '_' && QDQ_PREFIX[0] == '_';
  }

  // What the three nodes make of x.
  function ScaledByCode(x: Tensor, scale: Tensor): (t: Option<Tensor>) {
    Zipped(Fitted(Multiplying(), Float), Casted(Casted(x, Int64), Float), scale)
  }

  lemma ScalingNodesRun(ops: Ops, byCode: bool, env: Env, x: Tensor, scale: Tensor)
    requires Conforms(ops, byCode) && BoundTo(env, "x", x) && BoundTo(env, "scale", scale)
    ensures var r := RunNodes(ops, ScalingNodes(HelperNaming()), env);
      && (r.Some? <==> ScaledByCode(x, scale).Some?)
      && (r.Some? ==> "y" in r.value && r.value["y"] == ScaledByCode(x, scale).value)
  {
    var nodes := ScalingNodes(HelperNaming());
    var a, b := HelperNaming().name("y", "input_cast", 2), HelperNaming().name("y", "diff_cast", 3);
    HelperNamesApart("input_cast", 2);
    HelperNamesApart("diff_cast", 3);
    var wide := Casted(x, Int64);
    var env1 := env[a := wide];
    var diff := Casted(wide, Float);
    var env2 := env1[b := diff];
    BoolBridge.CastRuns(ops, byCode, nodes[0], env, "x", a, Int64, wide);
    BoolBridge.CastRuns(ops, byCode, nodes[1], env1, a, b, Float, diff);
    ProductRuns(ops, byCode, nodes[2], env2, b, diff, scale);
    assert RunTo(ops, nodes, env, 0) == Some(env);
    assert RunTo(ops, nodes, env, 1) == Some(env1);
    assert RunTo(ops, nodes, env, 2) == Some(env2);
  }

  lemma ProductRuns(ops: Ops, byCode: bool, node: Node, env: Env, a: string, diff: Tensor, scale: Tensor)
    requires Conforms(ops, byCode) && node.op.Mul? && InMainDomain(node) && node.inputs == [a, "scale"]
    requires node.outputs == ["y"] && BoundTo(env, a, diff) && BoundTo(env, "scale", scale)
    ensures var t := Zipped(Fitted(Multiplying(), diff.dtype), diff, scale);
      RunNode(ops, node, env) == if t.Some? then Some(env["y" := t.value]) else None
  {
    TwoArgs(node, env, a, "scale");
    assert GivesBinary(ops, node, [Some(diff), Some(scale)]);
    var t := Zipped(Fitted(Multiplying(), diff.dtype), diff, scale);
    if t.Some? {
      BindOne(env, "y", t.value);
    }
  }

  // With a scale of a single value the lowered graph gives a tensor of the input's shape if and
  // only if the scale has no more dimensions than the input. A scalar with a scale of shape [1] is
  // the least case in which it does not.
  lemma SingleScaleKeepsShape(ops: Ops, byCode: bool, x: Tensor, scale: Tensor)
    requires Conforms(ops, byCode) && IsSingleScale(scale) && x.dtype.Int32? && |x.data| == Size(x.shape)
    ensures var r := Run(ops, LoweredGraph(ScalingGraph(scale)), map["x" := x]);
      (r.Some? && "y" in r.value && r.value["y"].shape == x.shape) <==> |scale.shape| <= |x.shape|
  {
    ScalingIsLowered(scale);
    ScalingNodesRun(ops, byCode, map["x" := x] + map["scale" := scale], x, scale);
    SingleValueKeepsShape(x.shape, scale.shape);
  }

  lemma ScalarComesOutAsVector(ops: Ops, byCode: bool, x: Tensor, scale: Tensor)
    requires Conforms(ops, byCode) && x.dtype.Int32? && x.shape == [] && |x.data| == 1
    requires IsSingleScale(scale) && scale.shape == [1]
    ensures var r := Run(ops, LoweredGraph(ScalingGraph(scale)), map["x" := x]);
      r.Some? && "y" in r.value && r.value["y"].shape == [1]
  {
    ScalingIsLowered(scale);
    ScalingNodesRun(ops, byCode, map["x" := x] + map["scale" := scale], x, scale);
    OneDimensionMore(x.shape, scale.shape);
    assert Size(x.shape) == 1;
  }

  lemma OneDimensionMore(none: Shape, one: Shape)
    requires none == [] && one == [1]
    ensures BroadcastShape(none, one) == Some([1])
  {
    assert one[1..] == none;
    assert BroadcastShape(none, none) == Some([]);
    assert [one[0]] + [] == one;
  }

  // --- A zero point that is computed ----------------------------------------------------------

  function ShiftingNode(): (node: Node) {
    Node(DequantizeLinear, Main, "", ["x", "scale", "zero"], ["y"], NoAttributes, "")
  }

  function CopyingNode(): (node: Node) {
    Node(Identity, Main, "", ["shift"], ["zero"], NoAttributes, "")
  }

  // The zero point is a copy of an input of the graph.
  function ShiftingGraph(scale: Tensor): (g: Graph) {
    Graph([CopyingNode(), ShiftingNode()], map["scale" := scale], map["x" := ValueInfo(Int32, None)],
          {"x", "shift"}, {"y"})
  }

  lemma ShiftingIsDecided(scale: Tensor)
    requires IsSingleScale(scale)
    ensures var g, node, s := ShiftingGraph(scale), ShiftingNode(), Site(scale, None, Int32, None, None);
      && SiteOf(node, g.infos, g.inits) == Some(s) && ShouldLower(g, 1, s)
      && LayoutOf(s, scale, node.attributes) == Some(AsIs) && SiteOf(CopyingNode(), g.infos, g.inits).None?
  {
  }

  lemma ShiftingIsLowered(scale: Tensor)
    requires IsSingleScale(scale)
    ensures LoweredGraph(ShiftingGraph(scale)).nodes == [CopyingNode()] + ScalingNodes(HelperNaming())
    ensures LoweredGraph(ShiftingGraph(scale)).inits == map["scale" := scale]
  {
    var g := ShiftingGraph(scale);
    var d := PassStart(g, NamingOf(QDQ_PREFIX));
    CopyingStep(d, scale);
    ShiftingStep(d.WithNode(CopyingNode()), scale);
    TwoSteps(d, g);
  }

  lemma TwoSteps(d: Draft, g: Graph)
    requires |g.nodes| == 2 && MakesOne(g.nodes[0]) && MakesOne(g.nodes[1])
    ensures AfterQdqNodes(d, g, 2) == AfterQdqNode(AfterQdqNode(d, g, 0), g, 1)
  {
    assert AfterQdqNodes(d, g, 0) == d;
    assert AfterQdqNodes(d, g, 1) == AfterQdqNode(d, g, 0);
  }

  lemma CopyingStep(d: Draft, scale: Tensor)
    requires IsSingleScale(scale)
    ensures AfterQdqNode(d, ShiftingGraph(scale), 0) == d.WithNode(CopyingNode())
  {
    ShiftingIsDecided(scale);
  }

  lemma ShiftingStep(d: Draft, scale: Tensor)
    requires IsSingleScale(scale) && d.uid == 0
    ensures AfterQdqNode(d, ShiftingGraph(scale), 1) == d.(uid := 4, nodes := d.nodes + ScalingNodes(d.naming))
  {
    var g, node, s := ShiftingGraph(scale), ShiftingNode(), Site(scale, None, Int32, None, None);
    ShiftingIsDecided(scale);
    assert WithoutZero(node) == ScalingNode();
    SameLowering(d, node, s, g.inits);
    ScalingArithmetic(d, s);
  }

  lemma CopyRuns(ops: Ops, byCode: bool, env: Env, shift: Tensor)
    requires Conforms(ops, byCode) && BoundTo(env, "shift", shift)
    ensures RunNode(ops, CopyingNode(), env) == Some(env["zero" := shift])
  {
    OneArg(CopyingNode(), env, "shift");
    assert GivesUnary(ops, CopyingNode(), [Some(shift)]);
    BindOne(env, "zero", shift);
  }

  lemma AfterCopy(ops: Ops, byCode: bool, rest: seq<Node>, env: Env, shift: Tensor, n: nat)
    requires Conforms(ops, byCode) && BoundTo(env, "shift", shift) && n <= |rest|
    ensures RunTo(ops, [CopyingNode()] + rest, env, n + 1) == RunTo(ops, rest, env["zero" := shift], n)
    decreases n
  {
    var nodes := [CopyingNode()] + rest;
    if n == 0 {
      CopyRuns(ops, byCode, env, shift);
      assert RunTo(ops, nodes, env, 0) == Some(env);
    } else {
      AfterCopy(ops, byCode, rest, env, shift, n - 1);
      assert nodes[n] == rest[n - 1];
    }
  }

  function Scalar(t: DType, n: Num): (s: Tensor) {
    Tensor(t, [], [n])
  }

  // Reading the zero point z makes v - z of v.
  lemma ShiftingRuns(ops: Ops, byCode: bool, v: int, z: int)
    requires Conforms(ops, byCode)
    ensures var given := map["x" := Scalar(Int32, Fin(v as real)), "shift" := Scalar(Int32, Fin(z as real))];
      var r := Run(ops, ShiftingGraph(Scalar(Float, Fin(1.0))), given);
      r.Some? && "y" in r.value && r.value["y"] == Scalar(Float, Fin((v - z) as real))
  {
    var x, shift, scale := Scalar(Int32, Fin(v as real)), Scalar(Int32, Fin(z as real)), Scalar(Float, Fin(1.0));
    var g, env := ShiftingGraph(scale), map["x" := x, "shift" := shift, "scale" := scale];
    assert map["x" := x, "shift" := shift] + g.inits == env;
    AfterCopy(ops, byCode, [ShiftingNode()], env, shift, 1);
    assert g.nodes == [CopyingNode()] + [ShiftingNode()];
    ShiftedScalar(v, z, x, scale, shift);
    var before := env["zero" := shift];
    assert RunTo(ops, [ShiftingNode()], before, 0) == Some(before);
    ShiftingNodeRuns(ops, byCode, before, x, scale, shift);
  }

  lemma ShiftedScalar(v: int, z: int, x: Tensor, scale: Tensor, shift: Tensor)
    requires x == Scalar(Int32, Fin(v as real)) && shift == Scalar(Int32, Fin(z as real)) && scale == Scalar(Float, Fin(1.0))
    ensures Dequantized(NoAttributes, x, scale, Some(shift)) == Scalar(Float, Fin((v - z) as real))
  {
    var t := Dequantized(NoAttributes, x, scale, Some(shift));
    assert Size([]) == 1;
    assert t.data == [Fin((v - z) as real)];
  }

  lemma ShiftingNodeRuns(ops: Ops, byCode: bool, env: Env, x: Tensor, scale: Tensor, zero: Tensor)
    requires Conforms(ops, byCode) && BoundTo(env, "x", x) && BoundTo(env, "scale", scale) && BoundTo(env, "zero", zero)
    requires x.dtype.Int32? && zero.dtype.Int32? && scale.dtype.Float? && x.shape == scale.shape == zero.shape == []
    requires |x.data| == |scale.data| == |zero.data| == 1
    ensures RunNode(ops, ShiftingNode(), env) == Some(env["y" := Dequantized(NoAttributes, x, scale, Some(zero))])
  {
    var node := ShiftingNode();
    assert GivesQdq(ops, byCode, node, ArgsOf(node, env));
    OneResult(ops, node, env, Dequantized(NoAttributes, x, scale, Some(zero)));
  }

  lemma ScalarScaled(v: int, x: Tensor, scale: Tensor)
    requires x == Scalar(Int32, Fin(v as real)) && scale == Scalar(Float, Fin(1.0)) && MinOf(Int32) <= v <= MaxOf(Int32)
    ensures ScaledByCode(x, scale) == Some(Scalar(Float, Fin(v as real)))
  {
    ConvertedKeeps(Fin(v as real), Int64);
    var diff := Casted(Casted(x, Int64), Float);
    assert diff.data == [Fin(v as real)] && Size([]) == 1;
    var t := ScaledByCode(x, scale);
    assert BroadcastShape(diff.shape, scale.shape) == Some([]);
    ElementOfSelf(diff, 0);
    ElementOfSelf(scale, 0);
    assert t.value.data == [Fin(v as real)];
  }

  lemma LoweredShiftingRuns(ops: Ops, byCode: bool, v: int, shift: Tensor)
    requires Conforms(ops, byCode) && MinOf(Int32) <= v <= MaxOf(Int32)
    ensures var given := map["x" := Scalar(Int32, Fin(v as real)), "shift" := shift];
      var r := Run(ops, LoweredGraph(ShiftingGraph(Scalar(Float, Fin(1.0)))), given);
      r.Some? && "y" in r.value && r.value["y"] == Scalar(Float, Fin(v as real))
  {
    var x, scale := Scalar(Int32, Fin(v as real)), Scalar(Float, Fin(1.0));
    IsScalarScale(scale);
    ScalarScaled(v, x, scale);
    LoweredIgnoresShift(ops, byCode, x, shift, scale, Scalar(Float, Fin(v as real)));
  }

  // Whatever the zero point, it is not read.
  lemma LoweredIgnoresShift(ops: Ops, byCode: bool, x: Tensor, shift: Tensor, scale: Tensor, t: Tensor)
    requires Conforms(ops, byCode) && IsSingleScale(scale) && ScaledByCode(x, scale) == Some(t)
    ensures var r := Run(ops, LoweredGraph(ShiftingGraph(scale)), map["x" := x, "shift" := shift]);
      r.Some? && "y" in r.value && r.value["y"] == t
  {
    ShiftingIsLowered(scale);
    var env := map["x" := x, "shift" := shift] + map["scale" := scale];
    var rest := ScalingNodes(HelperNaming());
    AfterCopy(ops, byCode, rest, env, shift, |rest|);
    ScalingNodesRun(ops, byCode, env["zero" := shift], x, scale);
  }

  lemma IsScalarScale(scale: Tensor)
    requires scale == Scalar(Float, Fin(1.0))
    ensures IsSingleScale(scale)
  {
    assert Size([]) == 1;
  }

  // The lowered graph makes v of v, whatever z is: it is right exactly if z is 0. With v = 5 and
  // z = 2 it gives 5 where the graph gives 3.
  lemma ComputedZeroIsLost(ops: Ops, byCode: bool, v: int, z: int)
    requires Conforms(ops, byCode) && MinOf(Int32) <= v <= MaxOf(Int32)
    ensures var given := map["x" := Scalar(Int32, Fin(v as real)), "shift" := Scalar(Int32, Fin(z as real))];
      var g := ShiftingGraph(Scalar(Float, Fin(1.0)));
      var r, lowered := Run(ops, g, given), Run(ops, LoweredGraph(g), given);
      && r.Some? && "y" in r.value && r.value["y"] == Scalar(Float, Fin((v - z) as real))
      && lowered.Some? && "y" in lowered.value && lowered.value["y"] == Scalar(Float, Fin(v as real))
  {
    ShiftingRuns(ops, byCode, v, z);
    LoweredShiftingRuns(ops, byCode, v, Scalar(Int32, Fin(z as real)));
  }
}
