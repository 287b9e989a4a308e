/**
 * Lowering quantizing nodes keeps the meaning of the graph, with QuantizeLinear read as the
 * emitted arithmetic computes it (src/qdq_lowering.cc:1904-2289).
 */
module QdqPass {
  import opened Options
  import opened Hiding
  import opened TensorValues
  import opened Broadcasting
  import opened ParameterLayout
  import opened OnnxGraph
  import opened GraphRuns
  import opened LoweredNames
  import opened Drafts
  import opened Emission
  import opened Declarations
  import opened Following
  import opened QdqPolicy
  import opened QdqLowering
  import opened QdqCredit
  import opened QdqRuns
  import opened QdqEmission
  import opened QdqParameters

  // --- One node -------------------------------------------------------------------------------

  // What the run shows of the tensors the node reads: nothing contradicts what is known of them.
  ghost predicate IsReading(node: Node, s: Site, x: Tensor) {
    && WellFormed(x) && x.dtype == s.input && KnowsShape(s, x.shape)
    && WellFormed(s.scale) && IsPositiveScale(s.scale) && (s.zero.Some? ==> WellFormed(s.zero.value))
  }

  ghost predicate ParametersFit(node: Node, s: Site, x: Tensor) {
    && LayoutFits(x.shape, s.scale, node.attributes.axis, BlockOf(node.attributes))
    && (s.zero.Some? ==> ZeroFits(x.shape, s.zero.value, s.scale, node.attributes))
  }

  predicate IsSmallInteger(t: DType) {
    t in {Int8, UInt8, Int16, UInt16, Int32, UInt32}
  }

  lemma PromotedIsWellFormed(zero: Tensor, arithmetic: DType)
    requires WellFormed(zero) && IsSmallInteger(zero.dtype)
    ensures WellFormed(PromotedZero(zero, arithmetic)) && PromotedZero(zero, arithmetic).dtype in {Int32, Int64}
  {
    var p := PromotedZero(zero, arithmetic);
    forall i | 0 <= i < |p.data| ensures Holds(p.dtype, p.data[i]) {
      assert Holds(zero.dtype, zero.data[i]);
    }
  }

  lemma LinedUpIsWellFormed(s: Site, p: Tensor, a: Attributes)
    requires WellFormed(p) && IsStored(p) && LayoutOf(s, p, a).Some?
    ensures WellFormed(LinedUp(s, p, a)) && LinedUp(s, p, a).dtype == p.dtype
  {
    var h := LayoutOf(s, p, a).value;
    if h.Reshaped? {
      VectorPosition([0], p.shape);
      OnesExceptSize(s.rank.value, Axis(a.axis, s.rank.value), p.shape[0]);
    }
    HandedIsWellFormed(p, h, a);
  }

  // Cast to the type of the arithmetic, the zero point lines up.
  lemma ReadZeroLinesUp(s: Site, shape: Shape, a: Attributes, arithmetic: DType, math: DType)
    requires s.zero.Some? && WellFormed(s.zero.value) && IsSmallInteger(s.zero.value.dtype) && IsStored(s.zero.value)
    requires LayoutOf(s, s.zero.value, a).Some? && KnowsShape(s, shape)
    requires LayoutFits(shape, s.zero.value, a.axis, BlockOf(a)) && (IsFloating(math) || math.Int64?)
    ensures LinesUp(Casted(ReadZero(s, a, arithmetic), math), shape, s.zero.value, a)
  {
    var zero, p := s.zero.value, PromotedZero(s.zero.value, arithmetic);
    PromotionKeepsLayout(s, zero, a, arithmetic);
    PromotedIsWellFormed(zero, arithmetic);
    LinedUpIsWellFormed(s, p, a);
    var t := ReadZero(s, a, arithmetic);
    IntegersFit(t, math);
    CastIsRetyping(t, math);
    HandedLinesUp(s, shape, p, LayoutOf(s, p, a).value, a);
    assert p == zero.(dtype := p.dtype);
    PromotedLinesUp(t, shape, zero, a, p.dtype);
    RetypedLinesUp(t, shape, zero, a, math);
  }

  lemma ReadScaleLinesUp(s: Site, shape: Shape, a: Attributes, arithmetic: DType)
    requires IsStored(s.scale) && IsFloating(s.scale.dtype) && IsFloating(arithmetic)
    requires LayoutOf(s, s.scale, a).Some? && KnowsShape(s, shape)
    requires LayoutFits(shape, s.scale, a.axis, BlockOf(a))
    ensures LinesUp(ReadScale(s, a, arithmetic), shape, s.scale, a) && ReadScale(s, a, arithmetic).dtype == arithmetic
  {
    var t := LinedUp(s, s.scale, a);
    HandedLinesUp(s, shape, s.scale, LayoutOf(s, s.scale, a).value, a);
    CastIsRetyping(t, arithmetic);
    RetypedLinesUp(t, shape, s.scale, a, arithmetic);
  }

  // --- Dequantizing ---------------------------------------------------------------------------

  // The difference the emitted nodes form is the one ONNX asks for.
  lemma DifferenceIsRight(node: Node, s: Site, x: Tensor, zero: Option<string>, z: Tensor, math: DType)
    requires IsReading(node, s, x) && ParametersFit(node, s, x) && CanDequantize(x, s.zero) && CanPrepare(node, s)
    requires math == MathType(x.dtype, s.scale.dtype) && (zero.Some? <==> s.zero.Some?)
    requires s.zero.Some? ==> IsStored(s.zero.value) && z == ReadZero(s, node.attributes, s.scale.dtype)
    ensures IsDifference(math, x, zero, z, Differences(node.attributes, x, s.zero, math))
  {
    var a := node.attributes;
    IntegersFit(x, math);
    if s.zero.None? {
      NothingSubtracted(a, x, math);
    } else {
      ReadZeroLinesUp(s, x.shape, a, s.scale.dtype, math);
      DifferenceLink(a, x, s.zero.value, math, Casted(z, math));
    }
  }

  lemma ProductIsRight(node: Node, s: Site, x: Tensor, math: DType)
    requires IsReading(node, s, x) && ParametersFit(node, s, x) && CanPrepare(node, s) && IsStored(s.scale)
    requires math == MathType(x.dtype, s.scale.dtype)
    ensures IsLink(Multiplying(), s.scale.dtype,
                   Retyped(math, s.scale.dtype, Differences(node.attributes, x, s.zero, math)),
                   ReadScale(s, node.attributes, s.scale.dtype), Dequantized(node.attributes, x, s.scale, s.zero))
  {
    var a, t := node.attributes, s.scale.dtype;
    DifferenceCast(a, x, s.zero, math, t);
    ReadScaleLinesUp(s, x.shape, a, t);
    ProductLink(a, x, s.scale, s.zero, ReadScale(s, a, t));
  }

  lemma LoweredDequantizeIsGood(
    ops: Ops, own: set<string>, given: Env, d: Draft, env: Env, node: Node, s: Site, x: Tensor)
    returns (env': Env)
    requires RunsHelpers(ops) && Good(ops, own, given, d, env) && IsNaming(d.naming)
    requires |node.outputs| == 1 && IsOpen(own, env, node.outputs[0])
    requires |node.inputs| >= 2 && (s.zero.Some? ==> |node.inputs| > 2)
    requires BoundTo(env, node.inputs[0], x) && IsSiteBound(env, node, s) && IsReading(node, s, x)
    requires CanPrepare(node, s) && ParametersFit(node, s, x) && CanDequantize(x, s.zero)
    ensures Good(ops, own, given, LoweredDequantize(d, node, s), env') && Grows(own, node.outputs[0], env, env')
    ensures BoundTo(env', node.outputs[0], Dequantized(node.attributes, x, s.scale, s.zero))
  {
    var a, scale := node.attributes, s.scale.dtype;
    var math := MathType(s.input, scale);
    var e := PrepareIsGood(ops, own, given, d, env, node, s, scale);
    PreparedWhenPossible(d, node, s, scale);
    var p := Prepare(d, node, s, scale);
    KeepsBound(own, env, e, node.inputs[0], x);
    KeepsUnbound(own, env, e, node.outputs[0]);
    var z := if s.zero.Some? then ReadZero(s, a, scale) else x;
    DifferenceIsRight(node, s, x, p.zero, z, math);
    ProductIsRight(node, s, x, math);
    env' := DequantizingIsGood(ops, own, given, p.draft, e, node, math, scale, p.scale, p.zero, x, ReadScale(s, a,
        scale), z,
                               Differences(a, x, s.zero, math), Dequantized(a, x, s.scale, s.zero));
    KeepsThenGrows(own, node.outputs[0], env, e, env');
  }

  // --- Quantizing -----------------------------------------------------------------------------

  lemma LoweredQuantizeIsGood(
    ops: Ops, own: set<string>, given: Env, d: Draft, env: Env, node: Node, s: Site, x: Tensor)
    returns (env': Env)
    requires RunsHelpers(ops) && Good(ops, own, given, d, env) && IsNaming(d.naming)
    requires |node.outputs| == 1 && IsOpen(own, env, node.outputs[0])
    requires |node.inputs| >= 2 && (s.zero.Some? ==> |node.inputs| > 2)
    requires BoundTo(env, node.inputs[0], x) && IsSiteBound(env, node, s) && IsReading(node, s, x)
    requires CanPrepare(node, s) && ParametersFit(node, s, x)
    requires ShouldLowerQuantize(s.zero, OutputTypeOf(node.attributes, s.zero))
    ensures Good(ops, own, given, LoweredQuantize(d, node, s), env') && Grows(own, node.outputs[0], env, env')
    ensures BoundTo(env', node.outputs[0], Quantized(node.attributes, x, s.scale, s.zero, true))
  {
    var a, zero := node.attributes, s.zero.value;
    var arithmetic := QuantizeArithmetic(s.scale.dtype, zero.dtype);
    var e := PrepareIsGood(ops, own, given, d, env, node, s, arithmetic);
    PreparedWhenPossible(d, node, s, arithmetic);
    var p := Prepare(d, node, s, arithmetic);
    KeepsBound(own, env, e, node.inputs[0], x);
    KeepsUnbound(own, env, e, node.outputs[0]);
    var t, z := ReadScale(s, a, arithmetic), ReadZero(s, a, arithmetic);
    ReadScaleLinesUp(s, x.shape, a, arithmetic);
    QuotientLink(a, x, s.scale, arithmetic, t);
    ReadZeroLinesUp(s, x.shape, a, arithmetic, arithmetic);
    ShiftLink(a, x, s.scale, zero, arithmetic, Casted(z, arithmetic));
    SaturatedIsQuantized(a, x, s.scale, zero, arithmetic);
    env' := QuantizingIsGood(ops, own, given, p.draft, e, node, arithmetic, zero.dtype, p.scale, p.zero.value, x, t, z,
                             Quotients(a, x, s.scale, arithmetic), ShiftedQuotients(a, x, s.scale, zero, arithmetic));
    KeepsThenGrows(own, node.outputs[0], env, e, env');
  }

  // --- What the node gives --------------------------------------------------------------------

  function ResultOf(node: Node, s: Site, x: Tensor): (t: Tensor) {
    if node.op.DequantizeLinear? then Dequantized(node.attributes, x, s.scale, s.zero)
    else Quantized(node.attributes, x, s.scale, s.zero, true)
  }

  ghost predicate AreArgs(args: Args, s: Site, x: Tensor) {
    |args| >= 2 && args[0] == Some(x) && args[1] == Some(s.scale) && Arg(args, 2) == s.zero
  }

  lemma LayoutIsAccepted(s: Site, shape: Shape, p: Tensor, a: Attributes)
    requires LayoutOf(s, p, a).Some? && KnowsShape(s, shape)
    ensures !IsRagged(shape, p.shape, a)
  {
  }

  predicate IsFolded(node: Node, s: Site, inits: map<string, Tensor>)
    requires |node.inputs| >= 2
  {
    node.op.DequantizeLinear? && FoldingAt(node, s, inits).Folded?
  }

  // Read as ONNX has it, quantizing needs even zero points.
  predicate ReadsAlike(byCode: bool, node: Node, zero: Option<Tensor>) {
    byCode || (node.op.QuantizeLinear? && zero.Some? ==> IsEven(zero.value))
  }

  // A node that is lowered has a meaning, which the run realizes.
  lemma LoweredNodeMeans(byCode: bool, node: Node, args: Args, s: Site, x: Tensor, inits: map<string, Tensor>)
    requires ReadsAlike(byCode, node, s.zero)
    requires IsQdq(node) && |node.inputs| >= 2 && AreArgs(args, s, x) && IsReading(node, s, x)
    requires IsFolded(node, s, inits) || CanPrepare(node, s)
    requires node.inputs[0] in inits ==> inits[node.inputs[0]] == x
    requires node.op.QuantizeLinear? ==> ShouldLowerQuantize(s.zero, OutputTypeOf(node.attributes, s.zero))
    ensures QdqMeaning(node, args, byCode).Means?
    ensures QdqMeaning(node, args, byCode).result.Some? ==>
        QdqMeaning(node, args, byCode).result.value == ResultOf(node, s, x) && ParametersFit(node, s, x)
    ensures QdqMeaning(node, args, byCode).result.Some? && node.op.DequantizeLinear? ==> CanDequantize(x, s.zero)
  {
    if CanPrepare(node, s) {
      LayoutIsAccepted(s, x.shape, s.scale, node.attributes);
      if s.zero.Some? {
        LayoutIsAccepted(s, x.shape, s.zero.value, node.attributes);
      }
    }
    if !byCode && node.op.QuantizeLinear? && ParametersFit(node, s, x) {
      EvenZerosReadAlike(node.attributes, x, s.scale, s.zero.value);
    }
  }

  // --- One node of the draft ------------------------------------------------------------------

  // Lowered, the node's output is bound to its result; or else the node is kept after some helpers.
  lemma LoweredIsGood(
    ops: Ops, own: set<string>, given: Env, d: Draft, env: Env, node: Node, s: Site, inits: map<string, Tensor>, x: Tensor)
    returns (env': Env, kept: Draft)
    requires RunsHelpers(ops) && Good(ops, own, given, d, env) && IsNaming(d.naming) && IsQdq(node)
    requires |node.outputs| == 1 && IsOpen(own, env, node.outputs[0])
    requires |node.inputs| >= 2 && (s.zero.Some? ==> |node.inputs| > 2)
    requires BoundTo(env, node.inputs[0], x) && IsSiteBound(env, node, s) && IsReading(node, s, x)
    requires node.inputs[0] in inits ==> inits[node.inputs[0]] == x
    requires IsFolded(node, s, inits) || CanPrepare(node, s) ==>
        ParametersFit(node, s, x) && (node.op.DequantizeLinear? ==> CanDequantize(x, s.zero))
    requires node.op.QuantizeLinear? ==> ShouldLowerQuantize(s.zero, OutputTypeOf(node.attributes, s.zero))
    ensures IsFolded(node, s, inits) || CanPrepare(node, s) ==>
        && Good(ops, own, given, Lowered(d, node, s, inits), env') && Grows(own, node.outputs[0], env, env')
        && BoundTo(env', node.outputs[0], ResultOf(node, s, x))
    ensures !IsFolded(node, s, inits) && !CanPrepare(node, s) ==>
        Lowered(d, node, s, inits) == kept.WithNode(node) && Good(ops, own, given, kept, env') && Keeps(own, env, env')
  {
    kept := d;
    if IsFolded(node, s, inits) {
      env' := FoldIsGood(ops, own, given, d, env, node, FoldingAt(node, s, inits), ResultOf(node, s, x));
    } else {
      var f := FoldingAt(node, s, inits);
      var d', e := d, env;
      KeepsItself(own, env);
      if node.op.DequantizeLinear? && f.Stray? {
        e := StrayIsGood(ops, own, given, d, env, node, s.scale.dtype, f);
        d' := WithFold(d, node, s.scale.dtype, f);
      }
      StillSiteBound(own, env, e, node, s);
      KeepsBound(own, env, e, node.inputs[0], x);
      KeepsUnbound(own, env, e, node.outputs[0]);
      env', kept := UnfoldedIsGood(ops, own, given, d', e, node, s, x);
      if CanPrepare(node, s) {
        KeepsThenGrows(own, node.outputs[0], env, e, env');
      } else {
        KeepsThrough(own, env, e, env');
      }
    }
  }

  function Arithmetic(d: Draft, node: Node, s: Site): (d': Draft)
    requires |node.outputs| == 1 && |node.inputs| >= 2 && (s.zero.Some? ==> |node.inputs| > 2)
  {
    if node.op.DequantizeLinear? then LoweredDequantize(d, node, s) else LoweredQuantize(d, node, s)
  }

  lemma UnfoldedIsGood(
    ops: Ops, own: set<string>, given: Env, d: Draft, env: Env, node: Node, s: Site, x: Tensor)
    returns (env': Env, kept: Draft)
    requires RunsHelpers(ops) && Good(ops, own, given, d, env) && IsNaming(d.naming) && IsQdq(node)
    requires |node.outputs| == 1 && IsOpen(own, env, node.outputs[0])
    requires |node.inputs| >= 2 && (s.zero.Some? ==> |node.inputs| > 2)
    requires BoundTo(env, node.inputs[0], x) && IsSiteBound(env, node, s) && IsReading(node, s, x)
    requires CanPrepare(node, s) ==>
        ParametersFit(node, s, x) && (node.op.DequantizeLinear? ==> CanDequantize(x, s.zero))
    requires node.op.QuantizeLinear? ==> ShouldLowerQuantize(s.zero, OutputTypeOf(node.attributes, s.zero))
    ensures CanPrepare(node, s) ==>
        && Good(ops, own, given, Arithmetic(d, node, s), env') && Grows(own, node.outputs[0], env, env')
        && BoundTo(env', node.outputs[0], ResultOf(node, s, x))
    ensures !CanPrepare(node, s) ==>
        Arithmetic(d, node, s) == kept.WithNode(node) && Good(ops, own, given, kept, env') && Keeps(own, env, env')
  {
    kept := d;
    if !CanPrepare(node, s) {
      var arithmetic := if node.op.DequantizeLinear? then s.scale.dtype
                        else QuantizeArithmetic(s.scale.dtype, OutputTypeOf(node.attributes, s.zero));
      env' := PrepareIsGood(ops, own, given, d, env, node, s, arithmetic);
      PreparedWhenPossible(d, node, s, arithmetic);
      kept := Prepare(d, node, s, arithmetic).draft;
    } else if node.op.DequantizeLinear? {
      env' := LoweredDequantizeIsGood(ops, own, given, d, env, node, s, x);
    } else {
      env' := LoweredQuantizeIsGood(ops, own, given, d, env, node, s, x);
    }
  }

  // --- A node in a run ------------------------------------------------------------------------

  // The pass replaces the node by others, rather than keep it.
  predicate IsReplaced(g: Graph, i: nat)
    requires i < |g.nodes|
  {
    var node := g.nodes[i];
    var s := SiteOf(node, g.infos, g.inits);
    s.Some? && ShouldLower(g, i, s.value) && (IsFolded(node, s.value, g.inits) || CanPrepare(node, s.value))
  }

  predicate ReadsConstantZero(g: Graph, i: nat)
    requires i < |g.nodes|
  {
    IsReplaced(g, i) ==> HasConstantZero(g.nodes[i], g.inits)
  }

  // What the pass may rely on: ONNX's own rules, constant zero points of the nodes it replaces,
  // declarations that hold.
  ghost predicate IsSound(ops: Ops, own: set<string>, given: Env, g: Graph, naming: Naming) {
    var start := given + g.inits;
    && IsNamedGraph(own, naming, g.nodes, start.Keys) && "" !in g.infos && "" !in g.inits
    && (forall i :: 0 <= i < |g.nodes| ==> MakesOne(g.nodes[i]) && ReadsConstantZero(g, i))
    && RunNodes(ops, g.nodes, start).Some? && DeclarationsHold(own, g.infos, RunNodes(ops, g.nodes, start).value)
  }

  // QuantizeLinear is read as emitted, or all zero points it is given are even.
  ghost predicate AllReadAlike(byCode: bool, g: Graph) {
    forall i :: 0 <= i < |g.nodes| ==> ReadsAlike(byCode, g.nodes[i], ConstantZero(g.nodes[i], g.inits))
  }

  lemma NamesAreOwn(ops: Ops, own: set<string>, naming: Naming, nodes: seq<Node>, start: Env, n: nat)
    requires IsNamedGraph(own, naming, nodes, start.Keys) && n <= |nodes| && RunNodes(ops, nodes, start).Some?
    ensures RunTo(ops, nodes, start, n).Some? && RunTo(ops, nodes, start, n).value.Keys <= own
  {
    RunKeepsBindings(ops, nodes, start, n, |nodes|);
    RunKeys(ops, nodes, start, n);
  }

  lemma BindingsOf(ops: Ops, own: set<string>, given: Env, g: Graph, naming: Naming, n: nat)
    requires IsNamedGraph(own, naming, g.nodes, (given + g.inits).Keys) && n < |g.nodes|
    requires RunNodes(ops, g.nodes, given + g.inits).Some?
    ensures var start := given + g.inits;
      && RunTo(ops, g.nodes, start, n).Some? && RunTo(ops, g.nodes, start, n + 1).Some?
      && Includes(g.inits, RunTo(ops, g.nodes, start, n).value)
      && Includes(RunTo(ops, g.nodes, start, n).value, RunNodes(ops, g.nodes, start).value)
      && RunTo(ops, g.nodes, start, n).value.Keys <= own
  {
    var start := given + g.inits;
    NamesAreOwn(ops, own, naming, g.nodes, start, n);
    RunKeepsBindings(ops, g.nodes, start, n, |g.nodes|);
    RunKeepsBindings(ops, g.nodes, start, n + 1, |g.nodes|);
    RunKeepsBindings(ops, g.nodes, start, 0, n);
  }

  lemma BindingsInRun(ops: Ops, own: set<string>, given: Env, g: Graph, naming: Naming, n: nat)
    requires IsSound(ops, own, given, g, naming) && n < |g.nodes|
    ensures var start := given + g.inits;
      && RunTo(ops, g.nodes, start, n).Some? && RunTo(ops, g.nodes, start, n + 1).Some?
      && Includes(g.inits, RunTo(ops, g.nodes, start, n).value)
      && Includes(RunTo(ops, g.nodes, start, n).value, RunNodes(ops, g.nodes, start).value)
      && RunTo(ops, g.nodes, start, n).value.Keys <= own
  {
    BindingsOf(ops, own, given, g, naming, n);
  }

  lemma SiteIsRead(
    own: set<string>, infos: map<string, ValueInfo>, inits: map<string, Tensor>, node: Node, before: Env, final: Env)
    requires SiteOf(node, infos, inits).Some? && "" !in infos && "" !in inits
    requires InputsAreBound(node, before) && Includes(inits, before) && Includes(before, final)
    requires DeclarationsHold(own, infos, final) && before.Keys <= own
    ensures var s := SiteOf(node, infos, inits).value; var a := node.inputs[0];
      && a in before && a != "" && IsReading(node, s, before[a])
      && (HasConstantZero(node, inits) ==> AreArgs(ArgsOf(node, before), s, before[a]))
      && (a in inits ==> inits[a] == before[a])
      && |node.inputs| >= 2 && (s.zero.Some? ==> |node.inputs| > 2)
      && BoundTo(before, node.inputs[1], s.scale) && IsStored(s.scale)
      && (s.zero.Some? ==> BoundTo(before, node.inputs[2], s.zero.value))
  {
    var s, a := SiteOf(node, infos, inits).value, node.inputs[0];
    assert HoldsFor(infos, final, a);
    assert HoldsFor(infos, final, node.inputs[1]);
    if s.zero.Some? {
      assert HoldsFor(infos, final, node.inputs[2]);
    }
  }

  // The node's result in the run.
  lemma ResultInRun(
    ops: Ops, byCode: bool, own: set<string>, given: Env, g: Graph, naming: Naming, n: nat, before: Env, s: Site, x: Tensor)
    requires Conforms(ops, byCode) && IsSound(ops, own, given, g, naming) && n < |g.nodes|
    requires ReadsAlike(byCode, g.nodes[n], s.zero)
    requires IsQdq(g.nodes[n]) && |g.nodes[n].inputs| >= 2 && IsReading(g.nodes[n], s, x)
    requires RunTo(ops, g.nodes, given + g.inits, n) == Some(before) && AreArgs(ArgsOf(g.nodes[n], before), s, x)
    requires RunTo(ops, g.nodes, given + g.inits, n + 1).Some?
    requires g.nodes[n].inputs[0] in g.inits ==> g.inits[g.nodes[n].inputs[0]] == x
    requires IsFolded(g.nodes[n], s, g.inits) || CanPrepare(g.nodes[n], s)
    requires g.nodes[n].op.QuantizeLinear? ==>
        ShouldLowerQuantize(s.zero, OutputTypeOf(g.nodes[n].attributes, s.zero))
    ensures ops(g.nodes[n], ArgsOf(g.nodes[n], before)) == Some([ResultOf(g.nodes[n], s, x)])
    ensures ParametersFit(g.nodes[n], s, x) && (g.nodes[n].op.DequantizeLinear? ==> CanDequantize(x, s.zero))
  {
    var node := g.nodes[n];
    LoweredNodeMeans(byCode, node, ArgsOf(node, before), s, x, g.inits);
    assert GivesQdq(ops, byCode, node, ArgsOf(node, before));
  }

  // Before the node, the draft has what the node reads and not yet what it makes.
  lemma NodeIsReady(
    ops: Ops, byCode: bool, own: set<string>, given: Env, g: Graph, naming: Naming, n: nat, d: Draft, env: Env, s: Site)
    returns (x: Tensor)
    requires AllReadAlike(byCode, g)
    requires Conforms(ops, byCode) && IsSound(ops, own, given, g, naming) && n < |g.nodes|
    requires Follows(ops, own, given, given + g.inits, g.nodes, n, d, env)
    requires SiteOf(g.nodes[n], g.infos, g.inits) == Some(s) && ShouldLower(g, n, s)
    ensures var node := g.nodes[n];
      && |node.outputs| == 1 && IsQdq(node) && |node.inputs| >= 2 && (s.zero.Some? ==> |node.inputs| > 2)
      && BoundTo(env, node.inputs[0], x) && IsSiteBound(env, node, s) && IsReading(node, s, x)
      && IsOpen(own, env, node.outputs[0]) && (node.inputs[0] in g.inits ==> g.inits[node.inputs[0]] == x)
      && RunTo(ops, g.nodes, given + g.inits, n).Some? && RunTo(ops, g.nodes, given + g.inits, n + 1).Some?
    ensures IsFolded(g.nodes[n], s, g.inits) || CanPrepare(g.nodes[n], s) ==>
        && ParametersFit(g.nodes[n], s, x) && (g.nodes[n].op.DequantizeLinear? ==> CanDequantize(x, s.zero))
        && ops(g.nodes[n], ArgsOf(g.nodes[n], RunTo(ops, g.nodes, given + g.inits, n).value))
           == Some([ResultOf(g.nodes[n], s, x)])
  {
    var node, start := g.nodes[n], given + g.inits;
    BindingsInRun(ops, own, given, g, naming, n);
    var before := RunTo(ops, g.nodes, start, n).value;
    SiteIsRead(own, g.infos, g.inits, node, before, RunNodes(ops, g.nodes, start).value);
    x := before[node.inputs[0]];
    if IsFolded(node, s, g.inits) || CanPrepare(node, s) {
      ResultInRun(ops, byCode, own, given, g, naming, n, before, s, x);
    }
    FollowsUnfolds(ops, own, given, start, g.nodes, n, d, env);
    assert Binds(g.nodes, n, node.outputs[0]);
    OutputsAreNew(ops, own, given, start, g.nodes, n, d, env, naming, node.outputs[0]);
  }

  // A lowered node follows the run.
  lemma QdqNodeFollows(
    ops: Ops, byCode: bool, own: set<string>, given: Env, g: Graph, naming: Naming, n: nat, d: Draft, env: Env, s: Site)
    returns (env': Env)
    requires AllReadAlike(byCode, g)
    requires Conforms(ops, byCode) && RunsHelpers(ops) && IsSound(ops, own, given, g, naming) && n < |g.nodes|
    requires Follows(ops, own, given, given + g.inits, g.nodes, n, d, env) && d.naming == naming
    requires SiteOf(g.nodes[n], g.infos, g.inits) == Some(s) && ShouldLower(g, n, s)
    ensures Follows(ops, own, given, given + g.inits, g.nodes, n + 1, AfterQdqNode(d, g, n), env')
  {
    var node, start := g.nodes[n], given + g.inits;
    var x := NodeIsReady(ops, byCode, own, given, g, naming, n, d, env, s);
    assert Good(ops, own, given, d, env) by {
      FollowsUnfolds(ops, own, given, start, g.nodes, n, d, env);
    }
    var kept;
    env', kept := LoweredIsGood(ops, own, given, d, env, node, s, g.inits, x);
    if IsFolded(node, s, g.inits) || CanPrepare(node, s) {
      LoweredNodeFollows(ops, own, given, start, g.nodes, n, d, env, Lowered(d, node, s, g.inits), env',
          ResultOf(node, s, x));
    } else {
      ExtraFollows(ops, own, given, start, g.nodes, n, d, env, kept, env');
      env' := KeptNodeFollows(ops, own, given, start, g.nodes, n, kept, env', naming);
    }
  }

  // --- The pass -------------------------------------------------------------------------------

  function PassStart(g: Graph, naming: Naming): (d: Draft) {
    Draft(naming, g.inits, [], 0)
  }

  lemma {:induction false} QdqPassFollows(
    ops: Ops, byCode: bool, own: set<string>, given: Env, g: Graph, naming: Naming, trail: seq<Draft>, n: nat)
    returns (env': Env)
    requires AllReadAlike(byCode, g)
    requires Conforms(ops, byCode) && RunsHelpers(ops) && IsSound(ops, own, given, g, naming) && n <= |g.nodes|
    requires IsTrail(trail, g) && trail[0] == PassStart(g, naming)
    ensures Follows(ops, own, given, given + g.inits, g.nodes, n, trail[n], env')
    decreases n
  {
    if n == 0 {
      PassStarts(ops, own, given, naming, g.nodes, g.inits);
      env' := given + g.inits;
    } else {
      var e := QdqPassFollows(ops, byCode, own, given, g, naming, trail, n - 1);
      TrailGrows(trail, g, 0, n - 1);
      assert StepsAt(trail, g, n - 1);
      env' := QdqStepFollows(ops, byCode, own, given, g, naming, n - 1, trail[n - 1], e);
    }
  }

  lemma QdqStepFollows(
    ops: Ops, byCode: bool, own: set<string>, given: Env, g: Graph, naming: Naming, n: nat, d: Draft, env: Env)
    returns (env': Env)
    requires AllReadAlike(byCode, g)
    requires Conforms(ops, byCode) && RunsHelpers(ops) && IsSound(ops, own, given, g, naming) && n < |g.nodes|
    requires Follows(ops, own, given, given + g.inits, g.nodes, n, d, env) && d.naming == naming
    ensures Follows(ops, own, given, given + g.inits, g.nodes, n + 1, AfterQdqNode(d, g, n), env')
  {
    var s := SiteOf(g.nodes[n], g.infos, g.inits);
    if s.Some? && ShouldLower(g, n, s.value) {
      env' := QdqNodeFollows(ops, byCode, own, given, g, naming, n, d, env, s.value);
    } else {
      BindingsInRun(ops, own, given, g, naming, n);
      env' := KeptNodeFollows(ops, own, given, given + g.inits, g.nodes, n, d, env, naming);
    }
  }

  // A lowered graph runs whenever the graph runs, every tensor of the graph keeps its value and
  // type, and nothing is bound twice.
  lemma QdqPassKeepsMeaning(ops: Ops, byCode: bool, own: set<string>, given: Env, g: Graph)
    requires AllReadAlike(byCode, g)
    requires Conforms(ops, byCode) && IsSound(ops, own, given, g, NamingOf(QDQ_PREFIX))
    ensures var d := AfterQdqNodes(PassStart(g, NamingOf(QDQ_PREFIX)), g, |g.nodes|);
      var lowered := g.(nodes := d.nodes, inits := d.inits);
      && Run(ops, lowered, given).Some?
      && AddsHelpers(own, QDQ_PREFIX, Run(ops, g, given).value, Run(ops, lowered, given).value)
      && IsSsa(d.nodes, given.Keys + d.inits.Keys)
  {
    var naming := NamingOf(QDQ_PREFIX);
    ConformingRunsHelpers(ops, byCode);
    var trail := TrailOf(PassStart(g, naming), g);
    TrailIsTrail(PassStart(g, naming), g);
    TrailGrows(trail, g, 0, |g.nodes|);
    var env' := QdqPassFollows(ops, byCode, own, given, g, naming, trail, |g.nodes|);
    PassEnds(ops, own, given, given + g.inits, g.nodes, AfterQdqNodes(PassStart(g, naming), g, |g.nodes|), env');
  }
}
