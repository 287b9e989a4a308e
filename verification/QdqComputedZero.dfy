/**
 * Zero points that are computed: a node that is replaced is replaced as if it had none
 * (src/qdq_lowering.cc:1953-1955). What the pass emits for a graph is what it emits for the graph
 * without those zero points.
 */
module QdqComputedZero {
  import opened Options
  import opened TensorValues
  import opened Broadcasting
  import opened ParameterLayout
  import opened OnnxGraph
  import opened GraphRuns
  import opened LoweredNames
  import opened Drafts
  import opened Emission
  import opened Declarations
  import opened Following
  import opened QdqPolicy
  import opened QdqLowering
  import opened QdqRuns
  import opened QdqPass

  // --- The graph the pass sees ----------------------------------------------------------------

  // The node is replaced without its zero point.
  predicate DropsZero(g: Graph, i: nat)
    requires i < |g.nodes|
  {
    IsReplaced(g, i) && !HasConstantZero(g.nodes[i], g.inits)
  }

  function WithoutZero(node: Node): (n: Node)
    requires |node.inputs| >= 2
  {
    node.(inputs := node.inputs[..2])
  }

  lemma DroppingNode(g: Graph, i: nat)
    requires i < |g.nodes| && DropsZero(g, i)
    ensures var node := g.nodes[i];
      && node.op.DequantizeLinear? && |node.inputs| > 2 && node.inputs[2] != "" && node.inputs[2] !in g.inits
      && SiteOf(node, g.infos, g.inits).Some? && SiteOf(node, g.infos, g.inits).value.zero.None?
  {
  }

  function SeenNode(g: Graph, i: nat): (n: Node)
    requires i < |g.nodes|
    ensures n.outputs == g.nodes[i].outputs && n.op == g.nodes[i].op && n.attributes == g.nodes[i].attributes
    ensures !DropsZero(g, i) ==> n == g.nodes[i]
  {
    if DropsZero(g, i) then
      DroppingNode(g, i);
      WithoutZero(g.nodes[i])
    else g.nodes[i]
  }

  // The graph without the zero points that are dropped.
  function SeenGraph(g: Graph): (s: Graph)
    ensures s == g.(nodes := s.nodes) && |s.nodes| == |g.nodes|
    ensures forall i :: 0 <= i < |g.nodes| ==> s.nodes[i] == SeenNode(g, i)
    ensures (forall i :: 0 <= i < |g.nodes| ==> MakesOne(g.nodes[i])) ==>
        forall i :: 0 <= i < |s.nodes| ==> MakesOne(s.nodes[i])
  {
    g.(nodes := seq(|g.nodes|, i requires 0 <= i < |g.nodes| => SeenNode(g, i)))
  }

  // Zero points are of an integer type, so no dequantized tensor is one.
  ghost predicate ZerosAreNotDequantized(g: Graph) {
    forall i: nat, j: nat {:trigger g.nodes[i].inputs, g.nodes[j].outputs} ::
      i < |g.nodes| && j < |g.nodes| && g.nodes[i].op.DequantizeLinear? && g.nodes[j].op.DequantizeLinear? ==>
        forall k :: 2 <= k < |g.nodes[i].inputs| ==> g.nodes[i].inputs[k] !in g.nodes[j].outputs
  }

  // --- The same decisions ---------------------------------------------------------------------

  lemma SeenSite(g: Graph, i: nat)
    requires i < |g.nodes|
    ensures SiteOf(SeenNode(g, i), g.infos, g.inits) == SiteOf(g.nodes[i], g.infos, g.inits)
    ensures BaseLowers(SeenNode(g, i), g.infos, g.inits) == BaseLowers(g.nodes[i], g.infos, g.inits)
    ensures IsQdq(SeenNode(g, i)) == IsQdq(g.nodes[i])
  {
    if DropsZero(g, i) {
      DroppingNode(g, i);
    }
  }

  lemma {:induction false} SameProducer(a: seq<Node>, b: seq<Node>, name: string)
    requires |a| == |b| && forall i :: 0 <= i < |a| ==> a[i].outputs == b[i].outputs
    ensures ProducerOf(a, name) == ProducerOf(b, name)
    decreases |a|
  {
    if a != [] {
      SameProducer(a[..|a| - 1], b[..|b| - 1], name);
    }
  }

  // Who reads a dequantized tensor is the same in both graphs.
  lemma SameReads(g: Graph, i: nat)
    requires ZerosAreNotDequantized(g) && i < |g.nodes| && g.nodes[i].op.DequantizeLinear?
    requires g.nodes[i].outputs != []
    ensures ReadsOf(SeenGraph(g).nodes, g.nodes[i].outputs[0]) == ReadsOf(g.nodes, g.nodes[i].outputs[0])
  {
    var name, s := g.nodes[i].outputs[0], SeenGraph(g).nodes;
    forall j: nat, k: nat | j < |g.nodes|
      ensures k < |s[j].inputs| && s[j].inputs[k] == name <==> k < |g.nodes[j].inputs| && g.nodes[j].inputs[k] == name
    {
      if DropsZero(g, j) {
        DroppingNode(g, j);
      }
    }
    forall p ensures p in ReadsOf(s, name) <==> p in ReadsOf(g.nodes, name) {
    }
  }

  lemma SameAnchor(g: Graph, i: nat)
    requires ZerosAreNotDequantized(g) && i < |g.nodes| && g.nodes[i].op.DequantizeLinear?
    ensures SingleAnchor(SeenGraph(g).nodes, SeenNode(g, i)) == SingleAnchor(g.nodes, g.nodes[i])
  {
    if g.nodes[i].outputs != [] {
      SameReads(g, i);
    }
  }

  lemma SameForced(g: Graph, i: nat, anchor: Node)
    ensures AnchorHasForcedSibling(SeenGraph(g), i, anchor) == AnchorHasForcedSibling(g, i, anchor)
  {
    var s := SeenGraph(g);
    forall j: nat ensures IsForced(s, i, j) <==> IsForced(g, i, j) {
      if j < |g.nodes| {
        SeenSite(g, j);
      }
    }
    forall name ensures FeedsAnchor(s, i, name) <==> FeedsAnchor(g, i, name) {
      SameProducer(s.nodes, g.nodes, name);
    }
    forall name ensures RequantizesAnchor(s, i, name) <==> RequantizesAnchor(g, i, name) {
      forall j: nat | j < |g.nodes| && g.nodes[j].op.QuantizeLinear? ensures s.nodes[j] == g.nodes[j] {
        if DropsZero(g, j) {
          DroppingNode(g, j);
        }
      }
    }
  }

  lemma SameDecision(g: Graph, i: nat, site: Site)
    requires ZerosAreNotDequantized(g) && i < |g.nodes| && IsQdq(g.nodes[i])
    ensures ShouldLower(SeenGraph(g), i, site) == ShouldLower(g, i, site)
  {
    SeenSite(g, i);
    if g.nodes[i].op.DequantizeLinear? {
      SameAnchor(g, i);
      var a := SingleAnchor(g.nodes, g.nodes[i]);
      if a.Some? {
        assert SeenNode(g, a.value) == g.nodes[a.value] by {
          if DropsZero(g, a.value) {
            DroppingNode(g, a.value);
          }
        }
        SameForced(g, i, g.nodes[a.value]);
      }
    }
  }

  // --- The same nodes -------------------------------------------------------------------------

  lemma SamePreparation(d: Draft, node: Node, s: Site, arithmetic: DType)
    requires |node.outputs| == 1 && |node.inputs| >= 2 && s.zero.None?
    ensures Prepare(d, WithoutZero(node), s, arithmetic) == Prepare(d, node, s, arithmetic)
  {
    var n := WithoutZero(node);
    if LayoutOf(s, s.scale, node.attributes).Some? {
      assert HandScale(d, n, s, arithmetic) == HandScale(d, node, s, arithmetic);
    }
  }

  lemma SameArithmetic(d: Draft, node: Node, math: DType, arithmetic: DType, scale: string)
    requires |node.outputs| == 1 && |node.inputs| >= 2
    ensures Dequantizing(d, WithoutZero(node), math, arithmetic, scale, None)
         == Dequantizing(d, node, math, arithmetic, scale, None)
  {
    assert Difference(d, WithoutZero(node), math, None) == Difference(d, node, math, None);
  }

  lemma SameLowering(d: Draft, node: Node, s: Site, inits: map<string, Tensor>)
    requires |node.outputs| == 1 && |node.inputs| >= 2 && s.zero.None? && node.op.DequantizeLinear?
    requires IsFolded(node, s, inits) || CanPrepare(node, s)
    ensures Lowered(d, WithoutZero(node), s, inits) == Lowered(d, node, s, inits)
  {
    var n, f, scale := WithoutZero(node), FoldingAt(node, s, inits), s.scale.dtype;
    assert FoldingAt(n, s, inits) == f;
    if !f.NotFolded? {
      assert WithFold(d, n, scale, f) == WithFold(d, node, scale, f);
    }
    if !f.Folded? {
      var d' := if f.Stray? then WithFold(d, node, scale, f) else d;
      PreparedWhenPossible(d', node, s, scale);
      SamePreparation(d', node, s, scale);
      var p := Prepare(d', node, s, scale);
      SameArithmetic(p.draft, node, MathType(s.input, scale), scale, p.scale);
    }
  }

  lemma SameStep(d: Draft, g: Graph, i: nat)
    requires ZerosAreNotDequantized(g) && i < |g.nodes| && MakesOne(g.nodes[i])
    ensures AfterQdqNode(d, SeenGraph(g), i) == AfterQdqNode(d, g, i)
  {
    SeenSite(g, i);
    var s := SiteOf(g.nodes[i], g.infos, g.inits);
    if s.Some? {
      SameDecision(g, i, s.value);
      if DropsZero(g, i) {
        DroppingNode(g, i);
        SameLowering(d, g.nodes[i], s.value, g.inits);
      }
    }
  }

  // The pass takes a graph for the graph without those zero points.
  lemma {:induction false} SameSteps(d: Draft, g: Graph, n: nat)
    requires ZerosAreNotDequantized(g) && n <= |g.nodes| && forall i :: 0 <= i < |g.nodes| ==> MakesOne(g.nodes[i])
    ensures AfterQdqNodes(d, SeenGraph(g), n) == AfterQdqNodes(d, g, n)
    decreases n
  {
    if n > 0 {
      SameSteps(d, g, n - 1);
      SameStep(AfterQdqNodes(d, g, n - 1), g, n - 1);
    }
  }

  // --- What the pass makes of them ------------------------------------------------------------

  // What is asked of the graph; nothing is asked of its zero points but their type.
  ghost predicate IsLowerable(ops: Ops, byCode: bool, own: set<string>, given: Env, g: Graph) {
    && Conforms(ops, byCode) && AllReadAlike(byCode, g) && ZerosAreNotDequantized(g)
    && IsNamedGraph(own, NamingOf(QDQ_PREFIX), g.nodes, (given + g.inits).Keys) && "" !in g.infos && "" !in g.inits
    && (forall i :: 0 <= i < |g.nodes| ==> MakesOne(g.nodes[i]))
  }

  // The graph runs, and its tensors are as declared.
  ghost predicate RunsAsDeclared(ops: Ops, own: set<string>, given: Env, g: Graph) {
    Run(ops, g, given).Some? && DeclarationsHold(own, g.infos, Run(ops, g, given).value)
  }

  lemma SeenIsSound(ops: Ops, byCode: bool, own: set<string>, given: Env, g: Graph)
    requires IsLowerable(ops, byCode, own, given, g) && RunsAsDeclared(ops, own, given, SeenGraph(g))
    ensures IsSound(ops, own, given, SeenGraph(g), NamingOf(QDQ_PREFIX)) && AllReadAlike(byCode, SeenGraph(g))
  {
    var s := SeenGraph(g);
    forall i | 0 <= i < |g.nodes|
      ensures ReadsConstantZero(s, i) && ReadsAlike(byCode, s.nodes[i], ConstantZero(s.nodes[i], s.inits))
    {
      SeenSite(g, i);
      if DropsZero(g, i) {
        DroppingNode(g, i);
      } else if IsQdq(g.nodes[i]) && SiteOf(g.nodes[i], g.infos, g.inits).Some? {
        SameDecision(g, i, SiteOf(g.nodes[i], g.infos, g.inits).value);
      }
    }
    SeenIsNamed(own, (given + g.inits).Keys, g);
  }

  lemma SeenIsNamed(own: set<string>, bound: set<string>, g: Graph)
    requires IsNamedGraph(own, NamingOf(QDQ_PREFIX), g.nodes, bound)
    ensures IsNamedGraph(own, NamingOf(QDQ_PREFIX), SeenGraph(g).nodes, bound)
  {
    var s := SeenGraph(g).nodes;
    forall i: nat, k ensures Binds(s, i, k) <==> Binds(g.nodes, i, k) {
    }
    forall k ensures BoundOnce(s, bound, k) {
      assert BoundOnce(g.nodes, bound, k);
    }
  }

  function LoweredGraph(g: Graph): (lowered: Graph)
    requires forall i :: 0 <= i < |g.nodes| ==> MakesOne(g.nodes[i])
  {
    var d := AfterQdqNodes(PassStart(g, NamingOf(QDQ_PREFIX)), g, |g.nodes|);
    g.(nodes := d.nodes, inits := d.inits)
  }

  // The lowered graph gives every tensor the value it has without those zero points.
  lemma ComputedZerosAreDropped(ops: Ops, byCode: bool, own: set<string>, given: Env, g: Graph)
    requires IsLowerable(ops, byCode, own, given, g) && RunsAsDeclared(ops, own, given, SeenGraph(g))
    ensures Run(ops, LoweredGraph(g), given).Some?
    ensures AddsHelpers(own, QDQ_PREFIX, Run(ops, SeenGraph(g), given).value, Run(ops, LoweredGraph(g), given).value)
    ensures IsSsa(LoweredGraph(g).nodes, given.Keys + LoweredGraph(g).inits.Keys)
  {
    SeenIsSound(ops, byCode, own, given, g);
    SameSteps(PassStart(g, NamingOf(QDQ_PREFIX)), g, |g.nodes|);
    QdqPassKeepsMeaning(ops, byCode, own, given, SeenGraph(g));
  }

  // Without its zero point the node gives the dequantized tensor of none.
  lemma SeenResult(ops: Ops, byCode: bool, own: set<string>, given: Env, g: Graph, i: nat)
    requires IsLowerable(ops, byCode, own, given, g) && RunsAsDeclared(ops, own, given, SeenGraph(g))
    requires i < |g.nodes| && DropsZero(g, i)
    ensures var env, node := Run(ops, SeenGraph(g), given).value, g.nodes[i];
      && |node.inputs| >= 2 && |node.outputs| == 1
      && node.inputs[0] in env && node.inputs[1] in g.inits && node.outputs[0] in env
      && env[node.outputs[0]] == Dequantized(node.attributes, env[node.inputs[0]], g.inits[node.inputs[1]], None)
  {
    var s, start := SeenGraph(g), given + g.inits;
    var node := s.nodes[i];
    DroppingNode(g, i);
    SeenIsSound(ops, byCode, own, given, g);
    SeenSite(g, i);
    var site := SiteOf(g.nodes[i], g.infos, g.inits).value;
    BindingsInRun(ops, own, given, s, NamingOf(QDQ_PREFIX), i);
    var before := RunTo(ops, s.nodes, start, i).value;
    SiteIsRead(own, g.infos, g.inits, node, before, Run(ops, s, given).value);
    ResultInRun(ops, byCode, own, given, s, NamingOf(QDQ_PREFIX), i, before, site, before[node.inputs[0]]);
    OneResult(ops, node, before, ResultOf(node, site, before[node.inputs[0]]));
    RunKeepsBindings(ops, s.nodes, start, i + 1, |s.nodes|);
  }

  // --- When that is right ---------------------------------------------------------------------

  // What the run shows of the zero point that node i drops: it has a layout ONNX defines.
  ghost predicate ZeroIsReadable(g: Graph, env: Env, i: nat) {
    i < |g.nodes| && DropsZero(g, i) ==>
      var node := g.nodes[i];
      && |node.inputs| > 2 && node.inputs[0] in env && node.inputs[2] in env && IsInteger(env[node.inputs[0]].dtype)
      && !IsRagged(env[node.inputs[0]].shape, env[node.inputs[2]].shape, node.attributes)
  }

  // Every element's zero point is zero.
  ghost predicate ZeroIsNaught(g: Graph, env: Env, i: nat) {
    i < |g.nodes| && DropsZero(g, i) ==>
      var node := g.nodes[i];
      && |node.inputs| > 2 && node.inputs[0] in env && node.inputs[2] in env
      && var x, zero := env[node.inputs[0]], env[node.inputs[2]];
         && |x.data| == Size(x.shape)
         && forall k: nat {:trigger ParameterAt(k, x.shape, zero, node.attributes)} ::
              k < |x.data| ==> ParameterAt(k, x.shape, zero, node.attributes) == Fin(0.0)
  }

  // The zero point belongs to the node's tensor as ONNX asks.
  ghost predicate ZeroBelongs(a: Attributes, x: Tensor, scale: Tensor, zero: Tensor) {
    && WellFormed(x) && IsInteger(x.dtype) && WellFormed(zero) && zero.dtype == x.dtype && IsPositiveScale(scale)
    && LayoutFits(x.shape, scale, a.axis, BlockOf(a)) && LayoutFits(x.shape, zero, a.axis, BlockOf(a))
    && CanDequantize(x, None)
  }

  // With its zero point the node gives the dequantized tensor of that zero point.
  lemma NodeMeansWithZero(ops: Ops, byCode: bool, node: Node, args: Args, s: Site, x: Tensor, zero: Tensor,
                          inits: map<string, Tensor>)
    requires Conforms(ops, byCode) && node.op.DequantizeLinear? && |node.inputs| > 2 && s.zero.None?
    requires ReadsThree(args, x, s.scale, zero)
    requires IsReading(node, s, x) && WellFormed(zero) && IsInteger(x.dtype)
    requires !IsRagged(x.shape, zero.shape, node.attributes) && (IsFolded(node, s, inits) || CanPrepare(node, s))
    requires node.inputs[0] in inits ==> inits[node.inputs[0]] == x
    requires ops(node, args).Some?
    ensures ops(node, args) == Some([Dequantized(node.attributes, x, s.scale, Some(zero))])
    ensures ZeroBelongs(node.attributes, x, s.scale, zero)
  {
    assert GivesQdq(ops, byCode, node, args);
    var n := WithoutZero(node);
    LoweredNodeMeans(byCode, n, [Some(x), Some(s.scale)], s, x, inits);
  }

  ghost predicate ReadsThree(args: Args, x: Tensor, scale: Tensor, zero: Tensor) {
    |args| > 2 && args[0] == Some(x) && args[1] == Some(scale) && args[2] == Some(zero)
  }

  // What the node reads in the run.
  lemma ReadWithZero(ops: Ops, byCode: bool, own: set<string>, given: Env, g: Graph, i: nat)
    returns (before: Env, s: Site, x: Tensor, zero: Tensor)
    requires IsLowerable(ops, byCode, own, given, g) && RunsAsDeclared(ops, own, given, g)
    requires i < |g.nodes| && DropsZero(g, i) && ZeroIsReadable(g, Run(ops, g, given).value, i)
    ensures var env, node := Run(ops, g, given).value, g.nodes[i];
      && RunTo(ops, g.nodes, given + g.inits, i) == Some(before) && InputsAreBound(node, before) && |node.inputs| > 2
      && BoundTo(before, node.inputs[0], x) && BoundTo(before, node.inputs[1], s.scale)
      && BoundTo(env, node.inputs[0], x) && BoundTo(env, node.inputs[2], zero)
      && SiteOf(node, g.infos, g.inits) == Some(s) && s.zero.None? && s.scale == g.inits[node.inputs[1]]
      && ReadsThree(ArgsOf(node, before), x, s.scale, zero)
      && IsReading(node, s, x) && WellFormed(zero) && IsInteger(x.dtype)
      && !IsRagged(x.shape, zero.shape, node.attributes)
      && (node.inputs[0] in g.inits ==> g.inits[node.inputs[0]] == x)
  {
    var node := g.nodes[i];
    DroppingNode(g, i);
    s := SiteOf(node, g.infos, g.inits).value;
    BindingsOf(ops, own, given, g, NamingOf(QDQ_PREFIX), i);
    before := RunTo(ops, g.nodes, given + g.inits, i).value;
    var env := Run(ops, g, given).value;
    SiteIsRead(own, g.infos, g.inits, node, before, env);
    x, zero := before[node.inputs[0]], before[node.inputs[2]];
    assert HoldsFor(g.infos, env, node.inputs[2]);
  }

  lemma ResultWithZero(ops: Ops, byCode: bool, own: set<string>, given: Env, g: Graph, i: nat)
    returns (before: Env, x: Tensor, scale: Tensor, zero: Tensor)
    requires IsLowerable(ops, byCode, own, given, g) && RunsAsDeclared(ops, own, given, g)
    requires i < |g.nodes| && DropsZero(g, i) && ZeroIsReadable(g, Run(ops, g, given).value, i)
    ensures var env, node, t := Run(ops, g, given).value, g.nodes[i], Dequantized(g.nodes[i].attributes, x, scale, Some(zero));
      && |node.inputs| > 2 && |node.outputs| == 1 && ZeroBelongs(node.attributes, x, scale, zero)
      && BoundTo(env, node.inputs[0], x) && BoundTo(env, node.inputs[2], zero) && BoundTo(env, node.outputs[0], t)
      && RunTo(ops, g.nodes, given + g.inits, i) == Some(before) && InputsAreBound(node, before)
      && BoundTo(before, node.inputs[0], x) && BoundTo(before, node.inputs[1], scale)
      && node.inputs[1] in g.inits && scale == g.inits[node.inputs[1]]
      && RunNode(ops, node, before) == Some(before[node.outputs[0] := t])
  {
    var s;
    before, s, x, zero := ReadWithZero(ops, byCode, own, given, g, i);
    scale := s.scale;
    DroppingNode(g, i);
    WithZeroRuns(ops, byCode, own, given, g, i, before, s, x, zero);
  }

  lemma WithZeroRuns(ops: Ops, byCode: bool, own: set<string>, given: Env, g: Graph, i: nat, before: Env, s: Site,
                     x: Tensor, zero: Tensor)
    requires Conforms(ops, byCode) && i < |g.nodes| && MakesOne(g.nodes[i]) && g.nodes[i].op.DequantizeLinear?
    requires Run(ops, g, given).Some? && RunTo(ops, g.nodes, given + g.inits, i) == Some(before)
    requires IsNamedGraph(own, NamingOf(QDQ_PREFIX), g.nodes, (given + g.inits).Keys)
    requires |g.nodes[i].inputs| > 2 && InputsAreBound(g.nodes[i], before)
    requires ReadsThree(ArgsOf(g.nodes[i], before), x, s.scale, zero) && s.zero.None?
    requires IsReading(g.nodes[i], s, x) && WellFormed(zero) && IsInteger(x.dtype)
    requires !IsRagged(x.shape, zero.shape, g.nodes[i].attributes)
    requires IsFolded(g.nodes[i], s, g.inits) || CanPrepare(g.nodes[i], s)
    requires g.nodes[i].inputs[0] in g.inits ==> g.inits[g.nodes[i].inputs[0]] == x
    ensures ZeroBelongs(g.nodes[i].attributes, x, s.scale, zero)
    ensures var node, t := g.nodes[i], Dequantized(g.nodes[i].attributes, x, s.scale, Some(zero));
      && RunNode(ops, node, before) == Some(before[node.outputs[0] := t])
      && BoundTo(Run(ops, g, given).value, node.outputs[0], t)
  {
    var node, args := g.nodes[i], ArgsOf(g.nodes[i], before);
    var t := Dequantized(node.attributes, x, s.scale, Some(zero));
    NodeRuns(ops, own, given, g, i, before);
    NodeMeansWithZero(ops, byCode, node, args, s, x, zero, g.inits);
    OneResult(ops, node, before, t);
    ResultStays(ops, own, given, g, i, before, t);
  }

  lemma NodeRuns(ops: Ops, own: set<string>, given: Env, g: Graph, i: nat, before: Env)
    requires i < |g.nodes| && Run(ops, g, given).Some?
    requires RunTo(ops, g.nodes, given + g.inits, i) == Some(before)
    requires IsNamedGraph(own, NamingOf(QDQ_PREFIX), g.nodes, (given + g.inits).Keys)
    ensures RunNode(ops, g.nodes[i], before).Some? && ops(g.nodes[i], ArgsOf(g.nodes[i], before)).Some?
  {
    BindingsOf(ops, own, given, g, NamingOf(QDQ_PREFIX), i);
  }

  lemma ResultStays(ops: Ops, own: set<string>, given: Env, g: Graph, i: nat, before: Env, t: Tensor)
    requires i < |g.nodes| && Run(ops, g, given).Some? && |g.nodes[i].outputs| == 1 && g.nodes[i].outputs[0] != ""
    requires RunTo(ops, g.nodes, given + g.inits, i) == Some(before)
    requires IsNamedGraph(own, NamingOf(QDQ_PREFIX), g.nodes, (given + g.inits).Keys)
    requires RunNode(ops, g.nodes[i], before) == Some(before[g.nodes[i].outputs[0] := t])
    ensures BoundTo(Run(ops, g, given).value, g.nodes[i].outputs[0], t)
  {
    RunKeepsBindings(ops, g.nodes, given + g.inits, i + 1, |g.nodes|);
  }

  lemma OneResult(ops: Ops, node: Node, env: Env, t: Tensor)
    requires InputsAreBound(node, env) && ops(node, ArgsOf(node, env)) == Some([t])
    requires |node.outputs| == 1 && node.outputs[0] != ""
    ensures RunNode(ops, node, env) == Some(env[node.outputs[0] := t])
  {
    BindOne(env, node.outputs[0], t);
    assert node.outputs == [node.outputs[0]];
  }

  // Dropping a zero point that is zero everywhere changes nothing.
  lemma NaughtStepIsSame(ops: Ops, byCode: bool, own: set<string>, given: Env, g: Graph, i: nat)
    requires IsLowerable(ops, byCode, own, given, g) && RunsAsDeclared(ops, own, given, g) && i < |g.nodes|
    requires ZeroIsReadable(g, Run(ops, g, given).value, i) && ZeroIsNaught(g, Run(ops, g, given).value, i)
    ensures StepsAlike(ops, g.nodes, SeenGraph(g).nodes, given + g.inits, i)
  {
    if DropsZero(g, i) {
      var node, n := g.nodes[i], SeenNode(g, i);
      var before, x, scale, zero := ResultWithZero(ops, byCode, own, given, g, i);
      DroppedZeroPoint(node.attributes, x, scale, zero);
      DroppingNode(g, i);
      WithoutZeroGives(ops, byCode, n, before, x, scale);
      OneResult(ops, n, before, Dequantized(node.attributes, x, scale, None));
    }
  }

  lemma WithoutZeroGives(ops: Ops, byCode: bool, node: Node, env: Env, x: Tensor, scale: Tensor)
    requires Conforms(ops, byCode) && node.op.DequantizeLinear? && |node.inputs| == 2
    requires BoundTo(env, node.inputs[0], x) && BoundTo(env, node.inputs[1], scale)
    requires IsFloating(scale.dtype) && LayoutFits(x.shape, scale, node.attributes.axis, BlockOf(node.attributes))
    requires |x.data| == Size(x.shape) && CanDequantize(x, None)
    ensures InputsAreBound(node, env)
    ensures ops(node, ArgsOf(node, env)) == Some([Dequantized(node.attributes, x, scale, None)])
  {
    assert GivesQdq(ops, byCode, node, ArgsOf(node, env));
  }

  lemma NaughtRunIsSame(ops: Ops, byCode: bool, own: set<string>, given: Env, g: Graph)
    requires IsLowerable(ops, byCode, own, given, g) && RunsAsDeclared(ops, own, given, g)
    requires forall i: nat {:trigger ZeroIsReadable(g, Run(ops, g, given).value, i)} ::
        ZeroIsReadable(g, Run(ops, g, given).value, i)
    requires forall i: nat {:trigger ZeroIsNaught(g, Run(ops, g, given).value, i)} ::
        ZeroIsNaught(g, Run(ops, g, given).value, i)
    ensures Run(ops, SeenGraph(g), given) == Run(ops, g, given)
  {
    forall i: nat | i < |g.nodes| ensures StepsAlike(ops, g.nodes, SeenGraph(g).nodes, given + g.inits, i) {
      NaughtStepIsSame(ops, byCode, own, given, g, i);
    }
    StepsAlikeRunAlike(ops, g.nodes, SeenGraph(g).nodes, given + g.inits, |g.nodes|);
  }

  // If the tensor the node makes is right, so that both its input and its result agree with the
  // run, its zero point is zero everywhere.
  lemma RightZeroIsNaught(ops: Ops, byCode: bool, own: set<string>, given: Env, g: Graph, i: nat)
    requires IsLowerable(ops, byCode, own, given, g) && i < |g.nodes|
    requires RunsAsDeclared(ops, own, given, g) && RunsAsDeclared(ops, own, given, SeenGraph(g))
    requires ZeroIsReadable(g, Run(ops, g, given).value, i)
    requires Includes(Run(ops, g, given).value, Run(ops, SeenGraph(g), given).value)
    ensures ZeroIsNaught(g, Run(ops, g, given).value, i)
  {
    if DropsZero(g, i) {
      var before, x, scale, zero := ResultWithZero(ops, byCode, own, given, g, i);
      SeenResult(ops, byCode, own, given, g, i);
      DroppedZeroPoint(g.nodes[i].attributes, x, scale, zero);
    }
  }

  // The lowered graph gives every tensor its value if and only if the run finds every zero point
  // that was dropped zero everywhere.
  lemma ComputedZerosDecide(ops: Ops, byCode: bool, own: set<string>, given: Env, g: Graph)
    requires IsLowerable(ops, byCode, own, given, g)
    requires RunsAsDeclared(ops, own, given, g) && RunsAsDeclared(ops, own, given, SeenGraph(g))
    requires forall i: nat {:trigger ZeroIsReadable(g, Run(ops, g, given).value, i)} ::
        ZeroIsReadable(g, Run(ops, g, given).value, i)
    ensures Run(ops, LoweredGraph(g), given).Some?
    ensures Includes(Run(ops, g, given).value, Run(ops, LoweredGraph(g), given).value)
       <==> forall i: nat {:trigger ZeroIsNaught(g, Run(ops, g, given).value, i)} ::
              ZeroIsNaught(g, Run(ops, g, given).value, i)
  {
    var env, seen := Run(ops, g, given).value, Run(ops, SeenGraph(g), given).value;
    ComputedZerosAreDropped(ops, byCode, own, given, g);
    var lowered := Run(ops, LoweredGraph(g), given).value;
    if forall i: nat {:trigger ZeroIsNaught(g, env, i)} :: ZeroIsNaught(g, env, i) {
      NaughtRunIsSame(ops, byCode, own, given, g);
    }
    if Includes(env, lowered) {
      SeenBindsTheSame(ops, given, g);
      forall k {:trigger k in env} | k in env ensures k in seen && seen[k] == env[k] {
      }
      forall i: nat ensures ZeroIsNaught(g, env, i) {
        if i < |g.nodes| {
          RightZeroIsNaught(ops, byCode, own, given, g, i);
        }
      }
    }
  }

  lemma SeenBindsTheSame(ops: Ops, given: Env, g: Graph)
    requires Run(ops, g, given).Some? && Run(ops, SeenGraph(g), given).Some?
    ensures Run(ops, SeenGraph(g), given).value.Keys == Run(ops, g, given).value.Keys
  {
    var start, s := given + g.inits, SeenGraph(g).nodes;
    RunKeys(ops, g.nodes, start, |g.nodes|);
    RunKeys(ops, s, start, |s|);
    forall k ensures BoundBefore(s, |s|, k) <==> BoundBefore(g.nodes, |g.nodes|, k) {
      forall i: nat ensures Binds(s, i, k) <==> Binds(g.nodes, i, k) {
      }
    }
  }
}
