/**
 * Clip with an infinite bound, rewritten to the operator that applies the other bound
 * (src/clip_bound_compatibility.cc).
 */
module ClipBounds {
  import opened Options
  import opened Hiding
  import opened TensorValues
  import opened Broadcasting
  import opened ParameterLayout
  import opened OnnxGraph
  import opened GraphRuns

  datatype BoundKind = Missing | Finite | NegativeInfinity | PositiveInfinity | OtherNonFinite | Unknown

  function ClassifyValue(n: Num): (k: BoundKind) {
    match n
    case Fin(_) => Finite
    case PosInf => PositiveInfinity
    case NegInf => NegativeInfinity
    case NaN => OtherNonFinite
  }

  function ClassifyScalarTensor(t: Tensor): (k: BoundKind) {
    if Size(t.shape) != 1 || |t.data| != 1 then Unknown
    else if IsFloating(t.dtype) then ClassifyValue(t.data[0])
    else if IsInteger(t.dtype) then Finite
    else Unknown
  }

  // The tensor a bound is known to be: an initializer, or the value of a Constant node.
  function KnownTensor(nodes: seq<Node>, inits: map<string, Tensor>, name: string): (t: Option<Tensor>) {
    if name in inits then Some(inits[name])
    else
      var i := ProducerOf(nodes, name);
      if name == "" || i.None? then None
      else
        var p := nodes[i.value];
        if p.op.Constant? && InMainDomain(p) then p.attributes.value else None
  }

  function ResolveBound(nodes: seq<Node>, inits: map<string, Tensor>, node: Node, k: nat): (b: BoundKind) {
    if |node.inputs| <= k || node.inputs[k] == "" then Missing
    else
      var t := KnownTensor(nodes, inits, node.inputs[k]);
      if t.Some? then ClassifyScalarTensor(t.value) else Unknown
  }

  function Replaced(node: Node, op: Op, inputs: seq<string>): (r: Node)
    ensures r.outputs == node.outputs && r.doc == node.doc && r.name == node.name
  {
    node.(op := op, attributes := NoAttributes, inputs := inputs)
  }

  predicate IsCandidate(node: Node) {
    && node.op.Clip? && InMainDomain(node) && |node.inputs| >= 1 && node.inputs[0] != "" && |node.outputs| == 1
    && !node.attributes.clipBounds
  }

  function RewrittenClip(nodes: seq<Node>, inits: map<string, Tensor>, node: Node): (r: Node)
    ensures r.outputs == node.outputs && r.doc == node.doc
  {
    if !IsCandidate(node) then node
    else
      var low, high := ResolveBound(nodes, inits, node, 1), ResolveBound(nodes, inits, node, 2);
      if low.NegativeInfinity? && high.PositiveInfinity? then Replaced(node, Identity, [node.inputs[0]])
      else if low.Finite? && high.PositiveInfinity? then Replaced(node, Max, [node.inputs[0], node.inputs[1]])
      else if low.NegativeInfinity? && high.Finite? then Replaced(node, Min, [node.inputs[0], node.inputs[2]])
      else node
  }

  function RewrittenClips(nodes: seq<Node>, inits: map<string, Tensor>, n: nat): (r: seq<Node>)
    requires n <= |nodes|
    ensures |r| == n && forall i :: 0 <= i < n ==> r[i] == RewrittenClip(nodes, inits, nodes[i])
  {
    seq(n, i requires 0 <= i < n => RewrittenClip(nodes, inits, nodes[i]))
  }

  // --- Which nodes are rewritten --------------------------------------------------------------

  // The tensor is an initializer, or the value of the Constant node that makes it.
  ghost predicate IsKnownAs(nodes: seq<Node>, inits: map<string, Tensor>, name: string, t: Tensor) {
    if name in inits then inits[name] == t
    else
      exists j: nat :: IsProducer(nodes, name, j) && nodes[j].op.Constant? && !nodes[j].domain.Foreign? &&
        nodes[j].attributes.value == Some(t)
  }

  // Input k is there, and known to hold the single value of t.
  ghost predicate HasScalar(nodes: seq<Node>, inits: map<string, Tensor>, node: Node, k: nat, t: Tensor) {
    && k < |node.inputs| && node.inputs[k] != "" && IsKnownAs(nodes, inits, node.inputs[k], t)
    && Size(t.shape) == 1 && |t.data| == 1
  }

  ghost predicate HasInfinite(nodes: seq<Node>, inits: map<string, Tensor>, node: Node, k: nat, n: Num) {
    exists t :: HasScalar(nodes, inits, node, k, t) && t.dtype in {Float, Float16, BFloat16, Double} && t.data[0] == n
  }

  ghost predicate HasFinite(nodes: seq<Node>, inits: map<string, Tensor>, node: Node, k: nat) {
    exists t :: HasScalar(nodes, inits, node, k, t) && !t.dtype.Bool? && !t.dtype.OtherType? &&
      (t.dtype in {Float, Float16, BFloat16, Double} ==> t.data[0].Fin?)
  }

  // Bounds are inputs, not attributes.
  ghost predicate IsPlainClip(node: Node) {
    && node.op.Clip? && !node.domain.Foreign? && |node.inputs| > 0 && node.inputs[0] != "" && |node.outputs| == 1
    && !node.attributes.clipBounds
  }

  ghost predicate IsMadeTo(node: Node, r: Node, op: Op, inputs: seq<string>) {
    && r.op == op && r.inputs == inputs && r.outputs == node.outputs && r.name == node.name && r.doc == node.doc
    && r.domain == node.domain && r.attributes == NoAttributes
  }

  // A clip without finite bounds becomes Identity, one with a finite bound on one side and the
  // infinite one on the other becomes Max or Min; all else stays.
  ghost predicate IsClippedTo(nodes: seq<Node>, inits: map<string, Tensor>, node: Node, r: Node) {
    if IsPlainClip(node) && HasInfinite(nodes, inits, node, 1, NegInf) && HasInfinite(nodes, inits, node, 2, PosInf) then
      IsMadeTo(node, r, Identity, node.inputs[..1])
    else if IsPlainClip(node) && HasFinite(nodes, inits, node, 1) && HasInfinite(nodes, inits, node, 2, PosInf) then
      IsMadeTo(node, r, Max, node.inputs[..2])
    else if IsPlainClip(node) && HasInfinite(nodes, inits, node, 1, NegInf) && HasFinite(nodes, inits, node, 2) then
      |node.inputs| > 2 && IsMadeTo(node, r, Min, [node.inputs[0], node.inputs[2]])
    else r == node
  }

  lemma KnownAsStated(nodes: seq<Node>, inits: map<string, Tensor>, name: string, t: Tensor)
    requires name != ""
    ensures IsKnownAs(nodes, inits, name, t) <==> KnownTensor(nodes, inits, name) == Some(t)
  {
    var i := ProducerOf(nodes, name);
    if i.Some? {
      ProducerIsLast(nodes, name, i.value);
    }
    forall j: nat | IsProducer(nodes, name, j) ensures i == Some(j) {
      ProducerIsLast(nodes, name, j);
    }
  }

  lemma BoundAsStated(nodes: seq<Node>, inits: map<string, Tensor>, node: Node, k: nat)
    ensures var b := ResolveBound(nodes, inits, node, k);
      && (HasInfinite(nodes, inits, node, k, NegInf) <==> b.NegativeInfinity?)
      && (HasInfinite(nodes, inits, node, k, PosInf) <==> b.PositiveInfinity?)
      && (HasFinite(nodes, inits, node, k) <==> b.Finite?)
  {
    if k < |node.inputs| && node.inputs[k] != "" {
      var known := KnownTensor(nodes, inits, node.inputs[k]);
      forall t ensures IsKnownAs(nodes, inits, node.inputs[k], t) <==> known == Some(t) {
        KnownAsStated(nodes, inits, node.inputs[k], t);
      }
      if known.Some? {
        var t := known.value;
        assert HasScalar(nodes, inits, node, k, t) <==> Size(t.shape) == 1 && |t.data| == 1;
      }
    }
  }

  lemma ClippedAsStated(nodes: seq<Node>, inits: map<string, Tensor>, node: Node)
    ensures IsClippedTo(nodes, inits, node, RewrittenClip(nodes, inits, node))
  {
    BoundAsStated(nodes, inits, node, 1);
    BoundAsStated(nodes, inits, node, 2);
  }

  ghost predicate ClippedFacts(nodes: seq<Node>, inits: map<string, Tensor>, r: seq<Node>, u: Unfolding) {
    |r| == |nodes| && forall i :: 0 <= i < |nodes| ==> IsClippedTo(nodes, inits, nodes[i], r[i])
  }

  // Each node has become what its bounds call for.
  ghost predicate AreClipped(nodes: seq<Node>, inits: map<string, Tensor>, r: seq<Node>) {
    forall u {:trigger ClippedFacts(nodes, inits, r, u)} :: ClippedFacts(nodes, inits, r, u)
  }

  lemma ClipsAsStated(nodes: seq<Node>, inits: map<string, Tensor>)
    ensures AreClipped(nodes, inits, RewrittenClips(nodes, inits, |nodes|))
  {
    forall i | 0 <= i < |nodes| ensures IsClippedTo(nodes, inits, nodes[i], RewrittenClip(nodes, inits, nodes[i])) {
      ClippedAsStated(nodes, inits, nodes[i]);
    }
    forall u ensures ClippedFacts(nodes, inits, RewrittenClips(nodes, inits, |nodes|), u) {
    }
  }

  ghost predicate RewrittenFacts(index: seq<Node>, inits: map<string, Tensor>, node: Node, r: Node, u: Unfolding) {
    r == RewrittenClip(index, inits, node)
  }

  ghost predicate IsRewritten(index: seq<Node>, inits: map<string, Tensor>, node: Node, r: Node) {
    forall u {:trigger RewrittenFacts(index, inits, node, r, u)} :: RewrittenFacts(index, inits, node, r, u)
  }

  lemma AllRewritten(index: seq<Node>, inits: map<string, Tensor>, r: seq<Node>)
    requires |r| == |index| && forall j :: 0 <= j < |index| ==> IsRewritten(index, inits, index[j], r[j])
    ensures r == RewrittenClips(index, inits, |index|) && AreClipped(index, inits, r)
  {
    ClipsAsStated(index, inits);
    forall j | 0 <= j < |index| ensures r[j] == RewrittenClip(index, inits, index[j]) {
      assert RewrittenFacts(index, inits, index[j], r[j], Unfolded);
    }
  }

  // The nodes are rewritten in place, by the index built from them beforehand.
  method RewriteClipBounds(nodes: array<Node>, inits: map<string, Tensor>)
    modifies nodes
    ensures nodes[..] == RewrittenClips(old(nodes[..]), inits, nodes.Length)
    ensures AreClipped(old(nodes[..]), inits, nodes[..])
  {
    var index := nodes[..];
    for i := 0 to nodes.Length
      invariant forall j :: 0 <= j < i ==> IsRewritten(index, inits, index[j], nodes[j])
      invariant forall j :: i <= j < nodes.Length ==> nodes[j] == index[j]
    {
      var r := ReplaceNode(index, inits, nodes[i]);
      nodes[i] := r;
    }
    AllRewritten(index, inits, nodes[..]);
  }

  method ReplaceNode(index: seq<Node>, inits: map<string, Tensor>, node: Node) returns (r: Node)
    ensures IsRewritten(index, inits, node, r)
  {
    r := node;
    if IsCandidate(node) {
      var low, high := ResolveBound(index, inits, node, 1), ResolveBound(index, inits, node, 2);
      if low == NegativeInfinity && high == PositiveInfinity {
        r := Replaced(node, Identity, [node.inputs[0]]);
      } else if low == Finite && high == PositiveInfinity {
        r := Replaced(node, Max, [node.inputs[0], node.inputs[1]]);
      } else if low == NegativeInfinity && high == Finite {
        r := Replaced(node, Min, [node.inputs[0], node.inputs[2]]);
      }
    }
  }

  // --- Meaning --------------------------------------------------------------------------------

  lemma InfiniteBoundsDoNothing(n: Num, b: Num)
    ensures Smaller(Larger(n, NegInf), b) == Smaller(n, b)
    ensures !b.NaN? ==> Smaller(Larger(n, b), PosInf) == Larger(n, b)
    ensures Smaller(n, PosInf) == n
  {
  }

  // Elementwise, with the bounds a run finds: each rewritten operator is the Clip it replaces.
  lemma RewrittenClipMeans(node: Node, x: Tensor, low: Tensor, high: Tensor, r: Tensor)
    requires ClipMeaning(node, [Some(x), Some(low), Some(high)]) == Means(Some(r))
    ensures ClassifyScalarTensor(low).NegativeInfinity? && ClassifyScalarTensor(high).PositiveInfinity? ==> r == x
    ensures ClassifyScalarTensor(low).Finite? && ClassifyScalarTensor(high).PositiveInfinity? ==>
        Zipped(Fitted(TakingLarger(), x.dtype), x, low) == Some(r)
    ensures ClassifyScalarTensor(low).NegativeInfinity? && ClassifyScalarTensor(high).Finite? ==>
        Zipped(Fitted(TakingSmaller(), x.dtype), x, high) == Some(r)
  {
    var kl, kh := ClassifyScalarTensor(low), ClassifyScalarTensor(high);
    if kl.NegativeInfinity? && kh.PositiveInfinity? {
      forall i | 0 <= i < |x.data| ensures r.data[i] == x.data[i] {
        InfiniteBoundsDoNothing(x.data[i], PosInf);
      }
      assert r.data == x.data;
    }
    if kl.Finite? && kh.PositiveInfinity? {
      OneBound(TakingLarger(), x, low, r);
    }
    if kl.NegativeInfinity? && kh.Finite? {
      OneBound(TakingSmaller(), x, high, r);
    }
  }

  lemma OneBound(op: BinaryOp, x: Tensor, bound: Tensor, r: Tensor)
    requires |x.data| == Size(x.shape) && IsFloating(x.dtype) && bound.dtype == x.dtype
    requires IsSingle(bound.shape) && |bound.shape| <= |x.shape| && |bound.data| == 1
    requires r.dtype == x.dtype && r.shape == x.shape && |r.data| == |x.data|
    requires forall i :: 0 <= i < |x.data| ==> r.data[i] == op(x.data[i], bound.data[0])
    ensures Zipped(Fitted(op, x.dtype), x, bound) == Some(r)
  {
    SizeOneIsOnes(bound.shape);
    ZippedWithParameter(Fitted(op, x.dtype), x, bound);
    var z := Zipped(Fitted(op, x.dtype), x, bound).value;
    forall i: nat | i < |x.data| ensures z.data[i] == r.data[i] {
      UnflattenWithin(i, x.shape);
      SingleElement(bound, x.shape, Unflatten(i, x.shape));
    }
    assert z.data == r.data;
  }

  // --- Runs -----------------------------------------------------------------------------------

  // What a run has bound was bound by the node that makes it.
  lemma ProducerHasRun(ops: Ops, nodes: seq<Node>, env: Env, n: nat, before: Env, p: nat, name: string)
    requires IsSsa(nodes, env.Keys) && n <= |nodes| && RunTo(ops, nodes, env, n) == Some(before)
    requires name in before && Binds(nodes, p, name)
    ensures p < n && RunTo(ops, nodes, env, p + 1).Some? && Includes(RunTo(ops, nodes, env, p + 1).value, before)
  {
    assert BoundOnce(nodes, env.Keys, name);
    RunKeys(ops, nodes, env, n);
    var j: nat :| j < n && Binds(nodes, j, name);
    RunKeepsBindings(ops, nodes, env, p + 1, n);
  }

  // In a run, a bound is the tensor the index resolves it to.
  lemma KnownTensorIsBound(
    ops: Ops, byCode: bool, nodes: seq<Node>, inits: map<string, Tensor>, env: Env, n: nat, before: Env, name: string)
    requires Conforms(ops, byCode)
    requires IsSsa(nodes, env.Keys) && Includes(inits, env) && n <= |nodes| && RunTo(ops, nodes, env, n) == Some(before)
    requires name in before && KnownTensor(nodes, inits, name).Some?
    ensures before[name] == KnownTensor(nodes, inits, name).value
  {
    if name in inits {
      RunKeepsBindings(ops, nodes, env, 0, n);
    } else {
      var p := ProducerOf(nodes, name).value;
      ProducerHasRun(ops, nodes, env, n, before, p, name);
      ConstantBinds(ops, byCode, nodes, env, p, name);
    }
  }

  lemma ConstantBinds(ops: Ops, byCode: bool, nodes: seq<Node>, env: Env, p: nat, name: string)
    requires Conforms(ops, byCode)
    requires p < |nodes| && RunTo(ops, nodes, env, p + 1).Some? && name in nodes[p].outputs && name != ""
    requires nodes[p].op.Constant? && InMainDomain(nodes[p]) && nodes[p].attributes.value.Some?
    ensures name in RunTo(ops, nodes, env, p + 1).value
    ensures RunTo(ops, nodes, env, p + 1).value[name] == nodes[p].attributes.value.value
  {
    var before := RunTo(ops, nodes, env, p).value;
    var t := nodes[p].attributes.value.value;
    assert GivesConstant(ops, nodes[p], ArgsOf(nodes[p], before));
    assert nodes[p].outputs == [name];
    BindOne(before, name, t);
  }

  // How the bounds found decide the replacement.
  ghost predicate IsReplacement(node: Node, low: BoundKind, high: BoundKind, r: Node)
    requires |node.inputs| >= 3
  {
    || (low.NegativeInfinity? && high.PositiveInfinity? && r == Replaced(node, Identity, [node.inputs[0]]))
    || (low.Finite? && high.PositiveInfinity? && r == Replaced(node, Max, [node.inputs[0], node.inputs[1]]))
    || (low.NegativeInfinity? && high.Finite? && r == Replaced(node, Min, [node.inputs[0], node.inputs[2]]))
  }

  lemma ReplacementIsKnown(nodes: seq<Node>, inits: map<string, Tensor>, node: Node)
    requires RewrittenClip(nodes, inits, node) != node
    ensures IsCandidate(node) && |node.inputs| >= 3
    ensures forall k {:trigger node.inputs[k]} :: 1 <= k <= 2 ==>
        node.inputs[k] != "" && KnownTensor(nodes, inits, node.inputs[k]).Some?
    ensures var low := KnownTensor(nodes, inits, node.inputs[1]).value;
      var high := KnownTensor(nodes, inits, node.inputs[2]).value;
      IsReplacement(node, ClassifyScalarTensor(low), ClassifyScalarTensor(high), RewrittenClip(nodes, inits, node))
  {
  }

  lemma SameResults(ops: Ops, node: Node, r: Node, env: Env)
    requires r.outputs == node.outputs && InputsAreBound(node, env) && InputsAreBound(r, env)
    requires ops(r, ArgsOf(r, env)) == ops(node, ArgsOf(node, env))
    ensures RunNode(ops, r, env) == RunNode(ops, node, env)
  {
  }

  lemma ClipGives(ops: Ops, byCode: bool, node: Node, env: Env, x: Tensor, low: Tensor, high: Tensor)
    returns (t: Tensor)
    requires Conforms(ops, byCode)
    requires IsCandidate(node) && |node.inputs| >= 3 && node.inputs[1] != "" && node.inputs[2] != ""
    requires InputsAreBound(node, env) && ops(node, ArgsOf(node, env)).Some?
    requires env[node.inputs[0]] == x && env[node.inputs[1]] == low && env[node.inputs[2]] == high
    requires var kl, kh := ClassifyScalarTensor(low), ClassifyScalarTensor(high);
      (kl.NegativeInfinity? || kl.Finite?) && (kh.PositiveInfinity? || kh.Finite?)
    ensures ClipMeaning(node, [Some(x), Some(low), Some(high)]) == Means(Some(t))
    ensures ops(node, ArgsOf(node, env)) == Some([t])
  {
    var args := ArgsOf(node, env);
    assert GivesClip(ops, node, args);
    assert |args| == 3;
    assert args == [Some(x), Some(low), Some(high)];
    t := ClipMeaning(node, args).result.value;
  }

  lemma ReplacementApplies(ops: Ops, byCode: bool, node: Node, r: Node, env: Env, low: Tensor, high: Tensor)
    requires Conforms(ops, byCode)
    requires IsCandidate(node) && |node.inputs| >= 3 && node.inputs[1] != "" && node.inputs[2] != ""
    requires InputsAreBound(node, env) && ops(node, ArgsOf(node, env)).Some?
    requires env[node.inputs[1]] == low && env[node.inputs[2]] == high
    requires IsReplacement(node, ClassifyScalarTensor(low), ClassifyScalarTensor(high), r)
    ensures InputsAreBound(r, env) && ops(r, ArgsOf(r, env)) == ops(node, ArgsOf(node, env))
  {
    var x := env[node.inputs[0]];
    var t := ClipGives(ops, byCode, node, env, x, low, high);
    RewrittenClipMeans(node, x, low, high, t);
    if r.op.Identity? {
      OneArg(r, env, node.inputs[0]);
      assert GivesUnary(ops, r, [Some(x)]);
    } else if r.op.Max? {
      BoundGives(ops, byCode, r, env, node.inputs[0], node.inputs[1], t);
    } else {
      BoundGives(ops, byCode, r, env, node.inputs[0], node.inputs[2], t);
    }
  }

  lemma BoundGives(ops: Ops, byCode: bool, r: Node, env: Env, a: string, b: string, t: Tensor)
    requires Conforms(ops, byCode) && InMainDomain(r) && (r.op.Max? || r.op.Min?)
    requires r.inputs == [a, b] && a != "" && b != "" && a in env && b in env
    requires Zipped(Fitted(OperatorOf(r.op), env[a].dtype), env[a], env[b]) == Some(t)
    ensures InputsAreBound(r, env) && ops(r, ArgsOf(r, env)) == Some([t])
  {
    TwoArgs(r, env, a, b);
    assert GivesBinary(ops, r, [Some(env[a]), Some(env[b])]);
  }

  // A rewritten node does in a run what the Clip did.
  lemma RewrittenNodeRuns(ops: Ops, byCode: bool, nodes: seq<Node>, inits: map<string, Tensor>, env: Env, n: nat,
      before: Env)
    requires Conforms(ops, byCode)
    requires IsSsa(nodes, env.Keys) && Includes(inits, env) && n < |nodes|
    requires RunTo(ops, nodes, env, n) == Some(before)
    requires RunNode(ops, nodes[n], before).Some?
    ensures RunNode(ops, RewrittenClip(nodes, inits, nodes[n]), before) == RunNode(ops, nodes[n], before)
  {
    var node, r := nodes[n], RewrittenClip(nodes, inits, nodes[n]);
    if r != node {
      ReplacementIsKnown(nodes, inits, node);
      KnownTensorIsBound(ops, byCode, nodes, inits, env, n, before, node.inputs[1]);
      KnownTensorIsBound(ops, byCode, nodes, inits, env, n, before, node.inputs[2]);
      ReplacementApplies(ops, byCode, node, r, before, before[node.inputs[1]], before[node.inputs[2]]);
      SameResults(ops, node, r, before);
    }
  }

  lemma ClipStepIsSame(ops: Ops, byCode: bool, nodes: seq<Node>, inits: map<string, Tensor>, env: Env, n: nat)
    requires Conforms(ops, byCode) && IsSsa(nodes, env.Keys) && Includes(inits, env) && n < |nodes|
    requires RunNodes(ops, nodes, env).Some?
    ensures StepsAlike(ops, nodes, RewrittenClips(nodes, inits, |nodes|), env, n)
  {
    RunKeepsBindings(ops, nodes, env, n + 1, |nodes|);
    RunKeepsBindings(ops, nodes, env, n, |nodes|);
    var before := RunTo(ops, nodes, env, n).value;
    RewrittenNodeRuns(ops, byCode, nodes, inits, env, n, before);
  }

  // The rewritten graph runs exactly as the graph did, tensor for tensor.
  lemma ClipRunIsSame(ops: Ops, byCode: bool, nodes: seq<Node>, inits: map<string, Tensor>, env: Env)
    requires Conforms(ops, byCode) && IsSsa(nodes, env.Keys) && Includes(inits, env)
    requires RunNodes(ops, nodes, env).Some?
    ensures RunNodes(ops, RewrittenClips(nodes, inits, |nodes|), env) == RunNodes(ops, nodes, env)
  {
    var rewritten := RewrittenClips(nodes, inits, |nodes|);
    forall n: nat | n < |nodes| ensures StepsAlike(ops, nodes, rewritten, env, n) {
      ClipStepIsSame(ops, byCode, nodes, inits, env, n);
    }
    StepsAlikeRunAlike(ops, nodes, rewritten, env, |nodes|);
  }
}
