/**
 * Which QuantizeLinear and DequantizeLinear nodes are lowered
 * (src/qdq_lowering.cc:604-624, 925-931, 1423-1901).
 */
module QdqPolicy {
  import opened Options
  import opened TensorValues
  import opened Broadcasting
  import opened OnnxGraph
  import opened Declarations

  predicate IsQdq(node: Node) {
    node.op.QuantizeLinear? || node.op.DequantizeLinear?
  }

  // Scales must be constants, positive and finite.
  predicate IsPositiveScale(t: Tensor) {
    IsFloating(t.dtype) && t.data != [] && forall i :: 0 <= i < |t.data| ==> t.data[i].Fin? && t.data[i].r > 0.0
  }

  predicate HasNonZero(zero: Option<Tensor>) {
    && zero.Some? && (IsInteger(zero.value.dtype) || IsFloating(zero.value.dtype))
    && exists i :: 0 <= i < |zero.value.data| && zero.value.data[i] != Fin(0.0)
  }

  // A zero point that is computed is taken for none.
  function ConstantZero(node: Node, inits: map<string, Tensor>): (zero: Option<Tensor>) {
    if |node.inputs| > 2 && node.inputs[2] != "" && node.inputs[2] in inits then Some(inits[node.inputs[2]]) else None
  }

  // Zero points are absent or constant.
  predicate HasConstantZero(node: Node, inits: map<string, Tensor>) {
    IsQdq(node) && |node.inputs| > 2 && node.inputs[2] != "" ==> node.inputs[2] in inits
  }

  // --- What a node must bring -----------------------------------------------------------------

  // What is known beforehand of the tensors a node reads.
  datatype Site = Site(scale: Tensor, zero: Option<Tensor>, input: DType, rank: Option<nat>, shape: Option<Shape>)

  predicate HasScale(node: Node, inits: map<string, Tensor>) {
    |node.inputs| >= 2 && node.inputs[1] in inits && IsPositiveScale(inits[node.inputs[1]])
  }

  function SiteOf(node: Node, infos: map<string, ValueInfo>, inits: map<string, Tensor>): (s: Option<Site>) {
    if !IsQdq(node) || !HasScale(node, inits) then None
    else
      var x := node.inputs[0];
      match ElementType(infos, inits, x)
      case None => None
      case Some(t) =>
        Some(Site(inits[node.inputs[1]], ConstantZero(node, inits), t, StaticRank(infos, inits, x),
            StaticShape(infos, inits, x)))
  }

  // --- Base rules -----------------------------------------------------------------------------

  predicate IsUnsupportedInput(t: DType) {
    t.Int32? || t.UInt32?
  }

  predicate BaseMustLowerDequantize(zero: Option<Tensor>, input: DType) {
    HasNonZero(zero) || IsUnsupportedInput(input)
  }

  predicate BaseLowersDequantize(node: Node, infos: map<string, ValueInfo>, inits: map<string, Tensor>) {
    HasScale(node, inits) &&
    var t := ElementType(infos, inits, node.inputs[0]);
    t.Some? && BaseMustLowerDequantize(ConstantZero(node, inits), t.value)
  }

  predicate ShouldLowerQuantize(zero: Option<Tensor>, output: DType) {
    HasNonZero(zero) && output in {Int8, UInt8, Int16, UInt16}
  }

  predicate BaseLowersQuantize(node: Node, inits: map<string, Tensor>) {
    HasScale(node, inits) &&
    var zero := ConstantZero(node, inits);
    ShouldLowerQuantize(zero, OutputTypeOf(node.attributes, zero))
  }

  predicate BaseLowers(node: Node, infos: map<string, ValueInfo>, inits: map<string, Tensor>) {
    || (node.op.DequantizeLinear? && BaseLowersDequantize(node, infos, inits))
    || (node.op.QuantizeLinear? && BaseLowersQuantize(node, inits))
  }

  // --- Harmonization --------------------------------------------------------------------------

  predicate IsComputeAnchor(node: Node) {
    node.op.Gemm? || node.op.MatMul? || node.op.Conv? || node.op.ConvTranspose?
  }

  // A weight that stays native by the base rules.
  predicate IsSymmetricConstantCandidate(g: Graph, node: Node, zero: Option<Tensor>, input: DType) {
    && |node.inputs| >= 1 && node.inputs[0] != ""
    && !HasNonZero(zero) && !IsUnsupportedInput(input)
    && node.inputs[0] !in g.inputs && node.inputs[0] in g.inits
  }

  // Node j reads the tensor as its input k.
  function ReadsOf(nodes: seq<Node>, name: string): (places: set<(nat, nat)>) {
    set j: nat, k: nat | j < |nodes| && k < |nodes[j].inputs| && nodes[j].inputs[k] == name :: (j, k)
  }

  lemma OnlyRead(places: set<(nat, nat)>, p: (nat, nat), q: (nat, nat))
    requires |places| == 1 && p in places && q in places
    ensures p == q
  {
    assert |places - {p}| == 0;
    assert q in places - {p} || q == p;
  }

  // The node that alone reads the tensor, and only once, if it is an anchor.
  function SingleAnchor(nodes: seq<Node>, node: Node): (a: Option<nat>)
    ensures a.Some? ==> a.value < |nodes| && IsComputeAnchor(nodes[a.value])
  {
    if node.outputs == [] || node.outputs[0] == "" then None
    else
      var places := ReadsOf(nodes, node.outputs[0]);
      if |places| != 1 then None
      else
        assert forall p, q :: p in places && q in places ==> p == q by {
          forall p, q | p in places && q in places ensures p == q {
            OnlyRead(places, p, q);
          }
        }
        var p :| p in places;
        if IsComputeAnchor(nodes[p.0]) then Some(p.0) else None
  }

  // A node next to node i whose own rules have it lowered.
  predicate IsForced(g: Graph, i: nat, j: nat) {
    j < |g.nodes| && j != i && BaseLowers(g.nodes[j], g.infos, g.inits)
  }

  predicate FeedsAnchor(g: Graph, i: nat, name: string) {
    var p := ProducerOf(g.nodes, name);
    name != "" && p.Some? && IsForced(g, i, p.value)
  }

  predicate RequantizesAnchor(g: Graph, i: nat, name: string) {
    name != "" &&
    exists j :: 0 <= j < |g.nodes| && name in g.nodes[j].inputs && g.nodes[j].op.QuantizeLinear? && IsForced(g, i, j)
  }

  predicate AnchorHasForcedSibling(g: Graph, i: nat, anchor: Node) {
    || (exists k :: 0 <= k < |anchor.inputs| && FeedsAnchor(g, i, anchor.inputs[k]))
    || (exists k :: 0 <= k < |anchor.outputs| && RequantizesAnchor(g, i, anchor.outputs[k]))
  }

  predicate IsHarmonized(g: Graph, i: nat)
    requires i < |g.nodes|
  {
    var anchor := SingleAnchor(g.nodes, g.nodes[i]);
    anchor.Some? && AnchorHasForcedSibling(g, i, g.nodes[anchor.value])
  }

  // --- The decision ---------------------------------------------------------------------------

  predicate ShouldLowerDequantize(g: Graph, i: nat, s: Site)
    requires i < |g.nodes|
  {
    || BaseLowersDequantize(g.nodes[i], g.infos, g.inits)
    || (IsSymmetricConstantCandidate(g, g.nodes[i], s.zero, s.input) && IsHarmonized(g, i))
  }

  predicate ShouldLower(g: Graph, i: nat, s: Site)
    requires i < |g.nodes|
  {
    if g.nodes[i].op.DequantizeLinear? then ShouldLowerDequantize(g, i, s)
    else ShouldLowerQuantize(s.zero, OutputTypeOf(g.nodes[i].attributes, s.zero))
  }
}
