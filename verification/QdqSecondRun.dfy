/**
 * Lowering a lowered graph lowers nothing: whatever is still a quantizing node is kept again,
 * harmonization included (src/qdq_lowering.cc:1604-1870).
 */
module QdqSecondRun {
  import opened Options
  import opened Hiding
  import opened TensorValues
  import opened Broadcasting
  import opened OnnxGraph
  import opened GraphRuns
  import opened LoweredNames
  import opened Drafts
  import opened Declarations
  import opened QdqPolicy
  import opened QdqLowering
  import opened QdqCredit

  // --- How stretches end and what they read ---------------------------------------------------

  ghost predicate ReadsFirst(m: Node, node: Node) {
    |m.inputs| > 0 && |node.inputs| > 0 && m.inputs[0] == node.inputs[0]
  }

  // Among the nodes d' adds to d, one reads what the node reads first.
  ghost predicate ReadsInput(d: Draft, d': Draft, node: Node) {
    exists k :: |d.nodes| <= k < |d'.nodes| && ReadsFirst(d'.nodes[k], node)
  }

  // The node casts that tensor to the type.
  ghost predicate CastsFirst(m: Node, node: Node, to: DType) {
    ReadsFirst(m, node) && m.op.Cast? && m.attributes.to == Some(CodeOfType(to))
  }

  ghost predicate CastsInput(d: Draft, d': Draft, node: Node, to: DType) {
    exists k :: |d.nodes| <= k < |d'.nodes| && CastsFirst(d'.nodes[k], node, to)
  }

  lemma CastReads(d: Draft, x: Draft, d': Draft, node: Node, to: DType)
    requires |node.outputs| == 1 && |node.inputs| >= 2
    requires x == Applied(d, node, Cast, Some(to), "cast_input", "input_cast", [node.inputs[0]]).draft
    requires d'.nodes != [] && Credits(x, WithoutLast(d'), node)
    ensures CastsInput(d, d', node, to)
  {
    assert CreditsFacts(x, WithoutLast(d'), node, Unfolded);
    assert x.nodes[|d.nodes|].inputs == [node.inputs[0]];
    assert WithoutLast(d').nodes[|d.nodes|] == d'.nodes[|d.nodes|];
    assert CastsFirst(d'.nodes[|d.nodes|], node, to);
  }

  lemma DequantizingReads(d: Draft, node: Node, math: DType, arithmetic: DType, scale: string, zero: Option<string>)
    requires |node.outputs| == 1 && |node.inputs| >= 2
    ensures CastsInput(d, Dequantizing(d, node, math, arithmetic, scale, zero), node, math)
    ensures !IsQdq(Last(Dequantizing(d, node, math, arithmetic, scale, zero)))
  {
    var x := Applied(d, node, Cast, Some(math), "cast_input", "input_cast", [node.inputs[0]]);
    var diff, d' := Difference(d, node, math, zero), Dequantizing(d, node, math, arithmetic, scale, zero);
    StoresNothing(x.draft);
    CreditsSameNodes(x.draft, x.draft, node);
    if zero.Some? {
      var z := Applied(x.draft, node, Cast, Some(math), "cast_zero", "zero_cast", [zero.value]);
      AppliedCredits(x.draft, node, Cast, Some(math), "cast_zero", "zero_cast", [zero.value]);
      AppliedCredits(z.draft, node, Sub, None, "sub", "shifted", [x.name, z.name]);
      CreditsThrough(x.draft, z.draft, diff.draft, node);
    }
    var e := diff;
    if math != arithmetic {
      e := Applied(diff.draft, node, Cast, Some(arithmetic), "cast_diff", "diff_cast", [diff.name]);
      AppliedCredits(diff.draft, node, Cast, Some(arithmetic), "cast_diff", "diff_cast", [diff.name]);
      CreditsThrough(x.draft, diff.draft, e.draft, node);
    }
    FinishedRepresents(e.draft, node, Mul, None, BaseOf(node), "mul", [e.name, scale]);
    CreditsThrough(x.draft, e.draft, WithoutLast(d'), node);
    CastReads(d, x.draft, d', node, math);
  }

  lemma StoresNothing(d: Draft)
    ensures StoresApart(d, d)
  {
  }

  function Last(d: Draft): (m: Node)
    requires d.nodes != []
  {
    d.nodes[|d.nodes| - 1]
  }

  lemma QuantizingReads(d: Draft, node: Node, arithmetic: DType, output: DType, scale: string, zero: Option<string>)
    requires |node.outputs| == 1 && |node.inputs| >= 2
    ensures CastsInput(d, Quantizing(d, node, arithmetic, output, scale, zero), node, arithmetic)
    ensures !IsQdq(Last(Quantizing(d, node, arithmetic, output, scale, zero)))
  {
    var x := Applied(d, node, Cast, Some(arithmetic), "cast_input", "input_cast", [node.inputs[0]]);
    var r, d' := RoundedQuotient(d, node, arithmetic, scale, zero), Quantizing(d, node, arithmetic, output, scale, zero);
    RoundingCredits(x.draft, node, arithmetic, x.name, scale, zero);
    SaturatingRepresents(r.draft, node, arithmetic, output, r.name);
    CreditsThrough(x.draft, r.draft, WithoutLast(d'), node);
    CastReads(d, x.draft, d', node, arithmetic);
  }

  lemma RoundingCredits(d: Draft, node: Node, arithmetic: DType, x: string, scale: string, zero: Option<string>)
    requires |node.outputs| == 1
    ensures var q := Applied(d, node, Div, None, "div_node", "div", [x, scale]);
      var shifted := if zero.None? then q else
                       var z := Applied(q.draft, node, Cast, Some(arithmetic), "cast_zero", "zero_cast", [zero.value]);
                       Applied(z.draft, node, Add, None, "add", "shifted", [q.name, z.name]);
      Credits(d, Applied(shifted.draft, node, Round, None, "round", "rounded", [shifted.name]).draft, node)
  {
    var q := Applied(d, node, Div, None, "div_node", "div", [x, scale]);
    AppliedCredits(d, node, Div, None, "div_node", "div", [x, scale]);
    var shifted := q;
    if zero.Some? {
      var z := Applied(q.draft, node, Cast, Some(arithmetic), "cast_zero", "zero_cast", [zero.value]);
      AppliedCredits(q.draft, node, Cast, Some(arithmetic), "cast_zero", "zero_cast", [zero.value]);
      CreditsThrough(d, q.draft, z.draft, node);
      shifted := Applied(z.draft, node, Add, None, "add", "shifted", [q.name, z.name]);
      AppliedCredits(z.draft, node, Add, None, "add", "shifted", [q.name, z.name]);
      CreditsThrough(d, z.draft, shifted.draft, node);
    }
    AppliedCredits(shifted.draft, node, Round, None, "round", "rounded", [shifted.name]);
    CreditsThrough(d, shifted.draft, Applied(shifted.draft, node, Round, None, "round", "rounded",
        [shifted.name]).draft, node);
  }

  // A lowered node leaves no quantizing node, and what it read is still read unless folded away.
  lemma LoweredLeavesNone(d: Draft, g: Graph, i: nat)
    requires GetsLowered(g, i) && MakesOne(g.nodes[i])
    ensures AfterQdqNode(d, g, i).nodes != [] && !IsQdq(Last(AfterQdqNode(d, g, i)))
    ensures g.nodes[i].inputs[0] in g.inits || ReadsInput(d, AfterQdqNode(d, g, i), g.nodes[i])
    ensures var node, s := g.nodes[i], SiteOf(g.nodes[i], g.infos, g.inits).value;
      (node.op.DequantizeLinear? && FoldingAt(node, s, g.inits).Folded?) ||
      CastsInput(d, AfterQdqNode(d, g, i), node, WorkingType(node, s))
  {
    if g.nodes[i].op.DequantizeLinear? {
      DequantizeLeavesNone(d, g, i);
    } else {
      QuantizeLeavesNone(d, g, i);
    }
  }

  lemma DequantizeLeavesNone(d: Draft, g: Graph, i: nat)
    requires GetsLowered(g, i) && MakesOne(g.nodes[i]) && g.nodes[i].op.DequantizeLinear?
    ensures AfterQdqNode(d, g, i).nodes != [] && !IsQdq(Last(AfterQdqNode(d, g, i)))
    ensures var node, s := g.nodes[i], SiteOf(g.nodes[i], g.infos, g.inits).value;
      if FoldingAt(node, s, g.inits).Folded? then node.inputs[0] in g.inits
      else
        && CastsInput(d, AfterQdqNode(d, g, i), node, MathType(s.input, s.scale.dtype))
        && ReadsInput(d, AfterQdqNode(d, g, i), node)
  {
    var node, s := g.nodes[i], SiteOf(g.nodes[i], g.infos, g.inits).value;
    var f, math := FoldingAt(node, s, g.inits), MathType(s.input, s.scale.dtype);
    if !f.Folded? {
      var d1 := if f.Stray? then WithFold(d, node, s.scale.dtype, f) else d;
      var p := Prepare(d1, node, s, s.scale.dtype);
      PreparedWhenPossible(d1, node, s, s.scale.dtype);
      PrepareCredits(d1, node, s, s.scale.dtype);
      DequantizingReads(p.draft, node, math, s.scale.dtype, p.scale, p.zero);
      StillCasts(d1, p.draft, AfterQdqNode(d, g, i), node, math);
      assert |d.nodes| == |d1.nodes|;
      CastingReads(d, AfterQdqNode(d, g, i), node, math);
    }
  }

  lemma QuantizeLeavesNone(d: Draft, g: Graph, i: nat)
    requires GetsLowered(g, i) && MakesOne(g.nodes[i]) && !g.nodes[i].op.DequantizeLinear?
    ensures AfterQdqNode(d, g, i).nodes != [] && !IsQdq(Last(AfterQdqNode(d, g, i)))
    ensures var node, s := g.nodes[i], SiteOf(g.nodes[i], g.infos, g.inits).value;
      && CastsInput(d, AfterQdqNode(d, g, i), node, WorkingType(node, s))
      && ReadsInput(d, AfterQdqNode(d, g, i), node)
  {
    var node, s := g.nodes[i], SiteOf(g.nodes[i], g.infos, g.inits).value;
    var output := OutputTypeOf(node.attributes, s.zero);
    var arithmetic := QuantizeArithmetic(s.scale.dtype, output);
    var p := Prepare(d, node, s, arithmetic);
    PreparedWhenPossible(d, node, s, arithmetic);
    PrepareCredits(d, node, s, arithmetic);
    QuantizingReads(p.draft, node, arithmetic, output, p.scale, p.zero);
    StillCasts(d, p.draft, AfterQdqNode(d, g, i), node, arithmetic);
    CastingReads(d, AfterQdqNode(d, g, i), node, arithmetic);
  }

  // The type the arithmetic of a node begins in.
  function WorkingType(node: Node, s: Site): (t: DType) {
    if node.op.DequantizeLinear? then MathType(s.input, s.scale.dtype)
    else QuantizeArithmetic(s.scale.dtype, OutputTypeOf(node.attributes, s.zero))
  }

  lemma StillCasts(a: Draft, b: Draft, c: Draft, node: Node, to: DType)
    requires Credits(a, b, node) && CastsInput(b, c, node, to)
    ensures CastsInput(a, c, node, to)
  {
    assert CreditsFacts(a, b, node, Unfolded);
    var k :| |b.nodes| <= k < |c.nodes| && CastsFirst(c.nodes[k], node, to);
  }

  lemma CastingReads(d: Draft, d': Draft, node: Node, to: DType)
    requires CastsInput(d, d', node, to)
    ensures ReadsInput(d, d', node)
  {
    var k :| |d.nodes| <= k < |d'.nodes| && CastsFirst(d'.nodes[k], node, to);
    assert ReadsFirst(d'.nodes[k], node);
  }

  lemma KeptEndsInNode(d: Draft, g: Graph, i: nat)
    requires i < |g.nodes| && MakesOne(g.nodes[i]) && !GetsLowered(g, i)
    ensures AfterQdqNode(d, g, i).nodes != [] && Last(AfterQdqNode(d, g, i)) == g.nodes[i]
  {
    var node, s := g.nodes[i], SiteOf(g.nodes[i], g.infos, g.inits);
    if s.Some? && ShouldLower(g, i, s.value) {
      var f := FoldingAt(node, s.value, g.inits);
      var d1 := if node.op.DequantizeLinear? && f.Stray? then WithFold(d, node, s.value.scale.dtype, f) else d;
      PreparedWhenPossible(d1, node, s.value, s.value.scale.dtype);
      PreparedWhenPossible(d1, node, s.value, QuantizeArithmetic(s.value.scale.dtype, OutputTypeOf(node.attributes,
          s.value.zero)));
    }
  }

  // --- Nodes of the lowered graph -------------------------------------------------------------

  // The graph is as ONNX wants it, has constant zero points, and its names are not helpers' names.
  ghost predicate IsRegularNode(node: Node, inits: map<string, Tensor>, prefix: string) {
    && MakesOne(node) && HasConstantZero(node, inits)
    && (IsQdq(node) ==> |node.inputs| <= 3 && forall k :: k in node.inputs ==> !IsReserved(prefix, k))
  }

  ghost predicate IsRegular(g: Graph, prefix: string) {
    IsSsa(g.nodes, g.inits.Keys) && forall i :: 0 <= i < |g.nodes| ==> IsRegularNode(g.nodes[i], g.inits, prefix)
  }

  ghost predicate IsPassOf(trail: seq<Draft>, g: Graph, naming: Naming) {
    && IsTrail(trail, g) && trail[0] == Draft(naming, g.inits, [], 0) && IsNaming(naming)
    && IsRegular(g, naming.prefix)
  }

  function LoweredBy(trail: seq<Draft>, g: Graph): (g': Graph)
    requires |trail| == |g.nodes| + 1
  {
    g.(nodes := trail[|g.nodes|].nodes, inits := trail[|g.nodes|].inits)
  }

  predicate IsPlain(m: Node) {
    !IsQdq(m) && !IsComputeAnchor(m)
  }

  lemma DraftEnds(d: Draft, g: Graph, i: nat)
    requires i < |g.nodes| && MakesOne(g.nodes[i])
    ensures var d' := AfterQdqNode(d, g, i);
      d'.nodes != [] && if GetsLowered(g, i) then IsPlain(Last(d')) else Last(d') == g.nodes[i]
  {
    if GetsLowered(g, i) {
      LoweredLeavesNone(d, g, i);
      NodeIsRepresented(d, g, i);
    } else {
      KeptEndsInNode(d, g, i);
    }
  }

  lemma StretchEnds(trail: seq<Draft>, g: Graph, i: nat)
    requires IsTrail(trail, g) && i < |g.nodes|
    ensures var d' := trail[i + 1];
      d'.nodes != [] && if GetsLowered(g, i) then IsPlain(Last(d')) else Last(d') == g.nodes[i]
  {
    assert StepsAt(trail, g, i);
    DraftEnds(trail[i], g, i);
  }

  // What is in a stretch: helpers, and at the end the node where it was kept.
  lemma InStretch(trail: seq<Draft>, g: Graph, naming: Naming, i: nat)
    requires IsPassOf(trail, g, naming) && i < |g.nodes|
    ensures var r := LoweredBy(trail, g).nodes; var from, to := |trail[i].nodes|, |trail[i + 1].nodes|;
      && from < to <= |r| && r[..to] == trail[i + 1].nodes
      && (forall k :: from <= k < to - 1 ==> IsPlain(r[k]))
      && (if GetsLowered(g, i) then IsPlain(r[to - 1]) else r[to - 1] == g.nodes[i])
  {
    EveryNodeIsRepresented(trail, g, i);
    StretchEnds(trail, g, i);
    var r, to := trail[|g.nodes|].nodes, |trail[i + 1].nodes|;
    assert r[to - 1] == r[..to][to - 1];
  }

  // A quantizing node or an anchor of the lowered graph is a node of the graph that was kept.
  lemma OriginOf(trail: seq<Draft>, g: Graph, naming: Naming, j: nat) returns (i: nat)
    requires IsPassOf(trail, g, naming) && j < |LoweredBy(trail, g).nodes|
    requires !IsPlain(LoweredBy(trail, g).nodes[j])
    ensures i < |g.nodes| && LoweredBy(trail, g).nodes[j] == g.nodes[i] && !GetsLowered(g, i)
    ensures |trail[i].nodes| <= j && j == |trail[i + 1].nodes| - 1
  {
    i := StretchAt(trail, g, |g.nodes|, j);
    InStretch(trail, g, naming, i);
  }

  lemma StretchesApart(trail: seq<Draft>, g: Graph, a: nat, b: nat, j: nat)
    requires IsTrail(trail, g) && a < |g.nodes| && b < |g.nodes|
    requires |trail[a].nodes| <= j < |trail[a + 1].nodes| && |trail[b].nodes| <= j < |trail[b + 1].nodes|
    ensures a == b
  {
    if a < b {
      TrailGrows(trail, g, a + 1, b);
    } else if b < a {
      TrailGrows(trail, g, b + 1, a);
    }
  }

  // --- Lookups --------------------------------------------------------------------------------

  ghost predicate AgreeFor(node: Node, inits: map<string, Tensor>, inits': map<string, Tensor>) {
    forall k :: k in node.inputs ==> (k in inits' <==> k in inits) && (k in inits ==> inits'[k] == inits[k])
  }

  lemma LookupsAgree(trail: seq<Draft>, g: Graph, naming: Naming, i: nat)
    requires IsPassOf(trail, g, naming) && i < |g.nodes| && IsQdq(g.nodes[i])
    ensures AgreeFor(g.nodes[i], g.inits, LoweredBy(trail, g).inits)
  {
    TrailGrows(trail, g, 0, |g.nodes|);
    assert IsRegularNode(g.nodes[i], g.inits, naming.prefix);
  }

  lemma SameSites(node: Node, infos: map<string, ValueInfo>, inits: map<string, Tensor>, inits': map<string, Tensor>)
    requires AgreeFor(node, inits, inits') && IsQdq(node)
    ensures SiteOf(node, infos, inits') == SiteOf(node, infos, inits)
    ensures BaseLowers(node, infos, inits') <==> BaseLowers(node, infos, inits)
    ensures |node.inputs| >= 2 ==>
        forall s :: FoldingAt(node, s, inits') == FoldingAt(node, s, inits)
  {
    if |node.inputs| >= 2 {
      assert node.inputs[0] in node.inputs && node.inputs[1] in node.inputs;
      assert |node.inputs| > 2 ==> node.inputs[2] in node.inputs;
    }
  }

  // --- Harmonization --------------------------------------------------------------------------

  lemma LoweredStillReads(trail: seq<Draft>, g: Graph, naming: Naming, m: nat) returns (m': nat)
    requires IsPassOf(trail, g, naming) && m < |g.nodes| && GetsLowered(g, m) && g.nodes[m].inputs[0] !in g.inits
    ensures |trail[m].nodes| <= m' < |trail[m + 1].nodes| <= |LoweredBy(trail, g).nodes|
    ensures ReadsFirst(LoweredBy(trail, g).nodes[m'], g.nodes[m])
  {
    InStretch(trail, g, naming, m);
    assert StepsAt(trail, g, m);
    LoweredLeavesNone(trail[m], g, m);
    var d' := trail[m + 1];
    assert ReadsInput(trail[m], d', g.nodes[m]);
    m' :| |trail[m].nodes| <= m' < |d'.nodes| && ReadsFirst(d'.nodes[m'], g.nodes[m]);
    assert LoweredBy(trail, g).nodes[..|d'.nodes|][m'] == d'.nodes[m'];
  }

  lemma OnlyFirstIsComputed(g: Graph, naming: Naming, m: nat, k: nat)
    requires IsRegular(g, naming.prefix) && GetsLowered(g, m) && k < |g.nodes[m].inputs|
    requires g.nodes[m].inputs[k] !in g.inits && g.nodes[m].inputs[k] != ""
    ensures k == 0
  {
    assert IsRegularNode(g.nodes[m], g.inits, naming.prefix);
  }

  // A read of a computed tensor is still there: in the node if it was kept, else in a helper.
  lemma ReadPersists(trail: seq<Draft>, g: Graph, naming: Naming, y: string, m: nat, k: nat) returns (m': nat, k': nat)
    requires IsPassOf(trail, g, naming) && (m, k) in ReadsOf(g.nodes, y) && y !in g.inits && y != ""
    ensures (m', k') in ReadsOf(LoweredBy(trail, g).nodes, y) && |trail[m].nodes| <= m' < |trail[m + 1].nodes|
    ensures !GetsLowered(g, m) ==> k' == k
  {
    if GetsLowered(g, m) {
      OnlyFirstIsComputed(g, naming, m, k);
      m' := LoweredStillReads(trail, g, naming, m);
      k' := 0;
    } else {
      InStretch(trail, g, naming, m);
      m', k' := |trail[m + 1].nodes| - 1, k;
    }
  }

  // An anchor that alone reads the tensor in the lowered graph did so before.
  lemma AnchorWasThere(trail: seq<Draft>, g: Graph, naming: Naming, i: nat) returns (a: nat)
    requires IsPassOf(trail, g, naming) && i < |g.nodes| && |g.nodes[i].outputs| == 1 && g.nodes[i].outputs[0] !in g.inits
    requires SingleAnchor(LoweredBy(trail, g).nodes, g.nodes[i]).Some?
    ensures SingleAnchor(g.nodes, g.nodes[i]) == Some(a)
    ensures g.nodes[a] == LoweredBy(trail, g).nodes[SingleAnchor(LoweredBy(trail, g).nodes, g.nodes[i]).value]
  {
    var r, y := LoweredBy(trail, g).nodes, g.nodes[i].outputs[0];
    var a' := SingleAnchor(r, g.nodes[i]).value;
    var p :| p in ReadsOf(r, y) && p.0 == a';
    a := OriginOf(trail, g, naming, a');
    var q := (a, p.1);
    assert q in ReadsOf(g.nodes, y);
    forall m: nat, k: nat | (m, k) in ReadsOf(g.nodes, y) ensures (m, k) == q {
      var m', k' := ReadPersists(trail, g, naming, y, m, k);
      OnlyRead(ReadsOf(r, y), p, (m', k'));
      StretchesApart(trail, g, m, a, a');
    }
    assert ReadsOf(g.nodes, y) == {q};
  }

  lemma ForcedBefore(trail: seq<Draft>, g: Graph, naming: Naming, i: nat, j: nat, q: nat) returns (p: nat)
    requires IsPassOf(trail, g, naming) && i < |g.nodes| && j == |trail[i + 1].nodes| - 1
    requires IsForced(LoweredBy(trail, g), j, q)
    ensures IsForced(g, i, p) && g.nodes[p] == LoweredBy(trail, g).nodes[q]
  {
    p := OriginOf(trail, g, naming, q);
    LookupsAgree(trail, g, naming, p);
    SameSites(g.nodes[p], g.infos, g.inits, LoweredBy(trail, g).inits);
  }

  lemma HarmonizedBefore(trail: seq<Draft>, g: Graph, naming: Naming, i: nat, j: nat)
    requires IsPassOf(trail, g, naming) && i < |g.nodes| && j == |trail[i + 1].nodes| - 1
    requires j < |LoweredBy(trail, g).nodes| && LoweredBy(trail, g).nodes[j] == g.nodes[i] && IsQdq(g.nodes[i])
    requires IsHarmonized(LoweredBy(trail, g), j)
    ensures IsHarmonized(g, i)
  {
    var g' := LoweredBy(trail, g);
    assert IsRegularNode(g.nodes[i], g.inits, naming.prefix);
    assert Binds(g.nodes, i, g.nodes[i].outputs[0]) && BoundOnce(g.nodes, g.inits.Keys, g.nodes[i].outputs[0]);
    var a := AnchorWasThere(trail, g, naming, i);
    var anchor := g.nodes[a];
    if k :| 0 <= k < |anchor.inputs| && FeedsAnchor(g', j, anchor.inputs[k]) {
      FedBefore(trail, g, naming, i, j, anchor.inputs[k]);
    } else {
      var k :| 0 <= k < |anchor.outputs| && RequantizesAnchor(g', j, anchor.outputs[k]);
      var q :| 0 <= q < |g'.nodes| && anchor.outputs[k] in g'.nodes[q].inputs && g'.nodes[q].op.QuantizeLinear? &&
               IsForced(g', j, q);
      var p := ForcedBefore(trail, g, naming, i, j, q);
      assert RequantizesAnchor(g, i, anchor.outputs[k]);
    }
  }

  lemma FedBefore(trail: seq<Draft>, g: Graph, naming: Naming, i: nat, j: nat, name: string)
    requires IsPassOf(trail, g, naming) && i < |g.nodes| && j == |trail[i + 1].nodes| - 1
    requires FeedsAnchor(LoweredBy(trail, g), j, name)
    ensures FeedsAnchor(g, i, name)
  {
    var q := ProducerOf(LoweredBy(trail, g).nodes, name).value;
    var p := ForcedBefore(trail, g, naming, i, j, q);
    assert Binds(g.nodes, p, name) && BoundOnce(g.nodes, g.inits.Keys, name);
    assert ProducerOf(g.nodes, name).Some? && Binds(g.nodes, ProducerOf(g.nodes, name).value, name);
  }

  // --- The second run -------------------------------------------------------------------------

  lemma NothingLeftToLower(trail: seq<Draft>, g: Graph, naming: Naming, j: nat)
    requires IsPassOf(trail, g, naming) && j < |LoweredBy(trail, g).nodes|
    ensures !GetsLowered(LoweredBy(trail, g), j)
  {
    var g' := LoweredBy(trail, g);
    if GetsLowered(g', j) {
      var i := OriginOf(trail, g, naming, j);
      LookupsAgree(trail, g, naming, i);
      SameSites(g.nodes[i], g.infos, g.inits, g'.inits);
      var node, s := g.nodes[i], SiteOf(g.nodes[i], g.infos, g.inits).value;
      if !BaseLowers(node, g.infos, g.inits) && node.op.DequantizeLinear? {
        HarmonizedBefore(trail, g, naming, i, j);
        assert node.inputs[0] in node.inputs;
        assert ShouldLower(g, i, s);
      }
      assert false;
    }
  }

  // Run on its own result, the pass lowers nothing.
  lemma SecondRunLowersNothing(g: Graph)
    requires IsRegular(g, QDQ_PREFIX)
    ensures var d := AfterQdqNodes(Draft(NamingOf(QDQ_PREFIX), g.inits, [], 0), g, |g.nodes|);
      var g' := g.(nodes := d.nodes, inits := d.inits);
      forall j: nat {:trigger GetsLowered(g', j)} :: j < |g'.nodes| ==> !GetsLowered(g', j)
  {
    var naming := NamingOf(QDQ_PREFIX);
    PassesName(QDQ_PREFIX);
    forall i | 0 <= i < |g.nodes| ensures MakesOne(g.nodes[i]) {
      assert IsRegularNode(g.nodes[i], g.inits, QDQ_PREFIX);
    }
    var start := Draft(naming, g.inits, [], 0);
    var trail := TrailOf(start, g);
    TrailIsTrail(start, g);
    assert LoweredBy(trail, g) == g.(nodes := AfterQdqNodes(start, g, |g.nodes|).nodes, inits := AfterQdqNodes(start,
        g, |g.nodes|).inits);
    forall j: nat | j < |LoweredBy(trail, g).nodes| ensures !GetsLowered(LoweredBy(trail, g), j) {
      NothingLeftToLower(trail, g, naming, j);
    }
  }
}
