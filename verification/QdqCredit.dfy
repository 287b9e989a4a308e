/**
 * Every emitted node can be traced to the node it stands for: it carries that node's
 * documentation string, which names the node to the provider (src/qdq_lowering.cc:1082-1110,
 * 2283-2286).
 */
module QdqCredit {
  import opened Options
  import opened Hiding
  import opened TensorValues
  import opened Broadcasting
  import opened ParameterLayout
  import opened OnnxGraph
  import opened LoweredNames
  import opened Drafts
  import opened QdqPolicy
  import opened QdqLowering

  // Plain arithmetic in the name of the node.
  predicate IsHelper(m: Node, node: Node) {
    m.doc == node.doc && m.domain.Main? && !IsQdq(m) && !IsComputeAnchor(m)
  }

  // The node itself or a helper, making what the node makes.
  predicate StandsFor(m: Node, node: Node) {
    (m == node || IsHelper(m, node)) && m.outputs == node.outputs
  }

  // Initializers are added under names of helpers only.
  ghost predicate StoresApart(d: Draft, d': Draft) {
    IsNaming(d.naming) ==>
      forall k {:trigger k in d.inits} {:trigger k in d'.inits} :: !IsReserved(d.naming.prefix, k) ==>
        (k in d'.inits <==> k in d.inits) && (k in d.inits ==> d'.inits[k] == d.inits[k])
  }

  lemma StoredApart(d: Draft, d': Draft, base: string, suffix: string, id: nat, t: Tensor)
    requires d'.inits == d.inits[d.naming.name(base, suffix, id) := t]
    ensures StoresApart(d, d')
  {
    if IsNaming(d.naming) {
      LoweredIsReserved(d.naming.prefix, d.naming.name(base, suffix, id), id);
    }
  }

  ghost predicate CreditsFacts(d: Draft, d': Draft, node: Node, u: Unfolding) {
    && d'.naming == d.naming && |d.nodes| <= |d'.nodes| && StoresApart(d, d')
    && (forall i :: 0 <= i < |d.nodes| ==> d'.nodes[i] == d.nodes[i])
    && (forall i :: |d.nodes| <= i < |d'.nodes| ==> IsHelper(d'.nodes[i], node))
  }

  // What d' adds to d are helpers of the node.
  ghost predicate Credits(d: Draft, d': Draft, node: Node) {
    forall u {:trigger CreditsFacts(d, d', node, u)} :: CreditsFacts(d, d', node, u)
  }

  lemma CreditsFolds(d: Draft, d': Draft, node: Node)
    requires CreditsFacts(d, d', node, Unfolded)
    ensures Credits(d, d', node)
  {
    forall u ensures CreditsFacts(d, d', node, u) {
    }
  }

  lemma CreditsThrough(a: Draft, b: Draft, c: Draft, node: Node)
    requires Credits(a, b, node) && Credits(b, c, node)
    ensures Credits(a, c, node)
  {
    assert CreditsFacts(a, b, node, Unfolded) && CreditsFacts(b, c, node, Unfolded);
    CreditsFolds(a, c, node);
  }

  lemma CreditsSameNodes(d: Draft, d': Draft, node: Node)
    requires d'.nodes == d.nodes && d'.naming == d.naming && StoresApart(d, d')
    ensures Credits(d, d', node)
  {
    CreditsFolds(d, d', node);
  }

  lemma CreditsOne(d: Draft, d': Draft, m: Node, node: Node)
    requires d'.nodes == d.nodes + [m] && d'.naming == d.naming && IsHelper(m, node) && StoresApart(d, d')
    ensures Credits(d, d', node)
  {
    CreditsFolds(d, d', node);
  }

  lemma AppliedCredits(
    d: Draft, node: Node, op: Op, to: Option<DType>, word: string, suffix: string, inputs: seq<string>)
    requires |node.outputs| == 1 && op in {Cast, Sub, Div, Add, Round, Max, Min}
    ensures Credits(d, Applied(d, node, op, to, word, suffix, inputs).draft, node)
  {
    var d' := Applied(d, node, op, to, word, suffix, inputs).draft;
    CreditsOne(d, d', d'.nodes[|d.nodes|], node);
  }

  function WithoutLast(d: Draft): (d': Draft)
    requires d.nodes != []
  {
    d.(nodes := d.nodes[..|d.nodes| - 1])
  }

  // To d, d' adds helpers of the node and then a node that stands for it.
  ghost predicate Represents(d: Draft, d': Draft, node: Node) {
    d'.nodes != [] && Credits(d, WithoutLast(d'), node) && StandsFor(d'.nodes[|d'.nodes| - 1], node)
  }

  lemma RepresentsThrough(a: Draft, b: Draft, c: Draft, node: Node)
    requires Credits(a, b, node) && Represents(b, c, node)
    ensures Represents(a, c, node)
  {
    CreditsThrough(a, b, WithoutLast(c), node);
  }

  lemma FinishedRepresents(
    d: Draft, node: Node, op: Op, to: Option<DType>, base: string, word: string, inputs: seq<string>)
    requires |node.outputs| == 1 && op in {Cast, Mul, Identity}
    ensures Represents(d, Finished(d, node, op, to, base, word, inputs), node)
  {
    CreditsSameNodes(d, WithoutLast(Finished(d, node, op, to, base, word, inputs)), node);
  }

  lemma KeptRepresents(d: Draft, node: Node)
    ensures Represents(d, d.WithNode(node), node)
  {
    CreditsSameNodes(d, WithoutLast(d.WithNode(node)), node);
  }

  lemma HandoverCredits(d: Draft, node: Node, what: string, name: string, p: Tensor, h: Handover)
    requires |node.outputs| == 1
    requires h.Expanded? ==>
        |p.data| == Size(p.shape) && Accepts(h.shape, p.shape, node.attributes.axis, BlockOf(node.attributes))
    ensures Credits(d, WithHandover(d, node, what, name, p, h), node)
  {
    var d' := WithHandover(d, node, what, name, p, h);
    var base := d.naming.name(BaseOf(node), what, d.uid);
    if h.Reshaped? {
      StoredApart(d, d', base, "reshape_shape", d.uid, ShapeVector(h.shape));
      CreditsOne(d, d', d'.nodes[|d.nodes|], node);
    } else {
      if h.Expanded? {
        StoredApart(d, d', base, "expanded", d.uid,
                    ExpandedParameter(p, h.shape, node.attributes.axis, BlockOf(node.attributes)));
      }
      CreditsSameNodes(d, d', node);
    }
  }

  lemma HandZeroCredits(d: Draft, node: Node, s: Site, scale: string, name: string, zero: Tensor)
    requires |node.outputs| == 1
    ensures Credits(d, HandZero(d, node, s, scale, name, zero).draft, node)
  {
    var h := LayoutOf(s, zero, node.attributes);
    CreditsSameNodes(d, d.Numbered(), node);
    if h.Some? {
      HandoverCredits(d.Numbered(), node, "zero", name, zero, h.value);
      CreditsThrough(d, d.Numbered(), WithHandover(d.Numbered(), node, "zero", name, zero, h.value), node);
    }
  }

  lemma PrepareZeroCredits(d: Draft, node: Node, s: Site, arithmetic: DType, scale: string)
    requires |node.outputs| == 1 && (s.zero.Some? ==> |node.inputs| > 2)
    ensures Credits(d, PrepareZero(d, node, s, arithmetic, scale).draft, node)
  {
    CreditsSameNodes(d, d, node);
    CreditsSameNodes(d, d.Numbered(), node);
    if s.zero.Some? {
      var zero := s.zero.value;
      if !NeedsPromotion(zero.dtype) {
        HandZeroCredits(d, node, s, scale, node.inputs[2], zero);
      } else if IsReadableInteger(zero) {
        var d1, promoted := d.Numbered(), PromotedZero(zero, arithmetic);
        var name := d.naming.name(BaseOf(node), "zero_promoted", d1.uid);
        var d2 := d1.WithInit(name, promoted);
        StoredApart(d, d2, BaseOf(node), "zero_promoted", d1.uid, promoted);
        CreditsSameNodes(d, d2, node);
        HandZeroCredits(d2, node, s, scale, name, promoted);
        CreditsThrough(d, d2, HandZero(d2, node, s, scale, name, promoted).draft, node);
      }
    }
  }

  lemma HandScaleCredits(d: Draft, node: Node, s: Site, arithmetic: DType)
    requires |node.outputs| == 1 && |node.inputs| >= 2 && LayoutOf(s, s.scale, node.attributes).Some?
    ensures Credits(d, HandScale(d, node, s, arithmetic).draft, node)
  {
    var d1, h := d.Numbered(), LayoutOf(s, s.scale, node.attributes).value;
    var d2 := WithHandover(d1, node, "scale", node.inputs[1], s.scale, h);
    var name := HandedName(d.naming, node, "scale", node.inputs[1], h, d1.uid);
    CreditsSameNodes(d, d1, node);
    HandoverCredits(d1, node, "scale", node.inputs[1], s.scale, h);
    CreditsThrough(d, d1, d2, node);
    if arithmetic != s.scale.dtype {
      AppliedCredits(d2, node, Cast, Some(arithmetic), "cast_scale", "scale_cast", [name]);
      CreditsThrough(d, d2, HandScale(d, node, s, arithmetic).draft, node);
    }
  }

  lemma PrepareCredits(d: Draft, node: Node, s: Site, arithmetic: DType)
    requires |node.outputs| == 1 && |node.inputs| >= 2 && (s.zero.Some? ==> |node.inputs| > 2)
    ensures Credits(d, Prepare(d, node, s, arithmetic).draft, node)
  {
    CreditsSameNodes(d, d.Numbered(), node);
    if LayoutOf(s, s.scale, node.attributes).Some? {
      var e := HandScale(d, node, s, arithmetic);
      HandScaleCredits(d, node, s, arithmetic);
      PrepareZeroCredits(e.draft, node, s, arithmetic, e.name);
      CreditsThrough(d, e.draft, PrepareZero(e.draft, node, s, arithmetic, e.name).draft, node);
    }
  }

  lemma DifferenceCredits(d: Draft, node: Node, math: DType, zero: Option<string>)
    requires |node.outputs| == 1 && |node.inputs| >= 2
    ensures Credits(d, Difference(d, node, math, zero).draft, node)
  {
    var x := Applied(d, node, Cast, Some(math), "cast_input", "input_cast", [node.inputs[0]]);
    AppliedCredits(d, node, Cast, Some(math), "cast_input", "input_cast", [node.inputs[0]]);
    if zero.Some? {
      var z := Applied(x.draft, node, Cast, Some(math), "cast_zero", "zero_cast", [zero.value]);
      AppliedCredits(x.draft, node, Cast, Some(math), "cast_zero", "zero_cast", [zero.value]);
      CreditsThrough(d, x.draft, z.draft, node);
      AppliedCredits(z.draft, node, Sub, None, "sub", "shifted", [x.name, z.name]);
      CreditsThrough(d, z.draft, Difference(d, node, math, zero).draft, node);
    }
  }

  lemma DequantizingRepresents(
    d: Draft, node: Node, math: DType, arithmetic: DType, scale: string, zero: Option<string>)
    requires |node.outputs| == 1 && |node.inputs| >= 2
    ensures Represents(d, Dequantizing(d, node, math, arithmetic, scale, zero), node)
  {
    var diff := Difference(d, node, math, zero);
    DifferenceCredits(d, node, math, zero);
    var e := diff;
    if math != arithmetic {
      e := Applied(diff.draft, node, Cast, Some(arithmetic), "cast_diff", "diff_cast", [diff.name]);
      AppliedCredits(diff.draft, node, Cast, Some(arithmetic), "cast_diff", "diff_cast", [diff.name]);
      CreditsThrough(d, diff.draft, e.draft, node);
    }
    FinishedRepresents(e.draft, node, Mul, None, BaseOf(node), "mul", [e.name, scale]);
    RepresentsThrough(d, e.draft, Dequantizing(d, node, math, arithmetic, scale, zero), node);
  }

  lemma QuotientCredits(d: Draft, node: Node, arithmetic: DType, scale: string, zero: Option<string>)
    requires |node.outputs| == 1 && |node.inputs| >= 2
    ensures Credits(d, RoundedQuotient(d, node, arithmetic, scale, zero).draft, node)
  {
    var x := Applied(d, node, Cast, Some(arithmetic), "cast_input", "input_cast", [node.inputs[0]]);
    AppliedCredits(d, node, Cast, Some(arithmetic), "cast_input", "input_cast", [node.inputs[0]]);
    var q := Applied(x.draft, node, Div, None, "div_node", "div", [x.name, scale]);
    AppliedCredits(x.draft, node, Div, None, "div_node", "div", [x.name, scale]);
    CreditsThrough(d, x.draft, q.draft, node);
    var shifted := q;
    if zero.Some? {
      var z := Applied(q.draft, node, Cast, Some(arithmetic), "cast_zero", "zero_cast", [zero.value]);
      AppliedCredits(q.draft, node, Cast, Some(arithmetic), "cast_zero", "zero_cast", [zero.value]);
      CreditsThrough(d, q.draft, z.draft, node);
      shifted := Applied(z.draft, node, Add, None, "add", "shifted", [q.name, z.name]);
      AppliedCredits(z.draft, node, Add, None, "add", "shifted", [q.name, z.name]);
      CreditsThrough(d, z.draft, shifted.draft, node);
    }
    AppliedCredits(shifted.draft, node, Round, None, "round", "rounded", [shifted.name]);
    CreditsThrough(d, shifted.draft, RoundedQuotient(d, node, arithmetic, scale, zero).draft, node);
  }

  lemma LimitCastCredits(d: Draft, node: Node, arithmetic: DType, word: string, suffix: string, limit: string)
    requires |node.outputs| == 1
    ensures Credits(d, LimitCast(d, node, arithmetic, word, suffix, limit).draft, node)
  {
    var d' := LimitCast(d, node, arithmetic, word, suffix, limit).draft;
    CreditsOne(d, d', d'.nodes[|d.nodes|], node);
  }

  lemma SaturatingRepresents(d: Draft, node: Node, arithmetic: DType, output: DType, rounded: string)
    requires |node.outputs| == 1
    ensures Represents(d, Saturating(d, node, arithmetic, output, rounded), node)
  {
    var low := LimitStored(d, node, "qmin", MinOf(output));
    var high := LimitStored(low.draft, node, "qmax", MaxOf(output));
    StoredApart(d, low.draft, BaseOf(node), "qmin", d.uid + 1, Scalar(Int32, MinOf(output)));
    StoredApart(low.draft, high.draft, BaseOf(node), "qmax", d.uid + 2, Scalar(Int32, MaxOf(output)));
    CreditsSameNodes(d, low.draft, node);
    CreditsSameNodes(low.draft, high.draft, node);
    CreditsThrough(d, low.draft, high.draft, node);
    var lowCast := LimitCast(high.draft, node, arithmetic, "cast_qmin", "qmin_cast", low.name);
    LimitCastCredits(high.draft, node, arithmetic, "cast_qmin", "qmin_cast", low.name);
    CreditsThrough(d, high.draft, lowCast.draft, node);
    var highCast := LimitCast(lowCast.draft, node, arithmetic, "cast_qmax", "qmax_cast", high.name);
    LimitCastCredits(lowCast.draft, node, arithmetic, "cast_qmax", "qmax_cast", high.name);
    CreditsThrough(d, lowCast.draft, highCast.draft, node);
    CreditsSameNodes(highCast.draft, highCast.draft.Numbered(), node);
    CreditsThrough(d, highCast.draft, highCast.draft.Numbered(), node);
    ClampingRepresents(d, highCast.draft.Numbered(), node, output, rounded, lowCast.name, highCast.name);
  }

  lemma ClampingRepresents(a: Draft, d: Draft, node: Node, output: DType, rounded: string, low: string, high: string)
    requires |node.outputs| == 1 && Credits(a, d, node)
    ensures var atLeast := Applied(d, node, Max, None, "max", "clamped_min", [rounded, low]);
      var clamped := Applied(atLeast.draft, node, Min, None, "min", "clamped", [atLeast.name, high]);
      Represents(a, Finished(clamped.draft, node, Cast, Some(output), BaseOf(node), "cast_output", [clamped.name]), node)
  {
    var atLeast := Applied(d, node, Max, None, "max", "clamped_min", [rounded, low]);
    AppliedCredits(d, node, Max, None, "max", "clamped_min", [rounded, low]);
    CreditsThrough(a, d, atLeast.draft, node);
    var clamped := Applied(atLeast.draft, node, Min, None, "min", "clamped", [atLeast.name, high]);
    AppliedCredits(atLeast.draft, node, Min, None, "min", "clamped", [atLeast.name, high]);
    CreditsThrough(a, atLeast.draft, clamped.draft, node);
    FinishedRepresents(clamped.draft, node, Cast, Some(output), BaseOf(node), "cast_output", [clamped.name]);
    RepresentsThrough(
      a, clamped.draft, Finished(clamped.draft, node, Cast, Some(output), BaseOf(node), "cast_output",
          [clamped.name]), node);
  }

  lemma QuantizingRepresents(d: Draft, node: Node, arithmetic: DType, output: DType, scale: string, zero: Option<string>)
    requires |node.outputs| == 1 && |node.inputs| >= 2
    ensures Represents(d, Quantizing(d, node, arithmetic, output, scale, zero), node)
  {
    var r := RoundedQuotient(d, node, arithmetic, scale, zero);
    QuotientCredits(d, node, arithmetic, scale, zero);
    SaturatingRepresents(r.draft, node, arithmetic, output, r.name);
    RepresentsThrough(d, r.draft, Quantizing(d, node, arithmetic, output, scale, zero), node);
  }

  lemma FoldRepresents(d: Draft, node: Node, scale: DType, f: Folding)
    requires |node.outputs| == 1 && !f.NotFolded?
    ensures f.Stray? ==> Credits(d, WithFold(d, node, scale, f), node)
    ensures f.Folded? ==> Represents(d, WithFold(d, node, scale, f), node)
  {
    var base := node.outputs[0];
    var name := d.naming.name(base, "folded_constant", d.uid + 1);
    var stored := d.Numbered().WithInit(name, f.t);
    StoredCredits(d, node, base, "folded_constant", f.t, d.uid + 1);
    var cast := Finished(stored, node, Cast, Some(scale), base, "folded_cast", [name]);
    var same := Finished(stored, node, Identity, None, base, "folded_identity", [name]);
    FoldedRepresents(d, stored, cast, same, node, scale, name);
    var folded := WithFold(d, node, scale, f);
    assert folded == if f.Stray? then stored else if StorageType(scale) != scale then cast else same;
  }

  lemma StoredCredits(d: Draft, node: Node, base: string, suffix: string, t: Tensor, id: nat)
    ensures Credits(d, d.Numbered().WithInit(d.naming.name(base, suffix, id), t), node)
  {
    var stored := d.Numbered().WithInit(d.naming.name(base, suffix, id), t);
    StoredApart(d, stored, base, suffix, id, t);
    CreditsSameNodes(d, stored, node);
  }

  lemma FoldedRepresents(
    d: Draft, stored: Draft, cast: Draft, same: Draft, node: Node, scale: DType, name: string)
    requires |node.outputs| == 1 && Credits(d, stored, node)
    requires cast == Finished(stored, node, Cast, Some(scale), node.outputs[0], "folded_cast", [name])
    requires same == Finished(stored, node, Identity, None, node.outputs[0], "folded_identity", [name])
    ensures Represents(d, cast, node) && Represents(d, same, node)
  {
    var base := node.outputs[0];
    FinishedRepresents(stored, node, Cast, Some(scale), base, "folded_cast", [name]);
    FinishedRepresents(stored, node, Identity, None, base, "folded_identity", [name]);
    RepresentsThrough(d, stored, cast, node);
    RepresentsThrough(d, stored, same, node);
  }

  lemma ArithmeticRepresents(d: Draft, node: Node, s: Site)
    requires |node.outputs| == 1 && |node.inputs| >= 2 && (s.zero.Some? ==> |node.inputs| > 2)
    ensures Represents(d, LoweredDequantize(d, node, s), node)
    ensures Represents(d, LoweredQuantize(d, node, s), node)
  {
    var scale, output := s.scale.dtype, OutputTypeOf(node.attributes, s.zero);
    var p, q := Prepare(d, node, s, scale), Prepare(d, node, s, QuantizeArithmetic(scale, output));
    PrepareCredits(d, node, s, scale);
    PrepareCredits(d, node, s, QuantizeArithmetic(scale, output));
    KeptRepresents(p.draft, node);
    KeptRepresents(q.draft, node);
    if p.Prepared? {
      DequantizingRepresents(p.draft, node, MathType(s.input, scale), scale, p.scale, p.zero);
    }
    if q.Prepared? {
      QuantizingRepresents(q.draft, node, QuantizeArithmetic(scale, output), output, q.scale, q.zero);
    }
    RepresentsThrough(d, p.draft, LoweredDequantize(d, node, s), node);
    RepresentsThrough(d, q.draft, LoweredQuantize(d, node, s), node);
  }

  // Whatever becomes of a node, what is emitted represents it.
  lemma NodeIsRepresented(d: Draft, g: Graph, i: nat)
    requires i < |g.nodes| && MakesOne(g.nodes[i])
    ensures Represents(d, AfterQdqNode(d, g, i), g.nodes[i])
  {
    var node, s := g.nodes[i], SiteOf(g.nodes[i], g.infos, g.inits);
    if s.None? || !ShouldLower(g, i, s.value) {
      KeptRepresents(d, node);
    } else {
      var f := FoldingAt(node, s.value, g.inits);
      if node.op.DequantizeLinear? && !f.NotFolded? {
        var folded := WithFold(d, node, s.value.scale.dtype, f);
        FoldRepresents(d, node, s.value.scale.dtype, f);
        if f.Stray? {
          ArithmeticRepresents(folded, node, s.value);
          RepresentsThrough(d, folded, LoweredDequantize(folded, node, s.value), node);
        }
      } else {
        ArithmeticRepresents(d, node, s.value);
      }
    }
  }

  // --- The whole graph ------------------------------------------------------------------------

  ghost predicate StepsAt(trail: seq<Draft>, g: Graph, i: nat) {
    i < |g.nodes| && i + 1 < |trail| ==> MakesOne(g.nodes[i]) && trail[i + 1] == AfterQdqNode(trail[i], g, i)
  }

  // The drafts the pass goes through, from before the first node to after the last.
  ghost predicate IsTrail(trail: seq<Draft>, g: Graph) {
    |trail| == |g.nodes| + 1 && forall i: nat {:trigger StepsAt(trail, g, i)} :: StepsAt(trail, g, i)
  }

  function TrailOf(d: Draft, g: Graph): (trail: seq<Draft>)
    requires forall i :: 0 <= i < |g.nodes| ==> MakesOne(g.nodes[i])
  {
    seq(|g.nodes| + 1, i requires 0 <= i <= |g.nodes| => AfterQdqNodes(d, g, i))
  }

  lemma TrailIsTrail(d: Draft, g: Graph)
    requires forall i :: 0 <= i < |g.nodes| ==> MakesOne(g.nodes[i])
    ensures IsTrail(TrailOf(d, g), g) && TrailOf(d, g)[0] == d
    ensures TrailOf(d, g)[|g.nodes|] == AfterQdqNodes(d, g, |g.nodes|)
  {
    var trail := TrailOf(d, g);
    forall i: nat ensures StepsAt(trail, g, i) {
      if i < |g.nodes| {
        OneNodeLater(d, g, i);
      }
    }
  }

  lemma OneNodeLater(d: Draft, g: Graph, i: nat)
    requires i < |g.nodes| && forall j :: 0 <= j < |g.nodes| ==> MakesOne(g.nodes[j])
    ensures AfterQdqNodes(d, g, i + 1) == AfterQdqNode(AfterQdqNodes(d, g, i), g, i)
  {
  }

  lemma TrailRepresents(trail: seq<Draft>, g: Graph, i: nat)
    requires IsTrail(trail, g) && i < |g.nodes|
    ensures Represents(trail[i], trail[i + 1], g.nodes[i])
    ensures CreditsFacts(trail[i], WithoutLast(trail[i + 1]), g.nodes[i], Unfolded)
  {
    assert StepsAt(trail, g, i);
    NodeIsRepresented(trail[i], g, i);
    assert CreditsFacts(trail[i], WithoutLast(trail[i + 1]), g.nodes[i], Unfolded);
  }

  // Emitted nodes stay, and so do the way helpers are named and what they are not named.
  lemma {:induction false} TrailGrows(trail: seq<Draft>, g: Graph, i: nat, n: nat)
    requires IsTrail(trail, g) && i <= n <= |g.nodes|
    ensures trail[n].naming == trail[i].naming && |trail[i].nodes| <= |trail[n].nodes| && StoresApart(trail[i], trail[n])
    ensures forall k :: 0 <= k < |trail[i].nodes| ==> trail[n].nodes[k] == trail[i].nodes[k]
    decreases n
  {
    if i < n {
      TrailGrows(trail, g, i, n - 1);
      TrailRepresents(trail, g, n - 1);
    }
  }

  // The emitted nodes fall into stretches, one for each node of the graph and in its order. Each
  // stretch carries the documentation of its node: helpers, and at its end the node itself or a
  // helper that makes its tensors.
  lemma EveryNodeIsRepresented(trail: seq<Draft>, g: Graph, i: nat)
    requires IsTrail(trail, g) && i < |g.nodes|
    ensures var r := trail[|g.nodes|].nodes; var from, to := |trail[i].nodes|, |trail[i + 1].nodes|;
      && from < to <= |r| && r[..to] == trail[i + 1].nodes
      && (forall k :: from <= k < to - 1 ==> IsHelper(r[k], g.nodes[i])) && StandsFor(r[to - 1], g.nodes[i])
  {
    TrailRepresents(trail, g, i);
    TrailGrows(trail, g, i + 1, |g.nodes|);
  }

  // Every emitted node lies in such a stretch.
  lemma {:induction false} StretchAt(trail: seq<Draft>, g: Graph, n: nat, k: nat) returns (i: nat)
    requires IsTrail(trail, g) && n <= |g.nodes| && |trail[0].nodes| <= k < |trail[n].nodes|
    ensures i < n && |trail[i].nodes| <= k < |trail[i + 1].nodes|
    decreases n
  {
    if |trail[n - 1].nodes| <= k {
      i := n - 1;
    } else {
      i := StretchAt(trail, g, n - 1, k);
    }
  }
}
