/**
 * Which pools are taken apart, and that no others are
 * (src/pooling_dilation_compatibility.cc:334-448, 581-600).
 */
module PoolingCoverage {
  import opened Options
  import opened Hiding
  import opened TensorValues
  import opened Broadcasting
  import opened PoolMeaning
  import opened OnnxGraph
  import opened LoweredNames
  import opened Drafts
  import opened Declarations
  import opened PoolPlans
  import opened PoolingDilation

  // --- What can be taken apart ----------------------------------------------------------------

  function Entry(v: Option<seq<int>>, d: nat, otherwise: int): (n: int)
    requires v.Some? ==> d < |v.value|
  {
    if v.Some? then v.value[d] else otherwise
  }

  predicate IsNative(node: Node) {
    && !node.domain.Foreign? && (node.op.AveragePool? || node.op.MaxPool?)
    && |node.inputs| == |node.outputs| == 1 && node.inputs[0] != "" && node.outputs[0] != ""
  }

  // Attributes are given for every dimension, or not at all.
  predicate AreComplete(a: Attributes, rank: nat) {
    && (a.strides.Some? ==> |a.strides.value| == rank) && (a.dilations.Some? ==> |a.dilations.value| == rank)
    && (a.pads.Some? ==> |a.pads.value| == 2 * rank)
  }

  // A window without padding, spread out in some dimension.
  ghost predicate IsDilated(a: Attributes, kernel: seq<int>) {
    && a.kernelShape == Some(kernel) && |kernel| > 0 && AreComplete(a, |kernel|)
    && (a.autoPad.None? || a.autoPad == Some("NOTSET"))
    && (a.pads.Some? ==> forall i :: 0 <= i < |a.pads.value| ==> a.pads.value[i] == 0)
    && (forall d: nat :: d < |kernel| ==> kernel[d] > 0 && Entry(a.strides, d, 1) > 0 && Entry(a.dilations, d, 1) > 0)
    && exists d: nat :: d < |kernel| && Entry(a.dilations, d, 1) != 1
  }

  function Product(v: seq<int>): (n: int) {
    if v == [] then 1 else v[0] * Product(v[1..])
  }

  // The last position of the window's last tap is inside the input.
  ghost predicate ReachesNoFurther(a: Attributes, kernel: seq<int>, input: Shape, output: Shape)
    requires AreComplete(a, |kernel|) && |input| == |output| == |kernel| + 2
  {
    forall d: nat {:trigger kernel[d]} :: d < |kernel| ==>
      (output[d + 2] - 1) * Entry(a.strides, d, 1) + (kernel[d] - 1) * Entry(a.dilations, d, 1) < input[d + 2]
  }

  ghost predicate IsTakenApart(g: Graph, node: Node) {
    exists kernel, input, output :: IsTakenApartBy(g, node, kernel, input, output)
  }

  // A floating-point pool over known shapes, with no more than 256 taps, all inside the input.
  ghost predicate IsTakenApartBy(g: Graph, node: Node, kernel: seq<int>, input: Shape, output: Shape) {
    && IsNative(node) && IsDilated(node.attributes, kernel) && Product(kernel) <= 256
    && (HasType(g, node.inputs[0], Float) || HasType(g, node.inputs[0], Float16))
    && HasShape(g, node.inputs[0], input) && HasShape(g, node.outputs[0], output)
    && |input| == |output| == |kernel| + 2 && output[0] == input[0] && output[1] == input[1]
    && ReachesNoFurther(node.attributes, kernel, input, output)
  }

  // --- The plans are those of the pass --------------------------------------------------------

  lemma {:induction false} ProductIsSize(v: seq<int>, s: Shape)
    requires |s| == |v| && forall i :: 0 <= i < |v| ==> s[i] == v[i]
    ensures Product(v) == Size(s)
  {
    if v != [] {
      ProductIsSize(v[1..], s[1..]);
    }
  }

  lemma DilatedAsStated(a: Attributes, kernel: seq<int>)
    requires a.kernelShape == Some(kernel)
    ensures IsDilated(a, kernel) <==> DilatedWindow(a).Some? && (a.autoPad.None? || a.autoPad.value == "NOTSET")
  {
    var rank := |kernel|;
    var strides, dilations := PoolPlans.Or(a.strides, Ones(rank)), PoolPlans.Or(a.dilations, Ones(rank));
    if AreComplete(a, rank) {
      forall d: nat | d < rank
        ensures strides[d] == Entry(a.strides, d, 1) && dilations[d] == Entry(a.dilations, d, 1)
      {
      }
    }
    if IsDilated(a, kernel) {
      assert AllPositive(kernel) && AllPositive(strides) && AllPositive(dilations);
      var d: nat :| d < rank && Entry(a.dilations, d, 1) != 1;
      assert dilations[d] != 1;
    }
    if DilatedWindow(a).Some? {
      var d :| 0 <= d < rank && dilations[d] != 1;
      assert Entry(a.dilations, d, 1) != 1;
      forall e: nat | e < rank ensures kernel[e] > 0 && strides[e] > 0 && dilations[e] > 0 {
      }
    }
  }

  lemma WindowEntries(a: Attributes, kernel: seq<int>)
    requires IsDilated(a, kernel)
    ensures DilatedWindow(a).Some?
    ensures var w := DilatedWindow(a).value;
      && |w.kernel| == |w.strides| == |w.dilations| == |kernel|
      && forall d: nat :: d < |kernel| ==>
           w.kernel[d] == kernel[d] && w.strides[d] == Entry(a.strides, d, 1) && w.dilations[d] == Entry(a.dilations, d, 1)
  {
    DilatedAsStated(a, kernel);
  }

  lemma FitAsStated(a: Attributes, kernel: seq<int>, input: Shape, output: Shape)
    requires IsDilated(a, kernel) && |input| == |output| == |kernel| + 2 && 0 !in output
    ensures DilatedWindow(a).Some?
    ensures WindowsFit(DilatedWindow(a).value, input, output) <==> ReachesNoFurther(a, kernel, input, output)
  {
    WindowEntries(a, kernel);
    var w := DilatedWindow(a).value;
    forall d: nat | d < |kernel|
      ensures FitsAlong(w, input, output, d) <==>
              (output[d + 2] - 1) * Entry(a.strides, d, 1) + (kernel[d] - 1) * Entry(a.dilations, d, 1) < input[d + 2]
    {
      assert output[d + 2] in output;
    }
  }

  lemma PlanAsStated(g: Graph, node: Node)
    ensures PlanFor(node, g.infos, g.inits).Some? <==> IsTakenApart(g, node)
  {
    forall kernel, input, output | IsTakenApartBy(g, node, kernel, input, output)
      ensures PlanFor(node, g.infos, g.inits).Some?
    {
      TakenApartIsPlanned(g, node, kernel, input, output);
    }
    if PlanFor(node, g.infos, g.inits).Some? {
      PlannedIsTakenApart(g, node);
    }
  }

  lemma TakenApartIsPlanned(g: Graph, node: Node, kernel: seq<int>, input: Shape, output: Shape)
    requires IsTakenApartBy(g, node, kernel, input, output)
    ensures PlanFor(node, g.infos, g.inits).Some?
  {
    var a := node.attributes;
    DilatedAsStated(a, kernel);
    WindowEntries(a, kernel);
    ProductIsSize(kernel, DilatedWindow(a).value.kernel);
    ShapeIsStatic(g, node.inputs[0], input);
    ShapeIsStatic(g, node.outputs[0], output);
    FitAsStated(a, kernel, input, output);
  }

  lemma PlannedIsTakenApart(g: Graph, node: Node)
    requires PlanFor(node, g.infos, g.inits).Some?
    ensures IsTakenApart(g, node)
  {
    var a := node.attributes;
    var kernel := a.kernelShape.value;
    var input, output := StaticShape(g.infos, g.inits, node.inputs[0]).value,
        StaticShape(g.infos, g.inits, node.outputs[0]).value;
    DilatedAsStated(a, kernel);
    WindowEntries(a, kernel);
    ProductIsSize(kernel, DilatedWindow(a).value.kernel);
    ShapeIsStatic(g, node.inputs[0], input);
    ShapeIsStatic(g, node.outputs[0], output);
    FitAsStated(a, kernel, input, output);
    assert IsTakenApartBy(g, node, kernel, input, output);
  }

  // --- What the pass leaves -------------------------------------------------------------------

  predicate IsPartOf(m: Node, node: Node) {
    m.op in {Slice, Add, Div, Max} && m.domain.Main? && m.doc == node.doc
  }

  ghost predicate AddsFacts(d: Draft, d': Draft, node: Node, u: Unfolding) {
    && |d.nodes| <= |d'.nodes| && d'.nodes[..|d.nodes|] == d.nodes
    && forall k :: |d.nodes| <= k < |d'.nodes| ==> IsPartOf(d'.nodes[k], node)
  }

  // Only slices and plain arithmetic in the name of the node are added.
  ghost predicate AddsParts(d: Draft, d': Draft, node: Node) {
    forall u {:trigger AddsFacts(d, d', node, u)} :: AddsFacts(d, d', node, u)
  }

  lemma AddsNothing(d: Draft, d': Draft, node: Node)
    requires d'.nodes == d.nodes
    ensures AddsParts(d, d', node)
  {
  }

  lemma AddsOne(d: Draft, b: Draft, d': Draft, node: Node)
    requires AddsParts(d, b, node) && d'.nodes != [] && d'.nodes[..|d'.nodes| - 1] == b.nodes
    requires IsPartOf(d'.nodes[|d'.nodes| - 1], node)
    ensures AddsParts(d, d', node)
  {
    assert AddsFacts(d, b, node, Unfolded);
    assert d'.nodes[..|d.nodes|] == b.nodes[..|d.nodes|];
    assert forall k :: 0 <= k < |b.nodes| ==> d'.nodes[k] == b.nodes[k];
    forall u ensures AddsFacts(d, d', node, u) {
    }
  }

  lemma {:induction false} TapsAreParts(d: Draft, node: Node, cuts: seq<Cut>, n: nat)
    requires |node.inputs| == |node.outputs| == 1 && n <= |cuts|
    ensures AddsParts(d, EmitTaps(d, node, cuts, n), node)
    decreases n
  {
    if n == 0 {
      AddsNothing(d, d, node);
    } else {
      TapsAreParts(d, node, cuts, n - 1);
      AddsOne(d, EmitTaps(d, node, cuts, n - 1), EmitTaps(d, node, cuts, n), node);
    }
  }

  lemma {:induction false} SumsAreParts(from: Draft, d: Draft, node: Node, taps: nat, uid: nat, n: nat)
    requires |node.outputs| == 1 && AddsParts(from, d, node)
    ensures AddsParts(from, EmitSums(d, node, taps, uid, n), node)
    decreases n
  {
    if n > 0 {
      SumsAreParts(from, d, node, taps, uid, n - 1);
      AddsOne(from, EmitSums(d, node, taps, uid, n - 1), EmitSums(d, node, taps, uid, n), node);
    }
  }

  lemma {:induction false} MaximaAreParts(from: Draft, d: Draft, node: Node, taps: nat, uid: nat, n: nat)
    requires |node.outputs| == 1 && n < taps && AddsParts(from, d, node)
    ensures AddsParts(from, EmitMaxima(d, node, taps, uid, n), node)
    decreases n
  {
    if n > 0 {
      MaximaAreParts(from, d, node, taps, uid, n - 1);
      AddsOne(from, EmitMaxima(d, node, taps, uid, n - 1), EmitMaxima(d, node, taps, uid, n), node);
    }
  }

  lemma PoolIsParts(d: Draft, node: Node, p: Plan)
    requires |node.inputs| == |node.outputs| == 1 && IsPlan(p)
    ensures AddsParts(d, LoweredPool(d, node, p), node)
  {
    var cuts := CutsOf(p);
    var sliced := EmitTaps(d, node, cuts, |cuts|);
    TapsAreParts(d, node, cuts, |cuts|);
    if |cuts| > 1 {
      if p.isAverage {
        SumsAreParts(d, sliced, node, |cuts|, d.uid, |cuts| - 1);
        AddsOne(d, EmitSums(sliced, node, |cuts|, d.uid, |cuts| - 1), LoweredPool(d, node, p), node);
      } else {
        MaximaAreParts(d, sliced, node, |cuts|, d.uid, |cuts| - 1);
      }
    }
  }

  ghost predicate IsKeptFrom(g: Graph, n: nat, m: Node) {
    exists i: nat :: i < n && i < |g.nodes| && g.nodes[i] == m && !IsTakenApart(g, m)
  }

  ghost predicate StandsForSome(g: Graph, n: nat, m: Node) {
    exists i: nat :: i < n && i < |g.nodes| && IsTakenApart(g, g.nodes[i]) && IsPartOf(m, g.nodes[i])
  }

  // Every node is one that was not to be taken apart, or a part of one that was; and all nodes not
  // to be taken apart are there as they were.
  ghost predicate LeavesOthers(g: Graph, n: nat, left: seq<Node>) {
    && (forall k :: 0 <= k < |left| ==> IsKeptFrom(g, n, left[k]) || StandsForSome(g, n, left[k]))
    && forall i: nat :: i < n && i < |g.nodes| && !IsTakenApart(g, g.nodes[i]) ==> g.nodes[i] in left
  }

  function NodesAfter(g: Graph, n: nat): (nodes: seq<Node>)
    requires n <= |g.nodes|
  {
    AfterNodes(Draft(NamingOf(POOL_PREFIX), g.inits, [], 0), g.nodes, g.infos, g.inits, n).nodes
  }

  lemma {:induction false} OthersAreLeft(g: Graph, n: nat)
    requires n <= |g.nodes|
    ensures LeavesOthers(g, n, NodesAfter(g, n))
    decreases n
  {
    if n > 0 {
      OthersAreLeft(g, n - 1);
      OneMoreIsLeft(g, n - 1);
    }
  }

  lemma StillThere(g: Graph, n: nat, m: Node)
    requires n < |g.nodes|
    ensures IsKeptFrom(g, n, m) ==> IsKeptFrom(g, n + 1, m)
    ensures StandsForSome(g, n, m) ==> StandsForSome(g, n + 1, m)
  {
  }

  lemma OneMoreIsLeft(g: Graph, n: nat)
    requires n < |g.nodes| && LeavesOthers(g, n, NodesAfter(g, n))
    ensures LeavesOthers(g, n + 1, NodesAfter(g, n + 1))
  {
    var d := AfterNodes(Draft(NamingOf(POOL_PREFIX), g.inits, [], 0), g.nodes, g.infos, g.inits, n);
    var d' := AfterNode(d, g.nodes[n], g.infos, g.inits);
    NodeIsLeft(g, d, n);
    LeavesMore(g, n, d.nodes, d'.nodes);
  }

  lemma LeavesMore(g: Graph, n: nat, before: seq<Node>, after: seq<Node>)
    requires n < |g.nodes| && LeavesOthers(g, n, before) && |before| <= |after| && after[..|before|] == before
    requires forall k :: |before| <= k < |after| ==> IsKeptFrom(g, n + 1, after[k]) || StandsForSome(g, n + 1, after[k])
    requires !IsTakenApart(g, g.nodes[n]) ==> g.nodes[n] in after
    ensures LeavesOthers(g, n + 1, after)
  {
    forall k | 0 <= k < |after| ensures IsKeptFrom(g, n + 1, after[k]) || StandsForSome(g, n + 1, after[k]) {
      if k < |before| {
        assert after[k] == before[k];
        StillThere(g, n, before[k]);
      }
    }
    forall i: nat | i < n && !IsTakenApart(g, g.nodes[i]) ensures g.nodes[i] in after {
      assert g.nodes[i] in after[..|before|];
    }
  }

  lemma NodeIsLeft(g: Graph, d: Draft, n: nat)
    requires n < |g.nodes|
    ensures var d' := AfterNode(d, g.nodes[n], g.infos, g.inits);
      && |d.nodes| <= |d'.nodes| && d'.nodes[..|d.nodes|] == d.nodes
      && (forall k :: |d.nodes| <= k < |d'.nodes| ==>
            IsKeptFrom(g, n + 1, d'.nodes[k]) || StandsForSome(g, n + 1, d'.nodes[k]))
      && (!IsTakenApart(g, g.nodes[n]) ==> g.nodes[n] in d'.nodes)
  {
    var node, d' := g.nodes[n], AfterNode(d, g.nodes[n], g.infos, g.inits);
    var p := PlanFor(node, g.infos, g.inits);
    PlanAsStated(g, node);
    if p.Some? {
      PlansArePlans(node, g.infos, g.inits);
      PoolIsParts(d, node, p.value);
      assert AddsFacts(d, d', node, Unfolded);
      forall k | |d.nodes| <= k < |d'.nodes| ensures StandsForSome(g, n + 1, d'.nodes[k]) {
        assert IsPartOf(d'.nodes[k], g.nodes[n]);
      }
    } else {
      assert d'.nodes[|d.nodes|] == node;
      assert IsKeptFrom(g, n + 1, node);
    }
  }

  // --- The pass -------------------------------------------------------------------------------

  method RewritePoolingDilations(g: Graph) returns (lowered: Draft)
    ensures lowered == AfterNodes(Draft(NamingOf(POOL_PREFIX), g.inits, [], 0), g.nodes, g.infos, g.inits, |g.nodes|)
    ensures LeavesOthers(g, |g.nodes|, lowered.nodes)
  {
    lowered := Draft(NamingOf(POOL_PREFIX), g.inits, [], 0);
    for i := 0 to |g.nodes|
      invariant lowered == AfterNodes(Draft(NamingOf(POOL_PREFIX), g.inits, [], 0), g.nodes, g.infos, g.inits, i)
    {
      var p := TryBuildPoolLoweringPlan(g.nodes[i], g.infos, g.inits);
      if p.Some? {
        PlansArePlans(g.nodes[i], g.infos, g.inits);
        lowered := TryLowerPoolNode(lowered, g.nodes[i], p.value);
      } else {
        lowered := lowered.WithNode(g.nodes[i]);
      }
    }
    OthersAreLeft(g, |g.nodes|);
  }
}
