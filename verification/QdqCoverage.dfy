/**
 * Which nodes are lowered, told by what TensorRT does not take, and that no others are
 * (src/qdq_lowering.cc:1580-1901, 1921-2060).
 */
module QdqCoverage {
  import opened Options
  import opened Hiding
  import opened TensorValues
  import opened Broadcasting
  import opened ParameterLayout
  import opened OnnxGraph
  import opened Declarations
  import opened LoweredNames
  import opened Drafts
  import opened QdqPolicy
  import opened QdqLowering
  import opened QdqCredit
  import opened QdqSecondRun

  // --- What TensorRT does not take ------------------------------------------------------------

  // A scale is a constant of positive, finite numbers.
  ghost predicate HasUsableScale(g: Graph, node: Node) {
    && |node.inputs| > 1 && node.inputs[1] in g.inits
    && var scale := g.inits[node.inputs[1]];
       && scale.dtype in {Float, Float16, BFloat16, Double} && |scale.data| > 0
       && forall n :: n in scale.data ==> n.Fin? && 0.0 < n.r
  }

  // What is quantized or dequantized is known to be of that type.
  ghost predicate HasInputOf(g: Graph, node: Node, t: DType) {
    |node.inputs| > 0 && HasType(g, node.inputs[0], t)
  }

  ghost predicate HasKnownInput(g: Graph, node: Node) {
    exists t :: HasInputOf(g, node, t)
  }

  ghost predicate HasWideInput(g: Graph, node: Node) {
    HasInputOf(g, node, Int32) || HasInputOf(g, node, UInt32)
  }

  // The zero point is a constant, and not zero.
  ghost predicate HasOffset(g: Graph, node: Node) {
    && |node.inputs| > 2 && node.inputs[2] != "" && node.inputs[2] in g.inits
    && var zero := g.inits[node.inputs[2]];
       !zero.dtype.Bool? && !zero.dtype.OtherType? && exists n :: n in zero.data && n != Fin(0.0)
  }

  ghost predicate HasNarrowOffset(g: Graph, node: Node) {
    HasOffset(g, node) && g.inits[node.inputs[2]].dtype in {Int8, UInt8, Int16, UInt16}
  }

  // Native dequantizing is symmetric and takes no 32-bit integers; native quantizing is symmetric.
  ghost predicate IsNotTaken(g: Graph, node: Node) {
    HasUsableScale(g, node) &&
    ((node.op.DequantizeLinear? && HasKnownInput(g, node) && (HasOffset(g, node) || HasWideInput(g, node))) ||
     (node.op.QuantizeLinear? && HasNarrowOffset(g, node)))
  }

  // --- What goes with it ----------------------------------------------------------------------

  ghost predicate IsOnlyReader(g: Graph, name: string, a: nat, k: nat) {
    && Reads(g, name, a, k)
    && forall b: nat, j: nat :: Reads(g, name, b, j) ==> b == a && j == k
  }

  ghost predicate Reads(g: Graph, name: string, a: nat, k: nat) {
    a < |g.nodes| && k < |g.nodes[a].inputs| && g.nodes[a].inputs[k] == name
  }

  // Node j makes what the anchor reads, or quantizes what it makes.
  ghost predicate IsNextTo(g: Graph, anchor: Node, j: nat)
    requires j < |g.nodes|
  {
    || (exists name :: name in anchor.inputs && name != "" && IsProducer(g.nodes, name, j))
    || (g.nodes[j].op.QuantizeLinear? &&
        exists name :: name in anchor.outputs && name != "" && name in g.nodes[j].inputs)
  }

  // Some other node next to the anchor is not taken.
  ghost predicate IsBesideLowered(g: Graph, i: nat, anchor: Node) {
    exists j: nat :: j < |g.nodes| && j != i && IsNotTaken(g, g.nodes[j]) && IsNextTo(g, anchor, j)
  }

  // A symmetric constant that a matrix product or convolution alone reads, next to such a node.
  ghost predicate IsHarmonizedConstant(g: Graph, i: nat)
    requires i < |g.nodes|
  {
    var node := g.nodes[i];
    && node.op.DequantizeLinear? && HasUsableScale(g, node) && HasKnownInput(g, node)
    && !HasOffset(g, node) && !HasWideInput(g, node)
    && node.inputs[0] != "" && node.inputs[0] in g.inits && node.inputs[0] !in g.inputs
    && |node.outputs| > 0 && node.outputs[0] != ""
    && exists a: nat, k: nat :: IsOnlyReader(g, node.outputs[0], a, k)
         && (g.nodes[a].op.Gemm? || g.nodes[a].op.MatMul? || g.nodes[a].op.Conv? || g.nodes[a].op.ConvTranspose?)
         && IsBesideLowered(g, i, g.nodes[a])
  }

  // --- Parameters that line up ----------------------------------------------------------------

  ghost predicate IsInBlocks(p: nat, dim: nat, block: int) {
    block > 1 && p > 0 && dim == p * block
  }

  ghost predicate IsAxis(axis: Option<int>, rank: nat, d: nat) {
    var a := if axis.Some? then axis.value else 1;
    d < rank && (d == a || d == a + rank)
  }

  ghost predicate RunsAlong(s: Shape, p: Shape, axis: Option<int>, block: int, d: nat)
    requires |p| == 1
  {
    IsAxis(axis, |s|, d) && if block > 1 then IsInBlocks(p[0], s[d], block) else p[0] == 1 || p[0] == s[d]
  }

  // One value, one for each position along the axis or for each block of it, or one for each
  // position in each dimension that is not 1.
  ghost predicate HasOnnxLayout(s: Shape, p: Shape, axis: Option<int>, block: int) {
    || p == [] || Size(p) == 1
    || (|p| == 1 && |s| <= 1 &&
        var dim := if s == [] then 1 else s[0];
        p[0] == 1 || p[0] == dim || IsInBlocks(p[0], dim, block))
    || (|p| == 1 && |s| > 1 && exists d: nat :: RunsAlong(s, p, axis, block, d))
    || (|p| > 1 && |p| == |s| && forall d: nat :: d < |s| ==>
          p[d] == 1 || p[d] == s[d] || (IsAxis(axis, |s|, d) && IsInBlocks(p[d], s[d], block)))
  }

  ghost predicate LinesUp(g: Graph, node: Node, p: Tensor) {
    |node.inputs| > 0 &&
    var x, axis, block := node.inputs[0], node.attributes.axis, BlockOf(node.attributes);
    || p.shape == [] || Size(p.shape) == 1
    || (block > 1 && |p.data| == Size(p.shape) && exists s :: HasShape(g, x, s) && HasOnnxLayout(s, p.shape, axis, block))
    || (block <= 1 && exists r: nat :: HasRank(g, x, r) && FitsRank(r, p.shape, axis))
  }

  ghost predicate FitsRank(r: nat, p: Shape, axis: Option<int>) {
    if |p| == 1 then r == 1 || exists d: nat :: IsAxis(axis, r, d) else |p| == r
  }

  // All that the arithmetic reads lines up with the tensor; zero points other than int32 and int64
  // are stored anew and must be read for that.
  ghost predicate AllLineUp(g: Graph, node: Node) {
    && |node.inputs| > 1 && node.inputs[1] in g.inits && LinesUp(g, node, g.inits[node.inputs[1]])
    && (|node.inputs| > 2 && node.inputs[2] != "" && node.inputs[2] in g.inits ==>
          var zero := g.inits[node.inputs[2]];
          LinesUp(g, node, zero) && (zero.dtype in {Int32, Int64} || IsReadable(zero)))
  }

  ghost predicate IsReadable(t: Tensor) {
    t.dtype in {Int8, UInt8, Int16, UInt16, Int32, UInt32, Int64, UInt64} && |t.data| == Size(t.shape)
  }

  // A constant whose elements all find their parameters.
  ghost predicate IsFoldable(g: Graph, node: Node) {
    && node.op.DequantizeLinear? && |node.inputs| > 1 && node.inputs[0] in g.inits && node.inputs[1] in g.inits
    && var x, scale := g.inits[node.inputs[0]], g.inits[node.inputs[1]];
       && IsReadable(x) && |scale.data| == Size(scale.shape)
       && (Size(x.shape) > 0 ==> HasOnnxLayout(x.shape, scale.shape, node.attributes.axis, BlockOf(node.attributes)))
       && (|node.inputs| > 2 && node.inputs[2] != "" && node.inputs[2] in g.inits ==>
             var zero := g.inits[node.inputs[2]];
             && IsReadable(zero)
             && (Size(x.shape) > 0 ==> HasOnnxLayout(x.shape, zero.shape, node.attributes.axis, BlockOf(node.attributes))))
  }

  // --- The cases ------------------------------------------------------------------------------

  ghost predicate CaseFacts(g: Graph, i: nat, u: Unfolding) {
    i < |g.nodes| && HasKnownInput(g, g.nodes[i]) &&
    (IsNotTaken(g, g.nodes[i]) || IsHarmonizedConstant(g, i)) &&
    (AllLineUp(g, g.nodes[i]) || IsFoldable(g, g.nodes[i]))
  }

  // The node is not taken, or goes with one that is not, and its parameters are found.
  ghost predicate IsToBeLowered(g: Graph, i: nat) {
    forall u {:trigger CaseFacts(g, i, u)} :: CaseFacts(g, i, u)
  }

  lemma CaseUnfolds(g: Graph, i: nat)
    ensures IsToBeLowered(g, i) <==> CaseFacts(g, i, Unfolded)
  {
    if CaseFacts(g, i, Unfolded) {
      forall u ensures CaseFacts(g, i, u) {
      }
    }
  }

  ghost function NodesToLower(g: Graph): (places: set<nat>) {
    set i: nat | i < |g.nodes| && IsToBeLowered(g, i)
  }

  // --- The rules are those of the pass --------------------------------------------------------

  lemma OffsetIsNonZero(g: Graph, node: Node)
    ensures HasOffset(g, node) <==> HasNonZero(ConstantZero(node, g.inits))
  {
    if HasOffset(g, node) {
      var zero := g.inits[node.inputs[2]];
      var data := zero.data;
      assert IsInteger(zero.dtype) || IsFloating(zero.dtype);
      var n :| n in data && n != Fin(0.0);
      var i :| 0 <= i < |data| && data[i] == n;
      assert data[i] != Fin(0.0);
    }
    if HasNonZero(ConstantZero(node, g.inits)) {
      var data := g.inits[node.inputs[2]].data;
      var i :| 0 <= i < |data| && data[i] != Fin(0.0);
      assert data[i] in data;
    }
  }

  lemma UsableIsPositive(g: Graph, node: Node)
    ensures HasUsableScale(g, node) <==> HasScale(node, g.inits)
  {
    if |node.inputs| > 1 && node.inputs[1] in g.inits {
      var scale := g.inits[node.inputs[1]];
      assert forall i :: 0 <= i < |scale.data| ==> scale.data[i] in scale.data;
    }
  }

  lemma InputIsTyped(g: Graph, node: Node)
    requires |node.inputs| > 0
    ensures var t := ElementType(g.infos, g.inits, node.inputs[0]);
      && (HasKnownInput(g, node) <==> t.Some?)
      && (t.Some? ==> (HasWideInput(g, node) <==> IsUnsupportedInput(t.value)))
  {
    var t := ElementType(g.infos, g.inits, node.inputs[0]);
    if t.Some? {
      assert HasInputOf(g, node, t.value);
    }
  }

  lemma NotTakenIsForced(g: Graph, node: Node)
    ensures IsNotTaken(g, node) <==> BaseLowers(node, g.infos, g.inits)
  {
    OffsetIsNonZero(g, node);
    UsableIsPositive(g, node);
    if HasUsableScale(g, node) {
      InputIsTyped(g, node);
    }
  }

  lemma BesideIsForcedSibling(g: Graph, i: nat, anchor: Node)
    ensures IsBesideLowered(g, i, anchor) <==> AnchorHasForcedSibling(g, i, anchor)
  {
    if IsBesideLowered(g, i, anchor) {
      var j: nat :| j < |g.nodes| && j != i && IsNotTaken(g, g.nodes[j]) && IsNextTo(g, anchor, j);
      NextIsSibling(g, i, anchor, j);
    }
    if k :| 0 <= k < |anchor.inputs| && FeedsAnchor(g, i, anchor.inputs[k]) {
      var j := ProducerOf(g.nodes, anchor.inputs[k]).value;
      ProducerIsLast(g.nodes, anchor.inputs[k], j);
      NotTakenIsForced(g, g.nodes[j]);
      assert IsProducer(g.nodes, anchor.inputs[k], j) && IsNextTo(g, anchor, j);
    } else if k :| 0 <= k < |anchor.outputs| && RequantizesAnchor(g, i, anchor.outputs[k]) {
      var name := anchor.outputs[k];
      var j :| 0 <= j < |g.nodes| && name in g.nodes[j].inputs && g.nodes[j].op.QuantizeLinear? && IsForced(g, i, j);
      NotTakenIsForced(g, g.nodes[j]);
      assert IsNextTo(g, anchor, j);
    }
  }

  lemma NextIsSibling(g: Graph, i: nat, anchor: Node, j: nat)
    requires j < |g.nodes| && j != i && IsNotTaken(g, g.nodes[j]) && IsNextTo(g, anchor, j)
    ensures AnchorHasForcedSibling(g, i, anchor)
  {
    NotTakenIsForced(g, g.nodes[j]);
    if name :| name in anchor.inputs && name != "" && IsProducer(g.nodes, name, j) {
      ProducerIsLast(g.nodes, name, j);
      var k :| 0 <= k < |anchor.inputs| && anchor.inputs[k] == name;
      assert FeedsAnchor(g, i, anchor.inputs[k]);
    } else {
      var name :| name in anchor.outputs && name != "" && name in g.nodes[j].inputs;
      var k :| 0 <= k < |anchor.outputs| && anchor.outputs[k] == name;
      assert RequantizesAnchor(g, i, anchor.outputs[k]);
    }
  }

  lemma OnlyReaderIsSingle(g: Graph, node: Node, a: nat)
    requires node.outputs != [] && node.outputs[0] != ""
    ensures SingleAnchor(g.nodes, node) == Some(a) <==>
            (exists k: nat :: IsOnlyReader(g, node.outputs[0], a, k)) && a < |g.nodes| && IsComputeAnchor(g.nodes[a])
  {
    var name := node.outputs[0];
    var places := ReadsOf(g.nodes, name);
    if |places| == 1 {
      var p :| p in places;
      forall b: nat, j: nat | Reads(g, name, b, j) ensures (b, j) == p {
        OnlyRead(places, p, (b, j));
      }
      assert IsOnlyReader(g, name, p.0, p.1);
    }
    if k: nat :| IsOnlyReader(g, name, a, k) {
      assert places == {(a, k)} by {
        forall p ensures p in places <==> p == (a, k) {
          assert p in places <==> Reads(g, name, p.0, p.1);
        }
      }
    }
  }

  lemma HarmonizedAsStated(g: Graph, i: nat, s: Site)
    requires i < |g.nodes| && SiteOf(g.nodes[i], g.infos, g.inits) == Some(s) && g.nodes[i].op.DequantizeLinear?
    requires MakesOne(g.nodes[i])
    ensures IsHarmonizedConstant(g, i) <==>
            IsSymmetricConstantCandidate(g, g.nodes[i], s.zero, s.input) && IsHarmonized(g, i)
  {
    var node := g.nodes[i];
    UsableIsPositive(g, node);
    InputIsTyped(g, node);
    OffsetIsNonZero(g, node);
    forall a: nat | a < |g.nodes|
      ensures SingleAnchor(g.nodes, node) == Some(a) <==>
              (exists k: nat :: IsOnlyReader(g, node.outputs[0], a, k)) && IsComputeAnchor(g.nodes[a])
      ensures IsBesideLowered(g, i, g.nodes[a]) <==> AnchorHasForcedSibling(g, i, g.nodes[a])
    {
      OnlyReaderIsSingle(g, node, a);
      BesideIsForcedSibling(g, i, g.nodes[a]);
    }
    if IsHarmonized(g, i) {
      var a := SingleAnchor(g.nodes, node).value;
      var k: nat :| IsOnlyReader(g, node.outputs[0], a, k);
    }
  }

  lemma DecisionAsStated(g: Graph, i: nat)
    requires i < |g.nodes| && MakesOne(g.nodes[i]) && SiteOf(g.nodes[i], g.infos, g.inits).Some?
    ensures HasKnownInput(g, g.nodes[i])
    ensures ShouldLower(g, i, SiteOf(g.nodes[i], g.infos, g.inits).value) <==>
            IsNotTaken(g, g.nodes[i]) || IsHarmonizedConstant(g, i)
  {
    var node, s := g.nodes[i], SiteOf(g.nodes[i], g.infos, g.inits).value;
    NotTakenIsForced(g, node);
    InputIsTyped(g, node);
    if node.op.DequantizeLinear? {
      HarmonizedAsStated(g, i, s);
    }
  }

  // --- The layouts are those of the pass ------------------------------------------------------

  lemma TheAxis(axis: Option<int>, rank: nat, d: nat)
    ensures IsAxis(axis, rank, d) <==> d < rank && d == Axis(axis, rank)
  {
  }

  lemma LayoutIsAccepted(s: Shape, p: Shape, axis: Option<int>, block: int)
    ensures HasOnnxLayout(s, p, axis, block) <==> Accepts(s, p, axis, block)
  {
    forall d: nat ensures IsAxis(axis, |s|, d) <==> d < |s| && d == Axis(axis, |s|) {
      TheAxis(axis, |s|, d);
    }
    if |p| == 1 && |s| > 1 && 0 <= Axis(axis, |s|) < |s| {
      assert IsAxis(axis, |s|, Axis(axis, |s|));
      if Accepts(s, p, axis, block) && !IsSingle(p) {
        assert RunsAlong(s, p, axis, block, Axis(axis, |s|));
      }
    }
  }

  lemma LinesUpAsStated(g: Graph, node: Node, s: Site, p: Tensor)
    requires SiteOf(node, g.infos, g.inits) == Some(s)
    ensures LinesUp(g, node, p) <==> LayoutOf(s, p, node.attributes).Some?
  {
    var x, a := node.inputs[0], node.attributes;
    if s.shape.Some? {
      ShapeIsStatic(g, x, s.shape.value);
      LayoutIsAccepted(s.shape.value, p.shape, a.axis, BlockOf(a));
    }
    forall shape | HasShape(g, x, shape) ensures s.shape == Some(shape) && s.rank == Some(|shape|) {
      ShapeIsStatic(g, x, shape);
      RankIsStatic(g, x, |shape|);
    }
    if s.rank.Some? {
      RankIsStatic(g, x, s.rank.value);
      RankFitsAsStated(s.rank.value, p.shape, a.axis);
    }
    forall r: nat | HasRank(g, x, r) ensures s.rank == Some(r) {
      RankIsStatic(g, x, r);
    }
  }

  lemma RankFitsAsStated(r: nat, p: Shape, axis: Option<int>)
    ensures FitsRank(r, p, axis) <==> if |p| == 1 then r == 1 || 0 <= Axis(axis, r) < r else |p| == r
  {
    forall d: nat ensures IsAxis(axis, r, d) <==> d < r && d == Axis(axis, r) {
      TheAxis(axis, r, d);
    }
    if 0 <= Axis(axis, r) < r {
      assert IsAxis(axis, r, Axis(axis, r));
    }
  }

  lemma FoldableAsStated(g: Graph, node: Node, s: Site)
    requires SiteOf(node, g.infos, g.inits) == Some(s)
    ensures IsFoldable(g, node) <==> node.op.DequantizeLinear? && FoldingAt(node, s, g.inits).Folded?
  {
    if node.inputs[0] in g.inits {
      var x, a := g.inits[node.inputs[0]], node.attributes;
      LayoutIsAccepted(x.shape, s.scale.shape, a.axis, BlockOf(a));
      if s.zero.Some? {
        LayoutIsAccepted(x.shape, s.zero.value.shape, a.axis, BlockOf(a));
      }
    }
  }

  lemma AllLineUpAsStated(g: Graph, node: Node, s: Site)
    requires SiteOf(node, g.infos, g.inits) == Some(s)
    ensures AllLineUp(g, node) <==> CanPrepare(node, s)
  {
    LinesUpAsStated(g, node, s, s.scale);
    if s.zero.Some? {
      LinesUpAsStated(g, node, s, s.zero.value);
    }
  }

  // The pass lowers a node exactly in these cases.
  lemma LoweredAsStated(g: Graph, i: nat)
    requires i < |g.nodes| ==> MakesOne(g.nodes[i])
    ensures GetsLowered(g, i) <==> IsToBeLowered(g, i)
  {
    CaseUnfolds(g, i);
    if i < |g.nodes| {
      var node := g.nodes[i];
      UsableIsPositive(g, node);
      if HasUsableScale(g, node) {
        InputIsTyped(g, node);
      }
      var s := SiteOf(node, g.infos, g.inits);
      if s.Some? {
        DecisionAsStated(g, i);
        FoldableAsStated(g, node, s.value);
        AllLineUpAsStated(g, node, s.value);
      }
    }
  }

  // --- What the pass leaves -------------------------------------------------------------------

  ghost function LoweredBefore(g: Graph, n: nat): (places: set<nat>) {
    if n == 0 then {} else LoweredBefore(g, n - 1) + if IsToBeLowered(g, n - 1) then {n - 1} else {}
  }

  lemma {:induction false} LoweredBeforeAre(g: Graph, n: nat, i: nat)
    ensures i in LoweredBefore(g, n) <==> i < n && IsToBeLowered(g, i)
    decreases n
  {
    if n > 0 {
      LoweredBeforeAre(g, n - 1, i);
    }
  }

  lemma AllAreLoweredBefore(g: Graph)
    ensures NodesToLower(g) == LoweredBefore(g, |g.nodes|)
  {
    forall i: nat ensures i in NodesToLower(g) <==> i in LoweredBefore(g, |g.nodes|) {
      LoweredBeforeAre(g, |g.nodes|, i);
    }
  }

  lemma OneMoreCounted(places: set<nat>, i: nat, more: bool)
    requires i !in places
    ensures |places + if more then {i} else {}| == |places| + if more then 1 else 0
  {
    if !more {
      assert places + {} == places;
    }
  }

  lemma {:induction false} CountAsStated(g: Graph, n: nat)
    requires n <= |g.nodes| && forall i :: 0 <= i < |g.nodes| ==> MakesOne(g.nodes[i])
    ensures LoweredCount(g, n) == |LoweredBefore(g, n)|
  {
    if n > 0 {
      var i := n - 1;
      CountAsStated(g, i);
      LoweredAsStated(g, i);
      LoweredBeforeAre(g, i, i);
      OneMoreCounted(LoweredBefore(g, i), i, IsToBeLowered(g, i));
    }
  }

  // The node is one of the graph that is not to be lowered.
  ghost predicate IsKeptFrom(g: Graph, node: Node) {
    exists i: nat :: i < |g.nodes| && g.nodes[i] == node && !IsToBeLowered(g, i)
  }

  // The quantizing nodes left are nodes of the graph that are not to be lowered, in particular none
  // that is not taken though all lines up; and all other nodes are left as they were.
  ghost predicate LeavesOnlyOthers(g: Graph, left: seq<Node>) {
    && (forall k :: 0 <= k < |left| && IsQdq(left[k]) ==> IsKeptFrom(g, left[k]))
    && (forall k :: 0 <= k < |left| && IsQdq(left[k]) ==>
          !(IsNotTaken(g, left[k]) && HasKnownInput(g, left[k]) && AllLineUp(g, left[k])))
    && forall i :: 0 <= i < |g.nodes| && !IsToBeLowered(g, i) ==> g.nodes[i] in left
  }

  lemma OnlyOthersAreLeft(g: Graph)
    requires forall i :: 0 <= i < |g.nodes| ==> MakesOne(g.nodes[i])
    ensures LeavesOnlyOthers(g, AfterQdqNodes(Draft(NamingOf(QDQ_PREFIX), g.inits, [], 0), g, |g.nodes|).nodes)
  {
    var start := Draft(NamingOf(QDQ_PREFIX), g.inits, [], 0);
    var trail := TrailOf(start, g);
    TrailIsTrail(start, g);
    var r := trail[|g.nodes|].nodes;
    forall k | 0 <= k < |r| && IsQdq(r[k]) ensures IsKeptFrom(g, r[k]) {
      LeftIsKept(trail, g, k);
    }
    forall i | 0 <= i < |g.nodes| && !IsToBeLowered(g, i) ensures g.nodes[i] in r {
      KeptIsLeft(trail, g, i);
    }
  }

  lemma LeftIsKept(trail: seq<Draft>, g: Graph, k: nat)
    requires IsTrail(trail, g) && trail[0].nodes == [] && k < |trail[|g.nodes|].nodes|
    requires IsQdq(trail[|g.nodes|].nodes[k])
    requires forall i :: 0 <= i < |g.nodes| ==> MakesOne(g.nodes[i])
    ensures IsKeptFrom(g, trail[|g.nodes|].nodes[k])
  {
    var r := trail[|g.nodes|].nodes;
    var i := StretchAt(trail, g, |g.nodes|, k);
    EveryNodeIsRepresented(trail, g, i);
    StretchEnds(trail, g, i);
    LoweredAsStated(g, i);
    var to := |trail[i + 1].nodes|;
    assert r[..to][to - 1] == r[to - 1];
  }

  lemma KeptIsLeft(trail: seq<Draft>, g: Graph, i: nat)
    requires IsTrail(trail, g) && i < |g.nodes| && !IsToBeLowered(g, i) && MakesOne(g.nodes[i])
    ensures g.nodes[i] in trail[|g.nodes|].nodes
  {
    EveryNodeIsRepresented(trail, g, i);
    StretchEnds(trail, g, i);
    LoweredAsStated(g, i);
    var r, to := trail[|g.nodes|].nodes, |trail[i + 1].nodes|;
    assert r[..to][to - 1] == r[to - 1];
  }

  // --- The type of the arithmetic -------------------------------------------------------------

  // 32-bit integers are subtracted in int64, all else is dequantized in the scale's type. What
  // becomes 16 bits wide is quantized in float where the scale has half its width.
  ghost predicate BeginsIn(g: Graph, node: Node, t: DType) {
    && |node.inputs| > 1 && node.inputs[1] in g.inits
    && var scale := g.inits[node.inputs[1]].dtype;
       if node.op.DequantizeLinear? then t == if HasWideInput(g, node) then Int64 else scale
       else
         t == if scale in {Float16, BFloat16} && HasOffset(g, node) &&
                 g.inits[node.inputs[2]].dtype in {Int16, UInt16} then Float
              else scale
  }

  // What is lowered and not folded begins by casting its input to that type.
  lemma LoweredBeginsIn(g: Graph, i: nat) returns (k: nat, t: DType)
    requires forall j :: 0 <= j < |g.nodes| ==> MakesOne(g.nodes[j])
    requires i < |g.nodes| && IsToBeLowered(g, i) && !IsFoldable(g, g.nodes[i])
    ensures var r := AfterQdqNodes(Draft(NamingOf(QDQ_PREFIX), g.inits, [], 0), g, |g.nodes|).nodes;
      k < |r| && BeginsIn(g, g.nodes[i], t) && CastsFirst(r[k], g.nodes[i], t)
  {
    var start := Draft(NamingOf(QDQ_PREFIX), g.inits, [], 0);
    var trail := TrailOf(start, g);
    TrailIsTrail(start, g);
    t := LoweredCasts(trail[i], g, i);
    assert StepsAt(trail, g, i);
    k :| |trail[i].nodes| <= k < |trail[i + 1].nodes| && CastsFirst(trail[i + 1].nodes[k], g.nodes[i], t);
    EveryNodeIsRepresented(trail, g, i);
    var r := trail[|g.nodes|].nodes;
    assert r[..|trail[i + 1].nodes|][k] == r[k];
  }

  lemma LoweredCasts(d: Draft, g: Graph, i: nat) returns (t: DType)
    requires i < |g.nodes| && MakesOne(g.nodes[i]) && IsToBeLowered(g, i) && !IsFoldable(g, g.nodes[i])
    ensures BeginsIn(g, g.nodes[i], t) && CastsInput(d, AfterQdqNode(d, g, i), g.nodes[i], t)
  {
    var node := g.nodes[i];
    LoweredAsStated(g, i);
    var s := SiteOf(node, g.infos, g.inits).value;
    FoldableAsStated(g, node, s);
    LoweredLeavesNone(d, g, i);
    t := WorkingType(node, s);
    WorkingTypeAsStated(g, i, s);
  }

  lemma WorkingTypeAsStated(g: Graph, i: nat, s: Site)
    requires i < |g.nodes| && MakesOne(g.nodes[i]) && SiteOf(g.nodes[i], g.infos, g.inits) == Some(s)
    requires ShouldLower(g, i, s)
    ensures BeginsIn(g, g.nodes[i], WorkingType(g.nodes[i], s))
  {
    InputIsTyped(g, g.nodes[i]);
    OffsetIsNonZero(g, g.nodes[i]);
  }

  // --- The pass -------------------------------------------------------------------------------

  method RunQdqLowering(g: Graph) returns (lowered: Draft, count: nat)
    requires forall i :: 0 <= i < |g.nodes| ==> MakesOne(g.nodes[i])
    ensures lowered == AfterQdqNodes(Draft(NamingOf(QDQ_PREFIX), g.inits, [], 0), g, |g.nodes|)
    ensures count == |NodesToLower(g)|
    ensures LeavesOnlyOthers(g, lowered.nodes)
  {
    lowered, count := Draft(NamingOf(QDQ_PREFIX), g.inits, [], 0), 0;
    for i := 0 to |g.nodes|
      invariant lowered == AfterQdqNodes(Draft(NamingOf(QDQ_PREFIX), g.inits, [], 0), g, i)
      invariant count == LoweredCount(g, i)
    {
      var s := SiteOf(g.nodes[i], g.infos, g.inits);
      if s.None? || !ShouldLower(g, i, s.value) {
        lowered := lowered.WithNode(g.nodes[i]);
      } else {
        SitesAreKnown(g.nodes[i], g.infos, g.inits);
        var done;
        lowered, done := LowerNode(lowered, g.nodes[i], s.value, g.inits);
        if done {
          count := count + 1;
        }
      }
    }
    CountAsStated(g, |g.nodes|);
    AllAreLoweredBefore(g);
    OnlyOthersAreLeft(g);
  }
}
