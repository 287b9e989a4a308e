/**
 * Rewriting QuantizeLinear and DequantizeLinear to plain arithmetic
 * (src/qdq_lowering.cc:1082-1420, 1904-2289).
 */
module QdqLowering {
  import opened Options
  import opened TensorValues
  import opened Broadcasting
  import opened ParameterLayout
  import opened OnnxGraph
  import opened LoweredNames
  import opened Drafts
  import opened QdqPolicy

  const QDQ_PREFIX := "__trt_rtx_qdq_lowered_"

  // --- Helpers --------------------------------------------------------------------------------

  function BaseOf(node: Node): (base: string)
    requires |node.outputs| == 1
  {
    if node.name != "" then node.name else node.outputs[0]
  }

  function Target(to: Option<DType>): (a: Attributes) {
    NoAttributes.(to := if to.Some? then Some(CodeOfType(to.value)) else None)
  }

  // Helpers carry the documentation string of the node they stand for.
  function HelperNode(node: Node, op: Op, to: Option<DType>, name: string, inputs: seq<string>, output: string): (n: Node)
    ensures n.doc == node.doc && n.outputs == [output] && n.inputs == inputs
  {
    Node(op, Main, name, inputs, [output], Target(to), node.doc)
  }

  // A draft, and the tensor last made in it.
  datatype Emitted = Emitted(draft: Draft, name: string)

  function Applied(
    d: Draft, node: Node, op: Op, to: Option<DType>, word: string, suffix: string, inputs: seq<string>): (e: Emitted)
    requires |node.outputs| == 1
  {
    var id := d.uid + 1;
    var name := d.naming.name(BaseOf(node), suffix, id);
    Emitted(d.Numbered().WithNode(HelperNode(node, op, to, d.naming.name(BaseOf(node), word, id), inputs, name)), name)
  }

  // The last helper makes the tensor the node made.
  function Finished(d: Draft, node: Node, op: Op, to: Option<DType>, base: string, word: string, inputs: seq<string>)
    : (d': Draft)
    requires |node.outputs| == 1
  {
    d.Numbered().WithNode(HelperNode(node, op, to, d.naming.name(base, word, d.uid + 1), inputs, node.outputs[0]))
  }

  // --- Scales and zero points -----------------------------------------------------------------

  // How a parameter is made to line up; it cannot be copied out when its data is not there.
  function LayoutOf(s: Site, p: Tensor, a: Attributes): (h: Option<Handover>)
    ensures h.Some? && h.value.Expanded? ==>
        |p.data| == Size(p.shape) && Accepts(h.value.shape, p.shape, a.axis, BlockOf(a))
  {
    var h := HandoverFor(s.rank, s.shape, p.shape, a.axis, BlockOf(a));
    if h.Some? && h.value.Expanded? && |p.data| != Size(p.shape) then None else h
  }

  function ShapeVector(v: seq<int>): (t: Tensor) {
    Tensor(Int64, [|v|], seq(|v|, i requires 0 <= i < |v| => Fin(v[i] as real)))
  }

  function HandedName(naming: Naming, node: Node, what: string, name: string, h: Handover, id: nat): (handed: string)
    requires |node.outputs| == 1
  {
    var base := naming.name(BaseOf(node), what, id);
    match h
    case AsIs => name
    case Expanded(_) => naming.name(base, "expanded", id)
    case Reshaped(_) => naming.name(base, "reshaped", id)
  }

  function WithHandover(d: Draft, node: Node, what: string, name: string, p: Tensor, h: Handover): (d': Draft)
    requires |node.outputs| == 1
    requires h.Expanded? ==>
        |p.data| == Size(p.shape) && Accepts(h.shape, p.shape, node.attributes.axis, BlockOf(node.attributes))
  {
    var base := d.naming.name(BaseOf(node), what, d.uid);
    match h
    case AsIs => d
    case Expanded(shape) =>
      d.WithInit(d.naming.name(base, "expanded", d.uid),
                 ExpandedParameter(p, shape, node.attributes.axis, BlockOf(node.attributes)))
    case Reshaped(shape) =>
      var vector := d.naming.name(base, "reshape_shape", d.uid);
      d.WithInit(vector, ShapeVector(shape))
       .WithNode(HelperNode(node, Reshape, None, d.naming.name(base, "reshape", d.uid), [name, vector],
                            d.naming.name(base, "reshaped", d.uid)))
  }

  predicate NeedsPromotion(t: DType) {
    !t.Int32? && !t.Int64?
  }

  function PromotedType(t: DType, arithmetic: DType): (p: DType) {
    if t.UInt32? then Int64
    else if t in {UInt8, Int8, UInt16, Int16} then (if arithmetic.Double? then Int64 else Int32)
    else t
  }

  function PromotedZero(zero: Tensor, arithmetic: DType): (t: Tensor) {
    if NeedsPromotion(zero.dtype) then zero.(dtype := PromotedType(zero.dtype, arithmetic)) else zero
  }

  predicate IsReadableInteger(t: Tensor) {
    IsInteger(t.dtype) && |t.data| == Size(t.shape)
  }

  // The parameters of a node as its arithmetic reads them; or none, some of them not lining up.
  datatype Prepared = Declined(draft: Draft) | Prepared(draft: Draft, scale: string, zero: Option<string>)

  function HandZero(d: Draft, node: Node, s: Site, scale: string, name: string, zero: Tensor): (p: Prepared)
    requires |node.outputs| == 1
  {
    var d1 := d.Numbered();
    var h := LayoutOf(s, zero, node.attributes);
    if h.None? then Declined(d1)
    else Prepared(WithHandover(d1, node, "zero", name, zero, h.value), scale,
                  Some(HandedName(d.naming, node, "zero", name, h.value, d1.uid)))
  }

  function PrepareZero(d: Draft, node: Node, s: Site, arithmetic: DType, scale: string): (p: Prepared)
    requires |node.outputs| == 1 && (s.zero.Some? ==> |node.inputs| > 2)
  {
    if s.zero.None? then Prepared(d, scale, None)
    else
      var zero := s.zero.value;
      if !NeedsPromotion(zero.dtype) then HandZero(d, node, s, scale, node.inputs[2], zero)
      else
        var d1 := d.Numbered();
        var name := d.naming.name(BaseOf(node), "zero_promoted", d1.uid);
        var promoted := PromotedZero(zero, arithmetic);
        if !IsReadableInteger(zero) then Declined(d1)
        else HandZero(d1.WithInit(name, promoted), node, s, scale, name, promoted)
  }

  function HandScale(d: Draft, node: Node, s: Site, arithmetic: DType): (e: Emitted)
    requires |node.outputs| == 1 && |node.inputs| >= 2 && LayoutOf(s, s.scale, node.attributes).Some?
  {
    var d1, h := d.Numbered(), LayoutOf(s, s.scale, node.attributes).value;
    var d2 := WithHandover(d1, node, "scale", node.inputs[1], s.scale, h);
    var name := HandedName(d.naming, node, "scale", node.inputs[1], h, d1.uid);
    if arithmetic == s.scale.dtype then Emitted(d2, name)
    else Applied(d2, node, Cast, Some(arithmetic), "cast_scale", "scale_cast", [name])
  }

  function Prepare(d: Draft, node: Node, s: Site, arithmetic: DType): (p: Prepared)
    requires |node.outputs| == 1 && |node.inputs| >= 2 && (s.zero.Some? ==> |node.inputs| > 2)
  {
    if LayoutOf(s, s.scale, node.attributes).None? then Declined(d.Numbered())
    else
      var e := HandScale(d, node, s, arithmetic);
      PrepareZero(e.draft, node, s, arithmetic, e.name)
  }

  // --- Dequantizing ---------------------------------------------------------------------------

  // Wide integers are subtracted as integers.
  function MathType(input: DType, arithmetic: DType): (t: DType) {
    if IsUnsupportedInput(input) then Int64 else arithmetic
  }

  function Difference(d: Draft, node: Node, math: DType, zero: Option<string>): (e: Emitted)
    requires |node.outputs| == 1 && |node.inputs| >= 2
  {
    var x := Applied(d, node, Cast, Some(math), "cast_input", "input_cast", [node.inputs[0]]);
    if zero.None? then x
    else
      var z := Applied(x.draft, node, Cast, Some(math), "cast_zero", "zero_cast", [zero.value]);
      Applied(z.draft, node, Sub, None, "sub", "shifted", [x.name, z.name])
  }

  function Dequantizing(d: Draft, node: Node, math: DType, arithmetic: DType, scale: string, zero: Option<string>)
    : (d': Draft)
    requires |node.outputs| == 1 && |node.inputs| >= 2
  {
    var diff := Difference(d, node, math, zero);
    var e := if math == arithmetic then diff
             else Applied(diff.draft, node, Cast, Some(arithmetic), "cast_diff", "diff_cast", [diff.name]);
    Finished(e.draft, node, Mul, None, BaseOf(node), "mul", [e.name, scale])
  }

  // --- Quantizing -----------------------------------------------------------------------------

  function QuantizeArithmetic(scale: DType, output: DType): (t: DType) {
    if output in {Int16, UInt16} && scale in {Float16, BFloat16} then Float else scale
  }

  function RoundedQuotient(d: Draft, node: Node, arithmetic: DType, scale: string, zero: Option<string>): (e: Emitted)
    requires |node.outputs| == 1 && |node.inputs| >= 2
  {
    var x := Applied(d, node, Cast, Some(arithmetic), "cast_input", "input_cast", [node.inputs[0]]);
    var q := Applied(x.draft, node, Div, None, "div_node", "div", [x.name, scale]);
    var shifted := if zero.None? then q else
                     var z := Applied(q.draft, node, Cast, Some(arithmetic), "cast_zero", "zero_cast", [zero.value]);
                     Applied(z.draft, node, Add, None, "add", "shifted", [q.name, z.name]);
    Applied(shifted.draft, node, Round, None, "round", "rounded", [shifted.name])
  }

  function Scalar(t: DType, n: int): (s: Tensor) {
    Tensor(t, [], [Fin(n as real)])
  }

  function LimitStored(d: Draft, node: Node, word: string, n: int): (e: Emitted)
    requires |node.outputs| == 1
  {
    var name := d.naming.name(BaseOf(node), word, d.uid + 1);
    Emitted(d.Numbered().WithInit(name, Scalar(Int32, n)), name)
  }

  // The node that casts a limit is named one number later than the tensor it makes.
  function LimitCast(d: Draft, node: Node, arithmetic: DType, word: string, suffix: string, limit: string): (e: Emitted)
    requires |node.outputs| == 1
  {
    var id := d.uid + 1;
    var name := d.naming.name(BaseOf(node), suffix, id);
    Emitted(d.Numbered().WithNode(
              HelperNode(node, Cast, Some(arithmetic), d.naming.name(BaseOf(node), word, id + 1), [limit], name)), name)
  }

  function Quantizing(d: Draft, node: Node, arithmetic: DType, output: DType, scale: string, zero: Option<string>)
    : (d': Draft)
    requires |node.outputs| == 1 && |node.inputs| >= 2
  {
    var r := RoundedQuotient(d, node, arithmetic, scale, zero);
    Saturating(r.draft, node, arithmetic, output, r.name)
  }

  function Saturating(d: Draft, node: Node, arithmetic: DType, output: DType, rounded: string): (d': Draft)
    requires |node.outputs| == 1
  {
    var low := LimitStored(d, node, "qmin", MinOf(output));
    var high := LimitStored(low.draft, node, "qmax", MaxOf(output));
    var lowCast := LimitCast(high.draft, node, arithmetic, "cast_qmin", "qmin_cast", low.name);
    var highCast := LimitCast(lowCast.draft, node, arithmetic, "cast_qmax", "qmax_cast", high.name);
    var atLeast := Applied(highCast.draft.Numbered(), node, Max, None, "max", "clamped_min", [rounded, lowCast.name]);
    var clamped := Applied(atLeast.draft, node, Min, None, "min", "clamped", [atLeast.name, highCast.name]);
    Finished(clamped.draft, node, Cast, Some(output), BaseOf(node), "cast_output", [clamped.name])
  }

  // --- Folding --------------------------------------------------------------------------------

  // Stray: the constant was named before its layout turned out not to fit.
  datatype Folding = NotFolded | Stray(t: Tensor) | Folded(t: Tensor)

  function StorageType(scale: DType): (t: DType) {
    if scale.Float16? || scale.BFloat16? then Float else scale
  }

  predicate CanBeRead(x: Tensor, s: Site) {
    && IsReadableInteger(x) && IsFloating(s.scale.dtype) && |s.scale.data| == Size(s.scale.shape)
    && (s.zero.Some? ==> IsReadableInteger(s.zero.value))
  }

  predicate FoldFits(x: Tensor, s: Site, a: Attributes) {
    Size(x.shape) == 0 ||
    (Accepts(x.shape, s.scale.shape, a.axis, BlockOf(a)) &&
     (s.zero.Some? ==> Accepts(x.shape, s.zero.value.shape, a.axis, BlockOf(a))))
  }

  function FoldingOf(x: Tensor, s: Site, a: Attributes): (f: Folding) {
    var storage := StorageType(s.scale.dtype);
    if !CanBeRead(x, s) then NotFolded
    else if FoldFits(x, s, a) then Folded(Dequantized(a, x, s.scale, s.zero).(dtype := storage))
    else Stray(Tensor(storage, x.shape, []))
  }

  function WithFold(d: Draft, node: Node, scale: DType, f: Folding): (d': Draft)
    requires |node.outputs| == 1 && !f.NotFolded?
  {
    var name := d.naming.name(node.outputs[0], "folded_constant", d.uid + 1);
    var stored := d.Numbered().WithInit(name, f.t);
    if f.Stray? then stored
    else if StorageType(scale) != scale then
      Finished(stored, node, Cast, Some(scale), node.outputs[0], "folded_cast", [name])
    else Finished(stored, node, Identity, None, node.outputs[0], "folded_identity", [name])
  }

  function FoldingAt(node: Node, s: Site, inits: map<string, Tensor>): (f: Folding)
    requires |node.inputs| >= 2
  {
    if node.inputs[0] in inits then FoldingOf(inits[node.inputs[0]], s, node.attributes) else NotFolded
  }

  // --- One node -------------------------------------------------------------------------------

  // Quantizing nodes make one tensor.
  predicate MakesOne(node: Node) {
    IsQdq(node) ==> |node.outputs| == 1 && node.outputs[0] != ""
  }

  function LoweredDequantize(d: Draft, node: Node, s: Site): (d': Draft)
    requires |node.outputs| == 1 && |node.inputs| >= 2 && (s.zero.Some? ==> |node.inputs| > 2)
  {
    var scale := s.scale.dtype;
    match Prepare(d, node, s, scale)
    case Declined(d') => d'.WithNode(node)
    case Prepared(d', name, zero) => Dequantizing(d', node, MathType(s.input, scale), scale, name, zero)
  }

  function LoweredQuantize(d: Draft, node: Node, s: Site): (d': Draft)
    requires |node.outputs| == 1 && |node.inputs| >= 2 && (s.zero.Some? ==> |node.inputs| > 2)
  {
    var output := OutputTypeOf(node.attributes, s.zero);
    var arithmetic := QuantizeArithmetic(s.scale.dtype, output);
    match Prepare(d, node, s, arithmetic)
    case Declined(d') => d'.WithNode(node)
    case Prepared(d', name, zero) => Quantizing(d', node, arithmetic, output, name, zero)
  }

  function Lowered(d: Draft, node: Node, s: Site, inits: map<string, Tensor>): (d': Draft)
    requires |node.outputs| == 1 && |node.inputs| >= 2 && (s.zero.Some? ==> |node.inputs| > 2)
  {
    if node.op.DequantizeLinear? then
      var f := FoldingAt(node, s, inits);
      if f.Folded? then WithFold(d, node, s.scale.dtype, f)
      else LoweredDequantize(if f.Stray? then WithFold(d, node, s.scale.dtype, f) else d, node, s)
    else LoweredQuantize(d, node, s)
  }

  function AfterQdqNode(d: Draft, g: Graph, i: nat): (d': Draft)
    requires i < |g.nodes| && MakesOne(g.nodes[i])
  {
    var s := SiteOf(g.nodes[i], g.infos, g.inits);
    if s.None? || !ShouldLower(g, i, s.value) then d.WithNode(g.nodes[i])
    else Lowered(d, g.nodes[i], s.value, g.inits)
  }

  function AfterQdqNodes(d: Draft, g: Graph, n: nat): (d': Draft)
    requires n <= |g.nodes| && forall i :: 0 <= i < |g.nodes| ==> MakesOne(g.nodes[i])
  {
    if n == 0 then d else AfterQdqNode(AfterQdqNodes(d, g, n - 1), g, n - 1)
  }

  // --- The pass -------------------------------------------------------------------------------

  // Element by element, giving up at the first whose parameters cannot be found.
  method TryFoldConstant(x: Tensor, s: Site, a: Attributes) returns (f: Folding)
    ensures f == FoldingOf(x, s, a)
    ensures !f.NotFolded? ==> f.t.dtype == if s.scale.dtype.Double? then Double else Float
  {
    if !CanBeRead(x, s) {
      return NotFolded;
    }
    var storage := StorageType(s.scale.dtype);
    var data: seq<Num> := [];
    for i := 0 to |x.data|
      invariant |data| == i && (i > 0 ==> FoldFits(x, s, a))
      invariant forall j: nat :: j < i ==> data[j] == Dequantized(a, x, s.scale, s.zero).data[j]
    {
      var ok, k := TryResolveBroadcastIndex(i, x.shape, s.scale.shape, a.axis, BlockOf(a));
      if !ok {
        return Stray(Tensor(storage, x.shape, []));
      }
      var zero := Fin(0.0);
      if s.zero.Some? {
        var found, z := TryResolveBroadcastIndex(i, x.shape, s.zero.value.shape, a.axis, BlockOf(a));
        if !found {
          return Stray(Tensor(storage, x.shape, []));
        }
        zero := s.zero.value.data[z];
      }
      data := data + [Times(Minus(x.data[i], zero), s.scale.data[k])];
    }
    assert data == Dequantized(a, x, s.scale, s.zero).data;
    f := Folded(Tensor(storage, x.shape, data));
  }

  // The draft and the name of the parameter in it, unless it does not line up.
  method MaybeAddAxisReshape(d: Draft, node: Node, s: Site, what: string, name: string, p: Tensor)
    returns (d': Draft, handed: Option<string>)
    requires |node.outputs| == 1 && (s.shape.Some? ==> Size(s.shape.value) > 0)
    ensures var h := LayoutOf(s, p, node.attributes);
      if h.None? then d' == d && handed.None? else
        (d' == WithHandover(d, node, what, name, p, h.value) &&
         handed == Some(HandedName(d.naming, node, what, name, h.value, d.uid)))
  {
    var a, rank := node.attributes, |p.shape|;
    var base := d.naming.name(BaseOf(node), what, d.uid);
    d', handed := d, Some(name);
    if rank == 0 || Size(p.shape) == 1 {
      return;
    }
    if s.rank.None? {
      return d, None;
    }
    if BlockOf(a) > 1 {
      if s.shape.None? || |p.data| != Size(p.shape) {
        return d, None;
      }
      var t := AddExpandedInitializer(p, s.shape.value, a.axis, BlockOf(a));
      if t.None? {
        return d, None;
      }
      var expanded := d.naming.name(base, "expanded", d.uid);
      return d.WithInit(expanded, t.value), Some(expanded);
    }
    if rank == 1 {
      if s.rank.value <= 1 {
        return;
      }
      var axis := if a.axis.Some? then a.axis.value else 1;
      if axis < 0 {
        axis := axis + s.rank.value;
      }
      if axis < 0 || axis >= s.rank.value {
        return d, None;
      }
      if axis == s.rank.value - 1 {
        return;
      }
      var dims := OnesExcept(s.rank.value, axis, p.shape[0]);
      var vector, reshaped := d.naming.name(base, "reshape_shape", d.uid), d.naming.name(base, "reshaped", d.uid);
      var helper := HelperNode(node, Reshape, None, d.naming.name(base, "reshape", d.uid), [name, vector], reshaped);
      return d.WithInit(vector, ShapeVector(dims)).WithNode(helper), Some(reshaped);
    }
    if rank != s.rank.value {
      handed := None;
    }
  }

  lemma SitesAreKnown(node: Node, infos: map<string, ValueInfo>, inits: map<string, Tensor>)
    requires SiteOf(node, infos, inits).Some?
    ensures var s := SiteOf(node, infos, inits).value;
      && IsQdq(node) && |node.inputs| >= 2 && (s.zero.Some? ==> |node.inputs| > 2)
      && (s.shape.Some? ==> Size(s.shape.value) > 0)
  {
    var s := SiteOf(node, infos, inits).value;
    if s.shape.Some? {
      SizeIsPositive(s.shape.value);
    }
  }

  method PrepareParameters(d: Draft, node: Node, s: Site, arithmetic: DType) returns (p: Prepared)
    requires |node.outputs| == 1 && |node.inputs| >= 2 && (s.zero.Some? ==> |node.inputs| > 2)
    requires s.shape.Some? ==> Size(s.shape.value) > 0
    ensures p == Prepare(d, node, s, arithmetic)
  {
    var d', scale := MaybeAddAxisReshape(d.Numbered(), node, s, "scale", node.inputs[1], s.scale);
    if scale.None? {
      return Declined(d');
    }
    var name := scale.value;
    if arithmetic != s.scale.dtype {
      var e := Applied(d', node, Cast, Some(arithmetic), "cast_scale", "scale_cast", [name]);
      d', name := e.draft, e.name;
    }
    p := PrepareZeroPoint(d', node, s, arithmetic, name);
  }

  method PrepareZeroPoint(d: Draft, node: Node, s: Site, arithmetic: DType, scale: string) returns (p: Prepared)
    requires |node.outputs| == 1 && |node.inputs| >= 2 && (s.zero.Some? ==> |node.inputs| > 2)
    requires s.shape.Some? ==> Size(s.shape.value) > 0
    ensures p == PrepareZero(d, node, s, arithmetic, scale)
  {
    var d' := d;
    if s.zero.None? {
      return Prepared(d', scale, None);
    }
    var zero, zeroName := s.zero.value, node.inputs[2];
    if NeedsPromotion(zero.dtype) {
      d' := d'.Numbered();
      if !IsReadableInteger(zero) {
        return Declined(d');
      }
      zeroName := d'.naming.name(BaseOf(node), "zero_promoted", d'.uid);
      zero := zero.(dtype := PromotedType(zero.dtype, arithmetic));
      d' := d'.WithInit(zeroName, zero);
    }
    var handed;
    d', handed := MaybeAddAxisReshape(d'.Numbered(), node, s, "zero", zeroName, zero);
    p := if handed.None? then Declined(d') else Prepared(d', scale, handed);
  }

  // The parameters of the node can be made to line up.
  predicate CanPrepare(node: Node, s: Site) {
    && LayoutOf(s, s.scale, node.attributes).Some?
    && (s.zero.Some? ==>
          && (NeedsPromotion(s.zero.value.dtype) ==> IsReadableInteger(s.zero.value))
          && LayoutOf(s, s.zero.value, node.attributes).Some?)
  }

  lemma PreparedWhenPossible(d: Draft, node: Node, s: Site, arithmetic: DType)
    requires |node.outputs| == 1 && |node.inputs| >= 2 && (s.zero.Some? ==> |node.inputs| > 2)
    ensures Prepare(d, node, s, arithmetic).Prepared? <==> CanPrepare(node, s)
  {
  }

  predicate GetsLowered(g: Graph, i: nat) {
    i < |g.nodes| &&
    var node := g.nodes[i];
    var s := SiteOf(node, g.infos, g.inits);
    s.Some? && ShouldLower(g, i, s.value) &&
    ((node.op.DequantizeLinear? && FoldingAt(node, s.value, g.inits).Folded?) || CanPrepare(node, s.value))
  }

  function LoweredCount(g: Graph, n: nat): (count: nat) {
    if n == 0 then 0 else LoweredCount(g, n - 1) + if GetsLowered(g, n - 1) then 1 else 0
  }

  method LowerNode(d: Draft, node: Node, s: Site, inits: map<string, Tensor>) returns (d': Draft, lowered: bool)
    requires |node.outputs| == 1 && |node.inputs| >= 2 && (s.zero.Some? ==> |node.inputs| > 2)
    requires s.shape.Some? ==> Size(s.shape.value) > 0
    ensures d' == Lowered(d, node, s, inits)
    ensures lowered <==> (node.op.DequantizeLinear? && FoldingAt(node, s, inits).Folded?) || CanPrepare(node, s)
  {
    d' := d;
    var output := OutputTypeOf(node.attributes, s.zero);
    if node.op.DequantizeLinear? {
      if node.inputs[0] in inits {
        var f := TryFoldConstant(inits[node.inputs[0]], s, node.attributes);
        if !f.NotFolded? {
          d' := WithFold(d, node, s.scale.dtype, f);
        }
        if f.Folded? {
          return d', true;
        }
      }
    }
    var arithmetic := if node.op.DequantizeLinear? then s.scale.dtype else QuantizeArithmetic(s.scale.dtype, output);
    PreparedWhenPossible(d', node, s, arithmetic);
    var p := PrepareParameters(d', node, s, arithmetic);
    if p.Declined? {
      return p.draft.WithNode(node), false;
    }
    lowered := true;
    d' := if node.op.DequantizeLinear?
    then Dequantizing(p.draft, node, MathType(s.input, arithmetic), arithmetic, p.scale, p.zero)
    else Quantizing(p.draft, node, arithmetic, output, p.scale, p.zero);
  }
}
