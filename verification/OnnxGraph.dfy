/**
 * Flat graphs and what it means to run one: nodes in order, each reading tensors by name and
 * binding its outputs. Operators the rewrites do not touch keep whatever meaning `other` gives
 * them.
 */
module OnnxGraph {
  import opened Options
  import opened TensorValues
  import opened Broadcasting
  import opened ParameterLayout
  import opened QuantizeRounding
  import opened PoolMeaning

  datatype Op =
    | Cast | Identity | Constant | Reshape | Round | Slice | Clip
    | Add | Sub | Mul | Div | Max | Min
    | MaxPool | AveragePool
    | QuantizeLinear | DequantizeLinear
    | Gemm | MatMul | Conv | ConvTranspose
    | Equal | NotEqual | Greater | GreaterOrEqual | Less | LessOrEqual | And | Or | Xor | Not | IsInf | IsNaN
    | OtherOp(name: string)

  datatype Domain = Main | AiOnnx | Foreign(name: string)

  // The attributes the rewrites look at, and the rest as they stand.
  datatype Attributes = Attributes(
    to: Option<int>, axis: Option<int>, blockSize: Option<int>, outputDtype: Option<int>,
    kernelShape: Option<seq<int>>, strides: Option<seq<int>>, dilations: Option<seq<int>>, pads: Option<seq<int>>,
    autoPad: Option<string>, ceilMode: Option<int>, value: Option<Tensor>, clipBounds: bool, rest: map<string, string>)

  const NoAttributes :=
    Attributes(None, None, None, None, None, None, None, None, None, None, None, false, map[])

  datatype Node = Node(
    op: Op, domain: Domain, name: string, inputs: seq<string>, outputs: seq<string>, attributes: Attributes, doc: string)

  // A declared dimension is None when it is not known beforehand.
  datatype ValueInfo = ValueInfo(dtype: DType, shape: Option<seq<Option<nat>>>)

  datatype Graph = Graph(
    nodes: seq<Node>, inits: map<string, Tensor>, infos: map<string, ValueInfo>, inputs: set<string>, outputs: set<string>)

  // The node that makes the tensor; the last one, were there several.
  function ProducerOf(nodes: seq<Node>, name: string): (i: Option<nat>)
    ensures i.Some? ==> i.value < |nodes| && name in nodes[i.value].outputs
    ensures i.None? ==> forall j :: 0 <= j < |nodes| ==> name !in nodes[j].outputs
  {
    if nodes == [] then None
    else
      var last := |nodes| - 1;
      if name in nodes[last].outputs then Some(last) else ProducerOf(nodes[..last], name)
  }

  // Node j makes the tensor, and none behind it.
  ghost predicate IsProducer(nodes: seq<Node>, name: string, j: nat) {
    j < |nodes| && name in nodes[j].outputs && forall i :: j < i < |nodes| ==> name !in nodes[i].outputs
  }

  lemma {:induction false} ProducerIsLast(nodes: seq<Node>, name: string, j: nat)
    ensures ProducerOf(nodes, name) == Some(j) <==> IsProducer(nodes, name, j)
    decreases |nodes|
  {
    if nodes != [] && name !in nodes[|nodes| - 1].outputs {
      ProducerIsLast(nodes[..|nodes| - 1], name, j);
    }
  }

  predicate InMainDomain(node: Node) {
    !node.domain.Foreign?
  }

  // TensorProto.DataType
  function TypeOfCode(code: int): (t: DType) {
    if code == 1 then Float else if code == 2 then UInt8 else if code == 3 then Int8 else if code == 4 then UInt16
    else if code == 5 then Int16 else if code == 6 then Int32 else if code == 7 then Int64 else if code == 9 then Bool
    else if code == 10 then Float16 else if code == 11 then Double else if code == 12 then UInt32
    else if code == 13 then UInt64 else if code == 16 then BFloat16 else OtherType
  }

  function CodeOfType(t: DType): (code: int)
    ensures TypeOfCode(code) == t
  {
    match t
    case Float => 1
    case UInt8 => 2
    case Int8 => 3
    case UInt16 => 4
    case Int16 => 5
    case Int32 => 6
    case Int64 => 7
    case Bool => 9
    case Float16 => 10
    case Double => 11
    case UInt32 => 12
    case UInt64 => 13
    case BFloat16 => 16
    case OtherType => 0
  }

  // --- Operators ------------------------------------------------------------------------------

  type Env = map<string, Tensor>
  type Args = seq<Option<Tensor>>

  // What each operator computes from its inputs, an absent optional input being None.
  type Ops = (Node, Args) -> Option<seq<Tensor>>

  datatype Meaning = Means(result: Option<Tensor>) | IsOther

  function Arg(args: Args, i: nat): (t: Option<Tensor>) {
    if i < |args| then args[i] else None
  }

  function Casted(x: Tensor, to: DType): (t: Tensor) {
    Mapped(n => Converted(n, to), to, x)
  }

  function Fitted(op: BinaryOp, t: DType): (f: BinaryOp) {
    (a, b) => Converted(op(a, b), t)
  }

  function Binary(op: BinaryOp, args: Args): (m: Meaning) {
    if |args| != 2 || args[0].None? || args[1].None? then IsOther
    else Means(Zipped(Fitted(op, args[0].value.dtype), args[0].value, args[1].value))
  }

  function Integers(t: Tensor): (r: Option<seq<int>>) {
    if |t.shape| == 1 && forall i :: 0 <= i < |t.data| ==> t.data[i].Fin? then
      Some(seq(|t.data|, i requires 0 <= i < |t.data| => t.data[i].r.Floor))
    else None
  }

  function Naturals(v: seq<int>): (r: Option<seq<nat>>) {
    if forall i :: 0 <= i < |v| ==> v[i] >= 0 then Some(seq(|v|, i requires 0 <= i < |v| => v[i])) else None
  }

  function ReshapeMeaning(args: Args): (m: Meaning) {
    if |args| != 2 || args[0].None? || args[1].None? || Integers(args[1].value).None? then IsOther
    else
      var shape := Naturals(Integers(args[1].value).value);
      if shape.None? || 0 in shape.value then IsOther
      else if Size(shape.value) != |args[0].value.data| then Means(None)
      else Means(Some(args[0].value.(shape := shape.value)))
  }

  function AllAxes(rank: nat): (axes: seq<int>) {
    seq(rank, d => d)
  }

  function SliceMeaning(args: Args): (m: Meaning) {
    if |args| != 5 || args[0].None? || args[1].None? || args[2].None? || args[3].None? || args[4].None? then IsOther
    else SliceWith(args[0].value, Integers(args[1].value), Integers(args[2].value), Integers(args[3].value),
                   Integers(args[4].value))
  }

  function SliceWith(
    x: Tensor, starts: Option<seq<int>>, ends: Option<seq<int>>, axes: Option<seq<int>>, steps: Option<seq<int>>)
    : (m: Meaning)
  {
    if starts.None? || ends.None? || axes.None? || steps.None? then IsOther
    else
      var from, upTo, every := Naturals(starts.value), Naturals(ends.value), Naturals(steps.value);
      if from.None? || upTo.None? || every.None? || 0 in every.value || axes.value != AllAxes(|x.shape|) then IsOther
      else if !(|from.value| == |upTo.value| == |every.value| == |x.shape|) then Means(None)
      else Means(Some(Sliced(x, from.value, upTo.value, every.value)))
  }

  // Both bounds given as inputs of one element; an absent bound stands for a limit of the type.
  function ClipMeaning(node: Node, args: Args): (m: Meaning) {
    if |args| > 3 then Means(None)
    else if node.attributes.clipBounds || |args| < 3 || args[0].None? || args[1].None? || args[2].None? then IsOther
    else
      var x, low, high := args[0].value, args[1].value, args[2].value;
      if !IsSingle(low.shape) || !IsSingle(high.shape) || |low.shape| > |x.shape| || |high.shape| > |x.shape| ||
         low.dtype != x.dtype || high.dtype != x.dtype || |low.data| != 1 || |high.data| != 1 || |x.data| != Size(x.shape)
      then Means(None)
      else Means(Some(Mapped(n => Smaller(Larger(n, low.data[0]), high.data[0]), x.dtype, x)))
  }

  function Ones(n: nat): (s: seq<int>) {
    seq(n, _ => 1)
  }

  // The window of a pooling node without padding.
  function WindowOf(a: Attributes, s: Shape): (w: Option<Window>) {
    if a.kernelShape.None? || a.kernelShape.value == [] || !(a.autoPad.None? || a.autoPad.value == "NOTSET") then None
    else
      var kernel := a.kernelShape.value;
      var strides := if a.strides.Some? then a.strides.value else Ones(|kernel|);
      var dilations := if a.dilations.Some? then a.dilations.value else Ones(|kernel|);
      var k, st, d := Naturals(kernel), Naturals(strides), Naturals(dilations);
      if k.None? || st.None? || d.None? || (a.pads.Some? && exists i :: 0 <= i < |a.pads.value| && a.pads.value[i] != 0)
      then None
      else
        var w := Window(k.value, st.value, d.value, a.ceilMode.Some? && a.ceilMode.value != 0);
        if IsWindow(w, s) then Some(w) else None
  }

  function PoolingMeaning(node: Node, args: Args): (m: Meaning) {
    if |args| != 1 || args[0].None? || |node.outputs| != 1 then IsOther
    else
      var x := args[0].value;
      var w := WindowOf(node.attributes, x.shape);
      if |x.data| != Size(x.shape) then Means(None)
      else if w.None? then IsOther
      else if node.op.MaxPool? then Means(Some(MaxPooled(x, w.value)))
      else Means(Some(AveragePooled(x, w.value)))
  }

  // --- Quantization ---------------------------------------------------------------------------

  predicate LayoutFits(s: Shape, p: Tensor, axis: Option<int>, block: int) {
    Accepts(s, p.shape, axis, block) && RankFits(s, p.shape) && |p.data| == Size(p.shape)
  }

  function BlockOf(a: Attributes): (block: int) {
    if a.blockSize.Some? then a.blockSize.value else 0
  }

  predicate ZeroFits(s: Shape, zero: Tensor, scale: Tensor, a: Attributes) {
    LayoutFits(s, zero, a.axis, BlockOf(a)) && (zero.data == [] <==> scale.data == [])
  }

  // Nothing wider than 32 bits is dequantized, and the zero point is of the tensor's type.
  predicate CanDequantize(x: Tensor, zero: Option<Tensor>) {
    x.dtype in {Int8, UInt8, Int16, UInt16, Int32, UInt32, OtherType} && (zero.Some? ==> zero.value.dtype == x.dtype)
  }

  // The parameter of element i.
  function ParameterAt(i: nat, s: Shape, p: Tensor, a: Attributes): (n: Num)
    requires i < Size(s)
  {
    var k := ParameterIndex(i, s, p.shape, a.axis, BlockOf(a));
    if k < |p.data| then p.data[k] else NaN
  }

  function ZeroAt(i: nat, s: Shape, zero: Option<Tensor>, a: Attributes): (n: Num)
    requires i < Size(s)
  {
    if zero.None? then Fin(0.0) else ParameterAt(i, s, zero.value, a)
  }

  // A layout this model has no meaning for: blocks that do not divide the dimension.
  predicate IsRagged(s: Shape, p: Shape, a: Attributes) {
    BlockOf(a) > 1 && Size(s) > 0 && !Accepts(s, p, a.axis, BlockOf(a))
  }

  function OutputTypeOf(a: Attributes, zero: Option<Tensor>): (t: DType) {
    if zero.Some? then zero.value.dtype
    else if a.outputDtype.Some? then TypeOfCode(a.outputDtype.value)
    else UInt8
  }

  function Quantized(a: Attributes, x: Tensor, scale: Tensor, zero: Option<Tensor>, byCode: bool): (q: Tensor) {
    var t := OutputTypeOf(a, zero);
    Tensor(t, x.shape, seq(Size(x.shape), i requires 0 <= i < Size(x.shape) =>
      var n := if i < |x.data| then x.data[i] else NaN;
      if byCode then QuantizedByCode(n, ParameterAt(i, x.shape, scale, a), ZeroAt(i, x.shape, zero, a), t)
      else QuantizedByOnnx(n, ParameterAt(i, x.shape, scale, a), ZeroAt(i, x.shape, zero, a), t)))
  }

  function Dequantized(a: Attributes, x: Tensor, scale: Tensor, zero: Option<Tensor>): (t: Tensor) {
    Tensor(scale.dtype, x.shape, seq(Size(x.shape), i requires 0 <= i < Size(x.shape) =>
      var n := if i < |x.data| then x.data[i] else NaN;
      Times(Minus(n, ZeroAt(i, x.shape, zero, a)), ParameterAt(i, x.shape, scale, a))))
  }

  function QdqMeaning(node: Node, args: Args, byCode: bool): (m: Meaning) {
    var a := node.attributes;
    if |args| < 2 || args[0].None? || args[1].None? then IsOther
    else
      var x, scale, zero := args[0].value, args[1].value, Arg(args, 2);
      if !IsFloating(scale.dtype) || IsRagged(x.shape, scale.shape, a) then IsOther
      else if zero.Some? && IsRagged(x.shape, zero.value.shape, a) then IsOther
      else if node.op.QuantizeLinear? && !IsQuantizedType(OutputTypeOf(a, zero)) then IsOther
      else if !LayoutFits(x.shape, scale, a.axis, BlockOf(a)) || |x.data| != Size(x.shape) then Means(None)
      else if zero.Some? && !ZeroFits(x.shape, zero.value, scale, a) then Means(None)
      else if node.op.DequantizeLinear? && !CanDequantize(x, zero) then Means(None)
      else if node.op.QuantizeLinear? then Means(Some(Quantized(a, x, scale, zero, byCode)))
      else Means(Some(Dequantized(a, x, scale, zero)))
  }

  // --- Running --------------------------------------------------------------------------------

  function CastMeaning(node: Node, args: Args): (m: Meaning) {
    if |args| != 1 || args[0].None? || node.attributes.to.None? then IsOther
    else Means(Some(Casted(args[0].value, TypeOfCode(node.attributes.to.value))))
  }

  function RoundedTensor(x: Tensor): (t: Tensor) {
    Mapped(n => Rounded(n), x.dtype, x)
  }

  function UnaryMeaning(op: Op, args: Args): (m: Meaning) {
    if |args| != 1 || args[0].None? then IsOther
    else Means(Some(if op.Round? then RoundedTensor(args[0].value) else args[0].value))
  }

  predicate IsBinary(op: Op) {
    op.Add? || op.Sub? || op.Mul? || op.Div? || op.Max? || op.Min?
  }

  function OperatorOf(op: Op): (f: BinaryOp)
    requires IsBinary(op)
  {
    match op
    case Add => Adding()
    case Sub => Subtracting()
    case Mul => Multiplying()
    case Div => Dividing()
    case Max => TakingLarger()
    case Min => TakingSmaller()
  }

  // Division of integers is left open.
  function BinaryMeaning(op: Op, args: Args): (m: Meaning)
    requires IsBinary(op)
  {
    if op.Div? && |args| == 2 && args[0].Some? && !IsFloating(args[0].value.dtype) then IsOther
    else Binary(OperatorOf(op), args)
  }

  function ResultsOf(t: Option<Tensor>): (results: Option<seq<Tensor>>) {
    if t.None? then None else Some([t.value])
  }

  ghost predicate Gives(ops: Ops, node: Node, args: Args, m: Meaning) {
    m.Means? ==> ops(node, args) == ResultsOf(m.result)
  }

  // Conversions and quantization are read alike in every operator domain, as the passes do.
  ghost predicate GivesCast(ops: Ops, node: Node, args: Args) {
    node.op.Cast? ==> Gives(ops, node, args, CastMeaning(node, args))
  }

  // `byCode` reads QuantizeLinear as the emitted arithmetic computes it.
  ghost predicate GivesQdq(ops: Ops, byCode: bool, node: Node, args: Args) {
    node.op.QuantizeLinear? || node.op.DequantizeLinear? ==> Gives(ops, node, args, QdqMeaning(node, args, byCode))
  }

  ghost predicate GivesUnary(ops: Ops, node: Node, args: Args) {
    InMainDomain(node) && (node.op.Identity? || node.op.Round?) ==> Gives(ops, node, args, UnaryMeaning(node.op, args))
  }

  ghost predicate GivesConstant(ops: Ops, node: Node, args: Args) {
    InMainDomain(node) && node.op.Constant? && node.attributes.value.Some? ==>
      Gives(ops, node, args, Means(node.attributes.value))
  }

  ghost predicate GivesReshape(ops: Ops, node: Node, args: Args) {
    InMainDomain(node) && node.op.Reshape? ==> Gives(ops, node, args, ReshapeMeaning(args))
  }

  ghost predicate GivesSlice(ops: Ops, node: Node, args: Args) {
    InMainDomain(node) && node.op.Slice? ==> Gives(ops, node, args, SliceMeaning(args))
  }

  ghost predicate GivesClip(ops: Ops, node: Node, args: Args) {
    InMainDomain(node) && node.op.Clip? ==> Gives(ops, node, args, ClipMeaning(node, args))
  }

  ghost predicate GivesBinary(ops: Ops, node: Node, args: Args) {
    InMainDomain(node) && IsBinary(node.op) ==> Gives(ops, node, args, BinaryMeaning(node.op, args))
  }

  ghost predicate GivesPool(ops: Ops, node: Node, args: Args) {
    InMainDomain(node) && (node.op.MaxPool? || node.op.AveragePool?) ==> Gives(ops, node, args, PoolingMeaning(node, args))
  }

  // The operators the passes deal with mean what is written here; all others are free.
  ghost predicate Conforms(ops: Ops, byCode: bool) {
    && (forall node, args {:trigger GivesCast(ops, node, args)} :: GivesCast(ops, node, args))
    && (forall node, args {:trigger GivesQdq(ops, byCode, node, args)} :: GivesQdq(ops, byCode, node, args))
    && (forall node, args {:trigger GivesUnary(ops, node, args)} :: GivesUnary(ops, node, args))
    && (forall node, args {:trigger GivesConstant(ops, node, args)} :: GivesConstant(ops, node, args))
    && (forall node, args {:trigger GivesReshape(ops, node, args)} :: GivesReshape(ops, node, args))
    && (forall node, args {:trigger GivesSlice(ops, node, args)} :: GivesSlice(ops, node, args))
    && (forall node, args {:trigger GivesClip(ops, node, args)} :: GivesClip(ops, node, args))
    && (forall node, args {:trigger GivesBinary(ops, node, args)} :: GivesBinary(ops, node, args))
    && (forall node, args {:trigger GivesPool(ops, node, args)} :: GivesPool(ops, node, args))
  }

  predicate InputsAreBound(node: Node, env: Env) {
    forall i :: 0 <= i < |node.inputs| && node.inputs[i] != "" ==> node.inputs[i] in env
  }

  function ArgsOf(node: Node, env: Env): (args: Args)
    ensures |args| == |node.inputs|
  {
    seq(|node.inputs|, i requires 0 <= i < |node.inputs| =>
      if node.inputs[i] != "" && node.inputs[i] in env then Some(env[node.inputs[i]]) else None)
  }

  function Bind(env: Env, names: seq<string>, values: seq<Tensor>): (e: Env)
    requires |names| == |values|
    ensures forall k :: k in e <==> k in env || (k in names && k != "")
  {
    if names == [] then env
    else
      var last := |names| - 1;
      assert names == names[..last] + [names[last]];
      var before := Bind(env, names[..last], values[..last]);
      if names[last] == "" then before else before[names[last] := values[last]]
  }

  function RunNode(ops: Ops, node: Node, env: Env): (e: Option<Env>) {
    if !InputsAreBound(node, env) then None
    else
      match ops(node, ArgsOf(node, env))
      case None => None
      case Some(values) => if |values| != |node.outputs| then None else Some(Bind(env, node.outputs, values))
  }

  // The first n nodes.
  function RunTo(ops: Ops, nodes: seq<Node>, env: Env, n: nat): (e: Option<Env>)
    requires n <= |nodes|
  {
    if n == 0 then Some(env)
    else
      match RunTo(ops, nodes, env, n - 1)
      case None => None
      case Some(before) => RunNode(ops, nodes[n - 1], before)
  }

  function RunNodes(ops: Ops, nodes: seq<Node>, env: Env): (e: Option<Env>) {
    RunTo(ops, nodes, env, |nodes|)
  }

  // A run of the graph on the given graph inputs. Initializers are constants here.
  function Run(ops: Ops, g: Graph, given: Env): (e: Option<Env>) {
    RunNodes(ops, g.nodes, given + g.inits)
  }

  // A run in which the given inputs override initializers is the same run as long as they give
  // each initializer it overrides its own value.
  lemma OverridingRunIsSame(ops: Ops, g: Graph, given: Env)
    ensures g.inits + given == given + g.inits <==> forall k :: k in given && k in g.inits ==> given[k] == g.inits[k]
    ensures g.inits + given == given + g.inits ==> RunNodes(ops, g.nodes, g.inits + given) == Run(ops, g, given)
  {
    var overriding, constant := g.inits + given, given + g.inits;
    forall k | k in given && k in g.inits ensures overriding[k] == given[k] && constant[k] == g.inits[k] {
    }
    if forall k :: k in given && k in g.inits ==> given[k] == g.inits[k] {
      assert overriding.Keys == constant.Keys;
      assert overriding == constant;
    }
  }

  // Everything bound in one environment is bound to the same tensor in the other.
  ghost predicate Includes(env: Env, more: Env) {
    forall k {:trigger k in env} {:trigger k in more} :: k in env ==> k in more && more[k] == env[k]
  }
}
