/**
 * The pooling pass keeps the meaning of the graph
 * (src/pooling_dilation_compatibility.cc:334-600).
 */
module PoolingPass {
  import opened Options
  import opened Hiding
  import opened TensorValues
  import opened Broadcasting
  import opened PoolMeaning
  import opened OnnxGraph
  import opened GraphRuns
  import opened LoweredNames
  import opened Drafts
  import opened Emission
  import opened Declarations
  import opened Following
  import opened PoolPlans
  import opened PoolingDilation
  import opened PoolingRuns
  import opened PoolingEmission

  // --- Cuts and chains of a plan --------------------------------------------------------------

  function TensorsOf(p: Plan, x: Tensor): (ts: seq<Tensor>)
    requires IsPlan(p) && x.shape == p.input
    ensures |ts| == p.taps && forall i :: 0 <= i < p.taps ==> ts[i] == TapTensor(p, x, i)
  {
    seq(p.taps, i requires 0 <= i < p.taps => TapTensor(p, x, i))
  }

  function LinksOf(op: BinaryOp, p: Plan, x: Tensor): (ls: seq<Tensor>)
    requires IsPlan(p)
    ensures |ls| == p.taps && forall i :: 0 <= i < p.taps ==> ls[i] == Combined(op, p, x, i + 1)
  {
    seq(p.taps, i requires 0 <= i < p.taps => Combined(op, p, x, i + 1))
  }

  lemma NaturalsOfNaturals(v: seq<nat>)
    ensures Naturals(v) == Some(v)
  {
    assert Naturals(v).value == v;
  }

  lemma SliceWithParameters(x: Tensor, starts: seq<nat>, ends: seq<nat>, steps: seq<nat>)
    requires |starts| == |ends| == |steps| == |x.shape| && 0 !in steps
    requires forall d :: 0 <= d < |steps| ==> steps[d] > 0
    ensures SliceWith(x, Some(starts), Some(ends), Some(AllAxes(|x.shape|)), Some(steps))
         == Means(Some(Sliced(x, starts, ends, steps)))
  {
    NaturalsOfNaturals(starts);
    NaturalsOfNaturals(ends);
    NaturalsOfNaturals(steps);
  }

  lemma CutIsCut(p: Plan, x: Tensor, i: nat)
    requires IsPlan(p) && x.shape == p.input && i < p.taps
    ensures IsCut(x, CutOf(p, i), TapTensor(p, x, i))
  {
    PlanShapes(p);
    StepsArePositive(p);
    var k := TapCoordinates(p, i);
    SliceWithParameters(x, Starts(p, k), Ends(p, k), Steps(p));
    var c, t := CutOf(p, i), TapTensor(p, x, i);
    forall u ensures CutFacts(x, c, t, u) {
    }
  }

  lemma PlanCuts(p: Plan, x: Tensor)
    requires IsPlan(p) && x.shape == p.input
    ensures AreCuts(x, CutsOf(p), TensorsOf(p, x))
  {
    var cuts, tensors := CutsOf(p), TensorsOf(p, x);
    forall i: nat ensures IsCutAt(x, cuts, tensors, i) {
      if i < p.taps {
        CutIsCut(p, x, i);
      }
    }
  }

  lemma PlanChain(op: BinaryOp, p: Plan, x: Tensor)
    requires IsRead(p, x)
    ensures IsChain(op, p.dtype, TensorsOf(p, x), LinksOf(op, p, x))
  {
    var tensors, links := TensorsOf(p, x), LinksOf(op, p, x);
    assert links[0] == tensors[0] by {
      FirstTap(op, p, x);
    }
    forall n: nat ensures IsLinkAt(op, p.dtype, tensors, links, n) {
      if 0 < n < p.taps {
        PlanLinkAt(op, p, x, n);
      }
    }
  }

  lemma PlanLinkAt(op: BinaryOp, p: Plan, x: Tensor, n: nat)
    requires IsRead(p, x) && 0 < n < p.taps
    ensures IsLink(op, p.dtype, LinksOf(op, p, x)[n - 1], TensorsOf(p, x)[n], LinksOf(op, p, x)[n])
  {
    PlanLink(op, p, x, n);
    var a, t, c := LinksOf(op, p, x)[n - 1], TensorsOf(p, x)[n], LinksOf(op, p, x)[n];
    assert a == Combined(op, p, x, n);
    assert t == TapTensor(p, x, n);
    assert c == Combined(op, p, x, n + 1);
  }

  lemma PlanLink(op: BinaryOp, p: Plan, x: Tensor, n: nat)
    requires IsRead(p, x) && 0 < n < p.taps
    ensures IsLink(op, p.dtype, Combined(op, p, x, n), TapTensor(p, x, n), Combined(op, p, x, n + 1))
  {
    OneMoreTap(op, p, x, n);
    LinkFolds(op, p.dtype, Combined(op, p, x, n), TapTensor(p, x, n), Combined(op, p, x, n + 1));
  }

  // --- One pool -------------------------------------------------------------------------------

  ghost predicate IsWindowOf(p: Plan, w: Window) {
    w.kernel == p.window.kernel && w.strides == p.window.strides && w.dilations == p.window.dilations
  }

  function Pooled(isAverage: bool, x: Tensor, w: Window): (t: Tensor)
    requires IsWindow(w, x.shape)
  {
    if isAverage then AveragePooled(x, w) else MaxPooled(x, w)
  }

  lemma SingleTapIsPooled(p: Plan, x: Tensor, w: Window)
    requires IsRead(p, x) && IsWindow(w, x.shape) && IsWindowOf(p, w) && Pooled(p.isAverage, x, w).shape == p.output
    requires p.taps == 1
    ensures TapTensor(p, x, 0) == Pooled(p.isAverage, x, w)
  {
    if p.isAverage {
      SingleMeanIsPooled(p, x, w);
    } else {
      SingleMaximumIsPooled(p, x, w);
    }
  }

  lemma LoweredPoolIsGood(
    ops: Ops, own: set<string>, given: Env, d: Draft, env: Env, node: Node, p: Plan, x: Tensor, w: Window)
    returns (env': Env)
    requires RunsPools(ops) && Good(ops, own, given, d, env) && IsPoolSite(own, given, d, env, node, x)
    requires IsRead(p, x) && IsWindow(w, x.shape) && IsWindowOf(p, w) && Pooled(p.isAverage, x, w).shape == p.output
    ensures Good(ops, own, given, LoweredPool(d, node, p), env') && Grows(own, node.outputs[0], env, env')
    ensures BoundTo(env', node.outputs[0], Pooled(p.isAverage, x, w))
  {
    var e := SlicedPoolIsGood(ops, own, given, d, env, node, p, x);
    env' := CombinedPoolIsGood(ops, own, given, d, env, node, p, x, w, EmitTaps(d, node, CutsOf(p), p.taps), e);
  }

  lemma SlicedPoolIsGood(
    ops: Ops, own: set<string>, given: Env, d: Draft, env: Env, node: Node, p: Plan, x: Tensor)
    returns (e: Env)
    requires RunsPools(ops) && Good(ops, own, given, d, env) && IsPoolSite(own, given, d, env, node, x) && IsRead(p, x)
    ensures IsSliced(ops, own, given, env, node, x, TensorsOf(p, x), d.uid, p.taps,
                     EmitTaps(d, node, CutsOf(p), p.taps), e)
  {
    var cuts, tensors := CutsOf(p), TensorsOf(p, x);
    PlanCuts(p, x);
    forall u ensures SlicedFacts(ops, own, given, env, node, x, tensors, d.uid, 0, d, env, u) {
    }
    e := EmitTapsIsGood(ops, own, given, d, env, node, x, cuts, tensors, p.taps);
  }

  // The taps sliced, they are combined.
  lemma CombinedPoolIsGood(
    ops: Ops, own: set<string>, given: Env, d: Draft, env: Env, node: Node, p: Plan, x: Tensor, w: Window,
    sliced: Draft, e: Env)
    returns (env': Env)
    requires RunsPools(ops) && IsPoolSite(own, given, d, env, node, x)
    requires IsRead(p, x) && IsWindow(w, x.shape) && IsWindowOf(p, w) && Pooled(p.isAverage, x, w).shape == p.output
    requires sliced == EmitTaps(d, node, CutsOf(p), p.taps)
    requires IsSliced(ops, own, given, env, node, x, TensorsOf(p, x), d.uid, p.taps, sliced, e)
    ensures Good(ops, own, given, LoweredPool(d, node, p), env') && Grows(own, node.outputs[0], env, env')
    ensures BoundTo(env', node.outputs[0], Pooled(p.isAverage, x, w))
  {
    LoweredIsCombined(d, node, p);
    if p.taps == 1 {
      env' := e;
      SingleSliceIsPool(ops, own, given, d, env, node, p, x, w, sliced, e);
    } else {
      assert SlicedFacts(ops, own, given, env, node, x, TensorsOf(p, x), d.uid, p.taps, sliced, e, Unfolded);
      env' := ChainedPoolIsGood(ops, own, given, sliced, e, node, p, x, w, d.uid);
      GrowsThrough(own, node.outputs[0], env, e, env');
    }
  }

  lemma SingleSliceIsPool(
    ops: Ops, own: set<string>, given: Env, d: Draft, env: Env, node: Node, p: Plan, x: Tensor, w: Window,
    sliced: Draft, e: Env)
    requires IsRead(p, x) && IsWindow(w, x.shape) && IsWindowOf(p, w) && Pooled(p.isAverage, x, w).shape == p.output
    requires p.taps == 1 && |node.outputs| == 1 && sliced.naming == d.naming
    requires IsSliced(ops, own, given, env, node, x, TensorsOf(p, x), d.uid, 1, sliced, e)
    ensures Good(ops, own, given, sliced, e) && Grows(own, node.outputs[0], env, e)
    ensures node.outputs[0] in e && e[node.outputs[0]] == Pooled(p.isAverage, x, w)
  {
    assert SlicedFacts(ops, own, given, env, node, x, TensorsOf(p, x), d.uid, 1, sliced, e, Unfolded);
    assert TapBound(e, d.naming, node, TensorsOf(p, x), d.uid, 0);
    SingleTapIsPooled(p, x, w);
  }

  lemma LoweredIsCombined(d: Draft, node: Node, p: Plan)
    requires |node.inputs| == |node.outputs| == 1 && IsPlan(p)
    ensures var sliced := EmitTaps(d, node, CutsOf(p), p.taps);
      LoweredPool(d, node, p) == if p.taps == 1 then sliced else ChainedPool(sliced, node, p, d.uid)
  {
  }

  function ChainedPool(sliced: Draft, node: Node, p: Plan, uid: nat): (d': Draft)
    requires |node.outputs| == 1 && p.taps > 1
  {
    if p.isAverage then EmitMean(EmitSums(sliced, node, p.taps, uid, p.taps - 1), node, p.dtype, p.taps, uid)
    else EmitMaxima(sliced, node, p.taps, uid, p.taps - 1)
  }

  lemma ChainedPoolIsGood(
    ops: Ops, own: set<string>, given: Env, d: Draft, env: Env, node: Node, p: Plan, x: Tensor, w: Window, uid: nat)
    returns (env': Env)
    requires RunsPools(ops) && IsRead(p, x) && IsWindow(w, x.shape) && IsWindowOf(p, w) && d.uid == uid + p.taps
    requires Pooled(p.isAverage, x, w).shape == p.output && p.taps > 1
    requires IsChaining(ops, own, given, d, env, node, TensorsOf(p, x), uid)
    ensures Good(ops, own, given, ChainedPool(d, node, p, uid), env')
    ensures Grows(own, node.outputs[0], env, env') && BoundTo(env', node.outputs[0], Pooled(p.isAverage, x, w))
  {
    if p.isAverage {
      env' := ChainOfMeanIsGood(ops, own, given, d, env, node, p, x, w, uid);
    } else {
      env' := ChainOfMaximaIsGood(ops, own, given, d, env, node, p, x, w, uid);
    }
  }

  lemma ChainOfMaximaIsGood(
    ops: Ops, own: set<string>, given: Env, d: Draft, env: Env, node: Node, p: Plan, x: Tensor, w: Window, uid: nat)
    returns (env': Env)
    requires RunsPools(ops) && IsRead(p, x) && IsWindow(w, x.shape) && IsWindowOf(p, w) && d.uid == uid + p.taps
    requires MaxPooled(x, w).shape == p.output && p.taps > 1
    requires IsChaining(ops, own, given, d, env, node, TensorsOf(p, x), uid)
    ensures Good(ops, own, given, EmitMaxima(d, node, p.taps, uid, p.taps - 1), env')
    ensures Grows(own, node.outputs[0], env, env') && BoundTo(env', node.outputs[0], MaxPooled(x, w))
  {
    PlanChain(TakingLarger(), p, x);
    MaximaArePooled(p, x, w);
    env' := EmitMaximaIsGood(ops, own, given, d, env, node, p.dtype, TensorsOf(p, x), LinksOf(TakingLarger(), p, x), uid,
                             p.taps - 1);
  }

  lemma ChainOfMeanIsGood(
    ops: Ops, own: set<string>, given: Env, d: Draft, env: Env, node: Node, p: Plan, x: Tensor, w: Window, uid: nat)
    returns (env': Env)
    requires RunsPools(ops) && IsRead(p, x) && IsWindow(w, x.shape) && IsWindowOf(p, w) && d.uid == uid + p.taps
    requires AveragePooled(x, w).shape == p.output
    requires IsChaining(ops, own, given, d, env, node, TensorsOf(p, x), uid)
    ensures Good(ops, own, given, EmitMean(EmitSums(d, node, p.taps, uid, p.taps - 1), node, p.dtype, p.taps, uid), env')
    ensures Grows(own, node.outputs[0], env, env') && BoundTo(env', node.outputs[0], AveragePooled(x, w))
  {
    var tensors, links, taps := TensorsOf(p, x), LinksOf(Adding(), p, x), p.taps;
    var last, sums := taps - 1, EmitSums(d, node, taps, uid, taps - 1);
    assert |tensors| == taps && sums.naming == d.naming;
    PlanChain(Adding(), p, x);
    var e := EmitSumsIsGood(ops, own, given, d, env, node, p.dtype, tensors, links, uid, last);
    env' := MeanOfSumIsGood(ops, own, given, sums, e, node, p, x, w, uid);
    GrowsThrough(own, node.outputs[0], env, e, env');
  }

  lemma MeanOfSumIsGood(
    ops: Ops, own: set<string>, given: Env, d: Draft, env: Env, node: Node, p: Plan, x: Tensor, w: Window, uid: nat)
    returns (env': Env)
    requires RunsPools(ops) && IsRead(p, x) && IsWindow(w, x.shape) && IsWindowOf(p, w)
    requires AveragePooled(x, w).shape == p.output
    requires IsChaining(ops, own, given, d, env, node, TensorsOf(p, x), uid)
    requires BoundTo(env, SumName(d.naming, node, p.taps, uid, p.taps - 1), LinksOf(Adding(), p, x)[p.taps - 1])
    ensures Good(ops, own, given, EmitMean(d, node, p.dtype, p.taps, uid), env')
    ensures Grows(own, node.outputs[0], env, env') && BoundTo(env', node.outputs[0], AveragePooled(x, w))
  {
    var total, taps := LinksOf(Adding(), p, x)[p.taps - 1], p.taps;
    MeansArePooled(p, x, w);
    LinkFolds(Dividing(), p.dtype, total, Divisor(p.dtype, taps), AveragePooled(x, w));
    env' := EmitMeanIsGood(ops, own, given, d, env, node, p.dtype, TensorsOf(p, x), total, AveragePooled(x, w), uid, taps);
  }

  // --- A pool in a run ------------------------------------------------------------------------

  lemma WindowIsFound(node: Node, infos: map<string, ValueInfo>, inits: map<string, Tensor>)
    returns (w: Window)
    requires PlanFor(node, infos, inits).Some?
    ensures var p := PlanFor(node, infos, inits).value;
      && WindowOf(node.attributes, p.input) == Some(w) && IsWindow(w, p.input) && IsWindowOf(p, w)
  {
    w := DilatedWindow(node.attributes).value;
    PlannedWindowFits(node, infos, inits, w);
    DilatedIsWindow(node.attributes, w, PlanFor(node, infos, inits).value.input);
  }

  lemma PlannedWindowFits(node: Node, infos: map<string, ValueInfo>, inits: map<string, Tensor>, w: Window)
    requires PlanFor(node, infos, inits).Some? && DilatedWindow(node.attributes) == Some(w)
    ensures var p := PlanFor(node, infos, inits).value;
      && IsPoolNode(node) && |p.input| == |w.kernel| + 2 && |w.kernel| == |w.strides| == |w.dilations| > 0
      && IsWindowOf(p, w)
      && forall d :: 0 <= d < |w.kernel| ==> WindowFitsAt(w, p.input, d)
  {
    var p := PlanFor(node, infos, inits).value;
    forall d | 0 <= d < |w.kernel| ensures WindowFitsAt(w, p.input, d) {
      assert w.strides[d] in w.strides && w.dilations[d] in w.dilations && w.kernel[d] in w.kernel;
      assert FitsAlong(w, p.input, p.output, d);
      TimesNonNegative(p.output[d + 2] - 1, w.strides[d]);
    }
  }

  lemma TimesNonNegative(a: int, b: int)
    requires a >= 0 && b >= 0
    ensures a * b >= 0
  {
  }

  predicate WindowFitsAt(w: Window, input: Shape, d: nat)
    requires |w.kernel| == |w.strides| == |w.dilations| && |input| == |w.kernel| + 2 && d < |w.kernel|
  {
    && w.kernel[d] > 0 && w.strides[d] > 0 && w.dilations[d] > 0
    && (w.kernel[d] - 1) * w.dilations[d] < input[d + 2]
  }

  // The attributes describe this very window.
  lemma DilatedIsWindow(a: Attributes, w: Window, input: Shape)
    requires DilatedWindow(a) == Some(w) && (a.autoPad.None? || a.autoPad.value == "NOTSET")
    requires |w.kernel| == |w.strides| == |w.dilations| > 0 && |input| == |w.kernel| + 2
    requires forall d :: 0 <= d < |w.kernel| ==> WindowFitsAt(w, input, d)
    ensures WindowOf(a, input) == Some(w) && IsWindow(w, input)
  {
    forall d | 0 <= d < |w.kernel|
      ensures w.kernel[d] > 0 && w.strides[d] > 0 && w.dilations[d] > 0 && (w.kernel[d] - 1) * w.dilations[d] < input[d + 2]
    {
      assert WindowFitsAt(w, input, d);
    }
  }

  lemma PoolReadsWhole(ops: Ops, byCode: bool, node: Node, x: Tensor, results: seq<Tensor>)
    requires Conforms(ops, byCode) && IsPoolNode(node) && ops(node, [Some(x)]) == Some(results)
    ensures |x.data| == Size(x.shape)
  {
    assert GivesPool(ops, node, [Some(x)]);
  }

  lemma PoolGives(ops: Ops, byCode: bool, node: Node, x: Tensor, w: Window, results: seq<Tensor>)
    requires Conforms(ops, byCode) && IsPoolNode(node) && WindowOf(node.attributes, x.shape) == Some(w)
    requires IsWindow(w, x.shape) && |x.data| == Size(x.shape) && ops(node, [Some(x)]) == Some(results)
    ensures results == [Pooled(node.op.AveragePool?, x, w)]
  {
    assert GivesPool(ops, node, [Some(x)]);
  }

  // What the pool reads and gives in the run.
  lemma PoolInRun(
    ops: Ops, byCode: bool, start: Env, nodes: seq<Node>, infos: map<string, ValueInfo>, inits: map<string, Tensor>, n: nat)
    returns (x: Tensor, w: Window)
    requires Conforms(ops, byCode) && IsSsa(nodes, start.Keys) && Includes(inits, start)
    requires n < |nodes| && PlanFor(nodes[n], infos, inits).Some?
    requires RunNodes(ops, nodes, start).Some? && AllAsDeclared(infos, RunNodes(ops, nodes, start).value)
    ensures RunTo(ops, nodes, start, n).Some? && RunTo(ops, nodes, start, n + 1).Some? && IsPoolNode(nodes[n])
    ensures var p, before := PlanFor(nodes[n], infos, inits).value, RunTo(ops, nodes, start, n).value;
      && nodes[n].inputs[0] in before && before[nodes[n].inputs[0]] == x
      && IsRead(p, x) && IsWindow(w, x.shape) && IsWindowOf(p, w) && Pooled(p.isAverage, x, w).shape == p.output
      && ops(nodes[n], ArgsOf(nodes[n], before)) == Some([Pooled(p.isAverage, x, w)])
  {
    var node, p := nodes[n], PlanFor(nodes[n], infos, inits).value;
    var final := RunNodes(ops, nodes, start).value;
    PlansArePlans(node, infos, inits);
    x := PoolRuns(ops, start, nodes, inits, n);
    var a, out := node.inputs[0], node.outputs[0];
    assert IsAsDeclared(infos, final, a) && IsAsDeclared(infos, final, out);
    PoolReadsWhole(ops, byCode, node, x, ops(node, [Some(x)]).value);
    InputIsRead(infos, inits, final, node, a, x);
    w := WindowIsFound(node, infos, inits);
    PoolGives(ops, byCode, node, x, w, ops(node, [Some(x)]).value);
    PoolIsBound(ops, start, nodes, n, x, Pooled(p.isAverage, x, w));
    StaticShapeHolds(infos, inits, final, out);
  }

  // Around the pool in the run.
  lemma PoolRuns(ops: Ops, start: Env, nodes: seq<Node>, inits: map<string, Tensor>, n: nat) returns (x: Tensor)
    requires IsSsa(nodes, start.Keys) && Includes(inits, start) && n < |nodes| && IsPoolNode(nodes[n])
    requires RunNodes(ops, nodes, start).Some?
    ensures RunTo(ops, nodes, start, n).Some? && RunTo(ops, nodes, start, n + 1).Some?
    ensures var before, final, a := RunTo(ops, nodes, start, n).value, RunNodes(ops, nodes, start).value, nodes[n].inputs[0];
      && a in before && before[a] == x && a in final && final[a] == x && Includes(inits, final)
      && ArgsOf(nodes[n], before) == [Some(x)] && ops(nodes[n], [Some(x)]).Some?
  {
    var node := nodes[n];
    RunKeepsBindings(ops, nodes, start, 0, |nodes|);
    RunKeepsBindings(ops, nodes, start, n, |nodes|);
    RunKeepsBindings(ops, nodes, start, n + 1, |nodes|);
    var before := RunTo(ops, nodes, start, n).value;
    assert node.inputs == [node.inputs[0]];
    OneArg(node, before, node.inputs[0]);
    x := before[node.inputs[0]];
  }

  lemma PoolIsBound(ops: Ops, start: Env, nodes: seq<Node>, n: nat, x: Tensor, t: Tensor)
    requires IsSsa(nodes, start.Keys) && n < |nodes| && IsPoolNode(nodes[n]) && RunNodes(ops, nodes, start).Some?
    requires RunTo(ops, nodes, start, n).Some? && RunTo(ops, nodes, start, n + 1).Some?
    requires ArgsOf(nodes[n], RunTo(ops, nodes, start, n).value) == [Some(x)] && ops(nodes[n], [Some(x)]) == Some([t])
    ensures var final := RunNodes(ops, nodes, start).value;
      nodes[n].outputs[0] in final && final[nodes[n].outputs[0]] == t
  {
    RunKeepsBindings(ops, nodes, start, n + 1, |nodes|);
    assert nodes[n].outputs == [nodes[n].outputs[0]];
    BindOne(RunTo(ops, nodes, start, n).value, nodes[n].outputs[0], t);
  }

  // The replaced pool follows the run.
  lemma PoolNodeFollows(
    ops: Ops, byCode: bool, own: set<string>, given: Env, start: Env, nodes: seq<Node>, infos: map<string, ValueInfo>,
    inits: map<string, Tensor>, naming: Naming, n: nat, d: Draft, env: Env)
    returns (env': Env)
    requires Conforms(ops, byCode) && IsNamedGraph(own, naming, nodes, start.Keys) && start == given + inits
    requires Follows(ops, own, given, start, nodes, n, d, env) && d.naming == naming
    requires n < |nodes| && PlanFor(nodes[n], infos, inits).Some?
    requires RunNodes(ops, nodes, start).Some? && AllAsDeclared(infos, RunNodes(ops, nodes, start).value)
    ensures Follows(ops, own, given, start, nodes, n + 1, AfterNode(d, nodes[n], infos, inits), env')
  {
    var x, w := PoolInRun(ops, byCode, start, nodes, infos, inits, n);
    var node, p := nodes[n], PlanFor(nodes[n], infos, inits).value;
    PlansArePlans(node, infos, inits);
    FollowsUnfolds(ops, own, given, start, nodes, n, d, env);
    assert Binds(nodes, n, node.outputs[0]);
    OutputsAreNew(ops, own, given, start, nodes, n, d, env, naming, node.outputs[0]);
    ConformingRunsPools(ops, byCode);
    env' := LoweredPoolIsGood(ops, own, given, d, env, node, p, x, w);
    LoweredNodeFollows(ops, own, given, start, nodes, n, d, env, LoweredPool(d, node, p), env', Pooled(p.isAverage, x, w));
  }

  lemma InputIsRead(
    infos: map<string, ValueInfo>, inits: map<string, Tensor>, final: Env, node: Node, a: string, x: Tensor)
    requires PlanFor(node, infos, inits).Some? && a == node.inputs[0]
    requires a in final && final[a] == x && IsAsDeclared(infos, final, a) && |x.data| == Size(x.shape)
    requires a in inits ==> final[a] == inits[a]
    ensures IsRead(PlanFor(node, infos, inits).value, x)
  {
    var p := PlanFor(node, infos, inits).value;
    PlansArePlans(node, infos, inits);
    StaticShapeHolds(infos, inits, final, a);
    forall u ensures ReadFacts(p, x, u) {
    }
  }

  // --- The pass -------------------------------------------------------------------------------

  lemma {:induction false} PoolingPassFollows(
    ops: Ops, byCode: bool, own: set<string>, given: Env, start: Env, nodes: seq<Node>, infos: map<string, ValueInfo>,
    inits: map<string, Tensor>, naming: Naming, n: nat)
    returns (env': Env)
    requires Conforms(ops, byCode) && IsNamedGraph(own, naming, nodes, start.Keys) && start == given + inits
    requires n <= |nodes|
    requires RunNodes(ops, nodes, start).Some? && AllAsDeclared(infos, RunNodes(ops, nodes, start).value)
    ensures Follows(ops, own, given, start, nodes, n, AfterNodes(Draft(naming, inits, [], 0), nodes, infos, inits, n), env')
    ensures AfterNodes(Draft(naming, inits, [], 0), nodes, infos, inits, n).naming == naming
    decreases n
  {
    if n == 0 {
      PassStarts(ops, own, given, naming, nodes, inits);
      env' := start;
    } else {
      var e := PoolingPassFollows(ops, byCode, own, given, start, nodes, infos, inits, naming, n - 1);
      var d := AfterNodes(Draft(naming, inits, [], 0), nodes, infos, inits, n - 1);
      RunKeepsBindings(ops, nodes, start, n, |nodes|);
      if PlanFor(nodes[n - 1], infos, inits).Some? {
        env' := PoolNodeFollows(ops, byCode, own, given, start, nodes, infos, inits, naming, n - 1, d, e);
      } else {
        env' := KeptNodeFollows(ops, own, given, start, nodes, n - 1, d, e, naming);
      }
    }
  }

  // A graph whose pools have been taken apart runs whenever the graph runs, and every tensor of
  // the graph keeps its value.
  lemma PoolingPassKeepsMeaning(ops: Ops, byCode: bool, own: set<string>, given: Env, g: Graph)
    requires Conforms(ops, byCode) && IsNamedGraph(own, NamingOf(POOL_PREFIX), g.nodes, (given + g.inits).Keys)
    requires Run(ops, g, given).Some? && AllAsDeclared(g.infos, Run(ops, g, given).value)
    ensures var d := AfterNodes(Draft(NamingOf(POOL_PREFIX), g.inits, [], 0), g.nodes, g.infos, g.inits, |g.nodes|);
      var lowered := g.(nodes := d.nodes, inits := d.inits);
      && Run(ops, lowered, given).Some?
      && AddsHelpers(own, POOL_PREFIX, Run(ops, g, given).value, Run(ops, lowered, given).value)
      && IsSsa(d.nodes, given.Keys + d.inits.Keys)
  {
    var start := given + g.inits;
    var env' := PoolingPassFollows(ops, byCode, own, given, start, g.nodes, g.infos, g.inits, NamingOf(POOL_PREFIX),
                                   |g.nodes|);
    PassEnds(ops, own, given, start, g.nodes,
             AfterNodes(Draft(NamingOf(POOL_PREFIX), g.inits, [], 0), g.nodes, g.infos, g.inits, |g.nodes|), env');
  }
}
