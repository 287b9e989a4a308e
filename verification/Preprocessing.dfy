/**
 * The rewrites run one after the other on the graph handed to the parser
 * (src/trt_proto_preprocessing.cc:14-34).
 */
module Preprocessing {
  import opened Options
  import opened TensorValues
  import opened Broadcasting
  import opened OnnxGraph
  import opened GraphRuns
  import opened LoweredNames
  import opened Drafts
  import opened Declarations
  import opened Following
  import opened ClipBounds
  import opened BoolBridge
  import opened PoolPlans
  import opened PoolingDilation
  import PoolingCoverage
  import opened PoolingPass
  import opened QdqPolicy
  import opened QdqLowering
  import opened QdqPass
  import opened QdqCoverage

  // --- The stages -----------------------------------------------------------------------------

  function AfterQdq(g: Graph): (g': Graph)
    requires forall i :: 0 <= i < |g.nodes| ==> MakesOne(g.nodes[i])
  {
    var d := AfterQdqNodes(PassStart(g, NamingOf(QDQ_PREFIX)), g, |g.nodes|);
    g.(nodes := d.nodes, inits := d.inits)
  }

  function AfterBridging(g: Graph): (g': Graph) {
    g.(nodes := AfterRetargeting(g.nodes, g.infos, g.outputs, |g.nodes|),
       infos := AfterDeclaring(g.nodes, g.infos, g.outputs, |g.nodes|))
  }

  function AfterClipping(g: Graph): (g': Graph) {
    g.(nodes := RewrittenClips(g.nodes, g.inits, |g.nodes|))
  }

  function AfterPooling(g: Graph): (g': Graph) {
    var d := AfterNodes(Draft(NamingOf(POOL_PREFIX), g.inits, [], 0), g.nodes, g.infos, g.inits, |g.nodes|);
    g.(nodes := d.nodes, inits := d.inits)
  }

  function Preprocessed(g: Graph): (g': Graph)
    requires forall i :: 0 <= i < |g.nodes| ==> MakesOne(g.nodes[i])
  {
    AfterPooling(AfterClipping(AfterBridging(AfterQdq(g))))
  }

  // The graphs between the passes: each pass leaves of the last one's graph what it does not rewrite.
  ghost predicate AreStages(g: Graph, lowered: Graph, bridged: Graph, clipped: Graph, g': Graph) {
    && lowered == g.(nodes := lowered.nodes, inits := lowered.inits) && LeavesOnlyOthers(g, lowered.nodes)
    && bridged == lowered.(nodes := bridged.nodes, infos := bridged.infos)
    && AreBridged(lowered.nodes, g.infos, g.outputs, bridged.nodes, bridged.infos)
    && clipped == bridged.(nodes := clipped.nodes) && AreClipped(bridged.nodes, bridged.inits, clipped.nodes)
    && g' == clipped.(nodes := g'.nodes, inits := g'.inits)
    && PoolingCoverage.LeavesOthers(clipped, |clipped.nodes|, g'.nodes)
  }

  lemma StagesAsStated(g: Graph)
    requires forall i :: 0 <= i < |g.nodes| ==> MakesOne(g.nodes[i])
    ensures exists lowered, bridged, clipped :: AreStages(g, lowered, bridged, clipped, Preprocessed(g))
  {
    var lowered := AfterQdq(g);
    var bridged := AfterBridging(lowered);
    var clipped := AfterClipping(bridged);
    OnlyOthersAreLeft(g);
    BridgesAsStated(lowered.nodes, g.infos, g.outputs);
    ClipsAsStated(bridged.nodes, bridged.inits);
    PoolingCoverage.OthersAreLeft(clipped, |clipped.nodes|);
    assert AreStages(g, lowered, bridged, clipped, Preprocessed(g));
  }

  method RunTensorRtProtoPreprocessing(g: Graph) returns (g': Graph, lowered: nat)
    requires forall i :: 0 <= i < |g.nodes| ==> MakesOne(g.nodes[i])
    ensures g' == Preprocessed(g) && lowered == |NodesToLower(g)|
    ensures exists qdq, bridged, clipped :: AreStages(g, qdq, bridged, clipped, g')
  {
    StagesAsStated(g);
    var d;
    d, lowered := RunQdqLowering(g);
    g' := g.(nodes := d.nodes, inits := d.inits);
    var nodes := new Node[|g'.nodes|](i requires 0 <= i < |g'.nodes| => g'.nodes[i]);
    assert nodes[..] == AfterQdq(g).nodes;
    var infos := CanonicalizeBoolBridgeCastChain(nodes, g'.infos, g'.outputs);
    RewriteClipBounds(nodes, g'.inits);
    g' := g'.(nodes := nodes[..], infos := infos);
    d := PoolingCoverage.RewritePoolingDilations(g');
    g' := g'.(nodes := d.nodes, inits := d.inits);
  }

  // --- Hypotheses -----------------------------------------------------------------------------

  ghost predicate MakesBooleans(ops: Ops, node: Node, args: Args) {
    IsKnownBoolProducer(node.op) && ops(node, args).Some? ==>
      forall i :: 0 <= i < |ops(node, args).value| ==>
        ops(node, args).value[i].dtype.Bool? && WellFormed(ops(node, args).value[i])
  }

  // Comparisons and logical operators make booleans.
  ghost predicate ComparisonsMakeBooleans(ops: Ops) {
    forall node, args {:trigger MakesBooleans(ops, node, args)} :: MakesBooleans(ops, node, args)
  }

  // A name that could be mistaken for that of a pooling helper.
  ghost predicate AvoidsPoolNames(own: set<string>) {
    forall k {:trigger IsReserved(POOL_PREFIX, k)} :: k in own ==> !IsReserved(POOL_PREFIX, k)
  }

  lemma PrefixesApart(k: string)
    requires IsReserved(QDQ_PREFIX, k)
    ensures !IsReserved(POOL_PREFIX, k)
  {
    assert QDQ_PREFIX[10] == 'q' && POOL_PREFIX[10] == 'p';
  }

  // --- Bridging -------------------------------------------------------------------------------

  lemma {:induction false} BindTells(env: Env, names: seq<string>, values: seq<Tensor>, k: string) returns (i: nat)
    requires |names| == |values| && k in names && k != ""
    ensures i < |names| && names[i] == k && Bind(env, names, values)[k] == values[i]
    decreases |names|
  {
    var last := |names| - 1;
    assert names == names[..last] + [names[last]];
    if names[last] == k {
      i := last;
    } else {
      i := BindTells(env, names[..last], values[..last], k);
    }
  }

  lemma ProducedBooleans(ops: Ops, nodes: seq<Node>, start: Env, i: nat, k: string)
    requires ComparisonsMakeBooleans(ops) && IsSsa(nodes, start.Keys) && RunNodes(ops, nodes, start).Some?
    requires Binds(nodes, i, k) && IsKnownBoolProducer(nodes[i].op)
    ensures var env := RunNodes(ops, nodes, start).value;
      k in env && env[k].dtype.Bool? && WellFormed(env[k])
  {
    RunKeepsBindings(ops, nodes, start, i + 1, |nodes|);
    var before := RunTo(ops, nodes, start, i).value;
    assert MakesBooleans(ops, nodes[i], ArgsOf(nodes[i], before));
    var j := BindTells(before, nodes[i].outputs, ops(nodes[i], ArgsOf(nodes[i], before)).value, k);
  }

  lemma DeclaredTypesAreSound(
    ops: Ops, own: set<string>, nodes: seq<Node>, infos: map<string, ValueInfo>, start: Env)
    requires ComparisonsMakeBooleans(ops) && IsSsa(nodes, start.Keys) && RunNodes(ops, nodes, start).Some?
    requires infos.Keys <= own && DeclarationsHold(own, infos, RunNodes(ops, nodes, start).value)
    ensures TypesAreSound(nodes, infos, RunNodes(ops, nodes, start).value)
  {
    var env := RunNodes(ops, nodes, start).value;
    forall k | k in infos && k in env ensures env[k].dtype == infos[k].dtype && WellFormed(env[k]) {
      assert HoldsFor(infos, env, k);
    }
    forall i: nat, k {:trigger Binds(nodes, i, k)} | Binds(nodes, i, k) && IsKnownBoolProducer(nodes[i].op) && k in env
      ensures env[k].dtype.Bool? && WellFormed(env[k])
    {
      ProducedBooleans(ops, nodes, start, i, k);
    }
  }

  lemma {:induction false} RetargetedIsDeclared(
    nodes: seq<Node>, infos: map<string, ValueInfo>, outputs: set<string>, n: nat, k: string)
    requires n <= |nodes| && IsSsa(nodes, {})
    ensures var r := AfterDeclaring(nodes, infos, outputs, n);
      && (k in r <==> k in infos)
      && (k in infos ==> r[k] == infos[k] || (r[k] == infos[k].(dtype := Int32) && IsRetargetedName(nodes, infos,
          outputs, k)))
    ensures forall i: nat :: i < n && IsRetargeted(nodes, infos, outputs, i) && Binds(nodes, i, k) && k in infos ==>
        AfterDeclaring(nodes, infos, outputs, n)[k].dtype.Int32?
    decreases n
  {
    if n > 0 {
      RetargetedIsDeclared(nodes, infos, outputs, n - 1, k);
      if IsRetargeted(nodes, infos, outputs, n - 1) && k in nodes[n - 1].outputs {
        var current := AfterRetargeting(nodes, infos, outputs, n - 1);
        assert current[n - 1] == nodes[n - 1];
        assert Binds(nodes, n - 1, k);
      }
    }
  }

  lemma RetypedHolds(t: Tensor, t': Tensor)
    requires IsRetyped(t, t') && WellFormed(t)
    ensures WellFormed(t')
  {
    forall i | 0 <= i < |t'.data| ensures Holds(t'.dtype, t'.data[i]) {
      assert Holds(t.dtype, t.data[i]);
    }
  }

  // Declarations hold again once the bridges are declared anew.
  lemma StillDeclared(
    own: set<string>, nodes: seq<Node>, infos: map<string, ValueInfo>, outputs: set<string>, env: Env, env': Env)
    requires IsSsa(nodes, {}) && DeclarationsHold(own, infos, env) && AllCorrespond(nodes, infos, outputs, env, env')
    ensures DeclarationsHold(own, AfterDeclaring(nodes, infos, outputs, |nodes|), env')
  {
    var infos' := AfterDeclaring(nodes, infos, outputs, |nodes|);
    forall k | k in own ensures HoldsFor(infos', env', k) {
      assert HoldsFor(infos, env, k) && Corresponds(nodes, infos, outputs, env, env', k);
      RetargetedIsDeclared(nodes, infos, outputs, |nodes|, k);
      if k in env && IsRetargetedName(nodes, infos, outputs, k) {
        RetypedHolds(env[k], env'[k]);
      }
    }
  }

  lemma DeclaredIsAsDeclared(own: set<string>, infos: map<string, ValueInfo>, env: Env)
    requires DeclarationsHold(own, infos, env) && infos.Keys <= own
    ensures AllAsDeclared(infos, env)
  {
    forall k ensures IsAsDeclared(infos, env, k) {
      if k in infos && k in env {
        assert HoldsFor(infos, env, k);
      }
    }
  }

  lemma AddedAreDeclared(own: set<string>, prefix: string, infos: map<string, ValueInfo>, env: Env, env': Env)
    requires AddsHelpers(own, prefix, env, env') && DeclarationsHold(own, infos, env)
    ensures DeclarationsHold(own, infos, env')
  {
    forall k | k in own ensures HoldsFor(infos, env', k) {
      assert HoldsFor(infos, env, k);
    }
  }

  lemma BridgedKeys(nodes: seq<Node>, infos: map<string, ValueInfo>, outputs: set<string>)
    ensures AfterDeclaring(nodes, infos, outputs, |nodes|).Keys == infos.Keys
  {
    BridgedKeysTo(nodes, infos, outputs, |nodes|);
  }

  lemma {:induction false} BridgedKeysTo(nodes: seq<Node>, infos: map<string, ValueInfo>, outputs: set<string>, n: nat)
    requires n <= |nodes|
    ensures AfterDeclaring(nodes, infos, outputs, n).Keys == infos.Keys
    decreases n
  {
    if n > 0 {
      BridgedKeysTo(nodes, infos, outputs, n - 1);
    }
  }

  // --- Names ----------------------------------------------------------------------------------

  lemma SameOutputsStaySsa(nodes: seq<Node>, nodes': seq<Node>, bound: set<string>)
    requires |nodes'| == |nodes| && IsSsa(nodes, bound)
    requires forall i :: 0 <= i < |nodes| ==> nodes'[i].outputs == nodes[i].outputs
    ensures IsSsa(nodes', bound)
  {
    forall i: nat, k ensures Binds(nodes', i, k) <==> Binds(nodes, i, k) {
    }
    forall k ensures BoundOnce(nodes', bound, k) {
      assert BoundOnce(nodes, bound, k);
    }
  }

  lemma RewrittenOutputsStay(g: Graph, i: nat)
    requires i < |g.nodes|
    ensures var r := AfterClipping(AfterBridging(g)).nodes; |r| == |g.nodes| && r[i].outputs == g.nodes[i].outputs
  {
    OperatorsStay(g.nodes, g.infos, g.outputs, |g.nodes|, i);
  }

  // All that a run binds serves as the names of the graph for the pooling pass.
  lemma RunNamesGraph(ops: Ops, nodes: seq<Node>, start: Env)
    requires IsSsa(nodes, start.Keys) && RunNodes(ops, nodes, start).Some? && "" !in start
    requires AvoidsPoolNames(RunNodes(ops, nodes, start).value.Keys)
    ensures IsNamedGraph(RunNodes(ops, nodes, start).value.Keys, NamingOf(POOL_PREFIX), nodes, start.Keys)
  {
    PassesName(POOL_PREFIX);
    RunKeys(ops, nodes, start, |nodes|);
    var own := RunNodes(ops, nodes, start).value.Keys;
    forall i: nat, k {:trigger Binds(nodes, i, k)} | Binds(nodes, i, k) ensures k in own {
      assert BoundBefore(nodes, |nodes|, k);
    }
  }

  // --- The whole ------------------------------------------------------------------------------

  // What the rewrites may rely on.
  ghost predicate IsPreprocessable(ops: Ops, byCode: bool, own: set<string>, given: Env, g: Graph) {
    && Conforms(ops, byCode) && ComparisonsMakeBooleans(ops)
    && IsSound(ops, own, given, g, NamingOf(QDQ_PREFIX)) && AllReadAlike(byCode, g)
    && g.infos.Keys <= own && AvoidsPoolNames(own)
  }

  // A bridge, retargeted once quantizing nodes have been lowered.
  ghost predicate IsRetargetedBridge(g: Graph, k: string)
    requires forall i :: 0 <= i < |g.nodes| ==> MakesOne(g.nodes[i])
  {
    var g1 := AfterQdq(g);
    IsRetargetedName(g1.nodes, g1.infos, g1.outputs, k)
  }

  lemma QdqStage(ops: Ops, byCode: bool, own: set<string>, given: Env, g: Graph)
    requires IsPreprocessable(ops, byCode, own, given, g)
    ensures var g1 := AfterQdq(g); var start := given + g1.inits;
      && Run(ops, g1, given).Some? && IsSsa(g1.nodes, start.Keys) && "" !in start
      && AddsHelpers(own, QDQ_PREFIX, Run(ops, g, given).value, Run(ops, g1, given).value)
      && DeclarationsHold(own, g1.infos, Run(ops, g1, given).value)
      && AvoidsPoolNames(Run(ops, g1, given).value.Keys)
  {
    var g1 := AfterQdq(g);
    QdqPassKeepsMeaning(ops, byCode, own, given, g);
    var env, env1 := Run(ops, g, given).value, Run(ops, g1, given).value;
    AddedAreDeclared(own, QDQ_PREFIX, g.infos, env, env1);
    assert given.Keys + g1.inits.Keys == (given + g1.inits).Keys;
    RunKeepsBindings(ops, g1.nodes, given + g1.inits, 0, |g1.nodes|);
    NamesAreOwn(ops, own, NamingOf(QDQ_PREFIX), g.nodes, given + g.inits, |g.nodes|);
    forall k {:trigger IsReserved(POOL_PREFIX, k)} | k in env1 ensures !IsReserved(POOL_PREFIX, k) {
      if k !in env {
        PrefixesApart(k);
      }
    }
    RunKeys(ops, g.nodes, given + g.inits, |g.nodes|);
    assert "" !in env;
  }

  lemma BridgeStage(ops: Ops, byCode: bool, own: set<string>, given: Env, g1: Graph)
    requires Conforms(ops, byCode) && ComparisonsMakeBooleans(ops) && Run(ops, g1, given).Some?
    requires IsSsa(g1.nodes, (given + g1.inits).Keys) && g1.infos.Keys <= own
    requires DeclarationsHold(own, g1.infos, Run(ops, g1, given).value)
    ensures var g2 := AfterBridging(g1);
      && Run(ops, g2, given).Some? && DeclarationsHold(own, g2.infos, Run(ops, g2, given).value)
      && AllCorrespond(g1.nodes, g1.infos, g1.outputs, Run(ops, g1, given).value, Run(ops, g2, given).value)
  {
    var start := given + g1.inits;
    DeclaredTypesAreSound(ops, own, g1.nodes, g1.infos, start);
    BridgedRunCorresponds(ops, byCode, g1.nodes, g1.infos, g1.outputs, start, |g1.nodes|);
    SsaOfNothing(g1.nodes, start.Keys);
    StillDeclared(own, g1.nodes, g1.infos, g1.outputs, Run(ops, g1, given).value, Run(ops, AfterBridging(g1), given).value);
  }

  lemma ClipStage(ops: Ops, byCode: bool, given: Env, g2: Graph)
    requires Conforms(ops, byCode) && Run(ops, g2, given).Some? && IsSsa(g2.nodes, (given + g2.inits).Keys)
    ensures Run(ops, AfterClipping(g2), given) == Run(ops, g2, given)
  {
    ClipRunIsSame(ops, byCode, g2.nodes, g2.inits, given + g2.inits);
  }

  lemma StagesStaySsa(g1: Graph, bound: set<string>)
    requires IsSsa(g1.nodes, bound)
    ensures IsSsa(AfterBridging(g1).nodes, bound) && IsSsa(AfterClipping(AfterBridging(g1)).nodes, bound)
  {
    forall i | 0 <= i < |g1.nodes|
      ensures AfterBridging(g1).nodes[i].outputs == g1.nodes[i].outputs
      ensures AfterClipping(AfterBridging(g1)).nodes[i].outputs == g1.nodes[i].outputs
    {
      RewrittenOutputsStay(g1, i);
      OperatorsStay(g1.nodes, g1.infos, g1.outputs, |g1.nodes|, i);
    }
    SameOutputsStaySsa(g1.nodes, AfterBridging(g1).nodes, bound);
    SameOutputsStaySsa(g1.nodes, AfterClipping(AfterBridging(g1)).nodes, bound);
  }

  lemma PoolStage(ops: Ops, byCode: bool, own: set<string>, given: Env, g1: Graph, g3: Graph)
    requires Conforms(ops, byCode) && Run(ops, g1, given).Some? && Run(ops, g3, given).Some?
    requires IsSsa(g3.nodes, (given + g3.inits).Keys) && "" !in given + g3.inits
    requires Run(ops, g3, given).value.Keys == Run(ops, g1, given).value.Keys
    requires AvoidsPoolNames(Run(ops, g1, given).value.Keys)
    requires g3.infos.Keys <= own && DeclarationsHold(own, g3.infos, Run(ops, g3, given).value)
    ensures var g' := AfterPooling(g3);
      && Run(ops, g', given).Some? && IsSsa(g'.nodes, given.Keys + g'.inits.Keys)
      && Includes(Run(ops, g3, given).value, Run(ops, g', given).value)
  {
    RunNamesGraph(ops, g3.nodes, given + g3.inits);
    DeclaredIsAsDeclared(own, g3.infos, Run(ops, g3, given).value);
    PoolingPassKeepsMeaning(ops, byCode, Run(ops, g3, given).value.Keys, given, g3);
  }

  lemma CorrespondingKeys(nodes: seq<Node>, infos: map<string, ValueInfo>, outputs: set<string>, env: Env, env': Env)
    requires AllCorrespond(nodes, infos, outputs, env, env')
    ensures env'.Keys == env.Keys
  {
    forall k ensures k in env <==> k in env' {
      assert Corresponds(nodes, infos, outputs, env, env', k);
    }
  }

  // A tensor before and after the rewrites that follow the lowering of quantizing nodes.
  ghost predicate KeepsLowered(g1: Graph, env: Env, env': Env, k: string) {
    k in env ==>
      (k in env' && if IsRetargetedName(g1.nodes, g1.infos, g1.outputs, k) then IsRetyped(env[k], env'[k])
                    else env'[k] == env[k])
  }

  function AfterLowering(g1: Graph): (g': Graph) {
    AfterPooling(AfterClipping(AfterBridging(g1)))
  }

  lemma RemainingStages(ops: Ops, byCode: bool, own: set<string>, given: Env, g1: Graph)
    requires Conforms(ops, byCode) && ComparisonsMakeBooleans(ops) && Run(ops, g1, given).Some?
    requires IsSsa(g1.nodes, (given + g1.inits).Keys) && "" !in given + g1.inits && g1.infos.Keys <= own
    requires DeclarationsHold(own, g1.infos, Run(ops, g1, given).value)
    requires AvoidsPoolNames(Run(ops, g1, given).value.Keys)
    ensures var g' := AfterLowering(g1);
      && Run(ops, g', given).Some? && IsSsa(g'.nodes, given.Keys + g'.inits.Keys)
      && forall k {:trigger KeepsLowered(g1, Run(ops, g1, given).value, Run(ops, g', given).value, k)} ::
        KeepsLowered(g1, Run(ops, g1, given).value, Run(ops, g', given).value, k)
  {
    var g2, start := AfterBridging(g1), given + g1.inits;
    var g3 := AfterClipping(g2);
    BridgeStage(ops, byCode, own, given, g1);
    BridgedKeys(g1.nodes, g1.infos, g1.outputs);
    StagesStaySsa(g1, start.Keys);
    ClipStage(ops, byCode, given, g2);
    var env1, env2 := Run(ops, g1, given).value, Run(ops, g2, given).value;
    CorrespondingKeys(g1.nodes, g1.infos, g1.outputs, env1, env2);
    PoolStage(ops, byCode, own, given, g1, g3);
    var env' := Run(ops, AfterPooling(g3), given).value;
    forall k ensures KeepsLowered(g1, env1, env', k) {
      assert Corresponds(g1.nodes, g1.infos, g1.outputs, env1, env2, k);
    }
  }

  // A tensor of the graph before and after all rewrites.
  ghost predicate KeepsTensor(g: Graph, env: Env, env': Env, k: string)
    requires forall i :: 0 <= i < |g.nodes| ==> MakesOne(g.nodes[i])
  {
    k in env ==>
      (k in env' && if IsRetargetedBridge(g, k) then IsRetyped(env[k], env'[k]) else env'[k] == env[k])
  }

  // The preprocessed graph runs whenever the graph runs. Every tensor of the graph keeps its value
  // and type, except that a retargeted bridge holds the same numbers as int32; nothing is bound
  // twice.
  lemma PreprocessingKeepsMeaning(ops: Ops, byCode: bool, own: set<string>, given: Env, g: Graph)
    requires IsPreprocessable(ops, byCode, own, given, g)
    ensures var g' := Preprocessed(g);
      && Run(ops, g', given).Some? && IsSsa(g'.nodes, given.Keys + g'.inits.Keys)
      && forall k {:trigger KeepsTensor(g, Run(ops, g, given).value, Run(ops, g', given).value, k)} ::
        KeepsTensor(g, Run(ops, g, given).value, Run(ops, g', given).value, k)
  {
    var g1, g' := AfterQdq(g), Preprocessed(g);
    QdqStage(ops, byCode, own, given, g);
    RemainingStages(ops, byCode, own, given, g1);
    assert g' == AfterLowering(g1);
    var env, env1, env' := Run(ops, g, given).value, Run(ops, g1, given).value, Run(ops, g', given).value;
    forall k ensures KeepsTensor(g, env, env', k) {
      assert KeepsLowered(g1, env1, env', k);
    }
  }

  // Only tensors inside the graph are retargeted: its outputs keep their types too.
  lemma OutputsAreNoBridges(g: Graph, k: string)
    requires (forall i :: 0 <= i < |g.nodes| ==> MakesOne(g.nodes[i])) && k in g.outputs
    ensures !IsRetargetedBridge(g, k)
  {
    var g1 := AfterQdq(g);
    forall i: nat | IsRetargeted(g1.nodes, g1.infos, g1.outputs, i) ensures !Binds(g1.nodes, i, k) {
      assert AfterRetargeting(g1.nodes, g1.infos, g1.outputs, i)[i] == g1.nodes[i];
    }
  }
}
