/**
 * The uint8 tensor between a boolean and the casts that read it becomes an int32 tensor
 * (src/logical_output_compatibility.cc:175-253).
 */
module BoolBridge {
  import opened Options
  import opened TensorValues
  import opened Broadcasting
  import opened OnnxGraph
  import opened GraphRuns
  import opened ClipBounds

  const UINT8_CODE := 2
  const INT32_CODE := 6

  predicate IsKnownBoolProducer(op: Op) {
    op in {Equal, NotEqual, Greater, GreaterOrEqual, Less, LessOrEqual, And, Or, Xor, Not, IsInf, IsNaN}
  }

  // The declared type decides; without one, the operator that makes the tensor does.
  predicate IsBoolTensor(nodes: seq<Node>, infos: map<string, ValueInfo>, name: string) {
    if name in infos then infos[name].dtype.Bool?
    else
      var p := ProducerOf(nodes, name);
      p.Some? && IsKnownBoolProducer(nodes[p.value].op)
  }

  // A reader of the bridge that does not care which integer type it reads.
  predicate IsCastReader(node: Node, bridge: string) {
    && node.op.Cast? && node.inputs == [bridge]
    && node.attributes.to.Some? && node.attributes.to.value != UINT8_CODE
  }

  predicate IsBridge(nodes: seq<Node>, infos: map<string, ValueInfo>, outputs: set<string>, i: nat)
    requires i < |nodes|
  {
    var node := nodes[i];
    && node.op.Cast? && |node.inputs| == 1 && |node.outputs| == 1 && node.inputs[0] != "" && node.outputs[0] != ""
    && node.attributes.to == Some(UINT8_CODE)
    && node.outputs[0] !in outputs
    && IsBoolTensor(nodes, infos, node.inputs[0])
    && (exists j :: 0 <= j < |nodes| && node.outputs[0] in nodes[j].inputs)
    && (forall j :: 0 <= j < |nodes| && node.outputs[0] in nodes[j].inputs ==> IsCastReader(nodes[j], node.outputs[0]))
  }

  function Retargeted(node: Node): (r: Node)
    ensures r.outputs == node.outputs && r.inputs == node.inputs && r.doc == node.doc && r.op == node.op
  {
    node.(attributes := node.attributes.(to := Some(INT32_CODE)))
  }

  // The nodes once the first n have been looked at, each among the nodes as they then are.
  function AfterRetargeting(nodes: seq<Node>, infos: map<string, ValueInfo>, outputs: set<string>, n: nat): (r: seq<Node>)
    requires n <= |nodes|
    ensures |r| == |nodes| && forall j :: n <= j < |nodes| ==> r[j] == nodes[j]
  {
    if n == 0 then nodes
    else
      var before := AfterRetargeting(nodes, infos, outputs, n - 1);
      if IsBridge(before, infos, outputs, n - 1) then before[n - 1 := Retargeted(before[n - 1])] else before
  }

  predicate IsRetargeted(nodes: seq<Node>, infos: map<string, ValueInfo>, outputs: set<string>, i: nat) {
    i < |nodes| && IsBridge(AfterRetargeting(nodes, infos, outputs, i), infos, outputs, i)
  }

  function AfterDeclaring(nodes: seq<Node>, infos: map<string, ValueInfo>, outputs: set<string>, n: nat)
    : (r: map<string, ValueInfo>)
    requires n <= |nodes|
  {
    if n == 0 then infos
    else
      var before := AfterDeclaring(nodes, infos, outputs, n - 1);
      if IsRetargeted(nodes, infos, outputs, n - 1) then WithType(before, nodes[n - 1].outputs, Int32) else before
  }

  function WithType(infos: map<string, ValueInfo>, names: seq<string>, t: DType): (r: map<string, ValueInfo>) {
    map name | name in infos :: if name in names then infos[name].(dtype := t) else infos[name]
  }

  // --- Which casts are retargeted -------------------------------------------------------------

  // Declared boolean, or undeclared and made by a comparison or a logical operator.
  ghost predicate IsMadeBoolean(nodes: seq<Node>, infos: map<string, ValueInfo>, name: string) {
    if name in infos then infos[name].dtype == Bool
    else
      exists j: nat :: IsProducer(nodes, name, j) &&
        nodes[j].op in {And, Equal, Greater, GreaterOrEqual, IsInf, IsNaN, Less, LessOrEqual, Not, NotEqual, Or, Xor}
  }

  predicate CastsOn(reader: Node, name: string) {
    reader.op.Cast? && reader.inputs == [name] && reader.attributes.to.Some? && reader.attributes.to.value != 2
  }

  // A boolean is cast to uint8, is no output of the graph, and is only cast on to other types.
  ghost predicate IsBooleanAsByte(nodes: seq<Node>, infos: map<string, ValueInfo>, outputs: set<string>, i: nat) {
    && i < |nodes| && nodes[i].op.Cast? && |nodes[i].inputs| == |nodes[i].outputs| == 1
    && nodes[i].attributes.to == Some(2)
    && var from, to := nodes[i].inputs[0], nodes[i].outputs[0];
       && from != "" && to != "" && to !in outputs && IsMadeBoolean(nodes, infos, from)
       && (exists j :: 0 <= j < |nodes| && to in nodes[j].inputs)
       && forall j :: 0 <= j < |nodes| && to in nodes[j].inputs ==> CastsOn(nodes[j], to)
  }

  // What is made is read by later nodes only.
  ghost predicate IsInOrder(nodes: seq<Node>) {
    forall i, j, name :: 0 <= j <= i < |nodes| && name in nodes[i].outputs ==> name !in nodes[j].inputs
  }

  ghost predicate DiffersInTarget(nodes: seq<Node>, r: seq<Node>) {
    |r| == |nodes| &&
    forall j :: 0 <= j < |nodes| ==>
      r[j].inputs == nodes[j].inputs && r[j].outputs == nodes[j].outputs && r[j].op == nodes[j].op
  }

  lemma BooleanAsStated(nodes: seq<Node>, r: seq<Node>, infos: map<string, ValueInfo>, name: string)
    requires DiffersInTarget(nodes, r)
    ensures IsBoolTensor(r, infos, name) <==> IsMadeBoolean(nodes, infos, name)
  {
    var p := ProducerOf(r, name);
    if p.Some? {
      ProducerIsLast(r, name, p.value);
      assert IsProducer(nodes, name, p.value);
    }
    forall j: nat | IsProducer(nodes, name, j) ensures p == Some(j) {
      assert IsProducer(r, name, j);
      ProducerIsLast(r, name, j);
    }
  }

  lemma {:induction false} OnlyTargetsDiffer(nodes: seq<Node>, infos: map<string, ValueInfo>, outputs: set<string>, n: nat)
    requires n <= |nodes|
    ensures DiffersInTarget(nodes, AfterRetargeting(nodes, infos, outputs, n))
    decreases n
  {
    if n > 0 {
      OnlyTargetsDiffer(nodes, infos, outputs, n - 1);
    }
  }

  // In a graph in order, the casts as edited so far decide as those of the graph do.
  lemma RetargetedAsStated(nodes: seq<Node>, infos: map<string, ValueInfo>, outputs: set<string>, i: nat)
    requires IsInOrder(nodes) && i < |nodes|
    ensures IsRetargeted(nodes, infos, outputs, i) <==> IsBooleanAsByte(nodes, infos, outputs, i)
  {
    var r := AfterRetargeting(nodes, infos, outputs, i);
    OnlyTargetsDiffer(nodes, infos, outputs, i);
    if |nodes[i].inputs| == 1 && |nodes[i].outputs| == 1 {
      BooleanAsStated(nodes, r, infos, nodes[i].inputs[0]);
      var to := nodes[i].outputs[0];
      forall j | 0 <= j < |nodes| && to in nodes[j].inputs ensures r[j] == nodes[j] {
        assert i < j;
      }
    }
  }

  function Recast(node: Node): (r: Node) {
    node.(attributes := node.attributes.(to := Some(6)))
  }

  // Exactly these casts are to int32 afterwards; all else is as it was.
  ghost predicate AreRecast(nodes: seq<Node>, infos: map<string, ValueInfo>, outputs: set<string>, r: seq<Node>) {
    && |r| == |nodes|
    && forall i :: 0 <= i < |nodes| ==>
         r[i] == if IsBooleanAsByte(nodes, infos, outputs, i) then Recast(nodes[i]) else nodes[i]
  }

  lemma RecastAsStated(nodes: seq<Node>, infos: map<string, ValueInfo>, outputs: set<string>)
    requires IsInOrder(nodes)
    ensures AreRecast(nodes, infos, outputs, AfterRetargeting(nodes, infos, outputs, |nodes|))
  {
    var r := AfterRetargeting(nodes, infos, outputs, |nodes|);
    OnlyTargetsDiffer(nodes, infos, outputs, |nodes|);
    forall i: nat | i < |nodes|
      ensures r[i] == if IsBooleanAsByte(nodes, infos, outputs, i) then Recast(nodes[i]) else nodes[i]
    {
      FinalNode(nodes, infos, outputs, i, |nodes|);
      RetargetedAsStated(nodes, infos, outputs, i);
    }
  }

  ghost predicate AreRedeclared(
    nodes: seq<Node>, infos: map<string, ValueInfo>, outputs: set<string>, declared: map<string, ValueInfo>)
  {
    && declared.Keys == infos.Keys
    && forall name :: name in infos ==>
         declared[name] == if IsRecastName(nodes, infos, outputs, name) then infos[name].(dtype := Int32) else infos[name]
  }

  ghost predicate IsRecastName(nodes: seq<Node>, infos: map<string, ValueInfo>, outputs: set<string>, name: string) {
    IsRecastBefore(nodes, infos, outputs, |nodes|, name)
  }

  ghost predicate IsRecastBefore(
    nodes: seq<Node>, infos: map<string, ValueInfo>, outputs: set<string>, n: nat, name: string)
    requires n <= |nodes|
  {
    exists i :: 0 <= i < n && IsBooleanAsByte(nodes, infos, outputs, i) && nodes[i].outputs[0] == name
  }

  lemma OneMoreRecast(nodes: seq<Node>, infos: map<string, ValueInfo>, outputs: set<string>, n: nat, name: string)
    requires IsInOrder(nodes) && n < |nodes|
    ensures IsRecastBefore(nodes, infos, outputs, n + 1, name) <==>
            (IsRecastBefore(nodes, infos, outputs, n, name) ||
             (IsRetargeted(nodes, infos, outputs, n) && name in nodes[n].outputs))
  {
    RetargetedAsStated(nodes, infos, outputs, n);
    if IsRetargeted(nodes, infos, outputs, n) {
      assert name in nodes[n].outputs <==> nodes[n].outputs[0] == name;
    }
  }

  lemma {:induction false} DeclaredSoFar(
    nodes: seq<Node>, infos: map<string, ValueInfo>, outputs: set<string>, n: nat, name: string)
    requires IsInOrder(nodes) && n <= |nodes| && name in infos
    ensures var declared := AfterDeclaring(nodes, infos, outputs, n);
      name in declared && declared[name] ==
        if IsRecastBefore(nodes, infos, outputs, n, name) then infos[name].(dtype := Int32) else infos[name]
    decreases n
  {
    if n > 0 {
      DeclaredSoFar(nodes, infos, outputs, n - 1, name);
      OneMoreRecast(nodes, infos, outputs, n - 1, name);
    }
  }

  lemma RedeclaredAsStated(nodes: seq<Node>, infos: map<string, ValueInfo>, outputs: set<string>)
    requires IsInOrder(nodes)
    ensures AreRedeclared(nodes, infos, outputs, AfterDeclaring(nodes, infos, outputs, |nodes|))
  {
    KeysStay(nodes, infos, outputs, |nodes|);
    forall name | name in infos
      ensures AfterDeclaring(nodes, infos, outputs, |nodes|)[name] ==
              if IsRecastName(nodes, infos, outputs, name) then infos[name].(dtype := Int32) else infos[name]
    {
      DeclaredSoFar(nodes, infos, outputs, |nodes|, name);
    }
  }

  lemma {:induction false} KeysStay(nodes: seq<Node>, infos: map<string, ValueInfo>, outputs: set<string>, n: nat)
    requires n <= |nodes|
    ensures AfterDeclaring(nodes, infos, outputs, n).Keys == infos.Keys
    decreases n
  {
    if n > 0 {
      KeysStay(nodes, infos, outputs, n - 1);
    }
  }

  // In a graph in order, exactly the casts of booleans are recast, and declared so.
  ghost predicate AreBridged(
    nodes: seq<Node>, infos: map<string, ValueInfo>, outputs: set<string>, r: seq<Node>,
    declared: map<string, ValueInfo>)
  {
    IsInOrder(nodes) ==> AreRecast(nodes, infos, outputs, r) && AreRedeclared(nodes, infos, outputs, declared)
  }

  lemma BridgesAsStated(nodes: seq<Node>, infos: map<string, ValueInfo>, outputs: set<string>)
    ensures AreBridged(nodes, infos, outputs, AfterRetargeting(nodes, infos, outputs, |nodes|),
                       AfterDeclaring(nodes, infos, outputs, |nodes|))
  {
    if IsInOrder(nodes) {
      RecastAsStated(nodes, infos, outputs);
      RedeclaredAsStated(nodes, infos, outputs);
    }
  }

  // Types are declared by what the graph said before the pass.
  method CanonicalizeBoolBridgeCastChain(nodes: array<Node>, infos: map<string, ValueInfo>, outputs: set<string>)
    returns (declared: map<string, ValueInfo>)
    modifies nodes
    ensures nodes[..] == AfterRetargeting(old(nodes[..]), infos, outputs, nodes.Length)
    ensures declared == AfterDeclaring(old(nodes[..]), infos, outputs, nodes.Length)
    ensures AreBridged(old(nodes[..]), infos, outputs, nodes[..], declared)
  {
    BridgesAsStated(nodes[..], infos, outputs);
    declared := infos;
    for i := 0 to nodes.Length
      invariant nodes[..] == AfterRetargeting(old(nodes[..]), infos, outputs, i)
      invariant declared == AfterDeclaring(old(nodes[..]), infos, outputs, i)
    {
      ghost var before := nodes[..];
      var bridge := IsBridge(nodes[..], infos, outputs, i);
      if bridge {
        assert before[i] == old(nodes[..])[i];
        declared := WithType(declared, nodes[i].outputs, Int32);
        Retarget(nodes, i);
      }
    }
  }

  method Retarget(nodes: array<Node>, i: nat)
    requires i < nodes.Length
    modifies nodes
    ensures nodes[..] == old(nodes[..])[i := Retargeted(old(nodes[..])[i])]
  {
    nodes[i] := Retargeted(nodes[i]);
  }

  lemma {:induction false} FinalNode(nodes: seq<Node>, infos: map<string, ValueInfo>, outputs: set<string>, i: nat, n: nat)
    requires i < n <= |nodes|
    ensures AfterRetargeting(nodes, infos, outputs, n)[i]
         == if IsRetargeted(nodes, infos, outputs, i) then Retargeted(nodes[i]) else nodes[i]
    decreases n
  {
    if i < n - 1 {
      FinalNode(nodes, infos, outputs, i, n - 1);
    }
  }

  // --- Meaning --------------------------------------------------------------------------------

  ghost predicate IsRetargetedName(nodes: seq<Node>, infos: map<string, ValueInfo>, outputs: set<string>, k: string) {
    exists i: nat :: IsRetargeted(nodes, infos, outputs, i) && Binds(nodes, i, k)
  }

  // The same numbers under another integer type.
  ghost predicate IsRetyped(t: Tensor, t': Tensor) {
    t.dtype.UInt8? && t' == t.(dtype := Int32)
  }

  ghost predicate Corresponds(
    nodes: seq<Node>, infos: map<string, ValueInfo>, outputs: set<string>, env: Env, env': Env, k: string) {
    && (k in env <==> k in env')
    && (k in env ==>
          if IsRetargetedName(nodes, infos, outputs, k) then IsRetyped(env[k], env'[k]) else env'[k] == env[k])
  }

  ghost predicate AllCorrespond(
    nodes: seq<Node>, infos: map<string, ValueInfo>, outputs: set<string>, env: Env, env': Env) {
    forall k {:trigger Corresponds(nodes, infos, outputs, env, env', k)} :: Corresponds(nodes, infos, outputs, env, env', k)
  }

  // Declared tensors of the run are as declared, and comparisons make booleans.
  ghost predicate TypesAreSound(nodes: seq<Node>, infos: map<string, ValueInfo>, env: Env) {
    && (forall k :: k in infos && k in env ==> env[k].dtype == infos[k].dtype && WellFormed(env[k]))
    && (forall i: nat, k {:trigger Binds(nodes, i, k)} ::
          Binds(nodes, i, k) && IsKnownBoolProducer(nodes[i].op) && k in env ==> env[k].dtype.Bool? && WellFormed(env[k]))
  }

  lemma BoolTensorIsBool(nodes: seq<Node>, current: seq<Node>, infos: map<string, ValueInfo>, env: Env, k: string)
    requires TypesAreSound(nodes, infos, env) && k in env && k != "" && IsBoolTensor(current, infos, k)
    requires |current| == |nodes|
    requires forall j :: 0 <= j < |nodes| ==> current[j].outputs == nodes[j].outputs && current[j].op == nodes[j].op
    ensures env[k].dtype.Bool? && WellFormed(env[k])
  {
    if k !in infos {
      var p := ProducerOf(current, k).value;
      assert Binds(nodes, p, k);
    }
  }

  lemma {:induction false} OperatorsStay(
    nodes: seq<Node>, infos: map<string, ValueInfo>, outputs: set<string>, n: nat, j: nat)
    requires n <= |nodes| && j < |nodes|
    ensures var r := AfterRetargeting(nodes, infos, outputs, n);
      r[j].outputs == nodes[j].outputs && r[j].op == nodes[j].op
    decreases n
  {
    if n > 0 {
      OperatorsStay(nodes, infos, outputs, n - 1, j);
    }
  }

  lemma CastedDataIsSame(x: Tensor, t: Tensor, t': Tensor)
    requires WellFormed(x) && x.dtype.Bool? && t == Casted(x, UInt8) && t' == Casted(x, Int32)
    ensures IsRetyped(t, t')
  {
    forall i | 0 <= i < |x.data| ensures t.data[i] == t'.data[i] {
      assert Holds(Bool, x.data[i]);
      ConvertedKeeps(x.data[i], UInt8);
      ConvertedKeeps(x.data[i], Int32);
    }
    assert t.data == t'.data;
  }

  lemma BridgeReadsBool(nodes: seq<Node>, infos: map<string, ValueInfo>, outputs: set<string>, env: Env, n: nat)
    requires IsRetargeted(nodes, infos, outputs, n) && TypesAreSound(nodes, infos, env) && InputsAreBound(nodes[n], env)
    ensures var node := nodes[n];
      && node.op.Cast? && node.attributes.to == Some(UINT8_CODE)
      && |node.inputs| == |node.outputs| == 1 && node.outputs == [node.outputs[0]] && node.inputs == [node.inputs[0]]
      && node.inputs[0] != "" && node.outputs[0] != "" && Binds(nodes, n, node.outputs[0])
      && node.inputs[0] in env && env[node.inputs[0]].dtype.Bool? && WellFormed(env[node.inputs[0]])
  {
    var current := AfterRetargeting(nodes, infos, outputs, n);
    assert current[n] == nodes[n];
    forall j | 0 <= j < |nodes| ensures current[j].outputs == nodes[j].outputs && current[j].op == nodes[j].op {
      OperatorsStay(nodes, infos, outputs, n, j);
    }
    BoolTensorIsBool(nodes, current, infos, env, nodes[n].inputs[0]);
  }

  lemma CastRuns(ops: Ops, byCode: bool, node: Node, env: Env, a: string, b: string, to: DType, t: Tensor)
    requires Conforms(ops, byCode) && node.op.Cast? && node.inputs == [a] && node.outputs == [b] && a != "" && b != ""
    requires node.attributes.to.Some? && TypeOfCode(node.attributes.to.value) == to && a in env
    requires t == Casted(env[a], to)
    ensures RunNode(ops, node, env) == Some(env[b := t])
  {
    OneArg(node, env, a);
    assert GivesCast(ops, node, [Some(env[a])]);
    BindOne(env, b, t);
  }

  // The bridge itself: its output is retyped.
  lemma BridgeStep(
    ops: Ops, byCode: bool, nodes: seq<Node>, infos: map<string, ValueInfo>, outputs: set<string>, env: Env, env': Env,
    n: nat)
    requires Conforms(ops, byCode) && n < |nodes| && IsRetargeted(nodes, infos, outputs, n)
    requires AllCorrespond(nodes, infos, outputs, env, env') && RunNode(ops, nodes[n], env).Some?
    requires TypesAreSound(nodes, infos, env)
    ensures RunNode(ops, Retargeted(nodes[n]), env').Some?
    ensures AllCorrespond(nodes, infos, outputs,
                          RunNode(ops, nodes[n], env).value, RunNode(ops, Retargeted(nodes[n]), env').value)
  {
    var node, r := nodes[n], Retargeted(nodes[n]);
    var a, b := node.inputs[0], node.outputs[0];
    BridgeReadsBool(nodes, infos, outputs, env, n);
    assert Corresponds(nodes, infos, outputs, env, env', a);
    var t, t' := Casted(env[a], UInt8), Casted(env[a], Int32);
    CastRuns(ops, byCode, node, env, a, b, UInt8, t);
    CastRuns(ops, byCode, r, env', a, b, Int32, t');
    CastedDataIsSame(env[a], t, t');
    assert Binds(nodes, n, b) && IsRetargetedName(nodes, infos, outputs, b);
    RetypedCorresponds(nodes, infos, outputs, env, env', b, t, t');
  }

  lemma RetypedCorresponds(
    nodes: seq<Node>, infos: map<string, ValueInfo>, outputs: set<string>, env: Env, env': Env, b: string, t: Tensor,
    t': Tensor)
    requires AllCorrespond(nodes, infos, outputs, env, env')
    requires IsRetargetedName(nodes, infos, outputs, b) && IsRetyped(t, t')
    ensures AllCorrespond(nodes, infos, outputs, env[b := t], env'[b := t'])
  {
    var e, e' := env[b := t], env'[b := t'];
    forall k ensures Corresponds(nodes, infos, outputs, e, e', k) {
      assert Corresponds(nodes, infos, outputs, env, env', k);
    }
  }

  // Every other node gives what it gave, whether or not it reads a bridge.
  lemma OtherStep(
    ops: Ops, byCode: bool, nodes: seq<Node>, infos: map<string, ValueInfo>, outputs: set<string>, env: Env, env': Env,
    n: nat)
    requires Conforms(ops, byCode) && n < |nodes| && !IsRetargeted(nodes, infos, outputs, n)
    requires AllCorrespond(nodes, infos, outputs, env, env') && RunNode(ops, nodes[n], env).Some?
    requires IsSsa(nodes, {}) && ReadersCast(nodes, infos, outputs, n)
    ensures RunNode(ops, nodes[n], env').Some?
    ensures AllCorrespond(nodes, infos, outputs, RunNode(ops, nodes[n], env).value, RunNode(ops, nodes[n], env').value)
  {
    var node := nodes[n];
    SameResultsInBoth(ops, byCode, nodes, infos, outputs, env, env', n);
    var values := ops(node, ArgsOf(node, env)).value;
    forall k | k in node.outputs && k != "" ensures !IsRetargetedName(nodes, infos, outputs, k) {
      assert Binds(nodes, n, k) && BoundOnce(nodes, {}, k);
    }
    BindCorresponds(nodes, infos, outputs, env, env', node.outputs, values);
  }

  // A node that reads a retargeted bridge is a cast of it.
  ghost predicate ReadersCast(nodes: seq<Node>, infos: map<string, ValueInfo>, outputs: set<string>, n: nat)
    requires n < |nodes|
  {
    forall k :: k in nodes[n].inputs && IsRetargetedName(nodes, infos, outputs, k) ==> IsCastReader(nodes[n], k)
  }

  lemma SameResultsInBoth(
    ops: Ops, byCode: bool, nodes: seq<Node>, infos: map<string, ValueInfo>, outputs: set<string>, env: Env, env': Env,
    n: nat)
    requires Conforms(ops, byCode) && n < |nodes| && ReadersCast(nodes, infos, outputs, n)
    requires AllCorrespond(nodes, infos, outputs, env, env') && InputsAreBound(nodes[n], env)
    ensures InputsAreBound(nodes[n], env')
    ensures ops(nodes[n], ArgsOf(nodes[n], env')) == ops(nodes[n], ArgsOf(nodes[n], env))
  {
    var node := nodes[n];
    forall i | 0 <= i < |node.inputs| ensures node.inputs[i] in env <==> node.inputs[i] in env' {
      assert Corresponds(nodes, infos, outputs, env, env', node.inputs[i]);
    }
    if k :| k in node.inputs && k != "" && IsRetargetedName(nodes, infos, outputs, k) {
      assert Corresponds(nodes, infos, outputs, env, env', k);
      OneArg(node, env, k);
      OneArg(node, env', k);
      var to := TypeOfCode(node.attributes.to.value);
      assert Casted(env'[k], to).data == Casted(env[k], to).data;
      assert GivesCast(ops, node, [Some(env[k])]);
      assert GivesCast(ops, node, [Some(env'[k])]);
    } else {
      forall i | 0 <= i < |node.inputs| ensures ArgsOf(node, env')[i] == ArgsOf(node, env)[i] {
        assert node.inputs[i] in node.inputs;
        assert Corresponds(nodes, infos, outputs, env, env', node.inputs[i]);
      }
      assert ArgsOf(node, env') == ArgsOf(node, env);
    }
  }

  lemma {:induction false} BindCorresponds(
    nodes: seq<Node>, infos: map<string, ValueInfo>, outputs: set<string>, env: Env, env': Env, names: seq<string>,
    values: seq<Tensor>)
    requires |names| == |values| && AllCorrespond(nodes, infos, outputs, env, env')
    requires forall k :: k in names && k != "" ==> !IsRetargetedName(nodes, infos, outputs, k)
    ensures AllCorrespond(nodes, infos, outputs, Bind(env, names, values), Bind(env', names, values))
    decreases |names|
  {
    if names != [] {
      var last := |names| - 1;
      assert names == names[..last] + [names[last]];
      BindCorresponds(nodes, infos, outputs, env, env', names[..last], values[..last]);
      assert names[last] in names;
      var e, e' := Bind(env, names[..last], values[..last]), Bind(env', names[..last], values[..last]);
      forall k ensures Corresponds(nodes, infos, outputs, Bind(env, names, values), Bind(env', names, values), k) {
        assert Corresponds(nodes, infos, outputs, e, e', k);
      }
    }
  }

  // --- Runs -----------------------------------------------------------------------------------

  // In a run, the reader of a bridge comes after it, so it was a cast when the bridge was judged.
  lemma ReadersAreCasts(
    ops: Ops, nodes: seq<Node>, infos: map<string, ValueInfo>, outputs: set<string>, env: Env, n: nat)
    requires IsSsa(nodes, env.Keys) && n < |nodes| && RunTo(ops, nodes, env, n + 1).Some?
    ensures ReadersCast(nodes, infos, outputs, n)
  {
    forall k | k in nodes[n].inputs && IsRetargetedName(nodes, infos, outputs, k) ensures IsCastReader(nodes[n], k) {
      var i: nat :| IsRetargeted(nodes, infos, outputs, i) && Binds(nodes, i, k);
      BinderComesFirst(ops, nodes, env, i, n, k);
      ReaderWasCast(nodes, infos, outputs, i, n, k);
    }
  }

  lemma BinderComesFirst(ops: Ops, nodes: seq<Node>, env: Env, i: nat, n: nat, k: string)
    requires IsSsa(nodes, env.Keys) && n < |nodes| && RunTo(ops, nodes, env, n + 1).Some?
    requires Binds(nodes, i, k) && k in nodes[n].inputs
    ensures i < n
  {
    RunKeys(ops, nodes, env, n);
    RunNodeKeys(ops, nodes[n], RunTo(ops, nodes, env, n).value);
    assert BoundBefore(nodes, n, k) && BoundOnce(nodes, env.Keys, k);
  }

  lemma ReaderWasCast(nodes: seq<Node>, infos: map<string, ValueInfo>, outputs: set<string>, i: nat, n: nat, k: string)
    requires i < n < |nodes| && IsRetargeted(nodes, infos, outputs, i) && Binds(nodes, i, k) && k in nodes[n].inputs
    ensures IsCastReader(nodes[n], k)
  {
    var current := AfterRetargeting(nodes, infos, outputs, i);
    assert current[n] == nodes[n] && current[i] == nodes[i];
  }

  lemma SsaOfNothing(nodes: seq<Node>, bound: set<string>)
    requires IsSsa(nodes, bound)
    ensures IsSsa(nodes, {})
  {
    forall k ensures BoundOnce(nodes, {}, k) {
      assert BoundOnce(nodes, bound, k);
    }
  }

  lemma StillSound(nodes: seq<Node>, infos: map<string, ValueInfo>, before: Env, after: Env)
    requires Includes(before, after) && TypesAreSound(nodes, infos, after)
    ensures TypesAreSound(nodes, infos, before)
  {
  }

  lemma OriginalCorresponds(nodes: seq<Node>, infos: map<string, ValueInfo>, outputs: set<string>, env: Env)
    requires IsSsa(nodes, env.Keys)
    ensures AllCorrespond(nodes, infos, outputs, env, env)
  {
    forall k ensures Corresponds(nodes, infos, outputs, env, env, k) {
      assert BoundOnce(nodes, env.Keys, k);
    }
  }

  lemma CorrespondingStep(
    ops: Ops, byCode: bool, nodes: seq<Node>, infos: map<string, ValueInfo>, outputs: set<string>, env: Env, n: nat,
    before: Env, before': Env)
    requires Conforms(ops, byCode) && IsSsa(nodes, env.Keys) && n < |nodes|
    requires RunTo(ops, nodes, env, n) == Some(before) && RunNodes(ops, nodes, env).Some?
    requires TypesAreSound(nodes, infos, RunNodes(ops, nodes, env).value)
    requires AllCorrespond(nodes, infos, outputs, before, before')
    ensures RunTo(ops, nodes, env, n + 1).Some?
    ensures var r := AfterRetargeting(nodes, infos, outputs, |nodes|)[n];
      && RunNode(ops, r, before').Some?
      && AllCorrespond(nodes, infos, outputs, RunTo(ops, nodes, env, n + 1).value, RunNode(ops, r, before').value)
  {
    FinalNode(nodes, infos, outputs, n, |nodes|);
    RunKeepsBindings(ops, nodes, env, n, |nodes|);
    StillSound(nodes, infos, before, RunNodes(ops, nodes, env).value);
    RunKeepsBindings(ops, nodes, env, n + 1, |nodes|);
    if IsRetargeted(nodes, infos, outputs, n) {
      BridgeStep(ops, byCode, nodes, infos, outputs, before, before', n);
    } else {
      ReadersAreCasts(ops, nodes, infos, outputs, env, n);
      SsaOfNothing(nodes, env.Keys);
      OtherStep(ops, byCode, nodes, infos, outputs, before, before', n);
    }
  }

  // After the pass the graph still runs; every tensor but the retargeted bridges is the same, and
  // those hold the same numbers as int32.
  lemma {:induction false} BridgedRunCorresponds(
    ops: Ops, byCode: bool, nodes: seq<Node>, infos: map<string, ValueInfo>, outputs: set<string>, env: Env, n: nat)
    requires Conforms(ops, byCode) && IsSsa(nodes, env.Keys) && n <= |nodes| && RunNodes(ops, nodes, env).Some?
    requires TypesAreSound(nodes, infos, RunNodes(ops, nodes, env).value)
    ensures var r := AfterRetargeting(nodes, infos, outputs, |nodes|);
      && RunTo(ops, nodes, env, n).Some? && RunTo(ops, r, env, n).Some?
      && AllCorrespond(nodes, infos, outputs, RunTo(ops, nodes, env, n).value, RunTo(ops, r, env, n).value)
    decreases n
  {
    if n == 0 {
      OriginalCorresponds(nodes, infos, outputs, env);
    } else {
      BridgedRunCorresponds(ops, byCode, nodes, infos, outputs, env, n - 1);
      var r := AfterRetargeting(nodes, infos, outputs, |nodes|);
      CorrespondingStep(ops, byCode, nodes, infos, outputs, env, n - 1,
                        RunTo(ops, nodes, env, n - 1).value, RunTo(ops, r, env, n - 1).value);
    }
  }
}
