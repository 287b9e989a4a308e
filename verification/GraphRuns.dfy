/** Facts about runs that every rewrite relies on. */
module GraphRuns {
  import opened Options
  import opened TensorValues
  import opened Broadcasting
  import opened OnnxGraph

  lemma IncludesThrough(a: Env, b: Env, c: Env)
    requires Includes(a, b) && Includes(b, c)
    ensures Includes(a, c)
  {
  }

  // Of the names in `own`, only `out` is newly bound.
  ghost predicate Grows(own: set<string>, out: string, env: Env, env': Env) {
    Includes(env, env') && forall k {:trigger k in env'} :: k in own && k in env' ==> k in env || k == out
  }

  lemma GrowsThrough(own: set<string>, out: string, a: Env, b: Env, c: Env)
    requires Grows(own, out, a, b) && Grows(own, out, b, c)
    ensures Grows(own, out, a, c)
  {
    IncludesThrough(a, b, c);
  }

  lemma GrowsUnowned(own: set<string>, name: string, out: string, env: Env, env': Env)
    requires Grows(own, name, env, env') && name !in own
    ensures Grows(own, out, env, env')
  {
  }

  // --- Binding --------------------------------------------------------------------------------

  lemma {:induction false} BindIncludes(env: Env, more: Env, names: seq<string>, values: seq<Tensor>)
    requires Includes(env, more) && |names| == |values|
    ensures Includes(Bind(env, names, values), Bind(more, names, values))
  {
    if names != [] {
      BindIncludes(env, more, names[..|names| - 1], values[..|names| - 1]);
    }
  }

  lemma {:induction false} BindElsewhere(env: Env, names: seq<string>, values: seq<Tensor>, name: string, t: Tensor)
    requires |names| == |values| && name !in names
    ensures Bind(env[name := t], names, values) == Bind(env, names, values)[name := t]
  {
    if names != [] {
      var last := |names| - 1;
      assert names == names[..last] + [names[last]];
      BindElsewhere(env, names[..last], values[..last], name, t);
    }
  }

  lemma BindOne(env: Env, name: string, t: Tensor)
    requires name != ""
    ensures Bind(env, [name], [t]) == env[name := t]
  {
    assert [name][..0] == [];
  }

  lemma OneArg(node: Node, env: Env, a: string)
    requires node.inputs == [a] && a != "" && a in env
    ensures InputsAreBound(node, env) && ArgsOf(node, env) == [Some(env[a])]
  {
  }

  lemma TwoArgs(node: Node, env: Env, a: string, b: string)
    requires node.inputs == [a, b] && a != "" && b != "" && a in env && b in env
    ensures InputsAreBound(node, env) && ArgsOf(node, env) == [Some(env[a]), Some(env[b])]
  {
  }

  // --- One node -------------------------------------------------------------------------------

  lemma ArgsAgree(node: Node, env: Env, more: Env)
    requires InputsAreBound(node, env) && Includes(env, more)
    ensures InputsAreBound(node, more) && ArgsOf(node, more) == ArgsOf(node, env)
  {
    forall i | 0 <= i < |node.inputs| ensures ArgsOf(node, more)[i] == ArgsOf(node, env)[i] {
      assert node.inputs[i] != "" ==> node.inputs[i] in env;
    }
  }

  lemma RunNodeIncludes(ops: Ops, node: Node, env: Env, more: Env)
    requires RunNode(ops, node, env).Some? && Includes(env, more)
    ensures RunNode(ops, node, more).Some?
    ensures Includes(RunNode(ops, node, env).value, RunNode(ops, node, more).value)
  {
    ArgsAgree(node, env, more);
    BindIncludes(env, more, node.outputs, ops(node, ArgsOf(node, env)).value);
  }

  lemma RunNodeKeys(ops: Ops, node: Node, env: Env)
    requires RunNode(ops, node, env).Some?
    ensures forall k :: k in RunNode(ops, node, env).value <==> k in env || (k in node.outputs && k != "")
    ensures forall k :: k in node.inputs && k != "" ==> k in env
  {
  }

  // A binding that the node neither reads nor writes goes by unnoticed.
  lemma RunNodeElsewhere(ops: Ops, node: Node, env: Env, name: string, t: Tensor)
    requires RunNode(ops, node, env).Some? && name !in RunNode(ops, node, env).value && name != ""
    ensures RunNode(ops, node, env[name := t]) == Some(RunNode(ops, node, env).value[name := t])
  {
    RunNodeKeys(ops, node, env);
    ArgsAgree(node, env, env[name := t]);
    BindElsewhere(env, node.outputs, ops(node, ArgsOf(node, env)).value, name, t);
  }

  // --- Several nodes --------------------------------------------------------------------------

  lemma {:induction false} RunPrefix(ops: Ops, a: seq<Node>, b: seq<Node>, env: Env, n: nat)
    requires n <= |a| && n <= |b| && forall i :: 0 <= i < n ==> a[i] == b[i]
    ensures RunTo(ops, a, env, n) == RunTo(ops, b, env, n)
    decreases n
  {
    if n > 0 {
      RunPrefix(ops, a, b, env, n - 1);
    }
  }

  lemma RunAppended(ops: Ops, nodes: seq<Node>, node: Node, env: Env)
    requires RunNodes(ops, nodes, env).Some?
    ensures RunNodes(ops, nodes + [node], env) == RunNode(ops, node, RunNodes(ops, nodes, env).value)
  {
    RunPrefix(ops, nodes + [node], nodes, env, |nodes|);
  }

  lemma {:induction false} RunElsewhere(ops: Ops, nodes: seq<Node>, env: Env, n: nat, name: string, t: Tensor)
    requires n <= |nodes| && RunTo(ops, nodes, env, n).Some? && name !in RunTo(ops, nodes, env, n).value && name != ""
    ensures RunTo(ops, nodes, env[name := t], n) == Some(RunTo(ops, nodes, env, n).value[name := t])
    decreases n
  {
    if n > 0 {
      var before := RunTo(ops, nodes, env, n - 1).value;
      RunNodeKeys(ops, nodes[n - 1], before);
      RunElsewhere(ops, nodes, env, n - 1, name, t);
      RunNodeElsewhere(ops, nodes[n - 1], before, name, t);
    }
  }

  ghost predicate Binds(nodes: seq<Node>, i: nat, k: string) {
    i < |nodes| && k in nodes[i].outputs && k != ""
  }

  ghost predicate BoundOnce(nodes: seq<Node>, bound: set<string>, k: string) {
    && (forall i: nat :: Binds(nodes, i, k) ==> k !in bound)
    && (forall i: nat, j: nat :: Binds(nodes, i, k) && Binds(nodes, j, k) ==> i == j)
  }

  // Nothing is bound twice.
  ghost predicate IsSsa(nodes: seq<Node>, bound: set<string>) {
    forall k {:trigger BoundOnce(nodes, bound, k)} :: BoundOnce(nodes, bound, k)
  }

  ghost predicate BoundBefore(nodes: seq<Node>, n: nat, k: string) {
    exists i: nat :: i < n && Binds(nodes, i, k)
  }

  lemma {:induction false} RunKeys(ops: Ops, nodes: seq<Node>, env: Env, n: nat)
    requires n <= |nodes| && RunTo(ops, nodes, env, n).Some?
    ensures forall k :: k in RunTo(ops, nodes, env, n).value <==> k in env || BoundBefore(nodes, n, k)
    decreases n
  {
    if n > 0 {
      RunKeys(ops, nodes, env, n - 1);
      RunNodeKeys(ops, nodes[n - 1], RunTo(ops, nodes, env, n - 1).value);
      forall k ensures BoundBefore(nodes, n, k) <==> BoundBefore(nodes, n - 1, k) || Binds(nodes, n - 1, k) {
      }
    }
  }

  // With single assignment, what is bound stays as it is bound.
  lemma {:induction false} RunKeepsBindings(ops: Ops, nodes: seq<Node>, env: Env, m: nat, n: nat)
    requires IsSsa(nodes, env.Keys) && m <= n <= |nodes| && RunTo(ops, nodes, env, n).Some?
    ensures RunTo(ops, nodes, env, m).Some?
    ensures Includes(RunTo(ops, nodes, env, m).value, RunTo(ops, nodes, env, n).value)
    decreases n
  {
    if m < n {
      RunKeepsBindings(ops, nodes, env, m, n - 1);
      StepKeepsBindings(ops, nodes, env, n - 1);
    }
  }

  lemma StepKeepsBindings(ops: Ops, nodes: seq<Node>, env: Env, n: nat)
    requires IsSsa(nodes, env.Keys) && n < |nodes| && RunTo(ops, nodes, env, n + 1).Some?
    ensures Includes(RunTo(ops, nodes, env, n).value, RunTo(ops, nodes, env, n + 1).value)
  {
    var before := RunTo(ops, nodes, env, n).value;
    RunKeys(ops, nodes, env, n);
    forall k | k in before && k in nodes[n].outputs ensures k == "" {
      assert BoundOnce(nodes, env.Keys, k);
      assert k != "" ==> Binds(nodes, n, k);
    }
    BindKeepsBound(before, nodes[n].outputs, ops(nodes[n], ArgsOf(nodes[n], before)).value);
  }

  lemma {:induction false} BindKeepsBound(env: Env, names: seq<string>, values: seq<Tensor>)
    requires |names| == |values| && forall k :: k in env && k in names ==> k == ""
    ensures Includes(env, Bind(env, names, values))
  {
    if names != [] {
      var last := |names| - 1;
      assert names == names[..last] + [names[last]];
      BindKeepsBound(env, names[..last], values[..last]);
      assert names[last] in names;
    }
  }

  // At this point of a run, both nodes would do the same.
  ghost predicate StepsAlike(ops: Ops, a: seq<Node>, b: seq<Node>, env: Env, i: nat) {
    && i < |a| && i < |b|
    && (RunTo(ops, a, env, i).Some? ==>
          RunNode(ops, b[i], RunTo(ops, a, env, i).value) == RunNode(ops, a[i], RunTo(ops, a, env, i).value))
  }

  lemma {:induction false} StepsAlikeRunAlike(ops: Ops, a: seq<Node>, b: seq<Node>, env: Env, n: nat)
    requires n <= |a| && n <= |b|
    requires forall i: nat {:trigger StepsAlike(ops, a, b, env, i)} :: i < n ==> StepsAlike(ops, a, b, env, i)
    ensures RunTo(ops, b, env, n) == RunTo(ops, a, env, n)
    decreases n
  {
    if n > 0 {
      StepsAlikeRunAlike(ops, a, b, env, n - 1);
      assert StepsAlike(ops, a, b, env, n - 1);
    }
  }
}
