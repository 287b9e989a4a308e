/**
 * A pass that goes through the nodes in order, keeping some and replacing others, follows a run
 * of the graph: whatever the run has bound, what the pass has emitted binds alike.
 */
module Following {
  import opened Options
  import opened Hiding
  import opened TensorValues
  import opened Broadcasting
  import opened OnnxGraph
  import opened GraphRuns
  import opened LoweredNames
  import opened Drafts
  import opened Emission

  // What is asked of the graph: single assignment, `own` has all its names, and none of them looks
  // like a helper's.
  ghost predicate IsNamedGraph(own: set<string>, naming: Naming, nodes: seq<Node>, bound: set<string>) {
    && IsNaming(naming) && IsSsa(nodes, bound) && bound <= own && "" !in bound
    && (forall i: nat, k {:trigger Binds(nodes, i, k)} :: Binds(nodes, i, k) ==> k in own)
    && (forall k {:trigger IsReserved(naming.prefix, k)} :: k in own ==> !IsReserved(naming.prefix, k))
  }

  ghost predicate IsOwnBefore(own: set<string>, start: Env, nodes: seq<Node>, n: nat, env: Env, k: string) {
    k in own && k in env ==> k in start || BoundBefore(nodes, n, k)
  }

  ghost predicate FollowsFacts(
    ops: Ops, own: set<string>, given: Env, start: Env, nodes: seq<Node>, n: nat, d: Draft, env: Env, u: Unfolding)
  {
    && n <= |nodes| && RunTo(ops, nodes, start, n).Some?
    && Good(ops, own, given, d, env)
    && Includes(RunTo(ops, nodes, start, n).value, env)
    && forall k {:trigger IsOwnBefore(own, start, nodes, n, env, k)} :: IsOwnBefore(own, start, nodes, n, env, k)
  }

  // Having gone through n nodes, the pass has emitted d, which binds env on the given inputs.
  ghost predicate Follows(
    ops: Ops, own: set<string>, given: Env, start: Env, nodes: seq<Node>, n: nat, d: Draft, env: Env)
  {
    forall u {:trigger FollowsFacts(ops, own, given, start, nodes, n, d, env, u)} ::
      FollowsFacts(ops, own, given, start, nodes, n, d, env, u)
  }

  lemma FollowsUnfolds(
    ops: Ops, own: set<string>, given: Env, start: Env, nodes: seq<Node>, n: nat, d: Draft, env: Env)
    requires Follows(ops, own, given, start, nodes, n, d, env)
    ensures FollowsFacts(ops, own, given, start, nodes, n, d, env, Unfolded)
  {
    assert FollowsFacts(ops, own, given, start, nodes, n, d, env, Unfolded);
  }

  lemma FollowsFolds(
    ops: Ops, own: set<string>, given: Env, start: Env, nodes: seq<Node>, n: nat, d: Draft, env: Env)
    requires FollowsFacts(ops, own, given, start, nodes, n, d, env, Unfolded)
    ensures Follows(ops, own, given, start, nodes, n, d, env)
  {
    forall u ensures FollowsFacts(ops, own, given, start, nodes, n, d, env, u) {
    }
  }

  lemma PassStarts(
    ops: Ops, own: set<string>, given: Env, naming: Naming, nodes: seq<Node>, inits: map<string, Tensor>)
    requires IsNamedGraph(own, naming, nodes, (given + inits).Keys)
    ensures Follows(ops, own, given, given + inits, nodes, 0, Draft(naming, inits, [], 0), given + inits)
  {
    var d, start := Draft(naming, inits, [], 0), given + inits;
    forall k ensures IsKnownName(own, given.Keys, d, k) {
      assert !IsReserved(naming.prefix, k) || k !in own;
    }
    forall k ensures BoundOnce(d.nodes, given.Keys + d.inits.Keys, k) {
    }
    GoodFolds(ops, own, given, d, start);
    forall k ensures IsOwnBefore(own, start, nodes, 0, start, k) {
    }
    FollowsFolds(ops, own, given, start, nodes, 0, d, start);
  }

  // The names node n is about to bind are still unbound.
  lemma OutputsAreNew(
    ops: Ops, own: set<string>, given: Env, start: Env, nodes: seq<Node>, n: nat, d: Draft, env: Env, naming: Naming,
    k: string)
    requires IsNamedGraph(own, naming, nodes, start.Keys) && Follows(ops, own, given, start, nodes, n, d, env)
    requires Binds(nodes, n, k)
    ensures k in own && k !in env && !Defined(d, given.Keys, k)
  {
    FollowsUnfolds(ops, own, given, start, nodes, n, d, env);
    GoodUnfolds(ops, own, given, d, env);
    YieldedNames(ops, given, d, env);
    assert IsOwnBefore(own, start, nodes, n, env, k) && BoundOnce(nodes, start.Keys, k);
    assert k in env <==> Defined(d, given.Keys, k);
  }

  // A node that is kept.
  lemma KeptNodeFollows(
    ops: Ops, own: set<string>, given: Env, start: Env, nodes: seq<Node>, n: nat, d: Draft, env: Env, naming: Naming)
    returns (env': Env)
    requires IsNamedGraph(own, naming, nodes, start.Keys) && Follows(ops, own, given, start, nodes, n, d, env)
    requires n < |nodes| && RunTo(ops, nodes, start, n + 1).Some?
    ensures Follows(ops, own, given, start, nodes, n + 1, d.WithNode(nodes[n]), env')
  {
    FollowsUnfolds(ops, own, given, start, nodes, n, d, env);
    var node, before := nodes[n], RunTo(ops, nodes, start, n).value;
    RunNodeIncludes(ops, node, before, env);
    env' := RunNode(ops, node, env).value;
    GoodUnfolds(ops, own, given, d, env);
    forall k | k in node.outputs && k != "" ensures !Defined(d, given.Keys, k) && k in own {
      assert Binds(nodes, n, k);
      OutputsAreNew(ops, own, given, start, nodes, n, d, env, naming, k);
    }
    WithNodeIsClean(own, given.Keys, d, node);
    WithNodeYields(ops, given, d, env, node);
    GoodFolds(ops, own, given, d.WithNode(node), env');
    RunNodeKeys(ops, node, env);
    var next := n + 1;
    forall k ensures IsOwnBefore(own, start, nodes, next, env', k) {
      assert IsOwnBefore(own, start, nodes, n, env, k);
      BoundOneLater(nodes, n, k);
    }
    FollowsFolds(ops, own, given, start, nodes, next, d.WithNode(node), env');
  }

  lemma BoundOneLater(nodes: seq<Node>, n: nat, k: string)
    requires n < |nodes|
    ensures BoundBefore(nodes, n + 1, k) <==> BoundBefore(nodes, n, k) || (k in nodes[n].outputs && k != "")
  {
    if k in nodes[n].outputs && k != "" {
      assert Binds(nodes, n, k);
    }
  }

  // Helpers emitted beside.
  lemma ExtraFollows(
    ops: Ops, own: set<string>, given: Env, start: Env, nodes: seq<Node>, n: nat, d: Draft, env: Env, d': Draft, env': Env)
    requires Follows(ops, own, given, start, nodes, n, d, env) && Good(ops, own, given, d', env') && Keeps(own, env, env')
    ensures Follows(ops, own, given, start, nodes, n, d', env')
  {
    FollowsUnfolds(ops, own, given, start, nodes, n, d, env);
    assert KeepsFacts(own, env, env', Unfolded);
    IncludesThrough(RunTo(ops, nodes, start, n).value, env, env');
    forall k ensures IsOwnBefore(own, start, nodes, n, env', k) {
      assert IsOwnBefore(own, start, nodes, n, env, k);
    }
    FollowsFolds(ops, own, given, start, nodes, n, d', env');
  }

  // A node of one output that is replaced by nodes which bind that output to the same tensor.
  lemma LoweredNodeFollows(
    ops: Ops, own: set<string>, given: Env, start: Env, nodes: seq<Node>, n: nat, d: Draft, env: Env, d': Draft, env': Env,
    t: Tensor)
    requires Follows(ops, own, given, start, nodes, n, d, env) && n < |nodes|
    requires RunTo(ops, nodes, start, n + 1).Some? && |nodes[n].outputs| == 1 && nodes[n].outputs[0] != ""
    requires ops(nodes[n], ArgsOf(nodes[n], RunTo(ops, nodes, start, n).value)) == Some([t])
    requires Good(ops, own, given, d', env') && Grows(own, nodes[n].outputs[0], env, env')
    requires nodes[n].outputs[0] in env' && env'[nodes[n].outputs[0]] == t
    ensures Follows(ops, own, given, start, nodes, n + 1, d', env')
  {
    FollowsUnfolds(ops, own, given, start, nodes, n, d, env);
    var before, out := RunTo(ops, nodes, start, n).value, nodes[n].outputs[0];
    assert nodes[n].outputs == [out];
    BindOne(before, out, t);
    IncludesThrough(before, env, env');
    var next := n + 1;
    assert RunTo(ops, nodes, start, next).value == before[out := t];
    forall k ensures IsOwnBefore(own, start, nodes, next, env', k) {
      assert IsOwnBefore(own, start, nodes, n, env, k);
      BoundOneLater(nodes, n, k);
    }
    FollowsFolds(ops, own, given, start, nodes, next, d', env');
  }

  // Everything bound stays bound alike, and what is new has the name of a helper.
  ghost predicate AddsHelpers(own: set<string>, prefix: string, env: Env, env': Env) {
    && Includes(env, env')
    && forall k {:trigger k in env'} :: k in env' ==> k in env || (k !in own && k != "" && IsReserved(prefix, k))
  }

  // At the end: the emitted graph runs, and binds every tensor of the graph alike.
  lemma PassEnds(ops: Ops, own: set<string>, given: Env, start: Env, nodes: seq<Node>, d: Draft, env: Env)
    requires Follows(ops, own, given, start, nodes, |nodes|, d, env)
    ensures RunNodes(ops, nodes, start).Some? && RunNodes(ops, d.nodes, given + d.inits) == Some(env)
    ensures AddsHelpers(own, d.naming.prefix, RunNodes(ops, nodes, start).value, env)
    ensures IsSsa(d.nodes, given.Keys + d.inits.Keys)
  {
    FollowsUnfolds(ops, own, given, start, nodes, |nodes|, d, env);
    GoodUnfolds(ops, own, given, d, env);
    YieldedNames(ops, given, d, env);
    RunKeys(ops, nodes, start, |nodes|);
    var final := RunNodes(ops, nodes, start).value;
    forall k {:trigger k in env} | k in env && k !in final
      ensures k !in own && k != "" && IsReserved(d.naming.prefix, k)
    {
      assert IsKnownName(own, given.Keys, d, k) && Defined(d, given.Keys, k);
      assert IsOwnBefore(own, start, nodes, |nodes|, env, k);
      var id: nat :| id <= d.uid && IsLowered(d.naming.prefix, k, id);
      LoweredIsReserved(d.naming.prefix, k, id);
    }
  }
}
