/**
 * A graph under construction: the initializers so far, the nodes so far and the running number
 * of the pass that emits them.
 */
module Drafts {
  import opened Options
  import opened Hiding
  import opened TensorValues
  import opened Broadcasting
  import opened OnnxGraph
  import opened GraphRuns
  import opened LoweredNames

  datatype Draft = Draft(naming: Naming, inits: map<string, Tensor>, nodes: seq<Node>, uid: nat) {
    function Numbered(): (d: Draft) {
      this.(uid := uid + 1)
    }

    function WithInit(name: string, t: Tensor): (d: Draft) {
      this.(inits := inits[name := t])
    }

    function WithNode(node: Node): (d: Draft) {
      this.(nodes := nodes + [node])
    }
  }

  // --- Names ----------------------------------------------------------------------------------

  ghost predicate Defined(d: Draft, bound: set<string>, k: string) {
    k in bound || k in d.inits || BoundBefore(d.nodes, |d.nodes|, k)
  }

  ghost predicate IsNumbered(prefix: string, uid: nat, k: string) {
    exists id: nat :: id <= uid && IsLowered(prefix, k, id)
  }

  ghost predicate IsKnownName(own: set<string>, bound: set<string>, d: Draft, k: string) {
    && (Defined(d, bound, k) ==> k in own || IsNumbered(d.naming.prefix, d.uid, k))
    && (k in own ==> !IsReserved(d.naming.prefix, k))
  }

  // Every name is the graph's own or carries a number already given out, and nothing is bound
  // twice.
  ghost predicate Clean(own: set<string>, bound: set<string>, d: Draft) {
    && IsSsa(d.nodes, bound + d.inits.Keys)
    && (forall k {:trigger IsKnownName(own, bound, d, k)} :: IsKnownName(own, bound, d, k))
  }

  lemma FreshName(own: set<string>, bound: set<string>, d: Draft, name: string, id: nat)
    requires Clean(own, bound, d) && IsLowered(d.naming.prefix, name, id) && d.uid < id
    ensures !Defined(d, bound, name) && name != "" && name !in own
  {
    LoweredIsReserved(d.naming.prefix, name, id);
    assert IsKnownName(own, bound, d, name);
    if Defined(d, bound, name) {
      var j: nat :| j <= d.uid && IsLowered(d.naming.prefix, name, j);
      NumbersKeepApart(d.naming.prefix, name, id, j);
    }
  }

  lemma NumberedIsClean(own: set<string>, bound: set<string>, d: Draft)
    requires Clean(own, bound, d)
    ensures Clean(own, bound, d.Numbered())
  {
    var d' := d.Numbered();
    forall k ensures IsKnownName(own, bound, d', k) {
      assert IsKnownName(own, bound, d, k);
      assert Defined(d', bound, k) <==> Defined(d, bound, k);
    }
  }

  lemma WithInitDefines(bound: set<string>, d: Draft, name: string, t: Tensor)
    ensures forall k {:trigger Defined(d.WithInit(name, t), bound, k)} {:trigger Defined(d, bound, k)} ::
      Defined(d.WithInit(name, t), bound, k) <==> Defined(d, bound, k) || k == name
  {
  }

  lemma WithNodeDefines(bound: set<string>, d: Draft, node: Node)
    ensures forall k {:trigger Defined(d.WithNode(node), bound, k)} {:trigger Defined(d, bound, k)} ::
      Defined(d.WithNode(node), bound, k) <==> Defined(d, bound, k) || (k in node.outputs && k != "")
  {
    var d' := d.WithNode(node);
    forall i: nat, k ensures Binds(d'.nodes, i, k) <==>
        Binds(d.nodes, i, k) || (i == |d.nodes| && k in node.outputs && k != "") {
    }
    forall k {:trigger Defined(d', bound, k)}
      ensures Defined(d', bound, k) <==> Defined(d, bound, k) || (k in node.outputs && k != "")
    {
      if k in node.outputs && k != "" {
        assert Binds(d'.nodes, |d.nodes|, k);
      }
      if BoundBefore(d.nodes, |d.nodes|, k) {
        var i: nat :| i < |d.nodes| && Binds(d.nodes, i, k);
        assert Binds(d'.nodes, i, k);
      }
      if BoundBefore(d'.nodes, |d'.nodes|, k) {
        var i: nat :| i < |d'.nodes| && Binds(d'.nodes, i, k);
        assert i < |d.nodes| ==> Binds(d.nodes, i, k);
      }
    }
  }

  lemma WithInitIsClean(own: set<string>, bound: set<string>, d: Draft, name: string, t: Tensor)
    requires Clean(own, bound, d) && !Defined(d, bound, name) && IsNumbered(d.naming.prefix, d.uid, name)
    ensures Clean(own, bound, d.WithInit(name, t))
  {
    WithInitDefines(bound, d, name, t);
    var d' := d.WithInit(name, t);
    forall k ensures IsKnownName(own, bound, d', k) {
      assert IsKnownName(own, bound, d, k);
      assert Defined(d', bound, k) <==> Defined(d, bound, k) || k == name;
    }
    forall k ensures BoundOnce(d'.nodes, bound + d'.inits.Keys, k) {
      assert BoundOnce(d.nodes, bound + d.inits.Keys, k);
      forall i: nat | Binds(d.nodes, i, k) ensures Defined(d, bound, k) {
        assert BoundBefore(d.nodes, |d.nodes|, k);
      }
    }
  }

  lemma WithNodeIsClean(own: set<string>, bound: set<string>, d: Draft, node: Node)
    requires Clean(own, bound, d)
    requires forall k :: k in node.outputs && k != "" ==>
        !Defined(d, bound, k) && (k in own || IsNumbered(d.naming.prefix, d.uid, k))
    ensures Clean(own, bound, d.WithNode(node))
  {
    WithNodeDefines(bound, d, node);
    var d' := d.WithNode(node);
    forall k ensures IsKnownName(own, bound, d', k) {
      assert IsKnownName(own, bound, d, k);
      assert Defined(d', bound, k) <==> Defined(d, bound, k) || (k in node.outputs && k != "");
    }
    forall k ensures BoundOnce(d'.nodes, bound + d'.inits.Keys, k) {
      assert BoundOnce(d.nodes, bound + d.inits.Keys, k);
      forall i: nat | Binds(d'.nodes, i, k)
        ensures if i < |d.nodes| then Binds(d.nodes, i, k) && Defined(d, bound, k)
                else i == |d.nodes| && !Defined(d, bound, k)
      {
        if i < |d.nodes| {
          assert Binds(d.nodes, i, k);
          assert BoundBefore(d.nodes, |d.nodes|, k);
        }
      }
    }
  }

  // --- Runs -----------------------------------------------------------------------------------

  // Run on the given graph inputs, the draft binds exactly env.
  ghost predicate Yields(ops: Ops, given: Env, d: Draft, env: Env) {
    RunNodes(ops, d.nodes, given + d.inits) == Some(env)
  }

  lemma YieldedNames(ops: Ops, given: Env, d: Draft, env: Env)
    requires Yields(ops, given, d, env)
    ensures forall k {:trigger Defined(d, given.Keys, k)} :: k in env <==> Defined(d, given.Keys, k)
  {
    RunKeys(ops, d.nodes, given + d.inits, |d.nodes|);
  }

  lemma WithInitYields(ops: Ops, given: Env, d: Draft, env: Env, name: string, t: Tensor)
    requires Yields(ops, given, d, env) && !Defined(d, given.Keys, name) && name != ""
    ensures Yields(ops, given, d.WithInit(name, t), env[name := t]) && Includes(env, env[name := t])
  {
    YieldedNames(ops, given, d, env);
    RunElsewhere(ops, d.nodes, given + d.inits, |d.nodes|, name, t);
    assert given + d.inits[name := t] == (given + d.inits)[name := t];
  }

  lemma WithNodeYields(ops: Ops, given: Env, d: Draft, env: Env, node: Node)
    requires Yields(ops, given, d, env) && RunNode(ops, node, env).Some?
    ensures Yields(ops, given, d.WithNode(node), RunNode(ops, node, env).value)
  {
    RunAppended(ops, d.nodes, node, given + d.inits);
  }

  // --- Both at once ---------------------------------------------------------------------------

  ghost predicate GoodFacts(ops: Ops, own: set<string>, given: Env, d: Draft, env: Env, u: Unfolding) {
    Clean(own, given.Keys, d) && Yields(ops, given, d, env)
  }

  ghost predicate Good(ops: Ops, own: set<string>, given: Env, d: Draft, env: Env) {
    forall u {:trigger GoodFacts(ops, own, given, d, env, u)} :: GoodFacts(ops, own, given, d, env, u)
  }

  lemma GoodUnfolds(ops: Ops, own: set<string>, given: Env, d: Draft, env: Env)
    requires Good(ops, own, given, d, env)
    ensures Clean(own, given.Keys, d) && Yields(ops, given, d, env)
  {
    assert GoodFacts(ops, own, given, d, env, Unfolded);
  }

  lemma GoodFolds(ops: Ops, own: set<string>, given: Env, d: Draft, env: Env)
    requires Clean(own, given.Keys, d) && Yields(ops, given, d, env)
    ensures Good(ops, own, given, d, env)
  {
    forall u ensures GoodFacts(ops, own, given, d, env, u) {
    }
  }

  lemma NumberedIsGood(ops: Ops, own: set<string>, given: Env, d: Draft, env: Env)
    requires Good(ops, own, given, d, env)
    ensures Good(ops, own, given, d.Numbered(), env)
    ensures forall k {:trigger Defined(d, given.Keys, k)} {:trigger Defined(d.Numbered(), given.Keys, k)} ::
        Defined(d.Numbered(), given.Keys, k) <==> Defined(d, given.Keys, k)
  {
    GoodUnfolds(ops, own, given, d, env);
    NumberedIsClean(own, given.Keys, d);
    GoodFolds(ops, own, given, d.Numbered(), env);
  }

  // A fresh initializer.
  lemma StoreIsGood(ops: Ops, own: set<string>, given: Env, d: Draft, env: Env, name: string, t: Tensor)
    requires Good(ops, own, given, d, env)
    requires !Defined(d, given.Keys, name) && IsLowered(d.naming.prefix, name, d.uid)
    ensures Good(ops, own, given, d.WithInit(name, t), env[name := t])
    ensures Includes(env, env[name := t])
    ensures forall k {:trigger Defined(d, given.Keys, k)} {:trigger Defined(d.WithInit(name, t), given.Keys, k)} ::
        Defined(d.WithInit(name, t), given.Keys, k) <==> Defined(d, given.Keys, k) || k == name
  {
    GoodUnfolds(ops, own, given, d, env);
    LoweredIsReserved(d.naming.prefix, name, d.uid);
    WithInitIsClean(own, given.Keys, d, name, t);
    WithInitYields(ops, given, d, env, name, t);
    WithInitDefines(given.Keys, d, name, t);
    GoodFolds(ops, own, given, d.WithInit(name, t), env[name := t]);
  }

  // A node with one fresh output, or one of the graph's own not yet made.
  lemma EmitIsGood(ops: Ops, own: set<string>, given: Env, d: Draft, env: Env, node: Node, t: Tensor)
    requires Good(ops, own, given, d, env) && |node.outputs| == 1 && node.outputs[0] != ""
    requires !Defined(d, given.Keys, node.outputs[0])
    requires node.outputs[0] in own || IsLowered(d.naming.prefix, node.outputs[0], d.uid)
    requires InputsAreBound(node, env) && ops(node, ArgsOf(node, env)) == Some([t])
    ensures Good(ops, own, given, d.WithNode(node), env[node.outputs[0] := t])
    ensures Includes(env, env[node.outputs[0] := t])
    ensures forall k {:trigger Defined(d, given.Keys, k)} {:trigger Defined(d.WithNode(node), given.Keys, k)} ::
        Defined(d.WithNode(node), given.Keys, k) <==> Defined(d, given.Keys, k) || k == node.outputs[0]
  {
    var name := node.outputs[0];
    GoodUnfolds(ops, own, given, d, env);
    assert node.outputs == [name];
    BindOne(env, name, t);
    WithNodeYields(ops, given, d, env, node);
    WithNodeIsClean(own, given.Keys, d, node);
    WithNodeDefines(given.Keys, d, node);
    YieldedNames(ops, given, d, env);
    GoodFolds(ops, own, given, d.WithNode(node), env[name := t]);
  }
}
