/**
 * Emitting a helper node whose inputs are bound: what the node computes becomes bound to its name.
 */
module Emission {
  import opened Options
  import opened Hiding
  import opened TensorValues
  import opened Broadcasting
  import opened OnnxGraph
  import opened GraphRuns
  import opened LoweredNames
  import opened Drafts

  // --- What the helpers compute ---------------------------------------------------------------

  ghost predicate LinkFacts(op: BinaryOp, dtype: DType, a: Tensor, b: Tensor, c: Tensor, u: Unfolding) {
    a.dtype == dtype && Zipped(Fitted(op, dtype), a, b) == Some(c)
  }

  // The operator combines a and b into c.
  ghost predicate IsLink(op: BinaryOp, dtype: DType, a: Tensor, b: Tensor, c: Tensor) {
    forall u {:trigger LinkFacts(op, dtype, a, b, c, u)} :: LinkFacts(op, dtype, a, b, c, u)
  }

  lemma LinkFolds(op: BinaryOp, dtype: DType, a: Tensor, b: Tensor, c: Tensor)
    requires a.dtype == dtype && Zipped(Fitted(op, dtype), a, b) == Some(c)
    ensures IsLink(op, dtype, a, b, c)
  {
    forall u ensures LinkFacts(op, dtype, a, b, c, u) {
    }
  }

  ghost predicate ChangeFacts(op: Op, to: Option<int>, a: Tensor, c: Tensor, u: Unfolding) {
    || (op.Cast? && to.Some? && c == Casted(a, TypeOfCode(to.value)))
    || (op.Round? && c == RoundedTensor(a)) || (op.Identity? && c == a)
  }

  // The operator of one input makes c of a.
  ghost predicate IsChange(op: Op, to: Option<int>, a: Tensor, c: Tensor) {
    forall u {:trigger ChangeFacts(op, to, a, c, u)} :: ChangeFacts(op, to, a, c, u)
  }

  lemma ChangeFolds(op: Op, to: Option<int>, a: Tensor, c: Tensor)
    requires ChangeFacts(op, to, a, c, Unfolded)
    ensures IsChange(op, to, a, c)
  {
    forall u ensures ChangeFacts(op, to, a, c, u) {
    }
  }

  ghost predicate ReshapeFacts(a: Tensor, shape: Tensor, c: Tensor, u: Unfolding) {
    ReshapeMeaning([Some(a), Some(shape)]) == Means(Some(c))
  }

  ghost predicate IsReshape(a: Tensor, shape: Tensor, c: Tensor) {
    forall u {:trigger ReshapeFacts(a, shape, c, u)} :: ReshapeFacts(a, shape, c, u)
  }

  ghost predicate RunsLink(ops: Ops, node: Node, dtype: DType, args: Args, a: Tensor, b: Tensor, c: Tensor) {
    && IsBinary(node.op) && node.domain.Main? && args == [Some(a), Some(b)]
    && IsLink(OperatorOf(node.op), dtype, a, b, c) && (node.op.Div? ==> IsFloating(dtype))
    ==> ops(node, args) == Some([c])
  }

  ghost predicate RunsChange(ops: Ops, node: Node, args: Args, a: Tensor, c: Tensor) {
    && node.domain.Main? && args == [Some(a)] && IsChange(node.op, node.attributes.to, a, c)
    ==> ops(node, args) == Some([c])
  }

  ghost predicate RunsReshape(ops: Ops, node: Node, args: Args, a: Tensor, shape: Tensor, c: Tensor) {
    && node.op.Reshape? && node.domain.Main? && args == [Some(a), Some(shape)] && IsReshape(a, shape, c)
    ==> ops(node, args) == Some([c])
  }

  // All that the helpers need of the operators.
  ghost predicate RunsHelpers(ops: Ops) {
    && (forall node, dtype, args, a, b, c {:trigger RunsLink(ops, node, dtype, args, a, b, c)} ::
          RunsLink(ops, node, dtype, args, a, b, c))
    && (forall node, args, a, c {:trigger RunsChange(ops, node, args, a, c)} :: RunsChange(ops, node, args, a, c))
    && (forall node, args, a, shape, c {:trigger RunsReshape(ops, node, args, a, shape, c)} ::
          RunsReshape(ops, node, args, a, shape, c))
  }

  lemma ConformingRunsLink(
    ops: Ops, byCode: bool, node: Node, dtype: DType, args: Args, a: Tensor, b: Tensor, c: Tensor)
    requires Conforms(ops, byCode)
    ensures RunsLink(ops, node, dtype, args, a, b, c)
  {
    if IsBinary(node.op) && IsLink(OperatorOf(node.op), dtype, a, b, c) {
      assert LinkFacts(OperatorOf(node.op), dtype, a, b, c, Unfolded);
      assert GivesBinary(ops, node, args);
    }
  }

  lemma ConformingRunsChange(ops: Ops, byCode: bool, node: Node, args: Args, a: Tensor, c: Tensor)
    requires Conforms(ops, byCode)
    ensures RunsChange(ops, node, args, a, c)
  {
    if args == [Some(a)] && IsChange(node.op, node.attributes.to, a, c) {
      assert ChangeFacts(node.op, node.attributes.to, a, c, Unfolded);
      assert GivesCast(ops, node, args);
      assert GivesUnary(ops, node, args);
    }
  }

  lemma ConformingRunsReshape(ops: Ops, byCode: bool, node: Node, args: Args, a: Tensor, shape: Tensor, c: Tensor)
    requires Conforms(ops, byCode)
    ensures RunsReshape(ops, node, args, a, shape, c)
  {
    if IsReshape(a, shape, c) {
      assert ReshapeFacts(a, shape, c, Unfolded);
      assert GivesReshape(ops, node, args);
    }
  }

  lemma ConformingRunsHelpers(ops: Ops, byCode: bool)
    requires Conforms(ops, byCode)
    ensures RunsHelpers(ops)
  {
    forall node, dtype, args, a, b, c ensures RunsLink(ops, node, dtype, args, a, b, c) {
      ConformingRunsLink(ops, byCode, node, dtype, args, a, b, c);
    }
    forall node, args, a, c ensures RunsChange(ops, node, args, a, c) {
      ConformingRunsChange(ops, byCode, node, args, a, c);
    }
    forall node, args, a, shape, c ensures RunsReshape(ops, node, args, a, shape, c) {
      ConformingRunsReshape(ops, byCode, node, args, a, shape, c);
    }
  }

  // --- Names ----------------------------------------------------------------------------------

  ghost predicate IsFresh(own: set<string>, given: Env, d: Draft, name: string) {
    !Defined(d, given.Keys, name) && name != "" && name !in own && IsLowered(d.naming.prefix, name, d.uid)
  }

  lemma NumberedNameIsFresh(
    ops: Ops, own: set<string>, given: Env, d: Draft, env: Env, base: string, suffix: string, id: nat)
    requires Good(ops, own, given, d, env) && IsNaming(d.naming) && id == d.uid + 1
    ensures IsFresh(own, given, d.Numbered(), d.naming.name(base, suffix, id))
  {
    GoodUnfolds(ops, own, given, d, env);
    NumberedIsGood(ops, own, given, d, env);
    FreshName(own, given.Keys, d, d.naming.name(base, suffix, id), id);
  }

  ghost predicate BoundTo(env: Env, name: string, t: Tensor) {
    name in env && name != "" && env[name] == t
  }

  // A name that may be bound now: one of the graph's own that is not, or a helper's.
  ghost predicate IsNew(own: set<string>, given: Env, d: Draft, name: string) {
    !Defined(d, given.Keys, name) && name != "" && (name in own || IsLowered(d.naming.prefix, name, d.uid))
  }

  // --- What stays -----------------------------------------------------------------------------

  ghost predicate KeepsFacts(own: set<string>, env: Env, env': Env, u: Unfolding) {
    Includes(env, env') && forall k {:trigger k in env'} :: k in own && k in env' ==> k in env
  }

  // What was bound stays bound, and only names of helpers are new.
  ghost predicate Keeps(own: set<string>, env: Env, env': Env) {
    forall u {:trigger KeepsFacts(own, env, env', u)} :: KeepsFacts(own, env, env', u)
  }

  lemma KeepsFolds(own: set<string>, env: Env, env': Env, name: string)
    requires Grows(own, name, env, env') && name !in own
    ensures Keeps(own, env, env')
  {
    forall u ensures KeepsFacts(own, env, env', u) {
    }
  }

  lemma KeepsItself(own: set<string>, env: Env)
    ensures Keeps(own, env, env)
  {
    forall u ensures KeepsFacts(own, env, env, u) {
    }
  }

  lemma KeepsThrough(own: set<string>, a: Env, b: Env, c: Env)
    requires Keeps(own, a, b) && Keeps(own, b, c)
    ensures Keeps(own, a, c)
  {
    assert KeepsFacts(own, a, b, Unfolded) && KeepsFacts(own, b, c, Unfolded);
    IncludesThrough(a, b, c);
    forall u ensures KeepsFacts(own, a, c, u) {
    }
  }

  lemma KeepsBound(own: set<string>, env: Env, env': Env, name: string, t: Tensor)
    requires Keeps(own, env, env') && BoundTo(env, name, t)
    ensures BoundTo(env', name, t)
  {
    assert KeepsFacts(own, env, env', Unfolded);
  }

  lemma KeepsUnbound(own: set<string>, env: Env, env': Env, name: string)
    requires Keeps(own, env, env') && name in own && name !in env && name != ""
    ensures name !in env'
  {
    assert KeepsFacts(own, env, env', Unfolded);
  }

  lemma KeepsThenGrows(own: set<string>, out: string, a: Env, b: Env, c: Env)
    requires Keeps(own, a, b) && Grows(own, out, b, c)
    ensures Grows(own, out, a, c)
  {
    assert KeepsFacts(own, a, b, Unfolded);
    IncludesThrough(a, b, c);
  }

  // --- Emitting -------------------------------------------------------------------------------

  // a and b, combined by the node, become `name`.
  lemma LinkIsGood(
    ops: Ops, own: set<string>, given: Env, d: Draft, env: Env, link: Node, dtype: DType, a: string, b: string,
    name: string, t: Tensor)
    returns (env': Env)
    requires RunsHelpers(ops) && Good(ops, own, given, d, env) && IsNew(own, given, d, name)
    requires IsBinary(link.op) && link.domain.Main? && link.inputs == [a, b] && link.outputs == [name]
    requires a != "" && b != "" && a in env && b in env && IsLink(OperatorOf(link.op), dtype, env[a], env[b], t)
    requires link.op.Div? ==> IsFloating(dtype)
    ensures Good(ops, own, given, d.WithNode(link), env') && Grows(own, name, env, env') && BoundTo(env', name, t)
    ensures forall k {:trigger Defined(d.WithNode(link), given.Keys, k)} ::
        Defined(d.WithNode(link), given.Keys, k) <==> Defined(d, given.Keys, k) || k == name
  {
    TwoArgs(link, env, a, b);
    assert RunsLink(ops, link, dtype, ArgsOf(link, env), env[a], env[b], t);
    EmitIsGood(ops, own, given, d, env, link, t);
    env' := env[name := t];
  }

  // a, changed by the node, becomes `name`.
  lemma ChangeIsGood(
    ops: Ops, own: set<string>, given: Env, d: Draft, env: Env, node: Node, a: string, name: string, t: Tensor)
    returns (env': Env)
    requires RunsHelpers(ops) && Good(ops, own, given, d, env) && IsNew(own, given, d, name)
    requires node.domain.Main? && node.inputs == [a] && node.outputs == [name]
    requires a != "" && a in env && IsChange(node.op, node.attributes.to, env[a], t)
    ensures Good(ops, own, given, d.WithNode(node), env') && Grows(own, name, env, env') && BoundTo(env', name, t)
    ensures forall k {:trigger Defined(d.WithNode(node), given.Keys, k)} ::
        Defined(d.WithNode(node), given.Keys, k) <==> Defined(d, given.Keys, k) || k == name
  {
    OneArg(node, env, a);
    assert RunsChange(ops, node, ArgsOf(node, env), env[a], t);
    EmitIsGood(ops, own, given, d, env, node, t);
    env' := env[name := t];
  }

  lemma ReshapeIsGood(
    ops: Ops, own: set<string>, given: Env, d: Draft, env: Env, node: Node, a: string, shape: string, name: string,
    t: Tensor)
    returns (env': Env)
    requires RunsHelpers(ops) && Good(ops, own, given, d, env) && IsNew(own, given, d, name)
    requires node.op.Reshape? && node.domain.Main? && node.inputs == [a, shape] && node.outputs == [name]
    requires a != "" && shape != "" && a in env && shape in env && IsReshape(env[a], env[shape], t)
    ensures Good(ops, own, given, d.WithNode(node), env') && Grows(own, name, env, env') && BoundTo(env', name, t)
    ensures forall k {:trigger Defined(d.WithNode(node), given.Keys, k)} ::
        Defined(d.WithNode(node), given.Keys, k) <==> Defined(d, given.Keys, k) || k == name
  {
    TwoArgs(node, env, a, shape);
    assert RunsReshape(ops, node, ArgsOf(node, env), env[a], env[shape], t);
    EmitIsGood(ops, own, given, d, env, node, t);
    env' := env[name := t];
  }
}
