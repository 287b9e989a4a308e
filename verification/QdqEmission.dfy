/**
 * The nodes emitted for a quantizing node, run after what the pass has emitted before, bind the
 * node's output to what the node gives.
 */
module QdqEmission {
  import opened Options
  import opened Hiding
  import opened TensorValues
  import opened Broadcasting
  import opened ParameterLayout
  import opened OnnxGraph
  import opened GraphRuns
  import opened LoweredNames
  import opened Drafts
  import opened Emission
  import opened QdqPolicy
  import opened QdqLowering
  import opened QdqRuns

  // --- One helper -----------------------------------------------------------------------------

  // The draft e, made from d, binds its tensor to t.
  ghost predicate Made(
    ops: Ops, own: set<string>, given: Env, d: Draft, env: Env, e: Emitted, env': Env, t: Tensor) {
    && Good(ops, own, given, e.draft, env') && e.draft.naming == d.naming
    && Keeps(own, env, env') && BoundTo(env', e.name, t)
  }

  lemma AppliedChange(
    ops: Ops, own: set<string>, given: Env, d: Draft, env: Env, node: Node, op: Op, to: Option<DType>, word: string,
    suffix: string, a: string, t: Tensor)
    returns (env': Env)
    requires RunsHelpers(ops) && Good(ops, own, given, d, env) && IsNaming(d.naming) && |node.outputs| == 1
    requires a in env && a != "" && IsChange(op, Target(to).to, env[a], t)
    ensures Made(ops, own, given, d, env, Applied(d, node, op, to, word, suffix, [a]), env', t)
  {
    var id := d.uid + 1;
    var name := d.naming.name(BaseOf(node), suffix, id);
    NumberedIsGood(ops, own, given, d, env);
    NumberedNameIsFresh(ops, own, given, d, env, BaseOf(node), suffix, id);
    var helper := HelperNode(node, op, to, d.naming.name(BaseOf(node), word, id), [a], name);
    env' := ChangeIsGood(ops, own, given, d.Numbered(), env, helper, a, name, t);
    KeepsFolds(own, env, env', name);
  }

  lemma AppliedLink(
    ops: Ops, own: set<string>, given: Env, d: Draft, env: Env, node: Node, op: Op, word: string, suffix: string,
    a: string, b: string, dtype: DType, t: Tensor)
    returns (env': Env)
    requires RunsHelpers(ops) && Good(ops, own, given, d, env) && IsNaming(d.naming) && |node.outputs| == 1
    requires a in env && a != "" && b in env && b != "" && IsBinary(op) && (op.Div? ==> IsFloating(dtype))
    requires IsLink(OperatorOf(op), dtype, env[a], env[b], t)
    ensures Made(ops, own, given, d, env, Applied(d, node, op, None, word, suffix, [a, b]), env', t)
  {
    var id := d.uid + 1;
    var name := d.naming.name(BaseOf(node), suffix, id);
    NumberedIsGood(ops, own, given, d, env);
    NumberedNameIsFresh(ops, own, given, d, env, BaseOf(node), suffix, id);
    var helper := HelperNode(node, op, None, d.naming.name(BaseOf(node), word, id), [a, b], name);
    env' := LinkIsGood(ops, own, given, d.Numbered(), env, helper, dtype, a, b, name, t);
    KeepsFolds(own, env, env', name);
  }

  lemma StoredNumbered(
    ops: Ops, own: set<string>, given: Env, d: Draft, env: Env, base: string, suffix: string, t: Tensor, id: nat)
    returns (env': Env)
    requires Good(ops, own, given, d, env) && IsNaming(d.naming) && id == d.uid + 1
    ensures var name := d.naming.name(base, suffix, id);
      Made(ops, own, given, d, env, Emitted(d.Numbered().WithInit(name, t), name), env', t)
  {
    var name := d.naming.name(base, suffix, id);
    NumberedIsGood(ops, own, given, d, env);
    NumberedNameIsFresh(ops, own, given, d, env, base, suffix, id);
    StoreIsGood(ops, own, given, d.Numbered(), env, name, t);
    env' := env[name := t];
    KeepsFolds(own, env, env', name);
  }

  // --- The last helper ------------------------------------------------------------------------

  // The output of the node is still to be made.
  ghost predicate IsOpen(own: set<string>, env: Env, name: string) {
    name in own && name !in env && name != ""
  }

  lemma OpenIsNew(ops: Ops, own: set<string>, given: Env, d: Draft, env: Env, name: string)
    requires Good(ops, own, given, d, env) && IsOpen(own, env, name)
    ensures IsNew(own, given, d, name)
  {
    GoodUnfolds(ops, own, given, d, env);
    YieldedNames(ops, given, d, env);
    assert name in env <==> Defined(d, given.Keys, name);
  }

  lemma FinishedChange(
    ops: Ops, own: set<string>, given: Env, d: Draft, env: Env, node: Node, op: Op, to: Option<DType>, base: string,
    word: string, a: string, t: Tensor)
    returns (env': Env)
    requires RunsHelpers(ops) && Good(ops, own, given, d, env) && |node.outputs| == 1 && IsOpen(own, env, node.outputs[0])
    requires a in env && a != "" && IsChange(op, Target(to).to, env[a], t)
    ensures Good(ops, own, given, Finished(d, node, op, to, base, word, [a]), env')
    ensures Grows(own, node.outputs[0], env, env') && BoundTo(env', node.outputs[0], t)
  {
    NumberedIsGood(ops, own, given, d, env);
    OpenIsNew(ops, own, given, d.Numbered(), env, node.outputs[0]);
    var helper := HelperNode(node, op, to, d.naming.name(base, word, d.uid + 1), [a], node.outputs[0]);
    env' := ChangeIsGood(ops, own, given, d.Numbered(), env, helper, a, node.outputs[0], t);
  }

  lemma FinishedLink(
    ops: Ops, own: set<string>, given: Env, d: Draft, env: Env, node: Node, op: Op, word: string,
    a: string, b: string, dtype: DType, t: Tensor)
    returns (env': Env)
    requires RunsHelpers(ops) && Good(ops, own, given, d, env) && |node.outputs| == 1 && IsOpen(own, env, node.outputs[0])
    requires a in env && a != "" && b in env && b != "" && IsBinary(op) && !op.Div?
    requires IsLink(OperatorOf(op), dtype, env[a], env[b], t)
    ensures Good(ops, own, given, Finished(d, node, op, None, BaseOf(node), word, [a, b]), env')
    ensures Grows(own, node.outputs[0], env, env') && BoundTo(env', node.outputs[0], t)
  {
    NumberedIsGood(ops, own, given, d, env);
    OpenIsNew(ops, own, given, d.Numbered(), env, node.outputs[0]);
    var helper := HelperNode(node, op, None, d.naming.name(BaseOf(node), word, d.uid + 1), [a, b], node.outputs[0]);
    env' := LinkIsGood(ops, own, given, d.Numbered(), env, helper, dtype, a, b, node.outputs[0], t);
  }

  lemma CastIsChange(to: DType, x: Tensor)
    ensures IsChange(Cast, Target(Some(to)).to, x, Casted(x, to))
  {
    ChangeFolds(Cast, Target(Some(to)).to, x, Casted(x, to));
  }

  lemma RoundIsChange(x: Tensor)
    ensures IsChange(Round, None, x, RoundedTensor(x))
  {
    ChangeFolds(Round, None, x, RoundedTensor(x));
  }

  lemma AppliedCast(
    ops: Ops, own: set<string>, given: Env, d: Draft, env: Env, node: Node, to: DType, word: string, suffix: string,
    a: string, x: Tensor)
    returns (env': Env)
    requires RunsHelpers(ops) && Good(ops, own, given, d, env) && IsNaming(d.naming) && |node.outputs| == 1
    requires BoundTo(env, a, x)
    ensures Made(ops, own, given, d, env, Applied(d, node, Cast, Some(to), word, suffix, [a]), env', Casted(x, to))
  {
    CastIsChange(to, x);
    env' := AppliedChange(ops, own, given, d, env, node, Cast, Some(to), word, suffix, a, Casted(x, to));
  }

  // --- Dequantizing ---------------------------------------------------------------------------

  // What the difference is of: x alone, or x and the zero point z.
  ghost predicate IsDifference(math: DType, x: Tensor, zero: Option<string>, z: Tensor, diff: Tensor) {
    if zero.None? then Casted(x, math) == diff
    else IsLink(Subtracting(), math, Casted(x, math), Casted(z, math), diff)
  }

  lemma DifferenceIsGood(
    ops: Ops, own: set<string>, given: Env, d: Draft, env: Env, node: Node, math: DType, zero: Option<string>,
    x: Tensor, z: Tensor, diff: Tensor)
    returns (env': Env)
    requires RunsHelpers(ops) && Good(ops, own, given, d, env) && IsNaming(d.naming)
    requires |node.outputs| == 1 && |node.inputs| >= 2 && BoundTo(env, node.inputs[0], x)
    requires (zero.Some? ==> BoundTo(env, zero.value, z)) && IsDifference(math, x, zero, z, diff)
    ensures Made(ops, own, given, d, env, Difference(d, node, math, zero), env', diff)
  {
    env' := AppliedCast(ops, own, given, d, env, node, math, "cast_input", "input_cast", node.inputs[0], x);
    if zero.Some? {
      var first := Applied(d, node, Cast, Some(math), "cast_input", "input_cast", [node.inputs[0]]);
      KeepsBound(own, env, env', zero.value, z);
      var e := AppliedCast(ops, own, given, first.draft, env', node, math, "cast_zero", "zero_cast", zero.value, z);
      var second := Applied(first.draft, node, Cast, Some(math), "cast_zero", "zero_cast", [zero.value]);
      KeepsBound(own, env', e, first.name, Casted(x, math));
      KeepsThrough(own, env, env', e);
      env' := AppliedLink(ops, own, given, second.draft, e, node, Sub, "sub", "shifted", first.name, second.name,
          math, diff);
      KeepsThrough(own, env, e, env');
    }
  }

  // The difference under the arithmetic's type.
  function Retyped(math: DType, arithmetic: DType, diff: Tensor): (t: Tensor) {
    if math == arithmetic then diff else Casted(diff, arithmetic)
  }

  lemma DequantizingIsGood(
    ops: Ops, own: set<string>, given: Env, d: Draft, env: Env, node: Node, math: DType, arithmetic: DType,
    scale: string, zero: Option<string>, x: Tensor, s: Tensor, z: Tensor, diff: Tensor, t: Tensor)
    returns (env': Env)
    requires RunsHelpers(ops) && Good(ops, own, given, d, env) && IsNaming(d.naming)
    requires |node.outputs| == 1 && |node.inputs| >= 2 && BoundTo(env, node.inputs[0], x) && BoundTo(env, scale, s)
    requires (zero.Some? ==> BoundTo(env, zero.value, z)) && IsDifference(math, x, zero, z, diff)
    requires IsLink(Multiplying(), arithmetic, Retyped(math, arithmetic, diff), s, t)
    requires IsOpen(own, env, node.outputs[0])
    ensures Good(ops, own, given, Dequantizing(d, node, math, arithmetic, scale, zero), env')
    ensures Grows(own, node.outputs[0], env, env') && BoundTo(env', node.outputs[0], t)
  {
    var e := DifferenceIsGood(ops, own, given, d, env, node, math, zero, x, z, diff);
    var m := Difference(d, node, math, zero);
    if math != arithmetic {
      var e' := AppliedCast(ops, own, given, m.draft, e, node, arithmetic, "cast_diff", "diff_cast", m.name, diff);
      KeepsThrough(own, env, e, e');
      m, e := Applied(m.draft, node, Cast, Some(arithmetic), "cast_diff", "diff_cast", [m.name]), e';
    }
    KeepsBound(own, env, e, scale, s);
    KeepsUnbound(own, env, e, node.outputs[0]);
    env' := FinishedLink(ops, own, given, m.draft, e, node, Mul, "mul", m.name, scale, arithmetic, t);
    KeepsThenGrows(own, node.outputs[0], env, e, env');
  }

  // --- Quantizing -----------------------------------------------------------------------------

  lemma QuotientIsGood(
    ops: Ops, own: set<string>, given: Env, d: Draft, env: Env, node: Node, arithmetic: DType, scale: string, x: Tensor,
    s: Tensor, q: Tensor)
    returns (env': Env)
    requires RunsHelpers(ops) && Good(ops, own, given, d, env) && IsNaming(d.naming)
    requires |node.outputs| == 1 && |node.inputs| >= 2 && BoundTo(env, node.inputs[0], x) && BoundTo(env, scale, s)
    requires IsFloating(arithmetic) && IsLink(Dividing(), arithmetic, Casted(x, arithmetic), s, q)
    ensures var e := Applied(d, node, Cast, Some(arithmetic), "cast_input", "input_cast", [node.inputs[0]]);
      Made(ops, own, given, d, env, Applied(e.draft, node, Div, None, "div_node", "div", [e.name, scale]), env', q)
  {
    var e := Applied(d, node, Cast, Some(arithmetic), "cast_input", "input_cast", [node.inputs[0]]);
    var e1 := AppliedCast(ops, own, given, d, env, node, arithmetic, "cast_input", "input_cast", node.inputs[0], x);
    KeepsBound(own, env, e1, scale, s);
    env' := AppliedLink(ops, own, given, e.draft, e1, node, Div, "div_node", "div", e.name, scale, arithmetic, q);
    KeepsThrough(own, env, e1, env');
  }

  lemma ShiftIsGood(
    ops: Ops, own: set<string>, given: Env, d: Draft, env: Env, node: Node, arithmetic: DType, quotient: string,
    zero: string, q: Tensor, z: Tensor, r: Tensor)
    returns (env': Env)
    requires RunsHelpers(ops) && Good(ops, own, given, d, env) && IsNaming(d.naming) && |node.outputs| == 1
    requires BoundTo(env, quotient, q) && BoundTo(env, zero, z)
    requires IsLink(Adding(), arithmetic, q, Casted(z, arithmetic), r)
    ensures var e := Applied(d, node, Cast, Some(arithmetic), "cast_zero", "zero_cast", [zero]);
      var e' := Applied(e.draft, node, Add, None, "add", "shifted", [quotient, e.name]);
      Made(ops, own, given, d, env, Applied(e'.draft, node, Round, None, "round", "rounded", [e'.name]), env',
          RoundedTensor(r))
  {
    var e := Applied(d, node, Cast, Some(arithmetic), "cast_zero", "zero_cast", [zero]);
    var e1 := AppliedCast(ops, own, given, d, env, node, arithmetic, "cast_zero", "zero_cast", zero, z);
    KeepsBound(own, env, e1, quotient, q);
    var e2 := AppliedLink(ops, own, given, e.draft, e1, node, Add, "add", "shifted", quotient, e.name, arithmetic, r);
    KeepsThrough(own, env, e1, e2);
    var e' := Applied(e.draft, node, Add, None, "add", "shifted", [quotient, e.name]);
    RoundIsChange(r);
    env' := AppliedChange(ops, own, given, e'.draft, e2, node, Round, None, "round", "rounded", e'.name, RoundedTensor(r));
    KeepsThrough(own, env, e2, env');
  }

  lemma LimitCastIsGood(
    ops: Ops, own: set<string>, given: Env, d: Draft, env: Env, node: Node, arithmetic: DType, word: string,
    suffix: string, limit: string, x: Tensor, id: nat)
    returns (env': Env)
    requires RunsHelpers(ops) && Good(ops, own, given, d, env) && IsNaming(d.naming) && |node.outputs| == 1
    requires BoundTo(env, limit, x) && id == d.uid + 1
    ensures Made(ops, own, given, d, env, LimitCast(d, node, arithmetic, word, suffix, limit), env', Casted(x, arithmetic))
  {
    var name, next := d.naming.name(BaseOf(node), suffix, id), id + 1;
    NumberedIsGood(ops, own, given, d, env);
    NumberedNameIsFresh(ops, own, given, d, env, BaseOf(node), suffix, id);
    CastIsChange(arithmetic, x);
    var helper := HelperNode(node, Cast, Some(arithmetic), d.naming.name(BaseOf(node), word, next), [limit], name);
    env' := ChangeIsGood(ops, own, given, d.Numbered(), env, helper, limit, name, Casted(x, arithmetic));
    KeepsFolds(own, env, env', name);
  }

  // Both limits stored and cast.
  datatype Limits = Limits(draft: Draft, low: string, high: string)

  function LimitsOf(d: Draft, node: Node, arithmetic: DType, output: DType): (l: Limits)
    requires |node.outputs| == 1
  {
    var low := LimitStored(d, node, "qmin", MinOf(output));
    var high := LimitStored(low.draft, node, "qmax", MaxOf(output));
    var lowCast := LimitCast(high.draft, node, arithmetic, "cast_qmin", "qmin_cast", low.name);
    var highCast := LimitCast(lowCast.draft, node, arithmetic, "cast_qmax", "qmax_cast", high.name);
    Limits(highCast.draft.Numbered(), lowCast.name, highCast.name)
  }

  lemma LimitsAreGood(
    ops: Ops, own: set<string>, given: Env, d: Draft, env: Env, node: Node, arithmetic: DType, output: DType)
    returns (env': Env)
    requires RunsHelpers(ops) && Good(ops, own, given, d, env) && IsNaming(d.naming) && |node.outputs| == 1
    requires IsFloating(arithmetic)
    ensures var l := LimitsOf(d, node, arithmetic, output);
      && Good(ops, own, given, l.draft, env') && l.draft.naming == d.naming && Keeps(own, env, env')
      && BoundTo(env', l.low, Tensor(arithmetic, [], [Fin(MinOf(output) as real)]))
      && BoundTo(env', l.high, Tensor(arithmetic, [], [Fin(MaxOf(output) as real)]))
  {
    var low := LimitStored(d, node, "qmin", MinOf(output));
    var e1 := StoredNumbered(ops, own, given, d, env, BaseOf(node), "qmin", Scalar(Int32, MinOf(output)), d.uid + 1);
    var high := LimitStored(low.draft, node, "qmax", MaxOf(output));
    var e2 := StoredNumbered(ops, own, given, low.draft, e1, BaseOf(node), "qmax", Scalar(Int32, MaxOf(output)), d.uid + 2);
    KeepsBound(own, e1, e2, low.name, Scalar(Int32, MinOf(output)));
    KeepsThrough(own, env, e1, e2);
    env' := LimitCastsAreGood(ops, own, given, high.draft, e2, node, arithmetic, output, low.name, high.name);
    KeepsThrough(own, env, e2, env');
  }

  lemma LimitCastsAreGood(
    ops: Ops, own: set<string>, given: Env, d: Draft, env: Env, node: Node, arithmetic: DType, output: DType,
    low: string, high: string)
    returns (env': Env)
    requires RunsHelpers(ops) && Good(ops, own, given, d, env) && IsNaming(d.naming) && |node.outputs| == 1
    requires BoundTo(env, low, Scalar(Int32, MinOf(output))) && BoundTo(env, high, Scalar(Int32, MaxOf(output)))
    requires IsFloating(arithmetic)
    ensures var lowCast := LimitCast(d, node, arithmetic, "cast_qmin", "qmin_cast", low);
      var highCast := LimitCast(lowCast.draft, node, arithmetic, "cast_qmax", "qmax_cast", high);
      && Good(ops, own, given, highCast.draft.Numbered(), env') && highCast.draft.naming == d.naming && Keeps(own,
          env, env')
      && BoundTo(env', lowCast.name, Tensor(arithmetic, [], [Fin(MinOf(output) as real)]))
      && BoundTo(env', highCast.name, Tensor(arithmetic, [], [Fin(MaxOf(output) as real)]))
  {
    LimitIsCast(arithmetic, MinOf(output));
    LimitIsCast(arithmetic, MaxOf(output));
    var lowest, highest := Scalar(Int32, MinOf(output)), Scalar(Int32, MaxOf(output));
    var lowCast := LimitCast(d, node, arithmetic, "cast_qmin", "qmin_cast", low);
    var e := LimitCastIsGood(ops, own, given, d, env, node, arithmetic, "cast_qmin", "qmin_cast", low, lowest, d.uid + 1);
    KeepsBound(own, env, e, high, highest);
    env' := LimitCastIsGood(ops, own, given, lowCast.draft, e, node, arithmetic, "cast_qmax", "qmax_cast", high, highest,
                            d.uid + 2);
    KeepsBound(own, e, env', lowCast.name, Casted(lowest, arithmetic));
    KeepsThrough(own, env, e, env');
    NumberedIsGood(ops, own, given, LimitCast(lowCast.draft, node, arithmetic, "cast_qmax", "qmax_cast", high).draft, env');
  }

  lemma SaturatingIsGood(
    ops: Ops, own: set<string>, given: Env, d: Draft, env: Env, node: Node, arithmetic: DType, output: DType,
    rounded: string, r: Tensor, t: Tensor)
    returns (env': Env)
    requires RunsHelpers(ops) && Good(ops, own, given, d, env) && IsNaming(d.naming) && |node.outputs| == 1
    requires BoundTo(env, rounded, r) && IsFloating(arithmetic) && r.dtype == arithmetic && |r.data| == Size(r.shape)
    requires t == Casted(WithCeiling(WithFloor(r, Fin(MinOf(output) as real)), Fin(MaxOf(output) as real)), output)
    requires IsOpen(own, env, node.outputs[0])
    ensures Good(ops, own, given, Saturating(d, node, arithmetic, output, rounded), env')
    ensures Grows(own, node.outputs[0], env, env') && BoundTo(env', node.outputs[0], t)
  {
    var low, high := Fin(MinOf(output) as real), Fin(MaxOf(output) as real);
    var l := LimitsOf(d, node, arithmetic, output);
    var e1 := LimitsAreGood(ops, own, given, d, env, node, arithmetic, output);
    KeepsBound(own, env, e1, rounded, r);
    FloorLink(r, low);
    var e2 := AppliedLink(ops, own, given, l.draft, e1, node, Max, "max", "clamped_min", rounded, l.low, arithmetic,
                          WithFloor(r, low));
    var atLeast := Applied(l.draft, node, Max, None, "max", "clamped_min", [rounded, l.low]);
    KeepsBound(own, e1, e2, l.high, Tensor(arithmetic, [], [high]));
    KeepsThrough(own, env, e1, e2);
    CeilingLink(WithFloor(r, low), high);
    var e3 := AppliedLink(ops, own, given, atLeast.draft, e2, node, Min, "min", "clamped", atLeast.name, l.high, arithmetic,
                          WithCeiling(WithFloor(r, low), high));
    var clamped := Applied(atLeast.draft, node, Min, None, "min", "clamped", [atLeast.name, l.high]);
    KeepsThrough(own, env, e2, e3);
    KeepsUnbound(own, env, e3, node.outputs[0]);
    CastIsChange(output, WithCeiling(WithFloor(r, low), high));
    env' := FinishedChange(ops, own, given, clamped.draft, e3, node, Cast, Some(output), BaseOf(node), "cast_output",
                           clamped.name, t);
    KeepsThenGrows(own, node.outputs[0], env, e3, env');
  }

  lemma QuantizingIsGood(
    ops: Ops, own: set<string>, given: Env, d: Draft, env: Env, node: Node, arithmetic: DType, output: DType,
    scale: string, zero: string, x: Tensor, s: Tensor, z: Tensor, q: Tensor, r: Tensor)
    returns (env': Env)
    requires RunsHelpers(ops) && Good(ops, own, given, d, env) && IsNaming(d.naming)
    requires |node.outputs| == 1 && |node.inputs| >= 2 && IsFloating(arithmetic) && IsOpen(own, env, node.outputs[0])
    requires BoundTo(env, node.inputs[0], x) && BoundTo(env, scale, s) && BoundTo(env, zero, z)
    requires IsLink(Dividing(), arithmetic, Casted(x, arithmetic), s, q)
    requires IsLink(Adding(), arithmetic, q, Casted(z, arithmetic), r)
    requires r.dtype == arithmetic && |r.data| == Size(r.shape)
    ensures Good(ops, own, given, Quantizing(d, node, arithmetic, output, scale, Some(zero)), env')
    ensures Grows(own, node.outputs[0], env, env')
    ensures BoundTo(env', node.outputs[0], Casted(ClampedQuotients(r, output), output))
  {
    var e := Applied(d, node, Cast, Some(arithmetic), "cast_input", "input_cast", [node.inputs[0]]);
    var e1 := QuotientIsGood(ops, own, given, d, env, node, arithmetic, scale, x, s, q);
    var div := Applied(e.draft, node, Div, None, "div_node", "div", [e.name, scale]);
    KeepsBound(own, env, e1, zero, z);
    var e2 := ShiftIsGood(ops, own, given, div.draft, e1, node, arithmetic, div.name, zero, q, z, r);
    KeepsThrough(own, env, e1, e2);
    KeepsUnbound(own, env, e2, node.outputs[0]);
    var rounded := RoundedQuotient(d, node, arithmetic, scale, Some(zero));
    env' := SaturatingIsGood(ops, own, given, rounded.draft, e2, node, arithmetic, output, rounded.name, RoundedTensor(r),
                             Casted(ClampedQuotients(r, output), output));
    KeepsThenGrows(own, node.outputs[0], env, e2, env');
  }
}
