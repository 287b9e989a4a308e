/**
 * Scales and zero points in the draft: whatever can be made to line up is bound under the name
 * handed over, and what has been emitted for a node that is then kept does no harm.
 */
module QdqParameters {
  import opened Options
  import opened Hiding
  import opened TensorValues
  import opened Broadcasting
  import opened ParameterLayout
  import opened OnnxGraph
  import opened GraphRuns
  import opened LoweredNames
  import opened Drafts
  import opened Emission
  import opened QdqPolicy
  import opened QdqLowering
  import opened QdqRuns
  import opened QdqEmission

  // --- Handing one parameter over -------------------------------------------------------------

  // The data is there, and some of it.
  predicate IsStored(p: Tensor) {
    |p.data| == Size(p.shape) && p.data != []
  }

  function LinedUp(site: Site, p: Tensor, a: Attributes): (t: Tensor)
    requires IsStored(p) && LayoutOf(site, p, a).Some?
  {
    HandedOver(p, LayoutOf(site, p, a).value, a.axis, BlockOf(a))
  }

  lemma ReshapeHolds(p: Tensor, shape: Shape)
    requires Size(shape) == |p.data| && 0 !in shape
    ensures IsReshape(p, ShapeVector(shape), p.(shape := shape))
  {
    var v: seq<int> := shape;
    var t, c := ShapeVector(v), p.(shape := shape);
    assert Integers(t).value == v;
    assert Naturals(v).value == shape;
    forall u ensures ReshapeFacts(p, t, c, u) {
    }
  }

  lemma VectorReshapes(site: Site, p: Tensor, a: Attributes)
    requires IsStored(p) && LayoutOf(site, p, a).Some? && LayoutOf(site, p, a).value.Reshaped?
    ensures IsReshape(p, ShapeVector(LayoutOf(site, p, a).value.shape), LinedUp(site, p, a))
  {
    var axis := Axis(a.axis, site.rank.value);
    VectorPosition([0], p.shape);
    OnesExceptSize(site.rank.value, axis, p.shape[0]);
    var shape := LayoutOf(site, p, a).value.shape;
    forall d | 0 <= d < |shape| ensures shape[d] != 0 {
    }
    ReshapeHolds(p, shape);
  }

  // A draft just numbered hands the parameter over.
  lemma HandingIsGood(
    ops: Ops, own: set<string>, given: Env, d: Draft, env: Env, node: Node, site: Site, what: string, name: string,
    p: Tensor, id: nat)
    returns (env': Env)
    requires RunsHelpers(ops) && Good(ops, own, given, d, env) && IsNaming(d.naming) && |node.outputs| == 1
    requires BoundTo(env, name, p) && IsStored(p) && LayoutOf(site, p, node.attributes).Some? && id == d.uid + 1
    ensures var h := LayoutOf(site, p, node.attributes).value;
      Made(ops, own, given, d, env,
           Emitted(WithHandover(d.Numbered(), node, what, name, p, h), HandedName(d.naming, node, what, name, h, id)),
           env', LinedUp(site, p, node.attributes))
  {
    var h := LayoutOf(site, p, node.attributes).value;
    var base := d.naming.name(BaseOf(node), what, id);
    if h.AsIs? {
      NumberedIsGood(ops, own, given, d, env);
      KeepsItself(own, env);
      env' := env;
    } else if h.Expanded? {
      env' := StoredNumbered(ops, own, given, d, env, base, "expanded", LinedUp(site, p, node.attributes), id);
    } else {
      VectorReshapes(site, p, node.attributes);
      env' := ReshapingIsGood(ops, own, given, d, env, node, base, name, ShapeVector(h.shape), p,
                              LinedUp(site, p, node.attributes), id);
    }
  }

  lemma ReshapingIsGood(
    ops: Ops, own: set<string>, given: Env, d: Draft, env: Env, node: Node, base: string, name: string, shape: Tensor,
    p: Tensor, t: Tensor, id: nat)
    returns (env': Env)
    requires RunsHelpers(ops) && Good(ops, own, given, d, env) && IsNaming(d.naming) && id == d.uid + 1
    requires BoundTo(env, name, p) && IsReshape(p, shape, t)
    ensures var vector, reshaped := d.naming.name(base, "reshape_shape", id), d.naming.name(base, "reshaped", id);
      var helper := HelperNode(node, Reshape, None, d.naming.name(base, "reshape", id), [name, vector], reshaped);
      Made(ops, own, given, d, env, Emitted(d.Numbered().WithInit(vector, shape).WithNode(helper), reshaped), env', t)
  {
    var vector, reshaped := d.naming.name(base, "reshape_shape", id), d.naming.name(base, "reshaped", id);
    var helper := HelperNode(node, Reshape, None, d.naming.name(base, "reshape", id), [name, vector], reshaped);
    var d1 := d.Numbered();
    var d2 := d1.WithInit(vector, shape);
    NumberedIsGood(ops, own, given, d, env);
    NumberedNameIsFresh(ops, own, given, d, env, base, "reshape_shape", id);
    NumberedNameIsFresh(ops, own, given, d, env, base, "reshaped", id);
    assert NamesApart(d.naming, base, "reshape_shape", "reshaped", id);
    StoreIsGood(ops, own, given, d1, env, vector, shape);
    var e := env[vector := shape];
    KeepsFolds(own, env, e, vector);
    KeepsBound(own, env, e, name, p);
    assert Defined(d2, given.Keys, reshaped) <==> Defined(d1, given.Keys, reshaped) || reshaped == vector;
    env' := ReshapeIsGood(ops, own, given, d2, e, helper, name, vector, reshaped, t);
    KeepsFolds(own, e, env', reshaped);
    KeepsThrough(own, env, e, env');
  }

  // --- All parameters of a node ---------------------------------------------------------------

  function ReadScale(s: Site, a: Attributes, arithmetic: DType): (t: Tensor)
    requires IsStored(s.scale) && LayoutOf(s, s.scale, a).Some?
  {
    var t := LinedUp(s, s.scale, a);
    if arithmetic == s.scale.dtype then t else Casted(t, arithmetic)
  }

  lemma PromotionKeepsLayout(s: Site, zero: Tensor, a: Attributes, arithmetic: DType)
    ensures LayoutOf(s, PromotedZero(zero, arithmetic), a) == LayoutOf(s, zero, a)
    ensures IsStored(PromotedZero(zero, arithmetic)) <==> IsStored(zero)
  {
  }

  function ReadZero(s: Site, a: Attributes, arithmetic: DType): (t: Tensor)
    requires s.zero.Some? && IsStored(s.zero.value) && LayoutOf(s, s.zero.value, a).Some?
  {
    PromotionKeepsLayout(s, s.zero.value, a, arithmetic);
    LinedUp(s, PromotedZero(s.zero.value, arithmetic), a)
  }

  // What is bound of the parameters before anything is emitted.
  ghost predicate IsSiteBound(env: Env, node: Node, s: Site)
    requires |node.inputs| >= 2 && (s.zero.Some? ==> |node.inputs| > 2)
  {
    && BoundTo(env, node.inputs[1], s.scale) && IsStored(s.scale)
    && (s.zero.Some? ==> BoundTo(env, node.inputs[2], s.zero.value))
    && (s.zero.Some? && CanPrepare(node, s) ==> IsStored(s.zero.value))
  }

  // Either way the draft is good; prepared, it binds what the arithmetic reads.
  ghost predicate IsPrepared(
    ops: Ops, own: set<string>, given: Env, d: Draft, env: Env, node: Node, s: Site, arithmetic: DType, p: Prepared,
    env': Env)
  {
    && Good(ops, own, given, p.draft, env') && p.draft.naming == d.naming && Keeps(own, env, env')
    && (p.Prepared? ==>
          && CanPrepare(node, s) && IsStored(s.scale) && BoundTo(env', p.scale, ReadScale(s, node.attributes, arithmetic))
          && (p.zero.Some? <==> s.zero.Some?)
          && (s.zero.Some? ==>
                && IsStored(s.zero.value) && BoundTo(env', p.zero.value, ReadZero(s, node.attributes, arithmetic))))
  }

  lemma HandZeroIsGood(
    ops: Ops, own: set<string>, given: Env, d: Draft, env: Env, node: Node, s: Site, arithmetic: DType, scale: string,
    name: string)
    returns (env': Env)
    requires RunsHelpers(ops) && Good(ops, own, given, d, env) && IsNaming(d.naming) && |node.outputs| == 1
    requires s.zero.Some? && BoundTo(env, name, PromotedZero(s.zero.value, arithmetic))
    requires CanPrepare(node, s) ==> IsStored(s.zero.value)
    requires NeedsPromotion(s.zero.value.dtype) ==> IsReadableInteger(s.zero.value)
    requires LayoutOf(s, s.scale, node.attributes).Some? && IsStored(s.scale)
    requires BoundTo(env, scale, ReadScale(s, node.attributes, arithmetic))
    ensures IsPrepared(ops, own, given, d, env, node, s, arithmetic,
                       HandZero(d, node, s, scale, name, PromotedZero(s.zero.value, arithmetic)), env')
  {
    var zero := PromotedZero(s.zero.value, arithmetic);
    PromotionKeepsLayout(s, s.zero.value, node.attributes, arithmetic);
    if LayoutOf(s, zero, node.attributes).None? {
      NumberedIsGood(ops, own, given, d, env);
      KeepsItself(own, env);
      env' := env;
    } else {
      env' := HandingIsGood(ops, own, given, d, env, node, s, "zero", name, zero, d.uid + 1);
      KeepsBound(own, env, env', scale, ReadScale(s, node.attributes, arithmetic));
    }
  }

  lemma PrepareZeroIsGood(
    ops: Ops, own: set<string>, given: Env, d: Draft, env: Env, node: Node, s: Site, arithmetic: DType, scale: string)
    returns (env': Env)
    requires RunsHelpers(ops) && Good(ops, own, given, d, env) && IsNaming(d.naming) && |node.outputs| == 1
    requires |node.inputs| >= 2 && (s.zero.Some? ==> |node.inputs| > 2) && IsSiteBound(env, node, s)
    requires LayoutOf(s, s.scale, node.attributes).Some?
    requires BoundTo(env, scale, ReadScale(s, node.attributes, arithmetic))
    ensures IsPrepared(ops, own, given, d, env, node, s, arithmetic, PrepareZero(d, node, s, arithmetic, scale), env')
  {
    KeepsItself(own, env);
    env' := env;
    if s.zero.Some? {
      var zero := s.zero.value;
      if !NeedsPromotion(zero.dtype) {
        env' := HandZeroIsGood(ops, own, given, d, env, node, s, arithmetic, scale, node.inputs[2]);
      } else if !IsReadableInteger(zero) {
        NumberedIsGood(ops, own, given, d, env);
      } else {
        var id := d.uid + 1;
        var name := d.naming.name(BaseOf(node), "zero_promoted", id);
        var promoted := PromotedZero(zero, arithmetic);
        var e := StoredNumbered(ops, own, given, d, env, BaseOf(node), "zero_promoted", promoted, id);
        KeepsBound(own, env, e, scale, ReadScale(s, node.attributes, arithmetic));
        env' := HandZeroIsGood(ops, own, given, d.Numbered().WithInit(name, promoted), e, node, s, arithmetic, scale, name);
        KeepsThrough(own, env, e, env');
      }
    }
  }

  lemma HandScaleIsGood(
    ops: Ops, own: set<string>, given: Env, d: Draft, env: Env, node: Node, s: Site, arithmetic: DType)
    returns (env': Env)
    requires RunsHelpers(ops) && Good(ops, own, given, d, env) && IsNaming(d.naming) && |node.outputs| == 1
    requires |node.inputs| >= 2 && BoundTo(env, node.inputs[1], s.scale) && IsStored(s.scale)
    requires LayoutOf(s, s.scale, node.attributes).Some?
    ensures Made(ops, own, given, d, env, HandScale(d, node, s, arithmetic), env', ReadScale(s, node.attributes,
        arithmetic))
  {
    var h, id := LayoutOf(s, s.scale, node.attributes).value, d.uid + 1;
    env' := HandingIsGood(ops, own, given, d, env, node, s, "scale", node.inputs[1], s.scale, id);
    if arithmetic != s.scale.dtype {
      var d2 := WithHandover(d.Numbered(), node, "scale", node.inputs[1], s.scale, h);
      var name := HandedName(d.naming, node, "scale", node.inputs[1], h, id);
      var e := AppliedCast(ops, own, given, d2, env', node, arithmetic, "cast_scale", "scale_cast", name,
                           LinedUp(s, s.scale, node.attributes));
      KeepsThrough(own, env, env', e);
      env' := e;
    }
  }

  lemma PrepareIsGood(
    ops: Ops, own: set<string>, given: Env, d: Draft, env: Env, node: Node, s: Site, arithmetic: DType)
    returns (env': Env)
    requires RunsHelpers(ops) && Good(ops, own, given, d, env) && IsNaming(d.naming) && |node.outputs| == 1
    requires |node.inputs| >= 2 && (s.zero.Some? ==> |node.inputs| > 2) && IsSiteBound(env, node, s)
    ensures IsPrepared(ops, own, given, d, env, node, s, arithmetic, Prepare(d, node, s, arithmetic), env')
  {
    if LayoutOf(s, s.scale, node.attributes).None? {
      NumberedIsGood(ops, own, given, d, env);
      KeepsItself(own, env);
      env' := env;
    } else {
      var e := HandScaleIsGood(ops, own, given, d, env, node, s, arithmetic);
      var m := HandScale(d, node, s, arithmetic);
      StillSiteBound(own, env, e, node, s);
      env' := PrepareZeroIsGood(ops, own, given, m.draft, e, node, s, arithmetic, m.name);
      KeepsThrough(own, env, e, env');
    }
  }

  lemma StillSiteBound(own: set<string>, env: Env, env': Env, node: Node, s: Site)
    requires |node.inputs| >= 2 && (s.zero.Some? ==> |node.inputs| > 2)
    requires IsSiteBound(env, node, s) && Keeps(own, env, env')
    ensures IsSiteBound(env', node, s)
  {
    KeepsBound(own, env, env', node.inputs[1], s.scale);
    if s.zero.Some? {
      KeepsBound(own, env, env', node.inputs[2], s.zero.value);
    }
  }

  // --- Folding --------------------------------------------------------------------------------

  lemma StrayIsGood(ops: Ops, own: set<string>, given: Env, d: Draft, env: Env, node: Node, scale: DType, f: Folding)
    returns (env': Env)
    requires Good(ops, own, given, d, env) && IsNaming(d.naming) && |node.outputs| == 1 && f.Stray?
    ensures Good(ops, own, given, WithFold(d, node, scale, f), env') && Keeps(own, env, env')
    ensures WithFold(d, node, scale, f).naming == d.naming
  {
    var id := d.uid + 1;
    env' := StoredNumbered(ops, own, given, d, env, node.outputs[0], "folded_constant", f.t, id);
  }

  lemma RetypedBack(t: Tensor, storage: DType)
    requires IsFloating(t.dtype)
    ensures Casted(t.(dtype := storage), t.dtype) == t
  {
    CastIsRetyping(t.(dtype := storage), t.dtype);
  }

  // The folded constant becomes the node's output.
  lemma FoldIsGood(
    ops: Ops, own: set<string>, given: Env, d: Draft, env: Env, node: Node, f: Folding, t: Tensor)
    returns (env': Env)
    requires RunsHelpers(ops) && Good(ops, own, given, d, env) && IsNaming(d.naming) && |node.outputs| == 1
    requires f.Folded? && IsOpen(own, env, node.outputs[0])
    requires IsFloating(t.dtype) && f.t == t.(dtype := StorageType(t.dtype))
    ensures Good(ops, own, given, WithFold(d, node, t.dtype, f), env')
    ensures Grows(own, node.outputs[0], env, env') && BoundTo(env', node.outputs[0], t)
  {
    var id, scale := d.uid + 1, t.dtype;
    var name := d.naming.name(node.outputs[0], "folded_constant", id);
    var stored := d.Numbered().WithInit(name, f.t);
    var e := StoredNumbered(ops, own, given, d, env, node.outputs[0], "folded_constant", f.t, id);
    KeepsUnbound(own, env, e, node.outputs[0]);
    env' := FoldFinishes(ops, own, given, stored, e, node, name, f.t, t);
    FoldIsFinished(d, node, scale, f);
    KeepsThenGrows(own, node.outputs[0], env, e, env');
  }

  function FinishedFold(d: Draft, node: Node, scale: DType, name: string): (d': Draft)
    requires |node.outputs| == 1
  {
    if StorageType(scale) != scale then Finished(d, node, Cast, Some(scale), node.outputs[0], "folded_cast", [name])
    else Finished(d, node, Identity, None, node.outputs[0], "folded_identity", [name])
  }

  lemma FoldIsFinished(d: Draft, node: Node, scale: DType, f: Folding)
    requires |node.outputs| == 1 && f.Folded?
    ensures var name := d.naming.name(node.outputs[0], "folded_constant", d.uid + 1);
      WithFold(d, node, scale, f) == FinishedFold(d.Numbered().WithInit(name, f.t), node, scale, name)
  {
  }

  // The stored constant becomes the tensor, by a cast where it is stored under another type.
  lemma FoldFinishes(
    ops: Ops, own: set<string>, given: Env, d: Draft, env: Env, node: Node, name: string, stored: Tensor, t: Tensor)
    returns (env': Env)
    requires RunsHelpers(ops) && Good(ops, own, given, d, env) && |node.outputs| == 1
    requires IsOpen(own, env, node.outputs[0]) && BoundTo(env, name, stored)
    requires IsFloating(t.dtype) && stored == t.(dtype := StorageType(t.dtype))
    ensures Good(ops, own, given, FinishedFold(d, node, t.dtype, name), env')
    ensures Grows(own, node.outputs[0], env, env') && BoundTo(env', node.outputs[0], t)
  {
    var scale := t.dtype;
    if StorageType(scale) != scale {
      RetypedBack(t, StorageType(scale));
      CastIsChange(scale, stored);
      env' := FinishedChange(ops, own, given, d, env, node, Cast, Some(scale), node.outputs[0], "folded_cast", name, t);
    } else {
      ChangeFolds(Identity, None, t, t);
      env' := FinishedChange(ops, own, given, d, env, node, Identity, None, node.outputs[0], "folded_identity", name, t);
    }
  }
}
