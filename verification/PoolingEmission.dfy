/**
 * The nodes emitted for a pool, run after what the pass has emitted before, bind the names of the
 * chain to what the chain combines (src/pooling_dilation_compatibility.cc:495-579).
 */
module PoolingEmission {
  import opened Options
  import opened Hiding
  import opened TensorValues
  import opened Broadcasting
  import opened PoolMeaning
  import opened OnnxGraph
  import opened GraphRuns
  import opened LoweredNames
  import opened Drafts
  import opened Emission
  import opened PoolingDilation

  // --- One slice ------------------------------------------------------------------------------

  ghost predicate CutFacts(x: Tensor, c: Cut, t: Tensor, u: Unfolding) {
    SliceWith(x, Integers(c.starts), Integers(c.ends), Integers(c.axes), Integers(c.steps)) == Means(Some(t))
  }

  // The cut takes t out of x.
  ghost predicate IsCut(x: Tensor, c: Cut, t: Tensor) {
    forall u {:trigger CutFacts(x, c, t, u)} :: CutFacts(x, c, t, u)
  }

  ghost predicate RunsCut(ops: Ops, slice: Node, args: Args, x: Tensor, c: Cut, t: Tensor) {
    && slice.op.Slice? && slice.domain.Main? && IsCut(x, c, t)
    && args == [Some(x), Some(c.starts), Some(c.ends), Some(c.axes), Some(c.steps)]
    ==> ops(slice, args) == Some([t])
  }

  // All that the emitted nodes need of the operators.
  ghost predicate RunsPools(ops: Ops) {
    && RunsHelpers(ops)
    && (forall slice, args, x, c, t {:trigger RunsCut(ops, slice, args, x, c, t)} :: RunsCut(ops, slice, args, x, c, t))
  }

  lemma ConformingRunsCut(
    ops: Ops, byCode: bool, slice: Node, args: Args, x: Tensor, c: Cut, t: Tensor)
    requires Conforms(ops, byCode)
    ensures RunsCut(ops, slice, args, x, c, t)
  {
    if slice.op.Slice? && slice.domain.Main? && IsCut(x, c, t) {
      CutMeans(x, c, t);
      GivenSliceRuns(ops, slice, [Some(x), Some(c.starts), Some(c.ends), Some(c.axes), Some(c.steps)], t);
    }
  }

  lemma CutMeans(x: Tensor, c: Cut, t: Tensor)
    requires IsCut(x, c, t)
    ensures SliceMeaning([Some(x), Some(c.starts), Some(c.ends), Some(c.axes), Some(c.steps)]) == Means(Some(t))
  {
    assert CutFacts(x, c, t, Unfolded);
  }

  lemma GivenSliceRuns(ops: Ops, slice: Node, args: Args, t: Tensor)
    requires forall node, args {:trigger GivesSlice(ops, node, args)} :: GivesSlice(ops, node, args)
    requires slice.op.Slice? && slice.domain.Main? && SliceMeaning(args) == Means(Some(t))
    ensures ops(slice, args) == Some([t])
  {
    assert GivesSlice(ops, slice, args);
  }

  lemma ConformingRunsPools(ops: Ops, byCode: bool)
    requires Conforms(ops, byCode)
    ensures RunsPools(ops)
  {
    forall slice, args, x, c, t ensures RunsCut(ops, slice, args, x, c, t) {
      ConformingRunsCut(ops, byCode, slice, args, x, c, t);
    }
    ConformingRunsHelpers(ops, byCode);
  }

  lemma FiveArgs(node: Node, env: Env, a: string, n: SliceNames)
    requires node.inputs == [a, n.starts, n.ends, n.axes, n.steps]
    requires a != "" && n.starts != "" && n.ends != "" && n.axes != "" && n.steps != ""
    requires a in env && n.starts in env && n.ends in env && n.axes in env && n.steps in env
    ensures InputsAreBound(node, env)
    ensures ArgsOf(node, env) ==
            [Some(env[a]), Some(env[n.starts]), Some(env[n.ends]), Some(env[n.axes]), Some(env[n.steps])]
  {
  }

  ghost predicate AreFresh(own: set<string>, given: Env, d: Draft, n: SliceNames) {
    && IsFresh(own, given, d, n.starts) && IsFresh(own, given, d, n.ends) && IsFresh(own, given, d, n.axes)
    && IsFresh(own, given, d, n.steps) && IsFresh(own, given, d, n.output)
    && n.starts != n.ends && n.starts != n.axes && n.starts != n.steps && n.starts != n.output
    && n.ends != n.axes && n.ends != n.steps && n.ends != n.output
    && n.axes != n.steps && n.axes != n.output && n.steps != n.output
  }

  lemma StoreCut(ops: Ops, own: set<string>, given: Env, d: Draft, env: Env, n: SliceNames, c: Cut)
    returns (env': Env)
    requires Good(ops, own, given, d, env) && AreFresh(own, given, d, n)
    ensures Good(ops, own, given, WithCut(d, n, c), env') && Grows(own, n.output, env, env')
    ensures forall k {:trigger Defined(WithCut(d, n, c), given.Keys, k)} ::
        Defined(WithCut(d, n, c), given.Keys, k) <==>
          Defined(d, given.Keys, k) || k == n.starts || k == n.ends || k == n.axes || k == n.steps
    ensures n.starts in env' && env'[n.starts] == c.starts
    ensures n.ends in env' && env'[n.ends] == c.ends
    ensures n.axes in env' && env'[n.axes] == c.axes
    ensures n.steps in env' && env'[n.steps] == c.steps
  {
    var ts, te, ta, tt := c.starts, c.ends, c.axes, c.steps;
    StoreIsGood(ops, own, given, d, env, n.starts, ts);
    var d1, e1 := d.WithInit(n.starts, ts), env[n.starts := ts];
    StoreIsGood(ops, own, given, d1, e1, n.ends, te);
    var d2, e2 := d1.WithInit(n.ends, te), e1[n.ends := te];
    StoreIsGood(ops, own, given, d2, e2, n.axes, ta);
    var d3, e3 := d2.WithInit(n.axes, ta), e2[n.axes := ta];
    StoreIsGood(ops, own, given, d3, e3, n.steps, tt);
    env' := e3[n.steps := tt];
    var d' := WithCut(d, n, c);
    assert Good(ops, own, given, d', env');
    forall k {:trigger Defined(d', given.Keys, k)}
      ensures Defined(d', given.Keys, k) <==>
        Defined(d, given.Keys, k) || k == n.starts || k == n.ends || k == n.axes || k == n.steps
    {
      assert Defined(d1, given.Keys, k) <==> Defined(d, given.Keys, k) || k == n.starts;
      assert Defined(d2, given.Keys, k) <==> Defined(d1, given.Keys, k) || k == n.ends;
      assert Defined(d3, given.Keys, k) <==> Defined(d2, given.Keys, k) || k == n.axes;
    }
    GrowsThrough(own, n.output, env, e1, e2);
    GrowsThrough(own, n.output, env, e2, e3);
    GrowsThrough(own, n.output, env, e3, env');
  }

  lemma EmitSliceIsGood(
    ops: Ops, own: set<string>, given: Env, d: Draft, env: Env, slice: Node, n: SliceNames, a: string,
    name: string, x: Tensor, c: Cut, t: Tensor)
    returns (env': Env)
    requires RunsPools(ops) && Good(ops, own, given, d, env) && AreFresh(own, given, d, n) && IsCut(x, c, t)
    requires slice.op.Slice? && slice.domain.Main? && a != "" && a in env && env[a] == x
    requires slice.inputs == [a, n.starts, n.ends, n.axes, n.steps] && slice.outputs == [name]
    requires name == n.output || (name in own && name != "" && !Defined(d, given.Keys, name))
    ensures Good(ops, own, given, WithCut(d, n, c).WithNode(slice), env')
    ensures Grows(own, name, env, env') && name in env' && env'[name] == t
    ensures forall k {:trigger Defined(WithCut(d, n, c).WithNode(slice), given.Keys, k)} ::
        k in own && k != name && !Defined(d, given.Keys, k) ==>
          !Defined(WithCut(d, n, c).WithNode(slice), given.Keys, k)
  {
    var d5 := WithCut(d, n, c);
    var e5 := StoreCut(ops, own, given, d, env, n, c);
    FiveArgs(slice, e5, a, n);
    assert RunsCut(ops, slice, ArgsOf(slice, e5), x, c, t);
    assert !Defined(d5, given.Keys, name);
    EmitIsGood(ops, own, given, d5, e5, slice, t);
    env' := e5[name := t];
    GrowsUnowned(own, n.output, name, env, e5);
    GrowsThrough(own, name, env, e5, env');
  }

  // --- Names ----------------------------------------------------------------------------------

  lemma SliceNamesAreFresh(ops: Ops, own: set<string>, given: Env, d: Draft, env: Env, node: Node, id: nat)
    requires Good(ops, own, given, d, env) && IsNaming(d.naming) && |node.outputs| == 1 && id == d.uid + 1
    ensures AreFresh(own, given, d.Numbered(), NamesOfSlice(d.naming, node, id))
  {
    var out := node.outputs[0];
    var s, e, a, t, o := "tap_starts", "tap_ends", "tap_axes", "tap_steps", "tap_output";
    NumberedNameIsFresh(ops, own, given, d, env, out, s, id);
    NumberedNameIsFresh(ops, own, given, d, env, out, e, id);
    NumberedNameIsFresh(ops, own, given, d, env, out, a, id);
    NumberedNameIsFresh(ops, own, given, d, env, out, t, id);
    NumberedNameIsFresh(ops, own, given, d, env, out, o, id);
    assert s[4] != e[4] && s[4] != a[4] && |s| != |t| && s[4] != o[4] && e[4] != a[4] && e[4] != t[4] && e[4] != o[4];
    assert a[4] != t[4] && a[4] != o[4] && t[4] != o[4];
    assert NamesApart(d.naming, out, s, e, id) && NamesApart(d.naming, out, s, a, id);
    assert NamesApart(d.naming, out, s, t, id) && NamesApart(d.naming, out, s, o, id);
    assert NamesApart(d.naming, out, e, a, id) && NamesApart(d.naming, out, e, t, id);
    assert NamesApart(d.naming, out, e, o, id) && NamesApart(d.naming, out, a, t, id);
    assert NamesApart(d.naming, out, a, o, id) && NamesApart(d.naming, out, t, o, id);
  }

  // --- All taps -------------------------------------------------------------------------------

  ghost predicate IsCutAt(x: Tensor, cuts: seq<Cut>, tensors: seq<Tensor>, i: nat) {
    i < |cuts| == |tensors| ==> IsCut(x, cuts[i], tensors[i])
  }

  ghost predicate AreCuts(x: Tensor, cuts: seq<Cut>, tensors: seq<Tensor>) {
    && |cuts| == |tensors| > 0
    && forall i: nat {:trigger IsCutAt(x, cuts, tensors, i)} :: IsCutAt(x, cuts, tensors, i)
  }

  // Where a pool node stands when the pass comes to it.
  ghost predicate IsPoolSite(own: set<string>, given: Env, d: Draft, env: Env, node: Node, x: Tensor) {
    && IsNaming(d.naming)
    && |node.inputs| == |node.outputs| == 1 && node.inputs[0] != "" && node.outputs[0] != ""
    && node.inputs[0] in env && env[node.inputs[0]] == x
    && node.outputs[0] in own && !Defined(d, given.Keys, node.outputs[0])
  }

  lemma SiteStays(own: set<string>, given: Env, d: Draft, env: Env, d': Draft, env': Env, node: Node, x: Tensor)
    requires IsPoolSite(own, given, d, env, node, x)
    requires d'.naming == d.naming && Includes(env, env') && !Defined(d', given.Keys, node.outputs[0])
    ensures IsPoolSite(own, given, d', env', node, x)
  {
  }

  lemma EmitTapIsGood(
    ops: Ops, own: set<string>, given: Env, d: Draft, env: Env, node: Node, taps: nat, x: Tensor, c: Cut,
    t: Tensor, id: nat)
    returns (env': Env)
    requires RunsPools(ops) && Good(ops, own, given, d, env) && IsPoolSite(own, given, d, env, node, x)
    requires IsCut(x, c, t) && id == d.uid + 1
    ensures Good(ops, own, given, EmitTap(d, node, taps, c), env') && Grows(own, node.outputs[0], env, env')
    ensures TapName(d.naming, node, taps, id) in env' && env'[TapName(d.naming, node, taps, id)] == t
    ensures taps != 1 ==> !Defined(EmitTap(d, node, taps, c), given.Keys, node.outputs[0])
  {
    var d1, out := d.Numbered(), node.outputs[0];
    var n := NamesOfSlice(d.naming, node, id);
    SliceNamesAreFresh(ops, own, given, d, env, node, id);
    NumberedIsGood(ops, own, given, d, env);
    var slice := SliceNode(d.naming, node, taps, n, id);
    var name := TapName(d.naming, node, taps, id);
    assert !Defined(d1, given.Keys, out);
    env' := EmitSliceIsGood(ops, own, given, d1, env, slice, n, node.inputs[0], name, x, c, t);
    var d' := WithCut(d1, n, c).WithNode(slice);
    assert Good(ops, own, given, d', env');
    assert EmitTap(d, node, taps, c) == d';
  }

  ghost predicate TapBound(env: Env, naming: Naming, node: Node, tensors: seq<Tensor>, uid: nat, j: nat)
    requires |node.outputs| == 1
  {
    j < |tensors| ==>
      var name := TapName(naming, node, |tensors|, uid + j + 1); name in env && env[name] == tensors[j]
  }

  ghost predicate TapsBound(env: Env, naming: Naming, node: Node, tensors: seq<Tensor>, uid: nat, n: nat)
    requires |node.outputs| == 1
  {
    forall j: nat {:trigger TapBound(env, naming, node, tensors, uid, j)} ::
      j < n ==> TapBound(env, naming, node, tensors, uid, j)
  }

  lemma TapsStayBound(env: Env, env': Env, naming: Naming, node: Node, tensors: seq<Tensor>, uid: nat, n: nat)
    requires |node.outputs| == 1 && TapsBound(env, naming, node, tensors, uid, n) && Includes(env, env')
    ensures TapsBound(env', naming, node, tensors, uid, n)
  {
    forall j: nat {:trigger TapBound(env', naming, node, tensors, uid, j)} | j < n
      ensures TapBound(env', naming, node, tensors, uid, j)
    {
      assert TapBound(env, naming, node, tensors, uid, j);
    }
  }

  lemma OneMoreTapBound(env: Env, naming: Naming, node: Node, tensors: seq<Tensor>, uid: nat, j: nat, id: nat)
    requires |node.outputs| == 1 && j < |tensors| && id == uid + j + 1
    requires TapName(naming, node, |tensors|, id) in env && env[TapName(naming, node, |tensors|, id)] == tensors[j]
    requires TapsBound(env, naming, node, tensors, uid, j)
    ensures TapsBound(env, naming, node, tensors, uid, j + 1)
  {
    assert TapBound(env, naming, node, tensors, uid, j);
  }

  ghost predicate SlicedFacts(
    ops: Ops, own: set<string>, given: Env, env: Env, node: Node, x: Tensor, tensors: seq<Tensor>, uid: nat, n: nat,
    d': Draft, env': Env, u: Unfolding)
    requires |node.outputs| == 1
  {
    && Good(ops, own, given, d', env') && Grows(own, node.outputs[0], env, env') && d'.uid == uid + n
    && TapsBound(env', d'.naming, node, tensors, uid, n)
    && (|tensors| != 1 || n == 0 ==> IsPoolSite(own, given, d', env', node, x))
  }

  // The first n taps have been sliced: d' and env' are where that leads from env.
  ghost predicate IsSliced(
    ops: Ops, own: set<string>, given: Env, env: Env, node: Node, x: Tensor, tensors: seq<Tensor>, uid: nat, n: nat,
    d': Draft, env': Env)
    requires |node.outputs| == 1
  {
    forall u {:trigger SlicedFacts(ops, own, given, env, node, x, tensors, uid, n, d', env', u)} ::
      SlicedFacts(ops, own, given, env, node, x, tensors, uid, n, d', env', u)
  }

  lemma OneMoreTapIsSliced(
    ops: Ops, own: set<string>, given: Env, env: Env, node: Node, x: Tensor, cuts: seq<Cut>, tensors: seq<Tensor>,
    uid: nat, n: nat, d: Draft, e: Env)
    returns (env': Env)
    requires RunsPools(ops) && |node.inputs| == |node.outputs| == 1 && AreCuts(x, cuts, tensors) && n < |cuts|
    requires IsSliced(ops, own, given, env, node, x, tensors, uid, n, d, e)
    ensures IsSliced(ops, own, given, env, node, x, tensors, uid, n + 1, EmitTap(d, node, |cuts|, cuts[n]), env')
  {
    assert SlicedFacts(ops, own, given, env, node, x, tensors, uid, n, d, e, Unfolded);
    assert IsCutAt(x, cuts, tensors, n);
    var id := d.uid + 1;
    env' := EmitTapIsGood(ops, own, given, d, e, node, |cuts|, x, cuts[n], tensors[n], id);
    TapsStayBound(e, env', d.naming, node, tensors, uid, n);
    OneMoreTapBound(env', d.naming, node, tensors, uid, n, id);
    GrowsThrough(own, node.outputs[0], env, e, env');
    var d' := EmitTap(d, node, |cuts|, cuts[n]);
    if |cuts| != 1 {
      SiteStays(own, given, d, e, d', env', node, x);
    }
    var next := n + 1;
    forall u ensures SlicedFacts(ops, own, given, env, node, x, tensors, uid, next, d', env', u) {
    }
  }

  lemma {:induction false} EmitTapsIsGood(
    ops: Ops, own: set<string>, given: Env, d: Draft, env: Env, node: Node, x: Tensor, cuts: seq<Cut>,
    tensors: seq<Tensor>, n: nat)
    returns (env': Env)
    requires RunsPools(ops) && |node.inputs| == |node.outputs| == 1 && AreCuts(x, cuts, tensors) && n <= |cuts|
    requires IsSliced(ops, own, given, env, node, x, tensors, d.uid, 0, d, env)
    ensures IsSliced(ops, own, given, env, node, x, tensors, d.uid, n, EmitTaps(d, node, cuts, n), env')
    decreases n
  {
    if n == 0 {
      env' := env;
    } else {
      var e := EmitTapsIsGood(ops, own, given, d, env, node, x, cuts, tensors, n - 1);
      env' := OneMoreTapIsSliced(ops, own, given, env, node, x, cuts, tensors, d.uid, n - 1,
                                 EmitTaps(d, node, cuts, n - 1), e);
    }
  }

  // --- One link of a chain --------------------------------------------------------------------

  ghost predicate IsLinkAt(op: BinaryOp, dtype: DType, tensors: seq<Tensor>, links: seq<Tensor>, n: nat) {
    0 < n < |tensors| == |links| ==> IsLink(op, dtype, links[n - 1], tensors[n], links[n])
  }

  // links[n] combines the first n + 1 tensors.
  ghost predicate IsChain(op: BinaryOp, dtype: DType, tensors: seq<Tensor>, links: seq<Tensor>) {
    && |links| == |tensors| > 0 && links[0] == tensors[0]
    && forall n: nat {:trigger IsLinkAt(op, dtype, tensors, links, n)} :: IsLinkAt(op, dtype, tensors, links, n)
  }

  // Where the pass stands once all taps have been sliced, n links on.
  ghost predicate IsChaining(
    ops: Ops, own: set<string>, given: Env, d: Draft, env: Env, node: Node, tensors: seq<Tensor>, uid: nat)
  {
    && Good(ops, own, given, d, env) && IsNaming(d.naming)
    && |node.outputs| == 1 && node.outputs[0] != "" && node.outputs[0] in own
    && !Defined(d, given.Keys, node.outputs[0])
    && TapsBound(env, d.naming, node, tensors, uid, |tensors|)
  }

  lemma ChainingStays(
    ops: Ops, own: set<string>, given: Env, d: Draft, env: Env, d': Draft, env': Env, node: Node, tensors: seq<Tensor>,
    uid: nat)
    requires IsChaining(ops, own, given, d, env, node, tensors, uid)
    requires Good(ops, own, given, d', env') && d'.naming == d.naming && Includes(env, env')
    requires !Defined(d', given.Keys, node.outputs[0])
    ensures IsChaining(ops, own, given, d', env', node, tensors, uid)
  {
    TapsStayBound(env, env', d.naming, node, tensors, uid, |tensors|);
  }

  lemma TapNameIsNonEmpty(naming: Naming, node: Node, taps: nat, id: nat)
    requires IsNaming(naming) && |node.outputs| == 1 && node.outputs[0] != ""
    ensures TapName(naming, node, taps, id) != ""
  {
    assert naming.name(node.outputs[0], "tap_output", id) != "";
  }

  // A link that combines what is bound to `combined` with tap n.
  lemma ChainedIsGood(
    ops: Ops, own: set<string>, given: Env, d: Draft, env: Env, node: Node, op: Op, suffix: string,
    dtype: DType, tensors: seq<Tensor>, links: seq<Tensor>, uid: nat, n: nat, combined: string, name: string)
    returns (env': Env)
    requires RunsPools(ops) && IsChaining(ops, own, given, d, env, node, tensors, uid)
    requires IsBinary(op) && !op.Div? && IsChain(OperatorOf(op), dtype, tensors, links) && 0 < n < |tensors|
    requires combined in env && combined != "" && env[combined] == links[n - 1]
    requires name == node.outputs[0] || IsFresh(own, given, d, name)
    ensures var d' := Chained(d, node, op, suffix, combined, TapName(d.naming, node, |tensors|, uid + n + 1), name);
      && Good(ops, own, given, d', env') && Grows(own, node.outputs[0], env, env') && name in env' && env'[name] == links[n]
      && (name != node.outputs[0] ==> IsChaining(ops, own, given, d', env', node, tensors, uid))
  {
    var tap := TapName(d.naming, node, |tensors|, uid + n + 1);
    assert TapBound(env, d.naming, node, tensors, uid, n);
    TapNameIsNonEmpty(d.naming, node, |tensors|, uid + n + 1);
    assert IsLinkAt(OperatorOf(op), dtype, tensors, links, n);
    var link := Helper(node, op, name + suffix, [combined, tap], name);
    env' := LinkIsGood(ops, own, given, d, env, link, dtype, combined, tap, name, links[n]);
    var d' := d.WithNode(link);
    assert Good(ops, own, given, d', env');
    if name != node.outputs[0] {
      ChainingStays(ops, own, given, d, env, d', env', node, tensors, uid);
    }
  }

  lemma NumberedIsChaining(
    ops: Ops, own: set<string>, given: Env, d: Draft, env: Env, node: Node, tensors: seq<Tensor>, uid: nat)
    requires IsChaining(ops, own, given, d, env, node, tensors, uid)
    ensures IsChaining(ops, own, given, d.Numbered(), env, node, tensors, uid)
  {
    NumberedIsGood(ops, own, given, d, env);
    assert !Defined(d.Numbered(), given.Keys, node.outputs[0]);
  }

  // --- Sums -----------------------------------------------------------------------------------

  lemma {:induction false} EmitSumsIsGood(
    ops: Ops, own: set<string>, given: Env, d: Draft, env: Env, node: Node, dtype: DType,
    tensors: seq<Tensor>, links: seq<Tensor>, uid: nat, n: nat)
    returns (env': Env)
    requires RunsPools(ops) && IsChaining(ops, own, given, d, env, node, tensors, uid)
    requires IsChain(Adding(), dtype, tensors, links) && d.uid == uid + |tensors| && n < |tensors|
    ensures IsChaining(ops, own, given, EmitSums(d, node, |tensors|, uid, n), env', node, tensors, uid)
    ensures Grows(own, node.outputs[0], env, env') && BoundTo(env', SumName(d.naming, node, |tensors|, uid, n), links[n])
    decreases n
  {
    if n == 0 {
      env' := env;
      assert EmitSums(d, node, |tensors|, uid, n) == d;
      assert TapBound(env, d.naming, node, tensors, uid, 0);
      TapNameIsNonEmpty(d.naming, node, |tensors|, uid + 1);
    } else {
      var before := EmitSumsIsGood(ops, own, given, d, env, node, dtype, tensors, links, uid, n - 1);
      var d' := EmitSums(d, node, |tensors|, uid, n - 1);
      env' := OneMoreSumIsGood(ops, own, given, d', before, node, dtype, tensors, links, uid, n);
      GrowsThrough(own, node.outputs[0], env, before, env');
      assert EmitSums(d, node, |tensors|, uid, n) == SumLink(d', node, |tensors|, uid, n);
    }
  }

  function SumLink(d: Draft, node: Node, taps: nat, uid: nat, n: nat): (d': Draft)
    requires |node.outputs| == 1 && n > 0
  {
    Chained(d.Numbered(), node, Add, "_add", SumName(d.naming, node, taps, uid, n - 1),
            TapName(d.naming, node, taps, uid + n + 1), SumName(d.naming, node, taps, uid, n))
  }

  lemma OneMoreSumIsGood(
    ops: Ops, own: set<string>, given: Env, d: Draft, env: Env, node: Node, dtype: DType,
    tensors: seq<Tensor>, links: seq<Tensor>, uid: nat, n: nat)
    returns (env': Env)
    requires RunsPools(ops) && IsChaining(ops, own, given, d, env, node, tensors, uid)
    requires IsChain(Adding(), dtype, tensors, links) && 0 < n < |tensors| && d.uid + 1 == uid + |tensors| + n
    requires BoundTo(env, SumName(d.naming, node, |tensors|, uid, n - 1), links[n - 1])
    ensures IsChaining(ops, own, given, SumLink(d, node, |tensors|, uid, n), env', node, tensors, uid)
    ensures Grows(own, node.outputs[0], env, env') && BoundTo(env', SumName(d.naming, node, |tensors|, uid, n), links[n])
  {
    var id := d.uid + 1;
    var name := PoolName(d.naming, node, "sum", id);
    assert name == SumName(d.naming, node, |tensors|, uid, n);
    NumberedNameIsFresh(ops, own, given, d, env, node.outputs[0], "sum", id);
    NumberedIsChaining(ops, own, given, d, env, node, tensors, uid);
    env' := ChainedIsGood(ops, own, given, d.Numbered(), env, node, Add, "_add", dtype, tensors, links, uid, n,
                          SumName(d.naming, node, |tensors|, uid, n - 1), name);
  }

  // The mean: the last sum divided by the number of taps.
  lemma EmitMeanIsGood(
    ops: Ops, own: set<string>, given: Env, d: Draft, env: Env, node: Node, dtype: DType,
    tensors: seq<Tensor>, total: Tensor, mean: Tensor, uid: nat, taps: nat)
    returns (env': Env)
    requires RunsPools(ops) && IsChaining(ops, own, given, d, env, node, tensors, uid) && taps == |tensors| > 0
    requires BoundTo(env, SumName(d.naming, node, taps, uid, taps - 1), total)
    requires IsFloating(dtype) && IsLink(Dividing(), dtype, total, Divisor(dtype, taps), mean)
    ensures Good(ops, own, given, EmitMean(d, node, dtype, taps, uid), env') && Grows(own, node.outputs[0], env, env')
    ensures BoundTo(env', node.outputs[0], mean)
  {
    var id, out := d.uid + 1, node.outputs[0];
    var sum, name := SumName(d.naming, node, taps, uid, taps - 1), PoolName(d.naming, node, "divisor", id);
    var d2, e2 := d.Numbered().WithInit(name, Divisor(dtype, taps)).Numbered(), env[name := Divisor(dtype, taps)];
    NumberedNameIsFresh(ops, own, given, d, env, out, "divisor", id);
    StoreBetweenNumbers(ops, own, given, d, env, name, Divisor(dtype, taps), out);
    assert Includes(env, e2);
    var div := Helper(node, Div, PoolName(d.naming, node, "average", d.uid + 2), [sum, name], out);
    env' := DivisionIsGood(ops, own, given, d2, e2, div, dtype, sum, name, out, total, Divisor(dtype, taps), mean);
    GrowsUnowned(own, name, out, env, e2);
    GrowsThrough(own, out, env, e2, env');
    assert EmitMean(d, node, dtype, taps, uid) == d2.WithNode(div);
  }

  lemma DivisionIsGood(
    ops: Ops, own: set<string>, given: Env, d: Draft, env: Env, div: Node, dtype: DType, a: string, b: string, out: string,
    total: Tensor, divisor: Tensor, mean: Tensor)
    returns (env': Env)
    requires RunsHelpers(ops) && Good(ops, own, given, d, env) && IsNew(own, given, d, out)
    requires div.op.Div? && div.domain.Main? && div.inputs == [a, b] && div.outputs == [out]
    requires BoundTo(env, a, total) && BoundTo(env, b, divisor)
    requires IsFloating(dtype) && IsLink(Dividing(), dtype, total, divisor, mean)
    ensures Good(ops, own, given, d.WithNode(div), env') && Grows(own, out, env, env') && BoundTo(env', out, mean)
  {
    env' := LinkIsGood(ops, own, given, d, env, div, dtype, a, b, out, mean);
  }

  lemma StoreBetweenNumbers(
    ops: Ops, own: set<string>, given: Env, d: Draft, env: Env, name: string, t: Tensor, out: string)
    requires Good(ops, own, given, d, env) && IsFresh(own, given, d.Numbered(), name)
    requires out in own && !Defined(d, given.Keys, out)
    ensures Good(ops, own, given, d.Numbered().WithInit(name, t).Numbered(), env[name := t])
    ensures Grows(own, name, env, env[name := t]) && !Defined(d.Numbered().WithInit(name, t).Numbered(), given.Keys, out)
  {
    NumberedIsGood(ops, own, given, d, env);
    assert !Defined(d.Numbered(), given.Keys, out);
    StoreIsGood(ops, own, given, d.Numbered(), env, name, t);
    var d2 := d.Numbered().WithInit(name, t);
    assert !Defined(d2, given.Keys, out);
    NumberedIsGood(ops, own, given, d2, env[name := t]);
  }

  // --- Maxima ---------------------------------------------------------------------------------

  lemma {:induction false} EmitMaximaIsGood(
    ops: Ops, own: set<string>, given: Env, d: Draft, env: Env, node: Node, dtype: DType,
    tensors: seq<Tensor>, links: seq<Tensor>, uid: nat, n: nat)
    returns (env': Env)
    requires RunsPools(ops) && IsChaining(ops, own, given, d, env, node, tensors, uid)
    requires IsChain(TakingLarger(), dtype, tensors, links) && d.uid == uid + |tensors| && n < |tensors| && |tensors| > 1
    ensures Good(ops, own, given, EmitMaxima(d, node, |tensors|, uid, n), env') && Grows(own, node.outputs[0], env, env')
    ensures n + 1 < |tensors| ==>
        IsChaining(ops, own, given, EmitMaxima(d, node, |tensors|, uid, n), env', node, tensors, uid)
    ensures BoundTo(env', MaxName(d.naming, node, |tensors|, uid, n), links[n])
    decreases n
  {
    if n == 0 {
      env' := env;
      assert EmitMaxima(d, node, |tensors|, uid, n) == d;
      assert TapBound(env, d.naming, node, tensors, uid, 0);
      TapNameIsNonEmpty(d.naming, node, |tensors|, uid + 1);
    } else {
      var before := EmitMaximaIsGood(ops, own, given, d, env, node, dtype, tensors, links, uid, n - 1);
      var d' := EmitMaxima(d, node, |tensors|, uid, n - 1);
      env' := OneMoreMaximumIsGood(ops, own, given, d', before, node, dtype, tensors, links, uid, n);
      GrowsThrough(own, node.outputs[0], env, before, env');
      var d2 := MaxLink(d', node, |tensors|, uid, n);
      assert Good(ops, own, given, d2, env');
      assert EmitMaxima(d, node, |tensors|, uid, n) == d2;
    }
  }

  function MaxLink(d: Draft, node: Node, taps: nat, uid: nat, n: nat): (d': Draft)
    requires |node.outputs| == 1 && n > 0
  {
    Chained(if n + 1 == taps then d else d.Numbered(), node, Max, "_max", MaxName(d.naming, node, taps, uid, n - 1),
            TapName(d.naming, node, taps, uid + n + 1), MaxName(d.naming, node, taps, uid, n))
  }

  lemma OneMoreMaximumIsGood(
    ops: Ops, own: set<string>, given: Env, d: Draft, env: Env, node: Node, dtype: DType,
    tensors: seq<Tensor>, links: seq<Tensor>, uid: nat, n: nat)
    returns (env': Env)
    requires RunsPools(ops) && IsChaining(ops, own, given, d, env, node, tensors, uid)
    requires IsChain(TakingLarger(), dtype, tensors, links) && 0 < n < |tensors|
    requires d.uid + 1 == uid + |tensors| + n
    requires BoundTo(env, MaxName(d.naming, node, |tensors|, uid, n - 1), links[n - 1])
    ensures Good(ops, own, given, MaxLink(d, node, |tensors|, uid, n), env') && Grows(own, node.outputs[0], env, env')
    ensures n + 1 < |tensors| ==> IsChaining(ops, own, given, MaxLink(d, node, |tensors|, uid, n), env', node, tensors, uid)
    ensures BoundTo(env', MaxName(d.naming, node, |tensors|, uid, n), links[n])
  {
    var combined := MaxName(d.naming, node, |tensors|, uid, n - 1);
    if n + 1 == |tensors| {
      env' := ChainedIsGood(ops, own, given, d, env, node, Max, "_max", dtype, tensors, links, uid, n, combined,
                            node.outputs[0]);
      assert MaxName(d.naming, node, |tensors|, uid, n) == node.outputs[0];
    } else {
      var id := d.uid + 1;
      var name := PoolName(d.naming, node, "max", id);
      assert name == MaxName(d.naming, node, |tensors|, uid, n);
      NumberedNameIsFresh(ops, own, given, d, env, node.outputs[0], "max", id);
      NumberedIsChaining(ops, own, given, d, env, node, tensors, uid);
      env' := ChainedIsGood(ops, own, given, d.Numbered(), env, node, Max, "_max", dtype, tensors, links, uid, n,
                            combined, name);
    }
  }
}
