/**
 * Skipping the binding of inputs and outputs when nothing has changed since they were last bound
 * (src/tensorrt_rtx_execution_provider.cc:4375-4385, 5669-6088, 6238-6341).
 */
module BindingCache {
  import opened Options

  type Dims = seq<int>

  datatype Params = Params(data: nat, dims: Dims)

  // The dimensions are unknown for an output that is allocated as the engine goes along.
  datatype OutputParams = OutputParams(data: nat, dims: Option<Dims>)

  // What is fixed for an engine: which of the model's inputs it reads and which of these hold
  // shapes, how many outputs there are, and the shape each takes, if it does not depend on data.
  datatype Engine = Engine(
    inputCount: nat, inputs: seq<nat>, shapeInputs: set<nat>, outputCount: nat, manyProfiles: bool,
    shapeOf: (nat, map<nat, Params>) -> Option<Dims>)

  predicate IsEngine(e: Engine) {
    forall i :: 0 <= i < |e.inputs| ==> e.inputs[i] < e.inputCount
  }

  predicate HasShapeInputs(e: Engine) {
    exists i :: 0 <= i < |e.inputs| && e.inputs[i] in e.shapeInputs
  }

  // One run: its inputs, the buffer it gives for an output of some shape, the profile asked for,
  // and which of its binding calls fails, if any.
  datatype Request = Request(inputs: seq<Params>, give: (nat, Dims) -> nat, profile: int, failure: Option<nat>)

  // The cache kept between runs, and what the execution context is bound to.
  datatype State = State(
    isFirstRun: bool, skipAllowed: bool, inputTensors: seq<Params>, outputTensors: seq<OutputParams>,
    boundInputs: map<nat, Params>, boundOutputs: map<nat, Params>, profile: int, deferred: set<nat>)

  predicate IsRequest(e: Engine, r: Request) {
    |r.inputs| == e.inputCount
  }

  ghost predicate IsState(e: Engine, s: State) {
    !s.isFirstRun ==> |s.inputTensors| == e.inputCount && |s.outputTensors| == e.outputCount
  }

  // --- What a run does ------------------------------------------------------------------------

  function Resized(outputs: seq<OutputParams>, n: nat): (r: seq<OutputParams>)
    ensures |r| == n
  {
    if |outputs| >= n then outputs[..n] else outputs + seq(n - |outputs|, _ => OutputParams(0, None))
  }

  // Another profile undoes all bindings.
  function WithProfile(e: Engine, s: State, r: Request): (s': State) {
    if e.manyProfiles && s.profile != r.profile
    then s.(profile := r.profile, boundInputs := map[], boundOutputs := map[])
    else s
  }

  predicate OutputMoved(s: State, r: Request, o: nat)
    requires o < |s.outputTensors|
  {
    s.outputTensors[o].dims.Some? && s.outputTensors[o].data != r.give(o, s.outputTensors[o].dims.value)
  }

  predicate OutputsMoved(e: Engine, s: State, r: Request)
    requires |s.outputTensors| == e.outputCount
  {
    exists o :: 0 <= o < e.outputCount && OutputMoved(s, r, o)
  }

  predicate IsBindingRequired(e: Engine, s: State, r: Request)
    requires !s.isFirstRun ==> |s.inputTensors| == e.inputCount && |s.outputTensors| == e.outputCount
  {
    s.isFirstRun || !s.skipAllowed || s.inputTensors != r.inputs || OutputsMoved(e, s, r)
  }

  // Asking whether to bind already updates what is remembered of the inputs.
  function AfterAsking(e: Engine, s: State, r: Request): (s': State) {
    if s.isFirstRun then
      s.(isFirstRun := false, inputTensors := r.inputs, outputTensors := Resized(s.outputTensors, e.outputCount))
    else if s.skipAllowed then s.(inputTensors := r.inputs)
    else s
  }

  function WithInputs(e: Engine, s: State, r: Request, n: nat): (s': State)
    requires n <= |e.inputs| && IsEngine(e) && IsRequest(e, r)
    ensures s' == s.(boundInputs := s'.boundInputs)
  {
    if n == 0 then s
    else
      var before, k := WithInputs(e, s, r, n - 1), e.inputs[n - 1];
      before.(boundInputs := before.boundInputs[k := r.inputs[k]])
  }

  function WithOutput(e: Engine, s: State, r: Request, o: nat): (s': State)
    requires |s.outputTensors| == e.outputCount && o < e.outputCount
    ensures |s'.outputTensors| == e.outputCount && s'.boundInputs == s.boundInputs
  {
    var shape := e.shapeOf(o, s.boundInputs);
    if shape.None? || o in s.deferred then
      s.(deferred := s.deferred + {o}, outputTensors := s.outputTensors[o := OutputParams(0, None)])
    else
      var data := r.give(o, shape.value);
      s.(outputTensors := s.outputTensors[o := OutputParams(data, shape)],
         boundOutputs := s.boundOutputs[o := Params(data, shape.value)])
  }

  function WithOutputs(e: Engine, s: State, r: Request, n: nat): (s': State)
    requires |s.outputTensors| == e.outputCount && n <= e.outputCount
    ensures |s'.outputTensors| == e.outputCount && s'.boundInputs == s.boundInputs
  {
    if n == 0 then s else WithOutput(e, WithOutputs(e, s, r, n - 1), r, n - 1)
  }

  // All bound, up to the binding call that fails.
  function Bound(e: Engine, s: State, r: Request): (s': State)
    requires IsEngine(e) && IsRequest(e, r) && |s.outputTensors| == e.outputCount
  {
    if r.failure.Some? && r.failure.value < |e.inputs| then WithInputs(e, s, r, r.failure.value)
    else
      var inputs := WithInputs(e, s, r, |e.inputs|).(skipAllowed := !HasShapeInputs(e));
      if r.failure.Some? && r.failure.value - |e.inputs| < e.outputCount
      then WithOutputs(e, inputs, r, r.failure.value - |e.inputs|)
      else WithOutputs(e, inputs, r, e.outputCount)
  }

  predicate Skips(e: Engine, s: State, r: Request)
    requires !s.isFirstRun ==> |s.inputTensors| == e.inputCount && |s.outputTensors| == e.outputCount
  {
    WithProfile(e, s, r) == s && !IsBindingRequired(e, s, r)
  }

  function AfterRun(e: Engine, s: State, r: Request): (s': State)
    requires IsEngine(e) && IsRequest(e, r)
    requires !s.isFirstRun ==> |s.inputTensors| == e.inputCount && |s.outputTensors| == e.outputCount
  {
    var asked := AfterAsking(e, WithProfile(e, s, r), r);
    if Skips(e, s, r) then asked else Bound(e, asked, r)
  }

  // A new execution context.
  function AfterRecreating(s: State): (s': State) {
    s.(isFirstRun := true, skipAllowed := false, boundInputs := map[], boundOutputs := map[])
  }

  function Initially(): (s: State) {
    State(true, false, [], [], map[], map[], 0, {})
  }

  // --- What skipping relies on ----------------------------------------------------------------

  ghost predicate InputIsCurrent(s: State, params: seq<Params>, k: nat) {
    k < |params| && k in s.boundInputs && s.boundInputs[k] == params[k]
  }

  ghost predicate OutputIsCurrent(e: Engine, s: State, o: nat)
    requires |s.outputTensors| == e.outputCount
  {
    o < e.outputCount ==>
      if o in s.deferred then s.outputTensors[o].dims.None?
      else
        && s.outputTensors[o].dims.Some? && s.outputTensors[o].dims == e.shapeOf(o, s.boundInputs)
        && o in s.boundOutputs && s.boundOutputs[o] == Params(s.outputTensors[o].data, s.outputTensors[o].dims.value)
  }

  // Where skipping is allowed, what is remembered is what is bound; and it is disallowed for good
  // only by inputs that hold shapes.
  ghost predicate IsSound(e: Engine, s: State) {
    && IsState(e, s)
    && (!s.isFirstRun && !s.skipAllowed ==> HasShapeInputs(e))
    && (!s.isFirstRun && s.skipAllowed ==>
          && (forall i :: 0 <= i < |e.inputs| ==> InputIsCurrent(s, s.inputTensors, e.inputs[i]))
          && (forall o {:trigger OutputIsCurrent(e, s, o)} :: OutputIsCurrent(e, s, o)))
  }

  lemma {:induction false} InputsAreBound(e: Engine, s: State, r: Request, n: nat)
    requires n <= |e.inputs| && IsEngine(e) && IsRequest(e, r)
    ensures forall i :: 0 <= i < n ==> InputIsCurrent(WithInputs(e, s, r, n), r.inputs, e.inputs[i])
    decreases n
  {
    if n > 0 {
      InputsAreBound(e, s, r, n - 1);
      var before, after := WithInputs(e, s, r, n - 1), WithInputs(e, s, r, n);
      forall i | 0 <= i < n ensures InputIsCurrent(after, r.inputs, e.inputs[i]) {
        assert i < n - 1 ==> InputIsCurrent(before, r.inputs, e.inputs[i]);
      }
    }
  }

  lemma {:induction false} OutputsAreBound(e: Engine, s: State, r: Request, n: nat)
    requires |s.outputTensors| == e.outputCount && n <= e.outputCount
    ensures var s' := WithOutputs(e, s, r, n);
      && s'.isFirstRun == s.isFirstRun && s'.skipAllowed == s.skipAllowed && s'.inputTensors == s.inputTensors
      && s'.profile == s.profile
      && (forall o: nat {:trigger OutputIsCurrent(e, s', o)} :: o < n ==> OutputIsCurrent(e, s', o))
      && (forall o {:trigger o in s'.deferred} :: o in s'.deferred && o !in s.deferred ==> 0 <= o < n)
    decreases n
  {
    if n > 0 {
      OutputsAreBound(e, s, r, n - 1);
      var before, after := WithOutputs(e, s, r, n - 1), WithOutputs(e, s, r, n);
      forall o: nat | o < n ensures OutputIsCurrent(e, after, o) {
        assert o < n - 1 ==> OutputIsCurrent(e, before, o);
      }
    }
  }

  // --- What a run binds -----------------------------------------------------------------------

  // The engine's inputs are bound to the request's tensors. An output whose shape follows from
  // them is bound to the request's buffer of that shape, unless it was deferred before.
  ghost predicate BindsAll(e: Engine, deferred: set<nat>, s: State, r: Request)
    requires IsEngine(e) && IsRequest(e, r)
  {
    && (forall i :: 0 <= i < |e.inputs| ==>
          e.inputs[i] in s.boundInputs && s.boundInputs[e.inputs[i]] == r.inputs[e.inputs[i]])
    && (forall o: nat {:trigger e.shapeOf(o, s.boundInputs)} :: o < e.outputCount ==>
          var shape := e.shapeOf(o, s.boundInputs);
          if shape.None? || o in deferred then o in s.deferred
          else
            && o !in s.deferred && o in s.boundOutputs
            && s.boundOutputs[o] == Params(r.give(o, shape.value), shape.value))
  }

  lemma {:induction false} EachOutputIsBound(e: Engine, s: State, r: Request, n: nat)
    requires |s.outputTensors| == e.outputCount && n <= e.outputCount
    ensures var s' := WithOutputs(e, s, r, n);
      && (forall o {:trigger o in s'.deferred} :: o in s'.deferred <==>
            o in s.deferred || (0 <= o < n && e.shapeOf(o, s.boundInputs).None?))
      && forall o: nat {:trigger e.shapeOf(o, s.boundInputs)} :: o < n && o !in s'.deferred ==>
           var shape := e.shapeOf(o, s.boundInputs);
           && o in s'.boundOutputs && s'.boundOutputs[o] == Params(r.give(o, shape.value), shape.value)
           && s'.outputTensors[o] == OutputParams(r.give(o, shape.value), shape)
    decreases n
  {
    if n > 0 {
      EachOutputIsBound(e, s, r, n - 1);
    }
  }

  lemma RunBindsAll(e: Engine, s: State, r: Request)
    requires IsEngine(e) && IsRequest(e, r) && IsState(e, s) && r.failure.None? && !Skips(e, s, r)
    ensures BindsAll(e, s.deferred, AfterRun(e, s, r), r)
  {
    var asked := AfterAsking(e, WithProfile(e, s, r), r);
    InputsAreBound(e, asked, r, |e.inputs|);
    var inputs := WithInputs(e, asked, r, |e.inputs|).(skipAllowed := !HasShapeInputs(e));
    EachOutputIsBound(e, inputs, r, e.outputCount);
    forall i | 0 <= i < |e.inputs|
      ensures e.inputs[i] in inputs.boundInputs && inputs.boundInputs[e.inputs[i]] == r.inputs[e.inputs[i]]
    {
      assert InputIsCurrent(WithInputs(e, asked, r, |e.inputs|), r.inputs, e.inputs[i]);
    }
  }

  // What is remembered of the inputs after a run that binds is what it binds: the first run
  // remembers its inputs, and so does one that may be skipped, but any other leaves them.
  predicate RemembersInputs(e: Engine, s: State, r: Request)
    requires IsEngine(e) && IsRequest(e, r)
    requires !s.isFirstRun ==> |s.inputTensors| == e.inputCount && |s.outputTensors| == e.outputCount
  {
    || s.isFirstRun || s.skipAllowed || HasShapeInputs(e)
    || forall i :: 0 <= i < |e.inputs| ==> s.inputTensors[e.inputs[i]] == r.inputs[e.inputs[i]]
  }

  // From whatever state, after whatever failures, a run that binds everything leaves a cache that
  // can be relied on exactly when it remembers its inputs.
  lemma BindingRestoresSound(e: Engine, s: State, r: Request)
    requires IsEngine(e) && IsRequest(e, r) && IsState(e, s) && r.failure.None? && !Skips(e, s, r)
    ensures IsSound(e, AfterRun(e, s, r)) <==> RemembersInputs(e, s, r)
  {
    var asked := AfterAsking(e, WithProfile(e, s, r), r);
    var after := AfterRun(e, s, r);
    InputsAreBound(e, asked, r, |e.inputs|);
    var inputs := WithInputs(e, asked, r, |e.inputs|).(skipAllowed := !HasShapeInputs(e));
    OutputsAreBound(e, inputs, r, e.outputCount);
    assert after == WithOutputs(e, inputs, r, e.outputCount);
    assert forall o :: OutputIsCurrent(e, after, o);
    forall i | 0 <= i < |e.inputs|
      ensures InputIsCurrent(after, after.inputTensors, e.inputs[i])
         <==> asked.inputTensors[e.inputs[i]] == r.inputs[e.inputs[i]]
    {
      assert InputIsCurrent(WithInputs(e, asked, r, |e.inputs|), r.inputs, e.inputs[i]);
    }
  }

  // A run whose binding calls succeed leaves a cache that can be relied on, if it found one.
  lemma RunKeepsSound(e: Engine, s: State, r: Request)
    requires IsEngine(e) && IsRequest(e, r) && r.failure.None? && IsSound(e, s)
    ensures IsSound(e, AfterRun(e, s, r))
  {
    if Skips(e, s, r) {
      assert AfterRun(e, s, r) == s;
    } else {
      BindingRestoresSound(e, s, r);
    }
  }

  lemma RecreatingKeepsSound(e: Engine, s: State)
    ensures IsSound(e, AfterRecreating(s)) && IsSound(e, Initially())
  {
  }

  // A run that skips finds every input the engine reads bound to this run's tensor, and every
  // output whose shape is known beforehand bound to this run's buffer in that shape.
  lemma SkippedIsBound(e: Engine, s: State, r: Request)
    requires IsEngine(e) && IsRequest(e, r) && IsSound(e, s) && Skips(e, s, r)
    ensures AfterRun(e, s, r) == s
    ensures forall i :: 0 <= i < |e.inputs| ==> InputIsCurrent(s, r.inputs, e.inputs[i])
    ensures forall o: nat :: o < e.outputCount && o !in s.deferred ==>
        var shape := e.shapeOf(o, s.boundInputs);
        shape.Some? && o in s.boundOutputs && s.boundOutputs[o] == Params(r.give(o, shape.value), shape.value)
  {
    forall o: nat | o < e.outputCount && o !in s.deferred
      ensures var shape := e.shapeOf(o, s.boundInputs);
        shape.Some? && o in s.boundOutputs && s.boundOutputs[o] == Params(r.give(o, shape.value), shape.value)
    {
      assert OutputIsCurrent(e, s, o) && !OutputMoved(s, r, o);
    }
  }

  // --- Whole histories ------------------------------------------------------------------------

  datatype Event = Ran(request: Request) | Recreated

  predicate IsHistory(e: Engine, events: seq<Event>) {
    forall i :: 0 <= i < |events| && events[i].Ran? ==> IsRequest(e, events[i].request)
  }

  predicate Succeeds(event: Event) {
    event.Ran? ==> event.request.failure.None?
  }

  lemma RunKeepsState(e: Engine, s: State, r: Request)
    requires IsEngine(e) && IsRequest(e, r) && IsState(e, s)
    ensures IsState(e, AfterRun(e, s, r))
  {
    var asked := AfterAsking(e, WithProfile(e, s, r), r);
    if !Skips(e, s, r) && !(r.failure.Some? && r.failure.value < |e.inputs|) {
      var inputs := WithInputs(e, asked, r, |e.inputs|).(skipAllowed := !HasShapeInputs(e));
      var n := if r.failure.Some? && r.failure.value - |e.inputs| < e.outputCount then r.failure.value - |e.inputs|
               else e.outputCount;
      OutputsAreBound(e, inputs, r, n);
    }
  }

  function After(e: Engine, events: seq<Event>, n: nat): (s: State)
    requires IsEngine(e) && IsHistory(e, events) && n <= |events|
    ensures !s.isFirstRun ==> |s.inputTensors| == e.inputCount && |s.outputTensors| == e.outputCount
  {
    if n == 0 then Initially()
    else
      var before := After(e, events, n - 1);
      match events[n - 1]
      case Recreated => AfterRecreating(before)
      case Ran(r) =>
        RunKeepsState(e, before, r);
        AfterRun(e, before, r)
  }

  // --- Deferred outputs -----------------------------------------------------------------------

  // Run j gets as far as output o, whose shape does not follow from its inputs.
  ghost predicate FindsNoShape(e: Engine, events: seq<Event>, j: nat, o: nat)
    requires IsEngine(e) && IsHistory(e, events)
  {
    && j < |events| && events[j].Ran? && o < e.outputCount
    && var r := events[j].request;
       && !Skips(e, After(e, events, j), r)
       && (r.failure.Some? ==> r.failure.value > |e.inputs| + o)
       && e.shapeOf(o, After(e, events, j + 1).boundInputs).None?
  }

  lemma NewlyDeferred(e: Engine, s: State, r: Request, o: nat)
    requires IsEngine(e) && IsRequest(e, r) && IsState(e, s)
    ensures var after := AfterRun(e, s, r);
      o in after.deferred <==>
      (o in s.deferred ||
       (!Skips(e, s, r) && o < e.outputCount && (r.failure.Some? ==> r.failure.value > |e.inputs| + o) &&
        e.shapeOf(o, after.boundInputs).None?))
  {
    var asked := AfterAsking(e, WithProfile(e, s, r), r);
    assert asked.deferred == s.deferred;
    if Skips(e, s, r) {
      assert AfterRun(e, s, r) == asked;
    } else if r.failure.Some? && r.failure.value < |e.inputs| {
      assert AfterRun(e, s, r) == WithInputs(e, asked, r, r.failure.value);
    }
    if !Skips(e, s, r) && !(r.failure.Some? && r.failure.value < |e.inputs|) {
      var inputs := WithInputs(e, asked, r, |e.inputs|).(skipAllowed := !HasShapeInputs(e));
      var n := if r.failure.Some? && r.failure.value - |e.inputs| < e.outputCount then r.failure.value - |e.inputs|
               else e.outputCount;
      EachOutputIsBound(e, inputs, r, n);
    }
  }

  // An output is deferred exactly if an earlier run has found no shape for it.
  lemma {:induction false} DeferredOnlyWithoutShape(e: Engine, events: seq<Event>, n: nat, o: nat)
    requires IsEngine(e) && IsHistory(e, events) && n <= |events|
    ensures o in After(e, events, n).deferred <==> exists j: nat :: j < n && FindsNoShape(e, events, j, o)
    decreases n
  {
    if n > 0 {
      DeferredOnlyWithoutShape(e, events, n - 1, o);
      var before := After(e, events, n - 1);
      assert o in After(e, events, n).deferred <==> o in before.deferred || FindsNoShape(e, events, n - 1, o) by {
        if events[n - 1].Ran? {
          NewlyDeferred(e, before, events[n - 1].request, o);
        }
      }
    }
  }

  // After the first m events the cache can be relied on whatever went before them: nothing has
  // run, the context is new, or everything has just been bound by a run that remembers its inputs.
  ghost predicate StartsAfresh(e: Engine, events: seq<Event>, m: nat)
    requires IsEngine(e) && IsHistory(e, events) && m <= |events|
  {
    m == 0 ||
    match events[m - 1]
    case Recreated => true
    case Ran(r) =>
      var before := After(e, events, m - 1);
      r.failure.None? && !Skips(e, before, r) && RemembersInputs(e, before, r)
  }

  // However many runs failed before m.
  lemma {:induction false} HistoryIsSound(e: Engine, events: seq<Event>, m: nat, n: nat)
    requires IsEngine(e) && IsHistory(e, events) && m <= n <= |events|
    requires StartsAfresh(e, events, m) && forall i :: m <= i < n ==> Succeeds(events[i])
    ensures IsSound(e, After(e, events, n))
    decreases n
  {
    if n == 0 {
      RecreatingKeepsSound(e, Initially());
    } else {
      var before := After(e, events, n - 1);
      match events[n - 1]
      case Recreated => RecreatingKeepsSound(e, before);
      case Ran(r) =>
        if m == n {
          BindingRestoresSound(e, before, r);
        } else {
          HistoryIsSound(e, events, m, n - 1);
          assert Succeeds(events[n - 1]);
          RunKeepsSound(e, before, r);
        }
    }
  }

  // In any history, a run that skips finds everything bound as it needs, unless a binding call has
  // failed since the cache last started afresh.
  lemma SkippingIsSafe(e: Engine, events: seq<Event>, m: nat, n: nat)
    requires IsEngine(e) && IsHistory(e, events) && m <= n < |events| && events[n].Ran?
    requires StartsAfresh(e, events, m) && forall i :: m <= i < n ==> Succeeds(events[i])
    requires Skips(e, After(e, events, n), events[n].request)
    ensures var s, r := After(e, events, n), events[n].request;
      && (forall i :: 0 <= i < |e.inputs| ==> InputIsCurrent(s, r.inputs, e.inputs[i]))
      && (forall o: nat :: o < e.outputCount && (forall j: nat :: j < n ==> !FindsNoShape(e, events, j, o)) ==>
            var shape := e.shapeOf(o, s.boundInputs);
            shape.Some? && o in s.boundOutputs && s.boundOutputs[o] == Params(r.give(o, shape.value), shape.value))
  {
    HistoryIsSound(e, events, m, n);
    SkippedIsBound(e, After(e, events, n), events[n].request);
    forall o: nat | o < e.outputCount && forall j: nat :: j < n ==> !FindsNoShape(e, events, j, o)
      ensures o !in After(e, events, n).deferred
    {
      DeferredOnlyWithoutShape(e, events, n, o);
    }
  }

  // --- When a run skips -----------------------------------------------------------------------

  // After a run that has bound everything and remembered its inputs, the next one skips exactly if
  // no input holds a shape, the profile stays, the inputs are the same, and so are the buffers of
  // all outputs whose shape is known.
  lemma SkipsWhenNothingMoved(e: Engine, s: State, r: Request, next: Request)
    requires IsEngine(e) && IsRequest(e, r) && IsRequest(e, next) && IsState(e, s)
    requires r.failure.None? && !Skips(e, s, r) && (s.isFirstRun || s.skipAllowed)
    ensures IsState(e, AfterRun(e, s, r))
    ensures var after := AfterRun(e, s, r);
      Skips(e, after, next) <==>
        && (forall i :: 0 <= i < |e.inputs| ==> e.inputs[i] !in e.shapeInputs)
        && (e.manyProfiles ==> next.profile == r.profile)
        && next.inputs == r.inputs
        && forall o: nat {:trigger e.shapeOf(o, after.boundInputs)} ::
             o < e.outputCount && o !in s.deferred && e.shapeOf(o, after.boundInputs).Some? ==>
               var dims := e.shapeOf(o, after.boundInputs).value;
               next.give(o, dims) == r.give(o, dims)
  {
    var asked := AfterAsking(e, WithProfile(e, s, r), r);
    var after := AfterRun(e, s, r);
    var inputs := WithInputs(e, asked, r, |e.inputs|).(skipAllowed := !HasShapeInputs(e));
    OutputsAreBound(e, inputs, r, e.outputCount);
    EachOutputIsBound(e, inputs, r, e.outputCount);
    forall o: nat | o < e.outputCount
      ensures OutputMoved(after, next, o) <==>
              o !in s.deferred && e.shapeOf(o, after.boundInputs).Some? &&
              next.give(o, e.shapeOf(o, after.boundInputs).value) != r.give(o, e.shapeOf(o, after.boundInputs).value)
    {
      assert OutputIsCurrent(e, after, o);
    }
  }

  // An engine with one input and no outputs, run on one tensor.
  function OneInput(): (e: Engine) {
    Engine(1, [0], {}, 0, false, (o, bound) => None)
  }

  function RunOn(tensor: nat, failure: Option<nat>): (event: Event) {
    Ran(Request([Params(tensor, [])], (o, d) => 0, 0, failure))
  }

  // What one run does to that engine's state.
  lemma OneInputRuns(s: State, tensor: nat, failure: Option<nat>)
    requires IsState(OneInput(), s) && s.profile == 0 && s.boundOutputs == map[] && s.deferred == {}
    requires |s.outputTensors| == 0 && failure in {None, Some(0)}
    requires !Skips(OneInput(), s, RunOn(tensor, failure).request)
    ensures var after, p := AfterRun(OneInput(), s, RunOn(tensor, failure).request), Params(tensor, []);
      && after == State(false, failure.None? || s.skipAllowed, after.inputTensors, [],
                        if failure.None? then s.boundInputs[0 := p] else s.boundInputs, map[], 0, {})
      && after.inputTensors == if s.isFirstRun || s.skipAllowed then [p] else s.inputTensors
  {
    var e, r := OneInput(), RunOn(tensor, failure).request;
    var asked := AfterAsking(e, WithProfile(e, s, r), r);
    assert !HasShapeInputs(e);
    assert WithInputs(e, asked, r, 0) == asked;
    assert WithInputs(e, asked, r, 1).boundInputs == asked.boundInputs[0 := Params(tensor, [])];
    assert Resized(s.outputTensors, 0) == [];
  }

  // Binding calls that fail must be excluded: the cache is brought up to date before anything is
  // bound. Here the second run fails, and the third, with the same input, skips while the context
  // is still bound to the first run's tensor.
  lemma FailedBindingIsForgotten()
    ensures var e, runs := OneInput(), [RunOn(1, None), RunOn(2, Some(0)), RunOn(2, None)];
      && IsEngine(e) && IsHistory(e, runs) && Skips(e, After(e, runs, 2), runs[2].request)
      && After(e, runs, 2).boundInputs == map[0 := Params(1, [])]
  {
    var e, runs := OneInput(), [RunOn(1, None), RunOn(2, Some(0)), RunOn(2, None)];
    assert After(e, runs, 0) == Initially();
    OneInputRuns(Initially(), 1, None);
    OneInputRuns(After(e, runs, 1), 2, Some(0));
  }

  // A later run that binds everything need not mend this. Here the first run fails; the second
  // binds another tensor but, its inputs not being looked at, what is remembered is still the
  // first run's; the third, with the first run's tensor, skips while the context is bound to the
  // second's.
  lemma FailureOutlivesBinding()
    ensures var e, runs := OneInput(), [RunOn(1, Some(0)), RunOn(2, None), RunOn(1, None)];
      && IsEngine(e) && IsHistory(e, runs) && !Skips(e, After(e, runs, 1), runs[1].request)
      && Skips(e, After(e, runs, 2), runs[2].request)
      && After(e, runs, 2).boundInputs == map[0 := Params(2, [])]
  {
    var e, runs := OneInput(), [RunOn(1, Some(0)), RunOn(2, None), RunOn(1, None)];
    assert After(e, runs, 0) == Initially();
    OneInputRuns(Initially(), 1, Some(0));
    OneInputRuns(After(e, runs, 1), 2, None);
  }
}
