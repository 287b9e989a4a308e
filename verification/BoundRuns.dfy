/**
 * A compute state and its execution context: asking whether to bind, binding, and running
 * (src/tensorrt_rtx_execution_provider.cc:4375-4385, 6012-6088, 6238-6341).
 */
module BoundRuns {
  import opened Options
  import opened BindingCache

  class ComputeState {
    const engine: Engine
    var isFirstRun: bool
    var skipAllowed: bool
    var inputTensors: seq<Params>
    var outputTensors: seq<OutputParams>
    var boundInputs: map<nat, Params>
    var boundOutputs: map<nat, Params>
    var profile: int
    var deferred: set<nat>

    function View(): (s: State)
      reads this
    {
      State(isFirstRun, skipAllowed, inputTensors, outputTensors, boundInputs, boundOutputs, profile, deferred)
    }

    ghost predicate Valid()
      reads this
    {
      IsEngine(engine) && IsState(engine, View())
    }

    constructor (engine: Engine)
      requires IsEngine(engine)
      ensures this.engine == engine && Valid() && View() == Initially() && IsSound(engine, View())
    {
      this.engine, isFirstRun, skipAllowed := engine, true, false;
      inputTensors, outputTensors, boundInputs, boundOutputs := [], [], map[], map[];
      profile, deferred := 0, {};
    }

    method Recreate()
      requires Valid()
      modifies this
      ensures Valid() && View() == AfterRecreating(old(View()))
    {
      isFirstRun, skipAllowed, boundInputs, boundOutputs := true, false, map[], map[];
    }

    // --- Asking ---------------------------------------------------------------------------------

    method RememberInputs(r: Request) returns (changed: bool)
      requires |inputTensors| == |r.inputs|
      modifies this`inputTensors
      ensures inputTensors == r.inputs
      ensures changed <==> old(inputTensors) != r.inputs
    {
      changed := false;
      for i := 0 to |r.inputs|
        invariant |inputTensors| == |r.inputs|
        invariant forall j :: 0 <= j < i ==> inputTensors[j] == r.inputs[j]
        invariant forall j :: i <= j < |r.inputs| ==> inputTensors[j] == old(inputTensors[j])
        invariant changed <==> exists j :: 0 <= j < i && old(inputTensors[j]) != r.inputs[j]
      {
        if r.inputs[i] != inputTensors[i] {
          changed := true;
          inputTensors := inputTensors[i := r.inputs[i]];
        }
      }
    }

    method HaveOutputsMoved(r: Request) returns (moved: bool)
      requires |outputTensors| == engine.outputCount
      ensures moved <==> OutputsMoved(engine, View(), r)
    {
      moved := false;
      for o := 0 to engine.outputCount
        invariant forall j :: 0 <= j < o ==> !OutputMoved(View(), r, j)
      {
        var remembered := outputTensors[o];
        if remembered.dims.Some? {
          if remembered.data != r.give(o, remembered.dims.value) {
            assert OutputMoved(View(), r, o);
            return true;
          }
        }
      }
    }

    method IsIOBindingRequired(r: Request) returns (required: bool)
      requires Valid() && IsRequest(engine, r)
      modifies this`isFirstRun, this`inputTensors, this`outputTensors
      ensures View() == AfterAsking(engine, old(View()), r) && Valid() && !isFirstRun
      ensures required <==>
          (|| old(isFirstRun) || old(!skipAllowed) || old(inputTensors) != r.inputs
           || exists o :: 0 <= o < engine.outputCount && old(outputTensors)[o].dims.Some? &&
                old(outputTensors)[o].data != r.give(o, old(outputTensors)[o].dims.value))
      ensures required <==> IsBindingRequired(engine, old(View()), r)
    {
      assert !isFirstRun ==> forall o :: 0 <= o < engine.outputCount ==>
          (OutputMoved(View(), r, o) <==>
           outputTensors[o].dims.Some? && outputTensors[o].data != r.give(o, outputTensors[o].dims.value));
      required := false;
      if isFirstRun {
        required := true;
        inputTensors, outputTensors := r.inputs, Resized(outputTensors, engine.outputCount);
        isFirstRun := false;
      } else if skipAllowed {
        required := RememberInputs(r);
      } else {
        required := true;
      }
      if !required {
        required := HaveOutputsMoved(r);
        assert View() == old(View());
      }
    }

    // --- Binding --------------------------------------------------------------------------------

    // Inputs in the engine's order; one that holds a shape forbids skipping.
    method BindInputs(r: Request) returns (ok: bool)
      requires Valid() && IsRequest(engine, r)
      modifies this`boundInputs, this`skipAllowed
      ensures Valid() && (ok <==> !(r.failure.Some? && r.failure.value < |engine.inputs|))
      ensures ok ==>
          View() == WithInputs(engine, old(View()), r, |engine.inputs|).(skipAllowed := !HasShapeInputs(engine))
      ensures !ok ==> View() == WithInputs(engine, old(View()), r, r.failure.value)
    {
      var allowed := true;
      for i := 0 to |engine.inputs|
        invariant View() == WithInputs(engine, old(View()), r, i)
        invariant allowed <==> forall j :: 0 <= j < i ==> engine.inputs[j] !in engine.shapeInputs
        invariant r.failure.Some? ==> r.failure.value >= i
      {
        if r.failure == Some(i) {
          return false;
        }
        var k := engine.inputs[i];
        if k in engine.shapeInputs {
          allowed := false;
        }
        boundInputs := boundInputs[k := r.inputs[k]];
      }
      skipAllowed := allowed;
      ok := true;
    }

    method BindOutput(r: Request, o: nat)
      requires Valid() && !isFirstRun && o < engine.outputCount
      modifies this`outputTensors, this`boundOutputs, this`deferred
      ensures Valid() && View() == WithOutput(engine, old(View()), r, o)
    {
      var shape := engine.shapeOf(o, boundInputs);
      if shape.None? || o in deferred {
        deferred := deferred + {o};
        outputTensors := outputTensors[o := OutputParams(0, None)];
      } else {
        var data := r.give(o, shape.value);
        boundOutputs := boundOutputs[o := Params(data, shape.value)];
        outputTensors := outputTensors[o := OutputParams(data, shape)];
      }
    }

    method BindOutputs(r: Request) returns (ok: bool)
      requires Valid() && !isFirstRun && (r.failure.Some? ==> r.failure.value >= |engine.inputs|)
      modifies this`outputTensors, this`boundOutputs, this`deferred
      ensures Valid() && (ok <==> !(r.failure.Some? && r.failure.value - |engine.inputs| < engine.outputCount))
      ensures View() == WithOutputs(engine, old(View()), r,
                                    if ok then engine.outputCount else r.failure.value - |engine.inputs|)
    {
      for o := 0 to engine.outputCount
        invariant Valid() && View() == WithOutputs(engine, old(View()), r, o) && !isFirstRun
        invariant r.failure.Some? ==> r.failure.value >= |engine.inputs| + o
      {
        if r.failure == Some(|engine.inputs| + o) {
          return false;
        }
        BindOutput(r, o);
      }
      ok := true;
    }

    // --- Running --------------------------------------------------------------------------------

    method SelectProfile(r: Request) returns (changed: bool)
      requires Valid()
      modifies this`profile, this`boundInputs, this`boundOutputs
      ensures Valid() && View() == WithProfile(engine, old(View()), r)
      ensures changed <==> WithProfile(engine, old(View()), r) != old(View())
    {
      changed := engine.manyProfiles && profile != r.profile;
      if changed {
        profile, boundInputs, boundOutputs := r.profile, map[], map[];
      }
    }

    method Compute(r: Request) returns (ok: bool, skipped: bool)
      requires Valid() && IsRequest(engine, r)
      modifies this
      ensures Valid() && View() == AfterRun(engine, old(View()), r)
      ensures skipped <==> Skips(engine, old(View()), r)
      ensures !ok <==> !skipped && r.failure.Some? && r.failure.value < |engine.inputs| + engine.outputCount
      ensures r.failure.None? && !skipped ==> BindsAll(engine, old(deferred), View(), r)
      ensures r.failure.None? ==> ok && (old(IsSound(engine, View())) ==> IsSound(engine, View()))
    {
      if r.failure.None? && IsSoundNow() {
        RunKeepsSound(engine, View(), r);
      }
      if r.failure.None? && !Skips(engine, View(), r) {
        RunBindsAll(engine, View(), r);
      }
      var changed := SelectProfile(r);
      var required := IsIOBindingRequired(r);
      required := required || changed;
      ok, skipped := true, !required;
      if required {
        ok := BindInputs(r);
        if ok {
          ok := BindOutputs(r);
        }
      }
    }

    ghost predicate IsSoundNow()
      reads this
    {
      IsSound(engine, View())
    }
  }
}
