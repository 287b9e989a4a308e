/**
 * Cycle detection and removal over candidate groups, and the choice between separate groups and
 * one consolidated group (src/tensorrt_rtx_execution_provider.cc:2584-2801, 3964-3994).
 */
module PartitionCycles {
  import opened PartitionGraph
  import opened PartitionTables
  import opened CycleSearch

  // --- From walks over indices to cycles over vertices ----------------------------------------

  ghost predicate InRange(t: Tables, walk: seq<nat>) {
    forall i :: 0 <= i < |walk| ==> walk[i] < |t.names|
  }

  ghost function VerticesOf(t: Tables, walk: seq<nat>): (vs: seq<Vertex>)
    requires InRange(t, walk)
    ensures |vs| == |walk| && forall i :: 0 <= i < |walk| ==> vs[i] == t.names[walk[i]]
  {
    seq(|walk|, i requires 0 <= i < |walk| => t.names[walk[i]])
  }

  // A closed walk is a cycle, and the first entries recorded are exactly its vertices.
  lemma ClosedWalkIsCycle(
    nodes: seq<Node>, groups: seq<Group>, t: Tables, adjacency: seq<seq<nat>>, i: nat, walk: seq<nat>, start: nat,
    cycles: seq<nat>)
    requires AdjacencyFor(nodes, groups, t, adjacency) && Closes(adjacency, [i], walk, start, cycles)
    ensures |walk| - start <= |cycles| && IsCycle(nodes, groups, VerticesOf(t, walk[start..]))
    ensures forall c :: c in cycles[..|walk| - start] <==> c in walk[start..]
    ensures InRange(t, cycles)
  {
    var loop := walk[start..];
    var cycle := VerticesOf(t, loop);
    forall k: nat {:trigger Next(cycle, k)} | k < |cycle| ensures Edge(nodes, groups, cycle[k], Next(cycle, k)) {
      var next := if k + 1 == |loop| then loop[0] else loop[k + 1];
      assert next in adjacency[loop[k]];
    }
    var first := cycles[..|loop|];
    assert forall k :: 1 <= k < |first| ==> first[k] == loop[|loop| - k];
    forall c | c in loop ensures c in first {
      var k :| 0 <= k < |loop| && loop[k] == c;
      assert first[if k == 0 then 0 else |loop| - k] == c;
    }
  }

  lemma FinishedIsSchedule(
    nodes: seq<Node>, groups: seq<Group>, t: Tables, adjacency: seq<seq<nat>>, done: seq<nat>)
    requires TablesFor(nodes, groups, t) && AdjacencyFor(nodes, groups, t, adjacency)
    requires Finished(adjacency, done) && forall i :: 0 <= i < |adjacency| ==> i in done
    ensures IsSchedule(nodes, groups, VerticesOf(t, done))
  {
    var order := VerticesOf(t, done);
    forall v | Exists(nodes, groups, v) ensures v in order {
      assert v in t.index && t.index[v] in done;
      var k :| 0 <= k < |done| && done[k] == t.index[v];
      assert order[k] == v;
    }
    forall i, c {:trigger Edge(nodes, groups, order[i], c)} | 0 <= i < |order| && Edge(nodes, groups, order[i], c)
      ensures c in order[..i]
    {
      EdgeJoinsVertices(nodes, groups, order[i], c);
      assert t.index[c] in adjacency[done[i]];
      var k :| 0 <= k < i && done[..i][k] == t.index[c];
      assert order[..i][k] == c;
    }
  }

  // --- One search -----------------------------------------------------------------------------

  // Either the recorded indices start with a cycle of `length` vertices, or every vertex has been
  // put in a schedule.
  ghost predicate SearchResult(
    nodes: seq<Node>, groups: seq<Group>, t: Tables, found: bool, cycles: seq<nat>, cycle: seq<Vertex>,
    order: seq<Vertex>) {
    && InRange(t, cycles)
    && (found ==>
          && IsCycle(nodes, groups, cycle) && |cycle| <= |cycles|
          && (forall k :: 0 <= k < |cycle| ==> t.names[cycles[k]] in cycle)
          && (forall v :: v in cycle ==> exists k :: 0 <= k < |cycle| && t.names[cycles[k]] == v))
    && (!found ==> IsSchedule(nodes, groups, order))
  }

  method FindCycle(nodes: seq<Node>, groups: seq<Group>)
    returns (found: bool, t: Tables, cycles: seq<nat>, ghost cycle: seq<Vertex>, ghost order: seq<Vertex>)
    ensures TablesFor(nodes, groups, t)
    ensures SearchResult(nodes, groups, t, found, cycles, cycle, order)
  {
    t := BuildTables(nodes, groups);
    var adjacency := BuildAdjacency(nodes, groups, t);
    var graphSize := |t.names|;
    var visited := new bool[graphSize](_ => false);
    var st := new bool[graphSize](_ => false);
    found, cycles, cycle, order := false, [], [], [];
    ghost var done: seq<nat> := [];
    var i := 0;
    while i < graphSize
      invariant 0 <= i <= graphSize
      invariant Searching(adjacency, visited[..], st[..], [], done)
      invariant forall v :: 0 <= v < i ==> v in done
      invariant cycles == []
    {
      ghost var walk, start;
      assert [] + [i] == [i];
      found, cycles, done, walk, start := FindCycleHelper(i, adjacency, visited, st, [], done);
      if found {
        ClosedWalkIsCycle(nodes, groups, t, adjacency, i, walk, start, cycles);
        cycle := VerticesOf(t, walk[start..]);
        CycleIsRecordedFirst(t, walk[start..], cycles);
        return;
      }
      i := i + 1;
    }
    FinishedIsSchedule(nodes, groups, t, adjacency, done);
    order := VerticesOf(t, done);
  }

  lemma CycleIsRecordedFirst(t: Tables, loop: seq<nat>, cycles: seq<nat>)
    requires InRange(t, loop) && InRange(t, cycles)
    requires |loop| <= |cycles| && forall c :: c in cycles[..|loop|] <==> c in loop
    ensures forall k :: 0 <= k < |loop| ==> t.names[cycles[k]] in VerticesOf(t, loop)
    ensures forall v :: v in VerticesOf(t, loop) ==> exists k :: 0 <= k < |loop| && t.names[cycles[k]] == v
  {
    var vs := VerticesOf(t, loop);
    forall k | 0 <= k < |loop| ensures t.names[cycles[k]] in vs {
      assert cycles[..|loop|][k] in loop;
      var m :| 0 <= m < |loop| && loop[m] == cycles[k];
      assert vs[m] == t.names[cycles[k]];
    }
    forall v | v in vs ensures exists k :: 0 <= k < |loop| && t.names[cycles[k]] == v {
      var m :| 0 <= m < |vs| && vs[m] == v;
      assert loop[m] in cycles[..|loop|];
      var k :| 0 <= k < |loop| && cycles[..|loop|][k] == loop[m];
      assert t.names[cycles[k]] == v;
    }
  }

  // --- Removal --------------------------------------------------------------------------------

  function Without(groups: seq<Group>, k: nat): (rest: seq<Group>)
    requires k < |groups|
    ensures |rest| == |groups| - 1 && forall g :: g in rest ==> g in groups
  {
    groups[..k] + groups[k + 1..]
  }

  // What is asked of the original graph: it is a DAG and no two of its nodes share a name.
  ghost predicate IsWellNamedDag(nodes: seq<Node>) {
    && IsDag(nodes)
    && forall i, j :: 0 <= i < j < |nodes| ==> nodes[i].name != nodes[j].name
  }

  lemma WellNamedCyclesHaveKernels(nodes: seq<Node>, groups: seq<Group>)
    requires IsWellNamedDag(nodes)
    ensures CyclesHaveKernels(nodes, groups)
  {
    forall i: nat, j: nat, name {:trigger IsLoose(nodes, groups, i, name), IsLoose(nodes, groups, j, name)} |
      IsLoose(nodes, groups, i, name) && IsLoose(nodes, groups, j, name) ensures i == j {
      assert !(i < j) && !(j < i);
    }
    DagCyclesHaveKernels(nodes, groups);
  }

  // One round of removal: the number of a kernel is used as the position of the group to erase,
  // and that is the kernel's own group. The kernel lies on a cycle whenever every cycle has one.
  ghost predicate IsRound(nodes: seq<Node>, before: seq<Group>, after: seq<Group>, k: nat) {
    && k < |NonEmpty(before)| && k < |before| && after == before[..k] + before[k + 1..]
    && (NoneEmpty(before) ==> before[k] == NonEmpty(before)[k])
    && HasCycle(nodes, before)
    && (CyclesHaveKernels(nodes, before) ==> exists cycle :: IsCycle(nodes, before, cycle) && Kernel(k) in cycle)
  }

  ghost predicate IsRemoval(nodes: seq<Node>, groups: seq<Group>, erased: seq<nat>, kept: seq<Group>)
    decreases erased
  {
    if erased == [] then kept == groups
    else
      && erased[0] < |groups|
      && IsRound(nodes, groups, Without(groups, erased[0]), erased[0])
      && IsRemoval(nodes, Without(groups, erased[0]), erased[1..], kept)
  }

  lemma RemovalGoesOn(nodes: seq<Node>, groups: seq<Group>, erased: seq<nat>, before: seq<Group>, k: nat)
    requires IsRemoval(nodes, groups, erased, before)
    requires k < |before| && IsRound(nodes, before, Without(before, k), k)
    ensures IsRemoval(nodes, groups, erased + [k], Without(before, k))
    decreases erased
  {
    if erased == [] {
      assert ([k])[1..] == [];
    } else {
      RemovalGoesOn(nodes, Without(groups, erased[0]), erased[1..], before, k);
      assert (erased + [k])[1..] == erased[1..] + [k];
    }
  }

  // Every group erased is, at the time, the group of a kernel on a cycle.
  ghost predicate ErasesFromCycles(nodes: seq<Node>, groups: seq<Group>, erased: seq<nat>)
    decreases erased
  {
    erased == [] ||
    (&& erased[0] < |groups| && NonEmpty(groups) == groups
     && (exists cycle :: IsCycle(nodes, groups, cycle) && Kernel(erased[0]) in cycle)
     && ErasesFromCycles(nodes, Without(groups, erased[0]), erased[1..]))
  }

  lemma {:induction false} RemovalErasesFromCycles(
    nodes: seq<Node>, groups: seq<Group>, erased: seq<nat>, kept: seq<Group>)
    requires IsRemoval(nodes, groups, erased, kept) && NoneEmpty(groups)
    ensures NoneEmpty(kept)
    ensures IsWellNamedDag(nodes) ==> ErasesFromCycles(nodes, groups, erased)
    decreases erased
  {
    if erased != [] {
      NoneEmptyAreKernels(groups);
      RemovalErasesFromCycles(nodes, Without(groups, erased[0]), erased[1..], kept);
      if IsWellNamedDag(nodes) {
        WellNamedCyclesHaveKernels(nodes, groups);
      }
    }
  }

  // The first recorded vertex that is a kernel names the group to erase.
  method GroupToErase(t: Tables, cycles: seq<nat>, groups: seq<Group>) returns (k: nat, any: bool)
    requires InRange(t, cycles)
    requires forall v :: v in t.names && v.Kernel? ==> v.index < |groups|
    ensures any ==> exists i :: IsFirstKernel(t, cycles, i, k)
    ensures !any ==> forall i :: 0 <= i < |cycles| ==> t.names[cycles[i]].Plain?
  {
    k, any := 0, false;
    for i := 0 to |cycles|
      invariant forall j :: 0 <= j < i ==> t.names[cycles[j]].Plain?
    {
      assert cycles[i] in cycles;
      var v := t.names[cycles[i]];
      if v.Kernel? {
        var sgIdx := 0;
        while sgIdx < |groups|
          invariant 0 <= sgIdx <= v.index
        {
          if Kernel(sgIdx) == v {
            assert IsFirstKernel(t, cycles, i, sgIdx);
            return sgIdx, true;
          }
          sgIdx := sgIdx + 1;
        }
      }
    }
  }

  ghost predicate IsFirstKernel(t: Tables, cycles: seq<nat>, i: nat, k: nat)
    requires InRange(t, cycles)
  {
    && i < |cycles| && t.names[cycles[i]] == Kernel(k)
    && forall j :: 0 <= j < i ==> t.names[cycles[j]].Plain?
  }

  lemma ErasedKernelIsOnCycle(
    nodes: seq<Node>, groups: seq<Group>, t: Tables, cycles: seq<nat>, cycle: seq<Vertex>, i: nat, k: nat)
    requires TablesFor(nodes, groups, t) && SearchResult(nodes, groups, t, true, cycles, cycle, [])
    requires IsFirstKernel(t, cycles, i, k)
    ensures k < |groups| && IsRound(nodes, groups, Without(groups, k), k)
  {
    assert cycles[i] in cycles;
    assert Exists(nodes, groups, Kernel(k));
    if NoneEmpty(groups) {
      NoneEmptyAreKernels(groups);
    }
    if CyclesHaveKernels(nodes, groups) {
      assert HasKernel(cycle);
      var m: nat :| Kernel(m) in cycle;
      var j :| 0 <= j < |cycle| && t.names[cycles[j]] == Kernel(m);
      assert i <= j;
      assert Kernel(k) in cycle;
    }
  }

  method DetectTensorRTGraphCycles(nodes: seq<Node>, groups: seq<Group>, removeCycles: bool)
    returns (detected: bool, kept: seq<Group>, ghost erased: seq<nat>, ghost order: seq<Vertex>)
    ensures detected <==> HasCycle(nodes, groups)
    ensures IsRemoval(nodes, groups, erased, kept)
    ensures !removeCycles ==> kept == groups
    ensures !HasCycle(nodes, kept) ==> IsSchedule(nodes, kept, order)
    ensures removeCycles && HasCycle(nodes, kept) ==> !CyclesHaveKernels(nodes, kept)
    ensures removeCycles && IsWellNamedDag(nodes) ==> !HasCycle(nodes, kept)
  {
    var trtCycle := true;
    detected, kept, erased, order := false, groups, [], [];
    while trtCycle
      invariant IsRemoval(nodes, groups, erased, kept)
      invariant !removeCycles ==> kept == groups
      invariant detected ==> HasCycle(nodes, groups)
      invariant !detected && !trtCycle ==> !HasCycle(nodes, groups)
      invariant kept != groups ==> detected
      invariant !trtCycle && !HasCycle(nodes, kept) ==> IsSchedule(nodes, kept, order)
      invariant !trtCycle && removeCycles && HasCycle(nodes, kept) ==> !CyclesHaveKernels(nodes, kept)
      decreases |kept|, trtCycle
    {
      trtCycle := false;
      var found, t, cycles;
      ghost var cycle;
      found, t, cycles, cycle, order := FindCycle(nodes, kept);
      if !found {
        ScheduleExcludesCycles(nodes, kept, order);
      } else {
        detected := true;
        if removeCycles {
          KernelsHaveGroups(nodes, kept, t);
          var k, any := GroupToErase(t, cycles, kept);
          if any {
            ghost var i :| IsFirstKernel(t, cycles, i, k);
            ErasedKernelIsOnCycle(nodes, kept, t, cycles, cycle, i, k);
            RemovalGoesOn(nodes, groups, erased, kept, k);
            kept, erased := Without(kept, k), erased + [k];
            trtCycle := true;
          } else {
            assert !HasKernel(cycle);
          }
        }
      }
    }
    if IsWellNamedDag(nodes) {
      WellNamedCyclesHaveKernels(nodes, kept);
    }
  }

  lemma KernelsHaveGroups(nodes: seq<Node>, groups: seq<Group>, t: Tables)
    requires TablesFor(nodes, groups, t)
    ensures forall v :: v in t.names && v.Kernel? ==> v.index < |groups|
  {
    forall v | v in t.names && v.Kernel? ensures v.index < |groups| {
      assert Exists(nodes, groups, v);
    }
  }
}
