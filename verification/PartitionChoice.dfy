/**
 * Which groups are handed to the runtime in the end
 * (src/tensorrt_rtx_execution_provider.cc:3946-3994), and how the edges looked at relate to the
 * dependencies of the graph.
 */
module PartitionChoice {
  import opened PartitionGraph
  import opened PartitionCycles

  function LargeEnough(groups: seq<Group>, minSize: nat): (kept: seq<Group>)
    ensures forall g :: g in kept <==> g in groups && |g| >= minSize
  {
    if groups == [] then []
    else
      var rest := LargeEnough(groups[..|groups| - 1], minSize);
      var g := groups[|groups| - 1];
      if |g| < minSize then rest else rest + [g]
  }

  // The groups kept are those of enough nodes, in their order.
  ghost predicate AreTheLarge(groups: seq<Group>, minSize: nat, kept: seq<Group>) {
    if groups == [] then kept == []
    else if |groups[0]| >= minSize then
      kept != [] && kept[0] == groups[0] && AreTheLarge(groups[1..], minSize, kept[1..])
    else AreTheLarge(groups[1..], minSize, kept)
  }

  lemma {:induction false} OneMoreGroup(groups: seq<Group>, g: Group, minSize: nat, kept: seq<Group>)
    requires AreTheLarge(groups, minSize, kept)
    ensures AreTheLarge(groups + [g], minSize, if |g| >= minSize then kept + [g] else kept)
    decreases |groups|
  {
    var more := groups + [g];
    if groups == [] {
      assert more[1..] == [] && ([] + [g])[1..] == [];
    } else {
      assert more[1..] == groups[1..] + [g];
      if |groups[0]| >= minSize {
        OneMoreGroup(groups[1..], g, minSize, kept[1..]);
        assert (kept + [g])[1..] == kept[1..] + [g];
      } else {
        OneMoreGroup(groups[1..], g, minSize, kept);
      }
    }
  }

  lemma {:induction false} LargeEnoughAreTheLarge(groups: seq<Group>, minSize: nat)
    ensures AreTheLarge(groups, minSize, LargeEnough(groups, minSize))
    decreases |groups|
  {
    if groups != [] {
      var last := |groups| - 1;
      LargeEnoughAreTheLarge(groups[..last], minSize);
      OneMoreGroup(groups[..last], groups[last], minSize, LargeEnough(groups[..last], minSize));
      assert groups[..last] + [groups[last]] == groups;
    }
  }

  method DropSmallGroups(groups: seq<Group>, minSize: nat) returns (kept: seq<Group>)
    ensures kept == LargeEnough(groups, minSize)
  {
    kept := groups;
    var i := 0;
    ghost var seen: nat := 0;
    while i < |kept|
      invariant 0 <= i <= |kept| && seen + |kept| - i == |groups|
      invariant kept[..i] == LargeEnough(groups[..seen], minSize) && kept[i..] == groups[seen..]
      decreases |kept| - i
    {
      assert kept[i] == kept[i..][0] == groups[seen];
      assert groups[..seen + 1][..seen] == groups[..seen];
      if |kept[i]| < minSize {
        kept := Without(kept, i);
      } else {
        i := i + 1;
      }
      seen := seen + 1;
    }
    assert kept[..i] == kept && groups[..seen] == groups;
  }

  function Flatten(groups: seq<Group>): (all: Group)
    ensures forall i: nat :: i in all <==> exists g :: g in groups && i in g
  {
    if groups == [] then []
    else
      assert groups == groups[..|groups| - 1] + [groups[|groups| - 1]];
      Flatten(groups[..|groups| - 1]) + groups[|groups| - 1]
  }

  lemma {:induction false} FlattenJoins(a: seq<Group>, b: seq<Group>)
    ensures Flatten(a + b) == Flatten(a) + Flatten(b)
    decreases |b|
  {
    if b == [] {
      assert a + b == a;
    } else {
      var last := |b| - 1;
      FlattenJoins(a, b[..last]);
      assert (a + b)[..|a| + last] == a + b[..last];
    }
  }

  // The members of the groups, one group after the other.
  ghost predicate AreAllMembers(groups: seq<Group>, all: Group) {
    if groups == [] then all == []
    else |groups[0]| <= |all| && all[..|groups[0]|] == groups[0] && AreAllMembers(groups[1..], all[|groups[0]|..])
  }

  lemma {:induction false} FlattenIsAllMembers(groups: seq<Group>)
    ensures AreAllMembers(groups, Flatten(groups))
    decreases |groups|
  {
    if groups != [] {
      FlattenJoins([groups[0]], groups[1..]);
      assert [groups[0]] + groups[1..] == groups;
      var first := [groups[0]];
      assert first[..0] == [] && Flatten(first) == Flatten([]) + groups[0];
      FlattenIsAllMembers(groups[1..]);
      assert Flatten(groups)[|groups[0]|..] == Flatten(groups[1..]);
    }
  }

  method Consolidate(groups: seq<Group>) returns (nodesVector: Group)
    ensures nodesVector == Flatten(groups) && AreAllMembers(groups, nodesVector)
  {
    FlattenIsAllMembers(groups);
    nodesVector := [];
    for k := 0 to |groups|
      invariant nodesVector == Flatten(groups[..k])
    {
      assert groups[..k + 1][..k] == groups[..k];
      if groups[k] != [] {
        nodesVector := nodesVector + groups[k];
      }
    }
    assert groups[..|groups|] == groups;
  }

  // Groups are dropped for being small, then for lying on cycles; what is left is fused into one
  // group exactly when that makes no new cycle. The least size is never configured below one.
  method ChoosePartition(nodes: seq<Node>, supported: seq<Group>, minSize: nat)
    returns (chosen: seq<Group>, ghost erased: seq<nat>, ghost separate: seq<Group>, ghost order: seq<Vertex>)
    requires minSize >= 1
    ensures IsRemoval(nodes, LargeEnough(supported, minSize), erased, separate)
    ensures IsWellNamedDag(nodes) ==> ErasesFromCycles(nodes, LargeEnough(supported, minSize), erased)
    ensures NoneEmpty(chosen) && AreTheLarge(supported, minSize, LargeEnough(supported, minSize))
    ensures AreAllMembers(separate, Flatten(separate))
    ensures chosen == separate || (|separate| > 1 && chosen == [Flatten(separate)])
    ensures |separate| > 1 && !HasCycle(nodes, [Flatten(separate)]) ==> chosen == [Flatten(separate)]
    ensures forall i: nat :: Grouped(chosen, i) <==> Grouped(separate, i)
    ensures IsWellNamedDag(nodes) ==> !HasCycle(nodes, chosen)
    ensures IsWellNamedDag(nodes) ==> IsSchedule(nodes, chosen, order)
  {
    var groups := DropSmallGroups(supported, minSize);
    var detected;
    detected, chosen, erased, order := DetectTensorRTGraphCycles(nodes, groups, true);
    separate := chosen;
    RemovalErasesFromCycles(nodes, groups, erased, separate);
    FlattenIsAllMembers(separate);
    LargeEnoughAreTheLarge(supported, minSize);
    if |chosen| > 1 {
      var nodesVector := Consolidate(chosen);
      var again, same;
      ghost var none, fusedOrder;
      again, same, none, fusedOrder := DetectTensorRTGraphCycles(nodes, [nodesVector], false);
      if !again {
        chosen, order := [nodesVector], fusedOrder;
        assert separate[0] in separate && separate[0] != [] && separate[0][0] in nodesVector;
        assert nodesVector in chosen;
      }
    }
  }

  // --- Dependencies ---------------------------------------------------------------------------

  // What a vertex really needs before it can run: for a group, also what the subgraphs of its
  // members capture.
  ghost predicate Needs(nodes: seq<Node>, groups: seq<Group>, v: Vertex, tensor: string) {
    match v
    case Kernel(k) =>
      && k < |NonEmpty(groups)| && !GroupProduces(nodes, NonEmpty(groups)[k], tensor)
      && exists i: nat :: i in NonEmpty(groups)[k] && i < |nodes| && NodeConsumes(nodes[i], tensor)
    case Plain(name) => Consumes(nodes, groups, v, tensor)
  }

  ghost predicate DependsOn(nodes: seq<Node>, groups: seq<Group>, p: Vertex, c: Vertex) {
    exists tensor :: Produces(nodes, groups, p, tensor) && Needs(nodes, groups, c, tensor)
  }

  // Every captured tensor of a grouped node is made inside the group, read by the group in the
  // open, or made by no node of this graph.
  ghost predicate CapturesAreCovered(nodes: seq<Node>, groups: seq<Group>) {
    forall g, i: nat, tensor ::
      g in groups && i in g && i < |nodes| && tensor in nodes[i].implicits ==>
        || GroupProduces(nodes, g, tensor) || GroupConsumes(nodes, g, tensor)
        || forall j :: 0 <= j < |nodes| ==> !NodeProduces(nodes[j], tensor)
  }

  // The tensors a vertex is recorded to read are those it needs, of all that are made in the
  // graph, just when the captures are covered.
  lemma CapturesDecideTensors(nodes: seq<Node>, groups: seq<Group>)
    ensures CapturesAreCovered(nodes, groups)
       <==> forall p, c, tensor :: Produces(nodes, groups, p, tensor) ==>
              (Consumes(nodes, groups, c, tensor) <==> Needs(nodes, groups, c, tensor))
  {
    if CapturesAreCovered(nodes, groups) {
      forall p, c, tensor | Produces(nodes, groups, p, tensor)
        ensures Consumes(nodes, groups, c, tensor) <==> Needs(nodes, groups, c, tensor)
      {
        CoveredTensors(nodes, groups, p, c, tensor);
      }
    }
    if forall p, c, tensor :: Produces(nodes, groups, p, tensor) ==>
         (Consumes(nodes, groups, c, tensor) <==> Needs(nodes, groups, c, tensor))
    {
      forall g, i: nat, tensor, j: nat | g in groups && i in g && i < |nodes| && tensor in nodes[i].implicits &&
                                         j < |nodes| && NodeProduces(nodes[j], tensor)
        ensures GroupProduces(nodes, g, tensor) || GroupConsumes(nodes, g, tensor)
      {
        var k := GroupIsKernel(groups, g);
        var p := MakerExists(nodes, groups, j, tensor);
        assert NodeConsumes(nodes[i], tensor);
        assert Consumes(nodes, groups, Kernel(k), tensor) <==> Needs(nodes, groups, Kernel(k), tensor);
      }
    }
  }

  lemma GroupIsKernel(groups: seq<Group>, g: Group) returns (k: nat)
    requires g in groups && g != []
    ensures k < |NonEmpty(groups)| && NonEmpty(groups)[k] == g
  {
    assert g in NonEmpty(groups);
    k :| k < |NonEmpty(groups)| && NonEmpty(groups)[k] == g;
  }

  lemma MakerExists(nodes: seq<Node>, groups: seq<Group>, j: nat, tensor: string) returns (p: Vertex)
    requires j < |nodes| && NodeProduces(nodes[j], tensor)
    ensures Produces(nodes, groups, p, tensor)
  {
    if Grouped(groups, j) {
      var g :| g in groups && j in g;
      var k := GroupIsKernel(groups, g);
      p := Kernel(k);
    } else {
      p := Plain(nodes[j].name);
      assert IsLoose(nodes, groups, j, nodes[j].name);
    }
  }

  lemma CoveredTensors(nodes: seq<Node>, groups: seq<Group>, p: Vertex, c: Vertex, tensor: string)
    requires CapturesAreCovered(nodes, groups) && Produces(nodes, groups, p, tensor)
    ensures Consumes(nodes, groups, c, tensor) <==> Needs(nodes, groups, c, tensor)
  {
    if c.Kernel? && c.index < |NonEmpty(groups)| {
      var g := NonEmpty(groups)[c.index];
      assert g in groups;
      ProducedByNode(nodes, groups, p, tensor);
      if Needs(nodes, groups, c, tensor) {
        var i: nat :| i in g && i < |nodes| && NodeConsumes(nodes[i], tensor);
        assert GroupConsumes(nodes, g, tensor);
      }
      ReadIsNeeded(nodes, groups, c, tensor);
    }
  }

  // Whatever a vertex is recorded to read it needs.
  lemma ReadIsNeeded(nodes: seq<Node>, groups: seq<Group>, c: Vertex, tensor: string)
    requires tensor != ""
    ensures Consumes(nodes, groups, c, tensor) ==> Needs(nodes, groups, c, tensor)
  {
    if c.Kernel? && Consumes(nodes, groups, c, tensor) {
      var i: nat :| i in NonEmpty(groups)[c.index] && i < |nodes| && tensor in nodes[i].inputs;
      assert NodeConsumes(nodes[i], tensor);
    }
  }

  // Member i of the k-th kernel captures a tensor made elsewhere.
  ghost predicate Captures(nodes: seq<Node>, groups: seq<Group>, k: nat, i: nat, tensor: string) {
    && k < |NonEmpty(groups)| && i in NonEmpty(groups)[k] && i < |nodes| && tensor in nodes[i].implicits
    && !GroupProduces(nodes, NonEmpty(groups)[k], tensor)
  }

  // What makes a captured tensor feeds the kernel in the open, be it by another tensor.
  ghost predicate CapturesAreFed(nodes: seq<Node>, groups: seq<Group>) {
    forall p, k: nat, i: nat, tensor {:trigger Produces(nodes, groups, p, tensor), Captures(nodes, groups, k, i, tensor)} ::
      Produces(nodes, groups, p, tensor) && Captures(nodes, groups, k, i, tensor) ==> Edge(nodes, groups, p, Kernel(k))
  }

  lemma EdgeIsDependency(nodes: seq<Node>, groups: seq<Group>, p: Vertex, c: Vertex)
    ensures Edge(nodes, groups, p, c) ==> DependsOn(nodes, groups, p, c)
  {
    if Edge(nodes, groups, p, c) {
      var tensor :| Produces(nodes, groups, p, tensor) && Consumes(nodes, groups, c, tensor);
      ProducedByNode(nodes, groups, p, tensor);
      ReadIsNeeded(nodes, groups, c, tensor);
    }
  }

  // The edges searched are the dependencies just when every capture is fed.
  lemma EdgesAreDependencies(nodes: seq<Node>, groups: seq<Group>)
    ensures CapturesAreFed(nodes, groups)
       <==> forall p, c :: Edge(nodes, groups, p, c) <==> DependsOn(nodes, groups, p, c)
    ensures CapturesAreCovered(nodes, groups) ==> CapturesAreFed(nodes, groups)
  {
    forall p, c ensures Edge(nodes, groups, p, c) ==> DependsOn(nodes, groups, p, c) {
      EdgeIsDependency(nodes, groups, p, c);
    }
    if CapturesAreFed(nodes, groups) {
      forall p, c | DependsOn(nodes, groups, p, c) ensures Edge(nodes, groups, p, c) {
        DependencyIsFed(nodes, groups, p, c);
      }
    }
    forall p, k: nat, i: nat, tensor | Produces(nodes, groups, p, tensor) && Captures(nodes, groups, k, i, tensor)
      ensures Needs(nodes, groups, Kernel(k), tensor) && DependsOn(nodes, groups, p, Kernel(k))
    {
      ProducedByNode(nodes, groups, p, tensor);
      assert NodeConsumes(nodes[i], tensor);
    }
    if CapturesAreCovered(nodes, groups) {
      CapturesDecideTensors(nodes, groups);
    }
  }

  lemma DependencyIsFed(nodes: seq<Node>, groups: seq<Group>, p: Vertex, c: Vertex)
    requires CapturesAreFed(nodes, groups) && DependsOn(nodes, groups, p, c)
    ensures Edge(nodes, groups, p, c)
  {
    var tensor :| Produces(nodes, groups, p, tensor) && Needs(nodes, groups, c, tensor);
    if c.Kernel? && !Consumes(nodes, groups, c, tensor) {
      var g := NonEmpty(groups)[c.index];
      var i: nat :| i in g && i < |nodes| && NodeConsumes(nodes[i], tensor);
      assert tensor in nodes[i].inputs ==> GroupConsumes(nodes, g, tensor);
      assert Captures(nodes, groups, c.index, i, tensor);
    }
  }

  ghost predicate IsDependencyCycle(nodes: seq<Node>, groups: seq<Group>, cycle: seq<Vertex>) {
    && cycle != []
    && forall i {:trigger Next(cycle, i)} :: 0 <= i < |cycle| ==> DependsOn(nodes, groups, cycle[i], Next(cycle, i))
  }

  // A partition is never turned down but for a real cycle, and where captures are fed every real
  // cycle is seen.
  lemma SearchedCyclesAreReal(nodes: seq<Node>, groups: seq<Group>, cycle: seq<Vertex>)
    ensures IsCycle(nodes, groups, cycle) ==> IsDependencyCycle(nodes, groups, cycle)
    ensures CapturesAreFed(nodes, groups) && IsDependencyCycle(nodes, groups, cycle) ==> IsCycle(nodes, groups, cycle)
  {
    forall i {:trigger Next(cycle, i)} | 0 <= i < |cycle|
      ensures Edge(nodes, groups, cycle[i], Next(cycle, i)) ==> DependsOn(nodes, groups, cycle[i], Next(cycle, i))
      ensures CapturesAreFed(nodes, groups) && DependsOn(nodes, groups, cycle[i], Next(cycle, i)) ==>
          Edge(nodes, groups, cycle[i], Next(cycle, i))
    {
      EdgeIsDependency(nodes, groups, cycle[i], Next(cycle, i));
      if CapturesAreFed(nodes, groups) && DependsOn(nodes, groups, cycle[i], Next(cycle, i)) {
        DependencyIsFed(nodes, groups, cycle[i], Next(cycle, i));
      }
    }
  }

  lemma ProducedByNode(nodes: seq<Node>, groups: seq<Group>, p: Vertex, tensor: string)
    requires Produces(nodes, groups, p, tensor)
    ensures tensor != "" && exists j :: 0 <= j < |nodes| && NodeProduces(nodes[j], tensor)
  {
    match p
    case Kernel(k) =>
      var i: nat :| i in NonEmpty(groups)[k] && i < |nodes| && tensor in nodes[i].outputs && tensor != "";
      assert NodeProduces(nodes[i], tensor);
    case Plain(name) =>
  }

  // Nodes listed so that producers come first form a DAG.
  lemma ListedInOrderIsDag(nodes: seq<Node>)
    requires forall u, v :: Feeds(nodes, u, v) ==> u < v
    ensures IsDag(nodes)
  {
    forall cycle: seq<nat> ensures !IsNodeCycle(nodes, cycle) {
      if IsNodeCycle(nodes, cycle) {
        NodeWalkGoesUp(nodes, cycle, |cycle| - 1);
        var closing := NextNode(cycle, |cycle| - 1);
        assert false;
      }
    }
  }

  lemma {:induction false} NodeWalkGoesUp(nodes: seq<Node>, cycle: seq<nat>, k: nat)
    requires forall u, v :: Feeds(nodes, u, v) ==> u < v
    requires IsNodeCycle(nodes, cycle) && k < |cycle|
    ensures cycle[0] <= cycle[k]
  {
    if k > 0 {
      NodeWalkGoesUp(nodes, cycle, k - 1);
      assert NextNode(cycle, k - 1) == cycle[k];
      assert Feeds(nodes, cycle[k - 1], NextNode(cycle, k - 1));
    }
  }

  ghost predicate IsMissed(nodes: seq<Node>, groups: seq<Group>, mid: Vertex) {
    && IsWellNamedDag(nodes) && !HasCycle(nodes, groups)
    && DependsOn(nodes, groups, Kernel(0), mid) && DependsOn(nodes, groups, mid, Kernel(0))
  }

  // Without that condition the check can miss a cycle. Here "if" captures what "mid" makes from
  // what "first" makes; fusing "first" with "if" leaves a graph no order can run, and no edge of
  // the graph that is searched shows it.
  lemma CapturedTensorIsMissed()
    ensures exists nodes, groups, mid :: IsMissed(nodes, groups, mid)
  {
    var nodes, groups, mid := CapturingNodes(), [[0, 2]], Plain("mid");
    CapturingIsDag();
    var order := CapturingSchedule();
    ScheduleExcludesCycles(nodes, groups, order);
    assert DependsOn(nodes, groups, Kernel(0), mid) by {
      CapturingTensors(mid, "x");
      CapturingTensors(Kernel(0), "x");
    }
    assert DependsOn(nodes, groups, mid, Kernel(0)) by {
      CapturingTensors(mid, "y");
      CapturingTensors(Kernel(0), "y");
    }
    assert IsMissed(nodes, groups, mid);
  }

  // An order in which every edge of the example leads back.
  lemma CapturingSchedule() returns (order: seq<Vertex>)
    ensures IsSchedule(CapturingNodes(), [[0, 2]], order)
  {
    order := [Plain("mid"), Kernel(0)];
    var nodes, groups: seq<Group> := CapturingNodes(), [[0, 2]];
    forall v | Exists(nodes, groups, v) ensures v in order {
      CapturingTensors(v, "");
      assert order[0] in order && order[1] in order;
    }
    forall i, c {:trigger Edge(nodes, groups, order[i], c)} | 0 <= i < |order| && Edge(nodes, groups, order[i], c)
      ensures c in order[..i]
    {
      var tensor :| Produces(nodes, groups, order[i], tensor) && Consumes(nodes, groups, c, tensor);
      CapturingTensors(order[i], tensor);
      CapturingTensors(c, tensor);
      assert order[..1] == [order[0]];
    }
  }

  function CapturingNodes(): (nodes: seq<Node>) {
    [Node("first", [], [], ["x"]), Node("mid", ["x"], [], ["y"]), Node("if", [], ["y"], ["z"])]
  }

  lemma CapturingIsDag()
    ensures IsWellNamedDag(CapturingNodes())
  {
    var nodes := CapturingNodes();
    assert nodes[0].inputs == nodes[0].implicits == [];
    forall u: nat, v: nat | Feeds(nodes, u, v) ensures u < v {
      var tensor :| NodeProduces(nodes[u], tensor) && NodeConsumes(nodes[v], tensor);
      assert v == 1 ==> tensor == "x";
      assert v == 2 ==> tensor == "y";
    }
    ListedInOrderIsDag(nodes);
  }

  // Every vertex of the example with what it makes, reads and needs.
  lemma CapturingTensors(v: Vertex, tensor: string)
    ensures var nodes, groups := CapturingNodes(), [[0, 2]];
      && (Exists(nodes, groups, v) <==> v == Kernel(0) || v == Plain("mid"))
      && (Produces(nodes, groups, v, tensor) <==>
            (v == Kernel(0) && tensor in {"x", "z"}) || (v == Plain("mid") && tensor == "y"))
      && (Consumes(nodes, groups, v, tensor) <==> v == Plain("mid") && tensor == "x")
      && (Needs(nodes, groups, v, tensor) <==>
            (v == Kernel(0) && tensor == "y") || (v == Plain("mid") && tensor == "x"))
  {
    var nodes, groups: seq<Group> := CapturingNodes(), [[0, 2]];
    assert NonEmpty(groups) == groups by {
      assert groups[1..] == [];
    }
    assert groups[0] in groups && 0 in groups[0] && 2 in groups[0];
    forall i: nat ensures Grouped(groups, i) <==> i == 0 || i == 2 {
    }
    assert IsLoose(nodes, groups, 1, "mid");
    assert nodes[0].outputs == ["x"] && nodes[1].outputs == ["y"] && nodes[2].outputs == ["z"];
    assert nodes[0].inputs == [] && nodes[1].inputs == ["x"] && nodes[2].inputs == [];
    assert nodes[0].implicits == [] && nodes[1].implicits == [] && nodes[2].implicits == ["y"];
    assert GroupProduces(nodes, groups[0], tensor) <==> tensor == "x" || tensor == "z";
  }
}
