/**
 * The graph that partitioning looks at when it asks whether fusing groups of nodes would create
 * a cycle (src/tensorrt_rtx_execution_provider.cc:2597-2751): one vertex for every non-empty
 * group, one for every name of a node outside the groups, and an edge wherever a tensor leaves
 * one vertex and enters another.
 */
module PartitionGraph {

  // Tensor names of one node; an unconnected input or output does not appear.
  datatype Node = Node(name: string, inputs: seq<string>, implicits: seq<string>, outputs: seq<string>)

  // Node indices of one candidate subgraph.
  type Group = seq<nat>

  // A vertex is the kernel that replaces the k-th non-empty group, or the nodes of one name.
  datatype Vertex = Kernel(index: nat) | Plain(name: string)

  function NonEmpty(groups: seq<Group>): (kept: seq<Group>)
    ensures |kept| <= |groups|
    ensures forall g :: g in kept <==> g in groups && g != []
  {
    if groups == [] then []
    else
      var rest := NonEmpty(groups[1..]);
      if groups[0] == [] then rest else [groups[0]] + rest
  }

  ghost predicate NoneEmpty(groups: seq<Group>) {
    forall g :: g in groups ==> g != []
  }

  // Without empty groups the k-th kernel stands for the k-th group.
  lemma {:induction false} NoneEmptyAreKernels(groups: seq<Group>)
    requires NoneEmpty(groups)
    ensures NonEmpty(groups) == groups
  {
    if groups != [] {
      assert forall g :: g in groups[1..] ==> g in groups;
      NoneEmptyAreKernels(groups[1..]);
      assert groups[0] in groups;
      assert groups == [groups[0]] + groups[1..];
    }
  }

  lemma NonEmptyOfPrefix(groups: seq<Group>, k: nat)
    requires k < |groups|
    ensures NonEmpty(groups[..k + 1]) == NonEmpty(groups[..k]) + (if groups[k] == [] then [] else [groups[k]])
  {
    if k == 0 {
      assert groups[..1] == [groups[0]];
    } else {
      NonEmptyOfPrefix(groups[1..], k - 1);
      assert groups[..k + 1][1..] == groups[1..][..k];
      assert groups[..k][1..] == groups[1..][..k - 1];
    }
  }

  ghost predicate Grouped(groups: seq<Group>, i: nat) {
    exists g :: g in groups && i in g
  }

  // Outputs with an empty name carry nothing.
  ghost predicate GroupProduces(nodes: seq<Node>, g: Group, tensor: string) {
    exists i: nat :: i in g && i < |nodes| && tensor in nodes[i].outputs && tensor != ""
  }

  // What a group reads from outside itself. Implicit inputs of its members are not looked at.
  ghost predicate GroupConsumes(nodes: seq<Node>, g: Group, tensor: string) {
    && !GroupProduces(nodes, g, tensor)
    && exists i: nat :: i in g && i < |nodes| && tensor in nodes[i].inputs
  }

  ghost predicate NodeConsumes(node: Node, tensor: string) {
    tensor != "" && (tensor in node.inputs || tensor in node.implicits)
  }

  ghost predicate NodeProduces(node: Node, tensor: string) {
    tensor != "" && tensor in node.outputs
  }

  ghost predicate IsLoose(nodes: seq<Node>, groups: seq<Group>, i: nat, name: string) {
    i < |nodes| && !Grouped(groups, i) && nodes[i].name == name
  }

  ghost predicate Exists(nodes: seq<Node>, groups: seq<Group>, v: Vertex) {
    match v
    case Kernel(k) => k < |NonEmpty(groups)|
    case Plain(name) => exists i: nat :: IsLoose(nodes, groups, i, name)
  }

  ghost predicate Produces(nodes: seq<Node>, groups: seq<Group>, v: Vertex, tensor: string) {
    match v
    case Kernel(k) => k < |NonEmpty(groups)| && GroupProduces(nodes, NonEmpty(groups)[k], tensor)
    case Plain(name) => exists i: nat :: IsLoose(nodes, groups, i, name) && NodeProduces(nodes[i], tensor)
  }

  ghost predicate Consumes(nodes: seq<Node>, groups: seq<Group>, v: Vertex, tensor: string) {
    match v
    case Kernel(k) => k < |NonEmpty(groups)| && GroupConsumes(nodes, NonEmpty(groups)[k], tensor)
    case Plain(name) => exists i: nat :: IsLoose(nodes, groups, i, name) && NodeConsumes(nodes[i], tensor)
  }

  ghost predicate Edge(nodes: seq<Node>, groups: seq<Group>, p: Vertex, c: Vertex) {
    exists tensor :: Produces(nodes, groups, p, tensor) && Consumes(nodes, groups, c, tensor)
  }

  function Next(cycle: seq<Vertex>, i: nat): (v: Vertex)
    requires i < |cycle|
  {
    if i + 1 == |cycle| then cycle[0] else cycle[i + 1]
  }

  ghost predicate IsCycle(nodes: seq<Node>, groups: seq<Group>, cycle: seq<Vertex>) {
    cycle != [] && forall i {:trigger Next(cycle, i)} :: 0 <= i < |cycle| ==> Edge(nodes, groups, cycle[i], Next(cycle, i))
  }

  ghost predicate HasCycle(nodes: seq<Node>, groups: seq<Group>) {
    exists cycle :: IsCycle(nodes, groups, cycle)
  }

  // An order in which every vertex can run: it lists each of them, a consumer before its
  // producers, so the schedule is the list read backwards.
  ghost predicate IsSchedule(nodes: seq<Node>, groups: seq<Group>, order: seq<Vertex>) {
    && (forall v :: Exists(nodes, groups, v) ==> v in order)
    && forall i, c {:trigger Edge(nodes, groups, order[i], c)} ::
        0 <= i < |order| && Edge(nodes, groups, order[i], c) ==> c in order[..i]
  }

  lemma EdgeJoinsVertices(nodes: seq<Node>, groups: seq<Group>, p: Vertex, c: Vertex)
    requires Edge(nodes, groups, p, c)
    ensures Exists(nodes, groups, p) && Exists(nodes, groups, c)
  {
  }

  function Position(order: seq<Vertex>, v: Vertex): (i: nat)
    requires v in order
    ensures i < |order| && order[i] == v && v !in order[..i]
  {
    if order[0] == v then 0 else 1 + Position(order[1..], v)
  }

  // A schedule and a cycle exclude one another.
  lemma ScheduleExcludesCycles(nodes: seq<Node>, groups: seq<Group>, order: seq<Vertex>)
    requires IsSchedule(nodes, groups, order)
    ensures !HasCycle(nodes, groups)
  {
    forall cycle: seq<Vertex> | IsCycle(nodes, groups, cycle) ensures false {
      WalkGoesDown(nodes, groups, order, cycle, |cycle| - 1);
      var last := |cycle| - 1;
      assert Next(cycle, last) == cycle[0];
      StepGoesDown(nodes, groups, order, cycle[last], cycle[0]);
    }
  }

  lemma StepGoesDown(nodes: seq<Node>, groups: seq<Group>, order: seq<Vertex>, p: Vertex, c: Vertex)
    requires IsSchedule(nodes, groups, order) && Edge(nodes, groups, p, c)
    ensures p in order && c in order && Position(order, c) < Position(order, p)
  {
    EdgeJoinsVertices(nodes, groups, p, c);
    var i := Position(order, p);
    assert Edge(nodes, groups, order[i], c);
    assert c in order[..i];
  }

  lemma {:induction false} WalkGoesDown(
    nodes: seq<Node>, groups: seq<Group>, order: seq<Vertex>, cycle: seq<Vertex>, k: nat)
    requires IsSchedule(nodes, groups, order) && IsCycle(nodes, groups, cycle) && k < |cycle|
    ensures cycle[0] in order && cycle[k] in order
    ensures Position(order, cycle[k]) <= Position(order, cycle[0])
    decreases k
  {
    if k == 0 {
      assert Edge(nodes, groups, cycle[0], Next(cycle, 0));
      EdgeJoinsVertices(nodes, groups, cycle[0], Next(cycle, 0));
    } else {
      WalkGoesDown(nodes, groups, order, cycle, k - 1);
      assert Next(cycle, k - 1) == cycle[k];
      StepGoesDown(nodes, groups, order, cycle[k - 1], cycle[k]);
    }
  }

  // --- The original graph --------------------------------------------------------------------

  ghost predicate Feeds(nodes: seq<Node>, u: nat, v: nat) {
    && u < |nodes| && v < |nodes|
    && exists tensor :: NodeProduces(nodes[u], tensor) && NodeConsumes(nodes[v], tensor)
  }

  function NextNode(cycle: seq<nat>, i: nat): (u: nat)
    requires i < |cycle|
  {
    if i + 1 == |cycle| then cycle[0] else cycle[i + 1]
  }

  ghost predicate IsNodeCycle(nodes: seq<Node>, cycle: seq<nat>) {
    && cycle != []
    && forall i {:trigger NextNode(cycle, i)} :: 0 <= i < |cycle| ==> Feeds(nodes, cycle[i], NextNode(cycle, i))
  }

  ghost predicate IsDag(nodes: seq<Node>) {
    forall cycle :: !IsNodeCycle(nodes, cycle)
  }

  ghost predicate LooseNamesAreDistinct(nodes: seq<Node>, groups: seq<Group>) {
    forall i: nat, j: nat, name {:trigger IsLoose(nodes, groups, i, name), IsLoose(nodes, groups, j, name)} ::
      IsLoose(nodes, groups, i, name) && IsLoose(nodes, groups, j, name) ==> i == j
  }

  ghost predicate HasKernel(cycle: seq<Vertex>) {
    exists k: nat :: Kernel(k) in cycle
  }

  // Every cycle runs through a kernel, so that there is always a group to give up.
  ghost predicate CyclesHaveKernels(nodes: seq<Node>, groups: seq<Group>) {
    forall cycle :: IsCycle(nodes, groups, cycle) ==> HasKernel(cycle)
  }

  // On an acyclic graph whose loose nodes have names of their own, only fusing makes cycles.
  lemma DagCyclesHaveKernels(nodes: seq<Node>, groups: seq<Group>)
    requires IsDag(nodes) && LooseNamesAreDistinct(nodes, groups)
    ensures CyclesHaveKernels(nodes, groups)
  {
    forall cycle: seq<Vertex> | IsCycle(nodes, groups, cycle) ensures HasKernel(cycle) {
      if !HasKernel(cycle) {
        forall i: nat | i < |cycle| ensures HasLooseAt(nodes, groups, cycle, i) {
          var next := Next(cycle, i);
          assert Edge(nodes, groups, cycle[i], next);
          EdgeJoinsVertices(nodes, groups, cycle[i], next);
          assert cycle[i] in cycle && cycle[i].Plain?;
          var u: nat :| IsLoose(nodes, groups, u, cycle[i].name);
          assert LooseAt(nodes, groups, cycle, i, u);
        }
        var walk := LooseWalk(nodes, groups, cycle, 0);
        forall i: nat {:trigger NextNode(walk, i)} | i < |walk| ensures Feeds(nodes, walk[i], NextNode(walk, i)) {
          assert LooseAt(nodes, groups, cycle, i, walk[i]);
          var j := if i + 1 == |walk| then 0 else i + 1;
          assert LooseAt(nodes, groups, cycle, j, walk[j]);
          LooseEdgeFeeds(nodes, groups, cycle, i, j, walk[i], walk[j]);
        }
        assert IsNodeCycle(nodes, walk);
      }
    }
  }

  ghost predicate LooseAt(nodes: seq<Node>, groups: seq<Group>, cycle: seq<Vertex>, i: nat, u: nat) {
    i < |cycle| && cycle[i].Plain? && IsLoose(nodes, groups, u, cycle[i].name)
  }

  ghost predicate HasLooseAt(nodes: seq<Node>, groups: seq<Group>, cycle: seq<Vertex>, i: nat) {
    exists u: nat :: LooseAt(nodes, groups, cycle, i, u)
  }

  ghost function LooseWalk(nodes: seq<Node>, groups: seq<Group>, cycle: seq<Vertex>, from: nat): (walk: seq<nat>)
    requires from <= |cycle|
    requires forall i: nat :: i < |cycle| ==> HasLooseAt(nodes, groups, cycle, i)
    ensures |walk| == |cycle| - from
    ensures forall i :: 0 <= i < |walk| ==> LooseAt(nodes, groups, cycle, from + i, walk[i])
    decreases |cycle| - from
  {
    if from == |cycle| then []
    else
      assert HasLooseAt(nodes, groups, cycle, from);
      var u :| LooseAt(nodes, groups, cycle, from, u);
      [u] + LooseWalk(nodes, groups, cycle, from + 1)
  }

  lemma LooseEdgeFeeds(nodes: seq<Node>, groups: seq<Group>, cycle: seq<Vertex>, i: nat, j: nat, u: nat, v: nat)
    requires LooseNamesAreDistinct(nodes, groups) && IsCycle(nodes, groups, cycle)
    requires LooseAt(nodes, groups, cycle, i, u) && LooseAt(nodes, groups, cycle, j, v)
    requires cycle[j] == Next(cycle, i)
    ensures Feeds(nodes, u, v)
  {
    assert Edge(nodes, groups, cycle[i], Next(cycle, i));
    var tensor :| Produces(nodes, groups, cycle[i], tensor) && Consumes(nodes, groups, cycle[j], tensor);
    var u': nat :| IsLoose(nodes, groups, u', cycle[i].name) && NodeProduces(nodes[u'], tensor);
    var v': nat :| IsLoose(nodes, groups, v', cycle[j].name) && NodeConsumes(nodes[v'], tensor);
  }
}
