/**
 * The lookup tables built once per round of cycle removal
 * (src/tensorrt_rtx_execution_provider.cc:2597-2751): vertices are numbered as they are first
 * met, then the consumers of every tensor and the tensors of every vertex are collected, and the
 * adjacency lists follow from the two.
 */
module PartitionTables {
  import opened PartitionGraph
  import CycleSearch

  datatype Tables = Tables(
    names: seq<Vertex>,                    // index_to_node_map
    index: map<Vertex, nat>,               // node_to_index_map
    consumers: map<string, set<Vertex>>,   // input_to_nodes_map
    outputs: map<Vertex, set<string>>)     // node_to_outputs_map

  ghost predicate Numbered(t: Tables) {
    && (forall v :: v in t.index ==> t.index[v] < |t.names| && t.names[t.index[v]] == v)
    && (forall i :: 0 <= i < |t.names| ==> t.names[i] in t.index && t.index[t.names[i]] == i)
  }

  predicate Reads(consumers: map<string, set<Vertex>>, v: Vertex, tensor: string) {
    tensor in consumers && v in consumers[tensor]
  }

  predicate Writes(outputs: map<Vertex, set<string>>, v: Vertex, tensor: string) {
    v in outputs && tensor in outputs[v]
  }

  // --- What the tables say once some kernels and some loose nodes have been entered -----------

  ghost predicate Named(nodes: seq<Node>, seen: set<nat>, i: nat, name: string) {
    i in seen && i < |nodes| && nodes[i].name == name
  }

  ghost predicate Entered(nodes: seq<Node>, kernels: seq<Group>, seen: set<nat>, v: Vertex) {
    match v
    case Kernel(k) => k < |kernels|
    case Plain(name) => exists i: nat :: Named(nodes, seen, i, name)
  }

  ghost predicate EnteredReads(nodes: seq<Node>, kernels: seq<Group>, seen: set<nat>, v: Vertex, tensor: string) {
    match v
    case Kernel(k) => k < |kernels| && GroupConsumes(nodes, kernels[k], tensor)
    case Plain(name) => exists i: nat :: Named(nodes, seen, i, name) && NodeConsumes(nodes[i], tensor)
  }

  ghost predicate EnteredWrites(nodes: seq<Node>, kernels: seq<Group>, seen: set<nat>, v: Vertex, tensor: string) {
    match v
    case Kernel(k) => k < |kernels| && GroupProduces(nodes, kernels[k], tensor)
    case Plain(name) => exists i: nat :: Named(nodes, seen, i, name) && NodeProduces(nodes[i], tensor)
  }

  ghost predicate Recorded(nodes: seq<Node>, kernels: seq<Group>, seen: set<nat>, t: Tables) {
    && Numbered(t)
    && (forall v :: v in t.index <==> Entered(nodes, kernels, seen, v))
    && (forall v, tensor :: Reads(t.consumers, v, tensor) <==> EnteredReads(nodes, kernels, seen, v, tensor))
    && (forall v, tensor :: Writes(t.outputs, v, tensor) <==> EnteredWrites(nodes, kernels, seen, v, tensor))
  }

  // --- Entering one vertex --------------------------------------------------------------------

  method EnterVertex(t: Tables, v: Vertex) returns (t': Tables)
    requires Numbered(t)
    ensures Numbered(t') && t'.consumers == t.consumers && t'.outputs == t.outputs
    ensures forall w :: w in t'.index <==> w in t.index || w == v
  {
    t' := t;
    if v !in t.index {
      t' := t.(names := t.names + [v], index := t.index[v := |t.names|]);
    }
  }

  method AddConsumer(consumers: map<string, set<Vertex>>, tensors: seq<string>, skipped: set<string>, v: Vertex)
    returns (c: map<string, set<Vertex>>)
    ensures forall w, x :: Reads(c, w, x) <==> Reads(consumers, w, x) || (w == v && x in tensors && x !in skipped)
  {
    c := consumers;
    for i := 0 to |tensors|
      invariant forall w, x ::
        Reads(c, w, x) <==> Reads(consumers, w, x) || (w == v && x in tensors[..i] && x !in skipped)
    {
      var tensor := tensors[i];
      ghost var before := c;
      if tensor !in skipped {
        c := c[tensor := (if tensor in c then c[tensor] else {}) + {v}];
      }
      assert tensors[..i + 1] == tensors[..i] + [tensor];
      forall w, x ensures Reads(c, w, x) <==> Reads(before, w, x) || (w == v && x == tensor && x !in skipped) {
      }
    }
    assert tensors[..|tensors|] == tensors;
  }

  method OutputNames(outputs: seq<string>) returns (names: set<string>)
    ensures forall x :: x in names <==> x in outputs && x != ""
  {
    names := {};
    for i := 0 to |outputs|
      invariant forall x :: x in names <==> x in outputs[..i] && x != ""
    {
      if outputs[i] != "" {
        names := names + {outputs[i]};
      }
    }
  }

  method AddOutputs(outputs: map<Vertex, set<string>>, v: Vertex, names: set<string>)
    returns (o: map<Vertex, set<string>>)
    ensures forall w, x :: Writes(o, w, x) <==> Writes(outputs, w, x) || (w == v && x in names)
  {
    o := outputs;
    if names != {} {
      o := o[v := (if v in o then o[v] else {}) + names];
    }
  }

  method GroupOutputs(nodes: seq<Node>, g: Group) returns (produced: set<string>)
    ensures forall x :: x in produced <==> GroupProduces(nodes, g, x)
  {
    produced := {};
    for k := 0 to |g|
      invariant forall x :: x in produced <==> GroupProduces(nodes, g[..k], x)
    {
      var i := g[k];
      assert forall j :: j in g[..k + 1] <==> j in g[..k] || j == i;
      if i < |nodes| {
        var names := OutputNames(nodes[i].outputs);
        produced := produced + names;
      }
    }
    assert g[..|g|] == g;
  }

  method AddGroupConsumer(
    nodes: seq<Node>, g: Group, produced: set<string>, consumers: map<string, set<Vertex>>, v: Vertex)
    returns (c: map<string, set<Vertex>>)
    requires forall x :: x in produced <==> GroupProduces(nodes, g, x)
    ensures forall w, x :: Reads(c, w, x) <==> Reads(consumers, w, x) || (w == v && GroupConsumes(nodes, g, x))
  {
    c := consumers;
    for k := 0 to |g|
      invariant forall w, x ::
        Reads(c, w, x) <==> Reads(consumers, w, x) || (w == v && x !in produced && InputOfSome(nodes, g[..k], x))
    {
      var i := g[k];
      assert forall j :: j in g[..k + 1] <==> j in g[..k] || j == i;
      if i < |nodes| {
        c := AddConsumer(c, nodes[i].inputs, produced, v);
      }
    }
    assert g[..|g|] == g;
  }

  ghost predicate InputOfSome(nodes: seq<Node>, g: Group, tensor: string) {
    exists i: nat :: i in g && i < |nodes| && tensor in nodes[i].inputs
  }

  method EnterGroup(nodes: seq<Node>, ghost kernels: seq<Group>, t: Tables, g: Group, k: nat) returns (t': Tables)
    requires Recorded(nodes, kernels, {}, t) && k == |kernels|
    ensures Recorded(nodes, kernels + [g], {}, t')
  {
    var v := Kernel(k);
    t' := EnterVertex(t, v);
    var produced := GroupOutputs(nodes, g);
    var consumers := AddGroupConsumer(nodes, g, produced, t'.consumers, v);
    var outputs := AddOutputs(t'.outputs, v, produced);
    t' := t'.(consumers := consumers, outputs := outputs);
  }

  method EnterNode(nodes: seq<Node>, ghost kernels: seq<Group>, ghost seen: set<nat>, t: Tables, i: nat)
    returns (t': Tables)
    requires Recorded(nodes, kernels, seen, t) && i < |nodes|
    ensures Recorded(nodes, kernels, seen + {i}, t')
  {
    var v := Plain(nodes[i].name);
    t' := EnterVertex(t, v);
    var consumers := AddConsumer(t'.consumers, nodes[i].inputs, {""}, v);
    consumers := AddConsumer(consumers, nodes[i].implicits, {""}, v);
    var names := OutputNames(nodes[i].outputs);
    var outputs := AddOutputs(t'.outputs, v, names);
    t' := t'.(consumers := consumers, outputs := outputs);
    NodeEntered(nodes, kernels, seen, i);
  }

  lemma NodeEntered(nodes: seq<Node>, kernels: seq<Group>, seen: set<nat>, i: nat)
    requires i < |nodes|
    ensures forall v :: Entered(nodes, kernels, seen + {i}, v) <==>
        Entered(nodes, kernels, seen, v) || v == Plain(nodes[i].name)
    ensures forall v, x :: EnteredReads(nodes, kernels, seen + {i}, v, x) <==>
        EnteredReads(nodes, kernels, seen, v, x) || (v == Plain(nodes[i].name) && NodeConsumes(nodes[i], x))
    ensures forall v, x :: EnteredWrites(nodes, kernels, seen + {i}, v, x) <==>
        EnteredWrites(nodes, kernels, seen, v, x) || (v == Plain(nodes[i].name) && NodeProduces(nodes[i], x))
  {
    var more := seen + {i};
    assert Named(nodes, more, i, nodes[i].name);
    forall j: nat, name ensures
      Named(nodes, more, j, name) <==> Named(nodes, seen, j, name) || (j == i && name == nodes[i].name) {
    }
  }

  // --- The whole graph ------------------------------------------------------------------------

  ghost predicate TablesFor(nodes: seq<Node>, groups: seq<Group>, t: Tables) {
    && Numbered(t)
    && (forall v :: v in t.index <==> Exists(nodes, groups, v))
    && (forall v, tensor :: Reads(t.consumers, v, tensor) <==> Consumes(nodes, groups, v, tensor))
    && (forall v, tensor :: Writes(t.outputs, v, tensor) <==> Produces(nodes, groups, v, tensor))
  }

  method BuildTables(nodes: seq<Node>, groups: seq<Group>) returns (t: Tables)
    ensures TablesFor(nodes, groups, t)
  {
    var loose: set<nat>;
    t, loose := EnterGroups(nodes, groups);
    t := EnterLoose(nodes, NonEmpty(groups), loose, t);
    AllEntered(nodes, groups, loose);
  }

  method EnterGroups(nodes: seq<Node>, groups: seq<Group>) returns (t: Tables, loose: set<nat>)
    ensures Recorded(nodes, NonEmpty(groups), {}, t)
    ensures forall i: nat :: i in loose <==> i < |nodes| && !Grouped(groups, i)
  {
    t := Tables([], map[], map[], map[]);
    loose := {};
    for i := 0 to |nodes|
      invariant forall j: nat :: j in loose <==> j < i
    {
      loose := loose + {i};
    }
    var subgraphIndex := 0;
    for k := 0 to |groups|
      invariant Recorded(nodes, NonEmpty(groups[..k]), {}, t) && subgraphIndex == |NonEmpty(groups[..k])|
      invariant forall i: nat :: i in loose <==> i < |nodes| && !Grouped(groups[..k], i)
    {
      NonEmptyOfPrefix(groups, k);
      GroupedByPrefix(groups, k);
      var g := groups[k];
      if g != [] {
        t := EnterGroup(nodes, NonEmpty(groups[..k]), t, g, subgraphIndex);
        loose := set i | i in loose && i !in g;
        subgraphIndex := subgraphIndex + 1;
      }
    }
    assert groups[..|groups|] == groups;
  }

  lemma GroupedByPrefix(groups: seq<Group>, k: nat)
    requires k < |groups|
    ensures forall i: nat :: Grouped(groups[..k + 1], i) <==> Grouped(groups[..k], i) || i in groups[k]
  {
    assert groups[..k + 1] == groups[..k] + [groups[k]];
    assert groups[k] in groups[..k + 1];
    assert forall g :: g in groups[..k + 1] <==> g in groups[..k] || g == groups[k];
  }

  method EnterLoose(nodes: seq<Node>, ghost kernels: seq<Group>, loose: set<nat>, t: Tables) returns (t': Tables)
    requires Recorded(nodes, kernels, {}, t) && forall i :: i in loose ==> i < |nodes|
    ensures Recorded(nodes, kernels, loose, t')
  {
    t' := t;
    var todo := loose;
    assert loose - todo == {};
    while todo != {}
      invariant todo <= loose && Recorded(nodes, kernels, loose - todo, t')
      decreases |todo|
    {
      var i :| i in todo;
      t' := EnterNode(nodes, kernels, loose - todo, t', i);
      assert loose - (todo - {i}) == loose - todo + {i};
      todo := todo - {i};
    }
    assert loose - todo == loose;
  }

  lemma AllEntered(nodes: seq<Node>, groups: seq<Group>, loose: set<nat>)
    requires forall i: nat :: i in loose <==> i < |nodes| && !Grouped(groups, i)
    ensures forall v :: Entered(nodes, NonEmpty(groups), loose, v) <==> Exists(nodes, groups, v)
    ensures forall v, x :: EnteredReads(nodes, NonEmpty(groups), loose, v, x) <==> Consumes(nodes, groups, v, x)
    ensures forall v, x :: EnteredWrites(nodes, NonEmpty(groups), loose, v, x) <==> Produces(nodes, groups, v, x)
  {
    forall i: nat, name ensures Named(nodes, loose, i, name) <==> IsLoose(nodes, groups, i, name) {
    }
  }

  // --- The adjacency lists --------------------------------------------------------------------

  ghost predicate AdjacencyFor(nodes: seq<Node>, groups: seq<Group>, t: Tables, adjacency: seq<seq<nat>>) {
    && |adjacency| == |t.names|
    && CycleSearch.WellFormed(adjacency)
    && forall p, c :: 0 <= p < |t.names| && 0 <= c < |t.names| ==>
        (c in adjacency[p] <==> Edge(nodes, groups, t.names[p], t.names[c]))
  }

  // The indices of the vertices that read one tensor, in whatever order the set yields them.
  method ChildrenBy(t: Tables, tensor: string) returns (children: seq<nat>)
    requires Numbered(t) && forall v :: Reads(t.consumers, v, tensor) ==> v in t.index
    ensures forall c: nat :: c in children <==> c < |t.names| && Reads(t.consumers, t.names[c], tensor)
  {
    children := [];
    if tensor in t.consumers {
      var todo := t.consumers[tensor];
      while todo != {}
        invariant todo <= t.consumers[tensor]
        invariant forall c: nat :: c in children <==> c < |t.names| && t.names[c] in t.consumers[tensor] - todo
        decreases |todo|
      {
        var child :| child in todo;
        assert Reads(t.consumers, child, tensor);
        children := children + [t.index[child]];
        todo := todo - {child};
      }
    }
  }

  method Children(t: Tables, produced: set<string>) returns (children: seq<nat>)
    requires Numbered(t) && forall v, x :: Reads(t.consumers, v, x) ==> v in t.index
    ensures forall c: nat :: c in children <==> c < |t.names| && ReadsSome(t, t.names[c], produced)
  {
    children := [];
    var todo := produced;
    while todo != {}
      invariant todo <= produced
      invariant forall c: nat :: c in children <==> c < |t.names| && ReadsSome(t, t.names[c], produced - todo)
      decreases |todo|
    {
      var tensor :| tensor in todo;
      var more := ChildrenBy(t, tensor);
      children := children + more;
      assert produced - (todo - {tensor}) == produced - todo + {tensor};
      todo := todo - {tensor};
    }
    assert produced - todo == produced;
  }

  ghost predicate ReadsSome(t: Tables, v: Vertex, tensors: set<string>) {
    exists x :: x in tensors && Reads(t.consumers, v, x)
  }

  method BuildAdjacency(nodes: seq<Node>, groups: seq<Group>, t: Tables) returns (adjacency: seq<seq<nat>>)
    requires TablesFor(nodes, groups, t)
    ensures AdjacencyFor(nodes, groups, t, adjacency)
  {
    var lists := new seq<nat>[|t.names|](_ => []);
    var todo := t.outputs.Keys;
    while todo != {}
      invariant todo <= t.outputs.Keys
      invariant forall p {:trigger lists[p]} :: 0 <= p < |t.names| ==>
          ListFor(t, t.names[p], t.outputs.Keys - todo, lists[p])
      decreases |todo|
    {
      var parent :| parent in todo;
      var children := Children(t, t.outputs[parent]);
      ghost var done, more := t.outputs.Keys - todo, t.outputs.Keys - (todo - {parent});
      todo := todo - {parent};
      ListsOfOthers(t, parent, done, more);
      if children != [] {
        assert children[0] in children;
        OutputIsIndexed(nodes, groups, t, parent, children[0]);
        lists[t.index[parent]] := lists[t.index[parent]] + children;
      }
    }
    assert t.outputs.Keys - todo == t.outputs.Keys;
    adjacency := lists[..];
    ListsAreAdjacency(nodes, groups, t, adjacency);
  }

  lemma ListsAreAdjacency(nodes: seq<Node>, groups: seq<Group>, t: Tables, adjacency: seq<seq<nat>>)
    requires TablesFor(nodes, groups, t) && |adjacency| == |t.names|
    requires forall p {:trigger adjacency[p]} :: 0 <= p < |t.names| ==>
        ListFor(t, t.names[p], t.outputs.Keys, adjacency[p])
    ensures AdjacencyFor(nodes, groups, t, adjacency)
  {
    forall p, c | 0 <= p < |t.names| && 0 <= c < |t.names|
      ensures c in adjacency[p] <==> Edge(nodes, groups, t.names[p], t.names[c])
    {
      EdgeIsListed(nodes, groups, t, t.names[p], t.names[c]);
      assert ListFor(t, t.names[p], t.outputs.Keys, adjacency[p]);
    }
  }

  // The list of one vertex: empty until the vertex has been handled, complete from then on.
  ghost predicate ListFor(t: Tables, v: Vertex, handled: set<Vertex>, list: seq<nat>) {
    forall c: nat {:trigger c in list} :: c in list <==>
      v in handled && v in t.outputs && c < |t.names| && ReadsSome(t, t.names[c], t.outputs[v])
  }

  lemma ListsOfOthers(t: Tables, parent: Vertex, done: set<Vertex>, more: set<Vertex>)
    requires parent !in done && more == done + {parent}
    ensures forall v, list {:trigger ListFor(t, v, more, list)} ::
      v != parent ==> (ListFor(t, v, done, list) <==> ListFor(t, v, more, list))
  {
  }

  lemma OutputIsIndexed(nodes: seq<Node>, groups: seq<Group>, t: Tables, parent: Vertex, c: nat)
    requires TablesFor(nodes, groups, t) && parent in t.outputs
    requires c < |t.names| && ReadsSome(t, t.names[c], t.outputs[parent])
    ensures parent in t.index
  {
    var x :| x in t.outputs[parent] && Reads(t.consumers, t.names[c], x);
    assert Writes(t.outputs, parent, x);
    assert Produces(nodes, groups, parent, x);
  }

  lemma EdgeIsListed(nodes: seq<Node>, groups: seq<Group>, t: Tables, p: Vertex, c: Vertex)
    requires TablesFor(nodes, groups, t)
    ensures Edge(nodes, groups, p, c) <==> p in t.outputs && ReadsSome(t, c, t.outputs[p])
  {
    if Edge(nodes, groups, p, c) {
      var x :| Produces(nodes, groups, p, x) && Consumes(nodes, groups, c, x);
      assert Writes(t.outputs, p, x) && Reads(t.consumers, c, x);
    }
    if p in t.outputs && ReadsSome(t, c, t.outputs[p]) {
      var x :| x in t.outputs[p] && Reads(t.consumers, c, x);
      assert Writes(t.outputs, p, x);
    }
  }
}
