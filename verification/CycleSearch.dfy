/**
 * The depth-first search for a cycle (src/tensorrt_rtx_execution_provider.cc:520-543, 2753-2773).
 *
 * `path` is the recursion stack, `done` the vertices whose search has ended, in that order. A
 * vertex is on the stack array exactly while it is on `path`, and everything a finished vertex
 * leads to has finished before it. So a search that ends without a find has built a schedule, and
 * a find closes a walk back onto itself.
 */
module CycleSearch {

  // adjacency[p] lists the indices of the vertices that read from p.
  ghost predicate WellFormed(adjacency: seq<seq<nat>>) {
    forall p, c :: 0 <= p < |adjacency| && c in adjacency[p] ==> c < |adjacency|
  }

  ghost predicate IsWalk(adjacency: seq<seq<nat>>, walk: seq<nat>) {
    && (forall i :: 0 <= i < |walk| ==> walk[i] < |adjacency|)
    && forall i :: 0 < i < |walk| ==> walk[i] in adjacency[walk[i - 1]]
  }

  // Everything a finished vertex leads to has finished before it.
  ghost predicate Finished(adjacency: seq<seq<nat>>, done: seq<nat>) {
    && (forall i :: 0 <= i < |done| ==> done[i] < |adjacency|)
    && forall i, c :: 0 <= i < |done| && c in adjacency[done[i]] ==> c in done[..i]
  }

  ghost predicate Searching(
    adjacency: seq<seq<nat>>, visited: seq<bool>, st: seq<bool>, path: seq<nat>, done: seq<nat>) {
    && |visited| == |st| == |adjacency|
    && Finished(adjacency, done)
    && (forall v :: 0 <= v < |visited| ==> (visited[v] <==> v in path || v in done))
    && (forall v :: 0 <= v < |st| ==> (st[v] <==> v in path))
  }

  function Reverse(s: seq<nat>): (r: seq<nat>)
    ensures |r| == |s|
    ensures forall i :: 0 <= i < |s| ==> r[i] == s[|s| - 1 - i]
  {
    seq(|s|, i requires 0 <= i < |s| => s[|s| - 1 - i])
  }

  // What has been recorded once the search has returned to the end of `path`: the vertex that
  // closes the walk, then the walk backwards, up to but not including `path`.
  ghost predicate Closes(adjacency: seq<seq<nat>>, path: seq<nat>, walk: seq<nat>, start: nat, cycles: seq<nat>) {
    && path <= walk && walk != [] && IsWalk(adjacency, walk)
    && start < |walk| && walk[start] in adjacency[walk[|walk| - 1]]
    && cycles == [walk[start]] + Reverse(walk[|path|..])
  }

  ghost function Unvisited(visited: seq<bool>): set<nat> {
    set v | 0 <= v < |visited| && !visited[v]
  }

  method FindCycleHelper(
    i: nat, adjacency: seq<seq<nat>>, visited: array<bool>, st: array<bool>, ghost path: seq<nat>, ghost done: seq<nat>)
    returns (found: bool, cycles: seq<nat>, ghost ended: seq<nat>, ghost walk: seq<nat>, ghost start: nat)
    requires WellFormed(adjacency) && i < |adjacency| && visited != st
    requires Searching(adjacency, visited[..], st[..], path, done)
    requires IsWalk(adjacency, path + [i])
    requires visited[i] ==> path == []
    modifies visited, st
    ensures forall v :: 0 <= v < visited.Length && old(visited[v]) ==> visited[v]
    ensures !found ==> Searching(adjacency, visited[..], st[..], path, ended) && done <= ended && i in ended
    ensures found ==> Closes(adjacency, path + [i], walk, start, cycles)
    ensures !found ==> cycles == []
    decreases Unvisited(visited[..])
  {
    found, cycles, ended, walk, start := false, [], done, [], 0;
    if !visited[i] {
      ghost var unvisited := Unvisited(visited[..]);
      ghost var stack := path + [i];
      visited[i] := true;
      st[i] := true;
      assert i in unvisited && i !in Unvisited(visited[..]);
      var k := 0;
      while k < |adjacency[i]|
        invariant 0 <= k <= |adjacency[i]|
        invariant Searching(adjacency, visited[..], st[..], stack, ended) && done <= ended
        invariant forall v :: 0 <= v < visited.Length && old(visited[v]) ==> visited[v]
        invariant Unvisited(visited[..]) < unvisited && cycles == []
        invariant forall m :: 0 <= m < k ==> adjacency[i][m] in ended
      {
        var next := adjacency[i][k];
        assert next in adjacency[i];
        assert IsWalk(adjacency, stack + [next]);
        if !visited[next] {
          found, cycles, ended, walk, start := FindCycleHelper(next, adjacency, visited, st, stack, ended);
          if found {
            CloseOneLevelUp(adjacency, stack, next, walk, start, cycles);
            cycles := cycles + [next];
            return;
          }
        } else if st[next] {
          cycles := [next];
          walk := stack;
          start := StackIndex(stack, next);
          found := true;
          assert walk[|stack|..] == [];
          return;
        }
        assert next !in stack && next in ended;
        k := k + 1;
      }
      forall c | c in adjacency[i] ensures c in ended {
        var m :| 0 <= m < |adjacency[i]| && adjacency[i][m] == c;
      }
      FinishOne(adjacency, ended, i);
      ended := ended + [i];
    }
    st[i] := false;
  }

  lemma FinishOne(adjacency: seq<seq<nat>>, done: seq<nat>, i: nat)
    requires Finished(adjacency, done) && i < |adjacency|
    requires forall c :: c in adjacency[i] ==> c in done
    ensures Finished(adjacency, done + [i])
  {
    var more := done + [i];
    forall k, c | 0 <= k < |more| && c in adjacency[more[k]] ensures c in more[..k] {
      assert more[..|done|] == done;
      if k < |done| {
        assert more[..k] == done[..k];
      }
    }
  }

  ghost function StackIndex(stack: seq<nat>, v: nat): (j: nat)
    requires v in stack
    ensures j < |stack| && stack[j] == v
  {
    var j :| 0 <= j < |stack| && stack[j] == v; j
  }

  lemma CloseOneLevelUp(
    adjacency: seq<seq<nat>>, path: seq<nat>, next: nat, walk: seq<nat>, start: nat, cycles: seq<nat>)
    requires Closes(adjacency, path + [next], walk, start, cycles)
    ensures Closes(adjacency, path, walk, start, cycles + [next])
  {
    assert walk[|path|] == next;
    assert walk[|path|..] == [next] + walk[|path| + 1..];
    assert Reverse(walk[|path|..]) == Reverse(walk[|path| + 1..]) + [next];
  }
}
