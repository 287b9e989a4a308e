/** What a graph declares of its tensors, held against the tensors of a run. */
module Declarations {
  import opened Options
  import opened TensorValues
  import opened Broadcasting
  import opened OnnxGraph
  import opened GraphRuns

  ghost predicate IsDeclared(info: ValueInfo, t: Tensor) {
    && t.dtype == info.dtype
    && (info.shape.Some? ==>
          && |info.shape.value| == |t.shape|
          && forall d :: 0 <= d < |t.shape| && info.shape.value[d].Some? ==> t.shape[d] == info.shape.value[d].value)
  }

  ghost predicate HoldsFor(infos: map<string, ValueInfo>, env: Env, k: string) {
    k in env ==> WellFormed(env[k]) && (k in infos ==> IsDeclared(infos[k], env[k]))
  }

  // Every tensor of these names has the values its type allows, and is as declared.
  ghost predicate DeclarationsHold(names: set<string>, infos: map<string, ValueInfo>, env: Env) {
    forall k {:trigger HoldsFor(infos, env, k)} :: k in names ==> HoldsFor(infos, env, k)
  }

  ghost predicate IsAsDeclared(infos: map<string, ValueInfo>, env: Env, k: string) {
    k in infos && k in env ==> IsDeclared(infos[k], env[k])
  }

  ghost predicate AllAsDeclared(infos: map<string, ValueInfo>, env: Env) {
    forall k {:trigger IsAsDeclared(infos, env, k)} :: IsAsDeclared(infos, env, k)
  }

  // --- What is known beforehand ---------------------------------------------------------------

  // A shape known beforehand, all of whose dimensions are positive; declarations come first.
  function StaticShape(infos: map<string, ValueInfo>, inits: map<string, Tensor>, name: string): (s: Option<Shape>)
    ensures s.Some? ==> s.value != [] && 0 !in s.value
  {
    if name in infos then
      var dims := infos[name].shape;
      if dims.None? || dims.value == [] || exists d :: 0 <= d < |dims.value| && (dims.value[d].None? || dims.value[d].value == 0)
      then None
      else Some(seq(|dims.value|, d requires 0 <= d < |dims.value| => dims.value[d].value))
    else if name in inits && inits[name].shape != [] && 0 !in inits[name].shape then Some(inits[name].shape)
    else None
  }

  // The number of dimensions, where any are known.
  function StaticRank(infos: map<string, ValueInfo>, inits: map<string, Tensor>, name: string): (r: Option<nat>) {
    if name in infos then
      if infos[name].shape.None? || infos[name].shape.value == [] then None else Some(|infos[name].shape.value|)
    else if name in inits && inits[name].shape != [] then Some(|inits[name].shape|)
    else None
  }

  function ElementType(infos: map<string, ValueInfo>, inits: map<string, Tensor>, name: string): (t: Option<DType>) {
    if name in infos then Some(infos[name].dtype) else if name in inits then Some(inits[name].dtype) else None
  }

  // --- The same without the functions ---------------------------------------------------------

  // The type is declared, or it is a constant of that type.
  ghost predicate HasType(g: Graph, x: string, t: DType) {
    if x in g.infos then g.infos[x].dtype == t else x in g.inits && g.inits[x].dtype == t
  }

  // So many dimensions are declared, or the constant has so many.
  ghost predicate HasRank(g: Graph, x: string, r: nat) {
    r > 0 &&
    if x in g.infos then g.infos[x].shape.Some? && |g.infos[x].shape.value| == r
    else x in g.inits && |g.inits[x].shape| == r
  }

  // The shape is declared in full, or it is a constant's, and nothing in it is zero.
  ghost predicate HasShape(g: Graph, x: string, s: Shape) {
    && HasRank(g, x, |s|) && 0 !in s
    && if x in g.infos then forall d :: 0 <= d < |s| ==> g.infos[x].shape.value[d] == Some(s[d])
       else g.inits[x].shape == s
  }

  lemma RankIsStatic(g: Graph, x: string, r: nat)
    ensures HasRank(g, x, r) <==> StaticRank(g.infos, g.inits, x) == Some(r)
  {
  }

  lemma ShapeIsStatic(g: Graph, x: string, s: Shape)
    ensures HasShape(g, x, s) <==> StaticShape(g.infos, g.inits, x) == Some(s)
  {
    if HasShape(g, x, s) {
      assert forall d :: 0 <= d < |s| ==> s[d] in s;
      assert StaticShape(g.infos, g.inits, x).value == s;
    }
    if x in g.infos && StaticShape(g.infos, g.inits, x) == Some(s) {
      forall d | 0 <= d < |s| ensures g.infos[x].shape.value[d] == Some(s[d]) {
        assert g.infos[x].shape.value[d].Some?;
      }
    }
  }

  lemma StaticShapeHolds(infos: map<string, ValueInfo>, inits: map<string, Tensor>, env: Env, name: string)
    requires StaticShape(infos, inits, name).Some? && name in env && IsAsDeclared(infos, env, name)
    requires name in inits ==> env[name] == inits[name]
    ensures env[name].shape == StaticShape(infos, inits, name).value
  {
  }
}
