/**
 * Changing the weight-streaming budget of all engines at once
 * (src/tensorrt_rtx_execution_provider.cc:461-517, 4330-4556).
 */
module WeightStreaming {
  import opened Options

  datatype Mode = Automatic | MinimumVram | Bytes(bytes: int) | Percent(percent: real) | Disabled

  // An engine slot may be empty; `streamable` is the size of the weights that can be streamed.
  datatype Engine = Engine(name: string, present: bool, streamable: nat)

  // A cast to an integer drops the fraction.
  function Truncated(r: real): (n: int) {
    if r >= 0.0 then r.Floor else -((-r).Floor)
  }

  function Resolved(mode: Mode, streamable: nat): (budget: int)
    requires !mode.Automatic?
  {
    match mode
    case MinimumVram => 0
    case Bytes(bytes) => bytes
    case Percent(percent) => Truncated((percent / 100.0) * streamable as real)
    case Disabled => streamable
  }

  function AtMost(a: int, b: int): (m: int) {
    if a <= b then a else b
  }

  function Effective(mode: Mode, streamable: nat): (budget: int)
    requires !mode.Automatic?
  {
    AtMost(Resolved(mode, streamable), streamable)
  }

  // --- What the modes ask for -----------------------------------------------------------------

  // The budget a mode leaves an engine with; `proposal` is what the engine itself proposes.
  predicate IsBudgetOf(mode: Mode, streamable: nat, proposal: int, budget: int) {
    match mode
    case Automatic => if proposal < streamable then budget == proposal else budget == streamable
    case MinimumVram => budget == 0
    case Disabled => budget == streamable
    case Bytes(n) => if n < streamable then budget == n else budget == streamable
    case Percent(p) => IsPartOf(p, Hundredths(p, streamable), streamable, budget)
  }

  // So many hundredths, cut to an integer; none for less than zero and all for more than a hundred.
  predicate IsPartOf(p: real, product: real, streamable: nat, budget: int) {
    if p < 0.0 then budget == 0
    else if p > 100.0 then budget == streamable
    else IsHundredth(product, budget)
  }

  function Hundredths(p: real, streamable: nat): (n: real) {
    p * streamable as real
  }

  // What it asks for is no negative number of bytes.
  predicate IsNotNegative(mode: Mode, streamable: nat, proposal: int) {
    match mode
    case Automatic => proposal >= 0
    case Bytes(n) => n >= 0
    case Percent(p) => Hundredths(p, streamable) > -100.0
    case _ => true
  }

  lemma ResolvedAsAsked(mode: Mode, streamable: nat, proposal: int)
    requires !mode.Automatic?
    ensures Resolved(mode, streamable) >= 0 <==> IsNotNegative(mode, streamable, proposal)
    ensures Resolved(mode, streamable) >= 0 ==> IsBudgetOf(mode, streamable, proposal, Effective(mode, streamable))
  {
    match mode
    case MinimumVram =>
    case Disabled =>
    case Bytes(n) =>
    case Percent(p) =>
      var n := Truncated((p / 100.0) * streamable as real);
      PercentIsCut(p, streamable);
      if n >= 0 {
        PartAsAsked(p, Hundredths(p, streamable), streamable, n);
      }
      assert Resolved(mode, streamable) == n;
  }

  // A product cut to hundredths.
  predicate IsHundredth(product: real, n: int) {
    100.0 * n as real <= product < 100.0 * (n + 1) as real
  }

  lemma PartAsAsked(p: real, product: real, streamable: nat, n: int)
    requires n >= 0 && (0.0 <= p ==> IsHundredth(product, n))
    requires (p < 0.0 ==> n <= 0) && (p <= 100.0 ==> n <= streamable) && (p > 100.0 ==> n >= streamable)
    ensures IsPartOf(p, product, streamable, AtMost(n, streamable))
  {
  }

  lemma PercentIsCut(p: real, streamable: nat)
    ensures var n := Truncated((p / 100.0) * streamable as real);
      && (n >= 0 <==> Hundredths(p, streamable) > -100.0)
      && (0.0 <= p ==> IsHundredth(Hundredths(p, streamable), n))
      && (p < 0.0 ==> n <= 0) && (p <= 100.0 ==> n <= streamable) && (p > 100.0 ==> n >= streamable)
  {
    var x := (p / 100.0) * streamable as real;
    assert 100.0 * x == p * streamable as real;
    SignOfProduct(p, streamable as real);
    SignOfProduct(p - 100.0, streamable as real);
    assert (p - 100.0) * streamable as real == p * streamable as real - 100.0 * streamable as real;
  }

  lemma SignOfProduct(p: real, s: real)
    requires s >= 0.0
    ensures p >= 0.0 ==> p * s >= 0.0
    ensures p <= 0.0 ==> p * s <= 0.0
  {
  }

  // An engine to be changed, and the budget it has.
  datatype Update = Update(engine: nat, previous: int)

  // What becomes of making a context: it is made, refused, prevented by an exception, or put in
  // place before an exception prevents the rest.
  datatype Creation = Made | Refused | Thrown | HalfMade

  // What the runtime and the engines, told apart by position, answer during one update: whether
  // the stream could be waited for; which budget is proposed, when asked first and when it is set;
  // whether the new budget is taken, whether it can be reported, and whether the old one is taken
  // back; and what becomes of each context, made the first and the second time.
  datatype Answers = Answers(
    synchronized: bool, proposes: (nat, bool) -> int, accepts: nat -> bool, reports: nat -> bool,
    acceptsBack: nat -> bool, creates: (nat, bool) -> Creation)

  // The contexts of all engines, the number of the next one, and the engines marked for a first run.
  datatype Contexts = Contexts(live: map<string, Option<nat>>, next: nat, firstRun: set<string>)

  // A failed update tells whether all was put back.
  datatype Status = Success | Failed(restored: bool)

  class Provider {
    const engines: seq<Engine>
    // What each engine reports as its budget.
    var budgets: map<string, int>
    // The execution context of an engine, told apart by number; None once destroyed.
    var contexts: map<string, Option<nat>>
    var nextContext: nat
    // Engines whose next run binds everything anew.
    var firstRun: set<string>

    ghost predicate InRange(b: map<string, int>) {
      forall i :: 0 <= i < |engines| && engines[i].present ==>
          engines[i].name in b && 0 <= b[engines[i].name] <= engines[i].streamable
    }

    ghost predicate Valid()
      reads this
    {
      && (forall i, j :: 0 <= i < j < |engines| ==> engines[i].name != engines[j].name)
      && InRange(budgets)
      && (forall n :: n in contexts && contexts[n].Some? ==> contexts[n].value < nextContext)
    }

    predicate IsLive(name: string)
      reads this
    {
      name in contexts && contexts[name].Some?
    }

    function NameOf(u: Update): (name: string)
      requires u.engine < |engines|
    {
      engines[u.engine].name
    }

    ghost predicate IsAmong(updates: seq<Update>, name: string) {
      exists i :: 0 <= i < |updates| && updates[i].engine < |engines| && NameOf(updates[i]) == name
    }

    // Distinct engines, in their order.
    ghost predicate AreUpdates(updates: seq<Update>) {
      && (forall i :: 0 <= i < |updates| ==> updates[i].engine < |engines| && engines[updates[i].engine].present)
      && (forall i, j :: 0 <= i < j < |updates| ==> updates[i].engine < updates[j].engine)
    }

    constructor (engines: seq<Engine>, budgets: map<string, int>, contexts: map<string, Option<nat>>, nextContext: nat)
      requires forall i, j :: 0 <= i < j < |engines| ==> engines[i].name != engines[j].name
      requires forall i :: 0 <= i < |engines| && engines[i].present ==>
          engines[i].name in budgets && 0 <= budgets[engines[i].name] <= engines[i].streamable
      requires forall n :: n in contexts && contexts[n].Some? ==> contexts[n].value < nextContext
      ensures Valid() && this.engines == engines && this.budgets == budgets && this.contexts == contexts
      ensures this.nextContext == nextContext && firstRun == {}
    {
      this.engines, this.budgets, this.contexts := engines, budgets, contexts;
      this.nextContext, this.firstRun := nextContext, {};
    }

    // --- What the answers decide ----------------------------------------------------------------

    function BudgetFor(i: nat, mode: Mode, proposal: int): (budget: int)
      requires i < |engines|
    {
      if mode.Automatic? then proposal else Resolved(mode, engines[i].streamable)
    }

    // What the engine has once it has taken its new budget.
    function Resulting(i: nat, mode: Mode, a: Answers): (budget: int)
      requires i < |engines|
      ensures !mode.Automatic? ==> budget == Effective(mode, engines[i].streamable)
    {
      AtMost(BudgetFor(i, mode, a.proposes(i, true)), engines[i].streamable)
    }

    predicate Takes(i: nat, mode: Mode, a: Answers)
      requires i < |engines|
    {
      BudgetFor(i, mode, a.proposes(i, true)) >= 0 && a.accepts(i)
    }

    predicate Applies(i: nat, mode: Mode, a: Answers)
      requires i < |engines|
    {
      Takes(i, mode, a) && a.reports(i)
    }

    // With these budgets the engine is to be changed.
    ghost predicate IsUpdated(b: map<string, int>, mode: Mode, i: nat) {
      && i < |engines| && engines[i].present && engines[i].name in b
      && (mode.Automatic? || b[engines[i].name] != Effective(mode, engines[i].streamable))
    }

    // The engine can be changed, if it is to be.
    ghost predicate IsUpdatable(
      b: map<string, int>, contexts: map<string, Option<nat>>, mode: Mode, a: Answers, i: nat) {
      i < |engines| && engines[i].present ==>
        && (mode.Disabled? || engines[i].streamable != 0) && BudgetFor(i, mode, a.proposes(i, false)) >= 0
        && (IsUpdated(b, mode, i) ==> engines[i].name in contexts && contexts[engines[i].name].Some?)
    }

    ghost predicate AllUpdatable(b: map<string, int>, contexts: map<string, Option<nat>>, mode: Mode, a: Answers) {
      forall i: nat {:trigger IsUpdatable(b, contexts, mode, a, i)} :: IsUpdatable(b, contexts, mode, a, i)
    }

    // The update gets as far as changing something.
    ghost predicate Begins(b: map<string, int>, contexts: map<string, Option<nat>>, mode: Mode, a: Answers) {
      a.synchronized && AllUpdatable(b, contexts, mode, a)
    }

    // Budgets are applied up to engine i and not further.
    ghost predicate StopsAt(b: map<string, int>, mode: Mode, a: Answers, i: nat) {
      && IsUpdated(b, mode, i) && !Applies(i, mode, a)
      && forall j: nat {:trigger IsUpdated(b, mode, j)} :: j < i && IsUpdated(b, mode, j) ==> Applies(j, mode, a)
    }

    // All changed before engine i can be put back, and all contexts can be made.
    ghost predicate IsRestorable(b: map<string, int>, mode: Mode, a: Answers, i: nat) {
      forall j: nat {:trigger IsUpdated(b, mode, j)} ::
        IsUpdated(b, mode, j) ==> (j < i ==> a.acceptsBack(j)) && a.creates(j, false).Made?
    }

    // Engine i takes a budget other than its own, which cannot be reported, and for all that the
    // rest goes back as if nothing had been changed.
    ghost predicate KeepsUnreported(b: map<string, int>, mode: Mode, a: Answers, i: nat) {
      && StopsAt(b, mode, a, i) && Takes(i, mode, a) && !a.reports(i)
      && Resulting(i, mode, a) != b[engines[i].name] && IsRestorable(b, mode, a, i)
    }

    // All budgets can be put back, and all contexts be made at the second attempt.
    ghost predicate GoesBack(b: map<string, int>, mode: Mode, a: Answers) {
      forall i: nat {:trigger IsUpdated(b, mode, i)} ::
        IsUpdated(b, mode, i) ==> a.acceptsBack(i) && a.creates(i, true).Made?
    }

    // An update that has begun fails, and everything else is as it was: either some engine does not
    // apply its budget, or all do and some context cannot be made.
    ghost predicate IsUndone(b: map<string, int>, mode: Mode, a: Answers) {
      || (exists i: nat :: StopsAt(b, mode, a, i) && IsRestorable(b, mode, a, i))
      || ((forall i: nat :: !StopsAt(b, mode, a, i)) && !Completes(b, mode, a) && GoesBack(b, mode, a))
    }

    // --- The engine -----------------------------------------------------------------------------

    // The engine must have no context; it never reports more than its weights.
    method SetBudget(i: nat, budget: int, accepts: bool) returns (ok: bool)
      requires Valid() && i < |engines| && engines[i].present && !IsLive(engines[i].name)
      modifies this`budgets
      ensures Valid() && (ok <==> budget >= 0 && accepts)
      ensures budgets == if ok then old(budgets)[engines[i].name := AtMost(budget, engines[i].streamable)]
                         else old(budgets)
    {
      ok := budget >= 0 && accepts;
      if ok {
        budgets := budgets[engines[i].name := AtMost(budget, engines[i].streamable)];
      }
    }

    // Reporting comes after setting, so failing to report leaves the engine with its new budget.
    method ApplyBudget(i: nat, mode: Mode, a: Answers) returns (ok: bool)
      requires Valid() && i < |engines| && engines[i].present && !IsLive(engines[i].name)
      modifies this`budgets
      ensures Valid() && (ok <==> Applies(i, mode, a))
      ensures budgets == if Takes(i, mode, a) then old(budgets)[engines[i].name := Resulting(i, mode, a)] else old(budgets)
    {
      ok := SetBudget(i, BudgetFor(i, mode, a.proposes(i, true)), a.accepts(i));
      if ok {
        ok := a.reports(i);
      }
    }

    // --- Contexts -------------------------------------------------------------------------------

    // Contexts that are not those of before belong to engines whose next run binds anew.
    twostate predicate Rebinds()
      reads this
    {
      && old(firstRun) <= firstRun && contexts.Keys == old(contexts.Keys)
      && forall n :: n in contexts && contexts[n].Some? && contexts[n] != old(contexts[n]) ==> n in firstRun
    }

    // Only a context half made can be new without that.
    ghost predicate IsHalfMade(a: Answers, again: bool, name: string) {
      exists i: nat :: i < |engines| && engines[i].name == name && a.creates(i, again).HalfMade?
    }

    twostate predicate RebindsBut(a: Answers)
      reads this
    {
      && old(firstRun) <= firstRun && contexts.Keys == old(contexts.Keys)
      && forall n :: n in contexts && contexts[n].Some? && contexts[n] != old(contexts[n]) ==>
          n in firstRun || IsHalfMade(a, false, n) || IsHalfMade(a, true, n)
    }

    method DestroyContexts(updates: seq<Update>)
      requires Valid() && AreUpdates(updates) && forall i :: 0 <= i < |updates| ==> NameOf(updates[i]) in contexts
      modifies this`contexts
      ensures Valid() && Rebinds()
      ensures forall i :: 0 <= i < |updates| ==> !IsLive(NameOf(updates[i]))
      ensures forall n :: n in contexts && !IsAmong(updates, n) ==> contexts[n] == old(contexts[n])
    {
      for i := 0 to |updates|
        invariant Valid() && contexts.Keys == old(contexts.Keys)
        invariant forall j :: 0 <= j < i ==> contexts[NameOf(updates[j])].None?
        invariant forall n :: n in contexts ==> contexts[n].None? || contexts[n] == old(contexts[n])
        invariant forall n :: n in contexts && !IsAmong(updates, n) ==> contexts[n] == old(contexts[n])
      {
        assert IsAmong(updates, NameOf(updates[i]));
        contexts := contexts[NameOf(updates[i]) := None];
      }
    }

    ghost predicate AllMade(updates: seq<Update>, a: Answers, again: bool, count: nat) {
      forall i :: 0 <= i < count && i < |updates| ==> a.creates(updates[i].engine, again).Made?
    }

    // Making the context of one engine.
    function Making(s: Contexts, name: string, creation: Creation): (t: Contexts) {
      if creation.Made? then Contexts(s.live[name := Some(s.next)], s.next + 1, s.firstRun + {name})
      else if creation.HalfMade? then Contexts(s.live[name := Some(s.next)], s.next + 1, s.firstRun)
      else s
    }

    // Making those of all engines from the i-th on goes past a refusal, but not past an exception.
    function Remaking(s: Contexts, updates: seq<Update>, a: Answers, again: bool, i: nat): (r: (Contexts, bool))
      requires AreUpdates(updates) && i <= |updates|
      decreases |updates| - i
    {
      if i == |updates| then (s, true)
      else
        var creation := a.creates(updates[i].engine, again);
        var t := Making(s, NameOf(updates[i]), creation);
        if creation.Thrown? || creation.HalfMade? then (t, false)
        else
          var (rest, ok) := Remaking(t, updates, a, again, i + 1);
          (rest, ok && creation.Made?)
    }

    // From the i-th on the first exception is the j-th, and its context is half made.
    ghost predicate EndsHalfMade(updates: seq<Update>, a: Answers, again: bool, i: nat, j: nat) {
      && i <= j < |updates| && a.creates(updates[j].engine, again).HalfMade?
      && forall k :: i <= k < j ==> GoesOn(a.creates(updates[k].engine, again))
    }

    predicate GoesOn(creation: Creation) {
      creation.Made? || creation.Refused?
    }

    ghost predicate LeavesHalfMade(updates: seq<Update>, a: Answers, again: bool, i: nat, name: string) {
      exists j: nat :: EndsHalfMade(updates, a, again, i, j) && updates[j].engine < |engines| && NameOf(updates[j]) == name
    }

    ghost predicate IsAmongFrom(updates: seq<Update>, i: nat, name: string) {
      exists j :: i <= j < |updates| && updates[j].engine < |engines| && NameOf(updates[j]) == name
    }

    predicate AreFresh(s: Contexts) {
      forall n :: n in s.live && s.live[n].Some? ==> s.live[n].value < s.next
    }

    // What becomes of one name: only a context half made is new without being marked.
    ghost predicate RemakesName(
      s: Contexts, t: Contexts, updates: seq<Update>, a: Answers, again: bool, i: nat, ok: bool, n: string)
      requires n in s.live && n in t.live
    {
      && (!IsAmongFrom(updates, i, n) ==> t.live[n] == s.live[n] && (n in t.firstRun <==> n in s.firstRun))
      && (IsAmongFrom(updates, i, n) && ok ==> t.live[n].Some?)
      && (t.live[n] == s.live[n] || t.live[n].Some?)
      && (t.live[n] != s.live[n] && n !in t.firstRun
          <==> LeavesHalfMade(updates, a, again, i, n) && n !in s.firstRun)
    }

    lemma {:induction false} Remakes(s: Contexts, updates: seq<Update>, a: Answers, again: bool, i: nat)
      requires Valid() && AreUpdates(updates) && i <= |updates| && AreFresh(s)
      requires forall j :: i <= j < |updates| ==> NameOf(updates[j]) in s.live
      ensures var (t, ok) := Remaking(s, updates, a, again, i);
        && t.live.Keys == s.live.Keys && AreFresh(t) && s.next <= t.next && s.firstRun <= t.firstRun
        && (ok <==> forall j :: i <= j < |updates| ==> a.creates(updates[j].engine, again).Made?)
      decreases |updates| - i
    {
      if i < |updates| {
        var creation := a.creates(updates[i].engine, again);
        Remakes(Making(s, NameOf(updates[i]), creation), updates, a, again, i + 1);
      }
    }

    lemma {:induction false} RemakesOne(s: Contexts, updates: seq<Update>, a: Answers, again: bool, i: nat, n: string)
      requires Valid() && AreUpdates(updates) && i <= |updates| && AreFresh(s) && n in s.live
      requires forall j :: i <= j < |updates| ==> NameOf(updates[j]) in s.live
      ensures var (t, ok) := Remaking(s, updates, a, again, i);
        n in t.live && RemakesName(s, t, updates, a, again, i, ok, n)
      decreases |updates| - i
    {
      Remakes(s, updates, a, again, i);
      if i < |updates| {
        var creation, m := a.creates(updates[i].engine, again), NameOf(updates[i]);
        var t := Making(s, m, creation);
        FirstName(updates, a, again, i, n);
        if GoesOn(creation) {
          RemakesOne(t, updates, a, again, i + 1, n);
        }
      }
    }

    // The first engine's name is that of no later one.
    lemma FirstName(updates: seq<Update>, a: Answers, again: bool, i: nat, n: string)
      requires Valid() && AreUpdates(updates) && i < |updates|
      ensures n == NameOf(updates[i]) ==> !IsAmongFrom(updates, i + 1, n) && !LeavesHalfMade(updates, a, again, i + 1, n)
      ensures IsAmongFrom(updates, i, n) <==> n == NameOf(updates[i]) || IsAmongFrom(updates, i + 1, n)
      ensures var creation := a.creates(updates[i].engine, again);
        LeavesHalfMade(updates, a, again, i, n) <==>
          if GoesOn(creation) then LeavesHalfMade(updates, a, again, i + 1, n)
          else creation.HalfMade? && n == NameOf(updates[i])
    {
      var creation := a.creates(updates[i].engine, again);
      if IsAmongFrom(updates, i + 1, n) {
        var j :| i + 1 <= j < |updates| && updates[j].engine < |engines| && NameOf(updates[j]) == n;
        assert i <= j;
      }
      if n == NameOf(updates[i]) {
        assert i <= i < |updates|;
      }
      LaterHalfMade(updates, a, again, i, n);
    }

    lemma LaterHalfMade(updates: seq<Update>, a: Answers, again: bool, i: nat, n: string)
      requires AreUpdates(updates) && i < |updates|
      ensures var creation := a.creates(updates[i].engine, again);
        LeavesHalfMade(updates, a, again, i, n) <==>
          if GoesOn(creation) then LeavesHalfMade(updates, a, again, i + 1, n)
          else creation.HalfMade? && n == NameOf(updates[i])
    {
      var creation := a.creates(updates[i].engine, again);
      if LeavesHalfMade(updates, a, again, i, n) {
        var j: nat :| EndsHalfMade(updates, a, again, i, j) && updates[j].engine < |engines| && NameOf(updates[j]) == n;
        assert GoesOn(creation) ==> EndsHalfMade(updates, a, again, i + 1, j);
      }
      if GoesOn(creation) && LeavesHalfMade(updates, a, again, i + 1, n) {
        var j: nat :| EndsHalfMade(updates, a, again, i + 1, j) && updates[j].engine < |engines| && NameOf(updates[j]) == n;
        assert EndsHalfMade(updates, a, again, i, j);
      }
      if creation.HalfMade? && n == NameOf(updates[i]) {
        assert EndsHalfMade(updates, a, again, i, i);
      }
    }

    function ContextsNow(): (s: Contexts)
      reads this
    {
      Contexts(contexts, nextContext, firstRun)
    }

    // Goes on past an engine whose context cannot be made, but not past an exception.
    method MakeContexts(updates: seq<Update>, a: Answers, again: bool) returns (ok: bool)
      requires Valid() && AreUpdates(updates)
      modifies this`contexts, this`nextContext, this`firstRun
      ensures Valid() && (ContextsNow(), ok) == Remaking(old(ContextsNow()), updates, a, again, 0)
    {
      ok := true;
      ghost var end := Remaking(ContextsNow(), updates, a, again, 0);
      for i := 0 to |updates|
        invariant Valid()
        invariant var (t, rest) := Remaking(ContextsNow(), updates, a, again, i);
          end == (t, rest && ok)
      {
        var creation := a.creates(updates[i].engine, again);
        RecreateContext(NameOf(updates[i]), creation);
        if creation.Thrown? || creation.HalfMade? {
          return false;
        }
        ok := ok && creation.Made?;
      }
    }

    // What comes of it: only a context half made is new without being marked for a first run.
    method RecreateContexts(updates: seq<Update>, a: Answers, again: bool) returns (ok: bool)
      requires Valid() && AreUpdates(updates) && forall i :: 0 <= i < |updates| ==> NameOf(updates[i]) in contexts
      modifies this`contexts, this`nextContext, this`firstRun
      ensures Valid() && old(firstRun) <= firstRun && contexts.Keys == old(contexts.Keys)
      ensures ok <==> AllMade(updates, a, again, |updates|)
      ensures ok ==> forall i :: 0 <= i < |updates| ==> IsLive(NameOf(updates[i]))
      ensures forall n :: n in contexts && contexts[n] != old(contexts[n]) ==>
          n in firstRun || (!ok && IsHalfMade(a, again, n))
      ensures forall n :: n in contexts ==>
          (contexts[n] != old(contexts[n]) && n !in firstRun
           <==> LeavesHalfMade(updates, a, again, 0, n) && n !in old(firstRun))
      ensures forall n :: n in contexts && !IsAmong(updates, n) ==> contexts[n] == old(contexts[n])
      ensures nextContext >= old(nextContext)
    {
      ok := MakeContexts(updates, a, again);
      Remakes(old(ContextsNow()), updates, a, again, 0);
      forall n | n in contexts
        ensures RemakesName(old(ContextsNow()), ContextsNow(), updates, a, again, 0, ok, n)
      {
        RemakesOne(old(ContextsNow()), updates, a, again, 0, n);
      }
    }

    method RecreateContext(name: string, creation: Creation)
      requires Valid()
      modifies this`contexts, this`nextContext, this`firstRun
      ensures Valid() && nextContext >= old(nextContext)
      ensures ContextsNow() == Making(old(ContextsNow()), name, creation)
    {
      if creation.Made? || creation.HalfMade? {
        contexts, nextContext := contexts[name := Some(nextContext)], nextContext + 1;
      }
      if creation.Made? {
        firstRun := firstRun + {name};
      }
    }

    // --- The transaction ------------------------------------------------------------------------

    ghost predicate HasEngine(updates: seq<Update>, i: nat) {
      exists j :: 0 <= j < |updates| && updates[j].engine == i
    }

    // Exactly the engines to be changed, with the budgets they have.
    ghost predicate ListsUpdates(updates: seq<Update>, b: map<string, int>, mode: Mode, n: nat) {
      && AreUpdates(updates)
      && (forall j :: 0 <= j < |updates| ==>
            updates[j].engine < n && IsUpdated(b, mode, updates[j].engine) && updates[j].previous == b[NameOf(updates[j])])
      && (forall i: nat {:trigger IsUpdated(b, mode, i)} :: i < n && IsUpdated(b, mode, i) ==> HasEngine(updates, i))
    }

    lemma OneMoreListed(updates: seq<Update>, b: map<string, int>, mode: Mode, n: nat)
      requires ListsUpdates(updates, b, mode, n) && n < |engines|
      ensures !IsUpdated(b, mode, n) ==> ListsUpdates(updates, b, mode, n + 1)
      ensures IsUpdated(b, mode, n) ==> ListsUpdates(updates + [Update(n, b[engines[n].name])], b, mode, n + 1)
    {
      if IsUpdated(b, mode, n) {
        var longer := updates + [Update(n, b[engines[n].name])];
        assert longer[|updates|].engine == n;
        forall i: nat | i < n + 1 && IsUpdated(b, mode, i) ensures HasEngine(longer, i) {
          if i < n {
            assert HasEngine(updates, i);
            var j :| 0 <= j < |updates| && updates[j].engine == i;
            assert longer[j].engine == i;
          }
        }
      }
    }

    // The engines to be changed, unless one of them cannot be; nothing has been touched yet.
    method CollectUpdates(mode: Mode, a: Answers) returns (updates: Option<seq<Update>>)
      requires Valid()
      ensures updates.Some? <==> AllUpdatable(budgets, contexts, mode, a)
      ensures updates.Some? ==> ListsUpdates(updates.value, budgets, mode, |engines|)
    {
      var found: seq<Update> := [];
      for i := 0 to |engines|
        invariant ListsUpdates(found, budgets, mode, i)
        invariant forall j: nat {:trigger IsUpdatable(budgets, contexts, mode, a, j)} ::
            j < i ==> IsUpdatable(budgets, contexts, mode, a, j)
      {
        var engine := engines[i];
        OneMoreListed(found, budgets, mode, i);
        if engine.present {
          var possible, needed := CheckEngine(i, mode, a);
          if !possible {
            assert !IsUpdatable(budgets, contexts, mode, a, i);
            return None;
          }
          if needed {
            found := found + [Update(i, budgets[engine.name])];
          }
        }
      }
      updates := Some(found);
    }

    method CheckEngine(i: nat, mode: Mode, a: Answers) returns (possible: bool, needed: bool)
      requires Valid() && i < |engines| && engines[i].present
      ensures possible <==> IsUpdatable(budgets, contexts, mode, a, i)
      ensures possible ==> (needed <==> IsUpdated(budgets, mode, i))
    {
      var engine := engines[i];
      possible, needed := false, false;
      if !mode.Disabled? && engine.streamable == 0 {
        return;
      }
      var budget := BudgetFor(i, mode, a.proposes(i, false));
      if budget < 0 {
        return;
      }
      if mode.Automatic? || budgets[engine.name] != AtMost(budget, engine.streamable) {
        needed := true;
        possible := IsLive(engine.name);
      } else {
        possible := true;
      }
    }

    lemma NamesDiffer(updates: seq<Update>, i: nat, j: nat)
      requires Valid() && AreUpdates(updates) && i < j < |updates|
      ensures NameOf(updates[i]) != NameOf(updates[j])
    {
    }

    // The budgets when the first `count` engines have been applied and the next one has not.
    ghost predicate AreApplied(
      b: map<string, int>, after: map<string, int>, updates: seq<Update>, mode: Mode, a: Answers, count: nat)
      requires AreUpdates(updates)
    {
      && after.Keys == b.Keys && (forall i :: 0 <= i < |updates| ==> NameOf(updates[i]) in b)
      && (forall i :: 0 <= i < count && i < |updates| ==>
            Applies(updates[i].engine, mode, a) &&
            after[NameOf(updates[i])] == Resulting(updates[i].engine, mode, a))
      && (forall i :: count < i < |updates| ==> after[NameOf(updates[i])] == b[NameOf(updates[i])])
      && (forall n :: n in b && !IsAmong(updates, n) ==> after[n] == b[n])
    }

    method ApplyAll(updates: seq<Update>, mode: Mode, a: Answers) returns (count: nat)
      requires Valid() && AreUpdates(updates)
      requires forall i :: 0 <= i < |updates| ==> !IsLive(NameOf(updates[i])) && NameOf(updates[i]) in budgets
      modifies this`budgets
      ensures Valid() && count <= |updates| && AreApplied(old(budgets), budgets, updates, mode, a, count)
      ensures count < |updates| ==>
          var i, name := updates[count].engine, NameOf(updates[count]);
          !Applies(i, mode, a) && budgets[name] == if Takes(i, mode, a) then Resulting(i, mode, a) else old(budgets[name])
    {
      count := 0;
      while count < |updates|
        invariant Valid() && count <= |updates| && AreApplied(old(budgets), budgets, updates, mode, a, count)
        invariant count < |updates| ==> budgets[NameOf(updates[count])] == old(budgets[NameOf(updates[count])])
      {
        ghost var before, name := budgets, NameOf(updates[count]);
        var ok := ApplyBudget(updates[count].engine, mode, a);
        AppliedOneMore(old(budgets), before, budgets, updates, mode, a, count);
        if !ok {
          return;
        }
        count := count + 1;
      }
    }

    lemma AppliedOneMore(
      b: map<string, int>, before: map<string, int>, after: map<string, int>, updates: seq<Update>, mode: Mode, a: Answers,
      count: nat)
      requires Valid() && AreUpdates(updates) && count < |updates| && AreApplied(b, before, updates, mode, a, count)
      requires after == before ||
          after == before[NameOf(updates[count]) := Resulting(updates[count].engine, mode, a)]
      ensures AreApplied(b, after, updates, mode, a, count)
      ensures (Applies(updates[count].engine, mode, a) &&
               after == before[NameOf(updates[count]) := Resulting(updates[count].engine, mode, a)]) ==>
          AreApplied(b, after, updates, mode, a, count + 1)
    {
      OthersDiffer(updates, count);
    }

    // Puts the first `count` engines back, trying all of them.
    method RollBack(updates: seq<Update>, count: nat, a: Answers) returns (ok: bool)
      requires Valid() && AreUpdates(updates) && count <= |updates|
      requires forall i :: 0 <= i < |updates| ==>
          !IsLive(NameOf(updates[i])) && 0 <= updates[i].previous <= engines[updates[i].engine].streamable
      modifies this`budgets
      ensures Valid() && budgets.Keys == old(budgets.Keys)
      ensures ok <==> forall i :: 0 <= i < count ==> a.acceptsBack(updates[i].engine)
      ensures ok ==> forall i :: 0 <= i < count ==> budgets[NameOf(updates[i])] == updates[i].previous
      ensures forall i :: count <= i < |updates| ==> budgets[NameOf(updates[i])] == old(budgets[NameOf(updates[i])])
      ensures forall n :: n in budgets && !IsAmong(updates, n) ==> budgets[n] == old(budgets[n])
    {
      ok := true;
      for i := 0 to count
        invariant Valid() && budgets.Keys == old(budgets.Keys)
        invariant ok <==> forall j :: 0 <= j < i ==> a.acceptsBack(updates[j].engine)
        invariant ok ==> forall j :: 0 <= j < i ==> budgets[NameOf(updates[j])] == updates[j].previous
        invariant forall j :: i <= j < |updates| ==> budgets[NameOf(updates[j])] == old(budgets[NameOf(updates[j])])
        invariant forall n :: n in budgets && !IsAmong(updates, n) ==> budgets[n] == old(budgets[n])
      {
        OthersDiffer(updates, i);
        var back := SetBudget(updates[i].engine, updates[i].previous, a.acceptsBack(updates[i].engine));
        ok := back && ok;
      }
    }

    lemma OthersDiffer(updates: seq<Update>, count: nat)
      requires Valid() && AreUpdates(updates) && count < |updates|
      ensures forall i :: 0 <= i < |updates| && i != count ==> NameOf(updates[i]) != NameOf(updates[count])
      ensures IsAmong(updates, NameOf(updates[count]))
    {
      forall i | 0 <= i < |updates| && i != count ensures NameOf(updates[i]) != NameOf(updates[count]) {
        if i < count {
          NamesDiffer(updates, i, count);
        } else {
          NamesDiffer(updates, count, i);
        }
      }
    }

    // The first `count` engines put back, and all contexts made again.
    method Restore(updates: seq<Update>, count: nat, a: Answers, again: bool) returns (ok: bool)
      requires Valid() && AreUpdates(updates) && count <= |updates|
      requires forall i :: 0 <= i < |updates| ==>
          NameOf(updates[i]) in contexts && !IsLive(NameOf(updates[i])) &&
          0 <= updates[i].previous <= engines[updates[i].engine].streamable
      modifies this
      ensures Valid() && budgets.Keys == old(budgets.Keys) && RebindsBut(a) && (ok ==> Rebinds())
      ensures ok <==> (forall i :: 0 <= i < count ==> a.acceptsBack(updates[i].engine)) &&
                      AllMade(updates, a, again, |updates|)
      ensures ok ==> forall i :: 0 <= i < |updates| ==> IsLive(NameOf(updates[i]))
      ensures ok ==> forall i :: 0 <= i < count ==> budgets[NameOf(updates[i])] == updates[i].previous
      ensures forall i :: count <= i < |updates| ==> budgets[NameOf(updates[i])] == old(budgets[NameOf(updates[i])])
      ensures forall n :: n in budgets && !IsAmong(updates, n) ==> budgets[n] == old(budgets[n])
      ensures forall n :: n in contexts && !IsAmong(updates, n) ==> contexts[n] == old(contexts[n])
    {
      var rolledBack := RollBack(updates, count, a);
      var recreated := RecreateContexts(updates, a, again);
      ok := rolledBack && recreated;
    }

    // Where applying ended decides at which engine it stopped.
    lemma StopsThere(b: map<string, int>, updates: seq<Update>, mode: Mode, a: Answers, count: nat)
      requires ListsUpdates(updates, b, mode, |engines|) && count <= |updates|
      requires forall j :: 0 <= j < count ==> Applies(updates[j].engine, mode, a)
      requires count < |updates| ==> !Applies(updates[count].engine, mode, a)
      ensures forall i: nat :: StopsAt(b, mode, a, i) <==> count < |updates| && i == updates[count].engine
    {
      forall i: nat | IsUpdated(b, mode, i) && (count == |updates| || i < updates[count].engine)
        ensures Applies(i, mode, a)
      {
        assert HasEngine(updates, i);
        var j :| 0 <= j < |updates| && updates[j].engine == i;
        assert j < count;
      }
      forall i: nat | StopsAt(b, mode, a, i) ensures count < |updates| && i == updates[count].engine {
        assert count < |updates| && !(i < updates[count].engine);
        assert IsUpdated(b, mode, updates[count].engine);
      }
    }

    lemma RestorableThere(b: map<string, int>, updates: seq<Update>, mode: Mode, a: Answers, count: nat)
      requires ListsUpdates(updates, b, mode, |engines|) && count < |updates|
      ensures IsRestorable(b, mode, a, updates[count].engine)
         <==> (forall j :: 0 <= j < count ==> a.acceptsBack(updates[j].engine)) && AllMade(updates, a, false, |updates|)
    {
      if IsRestorable(b, mode, a, updates[count].engine) {
        forall j | 0 <= j < |updates|
          ensures (j < count ==> a.acceptsBack(updates[j].engine)) && a.creates(updates[j].engine, false).Made?
        {
          assert IsUpdated(b, mode, updates[j].engine);
        }
      }
      if (forall j :: 0 <= j < count ==> a.acceptsBack(updates[j].engine)) && AllMade(updates, a, false, |updates|) {
        forall i: nat | IsUpdated(b, mode, i)
          ensures (i < updates[count].engine ==> a.acceptsBack(i)) && a.creates(i, false).Made?
        {
          assert HasEngine(updates, i);
        }
      }
    }

    // All engines get their budget exactly if all apply it and all contexts can be made.
    ghost predicate Completes(b: map<string, int>, mode: Mode, a: Answers) {
      forall i: nat {:trigger IsUpdated(b, mode, i)} ::
        IsUpdated(b, mode, i) ==> Applies(i, mode, a) && a.creates(i, false).Made?
    }

    lemma CompletesThere(b: map<string, int>, updates: seq<Update>, mode: Mode, a: Answers, count: nat)
      requires ListsUpdates(updates, b, mode, |engines|) && count <= |updates|
      requires forall j :: 0 <= j < count ==> Applies(updates[j].engine, mode, a)
      requires count < |updates| ==> !Applies(updates[count].engine, mode, a)
      ensures Completes(b, mode, a) <==> count == |updates| && AllMade(updates, a, false, |updates|)
    {
      if Completes(b, mode, a) {
        forall j | 0 <= j < |updates|
          ensures Applies(updates[j].engine, mode, a) && a.creates(updates[j].engine, false).Made?
        {
          assert IsUpdated(b, mode, updates[j].engine);
        }
      }
      if count == |updates| && AllMade(updates, a, false, |updates|) {
        forall i: nat | IsUpdated(b, mode, i) ensures Applies(i, mode, a) && a.creates(i, false).Made? {
          assert HasEngine(updates, i);
        }
      }
    }

    // Where applying ended decides what a failure leaves.
    lemma UndoneThere(b: map<string, int>, updates: seq<Update>, mode: Mode, a: Answers, count: nat)
      requires ListsUpdates(updates, b, mode, |engines|) && count <= |updates|
      requires forall j :: 0 <= j < count ==> Applies(updates[j].engine, mode, a)
      requires count < |updates| ==> !Applies(updates[count].engine, mode, a)
      ensures IsUndone(b, mode, a) <==>
              if count < |updates| then IsRestorable(b, mode, a, updates[count].engine)
              else !AllMade(updates, a, false, |updates|) && IsReversible(updates, a)
    {
      StopsThere(b, updates, mode, a, count);
      CompletesThere(b, updates, mode, a, count);
      if count < |updates| {
        assert StopsAt(b, mode, a, updates[count].engine);
      }
      if GoesBack(b, mode, a) {
        forall j | 0 <= j < |updates|
          ensures a.acceptsBack(updates[j].engine) && a.creates(updates[j].engine, true).Made?
        {
          assert IsUpdated(b, mode, updates[j].engine);
        }
      }
      if IsReversible(updates, a) {
        forall i: nat | IsUpdated(b, mode, i) ensures a.acceptsBack(i) && a.creates(i, true).Made? {
          assert HasEngine(updates, i);
        }
      }
    }

    ghost predicate IsReversible(updates: seq<Update>, a: Answers) {
      (forall j :: 0 <= j < |updates| ==> a.acceptsBack(updates[j].engine)) && AllMade(updates, a, true, |updates|)
    }

    // Contexts destroyed, and budgets set as far as the engines let them.
    method ApplyWithoutContexts(updates: seq<Update>, mode: Mode, a: Answers) returns (count: nat)
      requires Valid() && ListsUpdates(updates, budgets, mode, |engines|)
      requires forall i :: 0 <= i < |updates| ==> IsLive(NameOf(updates[i]))
      modifies this`budgets, this`contexts
      ensures Valid() && Rebinds() && count <= |updates| && AreApplied(old(budgets), budgets, updates, mode, a, count)
      ensures forall i :: 0 <= i < count ==> Applies(updates[i].engine, mode, a)
      ensures count < |updates| ==>
          var i, name := updates[count].engine, NameOf(updates[count]);
          !Applies(i, mode, a) && budgets[name] == if Takes(i, mode, a) then Resulting(i, mode, a) else old(budgets[name])
      ensures forall i :: 0 <= i < |updates| ==> NameOf(updates[i]) in contexts && !IsLive(NameOf(updates[i]))
      ensures forall n :: n in contexts && !IsAmong(updates, n) ==> contexts[n] == old(contexts[n])
    {
      DestroyContexts(updates);
      count := ApplyAll(updates, mode, a);
    }

    // Then contexts made again.
    method UpdateBudgets(updates: seq<Update>, mode: Mode, a: Answers) returns (status: Status)
      requires Valid() && ListsUpdates(updates, budgets, mode, |engines|)
      requires forall i :: 0 <= i < |updates| ==> IsLive(NameOf(updates[i]))
      modifies this
      ensures Valid() && budgets.Keys == old(budgets.Keys) && RebindsBut(a)
      ensures status != Failed(false) ==> Rebinds() && SameAreLive(old(contexts), contexts)
      ensures IsOutcome(old(budgets), budgets, mode, a, status)
    {
      ghost var b, c := budgets, contexts;
      var count := ApplyWithoutContexts(updates, mode, a);
      if count == |updates| {
        status := FinishUpdate(b, updates, mode, a);
        FinishedAsDecided(b, budgets, updates, mode, a, status);
      } else {
        StopsThere(b, updates, mode, a, count);
        status := AbandonUpdate(b, updates, mode, a, count);
        AbandonedAsDecided(b, budgets, updates, mode, a, count, status);
      }
      if status != Failed(false) {
        LiveAgain(c, contexts, updates);
      }
    }

    // What the answers make of an update that has begun.
    ghost predicate IsOutcome(b: map<string, int>, after: map<string, int>, mode: Mode, a: Answers, status: Status) {
      && (status.Success? <==> Completes(b, mode, a))
      && (status == Failed(true) <==> IsUndone(b, mode, a))
      && (status.Success? ==> AreNew(b, after, mode, a))
      && (forall i: nat :: KeepsUnreported(b, mode, a, i) ==>
            status == Failed(true) && after == b[engines[i].name := Resulting(i, mode, a)])
      && (status == Failed(true) && after != b ==> exists i: nat :: KeepsUnreported(b, mode, a, i))
    }

    lemma FinishedAsDecided(
      b: map<string, int>, after: map<string, int>, updates: seq<Update>, mode: Mode, a: Answers, status: Status)
      requires ListsUpdates(updates, b, mode, |engines|)
      requires forall j :: 0 <= j < |updates| ==> Applies(updates[j].engine, mode, a)
      requires status.Success? <==> AllMade(updates, a, false, |updates|)
      requires status.Success? ==> AreNew(b, after, mode, a)
      requires status == Failed(true) <==> !AllMade(updates, a, false, |updates|) && IsReversible(updates, a)
      requires status == Failed(true) ==> after == b
      ensures IsOutcome(b, after, mode, a, status)
    {
      StopsThere(b, updates, mode, a, |updates|);
      CompletesThere(b, updates, mode, a, |updates|);
      UndoneThere(b, updates, mode, a, |updates|);
    }

    lemma AbandonedAsDecided(
      b: map<string, int>, after: map<string, int>, updates: seq<Update>, mode: Mode, a: Answers, count: nat,
      status: Status)
      requires ListsUpdates(updates, b, mode, |engines|) && count < |updates|
      requires forall j :: 0 <= j < count ==> Applies(updates[j].engine, mode, a)
      requires !Applies(updates[count].engine, mode, a) && status.Failed?
      requires status.restored <==> IsRestorable(b, mode, a, updates[count].engine)
      requires KeepsUnreported(b, mode, a, updates[count].engine) ==>
          status.restored && after == b[NameOf(updates[count]) := Resulting(updates[count].engine, mode, a)]
      requires status.restored && after != b ==> KeepsUnreported(b, mode, a, updates[count].engine)
      ensures IsOutcome(b, after, mode, a, status)
    {
      StopsThere(b, updates, mode, a, count);
      CompletesThere(b, updates, mode, a, count);
      UndoneThere(b, updates, mode, a, count);
    }

    ghost predicate SameAreLive(c: map<string, Option<nat>>, after: map<string, Option<nat>>) {
      after.Keys == c.Keys && forall n :: n in c ==> (after[n].Some? <==> c[n].Some?)
    }

    lemma LiveAgain(c: map<string, Option<nat>>, after: map<string, Option<nat>>, updates: seq<Update>)
      requires AreUpdates(updates) && after.Keys == c.Keys
      requires forall i :: 0 <= i < |updates| ==>
          NameOf(updates[i]) in c && c[NameOf(updates[i])].Some? && after[NameOf(updates[i])].Some?
      requires forall n :: n in after && !IsAmong(updates, n) ==> after[n] == c[n]
      ensures SameAreLive(c, after)
    {
      forall n | n in c ensures after[n].Some? <==> c[n].Some? {
        if IsAmong(updates, n) {
          var j :| 0 <= j < |updates| && updates[j].engine < |engines| && NameOf(updates[j]) == n;
        }
      }
    }

    // One engine has not been applied: those before it go back, it stays as it is.
    method AbandonUpdate(ghost b: map<string, int>, updates: seq<Update>, mode: Mode, a: Answers, count: nat)
      returns (status: Status)
      requires Valid() && InRange(b) && ListsUpdates(updates, b, mode, |engines|) && count < |updates|
      requires AreApplied(b, budgets, updates, mode, a, count) && StopsAt(b, mode, a, updates[count].engine)
      requires var i, name := updates[count].engine, NameOf(updates[count]);
          budgets[name] == if Takes(i, mode, a) then Resulting(i, mode, a) else b[name]
      requires forall i :: 0 <= i < |updates| ==> NameOf(updates[i]) in contexts && !IsLive(NameOf(updates[i]))
      modifies this
      ensures Valid() && budgets.Keys == old(budgets.Keys) && RebindsBut(a)
      ensures status.Failed? && (status.restored ==> Rebinds())
      ensures status.restored <==> IsRestorable(b, mode, a, updates[count].engine)
      ensures status.restored ==> forall i :: 0 <= i < |updates| ==> IsLive(NameOf(updates[i]))
      ensures forall n :: n in contexts && !IsAmong(updates, n) ==> contexts[n] == old(contexts[n])
      ensures KeepsUnreported(b, mode, a, updates[count].engine) ==>
          status.restored && budgets == b[NameOf(updates[count]) := Resulting(updates[count].engine, mode, a)]
      ensures status.restored && budgets != b ==> KeepsUnreported(b, mode, a, updates[count].engine)
    {
      ghost var applied := budgets;
      var restored := Restore(updates, count, a, false);
      status := Failed(restored);
      RestorableThere(b, updates, mode, a, count);
      if restored {
        RestoredBut(b, applied, budgets, updates, mode, a, count);
        UnreportedThere(b, budgets, updates, mode, a, count);
      }
    }

    lemma UnreportedThere(
      b: map<string, int>, after: map<string, int>, updates: seq<Update>, mode: Mode, a: Answers, count: nat)
      requires Valid() && ListsUpdates(updates, b, mode, |engines|) && count < |updates|
      requires StopsAt(b, mode, a, updates[count].engine) && IsRestorable(b, mode, a, updates[count].engine)
      requires var i, name := updates[count].engine, NameOf(updates[count]);
          after == if Takes(i, mode, a) then b[name := Resulting(i, mode, a)] else b
      ensures after != b <==> KeepsUnreported(b, mode, a, updates[count].engine)
    {
    }

    // The updated engines have what they should have, all others what they had.
    ghost predicate AreNew(b: map<string, int>, after: map<string, int>, mode: Mode, a: Answers) {
      && after.Keys == b.Keys
      && forall i: nat {:trigger IsUpdated(b, mode, i)} :: i < |engines| && engines[i].present && engines[i].name in b ==>
          after[engines[i].name] == if IsUpdated(b, mode, i) then Resulting(i, mode, a) else b[engines[i].name]
    }

    lemma AppliedAreNew(
      b: map<string, int>, after: map<string, int>, updates: seq<Update>, mode: Mode, a: Answers)
      requires Valid() && ListsUpdates(updates, b, mode, |engines|)
      requires AreApplied(b, after, updates, mode, a, |updates|)
      ensures AreNew(b, after, mode, a)
    {
      forall i: nat | i < |engines| && engines[i].present && engines[i].name in b
        ensures after[engines[i].name] == if IsUpdated(b, mode, i) then Resulting(i, mode, a) else b[engines[i].name]
      {
        if IsAmong(updates, engines[i].name) {
          var j :| 0 <= j < |updates| && updates[j].engine < |engines| && NameOf(updates[j]) == engines[i].name;
          assert updates[j].engine == i;
        }
        if IsUpdated(b, mode, i) {
          assert HasEngine(updates, i);
        }
      }
    }

    lemma RestoredBut(
      b: map<string, int>, applied: map<string, int>, after: map<string, int>, updates: seq<Update>, mode: Mode, a: Answers,
      count: nat)
      requires Valid() && ListsUpdates(updates, b, mode, |engines|) && count < |updates|
      requires AreApplied(b, applied, updates, mode, a, count) && after.Keys == b.Keys
      requires var i, name := updates[count].engine, NameOf(updates[count]);
          applied[name] == if Takes(i, mode, a) then Resulting(i, mode, a) else b[name]
      requires forall i :: 0 <= i < count ==> after[NameOf(updates[i])] == updates[i].previous
      requires forall i :: count <= i < |updates| ==> after[NameOf(updates[i])] == applied[NameOf(updates[i])]
      requires forall n :: n in after && !IsAmong(updates, n) ==> after[n] == applied[n]
      ensures var i, name := updates[count].engine, NameOf(updates[count]);
          after == if Takes(i, mode, a) then b[name := Resulting(i, mode, a)] else b
    {
      OthersDiffer(updates, count);
      var i, name := updates[count].engine, NameOf(updates[count]);
      forall n | n in b && n != name ensures after[n] == b[n] {
        if IsAmong(updates, n) {
          var j :| 0 <= j < |updates| && updates[j].engine < |engines| && NameOf(updates[j]) == n;
          assert j != count;
        }
      }
    }

    // All budgets are applied: either all contexts can be made, or all budgets go back.
    method FinishUpdate(ghost b: map<string, int>, updates: seq<Update>, mode: Mode, a: Answers) returns (status: Status)
      requires Valid() && InRange(b) && ListsUpdates(updates, b, mode, |engines|)
      requires AreApplied(b, budgets, updates, mode, a, |updates|)
      requires forall i :: 0 <= i < |updates| ==> NameOf(updates[i]) in contexts && !IsLive(NameOf(updates[i]))
      modifies this
      ensures Valid() && budgets.Keys == old(budgets.Keys) && RebindsBut(a)
      ensures status != Failed(false) ==> Rebinds() && forall i :: 0 <= i < |updates| ==> IsLive(NameOf(updates[i]))
      ensures forall n :: n in contexts && !IsAmong(updates, n) ==> contexts[n] == old(contexts[n])
      ensures status.Success? <==> AllMade(updates, a, false, |updates|)
      ensures status.Success? ==> AreNew(b, budgets, mode, a)
      ensures status == Failed(true) <==> !AllMade(updates, a, false, |updates|) && IsReversible(updates, a)
      ensures status == Failed(true) ==> budgets == b
    {
      var recreated := RecreateContexts(updates, a, false);
      if recreated {
        AppliedAreNew(b, budgets, updates, mode, a);
        return Success;
      }
      var restored := RevertUpdate(b, updates, mode, a);
      status := Failed(restored);
    }

    method RevertUpdate(ghost b: map<string, int>, updates: seq<Update>, mode: Mode, a: Answers) returns (ok: bool)
      requires Valid() && InRange(b) && ListsUpdates(updates, b, mode, |engines|)
      requires AreApplied(b, budgets, updates, mode, a, |updates|)
      requires forall i :: 0 <= i < |updates| ==> NameOf(updates[i]) in contexts
      modifies this
      ensures Valid() && budgets.Keys == old(budgets.Keys) && RebindsBut(a) && (ok ==> Rebinds() && budgets == b)
      ensures ok <==> IsReversible(updates, a)
      ensures ok ==> forall i :: 0 <= i < |updates| ==> IsLive(NameOf(updates[i])) && NameOf(updates[i]) in firstRun
      ensures forall n :: n in contexts && !IsAmong(updates, n) ==> contexts[n] == old(contexts[n])
    {
      ghost var applied := budgets;
      DestroyContexts(updates);
      ok := Restore(updates, |updates|, a, true);
      if ok {
        AllRestored(b, applied, budgets, updates, mode, a);
      }
    }

    lemma AllRestored(
      b: map<string, int>, applied: map<string, int>, after: map<string, int>, updates: seq<Update>, mode: Mode, a: Answers)
      requires ListsUpdates(updates, b, mode, |engines|) && AreApplied(b, applied, updates, mode, a, |updates|)
      requires after.Keys == b.Keys
      requires forall i :: 0 <= i < |updates| ==> after[NameOf(updates[i])] == updates[i].previous
      requires forall n :: n in after && !IsAmong(updates, n) ==> after[n] == applied[n]
      ensures after == b
    {
      forall n | n in b ensures after[n] == b[n] {
        if IsAmong(updates, n) {
          var j :| 0 <= j < |updates| && updates[j].engine < |engines| && NameOf(updates[j]) == n;
        }
      }
    }

    // Every engine there is has the budget the mode asks for.
    ghost predicate HasBudgets(after: map<string, int>, mode: Mode, a: Answers) {
      forall i: nat :: i < |engines| && engines[i].present ==>
        engines[i].name in after &&
        IsBudgetOf(mode, engines[i].streamable, a.proposes(i, true), after[engines[i].name])
    }

    // Engine i can stream, unless streaming is to be disabled, and no negative budget is asked for.
    ghost predicate CanTake(mode: Mode, i: nat, proposal: int) {
      i < |engines| && engines[i].present ==>
        (mode.Disabled? || engines[i].streamable > 0) && IsNotNegative(mode, engines[i].streamable, proposal)
    }

    // Nothing is in the way: every engine can take what is asked for, and has a context, takes and
    // reports any budget, and is given a context again.
    ghost predicate GoesWell(contexts: map<string, Option<nat>>, mode: Mode, a: Answers) {
      && a.synchronized && (forall i: nat :: Cooperates(contexts, a, i))
      && forall i: nat :: CanTake(mode, i, a.proposes(i, false)) && CanTake(mode, i, a.proposes(i, true))
    }

    ghost predicate Cooperates(contexts: map<string, Option<nat>>, a: Answers, i: nat) {
      i < |engines| && engines[i].present ==>
        && engines[i].name in contexts && contexts[engines[i].name].Some?
        && a.accepts(i) && a.reports(i) && a.creates(i, false).Made?
    }

    lemma SuccessAsAsked(b: map<string, int>, after: map<string, int>, contexts: map<string, Option<nat>>, mode: Mode,
                         a: Answers)
      requires InRange(b)
      ensures Begins(b, contexts, mode, a) && Completes(b, mode, a) && AreNew(b, after, mode, a) ==>
          HasBudgets(after, mode, a) && forall i: nat :: CanTake(mode, i, a.proposes(i, false))
    {
      if Begins(b, contexts, mode, a) && Completes(b, mode, a) && AreNew(b, after, mode, a) {
        NewAsAsked(b, after, contexts, mode, a);
      }
    }

    lemma NewAsAsked(b: map<string, int>, after: map<string, int>, contexts: map<string, Option<nat>>, mode: Mode,
                     a: Answers)
      requires InRange(b) && Begins(b, contexts, mode, a) && Completes(b, mode, a) && AreNew(b, after, mode, a)
      ensures HasBudgets(after, mode, a) && forall i: nat :: CanTake(mode, i, a.proposes(i, false))
    {
      forall i: nat | i < |engines| && engines[i].present
        ensures IsBudgetOf(mode, engines[i].streamable, a.proposes(i, true), after[engines[i].name])
        ensures CanTake(mode, i, a.proposes(i, false))
      {
        assert IsUpdatable(b, contexts, mode, a, i);
        if !mode.Automatic? {
          ResolvedAsAsked(mode, engines[i].streamable, a.proposes(i, true));
          ResolvedAsAsked(mode, engines[i].streamable, a.proposes(i, false));
        }
        assert IsUpdated(b, mode, i) ==> Applies(i, mode, a);
      }
    }

    lemma GoesWellAsAsked(b: map<string, int>, contexts: map<string, Option<nat>>, mode: Mode, a: Answers)
      requires InRange(b)
      ensures GoesWell(contexts, mode, a) ==> Begins(b, contexts, mode, a) && Completes(b, mode, a)
    {
      if GoesWell(contexts, mode, a) {
        WellIsBegunAndCompleted(b, contexts, mode, a);
      }
    }

    lemma WellIsBegunAndCompleted(b: map<string, int>, contexts: map<string, Option<nat>>, mode: Mode, a: Answers)
      requires InRange(b) && GoesWell(contexts, mode, a)
      ensures Begins(b, contexts, mode, a) && Completes(b, mode, a)
    {
      forall i: nat
        ensures IsUpdatable(b, contexts, mode, a, i)
        ensures IsUpdated(b, mode, i) ==> Applies(i, mode, a) && a.creates(i, false).Made?
      {
        assert Cooperates(contexts, a, i);
        assert CanTake(mode, i, a.proposes(i, false)) && CanTake(mode, i, a.proposes(i, true));
        if i < |engines| && !mode.Automatic? {
          ResolvedAsAsked(mode, engines[i].streamable, a.proposes(i, true));
        }
      }
    }

    // Either all engines get their budget, or the failure tells whether everything is as before. It
    // tells so wrongly exactly when some engine takes a new budget that cannot be reported.
    method ApplyRuntimeWeightStreamingBudget(mode: Mode, a: Answers) returns (status: Status)
      requires Valid()
      modifies this
      ensures Valid() && budgets.Keys == old(budgets.Keys) && RebindsBut(a)
      ensures status != Failed(false) ==> Rebinds() && SameAreLive(old(contexts), contexts)
      ensures status.Success? <==> Begins(old(budgets), old(contexts), mode, a) && Completes(old(budgets), mode, a)
      ensures status.Success? ==> AreNew(old(budgets), budgets, mode, a)
      ensures status.Success? ==> HasBudgets(budgets, mode, a) && forall i: nat :: CanTake(mode, i, a.proposes(i, false))
      ensures GoesWell(old(contexts), mode, a) ==> status.Success?
      ensures status == Failed(true)
         <==> !Begins(old(budgets), old(contexts), mode, a) || IsUndone(old(budgets), mode, a)
      ensures status == Failed(true) && budgets != old(budgets)
         <==> Begins(old(budgets), old(contexts), mode, a) && exists i: nat :: KeepsUnreported(old(budgets), mode, a, i)
      ensures forall i: nat :: Begins(old(budgets), old(contexts), mode, a) && KeepsUnreported(old(budgets), mode, a, i) ==>
          budgets == old(budgets)[engines[i].name := Resulting(i, mode, a)]
    {
      GoesWellAsAsked(budgets, contexts, mode, a);
      if !a.synchronized {
        return Failed(true);
      }
      var updates := CollectUpdates(mode, a);
      if updates.None? {
        return Failed(true);
      }
      if updates.value == [] {
        NothingToUpdate(budgets, mode, a);
        SuccessAsAsked(budgets, budgets, contexts, mode, a);
        return Success;
      }
      ghost var b, c := budgets, contexts;
      UpdatedAreLive(updates.value, mode, a);
      status := UpdateBudgets(updates.value, mode, a);
      SuccessAsAsked(b, budgets, c, mode, a);
    }

    lemma NothingToUpdate(b: map<string, int>, mode: Mode, a: Answers)
      requires ListsUpdates([], b, mode, |engines|)
      ensures Completes(b, mode, a) && AreNew(b, b, mode, a)
      ensures forall i: nat :: !KeepsUnreported(b, mode, a, i)
      ensures !IsUndone(b, mode, a)
    {
      forall i: nat ensures !IsUpdated(b, mode, i) {
        assert IsUpdated(b, mode, i) ==> HasEngine([], i);
      }
    }

    lemma UpdatedAreLive(updates: seq<Update>, mode: Mode, a: Answers)
      requires Valid() && ListsUpdates(updates, budgets, mode, |engines|)
      requires AllUpdatable(budgets, contexts, mode, a)
      ensures forall i :: 0 <= i < |updates| ==> IsLive(NameOf(updates[i]))
    {
      forall i | 0 <= i < |updates| ensures IsLive(NameOf(updates[i])) {
        assert IsUpdatable(budgets, contexts, mode, a, updates[i].engine);
      }
    }
  }

  // One engine is to go from 0 to 60 bytes. It takes them, they cannot be reported, and its context
  // is made again: the failure reads as if all had been put back, but the engine streams by its new
  // budget.
  method UnreportedBudgetStays() returns (status: Status, budgets: map<string, int>)
    ensures status == Failed(true) && budgets == map["plan" := 60]
  {
    var a := Answers(true, (i, setting) => 0, i => true, i => false, i => true, (i, again) => Made);
    var provider := new Provider([Engine("plan", true, 100)], map["plan" := 0], map["plan" := Some(0)], 1);
    assert provider.IsUpdated(provider.budgets, Bytes(60), 0);
    assert provider.KeepsUnreported(provider.budgets, Bytes(60), a, 0);
    status := provider.ApplyRuntimeWeightStreamingBudget(Bytes(60), a);
    budgets := provider.budgets;
  }

  // An exception after a context has been put in place: the context is new, but the next run is
  // not told to bind anew.
  method HalfMadeContextIsNotMarked() returns (context: Option<nat>, marked: bool)
    ensures context == Some(1) && !marked
  {
    var provider := new Provider([Engine("plan", true, 100)], map["plan" := 0], map["plan" := Some(0)], 1);
    provider.RecreateContext("plan", HalfMade);
    context, marked := provider.contexts["plan"], "plan" in provider.firstRun;
  }
}
