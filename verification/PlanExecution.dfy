/** What holds of every completed run of the plan executor. */
module PlanExecution {
  import opened Wrappers
  import opened Collections
  import opened TopologicalOrder
  import opened Planning
  import opened PlanCompiler
  import opened RetryAgent
  import opened InputBindings
  import opened PlanExecutor

  /** A finished run: every subquery has the outcome its dependencies dictate. */
  ghost predicate Finished<V>(items: seq<Subquery>, outcomes: Outcomes<V>, agent: Agent<V>) {
    outcomes.Keys == Ids(items) && Settled(items, outcomes, agent)
  }

  /** `path` leads from `id` over dependencies to an ancestor. */
  ghost predicate LeadsFrom(items: seq<Subquery>, path: seq<string>, id: string) {
    |path| >= 2 && path[0] == id && Path(items, path)
  }

  ghost predicate Ancestor(items: seq<Subquery>, id: string, ancestor: string) {
    exists path :: LeadsFrom(items, path, id) && Last(path) == ancestor
  }

  lemma StepOutcome<V>(items: seq<Subquery>, outcomes: Outcomes<V>, agent: Agent<V>, id: string, d: string)
    requires Finished(items, outcomes, agent) && DependsOn(items, id, d)
    ensures id in outcomes && d in outcomes
    ensures outcomes[d].Failed() ==> outcomes[id].DependencyFailed?
    ensures outcomes[d].Empty() && !outcomes[id].DependencyFailed? ==> outcomes[id].DependencyEmpty?
    ensures outcomes[d].Empty() && outcomes[d].InDoubt() && outcomes[id].DependencyEmpty? ==>
      outcomes[id].reason == Inconclusive
  {
    var t :| t in items && t.id == id && d in t.dependsOn;
    assert t.id in Ids(items);
    SelectMembers(t.dependsOn, outcomes, (o: Outcome<V>) => o.Failed());
    SelectMembers(t.dependsOn, outcomes, (o: Outcome<V>) => o.Empty());
    assert outcomes[d].Failed() ==> d in FailedOf(t.dependsOn, outcomes);
    assert outcomes[d].Empty() ==> d in EmptyOf(t.dependsOn, outcomes);
  }

  /** No result to go on with: an error, or nothing at all. */
  ghost predicate Broken<V>(o: Outcome<V>) {
    match o
    case Ran(s) => s.error.Some? || s.result.Nothing?
    case DependencyEmpty(_) => false
    case _ => true
  }

  ghost predicate CameEmpty<V>(o: Outcome<V>) {
    match o
    case Ran(s) => s.result.Rows? && s.result.rows == []
    case DependencyEmpty(_) => true
    case _ => false
  }

  ghost predicate SomeBroken<V>(ids: seq<string>, outcomes: Outcomes<V>) {
    exists d :: d in ids && d in outcomes && Broken(outcomes[d])
  }

  ghost predicate SomeEmpty<V>(ids: seq<string>, outcomes: Outcomes<V>, inDoubt: bool) {
    exists d :: d in ids && d in outcomes && CameEmpty(outcomes[d]) && (inDoubt ==> outcomes[d].InDoubt())
  }

  /** The outcome that the outcomes of the dependencies dictate: a dependency failure that names the broken
      ones, else a dependency emptiness if one came back empty, in doubt if one of those is, else a run. */
  ghost predicate Dictated<V>(ids: seq<string>, outcomes: Outcomes<V>, o: Outcome<V>) {
    if SomeBroken(ids, outcomes) then
      && o.DependencyFailed?
      && forall d :: d in o.dependencies <==> d in ids && d in outcomes && Broken(outcomes[d])
    else if SomeEmpty(ids, outcomes, false) then
      o.DependencyEmpty? && (o.reason == Inconclusive <==> SomeEmpty(ids, outcomes, true))
    else o.Ran? || o.BindingInvalid?
  }

  lemma FailedAreBroken<V>(ids: seq<string>, outcomes: Outcomes<V>)
    requires forall id :: id in ids ==> id in outcomes
    ensures forall d :: d in FailedOf(ids, outcomes) <==> d in ids && Broken(outcomes[d])
    ensures SomeBroken(ids, outcomes) <==> FailedOf(ids, outcomes) != []
  {
    SelectMembers(ids, outcomes, (o: Outcome<V>) => o.Failed());
    if FailedOf(ids, outcomes) != [] {
      assert FailedOf(ids, outcomes)[0] in FailedOf(ids, outcomes);
    }
  }

  lemma EmptyCameEmpty<V>(ids: seq<string>, outcomes: Outcomes<V>)
    requires forall id :: id in ids ==> id in outcomes
    ensures forall d :: d in EmptyOf(ids, outcomes) <==> d in ids && CameEmpty(outcomes[d])
    ensures SomeEmpty(ids, outcomes, false) <==> EmptyOf(ids, outcomes) != []
    ensures SomeEmpty(ids, outcomes, true) <==> SomeInconclusive(EmptyOf(ids, outcomes), outcomes)
  {
    SelectMembers(ids, outcomes, (o: Outcome<V>) => o.Empty());
    if EmptyOf(ids, outcomes) != [] {
      assert EmptyOf(ids, outcomes)[0] in EmptyOf(ids, outcomes);
    }
  }

  /** Every subquery of a finished run ends as its dependencies dictate. */
  lemma DependenciesDictate<V>(items: seq<Subquery>, outcomes: Outcomes<V>, agent: Agent<V>, t: Subquery)
    requires Finished(items, outcomes, agent) && t in items && t.id in outcomes
    ensures (forall d :: d in t.dependsOn ==> d in outcomes) && Dictated(t.dependsOn, outcomes, outcomes[t.id])
  {
    FailedAreBroken(t.dependsOn, outcomes);
    EmptyCameEmpty(t.dependsOn, outcomes);
  }

  lemma PathTail(items: seq<Subquery>, path: seq<string>)
    requires Path(items, path) && |path| >= 2
    ensures Path(items, path[1..]) && DependsOn(items, path[0], path[1])
  {
    assert DependsOn(items, path[0], path[0 + 1]);
    forall k | 0 <= k < |path[1..]| - 1 ensures DependsOn(items, path[1..][k], path[1..][k + 1]) {
      assert DependsOn(items, path[k + 1], path[k + 1 + 1]);
    }
  }

  lemma PathCons(items: seq<Subquery>, id: string, path: seq<string>)
    requires Path(items, path) && path != [] && DependsOn(items, id, path[0])
    ensures Path(items, [id] + path)
  {
    var longer := [id] + path;
    forall k | 0 <= k < |longer| - 1 ensures DependsOn(items, longer[k], longer[k + 1]) {
      if k > 0 {
        assert DependsOn(items, path[k - 1], path[k - 1 + 1]);
      }
    }
  }

  /** A failure reaches every descendant. */
  lemma {:induction false} FailurePropagates<V>(items: seq<Subquery>, outcomes: Outcomes<V>, agent: Agent<V>,
      path: seq<string>)
    requires Finished(items, outcomes, agent) && |path| >= 2 && Path(items, path)
    requires Last(path) in outcomes && outcomes[Last(path)].Failed()
    ensures path[0] in outcomes && outcomes[path[0]].DependencyFailed?
  {
    PathTail(items, path);
    if |path| > 2 {
      FailurePropagates(items, outcomes, agent, path[1..]);
    }
    StepOutcome(items, outcomes, agent, path[0], path[1]);
  }

  /** A missing result reaches every descendant that no failure reaches, and so does doubt. */
  lemma {:induction false} EmptinessPropagates<V>(items: seq<Subquery>, outcomes: Outcomes<V>, agent: Agent<V>,
      path: seq<string>)
    requires Finished(items, outcomes, agent) && |path| >= 2 && Path(items, path)
    requires Last(path) in outcomes && outcomes[Last(path)].Empty()
    requires path[0] in outcomes && !outcomes[path[0]].DependencyFailed?
    ensures outcomes[path[0]].DependencyEmpty?
    ensures outcomes[Last(path)].InDoubt() ==> outcomes[path[0]].reason == Inconclusive
  {
    PathTail(items, path);
    StepOutcome(items, outcomes, agent, path[0], path[1]);
    if |path| > 2 {
      EmptinessPropagates(items, outcomes, agent, path[1..]);
    }
  }

  /** What `o` is for the sake of a dependency, that dependency's outcome `d` accounts for. */
  ghost predicate PassesOn<V>(d: Outcome<V>, o: Outcome<V>) {
    match o
    case DependencyFailed(_) => d.Failed()
    case DependencyEmpty(reason) =>
      d.Empty() && !d.Failed() && (reason == Inconclusive ==> d.InDoubt())
    case _ => false
  }

  lemma DependencyCause<V>(items: seq<Subquery>, outcomes: Outcomes<V>, agent: Agent<V>, t: Subquery)
      returns (d: string)
    requires Finished(items, outcomes, agent) && t in items && t.id in outcomes
    requires outcomes[t.id].DependencyFailed? || outcomes[t.id].DependencyEmpty?
    ensures d in t.dependsOn && d in outcomes && DependsOn(items, t.id, d) && PassesOn(outcomes[d], outcomes[t.id])
  {
    var failed, empty := FailedOf(t.dependsOn, outcomes), EmptyOf(t.dependsOn, outcomes);
    SelectMembers(t.dependsOn, outcomes, (o: Outcome<V>) => o.Failed());
    SelectMembers(t.dependsOn, outcomes, (o: Outcome<V>) => o.Empty());
    if outcomes[t.id].DependencyFailed? {
      d := failed[0];
      assert d in failed;
    } else if outcomes[t.id].reason == Inconclusive {
      assert SomeInconclusive(empty, outcomes);
      d :| d in empty && outcomes[d].InDoubt();
      assert outcomes[d].Failed() ==> d in failed;
    } else {
      d := empty[0];
      assert d in empty;
      assert outcomes[d].Failed() ==> d in failed;
    }
  }

  /** `order` is a dependency order of the items. */
  ghost predicate Ordered(items: seq<Subquery>, order: seq<Subquery>) {
    SameItems(items, order) && InOrder(order, {})
  }

  lemma EarlierDependency(items: seq<Subquery>, order: seq<Subquery>, i: nat, d: string) returns (j: nat)
    requires Ordered(items, order) && i < |order| && d in order[i].dependsOn
    ensures j < i && order[j].id == d
  {
    assert Released(order[i], {} + Ids(order[..i]));
    var dep :| dep in order[..i] && dep.id == d;
    j :| 0 <= j < i && order[j] == dep;
  }

  /** `a` accounts for `o` by itself: it failed where `o` is a dependency failure, and came back
      empty where `o` is a dependency emptiness, in doubt if `o` is. */
  ghost predicate Causes<V>(a: Outcome<V>, o: Outcome<V>) {
    && (o.DependencyFailed? ==> a.FailedItself())
    && (o.DependencyEmpty? ==>
          a.EmptyItself() && (o.reason == Inconclusive ==> a.InDoubt()))
  }

  lemma CausePassesOn<V>(a: Outcome<V>, d: Outcome<V>, o: Outcome<V>)
    requires PassesOn(d, o)
    ensures (d.DependencyFailed? || d.DependencyEmpty?) && Causes(a, d) ==> Causes(a, o)
    ensures !d.DependencyFailed? && !d.DependencyEmpty? ==> Causes(d, o)
  {
  }

  lemma PathOfTwo(items: seq<Subquery>, id: string, d: string)
    requires DependsOn(items, id, d)
    ensures LeadsFrom(items, [id, d], id) && Last([id, d]) == d
  {
    var path := [id, d];
    assert DependsOn(items, path[0], path[0 + 1]);
  }

  lemma CauseReaches<V>(items: seq<Subquery>, outcomes: Outcomes<V>, id: string, d: string, path: seq<string>)
    requires id in outcomes && d in outcomes && DependsOn(items, id, d) && PassesOn(outcomes[d], outcomes[id])
    requires outcomes[d].DependencyFailed? || outcomes[d].DependencyEmpty?
    requires LeadsFrom(items, path, d) && Last(path) in outcomes && Causes(outcomes[Last(path)], outcomes[d])
    ensures LeadsFrom(items, [id] + path, id) && Last([id] + path) == Last(path)
    ensures Causes(outcomes[Last(path)], outcomes[id])
  {
    PathCons(items, id, path);
    CausePassesOn(outcomes[Last(path)], outcomes[d], outcomes[id]);
  }

  /** Behind a dependency failure stands an ancestor that failed by itself; behind a
      dependency emptiness one that came back empty by itself, in doubt if the descendant is. */
  lemma {:induction false} CauseExists<V>(items: seq<Subquery>, order: seq<Subquery>, outcomes: Outcomes<V>,
      agent: Agent<V>, i: nat) returns (path: seq<string>)
    requires Finished(items, outcomes, agent) && Ordered(items, order) && i < |order| && order[i].id in outcomes
    requires outcomes[order[i].id].DependencyFailed? || outcomes[order[i].id].DependencyEmpty?
    ensures LeadsFrom(items, path, order[i].id) && Last(path) in outcomes
    ensures Causes(outcomes[Last(path)], outcomes[order[i].id])
    decreases i
  {
    var t := order[i];
    assert t in multiset(order) && t in multiset(items);
    var d := DependencyCause(items, outcomes, agent, t);
    var j := EarlierDependency(items, order, i, d);
    if outcomes[d].DependencyFailed? || outcomes[d].DependencyEmpty? {
      var rest := CauseExists(items, order, outcomes, agent, j);
      path := [t.id] + rest;
      CauseReaches(items, outcomes, t.id, d, rest);
    } else {
      path := [t.id, d];
      PathOfTwo(items, t.id, d);
      CausePassesOn(outcomes[d], outcomes[d], outcomes[t.id]);
    }
  }

  ghost predicate FailedAncestor<V>(items: seq<Subquery>, outcomes: Outcomes<V>, id: string) {
    exists a :: Ancestor(items, id, a) && a in outcomes && outcomes[a].FailedItself()
  }

  ghost predicate EmptyAncestor<V>(items: seq<Subquery>, outcomes: Outcomes<V>, id: string, inDoubt: bool) {
    exists a :: Ancestor(items, id, a) && a in outcomes && outcomes[a].EmptyItself()
                && (inDoubt ==> outcomes[a].InDoubt())
  }

  /** How a subquery ends is decided by its ancestors alone: a dependency failure exactly when
      one of them failed by itself; a dependency emptiness exactly when none did but one came
      back empty by itself, inconclusive exactly when one of those was. */
  lemma AncestorsDecide<V>(items: seq<Subquery>, order: seq<Subquery>, outcomes: Outcomes<V>, agent: Agent<V>,
      t: Subquery)
    requires Finished(items, outcomes, agent) && Ordered(items, order) && t in items && t.id in outcomes
    ensures outcomes[t.id].DependencyFailed? <==> FailedAncestor(items, outcomes, t.id)
    ensures outcomes[t.id].DependencyEmpty? <==>
      !FailedAncestor(items, outcomes, t.id) && EmptyAncestor(items, outcomes, t.id, false)
    ensures outcomes[t.id].DependencyEmpty? ==>
      (outcomes[t.id].reason == Inconclusive <==> EmptyAncestor(items, outcomes, t.id, true))
  {
    if FailedAncestor(items, outcomes, t.id) {
      FailedAncestorDecides(items, outcomes, agent, t);
    } else if EmptyAncestor(items, outcomes, t.id, false) {
      if outcomes[t.id].DependencyFailed? {
        CauseAmongAncestors(items, order, outcomes, agent, t);
      }
      EmptyAncestorDecides(items, outcomes, agent, t, false);
      if EmptyAncestor(items, outcomes, t.id, true) {
        EmptyAncestorDecides(items, outcomes, agent, t, true);
      } else if outcomes[t.id].reason == Inconclusive {
        CauseAmongAncestors(items, order, outcomes, agent, t);
      }
    } else if outcomes[t.id].DependencyFailed? || outcomes[t.id].DependencyEmpty? {
      CauseAmongAncestors(items, order, outcomes, agent, t);
    }
  }

  lemma CauseAmongAncestors<V>(items: seq<Subquery>, order: seq<Subquery>, outcomes: Outcomes<V>, agent: Agent<V>,
      t: Subquery)
    requires Finished(items, outcomes, agent) && Ordered(items, order) && t in items && t.id in outcomes
    requires outcomes[t.id].DependencyFailed? || outcomes[t.id].DependencyEmpty?
    ensures outcomes[t.id].DependencyFailed? ==> FailedAncestor(items, outcomes, t.id)
    ensures outcomes[t.id].DependencyEmpty? ==>
      EmptyAncestor(items, outcomes, t.id, outcomes[t.id].reason == Inconclusive)
  {
    assert t in multiset(order);
    var i :| 0 <= i < |order| && order[i] == t;
    var path := CauseExists(items, order, outcomes, agent, i);
    assert Ancestor(items, t.id, Last(path));
  }

  lemma FailedAncestorDecides<V>(items: seq<Subquery>, outcomes: Outcomes<V>, agent: Agent<V>, t: Subquery)
    requires Finished(items, outcomes, agent) && FailedAncestor(items, outcomes, t.id)
    ensures t.id in outcomes && outcomes[t.id].DependencyFailed?
  {
    var a :| Ancestor(items, t.id, a) && a in outcomes && outcomes[a].FailedItself();
    var path :| LeadsFrom(items, path, t.id) && Last(path) == a;
    FailurePropagates(items, outcomes, agent, path);
  }

  lemma EmptyAncestorDecides<V>(items: seq<Subquery>, outcomes: Outcomes<V>, agent: Agent<V>, t: Subquery,
      inDoubt: bool)
    requires Finished(items, outcomes, agent) && EmptyAncestor(items, outcomes, t.id, inDoubt)
    requires t.id in outcomes && !outcomes[t.id].DependencyFailed?
    ensures outcomes[t.id].DependencyEmpty? && (inDoubt ==> outcomes[t.id].reason == Inconclusive)
  {
    var a :| Ancestor(items, t.id, a) && a in outcomes && outcomes[a].EmptyItself()
             && (inDoubt ==> outcomes[a].InDoubt());
    var path :| LeadsFrom(items, path, t.id) && Last(path) == a;
    EmptinessPropagates(items, outcomes, agent, path);
  }
}
