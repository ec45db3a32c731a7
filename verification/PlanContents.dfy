/** What a completed subquery contains, read off the planner's answer, the shape and the catalog. */
module PlanContents {
  import opened Wrappers
  import opened Text
  import opened Collections
  import opened TopologicalOrder
  import opened Planning
  import opened PlanOutputs
  import opened PlanCompiler

  // ---- lists without repetition ----

  lemma {:induction false} UnionSeen(base: seq<string>, all: seq<string>, more: seq<string>)
    requires base == FirstSeen(all)
    ensures Union(base, more) == FirstSeen(all + more)
    decreases |more|
  {
    if more == [] {
      assert all + more == all;
    } else {
      FirstSeenMembers(all);
      FirstSeenConcat(all, more[0]);
      UnionSeen(if more[0] in base then base else base + [more[0]], all + [more[0]], more[1..]);
      assert all + [more[0]] + more[1..] == all + more;
    }
  }

  lemma {:induction false} OrderedUnionSeen(groups: seq<seq<string>>)
    ensures OrderedUnion(groups) == FirstSeen(Flatten(groups))
  {
    if groups != [] {
      var n := |groups| - 1;
      OrderedUnionSeen(groups[..n]);
      UnionSeen(OrderedUnion(groups[..n]), Flatten(groups[..n]), groups[n]);
    }
  }

  // ---- the planner's answer ----

  ghost predicate Projects(catalog: Catalog, role: string, tool: string) {
    role in catalog.entityRoles && tool in catalog.entityRoles[role].projections
  }

  /** An answer is accepted unchanged exactly when it selects aliases of its source and roles that the
      source projects, each once; a graph may select roles alone, any other source needs an alias. */
  lemma ParseIff(raw: OutputPlan, catalog: Catalog, tool: string)
    ensures ParseOutputPlan(raw, catalog, tool).Success? ==> ParseOutputPlan(raw, catalog, tool).value == raw
    ensures ParseOutputPlan(raw, catalog, tool).Success? <==>
      && NoDuplicates(raw.requiredOutputs) && NoDuplicates(raw.displayEntities)
      && (forall a :: a in raw.requiredOutputs ==>
            tool in catalog.aliases && a in catalog.aliases[tool] && !IsBlank(a))
      && (forall role :: role in raw.displayEntities ==> Projects(catalog, role, tool) && !IsBlank(role))
      && (raw.requiredOutputs != [] || (tool == "graph" && raw.displayEntities != []))
  {
    forall role ensures role in RolesFor(catalog, tool) <==> Projects(catalog, role, tool) {
    }
    NoneBlank(raw.requiredOutputs);
    NoneBlank(raw.displayEntities);
  }

  lemma NoneBlank(xs: seq<string>)
    ensures (exists i :: 0 <= i < |xs| && IsBlank(xs[i])) <==> exists x :: x in xs && IsBlank(x)
  {
  }

  // ---- conforming to a shape ----

  ghost predicate Meet(xs: seq<string>, ys: seq<string>) { exists x :: x in xs && x in ys }

  /** Each role is added that has a selected key. */
  ghost predicate AddsRoles(roles: seq<string>, selected: seq<string>, catalog: Catalog, tool: string,
      added: seq<seq<string>>)
  {
    |added| == |roles| && forall i :: 0 <= i < |roles| ==>
      && Projects(catalog, roles[i], tool)
      && added[i] ==
         if Meet(selected, catalog.entityRoles[roles[i]].projections[tool].keys) then [roles[i]] else []
  }

  lemma GroupStep(group: seq<string>, before: seq<string>, outputs: seq<string>)
    requires outputs == FirstSeen(before)
    ensures
      var add := if Meet(before, group) then group else [];
      var next := if Touches(outputs, group) then OrderedUnion([outputs, group]) else outputs;
      next == FirstSeen(before + add)
  {
    FirstSeenMembers(before);
    assert Touches(outputs, group) <==> Meet(before, group);
    UnionOfCovered(outputs, group);
    UnionSeen(outputs, before, group);
    assert before + [] == before;
  }

  /** Each completion group is added that meets what was there before it. */
  ghost predicate AddsAfter(groups: seq<seq<string>>, before: seq<string>, added: seq<seq<string>>) {
    |added| == |groups| && forall i :: 0 <= i < |groups| ==>
      added[i] == if Meet(before + Flatten(added[..i]), groups[i]) then groups[i] else []
  }

  lemma AddsAfterCons(groups: seq<seq<string>>, before: seq<string>, first: seq<string>, rest: seq<seq<string>>)
    requires groups != [] && first == (if Meet(before, groups[0]) then groups[0] else [])
    requires AddsAfter(groups[1..], before + first, rest)
    ensures AddsAfter(groups, before, [first] + rest)
  {
    var added := [first] + rest;
    forall i | 0 <= i < |groups|
      ensures added[i] == if Meet(before + Flatten(added[..i]), groups[i]) then groups[i] else []
    {
      if i == 0 {
        assert Flatten(added[..0]) == [] && before + [] == before;
      } else {
        assert added[..i] == [first] + rest[..i - 1];
        FlattenCons(first, rest[..i - 1]);
        Regroup(before, first, Flatten(rest[..i - 1]));
        assert rest[i - 1] == added[i] && groups[1..][i - 1] == groups[i];
      }
    }
  }

  lemma {:induction false} GroupsAdded(groups: seq<seq<string>>, before: seq<string>, outputs: seq<string>)
      returns (added: seq<seq<string>>)
    requires outputs == FirstSeen(before)
    ensures AddsAfter(groups, before, added)
    ensures AddGroups(groups, outputs) == FirstSeen(before + Flatten(added))
  {
    if groups == [] {
      added := [];
      assert before + [] == before;
    } else {
      var first := if Meet(before, groups[0]) then groups[0] else [];
      var next := if Touches(outputs, groups[0]) then OrderedUnion([outputs, groups[0]]) else outputs;
      GroupStep(groups[0], before, outputs);
      var rest := GroupsAdded(groups[1..], before + first, next);
      added := [first] + rest;
      AddsAfterCons(groups, before, first, rest);
      FlattenCons(first, rest);
      Regroup(before, first, Flatten(rest));
    }
  }

  lemma RoleStep(role: string, before: seq<string>, display: seq<string>, joins: bool)
    requires display == FirstSeen(before)
    ensures (if role !in display && joins then display + [role] else display) ==
            FirstSeen(before + if joins then [role] else [])
  {
    FirstSeenMembers(before);
    FirstSeenConcat(before, role);
    assert before + [] == before;
  }

  lemma AddsRolesCons(roles: seq<string>, selected: seq<string>, catalog: Catalog, tool: string, first: seq<string>,
      rest: seq<seq<string>>)
    requires roles != [] && Projects(catalog, roles[0], tool)
    requires first ==
      if Meet(selected, catalog.entityRoles[roles[0]].projections[tool].keys) then [roles[0]] else []
    requires AddsRoles(roles[1..], selected, catalog, tool, rest)
    ensures AddsRoles(roles, selected, catalog, tool, [first] + rest)
  {
    forall i | 1 <= i < |roles| ensures roles[i] == roles[1..][i - 1] && ([first] + rest)[i] == rest[i - 1] {
    }
  }

  lemma {:induction false} RolesAdded(roles: seq<string>, before: seq<string>, display: seq<string>,
      selected: seq<string>, catalog: Catalog, tool: string) returns (added: seq<seq<string>>)
    requires display == FirstSeen(before)
    requires forall role :: role in roles ==> catalog.HasRole(role, tool)
    ensures AddsRoles(roles, selected, catalog, tool, added)
    ensures AddRoles(roles, display, selected, catalog, tool) == FirstSeen(before + Flatten(added))
  {
    if roles == [] {
      added := [];
      assert before + [] == before;
    } else {
      var keys := catalog.Identity(roles[0], tool).keys;
      assert Touches(selected, keys) <==> Meet(selected, keys);
      var first := if Meet(selected, keys) then [roles[0]] else [];
      RoleStep(roles[0], before, display, Meet(selected, keys));
      var next := if roles[0] !in display && Touches(selected, keys) then display + [roles[0]] else display;
      var rest := RolesAdded(roles[1..], before + first, next, selected, catalog, tool);
      added := [first] + rest;
      AddsRolesCons(roles, selected, catalog, tool, first, rest);
      FlattenCons(first, rest);
      Regroup(before, first, Flatten(rest));
    }
  }

  /** An answer that conforms gains the groups it met and the roles whose keys it selected, in the
      order of the shape, and is refused exactly when the shape still asks for more. */
  lemma ConformIs(plan: OutputPlan, c: Contract, catalog: Catalog, tool: string)
      returns (conformed: OutputPlan, groups: seq<seq<string>>, roles: seq<seq<string>>)
    requires catalog.ValidContract(c, tool)
    requires NoDuplicates(plan.requiredOutputs) && NoDuplicates(plan.displayEntities)
    ensures AddsAfter(c.completionGroups, plan.requiredOutputs, groups)
    ensures conformed.requiredOutputs == FirstSeen(plan.requiredOutputs + Flatten(groups))
    ensures AddsRoles(c.displayEntities, plan.requiredOutputs, catalog, tool, roles)
    ensures conformed.displayEntities == FirstSeen(plan.displayEntities + Flatten(roles))
    ensures Conform(plan, Some(c), catalog, tool) ==
      if && (forall role :: role in c.displayEntities ==> role in conformed.displayEntities)
         && (forall a :: a in c.requiredOutputs ==> a in conformed.requiredOutputs)
      then Success(conformed) else Failure(IncompleteShape)
    ensures Conform(plan, None, catalog, tool) == Success(plan)
  {
    FirstSeenDistinct(plan.requiredOutputs);
    FirstSeenDistinct(plan.displayEntities);
    groups := GroupsAdded(c.completionGroups, plan.requiredOutputs, plan.requiredOutputs);
    roles := RolesAdded(c.displayEntities, plan.displayEntities, plan.displayEntities, plan.requiredOutputs,
                        catalog, tool);
    conformed := OutputPlan(AddGroups(c.completionGroups, plan.requiredOutputs),
                            AddRoles(c.displayEntities, plan.displayEntities, plan.requiredOutputs, catalog, tool));
  }

  // ---- the completed subquery ----

  /** The keys and labels of each displayed role, role by role. */
  ghost predicate Shows(roles: seq<string>, catalog: Catalog, tool: string, shown: seq<seq<string>>) {
    |shown| == |roles| && forall i :: 0 <= i < |roles| ==>
      && Projects(catalog, roles[i], tool)
      && var p := catalog.entityRoles[roles[i]].projections[tool];
      shown[i] == p.keys + p.labels
  }

  /** Some subquery of the route binds `alias` of the producer `id`. */
  ghost predicate IsRead(items: seq<Route>, id: string, alias: string) {
    exists item, b :: item in items && b in item.inputBindings && b.source == id + "." + alias
  }

  ghost predicate IsShown(roles: seq<string>, catalog: Catalog, tool: string, alias: string) {
    exists role :: role in roles && Projects(catalog, role, tool)
                   && var p := catalog.entityRoles[role].projections[tool]; alias in p.keys || alias in p.labels
  }

  lemma {:induction false} IdentityIsShown(roles: seq<string>, catalog: Catalog, tool: string)
      returns (shown: seq<seq<string>>)
    requires forall role :: role in roles ==> catalog.HasRole(role, tool)
    ensures Shows(roles, catalog, tool, shown) && IdentityOutputs(roles, catalog, tool) == Flatten(shown)
    ensures forall a :: a in IdentityOutputs(roles, catalog, tool) <==> IsShown(roles, catalog, tool, a)
  {
    if roles == [] {
      shown := [];
    } else {
      var first := catalog.Identity(roles[0], tool).DisplayAliases();
      var rest := IdentityIsShown(roles[1..], catalog, tool);
      shown := [first] + rest;
      FlattenCons(first, rest);
      forall i | 1 <= i < |roles| ensures roles[i] == roles[1..][i - 1] && shown[i] == rest[i - 1] {
      }
      forall a ensures IsShown(roles, catalog, tool, a) <==> a in first || IsShown(roles[1..], catalog, tool, a) {
        ShownCons(roles, catalog, tool, a);
      }
    }
  }

  lemma ShownCons(roles: seq<string>, catalog: Catalog, tool: string, a: string)
    requires roles != [] && catalog.HasRole(roles[0], tool)
    ensures IsShown(roles, catalog, tool, a) <==>
      a in catalog.Identity(roles[0], tool).DisplayAliases() || IsShown(roles[1..], catalog, tool, a)
  {
    assert forall role :: role in roles <==> role == roles[0] || role in roles[1..];
  }

  lemma SourceIs(source: string, id: string, alias: string)
    requires Dots(source) > 0 && forall i :: 0 <= i < |id| ==> id[i] != '.'
    ensures source == id + "." + alias <==> SplitSource(source) == (id, alias)
  {
    SplitAtFirstDot(id, alias);
    SplitJoins(source);
  }

  lemma OutgoingIsRead(items: seq<Route>, id: string, alias: string)
    requires IsSafeIdentifier(id) && forall r :: r in items ==> WellLinked(r)
    ensures alias in Outgoing(items, id) <==> IsRead(items, id, alias)
  {
    OutgoingMembers(items, id, alias);
    forall item | item in items
      ensures alias in Reads(item.inputBindings, id) <==>
        exists b :: b in item.inputBindings && b.source == id + "." + alias
    {
      ReadsMembers(item.inputBindings, id, alias);
      forall i | 0 <= i < |item.inputBindings|
        ensures item.inputBindings[i].source == id + "." + alias <==>
          ProducerOf(item.inputBindings[i]) == id && AliasOf(item.inputBindings[i]) == alias
      {
        assert DraftedBinding(item.inputBindings[i]);
        SourceIs(item.inputBindings[i].source, id, alias);
      }
    }
  }

  lemma PairSeen(a: seq<string>, b: seq<string>)
    ensures OrderedUnion([a, b]) == FirstSeen(a + b)
  {
    OrderedUnionOfTwo(a, b);
    UnionSeen([], [], a);
    assert [] + a == a;
    UnionSeen(FirstSeen(a), a, b);
  }

  lemma TripleSeen(before: seq<string>, b: seq<string>, c: seq<string>)
    ensures OrderedUnion([FirstSeen(before), b, c]) == FirstSeen(before + b + c)
  {
    var a := FirstSeen(before);
    var groups := [a, b, c];
    assert groups[..2] == [a, b] && [a, b][..1] == [a] && [a][..0] == [];
    FirstSeenMembers(before);
    UnionFromEmpty(a, 0);
    assert a[..0] == [] && a[0..] == a;
    assert OrderedUnion([a]) == a;
    UnionSeen(a, before, b);
    UnionSeen(FirstSeen(before + b), before + b, c);
  }

  /** The planner's outputs, the roles' aliases, the join keys and the aliases read, each once. */
  function Listed(plan: OutputPlan, shown: seq<seq<string>>, joinKeys: seq<string>, read: seq<string>): seq<string> {
    FirstSeen(plan.requiredOutputs + Flatten(shown) + joinKeys + read)
  }

  lemma ListedPrefix(plan: OutputPlan, shown: seq<seq<string>>, joinKeys: seq<string>, read: seq<string>)
    requires NoDuplicates(plan.requiredOutputs)
    ensures plan.requiredOutputs <= Listed(plan, shown, joinKeys, read)
  {
    FirstSeenDistinct(plan.requiredOutputs);
    FirstSeenPrefix(plan.requiredOutputs, Flatten(shown) + joinKeys + read);
    assert plan.requiredOutputs + (Flatten(shown) + joinKeys + read) ==
      plan.requiredOutputs + Flatten(shown) + joinKeys + read;
  }

  lemma ListedMembers(plan: OutputPlan, shown: seq<seq<string>>, joinKeys: seq<string>, read: seq<string>, a: string)
    ensures a in Listed(plan, shown, joinKeys, read) <==>
      a in plan.requiredOutputs || a in Flatten(shown) || a in joinKeys || a in read
  {
    FirstSeenMembers(plan.requiredOutputs + Flatten(shown) + joinKeys + read);
  }

  lemma PlanOneOutputs(items: seq<Route>, route: Route, answers: Answers, catalog: Catalog)
    requires ShapesValid(answers, catalog) && PlanOne(route, items, answers, catalog).Success?
    ensures SemanticPlan(route.tool, answers, catalog).Success?
    ensures Compilable(SemanticPlan(route.tool, answers, catalog).value, catalog, route.tool)
    ensures
      var plan := SemanticPlan(route.tool, answers, catalog).value;
      PlanOne(route, items, answers, catalog).value.extra.requiredOutputs ==
      OrderedUnion([CompilePlan(plan, catalog, route.tool), route.joinKeys, Outgoing(items, route.id)])
  {
    SemanticPlanIsCompilable(route.tool, answers, catalog);
  }

  /** `a` is selected by the planner, belongs to a displayed role, is joined on or is read by a binding. */
  ghost predicate Wanted(a: string, plan: OutputPlan, route: Route, items: seq<Route>, catalog: Catalog) {
    || a in plan.requiredOutputs || IsShown(plan.displayEntities, catalog, route.tool, a)
    || a in route.joinKeys || IsRead(items, route.id, a)
  }

  lemma ReadsListed(items: seq<Route>, route: Route)
    requires IsSafeIdentifier(route.id) && forall r :: r in items ==> WellLinked(r)
    ensures forall a :: a in Outgoing(items, route.id) <==> IsRead(items, route.id, a)
  {
    forall a ensures a in Outgoing(items, route.id) <==> IsRead(items, route.id, a) {
      OutgoingIsRead(items, route.id, a);
    }
  }

  /** A completed subquery requires what the planner selected, then the keys and labels of each role
      displayed, then its join keys, then what other subqueries read from it, each once and where it
      first occurs. */
  lemma CompletedOutputs(items: seq<Route>, route: Route, answers: Answers, catalog: Catalog)
      returns (shown: seq<seq<string>>, read: seq<string>)
    requires Completable(items, answers, catalog) && route in items
    requires PlanOne(route, items, answers, catalog).Success?
    ensures SemanticPlan(route.tool, answers, catalog).Success?
    ensures
      var plan := SemanticPlan(route.tool, answers, catalog).value;
      var outputs := PlanOne(route, items, answers, catalog).value.extra.requiredOutputs;
      && Shows(plan.displayEntities, catalog, route.tool, shown)
      && (forall a :: a in read <==> IsRead(items, route.id, a))
      && outputs == Listed(plan, shown, route.joinKeys, read)
      && plan.requiredOutputs <= outputs
      && forall a :: a in outputs <==> Wanted(a, plan, route, items, catalog)
  {
    PlanOneOutputs(items, route, answers, catalog);
    var plan := SemanticPlan(route.tool, answers, catalog).value;
    shown := IdentityIsShown(plan.displayEntities, catalog, route.tool);
    read := Outgoing(items, route.id);
    ReadsListed(items, route);
    PairSeen(plan.requiredOutputs, Flatten(shown));
    TripleSeen(plan.requiredOutputs + Flatten(shown), route.joinKeys, read);
    ListedPrefix(plan, shown, route.joinKeys, read);
    forall a ensures a in Listed(plan, shown, route.joinKeys, read) <==> Wanted(a, plan, route, items, catalog) {
      ListedMembers(plan, shown, route.joinKeys, read, a);
    }
  }

  /** One rule for each predicate of the role, in order. */
  ghost predicate AppliesPredicates(role: string, catalog: Catalog, tool: string, rules: seq<Rule>) {
    && role in catalog.entityRoles
    && var predicates := catalog.entityRoles[role].predicates;
    var own := if tool in predicates then predicates[tool] else [];
    |rules| == |own| && forall i :: 0 <= i < |own| ==> rules[i] == ApplyPredicate(role, own[i])
  }

  lemma {:induction false} PredicatesApplied(roles: seq<string>, catalog: Catalog, tool: string)
      returns (byRole: seq<seq<Rule>>)
    requires forall role :: role in roles ==> role in catalog.entityRoles
    ensures |byRole| == |roles| && PredicateRules(roles, catalog, tool) == Flatten(byRole)
    ensures forall i :: 0 <= i < |roles| ==> AppliesPredicates(roles[i], catalog, tool, byRole[i])
  {
    if roles == [] {
      byRole := [];
    } else {
      var first := RoleRules(roles[0], catalog.PredicatesOf(roles[0], tool));
      var rest := PredicatesApplied(roles[1..], catalog, tool);
      byRole := [first] + rest;
      FlattenCons(first, rest);
      forall i | 1 <= i < |roles| ensures roles[i] == roles[1..][i - 1] && byRole[i] == rest[i - 1] {
      }
    }
  }

  lemma SelectedIs(plan: OutputPlan, catalog: Catalog, tool: string)
    requires forall role :: role in plan.displayEntities ==> catalog.HasRole(role, tool)
    ensures forall a :: a in CompilePlan(plan, catalog, tool) <==>
      a in plan.requiredOutputs || IsShown(plan.displayEntities, catalog, tool, a)
  {
    var shown := IdentityIsShown(plan.displayEntities, catalog, tool);
    PairSeen(plan.requiredOutputs, Flatten(shown));
    FirstSeenMembers(plan.requiredOutputs + Flatten(shown));
  }

  lemma PlanOneRules(items: seq<Route>, route: Route, answers: Answers, catalog: Catalog)
    requires ShapesValid(answers, catalog) && PlanOne(route, items, answers, catalog).Success?
    ensures SemanticPlan(route.tool, answers, catalog).Success?
    ensures Compilable(SemanticPlan(route.tool, answers, catalog).value, catalog, route.tool)
    ensures
      var plan := SemanticPlan(route.tool, answers, catalog).value;
      PlanOne(route, items, answers, catalog).value.extra.generatorRules ==
      GeneratorRules(plan, CompilePlan(plan, catalog, route.tool), catalog, route.tool)
  {
    SemanticPlanIsCompilable(route.tool, answers, catalog);
  }

  /** The source is to return a path whose order matters. */
  ghost predicate OrdersPath(plan: OutputPlan, catalog: Catalog, tool: string) {
    tool == "graph" && exists a ::
      && a in catalog.orderedPaths
      && (a in plan.requiredOutputs || IsShown(plan.displayEntities, catalog, tool, a))
  }

  /** Its rules apply the predicates of each role displayed, and settle the direction of paths exactly
      when a graph source is to return an ordered path. */
  lemma CompletedRules(items: seq<Route>, route: Route, answers: Answers, catalog: Catalog)
      returns (byRole: seq<seq<Rule>>)
    requires ShapesValid(answers, catalog) && PlanOne(route, items, answers, catalog).Success?
    ensures SemanticPlan(route.tool, answers, catalog).Success?
    ensures
      var plan := SemanticPlan(route.tool, answers, catalog).value;
      && |byRole| == |plan.displayEntities|
      && (forall i :: 0 <= i < |byRole| ==>
            AppliesPredicates(plan.displayEntities[i], catalog, route.tool, byRole[i]))
      && PlanOne(route, items, answers, catalog).value.extra.generatorRules ==
         Flatten(byRole) + if OrdersPath(plan, catalog, route.tool) then [PathDirection] else []
  {
    PlanOneRules(items, route, answers, catalog);
    var plan := SemanticPlan(route.tool, answers, catalog).value;
    byRole := PredicatesApplied(plan.displayEntities, catalog, route.tool);
    SelectedIs(plan, catalog, route.tool);
  }
}
