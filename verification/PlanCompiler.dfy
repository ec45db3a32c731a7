/** From an accepted route to an execution plan, and why that plan is accepted too. */
module PlanCompiler {
  import opened Wrappers
  import opened Text
  import opened Collections
  import opened TopologicalOrder
  import opened Planning
  import opened PlanOutputs

  /** What the world supplies per source: the planner's answer and the matched shape, if any. */
  datatype Answers = Answers(plan: string -> OutputPlan, shape: string -> Option<Contract>)

  ghost predicate ShapesValid(answers: Answers, catalog: Catalog) {
    forall tool :: answers.shape(tool).Some? ==> catalog.ValidContract(answers.shape(tool).value, tool)
  }

  /** The parsed and conformed plan of one source. */
  function SemanticPlan(tool: string, answers: Answers, catalog: Catalog): Result<OutputPlan, OutputError>
    requires answers.shape(tool).Some? ==> catalog.ValidContract(answers.shape(tool).value, tool)
  {
    var parsed :- ParseOutputPlan(answers.plan(tool), catalog, tool);
    Conform(parsed, answers.shape(tool), catalog, tool)
  }

  /** A plan fit for compilation: distinct, owned, non-blank outputs and known roles, and
      at least one of the two. */
  predicate Compilable(plan: OutputPlan, catalog: Catalog, tool: string) {
    && NoDuplicates(plan.requiredOutputs)
    && (forall a :: a in plan.requiredOutputs ==> a in catalog.Allowed(tool) && !IsBlank(a))
    && NoDuplicates(plan.displayEntities)
    && (forall role :: role in plan.displayEntities ==> catalog.HasRole(role, tool))
    && (plan.requiredOutputs != [] || plan.displayEntities != [])
  }

  lemma ParsedIsCompilable(raw: OutputPlan, catalog: Catalog, tool: string)
    requires ParseOutputPlan(raw, catalog, tool).Success?
    ensures Compilable(raw, catalog, tool)
  {
    forall role | role in raw.displayEntities ensures catalog.HasRole(role, tool) {
      assert role in RolesFor(catalog, tool);
    }
    forall a | a in raw.requiredOutputs ensures !IsBlank(a) {
      var i :| 0 <= i < |raw.requiredOutputs| && raw.requiredOutputs[i] == a;
    }
  }

  lemma SemanticPlanIsCompilable(tool: string, answers: Answers, catalog: Catalog)
    requires answers.shape(tool).Some? ==> catalog.ValidContract(answers.shape(tool).value, tool)
    requires SemanticPlan(tool, answers, catalog).Success?
    ensures Compilable(SemanticPlan(tool, answers, catalog).value, catalog, tool)
  {
    var raw := answers.plan(tool);
    ParsedIsCompilable(raw, catalog, tool);
    if answers.shape(tool).Some? {
      var c := answers.shape(tool).value;
      var fit := set a | a in catalog.Allowed(tool) && !IsBlank(a);
      AddRolesMembers(c.displayEntities, raw.displayEntities, raw.requiredOutputs, catalog, tool);
      AddGroupsMembers(c.completionGroups, raw.requiredOutputs, fit);
    }
  }

  /** Completes one subquery with its outputs and rules. */
  function PlanOne(route: Route, items: seq<Route>, answers: Answers, catalog: Catalog): Result<Subquery, OutputError>
    requires answers.shape(route.tool).Some? ==> catalog.ValidContract(answers.shape(route.tool).value, route.tool)
  {
    var plan :- SemanticPlan(route.tool, answers, catalog);
    SemanticPlanIsCompilable(route.tool, answers, catalog);
    var selected := CompilePlan(plan, catalog, route.tool);
    var rules := GeneratorRules(plan, selected, catalog, route.tool);
    var outputs :- Finalize(selected, route.joinKeys, Outgoing(items, route.id), catalog, route.tool);
    Success(Task(route.id, route.tool, route.question, route.dependsOn, route.joinKeys, route.inputBindings,
                 Outputs(outputs, rules)))
  }

  /** Completes the subqueries from position `from` on. */
  function PlanFrom(items: seq<Route>, from: nat, answers: Answers,
      catalog: Catalog): Result<seq<Subquery>, OutputError>
    requires from <= |items|
    requires forall k :: 0 <= k < |items| && answers.shape(items[k].tool).Some? ==>
      catalog.ValidContract(answers.shape(items[k].tool).value, items[k].tool)
    decreases |items| - from
  {
    if from == |items| then Success([])
    else
      var first :- PlanOne(items[from], items, answers, catalog);
      var rest :- PlanFrom(items, from + 1, answers, catalog);
      Success([first] + rest)
  }

  /** A route of one source gets the original question back. */
  function RestoreQuestion(items: seq<Route>, query: string): seq<Route> {
    if |items| == 1 then [items[0].(question := query)] else items
  }

  // ---- what an accepted route guarantees ----

  lemma {:induction false} SplitAtFirstDot(id: string, rest: string)
    requires forall i :: 0 <= i < |id| ==> id[i] != '.'
    ensures SplitSource(id + "." + rest) == (id, rest)
    ensures Dots(id + "." + rest) == 1 + Dots(rest)
  {
    var s := id + "." + rest;
    if id == [] {
      assert s[1..] == rest;
    } else {
      assert s[1..] == id[1..] + "." + rest;
      SplitAtFirstDot(id[1..], rest);
      assert id == [id[0]] + id[1..];
    }
  }

  lemma {:induction false} SplitJoins(source: string)
    requires Dots(source) > 0
    ensures source == SplitSource(source).0 + "." + SplitSource(source).1
    ensures Dots(source) == 1 + Dots(SplitSource(source).1)
  {
    if source[0] != '.' {
      SplitJoins(source[1..]);
    }
  }

  predicate DraftedBinding(b: Binding) {
    IsSafeIdentifier(b.target) && Dots(b.source) > 0 && !IsBlank(AliasOf(b))
  }

  lemma {:induction false} DotsOfConcat(a: string, b: string)
    ensures Dots(a + b) == Dots(a) + Dots(b)
  {
    if a == [] {
      assert a + b == b;
    } else {
      assert (a + b)[1..] == a[1..] + b;
      DotsOfConcat(a[1..], b);
    }
  }

  lemma CompiledBindingIsDrafted(d: BindingDraft)
    requires BindingDraftOk(d)
    ensures DraftedBinding(CompileBinding(d))
  {
    DotsOfConcat(d.sourceSubqueryId, "." + d.sourceOutput);
    assert d.sourceSubqueryId + "." + d.sourceOutput == d.sourceSubqueryId + ("." + d.sourceOutput);
    AliasEndsWithOutput(d.sourceSubqueryId, d.sourceOutput);
  }

  lemma {:induction false} AliasEndsWithOutput(id: string, output: string)
    requires IsSafeIdentifier(output)
    ensures !IsBlank(SplitSource(id + "." + output).1)
    ensures SplitSource(id + "." + output).1 != ""
      && !IsSpace(SplitSource(id + "." + output).1[|SplitSource(id + "." + output).1| - 1])
  {
    var s := id + "." + output;
    if id == [] {
      assert s[1..] == output;
    } else {
      assert s[1..] == id[1..] + "." + output;
      if id[0] == '.' {
        assert s[1..][|s[1..]| - 1] == output[|output| - 1];
      } else {
        AliasEndsWithOutput(id[1..], output);
      }
    }
  }

  /** What the per-item checks of the route guarantee. */
  predicate WellDrafted(r: Route, shared: set<string>) {
    && IsSafeIdentifier(r.id) && r.tool in SUPPORTED_TOOLS && !IsBlank(r.question)
    && StringListError(r.dependsOn).None? && StringListError(r.joinKeys).None?
    && (forall key :: key in r.joinKeys ==> key in shared)
    && (forall i :: 0 <= i < |r.inputBindings| ==> DraftedBinding(r.inputBindings[i])) && BindsOnce(r)
  }

  lemma CompiledDraftIsWellDrafted(d: Draft, shared: set<string>)
    requires DraftOk(d, shared)
    ensures WellDrafted(CompiledDraft(d), shared)
  {
    var r := CompiledDraft(d);
    StringListErrorNone(d.dependsOn);
    StringListErrorNone(d.joinKeys);
    forall i | 0 <= i < |r.inputBindings| ensures DraftedBinding(r.inputBindings[i]) {
      CompiledBindingIsDrafted(d.inputBindings[i]);
    }
    assert Targets(r.inputBindings) == DraftTargets(d.inputBindings);
  }

  lemma CompiledDraftsAreWellDrafted(drafts: seq<Draft>, shared: set<string>)
    requires forall d :: d in drafts ==> DraftOk(d, shared)
    ensures forall r :: r in CompiledDrafts(drafts) ==> WellDrafted(r, shared)
  {
    forall r | r in CompiledDrafts(drafts) ensures WellDrafted(r, shared) {
      var i :| 0 <= i < |drafts| && CompiledDrafts(drafts)[i] == r;
      CompiledDraftIsWellDrafted(drafts[i], shared);
    }
  }

  /** What the cross checks of one item establish. */
  ghost predicate Linked<E>(item: Task<E>, items: seq<Task<E>>, offers: Task<E> -> set<string>) {
    && item.id !in item.dependsOn && (forall d :: d in item.dependsOn ==> d in Ids(items))
    && (forall b :: b in item.inputBindings ==>
          && ProducerOf(b) in item.dependsOn
          && forall t :: t in items && t.id == ProducerOf(b) ==> AliasOf(b) in offers(t))
    && forall d :: d in item.dependsOn ==> exists b :: b in item.inputBindings && ProducerOf(b) == d
  }

  /** With bindings on dependencies only, every dependency is used exactly when the two sets agree. */
  lemma ProducersIff<E>(item: Task<E>)
    requires forall b :: b in item.inputBindings ==> ProducerOf(b) in item.dependsOn
    ensures DependencySet(item) == Producers(item) <==>
            forall d :: d in item.dependsOn ==> exists b :: b in item.inputBindings && ProducerOf(b) == d
  {
    forall d ensures d in Producers(item) <==> exists b :: b in item.inputBindings && ProducerOf(b) == d {
      if d in Producers(item) {
        var i :| 0 <= i < |item.inputBindings| && ProducerOf(item.inputBindings[i]) == d;
        assert item.inputBindings[i] in item.inputBindings;
      }
      if b :| b in item.inputBindings && ProducerOf(b) == d {
        var i :| 0 <= i < |item.inputBindings| && item.inputBindings[i] == b;
        assert ProducerOf(item.inputBindings[i]) == d;
      }
    }
    if forall d :: d in item.dependsOn ==> exists b :: b in item.inputBindings && ProducerOf(b) == d {
      assert forall d :: d in DependencySet(item) <==> d in Producers(item);
    }
    if DependencySet(item) == Producers(item) {
      assert forall d :: d in item.dependsOn ==> d in DependencySet(item);
    }
  }

  lemma {:induction false} BindingsErrorNone<E>(bindings: seq<Binding>, dependsOn: seq<string>, items: seq<Task<E>>,
                                                offers: Task<E> -> set<string>, notOffered: PlanError)
    ensures BindingsError(bindings, dependsOn, items, offers, notOffered).None? <==>
            forall b :: b in bindings ==> ProducerOf(b) in dependsOn && Offered(b, items, offers)
  {
    if bindings != [] {
      BindingsErrorNone(bindings[1..], dependsOn, items, offers, notOffered);
    }
  }

  lemma LinkErrorNone<E>(item: Task<E>, items: seq<Task<E>>, offers: Task<E> -> set<string>, notOffered: PlanError)
    ensures LinkError(item, items, offers, notOffered).None? <==> Linked(item, items, offers)
  {
    BindingsErrorNone(item.inputBindings, item.dependsOn, items, offers, notOffered);
    forall b
      ensures Offered(b, items, offers) <==>
        forall t :: t in items && t.id == ProducerOf(b) ==> AliasOf(b) in offers(t)
    {
    }
    if forall b :: b in item.inputBindings ==> ProducerOf(b) in item.dependsOn {
      ProducersIff(item);
    }
  }

  lemma {:induction false} LinksErrorNone<E>(rest: seq<Task<E>>, items: seq<Task<E>>,
      offers: Task<E> -> set<string>, notOffered: PlanError)
    ensures LinksError(rest, items, offers, notOffered).None? <==>
      forall item :: item in rest ==> Linked(item, items, offers)
  {
    if rest != [] {
      LinkErrorNone(rest[0], items, offers, notOffered);
      LinksErrorNone(rest[1..], items, offers, notOffered);
    }
  }

  lemma {:induction false} ItemsErrorNone(items: seq<Subquery>)
    ensures ItemsError(items).None? <==> forall item :: item in items ==> ItemError(item).None?
  {
    if items != [] {
      ItemsErrorNone(items[1..]);
    }
  }

  predicate KeysAgree<E>(items: seq<Task<E>>) {
    |items| == 2 ==> items[0].joinKeys == items[1].joinKeys
  }

  /** An accepted list: checked links, distinct ids and sources, and its own dependency order. */
  ghost predicate Accepted<E>(items: seq<Task<E>>, offers: Task<E> -> set<string>) {
    && items != [] && UniqueIds(items) && NoDuplicates(Tools(items))
    && (forall item :: item in items ==> Linked(item, items, offers) && BindsOnce(item))
    && Waves(items, {}) == Some(items)
    && KeysAgree(items)
  }

  lemma OrderAndCheckKeysSucceeds<E>(items: seq<Task<E>>)
    requires UniqueIds(items)
    ensures OrderAndCheckKeys(items).Success? <==> Waves(items, {}).Some? && KeysAgree(Waves(items, {}).value)
    ensures OrderAndCheckKeys(items).Success? ==> OrderAndCheckKeys(items).value == Waves(items, {}).value
  {
  }

  lemma PermutationIds<E>(items: seq<Task<E>>, order: seq<Task<E>>)
    requires SameItems(items, order)
    ensures |items| == |order| && Ids(items) == Ids(order) && UniqueIds(order)
    ensures forall t :: t in items <==> t in order
  {
    assert |multiset(items)| == |items| && |multiset(order)| == |order|;
    forall t ensures t in items <==> t in order {
      assert t in multiset(items) <==> t in multiset(order);
    }
    forall i, j | 0 <= i < j < |order| ensures order[i].id != order[j].id {
      if order[i].id == order[j].id {
        UniqueInPermutation(items, order, i, j);
      }
    }
  }

  lemma PermutationTools<E>(items: seq<Task<E>>, order: seq<Task<E>>)
    requires SameItems(items, order) && NoDuplicates(Tools(items))
    ensures NoDuplicates(Tools(order))
  {
    PermutationIds(items, order);
    forall i, j | 0 <= i < j < |order| ensures Tools(order)[i] != Tools(order)[j] {
      assert order[i] in order && order[j] in order;
      var p :| 0 <= p < |items| && items[p] == order[i];
      var q :| 0 <= q < |items| && items[q] == order[j];
      assert order[i].id != order[j].id;
      assert Tools(items)[p] == order[i].tool && Tools(items)[q] == order[j].tool;
    }
  }

  /** Everything acceptance asks for but the order. */
  ghost predicate Orderable<E>(items: seq<Task<E>>, offers: Task<E> -> set<string>) {
    && items != [] && UniqueIds(items) && NoDuplicates(Tools(items))
    && (forall item :: item in items ==> Linked(item, items, offers))
    && Waves(items, {}).Some? && KeysAgree(Waves(items, {}).value)
  }

  lemma ReorderedLinks<E>(items: seq<Task<E>>, order: seq<Task<E>>, offers: Task<E> -> set<string>, item: Task<E>)
    requires SameItems(items, order) && item in order
    requires forall t :: t in items ==> Linked(t, items, offers) && BindsOnce(t)
    ensures Linked(item, order, offers) && BindsOnce(item)
  {
    PermutationIds(items, order);
    assert item in items;
    assert Linked(item, items, offers);
  }

  /** The list that ordering returns is accepted with the same links. */
  lemma OrderedListAccepted<E>(items: seq<Task<E>>, offers: Task<E> -> set<string>)
    requires Orderable(items, offers) && forall item :: item in items ==> BindsOnce(item)
    ensures Accepted(Waves(items, {}).value, offers)
    ensures SameItems(items, Waves(items, {}).value)
  {
    var order := Waves(items, {}).value;
    OrderIsPermutation(items);
    OrderIdempotent(items);
    PermutationIds(items, order);
    PermutationTools(items, order);
    forall item | item in order ensures Linked(item, order, offers) && BindsOnce(item) {
      ReorderedLinks(items, order, offers, item);
    }
  }

  /** Which drafted routes are accepted, and what becomes of them. */
  lemma ValidateRouteIff(drafts: seq<Draft>, shared: set<string>, owned: Ownership)
    ensures ValidateRoute(drafts, shared, owned).Success? <==>
            |drafts| <= 2 && (forall d :: d in drafts ==> DraftOk(d, shared))
            && Orderable(CompiledDrafts(drafts), OwnedBy(owned))
    ensures ValidateRoute(drafts, shared, owned).Success? ==>
            ValidateRoute(drafts, shared, owned).value == Waves(CompiledDrafts(drafts), {}).value
  {
    CompileDraftsIff(drafts, shared);
    var items := CompiledDrafts(drafts);
    assert |items| == |drafts|;
    LinksErrorNone(items, items, OwnedBy(owned), NotOwnedByProducer);
    if UniqueIds(items) {
      OrderAndCheckKeysSucceeds(items);
    }
  }

  /** What acceptance of a route means. */
  lemma AcceptedRoute(drafts: seq<Draft>, shared: set<string>, owned: Ownership)
    requires ValidateRoute(drafts, shared, owned).Success?
    ensures Accepted(ValidateRoute(drafts, shared, owned).value, OwnedBy(owned))
    ensures |ValidateRoute(drafts, shared, owned).value| <= 2
    ensures forall r :: r in ValidateRoute(drafts, shared, owned).value ==> WellDrafted(r, shared)
  {
    ValidateRouteIff(drafts, shared, owned);
    var items := CompiledDrafts(drafts);
    CompiledDraftsAreWellDrafted(drafts, shared);
    OrderedListAccepted(items, OwnedBy(owned));
    PermutationIds(items, ValidateRoute(drafts, shared, owned).value);
  }

  /** Which compiled plans are accepted, and in which order. */
  lemma ValidateSubqueriesIff(plan: seq<Subquery>)
    ensures ValidateSubqueries(plan).Success? <==>
      |plan| <= 2 && (forall t :: t in plan ==> ItemOk(t)) && Orderable(plan, RequiredOutputsOf)
    ensures ValidateSubqueries(plan).Success? ==> ValidateSubqueries(plan).value == Waves(plan, {}).value
  {
    ItemsErrorNone(plan);
    forall t | t in plan ensures ItemError(t).None? <==> ItemOk(t) {
      ItemErrorNone(t);
    }
    LinksErrorNone(plan, plan, RequiredOutputsOf, NotARequiredOutput);
    if UniqueIds(plan) {
      OrderAndCheckKeysSucceeds(plan);
    }
  }

  /** Validation accepts a plan in an order of its own. */
  lemma ValidationAccepts(plan: seq<Subquery>)
    requires ValidateSubqueries(plan).Success?
    ensures Accepted(ValidateSubqueries(plan).value, RequiredOutputsOf)
    ensures SameItems(plan, ValidateSubqueries(plan).value) && |ValidateSubqueries(plan).value| <= 2
  {
    ValidateSubqueriesIff(plan);
    OrderedListAccepted(plan, RequiredOutputsOf);
    PermutationIds(plan, Waves(plan, {}).value);
  }

  // ---- the completed plan ----

  lemma {:induction false} IdentityOutputsFit(roles: seq<string>, catalog: Catalog, tool: string)
    requires catalog.Valid() && forall role :: role in roles ==> catalog.HasRole(role, tool)
    ensures forall a :: a in IdentityOutputs(roles, catalog, tool) ==> a in catalog.Allowed(tool) && !IsBlank(a)
    ensures roles != [] ==> IdentityOutputs(roles, catalog, tool) != []
  {
    if roles != [] {
      IdentityOutputsFit(roles[1..], catalog, tool);
      assert catalog.ValidProjection(catalog.Identity(roles[0], tool), tool);
    }
  }

  lemma CompiledPlanFits(plan: OutputPlan, catalog: Catalog, tool: string)
    requires catalog.Valid() && Compilable(plan, catalog, tool)
    ensures
      var selected := CompilePlan(plan, catalog, tool);
      && NoDuplicates(selected) && selected != []
      && forall a :: a in selected ==> a in catalog.Allowed(tool) && !IsBlank(a)
  {
    var identity := IdentityOutputs(plan.displayEntities, catalog, tool);
    var groups := [plan.requiredOutputs, identity];
    IdentityOutputsFit(plan.displayEntities, catalog, tool);
    OrderedUnionFacts(groups);
    var selected := CompilePlan(plan, catalog, tool);
    var some := if plan.requiredOutputs != [] then plan.requiredOutputs[0] else identity[0];
    assert groups[0] == plan.requiredOutputs && groups[1] == identity;
    assert some in groups[0] || some in groups[1];
    assert some in selected;
  }

  /** The aliases other subqueries read from `route` are owned by its source and not blank. */
  lemma OutgoingFits(items: seq<Route>, route: Route, catalog: Catalog)
    requires Accepted(items, OwnedBy(catalog.Allowed)) && route in items
    requires forall r :: r in items ==> WellLinked(r)
    ensures NoDuplicates(Outgoing(items, route.id))
    ensures forall a :: a in Outgoing(items, route.id) ==> a in catalog.Allowed(route.tool) && !IsBlank(a)
  {
    OutgoingMembers(items, route.id, "");
    forall a | a in Outgoing(items, route.id) ensures a in catalog.Allowed(route.tool) && !IsBlank(a) {
      OutgoingMembers(items, route.id, a);
      var t :| t in items && a in Reads(t.inputBindings, route.id);
      ReadsMembers(t.inputBindings, route.id, a);
      var i :|
        0 <= i < |t.inputBindings| && ProducerOf(t.inputBindings[i]) == route.id && AliasOf(t.inputBindings[i]) == a;
      assert t.inputBindings[i] in t.inputBindings;
      assert Linked(t, items, OwnedBy(catalog.Allowed));
      assert OwnedBy(catalog.Allowed)(route) == catalog.Allowed(route.tool);
    }
  }

  /** The route checks that survive restoring the question. */
  predicate WellLinked(r: Route) {
    && IsSafeIdentifier(r.id) && r.tool in SUPPORTED_TOOLS
    && StringListError(r.dependsOn).None? && StringListError(r.joinKeys).None?
    && (forall i :: 0 <= i < |r.inputBindings| ==> DraftedBinding(r.inputBindings[i])) && BindsOnce(r)
  }

  /** The outputs of a completed subquery: distinct, not blank, some, and enough for joins and bindings. */
  ghost predicate Complete(t: Subquery, r: Route, items: seq<Route>) {
    && t == Task(r.id, r.tool, r.question, r.dependsOn, r.joinKeys, r.inputBindings, t.extra)
    && t.extra.requiredOutputs != [] && StringListError(t.extra.requiredOutputs).None?
    && (forall key :: key in r.joinKeys ==> key in t.extra.requiredOutputs)
    && (forall a :: a in Outgoing(items, r.id) ==> a in t.extra.requiredOutputs)
  }

  /** A route accepted against a compiled catalog, with shapes compiled against it too. */
  ghost predicate Completable(items: seq<Route>, answers: Answers, catalog: Catalog) {
    && catalog.Valid() && ShapesValid(answers, catalog) && Accepted(items, OwnedBy(catalog.Allowed))
    && forall r :: r in items ==> WellLinked(r) && forall key :: key in r.joinKeys ==> key in catalog.sharedJoinAliases
  }

  /** Completing an accepted subquery fails only where the planner's answer fails. */
  lemma PlanOneCompletes(items: seq<Route>, route: Route, answers: Answers, catalog: Catalog)
    requires Completable(items, answers, catalog) && route in items
    ensures PlanOne(route, items, answers, catalog).Success? <==> SemanticPlan(route.tool, answers, catalog).Success?
    ensures PlanOne(route, items, answers, catalog).Success? ==>
      Complete(PlanOne(route, items, answers, catalog).value, route, items)
  {
    var planned := SemanticPlan(route.tool, answers, catalog);
    if planned.Success? {
      SemanticPlanIsCompilable(route.tool, answers, catalog);
      CompiledPlanFits(planned.value, catalog, route.tool);
      OutgoingFits(items, route, catalog);
      var selected := CompilePlan(planned.value, catalog, route.tool);
      FinalizeFits(selected, route.joinKeys, Outgoing(items, route.id), catalog, route.tool);
    }
  }

  lemma FinalizeFits(selected: seq<string>, joinKeys: seq<string>, outgoing: seq<string>, catalog: Catalog,
      tool: string)
    requires selected != [] && NoDuplicates(selected) && NoDuplicates(joinKeys) && NoDuplicates(outgoing)
    requires forall a :: a in selected || a in joinKeys || a in outgoing ==> a in catalog.Allowed(tool) && !IsBlank(a)
    ensures Finalize(selected, joinKeys, outgoing, catalog, tool).Success?
    ensures
      var outputs := Finalize(selected, joinKeys, outgoing, catalog, tool).value;
      && outputs != [] && StringListError(outputs).None?
      && forall a :: a in joinKeys || a in outgoing ==> a in outputs
  {
    var groups := [selected, joinKeys, outgoing];
    OrderedUnionFacts(groups);
    var outputs := OrderedUnion(groups);
    assert groups[0] == selected && groups[1] == joinKeys && groups[2] == outgoing;
    assert selected[0] in groups[0] && selected[0] in outputs;
    forall i | 0 <= i < |outputs| ensures !IsBlank(outputs[i]) {
      assert outputs[i] in outputs;
    }
  }

  lemma RestoringKeepsAcceptance(items: seq<Route>, query: string, owned: Ownership)
    requires Accepted(items, OwnedBy(owned))
    ensures Accepted(RestoreQuestion(items, query), OwnedBy(owned))
  {
    var restored := RestoreQuestion(items, query);
    if |items| == 1 {
      var r, q := items[0], restored[0];
      assert Linked(r, items, OwnedBy(owned));
      SameGraphIds(items, restored);
      OwnOrderTransfers(items, restored);
      forall b | b in q.inputBindings ensures ProducerOf(b) in q.dependsOn {
      }
      assert OwnedBy(owned)(q) == OwnedBy(owned)(r);
    }
  }

  /** Every source of the route has an answer that parses and conforms. */
  ghost predicate AnswersParse(items: seq<Route>, answers: Answers, catalog: Catalog)
    requires ShapesValid(answers, catalog)
  {
    forall r :: r in items ==> SemanticPlan(r.tool, answers, catalog).Success?
  }

  /** The subqueries complete the routes position by position. */
  ghost predicate Completes(planned: seq<Subquery>, routes: seq<Route>, items: seq<Route>) {
    |planned| == |routes| && forall k :: 0 <= k < |routes| ==> Complete(planned[k], routes[k], items)
  }

  lemma CompletesCons(t: Subquery, r: Route, planned: seq<Subquery>, routes: seq<Route>, items: seq<Route>)
    requires Complete(t, r, items) && Completes(planned, routes, items)
    ensures Completes([t] + planned, [r] + routes, items)
  {
    forall k | 0 <= k < |routes| + 1 ensures Complete(([t] + planned)[k], ([r] + routes)[k], items) {
      if k > 0 {
        assert Complete(planned[k - 1], routes[k - 1], items);
      }
    }
  }

  lemma PlanFromStep(items: seq<Route>, from: nat, answers: Answers, catalog: Catalog)
    requires ShapesValid(answers, catalog) && from < |items|
    ensures PlanFrom(items, from, answers, catalog).Success? <==>
      PlanOne(items[from], items, answers, catalog).Success? && PlanFrom(items, from + 1, answers, catalog).Success?
    ensures PlanFrom(items, from, answers, catalog).Success? ==>
      PlanFrom(items, from, answers, catalog).value ==
      [PlanOne(items[from], items, answers, catalog).value] + PlanFrom(items, from + 1, answers, catalog).value
    ensures items[from..] == [items[from]] + items[from + 1..]
  {
  }

  /** So does what completion yields. */
  lemma {:induction false} PlanFromCompletes(items: seq<Route>, from: nat, answers: Answers, catalog: Catalog)
    requires Completable(items, answers, catalog)
    requires from <= |items| && PlanFrom(items, from, answers, catalog).Success?
    ensures Completes(PlanFrom(items, from, answers, catalog).value, items[from..], items)
    decreases |items| - from
  {
    if from < |items| {
      PlanFromStep(items, from, answers, catalog);
      PlanOneCompletes(items, items[from], answers, catalog);
      PlanFromCompletes(items, from + 1, answers, catalog);
      CompletesCons(PlanOne(items[from], items, answers, catalog).value, items[from],
                    PlanFrom(items, from + 1, answers, catalog).value, items[from + 1..], items);
    }
  }

  lemma AnswersParseCons(r: Route, routes: seq<Route>, answers: Answers, catalog: Catalog)
    requires ShapesValid(answers, catalog)
    ensures AnswersParse([r] + routes, answers, catalog) <==>
      SemanticPlan(r.tool, answers, catalog).Success? && AnswersParse(routes, answers, catalog)
  {
    assert r in [r] + routes && forall q :: q in [r] + routes <==> q == r || q in routes;
  }

  /** Completion succeeds exactly when each source's answer parses and conforms. */
  lemma {:induction false} PlanFromIff(items: seq<Route>, from: nat, answers: Answers, catalog: Catalog)
    requires Completable(items, answers, catalog) && from <= |items|
    ensures PlanFrom(items, from, answers, catalog).Success? <==> AnswersParse(items[from..], answers, catalog)
    decreases |items| - from
  {
    if from < |items| {
      PlanFromStep(items, from, answers, catalog);
      PlanOneCompletes(items, items[from], answers, catalog);
      PlanFromIff(items, from + 1, answers, catalog);
      AnswersParseCons(items[from], items[from + 1..], answers, catalog);
    }
  }

  lemma CompletedLinks(planned: seq<Subquery>, items: seq<Route>, offers: Route -> set<string>, k: nat)
    requires Completes(planned, items, items) && Accepted(items, offers) && k < |items|
    ensures Linked(planned[k], planned, RequiredOutputsOf)
  {
    var t, r := planned[k], items[k];
    assert Complete(t, r, items) && r in items && Linked(r, items, offers);
    forall j | 0 <= j < |items| ensures planned[j].id == items[j].id && planned[j].dependsOn == items[j].dependsOn {
      assert Complete(planned[j], items[j], items);
    }
    SameGraphIds(items, planned);
    forall b, p | b in t.inputBindings && p in planned && p.id == ProducerOf(b)
      ensures AliasOf(b) in RequiredOutputsOf(p)
    {
      var j :| 0 <= j < |planned| && planned[j] == p;
      assert Complete(planned[j], items[j], items);
      var i :| 0 <= i < |r.inputBindings| && r.inputBindings[i] == b;
      ReadsMembers(r.inputBindings, p.id, AliasOf(b));
      OutgoingMembers(items, p.id, AliasOf(b));
    }
  }

  lemma CompletedAsRoute(planned: seq<Subquery>, items: seq<Route>)
    requires Completes(planned, items, items)
    ensures Tools(planned) == Tools(items)
    ensures forall j :: 0 <= j < |items| ==>
      && planned[j].id == items[j].id && planned[j].dependsOn == items[j].dependsOn
      && planned[j].joinKeys == items[j].joinKeys
  {
    forall j | 0 <= j < |items|
      ensures planned[j].id == items[j].id && planned[j].dependsOn == items[j].dependsOn
      ensures planned[j].joinKeys == items[j].joinKeys && planned[j].tool == items[j].tool
    {
      assert Complete(planned[j], items[j], items);
    }
  }

  lemma CompletedBinds(planned: seq<Subquery>, items: seq<Route>, offers: Route -> set<string>, t: Subquery)
    requires Completes(planned, items, items) && Accepted(items, offers) && t in planned
    ensures Linked(t, planned, RequiredOutputsOf) && BindsOnce(t)
  {
    var k :| 0 <= k < |planned| && planned[k] == t;
    CompletedLinks(planned, items, offers, k);
    assert Complete(planned[k], items[k], items) && items[k] in items;
    assert BindsOnce(items[k]);
  }

  lemma CompletedIsAccepted(planned: seq<Subquery>, items: seq<Route>, offers: Route -> set<string>)
    requires Completes(planned, items, items) && Accepted(items, offers)
    ensures Accepted(planned, RequiredOutputsOf)
  {
    CompletedAsRoute(planned, items);
    OwnOrderTransfers(items, planned);
    forall t | t in planned ensures Linked(t, planned, RequiredOutputsOf) && BindsOnce(t) {
      CompletedBinds(planned, items, offers, t);
    }
  }

  /** What the executor's validation still has to find out about a completed subquery. */
  predicate Clean(t: Subquery) {
    && !IsBlank(t.question)
    && NoDuplicates(t.extra.generatorRules)
    && forall i :: 0 <= i < |t.inputBindings| ==> Dots(t.inputBindings[i].source) == 1
  }

  lemma ItemErrorIffUnclean(t: Subquery, r: Route, items: seq<Route>)
    requires Complete(t, r, items) && WellLinked(r)
    ensures ItemError(t).None? <==> Clean(t)
  {
    forall i | 0 <= i < |t.inputBindings| ensures DraftedBinding(t.inputBindings[i]) {
    }
  }

  /** An accepted list of at most as many items as allowed passes the rest of the validation unchanged. */
  lemma AcceptedPasses(planned: seq<Subquery>)
    requires Accepted(planned, RequiredOutputsOf) && |planned| <= MAX_SUBQUERIES
    ensures ValidateSubqueries(planned) ==
            if ItemsError(planned).None? then Success(planned) else Failure(ItemsError(planned).value)
  {
    LinksErrorNone(planned, planned, RequiredOutputsOf, NotARequiredOutput);
    OrderAndCheckKeysSucceeds(planned);
  }

  /** What an accepted route looks like with its question restored. */
  function Restored(drafts: seq<Draft>, query: string, catalog: Catalog): seq<Route>
    requires ValidateRoute(drafts, catalog.sharedJoinAliases, catalog.Allowed).Success?
  {
    RestoreQuestion(ValidateRoute(drafts, catalog.sharedJoinAliases, catalog.Allowed).value, query)
  }

  lemma RestoredIsCompletable(drafts: seq<Draft>, query: string, answers: Answers, catalog: Catalog)
    requires catalog.Valid() && ShapesValid(answers, catalog)
    requires ValidateRoute(drafts, catalog.sharedJoinAliases, catalog.Allowed).Success?
    ensures Completable(Restored(drafts, query, catalog), answers, catalog)
    ensures |Restored(drafts, query, catalog)| <= MAX_SUBQUERIES
  {
    AcceptedRoute(drafts, catalog.sharedJoinAliases, catalog.Allowed);
    RestoringKeepsAcceptance(ValidateRoute(drafts, catalog.sharedJoinAliases, catalog.Allowed).value, query,
                             catalog.Allowed);
  }

  /** The main theorem. A route accepted against the catalog, its question restored, is completed
      exactly when every answer parses and conforms. Validation returns the completed plan unchanged
      and in the same order exactly when no question is blank, no rule repeats and no binding source
      has a second dot. */
  lemma AcceptedRouteCompiles(drafts: seq<Draft>, query: string, answers: Answers, catalog: Catalog)
    requires catalog.Valid() && ShapesValid(answers, catalog)
    requires ValidateRoute(drafts, catalog.sharedJoinAliases, catalog.Allowed).Success?
    ensures PlanFrom(Restored(drafts, query, catalog), 0, answers, catalog).Success? <==>
      AnswersParse(Restored(drafts, query, catalog), answers, catalog)
    ensures PlanFrom(Restored(drafts, query, catalog), 0, answers, catalog).Success? ==>
      var planned := PlanFrom(Restored(drafts, query, catalog), 0, answers, catalog).value;
      && (ValidateSubqueries(planned) == Success(planned) <==> forall t :: t in planned ==> Clean(t))
      && (ValidateSubqueries(planned).Success? ==> ValidateSubqueries(planned) == Success(planned))
  {
    var items := Restored(drafts, query, catalog);
    RestoredIsCompletable(drafts, query, answers, catalog);
    PlanFromIff(items, 0, answers, catalog);
    assert items[0..] == items;
    if PlanFrom(items, 0, answers, catalog).Success? {
      PlanFromCompletes(items, 0, answers, catalog);
      CompletedPasses(PlanFrom(items, 0, answers, catalog).value, items, OwnedBy(catalog.Allowed));
    }
  }

  lemma CompletedPasses(planned: seq<Subquery>, items: seq<Route>, offers: Route -> set<string>)
    requires Completes(planned, items, items) && Accepted(items, offers) && |items| <= MAX_SUBQUERIES
    requires forall r :: r in items ==> WellLinked(r)
    ensures ValidateSubqueries(planned) == Success(planned) <==> forall t :: t in planned ==> Clean(t)
    ensures ValidateSubqueries(planned).Success? ==> ValidateSubqueries(planned) == Success(planned)
  {
    CompletedIsAccepted(planned, items, offers);
    AcceptedPasses(planned);
    CleanMeansNoItemError(planned, items);
  }

  lemma CleanMeansNoItemError(planned: seq<Subquery>, items: seq<Route>)
    requires Completes(planned, items, items) && forall r :: r in items ==> WellLinked(r)
    ensures ItemsError(planned).None? <==> forall t :: t in planned ==> Clean(t)
  {
    ItemsErrorNone(planned);
    forall t | t in planned ensures ItemError(t).None? <==> Clean(t) {
      var k :| 0 <= k < |planned| && planned[k] == t;
      ItemErrorIffUnclean(t, items[k], items);
    }
  }

  // ---- conditions on the catalog that make every such plan clean ----

  ghost predicate DotFreeAliases(catalog: Catalog) {
    forall tool, a :: a in catalog.Allowed(tool) ==> Dots(a) == 0
  }

  ghost predicate DistinctPredicates(catalog: Catalog) {
    forall role, tool :: role in catalog.entityRoles ==> NoDuplicates(catalog.PredicatesOf(role, tool))
  }

  lemma {:induction false} PredicateRulesDistinct(roles: seq<string>, catalog: Catalog, tool: string)
    requires DistinctPredicates(catalog) && NoDuplicates(roles)
    requires forall role :: role in roles ==> role in catalog.entityRoles
    ensures NoDuplicates(PredicateRules(roles, catalog, tool))
    ensures forall rule :: rule in PredicateRules(roles, catalog, tool) ==> rule.ApplyPredicate? && rule.role in roles
  {
    if roles != [] {
      PredicateRulesDistinct(roles[1..], catalog, tool);
      RoleRulesDistinct(roles[0], catalog.PredicatesOf(roles[0], tool));
      ConcatDistinct(RoleRules(roles[0], catalog.PredicatesOf(roles[0], tool)),
          PredicateRules(roles[1..], catalog, tool));
    }
  }

  lemma RoleRulesDistinct(role: string, predicates: seq<TypedPredicate>)
    requires NoDuplicates(predicates)
    ensures NoDuplicates(RoleRules(role, predicates))
    ensures forall rule :: rule in RoleRules(role, predicates) ==> rule.ApplyPredicate? && rule.role == role
  {
  }

  lemma GeneratorRulesDistinct(route: Route, items: seq<Route>, answers: Answers, catalog: Catalog)
    requires ShapesValid(answers, catalog) && DistinctPredicates(catalog)
    requires PlanOne(route, items, answers, catalog).Success?
    ensures NoDuplicates(PlanOne(route, items, answers, catalog).value.extra.generatorRules)
  {
    var plan := SemanticPlan(route.tool, answers, catalog).value;
    SemanticPlanIsCompilable(route.tool, answers, catalog);
    PredicateRulesDistinct(plan.displayEntities, catalog, route.tool);
    ConcatDistinct(PredicateRules(plan.displayEntities, catalog, route.tool), [PathDirection]);
    assert PredicateRules(plan.displayEntities, catalog, route.tool) + [] ==
        PredicateRules(plan.displayEntities, catalog, route.tool);
  }

  lemma SingleDotBindings(items: seq<Route>, route: Route, catalog: Catalog)
    requires DotFreeAliases(catalog) && Accepted(items, OwnedBy(catalog.Allowed)) && route in items && WellLinked(route)
    ensures forall i :: 0 <= i < |route.inputBindings| ==> Dots(route.inputBindings[i].source) == 1
  {
    forall i | 0 <= i < |route.inputBindings| ensures Dots(route.inputBindings[i].source) == 1 {
      var b := route.inputBindings[i];
      assert DraftedBinding(b) && b in route.inputBindings;
      assert Linked(route, items, OwnedBy(catalog.Allowed));
      var producer :| producer in items && producer.id == ProducerOf(b);
      assert OwnedBy(catalog.Allowed)(producer) == catalog.Allowed(producer.tool);
      SplitJoins(b.source);
    }
  }

  lemma {:induction false} PlanFromClean(items: seq<Route>, from: nat, answers: Answers, catalog: Catalog)
    requires Completable(items, answers, catalog) && DotFreeAliases(catalog) && DistinctPredicates(catalog)
    requires forall r :: r in items ==> !IsBlank(r.question)
    requires from <= |items| && PlanFrom(items, from, answers, catalog).Success?
    ensures forall t :: t in PlanFrom(items, from, answers, catalog).value ==> Clean(t)
    decreases |items| - from
  {
    if from < |items| {
      GeneratorRulesDistinct(items[from], items, answers, catalog);
      SingleDotBindings(items, items[from], catalog);
      PlanFromClean(items, from + 1, answers, catalog);
    }
  }

  /** Dot-free aliases, distinct role predicates and a question with some text are enough for every
      accepted route whose answers parse and conform to be completed and executable as it stands. */
  lemma CatalogConditionsSuffice(drafts: seq<Draft>, query: string, answers: Answers, catalog: Catalog)
    requires catalog.Valid() && ShapesValid(answers, catalog)
    requires DotFreeAliases(catalog) && DistinctPredicates(catalog) && !IsBlank(query)
    requires ValidateRoute(drafts, catalog.sharedJoinAliases, catalog.Allowed).Success?
    requires AnswersParse(Restored(drafts, query, catalog), answers, catalog)
    ensures PlanFrom(Restored(drafts, query, catalog), 0, answers, catalog).Success?
    ensures
      var planned := PlanFrom(Restored(drafts, query, catalog), 0, answers, catalog).value;
      ValidateSubqueries(planned) == Success(planned)
  {
    AcceptedRouteCompiles(drafts, query, answers, catalog);
    RestoredIsCompletable(drafts, query, answers, catalog);
    AcceptedRoute(drafts, catalog.sharedJoinAliases, catalog.Allowed);
    PlanFromClean(Restored(drafts, query, catalog), 0, answers, catalog);
  }
}
