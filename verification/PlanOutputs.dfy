/** Completes a validated route with the outputs each source must return. */
module PlanOutputs {
  import opened Wrappers
  import opened Text
  import opened Collections
  import opened TopologicalOrder
  import opened Planning

  datatype Projection = Projection(keys: seq<string>, labels: seq<string>) {
    function DisplayAliases(): seq<string> { keys + labels }
  }

  datatype EntityRole = EntityRole(projections: map<string, Projection>, predicates: map<string, seq<TypedPredicate>>)

  /** What a matched result shape demands of one source. */
  datatype Contract = Contract(displayEntities: seq<string>, requiredOutputs: seq<string>,
      completionGroups: seq<seq<string>>)

  datatype Catalog = Catalog(
    aliases: map<string, set<string>>,      // by tool
    orderedPaths: set<string>,              // graph aliases that project an ordered path
    sharedJoinAliases: set<string>,
    entityRoles: map<string, EntityRole>)
  {
    /** Aliases a tool owns; only the two supported tools own any. */
    function Allowed(tool: string): set<string> { if tool in aliases then aliases[tool] else {} }

    predicate HasRole(role: string, tool: string) {
      role in entityRoles && tool in entityRoles[role].projections
    }

    function Identity(role: string, tool: string): Projection
      requires HasRole(role, tool)
    {
      entityRoles[role].projections[tool]
    }

    function PredicatesOf(role: string, tool: string): seq<TypedPredicate>
      requires role in entityRoles
    {
      if tool in entityRoles[role].predicates then entityRoles[role].predicates[tool] else []
    }

    /** Every role projects some key, over aliases that its source owns and that are not blank, and
        both sources own the aliases to join on. `SemanticCatalog` compiles only such catalogs. */
    predicate Valid() {
      && (forall role, tool :: role in entityRoles && tool in entityRoles[role].projections ==>
          ValidProjection(Identity(role, tool), tool))
      && (forall tool :: tool in SUPPORTED_TOOLS ==> sharedJoinAliases <= Allowed(tool))
    }

    predicate ValidProjection(p: Projection, tool: string) {
      && p.keys != []
      && (forall a :: a in p.DisplayAliases() ==> a in Allowed(tool) && !IsBlank(a))
    }

    predicate ValidContract(c: Contract, tool: string) {
      && (forall role :: role in c.displayEntities ==> HasRole(role, tool))
      && (forall a :: a in c.requiredOutputs ==> a in Allowed(tool) && !IsBlank(a))
      && (forall g, a :: g in c.completionGroups && a in g ==> a in c.requiredOutputs)
    }
  }

  /** An output plan; as the planner answered it, or after parsing and conforming. */
  datatype OutputPlan = OutputPlan(requiredOutputs: seq<string>, displayEntities: seq<string>)

  datatype OutputError =
    | BlankOutput | NoOutput | DuplicateOutput | UnavailableOutput | NothingSelected
    | IncompleteShape | DuplicateAlias | NotOwned

  function ParseAliases(xs: seq<string>, allowed: set<string>, allowEmpty: bool): Option<OutputError> {
    if exists i :: 0 <= i < |xs| && IsBlank(xs[i]) then Some(BlankOutput)
    else if xs == [] && !allowEmpty then Some(NoOutput)
    else if !NoDuplicates(xs) then Some(DuplicateOutput)
    else if exists x :: x in xs && x !in allowed then Some(UnavailableOutput)
    else None
  }

  function RolesFor(catalog: Catalog, tool: string): set<string> {
    set role | role in catalog.entityRoles && tool in catalog.entityRoles[role].projections
  }

  /** Checks the planner's answer against the catalog. */
  function ParseOutputPlan(raw: OutputPlan, catalog: Catalog, tool: string): Result<OutputPlan, OutputError> {
    var outputs := ParseAliases(raw.requiredOutputs, catalog.Allowed(tool), tool == "graph");
    var roles := ParseAliases(raw.displayEntities, RolesFor(catalog, tool), true);
    if outputs.Some? then Failure(outputs.value)
    else if roles.Some? then Failure(roles.value)
    else if tool == "graph" && raw.requiredOutputs == [] && raw.displayEntities == [] then Failure(NothingSelected)
    else Success(raw)
  }

  /** `base` followed by the items of `more` it does not have yet, each once. */
  function Union(base: seq<string>, more: seq<string>): seq<string>
    decreases |more|
  {
    if more == [] then base else Union(if more[0] in base then base else base + [more[0]], more[1..])
  }

  lemma {:induction false} UnionFacts(base: seq<string>, more: seq<string>)
    ensures base <= Union(base, more)
    ensures forall x :: x in Union(base, more) <==> x in base || x in more
    ensures NoDuplicates(base) ==> NoDuplicates(Union(base, more))
    decreases |more|
  {
    if more != [] {
      UnionFacts(if more[0] in base then base else base + [more[0]], more[1..]);
      assert forall x :: x in more <==> x == more[0] || x in more[1..];
    }
  }

  /** The union of several groups, in order of first appearance. */
  function OrderedUnion(groups: seq<seq<string>>): seq<string> {
    if groups == [] then [] else Union(OrderedUnion(groups[..|groups| - 1]), groups[|groups| - 1])
  }

  /** The union has every item of every group exactly once. */
  lemma {:induction false} OrderedUnionFacts(groups: seq<seq<string>>)
    ensures NoDuplicates(OrderedUnion(groups))
    ensures forall x :: x in OrderedUnion(groups) <==> exists g :: g in groups && x in g
  {
    if groups != [] {
      var front, last := groups[..|groups| - 1], groups[|groups| - 1];
      OrderedUnionFacts(front);
      UnionFacts(OrderedUnion(front), last);
      assert groups == front + [last];
    }
  }

  method ComputeOrderedUnion(groups: seq<seq<string>>) returns (result: seq<string>)
    ensures result == OrderedUnion(groups)
  {
    result := [];
    for g := 0 to |groups|
      invariant result == OrderedUnion(groups[..g])
    {
      ghost var before := result;
      for i := 0 to |groups[g]|
        invariant Union(before, groups[g]) == Union(result, groups[g][i..])
      {
        assert groups[g][i..][1..] == groups[g][i + 1..];
        if groups[g][i] !in result {
          result := result + [groups[g][i]];
        }
      }
      assert groups[..g + 1][..g] == groups[..g];
    }
    assert groups[..|groups|] == groups;
  }

  // ---- conforming to a matched result shape ----

  predicate Touches(xs: seq<string>, ys: seq<string>) { exists x :: x in xs && x in ys }

  /** Contract roles whose keys are already selected join the display entities. */
  function AddRoles(roles: seq<string>, display: seq<string>, selected: seq<string>, catalog: Catalog,
      tool: string): seq<string>
    requires forall role :: role in roles ==> catalog.HasRole(role, tool)
  {
    if roles == [] then display
    else
      var role := roles[0];
      var joins := role !in display && Touches(selected, catalog.Identity(role, tool).keys);
      var next := if joins then display + [role] else display;
      AddRoles(roles[1..], next, selected, catalog, tool)
  }

  /** A completion group of which something is selected is selected as a whole. */
  function AddGroups(groups: seq<seq<string>>, outputs: seq<string>): seq<string> {
    if groups == [] then outputs
    else AddGroups(groups[1..], if Touches(outputs, groups[0]) then OrderedUnion([outputs, groups[0]]) else outputs)
  }

  predicate Covers(plan: OutputPlan, contract: Contract) {
    && (forall role :: role in contract.displayEntities ==> role in plan.displayEntities)
    && (forall a :: a in contract.requiredOutputs ==> a in plan.requiredOutputs)
  }

  /** Completes the plan as far as the shape allows; an incomplete plan is rejected. */
  function Conform(plan: OutputPlan, contract: Option<Contract>, catalog: Catalog,
      tool: string): Result<OutputPlan, OutputError>
    requires contract.Some? ==> catalog.ValidContract(contract.value, tool)
  {
    if contract.None? then Success(plan)
    else
      var c := contract.value;
      var outputs := AddGroups(c.completionGroups, plan.requiredOutputs);
      var display := AddRoles(c.displayEntities, plan.displayEntities, plan.requiredOutputs, catalog, tool);
      var conformed := OutputPlan(outputs, display);
      if Covers(conformed, c) then Success(conformed) else Failure(IncompleteShape)
  }

  method ConformToShape(plan: OutputPlan, contract: Option<Contract>, catalog: Catalog, tool: string)
      returns (r: Result<OutputPlan, OutputError>)
    requires contract.Some? ==> catalog.ValidContract(contract.value, tool)
    ensures r == Conform(plan, contract, catalog, tool)
  {
    if contract.None? {
      return Success(plan);
    }
    var c := contract.value;
    var display, outputs := plan.displayEntities, plan.requiredOutputs;
    for i := 0 to |c.displayEntities|
      invariant AddRoles(c.displayEntities, plan.displayEntities, plan.requiredOutputs, catalog, tool) ==
                AddRoles(c.displayEntities[i..], display, plan.requiredOutputs, catalog, tool)
    {
      var role := c.displayEntities[i];
      assert c.displayEntities[i..][1..] == c.displayEntities[i + 1..];
      if role !in display && Touches(plan.requiredOutputs, catalog.Identity(role, tool).keys) {
        display := display + [role];
      }
    }
    for i := 0 to |c.completionGroups|
      invariant AddGroups(c.completionGroups, plan.requiredOutputs) == AddGroups(c.completionGroups[i..], outputs)
    {
      assert c.completionGroups[i..][1..] == c.completionGroups[i + 1..];
      if Touches(outputs, c.completionGroups[i]) {
        outputs := ComputeOrderedUnion([outputs, c.completionGroups[i]]);
      }
    }
    var conformed := OutputPlan(outputs, display);
    r := if Covers(conformed, c) then Success(conformed) else Failure(IncompleteShape);
  }

  lemma {:induction false} AddRolesMembers(roles: seq<string>, display: seq<string>, selected: seq<string>,
      catalog: Catalog, tool: string)
    requires forall role :: role in roles ==> catalog.HasRole(role, tool)
    ensures
      var r := AddRoles(roles, display, selected, catalog, tool);
      && display <= r
      && (forall role :: role in r ==> role in display || role in roles)
      && (NoDuplicates(display) ==> NoDuplicates(r))
      && ((forall role :: role in roles ==> role in display) ==> r == display)
  {
    if roles != [] {
      var role := roles[0];
      var joins := role !in display && Touches(selected, catalog.Identity(role, tool).keys);
      var next := if joins then display + [role] else display;
      AddRolesMembers(roles[1..], next, selected, catalog, tool);
    }
  }

  lemma OrderedUnionOfTwo(a: seq<string>, b: seq<string>)
    ensures OrderedUnion([a, b]) == Union(Union([], a), b)
  {
    var groups := [a, b];
    assert groups[..1] == [a];
    assert [a][..0] == [];
    assert OrderedUnion([a]) == Union(OrderedUnion([]), a);
  }

  lemma UnionOfCovered(outputs: seq<string>, group: seq<string>)
    requires NoDuplicates(outputs)
    ensures OrderedUnion([outputs, group]) == Union(outputs, group)
    ensures (forall a :: a in group ==> a in outputs) ==> Union(outputs, group) == outputs
  {
    OrderedUnionOfTwo(outputs, group);
    UnionFromEmpty(outputs, 0);
    assert outputs[..0] == [] && outputs[0..] == outputs;
    UnionAbsorbs(outputs, group);
  }

  lemma {:induction false} UnionFromEmpty(xs: seq<string>, i: nat)
    requires NoDuplicates(xs) && i <= |xs|
    ensures Union(xs[..i], xs[i..]) == xs
    decreases |xs| - i
  {
    if i < |xs| {
      assert xs[i] !in xs[..i];
      assert xs[..i] + [xs[i]] == xs[..i + 1] && xs[i..][1..] == xs[i + 1..];
      UnionFromEmpty(xs, i + 1);
    } else {
      assert xs[..i] == xs;
    }
  }

  lemma {:induction false} UnionAbsorbs(base: seq<string>, more: seq<string>)
    ensures (forall a :: a in more ==> a in base) ==> Union(base, more) == base
  {
    if more != [] && forall a :: a in more ==> a in base {
      UnionAbsorbs(base, more[1..]);
    }
  }

  lemma {:induction false} AddGroupsMembers(groups: seq<seq<string>>, outputs: seq<string>, allowed: set<string>)
    requires NoDuplicates(outputs) && (forall a :: a in outputs ==> a in allowed)
    requires forall g, a :: g in groups && a in g ==> a in allowed
    ensures
      var r := AddGroups(groups, outputs);
      && outputs <= r && NoDuplicates(r)
      && (forall a :: a in r ==> a in allowed)
      && ((forall g, a :: g in groups && a in g ==> a in outputs) ==> r == outputs)
  {
    if groups != [] {
      UnionOfCovered(outputs, groups[0]);
      UnionFacts(outputs, groups[0]);
      assert forall a :: a in groups[0] ==> a in allowed;
      var next := if Touches(outputs, groups[0]) then OrderedUnion([outputs, groups[0]]) else outputs;
      AddGroupsMembers(groups[1..], next, allowed);
    }
  }

  /** A plan that conforms keeps what the planner chose, in its order, and covers the shape;
      conforming again changes nothing. */
  lemma ConformIdempotent(plan: OutputPlan, contract: Option<Contract>, catalog: Catalog, tool: string)
    requires contract.Some? ==> catalog.ValidContract(contract.value, tool)
    requires NoDuplicates(plan.requiredOutputs)
    requires Conform(plan, contract, catalog, tool).Success?
    ensures
      var conformed := Conform(plan, contract, catalog, tool).value;
      && plan.requiredOutputs <= conformed.requiredOutputs
      && plan.displayEntities <= conformed.displayEntities
      && (contract.Some? ==> Covers(conformed, contract.value))
      && Conform(conformed, contract, catalog, tool) == Success(conformed)
  {
    if contract.Some? {
      var c := contract.value;
      var conformed := Conform(plan, contract, catalog, tool).value;
      var all := (set a | a in plan.requiredOutputs) + (set a | a in c.requiredOutputs);
      AddRolesMembers(c.displayEntities, plan.displayEntities, plan.requiredOutputs, catalog, tool);
      AddRolesMembers(c.displayEntities, conformed.displayEntities, conformed.requiredOutputs, catalog, tool);
      AddGroupsMembers(c.completionGroups, plan.requiredOutputs, all);
      AddGroupsMembers(c.completionGroups, conformed.requiredOutputs, all);
    }
  }

  // ---- completing a subquery ----

  /** The identity aliases of the displayed roles, role by role. */
  function IdentityOutputs(roles: seq<string>, catalog: Catalog, tool: string): seq<string>
    requires forall role :: role in roles ==> catalog.HasRole(role, tool)
  {
    if roles == [] then []
    else catalog.Identity(roles[0], tool).DisplayAliases() + IdentityOutputs(roles[1..], catalog, tool)
  }

  function CompilePlan(plan: OutputPlan, catalog: Catalog, tool: string): seq<string>
    requires forall role :: role in plan.displayEntities ==> catalog.HasRole(role, tool)
  {
    OrderedUnion([plan.requiredOutputs, IdentityOutputs(plan.displayEntities, catalog, tool)])
  }

  function RoleRules(role: string, predicates: seq<TypedPredicate>): seq<Rule> {
    seq(|predicates|, i requires 0 <= i < |predicates| => ApplyPredicate(role, predicates[i]))
  }

  function PredicateRules(roles: seq<string>, catalog: Catalog, tool: string): seq<Rule>
    requires forall role :: role in roles ==> role in catalog.entityRoles
  {
    if roles == [] then []
    else RoleRules(roles[0], catalog.PredicatesOf(roles[0], tool)) + PredicateRules(roles[1..], catalog, tool)
  }

  function GeneratorRules(plan: OutputPlan, selected: seq<string>, catalog: Catalog, tool: string): seq<Rule>
    requires forall role :: role in plan.displayEntities ==> role in catalog.entityRoles
  {
    PredicateRules(plan.displayEntities, catalog, tool)
    + (if tool == "graph" && exists a :: a in selected && a in catalog.orderedPaths then [PathDirection] else [])
  }

  function FinalizeError(aliases: seq<string>, allowed: set<string>): Option<OutputError> {
    if !NoDuplicates(aliases) then Some(DuplicateAlias)
    else if exists a :: a in aliases && a !in allowed then Some(NotOwned)
    else None
  }

  /** The selected outputs, then the join keys, then what other subqueries read. */
  function Finalize(selected: seq<string>, joinKeys: seq<string>, outgoing: seq<string>, catalog: Catalog,
      tool: string): Result<seq<string>, OutputError>
  {
    var allowed := catalog.Allowed(tool);
    if FinalizeError(selected, allowed).Some? then Failure(FinalizeError(selected, allowed).value)
    else if FinalizeError(joinKeys, allowed).Some? then Failure(FinalizeError(joinKeys, allowed).value)
    else if FinalizeError(outgoing, allowed).Some? then Failure(FinalizeError(outgoing, allowed).value)
    else Success(OrderedUnion([selected, joinKeys, outgoing]))
  }

  /** The aliases that `bindings` read from producer `id`. */
  function Reads(bindings: seq<Binding>, id: string): seq<string> {
    if bindings == [] then []
    else Reads(bindings[..|bindings| - 1], id)
         + (if ProducerOf(bindings[|bindings| - 1]) == id then [AliasOf(bindings[|bindings| - 1])] else [])
  }

  /** The aliases that the whole route reads from producer `id`, each once. */
  function Outgoing(items: seq<Route>, id: string): seq<string> {
    if items == [] then []
    else Union(Outgoing(items[..|items| - 1], id), Reads(items[|items| - 1].inputBindings, id))
  }

  lemma {:induction false} ReadsMembers(bindings: seq<Binding>, id: string, alias: string)
    ensures alias in Reads(bindings, id) <==>
            exists i :: 0 <= i < |bindings| && ProducerOf(bindings[i]) == id && AliasOf(bindings[i]) == alias
  {
    if bindings != [] {
      var front := bindings[..|bindings| - 1];
      ReadsMembers(front, id, alias);
      assert forall i :: 0 <= i < |front| ==> bindings[i] == front[i];
    }
  }

  lemma {:induction false} OutgoingMembers(items: seq<Route>, id: string, alias: string)
    ensures alias in Outgoing(items, id) <==> exists t :: t in items && alias in Reads(t.inputBindings, id)
    ensures NoDuplicates(Outgoing(items, id))
  {
    if items != [] {
      var front, last := items[..|items| - 1], items[|items| - 1];
      OutgoingMembers(front, id, alias);
      UnionFacts(Outgoing(front, id), Reads(last.inputBindings, id));
      assert items == front + [last];
    }
  }

  lemma {:induction false} UnionSnoc(base: seq<string>, more: seq<string>, x: string)
    ensures Union(base, more + [x]) == if x in Union(base, more) then Union(base, more) else Union(base, more) + [x]
    decreases |more|
  {
    if more == [] {
      assert ([] + [x])[1..] == [];
      assert more + [x] == [x];
    } else {
      assert (more + [x])[1..] == more[1..] + [x];
      UnionSnoc(if more[0] in base then base else base + [more[0]], more[1..], x);
    }
  }

  lemma ReadsStep(base: seq<string>, bindings: seq<Binding>, i: nat, id: string)
    requires i < |bindings|
    ensures
      var b, before := bindings[i], Union(base, Reads(bindings[..i], id));
      Union(base, Reads(bindings[..i + 1], id)) ==
      if ProducerOf(b) == id && AliasOf(b) !in before then before + [AliasOf(b)] else before
  {
    assert bindings[..i + 1][..i] == bindings[..i];
    if ProducerOf(bindings[i]) == id {
      UnionSnoc(base, Reads(bindings[..i], id), AliasOf(bindings[i]));
    } else {
      assert Reads(bindings[..i + 1], id) == Reads(bindings[..i], id);
    }
  }

  /** Every binding reads from one of the `known` producers. */
  predicate ProducersKnown(bindings: seq<Binding>, known: set<string>) {
    || bindings == []
    || (ProducersKnown(bindings[..|bindings| - 1], known) && ProducerOf(bindings[|bindings| - 1]) in known)
  }

  lemma {:induction false} ProducersKnownPrefix(bindings: seq<Binding>, known: set<string>, i: nat)
    requires i < |bindings| && ProducersKnown(bindings, known)
    ensures ProducerOf(bindings[i]) in known
  {
    if i < |bindings| - 1 {
      ProducersKnownPrefix(bindings[..|bindings| - 1], known, i);
    }
  }

  function AddRead(m: map<string, seq<string>>, id: string, alias: string): map<string, seq<string>>
    requires id in m
  {
    if alias in m[id] then m else m[id := m[id] + [alias]]
  }

  /** `now` is `before` with the reads of `bindings` added. */
  ghost predicate ReadsAdded(before: map<string, seq<string>>, bindings: seq<Binding>, now: map<string, seq<string>>) {
    && ProducersKnown(bindings, before.Keys)
    && now.Keys == before.Keys
    && forall id :: id in before ==> now[id] == Union(before[id], Reads(bindings, id))
  }

  lemma ReadsStepAll(before: map<string, seq<string>>, result: map<string, seq<string>>, bindings: seq<Binding>, i: nat)
    requires i < |bindings| && ReadsAdded(before, bindings[..i], result) && ProducerOf(bindings[i]) in before
    ensures ReadsAdded(before, bindings[..i + 1], AddRead(result, ProducerOf(bindings[i]), AliasOf(bindings[i])))
  {
    assert bindings[..i + 1][..i] == bindings[..i];
    var now := AddRead(result, ProducerOf(bindings[i]), AliasOf(bindings[i]));
    forall id | id in before ensures now[id] == Union(before[id], Reads(bindings[..i + 1], id)) {
      ReadsStep(before[id], bindings, i, id);
    }
  }

  lemma UnknownProducer(bindings: seq<Binding>, known: set<string>, i: nat)
    requires i < |bindings| && ProducerOf(bindings[i]) !in known
    ensures !ProducersKnown(bindings, known)
  {
    if ProducersKnown(bindings, known) {
      ProducersKnownPrefix(bindings, known, i);
    }
  }

  /** Adds the reads of one subquery; fails on a producer the route does not have. */
  method AddReads(before: map<string, seq<string>>, bindings: seq<Binding>)
      returns (r: Option<map<string, seq<string>>>)
    ensures r.Some? <==> ProducersKnown(bindings, before.Keys)
    ensures r.Some? ==> ReadsAdded(before, bindings, r.value)
  {
    var result := before;
    for i := 0 to |bindings|
      invariant ReadsAdded(before, bindings[..i], result)
    {
      var id := ProducerOf(bindings[i]);
      if id !in result {
        UnknownProducer(bindings, before.Keys, i);
        return None;
      }
      ReadsStepAll(before, result, bindings, i);
      result := AddRead(result, id, AliasOf(bindings[i]));
    }
    assert bindings[..|bindings|] == bindings;
    r := Some(result);
  }

  /** Collects, for every producer, the aliases other subqueries bind. */
  method CollectOutgoing(items: seq<Route>) returns (r: Option<map<string, seq<string>>>)
    ensures r.Some? <==> forall t :: t in items ==> ProducersKnown(t.inputBindings, Ids(items))
    ensures r.Some? ==> r.value.Keys == Ids(items) && forall id :: id in r.value ==> r.value[id] == Outgoing(items, id)
  {
    var result: map<string, seq<string>> := map id | id in Ids(items) :: [];
    for k := 0 to |items|
      invariant result.Keys == Ids(items)
      invariant forall id :: id in result ==> result[id] == Outgoing(items[..k], id)
      invariant forall j :: 0 <= j < k ==> ProducersKnown(items[j].inputBindings, Ids(items))
    {
      var added := AddReads(result, items[k].inputBindings);
      if added.None? {
        return None;
      }
      assert items[..k + 1][..k] == items[..k];
      result := added.value;
    }
    assert items[..|items|] == items;
    r := Some(result);
  }
}
