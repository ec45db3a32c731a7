/** Accepted routes, completed without a complaint, that the validation of the compiled plan still rejects. */
module PlanRejections {
  import opened Wrappers
  import opened Text
  import opened Collections
  import opened TopologicalOrder
  import opened Planning
  import opened PlanOutputs
  import opened PlanCompiler
  import opened SemanticCatalog

  // ---- a catalog that compiles ----

  const PREDICATE: TypedPredicate := TypedPredicate("x", "true")

  /** A role of both sources that states one predicate twice. */
  const ROLE: EntityRole := EntityRole(
    map["sql" := Projection(["x"], []), "graph" := Projection(["x"], [])], map["graph" := [PREDICATE, PREDICATE]])

  const SQL_FIELDS: seq<Field> := [Field("t.x", ["x"], true)]

  const GRAPH_FIELDS: seq<Field> := [Field("n.x", ["x"], true), Field("n.y", ["a.b"], false)]

  const ONTOLOGY: Ontology := Ontology(SQL_FIELDS, GRAPH_FIELDS, [], [RoleDefinition("r", ROLE)], [], [])

  const CATALOG: Catalog := Catalog(map["sql" := {"x"}, "graph" := {"x", "a.b"}], {}, {"x"}, map["r" := ROLE])

  lemma OntologyDefined()
    ensures ONTOLOGY.Defined()
  {
    assert !IsSpace("x"[0]) && !IsSpace("a.b"[0]);
    assert RoleDefined(ROLE);
  }

  function OneFieldSpec(f: Field): AliasSpec {
    AliasSpec(Physical, if f.identity then Identity else Scalar, [f.path], false)
  }

  lemma OneField(f: Field, a: string)
    requires f.aliases == [a]
    ensures PhysicalTable([f]) == map[a := OneFieldSpec(f)]
  {
    AliasesSnoc([], f);
    assert [] + [f] == [f] && f in [f];
    assert [f][..0] == [] && PathsNamed([], a) == [];
    assert PhysicalSpec([f], a) == OneFieldSpec(f);
    assert AliasesOf([f]) == {a};
  }

  lemma TwoFields(f: Field, g: Field, a: string, b: string)
    requires f.aliases == [a] && g.aliases == [b] && a != b
    ensures PhysicalTable([f, g]) == map[a := OneFieldSpec(f), b := OneFieldSpec(g)]
  {
    OneField(f, a);
    assert [f, g] == [f] + [g];
    AliasesSnoc([f], g);
    PhysicalSnoc([f], g, a);
    PhysicalSnoc([f], g, b);
  }

  const SQL_TABLE: Table := map["x" := OneFieldSpec(SQL_FIELDS[0])]

  const GRAPH_TABLE: Table := map["x" := OneFieldSpec(GRAPH_FIELDS[0]), "a.b" := OneFieldSpec(GRAPH_FIELDS[1])]

  lemma TablesOfOntology()
    ensures TableFor(ONTOLOGY, "sql") == SQL_TABLE && TableFor(ONTOLOGY, "graph") == GRAPH_TABLE
  {
    OneField(SQL_FIELDS[0], "x");
    assert |"x"| != |"a.b"|;
    TwoFields(GRAPH_FIELDS[0], GRAPH_FIELDS[1], "x", "a.b");
  }

  lemma RoleOfOntology()
    ensures RolesOf(ONTOLOGY.entityRoles) == map["r" := ROLE]
  {
    var d := RoleDefinition("r", ROLE);
    assert [d][..0] == [];
    assert RolesOf([d]) == RolesOf([])["r" := ROLE];
  }

  lemma RoleIsProjected(table: Table, f: Field, s: string)
    requires "x" in table && table["x"] == OneFieldSpec(f) && f.identity && s in SUPPORTED_TOOLS
    ensures RoleDefined(ROLE) && RoleFits(table, ROLE, s)
  {
    var keys := ["x"];
    assert f.path in [f.path];
    assert OwnerOf(f.path) in Owners(table[keys[0]]);
    assert OwnerOf(f.path) in SharedOwners(table, keys);
  }

  lemma ReferencesOfOntology()
    requires ONTOLOGY.Defined()
    ensures ReferencesFit(ONTOLOGY, SQL_TABLE, GRAPH_TABLE)
  {
    RoleOfOntology();
    RoleIsProjected(SQL_TABLE, SQL_FIELDS[0], "sql");
    RoleIsProjected(GRAPH_TABLE, GRAPH_FIELDS[0], "graph");
    assert "r" in RolesOf(ONTOLOGY.entityRoles);
  }

  lemma TablesDiffer()
    ensures SQL_TABLE.Keys == {"x"} && GRAPH_TABLE.Keys == {"x", "a.b"}
    ensures IdentitiesOf(SQL_TABLE) == {"x"} == IdentitiesOf(GRAPH_TABLE)
    ensures OrderedPathsOf(GRAPH_TABLE) == {}
  {
    assert |"x"| != |"a.b"|;
  }

  lemma CatalogOfOntology()
    ensures CatalogOf(ONTOLOGY) == CATALOG
  {
    TablesOfOntology();
    TablesDiffer();
    RoleOfOntology();
  }

  ghost predicate IsCompiled(catalog: Catalog, o: Ontology) { o.Defined() && Compiles(o) && CatalogOf(o) == catalog }

  lemma UndeclaredCompiles(o: Ontology, sql: Table, graph: Table, shared: string)
    requires o.Defined() && o.declared == [] && TableFor(o, "sql") == sql && TableFor(o, "graph") == graph
    requires ReferencesFit(o, sql, graph) && shared in IdentitiesOf(sql) && shared in IdentitiesOf(graph)
    ensures Compiles(o)
  {
    assert shared in IdentitiesOf(sql) * IdentitiesOf(graph);
  }

  lemma CatalogIsCompiled()
    ensures IsCompiled(CATALOG, ONTOLOGY) && CATALOG.Valid()
  {
    OntologyDefined();
    TablesOfOntology();
    TablesDiffer();
    ReferencesOfOntology();
    UndeclaredCompiles(ONTOLOGY, SQL_TABLE, GRAPH_TABLE, "x");
    CatalogOfOntology();
    CompiledCatalogIsValid(ONTOLOGY);
  }

  lemma CatalogIsValid()
    ensures CATALOG.Valid()
  {
    CatalogIsCompiled();
  }

  // ---- rejected routes ----

  predicate RouteAccepted(drafts: seq<Draft>, catalog: Catalog) {
    ValidateRoute(drafts, catalog.sharedJoinAliases, catalog.Allowed).Success?
  }

  /** An accepted route, completed without a complaint, whose plan is then rejected. */
  ghost predicate RejectedLater(drafts: seq<Draft>, query: string, answers: Answers, catalog: Catalog) {
    && ShapesValid(answers, catalog) && RouteAccepted(drafts, catalog)
    && PlanFrom(Restored(drafts, query, catalog), 0, answers, catalog).Success?
    && ValidateSubqueries(PlanFrom(Restored(drafts, query, catalog), 0, answers, catalog).value).Failure?
  }

  lemma {:induction false} CompletedAt(items: seq<Route>, from: nat, answers: Answers, catalog: Catalog, k: nat)
    requires ShapesValid(answers, catalog) && from <= k < |items|
    requires PlanFrom(items, from, answers, catalog).Success?
    ensures PlanOne(items[k], items, answers, catalog).Success?
    ensures PlanOne(items[k], items, answers, catalog).value in PlanFrom(items, from, answers, catalog).value
    decreases k - from
  {
    PlanFromStep(items, from, answers, catalog);
    if from < k {
      CompletedAt(items, from + 1, answers, catalog, k);
    }
  }

  /** It takes one completed subquery that is not clean. */
  lemma RejectedIfUnclean(drafts: seq<Draft>, query: string, answers: Answers, catalog: Catalog, k: nat)
    requires catalog.Valid() && ShapesValid(answers, catalog) && RouteAccepted(drafts, catalog)
    requires AnswersParse(Restored(drafts, query, catalog), answers, catalog)
    requires k < |Restored(drafts, query, catalog)|
    requires
      var items := Restored(drafts, query, catalog);
      var t := PlanOne(items[k], items, answers, catalog);
      t.Success? ==> !Clean(t.value)
    ensures RejectedLater(drafts, query, answers, catalog)
  {
    AcceptedRouteCompiles(drafts, query, answers, catalog);
    CompletedAt(Restored(drafts, query, catalog), 0, answers, catalog, k);
  }

  /** The planner gives one answer for every source; no shape matches. */
  function Always(plan: OutputPlan): Answers { Answers((tool: string) => plan, (tool: string) => None) }

  lemma AlwaysParses(plan: OutputPlan, tool: string)
    requires plan in {OutputPlan(["x"], []), OutputPlan([], ["r"])} && (tool == "graph" || plan.requiredOutputs != [])
    requires tool in SUPPORTED_TOOLS
    ensures ShapesValid(Always(plan), CATALOG)
    ensures SemanticPlan(tool, Always(plan), CATALOG) == Success(plan)
  {
    assert !IsSpace("x"[0]) && !IsSpace("r"[0]);
    assert "x" in CATALOG.Allowed(tool) && "r" in RolesFor(CATALOG, tool);
  }

  /** A draft for one source alone. */
  predicate Alone(d: Draft) { DraftOk(d, CATALOG.sharedJoinAliases) && d.dependsOn == [] && d.inputBindings == [] }

  lemma AloneOrder(r: Route)
    requires r.dependsOn == []
    ensures Waves([r], {}) == Some([r])
  {
    assert Ids([r]) == {r.id};
    assert [r][1..] == [];
    assert Wave([r], {}) == [r] + Wave([], {}) == [r];
    OneWave([r], {});
    assert Waves([r], {r.id}) == Some([]);
  }

  lemma AloneAccepted(d: Draft, query: string)
    requires Alone(d)
    ensures RouteAccepted([d], CATALOG) && Restored([d], query, CATALOG) == [CompiledDraft(d).(question := query)]
  {
    var r := CompiledDraft(d);
    assert CompiledDrafts([d]) == [r];
    AloneOrder(r);
    assert Linked(r, [r], OwnedBy(CATALOG.Allowed));
    ValidateRouteIff([d], CATALOG.sharedJoinAliases, CATALOG.Allowed);
  }

  const LONE_DRAFT: Draft := Draft("g", "graph", "q", [], [], [])

  lemma LoneDraftOk()
    ensures Alone(LONE_DRAFT)
  {
    assert !IsSpace(LONE_DRAFT.question[0]);
  }

  /** The original question, restored to a single source, may be blank. */
  lemma BlankQuestionRejected()
    ensures RejectedLater([LONE_DRAFT], " ", Always(OutputPlan(["x"], [])), CATALOG)
  {
    CatalogIsValid();
    LoneDraftOk();
    AloneAccepted(LONE_DRAFT, " ");
    AlwaysParses(OutputPlan(["x"], []), "graph");
    RejectedIfUnclean([LONE_DRAFT], " ", Always(OutputPlan(["x"], [])), CATALOG, 0);
  }

  lemma RepeatedRule(selected: seq<string>)
    ensures !NoDuplicates(GeneratorRules(OutputPlan([], ["r"]), selected, CATALOG, "graph"))
  {
    var rules := GeneratorRules(OutputPlan([], ["r"]), selected, CATALOG, "graph");
    var own := RoleRules("r", [PREDICATE, PREDICATE]);
    assert CATALOG.PredicatesOf("r", "graph") == [PREDICATE, PREDICATE];
    assert PredicateRules(["r"], CATALOG, "graph") == own + PredicateRules([], CATALOG, "graph");
    assert rules[0] == own[0] == own[1] == rules[1];
  }

  /** A role that states one predicate twice gives one rule twice. */
  lemma RepeatedPredicateRejected()
    ensures RejectedLater([LONE_DRAFT], "q", Always(OutputPlan([], ["r"])), CATALOG)
  {
    CatalogIsValid();
    var plan := OutputPlan([], ["r"]);
    LoneDraftOk();
    AloneAccepted(LONE_DRAFT, "q");
    AlwaysParses(plan, "graph");
    RepeatedRule(CompilePlan(plan, CATALOG, "graph"));
    RejectedIfUnclean([LONE_DRAFT], "q", Always(plan), CATALOG, 0);
  }

  // ---- an alias with a dot ----

  lemma PairOrder(first: Route, second: Route)
    requires first.dependsOn == [] && second.dependsOn == [first.id] && first.id != second.id
    ensures Waves([first, second], {}) == Some([first, second])
  {
    var items := [first, second];
    assert items[1..] == [second] && [second][1..] == [];
    assert first in items && second in items;
    assert Ids(items) == {first.id, second.id};
    assert first.id in second.dependsOn;
    assert Wave([second], {}) == Wave([], {});
    assert Wave(items, {}) == [first] + Wave([second], {}) == [first];
    assert Ids([first]) == {first.id} && Ids([second]) == {second.id};
    assert Wave([second], {first.id}) == [second] + Wave([], {first.id}) == [second];
    assert Wave(items, {first.id}) == [] + Wave([second], {first.id}) == [second];
    OneWave(items, {});
    OneWave(items, {first.id});
    assert {} + Ids([first]) == {first.id} && {first.id} + Ids([second]) == Ids(items);
    assert Waves(items, Ids(items)) == Some([]);
    assert [first] + ([second] + []) == items;
  }

  const READER: Draft := Draft("s", "sql", "q", ["g"], [], [BindingDraft("y", "g.a", "b")])

  const READ: Binding := CompileBinding(BindingDraft("y", "g.a", "b"))

  lemma ReadHasTwoDots()
    ensures ProducerOf(READ) == "g" && AliasOf(READ) == "a.b" && Dots(READ.source) == 2
  {
    var source := "g.a" + "." + "b";
    assert source == "g" + "." + "a.b";
    SplitAtFirstDot("g", "a.b");
    assert "a.b" == "a" + "." + "b";
    SplitAtFirstDot("a", "b");
    assert "b"[1..] == "";
    assert Dots("b") == 0;
  }

  lemma DraftsOk()
    ensures DraftOk(LONE_DRAFT, CATALOG.sharedJoinAliases) && DraftOk(READER, CATALOG.sharedJoinAliases)
  {
    assert !IsSpace("q"[0]) && !IsSpace("g"[0]);
    LoneDraftOk();
  }

  /** A consumer of one alias of one producer. */
  ghost predicate Consumes(g: Route, r: Route, b: Binding, owned: Ownership) {
    && g.id != r.id && g.tool != r.tool && g.dependsOn == [] && g.inputBindings == []
    && r.dependsOn == [g.id] && r.inputBindings == [b] && ProducerOf(b) == g.id && AliasOf(b) in owned(g.tool)
    && g.joinKeys == r.joinKeys
  }

  lemma PairLinked(g: Route, r: Route, b: Binding, owned: Ownership)
    requires Consumes(g, r, b, owned)
    ensures Linked(g, [g, r], OwnedBy(owned)) && Linked(r, [g, r], OwnedBy(owned))
  {
    assert g in [g, r];
    assert r.inputBindings[0] in r.inputBindings;
    assert g.id in r.dependsOn;
    assert OwnedBy(owned)(g) == owned(g.tool);
  }

  lemma PairOrderable(g: Route, r: Route, b: Binding, owned: Ownership)
    requires Consumes(g, r, b, owned)
    ensures Orderable([g, r], OwnedBy(owned))
  {
    PairOrder(g, r);
    PairLinked(g, r, b, owned);
    assert Tools([g, r]) == [g.tool, r.tool];
  }

  lemma PairAccepted()
    ensures RouteAccepted([LONE_DRAFT, READER], CATALOG)
    ensures Restored([LONE_DRAFT, READER], "q", CATALOG) == [CompiledDraft(LONE_DRAFT), CompiledDraft(READER)]
  {
    var g, r := CompiledDraft(LONE_DRAFT), CompiledDraft(READER);
    assert r.inputBindings == [READ];
    DraftsOk();
    ReadHasTwoDots();
    assert g.id[0] != r.id[0] && g.tool[0] != r.tool[0];
    PairOrderable(g, r, READ, CATALOG.Allowed);
    PairOrder(g, r);
    assert CompiledDrafts([LONE_DRAFT, READER]) == [g, r];
    ValidateRouteIff([LONE_DRAFT, READER], CATALOG.sharedJoinAliases, CATALOG.Allowed);
  }

  /** A draft may put a dot into the producer's id; the alias read behind it then has one too. */
  lemma DottedAliasRejected()
    ensures RejectedLater([LONE_DRAFT, READER], "q", Always(OutputPlan(["x"], [])), CATALOG)
  {
    CatalogIsValid();
    PairAccepted();
    AlwaysParses(OutputPlan(["x"], []), "graph");
    AlwaysParses(OutputPlan(["x"], []), "sql");
    ReadHasTwoDots();
    assert CompiledDraft(READER).inputBindings[0] == READ;
    RejectedIfUnclean([LONE_DRAFT, READER], "q", Always(OutputPlan(["x"], [])), CATALOG, 1);
  }
}
