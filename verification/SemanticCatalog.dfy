/** Compiles the two source schemas and the declared ontology into the catalog that planning relies on. */
module SemanticCatalog {
  import opened Wrappers
  import opened Text
  import opened Collections
  import opened Planning
  import opened PlanOutputs

  datatype ValueType = Identity | Name | Scalar | PathValue

  datatype Kind = Physical | OutputRole | Aggregate | Derived | PathConcept

  datatype AliasSpec = AliasSpec(kind: Kind, valueType: ValueType, paths: seq<string>, ordersPath: bool)

  type Table = map<string, AliasSpec>

  // ---- what the schemas and the ontology declare ----

  /** A field of a source, with the output aliases its schema gives it. */
  datatype Field = Field(path: string, aliases: seq<string>, identity: bool)

  /** A declared alias: the output role of some fields, or a business concept over the aliases that its
      inputs, its grain and its predicates use. */
  datatype Declared =
    | Role(alias: string, valueType: ValueType, mappings: map<string, seq<string>>)
    | Concept(alias: string, kind: Kind, sources: seq<string>, uses: seq<string>, ordersPath: bool)
  {
    predicate InSource(s: string) {
      match this
      case Role(_, _, mappings) => s in mappings && mappings[s] != []
      case Concept(_, _, sources, _, _) => s in sources
    }

    function SpecIn(s: string): AliasSpec
      requires InSource(s)
    {
      match this
      case Role(_, valueType, mappings) => AliasSpec(OutputRole, valueType, mappings[s], false)
      case Concept(_, kind, _, _, ordersPath) =>
        AliasSpec(kind, if kind == PathConcept then PathValue else Scalar, [], ordersPath)
    }
  }

  datatype RoleDefinition = RoleDefinition(id: string, role: EntityRole)

  datatype ShapeSource = ShapeSource(contract: Contract, rowGrain: seq<string>)

  /** The fields of both sources; output roles followed by business concepts; and what refers to them. */
  datatype Ontology = Ontology(
    sql: seq<Field>,
    graph: seq<Field>,
    declared: seq<Declared>,
    entityRoles: seq<RoleDefinition>,
    shapes: seq<map<string, ShapeSource>>,
    transforms: seq<map<string, seq<string>>>)
  {
    /** What the checks on each definition alone have established. */
    ghost predicate Defined() {
      && (forall f :: f in sql || f in graph ==> FieldDefined(f))
      && (forall d :: d in declared ==> !IsBlank(d.alias))
      && (forall d :: d in declared && d.Concept? ==> d.kind in {Aggregate, Derived, PathConcept})
      && (forall i, j :: 0 <= i < j < |entityRoles| ==> entityRoles[i].id != entityRoles[j].id)
      && (forall r :: r in entityRoles ==> RoleDefined(r.role))
      && (forall i :: 0 <= i < |shapes| ==> ShapeDefined(shapes[i]))
      && (forall t :: t in transforms ==> t.Keys == SUPPORTED_TOOLS)
    }
  }

  predicate RoleDefined(role: EntityRole) {
    && role.projections.Keys <= SUPPORTED_TOOLS && role.predicates.Keys <= role.projections.Keys
    && forall s :: s in role.projections ==> role.projections[s].keys != []
  }

  predicate FieldDefined(f: Field) { NoDuplicates(f.aliases) && forall a :: a in f.aliases ==> !IsBlank(a) }

  predicate ShapeDefined(shape: map<string, ShapeSource>) {
    shape.Keys <= SUPPORTED_TOOLS && forall s :: s in shape ==> GroupsDefined(shape[s].contract)
  }

  predicate GroupsDefined(c: Contract) {
    forall g, a :: g in c.completionGroups && a in g ==> a in c.requiredOutputs
  }

  // ---- the table of one source ----

  /** The aliases of the fields. */
  function AliasesOf(fields: seq<Field>): set<string> {
    set i, j | 0 <= i < |fields| && 0 <= j < |fields[i].aliases| :: fields[i].aliases[j]
  }

  function FieldPaths(fields: seq<Field>): set<string> { set f | f in fields :: f.path }

  /** The paths of the fields that `alias` names. */
  function PathsNamed(fields: seq<Field>, alias: string): seq<string> {
    if fields == [] then []
    else PathsNamed(fields[..|fields| - 1], alias)
         + (if alias in fields[|fields| - 1].aliases then [fields[|fields| - 1].path] else [])
  }

  /** An alias of fields is an identity as soon as one of them is. */
  function PhysicalSpec(fields: seq<Field>, alias: string): AliasSpec {
    var identity := exists f :: f in fields && alias in f.aliases && f.identity;
    AliasSpec(Physical, if identity then Identity else Scalar, PathsNamed(fields, alias), false)
  }

  function PhysicalTable(fields: seq<Field>): Table { map a | a in AliasesOf(fields) :: PhysicalSpec(fields, a) }

  /** The table once the first declarations are in. */
  function TableOf(fields: seq<Field>, declared: seq<Declared>, s: string): Table {
    if declared == [] then PhysicalTable(fields)
    else
      var before, last := TableOf(fields, declared[..|declared| - 1], s), declared[|declared| - 1];
      if last.InSource(s) then before[last.alias := last.SpecIn(s)] else before
  }

  /** The aliases of the fields and of the declarations. */
  function Known(fields: seq<Field>, declared: seq<Declared>, s: string): set<string> {
    AliasesOf(fields) + set d | d in declared && d.InSource(s) :: d.alias
  }

  /** A declaration fits behind what is known: a new alias, over fields or aliases that exist. */
  predicate Fits(d: Declared, s: string, known: set<string>, paths: set<string>)
    requires d.InSource(s)
  {
    && d.alias !in known
    && match d
       case Role(_, _, mappings) => forall p :: p in mappings[s] ==> p in paths
       case Concept(_, _, _, uses, _) => forall a :: a in uses ==> a in known
  }

  /** Declaration `i` fits behind the ones before it. */
  ghost predicate FitsAt(fields: seq<Field>, declared: seq<Declared>, s: string, i: nat)
    requires i < |declared|
  {
    declared[i].InSource(s) ==> Fits(declared[i], s, Known(fields, declared[..i], s), FieldPaths(fields))
  }

  lemma {:induction false} TableKeys(fields: seq<Field>, declared: seq<Declared>, s: string)
    ensures TableOf(fields, declared, s).Keys == Known(fields, declared, s)
  {
    if declared != [] {
      var front, last := declared[..|declared| - 1], declared[|declared| - 1];
      TableKeys(fields, front, s);
      assert declared == front + [last];
    }
  }

  function IdentitiesOf(table: Table): set<string> { set a | a in table && table[a].valueType == Identity }

  /** What naming one more field by `alias` makes of it. */
  function Merged(table: Table, alias: string, f: Field): AliasSpec {
    if alias !in table then AliasSpec(Physical, if f.identity then Identity else Scalar, [f.path], false)
    else
      var e := table[alias];
      AliasSpec(Physical, if f.identity || e.valueType == Identity then Identity else e.valueType,
                e.paths + [f.path], false)
  }

  lemma AliasesSnoc(front: seq<Field>, f: Field)
    ensures AliasesOf(front + [f]) == AliasesOf(front) + set a | a in f.aliases
  {
    var fields := front + [f];
    forall a ensures a in AliasesOf(fields) <==> a in AliasesOf(front) || a in f.aliases {
      if a in AliasesOf(front) {
        var i, j :| 0 <= i < |front| && 0 <= j < |front[i].aliases| && front[i].aliases[j] == a;
        assert fields[i] == front[i];
      } else if a in f.aliases {
        assert fields[|front|] == f;
      }
    }
  }

  lemma {:induction false} PathsNamedByNone(fields: seq<Field>, alias: string)
    requires alias !in AliasesOf(fields)
    ensures PathsNamed(fields, alias) == [] && forall f :: f in fields ==> alias !in f.aliases
  {
    if fields != [] {
      var front, last := fields[..|fields| - 1], fields[|fields| - 1];
      assert fields == front + [last];
      AliasesSnoc(front, last);
      PathsNamedByNone(front, alias);
    }
  }

  lemma PhysicalSnoc(front: seq<Field>, f: Field, a: string)
    ensures PhysicalSpec(front + [f], a) ==
      if a in f.aliases then Merged(PhysicalTable(front), a, f) else PhysicalSpec(front, a)
  {
    var fields := front + [f];
    assert fields[..|front|] == front;
    assert forall g :: g in fields <==> g in front || g == f;
    if a !in AliasesOf(front) {
      PathsNamedByNone(front, a);
    }
  }

  /** The table of `front` with the first aliases of one more field merged in. */
  ghost predicate PartlyMerged(table: Table, front: seq<Field>, f: Field, done: seq<string>) {
    && table.Keys == AliasesOf(front) + (set a | a in done)
    && forall a :: a in table ==>
        table[a] == if a in done then Merged(PhysicalTable(front), a, f) else PhysicalSpec(front, a)
  }

  lemma MergeNext(table: Table, front: seq<Field>, f: Field, done: seq<string>, a: string)
    requires PartlyMerged(table, front, f, done) && a !in done
    ensures PartlyMerged(table[a := Merged(table, a, f)], front, f, done + [a])
  {
    assert (set b | b in done + [a]) == (set b | b in done) + {a};
  }

  lemma IdentityMerged(table: Table, a: string, f: Field)
    ensures IdentitiesOf(table[a := Merged(table, a, f)]) ==
      if f.identity then IdentitiesOf(table) + {a} else IdentitiesOf(table)
  {
  }

  lemma FullyMerged(table: Table, front: seq<Field>, f: Field)
    requires PartlyMerged(table, front, f, f.aliases)
    ensures table == PhysicalTable(front + [f])
  {
    AliasesSnoc(front, f);
    forall a | a in table ensures table[a] == PhysicalSpec(front + [f], a) {
      PhysicalSnoc(front, f, a);
    }
  }

  /** Merges the output aliases of every field of a source, and notes the identities. */
  method CompilePhysical(fields: seq<Field>) returns (table: Table, identities: set<string>)
    requires forall f :: f in fields ==> NoDuplicates(f.aliases)
    ensures table == PhysicalTable(fields) && identities == IdentitiesOf(table)
  {
    table, identities := map[], {};
    for i := 0 to |fields|
      invariant table == PhysicalTable(fields[..i]) && identities == IdentitiesOf(table)
    {
      var f := fields[i];
      for j := 0 to |f.aliases|
        invariant PartlyMerged(table, fields[..i], f, f.aliases[..j]) && identities == IdentitiesOf(table)
      {
        var a := f.aliases[j];
        assert a !in f.aliases[..j] && f.aliases[..j + 1] == f.aliases[..j] + [a];
        MergeNext(table, fields[..i], f, f.aliases[..j], a);
        IdentityMerged(table, a, f);
        table := table[a := Merged(table, a, f)];
        if f.identity {
          identities := identities + {a};
        }
      }
      assert f.aliases[..|f.aliases|] == f.aliases;
      assert fields[..i + 1] == fields[..i] + [f];
      FullyMerged(table, fields[..i], f);
    }
    assert fields[..|fields|] == fields;
  }

  // ---- output roles and business concepts ----

  /** What is compiled for one source: its table and the identities noted on the way. */
  datatype Compiled = Compiled(table: Table, identities: set<string>)

  /** The table of `s` holds the fields and the first `n` declarations, and each of those fits. */
  ghost predicate Declares(fields: seq<Field>, declared: seq<Declared>, s: string, n: nat, c: Compiled) {
    && n <= |declared| && c.table == TableOf(fields, declared[..n], s) && c.identities == IdentitiesOf(c.table)
    && forall i :: 0 <= i < n ==> FitsAt(fields, declared, s, i)
  }

  lemma TableSnoc(fields: seq<Field>, declared: seq<Declared>, s: string, n: nat)
    requires n < |declared|
    ensures
      var before, d := TableOf(fields, declared[..n], s), declared[n];
      && before.Keys == Known(fields, declared[..n], s)
      && TableOf(fields, declared[..n + 1], s) == if d.InSource(s) then before[d.alias := d.SpecIn(s)] else before
  {
    TableKeys(fields, declared[..n], s);
    assert declared[..n + 1][..n] == declared[..n];
  }

  lemma IdentityAdded(table: Table, alias: string, spec: AliasSpec)
    requires alias !in table
    ensures IdentitiesOf(table[alias := spec]) ==
      if spec.valueType == Identity then IdentitiesOf(table) + {alias} else IdentitiesOf(table)
  {
  }

  /** Adds one declaration to the table of one source. */
  method DeclareIn(fields: seq<Field>, declared: seq<Declared>, s: string, i: nat, c: Compiled)
      returns (r: Option<Compiled>)
    requires i < |declared| && Declares(fields, declared, s, i, c)
    ensures r.Some? <==> FitsAt(fields, declared, s, i)
    ensures r.Some? ==> Declares(fields, declared, s, i + 1, r.value)
  {
    var d := declared[i];
    TableSnoc(fields, declared, s, i);
    if !d.InSource(s) {
      return Some(c);
    }
    if !Fits(d, s, c.table.Keys, FieldPaths(fields)) {
      return None;
    }
    var spec := d.SpecIn(s);
    IdentityAdded(c.table, d.alias, spec);
    r := Some(Compiled(c.table[d.alias := spec],
                       if spec.valueType == Identity then c.identities + {d.alias} else c.identities));
  }

  /** Every declaration fits in both sources. */
  ghost predicate AllFit(o: Ontology) {
    forall i :: 0 <= i < |o.declared| ==> FitsAt(o.sql, o.declared, "sql", i) && FitsAt(o.graph, o.declared, "graph", i)
  }

  /** Adds the output roles and then the business concepts to the tables of both sources. */
  method CompileDeclared(o: Ontology) returns (r: Option<(Compiled, Compiled)>)
    requires o.Defined()
    ensures r.Some? <==> AllFit(o)
    ensures r.Some? ==>
      && Declares(o.sql, o.declared, "sql", |o.declared|, r.value.0)
      && Declares(o.graph, o.declared, "graph", |o.declared|, r.value.1)
  {
    var sqlTable, sqlIdentities := CompilePhysical(o.sql);
    var graphTable, graphIdentities := CompilePhysical(o.graph);
    var sql, graph := Compiled(sqlTable, sqlIdentities), Compiled(graphTable, graphIdentities);
    for i := 0 to |o.declared|
      invariant Declares(o.sql, o.declared, "sql", i, sql) && Declares(o.graph, o.declared, "graph", i, graph)
    {
      var sql' := DeclareIn(o.sql, o.declared, "sql", i, sql);
      var graph' := DeclareIn(o.graph, o.declared, "graph", i, graph);
      if sql'.None? || graph'.None? {
        return None;
      }
      sql, graph := sql'.value, graph'.value;
    }
    r := Some((sql, graph));
  }

  // ---- entity roles ----

  /** The owner of a field path: the part before its last dot. */
  function OwnerOf(path: string): string {
    if '.' !in path then path
    else if path[|path| - 1] == '.' then path[..|path| - 1]
    else OwnerOf(path[..|path| - 1])
  }

  function Owners(spec: AliasSpec): set<string> { set p | p in spec.paths :: OwnerOf(p) }

  /** The owners that all the keys share. */
  function SharedOwners(table: Table, keys: seq<string>): set<string>
    requires keys != [] && forall k :: k in keys ==> k in table
  {
    set owner | owner in Owners(table[keys[0]]) && forall k :: k in keys ==> owner in Owners(table[k])
  }

  predicate IsLabel(spec: AliasSpec) {
    spec.valueType !in {Identity, PathValue} && spec.kind !in {Aggregate, Derived, PathConcept}
  }

  /** Keys are identities with a common owner, and labels describe one of those owners. */
  predicate ProjectionFits(table: Table, p: Projection)
    requires p.keys != []
  {
    && (forall a :: a in p.DisplayAliases() ==> a in table)
    && (forall a :: a in p.keys ==> table[a].valueType == Identity)
    && (forall a :: a in p.labels ==> IsLabel(table[a]))
    && SharedOwners(table, p.keys) != {}
    && (forall a :: a in p.labels ==> Owners(table[a]) * SharedOwners(table, p.keys) != {})
  }

  /** The table with the scalars among the labels marked as names. */
  function Named(table: Table, labels: seq<string>): Table {
    map a | a in table ::
      if a in labels && table[a].valueType == Scalar then table[a].(valueType := Name) else table[a]
  }

  method MarkNames(table: Table, labels: seq<string>) returns (named: Table)
    requires forall a :: a in labels ==> a in table
    ensures named == Named(table, labels)
  {
    named := table;
    for i := 0 to |labels|
      invariant named == Named(table, labels[..i])
    {
      if named[labels[i]].valueType == Scalar {
        named := named[labels[i] := named[labels[i]].(valueType := Name)];
      }
    }
    assert labels[..|labels|] == labels;
  }

  /** `u` is `t` with some scalars marked as names. */
  ghost predicate Renamed(t: Table, u: Table) {
    && u.Keys == t.Keys
    && forall a :: a in t ==> u[a] == t[a] || (t[a].valueType == Scalar && u[a] == t[a].(valueType := Name))
  }

  lemma RenamedFits(t: Table, u: Table, p: Projection)
    requires Renamed(t, u) && p.keys != []
    ensures ProjectionFits(u, p) <==> ProjectionFits(t, p)
  {
    if forall k :: k in p.keys ==> k in t {
      assert SharedOwners(u, p.keys) == SharedOwners(t, p.keys);
    }
  }

  /** The role's projection fits the table of `s`, which has the fields of its predicates. */
  predicate RoleFits(table: Table, role: EntityRole, s: string)
    requires RoleDefined(role)
  {
    && (s in role.projections ==> ProjectionFits(table, role.projections[s]))
    && (s in role.predicates ==> forall q :: q in role.predicates[s] ==> q.field in table)
  }

  /** Checks a role against the table of one source and marks its labels there. */
  method RoleIn(declared: Table, table: Table, role: EntityRole, s: string) returns (r: Option<Table>)
    requires RoleDefined(role) && Renamed(declared, table)
    ensures r.Some? <==> RoleFits(declared, role, s)
    ensures r.Some? ==> Renamed(declared, r.value)
  {
    var named := table;
    if s in role.projections {
      RenamedFits(declared, table, role.projections[s]);
      if !ProjectionFits(table, role.projections[s]) {
        return None;
      }
      named := MarkNames(table, role.projections[s].labels);
    }
    if s in role.predicates && exists q :: q in role.predicates[s] && q.field !in named {
      return None;
    }
    r := Some(named);
  }

  function RolesOf(definitions: seq<RoleDefinition>): map<string, EntityRole> {
    if definitions == [] then map[]
    else
      var last := definitions[|definitions| - 1];
      RolesOf(definitions[..|definitions| - 1])[last.id := last.role]
  }

  /** Compiles the entity roles; labels of one may be labels of another. */
  method CompileRoles(o: Ontology, sqlTable: Table, graphTable: Table)
      returns (r: Option<(map<string, EntityRole>, Table, Table)>)
    requires o.Defined()
    ensures r.Some? <==> forall d :: d in o.entityRoles ==>
      RoleFits(sqlTable, d.role, "sql") && RoleFits(graphTable, d.role, "graph")
    ensures r.Some? ==>
      r.value.0 == RolesOf(o.entityRoles) && Renamed(sqlTable, r.value.1) && Renamed(graphTable, r.value.2)
  {
    var roles: map<string, EntityRole> := map[];
    var sql, graph := sqlTable, graphTable;
    for i := 0 to |o.entityRoles|
      invariant roles == RolesOf(o.entityRoles[..i]) && Renamed(sqlTable, sql) && Renamed(graphTable, graph)
      invariant forall k :: 0 <= k < i ==>
        RoleFits(sqlTable, o.entityRoles[k].role, "sql") && RoleFits(graphTable, o.entityRoles[k].role, "graph")
    {
      var d := o.entityRoles[i];
      var sql' := RoleIn(sqlTable, sql, d.role, "sql");
      var graph' := RoleIn(graphTable, graph, d.role, "graph");
      if sql'.None? || graph'.None? {
        return None;
      }
      sql, graph := sql'.value, graph'.value;
      assert o.entityRoles[..i + 1][..i] == o.entityRoles[..i];
      roles := roles[d.id := d.role];
    }
    assert o.entityRoles[..|o.entityRoles|] == o.entityRoles;
    r := Some((roles, sql, graph));
  }

  // ---- the catalog ----

  predicate HasRoles(roles: map<string, EntityRole>, s: string) {
    exists id :: id in roles && s in roles[id].projections
  }

  /** A shape asks a source for roles it projects and aliases it owns. */
  predicate ShapeFits(shape: map<string, ShapeSource>, s: string, owned: set<string>, roles: map<string, EntityRole>) {
    s in shape ==>
      && (forall id :: id in shape[s].contract.displayEntities ==> id in roles && s in roles[id].projections)
      && (forall a :: a in shape[s].contract.requiredOutputs + shape[s].rowGrain ==> a in owned)
  }

  predicate TransformFits(transform: map<string, seq<string>>, s: string, owned: set<string>)
    requires s in transform
  {
    forall a :: a in transform[s] ==> a in owned
  }

  ghost predicate AllShapesFit(o: Ontology, sql: set<string>, graph: set<string>, roles: map<string, EntityRole>) {
    forall i :: 0 <= i < |o.shapes| ==>
      ShapeFits(o.shapes[i], "sql", sql, roles) && ShapeFits(o.shapes[i], "graph", graph, roles)
  }

  ghost predicate AllTransformsFit(o: Ontology, sql: set<string>, graph: set<string>)
    requires o.Defined()
  {
    forall i :: 0 <= i < |o.transforms| ==>
      TransformFits(o.transforms[i], "sql", sql) && TransformFits(o.transforms[i], "graph", graph)
  }

  ghost predicate AllRolesFit(o: Ontology, sql: Table, graph: Table)
    requires o.Defined()
  {
    forall d :: d in o.entityRoles ==> RoleFits(sql, d.role, "sql") && RoleFits(graph, d.role, "graph")
  }

  /** Everything that refers to the two tables finds what it refers to. */
  ghost predicate ReferencesFit(o: Ontology, sql: Table, graph: Table)
    requires o.Defined()
  {
    var roles := RolesOf(o.entityRoles);
    && AllRolesFit(o, sql, graph) && HasRoles(roles, "sql") && HasRoles(roles, "graph")
    && AllShapesFit(o, sql.Keys, graph.Keys, roles) && AllTransformsFit(o, sql.Keys, graph.Keys)
  }

  function OrderedPathsOf(table: Table): set<string> { set a | a in table && table[a].ordersPath }

  method CheckShapes(o: Ontology, sql: set<string>, graph: set<string>, roles: map<string, EntityRole>)
      returns (ok: bool)
    ensures ok <==> AllShapesFit(o, sql, graph, roles)
  {
    for i := 0 to |o.shapes|
      invariant forall k :: 0 <= k < i ==>
        ShapeFits(o.shapes[k], "sql", sql, roles) && ShapeFits(o.shapes[k], "graph", graph, roles)
    {
      if !ShapeFits(o.shapes[i], "sql", sql, roles) || !ShapeFits(o.shapes[i], "graph", graph, roles) {
        return false;
      }
    }
    ok := true;
  }

  method CheckTransforms(o: Ontology, sql: set<string>, graph: set<string>) returns (ok: bool)
    requires o.Defined()
    ensures ok <==> AllTransformsFit(o, sql, graph)
  {
    for i := 0 to |o.transforms|
      invariant forall k :: 0 <= k < i ==>
        TransformFits(o.transforms[k], "sql", sql) && TransformFits(o.transforms[k], "graph", graph)
    {
      if !TransformFits(o.transforms[i], "sql", sql) || !TransformFits(o.transforms[i], "graph", graph) {
        return false;
      }
    }
    ok := true;
  }

  /** Compiles what refers to the two tables, marking labels in them. */
  method CompileReferences(o: Ontology, sql: Table, graph: Table)
      returns (r: Option<(map<string, EntityRole>, Table, Table)>)
    requires o.Defined()
    ensures r.Some? <==> ReferencesFit(o, sql, graph)
    ensures r.Some? ==>
      r.value.0 == RolesOf(o.entityRoles) && Renamed(sql, r.value.1) && Renamed(graph, r.value.2)
  {
    r := CompileRoles(o, sql, graph);
    if r.None? {
      return;
    }
    var (roles, sql', graph') := r.value;
    if !HasRoles(roles, "sql") || !HasRoles(roles, "graph") {
      return None;
    }
    var shapesFit := CheckShapes(o, sql'.Keys, graph'.Keys, roles);
    if !shapesFit {
      return None;
    }
    var transformsFit := CheckTransforms(o, sql'.Keys, graph'.Keys);
    if !transformsFit {
      return None;
    }
  }

  /** The table of one source with all declarations in. */
  function TableFor(o: Ontology, s: string): Table {
    TableOf(if s == "sql" then o.sql else o.graph, o.declared, s)
  }

  /** Which ontologies compile. */
  ghost predicate Compiles(o: Ontology)
    requires o.Defined()
  {
    var sql, graph := TableFor(o, "sql"), TableFor(o, "graph");
    AllFit(o) && ReferencesFit(o, sql, graph) && IdentitiesOf(sql) * IdentitiesOf(graph) != {}
  }

  function Summary(sql: Table, graph: Table, shared: set<string>, roles: map<string, EntityRole>): Catalog {
    Catalog(map["sql" := sql.Keys, "graph" := graph.Keys], OrderedPathsOf(graph), shared, roles)
  }

  /** The catalog of an ontology. */
  function CatalogOf(o: Ontology): Catalog {
    var sql, graph := TableFor(o, "sql"), TableFor(o, "graph");
    Summary(sql, graph, IdentitiesOf(sql) * IdentitiesOf(graph), RolesOf(o.entityRoles))
  }

  lemma RenamedSummary(sql: Table, sql': Table, graph: Table, graph': Table, shared: set<string>,
      roles: map<string, EntityRole>)
    requires Renamed(sql, sql') && Renamed(graph, graph')
    ensures Summary(sql', graph', shared, roles) == Summary(sql, graph, shared, roles)
  {
    assert OrderedPathsOf(graph') == OrderedPathsOf(graph);
  }

  /** Compiles the schemas and the ontology, or finds that they do not fit together. */
  method BuildCatalog(o: Ontology) returns (r: Option<Catalog>)
    requires o.Defined()
    ensures r.Some? <==> Compiles(o)
    ensures r.Some? ==> r.value == CatalogOf(o)
  {
    var declared := CompileDeclared(o);
    if declared.None? {
      return None;
    }
    var (sql, graph) := declared.value;
    assert o.declared[..|o.declared|] == o.declared;
    var compiled := CompileReferences(o, sql.table, graph.table);
    if compiled.None? || sql.identities == {} || graph.identities == {} {
      return None;
    }
    var shared := sql.identities * graph.identities;
    if shared == {} {
      return None;
    }
    var (roles, sql', graph') := compiled.value;
    RenamedSummary(sql.table, sql', graph.table, graph', shared, roles);
    r := Some(Summary(sql', graph', shared, roles));
  }

  // ---- what compiling guarantees ----

  lemma {:induction false} RolesCome(definitions: seq<RoleDefinition>, id: string)
    requires id in RolesOf(definitions)
    ensures exists d :: d in definitions && d.id == id && d.role == RolesOf(definitions)[id]
  {
    var front, last := definitions[..|definitions| - 1], definitions[|definitions| - 1];
    assert definitions == front + [last];
    if id != last.id {
      RolesCome(front, id);
    }
  }

  /** No source owns a blank alias. */
  lemma KnownNotBlank(o: Ontology, fields: seq<Field>, s: string, a: string)
    requires o.Defined() && (forall f :: f in fields ==> FieldDefined(f)) && a in Known(fields, o.declared, s)
    ensures !IsBlank(a)
  {
    if a in AliasesOf(fields) {
      var i, j :| 0 <= i < |fields| && 0 <= j < |fields[i].aliases| && fields[i].aliases[j] == a;
      assert FieldDefined(fields[i]);
    }
  }

  /** Each source owns the aliases of its table. */
  lemma OwnsItsTable(o: Ontology, s: string)
    requires s in SUPPORTED_TOOLS
    ensures CatalogOf(o).Allowed(s) == TableFor(o, s).Keys
  {
  }

  lemma OwnedNotBlank(o: Ontology, s: string, a: string)
    requires o.Defined() && a in TableFor(o, s)
    ensures !IsBlank(a)
  {
    var fields := if s == "sql" then o.sql else o.graph;
    TableKeys(fields, o.declared, s);
    KnownNotBlank(o, fields, s, a);
  }

  /** What a compiled ontology guarantees: each role projects owned, non-blank aliases with at least one
      key; every shape asks only for what its source has; and there is an alias to join on. */
  lemma CompiledCatalogIsValid(o: Ontology)
    requires o.Defined() && Compiles(o)
    ensures CatalogOf(o).Valid()
    ensures forall i, s :: 0 <= i < |o.shapes| && s in o.shapes[i] ==>
      CatalogOf(o).ValidContract(o.shapes[i][s].contract, s)
    ensures CatalogOf(o).sharedJoinAliases != {}
  {
    var catalog := CatalogOf(o);
    forall id, s | id in catalog.entityRoles && s in catalog.entityRoles[id].projections
      ensures catalog.ValidProjection(catalog.Identity(id, s), s)
    {
      RoleIsValid(o, id, s);
    }
    forall i, s | 0 <= i < |o.shapes| && s in o.shapes[i]
      ensures catalog.ValidContract(o.shapes[i][s].contract, s)
    {
      ShapeIsValid(o, i, s);
    }
  }

  lemma ProjectionIsOwned(table: Table, role: EntityRole, s: string)
    requires RoleDefined(role) && RoleFits(table, role, s) && s in role.projections
    ensures role.projections[s].keys != []
    ensures forall a :: a in role.projections[s].DisplayAliases() ==> a in table.Keys
  {
  }

  lemma RoleIsDefined(o: Ontology, sql: Table, graph: Table, id: string)
    requires o.Defined() && AllRolesFit(o, sql, graph) && id in RolesOf(o.entityRoles)
    ensures RoleDefined(RolesOf(o.entityRoles)[id])
    ensures RoleFits(sql, RolesOf(o.entityRoles)[id], "sql") && RoleFits(graph, RolesOf(o.entityRoles)[id], "graph")
  {
    RolesCome(o.entityRoles, id);
  }

  lemma RoleProjects(o: Ontology, id: string, s: string)
    requires o.Defined() && AllRolesFit(o, TableFor(o, "sql"), TableFor(o, "graph"))
    requires id in RolesOf(o.entityRoles) && s in RolesOf(o.entityRoles)[id].projections
    ensures s in SUPPORTED_TOOLS
    ensures
      var p := RolesOf(o.entityRoles)[id].projections[s];
      p.keys != [] && forall a :: a in p.DisplayAliases() ==> a in TableFor(o, s) && !IsBlank(a)
  {
    var role := RolesOf(o.entityRoles)[id];
    RoleIsDefined(o, TableFor(o, "sql"), TableFor(o, "graph"), id);
    assert s in SUPPORTED_TOOLS;
    ProjectionIsOwned(TableFor(o, s), role, s);
    forall a | a in role.projections[s].DisplayAliases() ensures !IsBlank(a) {
      OwnedNotBlank(o, s, a);
    }
  }

  lemma RoleIsValid(o: Ontology, id: string, s: string)
    requires o.Defined() && Compiles(o) && CatalogOf(o).HasRole(id, s)
    ensures CatalogOf(o).ValidProjection(CatalogOf(o).Identity(id, s), s)
  {
    RoleProjects(o, id, s);
    OwnsItsTable(o, s);
  }

  lemma ShapeIsOwned(o: Ontology, i: nat, s: string)
    requires o.Defined() && i < |o.shapes| && s in o.shapes[i]
    requires AllShapesFit(o, TableFor(o, "sql").Keys, TableFor(o, "graph").Keys, RolesOf(o.entityRoles))
    ensures s in SUPPORTED_TOOLS && GroupsDefined(o.shapes[i][s].contract)
    ensures forall id :: id in o.shapes[i][s].contract.displayEntities ==>
      id in RolesOf(o.entityRoles) && s in RolesOf(o.entityRoles)[id].projections
    ensures forall a :: a in o.shapes[i][s].contract.requiredOutputs ==> a in TableFor(o, s) && !IsBlank(a)
  {
    assert ShapeDefined(o.shapes[i]);
    assert ShapeFits(o.shapes[i], s, TableFor(o, s).Keys, RolesOf(o.entityRoles));
    forall a | a in o.shapes[i][s].contract.requiredOutputs ensures a in TableFor(o, s) && !IsBlank(a) {
      assert a in o.shapes[i][s].contract.requiredOutputs + o.shapes[i][s].rowGrain;
      OwnedNotBlank(o, s, a);
    }
  }

  lemma ShapeIsValid(o: Ontology, i: nat, s: string)
    requires o.Defined() && Compiles(o) && i < |o.shapes| && s in o.shapes[i]
    ensures CatalogOf(o).ValidContract(o.shapes[i][s].contract, s)
  {
    ShapeIsOwned(o, i, s);
    OwnsItsTable(o, s);
  }
}
