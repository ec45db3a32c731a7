/** Which ontologies compile and what their catalog holds, told from the fields and declarations alone. */
module CatalogContents {
  import opened Wrappers
  import opened Text
  import opened Collections
  import opened Planning
  import opened PlanOutputs
  import opened SemanticCatalog

  // ---- where an alias of a source comes from ----

  /** The declaration adds an alias to the source. */
  ghost predicate DeclaredIn(d: Declared, s: string) {
    match d
    case Role(_, _, mappings) => s in mappings && mappings[s] != []
    case Concept(_, _, sources, _, _) => s in sources
  }

  ghost predicate FieldNamed(f: Field, fields: seq<Field>, alias: string) { f in fields && alias in f.aliases }

  ghost predicate Adds(d: Declared, declared: seq<Declared>, s: string, alias: string) {
    d in declared && DeclaredIn(d, s) && d.alias == alias
  }

  /** Some field carries the alias, or some declaration adds it. */
  ghost predicate Owned(fields: seq<Field>, declared: seq<Declared>, s: string, alias: string) {
    (exists f :: FieldNamed(f, fields, alias)) || exists d :: Adds(d, declared, s, alias)
  }

  /** The alias names an identity: of a field, or of an output role declared as one. */
  ghost predicate Identifies(fields: seq<Field>, declared: seq<Declared>, s: string, alias: string) {
    || (exists f :: FieldNamed(f, fields, alias) && f.identity)
    || exists d :: Adds(d, declared, s, alias) && d.Role? && d.valueType == Identity
  }

  /** The alias stands for the field of this path. */
  ghost predicate StandsFor(fields: seq<Field>, declared: seq<Declared>, s: string, alias: string, path: string) {
    || (exists f :: FieldNamed(f, fields, alias) && f.path == path)
    || exists d :: Adds(d, declared, s, alias) && d.Role? && path in d.mappings[s]
  }

  /** The path is the owner's, with one more name after the last dot. */
  ghost predicate OwnerIs(path: string, owner: string) {
    if '.' in path then exists name :: '.' !in name && path == owner + "." + name else path == owner
  }

  ghost predicate OwnedBy(fields: seq<Field>, declared: seq<Declared>, s: string, alias: string, owner: string) {
    exists path :: StandsFor(fields, declared, s, alias, path) && OwnerIs(path, owner)
  }

  /** The alias may label an entity: a field that is no identity, or an output role of a plain value. */
  ghost predicate Labels(fields: seq<Field>, declared: seq<Declared>, s: string, alias: string) {
    || ((exists f :: FieldNamed(f, fields, alias)) && !exists f :: FieldNamed(f, fields, alias) && f.identity)
    || exists d :: Adds(d, declared, s, alias) && d.Role? && d.valueType in {Name, Scalar}
  }

  // ---- which ontologies compile ----

  /** A declaration brings a new alias, over fields that exist or aliases known before it. */
  ghost predicate BringsNew(fields: seq<Field>, declared: seq<Declared>, s: string, i: nat)
    requires i < |declared|
  {
    var d := declared[i];
    DeclaredIn(d, s) ==>
      && !Owned(fields, declared[..i], s, d.alias)
      && match d
         case Role(_, _, mappings) => forall path :: path in mappings[s] ==> exists f :: f in fields && f.path == path
         case Concept(_, _, _, uses, _) => forall a :: a in uses ==> Owned(fields, declared[..i], s, a)
  }

  ghost predicate KeysOwnedBy(fields: seq<Field>, declared: seq<Declared>, s: string, keys: seq<string>,
      owner: string)
  {
    forall k :: k in keys ==> OwnedBy(fields, declared, s, k, owner)
  }

  /** The keys are identities that share an owner; every label labels one of the owners they share. */
  ghost predicate Projects(fields: seq<Field>, declared: seq<Declared>, s: string, p: Projection) {
    && (forall k :: k in p.keys ==> Identifies(fields, declared, s, k))
    && (exists owner :: KeysOwnedBy(fields, declared, s, p.keys, owner))
    && forall a :: a in p.labels ==>
         Labels(fields, declared, s, a) && LabelsOwner(fields, declared, s, p.keys, a)
  }

  ghost predicate LabelsOwner(fields: seq<Field>, declared: seq<Declared>, s: string, keys: seq<string>, a: string) {
    exists owner :: OwnedBy(fields, declared, s, a, owner) && KeysOwnedBy(fields, declared, s, keys, owner)
  }

  ghost predicate RoleStands(fields: seq<Field>, declared: seq<Declared>, s: string, role: EntityRole) {
    && (s in role.projections ==> Projects(fields, declared, s, role.projections[s]))
    && (s in role.predicates ==> forall q :: q in role.predicates[s] ==> Owned(fields, declared, s, q.field))
  }

  ghost predicate ProjectedBy(d: RoleDefinition, o: Ontology, s: string) {
    d in o.entityRoles && s in d.role.projections
  }

  /** A shape asks for roles that the source projects and for aliases that it owns. */
  ghost predicate ShapeStands(o: Ontology, fields: seq<Field>, s: string, asked: ShapeSource) {
    && (forall id :: id in asked.contract.displayEntities ==> exists d :: ProjectedBy(d, o, s) && d.id == id)
    && (forall a :: a in asked.contract.requiredOutputs ==> Owned(fields, o.declared, s, a))
    && forall a :: a in asked.rowGrain ==> Owned(fields, o.declared, s, a)
  }

  ghost predicate AllBringNew(fields: seq<Field>, declared: seq<Declared>, s: string) {
    forall i :: 0 <= i < |declared| ==> BringsNew(fields, declared, s, i)
  }

  ghost predicate RolesStand(o: Ontology, fields: seq<Field>, s: string) {
    forall d :: d in o.entityRoles ==> RoleStands(fields, o.declared, s, d.role)
  }

  ghost predicate ShapesStand(o: Ontology, fields: seq<Field>, s: string) {
    forall i :: 0 <= i < |o.shapes| && s in o.shapes[i] ==> ShapeStands(o, fields, s, o.shapes[i][s])
  }

  /** A transform asks for aliases that the source owns. */
  ghost predicate TransformsStand(o: Ontology, fields: seq<Field>, s: string) {
    forall i, a :: 0 <= i < |o.transforms| && s in o.transforms[i] && a in o.transforms[i][s] ==>
        Owned(fields, o.declared, s, a)
  }

  /** All that refers to one source finds what it refers to. */
  ghost predicate SourceStands(o: Ontology, fields: seq<Field>, s: string) {
    && AllBringNew(fields, o.declared, s) && RolesStand(o, fields, s) && (exists d :: ProjectedBy(d, o, s))
    && ShapesStand(o, fields, s) && TransformsStand(o, fields, s)
  }

  ghost predicate Shared(o: Ontology, alias: string) {
    Identifies(o.sql, o.declared, "sql", alias) && Identifies(o.graph, o.declared, "graph", alias)
  }

  // ---- the tables hold what was declared ----

  ghost predicate AllNew(fields: seq<Field>, declared: seq<Declared>, s: string) {
    forall i :: 0 <= i < |declared| ==> FitsAt(fields, declared, s, i)
  }

  lemma AliasIff(fields: seq<Field>, alias: string)
    ensures alias in AliasesOf(fields) <==> exists f :: FieldNamed(f, fields, alias)
  {
    if alias in AliasesOf(fields) {
      var i, j :| 0 <= i < |fields| && 0 <= j < |fields[i].aliases| && fields[i].aliases[j] == alias;
      assert FieldNamed(fields[i], fields, alias);
    }
    if f :| FieldNamed(f, fields, alias) {
      var i :| 0 <= i < |fields| && fields[i] == f;
      var j :| 0 <= j < |f.aliases| && f.aliases[j] == alias;
      assert fields[i].aliases[j] == alias;
    }
  }

  lemma KnownIff(fields: seq<Field>, declared: seq<Declared>, s: string, alias: string)
    ensures alias in Known(fields, declared, s) <==> Owned(fields, declared, s, alias)
    ensures alias in TableOf(fields, declared, s) <==> Owned(fields, declared, s, alias)
  {
    AliasIff(fields, alias);
    TableKeys(fields, declared, s);
    forall d ensures Adds(d, declared, s, alias) <==> d in declared && d.InSource(s) && d.alias == alias {
    }
  }

  lemma {:induction false} PathNamedIff(fields: seq<Field>, alias: string, path: string)
    ensures path in PathsNamed(fields, alias) <==> exists f :: FieldNamed(f, fields, alias) && f.path == path
  {
    if fields != [] {
      var front, last := fields[..|fields| - 1], fields[|fields| - 1];
      PathNamedIff(front, alias, path);
      assert fields == front + [last];
      assert forall f :: FieldNamed(f, fields, alias) <==>
          FieldNamed(f, front, alias) || (f == last && alias in f.aliases);
    }
  }

  lemma AllNewFront(fields: seq<Field>, front: seq<Declared>, last: Declared, s: string)
    requires AllNew(fields, front + [last], s)
    ensures AllNew(fields, front, s)
    ensures last.InSource(s) ==> Fits(last, s, Known(fields, front, s), FieldPaths(fields))
  {
    var declared := front + [last];
    forall i | 0 <= i < |front| ensures FitsAt(fields, front, s, i) {
      assert FitsAt(fields, declared, s, i) && declared[..i] == front[..i];
    }
    assert FitsAt(fields, declared, s, |front|) && declared[..|front|] == front;
  }

  /** The entry of an alias is that of its fields, or of the one declaration that adds it. */
  lemma {:induction false} EntryIs(fields: seq<Field>, declared: seq<Declared>, s: string, alias: string)
    requires AllNew(fields, declared, s)
    ensures alias in AliasesOf(fields) ==>
      && alias in TableOf(fields, declared, s) && TableOf(fields, declared, s)[alias] == PhysicalSpec(fields, alias)
      && forall d :: !Adds(d, declared, s, alias)
    ensures forall d :: Adds(d, declared, s, alias) ==>
      alias in TableOf(fields, declared, s) && TableOf(fields, declared, s)[alias] == d.SpecIn(s)
  {
    if declared != [] {
      var front, last := declared[..|declared| - 1], declared[|declared| - 1];
      assert declared == front + [last];
      AllNewFront(fields, front, last, s);
      EntryIs(fields, front, s, alias);
      KnownIff(fields, front, s, alias);
      AliasIff(fields, alias);
      assert forall d :: Adds(d, declared, s, alias) <==>
          Adds(d, front, s, alias) || (d == last && d.InSource(s) && d.alias == alias);
    }
  }

  lemma EntryMeans(fields: seq<Field>, declared: seq<Declared>, s: string, alias: string)
    requires AllNew(fields, declared, s) && NoPhysicalConcept(declared)
    ensures
      var t := TableOf(fields, declared, s);
      && (alias in t && t[alias].valueType == Identity <==> Identifies(fields, declared, s, alias))
      && (alias in t && IsLabel(t[alias]) <==> Labels(fields, declared, s, alias))
      && (alias in t && t[alias].ordersPath <==>
           exists d :: Adds(d, declared, s, alias) && d.Concept? && d.ordersPath)
  {
    var t := TableOf(fields, declared, s);
    EntryIs(fields, declared, s, alias);
    KnownIff(fields, declared, s, alias);
    AliasIff(fields, alias);
    if alias in t && alias !in AliasesOf(fields) {
      var d :| Adds(d, declared, s, alias);
      assert t[alias] == d.SpecIn(s);
      assert forall f :: !FieldNamed(f, fields, alias);
      assert forall e :: Adds(e, declared, s, alias) ==> e.SpecIn(s) == d.SpecIn(s);
    }
  }

  lemma EntryStandsFor(fields: seq<Field>, declared: seq<Declared>, s: string, alias: string, path: string)
    requires AllNew(fields, declared, s)
    ensures
      var t := TableOf(fields, declared, s);
      alias in t && path in t[alias].paths <==> StandsFor(fields, declared, s, alias, path)
  {
    var t := TableOf(fields, declared, s);
    EntryIs(fields, declared, s, alias);
    KnownIff(fields, declared, s, alias);
    AliasIff(fields, alias);
    PathNamedIff(fields, alias, path);
    if alias in t && alias !in AliasesOf(fields) {
      var d :| Adds(d, declared, s, alias);
      assert t[alias] == d.SpecIn(s);
      assert forall f :: !FieldNamed(f, fields, alias);
      assert forall e :: Adds(e, declared, s, alias) ==> e.SpecIn(s) == d.SpecIn(s);
    }
  }

  // ---- owners ----

  lemma {:induction false} OwnerOfIs(path: string, owner: string)
    ensures OwnerOf(path) == owner <==> OwnerIs(path, owner)
  {
    if '.' in path {
      var n := |path| - 1;
      var front, last := path[..n], path[n];
      assert path == front + [last];
      if last == '.' {
        if owner == front {
          assert path == owner + "." + "";
        }
        if name :| '.' !in name && path == owner + "." + name {
          LastDot(path, owner, name);
        }
      } else {
        OwnerOfIs(front, owner);
        OwnerExtends(front, last, owner);
      }
    }
  }

  /** What ends in a dot has nothing after its last dot. */
  lemma LastDot(path: string, owner: string, name: string)
    requires path != [] && path[|path| - 1] == '.' && '.' !in name && path == owner + "." + name
    ensures owner == path[..|path| - 1]
  {
  }

  lemma OwnerExtends(front: string, last: char, owner: string)
    requires last != '.' && '.' in front
    ensures OwnerIs(front, owner) <==> OwnerIs(front + [last], owner)
  {
    var path := front + [last];
    if name :| '.' !in name && front == owner + "." + name {
      assert path == owner + "." + (name + [last]);
    }
    if name :| '.' !in name && path == owner + "." + name {
      assert path[|owner|] == '.' && path[|path| - 1] == last;
      if name != [] {
        var shorter := name[..|name| - 1];
        assert name == shorter + [name[|name| - 1]];
        assert path == owner + "." + shorter + [name[|name| - 1]];
        assert path[..|path| - 1] == owner + "." + shorter;
      }
    }
  }

  lemma OwnersIff(fields: seq<Field>, declared: seq<Declared>, s: string, alias: string, owner: string)
    requires AllNew(fields, declared, s)
    ensures
      var t := TableOf(fields, declared, s);
      alias in t && owner in Owners(t[alias]) <==> OwnedBy(fields, declared, s, alias, owner)
  {
    var t := TableOf(fields, declared, s);
    forall path
      ensures alias in t && path in t[alias].paths <==> StandsFor(fields, declared, s, alias, path)
      ensures OwnerOf(path) == owner <==> OwnerIs(path, owner)
    {
      EntryStandsFor(fields, declared, s, alias, path);
      OwnerOfIs(path, owner);
    }
  }

  lemma SharedOwnersIff(fields: seq<Field>, declared: seq<Declared>, s: string, keys: seq<string>, owner: string)
    requires AllNew(fields, declared, s) && keys != [] && forall k :: k in keys ==> k in TableOf(fields, declared, s)
    ensures owner in SharedOwners(TableOf(fields, declared, s), keys) <==> KeysOwnedBy(fields, declared, s, keys, owner)
  {
    forall k | k in keys
      ensures owner in Owners(TableOf(fields, declared, s)[k]) <==> OwnedBy(fields, declared, s, k, owner)
    {
      OwnersIff(fields, declared, s, k, owner);
    }
    assert keys[0] in keys;
  }

  // ---- references ----

  ghost predicate NoPhysicalConcept(declared: seq<Declared>) {
    forall d :: d in declared && d.Concept? ==> d.kind != Physical && d.kind != OutputRole
  }

  lemma ProjectionIff(fields: seq<Field>, declared: seq<Declared>, s: string, p: Projection)
    requires AllNew(fields, declared, s) && NoPhysicalConcept(declared) && p.keys != []
    ensures ProjectionFits(TableOf(fields, declared, s), p) <==> Projects(fields, declared, s, p)
  {
    var t := TableOf(fields, declared, s);
    forall a
      ensures a in t && t[a].valueType == Identity <==> Identifies(fields, declared, s, a)
      ensures a in t && IsLabel(t[a]) <==> Labels(fields, declared, s, a)
    {
      EntryMeans(fields, declared, s, a);
    }
    if forall k :: k in p.keys ==> k in t {
      forall owner ensures owner in SharedOwners(t, p.keys) <==> KeysOwnedBy(fields, declared, s, p.keys, owner) {
        SharedOwnersIff(fields, declared, s, p.keys, owner);
      }
      forall a | a in p.labels && a in t
        ensures Owners(t[a]) * SharedOwners(t, p.keys) != {} <==> LabelsOwner(fields, declared, s, p.keys, a)
      {
        LabelOwnerIff(fields, declared, s, p.keys, a);
      }
    }
  }

  lemma LabelOwnerIff(fields: seq<Field>, declared: seq<Declared>, s: string, keys: seq<string>, a: string)
    requires AllNew(fields, declared, s) && keys != []
    requires a in TableOf(fields, declared, s) && forall k :: k in keys ==> k in TableOf(fields, declared, s)
    ensures
      var t := TableOf(fields, declared, s);
      Owners(t[a]) * SharedOwners(t, keys) != {} <==> LabelsOwner(fields, declared, s, keys, a)
  {
    var t := TableOf(fields, declared, s);
    forall owner
      ensures owner in Owners(t[a]) <==> OwnedBy(fields, declared, s, a, owner)
      ensures owner in SharedOwners(t, keys) <==> KeysOwnedBy(fields, declared, s, keys, owner)
    {
      OwnersIff(fields, declared, s, a, owner);
      SharedOwnersIff(fields, declared, s, keys, owner);
    }
    if owner :| owner in Owners(t[a]) * SharedOwners(t, keys) {
      assert OwnedBy(fields, declared, s, a, owner) && KeysOwnedBy(fields, declared, s, keys, owner);
    }
    if owner :| OwnedBy(fields, declared, s, a, owner) && KeysOwnedBy(fields, declared, s, keys, owner) {
      assert owner in Owners(t[a]) * SharedOwners(t, keys);
    }
  }

  lemma RoleIff(fields: seq<Field>, declared: seq<Declared>, s: string, role: EntityRole)
    requires AllNew(fields, declared, s) && NoPhysicalConcept(declared) && RoleDefined(role)
    ensures RoleFits(TableOf(fields, declared, s), role, s) <==> RoleStands(fields, declared, s, role)
  {
    if s in role.projections {
      ProjectionIff(fields, declared, s, role.projections[s]);
    }
    forall a ensures a in TableOf(fields, declared, s) <==> Owned(fields, declared, s, a) {
      KnownIff(fields, declared, s, a);
    }
  }

  lemma FitsIff(fields: seq<Field>, declared: seq<Declared>, s: string, i: nat)
    requires i < |declared|
    ensures FitsAt(fields, declared, s, i) <==> BringsNew(fields, declared, s, i)
  {
    forall a ensures a in Known(fields, declared[..i], s) <==> Owned(fields, declared[..i], s, a) {
      KnownIff(fields, declared[..i], s, a);
    }
    forall path ensures path in FieldPaths(fields) <==> exists f :: f in fields && f.path == path {
    }
  }

  lemma {:induction false} RoleComes(definitions: seq<RoleDefinition>, d: RoleDefinition)
    requires forall i, j :: 0 <= i < j < |definitions| ==> definitions[i].id != definitions[j].id
    ensures d in definitions <==> d.id in RolesOf(definitions) && RolesOf(definitions)[d.id] == d.role
    ensures d.id in RolesOf(definitions) ==> RoleDefinition(d.id, RolesOf(definitions)[d.id]) in definitions
  {
    if definitions != [] {
      var front, last := definitions[..|definitions| - 1], definitions[|definitions| - 1];
      assert definitions == front + [last];
      RoleComes(front, d);
      if d in front {
        var i :| 0 <= i < |front| && front[i] == d;
        assert definitions[i].id != definitions[|front|].id;
      }
      assert d == RoleDefinition(d.id, d.role);
    }
  }

  lemma RolesProjectIff(o: Ontology, id: string, s: string)
    requires o.Defined()
    ensures id in RolesOf(o.entityRoles) && s in RolesOf(o.entityRoles)[id].projections <==>
            exists d :: ProjectedBy(d, o, s) && d.id == id
  {
    var roles := RolesOf(o.entityRoles);
    if id in roles {
      RoleComes(o.entityRoles, RoleDefinition(id, roles[id]));
    }
    if d :| ProjectedBy(d, o, s) && d.id == id {
      RoleComes(o.entityRoles, d);
    }
  }

  lemma ShapeIff(o: Ontology, fields: seq<Field>, s: string, shape: map<string, ShapeSource>)
    requires o.Defined() && s in shape
    ensures ShapeFits(shape, s, TableOf(fields, o.declared, s).Keys, RolesOf(o.entityRoles)) <==>
            ShapeStands(o, fields, s, shape[s])
  {
    var roles, asked := RolesOf(o.entityRoles), shape[s];
    forall a ensures a in TableOf(fields, o.declared, s) <==> Owned(fields, o.declared, s, a) {
      KnownIff(fields, o.declared, s, a);
    }
    forall id
      ensures id in roles && s in roles[id].projections <==> exists d :: ProjectedBy(d, o, s) && d.id == id
    {
      RolesProjectIff(o, id, s);
    }
    assert forall a :: a in asked.contract.requiredOutputs + asked.rowGrain <==>
        a in asked.contract.requiredOutputs || a in asked.rowGrain;
  }

  // ---- the whole ontology ----

  ghost predicate RolesFitIn(o: Ontology, t: Table, s: string)
    requires o.Defined()
  {
    forall d :: d in o.entityRoles ==> RoleFits(t, d.role, s)
  }

  ghost predicate ShapesFitIn(o: Ontology, owned: set<string>, s: string) {
    forall i :: 0 <= i < |o.shapes| ==> ShapeFits(o.shapes[i], s, owned, RolesOf(o.entityRoles))
  }

  ghost predicate TransformsFitIn(o: Ontology, owned: set<string>, s: string)
    requires o.Defined() && s in SUPPORTED_TOOLS
  {
    forall i :: 0 <= i < |o.transforms| ==> TransformFits(o.transforms[i], s, owned)
  }

  /** The parts of `Compiles` that speak of one source. */
  ghost predicate SourceCompiles(o: Ontology, fields: seq<Field>, s: string)
    requires o.Defined() && s in SUPPORTED_TOOLS
  {
    var t := TableOf(fields, o.declared, s);
    && AllNew(fields, o.declared, s) && RolesFitIn(o, t, s) && HasRoles(RolesOf(o.entityRoles), s)
    && ShapesFitIn(o, t.Keys, s) && TransformsFitIn(o, t.Keys, s)
  }

  lemma HasRolesIff(o: Ontology, s: string)
    requires o.Defined()
    ensures HasRoles(RolesOf(o.entityRoles), s) <==> exists d :: ProjectedBy(d, o, s)
  {
    var roles := RolesOf(o.entityRoles);
    if id :| id in roles && s in roles[id].projections {
      RolesProjectIff(o, id, s);
    }
    if d :| ProjectedBy(d, o, s) {
      RolesProjectIff(o, d.id, s);
    }
  }

  lemma AllNewIff(fields: seq<Field>, declared: seq<Declared>, s: string)
    ensures AllNew(fields, declared, s) <==> AllBringNew(fields, declared, s)
  {
    forall i | 0 <= i < |declared| ensures FitsAt(fields, declared, s, i) <==> BringsNew(fields, declared, s, i) {
      FitsIff(fields, declared, s, i);
    }
  }

  lemma RolesIff(o: Ontology, fields: seq<Field>, s: string)
    requires o.Defined() && AllNew(fields, o.declared, s)
    ensures RolesFitIn(o, TableOf(fields, o.declared, s), s) <==> RolesStand(o, fields, s)
  {
    forall d | d in o.entityRoles
      ensures RoleFits(TableOf(fields, o.declared, s), d.role, s) <==> RoleStands(fields, o.declared, s, d.role)
    {
      RoleIff(fields, o.declared, s, d.role);
    }
  }

  lemma ShapesIff(o: Ontology, fields: seq<Field>, s: string)
    requires o.Defined()
    ensures ShapesFitIn(o, TableOf(fields, o.declared, s).Keys, s) <==> ShapesStand(o, fields, s)
  {
    forall i | 0 <= i < |o.shapes| && s in o.shapes[i]
      ensures ShapeFits(o.shapes[i], s, TableOf(fields, o.declared, s).Keys, RolesOf(o.entityRoles)) <==>
              ShapeStands(o, fields, s, o.shapes[i][s])
    {
      ShapeIff(o, fields, s, o.shapes[i]);
    }
  }

  lemma TransformsIff(o: Ontology, fields: seq<Field>, s: string)
    requires o.Defined() && s in SUPPORTED_TOOLS
    ensures TransformsFitIn(o, TableOf(fields, o.declared, s).Keys, s) <==> TransformsStand(o, fields, s)
  {
    forall a ensures a in TableOf(fields, o.declared, s) <==> Owned(fields, o.declared, s, a) {
      KnownIff(fields, o.declared, s, a);
    }
  }

  lemma SourceIff(o: Ontology, fields: seq<Field>, s: string)
    requires o.Defined() && s in SUPPORTED_TOOLS
    ensures SourceCompiles(o, fields, s) <==> SourceStands(o, fields, s)
  {
    AllNewIff(fields, o.declared, s);
    HasRolesIff(o, s);
    if AllNew(fields, o.declared, s) {
      RolesIff(o, fields, s);
    }
    ShapesIff(o, fields, s);
    TransformsIff(o, fields, s);
  }

  lemma FitInBoth(o: Ontology)
    ensures AllFit(o) <==> AllNew(o.sql, o.declared, "sql") && AllNew(o.graph, o.declared, "graph")
  {
  }

  lemma RolesInBoth(o: Ontology, sql: Table, graph: Table)
    requires o.Defined()
    ensures AllRolesFit(o, sql, graph) <==> RolesFitIn(o, sql, "sql") && RolesFitIn(o, graph, "graph")
  {
  }

  lemma ShapesInBoth(o: Ontology, sql: set<string>, graph: set<string>)
    ensures AllShapesFit(o, sql, graph, RolesOf(o.entityRoles)) <==>
            ShapesFitIn(o, sql, "sql") && ShapesFitIn(o, graph, "graph")
  {
  }

  lemma TransformsInBoth(o: Ontology, sql: set<string>, graph: set<string>)
    requires o.Defined()
    ensures AllTransformsFit(o, sql, graph) <==> TransformsFitIn(o, sql, "sql") && TransformsFitIn(o, graph, "graph")
  {
  }

  lemma CompilesInBoth(o: Ontology)
    requires o.Defined()
    ensures Compiles(o) <==>
            && SourceCompiles(o, o.sql, "sql") && SourceCompiles(o, o.graph, "graph")
            && IdentitiesOf(TableFor(o, "sql")) * IdentitiesOf(TableFor(o, "graph")) != {}
  {
    var sql, graph := TableFor(o, "sql"), TableFor(o, "graph");
    FitInBoth(o);
    RolesInBoth(o, sql, graph);
    ShapesInBoth(o, sql.Keys, graph.Keys);
    TransformsInBoth(o, sql.Keys, graph.Keys);
  }

  /** An ontology compiles exactly when each source stands and the two share an identity. */
  lemma CompilesIff(o: Ontology)
    requires o.Defined()
    ensures Compiles(o) <==>
            && SourceStands(o, o.sql, "sql") && SourceStands(o, o.graph, "graph")
            && exists a :: Shared(o, a)
  {
    SourceIff(o, o.sql, "sql");
    SourceIff(o, o.graph, "graph");
    CompilesInBoth(o);
    if SourceCompiles(o, o.sql, "sql") && SourceCompiles(o, o.graph, "graph") {
      SharedExists(o);
    }
  }

  lemma SharedIff(o: Ontology, a: string)
    requires o.Defined() && AllNew(o.sql, o.declared, "sql") && AllNew(o.graph, o.declared, "graph")
    ensures a in IdentitiesOf(TableFor(o, "sql")) * IdentitiesOf(TableFor(o, "graph")) <==> Shared(o, a)
  {
    EntryMeans(o.sql, o.declared, "sql", a);
    EntryMeans(o.graph, o.declared, "graph", a);
  }

  lemma SharedExists(o: Ontology)
    requires o.Defined() && AllNew(o.sql, o.declared, "sql") && AllNew(o.graph, o.declared, "graph")
    ensures IdentitiesOf(TableFor(o, "sql")) * IdentitiesOf(TableFor(o, "graph")) != {} <==> exists a :: Shared(o, a)
  {
    if a :| a in IdentitiesOf(TableFor(o, "sql")) * IdentitiesOf(TableFor(o, "graph")) {
      SharedIff(o, a);
    }
    if a :| Shared(o, a) {
      SharedIff(o, a);
    }
  }

  ghost predicate OrdersPaths(d: Declared, o: Ontology, alias: string) {
    Adds(d, o.declared, "graph", alias) && d.Concept? && d.ordersPath
  }

  /** Some concept of the graph declares the alias an ordered path. */
  ghost predicate PathOrdered(o: Ontology, alias: string) { exists d :: OrdersPaths(d, o, alias) }

  /** What the two tables say of one alias. */
  lemma AliasHeld(o: Ontology, a: string)
    requires o.Defined() && AllNew(o.sql, o.declared, "sql") && AllNew(o.graph, o.declared, "graph")
    ensures a in TableFor(o, "sql") <==> Owned(o.sql, o.declared, "sql", a)
    ensures a in TableFor(o, "graph") <==> Owned(o.graph, o.declared, "graph", a)
    ensures a in OrderedPathsOf(TableFor(o, "graph")) <==> PathOrdered(o, a)
    ensures a in IdentitiesOf(TableFor(o, "sql")) * IdentitiesOf(TableFor(o, "graph")) <==> Shared(o, a)
  {
    KnownIff(o.sql, o.declared, "sql", a);
    KnownIff(o.graph, o.declared, "graph", a);
    EntryMeans(o.graph, o.declared, "graph", a);
    SharedIff(o, a);
    assert forall d :: OrdersPaths(d, o, a) <==> Adds(d, o.declared, "graph", a) && d.Concept? && d.ordersPath;
  }

  /** The catalog of an ontology that compiles: the aliases each source owns, the ordered paths of the
      graph, and the identities that both sources have. */
  lemma CatalogAliases(o: Ontology, a: string)
    requires o.Defined() && Compiles(o)
    ensures
      var c := CatalogOf(o);
      && (a in c.Allowed("sql") <==> Owned(o.sql, o.declared, "sql", a))
      && (a in c.Allowed("graph") <==> Owned(o.graph, o.declared, "graph", a))
      && (a in c.orderedPaths <==> PathOrdered(o, a))
      && (a in c.sharedJoinAliases <==> Shared(o, a))
  {
    FitInBoth(o);
    OwnsItsTable(o, "sql");
    OwnsItsTable(o, "graph");
    AliasHeld(o, a);
  }

  /** No other source owns anything. */
  lemma CatalogSources(o: Ontology, s: string, a: string)
    ensures a in CatalogOf(o).Allowed(s) <==> s in {"sql", "graph"} && a in CatalogOf(o).aliases[s]
  {
  }

  /** Its entity roles are those defined. */
  lemma CatalogRoles(o: Ontology, d: RoleDefinition)
    requires o.Defined()
    ensures d in o.entityRoles <==> d.id in CatalogOf(o).entityRoles && CatalogOf(o).entityRoles[d.id] == d.role
  {
    RoleComes(o.entityRoles, d);
  }
}
