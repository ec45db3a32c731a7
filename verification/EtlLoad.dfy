/** Loads extracted rows into an empty graph database in batches of MERGE statements. */
module EtlLoad {
  import opened Wrappers
  import opened Collections

  datatype Cell = Null | Number(n: int) | Text(s: string) | Other(repr: string)

  datatype Row = Row(cells: map<string, Cell>)

  /** A node type: its key, and the columns its MERGE statement copies. */
  datatype NodeSpec = NodeSpec(kind: string, uniqueKey: string, columns: seq<string>)

  /** A relationship type. `pattern` lists the properties inside its MERGE pattern; `mergeKey` what
      the duplicate check looks at. */
  datatype RelSpec = RelSpec(
    relType: string, mergeKey: seq<string>, fromLabel: string, toLabel: string, fromKey: string, toKey: string,
    pattern: seq<string>, columns: seq<string>)

  type Extract = map<string, seq<Row>>
  type Properties = map<string, Cell>

  datatype NodeId = NodeId(kind: string, key: Cell)

  datatype RelId = RelId(relType: string, from: NodeId, to: NodeId, pattern: seq<Cell>)

  /** A column of a row; the extraction selects every column the specifications name. */
  function CellOf(row: Row, column: string): Cell {
    if column in row.cells then row.cells[column] else Null
  }

  function Tuple(row: Row, columns: seq<string>): seq<Cell> {
    seq(|columns|, i requires 0 <= i < |columns| => CellOf(row, columns[i]))
  }

  predicate HasNull(row: Row, columns: seq<string>) { exists c :: c in columns && CellOf(row, c).Null? }

  /** The row has this value in the column; a null counts as none. */
  ghost predicate Stored(row: Row, column: string, v: Cell) {
    column in row.cells && row.cells[column] == v && v != Cell.Null
  }

  lemma StoredIsCell(row: Row, column: string, v: Cell)
    ensures Stored(row, column, v) <==> v == CellOf(row, column) && !v.Null?
  {
  }

  // ---- MERGE ----

  /** One row's effect: the entity it names and what it assigns to its properties. */
  datatype Put<+I> = Put(id: I, settings: Properties)

  /** SET overwrites properties, and removes those it sets to null. */
  function Assign(before: Properties, settings: Properties): Properties {
    map c | c in before.Keys + settings.Keys && (c in settings ==> !settings[c].Null?) ::
      if c in settings then settings[c] else before[c]
  }

  /** MERGE finds or creates the entity. */
  function Apply<I(==)>(m: map<I, Properties>, p: Put<I>): map<I, Properties> {
    m[p.id := Assign(if p.id in m then m[p.id] else map[], p.settings)]
  }

  function ApplyAll<I(==)>(m: map<I, Properties>, ps: seq<Put<I>>): map<I, Properties> {
    if ps == [] then m else Apply(ApplyAll(m, ps[..|ps| - 1]), ps[|ps| - 1])
  }

  function PutIds<I>(ps: seq<Put<I>>): seq<I> {
    seq(|ps|, i requires 0 <= i < |ps| => ps[i].id)
  }

  function Copied(row: Row, columns: seq<string>, run: string): Properties {
    (map c | c in columns :: CellOf(row, c)) + map["syncRunId" := Cell.Text(run)]
  }

  function NodePut(spec: NodeSpec, row: Row, run: string): Put<NodeId> {
    Put(NodeId(spec.kind, CellOf(row, spec.uniqueKey)),
        map[spec.uniqueKey := CellOf(row, spec.uniqueKey)] + Copied(row, spec.columns, run))
  }

  function NodePuts(spec: NodeSpec, rows: seq<Row>, run: string): seq<Put<NodeId>> {
    seq(|rows|, i requires 0 <= i < |rows| => NodePut(spec, rows[i], run))
  }

  function FromOf(spec: RelSpec, row: Row): NodeId { NodeId(spec.fromLabel, CellOf(row, spec.fromKey)) }

  function ToOf(spec: RelSpec, row: Row): NodeId { NodeId(spec.toLabel, CellOf(row, spec.toKey)) }

  function RelPut(spec: RelSpec, row: Row, run: string): Put<RelId> {
    Put(RelId(spec.relType, FromOf(spec, row), ToOf(spec, row), Tuple(row, spec.pattern)),
        (map c | c in spec.pattern :: CellOf(row, c)) + Copied(row, spec.columns, run))
  }

  /** MATCH finds both ends; a null key matches nothing. */
  predicate Anchored(spec: RelSpec, row: Row, known: set<NodeId>) {
    && !CellOf(row, spec.fromKey).Null? && !CellOf(row, spec.toKey).Null?
    && FromOf(spec, row) in known && ToOf(spec, row) in known
  }

  /** MERGE refuses to look for a null property. */
  predicate NodeMergeable(spec: NodeSpec, row: Row) { !CellOf(row, spec.uniqueKey).Null? }

  predicate RelMergeable(spec: RelSpec, row: Row, known: set<NodeId>) {
    Anchored(spec, row, known) ==> !HasNull(row, spec.pattern)
  }

  predicate AllNodesMergeable(spec: NodeSpec, rows: seq<Row>) {
    forall i :: 0 <= i < |rows| ==> NodeMergeable(spec, rows[i])
  }

  predicate AllRelsMergeable(spec: RelSpec, rows: seq<Row>, known: set<NodeId>) {
    forall i :: 0 <= i < |rows| ==> RelMergeable(spec, rows[i], known)
  }

  /** A row whose end points are not matched has no effect. */
  function RelPuts(spec: RelSpec, rows: seq<Row>, run: string, known: set<NodeId>): seq<Put<RelId>> {
    if rows == [] then []
    else
      var last := rows[|rows| - 1];
      RelPuts(spec, rows[..|rows| - 1], run, known)
      + (if Anchored(spec, last, known) then [RelPut(spec, last, run)] else [])
  }

  lemma {:induction false} ApplyAllConcat<I>(m: map<I, Properties>, a: seq<Put<I>>, b: seq<Put<I>>)
    ensures ApplyAll(m, a + b) == ApplyAll(ApplyAll(m, a), b)
  {
    if b == [] {
      assert a + b == a;
    } else {
      var n := |b| - 1;
      ApplyAllConcat(m, a, b[..n]);
      assert (a + b)[..|a + b| - 1] == a + b[..n];
    }
  }

  lemma ApplySnoc<I>(m: map<I, Properties>, ps: seq<Put<I>>, p: Put<I>)
    ensures ApplyAll(m, ps + [p]) == Apply(ApplyAll(m, ps), p)
  {
    assert (ps + [p])[..|ps|] == ps;
  }

  lemma {:induction false} RelPutsConcat(spec: RelSpec, a: seq<Row>, b: seq<Row>, run: string, known: set<NodeId>)
    ensures RelPuts(spec, a + b, run, known) == RelPuts(spec, a, run, known) + RelPuts(spec, b, run, known)
  {
    if b == [] {
      assert a + b == a;
    } else {
      var n := |b| - 1;
      RelPutsConcat(spec, a, b[..n], run, known);
      assert (a + b)[..|a + b| - 1] == a + b[..n];
    }
  }

  lemma RelPutsStep(m: map<RelId, Properties>, spec: RelSpec, rows: seq<Row>, i: nat, run: string, known: set<NodeId>)
    requires i < |rows|
    ensures ApplyAll(m, RelPuts(spec, rows[..i + 1], run, known)) ==
            if Anchored(spec, rows[i], known) then
              Apply(ApplyAll(m, RelPuts(spec, rows[..i], run, known)), RelPut(spec, rows[i], run))
            else ApplyAll(m, RelPuts(spec, rows[..i], run, known))
  {
    var before := RelPuts(spec, rows[..i], run, known);
    assert rows[..i + 1][..i] == rows[..i];
    ApplySnoc(m, before, RelPut(spec, rows[i], run));
    assert before + [] == before;
  }

  lemma NodePutsConcat(spec: NodeSpec, a: seq<Row>, b: seq<Row>, run: string)
    ensures NodePuts(spec, a + b, run) == NodePuts(spec, a, run) + NodePuts(spec, b, run)
  {
  }

  // ---- what one row leaves ----

  /** SET replaces what it names, removes what it sets to null, and leaves the rest. */
  lemma AssignOverwrites(before: Properties, settings: Properties, name: string, v: Cell)
    ensures name in Assign(before, settings) && Assign(before, settings)[name] == v <==>
            if name in settings then settings[name] == v && v != Cell.Null else name in before && before[name] == v
  {
  }

  /** What the row gives a property: the run, or the value in a copied column. */
  ghost predicate Gives(row: Row, copied: seq<string>, run: string, name: string, v: Cell) {
    if name == "syncRunId" then v == Cell.Text(run) else name in copied && Stored(row, name, v)
  }

  /** The properties are those that the row gives, and no others. */
  ghost predicate Shows(props: Properties, row: Row, copied: seq<string>, run: string) {
    forall name, v :: name in props && props[name] == v <==> Gives(row, copied, run, name, v)
  }

  ghost predicate Names(row: Row, kind: string, column: string, id: NodeId) {
    id.kind == kind && Stored(row, column, id.key)
  }

  ghost predicate NamesRel(spec: RelSpec, row: Row, id: RelId) {
    && id.relType == spec.relType
    && Names(row, spec.fromLabel, spec.fromKey, id.from) && Names(row, spec.toLabel, spec.toKey, id.to)
    && |id.pattern| == |spec.pattern|
    && forall k :: 0 <= k < |spec.pattern| ==> Stored(row, spec.pattern[k], id.pattern[k])
  }

  lemma PropertyGiven(row: Row, copied: seq<string>, run: string, settings: Properties, name: string, v: Cell)
    requires forall c :: c in settings <==> c == "syncRunId" || c in copied
    requires forall c :: c in settings ==> settings[c] == if c == "syncRunId" then Cell.Text(run) else CellOf(row, c)
    ensures name in Assign(map[], settings) && Assign(map[], settings)[name] == v <==> Gives(row, copied, run, name, v)
  {
    AssignOverwrites(map[], settings, name, v);
    StoredIsCell(row, name, v);
  }

  /** A row with a key merges the node it names, and gives a new node its columns and the run. */
  lemma NodeRowPut(spec: NodeSpec, row: Row, run: string)
    ensures NodeMergeable(spec, row) <==> exists id :: Names(row, spec.kind, spec.uniqueKey, id)
    ensures forall id :: Names(row, spec.kind, spec.uniqueKey, id) ==> id == NodePut(spec, row, run).id
    ensures Shows(Assign(map[], NodePut(spec, row, run).settings), row, [spec.uniqueKey] + spec.columns, run)
  {
    var p := NodePut(spec, row, run);
    StoredIsCell(row, spec.uniqueKey, CellOf(row, spec.uniqueKey));
    assert NodeMergeable(spec, row) ==> Names(row, spec.kind, spec.uniqueKey, p.id);
    forall name, v
      ensures name in Assign(map[], p.settings) && Assign(map[], p.settings)[name] == v <==>
              Gives(row, [spec.uniqueKey] + spec.columns, run, name, v)
    {
      PropertyGiven(row, [spec.uniqueKey] + spec.columns, run, p.settings, name, v);
    }
  }

  /** A row whose ends are known merges the relationship it names, and gives a new one its pattern,
      its columns and the run; no such row may lack a value of the pattern. */
  lemma RelRowPut(spec: RelSpec, row: Row, run: string, known: set<NodeId>)
    ensures Anchored(spec, row, known) <==>
            && (exists from :: from in known && Names(row, spec.fromLabel, spec.fromKey, from))
            && exists to :: to in known && Names(row, spec.toLabel, spec.toKey, to)
    ensures Anchored(spec, row, known) ==>
            (RelMergeable(spec, row, known) <==> exists id :: NamesRel(spec, row, id))
    ensures !Anchored(spec, row, known) ==> RelMergeable(spec, row, known)
    ensures forall id :: NamesRel(spec, row, id) ==> id == RelPut(spec, row, run).id
    ensures Shows(Assign(map[], RelPut(spec, row, run).settings), row, spec.pattern + spec.columns, run)
  {
    var p := RelPut(spec, row, run);
    StoredIsCell(row, spec.fromKey, CellOf(row, spec.fromKey));
    StoredIsCell(row, spec.toKey, CellOf(row, spec.toKey));
    assert Anchored(spec, row, known) ==>
           Names(row, spec.fromLabel, spec.fromKey, p.id.from) && Names(row, spec.toLabel, spec.toKey, p.id.to);
    PatternStored(spec, row, run);
    forall id | NamesRel(spec, row, id) ensures id == p.id {
      NamedRelIsPut(spec, row, run, id);
    }
    forall name, v
      ensures name in Assign(map[], p.settings) && Assign(map[], p.settings)[name] == v <==>
              Gives(row, spec.pattern + spec.columns, run, name, v)
    {
      PropertyGiven(row, spec.pattern + spec.columns, run, p.settings, name, v);
    }
  }

  lemma PatternStored(spec: RelSpec, row: Row, run: string)
    ensures !CellOf(row, spec.fromKey).Null? && !CellOf(row, spec.toKey).Null? && !HasNull(row, spec.pattern) ==>
            NamesRel(spec, row, RelPut(spec, row, run).id)
    ensures (exists id :: NamesRel(spec, row, id)) ==> !HasNull(row, spec.pattern)
  {
    if id :| NamesRel(spec, row, id) {
      forall c | c in spec.pattern ensures !CellOf(row, c).Null? {
        var k :| 0 <= k < |spec.pattern| && spec.pattern[k] == c;
        assert Stored(row, spec.pattern[k], id.pattern[k]);
      }
    }
  }

  lemma NamedRelIsPut(spec: RelSpec, row: Row, run: string, id: RelId)
    requires NamesRel(spec, row, id)
    ensures id == RelPut(spec, row, run).id
  {
    var q := RelPut(spec, row, run).id;
    forall k | 0 <= k < |id.pattern| ensures id.pattern[k] == q.pattern[k] {
      assert Stored(row, spec.pattern[k], id.pattern[k]);
    }
    assert id.pattern == q.pattern;
  }

  // ---- the database ----

  class GraphDatabase {
    var nodes: map<NodeId, Properties>
    var rels: map<RelId, Properties>

    constructor ()
      ensures nodes == map[] && rels == map[]
    {
      nodes, rels := map[], map[];
    }

    /** UNWIND the batch, MERGE a node for each row; a row that cannot be merged undoes the batch. */
    method MergeNodes(spec: NodeSpec, batch: seq<Row>, run: string) returns (ok: bool)
      modifies this`nodes
      ensures ok <==> AllNodesMergeable(spec, batch)
      ensures nodes == if ok then ApplyAll(old(nodes), NodePuts(spec, batch, run)) else old(nodes)
    {
      var merged := nodes;
      for i := 0 to |batch|
        invariant AllNodesMergeable(spec, batch[..i])
        invariant nodes == old(nodes) && merged == ApplyAll(old(nodes), NodePuts(spec, batch[..i], run))
      {
        if !NodeMergeable(spec, batch[i]) {
          return false;
        }
        assert NodePuts(spec, batch[..i + 1], run)[..i] == NodePuts(spec, batch[..i], run);
        merged := Apply(merged, NodePut(spec, batch[i], run));
      }
      assert batch[..|batch|] == batch;
      nodes := merged;
      ok := true;
    }

    /** UNWIND the batch, MATCH both ends, MERGE a relationship for each row that has them. */
    method MergeRelationships(spec: RelSpec, batch: seq<Row>, run: string) returns (ok: bool)
      modifies this`rels
      ensures ok <==> AllRelsMergeable(spec, batch, nodes.Keys)
      ensures rels == if ok then ApplyAll(old(rels), RelPuts(spec, batch, run, nodes.Keys)) else old(rels)
    {
      var merged := rels;
      for i := 0 to |batch|
        invariant AllRelsMergeable(spec, batch[..i], nodes.Keys)
        invariant rels == old(rels) && merged == ApplyAll(old(rels), RelPuts(spec, batch[..i], run, nodes.Keys))
      {
        if !RelMergeable(spec, batch[i], nodes.Keys) {
          return false;
        }
        RelPutsStep(old(rels), spec, batch, i, run, nodes.Keys);
        if Anchored(spec, batch[i], nodes.Keys) {
          merged := Apply(merged, RelPut(spec, batch[i], run));
        }
      }
      assert batch[..|batch|] == batch;
      rels := merged;
      ok := true;
    }

    method CountNodes(kind: string) returns (n: nat)
      ensures n == NodeCount(nodes.Keys, kind)
    {
      n := |set id | id in nodes && id.kind == kind|;
      assert (set id | id in nodes && id.kind == kind) == set id | id in nodes.Keys && id.kind == kind;
    }

    method CountRelationships(relType: string) returns (n: nat)
      ensures n == RelCount(rels.Keys, relType)
    {
      n := |set id | id in rels && id.relType == relType|;
      assert (set id | id in rels && id.relType == relType) == set id | id in rels.Keys && id.relType == relType;
    }
  }

  function NodeCount(ids: set<NodeId>, kind: string): nat { |set id | id in ids && id.kind == kind| }

  function RelCount(ids: set<RelId>, relType: string): nat { |set id | id in ids && id.relType == relType| }

  // ---- batches ----

  /** The rows, cut into full batches and a rest. */
  method ChunkRows<T>(rows: seq<T>, batchSize: nat) returns (batches: seq<seq<T>>)
    requires batchSize > 0
    ensures Flatten(batches) == rows
    ensures forall k :: 0 <= k < |batches| ==>
      0 < |batches[k]| <= batchSize && (k < |batches| - 1 ==> |batches[k]| == batchSize)
  {
    batches := [];
    var start := 0;
    while start < |rows|
      invariant start <= |rows| ==> Flatten(batches) == rows[..start]
      invariant start > |rows| ==> Flatten(batches) == rows
      invariant start < |rows| ==> forall k :: 0 <= k < |batches| ==> |batches[k]| == batchSize
      invariant forall k :: 0 <= k < |batches| ==>
        0 < |batches[k]| <= batchSize && (k < |batches| - 1 ==> |batches[k]| == batchSize)
    {
      var stop := if start + batchSize <= |rows| then start + batchSize else |rows|;
      var batch := rows[start..stop];
      assert (batches + [batch])[..|batches|] == batches;
      assert rows[..start] + batch == rows[..stop];
      batches := batches + [batch];
      start := start + batchSize;
    }
    assert rows[..|rows|] == rows;
  }

  lemma FlattenStep<T>(batches: seq<seq<T>>, i: nat)
    requires i < |batches|
    ensures Flatten(batches[..i + 1]) == Flatten(batches[..i]) + batches[i]
  {
    assert batches[..i + 1][..i] == batches[..i];
  }

  lemma {:induction false} FlattenPrefix<T>(batches: seq<seq<T>>, i: nat)
    requires i <= |batches|
    ensures Flatten(batches[..i]) <= Flatten(batches)
    decreases |batches| - i
  {
    if i == |batches| {
      assert batches[..i] == batches;
    } else {
      FlattenStep(batches, i);
      FlattenPrefix(batches, i + 1);
    }
  }

  lemma NodesMergeableSplit(spec: NodeSpec, a: seq<Row>, b: seq<Row>)
    ensures AllNodesMergeable(spec, a + b) <==> AllNodesMergeable(spec, a) && AllNodesMergeable(spec, b)
  {
    if AllNodesMergeable(spec, a + b) {
      assert forall i :: 0 <= i < |a| ==> (a + b)[i] == a[i];
      assert forall i :: 0 <= i < |b| ==> (a + b)[|a| + i] == b[i];
    }
  }

  lemma RelsMergeableSplit(spec: RelSpec, a: seq<Row>, b: seq<Row>, known: set<NodeId>)
    ensures AllRelsMergeable(spec, a + b, known) <==>
      AllRelsMergeable(spec, a, known) && AllRelsMergeable(spec, b, known)
  {
    if AllRelsMergeable(spec, a + b, known) {
      assert forall i :: 0 <= i < |a| ==> (a + b)[i] == a[i];
      assert forall i :: 0 <= i < |b| ==> (a + b)[|a| + i] == b[i];
    }
  }

  /** A prefix of the rows was loaded. */
  ghost predicate NodePrefixLoaded(before: map<NodeId, Properties>, after: map<NodeId, Properties>, spec: NodeSpec,
      rows: seq<Row>, run: string)
  {
    exists loaded :: loaded <= rows && after == ApplyAll(before, NodePuts(spec, loaded, run))
  }

  ghost predicate RelPrefixLoaded(before: map<RelId, Properties>, after: map<RelId, Properties>, spec: RelSpec,
      rows: seq<Row>, run: string, known: set<NodeId>)
  {
    exists loaded :: loaded <= rows && after == ApplyAll(before, RelPuts(spec, loaded, run, known))
  }

  /** Batch after batch; the first one that cannot be merged ends the load. */
  method LoadNodeRows(db: GraphDatabase, spec: NodeSpec, rows: seq<Row>, run: string, batchSize: nat) returns (ok: bool)
    requires batchSize > 0
    modifies db`nodes
    ensures ok <==> AllNodesMergeable(spec, rows)
    ensures ok ==> db.nodes == ApplyAll(old(db.nodes), NodePuts(spec, rows, run))
    ensures !ok ==> NodePrefixLoaded(old(db.nodes), db.nodes, spec, rows, run)
  {
    var batches := ChunkRows(rows, batchSize);
    for i := 0 to |batches|
      invariant AllNodesMergeable(spec, Flatten(batches[..i]))
      invariant db.nodes == ApplyAll(old(db.nodes), NodePuts(spec, Flatten(batches[..i]), run))
    {
      FlattenStep(batches, i);
      FlattenPrefix(batches, i);
      FlattenPrefix(batches, i + 1);
      NodesMergeableSplit(spec, Flatten(batches[..i]), batches[i]);
      NodePutsConcat(spec, Flatten(batches[..i]), batches[i], run);
      ApplyAllConcat(old(db.nodes), NodePuts(spec, Flatten(batches[..i]), run), NodePuts(spec, batches[i], run));
      var merged := db.MergeNodes(spec, batches[i], run);
      if !merged {
        NodesMergeableSplit(spec, Flatten(batches[..i + 1]), rows[|Flatten(batches[..i + 1])|..]);
        return false;
      }
    }
    assert batches[..|batches|] == batches;
    ok := true;
  }

  method LoadRelRows(db: GraphDatabase, spec: RelSpec, rows: seq<Row>, run: string, batchSize: nat) returns (ok: bool)
    requires batchSize > 0
    modifies db`rels
    ensures ok <==> AllRelsMergeable(spec, rows, db.nodes.Keys)
    ensures ok ==> db.rels == ApplyAll(old(db.rels), RelPuts(spec, rows, run, db.nodes.Keys))
    ensures !ok ==> RelPrefixLoaded(old(db.rels), db.rels, spec, rows, run, db.nodes.Keys)
  {
    var batches := ChunkRows(rows, batchSize);
    for i := 0 to |batches|
      invariant AllRelsMergeable(spec, Flatten(batches[..i]), db.nodes.Keys)
      invariant db.rels == ApplyAll(old(db.rels), RelPuts(spec, Flatten(batches[..i]), run, db.nodes.Keys))
    {
      FlattenStep(batches, i);
      FlattenPrefix(batches, i);
      FlattenPrefix(batches, i + 1);
      RelsMergeableSplit(spec, Flatten(batches[..i]), batches[i], db.nodes.Keys);
      RelPutsConcat(spec, Flatten(batches[..i]), batches[i], run, db.nodes.Keys);
      ApplyAllConcat(old(db.rels), RelPuts(spec, Flatten(batches[..i]), run, db.nodes.Keys),
          RelPuts(spec, batches[i], run, db.nodes.Keys));
      var merged := db.MergeRelationships(spec, batches[i], run);
      if !merged {
        RelsMergeableSplit(spec, Flatten(batches[..i + 1]), rows[|Flatten(batches[..i + 1])|..], db.nodes.Keys);
        return false;
      }
    }
    assert batches[..|batches|] == batches;
    ok := true;
  }

  // ---- what loading leaves ----

  /** Distinct entities each keep exactly what their own row assigns. */
  ghost predicate HoldsEach<I>(m: map<I, Properties>, ps: seq<Put<I>>) {
    forall p :: p in ps ==> p.id in m && m[p.id] == Assign(map[], p.settings)
  }

  lemma {:induction false} AppliedKeys<I>(m: map<I, Properties>, ps: seq<Put<I>>)
    ensures ApplyAll(m, ps).Keys == m.Keys + set id | id in PutIds(ps)
  {
    if ps != [] {
      var n := |ps| - 1;
      AppliedKeys(m, ps[..n]);
      assert PutIds(ps) == PutIds(ps[..n]) + [ps[n].id];
    }
  }

  lemma DistinctPrefix<I>(ps: seq<Put<I>>, n: nat)
    requires n < |ps| && NoDuplicates(PutIds(ps))
    ensures NoDuplicates(PutIds(ps[..n])) && ps[n].id !in PutIds(ps[..n])
  {
    forall k | 0 <= k < n ensures PutIds(ps[..n])[k] == PutIds(ps)[k] && PutIds(ps)[k] != PutIds(ps)[n] {
    }
  }

  lemma {:induction false} AppliedExactly<I>(ps: seq<Put<I>>)
    requires NoDuplicates(PutIds(ps))
    ensures HoldsEach(ApplyAll(map[], ps), ps)
  {
    if ps != [] {
      var n := |ps| - 1;
      var before := ApplyAll(map[], ps[..n]);
      DistinctPrefix(ps, n);
      AppliedExactly(ps[..n]);
      AppliedKeys(map[], ps[..n]);
      assert ps == ps[..n] + [ps[n]];
      forall p | p in ps[..n] ensures p.id in before && before[p.id] == Assign(map[], p.settings) && p.id != ps[n].id {
        var i :| 0 <= i < n && ps[..n][i] == p;
        assert PutIds(ps[..n])[i] == p.id;
      }
    }
  }

  function Keys(rows: seq<Row>, columns: seq<string>): seq<seq<Cell>> {
    seq(|rows|, i requires 0 <= i < |rows| => Tuple(rows[i], columns))
  }

  function UniqueKeys(spec: NodeSpec, rows: seq<Row>): seq<Cell> {
    seq(|rows|, i requires 0 <= i < |rows| => CellOf(rows[i], spec.uniqueKey))
  }

  lemma NodeIdsDistinct(spec: NodeSpec, rows: seq<Row>, run: string)
    ensures NoDuplicates(PutIds(NodePuts(spec, rows, run))) <==> NoDuplicates(UniqueKeys(spec, rows))
  {
    var ids, keys := PutIds(NodePuts(spec, rows, run)), UniqueKeys(spec, rows);
    assert |ids| == |keys| == |rows|;
    forall i | 0 <= i < |rows| ensures ids[i] == NodeId(spec.kind, keys[i]) {
    }
  }

  lemma NewNodes(before: set<NodeId>, ids: seq<NodeId>, kind: string)
    requires NodeCount(before, kind) == 0 && forall i :: 0 <= i < |ids| ==> ids[i].kind == kind
    ensures NodeCount(before + (set id | id in ids), kind) == |set id | id in ids|
  {
    var present := set id | id in before && id.kind == kind;
    assert present == {};
    assert forall id :: id in before && id.kind == kind ==> id in present;
    assert (set id | id in before + (set id | id in ids) && id.kind == kind) == set id | id in ids;
  }

  lemma NewRels(before: set<RelId>, ids: seq<RelId>, relType: string)
    requires RelCount(before, relType) == 0 && forall i :: 0 <= i < |ids| ==> ids[i].relType == relType
    ensures RelCount(before + (set id | id in ids), relType) == |set id | id in ids|
  {
    var present := set id | id in before && id.relType == relType;
    assert present == {};
    assert forall id :: id in before && id.relType == relType ==> id in present;
    assert (set id | id in before + (set id | id in ids) && id.relType == relType) == set id | id in ids;
  }

  /** Loading one type into a graph without it: never more nodes than rows, and as many exactly when the keys differ. */
  lemma NodeCountExactIff(nodes: map<NodeId, Properties>, spec: NodeSpec, rows: seq<Row>, run: string)
    requires NodeCount(nodes.Keys, spec.kind) == 0
    ensures
      var n := NodeCount(ApplyAll(nodes, NodePuts(spec, rows, run)).Keys, spec.kind);
      n <= |rows| && (n == |rows| <==> NoDuplicates(UniqueKeys(spec, rows)))
  {
    var ids := PutIds(NodePuts(spec, rows, run));
    AppliedKeys(nodes, NodePuts(spec, rows, run));
    DistinctIffCounted(ids);
    NodeIdsDistinct(spec, rows, run);
    NewNodes(nodes.Keys, ids, spec.kind);
  }

  lemma {:induction false} RelPutsSize(spec: RelSpec, rows: seq<Row>, run: string, known: set<NodeId>)
    ensures |RelPuts(spec, rows, run, known)| <= |rows|
    ensures |RelPuts(spec, rows, run, known)| == |rows| <==>
      forall i :: 0 <= i < |rows| ==> Anchored(spec, rows[i], known)
  {
    if rows != [] {
      var n := |rows| - 1;
      RelPutsSize(spec, rows[..n], run, known);
      assert (forall i :: 0 <= i < |rows| ==> Anchored(spec, rows[i], known)) <==>
             (forall i :: 0 <= i < n ==> Anchored(spec, rows[..n][i], known)) && Anchored(spec, rows[n], known);
    }
  }

  lemma {:induction false} AnchoredPuts(spec: RelSpec, rows: seq<Row>, run: string, known: set<NodeId>)
    requires forall i :: 0 <= i < |rows| ==> Anchored(spec, rows[i], known)
    ensures RelPuts(spec, rows, run, known) == AllRelPuts(spec, rows, run)
  {
    if rows != [] {
      var n := |rows| - 1;
      AnchoredPuts(spec, rows[..n], run, known);
      assert AllRelPuts(spec, rows, run) == AllRelPuts(spec, rows[..n], run) + [RelPut(spec, rows[n], run)];
    }
  }

  function AllRelPuts(spec: RelSpec, rows: seq<Row>, run: string): seq<Put<RelId>> {
    seq(|rows|, i requires 0 <= i < |rows| => RelPut(spec, rows[i], run))
  }

  lemma {:induction false} RelPutsType(spec: RelSpec, rows: seq<Row>, run: string, known: set<NodeId>)
    ensures forall i :: 0 <= i < |RelPuts(spec, rows, run, known)| ==>
      RelPuts(spec, rows, run, known)[i].id.relType == spec.relType
  {
    if rows != [] {
      RelPutsType(spec, rows[..|rows| - 1], run, known);
    }
  }

  /** The same for relationships: as many as rows exactly when every row finds both its ends and
      no two rows name the same relationship. */
  lemma RelCountExactIff(rels: map<RelId, Properties>, spec: RelSpec, rows: seq<Row>, run: string, known: set<NodeId>)
    requires RelCount(rels.Keys, spec.relType) == 0
    ensures
      var n := RelCount(ApplyAll(rels, RelPuts(spec, rows, run, known)).Keys, spec.relType);
      && n <= |rows|
      && (n == |rows| <==>
          (forall i :: 0 <= i < |rows| ==> Anchored(spec, rows[i], known))
          && NoDuplicates(PutIds(AllRelPuts(spec, rows, run))))
  {
    var puts := RelPuts(spec, rows, run, known);
    RelPutsSize(spec, rows, run, known);
    assert |PutIds(puts)| == |puts|;
    if forall i :: 0 <= i < |rows| ==> Anchored(spec, rows[i], known) {
      AnchoredPuts(spec, rows, run, known);
    }
    RelPutsType(spec, rows, run, known);
    AppliedKeys(rels, puts);
    DistinctIffCounted(PutIds(puts));
    NewRels(rels.Keys, PutIds(puts), spec.relType);
  }

  // ---- validation before anything is written ----

  datatype Problem =
    | NoRows(name: string)
    | NullKeys(name: string, rows: seq<Row>)
    | DuplicateKeys(name: string, keys: seq<seq<Cell>>)
    | Dangling(name: string, rows: seq<Row>)

  function RowsOf(data: Extract, name: string): seq<Row> { if name in data then data[name] else [] }

  function FindNullKeys(rows: seq<Row>, columns: seq<string>): seq<Row> {
    if rows == [] then []
    else (if HasNull(rows[0], columns) then [rows[0]] else []) + FindNullKeys(rows[1..], columns)
  }

  lemma {:induction false} NullKeysFound(rows: seq<Row>, columns: seq<string>)
    ensures FindNullKeys(rows, columns) == [] <==> forall i :: 0 <= i < |rows| ==> !HasNull(rows[i], columns)
  {
    if rows != [] {
      NullKeysFound(rows[1..], columns);
      assert rows == [rows[0]] + rows[1..];
    }
  }

  function FindDangling(rows: seq<Row>, fromKey: string, toKey: string, fromIds: set<Cell>,
      toIds: set<Cell>): seq<Row>
  {
    if rows == [] then []
    else
      (if CellOf(rows[0], fromKey) !in fromIds || CellOf(rows[0], toKey) !in toIds then [rows[0]] else [])
      + FindDangling(rows[1..], fromKey, toKey, fromIds, toIds)
  }

  lemma {:induction false} DanglingFound(rows: seq<Row>, fromKey: string, toKey: string, fromIds: set<Cell>,
      toIds: set<Cell>)
    ensures FindDangling(rows, fromKey, toKey, fromIds, toIds) == [] <==>
            forall i :: 0 <= i < |rows| ==> CellOf(rows[i], fromKey) in fromIds && CellOf(rows[i], toKey) in toIds
  {
    if rows != [] {
      DanglingFound(rows[1..], fromKey, toKey, fromIds, toIds);
      assert rows == [rows[0]] + rows[1..];
    }
  }

  lemma {:induction false} CountedTwice<T>(xs: seq<T>)
    ensures NoDuplicates(xs) <==> forall x :: x in multiset(xs) ==> multiset(xs)[x] == 1
  {
    if xs != [] {
      var n := |xs| - 1;
      var front, last := xs[..n], xs[n];
      CountedTwice(front);
      assert xs == front + [last];
      assert multiset(xs) == multiset(front) + multiset{last};
      if last in front {
        var k :| 0 <= k < n && front[k] == last;
        assert xs[k] == xs[n] && multiset(xs)[last] >= 2;
      } else if NoDuplicates(front) {
        assert forall x :: x in multiset(xs) ==> multiset(xs)[x] == if x == last then 1 else multiset(front)[x];
      } else {
        var x :| x in multiset(front) && multiset(front)[x] != 1;
        assert multiset(xs)[x] >= multiset(front)[x];
        var i, j :| 0 <= i < j < n && front[i] == front[j];
        assert xs[i] == xs[j];
      }
    }
  }

  /** Those of `order` that occur more than once among `keys`. */
  function Repeated(order: seq<seq<Cell>>, keys: seq<seq<Cell>>): seq<seq<Cell>> {
    if order == [] then []
    else
      var last := order[|order| - 1];
      Repeated(order[..|order| - 1], keys) + if multiset(keys)[last] > 1 then [last] else []
  }

  lemma {:induction false} RepeatedMembers(order: seq<seq<Cell>>, keys: seq<seq<Cell>>)
    ensures forall key :: key in Repeated(order, keys) <==> key in order && multiset(keys)[key] > 1
  {
    if order != [] {
      RepeatedMembers(order[..|order| - 1], keys);
      assert order == order[..|order| - 1] + [order[|order| - 1]];
    }
  }

  /** The table counts the keys of the rows so far, and lists them as they came up. */
  ghost predicate Counts(counts: map<seq<Cell>, nat>, order: seq<seq<Cell>>, keys: seq<seq<Cell>>) {
    && order == FirstSeen(keys)
    && (forall key :: key in counts <==> key in keys)
    && forall key :: key in counts ==> counts[key] == multiset(keys)[key]
  }

  lemma CountAgain(counts: map<seq<Cell>, nat>, order: seq<seq<Cell>>, keys: seq<seq<Cell>>, key: seq<Cell>)
    requires Counts(counts, order, keys) && key in counts
    ensures Counts(counts[key := counts[key] + 1], order, keys + [key])
  {
    assert (keys + [key])[..|keys|] == keys;
    FirstSeenMembers(keys);
  }

  lemma CountNew(counts: map<seq<Cell>, nat>, order: seq<seq<Cell>>, keys: seq<seq<Cell>>, key: seq<Cell>)
    requires Counts(counts, order, keys) && key !in counts
    ensures Counts(counts[key := 1], order + [key], keys + [key])
  {
    assert (keys + [key])[..|keys|] == keys;
    FirstSeenMembers(keys);
  }

  method CountKeys(rows: seq<Row>, columns: seq<string>) returns (counts: map<seq<Cell>, nat>, order: seq<seq<Cell>>)
    ensures Counts(counts, order, Keys(rows, columns))
  {
    counts, order := map[], [];
    ghost var keys := Keys(rows, columns);
    for i := 0 to |rows|
      invariant Counts(counts, order, keys[..i])
    {
      var key := Tuple(rows[i], columns);
      assert keys[..i + 1] == keys[..i] + [key];
      if key in counts {
        CountAgain(counts, order, keys[..i], key);
        counts := counts[key := counts[key] + 1];
      } else {
        CountNew(counts, order, keys[..i], key);
        counts, order := counts[key := 1], order + [key];
      }
    }
    assert keys[..|rows|] == keys;
  }

  /** The keys that occur more than once, in the order in which they first occur. */
  method FindDuplicateKeys(rows: seq<Row>, columns: seq<string>) returns (duplicates: seq<seq<Cell>>)
    ensures duplicates == Repeated(FirstSeen(Keys(rows, columns)), Keys(rows, columns))
    ensures forall key :: key in duplicates <==> multiset(Keys(rows, columns))[key] > 1
    ensures duplicates == [] <==> NoDuplicates(Keys(rows, columns))
  {
    var counts, order := CountKeys(rows, columns);
    ghost var keys := Keys(rows, columns);
    FirstSeenMembers(keys);
    duplicates := [];
    for i := 0 to |order|
      invariant duplicates == Repeated(order[..i], keys)
    {
      assert order[..i + 1][..i] == order[..i];
      assert order[i] in keys;
      if counts[order[i]] > 1 {
        duplicates := duplicates + [order[i]];
      }
    }
    assert order[..|order|] == order;
    RepeatedMembers(order, keys);
    DuplicatesFound(keys, duplicates);
  }

  lemma DuplicatesFound(keys: seq<seq<Cell>>, duplicates: seq<seq<Cell>>)
    requires forall key :: key in duplicates <==> key in keys && multiset(keys)[key] > 1
    ensures forall key :: key in duplicates <==> multiset(keys)[key] > 1
    ensures duplicates == [] <==> NoDuplicates(keys)
  {
    CountedTwice(keys);
    assert forall key :: multiset(keys)[key] > 1 ==> key in multiset(keys);
    if duplicates != [] {
      assert duplicates[0] in duplicates && duplicates[0] in multiset(keys);
    }
  }

  ghost predicate KeysSound(rows: seq<Row>, columns: seq<string>) {
    rows != [] && (forall i :: 0 <= i < |rows| ==> !HasNull(rows[i], columns)) && NoDuplicates(Keys(rows, columns))
  }

  /** Non-empty, keyed and without duplicates; the first complaint ends the check. */
  method CheckKeys(name: string, rows: seq<Row>, columns: seq<string>) returns (problem: Option<Problem>)
    ensures problem.None? <==> KeysSound(rows, columns)
  {
    if rows == [] {
      return Some(NoRows(name));
    }
    NullKeysFound(rows, columns);
    var nulls := FindNullKeys(rows, columns);
    if nulls != [] {
      return Some(NullKeys(name, nulls));
    }
    var duplicates := FindDuplicateKeys(rows, columns);
    if duplicates != [] {
      return Some(DuplicateKeys(name, duplicates));
    }
    problem := None;
  }

  function IdCells(spec: NodeSpec, data: Extract): set<Cell> {
    set i | 0 <= i < |RowsOf(data, spec.kind)| :: CellOf(RowsOf(data, spec.kind)[i], spec.uniqueKey)
  }

  ghost predicate NodeSound(spec: NodeSpec, nodes: Extract) { KeysSound(RowsOf(nodes, spec.kind), [spec.uniqueKey]) }

  function IdsFor(idSets: map<string, set<Cell>>, kind: string): set<Cell> {
    if kind in idSets then idSets[kind] else {}
  }

  ghost predicate RelSound(spec: RelSpec, rels: Extract, idSets: map<string, set<Cell>>) {
    var rows := RowsOf(rels, spec.relType);
    && KeysSound(rows, spec.mergeKey)
    && forall i :: 0 <= i < |rows| ==>
         && CellOf(rows[i], spec.fromKey) in IdsFor(idSets, spec.fromLabel)
         && CellOf(rows[i], spec.toKey) in IdsFor(idSets, spec.toLabel)
  }

  method CheckRelationship(spec: RelSpec, rels: Extract, idSets: map<string, set<Cell>>)
      returns (problem: Option<Problem>)
    ensures problem.None? <==> RelSound(spec, rels, idSets)
  {
    var rows := RowsOf(rels, spec.relType);
    problem := CheckKeys(spec.relType, rows, spec.mergeKey);
    if problem.Some? {
      return;
    }
    var fromIds, toIds := IdsFor(idSets, spec.fromLabel), IdsFor(idSets, spec.toLabel);
    DanglingFound(rows, spec.fromKey, spec.toKey, fromIds, toIds);
    var dangling := FindDangling(rows, spec.fromKey, spec.toKey, fromIds, toIds);
    if dangling != [] {
      return Some(Dangling(spec.relType, dangling));
    }
  }

  datatype Specs = Specs(nodes: seq<NodeSpec>, rels: seq<RelSpec>)

  function Kinds(specs: seq<NodeSpec>): seq<string> { seq(|specs|, i requires 0 <= i < |specs| => specs[i].kind) }

  function RelTypes(specs: seq<RelSpec>): seq<string> { seq(|specs|, i requires 0 <= i < |specs| => specs[i].relType) }

  /** Distinct types; end points of known types; and key checks that look at all properties of the MERGE
      pattern, and at nothing the pattern and its ends do not fix. */
  predicate WellFormed(specs: Specs) {
    && NoDuplicates(Kinds(specs.nodes)) && NoDuplicates(RelTypes(specs.rels))
    && forall i :: 0 <= i < |specs.rels| ==> RelWellFormed(specs.rels[i], specs.nodes)
  }

  predicate RelWellFormed(spec: RelSpec, nodes: seq<NodeSpec>) {
    && spec.fromLabel in Kinds(nodes) && spec.toLabel in Kinds(nodes)
    && (forall c :: c in spec.mergeKey ==> c == spec.fromKey || c == spec.toKey || c in spec.pattern)
    && forall c :: c in spec.pattern ==> c in spec.mergeKey
  }

  function IdSets(specs: seq<NodeSpec>, nodes: Extract): map<string, set<Cell>> {
    if specs == [] then map[]
    else IdSets(specs[..|specs| - 1], nodes)[specs[|specs| - 1].kind := IdCells(specs[|specs| - 1], nodes)]
  }

  lemma {:induction false} IdSetsLookup(specs: seq<NodeSpec>, nodes: Extract)
    requires NoDuplicates(Kinds(specs))
    ensures IdSets(specs, nodes).Keys == set k | k in Kinds(specs)
    ensures forall i :: 0 <= i < |specs| ==>
      specs[i].kind in IdSets(specs, nodes) && IdSets(specs, nodes)[specs[i].kind] == IdCells(specs[i], nodes)
  {
    if specs != [] {
      var n := |specs| - 1;
      assert Kinds(specs) == Kinds(specs[..n]) + [specs[n].kind];
      assert forall k :: 0 <= k < n ==> Kinds(specs[..n])[k] == Kinds(specs)[k];
      IdSetsLookup(specs[..n], nodes);
      forall i | 0 <= i < n ensures specs[i].kind != specs[n].kind && specs[..n][i] == specs[i] {
        assert Kinds(specs)[i] != Kinds(specs)[n];
      }
    }
  }

  ghost predicate NodesSound(specs: seq<NodeSpec>, nodes: Extract) {
    forall i :: 0 <= i < |specs| ==> NodeSound(specs[i], nodes)
  }

  ghost predicate RelsSound(specs: seq<RelSpec>, rels: Extract, idSets: map<string, set<Cell>>) {
    forall i :: 0 <= i < |specs| ==> RelSound(specs[i], rels, idSets)
  }

  /** Every type has rows, keyed and without duplicates, and no relationship row lacks an end. */
  ghost predicate Sound(specs: Specs, nodes: Extract, rels: Extract) {
    NodesSound(specs.nodes, nodes) && RelsSound(specs.rels, rels, IdSets(specs.nodes, nodes))
  }

  method ValidateNodes(specs: seq<NodeSpec>, nodes: Extract) returns (failures: seq<Problem>)
    ensures failures == [] <==> NodesSound(specs, nodes)
  {
    failures := [];
    for i := 0 to |specs|
      invariant failures == [] <==> NodesSound(specs[..i], nodes)
    {
      var problem := CheckKeys(specs[i].kind, RowsOf(nodes, specs[i].kind), [specs[i].uniqueKey]);
      assert specs[..i + 1] == specs[..i] + [specs[i]];
      NodesSoundSnoc(specs[..i], specs[i], nodes);
      if problem.Some? {
        failures := failures + [problem.value];
      }
    }
    assert specs[..|specs|] == specs;
  }

  lemma NodesSoundSnoc(specs: seq<NodeSpec>, spec: NodeSpec, nodes: Extract)
    ensures NodesSound(specs + [spec], nodes) <==> NodesSound(specs, nodes) && NodeSound(spec, nodes)
  {
    var longer := specs + [spec];
    if NodesSound(longer, nodes) {
      assert longer[|specs|] == spec;
      forall i | 0 <= i < |specs| ensures NodeSound(specs[i], nodes) {
        assert longer[i] == specs[i];
      }
    }
  }

  lemma RelsSoundSnoc(specs: seq<RelSpec>, spec: RelSpec, rels: Extract, idSets: map<string, set<Cell>>)
    ensures RelsSound(specs + [spec], rels, idSets) <==> RelsSound(specs, rels, idSets) && RelSound(spec, rels, idSets)
  {
    var longer := specs + [spec];
    if RelsSound(longer, rels, idSets) {
      assert longer[|specs|] == spec;
      forall i | 0 <= i < |specs| ensures RelSound(specs[i], rels, idSets) {
        assert longer[i] == specs[i];
      }
    }
  }

  method ValidateRels(specs: seq<RelSpec>, rels: Extract, idSets: map<string, set<Cell>>)
      returns (failures: seq<Problem>)
    ensures failures == [] <==> RelsSound(specs, rels, idSets)
  {
    failures := [];
    for i := 0 to |specs|
      invariant failures == [] <==> RelsSound(specs[..i], rels, idSets)
    {
      var problem := CheckRelationship(specs[i], rels, idSets);
      assert specs[..i + 1] == specs[..i] + [specs[i]];
      RelsSoundSnoc(specs[..i], specs[i], rels, idSets);
      if problem.Some? {
        failures := failures + [problem.value];
      }
    }
    assert specs[..|specs|] == specs;
  }

  /** The type has rows; each has a value in every key column, and no two agree on all of them. */
  ghost predicate KeyedRows(data: Extract, name: string, columns: seq<string>) {
    && name in data && data[name] != []
    && (forall i :: 0 <= i < |data[name]| ==> Filled(data[name][i], columns))
    && forall i, j :: 0 <= i < j < |data[name]| ==> Differ(data[name][i], data[name][j], columns)
  }

  ghost predicate Filled(row: Row, columns: seq<string>) {
    forall c :: c in columns ==> exists v :: Stored(row, c, v)
  }

  ghost predicate Differ(a: Row, b: Row, columns: seq<string>) {
    exists c, v :: c in columns && Stored(a, c, v) && !Stored(b, c, v)
  }

  /** Some row of the type named at this end has the same value for its key. */
  ghost predicate EndKnown(row: Row, column: string, kind: string, specs: seq<NodeSpec>, nodes: Extract) {
    exists i, v, node ::
      0 <= i < |specs| && specs[i].kind == kind && Stored(row, column, v)
      && HasKey(node, nodes, kind, specs[i].uniqueKey, v)
  }

  ghost predicate HasKey(node: Row, nodes: Extract, kind: string, key: string, v: Cell) {
    kind in nodes && node in nodes[kind] && Stored(node, key, v)
  }

  /** Every type has keyed rows, and both ends of every relationship row are known. */
  ghost predicate Consistent(specs: Specs, nodes: Extract, rels: Extract) {
    && (forall spec :: spec in specs.nodes ==> KeyedRows(nodes, spec.kind, [spec.uniqueKey]))
    && forall spec :: spec in specs.rels ==> RelConsistent(spec, rels, specs.nodes, nodes)
  }

  ghost predicate EndsKnown(row: Row, spec: RelSpec, specs: seq<NodeSpec>, nodes: Extract) {
    && EndKnown(row, spec.fromKey, spec.fromLabel, specs, nodes)
    && EndKnown(row, spec.toKey, spec.toLabel, specs, nodes)
  }

  lemma DifferIff(a: Row, b: Row, columns: seq<string>)
    requires !HasNull(a, columns) && !HasNull(b, columns)
    ensures Differ(a, b, columns) <==> Tuple(a, columns) != Tuple(b, columns)
  {
    if Tuple(a, columns) != Tuple(b, columns) {
      var k :| 0 <= k < |columns| && Tuple(a, columns)[k] != Tuple(b, columns)[k];
      var c := columns[k];
      StoredIsCell(a, c, CellOf(a, c));
      StoredIsCell(b, c, CellOf(a, c));
      assert c in columns;
    } else {
      forall c | c in columns ensures CellOf(a, c) == CellOf(b, c) {
        var k :| 0 <= k < |columns| && columns[k] == c;
        assert Tuple(a, columns)[k] == CellOf(a, c) && Tuple(b, columns)[k] == CellOf(b, c);
      }
    }
  }

  lemma NoNullIff(row: Row, columns: seq<string>)
    ensures !HasNull(row, columns) <==> Filled(row, columns)
  {
    forall c | c in columns ensures !CellOf(row, c).Null? <==> exists v :: Stored(row, c, v) {
      StoredIsCell(row, c, CellOf(row, c));
    }
  }

  lemma DistinctKeysIff(rows: seq<Row>, columns: seq<string>)
    requires forall i :: 0 <= i < |rows| ==> !HasNull(rows[i], columns)
    ensures NoDuplicates(Keys(rows, columns)) <==>
            forall i, j :: 0 <= i < j < |rows| ==> Differ(rows[i], rows[j], columns)
  {
    forall i, j | 0 <= i < j < |rows|
      ensures Differ(rows[i], rows[j], columns) <==> Keys(rows, columns)[i] != Keys(rows, columns)[j]
    {
      DifferIff(rows[i], rows[j], columns);
    }
  }

  lemma KeysSoundIff(data: Extract, name: string, columns: seq<string>)
    ensures KeysSound(RowsOf(data, name), columns) <==> KeyedRows(data, name, columns)
  {
    var rows := RowsOf(data, name);
    forall i | 0 <= i < |rows| ensures !HasNull(rows[i], columns) <==> Filled(rows[i], columns) {
      NoNullIff(rows[i], columns);
    }
    if forall i :: 0 <= i < |rows| ==> !HasNull(rows[i], columns) {
      DistinctKeysIff(rows, columns);
    }
  }

  lemma CellKnown(row: Row, column: string, kind: string, specs: seq<NodeSpec>, nodes: Extract)
    requires NoDuplicates(Kinds(specs)) && NodesSound(specs, nodes)
    requires CellOf(row, column) in IdsFor(IdSets(specs, nodes), kind)
    ensures EndKnown(row, column, kind, specs, nodes)
  {
    IdSetsLookup(specs, nodes);
    var cell := CellOf(row, column);
    var i :| 0 <= i < |specs| && Kinds(specs)[i] == kind;
    assert cell in IdCells(specs[i], nodes);
    var k :| 0 <= k < |RowsOf(nodes, kind)| && CellOf(RowsOf(nodes, kind)[k], specs[i].uniqueKey) == cell;
    var node := RowsOf(nodes, kind)[k];
    assert NodeSound(specs[i], nodes) && specs[i].uniqueKey in [specs[i].uniqueKey];
    StoredIsCell(row, column, cell);
    StoredIsCell(node, specs[i].uniqueKey, cell);
    assert HasKey(node, nodes, kind, specs[i].uniqueKey, cell);
  }

  lemma KnownCellOf(row: Row, column: string, kind: string, specs: seq<NodeSpec>, nodes: Extract)
    requires NoDuplicates(Kinds(specs)) && EndKnown(row, column, kind, specs, nodes)
    ensures CellOf(row, column) in IdsFor(IdSets(specs, nodes), kind)
  {
    IdSetsLookup(specs, nodes);
    var i, v, node :| 0 <= i < |specs| && specs[i].kind == kind && Stored(row, column, v)
                      && HasKey(node, nodes, kind, specs[i].uniqueKey, v);
    var k :| 0 <= k < |nodes[kind]| && nodes[kind][k] == node;
    StoredIsCell(row, column, v);
    StoredIsCell(node, specs[i].uniqueKey, v);
    assert CellOf(RowsOf(nodes, kind)[k], specs[i].uniqueKey) == v;
    assert v in IdCells(specs[i], nodes);
  }

  lemma EndKnownIff(row: Row, column: string, kind: string, specs: seq<NodeSpec>, nodes: Extract)
    requires NoDuplicates(Kinds(specs)) && NodesSound(specs, nodes)
    ensures CellOf(row, column) in IdsFor(IdSets(specs, nodes), kind) <==> EndKnown(row, column, kind, specs, nodes)
  {
    if CellOf(row, column) in IdsFor(IdSets(specs, nodes), kind) {
      CellKnown(row, column, kind, specs, nodes);
    }
    if EndKnown(row, column, kind, specs, nodes) {
      KnownCellOf(row, column, kind, specs, nodes);
    }
  }

  ghost predicate RelConsistent(spec: RelSpec, rels: Extract, specs: seq<NodeSpec>, nodes: Extract) {
    && KeyedRows(rels, spec.relType, spec.mergeKey)
    && forall row :: row in rels[spec.relType] ==> EndsKnown(row, spec, specs, nodes)
  }

  lemma RelSoundIff(spec: RelSpec, rels: Extract, specs: seq<NodeSpec>, nodes: Extract)
    requires NoDuplicates(Kinds(specs)) && NodesSound(specs, nodes)
    ensures RelSound(spec, rels, IdSets(specs, nodes)) <==> RelConsistent(spec, rels, specs, nodes)
  {
    var rows, idSets := RowsOf(rels, spec.relType), IdSets(specs, nodes);
    KeysSoundIff(rels, spec.relType, spec.mergeKey);
    forall i | 0 <= i < |rows|
      ensures EndsKnown(rows[i], spec, specs, nodes) <==>
              CellOf(rows[i], spec.fromKey) in IdsFor(idSets, spec.fromLabel)
              && CellOf(rows[i], spec.toKey) in IdsFor(idSets, spec.toLabel)
    {
      EndKnownIff(rows[i], spec.fromKey, spec.fromLabel, specs, nodes);
      EndKnownIff(rows[i], spec.toKey, spec.toLabel, specs, nodes);
    }
  }

  lemma SoundIff(specs: Specs, nodes: Extract, rels: Extract)
    requires NoDuplicates(Kinds(specs.nodes))
    ensures Sound(specs, nodes, rels) <==> Consistent(specs, nodes, rels)
  {
    forall i | 0 <= i < |specs.nodes|
      ensures NodeSound(specs.nodes[i], nodes) <==> KeyedRows(nodes, specs.nodes[i].kind, [specs.nodes[i].uniqueKey])
    {
      KeysSoundIff(nodes, specs.nodes[i].kind, [specs.nodes[i].uniqueKey]);
    }
    if NodesSound(specs.nodes, nodes) {
      forall i | 0 <= i < |specs.rels|
        ensures RelSound(specs.rels[i], rels, IdSets(specs.nodes, nodes)) <==>
                RelConsistent(specs.rels[i], rels, specs.nodes, nodes)
      {
        RelSoundIff(specs.rels[i], rels, specs.nodes, nodes);
      }
    }
  }

  ghost predicate OneSpecPerKind(specs: seq<NodeSpec>) {
    forall i, j :: 0 <= i < j < |specs| ==> specs[i].kind != specs[j].kind
  }

  method ValidateBeforeWrite(specs: Specs, nodes: Extract, rels: Extract) returns (failures: seq<Problem>)
    ensures failures == [] <==> Sound(specs, nodes, rels)
    ensures OneSpecPerKind(specs.nodes) ==> (failures == [] <==> Consistent(specs, nodes, rels))
  {
    if OneSpecPerKind(specs.nodes) {
      SoundIff(specs, nodes, rels);
    }
    var nodeFailures := ValidateNodes(specs.nodes, nodes);
    var relFailures := ValidateRels(specs.rels, rels, IdSets(specs.nodes, nodes));
    failures := nodeFailures + relFailures;
  }

  // ---- the whole load ----

  function AllNodePuts(specs: seq<NodeSpec>, nodes: Extract, run: string): seq<Put<NodeId>> {
    if specs == [] then []
    else
      var last := specs[|specs| - 1];
      AllNodePuts(specs[..|specs| - 1], nodes, run) + NodePuts(last, RowsOf(nodes, last.kind), run)
  }

  function PutRels(specs: seq<RelSpec>, rels: Extract, run: string, known: set<NodeId>): seq<Put<RelId>> {
    if specs == [] then []
    else
      var last := specs[|specs| - 1];
      PutRels(specs[..|specs| - 1], rels, run, known) + RelPuts(last, RowsOf(rels, last.relType), run, known)
  }

  function NodeCounts(specs: seq<NodeSpec>, nodes: Extract): map<string, nat> {
    map k | k in Kinds(specs) :: |RowsOf(nodes, k)|
  }

  function RelCounts(specs: seq<RelSpec>, rels: Extract): map<string, nat> {
    map k | k in RelTypes(specs) :: |RowsOf(rels, k)|
  }

  lemma NodeSpecStep(m: map<NodeId, Properties>, specs: seq<NodeSpec>, i: nat, nodes: Extract, run: string)
    requires i < |specs|
    ensures ApplyAll(m, AllNodePuts(specs[..i + 1], nodes, run)) ==
            ApplyAll(ApplyAll(m, AllNodePuts(specs[..i], nodes, run)),
                NodePuts(specs[i], RowsOf(nodes, specs[i].kind), run))
  {
    assert specs[..i + 1][..i] == specs[..i];
    ApplyAllConcat(m, AllNodePuts(specs[..i], nodes, run), NodePuts(specs[i], RowsOf(nodes, specs[i].kind), run));
  }

  lemma RelSpecStep(m: map<RelId, Properties>, specs: seq<RelSpec>, i: nat, rels: Extract, run: string,
      known: set<NodeId>)
    requires i < |specs|
    ensures ApplyAll(m, PutRels(specs[..i + 1], rels, run, known)) ==
            ApplyAll(ApplyAll(m, PutRels(specs[..i], rels, run, known)),
                RelPuts(specs[i], RowsOf(rels, specs[i].relType), run, known))
  {
    assert specs[..i + 1][..i] == specs[..i];
    ApplyAllConcat(m, PutRels(specs[..i], rels, run, known),
        RelPuts(specs[i], RowsOf(rels, specs[i].relType), run, known));
  }

  lemma NodeCountStep(specs: seq<NodeSpec>, i: nat, nodes: Extract)
    requires i < |specs|
    ensures NodeCounts(specs[..i + 1], nodes) ==
      NodeCounts(specs[..i], nodes)[specs[i].kind := |RowsOf(nodes, specs[i].kind)|]
  {
    assert Kinds(specs[..i + 1]) == Kinds(specs[..i]) + [specs[i].kind];
  }

  lemma RelCountStep(specs: seq<RelSpec>, i: nat, rels: Extract)
    requires i < |specs|
    ensures RelCounts(specs[..i + 1], rels) ==
      RelCounts(specs[..i], rels)[specs[i].relType := |RowsOf(rels, specs[i].relType)|]
  {
    assert RelTypes(specs[..i + 1]) == RelTypes(specs[..i]) + [specs[i].relType];
  }

  ghost predicate NodesMergeable(specs: seq<NodeSpec>, nodes: Extract) {
    forall i :: 0 <= i < |specs| ==> AllNodesMergeable(specs[i], RowsOf(nodes, specs[i].kind))
  }

  ghost predicate RelsMergeable(specs: seq<RelSpec>, rels: Extract, known: set<NodeId>) {
    forall i :: 0 <= i < |specs| ==> AllRelsMergeable(specs[i], RowsOf(rels, specs[i].relType), known)
  }

  lemma NodesMergeableStep(specs: seq<NodeSpec>, i: nat, nodes: Extract)
    requires i < |specs| && NodesMergeable(specs[..i], nodes)
    ensures NodesMergeable(specs[..i + 1], nodes) <==> AllNodesMergeable(specs[i], RowsOf(nodes, specs[i].kind))
    ensures NodesMergeable(specs, nodes) ==> AllNodesMergeable(specs[i], RowsOf(nodes, specs[i].kind))
  {
    assert forall k :: 0 <= k < i ==> specs[..i + 1][k] == specs[..i][k];
    assert specs[..i + 1][i] == specs[i];
  }

  lemma RelsMergeableStep(specs: seq<RelSpec>, i: nat, rels: Extract, known: set<NodeId>)
    requires i < |specs| && RelsMergeable(specs[..i], rels, known)
    ensures RelsMergeable(specs[..i + 1], rels, known) <==>
      AllRelsMergeable(specs[i], RowsOf(rels, specs[i].relType), known)
    ensures RelsMergeable(specs, rels, known) ==> AllRelsMergeable(specs[i], RowsOf(rels, specs[i].relType), known)
  {
    assert forall k :: 0 <= k < i ==> specs[..i + 1][k] == specs[..i][k];
    assert specs[..i + 1][i] == specs[i];
  }

  /** Type after type; the first row that cannot be merged ends the load. */
  method LoadAllNodes(db: GraphDatabase, specs: seq<NodeSpec>, nodes: Extract, run: string, batchSize: nat)
    returns (ok: bool, expected: map<string, nat>)
    requires batchSize > 0
    modifies db`nodes
    ensures ok <==> NodesMergeable(specs, nodes)
    ensures ok ==>
      db.nodes == ApplyAll(old(db.nodes), AllNodePuts(specs, nodes, run)) && expected == NodeCounts(specs, nodes)
  {
    expected := map[];
    for i := 0 to |specs|
      invariant NodesMergeable(specs[..i], nodes)
      invariant db.nodes == ApplyAll(old(db.nodes), AllNodePuts(specs[..i], nodes, run))
      invariant expected == NodeCounts(specs[..i], nodes)
    {
      var rows := RowsOf(nodes, specs[i].kind);
      NodeSpecStep(old(db.nodes), specs, i, nodes, run);
      NodeCountStep(specs, i, nodes);
      NodesMergeableStep(specs, i, nodes);
      ok := LoadNodeRows(db, specs[i], rows, run, batchSize);
      if !ok {
        return;
      }
      expected := expected[specs[i].kind := |rows|];
    }
    assert specs[..|specs|] == specs;
    ok := true;
  }

  method LoadAllRels(db: GraphDatabase, specs: seq<RelSpec>, rels: Extract, run: string, batchSize: nat)
    returns (ok: bool, expected: map<string, nat>)
    requires batchSize > 0
    modifies db`rels
    ensures ok <==> RelsMergeable(specs, rels, db.nodes.Keys)
    ensures ok ==>
      db.rels == ApplyAll(old(db.rels), PutRels(specs, rels, run, db.nodes.Keys)) && expected == RelCounts(specs, rels)
  {
    expected := map[];
    for i := 0 to |specs|
      invariant RelsMergeable(specs[..i], rels, db.nodes.Keys)
      invariant db.rels == ApplyAll(old(db.rels), PutRels(specs[..i], rels, run, db.nodes.Keys))
      invariant expected == RelCounts(specs[..i], rels)
    {
      var rows := RowsOf(rels, specs[i].relType);
      RelSpecStep(old(db.rels), specs, i, rels, run, db.nodes.Keys);
      RelCountStep(specs, i, rels);
      RelsMergeableStep(specs, i, rels, db.nodes.Keys);
      ok := LoadRelRows(db, specs[i], rows, run, batchSize);
      if !ok {
        return;
      }
      expected := expected[specs[i].relType := |rows|];
    }
    assert specs[..|specs|] == specs;
    ok := true;
  }

  /** What passed the null checks can be merged. */
  lemma SoundNodesMergeable(specs: seq<NodeSpec>, nodes: Extract)
    requires NodesSound(specs, nodes)
    ensures NodesMergeable(specs, nodes)
  {
    forall i, k | 0 <= i < |specs| && 0 <= k < |RowsOf(nodes, specs[i].kind)|
      ensures NodeMergeable(specs[i], RowsOf(nodes, specs[i].kind)[k])
    {
      assert NodeSound(specs[i], nodes);
      assert specs[i].uniqueKey in [specs[i].uniqueKey];
    }
  }

  lemma SoundRelsMergeable(specs: Specs, rels: Extract, idSets: map<string, set<Cell>>, known: set<NodeId>)
    requires WellFormed(specs) && RelsSound(specs.rels, rels, idSets)
    ensures RelsMergeable(specs.rels, rels, known)
  {
    forall i, k | 0 <= i < |specs.rels| && 0 <= k < |RowsOf(rels, specs.rels[i].relType)|
      ensures RelMergeable(specs.rels[i], RowsOf(rels, specs.rels[i].relType)[k], known)
    {
      assert RelSound(specs.rels[i], rels, idSets) && RelWellFormed(specs.rels[i], specs.nodes);
    }
  }

  // ---- a sound extract loads exactly ----

  lemma {:induction false} AllNodePutsMembers(specs: seq<NodeSpec>, nodes: Extract, run: string, p: Put<NodeId>)
    ensures p in AllNodePuts(specs, nodes, run) <==>
            exists i :: 0 <= i < |specs| && p in NodePuts(specs[i], RowsOf(nodes, specs[i].kind), run)
  {
    if specs != [] {
      AllNodePutsMembers(specs[..|specs| - 1], nodes, run, p);
      assert specs == specs[..|specs| - 1] + [specs[|specs| - 1]];
    }
  }

  lemma {:induction false} PutRelsMembers(specs: seq<RelSpec>, rels: Extract, run: string, known: set<NodeId>,
      p: Put<RelId>)
    ensures p in PutRels(specs, rels, run, known) <==>
            exists i :: 0 <= i < |specs| && p in RelPuts(specs[i], RowsOf(rels, specs[i].relType), run, known)
  {
    if specs != [] {
      PutRelsMembers(specs[..|specs| - 1], rels, run, known, p);
      assert specs == specs[..|specs| - 1] + [specs[|specs| - 1]];
    }
  }

  lemma PutIdsMembers<I>(ps: seq<Put<I>>, id: I)
    ensures id in PutIds(ps) <==> exists p :: p in ps && p.id == id
  {
    if p :| p in ps && p.id == id {
      var i :| 0 <= i < |ps| && ps[i] == p;
      assert PutIds(ps)[i] == id;
    }
  }

  lemma SoundNodeIds(spec: NodeSpec, nodes: Extract, run: string)
    requires NodeSound(spec, nodes)
    ensures NoDuplicates(PutIds(NodePuts(spec, RowsOf(nodes, spec.kind), run)))
  {
    var rows := RowsOf(nodes, spec.kind);
    NodeIdsDistinct(spec, rows, run);
    forall i, j | 0 <= i < j < |rows| ensures UniqueKeys(spec, rows)[i] != UniqueKeys(spec, rows)[j] {
      assert Keys(rows, [spec.uniqueKey])[i] != Keys(rows, [spec.uniqueKey])[j];
      assert Tuple(rows[i], [spec.uniqueKey])[0] == CellOf(rows[i], spec.uniqueKey);
      assert Tuple(rows[j], [spec.uniqueKey])[0] == CellOf(rows[j], spec.uniqueKey);
    }
  }

  lemma KindsPrefix(specs: seq<NodeSpec>, n: nat)
    requires n < |specs| && NoDuplicates(Kinds(specs))
    ensures NoDuplicates(Kinds(specs[..n]))
    ensures forall i :: 0 <= i < n ==> specs[..n][i] == specs[i] && specs[i].kind != specs[n].kind
  {
    assert forall k :: 0 <= k <= n ==> Kinds(specs)[k] == specs[k].kind;
    assert forall k :: 0 <= k < n ==> Kinds(specs[..n])[k] == Kinds(specs)[k];
  }

  lemma RelTypesPrefix(specs: seq<RelSpec>, n: nat)
    requires n < |specs| && NoDuplicates(RelTypes(specs))
    ensures NoDuplicates(RelTypes(specs[..n]))
    ensures forall i :: 0 <= i < n ==> specs[..n][i] == specs[i] && specs[i].relType != specs[n].relType
  {
    assert forall k :: 0 <= k <= n ==> RelTypes(specs)[k] == specs[k].relType;
    assert forall k :: 0 <= k < n ==> RelTypes(specs[..n])[k] == RelTypes(specs)[k];
  }

  lemma PutIdsConcat<I>(a: seq<Put<I>>, b: seq<Put<I>>)
    ensures PutIds(a + b) == PutIds(a) + PutIds(b)
  {
  }

  lemma {:induction false} SoundNodesDistinct(specs: seq<NodeSpec>, nodes: Extract, run: string)
    requires NoDuplicates(Kinds(specs)) && NodesSound(specs, nodes)
    ensures NoDuplicates(PutIds(AllNodePuts(specs, nodes, run)))
  {
    if specs != [] {
      var n := |specs| - 1;
      KindsPrefix(specs, n);
      SoundNodesDistinct(specs[..n], nodes, run);
      SoundNodeIds(specs[n], nodes, run);
      var front, last := AllNodePuts(specs[..n], nodes, run), NodePuts(specs[n], RowsOf(nodes, specs[n].kind), run);
      forall id | id in PutIds(front) ensures id !in PutIds(last) {
        PutIdsMembers(front, id);
        var p :| p in front && p.id == id;
        AllNodePutsMembers(specs[..n], nodes, run, p);
      }
      PutIdsConcat(front, last);
      ConcatDistinct(PutIds(front), PutIds(last));
    }
  }

  lemma NodeIdLoaded(specs: seq<NodeSpec>, nodes: Extract, run: string, i: nat, id: NodeId)
    requires i < |specs| && id in PutIds(NodePuts(specs[i], RowsOf(nodes, specs[i].kind), run))
    ensures id in PutIds(AllNodePuts(specs, nodes, run)) && id.kind == specs[i].kind
  {
    var all, mine := AllNodePuts(specs, nodes, run), NodePuts(specs[i], RowsOf(nodes, specs[i].kind), run);
    PutIdsMembers(mine, id);
    PutIdsMembers(all, id);
    var p :| p in mine && p.id == id;
    AllNodePutsMembers(specs, nodes, run, p);
  }

  lemma SameKindSameSpec(specs: seq<NodeSpec>, i: nat, k: nat)
    requires NoDuplicates(Kinds(specs)) && i < |specs| && k < |specs| && specs[i].kind == specs[k].kind
    ensures i == k
  {
    assert Kinds(specs)[i] == Kinds(specs)[k];
  }

  lemma NodeIdOfKind(specs: seq<NodeSpec>, nodes: Extract, run: string, i: nat, id: NodeId)
    requires NoDuplicates(Kinds(specs)) && i < |specs| && id in PutIds(AllNodePuts(specs, nodes, run))
      && id.kind == specs[i].kind
    ensures id in PutIds(NodePuts(specs[i], RowsOf(nodes, specs[i].kind), run))
  {
    PutIdsMembers(AllNodePuts(specs, nodes, run), id);
    var p :| p in AllNodePuts(specs, nodes, run) && p.id == id;
    AllNodePutsMembers(specs, nodes, run, p);
    var k :| 0 <= k < |specs| && p in NodePuts(specs[k], RowsOf(nodes, specs[k].kind), run);
    SameKindSameSpec(specs, i, k);
    PutIdsMembers(NodePuts(specs[i], RowsOf(nodes, specs[i].kind), run), id);
  }

  lemma NodeIdsOfKind(specs: seq<NodeSpec>, nodes: Extract, run: string, i: nat)
    requires NoDuplicates(Kinds(specs)) && i < |specs|
    ensures
      var ids := PutIds(NodePuts(specs[i], RowsOf(nodes, specs[i].kind), run));
      (set id | id in PutIds(AllNodePuts(specs, nodes, run)) && id.kind == specs[i].kind) == set id | id in ids
  {
    forall id | id in PutIds(NodePuts(specs[i], RowsOf(nodes, specs[i].kind), run))
      ensures id in PutIds(AllNodePuts(specs, nodes, run)) && id.kind == specs[i].kind
    {
      NodeIdLoaded(specs, nodes, run, i, id);
    }
    forall id | id in PutIds(AllNodePuts(specs, nodes, run)) && id.kind == specs[i].kind
      ensures id in PutIds(NodePuts(specs[i], RowsOf(nodes, specs[i].kind), run))
    {
      NodeIdOfKind(specs, nodes, run, i, id);
    }
  }

  /** Each node type has exactly the nodes of its rows, with their properties. */
  ghost predicate NodesLoaded(specs: seq<NodeSpec>, nodes: Extract, run: string, loaded: map<NodeId, Properties>) {
    forall i :: 0 <= i < |specs| ==>
      var rows := RowsOf(nodes, specs[i].kind);
      && NodeCount(loaded.Keys, specs[i].kind) == |rows|
      && HoldsEach(loaded, NodePuts(specs[i], rows, run))
  }

  lemma SoundNodesLoad(specs: seq<NodeSpec>, nodes: Extract, run: string)
    requires NoDuplicates(Kinds(specs)) && NodesSound(specs, nodes)
    ensures NodesLoaded(specs, nodes, run, ApplyAll(map[], AllNodePuts(specs, nodes, run)))
  {
    var all := AllNodePuts(specs, nodes, run);
    var loaded := ApplyAll(map[], all);
    SoundNodesDistinct(specs, nodes, run);
    AppliedExactly(all);
    AppliedKeys(map[], all);
    forall i | 0 <= i < |specs|
      ensures NodeCount(loaded.Keys, specs[i].kind) == |RowsOf(nodes, specs[i].kind)|
      ensures HoldsEach(loaded, NodePuts(specs[i], RowsOf(nodes, specs[i].kind), run))
    {
      OneKindLoaded(specs, nodes, run, i, loaded);
    }
  }

  lemma OneKindLoaded(specs: seq<NodeSpec>, nodes: Extract, run: string, i: nat, loaded: map<NodeId, Properties>)
    requires NoDuplicates(Kinds(specs)) && NodesSound(specs, nodes) && i < |specs|
    requires HoldsEach(loaded, AllNodePuts(specs, nodes, run))
    requires loaded.Keys == set id | id in PutIds(AllNodePuts(specs, nodes, run))
    ensures NodeCount(loaded.Keys, specs[i].kind) == |RowsOf(nodes, specs[i].kind)|
    ensures HoldsEach(loaded, NodePuts(specs[i], RowsOf(nodes, specs[i].kind), run))
  {
    var mine := NodePuts(specs[i], RowsOf(nodes, specs[i].kind), run);
    NodeIdsOfKind(specs, nodes, run, i);
    SoundNodeIds(specs[i], nodes, run);
    DistinctIffCounted(PutIds(mine));
    assert (set id | id in loaded.Keys && id.kind == specs[i].kind) ==
           (set id | id in PutIds(AllNodePuts(specs, nodes, run)) && id.kind == specs[i].kind);
    forall p | p in mine ensures p in AllNodePuts(specs, nodes, run) {
      AllNodePutsMembers(specs, nodes, run, p);
    }
  }

  /** The nodes are those that the rows name, one for each row, with what the row gives. */
  ghost predicate NodesMirror(specs: seq<NodeSpec>, nodes: Extract, run: string, loaded: map<NodeId, Properties>) {
    && (forall id :: id in loaded ==> exists spec :: spec in specs && spec.kind == id.kind)
    && forall spec :: spec in specs ==> spec.kind in nodes && KindMirrors(spec, nodes[spec.kind], run, loaded)
  }

  ghost predicate KindMirrors(spec: NodeSpec, rows: seq<Row>, run: string, loaded: map<NodeId, Properties>) {
    && (forall row :: row in rows ==> exists id ::
          && Names(row, spec.kind, spec.uniqueKey, id)
          && id in loaded && Shows(loaded[id], row, [spec.uniqueKey] + spec.columns, run))
    && (forall id :: id in loaded && id.kind == spec.kind ==>
          exists row :: row in rows && Names(row, spec.kind, spec.uniqueKey, id))
    && |set id | id in loaded && id.kind == spec.kind| == |rows|
  }

  lemma SoundNodesMirror(specs: seq<NodeSpec>, nodes: Extract, run: string, loaded: map<NodeId, Properties>)
    requires NoDuplicates(Kinds(specs)) && NodesSound(specs, nodes)
    requires loaded == ApplyAll(map[], AllNodePuts(specs, nodes, run))
    ensures NodesMirror(specs, nodes, run, loaded)
  {
    AppliedKeys(map[], AllNodePuts(specs, nodes, run));
    forall spec | spec in specs ensures spec.kind in nodes && KindMirrors(spec, nodes[spec.kind], run, loaded) {
      var i :| 0 <= i < |specs| && specs[i] == spec;
      OneKindMirrors(specs, nodes, run, i, loaded);
    }
    forall id | id in loaded ensures exists spec :: spec in specs && spec.kind == id.kind {
      LoadedNodeKnown(specs, nodes, run, id);
    }
  }

  lemma LoadedNodeKnown(specs: seq<NodeSpec>, nodes: Extract, run: string, id: NodeId)
    requires id in PutIds(AllNodePuts(specs, nodes, run))
    ensures exists spec :: spec in specs && spec.kind == id.kind
  {
    var all := AllNodePuts(specs, nodes, run);
    PutIdsMembers(all, id);
    var p :| p in all && p.id == id;
    AllNodePutsMembers(specs, nodes, run, p);
    var i :| 0 <= i < |specs| && p in NodePuts(specs[i], RowsOf(nodes, specs[i].kind), run);
    assert specs[i] in specs;
  }

  lemma OneKindMirrors(specs: seq<NodeSpec>, nodes: Extract, run: string, i: nat, loaded: map<NodeId, Properties>)
    requires NoDuplicates(Kinds(specs)) && NodesSound(specs, nodes) && i < |specs|
    requires loaded == ApplyAll(map[], AllNodePuts(specs, nodes, run))
    ensures specs[i].kind in nodes && KindMirrors(specs[i], nodes[specs[i].kind], run, loaded)
  {
    SoundNodesLoad(specs, nodes, run);
    AppliedKeys(map[], AllNodePuts(specs, nodes, run));
    assert NodeSound(specs[i], nodes);
    KindMirrored(specs, nodes, run, i, RowsOf(nodes, specs[i].kind), loaded);
  }

  lemma NodeRowShown(spec: NodeSpec, rows: seq<Row>, run: string, loaded: map<NodeId, Properties>, k: nat)
    requires k < |rows| && !HasNull(rows[k], [spec.uniqueKey]) && HoldsEach(loaded, NodePuts(spec, rows, run))
    ensures exists id ::
      && Names(rows[k], spec.kind, spec.uniqueKey, id)
      && id in loaded && Shows(loaded[id], rows[k], [spec.uniqueKey] + spec.columns, run)
  {
    var p := NodePuts(spec, rows, run)[k];
    NodeRowPut(spec, rows[k], run);
    assert spec.uniqueKey in [spec.uniqueKey] && p in NodePuts(spec, rows, run);
    assert Names(rows[k], spec.kind, spec.uniqueKey, p.id);
  }

  lemma NodeIdNamed(spec: NodeSpec, rows: seq<Row>, run: string, id: NodeId)
    requires id in PutIds(NodePuts(spec, rows, run))
    requires forall k :: 0 <= k < |rows| ==> !HasNull(rows[k], [spec.uniqueKey])
    ensures exists row :: row in rows && Names(row, spec.kind, spec.uniqueKey, id)
  {
    var k :| 0 <= k < |rows| && PutIds(NodePuts(spec, rows, run))[k] == id;
    NodeRowPut(spec, rows[k], run);
    assert spec.uniqueKey in [spec.uniqueKey] && rows[k] in rows;
  }

  lemma KindMirrored(specs: seq<NodeSpec>, nodes: Extract, run: string, i: nat, rows: seq<Row>,
      loaded: map<NodeId, Properties>)
    requires NoDuplicates(Kinds(specs)) && i < |specs| && rows == RowsOf(nodes, specs[i].kind)
    requires KeysSound(rows, [specs[i].uniqueKey])
    requires NodeCount(loaded.Keys, specs[i].kind) == |rows| && HoldsEach(loaded, NodePuts(specs[i], rows, run))
    requires loaded.Keys == set id | id in PutIds(AllNodePuts(specs, nodes, run))
    ensures KindMirrors(specs[i], rows, run, loaded)
  {
    var spec := specs[i];
    forall row | row in rows
      ensures exists id ::
        && Names(row, spec.kind, spec.uniqueKey, id)
        && id in loaded && Shows(loaded[id], row, [spec.uniqueKey] + spec.columns, run)
    {
      var k :| 0 <= k < |rows| && rows[k] == row;
      NodeRowShown(spec, rows, run, loaded, k);
    }
    forall id | id in loaded && id.kind == spec.kind
      ensures exists row :: row in rows && Names(row, spec.kind, spec.uniqueKey, id)
    {
      NodeIdOfKind(specs, nodes, run, i, id);
      NodeIdNamed(spec, rows, run, id);
    }
    assert (set id | id in loaded && id.kind == spec.kind) == set id | id in loaded.Keys && id.kind == spec.kind;
  }

  // ---- relationships ----

  lemma TuplesDiffer(spec: RelSpec, nodes: seq<NodeSpec>, a: Row, b: Row, run: string)
    requires RelWellFormed(spec, nodes) && RelPut(spec, a, run).id == RelPut(spec, b, run).id
    ensures Tuple(a, spec.mergeKey) == Tuple(b, spec.mergeKey)
  {
    forall k | 0 <= k < |spec.mergeKey| ensures CellOf(a, spec.mergeKey[k]) == CellOf(b, spec.mergeKey[k]) {
      var c := spec.mergeKey[k];
      assert c in spec.mergeKey;
      if c in spec.pattern {
        var q :| 0 <= q < |spec.pattern| && spec.pattern[q] == c;
        assert Tuple(a, spec.pattern)[q] == Tuple(b, spec.pattern)[q];
      }
    }
  }

  lemma SoundRelIds(spec: RelSpec, nodes: seq<NodeSpec>, rels: Extract, idSets: map<string, set<Cell>>, run: string)
    requires RelWellFormed(spec, nodes) && RelSound(spec, rels, idSets)
    ensures NoDuplicates(PutIds(AllRelPuts(spec, RowsOf(rels, spec.relType), run)))
  {
    var rows := RowsOf(rels, spec.relType);
    var ids := PutIds(AllRelPuts(spec, rows, run));
    forall i, j | 0 <= i < j < |rows| ensures ids[i] != ids[j] {
      assert Keys(rows, spec.mergeKey)[i] != Keys(rows, spec.mergeKey)[j];
      if ids[i] == ids[j] {
        TuplesDiffer(spec, nodes, rows[i], rows[j], run);
      }
    }
  }

  lemma KnownCell(specs: seq<NodeSpec>, nodes: Extract, run: string, kind: string, cell: Cell)
    requires NoDuplicates(Kinds(specs)) && kind in Kinds(specs) && cell in IdsFor(IdSets(specs, nodes), kind)
    requires NodesSound(specs, nodes)
    ensures NodeId(kind, cell) in PutIds(AllNodePuts(specs, nodes, run)) && !cell.Null?
  {
    IdSetsLookup(specs, nodes);
    var i :| 0 <= i < |specs| && Kinds(specs)[i] == kind;
    assert cell in IdCells(specs[i], nodes) && NodeSound(specs[i], nodes);
    KeyCellPut(specs[i], RowsOf(nodes, kind), run, cell);
    NodeIdLoaded(specs, nodes, run, i, NodeId(kind, cell));
  }

  lemma KeyCellPut(spec: NodeSpec, rows: seq<Row>, run: string, cell: Cell)
    requires exists k :: 0 <= k < |rows| && CellOf(rows[k], spec.uniqueKey) == cell
    requires KeysSound(rows, [spec.uniqueKey])
    ensures NodeId(spec.kind, cell) in PutIds(NodePuts(spec, rows, run)) && !cell.Null?
  {
    var k :| 0 <= k < |rows| && CellOf(rows[k], spec.uniqueKey) == cell;
    assert spec.uniqueKey in [spec.uniqueKey];
    assert PutIds(NodePuts(spec, rows, run))[k] == NodeId(spec.kind, cell);
  }

  lemma SoundRelPuts(specs: Specs, i: nat, nodes: Extract, rels: Extract, run: string, known: set<NodeId>)
    requires WellFormed(specs) && i < |specs.rels| && RelSound(specs.rels[i], rels, IdSets(specs.nodes, nodes))
    requires NodesSound(specs.nodes, nodes)
    requires known == set id | id in PutIds(AllNodePuts(specs.nodes, nodes, run))
    ensures
      var rows := RowsOf(rels, specs.rels[i].relType);
      RelPuts(specs.rels[i], rows, run, known) == AllRelPuts(specs.rels[i], rows, run)
  {
    var spec := specs.rels[i];
    var rows := RowsOf(rels, spec.relType);
    assert RelWellFormed(spec, specs.nodes);
    forall k | 0 <= k < |rows| ensures Anchored(spec, rows[k], known) {
      KnownCell(specs.nodes, nodes, run, spec.fromLabel, CellOf(rows[k], spec.fromKey));
      KnownCell(specs.nodes, nodes, run, spec.toLabel, CellOf(rows[k], spec.toKey));
    }
    AnchoredPuts(spec, rows, run, known);
  }

  /** Each relationship type puts distinct relationships, one for each of its rows. */
  ghost predicate RelsDistinct(specs: seq<RelSpec>, rels: Extract, run: string, known: set<NodeId>) {
    forall i :: 0 <= i < |specs| ==>
      var rows := RowsOf(rels, specs[i].relType);
      && RelPuts(specs[i], rows, run, known) == AllRelPuts(specs[i], rows, run)
      && NoDuplicates(PutIds(AllRelPuts(specs[i], rows, run)))
  }

  lemma SoundRelsDistinct(specs: Specs, nodes: Extract, rels: Extract, run: string, known: set<NodeId>)
    requires WellFormed(specs) && Sound(specs, nodes, rels)
    requires known == set id | id in PutIds(AllNodePuts(specs.nodes, nodes, run))
    ensures RelsDistinct(specs.rels, rels, run, known)
  {
    forall i | 0 <= i < |specs.rels|
      ensures
        var rows := RowsOf(rels, specs.rels[i].relType);
        RelPuts(specs.rels[i], rows, run, known) == AllRelPuts(specs.rels[i], rows, run)
        && NoDuplicates(PutIds(AllRelPuts(specs.rels[i], rows, run)))
    {
      assert RelWellFormed(specs.rels[i], specs.nodes);
      SoundRelPuts(specs, i, nodes, rels, run, known);
      SoundRelIds(specs.rels[i], specs.nodes, rels, IdSets(specs.nodes, nodes), run);
    }
  }

  lemma {:induction false} PutRelsDistinct(specs: seq<RelSpec>, rels: Extract, run: string, known: set<NodeId>)
    requires NoDuplicates(RelTypes(specs)) && RelsDistinct(specs, rels, run, known)
    ensures NoDuplicates(PutIds(PutRels(specs, rels, run, known)))
  {
    if specs != [] {
      var n := |specs| - 1;
      RelTypesPrefix(specs, n);
      PutRelsDistinct(specs[..n], rels, run, known);
      var front := PutRels(specs[..n], rels, run, known);
      var last := RelPuts(specs[n], RowsOf(rels, specs[n].relType), run, known);
      forall id | id in PutIds(front) ensures id !in PutIds(last) {
        PutIdsMembers(front, id);
        var p :| p in front && p.id == id;
        PutRelsMembers(specs[..n], rels, run, known, p);
        var k :| 0 <= k < n && p in RelPuts(specs[..n][k], RowsOf(rels, specs[..n][k].relType), run, known);
        RelPutsType(specs[k], RowsOf(rels, specs[k].relType), run, known);
      }
      PutIdsConcat(front, last);
      ConcatDistinct(PutIds(front), PutIds(last));
    }
  }

  lemma RelIdLoaded(specs: seq<RelSpec>, rels: Extract, run: string, known: set<NodeId>, i: nat, id: RelId)
    requires i < |specs| && id in PutIds(RelPuts(specs[i], RowsOf(rels, specs[i].relType), run, known))
    ensures id in PutIds(PutRels(specs, rels, run, known)) && id.relType == specs[i].relType
  {
    var all, mine := PutRels(specs, rels, run, known), RelPuts(specs[i], RowsOf(rels, specs[i].relType), run, known);
    PutIdsMembers(mine, id);
    PutIdsMembers(all, id);
    RelPutsType(specs[i], RowsOf(rels, specs[i].relType), run, known);
    var p :| p in mine && p.id == id;
    PutRelsMembers(specs, rels, run, known, p);
  }

  lemma SameTypeSameSpec(specs: seq<RelSpec>, i: nat, k: nat)
    requires NoDuplicates(RelTypes(specs)) && i < |specs| && k < |specs| && specs[i].relType == specs[k].relType
    ensures i == k
  {
    assert RelTypes(specs)[i] == RelTypes(specs)[k];
  }

  lemma RelIdOfType(specs: seq<RelSpec>, rels: Extract, run: string, known: set<NodeId>, i: nat, id: RelId)
    requires NoDuplicates(RelTypes(specs)) && i < |specs| && id in PutIds(PutRels(specs, rels, run, known))
      && id.relType == specs[i].relType
    ensures id in PutIds(RelPuts(specs[i], RowsOf(rels, specs[i].relType), run, known))
  {
    PutIdsMembers(PutRels(specs, rels, run, known), id);
    var p :| p in PutRels(specs, rels, run, known) && p.id == id;
    PutRelsMembers(specs, rels, run, known, p);
    var k :| 0 <= k < |specs| && p in RelPuts(specs[k], RowsOf(rels, specs[k].relType), run, known);
    RelPutsType(specs[k], RowsOf(rels, specs[k].relType), run, known);
    SameTypeSameSpec(specs, i, k);
    PutIdsMembers(RelPuts(specs[i], RowsOf(rels, specs[i].relType), run, known), id);
  }

  /** Each relationship type has exactly the relationships of its rows, with their properties. */
  ghost predicate RelsLoaded(specs: seq<RelSpec>, rels: Extract, run: string, loaded: map<RelId, Properties>) {
    forall i :: 0 <= i < |specs| ==>
      var rows := RowsOf(rels, specs[i].relType);
      && RelCount(loaded.Keys, specs[i].relType) == |rows|
      && HoldsEach(loaded, AllRelPuts(specs[i], rows, run))
  }

  lemma OneTypeLoaded(specs: seq<RelSpec>, rels: Extract, run: string, known: set<NodeId>, i: nat,
      loaded: map<RelId, Properties>)
    requires NoDuplicates(RelTypes(specs)) && RelsDistinct(specs, rels, run, known) && i < |specs|
    requires HoldsEach(loaded, PutRels(specs, rels, run, known))
    requires loaded.Keys == set id | id in PutIds(PutRels(specs, rels, run, known))
    ensures RelCount(loaded.Keys, specs[i].relType) == |RowsOf(rels, specs[i].relType)|
    ensures HoldsEach(loaded, AllRelPuts(specs[i], RowsOf(rels, specs[i].relType), run))
  {
    var mine := AllRelPuts(specs[i], RowsOf(rels, specs[i].relType), run);
    DistinctIffCounted(PutIds(mine));
    forall id | id in PutIds(mine) ensures id in loaded.Keys && id.relType == specs[i].relType {
      RelIdLoaded(specs, rels, run, known, i, id);
    }
    forall id | id in loaded.Keys && id.relType == specs[i].relType ensures id in PutIds(mine) {
      RelIdOfType(specs, rels, run, known, i, id);
    }
    assert (set id | id in loaded.Keys && id.relType == specs[i].relType) == set id | id in PutIds(mine);
    forall p | p in mine ensures p in PutRels(specs, rels, run, known) {
      PutRelsMembers(specs, rels, run, known, p);
    }
  }

  lemma DistinctRelsLoad(specs: seq<RelSpec>, rels: Extract, run: string, known: set<NodeId>)
    requires NoDuplicates(RelTypes(specs)) && RelsDistinct(specs, rels, run, known)
    ensures RelsLoaded(specs, rels, run, ApplyAll(map[], PutRels(specs, rels, run, known)))
  {
    var all := PutRels(specs, rels, run, known);
    var loaded := ApplyAll(map[], all);
    PutRelsDistinct(specs, rels, run, known);
    AppliedExactly(all);
    AppliedKeys(map[], all);
    forall i | 0 <= i < |specs|
      ensures RelCount(loaded.Keys, specs[i].relType) == |RowsOf(rels, specs[i].relType)|
      ensures HoldsEach(loaded, AllRelPuts(specs[i], RowsOf(rels, specs[i].relType), run))
    {
      OneTypeLoaded(specs, rels, run, known, i, loaded);
    }
  }

  /** The relationships are those that the rows name, one for each row, with what the row gives; both
      ends are loaded nodes. */
  ghost predicate RelsMirror(specs: seq<RelSpec>, rels: Extract, run: string, known: set<NodeId>,
      loaded: map<RelId, Properties>)
  {
    && (forall id :: id in loaded ==>
          id.from in known && id.to in known && exists spec :: spec in specs && spec.relType == id.relType)
    && forall spec :: spec in specs ==> spec.relType in rels && TypeMirrors(spec, rels[spec.relType], run, loaded)
  }

  ghost predicate TypeMirrors(spec: RelSpec, rows: seq<Row>, run: string, loaded: map<RelId, Properties>) {
    && (forall row :: row in rows ==> exists id ::
          NamesRel(spec, row, id) && id in loaded && Shows(loaded[id], row, spec.pattern + spec.columns, run))
    && (forall id :: id in loaded && id.relType == spec.relType ==>
          exists row :: row in rows && NamesRel(spec, row, id))
    && |set id | id in loaded && id.relType == spec.relType| == |rows|
  }

  lemma SoundRelsMirror(specs: Specs, nodes: Extract, rels: Extract, run: string, known: set<NodeId>,
      loaded: map<RelId, Properties>)
    requires WellFormed(specs) && Sound(specs, nodes, rels)
    requires known == set id | id in PutIds(AllNodePuts(specs.nodes, nodes, run))
    requires loaded == ApplyAll(map[], PutRels(specs.rels, rels, run, known))
    ensures RelsMirror(specs.rels, rels, run, known, loaded)
  {
    AppliedKeys(map[], PutRels(specs.rels, rels, run, known));
    forall spec | spec in specs.rels
      ensures spec.relType in rels && TypeMirrors(spec, rels[spec.relType], run, loaded)
    {
      var i :| 0 <= i < |specs.rels| && specs.rels[i] == spec;
      OneTypeMirrors(specs, nodes, rels, run, known, i, loaded);
    }
    forall id | id in loaded
      ensures id.from in known && id.to in known
      ensures exists spec :: spec in specs.rels && spec.relType == id.relType
    {
      LoadedRelKnown(specs.rels, rels, run, known, id);
    }
  }

  lemma OneTypeMirrors(specs: Specs, nodes: Extract, rels: Extract, run: string, known: set<NodeId>, i: nat,
      loaded: map<RelId, Properties>)
    requires WellFormed(specs) && Sound(specs, nodes, rels) && i < |specs.rels|
    requires known == set id | id in PutIds(AllNodePuts(specs.nodes, nodes, run))
    requires loaded == ApplyAll(map[], PutRels(specs.rels, rels, run, known))
    ensures specs.rels[i].relType in rels && TypeMirrors(specs.rels[i], rels[specs.rels[i].relType], run, loaded)
  {
    AppliedKeys(map[], PutRels(specs.rels, rels, run, known));
    SoundRelsDistinct(specs, nodes, rels, run, known);
    DistinctRelsLoad(specs.rels, rels, run, known);
    SoundEndsKnown(specs, nodes, rels, run, known, i);
    TypeMirrored(specs.rels, rels, run, known, i, RowsOf(rels, specs.rels[i].relType), loaded);
  }

  lemma LoadedRelKnown(specs: seq<RelSpec>, rels: Extract, run: string, known: set<NodeId>, id: RelId)
    requires id in PutIds(PutRels(specs, rels, run, known))
    ensures id.from in known && id.to in known && exists spec :: spec in specs && spec.relType == id.relType
  {
    var all := PutRels(specs, rels, run, known);
    PutIdsMembers(all, id);
    var p :| p in all && p.id == id;
    PutRelsMembers(specs, rels, run, known, p);
    var i :| 0 <= i < |specs| && p in RelPuts(specs[i], RowsOf(rels, specs[i].relType), run, known);
    AnchoredRelPut(specs[i], RowsOf(rels, specs[i].relType), run, known, p);
    assert specs[i] in specs;
  }

  lemma {:induction false} AnchoredRelPut(spec: RelSpec, rows: seq<Row>, run: string, known: set<NodeId>, p: Put<RelId>)
    requires p in RelPuts(spec, rows, run, known)
    ensures p.id.relType == spec.relType && p.id.from in known && p.id.to in known
  {
    if p in RelPuts(spec, rows[..|rows| - 1], run, known) {
      AnchoredRelPut(spec, rows[..|rows| - 1], run, known, p);
    }
  }

  ghost predicate AllNameRels(spec: RelSpec, rows: seq<Row>, known: set<NodeId>) {
    forall k :: 0 <= k < |rows| ==> Anchored(spec, rows[k], known) && RelMergeable(spec, rows[k], known)
  }

  lemma SoundEndsKnown(specs: Specs, nodes: Extract, rels: Extract, run: string, known: set<NodeId>, i: nat)
    requires WellFormed(specs) && Sound(specs, nodes, rels) && i < |specs.rels|
    requires known == set id | id in PutIds(AllNodePuts(specs.nodes, nodes, run))
    ensures specs.rels[i].relType in rels
    ensures AllNameRels(specs.rels[i], RowsOf(rels, specs.rels[i].relType), known)
  {
    var spec := specs.rels[i];
    var rows := RowsOf(rels, spec.relType);
    assert RelWellFormed(spec, specs.nodes) && RelSound(spec, rels, IdSets(specs.nodes, nodes));
    forall k | 0 <= k < |rows| ensures Anchored(spec, rows[k], known) && RelMergeable(spec, rows[k], known) {
      KnownCell(specs.nodes, nodes, run, spec.fromLabel, CellOf(rows[k], spec.fromKey));
      KnownCell(specs.nodes, nodes, run, spec.toLabel, CellOf(rows[k], spec.toKey));
    }
  }

  lemma RowShown(spec: RelSpec, rows: seq<Row>, run: string, known: set<NodeId>, loaded: map<RelId, Properties>, k: nat)
    requires k < |rows| && Anchored(spec, rows[k], known) && RelMergeable(spec, rows[k], known)
    requires HoldsEach(loaded, AllRelPuts(spec, rows, run))
    ensures exists id ::
      NamesRel(spec, rows[k], id) && id in loaded && Shows(loaded[id], rows[k], spec.pattern + spec.columns, run)
  {
    var p := AllRelPuts(spec, rows, run)[k];
    RelRowPut(spec, rows[k], run, known);
    assert p in AllRelPuts(spec, rows, run);
    assert NamesRel(spec, rows[k], p.id);
  }

  lemma RelIdNamed(spec: RelSpec, rows: seq<Row>, run: string, known: set<NodeId>, id: RelId)
    requires id in PutIds(AllRelPuts(spec, rows, run))
    requires AllNameRels(spec, rows, known)
    ensures exists row :: row in rows && NamesRel(spec, row, id)
  {
    var k :| 0 <= k < |rows| && PutIds(AllRelPuts(spec, rows, run))[k] == id;
    RelRowPut(spec, rows[k], run, known);
    assert rows[k] in rows;
  }

  lemma TypeMirrored(specs: seq<RelSpec>, rels: Extract, run: string, known: set<NodeId>, i: nat, rows: seq<Row>,
      loaded: map<RelId, Properties>)
    requires NoDuplicates(RelTypes(specs)) && i < |specs| && rows == RowsOf(rels, specs[i].relType)
    requires AllNameRels(specs[i], rows, known)
    requires RelPuts(specs[i], rows, run, known) == AllRelPuts(specs[i], rows, run)
    requires RelCount(loaded.Keys, specs[i].relType) == |rows| && HoldsEach(loaded, AllRelPuts(specs[i], rows, run))
    requires loaded.Keys == set id | id in PutIds(PutRels(specs, rels, run, known))
    ensures TypeMirrors(specs[i], rows, run, loaded)
  {
    var spec := specs[i];
    forall row | row in rows
      ensures exists id ::
        NamesRel(spec, row, id) && id in loaded && Shows(loaded[id], row, spec.pattern + spec.columns, run)
    {
      var k :| 0 <= k < |rows| && rows[k] == row;
      RowShown(spec, rows, run, known, loaded, k);
    }
    forall id | id in loaded && id.relType == spec.relType
      ensures exists row :: row in rows && NamesRel(spec, row, id)
    {
      RelIdOfType(specs, rels, run, known, i, id);
      RelIdNamed(spec, rows, run, known, id);
    }
    assert (set id | id in loaded && id.relType == spec.relType) ==
           set id | id in loaded.Keys && id.relType == spec.relType;
  }

  // ---- the whole synchronisation ----

  method CountAll(db: GraphDatabase, specs: Specs) returns (nodeCounts: map<string, nat>, relCounts: map<string, nat>)
    ensures nodeCounts == map k | k in Kinds(specs.nodes) :: NodeCount(db.nodes.Keys, k)
    ensures relCounts == map k | k in RelTypes(specs.rels) :: RelCount(db.rels.Keys, k)
  {
    nodeCounts := map[];
    for i := 0 to |specs.nodes|
      invariant nodeCounts == map k | k in Kinds(specs.nodes)[..i] :: NodeCount(db.nodes.Keys, k)
    {
      var n := db.CountNodes(specs.nodes[i].kind);
      assert Kinds(specs.nodes)[..i + 1] == Kinds(specs.nodes)[..i] + [specs.nodes[i].kind];
      nodeCounts := nodeCounts[specs.nodes[i].kind := n];
    }
    assert Kinds(specs.nodes)[..|specs.nodes|] == Kinds(specs.nodes);
    relCounts := map[];
    for i := 0 to |specs.rels|
      invariant relCounts == map k | k in RelTypes(specs.rels)[..i] :: RelCount(db.rels.Keys, k)
    {
      var n := db.CountRelationships(specs.rels[i].relType);
      assert RelTypes(specs.rels)[..i + 1] == RelTypes(specs.rels)[..i] + [specs.rels[i].relType];
      relCounts := relCounts[specs.rels[i].relType := n];
    }
    assert RelTypes(specs.rels)[..|specs.rels|] == RelTypes(specs.rels);
  }

  datatype SyncResult = Refused(failures: seq<Problem>) | Loaded(countsMatch: bool)

  /** Validates, loads in batches of any size into a new database, and compares the counts. A valid
      extract is loaded exactly, no statement fails and the comparison cannot either; an invalid one
      leaves the database untouched. */
  method Sync(db: GraphDatabase, specs: Specs, nodes: Extract, rels: Extract, run: string, batchSize: nat)
      returns (r: SyncResult)
    requires WellFormed(specs) && batchSize > 0 && db.nodes == map[] && db.rels == map[]
    modifies db
    ensures r.Loaded? <==> Consistent(specs, nodes, rels)
    ensures r.Refused? ==> r.failures != [] && db.nodes == map[] && db.rels == map[]
    ensures r.Loaded? ==>
      && r.countsMatch && NodesMirror(specs.nodes, nodes, run, db.nodes)
      && RelsMirror(specs.rels, rels, run, db.nodes.Keys, db.rels)
  {
    SoundIff(specs, nodes, rels);
    var failures := ValidateBeforeWrite(specs, nodes, rels);
    if failures != [] {
      return Refused(failures);
    }
    SoundNodesMergeable(specs.nodes, nodes);
    var nodesMerged, expectedNodes := LoadAllNodes(db, specs.nodes, nodes, run, batchSize);
    SoundRelsMergeable(specs, rels, IdSets(specs.nodes, nodes), db.nodes.Keys);
    var relsMerged, expectedRels := LoadAllRels(db, specs.rels, rels, run, batchSize);
    assert nodesMerged && relsMerged;
    SoundMirrors(specs, nodes, rels, run, db.nodes, db.rels);
    SoundCounts(specs, nodes, rels, run, db.nodes, db.rels);
    var nodeCounts, relCounts := CountAll(db, specs);
    r := Loaded(nodeCounts == expectedNodes && relCounts == expectedRels);
  }

  lemma SoundMirrors(specs: Specs, nodes: Extract, rels: Extract, run: string, loadedNodes: map<NodeId, Properties>,
      loadedRels: map<RelId, Properties>)
    requires WellFormed(specs) && Sound(specs, nodes, rels)
    requires loadedNodes == ApplyAll(map[], AllNodePuts(specs.nodes, nodes, run))
    requires loadedRels == ApplyAll(map[], PutRels(specs.rels, rels, run, loadedNodes.Keys))
    ensures NodesMirror(specs.nodes, nodes, run, loadedNodes)
    ensures RelsMirror(specs.rels, rels, run, loadedNodes.Keys, loadedRels)
  {
    LoadedKeys(AllNodePuts(specs.nodes, nodes, run));
    SoundRelsMirror(specs, nodes, rels, run, loadedNodes.Keys, loadedRels);
    SoundNodesMirror(specs.nodes, nodes, run, loadedNodes);
  }

  lemma LoadedKeys<I>(ps: seq<Put<I>>)
    ensures ApplyAll(map[], ps).Keys == set id | id in PutIds(ps)
  {
    AppliedKeys(map[], ps);
  }

  lemma SoundCounts(specs: Specs, nodes: Extract, rels: Extract, run: string, loadedNodes: map<NodeId, Properties>,
      loadedRels: map<RelId, Properties>)
    requires WellFormed(specs) && Sound(specs, nodes, rels)
    requires loadedNodes == ApplyAll(map[], AllNodePuts(specs.nodes, nodes, run))
    requires loadedRels == ApplyAll(map[], PutRels(specs.rels, rels, run, loadedNodes.Keys))
    ensures (map k | k in Kinds(specs.nodes) :: NodeCount(loadedNodes.Keys, k)) == NodeCounts(specs.nodes, nodes)
    ensures (map k | k in RelTypes(specs.rels) :: RelCount(loadedRels.Keys, k)) == RelCounts(specs.rels, rels)
  {
    LoadedKeys(AllNodePuts(specs.nodes, nodes, run));
    SoundNodesLoad(specs.nodes, nodes, run);
    SoundRelsDistinct(specs, nodes, rels, run, loadedNodes.Keys);
    DistinctRelsLoad(specs.rels, rels, run, loadedNodes.Keys);
    CountsAgree(specs, nodes, rels, run, loadedNodes, loadedRels);
  }

  lemma CountsAgree(specs: Specs, nodes: Extract, rels: Extract, run: string, loadedNodes: map<NodeId, Properties>,
      loadedRels: map<RelId, Properties>)
    requires NodesLoaded(specs.nodes, nodes, run, loadedNodes) && RelsLoaded(specs.rels, rels, run, loadedRels)
    ensures (map k | k in Kinds(specs.nodes) :: NodeCount(loadedNodes.Keys, k)) == NodeCounts(specs.nodes, nodes)
    ensures (map k | k in RelTypes(specs.rels) :: RelCount(loadedRels.Keys, k)) == RelCounts(specs.rels, rels)
  {
    forall k | k in Kinds(specs.nodes) ensures NodeCount(loadedNodes.Keys, k) == |RowsOf(nodes, k)| {
      var i :| 0 <= i < |specs.nodes| && Kinds(specs.nodes)[i] == k;
      assert specs.nodes[i].kind == k;
    }
    forall k | k in RelTypes(specs.rels) ensures RelCount(loadedRels.Keys, k) == |RowsOf(rels, k)| {
      var i :| 0 <= i < |specs.rels| && RelTypes(specs.rels)[i] == k;
      assert specs.rels[i].relType == k;
    }
  }

  // ---- the six node types and six relationship types ----

  const NODE_SPECS: seq<NodeSpec> := [
    NodeSpec("Product", "productId", ["name", "sellableFinishedGood", "sourceModifiedAt"]),
    NodeSpec("Supplier", "supplierId", ["name", "active", "sourceModifiedAt"]),
    NodeSpec("WorkOrder", "workOrderId", ["sourceModifiedAt"]),
    NodeSpec("RoutingOperation", "routingOperationKey", ["sequence", "sourceModifiedAt"]),
    NodeSpec("Location", "locationId", ["name", "sourceModifiedAt"]),
    NodeSpec("ScrapReason", "scrapReasonId", ["name", "sourceModifiedAt"])]

  const RELATIONSHIP_SPECS: seq<RelSpec> := [
    RelSpec("SUPPLIES", ["supplyKey"], "Supplier", "Product", "supplierId", "productId", ["supplyKey"], []),
    RelSpec("REQUIRES_COMPONENT", ["bomId"], "Product", "Product", "assemblyProductId", "componentProductId",
            ["bomId"], ["quantityPerAssembly", "startDate", "endDate"]),
    RelSpec("PRODUCES", ["workOrderId", "productId"], "WorkOrder", "Product", "workOrderId", "productId", [], []),
    RelSpec("HAS_OPERATION", ["workOrderId", "routingOperationKey"], "WorkOrder", "RoutingOperation",
            "workOrderId", "routingOperationKey", [], []),
    RelSpec("PERFORMED_AT", ["routingOperationKey", "locationId"], "RoutingOperation", "Location",
            "routingOperationKey", "locationId", [], []),
    RelSpec("SCRAPPED_DUE_TO", ["workOrderId", "scrapReasonId"], "WorkOrder", "ScrapReason",
            "workOrderId", "scrapReasonId", [], [])]

  lemma ShippedKindsDiffer()
    ensures Kinds(NODE_SPECS) == ["Product", "Supplier", "WorkOrder", "RoutingOperation", "Location", "ScrapReason"]
    ensures NoDuplicates(Kinds(NODE_SPECS))
  {
    DifferByPrefix(["Product", "Supplier", "WorkOrder", "RoutingOperation", "Location", "ScrapReason"]);
  }

  lemma ShippedTypesDiffer()
    ensures NoDuplicates(RelTypes(RELATIONSHIP_SPECS))
  {
    var types := ["SUPPLIES", "REQUIRES_COMPONENT", "PRODUCES", "HAS_OPERATION", "PERFORMED_AT", "SCRAPPED_DUE_TO"];
    assert RelTypes(RELATIONSHIP_SPECS) == types;
    DifferByPrefix(types);
  }

  lemma ShippedSpecsWellFormed()
    ensures WellFormed(Specs(NODE_SPECS, RELATIONSHIP_SPECS))
  {
    ShippedKindsDiffer();
    ShippedTypesDiffer();
    var kinds := Kinds(NODE_SPECS);
    assert kinds[0] in kinds && kinds[1] in kinds && kinds[2] in kinds;
    assert kinds[3] in kinds && kinds[4] in kinds && kinds[5] in kinds;
  }

  lemma DifferByPrefix(names: seq<string>)
    requires forall i :: 0 <= i < |names| ==> |names[i]| >= 4
    requires forall i, j :: 0 <= i < j < |names| ==>
      names[i][0] != names[j][0] || names[i][1] != names[j][1] || names[i][3] != names[j][3]
    ensures NoDuplicates(names)
  {
  }
}
