/** Shortages of purchased components, from the bill of materials and the stock. */
module BomShortage {
  import opened Collections
  import opened Wrappers
  import opened Values
  import opened StableSort
  import RowOrdering
  import Composition
  import RetryAgent

  /** The number a decimal text denotes, if it denotes a finite one. */
  type DecimalText = string -> Option<real>

  /** Which fields each source has to return, and how decimal texts are read. */
  datatype Reader = Reader(graphOutputs: set<string>, sqlOutputs: set<string>, decimal: DecimalText)

  const GRAPH_FIELDS: set<string> := {
    "finishedProductId", "finishedProductName", "componentId", "componentName", "depth",
    "pathProductIds", "quantityPerAssembly", "supplierId", "supplierName"}

  const SQL_FIELDS: set<string> := {"componentId", "makeFlag", "actualStock"}

  const MAX_OUTPUT_SCALE: int := 12

  datatype Party = Party(id: int, name: string)

  /** One row of the explosion: a path from the product down to a component, and one supplier. */
  datatype Use = Use(product: Party, component: Party, path: seq<int>, quantities: seq<real>, supplier: Option<Party>)

  datatype Stock = Stock(component: int, made: bool, stock: real)

  // ---- reading the rows ----

  function AsDecimal(v: Value, decimal: DecimalText): Option<real> {
    match v
    case Int(n) => Some(n as real)
    case Real(x) => Some(x)
    case Text(s) => decimal(s)
    case _ => None
  }

  function AsPositive(v: Value, decimal: DecimalText): Option<real> {
    match AsDecimal(v, decimal)
    case Some(x) => if x > 0.0 then Some(x) else None
    case None => None
  }

  function AsParty(id: Value, name: Value): Option<Party> {
    if id.Int? && name.Text? && name.s != "" then Some(Party(id.n, name.s)) else None
  }

  predicate AllIds(items: seq<Value>) { forall i :: 0 <= i < |items| ==> items[i].Int? }

  predicate AllPositive(items: seq<Value>, decimal: DecimalText) {
    forall i :: 0 <= i < |items| ==> AsPositive(items[i], decimal).Some?
  }

  function IdsOf(items: seq<Value>): seq<int>
    requires AllIds(items)
  {
    seq(|items|, i requires 0 <= i < |items| => items[i].n)
  }

  function QuantitiesOf(items: seq<Value>, decimal: DecimalText): seq<real>
    requires AllPositive(items, decimal)
  {
    seq(|items|, i requires 0 <= i < |items| => AsPositive(items[i], decimal).value)
  }

  /** A supplier is named in full or not at all. */
  function ReadSupplier(id: Value, name: Value): Option<Option<Party>> {
    if id.Null? && name.Null? then Some(None)
    else match AsParty(id, name)
      case Some(party) => Some(Some(party))
      case None => None
  }

  /** The path and its quantities, when they fit the depth and the two ends. */
  predicate PathFits(product: Party, component: Party, depth: Value, path: Value, quantities: Value,
      decimal: DecimalText)
  {
    && depth.Int? && depth.n >= 1
    && path.Array? && AllIds(path.items)
    && quantities.Array? && AllPositive(quantities.items, decimal)
    && |path.items| == |quantities.items| + 1 && depth.n == |quantities.items|
    && path.items[0].n == product.id && path.items[|path.items| - 1].n == component.id
  }

  function ReadUse(row: Value, required: set<string>, decimal: DecimalText): Option<Use> {
    if !row.Object? || !(required + GRAPH_FIELDS <= row.fields.Keys) then None
    else
      var f := row.fields;
      match (AsParty(f["finishedProductId"], f["finishedProductName"]), AsParty(f["componentId"], f["componentName"]),
             ReadSupplier(f["supplierId"], f["supplierName"]))
      case (Some(product), Some(component), Some(supplier)) =>
        if !PathFits(product, component, f["depth"], f["pathProductIds"], f["quantityPerAssembly"], decimal) then None
        else
          var path, quantities := f["pathProductIds"].items, f["quantityPerAssembly"].items;
          Some(Use(product, component, IdsOf(path), QuantitiesOf(quantities, decimal), supplier))
      case _ => None
  }

  function ReadStock(row: Value, required: set<string>, decimal: DecimalText): Option<Stock> {
    if !row.Object? || !(required + SQL_FIELDS <= row.fields.Keys) then None
    else
      var f := row.fields;
      match AsDecimal(f["actualStock"], decimal)
      case Some(stock) =>
        if f["componentId"].Int? && f["makeFlag"].Bool? then Some(Stock(f["componentId"].n, f["makeFlag"].b, stock))
        else None
      case None => None
  }

  // ---- what the rows say, field by field ----

  predicate Holds(row: Value, field: string, v: Value) {
    row.Object? && field in row.fields && row.fields[field] == v
  }

  /** `v` stands for the number `x`. */
  predicate Denotes(v: Value, x: real, decimal: DecimalText) {
    || (v.Int? && x == v.n as real)
    || v == Real(x)
    || (v.Text? && decimal(v.s) == Some(x))
  }

  predicate HoldsParty(row: Value, id: string, name: string, party: Party) {
    Holds(row, id, Int(party.id)) && Holds(row, name, Text(party.name)) && party.name != ""
  }

  /** A use as the fields of its row have it. */
  ghost predicate UseRow(row: Value, u: Use, reader: Reader) {
    && row.Object? && (forall field :: field in reader.graphOutputs ==> field in row.fields)
    && HoldsParty(row, "finishedProductId", "finishedProductName", u.product)
    && HoldsParty(row, "componentId", "componentName", u.component)
    && Holds(row, "depth", Int(|u.quantities|)) && |u.quantities| >= 1
    && HoldsPath(row, u.path) && HoldsQuantities(row, u.quantities, reader.decimal)
    && |u.path| == |u.quantities| + 1 && u.path[0] == u.product.id && Last(u.path) == u.component.id
    && match u.supplier
       case Some(party) => HoldsParty(row, "supplierId", "supplierName", party)
       case None => Holds(row, "supplierId", Null) && Holds(row, "supplierName", Null)
  }

  ghost predicate HoldsPath(row: Value, path: seq<int>) {
    && row.Object? && "pathProductIds" in row.fields && row.fields["pathProductIds"].Array?
    && var items := row.fields["pathProductIds"].items;
    |items| == |path| && forall i :: 0 <= i < |path| ==> items[i] == Int(path[i])
  }

  ghost predicate HoldsQuantities(row: Value, quantities: seq<real>, decimal: DecimalText) {
    && row.Object? && "quantityPerAssembly" in row.fields && row.fields["quantityPerAssembly"].Array?
    && var items := row.fields["quantityPerAssembly"].items;
    && |items| == |quantities|
    && forall i :: 0 <= i < |quantities| ==> quantities[i] > 0.0 && Denotes(items[i], quantities[i], decimal)
  }

  /** A stock as the fields of its row have it. */
  ghost predicate StockRow(row: Value, s: Stock, reader: Reader) {
    && row.Object? && (forall field :: field in reader.sqlOutputs ==> field in row.fields)
    && Holds(row, "componentId", Int(s.component)) && Holds(row, "makeFlag", Bool(s.made))
    && "actualStock" in row.fields && Denotes(row.fields["actualStock"], s.stock, reader.decimal)
  }

  lemma DecimalIff(v: Value, x: real, decimal: DecimalText)
    ensures AsDecimal(v, decimal) == Some(x) <==> Denotes(v, x, decimal)
    ensures AsPositive(v, decimal) == Some(x) <==> Denotes(v, x, decimal) && x > 0.0
  {
  }

  lemma StockIsRead(row: Value, s: Stock, reader: Reader)
    ensures ReadStock(row, reader.sqlOutputs, reader.decimal) == Some(s) <==> StockRow(row, s, reader)
  {
    if row.Object? && "actualStock" in row.fields {
      DecimalIff(row.fields["actualStock"], s.stock, reader.decimal);
    }
  }

  lemma PathIsRead(row: Value, path: seq<int>)
    requires row.Object? && "pathProductIds" in row.fields
    ensures HoldsPath(row, path) <==>
      row.fields["pathProductIds"].Array? && AllIds(row.fields["pathProductIds"].items)
          && path == IdsOf(row.fields["pathProductIds"].items)
  {
  }

  lemma QuantitiesAreRead(row: Value, quantities: seq<real>, decimal: DecimalText)
    requires row.Object? && "quantityPerAssembly" in row.fields
    ensures HoldsQuantities(row, quantities, decimal) <==>
      row.fields["quantityPerAssembly"].Array? && AllPositive(row.fields["quantityPerAssembly"].items, decimal)
          && quantities == QuantitiesOf(row.fields["quantityPerAssembly"].items, decimal)
  {
    if row.fields["quantityPerAssembly"].Array? {
      var items := row.fields["quantityPerAssembly"].items;
      forall i, x: real | 0 <= i < |items|
        ensures AsPositive(items[i], decimal) == Some(x) <==> Denotes(items[i], x, decimal) && x > 0.0
      {
        DecimalIff(items[i], x, decimal);
      }
    }
  }

  lemma UseIsRead(row: Value, u: Use, reader: Reader)
    ensures ReadUse(row, reader.graphOutputs, reader.decimal) == Some(u) <==> UseRow(row, u, reader)
  {
    if row.Object? && "pathProductIds" in row.fields && "quantityPerAssembly" in row.fields {
      PathIsRead(row, u.path);
      QuantitiesAreRead(row, u.quantities, reader.decimal);
    }
  }

  // ---- what the result must be ----

  /** Two rows can stand side by side: one product, and one name or quantity for one thing. */
  predicate Agree(a: Use, b: Use) {
    && (a.component.id == b.component.id ==> a.component == b.component && a.product == b.product)
    && (a.component.id == b.component.id && a.path == b.path ==> a.quantities == b.quantities)
    && (a.supplier.Some? && b.supplier.Some? && a.supplier.value.id == b.supplier.value.id ==> a.supplier == b.supplier)
  }

  ghost predicate Consistent(uses: seq<Use>) {
    && (forall i, j :: 0 <= i < j < |uses| ==> Agree(uses[i], uses[j]))
    && (forall i, j :: 0 <= i < j < |uses| ==> uses[i].product == uses[j].product)
  }

  function Product(quantities: seq<real>): real {
    if quantities == [] then 1.0 else Product(quantities[..|quantities| - 1]) * quantities[|quantities| - 1]
  }

  datatype Path = Path(nodes: seq<int>, quantities: seq<real>)

  /** The distinct paths that lead to a component. */
  ghost function PathsTo(uses: set<Use>, component: int): set<Path> {
    set u | u in uses && u.component.id == component :: Path(u.path, u.quantities)
  }

  ghost function PerUnit(paths: set<Path>): real {
    if paths == {} then 0.0
    else var p :| p in paths; Product(p.quantities) + PerUnit(paths - {p})
  }

  ghost function Scaled(paths: set<Path>, production: real): real { production * PerUnit(paths) }

  /** The production quantity times the sum over the distinct paths of their products. */
  ghost function Required(uses: set<Use>, component: int, production: real): real {
    Scaled(PathsTo(uses, component), production)
  }

  ghost function SuppliersOf(uses: set<Use>, component: int): set<Party> {
    set u | u in uses && u.component.id == component && u.supplier.Some? :: u.supplier.value
  }

  /** `x` rounded to a whole number, ties to the even one. */
  function RoundHalfEven(x: real): int {
    var below := x.Floor;
    var rest := x - below as real;
    if rest < 0.5 || (rest == 0.5 && below % 2 == 0) then below else below + 1
  }

  function PowerOfTen(n: nat): int { if n == 0 then 1 else 10 * PowerOfTen(n - 1) }

  /** `x` in units of the last decimal place kept. */
  function Quantize(x: real, scale: nat): int { RoundHalfEven(x * PowerOfTen(scale) as real) }

  /** `n` is nearest to `x`, and even when two whole numbers are equally near. */
  predicate NearestEven(x: real, n: int) {
    && -0.5 <= x - n as real <= 0.5
    && (x - n as real == 0.5 || x - n as real == -0.5 ==> n % 2 == 0)
  }

  lemma RoundsToNearestEven(x: real, n: int)
    ensures NearestEven(x, n) <==> n == RoundHalfEven(x)
  {
    var below := x.Floor;
    assert below as real <= x < below as real + 1.0;
    if NearestEven(x, n) {
      assert below - 1 < n < below + 2;
    }
  }

  lemma RoundingIsMonotone(x: real, y: real)
    requires x <= y
    ensures RoundHalfEven(x) <= RoundHalfEven(y)
  {
    assert x.Floor <= y.Floor;
  }

  /** How many units make one, for each number of decimal places that may be asked for. */
  const UNITS: seq<int> := [
    1, 10, 100, 1_000, 10_000, 100_000, 1_000_000, 10_000_000, 100_000_000, 1_000_000_000,
    10_000_000_000, 100_000_000_000, 1_000_000_000_000]

  lemma {:induction false} PowersAreUnits(scale: nat)
    requires scale < |UNITS|
    ensures PowerOfTen(scale) == UNITS[scale]
  {
    if scale > 0 {
      PowersAreUnits(scale - 1);
    }
  }

  /** `n` counts the units of the last decimal place kept that are nearest to `x`. */
  predicate Rounded(x: real, scale: nat, n: int) {
    scale < |UNITS| && NearestEven(x * UNITS[scale] as real, n)
  }

  lemma QuantizeRounds(x: real, scale: nat, n: int)
    requires scale < |UNITS|
    ensures Rounded(x, scale, n) <==> n == Quantize(x, scale)
  {
    PowersAreUnits(scale);
    RoundsToNearestEven(x * PowerOfTen(scale) as real, n);
  }

  /** One line of the answer; quantities are counted in units of the last decimal place. */
  datatype Shortage = Shortage(
    product: Party, productionQty: int, component: Party, requiredQty: int, actualStock: int, shortageQty: int,
    suppliers: seq<Party>)

  /** Largest shortage first, then by component. */
  function ByShortage(): Comparator<Shortage> {
    (a: Shortage, b: Shortage) =>
      if a.shortageQty != b.shortageQty then b.shortageQty - a.shortageQty else a.component.id - b.component.id
  }

  function BySupplier(): Comparator<Party> {
    (a: Party, b: Party) =>
      if a.id != b.id then a.id - b.id
      else if RowOrdering.TextLess(a.name, b.name) then -1
      else if RowOrdering.TextLess(b.name, a.name) then 1
      else 0
  }

  function Max(a: real, b: real): real { if a >= b then a else b }

  ghost predicate IsLine(line: Shortage, uses: set<Use>, u: Use, stock: real, production: real, scale: nat) {
    var required := Required(uses, u.component.id, production);
    && line.product == u.product && line.component == u.component
    && Rounded(production, scale, line.productionQty)
    && Rounded(required, scale, line.requiredQty)
    && Rounded(stock, scale, line.actualStock)
    && Rounded(if required > stock then required - stock else 0.0, scale, line.shortageQty)
    && Sorted(line.suppliers, BySupplier())
    && (forall i, j :: 0 <= i < j < |line.suppliers| ==> line.suppliers[i].id <= line.suppliers[j].id)
    && multiset(line.suppliers) == multiset(SuppliersOf(uses, u.component.id))
  }

  /** The component is bought and its stock does not cover what is required. */
  ghost predicate IsShort(uses: set<Use>, s: Stock, production: real) {
    !s.made && s.stock < Required(uses, s.component, production)
  }

  /** A line for a short component of the stock table. */
  ghost predicate ReportsShort(line: Shortage, uses: set<Use>, stocks: seq<Stock>, production: real, scale: nat) {
    exists u, s :: u in uses && s in stocks && s.component == u.component.id && IsShort(uses, s, production)
                   && IsLine(line, uses, u, s.stock, production, scale)
  }

  /** No line is repeated and no component has two. */
  ghost predicate OneEach(lines: seq<Shortage>) {
    && (forall line :: line in lines ==> multiset(lines)[line] == 1)
    && forall a, b :: a in lines && b in lines && a.component.id == b.component.id ==> a == b
  }

  ghost predicate HasLine(lines: seq<Shortage>, component: int) {
    exists line :: line in lines && line.component.id == component
  }

  /** Largest shortage first, and components in ascending order where they are equal. */
  ghost predicate InReportOrder(lines: seq<Shortage>) {
    forall i, j :: 0 <= i < j < |lines| ==>
      || lines[i].shortageQty > lines[j].shortageQty
      || (lines[i].shortageQty == lines[j].shortageQty && lines[i].component.id < lines[j].component.id)
  }

  /** `lines` reports exactly the short components, one line each, in order. */
  ghost predicate IsReport(lines: seq<Shortage>, uses: set<Use>, stocks: seq<Stock>, production: real, scale: nat) {
    && InReportOrder(lines)
    && OneEach(lines)
    && (forall line :: line in lines ==> ReportsShort(line, uses, stocks, production, scale))
    && (forall s :: s in stocks && IsShort(uses, s, production) ==> HasLine(lines, s.component))
  }

  /** What one path requires, multiplied up as it is walked. */
  function PathRequired(production: real, quantities: seq<real>): real {
    if quantities == [] then production
    else PathRequired(production, quantities[..|quantities| - 1]) * quantities[|quantities| - 1]
  }

  lemma {:induction false} PathRequiredIsProduct(production: real, quantities: seq<real>)
    ensures PathRequired(production, quantities) == production * Product(quantities)
  {
    if quantities != [] {
      PathRequiredIsProduct(production, quantities[..|quantities| - 1]);
    }
  }

  method WalkPath(production: real, quantities: seq<real>) returns (r: real)
    ensures r == PathRequired(production, quantities)
  {
    r := production;
    for i := 0 to |quantities|
      invariant r == PathRequired(production, quantities[..i])
    {
      assert quantities[..i + 1][..i] == quantities[..i];
      r := r * quantities[i];
    }
    assert quantities[..|quantities|] == quantities;
  }

  // ---- the tables filled row by row ----

  datatype Entry = Entry(product: Party, component: Party, paths: map<seq<int>, real>, suppliers: set<Party>)

  datatype Ledger = Ledger(components: map<int, Entry>, names: map<int, string>,
      quantities: map<(int, seq<int>), seq<real>>)

  function PathKey(u: Use): (int, seq<int>) { (u.component.id, u.path) }

  ghost predicate TracksNames(names: map<int, string>, uses: seq<Use>) {
    && (forall u :: u in uses && u.supplier.Some? ==>
        u.supplier.value.id in names && names[u.supplier.value.id] == u.supplier.value.name)
    && (forall id :: id in names ==> exists u :: u in uses && u.supplier.Some? && u.supplier.value.id == id)
  }

  ghost predicate TracksQuantities(quantities: map<(int, seq<int>), seq<real>>, uses: seq<Use>) {
    && (forall u :: u in uses ==> PathKey(u) in quantities && quantities[PathKey(u)] == u.quantities)
    && (forall key :: key in quantities ==> exists u :: u in uses && PathKey(u) == key)
  }

  ghost predicate EntryHas(entry: Entry, u: Use, production: real) {
    && entry.product == u.product && entry.component == u.component
    && u.path in entry.paths && entry.paths[u.path] == PathRequired(production, u.quantities)
    && (u.supplier.Some? ==> u.supplier.value in entry.suppliers)
  }

  /** The entry holds what the rows of its component say, and nothing else. */
  ghost predicate EntryTracks(entry: Entry, id: int, uses: seq<Use>) {
    && (forall path :: path in entry.paths ==> exists u :: u in uses && u.component.id == id && u.path == path)
    && (forall s :: s in entry.suppliers ==> exists u :: u in uses && u.component.id == id && u.supplier == Some(s))
    && (exists u :: u in uses && u.component.id == id)
  }

  ghost predicate TracksComponents(components: map<int, Entry>, uses: seq<Use>, production: real) {
    && (forall u :: u in uses ==> u.component.id in components && EntryHas(components[u.component.id], u, production))
    && (forall id :: id in components ==> EntryTracks(components[id], id, uses))
  }

  ghost predicate Tracks(l: Ledger, uses: seq<Use>, production: real) {
    && TracksNames(l.names, uses)
    && TracksQuantities(l.quantities, uses)
    && TracksComponents(l.components, uses, production)
  }

  predicate NameFits(names: map<int, string>, u: Use) {
    u.supplier.Some? && u.supplier.value.id in names ==> names[u.supplier.value.id] == u.supplier.value.name
  }

  predicate QuantitiesFit(quantities: map<(int, seq<int>), seq<real>>, u: Use) {
    PathKey(u) in quantities ==> quantities[PathKey(u)] == u.quantities
  }

  predicate IdentityFits(components: map<int, Entry>, u: Use) {
    u.component.id in components ==>
      components[u.component.id].product == u.product && components[u.component.id].component == u.component
  }

  function EnterName(names: map<int, string>, u: Use): map<int, string> {
    if u.supplier.None? || u.supplier.value.id in names then names
    else names[u.supplier.value.id := u.supplier.value.name]
  }

  function EnterQuantities(quantities: map<(int, seq<int>), seq<real>>, u: Use): map<(int, seq<int>), seq<real>> {
    if PathKey(u) in quantities then quantities else quantities[PathKey(u) := u.quantities]
  }

  function EnterComponent(components: map<int, Entry>, u: Use, pathRequired: real): map<int, Entry> {
    var entry :=
      if u.component.id in components then components[u.component.id]
      else Entry(u.product, u.component, map[], {});
    var paths := if u.path in entry.paths then entry.paths else entry.paths[u.path := pathRequired];
    var suppliers := if u.supplier.Some? then entry.suppliers + {u.supplier.value} else entry.suppliers;
    components[u.component.id := entry.(paths := paths, suppliers := suppliers)]
  }

  lemma NamesAgree(names: map<int, string>, uses: seq<Use>, u: Use)
    requires TracksNames(names, uses)
    ensures NameFits(names, u) <==>
      forall v :: v in uses && v.supplier.Some? && u.supplier.Some? && v.supplier.value.id == u.supplier.value.id ==>
        v.supplier == u.supplier
    ensures NameFits(names, u) ==> TracksNames(EnterName(names, u), uses + [u])
  {
    if NameFits(names, u) {
      assert u in uses + [u];
      forall id | id in EnterName(names, u)
        ensures exists v :: v in uses + [u] && v.supplier.Some? && v.supplier.value.id == id
      {
        if id in names {
          var v :| v in uses && v.supplier.Some? && v.supplier.value.id == id;
          assert v in uses + [u];
        }
      }
    }
  }

  lemma QuantitiesAgree(quantities: map<(int, seq<int>), seq<real>>, uses: seq<Use>, u: Use)
    requires TracksQuantities(quantities, uses)
    ensures QuantitiesFit(quantities, u) <==>
      forall v :: v in uses && PathKey(v) == PathKey(u) ==> v.quantities == u.quantities
    ensures QuantitiesFit(quantities, u) ==> TracksQuantities(EnterQuantities(quantities, u), uses + [u])
  {
    if QuantitiesFit(quantities, u) {
      assert u in uses + [u];
      forall key | key in EnterQuantities(quantities, u)
        ensures exists v :: v in uses + [u] && PathKey(v) == key
      {
        if key in quantities {
          var v :| v in uses && PathKey(v) == key;
          assert v in uses + [u];
        }
      }
    }
  }

  lemma IdentitiesAgree(components: map<int, Entry>, uses: seq<Use>, u: Use, production: real)
    requires TracksComponents(components, uses, production)
    ensures IdentityFits(components, u) <==>
      forall v :: v in uses && v.component.id == u.component.id ==> v.product == u.product && v.component == u.component
  {
    if u.component.id in components {
      assert EntryTracks(components[u.component.id], u.component.id, uses);
    }
  }

  lemma EntryTracksMore(entry: Entry, id: int, uses: seq<Use>, u: Use)
    requires EntryTracks(entry, id, uses)
    ensures EntryTracks(entry, id, uses + [u])
  {
    assert forall v :: v in uses ==> v in uses + [u];
  }

  lemma SamePathSameQuantities(components: map<int, Entry>, uses: seq<Use>, u: Use, production: real)
    requires TracksComponents(components, uses, production)
    requires forall v :: v in uses && PathKey(v) == PathKey(u) ==> v.quantities == u.quantities
    requires u.component.id in components && u.path in components[u.component.id].paths
    ensures components[u.component.id].paths[u.path] == PathRequired(production, u.quantities)
  {
    var entry := components[u.component.id];
    assert EntryTracks(entry, u.component.id, uses);
    var v :| v in uses && v.component.id == u.component.id && v.path == u.path;
    assert EntryHas(entry, v, production);
  }

  lemma EnteredEntry(entry: Entry, id: int, uses: seq<Use>, u: Use, entry': Entry)
    requires u.component.id == id
    requires EntryTracks(entry, id, uses) || (entry.paths == map[] && entry.suppliers == {})
    requires entry'.paths.Keys == entry.paths.Keys + {u.path}
    requires entry'.suppliers == entry.suppliers + if u.supplier.Some? then {u.supplier.value} else {}
    ensures EntryTracks(entry', id, uses + [u])
  {
    assert u in uses + [u];
    assert forall v :: v in uses ==> v in uses + [u];
    forall path | path in entry'.paths ensures exists v :: v in uses + [u] && v.component.id == id && v.path == path {
      if path in entry.paths {
        var v :| v in uses && v.component.id == id && v.path == path;
        assert v in uses + [u];
      }
    }
    forall s | s in entry'.suppliers
        ensures exists v :: v in uses + [u] && v.component.id == id && v.supplier == Some(s) {
      if s in entry.suppliers {
        var v :| v in uses && v.component.id == id && v.supplier == Some(s);
        assert v in uses + [u];
      }
    }
  }

  lemma EnteredHas(components: map<int, Entry>, uses: seq<Use>, u: Use, v: Use, production: real, pathRequired: real)
    requires TracksComponents(components, uses, production) && IdentityFits(components, u)
    requires v in uses
    ensures
      var next := EnterComponent(components, u, pathRequired);
      v.component.id in next && EntryHas(next[v.component.id], v, production)
  {
    assert EntryHas(components[v.component.id], v, production);
  }

  lemma NewHas(components: map<int, Entry>, uses: seq<Use>, u: Use, production: real, pathRequired: real)
    requires TracksComponents(components, uses, production) && IdentityFits(components, u)
    requires forall v :: v in uses && PathKey(v) == PathKey(u) ==> v.quantities == u.quantities
    requires pathRequired == PathRequired(production, u.quantities)
    ensures EntryHas(EnterComponent(components, u, pathRequired)[u.component.id], u, production)
  {
    if u.component.id in components && u.path in components[u.component.id].paths {
      SamePathSameQuantities(components, uses, u, production);
    }
  }

  lemma EnteredTracks(components: map<int, Entry>, uses: seq<Use>, u: Use, production: real, pathRequired: real,
      id: int)
    requires TracksComponents(components, uses, production)
    requires id in EnterComponent(components, u, pathRequired)
    ensures EntryTracks(EnterComponent(components, u, pathRequired)[id], id, uses + [u])
  {
    var c := u.component.id;
    if id == c {
      var entry := if c in components then components[c] else Entry(u.product, u.component, map[], {});
      EnteredEntry(entry, c, uses, u, EnterComponent(components, u, pathRequired)[c]);
    } else {
      EntryTracksMore(components[id], id, uses, u);
    }
  }

  lemma EnterComponentTracks(components: map<int, Entry>, uses: seq<Use>, u: Use, production: real, pathRequired: real)
    requires TracksComponents(components, uses, production) && IdentityFits(components, u)
    requires forall v :: v in uses && PathKey(v) == PathKey(u) ==> v.quantities == u.quantities
    requires pathRequired == PathRequired(production, u.quantities)
    ensures TracksComponents(EnterComponent(components, u, pathRequired), uses + [u], production)
  {
    var next := EnterComponent(components, u, pathRequired);
    forall v | v in uses + [u] ensures v.component.id in next && EntryHas(next[v.component.id], v, production) {
      if v in uses {
        EnteredHas(components, uses, u, v, production, pathRequired);
      } else {
        NewHas(components, uses, u, production, pathRequired);
      }
    }
    forall id | id in next ensures EntryTracks(next[id], id, uses + [u]) {
      EnteredTracks(components, uses, u, production, pathRequired, id);
    }
  }

  predicate AgreesWithAll(uses: seq<Use>, u: Use) { forall v :: v in uses ==> Agree(v, u) }

  /** Enters one row; none if it contradicts an earlier one. */
  method EnterUse(l: Ledger, u: Use, production: real, ghost uses: seq<Use>) returns (r: Option<Ledger>)
    requires Tracks(l, uses, production)
    ensures r.Some? <==> AgreesWithAll(uses, u)
    ensures r.Some? ==> Tracks(r.value, uses + [u], production)
  {
    NamesAgree(l.names, uses, u);
    IdentitiesAgree(l.components, uses, u, production);
    QuantitiesAgree(l.quantities, uses, u);
    if !NameFits(l.names, u) {
      return None;
    }
    if !IdentityFits(l.components, u) {
      return None;
    }
    if !QuantitiesFit(l.quantities, u) {
      return None;
    }
    var pathRequired := WalkPath(production, u.quantities);
    EnterComponentTracks(l.components, uses, u, production, pathRequired);
    var components := EnterComponent(l.components, u, pathRequired);
    r := Some(Ledger(components, EnterName(l.names, u), EnterQuantities(l.quantities, u)));
  }

  ghost predicate PairwiseAgree(uses: seq<Use>) { forall i, j :: 0 <= i < j < |uses| ==> Agree(uses[i], uses[j]) }

  lemma PairwiseSnoc(uses: seq<Use>, u: Use)
    ensures PairwiseAgree(uses + [u]) <==> PairwiseAgree(uses) && AgreesWithAll(uses, u)
  {
    var longer := uses + [u];
    if PairwiseAgree(longer) {
      forall i, j | 0 <= i < j < |uses| ensures Agree(uses[i], uses[j]) {
        assert Agree(longer[i], longer[j]);
      }
      forall v | v in uses ensures Agree(v, u) {
        var i :| 0 <= i < |uses| && uses[i] == v;
        assert Agree(longer[i], longer[|uses|]);
      }
    }
  }

  lemma PairwisePrefix(uses: seq<Use>, n: nat)
    requires n <= |uses| && PairwiseAgree(uses)
    ensures PairwiseAgree(uses[..n])
  {
  }

  datatype BomError =
    | BadScale | BadProduction | BadGraphRow(row: nat) | Contradiction(row: nat) | SeveralProducts
    | BadSqlRow(row: nat) | DuplicateStock(row: nat) | DomainsDiffer

  predicate UsesReadable(rows: seq<Value>, reader: Reader) {
    forall i :: 0 <= i < |rows| ==> ReadUse(rows[i], reader.graphOutputs, reader.decimal).Some?
  }

  function UsesIn(rows: seq<Value>, reader: Reader): seq<Use>
    requires UsesReadable(rows, reader)
  {
    seq(|rows|, i requires 0 <= i < |rows| => ReadUse(rows[i], reader.graphOutputs, reader.decimal).value)
  }

  function ProductsOf(uses: seq<Use>): set<Party> { set i | 0 <= i < |uses| :: uses[i].product }

  lemma UsesSnoc(rows: seq<Value>, i: nat, reader: Reader, u: Use)
    requires i < |rows| && UsesReadable(rows[..i], reader)
    requires ReadUse(rows[i], reader.graphOutputs, reader.decimal) == Some(u)
    ensures UsesReadable(rows[..i + 1], reader)
    ensures UsesIn(rows[..i + 1], reader) == UsesIn(rows[..i], reader) + [u]
  {
  }

  lemma ContradictionStays(rows: seq<Value>, i: nat, reader: Reader, u: Use)
    requires i < |rows| && UsesReadable(rows[..i], reader)
    requires ReadUse(rows[i], reader.graphOutputs, reader.decimal) == Some(u)
    requires !AgreesWithAll(UsesIn(rows[..i], reader), u)
    ensures UsesReadable(rows, reader) ==> !PairwiseAgree(UsesIn(rows, reader))
  {
    if UsesReadable(rows, reader) && PairwiseAgree(UsesIn(rows, reader)) {
      PairwisePrefix(UsesIn(rows, reader), i + 1);
      assert UsesIn(rows, reader)[..i + 1] == UsesIn(rows[..i], reader) + [u];
      PairwiseSnoc(UsesIn(rows[..i], reader), u);
    }
  }

  method CollectUses(rows: seq<Value>, reader: Reader, production: real)
      returns (r: Result<Ledger, BomError>, products: set<Party>)
    ensures r.Success? <==> UsesReadable(rows, reader) && PairwiseAgree(UsesIn(rows, reader))
    ensures r.Success? ==>
      Tracks(r.value, UsesIn(rows, reader), production) && products == ProductsOf(UsesIn(rows, reader))
  {
    var ledger := Ledger(map[], map[], map[]);
    products := {};
    for i := 0 to |rows|
      invariant UsesReadable(rows[..i], reader) && PairwiseAgree(UsesIn(rows[..i], reader))
      invariant Tracks(ledger, UsesIn(rows[..i], reader), production)
      invariant products == ProductsOf(UsesIn(rows[..i], reader))
    {
      var use := ReadUse(rows[i], reader.graphOutputs, reader.decimal);
      if use.None? {
        return Failure(BadGraphRow(i)), products;
      }
      UsesSnoc(rows, i, reader, use.value);
      PairwiseSnoc(UsesIn(rows[..i], reader), use.value);
      ProductsSnoc(UsesIn(rows[..i], reader), use.value);
      var entered := EnterUse(ledger, use.value, production, UsesIn(rows[..i], reader));
      if entered.None? {
        ContradictionStays(rows, i, reader, use.value);
        return Failure(Contradiction(i)), products;
      }
      ledger := entered.value;
      products := products + {use.value.product};
    }
    assert rows[..|rows|] == rows;
    r := Success(ledger);
  }

  lemma ProductsSnoc(uses: seq<Use>, u: Use)
    ensures ProductsOf(uses + [u]) == ProductsOf(uses) + {u.product}
  {
    assert (uses + [u])[|uses|] == u;
    assert forall i :: 0 <= i < |uses| ==> (uses + [u])[i] == uses[i];
  }

  // ---- the stock table ----

  predicate StocksReadable(rows: seq<Value>, reader: Reader) {
    forall i :: 0 <= i < |rows| ==> ReadStock(rows[i], reader.sqlOutputs, reader.decimal).Some?
  }

  function StocksIn(rows: seq<Value>, reader: Reader): seq<Stock>
    requires StocksReadable(rows, reader)
  {
    seq(|rows|, i requires 0 <= i < |rows| => ReadStock(rows[i], reader.sqlOutputs, reader.decimal).value)
  }

  ghost predicate DistinctStocks(stocks: seq<Stock>) {
    forall i, j :: 0 <= i < j < |stocks| ==> stocks[i].component != stocks[j].component
  }

  ghost predicate TracksStocks(table: map<int, Stock>, stocks: seq<Stock>) {
    && (forall s :: s in stocks ==> s.component in table && table[s.component] == s)
    && (forall c :: c in table ==> table[c] in stocks && table[c].component == c)
  }

  lemma StocksSnoc(rows: seq<Value>, i: nat, reader: Reader, s: Stock)
    requires i < |rows| && StocksReadable(rows[..i], reader)
    requires ReadStock(rows[i], reader.sqlOutputs, reader.decimal) == Some(s)
    ensures StocksReadable(rows[..i + 1], reader)
    ensures StocksIn(rows[..i + 1], reader) == StocksIn(rows[..i], reader) + [s]
  {
  }

  lemma EnterStock(table: map<int, Stock>, stocks: seq<Stock>, s: Stock)
    requires TracksStocks(table, stocks) && DistinctStocks(stocks)
    ensures DistinctStocks(stocks + [s]) <==> s.component !in table
    ensures s.component !in table ==> TracksStocks(table[s.component := s], stocks + [s])
  {
    var longer := stocks + [s];
    if s.component in table {
      var i :| 0 <= i < |stocks| && stocks[i] == table[s.component];
      assert longer[i].component == longer[|stocks|].component;
    }
  }

  lemma DistinctSoFar(rows: seq<Value>, i: nat, reader: Reader, s: Stock)
    requires i < |rows| && StocksReadable(rows[..i], reader)
    requires ReadStock(rows[i], reader.sqlOutputs, reader.decimal) == Some(s)
    ensures StocksReadable(rows, reader) && DistinctStocks(StocksIn(rows, reader)) ==>
      DistinctStocks(StocksIn(rows[..i], reader) + [s])
  {
    if StocksReadable(rows, reader) && DistinctStocks(StocksIn(rows, reader)) {
      assert StocksIn(rows, reader)[..i + 1] == StocksIn(rows[..i], reader) + [s];
    }
  }

  method CollectStocks(rows: seq<Value>, reader: Reader) returns (r: Result<map<int, Stock>, BomError>)
    ensures r.Success? <==> StocksReadable(rows, reader) && DistinctStocks(StocksIn(rows, reader))
    ensures r.Success? ==> TracksStocks(r.value, StocksIn(rows, reader))
  {
    var table: map<int, Stock> := map[];
    for i := 0 to |rows|
      invariant StocksReadable(rows[..i], reader) && DistinctStocks(StocksIn(rows[..i], reader))
      invariant TracksStocks(table, StocksIn(rows[..i], reader))
    {
      var stock := ReadStock(rows[i], reader.sqlOutputs, reader.decimal);
      if stock.None? {
        return Failure(BadSqlRow(i));
      }
      StocksSnoc(rows, i, reader, stock.value);
      EnterStock(table, StocksIn(rows[..i], reader), stock.value);
      if stock.value.component in table {
        DistinctSoFar(rows, i, reader, stock.value);
        return Failure(DuplicateStock(i));
      }
      table := table[stock.value.component := stock.value];
    }
    assert rows[..|rows|] == rows;
    r := Success(table);
  }

  // ---- the sum over paths ----

  lemma {:induction false} PerUnitSplits(paths: set<Path>, p: Path)
    requires p in paths
    ensures PerUnit(paths) == Product(p.quantities) + PerUnit(paths - {p})
  {
    var q :| q in paths && PerUnit(paths) == Product(q.quantities) + PerUnit(paths - {q});
    if q != p {
      PerUnitSplits(paths - {q}, p);
      PerUnitSplits(paths - {p}, q);
      assert paths - {q} - {p} == paths - {p} - {q};
    }
  }

  /** The table's numbers are what the paths require, path by path. */
  ghost predicate Prices(table: map<seq<int>, real>, paths: set<Path>, production: real) {
    && (forall p :: p in paths ==> p.nodes in table && table[p.nodes] == PathRequired(production, p.quantities))
    && (forall n :: n in table ==> exists p :: p in paths && p.nodes == n)
    && (forall p, q :: p in paths && q in paths && p.nodes == q.nodes ==> p == q)
  }

  lemma Distributes(production: real, whole: real, step: real, rest: real)
    requires whole == step + rest
    ensures production * whole == production * rest + production * step
  {
  }

  lemma OneMorePath(paths: set<Path>, p: Path, production: real)
    requires p !in paths
    ensures Scaled(paths + {p}, production) == Scaled(paths, production) + PathRequired(production, p.quantities)
  {
    PerUnitSplits(paths + {p}, p);
    assert paths + {p} - {p} == paths;
    PathRequiredIsProduct(production, p.quantities);
    Distributes(production, PerUnit(paths + {p}), Product(p.quantities), PerUnit(paths));
  }

  lemma PathStep(table: map<seq<int>, real>, production: real, paths: set<Path>, rest: set<seq<int>>,
      summed: set<Path>, p: Path)
    requires Prices(table, paths, production) && p in paths && p.nodes in rest
    requires summed == set q | q in paths && q.nodes !in rest
    ensures summed + {p} == set q | q in paths && q.nodes !in rest - {p.nodes}
    ensures Scaled(summed + {p}, production) == Scaled(summed, production) + table[p.nodes]
  {
    OneMorePath(summed, p, production);
  }

  method SumPaths(table: map<seq<int>, real>, production: real, ghost paths: set<Path>) returns (total: real)
    requires Prices(table, paths, production)
    ensures total == Scaled(paths, production)
  {
    total := 0.0;
    var rest := table.Keys;
    ghost var summed: set<Path> := {};
    assert summed == set p | p in paths && p.nodes !in rest;
    NothingScaled(production);
    while rest != {}
      invariant rest <= table.Keys
      invariant summed == set p | p in paths && p.nodes !in rest
      invariant total == Scaled(summed, production)
      decreases |rest|
    {
      var nodes :| nodes in rest;
      ghost var p :| p in paths && p.nodes == nodes;
      PathStep(table, production, paths, rest, summed, p);
      total := total + table[nodes];
      rest := rest - {nodes};
      summed := summed + {p};
    }
    assert summed == paths;
  }

  lemma NothingScaled(production: real)
    ensures Scaled({}, production) == 0.0
  {
  }

  lemma EntryPrices(components: map<int, Entry>, uses: seq<Use>, c: int, production: real)
    requires TracksComponents(components, uses, production) && PairwiseAgree(uses) && c in components
    ensures Prices(components[c].paths, PathsTo(Members(uses), c), production)
  {
    var entry, paths := components[c], PathsTo(Members(uses), c);
    assert EntryTracks(entry, c, uses);
    forall p | p in paths
        ensures p.nodes in entry.paths && entry.paths[p.nodes] == PathRequired(production, p.quantities) {
      var u :| u in uses && u.component.id == c && Path(u.path, u.quantities) == p;
      assert EntryHas(entry, u, production);
    }
    forall n | n in entry.paths ensures exists p :: p in paths && p.nodes == n {
      var u :| u in uses && u.component.id == c && u.path == n;
      assert Path(u.path, u.quantities) in paths;
    }
    forall p, q | p in paths && q in paths && p.nodes == q.nodes ensures p == q {
      var u :| u in uses && u.component.id == c && Path(u.path, u.quantities) == p;
      var v :| v in uses && v.component.id == c && Path(v.path, v.quantities) == q;
      MembersAgree(uses, u, v);
    }
  }

  ghost function Members(uses: seq<Use>): set<Use> { set u | u in uses }

  lemma MembersAgree(uses: seq<Use>, u: Use, v: Use)
    requires PairwiseAgree(uses) && u in uses && v in uses
    ensures Agree(u, v)
  {
    var i :| 0 <= i < |uses| && uses[i] == u;
    var j :| 0 <= j < |uses| && uses[j] == v;
    if i < j {
      assert Agree(uses[i], uses[j]);
    } else if j < i {
      assert Agree(uses[j], uses[i]);
    }
  }

  lemma EntrySuppliers(components: map<int, Entry>, uses: seq<Use>, c: int, production: real)
    requires TracksComponents(components, uses, production) && c in components
    ensures components[c].suppliers == SuppliersOf(Members(uses), c)
  {
    var entry := components[c];
    assert EntryTracks(entry, c, uses);
    forall u | u in uses && u.component.id == c ensures u.supplier.Some? ==> u.supplier.value in entry.suppliers {
      assert EntryHas(entry, u, production);
    }
  }

  // ---- the two orders ----

  lemma BySupplierIsPreorder()
    ensures TotalPreorder(BySupplier())
  {
    forall a, b, c ensures PreorderAt(BySupplier(), a, b, c) {
      RowOrdering.TextOrder(a.name, b.name, c.name);
      RowOrdering.TextOrder(b.name, c.name, a.name);
      RowOrdering.TextOrder(c.name, a.name, b.name);
      RowOrdering.TextOrder(a.name, c.name, b.name);
      RowOrdering.TextOrder(b.name, a.name, c.name);
      RowOrdering.TextOrder(c.name, b.name, a.name);
    }
  }

  lemma BySupplierSeparates(xs: seq<Party>)
    ensures Separates(xs, BySupplier())
  {
    forall i, j | 0 <= i < |xs| && 0 <= j < |xs| && BySupplier()(xs[i], xs[j]) == 0 ensures xs[i] == xs[j] {
      RowOrdering.TextOrder(xs[i].name, xs[j].name, "");
    }
  }

  lemma ByShortageIsPreorder()
    ensures TotalPreorder(ByShortage())
  {
    forall a, b, c ensures PreorderAt(ByShortage(), a, b, c) {
    }
  }

  method SortedSuppliers(suppliers: set<Party>) returns (r: seq<Party>)
    ensures Sorted(r, BySupplier()) && multiset(r) == multiset(suppliers)
    ensures forall i, j :: 0 <= i < j < |r| ==> r[i].id <= r[j].id
  {
    var listed: seq<Party> := [];
    var rest := suppliers;
    while rest != {}
      invariant rest <= suppliers
      invariant multiset(listed) + multiset(rest) == multiset(suppliers)
      decreases |rest|
    {
      var s :| s in rest;
      listed := listed + [s];
      rest := rest - {s};
    }
    BySupplierIsPreorder();
    SortBySorts(listed, BySupplier());
    r := SortBy(listed, BySupplier());
  }

  // ---- the report ----

  method MakeLine(entry: Entry, required: real, stock: real, production: real, scale: nat, ghost uses: set<Use>,
      ghost u: Use) returns (line: Shortage)
    requires entry.product == u.product && entry.component == u.component
    requires required == Required(uses, u.component.id, production)
    requires entry.suppliers == SuppliersOf(uses, u.component.id) && scale <= MAX_OUTPUT_SCALE
    ensures IsLine(line, uses, u, stock, production, scale)
  {
    var suppliers := SortedSuppliers(entry.suppliers);
    QuantizeRounds(production, scale, Quantize(production, scale));
    QuantizeRounds(required, scale, Quantize(required, scale));
    QuantizeRounds(stock, scale, Quantize(stock, scale));
    QuantizeRounds(Max(required - stock, 0.0), scale, Quantize(Max(required - stock, 0.0), scale));
    line := Shortage(entry.product, Quantize(production, scale), entry.component,
                     Quantize(required, scale), Quantize(stock, scale),
                     Quantize(Max(required - stock, 0.0), scale), suppliers);
  }

  /** One line, or none, for one component. */
  method Assess(entry: Entry, c: int, stock: Stock, production: real, scale: nat, ghost components: map<int, Entry>,
      ghost uses: seq<Use>, ghost stocks: seq<Stock>)
    returns (line: Option<Shortage>)
    requires TracksComponents(components, uses, production) && PairwiseAgree(uses)
    requires c in components && entry == components[c]
    requires stock.component == c && stock in stocks && scale <= MAX_OUTPUT_SCALE
    ensures line.Some? <==> IsShort(Members(uses), stock, production)
    ensures line.Some? ==>
      line.value.component.id == c && ReportsShort(line.value, Members(uses), stocks, production, scale)
  {
    if stock.made {
      return None;
    }
    EntryPrices(components, uses, c, production);
    EntrySuppliers(components, uses, c, production);
    var required := SumPaths(entry.paths, production, PathsTo(Members(uses), c));
    if Max(required - stock.stock, 0.0) == 0.0 {
      return None;
    }
    assert EntryTracks(entry, c, uses);
    ghost var u :| u in uses && u.component.id == c;
    assert EntryHas(entry, u, production);
    var made := MakeLine(entry, required, stock.stock, production, scale, Members(uses), u);
    line := Some(made);
  }

  ghost predicate LinesReport(lines: seq<Shortage>, done: set<int>, uses: set<Use>, stocks: seq<Stock>,
      production: real, scale: nat)
  {
    forall line :: line in lines ==> line.component.id in done && ReportsShort(line, uses, stocks, production, scale)
  }

  ghost predicate AllShortHaveLines(lines: seq<Shortage>, done: set<int>, uses: set<Use>, stocks: seq<Stock>,
      production: real)
  {
    forall s :: s in stocks && s.component in done && IsShort(uses, s, production) ==> HasLine(lines, s.component)
  }

  /** `lines` are the lines of the short components among those `done`. */
  ghost predicate LinesFor(lines: seq<Shortage>, done: set<int>, uses: set<Use>, stocks: seq<Stock>,
      production: real, scale: nat)
  {
    && OneEach(lines)
    && LinesReport(lines, done, uses, stocks, production, scale)
    && AllShortHaveLines(lines, done, uses, stocks, production)
  }

  lemma OneMoreLine(lines: seq<Shortage>, line: Shortage)
    requires OneEach(lines) && forall other :: other in lines ==> other.component.id != line.component.id
    ensures OneEach(lines + [line])
  {
    assert multiset(lines + [line]) == multiset(lines) + multiset{line};
  }

  lemma LineAdded(lines: seq<Shortage>, done: set<int>, uses: set<Use>, stocks: seq<Stock>, production: real,
      scale: nat, line: Shortage)
    requires LinesFor(lines, done, uses, stocks, production, scale)
    requires ReportsShort(line, uses, stocks, production, scale) && line.component.id !in done
    ensures LinesFor(lines + [line], done + {line.component.id}, uses, stocks, production, scale)
  {
    OneMoreLine(lines, line);
    forall c | c == line.component.id || HasLine(lines, c) ensures HasLine(lines + [line], c) {
      StillHasLine(lines, line, c);
    }
  }

  lemma StillHasLine(lines: seq<Shortage>, line: Shortage, c: int)
    requires c == line.component.id || HasLine(lines, c)
    ensures HasLine(lines + [line], c)
  {
    var longer := lines + [line];
    if c == line.component.id {
      assert line in longer;
    } else {
      var other :| other in lines && other.component.id == c;
      assert other in longer;
    }
  }

  /** One more component assessed: a line for it, or none because it is not short. */
  lemma LineStep(lines: seq<Shortage>, done: set<int>, table: map<int, Stock>, uses: set<Use>, stocks: seq<Stock>,
      production: real, scale: nat, c: int, line: Option<Shortage>)
    requires LinesFor(lines, done, uses, stocks, production, scale)
    requires TracksStocks(table, stocks) && c in table && c !in done
    requires line.Some? <==> IsShort(uses, table[c], production)
    requires line.Some? ==> line.value.component.id == c && ReportsShort(line.value, uses, stocks, production, scale)
    ensures LinesFor(if line.Some? then lines + [line.value] else lines, done + {c}, uses, stocks, production, scale)
  {
    if line.Some? {
      LineAdded(lines, done, uses, stocks, production, scale, line.value);
    }
  }

  method AnyOf<T(==)>(rest: set<T>) returns (x: T)
    requires rest != {}
    ensures x in rest
  {
    x :| x in rest;
  }

  /** The line of one component more, if it is short. */
  method OneMore(ledger: Ledger, table: map<int, Stock>, production: real, scale: nat, lines: seq<Shortage>, c: int,
      ghost done: set<int>, ghost uses: seq<Use>, ghost stocks: seq<Stock>)
    returns (longer: seq<Shortage>)
    requires Tracks(ledger, uses, production) && PairwiseAgree(uses) && scale <= MAX_OUTPUT_SCALE
    requires TracksStocks(table, stocks) && c in table && c in ledger.components && c !in done
    requires LinesFor(lines, done, Members(uses), stocks, production, scale)
    ensures LinesFor(longer, done + {c}, Members(uses), stocks, production, scale)
  {
    var line := Assess(ledger.components[c], c, table[c], production, scale, ledger.components, uses, stocks);
    LineStep(lines, done, table, Members(uses), stocks, production, scale, c, line);
    longer := if line.Some? then lines + [line.value] else lines;
  }

  method Lines(ledger: Ledger, table: map<int, Stock>, production: real, scale: nat, ghost uses: seq<Use>,
      ghost stocks: seq<Stock>)
    returns (lines: seq<Shortage>)
    requires Tracks(ledger, uses, production) && PairwiseAgree(uses)
    requires TracksStocks(table, stocks) && table.Keys == ledger.components.Keys && scale <= MAX_OUTPUT_SCALE
    ensures LinesFor(lines, table.Keys, Members(uses), stocks, production, scale)
  {
    lines := [];
    var rest := ledger.components.Keys;
    ghost var done: set<int> := {};
    while rest != {}
      invariant rest !! done && rest + done == table.Keys
      invariant LinesFor(lines, done, Members(uses), stocks, production, scale)
      decreases |rest|
    {
      var c := AnyOf(rest);
      lines := OneMore(ledger, table, production, scale, lines, c, done, uses, stocks);
      rest := rest - {c};
      done := done + {c};
    }
    assert done == table.Keys;
  }

  lemma SortedLinesReport(lines: seq<Shortage>, done: set<int>, uses: set<Use>, stocks: seq<Stock>,
      production: real, scale: nat)
    requires LinesFor(lines, done, uses, stocks, production, scale)
    requires forall s :: s in stocks ==> s.component in done
    ensures IsReport(SortBy(lines, ByShortage()), uses, stocks, production, scale)
  {
    var sorted := SortBy(lines, ByShortage());
    ByShortageIsPreorder();
    SortBySorts(lines, ByShortage());
    SameLines(lines, sorted);
    SortedIsReportOrder(sorted);
    forall s | s in stocks && IsShort(uses, s, production) ensures HasLine(sorted, s.component) {
      var line :| line in lines && line.component.id == s.component;
      assert line in sorted;
    }
  }

  lemma SameLines(lines: seq<Shortage>, sorted: seq<Shortage>)
    requires OneEach(lines) && multiset(sorted) == multiset(lines)
    ensures OneEach(sorted) && forall line :: line in sorted <==> line in lines
  {
    forall line ensures line in sorted <==> line in lines {
      assert line in multiset(sorted) <==> line in multiset(lines);
    }
  }

  lemma SortedIsReportOrder(lines: seq<Shortage>)
    requires OneEach(lines)
    ensures Sorted(lines, ByShortage()) <==> InReportOrder(lines)
  {
    forall i, j | 0 <= i < j < |lines| ensures lines[i].component.id != lines[j].component.id {
      assert lines[i] in lines && lines[j] in lines;
      OnceEach(lines, i, j);
    }
  }

  lemma OnceEach(lines: seq<Shortage>, i: nat, j: nat)
    requires OneEach(lines) && i < j < |lines|
    ensures lines[i] != lines[j]
  {
    assert lines == lines[..j] + lines[j..];
    assert lines[i] == lines[..j][i] && lines[j] == lines[j..][0];
    assert lines[i] in multiset(lines[..j]) && lines[j] in multiset(lines[j..]);
  }

  /** The rows and the production quantity say `uses`, `stocks` and `production`. */
  ghost predicate Says(graph: seq<Value>, sql: seq<Value>, productionQty: Value, reader: Reader,
      uses: seq<Use>, stocks: seq<Stock>, production: real)
  {
    && |uses| == |graph| && (forall i :: 0 <= i < |graph| ==> UseRow(graph[i], uses[i], reader))
    && |stocks| == |sql| && (forall i :: 0 <= i < |sql| ==> StockRow(sql[i], stocks[i], reader))
    && Denotes(productionQty, production, reader.decimal) && production > 0.0
  }

  /** No contradiction, one stock for each component, and the same components in both. */
  ghost predicate Sound(uses: seq<Use>, stocks: seq<Stock>) {
    && Consistent(uses) && DistinctStocks(stocks)
    && (set u | u in uses :: u.component.id) == (set s | s in stocks :: s.component)
  }

  /** The input is complete and free of contradictions. */
  ghost predicate Acceptable(graph: seq<Value>, sql: seq<Value>, productionQty: Value, scale: int, reader: Reader) {
    && 0 <= scale <= 12
    && exists uses, stocks, production ::
         Says(graph, sql, productionQty, reader, uses, stocks, production) && Sound(uses, stocks)
  }

  /** `lines` is the report on what the rows say. */
  ghost predicate Reports(lines: seq<Shortage>, graph: seq<Value>, sql: seq<Value>, productionQty: Value, scale: nat,
      reader: Reader)
  {
    exists uses, stocks, production ::
      && Says(graph, sql, productionQty, reader, uses, stocks, production) && Sound(uses, stocks)
      && IsReport(lines, Members(uses), stocks, production, scale)
  }

  lemma UsesAreRead(rows: seq<Value>, uses: seq<Use>, reader: Reader)
    ensures |uses| == |rows| && (forall i :: 0 <= i < |rows| ==> UseRow(rows[i], uses[i], reader)) <==>
      UsesReadable(rows, reader) && uses == UsesIn(rows, reader)
  {
    forall i | 0 <= i < |rows| && i < |uses|
      ensures ReadUse(rows[i], reader.graphOutputs, reader.decimal) == Some(uses[i]) <==>
        UseRow(rows[i], uses[i], reader)
    {
      UseIsRead(rows[i], uses[i], reader);
    }
  }

  lemma StocksAreRead(rows: seq<Value>, stocks: seq<Stock>, reader: Reader)
    ensures |stocks| == |rows| && (forall i :: 0 <= i < |rows| ==> StockRow(rows[i], stocks[i], reader)) <==>
      StocksReadable(rows, reader) && stocks == StocksIn(rows, reader)
  {
    forall i | 0 <= i < |rows| && i < |stocks|
      ensures ReadStock(rows[i], reader.sqlOutputs, reader.decimal) == Some(stocks[i]) <==>
        StockRow(rows[i], stocks[i], reader)
    {
      StockIsRead(rows[i], stocks[i], reader);
    }
  }

  /** The rows are read as what they say. */
  lemma SaysWhatIsRead(graph: seq<Value>, sql: seq<Value>, productionQty: Value, reader: Reader, uses: seq<Use>,
      stocks: seq<Stock>, production: real)
    ensures Says(graph, sql, productionQty, reader, uses, stocks, production) <==>
      && UsesReadable(graph, reader) && uses == UsesIn(graph, reader)
      && StocksReadable(sql, reader) && stocks == StocksIn(sql, reader)
      && AsPositive(productionQty, reader.decimal) == Some(production)
  {
    UsesAreRead(graph, uses, reader);
    StocksAreRead(sql, stocks, reader);
    DecimalIff(productionQty, production, reader.decimal);
  }

  lemma AcceptableIsRead(graph: seq<Value>, sql: seq<Value>, productionQty: Value, scale: int, reader: Reader)
    ensures Acceptable(graph, sql, productionQty, scale, reader) <==>
      && 0 <= scale <= MAX_OUTPUT_SCALE && AsPositive(productionQty, reader.decimal).Some?
      && UsesReadable(graph, reader) && StocksReadable(sql, reader)
      && Sound(UsesIn(graph, reader), StocksIn(sql, reader))
  {
    if && AsPositive(productionQty, reader.decimal).Some?
       && UsesReadable(graph, reader) && StocksReadable(sql, reader)
    {
      SaysWhatIsRead(graph, sql, productionQty, reader, UsesIn(graph, reader), StocksIn(sql, reader),
                     AsPositive(productionQty, reader.decimal).value);
    }
    forall uses, stocks, production | Says(graph, sql, productionQty, reader, uses, stocks, production)
      ensures UsesReadable(graph, reader) && uses == UsesIn(graph, reader)
      ensures StocksReadable(sql, reader) && stocks == StocksIn(sql, reader)
      ensures AsPositive(productionQty, reader.decimal) == Some(production)
    {
      SaysWhatIsRead(graph, sql, productionQty, reader, uses, stocks, production);
    }
  }

  lemma OneProduct(uses: seq<Use>)
    ensures |ProductsOf(uses)| <= 1 <==> forall i, j :: 0 <= i < j < |uses| ==> uses[i].product == uses[j].product
  {
    var products := ProductsOf(uses);
    if uses == [] {
      assert products == {};
    } else if forall i, j :: 0 <= i < j < |uses| ==> uses[i].product == uses[j].product {
      assert products == {uses[0].product};
    } else {
      var i, j :| 0 <= i < j < |uses| && uses[i].product != uses[j].product;
      SubsetSize({uses[i].product, uses[j].product}, products);
    }
  }

  lemma ComponentKeys(components: map<int, Entry>, uses: seq<Use>, production: real)
    requires TracksComponents(components, uses, production)
    ensures components.Keys == set u | u in uses :: u.component.id
  {
    forall c | c in components ensures exists u :: u in uses && u.component.id == c {
      assert EntryTracks(components[c], c, uses);
    }
  }

  lemma StockKeys(table: map<int, Stock>, stocks: seq<Stock>)
    requires TracksStocks(table, stocks)
    ensures table.Keys == set s | s in stocks :: s.component
  {
    forall c | c in table ensures exists s :: s in stocks && s.component == c {
      assert table[c] in stocks;
    }
  }

  method CalculateShortages(graph: seq<Value>, sql: seq<Value>, productionQty: Value, scale: int, reader: Reader)
    returns (r: Result<seq<Shortage>, BomError>)
    ensures r.Success? <==> Acceptable(graph, sql, productionQty, scale, reader)
    ensures r.Success? ==> Reports(r.value, graph, sql, productionQty, scale, reader)
  {
    AcceptableIsRead(graph, sql, productionQty, scale, reader);
    if !(0 <= scale <= MAX_OUTPUT_SCALE) {
      return Failure(BadScale);
    }
    if AsPositive(productionQty, reader.decimal).None? {
      return Failure(BadProduction);
    }
    var production := AsPositive(productionQty, reader.decimal).value;
    var ledger, products := CollectUses(graph, reader, production);
    if ledger.Failure? {
      return Failure(ledger.error);
    }
    OneProduct(UsesIn(graph, reader));
    if |products| > 1 {
      return Failure(SeveralProducts);
    }
    var table :- CollectStocks(sql, reader);
    ComponentKeys(ledger.value.components, UsesIn(graph, reader), production);
    StockKeys(table, StocksIn(sql, reader));
    if ledger.value.components.Keys != table.Keys {
      return Failure(DomainsDiffer);
    }
    var lines := Lines(ledger.value, table, production, scale, UsesIn(graph, reader), StocksIn(sql, reader));
    SortedLinesReport(lines, table.Keys, Members(UsesIn(graph, reader)), StocksIn(sql, reader), production, scale);
    SaysWhatIsRead(graph, sql, productionQty, reader, UsesIn(graph, reader), StocksIn(sql, reader), production);
    r := Success(SortBy(lines, ByShortage()));
  }

  // ---- the answer depends on the set of graph rows only ----

  lemma LinesEqual(a: Shortage, b: Shortage, uses: seq<Use>, u: Use, v: Use, stock: real, production: real, scale: nat)
    requires PairwiseAgree(uses) && u in uses && v in uses && u.component.id == v.component.id
    requires IsLine(a, Members(uses), u, stock, production, scale)
      && IsLine(b, Members(uses), v, stock, production, scale)
    ensures a == b
  {
    MembersAgree(uses, u, v);
    BySupplierIsPreorder();
    BySupplierSeparates(a.suppliers);
    SortedUnique(a.suppliers, b.suppliers, BySupplier());
    var required := Required(Members(uses), u.component.id, production);
    RoundedOnce(production, scale, a.productionQty, b.productionQty);
    RoundedOnce(required, scale, a.requiredQty, b.requiredQty);
    RoundedOnce(stock, scale, a.actualStock, b.actualStock);
    RoundedOnce(if required > stock then required - stock else 0.0, scale, a.shortageQty, b.shortageQty);
  }

  lemma RoundedOnce(x: real, scale: nat, m: int, n: int)
    requires Rounded(x, scale, m) && Rounded(x, scale, n)
    ensures m == n
  {
    QuantizeRounds(x, scale, m);
    QuantizeRounds(x, scale, n);
  }

  lemma StockOf(stocks: seq<Stock>, s: Stock, t: Stock)
    requires DistinctStocks(stocks) && s in stocks && t in stocks && s.component == t.component
    ensures s == t
  {
    var i :| 0 <= i < |stocks| && stocks[i] == s;
    var j :| 0 <= j < |stocks| && stocks[j] == t;
  }

  lemma ReportedTwice(a: Shortage, b: Shortage, uses: seq<Use>, stocks: seq<Stock>, production: real, scale: nat)
    requires PairwiseAgree(uses) && DistinctStocks(stocks) && a.component.id == b.component.id
    requires ReportsShort(a, Members(uses), stocks, production, scale)
      && ReportsShort(b, Members(uses), stocks, production, scale)
    ensures a == b
  {
    var u, s :|
      && u in Members(uses) && s in stocks && s.component == u.component.id
      && IsShort(Members(uses), s, production) && IsLine(a, Members(uses), u, s.stock, production, scale);
    var v, t :|
      && v in Members(uses) && t in stocks && t.component == v.component.id
      && IsShort(Members(uses), t, production) && IsLine(b, Members(uses), v, t.stock, production, scale);
    StockOf(stocks, s, t);
    LinesEqual(a, b, uses, u, v, s.stock, production, scale);
  }

  lemma ShortStock(line: Shortage, uses: set<Use>, stocks: seq<Stock>, production: real, scale: nat) returns (s: Stock)
    requires ReportsShort(line, uses, stocks, production, scale)
    ensures s in stocks && s.component == line.component.id && IsShort(uses, s, production)
  {
    var u, t :| u in uses && t in stocks && t.component == u.component.id && IsShort(uses, t, production)
                && IsLine(line, uses, u, t.stock, production, scale);
    s := t;
  }

  lemma ReportContained(a: seq<Shortage>, b: seq<Shortage>, uses: seq<Use>, stocks: seq<Stock>, production: real,
      scale: nat, line: Shortage)
    requires PairwiseAgree(uses) && DistinctStocks(stocks)
    requires IsReport(a, Members(uses), stocks, production, scale)
      && IsReport(b, Members(uses), stocks, production, scale)
    requires line in a
    ensures line in b
  {
    var s := ShortStock(line, Members(uses), stocks, production, scale);
    var other :| other in b && other.component.id == s.component;
    ReportedTwice(line, other, uses, stocks, production, scale);
  }

  lemma ReportSeparates(lines: seq<Shortage>)
    requires OneEach(lines)
    ensures Separates(lines, ByShortage())
  {
  }

  /** There is only one report. */
  lemma ReportUnique(a: seq<Shortage>, b: seq<Shortage>, uses: seq<Use>, stocks: seq<Stock>, production: real,
      scale: nat)
    requires PairwiseAgree(uses) && DistinctStocks(stocks)
    requires IsReport(a, Members(uses), stocks, production, scale)
      && IsReport(b, Members(uses), stocks, production, scale)
    ensures a == b
  {
    forall line ensures multiset(a)[line] == multiset(b)[line] {
      if line in a {
        ReportContained(a, b, uses, stocks, production, scale, line);
      } else if line in b {
        ReportContained(b, a, uses, stocks, production, scale, line);
      } else {
        assert line !in multiset(a) && line !in multiset(b);
      }
    }
    ByShortageIsPreorder();
    ReportSeparates(a);
    SortedIsReportOrder(a);
    SortedIsReportOrder(b);
    SortedUnique(a, b, ByShortage());
  }

  /** The two lists have the same rows, in any order and any number. */
  ghost predicate SameRows(a: seq<Value>, b: seq<Value>) { forall row :: row in a <==> row in b }

  lemma SameUses(a: seq<Value>, b: seq<Value>, reader: Reader)
    requires SameRows(a, b)
    ensures UsesReadable(a, reader) <==> UsesReadable(b, reader)
    ensures UsesReadable(a, reader) ==> Members(UsesIn(a, reader)) == Members(UsesIn(b, reader))
  {
    forall i | 0 <= i < |a| ensures a[i] in b {
      assert a[i] in a;
    }
    forall i | 0 <= i < |b| ensures b[i] in a {
      assert b[i] in b;
    }
    if UsesReadable(a, reader) {
      UsesContained(a, b, reader);
      UsesContained(b, a, reader);
    } else if UsesReadable(b, reader) {
      UsesContained(b, a, reader);
    }
  }

  lemma UsesContained(a: seq<Value>, b: seq<Value>, reader: Reader)
    requires UsesReadable(a, reader) && forall row :: row in b ==> row in a
    ensures UsesReadable(b, reader)
    ensures forall u :: u in UsesIn(b, reader) ==> u in UsesIn(a, reader)
  {
    forall i | 0 <= i < |b|
        ensures exists k :: 0 <= k < |a| && a[k] == b[i] && UsesIn(a, reader)[k] == UsesIn(a, reader)[k] {
      assert b[i] in a;
      var k :| 0 <= k < |a| && a[k] == b[i];
      assert UsesIn(a, reader)[k] == UsesIn(a, reader)[k];
    }
    forall i | 0 <= i < |b| ensures ReadUse(b[i], reader.graphOutputs, reader.decimal).Some? {
      var k :| 0 <= k < |a| && a[k] == b[i];
    }
    forall u | u in UsesIn(b, reader) ensures u in UsesIn(a, reader) {
      var i :| 0 <= i < |b| && UsesIn(b, reader)[i] == u;
      var k :| 0 <= k < |a| && a[k] == b[i];
      assert UsesIn(a, reader)[k] == u;
    }
  }

  lemma ConsistentByMembers(uses: seq<Use>)
    ensures Consistent(uses) <==> forall u, v :: u in uses && v in uses ==> Agree(u, v) && u.product == v.product
  {
    if Consistent(uses) {
      forall u, v | u in uses && v in uses ensures Agree(u, v) && u.product == v.product {
        MembersAgree(uses, u, v);
        var i :| 0 <= i < |uses| && uses[i] == u;
        var j :| 0 <= j < |uses| && uses[j] == v;
        if i < j {
          assert uses[i].product == uses[j].product;
        } else if j < i {
          assert uses[j].product == uses[i].product;
        }
      }
    }
  }

  lemma SoundAgain(uses: seq<Use>, uses': seq<Use>, stocks: seq<Stock>)
    requires Members(uses) == Members(uses')
    ensures Sound(uses, stocks) <==> Sound(uses', stocks)
  {
    ConsistentByMembers(uses);
    ConsistentByMembers(uses');
    assert forall u :: u in uses <==> u in Members(uses);
    assert forall u :: u in uses' <==> u in Members(uses');
  }

  /** Acceptance and the whole sorted answer stay the same when graph rows are reordered or repeated. */
  lemma AnswerIgnoresOrderAndDuplicates(graph: seq<Value>, graph': seq<Value>, sql: seq<Value>, production: Value,
      scale: int, reader: Reader)
    requires SameRows(graph, graph')
    ensures Acceptable(graph, sql, production, scale, reader) <==> Acceptable(graph', sql, production, scale, reader)
    ensures Acceptable(graph, sql, production, scale, reader) ==>
      forall a, b ::
        (Reports(a, graph, sql, production, scale, reader) && Reports(b, graph', sql, production, scale, reader)) ==>
          a == b
  {
    SameUses(graph, graph', reader);
    AcceptableIsRead(graph, sql, production, scale, reader);
    AcceptableIsRead(graph', sql, production, scale, reader);
    if UsesReadable(graph, reader) && StocksReadable(sql, reader) {
      SoundAgain(UsesIn(graph, reader), UsesIn(graph', reader), StocksIn(sql, reader));
    }
    if Acceptable(graph, sql, production, scale, reader) {
      forall a, b |
        Reports(a, graph, sql, production, scale, reader) && Reports(b, graph', sql, production, scale, reader)
        ensures a == b
      {
        SameReport(a, b, graph, graph', sql, production, scale, reader);
      }
    }
  }

  lemma ReportRead(lines: seq<Shortage>, graph: seq<Value>, sql: seq<Value>, productionQty: Value, scale: nat,
      reader: Reader)
    requires Reports(lines, graph, sql, productionQty, scale, reader)
    ensures UsesReadable(graph, reader) && StocksReadable(sql, reader)
    ensures Sound(UsesIn(graph, reader), StocksIn(sql, reader))
    ensures AsPositive(productionQty, reader.decimal).Some?
    ensures IsReport(lines, Members(UsesIn(graph, reader)), StocksIn(sql, reader),
                     AsPositive(productionQty, reader.decimal).value, scale)
  {
    var uses, stocks, production :|
      && Says(graph, sql, productionQty, reader, uses, stocks, production) && Sound(uses, stocks)
      && IsReport(lines, Members(uses), stocks, production, scale);
    SaysWhatIsRead(graph, sql, productionQty, reader, uses, stocks, production);
  }

  lemma SameReport(a: seq<Shortage>, b: seq<Shortage>, graph: seq<Value>, graph': seq<Value>, sql: seq<Value>,
      production: Value, scale: nat, reader: Reader)
    requires SameRows(graph, graph')
    requires Reports(a, graph, sql, production, scale, reader) && Reports(b, graph', sql, production, scale, reader)
    ensures a == b
  {
    SameUses(graph, graph', reader);
    ReportRead(a, graph, sql, production, scale, reader);
    ReportRead(b, graph', sql, production, scale, reader);
    var p := AsPositive(production, reader.decimal).value;
    ReportUnique(a, b, UsesIn(graph, reader), StocksIn(sql, reader), p, scale);
  }

  /** The row says that the component is bought and that its stock does not cover what is required. */
  ghost predicate RowIsShort(row: Value, id: int, required: real, reader: Reader) {
    && Holds(row, "componentId", Int(id)) && Holds(row, "makeFlag", Bool(false))
    && exists stock :: stock < required && row.Object? && "actualStock" in row.fields
                       && Denotes(row.fields["actualStock"], stock, reader.decimal)
  }

  lemma ShortIffRowShort(row: Value, s: Stock, uses: set<Use>, production: real, reader: Reader)
    requires StockRow(row, s, reader)
    ensures IsShort(uses, s, production) <==>
      RowIsShort(row, s.component, Required(uses, s.component, production), reader)
  {
    DecimalIff(row.fields["actualStock"], s.stock, reader.decimal);
  }

  ghost predicate SomeStockShort(stocks: seq<Stock>, uses: set<Use>, id: int, production: real) {
    exists s :: s in stocks && s.component == id && IsShort(uses, s, production)
  }

  ghost predicate SomeRowShort(sql: seq<Value>, id: int, required: real, reader: Reader) {
    exists row :: row in sql && RowIsShort(row, id, required, reader)
  }

  lemma LineIffStockShort(lines: seq<Shortage>, uses: set<Use>, stocks: seq<Stock>, production: real, scale: nat,
      id: int)
    requires IsReport(lines, uses, stocks, production, scale)
    ensures HasLine(lines, id) <==> SomeStockShort(stocks, uses, id, production)
  {
    if HasLine(lines, id) {
      var line :| line in lines && line.component.id == id;
      var s := ShortStock(line, uses, stocks, production, scale);
    }
  }

  lemma StockShortIffRowShort(sql: seq<Value>, stocks: seq<Stock>, uses: set<Use>, id: int, production: real,
      reader: Reader)
    requires |stocks| == |sql| && forall i :: 0 <= i < |sql| ==> StockRow(sql[i], stocks[i], reader)
    ensures SomeStockShort(stocks, uses, id, production) <==>
      SomeRowShort(sql, id, Required(uses, id, production), reader)
  {
    if s :| s in stocks && s.component == id && IsShort(uses, s, production) {
      var i :| 0 <= i < |stocks| && stocks[i] == s;
      ShortIffRowShort(sql[i], s, uses, production, reader);
      assert sql[i] in sql;
    }
    if row :| row in sql && RowIsShort(row, id, Required(uses, id, production), reader) {
      var i :| 0 <= i < |sql| && sql[i] == row;
      assert stocks[i].component == id && stocks[i] in stocks;
      ShortIffRowShort(row, stocks[i], uses, production, reader);
    }
  }

  /** A component has a line exactly when some SQL row says that it is bought and that its stock does not
      cover what the graph rows require. */
  lemma LineIffRowShort(lines: seq<Shortage>, graph: seq<Value>, sql: seq<Value>, productionQty: Value, scale: nat,
      reader: Reader, id: int, uses: seq<Use>, stocks: seq<Stock>, production: real)
    requires Reports(lines, graph, sql, productionQty, scale, reader)
    requires Says(graph, sql, productionQty, reader, uses, stocks, production)
    ensures HasLine(lines, id) <==> SomeRowShort(sql, id, Required(Members(uses), id, production), reader)
  {
    ReportRead(lines, graph, sql, productionQty, scale, reader);
    SaysWhatIsRead(graph, sql, productionQty, reader, uses, stocks, production);
    LineIffStockShort(lines, Members(uses), stocks, production, scale, id);
    StockShortIffRowShort(sql, stocks, Members(uses), id, production, reader);
  }

  /** Another supplier for a path already known changes no quantity. */
  lemma SupplierFanOut(uses: set<Use>, u: Use, other: Option<Party>, component: int, production: real)
    requires u in uses
    ensures Required(uses + {u.(supplier := other)}, component, production) == Required(uses, component, production)
  {
    var more := uses + {u.(supplier := other)};
    assert PathsTo(more, component) == PathsTo(uses, component);
  }

  // ---- the answer built from two sources ----

  datatype ShortageAnswer = ShortageAnswer(rows: seq<Shortage>, emptyReason: Option<RetryAgent.EmptyReason>,
      totalCount: nat, truncated: bool)

  datatype ShortageFailure = SourceTruncated | Rejected(error: BomError)

  function Raw(rows: seq<Record>): seq<Value> {
    seq(|rows|, i requires 0 <= i < |rows| => Object(rows[i].fields))
  }

  /** A validated request for the shortage calculation. */
  datatype Transform = Transform(productionQty: Value, scale: int, reader: Reader)

  /** The records as the objects that the calculation takes. */
  ghost predicate AreRows(records: seq<Record>, rows: seq<Value>) {
    |rows| == |records| && forall i :: 0 <= i < |rows| ==> rows[i] == Object(records[i].fields)
  }

  ghost predicate Computable(graph: Composition.Source, sql: Composition.Source, t: Transform) {
    exists graphRows, sqlRows ::
      && AreRows(graph.rows, graphRows) && AreRows(sql.rows, sqlRows)
      && Acceptable(graphRows, sqlRows, t.productionQty, t.scale, t.reader)
  }

  /** The first lines of the report on the two sources, with a count of all of them. */
  ghost predicate AnswersShortage(graph: Composition.Source, sql: Composition.Source, t: Transform, limit: nat,
      answer: ShortageAnswer)
  {
    t.scale >= 0 && exists graphRows, sqlRows, report ::
      && AreRows(graph.rows, graphRows) && AreRows(sql.rows, sqlRows)
      && Reports(report, graphRows, sqlRows, t.productionQty, t.scale, t.reader)
      && answer.rows == (if |report| <= limit then report else report[..limit])
      && answer.totalCount == |report| && answer.truncated == (|report| > limit)
      && answer.emptyReason == if report == [] then Some(RetryAgent.NoData) else None
  }

  /** Nothing was found, which is in doubt if it is for either source. */
  ghost predicate AnswersNothing(graph: Composition.Source, sql: Composition.Source, answer: ShortageAnswer) {
    && answer.rows == [] && answer.totalCount == 0 && !answer.truncated
    && answer.emptyReason ==
       if graph.emptyReason == Some(RetryAgent.Inconclusive) || sql.emptyReason == Some(RetryAgent.Inconclusive)
       then Some(RetryAgent.Inconclusive) else Some(RetryAgent.NoData)
  }

  /** What the transform makes of two sources: truncated ones are refused, two empty ones need no report. */
  ghost predicate Transforms(
    graph: Composition.Source, sql: Composition.Source, t: Transform, limit: nat,
    r: Result<ShortageAnswer, ShortageFailure>)
  {
    if graph.truncated || sql.truncated then r == Failure(SourceTruncated)
    else if graph.rows == [] && sql.rows == [] then r.Success? && AnswersNothing(graph, sql, r.value)
    else if !Computable(graph, sql, t) then r.Failure? && r.error.Rejected?
    else r.Success? && AnswersShortage(graph, sql, t, limit, r.value)
  }

  lemma RawRows(records: seq<Record>, rows: seq<Value>)
    ensures AreRows(records, rows) <==> rows == Raw(records)
  {
  }

  lemma ComputableIff(graph: Composition.Source, sql: Composition.Source, t: Transform)
    ensures Computable(graph, sql, t) <==>
      Acceptable(Raw(graph.rows), Raw(sql.rows), t.productionQty, t.scale, t.reader)
  {
    RawRows(graph.rows, Raw(graph.rows));
    RawRows(sql.rows, Raw(sql.rows));
    if graphRows, sqlRows :|
      && AreRows(graph.rows, graphRows) && AreRows(sql.rows, sqlRows)
      && Acceptable(graphRows, sqlRows, t.productionQty, t.scale, t.reader)
    {
      RawRows(graph.rows, graphRows);
      RawRows(sql.rows, sqlRows);
    }
  }

  /** The first lines of a report, with a count of all of them. */
  function FirstLines(report: seq<Shortage>, limit: nat): ShortageAnswer {
    ShortageAnswer(Composition.Take(report, limit), if report == [] then Some(RetryAgent.NoData) else None,
                   |report|, |report| > limit)
  }

  lemma FirstLinesAnswer(graph: Composition.Source, sql: Composition.Source, t: Transform, limit: nat,
      report: seq<Shortage>)
    requires t.scale >= 0 && Reports(report, Raw(graph.rows), Raw(sql.rows), t.productionQty, t.scale, t.reader)
    ensures AnswersShortage(graph, sql, t, limit, FirstLines(report, limit))
  {
    RawRows(graph.rows, Raw(graph.rows));
    RawRows(sql.rows, Raw(sql.rows));
  }

  /** The first lines of the report, counted in full. */
  method ComposeShortages(graph: Composition.Source, sql: Composition.Source, t: Transform, limit: nat)
    returns (r: Result<ShortageAnswer, ShortageFailure>)
    ensures Transforms(graph, sql, t, limit, r)
  {
    if graph.truncated || sql.truncated {
      return Failure(SourceTruncated);
    }
    if graph.rows == [] && sql.rows == [] {
      return Success(ShortageAnswer([], Some(Composition.JoinEmptyReason(graph, sql)), 0, false));
    }
    ComputableIff(graph, sql, t);
    var report := CalculateShortages(Raw(graph.rows), Raw(sql.rows), t.productionQty, t.scale, t.reader);
    if report.Failure? {
      return Failure(Rejected(report.error));
    }
    FirstLinesAnswer(graph, sql, t, limit, report.value);
    r := Success(FirstLines(report.value, limit));
  }
}
