/** Joins the rows of two sources on shared keys, with a cap on what is stored. */
module Composition {
  import opened Wrappers
  import opened Values
  import RetryAgent

  type EmptyReason = RetryAgent.EmptyReason

  datatype Source = Source(rows: seq<Record>, emptyReason: Option<EmptyReason>, truncated: bool)

  datatype KeyError = MissingKey(alias: string) | NullKey(alias: string) | Unhashable

  datatype JoinError =
    | SourceTruncated
    | LeftKey(row: nat, error: KeyError)
    | RightKey(row: nat, error: KeyError)
    | OutsideLeftKeys(row: nat)
    | Conflict(field: string)

  datatype Composed = Composed(rows: seq<Record>, emptyReason: Option<EmptyReason>, totalCount: nat, truncated: bool)

  // ---- the join as its definition has it: every pair of rows that agree on the keys ----

  predicate HasKey(row: Record, keys: seq<string>) {
    forall a :: a in keys ==> a in row.fields && row.fields[a] != Null && row.fields[a].Hashable()
  }

  predicate AllHaveKeys(rows: seq<Record>, keys: seq<string>) {
    forall i :: 0 <= i < |rows| ==> HasKey(rows[i], keys)
  }

  predicate Matches(l: Record, r: Record, keys: seq<string>) {
    forall a :: a in keys ==> a in l.fields && a in r.fields && Equal(l.fields[a], r.fields[a])
  }

  predicate ConflictsAt(l: Record, r: Record, keys: seq<string>, field: string) {
    field in l.fields && field in r.fields && field !in keys && !Equal(l.fields[field], r.fields[field])
  }

  predicate Agree(l: Record, r: Record, keys: seq<string>) {
    forall field :: field in r.fields ==> !ConflictsAt(l, r, keys, field)
  }

  function Merge(l: Record, r: Record): Record { Record(r.fields + l.fields) }

  /** One left row with every matching right row, in right order. */
  function JoinRow(l: Record, right: seq<Record>, keys: seq<string>): seq<Record> {
    if right == [] then []
    else
      var last := right[|right| - 1];
      JoinRow(l, right[..|right| - 1], keys) + (if Matches(l, last, keys) then [Merge(l, last)] else [])
  }

  /** The inner join, left row by left row. */
  function Join(left: seq<Record>, right: seq<Record>, keys: seq<string>): seq<Record> {
    if left == [] then []
    else Join(left[..|left| - 1], right, keys) + JoinRow(left[|left| - 1], right, keys)
  }

  predicate InLeft(r: Record, left: seq<Record>, keys: seq<string>) {
    exists i :: 0 <= i < |left| && Matches(left[i], r, keys)
  }

  /** No matching pair disagrees on another field. */
  predicate Compatible(left: seq<Record>, right: seq<Record>, keys: seq<string>) {
    forall i, j :: 0 <= i < |left| && 0 <= j < |right| && Matches(left[i], right[j], keys) ==>
        Agree(left[i], right[j], keys)
  }

  predicate Joinable(left: Source, right: Source, keys: seq<string>) {
    && !left.truncated && !right.truncated
    && AllHaveKeys(left.rows, keys) && AllHaveKeys(right.rows, keys)
    && (forall j :: 0 <= j < |right.rows| ==> InLeft(right.rows[j], left.rows, keys))
    && Compatible(left.rows, right.rows, keys)
  }

  // ---- keys ----

  /** `error` is a true account of what is wrong with the row's key. */
  predicate KeyFault(row: Record, keys: seq<string>, error: KeyError) {
    match error
    case MissingKey(alias) => alias in keys && alias !in row.fields
    case NullKey(alias) => alias in keys && alias in row.fields && row.fields[alias] == Null
    case Unhashable =>
      && (forall a :: a in keys ==> a in row.fields && row.fields[a] != Null)
      && exists a :: a in keys && !row.fields[a].Hashable()
  }

  /** `error` is a true account of why the sources do not join, and of the first row at fault. */
  ghost predicate JoinFault(left: Source, right: Source, keys: seq<string>, error: JoinError) {
    match error
    case SourceTruncated => left.truncated || right.truncated
    case LeftKey(row, e) =>
      row < |left.rows| && KeyFault(left.rows[row], keys, e) && AllHaveKeys(left.rows[..row], keys)
    case RightKey(row, e) =>
      && AllHaveKeys(left.rows, keys)
      && row < |right.rows| && KeyFault(right.rows[row], keys, e) && AllHaveKeys(right.rows[..row], keys)
    case OutsideLeftKeys(row) =>
      && AllHaveKeys(left.rows, keys)
      && row < |right.rows| && HasKey(right.rows[row], keys) && !InLeft(right.rows[row], left.rows, keys)
    case Conflict(field) =>
      exists l, r ::
        l in left.rows && r in right.rows && Matches(l, r, keys) && ConflictsAt(l, r, keys, field)
  }

  function Tuple(row: Record, keys: seq<string>): seq<Value>
    requires HasKey(row, keys)
  {
    seq(|keys|, i requires 0 <= i < |keys| => HashKey(row.fields[keys[i]]))
  }

  lemma TupleIffMatches(l: Record, r: Record, keys: seq<string>)
    requires HasKey(l, keys) && HasKey(r, keys)
    ensures Tuple(l, keys) == Tuple(r, keys) <==> Matches(l, r, keys)
  {
    forall i | 0 <= i < |keys|
        ensures Tuple(l, keys)[i] == Tuple(r, keys)[i] <==> Equal(l.fields[keys[i]], r.fields[keys[i]]) {
      HashKeyIffEqual(l.fields[keys[i]], r.fields[keys[i]]);
    }
  }

  method RowKey(row: Record, keys: seq<string>) returns (r: Result<seq<Value>, KeyError>)
    ensures r.Success? <==> HasKey(row, keys)
    ensures r.Success? ==> r.value == Tuple(row, keys)
    ensures r.Failure? ==> KeyFault(row, keys, r.error)
  {
    var values: seq<Value> := [];
    for i := 0 to |keys|
      invariant |values| == i
      invariant forall k :: 0 <= k < i ==>
        keys[k] in row.fields && row.fields[keys[k]] != Null && values[k] == row.fields[keys[k]]
    {
      if keys[i] !in row.fields {
        return Failure(MissingKey(keys[i]));
      }
      if row.fields[keys[i]] == Null {
        return Failure(NullKey(keys[i]));
      }
      values := values + [row.fields[keys[i]]];
    }
    if k :| 0 <= k < |values| && !values[k].Hashable() {
      assert keys[k] in keys && !row.fields[keys[k]].Hashable();
      return Failure(Unhashable);
    }
    r := Success(seq(|values|, i requires 0 <= i < |values| => HashKey(values[i])));
  }

  /** `fields` is `l` with the non-key fields of `r` outside `rest` added, none of which conflicts. */
  ghost predicate MergedBut(fields: map<string, Value>, l: Record, r: Record, keys: seq<string>, rest: set<string>) {
    && (forall f :: f in fields <==> f in l.fields || (f in r.fields && f !in rest && f !in keys))
    && (forall f :: f in fields ==> fields[f] == if f in l.fields then l.fields[f] else r.fields[f])
    && forall f :: f in r.fields && f !in rest ==> !ConflictsAt(l, r, keys, f)
  }

  lemma MergedAll(fields: map<string, Value>, l: Record, r: Record, keys: seq<string>)
    requires MergedBut(fields, l, r, keys, {})
    ensures Agree(l, r, keys)
    ensures (forall a :: a in keys ==> a in l.fields) ==> Record(fields) == Merge(l, r)
  {
    if forall a :: a in keys ==> a in l.fields {
      assert forall f :: f in fields <==> f in Merge(l, r).fields;
      assert fields == Merge(l, r).fields;
    }
  }

  method MergeRows(l: Record, r: Record, keys: seq<string>) returns (merged: Result<Record, string>)
    ensures merged.Success? <==> Agree(l, r, keys)
    ensures merged.Success? && (forall a :: a in keys ==> a in l.fields) ==> merged.value == Merge(l, r)
    ensures merged.Failure? ==> ConflictsAt(l, r, keys, merged.error)
  {
    var fields := l.fields;
    var rest := r.fields.Keys;
    while rest != {}
      invariant rest <= r.fields.Keys
      invariant MergedBut(fields, l, r, keys, rest)
      decreases |rest|
    {
      var field :| field in rest;
      rest := rest - {field};
      if field in keys {
        continue;
      }
      if field in fields && !Equal(fields[field], r.fields[field]) {
        return Failure(field);
      }
      if field !in fields {
        fields := fields[field := r.fields[field]];
      }
    }
    MergedAll(fields, l, r, keys);
    merged := Success(Record(fields));
  }

  // ---- the hash join ----

  /** The right rows filed under a key, in right order. */
  function Group(key: seq<Value>, right: seq<Record>, keys: seq<string>): seq<Record>
    requires AllHaveKeys(right, keys)
  {
    if right == [] then []
    else
      var last := right[|right| - 1];
      Group(key, right[..|right| - 1], keys) + (if Tuple(last, keys) == key then [last] else [])
  }

  lemma {:induction false} GroupMembers(key: seq<Value>, right: seq<Record>, keys: seq<string>)
    requires AllHaveKeys(right, keys)
    ensures forall r :: r in Group(key, right, keys) <==> r in right && Tuple(r, keys) == key
  {
    if right != [] {
      var n := |right| - 1;
      GroupMembers(key, right[..n], keys);
      assert right == right[..n] + [right[n]];
    }
  }

  function MergeAll(l: Record, rs: seq<Record>): seq<Record> {
    seq(|rs|, i requires 0 <= i < |rs| => Merge(l, rs[i]))
  }

  /** The table lookup finds exactly the matching rows. */
  lemma {:induction false} JoinRowIsGroup(l: Record, right: seq<Record>, keys: seq<string>)
    requires HasKey(l, keys) && AllHaveKeys(right, keys)
    ensures JoinRow(l, right, keys) == MergeAll(l, Group(Tuple(l, keys), right, keys))
  {
    if right != [] {
      var last := right[|right| - 1];
      JoinRowIsGroup(l, right[..|right| - 1], keys);
      TupleIffMatches(l, last, keys);
    }
  }

  function Lookup(byKey: map<seq<Value>, seq<Record>>, key: seq<Value>): seq<Record> {
    if key in byKey then byKey[key] else []
  }

  ghost predicate Filed(byKey: map<seq<Value>, seq<Record>>, right: seq<Record>, keys: seq<string>)
    requires AllHaveKeys(right, keys)
  {
    forall key :: Lookup(byKey, key) == Group(key, right, keys)
  }

  method KeyLeft(left: seq<Record>, keys: seq<string>)
    returns (r: Result<seq<seq<Value>>, JoinError>, domain: set<seq<Value>>)
    ensures r.Success? <==> AllHaveKeys(left, keys)
    ensures r.Success? ==> |r.value| == |left| && forall i :: 0 <= i < |left| ==> r.value[i] == Tuple(left[i], keys)
    ensures r.Success? ==> domain == set i | 0 <= i < |left| :: Tuple(left[i], keys)
    ensures r.Failure? ==>
      r.error.LeftKey? && r.error.row < |left| && KeyFault(left[r.error.row], keys, r.error.error)
      && AllHaveKeys(left[..r.error.row], keys)
  {
    var keyed: seq<seq<Value>> := [];
    domain := {};
    for i := 0 to |left|
      invariant AllHaveKeys(left[..i], keys)
      invariant |keyed| == i && forall k :: 0 <= k < i ==> keyed[k] == Tuple(left[k], keys)
      invariant domain == set k | 0 <= k < i :: Tuple(left[k], keys)
    {
      var key := RowKey(left[i], keys);
      if key.Failure? {
        return Failure(LeftKey(i, key.error)), domain;
      }
      keyed := keyed + [key.value];
      domain := domain + {key.value};
    }
    r := Success(keyed);
  }

  /** A right row is acceptable: it has a key, and a key of the left side. */
  predicate RightRowOk(row: Record, domain: set<seq<Value>>, keys: seq<string>) {
    HasKey(row, keys) && Tuple(row, keys) in domain
  }

  predicate RightRowsOk(rows: seq<Record>, domain: set<seq<Value>>, keys: seq<string>) {
    forall i :: 0 <= i < |rows| ==> RightRowOk(rows[i], domain, keys)
  }

  lemma GroupSnoc(key: seq<Value>, right: seq<Record>, row: Record, keys: seq<string>)
    requires AllHaveKeys(right + [row], keys) && AllHaveKeys(right, keys) && HasKey(row, keys)
    ensures Group(key, right + [row], keys) == Group(key, right, keys) + (if Tuple(row, keys) == key then [row] else [])
  {
    assert (right + [row])[..|right|] == right;
  }

  lemma FileOne(byKey: map<seq<Value>, seq<Record>>, right: seq<Record>, row: Record, keys: seq<string>)
    requires AllHaveKeys(right, keys) && HasKey(row, keys) && Filed(byKey, right, keys)
    ensures AllHaveKeys(right + [row], keys)
    ensures Filed(byKey[Tuple(row, keys) := Lookup(byKey, Tuple(row, keys)) + [row]], right + [row], keys)
  {
    var key := Tuple(row, keys);
    var next := byKey[key := Lookup(byKey, key) + [row]];
    forall k ensures Lookup(next, k) == Group(k, right + [row], keys) {
      assert Lookup(byKey, k) == Group(k, right, keys);
      GroupSnoc(k, right, row, keys);
    }
  }

  method FileRight(right: seq<Record>, domain: set<seq<Value>>, keys: seq<string>)
    returns (r: Result<map<seq<Value>, seq<Record>>, JoinError>)
    ensures r.Success? <==> RightRowsOk(right, domain, keys)
    ensures r.Success? ==> AllHaveKeys(right, keys) && Filed(r.value, right, keys)
    ensures r.Failure? ==> r.error.RightKey? || r.error.OutsideLeftKeys?
    ensures r.Failure? ==> r.error.row < |right| && RightRowsOk(right[..r.error.row], domain, keys)
    ensures r.Failure? && r.error.RightKey? ==> KeyFault(right[r.error.row], keys, r.error.error)
    ensures r.Failure? && r.error.OutsideLeftKeys? ==>
      HasKey(right[r.error.row], keys) && Tuple(right[r.error.row], keys) !in domain
  {
    var byKey: map<seq<Value>, seq<Record>> := map[];
    for j := 0 to |right|
      invariant RightRowsOk(right[..j], domain, keys) && AllHaveKeys(right[..j], keys)
      invariant Filed(byKey, right[..j], keys)
    {
      var key := RowKey(right[j], keys);
      if key.Failure? {
        return Failure(RightKey(j, key.error));
      }
      if key.value !in domain {
        return Failure(OutsideLeftKeys(j));
      }
      FileOne(byKey, right[..j], right[j], keys);
      assert right[..j + 1] == right[..j] + [right[j]];
      byKey := byKey[key.value := Lookup(byKey, key.value) + [right[j]]];
    }
    assert right[..|right|] == right;
    r := Success(byKey);
  }

  function Take<T>(xs: seq<T>, limit: nat): seq<T> { if |xs| <= limit then xs else xs[..limit] }

  predicate AgreeAll(l: Record, rs: seq<Record>, keys: seq<string>) {
    forall j :: 0 <= j < |rs| ==> Agree(l, rs[j], keys)
  }

  /** Merges one left row with its matches; `joined` is the whole join so far. */
  method JoinMatches(l: Record, matches: seq<Record>, keys: seq<string>, limit: nat, stored: seq<Record>,
      total: nat, ghost joined: seq<Record>)
    returns (r: Option<string>, rows: seq<Record>, count: nat)
    requires stored == Take(joined, limit) && total == |joined|
    requires forall a :: a in keys ==> a in l.fields
    ensures r.None? <==> AgreeAll(l, matches, keys)
    ensures r.None? ==> rows == Take(joined + MergeAll(l, matches), limit) && count == |joined| + |matches|
    ensures r.Some? ==> exists j :: 0 <= j < |matches| && ConflictsAt(l, matches[j], keys, r.value)
  {
    rows, count := stored, total;
    assert joined + MergeAll(l, matches[..0]) == joined;
    for j := 0 to |matches|
      invariant AgreeAll(l, matches[..j], keys)
      invariant rows == Take(joined + MergeAll(l, matches[..j]), limit) && count == |joined| + j
    {
      var merged := MergeRows(l, matches[j], keys);
      if merged.Failure? {
        return Some(merged.error), rows, count;
      }
      assert joined + MergeAll(l, matches[..j + 1]) == joined + MergeAll(l, matches[..j]) + [merged.value];
      count := count + 1;
      if |rows| < limit {
        rows := rows + [merged.value];
      }
    }
    assert matches[..|matches|] == matches;
    r := None;
  }

  predicate RowCompatible(l: Record, right: seq<Record>, keys: seq<string>) {
    forall j :: 0 <= j < |right| && Matches(l, right[j], keys) ==> Agree(l, right[j], keys)
  }

  lemma RowCompatibleSnoc(l: Record, right: seq<Record>, r: Record, keys: seq<string>)
    ensures RowCompatible(l, right + [r], keys) <==>
      RowCompatible(l, right, keys) && (Matches(l, r, keys) ==> Agree(l, r, keys))
  {
    var longer := right + [r];
    if RowCompatible(l, longer, keys) {
      assert longer[|right|] == r;
      forall j | 0 <= j < |right| && Matches(l, right[j], keys) ensures Agree(l, right[j], keys) {
        assert longer[j] == right[j];
      }
    }
  }

  lemma AgreeAllSnoc(l: Record, rs: seq<Record>, r: Record, keys: seq<string>)
    ensures AgreeAll(l, rs + [r], keys) <==> AgreeAll(l, rs, keys) && Agree(l, r, keys)
  {
    var longer := rs + [r];
    if AgreeAll(l, longer, keys) {
      assert longer[|rs|] == r;
      forall j | 0 <= j < |rs| ensures Agree(l, rs[j], keys) {
        assert longer[j] == rs[j];
      }
    }
  }

  lemma {:induction false} GroupAgrees(l: Record, right: seq<Record>, keys: seq<string>)
    requires HasKey(l, keys) && AllHaveKeys(right, keys)
    ensures AgreeAll(l, Group(Tuple(l, keys), right, keys), keys) <==> RowCompatible(l, right, keys)
  {
    if right != [] {
      var front, last := right[..|right| - 1], right[|right| - 1];
      assert right == front + [last];
      GroupAgrees(l, front, keys);
      TupleIffMatches(l, last, keys);
      RowCompatibleSnoc(l, front, last, keys);
      AgreeAllSnoc(l, Group(Tuple(l, keys), front, keys), last, keys);
      GroupSnoc(Tuple(l, keys), front, last, keys);
      assert Group(Tuple(l, keys), front, keys) + [] == Group(Tuple(l, keys), front, keys);
    }
  }

  /** What the table is good for: left rows probe it and get their part of the join. */
  lemma ProbeIsJoinRow(l: Record, right: seq<Record>, keys: seq<string>, byKey: map<seq<Value>, seq<Record>>,
      key: seq<Value>)
    requires HasKey(l, keys) && AllHaveKeys(right, keys) && Filed(byKey, right, keys) && key == Tuple(l, keys)
    ensures MergeAll(l, Lookup(byKey, key)) == JoinRow(l, right, keys)
    ensures AgreeAll(l, Lookup(byKey, key), keys) <==> RowCompatible(l, right, keys)
  {
    assert Lookup(byKey, key) == Group(key, right, keys);
    JoinRowIsGroup(l, right, keys);
    GroupAgrees(l, right, keys);
  }

  lemma JoinSnoc(left: seq<Record>, i: nat, right: seq<Record>, keys: seq<string>)
    requires i < |left|
    ensures Join(left[..i + 1], right, keys) == Join(left[..i], right, keys) + JoinRow(left[i], right, keys)
  {
    assert left[..i + 1][..i] == left[..i];
  }

  ghost predicate ConflictIn(l: Record, right: seq<Record>, keys: seq<string>, field: string) {
    exists r :: r in right && Matches(l, r, keys) && ConflictsAt(l, r, keys, field)
  }

  lemma ProbeFindsMatches(l: Record, right: seq<Record>, keys: seq<string>, byKey: map<seq<Value>, seq<Record>>,
      key: seq<Value>)
    requires HasKey(l, keys) && AllHaveKeys(right, keys) && Filed(byKey, right, keys) && key == Tuple(l, keys)
    ensures forall j :: 0 <= j < |Lookup(byKey, key)| ==>
      Lookup(byKey, key)[j] in right && Matches(l, Lookup(byKey, key)[j], keys)
  {
    assert Lookup(byKey, key) == Group(key, right, keys);
    GroupMembers(key, right, keys);
    forall r | r in Lookup(byKey, key) ensures r in right && Matches(l, r, keys) {
      TupleIffMatches(l, r, keys);
    }
  }

  method Probe(l: Record, key: seq<Value>, byKey: map<seq<Value>, seq<Record>>, keys: seq<string>, limit: nat,
               stored: seq<Record>, total: nat, ghost joined: seq<Record>, ghost right: seq<Record>)
    returns (r: Option<string>, rows: seq<Record>, count: nat)
    requires HasKey(l, keys) && AllHaveKeys(right, keys) && Filed(byKey, right, keys) && key == Tuple(l, keys)
    requires stored == Take(joined, limit) && total == |joined|
    ensures r.None? <==> RowCompatible(l, right, keys)
    ensures r.None? ==>
      rows == Take(joined + JoinRow(l, right, keys), limit) && count == |joined + JoinRow(l, right, keys)|
    ensures r.Some? ==> ConflictIn(l, right, keys, r.value)
  {
    ProbeIsJoinRow(l, right, keys, byKey, key);
    ProbeFindsMatches(l, right, keys, byKey, key);
    r, rows, count := JoinMatches(l, Lookup(byKey, key), keys, limit, stored, total, joined);
  }

  ghost predicate RowsCompatible(left: seq<Record>, i: nat, right: seq<Record>, keys: seq<string>)
    requires i <= |left|
  {
    forall k :: 0 <= k < i ==> RowCompatible(left[k], right, keys)
  }

  ghost predicate Keyed(left: seq<Record>, keyed: seq<seq<Value>>, keys: seq<string>) {
    && |keyed| == |left| && AllHaveKeys(left, keys)
    && forall i :: 0 <= i < |left| ==> keyed[i] == Tuple(left[i], keys)
  }

  lemma OneMoreRow(left: seq<Record>, i: nat, right: seq<Record>, keys: seq<string>)
    requires i < |left| && RowsCompatible(left, i, right, keys)
    ensures RowsCompatible(left, i + 1, right, keys) <==> RowCompatible(left[i], right, keys)
    ensures !RowCompatible(left[i], right, keys) ==> !RowsCompatible(left, |left|, right, keys)
  {
  }

  method JoinAll(left: seq<Record>, keyed: seq<seq<Value>>, byKey: map<seq<Value>, seq<Record>>, keys: seq<string>,
      limit: nat, ghost right: seq<Record>)
    returns (r: Result<seq<Record>, JoinError>, total: nat)
    requires Keyed(left, keyed, keys) && AllHaveKeys(right, keys) && Filed(byKey, right, keys)
    ensures r.Success? <==> RowsCompatible(left, |left|, right, keys)
    ensures r.Success? ==> r.value == Take(Join(left, right, keys), limit) && total == |Join(left, right, keys)|
    ensures r.Failure? ==>
      r.error.Conflict? && exists i :: 0 <= i < |left| && ConflictIn(left[i], right, keys, r.error.field)
  {
    var rows: seq<Record> := [];
    total := 0;
    ghost var joined: seq<Record> := [];
    for i := 0 to |left|
      invariant RowsCompatible(left, i, right, keys)
      invariant joined == Join(left[..i], right, keys)
      invariant rows == Take(joined, limit) && total == |joined|
    {
      JoinSnoc(left, i, right, keys);
      OneMoreRow(left, i, right, keys);
      var conflict;
      conflict, rows, total := Probe(left[i], keyed[i], byKey, keys, limit, rows, total, joined, right);
      if conflict.Some? {
        return Failure(Conflict(conflict.value)), total;
      }
      joined := joined + JoinRow(left[i], right, keys);
    }
    assert left[..|left|] == left;
    r := Success(rows);
  }

  lemma DomainIsLeft(left: seq<Record>, row: Record, domain: set<seq<Value>>, keys: seq<string>)
    requires AllHaveKeys(left, keys) && domain == set i | 0 <= i < |left| :: Tuple(left[i], keys)
    requires HasKey(row, keys)
    ensures Tuple(row, keys) in domain <==> InLeft(row, left, keys)
  {
    forall i | 0 <= i < |left| ensures Tuple(left[i], keys) == Tuple(row, keys) <==> Matches(left[i], row, keys) {
      TupleIffMatches(left[i], row, keys);
    }
  }

  lemma RightRowsOkIff(left: seq<Record>, right: seq<Record>, domain: set<seq<Value>>, keys: seq<string>)
    requires AllHaveKeys(left, keys) && domain == set i | 0 <= i < |left| :: Tuple(left[i], keys)
    ensures RightRowsOk(right, domain, keys) <==>
      AllHaveKeys(right, keys) && forall j :: 0 <= j < |right| ==> InLeft(right[j], left, keys)
  {
    forall j | 0 <= j < |right| && HasKey(right[j], keys)
      ensures Tuple(right[j], keys) in domain <==> InLeft(right[j], left, keys)
    {
      DomainIsLeft(left, right[j], domain, keys);
    }
  }

  function JoinEmptyReason(left: Source, right: Source): EmptyReason {
    if Some(RetryAgent.Inconclusive) in {left.emptyReason, right.emptyReason} then RetryAgent.Inconclusive
    else RetryAgent.NoData
  }

  /** A join with nothing on one side is empty, and in doubt if either side is. */
  ghost function EmptyJoin(left: Source, right: Source): Option<EmptyReason> {
    if left.rows != [] && right.rows != [] then None
    else if left.emptyReason == Some(RetryAgent.Inconclusive) then left.emptyReason
    else if right.emptyReason == Some(RetryAgent.Inconclusive) then right.emptyReason
    else Some(RetryAgent.NoData)
  }

  /** The join of two sources succeeds exactly when it is joinable; it then stores the first rows of
      the whole join and counts all of them. */
  method ComposeJoined(left: Source, right: Source, keys: seq<string>, limit: nat)
      returns (r: Result<Composed, JoinError>)
    ensures r.Success? <==> Joinable(left, right, keys)
    ensures r.Success? ==>
      var joined := Join(left.rows, right.rows, keys);
      && r.value.rows == Take(joined, limit)
      && r.value.totalCount == |joined|
      && (r.value.truncated <==> |r.value.rows| < |joined|)
      && r.value.emptyReason == EmptyJoin(left, right)
    ensures r == Failure(SourceTruncated) <==> left.truncated || right.truncated
    ensures r.Failure? ==> JoinFault(left, right, keys, r.error)
  {
    if left.truncated || right.truncated {
      return Failure(SourceTruncated);
    }
    var keyed, domain := KeyLeft(left.rows, keys);
    if keyed.Failure? {
      return Failure(keyed.error);
    }
    RightRowsOkIff(left.rows, right.rows, domain, keys);
    var byKey := FileRight(right.rows, domain, keys);
    if byKey.Failure? {
      ghost var row := byKey.error.row;
      if byKey.error.OutsideLeftKeys? {
        DomainIsLeft(left.rows, right.rows[row], domain, keys);
      }
      return Failure(byKey.error);
    }
    if left.rows == [] || right.rows == [] {
      JoinOfNothing(left.rows, right.rows, keys);
      return Success(Composed([], Some(JoinEmptyReason(left, right)), 0, false));
    }
    JoinCoversRight(left.rows, right.rows, keys);
    CompatibleByRow(left.rows, right.rows, keys);
    var rows, total := JoinAll(left.rows, keyed.value, byKey.value, keys, limit, right.rows);
    if rows.Failure? {
      ghost var i :| 0 <= i < |left.rows| && ConflictIn(left.rows[i], right.rows, keys, rows.error.field);
      assert left.rows[i] in left.rows;
      return Failure(rows.error);
    }
    var reason := if total == 0 then Some(RetryAgent.NoData) else None;
    r := Success(Composed(rows.value, reason, total, total > |rows.value|));
  }

  lemma CompatibleByRow(left: seq<Record>, right: seq<Record>, keys: seq<string>)
    ensures Compatible(left, right, keys) <==> RowsCompatible(left, |left|, right, keys)
  {
  }

  lemma {:induction false} JoinOfNothing(left: seq<Record>, right: seq<Record>, keys: seq<string>)
    requires left == [] || right == []
    ensures Join(left, right, keys) == [] && Compatible(left, right, keys)
  {
    if left != [] {
      JoinOfNothing(left[..|left| - 1], right, keys);
    }
  }

  // ---- every right row appears in the join ----

  function CountMatches(left: seq<Record>, r: Record, keys: seq<string>): nat {
    if left == [] then 0
    else CountMatches(left[..|left| - 1], r, keys) + if Matches(left[|left| - 1], r, keys) then 1 else 0
  }

  lemma {:induction false} CountIsPositive(left: seq<Record>, r: Record, keys: seq<string>)
    ensures CountMatches(left, r, keys) > 0 <==> InLeft(r, left, keys)
  {
    if left != [] {
      var n := |left| - 1;
      CountIsPositive(left[..n], r, keys);
      if i :| 0 <= i < |left| && Matches(left[i], r, keys) {
        if i < n {
          assert Matches(left[..n][i], r, keys);
        }
      }
    }
  }

  lemma JoinRowSnoc(l: Record, right: seq<Record>, r: Record, keys: seq<string>)
    ensures |JoinRow(l, right + [r], keys)| == |JoinRow(l, right, keys)| + if Matches(l, r, keys) then 1 else 0
  {
    assert (right + [r])[..|right|] == right;
  }

  /** Counted from the right, each right row contributes one joined row for every left row it matches. */
  lemma {:induction false} JoinSize(left: seq<Record>, right: seq<Record>, r: Record, keys: seq<string>)
    ensures |Join(left, right + [r], keys)| == |Join(left, right, keys)| + CountMatches(left, r, keys)
  {
    if left != [] {
      JoinSize(left[..|left| - 1], right, r, keys);
      JoinRowSnoc(left[|left| - 1], right, r, keys);
    }
  }

  /** When no right row lies outside the left keys, the join has at least as many rows as the right side. */
  lemma {:induction false} JoinCoversRight(left: seq<Record>, right: seq<Record>, keys: seq<string>)
    requires forall j :: 0 <= j < |right| ==> InLeft(right[j], left, keys)
    ensures |Join(left, right, keys)| >= |right|
  {
    if right != [] {
      var n := |right| - 1;
      JoinCoversRight(left, right[..n], keys);
      JoinSize(left, right[..n], right[n], keys);
      CountIsPositive(left, right[n], keys);
      assert right == right[..n] + [right[n]];
    }
  }
}
