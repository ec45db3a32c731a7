/** Projects the rows of finished subqueries into the inputs of the next one. */
module InputBindings {
  import opened Wrappers
  import opened Collections
  import opened TopologicalOrder
  import opened Planning
  import opened RetryAgent

  datatype BindingError =
    | NoSuchResult(producer: string) | NotAList(producer: string)
    | NotARow(row: nat) | NoSuchField(row: nat)

  predicate RowHas<V>(row: Row<V>, field: string) { row.Object? && field in row.fields }

  predicate RowsHave<V>(rows: seq<Row<V>>, field: string) {
    forall i :: 0 <= i < |rows| ==> RowHas(rows[i], field)
  }

  /** One field of every row, in row order and with repetitions. */
  function Column<V>(rows: seq<Row<V>>, field: string): seq<V>
    requires RowsHave(rows, field)
  {
    seq(|rows|, i requires 0 <= i < |rows| => rows[i].fields[field])
  }

  /** The binding can be read off the finished results. */
  predicate Readable<V>(b: Binding, upstream: map<string, Rows<V>>) {
    && ProducerOf(b) in upstream
    && upstream[ProducerOf(b)].Rows?
    && RowsHave(upstream[ProducerOf(b)].rows, AliasOf(b))
  }

  method Project<V>(rows: seq<Row<V>>, field: string) returns (r: Result<seq<V>, BindingError>)
    ensures r.Success? <==> RowsHave(rows, field)
    ensures r.Success? ==> r.value == Column(rows, field)
  {
    var projected: seq<V> := [];
    for i := 0 to |rows|
      invariant RowsHave(rows[..i], field)
      invariant projected == Column(rows[..i], field)
    {
      if !rows[i].Object? {
        return Failure(NotARow(i));
      }
      if field !in rows[i].fields {
        return Failure(NoSuchField(i));
      }
      assert rows[..i + 1] == rows[..i] + [rows[i]];
      projected := projected + [rows[i].fields[field]];
    }
    assert rows[..|rows|] == rows;
    r := Success(projected);
  }

  /** `inputs` holds, for every binding, the column it names, and nothing else. */
  ghost predicate Projected<V>(bindings: seq<Binding>, upstream: map<string, Rows<V>>, inputs: map<string, seq<V>>) {
    && inputs.Keys == (set t | t in Targets(bindings))
    && forall i :: 0 <= i < |bindings| ==>
         && Readable(bindings[i], upstream)
         && bindings[i].target in inputs
         && inputs[bindings[i].target] == Column(upstream[ProducerOf(bindings[i])].rows, AliasOf(bindings[i]))
  }

  /** The inputs of a subquery; none if some binding cannot be read. */
  function ReadInputs<V>(bindings: seq<Binding>, upstream: map<string, Rows<V>>): Option<map<string, seq<V>>> {
    if bindings == [] then Some(map[])
    else
      var last := bindings[|bindings| - 1];
      match ReadInputs(bindings[..|bindings| - 1], upstream)
      case None => None
      case Some(inputs) =>
        if !Readable(last, upstream) then None
        else Some(inputs[last.target := Column(upstream[ProducerOf(last)].rows, AliasOf(last))])
  }

  /** Reading fails exactly when some binding cannot be read, and otherwise projects them all. */
  lemma {:induction false} ReadInputsProjects<V>(bindings: seq<Binding>, upstream: map<string, Rows<V>>)
    ensures ReadInputs(bindings, upstream).Some? <==> forall b :: b in bindings ==> Readable(b, upstream)
    ensures NoDuplicates(Targets(bindings)) && ReadInputs(bindings, upstream).Some? ==>
      Projected(bindings, upstream, ReadInputs(bindings, upstream).value)
  {
    if bindings != [] {
      var n := |bindings| - 1;
      ReadInputsProjects(bindings[..n], upstream);
      assert bindings == bindings[..n] + [bindings[n]];
      if NoDuplicates(Targets(bindings)) && ReadInputs(bindings, upstream).Some? {
        PrefixTargets(bindings, n);
        ProjectOne(bindings, n, upstream, ReadInputs(bindings[..n], upstream).value,
            Column(upstream[ProducerOf(bindings[n])].rows, AliasOf(bindings[n])));
        assert bindings[..n + 1] == bindings;
      }
    }
  }

  lemma PrefixTargets(bindings: seq<Binding>, n: nat)
    requires n <= |bindings| && NoDuplicates(Targets(bindings))
    ensures NoDuplicates(Targets(bindings[..n]))
  {
    assert forall k :: 0 <= k < n ==> Targets(bindings[..n])[k] == Targets(bindings)[k];
  }

  lemma ProjectOne<V>(bindings: seq<Binding>, i: nat, upstream: map<string, Rows<V>>, inputs: map<string, seq<V>>,
      column: seq<V>)
    requires i < |bindings| && NoDuplicates(Targets(bindings))
    requires Projected(bindings[..i], upstream, inputs)
    requires Readable(bindings[i], upstream)
      && column == Column(upstream[ProducerOf(bindings[i])].rows, AliasOf(bindings[i]))
    ensures Projected(bindings[..i + 1], upstream, inputs[bindings[i].target := column])
  {
    var targets := Targets(bindings);
    assert Targets(bindings[..i + 1]) == Targets(bindings[..i]) + [bindings[i].target];
    forall k | 0 <= k < i ensures bindings[k].target != bindings[i].target {
      assert targets[k] != targets[i];
    }
    forall k | 0 <= k < i ensures bindings[..i + 1][k] == bindings[..i][k] {
    }
  }

  lemma UnreadableFails<V>(bindings: seq<Binding>, upstream: map<string, Rows<V>>, i: nat)
    requires i < |bindings| && !Readable(bindings[i], upstream)
    ensures ReadInputs(bindings, upstream).None?
  {
    ReadInputsProjects(bindings, upstream);
    assert bindings[i] in bindings;
  }

  method CollectInputBindings<V>(bindings: seq<Binding>, upstream: map<string, Rows<V>>)
      returns (r: Result<map<string, seq<V>>, BindingError>)
    ensures r.Success? <==> ReadInputs(bindings, upstream).Some?
    ensures r.Success? ==> r.value == ReadInputs(bindings, upstream).value
  {
    var result: map<string, seq<V>> := map[];
    for i := 0 to |bindings|
      invariant ReadInputs(bindings[..i], upstream) == Some(result)
    {
      var b := bindings[i];
      if !Readable(b, upstream) {
        UnreadableFails(bindings, upstream, i);
      }
      if ProducerOf(b) !in upstream {
        return Failure(NoSuchResult(ProducerOf(b)));
      }
      if !upstream[ProducerOf(b)].Rows? {
        return Failure(NotAList(ProducerOf(b)));
      }
      var column :- Project(upstream[ProducerOf(b)].rows, AliasOf(b));
      assert bindings[..i + 1][..i] == bindings[..i];
      result := result[b.target := column];
    }
    assert bindings[..|bindings|] == bindings;
    r := Success(result);
  }

  /** Inputs read from one producer have its row count, and position `k` of each comes from its row `k`. */
  lemma InputsStayAligned<V>(bindings: seq<Binding>, upstream: map<string, Rows<V>>, inputs: map<string, seq<V>>,
      i: nat, j: nat, k: nat)
    requires Projected(bindings, upstream, inputs)
    requires i < |bindings| && j < |bindings| && ProducerOf(bindings[i]) == ProducerOf(bindings[j])
    requires k < |inputs[bindings[i].target]|
    ensures |inputs[bindings[i].target]| == |inputs[bindings[j].target]| == |upstream[ProducerOf(bindings[i])].rows|
    ensures
      var row := upstream[ProducerOf(bindings[i])].rows[k];
      && inputs[bindings[i].target][k] == row.fields[AliasOf(bindings[i])]
      && inputs[bindings[j].target][k] == row.fields[AliasOf(bindings[j])]
  {
  }
}
