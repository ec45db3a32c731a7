/** The two validators as they run: loops that fill lists and stop at the first complaint. */
module PlanValidation {
  import opened Wrappers
  import opened Text
  import opened TopologicalOrder
  import opened Planning

  // ---- compiling drafts ----

  lemma {:induction false} BindingFailureStays(drafts: seq<BindingDraft>, i: nat)
    requires i <= |drafts| && CompileBindings(drafts[..i]).Failure?
    ensures CompileBindings(drafts) == CompileBindings(drafts[..i])
  {
    if i == |drafts| {
      assert drafts[..i] == drafts;
    } else {
      var front := drafts[..|drafts| - 1];
      assert front[..i] == drafts[..i];
      BindingFailureStays(front, i);
    }
  }

  method CompileBindingArray(drafts: seq<BindingDraft>) returns (r: Result<seq<Binding>, PlanError>)
    ensures r == CompileBindings(drafts)
    ensures r.Success? <==> BindingDraftsOk(drafts)
    ensures r.Success? ==> r.value == CompiledBindings(drafts)
  {
    CompileBindingsIff(drafts);
    var compiled: seq<Binding> := [];
    for i := 0 to |drafts|
      invariant CompileBindings(drafts[..i]) == Success(compiled)
    {
      assert drafts[..i + 1][..i] == drafts[..i];
      if !BindingDraftOk(drafts[i]) {
        BindingFailureStays(drafts, i + 1);
        return Failure(InvalidBinding);
      }
      if exists k :: 0 <= k < |compiled| && compiled[k].target == drafts[i].target {
        BindingFailureStays(drafts, i + 1);
        return Failure(DuplicateTarget);
      }
      compiled := compiled + [CompileBinding(drafts[i])];
    }
    assert drafts[..|drafts|] == drafts;
    r := Success(compiled);
  }

  method CompileRouteDraft(d: Draft, shared: set<string>) returns (r: Result<Route, PlanError>)
    ensures r == CompileDraft(d, shared)
    ensures r.Success? <==> DraftOk(d, shared)
    ensures r.Success? ==> r.value == CompiledDraft(d)
  {
    CompileDraftIff(d, shared);
    if !IsSafeIdentifier(d.id) {
      return Failure(UnsafeId);
    }
    if d.tool !in SUPPORTED_TOOLS {
      return Failure(UnsupportedTool);
    }
    if IsBlank(d.question) {
      return Failure(EmptyQuestion);
    }
    if StringListError(d.dependsOn).Some? {
      return Failure(StringListError(d.dependsOn).value);
    }
    if StringListError(d.joinKeys).Some? {
      return Failure(StringListError(d.joinKeys).value);
    }
    if exists key :: key in d.joinKeys && key !in shared {
      return Failure(UnknownJoinKey);
    }
    var bindings :- CompileBindingArray(d.inputBindings);
    r := Success(Task(d.id, d.tool, d.question, d.dependsOn, d.joinKeys, bindings, NoOutputs));
  }

  lemma {:induction false} DraftFailureStays(drafts: seq<Draft>, shared: set<string>, i: nat)
    requires i <= |drafts| && CompileDrafts(drafts[..i], shared).Failure?
    ensures CompileDrafts(drafts, shared) == CompileDrafts(drafts[..i], shared)
  {
    if i == |drafts| {
      assert drafts[..i] == drafts;
    } else {
      var front := drafts[..|drafts| - 1];
      assert front[..i] == drafts[..i];
      DraftFailureStays(front, shared, i);
    }
  }

  method CompileRoute(drafts: seq<Draft>, shared: set<string>) returns (r: Result<seq<Route>, PlanError>)
    ensures r == CompileDrafts(drafts, shared)
  {
    var validated: seq<Route> := [];
    for i := 0 to |drafts|
      invariant CompileDrafts(drafts[..i], shared) == Success(validated)
    {
      assert drafts[..i + 1][..i] == drafts[..i];
      var item := CompileRouteDraft(drafts[i], shared);
      if item.Failure? {
        DraftFailureStays(drafts, shared, i + 1);
        return Failure(item.error);
      }
      validated := validated + [item.value];
    }
    assert drafts[..|drafts|] == drafts;
    r := Success(validated);
  }

  // ---- links between subqueries ----

  /** The bindings of one subquery; the producers seen are collected on the way. */
  method CheckBindings<E(==)>(item: Task<E>, items: seq<Task<E>>, offers: Task<E> -> set<string>, notOffered: PlanError)
    returns (error: Option<PlanError>, producers: set<string>)
    ensures error == BindingsError(item.inputBindings, item.dependsOn, items, offers, notOffered)
    ensures error.None? ==> producers == Producers(item)
  {
    var bindings := item.inputBindings;
    producers := {};
    for i := 0 to |bindings|
      invariant BindingsError(bindings, item.dependsOn, items, offers, notOffered) ==
                BindingsError(bindings[i..], item.dependsOn, items, offers, notOffered)
      invariant producers == set k | 0 <= k < i :: ProducerOf(bindings[k])
    {
      assert bindings[i..][0] == bindings[i] && bindings[i..][1..] == bindings[i + 1..];
      if ProducerOf(bindings[i]) !in item.dependsOn {
        return Some(BindingOutsideDependsOn), producers;
      }
      if !Offered(bindings[i], items, offers) {
        return Some(notOffered), producers;
      }
      producers := producers + {ProducerOf(bindings[i])};
    }
    error := None;
  }

  method CheckLinks<E(==)>(items: seq<Task<E>>, offers: Task<E> -> set<string>, notOffered: PlanError)
      returns (error: Option<PlanError>)
    ensures error == LinksError(items, items, offers, notOffered)
  {
    for i := 0 to |items|
      invariant LinksError(items, items, offers, notOffered) == LinksError(items[i..], items, offers, notOffered)
    {
      var item := items[i];
      assert items[i..][0] == item && items[i..][1..] == items[i + 1..];
      if !DependenciesKnown(item, items) {
        return Some(UnknownDependency);
      }
      var bindings, producers := CheckBindings(item, items, offers, notOffered);
      if bindings.Some? {
        return bindings;
      }
      if DependencySet(item) != producers {
        return Some(UnreferencedDependency);
      }
    }
    error := None;
  }

  method OrderPlan<E(==)>(items: seq<Task<E>>) returns (r: Result<seq<Task<E>>, PlanError>)
    ensures r == OrderAndCheckKeys(items)
  {
    var order := OrderSubqueries(items);
    if order.Failure? {
      return Failure(if order.error.DuplicateIds? then DuplicateSubqueryIds else Cyclic);
    }
    var ordered := order.value;
    if |ordered| == 2 {
      var first, second := ordered[0].joinKeys, ordered[1].joinKeys;
      if (first == []) != (second == []) {
        return Failure(JoinKeysOneSided);
      }
      if first != [] && first != second {
        return Failure(JoinKeysDiffer);
      }
    }
    r := Success(ordered);
  }

  /** The gate every drafted route passes. */
  method ValidateRouteSubqueries(drafts: seq<Draft>, shared: set<string>, owned: Ownership)
      returns (r: Result<seq<Route>, PlanError>)
    ensures r == ValidateRoute(drafts, shared, owned)
  {
    if drafts == [] {
      return Failure(NoSubqueries);
    }
    if |drafts| > MAX_SUBQUERIES {
      return Failure(TooManySubqueries);
    }
    var items :- CompileRoute(drafts, shared);
    if UniquenessError(items).Some? {
      return Failure(UniquenessError(items).value);
    }
    var links := CheckLinks(items, OwnedBy(owned), NotOwnedByProducer);
    if links.Some? {
      return Failure(links.value);
    }
    r := OrderPlan(items);
  }

  /** The gate every compiled plan passes before it is executed. */
  method ValidateExecutionPlan(items: seq<Subquery>) returns (r: Result<seq<Subquery>, PlanError>)
    ensures r == ValidateSubqueries(items)
  {
    if items == [] {
      return Failure(NoSubqueries);
    }
    if |items| > MAX_SUBQUERIES {
      return Failure(TooManySubqueries);
    }
    for i := 0 to |items|
      invariant ItemsError(items) == ItemsError(items[i..])
    {
      assert items[i..][0] == items[i] && items[i..][1..] == items[i + 1..];
      if ItemError(items[i]).Some? {
        return Failure(ItemError(items[i]).value);
      }
    }
    if UniquenessError(items).Some? {
      return Failure(UniquenessError(items).value);
    }
    var links := CheckLinks(items, RequiredOutputsOf, NotARequiredOutput);
    if links.Some? {
      return Failure(links.value);
    }
    r := OrderPlan(items);
  }
}
