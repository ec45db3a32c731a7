/** Validation of the route a model drafted and of the execution plan compiled from it. */
module Planning {
  import opened Wrappers
  import opened Text
  import opened Collections
  import opened TopologicalOrder

  const MAX_SUBQUERIES: nat := 2
  const SUPPORTED_TOOLS: set<string> := {"sql", "graph"}

  /** A binding as drafted. */
  datatype BindingDraft = BindingDraft(target: string, sourceSubqueryId: string, sourceOutput: string)

  /** A subquery as drafted, after the JSON shape checks. */
  datatype Draft = Draft(
    id: string, tool: string, question: string, dependsOn: seq<string>, joinKeys: seq<string>,
    inputBindings: seq<BindingDraft>)

  datatype NoOutputs = NoOutputs

  datatype TypedPredicate = TypedPredicate(field: string, value: string)

  /** A generator rule, as what its text is rendered from. */
  datatype Rule = ApplyPredicate(role: string, predicate_: TypedPredicate) | PathDirection

  datatype Outputs = Outputs(requiredOutputs: seq<string>, generatorRules: seq<Rule>)

  type Route = Task<NoOutputs>
  type Subquery = Task<Outputs>

  datatype PlanError =
    | NoSubqueries | TooManySubqueries | UnsafeId | UnsupportedTool | EmptyQuestion
    | BlankEntry | DuplicateEntry | UnknownJoinKey | InvalidBinding | DuplicateTarget
    | DuplicateSubqueryIds | DuplicateTools | UnknownDependency | BindingOutsideDependsOn
    | NotOwnedByProducer | UnreferencedDependency | Cyclic | JoinKeysOneSided | JoinKeysDiffer
    | EmptyOutputs | JoinKeysNotOutputs | NotARequiredOutput

  /** The aliases each source owns. */
  type Ownership = string -> set<string>

  /** `source.split(".", 1)`. */
  function SplitSource(source: string): (string, string) {
    if source == [] then ("", "")
    else if source[0] == '.' then ("", source[1..])
    else var rest := SplitSource(source[1..]); ([source[0]] + rest.0, rest.1)
  }

  function ProducerOf(b: Binding): string { SplitSource(b.source).0 }
  function AliasOf(b: Binding): string { SplitSource(b.source).1 }

  function Dots(s: string): nat {
    if s == [] then 0 else (if s[0] == '.' then 1 else 0) + Dots(s[1..])
  }

  function StringListError(xs: seq<string>): Option<PlanError> {
    if exists i :: 0 <= i < |xs| && IsBlank(xs[i]) then Some(BlankEntry)
    else if !NoDuplicates(xs) then Some(DuplicateEntry)
    else None
  }

  function CompileBinding(d: BindingDraft): Binding { Binding(d.target, d.sourceSubqueryId + "." + d.sourceOutput) }

  predicate BindingDraftOk(d: BindingDraft) {
    IsSafeIdentifier(d.target) && d.sourceSubqueryId != "" && IsSafeIdentifier(d.sourceOutput)
  }

  /** Bindings compile one by one; the first bad or repeated target ends it. */
  function CompileBindings(drafts: seq<BindingDraft>): Result<seq<Binding>, PlanError> {
    if drafts == [] then Success([])
    else
      var last := drafts[|drafts| - 1];
      var compiled :- CompileBindings(drafts[..|drafts| - 1]);
      if !BindingDraftOk(last) then Failure(InvalidBinding)
      else if exists i :: 0 <= i < |compiled| && compiled[i].target == last.target then Failure(DuplicateTarget)
      else Success(compiled + [CompileBinding(last)])
  }

  function CompileDraft(d: Draft, shared: set<string>): Result<Route, PlanError> {
    if !IsSafeIdentifier(d.id) then Failure(UnsafeId)
    else if d.tool !in SUPPORTED_TOOLS then Failure(UnsupportedTool)
    else if IsBlank(d.question) then Failure(EmptyQuestion)
    else if StringListError(d.dependsOn).Some? then Failure(StringListError(d.dependsOn).value)
    else if StringListError(d.joinKeys).Some? then Failure(StringListError(d.joinKeys).value)
    else if exists key :: key in d.joinKeys && key !in shared then Failure(UnknownJoinKey)
    else
      var bindings :- CompileBindings(d.inputBindings);
      Success(Task(d.id, d.tool, d.question, d.dependsOn, d.joinKeys, bindings, NoOutputs))
  }

  function CompileDrafts(drafts: seq<Draft>, shared: set<string>): Result<seq<Route>, PlanError> {
    if drafts == [] then Success([])
    else
      var compiled :- CompileDrafts(drafts[..|drafts| - 1], shared);
      var last :- CompileDraft(drafts[|drafts| - 1], shared);
      Success(compiled + [last])
  }

  function Tools<E>(items: seq<Task<E>>): seq<string> {
    seq(|items|, i requires 0 <= i < |items| => items[i].tool)
  }

  /** Each id and each source is used once. */
  function UniquenessError<E(==)>(items: seq<Task<E>>): Option<PlanError> {
    if !UniqueIds(items) then Some(DuplicateSubqueryIds)
    else if !NoDuplicates(Tools(items)) then Some(DuplicateTools)
    else None
  }

  function Producers<E>(item: Task<E>): set<string> {
    set i | 0 <= i < |item.inputBindings| :: ProducerOf(item.inputBindings[i])
  }

  predicate DependenciesKnown<E(==)>(item: Task<E>, items: seq<Task<E>>) {
    item.id !in item.dependsOn && forall d :: d in item.dependsOn ==> d in Ids(items)
  }

  /** Some producer of the binding offers the alias it reads. */
  predicate Offered<E(==)>(b: Binding, items: seq<Task<E>>, offers: Task<E> -> set<string>) {
    forall p :: 0 <= p < |items| && items[p].id == ProducerOf(b) ==> AliasOf(b) in offers(items[p])
  }

  function BindingsError<E(==)>(bindings: seq<Binding>, dependsOn: seq<string>, items: seq<Task<E>>,
                                offers: Task<E> -> set<string>, notOffered: PlanError): Option<PlanError>
  {
    if bindings == [] then None
    else if ProducerOf(bindings[0]) !in dependsOn then Some(BindingOutsideDependsOn)
    else if !Offered(bindings[0], items, offers) then Some(notOffered)
    else BindingsError(bindings[1..], dependsOn, items, offers, notOffered)
  }

  function LinkError<E(==)>(item: Task<E>, items: seq<Task<E>>, offers: Task<E> -> set<string>,
      notOffered: PlanError): Option<PlanError>
  {
    if !DependenciesKnown(item, items) then Some(UnknownDependency)
    else
      var bindings := BindingsError(item.inputBindings, item.dependsOn, items, offers, notOffered);
      if bindings.Some? then bindings
      else if DependencySet(item) != Producers(item) then Some(UnreferencedDependency)
      else None
  }

  function LinksError<E(==)>(rest: seq<Task<E>>, items: seq<Task<E>>, offers: Task<E> -> set<string>,
      notOffered: PlanError): Option<PlanError>
  {
    if rest == [] then None
    else if LinkError(rest[0], items, offers, notOffered).Some? then LinkError(rest[0], items, offers, notOffered)
    else LinksError(rest[1..], items, offers, notOffered)
  }

  /** Orders the items; two sources join on the same ordered keys or not at all. */
  function OrderAndCheckKeys<E(==)>(items: seq<Task<E>>): Result<seq<Task<E>>, PlanError> {
    match OrderOf(items)
    case Failure(DuplicateIds) => Failure(DuplicateSubqueryIds)
    case Failure(CyclicDependency) => Failure(Cyclic)
    case Success(ordered) =>
      if |ordered| != 2 then Success(ordered)
      else if (ordered[0].joinKeys == []) != (ordered[1].joinKeys == []) then Failure(JoinKeysOneSided)
      else if ordered[0].joinKeys != ordered[1].joinKeys then Failure(JoinKeysDiffer)
      else Success(ordered)
  }

  function OwnedBy(owned: Ownership): Route -> set<string> { (t: Route) => owned(t.tool) }

  /** Validates a drafted route against what each source owns. */
  function ValidateRoute(drafts: seq<Draft>, shared: set<string>, owned: Ownership): Result<seq<Route>, PlanError> {
    if drafts == [] then Failure(NoSubqueries)
    else if |drafts| > MAX_SUBQUERIES then Failure(TooManySubqueries)
    else
      var items :- CompileDrafts(drafts, shared);
      if UniquenessError(items).Some? then Failure(UniquenessError(items).value)
      else
        var links := LinksError(items, items, OwnedBy(owned), NotOwnedByProducer);
        if links.Some? then Failure(links.value) else OrderAndCheckKeys(items)
  }

  function ItemError(item: Subquery): Option<PlanError> {
    if !IsSafeIdentifier(item.id) then Some(UnsafeId)
    else if item.tool !in SUPPORTED_TOOLS then Some(UnsupportedTool)
    else if IsBlank(item.question) then Some(EmptyQuestion)
    else if StringListError(item.dependsOn).Some? then StringListError(item.dependsOn)
    else if StringListError(item.extra.requiredOutputs).Some? then StringListError(item.extra.requiredOutputs)
    else if item.extra.requiredOutputs == [] then Some(EmptyOutputs)
    else if StringListError(item.joinKeys).Some? then StringListError(item.joinKeys)
    else if exists key :: key in item.joinKeys && key !in item.extra.requiredOutputs then Some(JoinKeysNotOutputs)
    else if exists i ::
        0 <= i < |item.inputBindings|
        && !(IsSafeIdentifier(item.inputBindings[i].target) && Dots(item.inputBindings[i].source) == 1)
    then Some(InvalidBinding)
    else if !BindsOnce(item) then Some(DuplicateTarget)
    else if !NoDuplicates(item.extra.generatorRules) then Some(DuplicateEntry)
    else None
  }

  function ItemsError(items: seq<Subquery>): Option<PlanError> {
    if items == [] then None
    else if ItemError(items[0]).Some? then ItemError(items[0])
    else ItemsError(items[1..])
  }

  function RequiredOutputsOf(t: Subquery): set<string> { set a | a in t.extra.requiredOutputs }

  /** Validates a compiled execution plan without interpreting it again. */
  function ValidateSubqueries(items: seq<Subquery>): Result<seq<Subquery>, PlanError> {
    if items == [] then Failure(NoSubqueries)
    else if |items| > MAX_SUBQUERIES then Failure(TooManySubqueries)
    else if ItemsError(items).Some? then Failure(ItemsError(items).value)
    else if UniquenessError(items).Some? then Failure(UniquenessError(items).value)
    else
      var links := LinksError(items, items, RequiredOutputsOf, NotARequiredOutput);
      if links.Some? then Failure(links.value) else OrderAndCheckKeys(items)
  }

  // ---- what the compilation of drafts accepts, and what it yields ----

  /** Distinct texts with something in them. */
  predicate GoodList(xs: seq<string>) { (forall x :: x in xs ==> !IsBlank(x)) && NoDuplicates(xs) }

  lemma StringListErrorNone(xs: seq<string>)
    ensures StringListError(xs).None? <==> GoodList(xs)
  {
    forall i | 0 <= i < |xs| ensures xs[i] in xs {
    }
  }

  function DraftTargets(drafts: seq<BindingDraft>): seq<string> {
    seq(|drafts|, i requires 0 <= i < |drafts| => drafts[i].target)
  }

  function CompiledBindings(drafts: seq<BindingDraft>): seq<Binding> {
    seq(|drafts|, i requires 0 <= i < |drafts| => CompileBinding(drafts[i]))
  }

  predicate BindingDraftsOk(drafts: seq<BindingDraft>) {
    && (forall d :: d in drafts ==>
          IsSafeIdentifier(d.target) && d.sourceSubqueryId != "" && IsSafeIdentifier(d.sourceOutput))
    && NoDuplicates(DraftTargets(drafts))
  }

  lemma BindingDraftsSnoc(front: seq<BindingDraft>, last: BindingDraft)
    ensures BindingDraftsOk(front + [last]) <==>
            BindingDraftsOk(front) && BindingDraftOk(last) && last.target !in DraftTargets(front)
  {
    var all := DraftTargets(front + [last]);
    assert all == DraftTargets(front) + [last.target];
    assert all[..|front|] == DraftTargets(front);
    if NoDuplicates(all) {
      forall i, j | 0 <= i < j < |front| ensures DraftTargets(front)[i] != DraftTargets(front)[j] {
        assert all[i] != all[j];
      }
      forall i | 0 <= i < |front| ensures DraftTargets(front)[i] != last.target {
        assert all[i] != all[|front|];
      }
    }
  }

  /** Bindings compile exactly when each is well formed and no target repeats; each draft then gives its own binding. */
  lemma {:induction false} CompileBindingsIff(drafts: seq<BindingDraft>)
    ensures CompileBindings(drafts).Success? <==> BindingDraftsOk(drafts)
    ensures CompileBindings(drafts).Success? ==> CompileBindings(drafts).value == CompiledBindings(drafts)
  {
    if drafts != [] {
      var front, last := drafts[..|drafts| - 1], drafts[|drafts| - 1];
      CompileBindingsIff(front);
      BindingDraftsSnoc(front, last);
      assert drafts == front + [last];
      var compiled := CompiledBindings(front);
      assert forall i :: 0 <= i < |front| ==> compiled[i].target == DraftTargets(front)[i];
      assert CompiledBindings(drafts) == compiled + [CompileBinding(last)];
    }
  }

  predicate DraftOk(d: Draft, shared: set<string>) {
    && IsSafeIdentifier(d.id) && d.tool in SUPPORTED_TOOLS && !IsBlank(d.question)
    && GoodList(d.dependsOn) && GoodList(d.joinKeys) && (forall key :: key in d.joinKeys ==> key in shared)
    && BindingDraftsOk(d.inputBindings)
  }

  function CompiledDraft(d: Draft): Route {
    Task(d.id, d.tool, d.question, d.dependsOn, d.joinKeys, CompiledBindings(d.inputBindings), NoOutputs)
  }

  function CompiledDrafts(drafts: seq<Draft>): seq<Route> {
    seq(|drafts|, i requires 0 <= i < |drafts| => CompiledDraft(drafts[i]))
  }

  lemma CompileDraftIff(d: Draft, shared: set<string>)
    ensures CompileDraft(d, shared).Success? <==> DraftOk(d, shared)
    ensures CompileDraft(d, shared).Success? ==> CompileDraft(d, shared).value == CompiledDraft(d)
  {
    StringListErrorNone(d.dependsOn);
    StringListErrorNone(d.joinKeys);
    CompileBindingsIff(d.inputBindings);
  }

  lemma {:induction false} CompileDraftsIff(drafts: seq<Draft>, shared: set<string>)
    ensures CompileDrafts(drafts, shared).Success? <==> forall d :: d in drafts ==> DraftOk(d, shared)
    ensures CompileDrafts(drafts, shared).Success? ==> CompileDrafts(drafts, shared).value == CompiledDrafts(drafts)
  {
    if drafts != [] {
      var front, last := drafts[..|drafts| - 1], drafts[|drafts| - 1];
      CompileDraftsIff(front, shared);
      CompileDraftIff(last, shared);
      assert drafts == front + [last];
      assert CompiledDrafts(drafts) == CompiledDrafts(front) + [CompiledDraft(last)];
    }
  }

  /** What each compiled subquery has to satisfy on its own. */
  predicate ItemOk(t: Subquery) {
    && IsSafeIdentifier(t.id) && t.tool in SUPPORTED_TOOLS && !IsBlank(t.question)
    && GoodList(t.dependsOn) && GoodList(t.joinKeys)
    && GoodList(t.extra.requiredOutputs) && t.extra.requiredOutputs != []
    && (forall key :: key in t.joinKeys ==> key in t.extra.requiredOutputs)
    && (forall b :: b in t.inputBindings ==> IsSafeIdentifier(b.target) && Dots(b.source) == 1) && BindsOnce(t)
    && NoDuplicates(t.extra.generatorRules)
  }

  lemma ItemErrorNone(t: Subquery)
    ensures ItemError(t).None? <==> ItemOk(t)
  {
    StringListErrorNone(t.dependsOn);
    StringListErrorNone(t.joinKeys);
    StringListErrorNone(t.extra.requiredOutputs);
    forall i | 0 <= i < |t.inputBindings| ensures t.inputBindings[i] in t.inputBindings {
    }
  }
}
