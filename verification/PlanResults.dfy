/** Composes the final answer from what the executor reports for each source. */
module PlanResults {
  import opened Wrappers
  import opened TopologicalOrder
  import opened Planning
  import opened PlanCompiler
  import opened InputBindings
  import opened PlanExecutor
  import opened PlanExecution
  import opened PlanReport
  import opened Values
  import opened Composition
  import RetryAgent
  import BomShortage

  datatype SourceError = NoResult | SourceFailed | ResultMissing | NotAnObject(row: nat) | ReasonForRows

  datatype Mode = Single | Separate | Joined

  datatype ComposeError =
    | NoSubquery | TooMany | KeysDoNotAgree | NegativeLimit
    | BadSource(id: string, problem: SourceError)
    | NotJoined(fault: JoinError)
    | TransformInvalid
    | NotComputed(reason: BomShortage.ShortageFailure)

  /** What the validation of a formal transform answers. */
  datatype TransformCheck = NoTransform | Unsupported | Formal(transform: BomShortage.Transform)

  datatype Answer =
    | Flat(mode: Mode, composed: Composed)
    | Sections(sections: map<string, Source>, composed: Composed)
    | Shortages(shortages: BomShortage.ShortageAnswer)

  function RecordsOf(rows: seq<RetryAgent.Row<Value>>): Result<seq<Record>, SourceError> {
    if rows == [] then Success([])
    else
      var front :- RecordsOf(rows[..|rows| - 1]);
      match rows[|rows| - 1]
      case NotAnObject => Failure(SourceError.NotAnObject(|rows| - 1))
      case Object(fields) => Success(front + [Record(fields)])
  }

  function TruncatedOf(o: Outcome<Value>): bool { o.Ran? && o.summary.truncated }

  predicate HasError(o: Outcome<Value>) {
    match o
    case Ran(s) => s.error.Some?
    case DependencyEmpty(_) => false
    case _ => true
  }

  /** What a source brings to the composition. */
  function SourceOf(source: Option<Outcome<Value>>): Result<Source, SourceError> {
    if source.None? then Failure(NoResult)
    else
      var o := source.value;
      if HasError(o) then Failure(SourceFailed)
      else if o.ResultRows().Nothing? then Failure(ResultMissing)
      else
        var rows :- RecordsOf(o.ResultRows().rows);
        if rows != [] && o.EmptyBecause().Some? then Failure(ReasonForRows)
        else Success(Source(rows, o.EmptyBecause(), TruncatedOf(o)))
  }

  // ---- sources, read off the outcomes ----

  ghost predicate AreRecords(rows: seq<RetryAgent.Row<Value>>, records: seq<Record>) {
    |rows| == |records| && forall i :: 0 <= i < |rows| ==> rows[i] == RetryAgent.Object(records[i].fields)
  }

  /** The source an outcome stands for: the rows, the reason and the flag of its run, or nothing
      for the reason of its dependencies. */
  ghost predicate Carries(o: Outcome<Value>, s: Source) {
    match o
    case Ran(run) =>
      && run.error.None? && run.result.Rows? && AreRecords(run.result.rows, s.rows)
      && s.emptyReason == run.emptyReason && s.truncated == run.truncated
      && (s.rows != [] ==> s.emptyReason.None?)
    case DependencyEmpty(reason) => s == Source([], Some(reason), false)
    case _ => false
  }

  /** What stands in the way of using an outcome. */
  ghost predicate Spoils(o: Option<Outcome<Value>>, e: SourceError) {
    match o
    case None => e.NoResult?
    case Some(Ran(run)) =>
      if run.error.Some? then e.SourceFailed?
      else if run.result.Nothing? then e.ResultMissing?
      else if e.NotAnObject? then
        && e.row < |run.result.rows| && run.result.rows[e.row].NotAnObject?
        && forall i :: 0 <= i < e.row ==> run.result.rows[i].Object?
      else
        && e.ReasonForRows? && run.result.rows != [] && run.emptyReason.Some?
        && forall i :: 0 <= i < |run.result.rows| ==> run.result.rows[i].Object?
    case Some(DependencyEmpty(_)) => false
    case _ => e.SourceFailed?
  }

  lemma {:induction false} RecordsAre(rows: seq<RetryAgent.Row<Value>>)
    ensures
      match RecordsOf(rows)
      case Success(records) => AreRecords(rows, records)
      case Failure(e) =>
        && e.NotAnObject? && e.row < |rows| && rows[e.row].NotAnObject?
        && forall i :: 0 <= i < e.row ==> rows[i].Object?
  {
    if rows != [] {
      var n := |rows| - 1;
      RecordsAre(rows[..n]);
      assert forall i :: 0 <= i < n ==> rows[..n][i] == rows[i];
    }
  }

  lemma SourceIs(o: Option<Outcome<Value>>)
    ensures
      match SourceOf(o)
      case Success(s) => o.Some? && Carries(o.value, s)
      case Failure(e) => Spoils(o, e) && forall s :: o.Some? ==> !Carries(o.value, s)
  {
    if o.Some? && o.value.ResultRows().Rows? {
      RecordsAre(o.value.ResultRows().rows);
    }
  }

  lemma CarriesOnce(o: Outcome<Value>, s: Source)
    requires Carries(o, s)
    ensures SourceOf(Some(o)) == Success(s)
  {
    SourceIs(Some(o));
    SameSource(o, s, SourceOf(Some(o)).value);
  }

  lemma SameSource(o: Outcome<Value>, s: Source, t: Source)
    requires Carries(o, s) && Carries(o, t)
    ensures s == t
  {
    if o.Ran? {
      forall i | 0 <= i < |s.rows| ensures s.rows[i] == t.rows[i] {
        assert RetryAgent.Row<Value>.Object(s.rows[i].fields) == RetryAgent.Row<Value>.Object(t.rows[i].fields);
      }
    }
  }

  function KeySet(t: Subquery): set<string> { set k | k in t.joinKeys }

  /** One source stands alone; two are joined when both name the same keys. */
  function ModeOf(items: seq<Subquery>): Result<Mode, ComposeError> {
    if items == [] then Failure(NoSubquery)
    else if |items| > 2 then Failure(TooMany)
    else if |items| == 1 then Success(Single)
    else if items[0].joinKeys == [] && items[1].joinKeys == [] then Success(Separate)
    else if items[0].joinKeys == [] || items[1].joinKeys == [] || KeySet(items[0]) != KeySet(items[1]) then
      Failure(KeysDoNotAgree)
    else Success(Joined)
  }

  function Reported(t: Subquery, bySource: Outcomes<Value>): Result<Source, SourceError> {
    SourceOf(if t.tool in bySource then Some(bySource[t.tool]) else None)
  }

  predicate AllReported(items: seq<Subquery>, bySource: Outcomes<Value>) {
    forall i :: 0 <= i < |items| ==> Reported(items[i], bySource).Success?
  }

  function SourcesOf(items: seq<Subquery>, bySource: Outcomes<Value>): seq<Source>
    requires AllReported(items, bySource)
  {
    seq(|items|, i requires 0 <= i < |items| => Reported(items[i], bySource).value)
  }

  method CollectSources(items: seq<Subquery>, bySource: Outcomes<Value>) returns (r: Result<seq<Source>, ComposeError>)
    ensures r.Success? <==> AllReported(items, bySource)
    ensures r.Success? ==> r.value == SourcesOf(items, bySource)
    ensures r.Failure? ==> exists i ::
      && 0 <= i < |items| && AllReported(items[..i], bySource) && Reported(items[i], bySource).Failure?
      && r.error == BadSource(items[i].id, Reported(items[i], bySource).error)
  {
    var sources: seq<Source> := [];
    for i := 0 to |items|
      invariant AllReported(items[..i], bySource)
      invariant |sources| == i && forall k :: 0 <= k < i ==> sources[k] == Reported(items[k], bySource).value
    {
      var source := Reported(items[i], bySource);
      if source.Failure? {
        return Failure(BadSource(items[i].id, source.error));
      }
      sources := sources + [source.value];
    }
    r := Success(sources);
  }

  function ReasonIfEmpty(s: Source): Option<EmptyReason> { if s.rows == [] then s.emptyReason else None }

  /** Some rows need no reason; otherwise doubt about any source is doubt about the answer. */
  function OverallReason(a: Source, b: Source): Option<EmptyReason> {
    if a.rows != [] || b.rows != [] then None else Some(JoinEmptyReason(a, b))
  }

  function Alone(s: Source): Composed { Composed(s.rows, ReasonIfEmpty(s), |s.rows|, s.truncated) }

  /** What two separate sources amount to: their rows stay in the sections. */
  function Overall(a: Source, b: Source): Composed {
    Composed([], OverallReason(a, b), |a.rows| + |b.rows|, a.truncated || b.truncated)
  }

  /** Two subqueries are joined when both name the same keys, and some. */
  ghost predicate Joins(items: seq<Subquery>) {
    && |items| == 2 && items[0].joinKeys != [] && items[1].joinKeys != []
    && forall k :: k in items[0].joinKeys <==> k in items[1].joinKeys
  }

  ghost predicate StandsAlone(s: Source, c: Composed) {
    && c.rows == s.rows && c.totalCount == |s.rows| && c.truncated == s.truncated
    && c.emptyReason == if s.rows == [] then s.emptyReason else None
  }

  /** The section of a source keeps its rows, and its reason only without rows. */
  ghost predicate IsSection(s: Source, section: Source) {
    && section.rows == s.rows && section.truncated == s.truncated
    && section.emptyReason == if s.rows == [] then s.emptyReason else None
  }

  ghost predicate Counts(a: Source, b: Source, c: Composed) {
    && c.rows == [] && c.totalCount == |a.rows| + |b.rows| && (c.truncated <==> a.truncated || b.truncated)
    && c.emptyReason ==
       if a.rows != [] || b.rows != [] then None
       else if a.emptyReason == Some(RetryAgent.Inconclusive) then a.emptyReason
       else if b.emptyReason == Some(RetryAgent.Inconclusive) then b.emptyReason
       else Some(RetryAgent.NoData)
  }

  /** `answer` is the composition of the sources: one alone, two joined on their keys, or two side by side. */
  ghost predicate Composes(items: seq<Subquery>, sources: seq<Source>, limit: nat, answer: Answer)
    requires |sources| == |items|
  {
    if |items| == 1 then answer.Flat? && answer.mode == Single && StandsAlone(sources[0], answer.composed)
    else if Joins(items) then
      var joined := Join(sources[0].rows, sources[1].rows, items[0].joinKeys);
      && Joinable(sources[0], sources[1], items[0].joinKeys)
      && answer.Flat? && answer.mode == Joined
      && answer.composed.rows == (if |joined| <= limit then joined else joined[..limit])
      && answer.composed.totalCount == |joined| && answer.composed.truncated == (|joined| > limit)
      && answer.composed.emptyReason == EmptyJoin(sources[0], sources[1])
    else
      && |items| == 2 && items[0].joinKeys == [] && items[1].joinKeys == []
      && answer.Sections? && answer.sections.Keys == {items[0].id, items[1].id}
      && (items[0].id != items[1].id ==>
            && IsSection(sources[0], answer.sections[items[0].id])
            && IsSection(sources[1], answer.sections[items[1].id]))
      && Counts(sources[0], sources[1], answer.composed)
  }

  /** The sources that the outcomes stand for, in the order of the plan. */
  ghost predicate SourcesAre(items: seq<Subquery>, bySource: Outcomes<Value>, sources: seq<Source>) {
    |sources| == |items| && forall i :: 0 <= i < |items| ==>
      items[i].tool in bySource && Carries(bySource[items[i].tool], sources[i])
  }

  lemma SourcesAreRead(items: seq<Subquery>, bySource: Outcomes<Value>, sources: seq<Source>)
    ensures SourcesAre(items, bySource, sources) <==>
      AllReported(items, bySource) && sources == SourcesOf(items, bySource)
  {
    forall i | 0 <= i < |items| && i < |sources|
      ensures Reported(items[i], bySource) == Success(sources[i]) <==>
        items[i].tool in bySource && Carries(bySource[items[i].tool], sources[i])
    {
      if items[i].tool in bySource {
        SourceIs(Some(bySource[items[i].tool]));
        if Carries(bySource[items[i].tool], sources[i]) {
          CarriesOnce(bySource[items[i].tool], sources[i]);
        }
      }
    }
  }

  /** Some source cannot be used, while those before it can. */
  ghost predicate IsSpoilt(items: seq<Subquery>, bySource: Outcomes<Value>, id: string, e: SourceError) {
    exists i, sources ::
      && 0 <= i < |items| && items[i].id == id && SourcesAre(items[..i], bySource, sources)
      && Spoils(if items[i].tool in bySource then Some(bySource[items[i].tool]) else None, e)
  }

  /** The transform runs on a graph source followed by a SQL source. */
  predicate IsGraphThenSql(items: seq<Subquery>) { |items| == 2 && items[0].tool == "graph" && items[1].tool == "sql" }

  predicate TransformStands(items: seq<Subquery>, check: TransformCheck) {
    !check.Unsupported? && (check.Formal? ==> IsGraphThenSql(items))
  }

  lemma SameKeys(a: Subquery, b: Subquery)
    ensures KeySet(a) == KeySet(b) <==> forall k :: k in a.joinKeys <==> k in b.joinKeys
  {
    forall k ensures (k in KeySet(a) <==> k in a.joinKeys) && (k in KeySet(b) <==> k in b.joinKeys) {
    }
  }

  lemma ModeIs(items: seq<Subquery>)
    ensures
      match ModeOf(items)
      case Success(Single) => |items| == 1
      case Success(Joined) => Joins(items)
      case Success(Separate) => |items| == 2 && items[0].joinKeys == [] && items[1].joinKeys == []
      case Failure(e) => NoMode(items, e)
  {
    if |items| == 2 {
      SameKeys(items[0], items[1]);
    }
  }

  /** Why the plan cannot be composed in any mode. */
  ghost predicate NoMode(items: seq<Subquery>, e: ComposeError) {
    if items == [] then e.NoSubquery?
    else if |items| > 2 then e.TooMany?
    else
      && e.KeysDoNotAgree? && |items| == 2 && !Joins(items)
      && (items[0].joinKeys != [] || items[1].joinKeys != [])
  }

  method ComposeSources(items: seq<Subquery>, mode: Mode, sources: seq<Source>, limit: nat)
      returns (r: Result<Answer, JoinError>)
    requires ModeOf(items) == Success(mode) && |sources| == |items|
    ensures r.Success? ==> Composes(items, sources, limit, r.value)
    ensures r.Success? <==> (Joins(items) ==> Joinable(sources[0], sources[1], items[0].joinKeys))
    ensures r.Failure? ==> Joins(items) && JoinFault(sources[0], sources[1], items[0].joinKeys, r.error)
    ensures r == Failure(SourceTruncated) <==> Joins(items) && (sources[0].truncated || sources[1].truncated)
  {
    ModeIs(items);
    match mode {
      case Single =>
        r := Success(Flat(Single, Alone(sources[0])));
      case Separate =>
        var sections := map[items[0].id := sources[0].(emptyReason := ReasonIfEmpty(sources[0]))];
        sections := sections[items[1].id := sources[1].(emptyReason := ReasonIfEmpty(sources[1]))];
        r := Success(Sections(sections, Overall(sources[0], sources[1])));
      case Joined =>
        var joined := ComposeJoined(sources[0], sources[1], items[0].joinKeys, limit);
        if joined.Failure? {
          return Failure(joined.error);
        }
        r := Success(Flat(Joined, joined.value));
    }
  }

  /** `answer` composes the sources, or reports shortages when a transform was validated. */
  ghost predicate Answers(items: seq<Subquery>, sources: seq<Source>, limit: nat, check: TransformCheck, answer: Answer)
    requires |sources| == |items|
  {
    match check
    case NoTransform => Composes(items, sources, limit, answer)
    case Unsupported => false
    case Formal(t) =>
      && |items| == 2 && items[0].tool == "graph" && items[1].tool == "sql"
      && answer.Shortages?
      && BomShortage.Transforms(sources[0], sources[1], t, limit, Success(answer.shortages))
  }

  /** `e` is a true account of why there is no answer. */
  ghost predicate IsFault(items: seq<Subquery>, bySource: Outcomes<Value>, limit: int, check: TransformCheck,
      e: ComposeError)
  {
    match e
    case BadSource(id, problem) => IsSpoilt(items, bySource, id, problem)
    case NegativeLimit => limit < 0
    case TransformInvalid =>
      check.Unsupported? || (check.Formal? && !(|items| == 2 && items[0].tool == "graph" && items[1].tool == "sql"))
    case NotJoined(fault) =>
      && Joins(items) && check.NoTransform?
      && exists sources: seq<Source> ::
           && SourcesAre(items, bySource, sources)
           && JoinFault(sources[0], sources[1], items[0].joinKeys, fault)
           && (fault.SourceTruncated? <==> sources[0].truncated || sources[1].truncated)
    case NotComputed(reason) =>
      && limit >= 0 && check.Formal? && |items| == 2
      && exists sources: seq<Source> ::
           && SourcesAre(items, bySource, sources)
           && BomShortage.Transforms(sources[0], sources[1], check.transform, limit, Failure(reason))
    case _ => NoMode(items, e)
  }

  lemma SpoiltIsRead(items: seq<Subquery>, bySource: Outcomes<Value>, i: nat)
    requires i < |items| && AllReported(items[..i], bySource) && Reported(items[i], bySource).Failure?
    ensures IsSpoilt(items, bySource, items[i].id, Reported(items[i], bySource).error)
  {
    SourcesAreRead(items[..i], bySource, SourcesOf(items[..i], bySource));
    SourceIs(if items[i].tool in bySource then Some(bySource[items[i].tool]) else None);
  }

  /** Composition by mode, or by the formal transform if one was validated. */
  method ComposeResults(items: seq<Subquery>, bySource: Outcomes<Value>, limit: int, check: TransformCheck)
      returns (r: Result<Answer, ComposeError>)
    ensures r.Success? ==> limit >= 0 && exists sources: seq<Source> ::
      SourcesAre(items, bySource, sources) && Answers(items, sources, limit, check, r.value)
    ensures r.Failure? ==> IsFault(items, bySource, limit, check, r.error)
  {
    ModeIs(items);
    var mode :- ModeOf(items);
    if limit < 0 {
      return Failure(NegativeLimit);
    }
    if !TransformStands(items, check) {
      return Failure(TransformInvalid);
    }
    var collected := CollectSources(items, bySource);
    if collected.Failure? {
      ghost var i :| 0 <= i < |items| && AllReported(items[..i], bySource) && Reported(items[i], bySource).Failure?
        && collected.error == BadSource(items[i].id, Reported(items[i], bySource).error);
      SpoiltIsRead(items, bySource, i);
      return Failure(collected.error);
    }
    var sources := collected.value;
    SourcesAreRead(items, bySource, sources);
    if check.Formal? {
      var shortages := BomShortage.ComposeShortages(sources[0], sources[1], check.transform, limit);
      return if shortages.Failure? then Failure(NotComputed(shortages.error)) else Success(Shortages(shortages.value));
    }
    var answer := ComposeSources(items, mode, sources, limit);
    r := if answer.Failure? then Failure(NotJoined(answer.error)) else Success(answer.value);
  }

  // ---- validated plans ----

  lemma {:induction false} ObjectsHaveRecords(rows: seq<RetryAgent.Row<Value>>, aliases: seq<string>)
    requires aliases != [] && RetryAgent.EveryRowHas(RetryAgent.Rows(rows), aliases)
    ensures RecordsOf(rows).Success? && |RecordsOf(rows).value| == |rows|
    ensures forall i, a :: 0 <= i < |rows| && a in aliases ==> a in RecordsOf(rows).value[i].fields
  {
    if rows != [] {
      var n := |rows| - 1;
      assert forall i :: 0 <= i < n ==> rows[..n][i] == rows[i];
      ObjectsHaveRecords(rows[..n], aliases);
      assert RetryAgent.HasAliases(rows[n], aliases);
    }
  }

  /** The composition can use what an outcome brings, and every row carries what the subquery requires. */
  ghost predicate Usable(t: Subquery, source: Result<Source, SourceError>) {
    && source.Success?
    && (forall i, a :: 0 <= i < |source.value.rows| && a in t.extra.requiredOutputs ==>
        a in source.value.rows[i].fields)
  }

  lemma RunIsUsable(t: Subquery, summary: Summary<Value>)
    requires RetryAnswer(summary, t.extra.requiredOutputs) && t.extra.requiredOutputs != []
    requires summary.error.None? && summary.result.Rows?
    ensures Usable(t, SourceOf(Some(Ran(summary))))
  {
    RetryAnswerFacts(summary, t.extra.requiredOutputs);
    ObjectsHaveRecords(summary.result.rows, t.extra.requiredOutputs);
  }

  lemma FailedIsNoSource(o: Outcome<Value>)
    requires o.Failed()
    ensures SourceOf(Some(o)).Failure?
  {
  }

  lemma NothingIsUsable(t: Subquery, reason: EmptyReason)
    ensures Usable(t, SourceOf(Some(DependencyEmpty(reason))))
  {
  }

  ghost predicate FailedOrUsable(t: Subquery, o: Outcome<Value>) {
    if o.Failed() then SourceOf(Some(o)).Failure? else Usable(t, SourceOf(Some(o)))
  }

  lemma OutcomeUsable(t: Subquery, o: Outcome<Value>)
    requires o.Ran? ==> RetryAnswer(o.summary, t.extra.requiredOutputs)
    requires t.extra.requiredOutputs != []
    ensures FailedOrUsable(t, o)
  {
    if o.Failed() {
      FailedIsNoSource(o);
    } else if o.Ran? {
      RunIsUsable(t, o.summary);
    } else {
      NothingIsUsable(t, o.reason);
    }
  }

  lemma UsableUnlessFailed(items: seq<Subquery>, outcomes: Outcomes<Value>, agent: Agent<Value>, t: Subquery)
    requires Finished(items, outcomes, agent) && RunsRetries(agent) && t in items && t.id in outcomes
    requires t.extra.requiredOutputs != []
    ensures FailedOrUsable(t, outcomes[t.id])
  {
    if outcomes[t.id].Ran? {
      RanFacts(items, outcomes, agent, t);
    }
    OutcomeUsable(t, outcomes[t.id]);
  }

  lemma ValidatedMode(items: seq<Subquery>)
    requires Accepted(items, RequiredOutputsOf) && |items| <= MAX_SUBQUERIES
    ensures ModeOf(items).Success?
  {
  }

  /** Each validated subquery requires some output, its join keys among them. */
  predicate KeysRequired(t: Subquery) {
    t.extra.requiredOutputs != [] && forall k :: k in t.joinKeys ==> k in t.extra.requiredOutputs
  }

  lemma NoItemErrorMeansKeys(t: Subquery)
    requires ItemError(t).None?
    ensures KeysRequired(t)
  {
  }

  lemma ValidatedKeys(plan: seq<Subquery>, t: Subquery)
    requires ValidateSubqueries(plan).Success? && t in ValidateSubqueries(plan).value
    ensures t in plan && KeysRequired(t)
  {
    ValidationAccepts(plan);
    PermutationIds(plan, ValidateSubqueries(plan).value);
    ItemsErrorNone(plan);
    NoItemErrorMeansKeys(t);
  }

  /** What can still go wrong once a plan was validated and none of its subqueries failed. */
  ghost predicate DataFault(error: ComposeError) {
    error.NotJoined? && match error.fault
      case LeftKey(_, e) => !e.MissingKey?
      case RightKey(_, e) => !e.MissingKey?
      case _ => true
  }

  lemma NoKeyIsMissing(items: seq<Subquery>, sources: seq<Source>, error: JoinError)
    requires |items| == |sources| == 2 && items[0].joinKeys == items[1].joinKeys
    requires forall i :: 0 <= i < 2 ==> KeysRequired(items[i]) && Usable(items[i], Success(sources[i]))
    requires JoinFault(sources[0], sources[1], items[0].joinKeys, error)
    ensures DataFault(NotJoined(error))
  {
  }

  /** The sources that the outcomes of the subqueries stand for. */
  ghost predicate CarriesAll(items: seq<Subquery>, outcomes: Outcomes<Value>, sources: seq<Source>) {
    |sources| == |items| && forall i :: 0 <= i < |items| ==>
      items[i].id in outcomes && Carries(outcomes[items[i].id], sources[i])
  }

  ghost predicate SomeTruncated(outcomes: Outcomes<Value>) {
    exists id :: id in outcomes && outcomes[id].Ran? && outcomes[id].summary.truncated
  }

  ghost predicate AnyBroken(outcomes: Outcomes<Value>) { exists id :: id in outcomes && Broken(outcomes[id]) }

  ghost predicate IsTruncated(answer: Answer) {
    if answer.Shortages? then answer.shortages.truncated else answer.composed.truncated
  }

  /** What a validated plan answers once every subquery brought a result: the composition of its sources;
      two that are to be joined are exactly when they are joinable. */
  ghost predicate Answered(items: seq<Subquery>, sources: seq<Source>, limit: nat, r: Result<Answer, ComposeError>)
    requires |sources| == |items|
  {
    && (r.Success? ==> Composes(items, sources, limit, r.value))
    && (r.Success? <==> (Joins(items) ==> Joinable(sources[0], sources[1], items[0].joinKeys)))
    && (r.Failure? ==> IsDataFault(items, sources, r.error))
  }

  /** Two joined sources whose data do not go together. */
  ghost predicate IsDataFault(items: seq<Subquery>, sources: seq<Source>, e: ComposeError)
    requires |sources| == |items|
  {
    && Joins(items) && e.NotJoined? && DataFault(e)
    && JoinFault(sources[0], sources[1], items[0].joinKeys, e.fault)
    && (e.fault.SourceTruncated? <==> sources[0].truncated || sources[1].truncated)
  }

  /** Validated plans: a failed subquery is reported as such; otherwise only the data itself can stand in
      the way of an answer, never a missing result, field or key. Truncated results are never joined, and
      an answer from sources that are not joined is marked truncated exactly when one of them is. */
  method AnswerPlan(plan: seq<Subquery>, agent: Agent<Value>, limit: nat) returns (r: Result<Answer, ComposeError>)
    requires ValidateSubqueries(plan).Success? && RunsRetries(agent)
    ensures
      var items := ValidateSubqueries(plan).value;
      && ExecutePlan(items, agent).Some?
      && var outcomes := ExecutePlan(items, agent).value.outcomes;
      && (AnyBroken(outcomes) ==> r.Failure? && r.error.BadSource?)
      && (!AnyBroken(outcomes) ==>
            exists sources :: CarriesAll(items, outcomes, sources) && Answered(items, sources, limit, r))
      && (!AnyBroken(outcomes) && Joins(items) ==>
            (SomeTruncated(outcomes) <==> r == Failure(NotJoined(SourceTruncated))))
      && (!AnyBroken(outcomes) && !Joins(items) ==>
            r.Success? && (IsTruncated(r.value) <==> SomeTruncated(outcomes)))
  {
    var items := ValidateSubqueries(plan).value;
    ValidationAccepts(plan);
    ValidatedMode(items);
    AcceptedRuns(items, agent);
    ReportsMostSevere(items, agent);
    var end := ExecuteWaves(items, agent);
    r := ComposeResults(items, end.value.bySource, limit, NoTransform);
    SourcesFollowOutcomes(plan, items, end.value, agent);
    if AnyBroken(end.value.outcomes) {
      BrokenIsReported(items, end.value, limit, r);
    } else {
      var sources := SourcesOf(items, end.value.bySource);
      WholeIsAnswered(plan, items, end.value, agent, sources, limit, r);
      TruncationShows(items, end.value.outcomes, sources, limit, r);
    }
  }

  lemma CarriedTruncated(items: seq<Subquery>, outcomes: Outcomes<Value>, sources: seq<Source>)
    requires CarriesAll(items, outcomes, sources) && outcomes.Keys == Ids(items)
    ensures SomeTruncated(outcomes) <==> exists i :: 0 <= i < |sources| && sources[i].truncated
  {
    if id :| id in outcomes && outcomes[id].Ran? && outcomes[id].summary.truncated {
      var t :| t in items && t.id == id;
      var i :| 0 <= i < |items| && items[i] == t;
      assert sources[i].truncated;
    }
  }

  lemma BrokenIsReported(items: seq<Subquery>, end: Progress<Value>, limit: nat, r: Result<Answer, ComposeError>)
    requires ModeOf(items).Success? && !AllReported(items, end.bySource)
    requires r.Success? ==> exists sources ::
      SourcesAre(items, end.bySource, sources) && Answers(items, sources, limit, NoTransform, r.value)
    requires r.Failure? ==> IsFault(items, end.bySource, limit, NoTransform, r.error)
    ensures r.Failure? && r.error.BadSource?
  {
    ModeIs(items);
    forall sources ensures !SourcesAre(items, end.bySource, sources) {
      SourcesAreRead(items, end.bySource, sources);
    }
  }

  lemma FaultsDoNotJoin(left: Source, right: Source, keys: seq<string>, fault: JoinError)
    requires JoinFault(left, right, keys, fault)
    ensures !Joinable(left, right, keys)
  {
  }

  /** Whatever the composition answers, it is about the sources that the outcomes carry. */
  lemma OneAnswer(items: seq<Subquery>, bySource: Outcomes<Value>, sources: seq<Source>, limit: nat,
      r: Result<Answer, ComposeError>)
    requires ModeOf(items).Success? && SourcesAre(items, bySource, sources)
    requires r.Success? ==> exists other ::
      SourcesAre(items, bySource, other) && Answers(items, other, limit, NoTransform, r.value)
    requires r.Failure? ==> IsFault(items, bySource, limit, NoTransform, r.error)
    ensures r.Success? ==> Composes(items, sources, limit, r.value)
    ensures r.Failure? ==> r.error.NotJoined? && Joins(items)
    ensures r.Failure? ==>
      && JoinFault(sources[0], sources[1], items[0].joinKeys, r.error.fault)
      && (r.error.fault.SourceTruncated? <==> sources[0].truncated || sources[1].truncated)
  {
    ModeIs(items);
    SourcesAreRead(items, bySource, sources);
    forall other | SourcesAre(items, bySource, other) ensures other == sources {
      SourcesAreRead(items, bySource, other);
    }
    if r.Failure? && r.error.BadSource? {
      NothingSpoilt(items, bySource, r.error.id, r.error.problem);
    }
  }

  lemma NothingSpoilt(items: seq<Subquery>, bySource: Outcomes<Value>, id: string, e: SourceError)
    requires AllReported(items, bySource)
    ensures !IsSpoilt(items, bySource, id, e)
  {
    forall i | 0 <= i < |items| ensures items[i].tool in bySource && !Spoils(Some(bySource[items[i].tool]), e) {
      assert Reported(items[i], bySource).Success?;
      SourceIs(Some(bySource[items[i].tool]));
      NotSpoilt(bySource[items[i].tool], Reported(items[i], bySource).value, e);
    }
  }

  lemma NotSpoilt(o: Outcome<Value>, s: Source, e: SourceError)
    requires Carries(o, s)
    ensures !Spoils(Some(o), e)
  {
  }

  lemma WholeIsAnswered(plan: seq<Subquery>, items: seq<Subquery>, end: Progress<Value>, agent: Agent<Value>,
      sources: seq<Source>, limit: nat, r: Result<Answer, ComposeError>)
    requires ValidateSubqueries(plan) == Success(items) && Accepted(items, RequiredOutputsOf) && RunsRetries(agent)
    requires Finished(items, end.outcomes, agent) && ModeOf(items).Success?
    requires forall t :: t in items && t.id in end.outcomes ==>
      t.tool in end.bySource && end.bySource[t.tool] == end.outcomes[t.id]
    requires AllReported(items, end.bySource) && sources == SourcesOf(items, end.bySource)
    requires r.Success? ==> exists other ::
      SourcesAre(items, end.bySource, other) && Answers(items, other, limit, NoTransform, r.value)
    requires r.Failure? ==> IsFault(items, end.bySource, limit, NoTransform, r.error)
    ensures CarriesAll(items, end.outcomes, sources) && Answered(items, sources, limit, r)
  {
    SourcesAreRead(items, end.bySource, sources);
    forall i | 0 <= i < |items| ensures items[i].id in end.outcomes && Carries(end.outcomes[items[i].id], sources[i]) {
      assert items[i].id in Ids(items);
    }
    OneAnswer(items, end.bySource, sources, limit, r);
    if r.Failure? {
      FaultsDoNotJoin(sources[0], sources[1], items[0].joinKeys, r.error.fault);
      ModeIs(items);
      KeysCannotBeMissing(plan, items, end, agent, r.error.fault);
    }
  }

  lemma TruncationShows(items: seq<Subquery>, outcomes: Outcomes<Value>, sources: seq<Source>, limit: nat,
      r: Result<Answer, ComposeError>)
    requires CarriesAll(items, outcomes, sources) && outcomes.Keys == Ids(items) && ModeOf(items).Success?
    requires Answered(items, sources, limit, r)
    ensures Joins(items) ==> (SomeTruncated(outcomes) <==> r == Failure(NotJoined(SourceTruncated)))
    ensures !Joins(items) ==> r.Success? && (IsTruncated(r.value) <==> SomeTruncated(outcomes))
  {
    ModeIs(items);
    CarriedTruncated(items, outcomes, sources);
  }

  lemma SourcesFollowOutcomes(plan: seq<Subquery>, items: seq<Subquery>, end: Progress<Value>, agent: Agent<Value>)
    requires ValidateSubqueries(plan) == Success(items) && Accepted(items, RequiredOutputsOf) && RunsRetries(agent)
    requires Finished(items, end.outcomes, agent)
    requires forall t :: t in items && t.id in end.outcomes ==>
      t.tool in end.bySource && end.bySource[t.tool] == end.outcomes[t.id]
    ensures AllReported(items, end.bySource) <==> forall id :: id in end.outcomes ==> !end.outcomes[id].Failed()
    ensures AllReported(items, end.bySource) ==>
      forall i :: 0 <= i < |items| ==> KeysRequired(items[i]) && Usable(items[i], Reported(items[i], end.bySource))
  {
    forall i | 0 <= i < |items|
      ensures items[i].id in end.outcomes
      ensures Reported(items[i], end.bySource).Success? <==> !end.outcomes[items[i].id].Failed()
      ensures KeysRequired(items[i])
        && (Reported(items[i], end.bySource).Success? ==> Usable(items[i], Reported(items[i], end.bySource)))
    {
      ValidatedKeys(plan, items[i]);
      assert items[i].id in Ids(items);
      UsableUnlessFailed(items, end.outcomes, agent, items[i]);
    }
    forall id | id in end.outcomes ensures exists i :: 0 <= i < |items| && items[i].id == id {
      var t :| t in items && t.id == id;
    }
  }

  lemma KeysCannotBeMissing(plan: seq<Subquery>, items: seq<Subquery>, end: Progress<Value>, agent: Agent<Value>,
      error: JoinError)
    requires ValidateSubqueries(plan) == Success(items) && Accepted(items, RequiredOutputsOf) && RunsRetries(agent)
    requires Finished(items, end.outcomes, agent)
    requires forall t :: t in items && t.id in end.outcomes ==>
      t.tool in end.bySource && end.bySource[t.tool] == end.outcomes[t.id]
    requires ModeOf(items) == Success(Joined) && AllReported(items, end.bySource)
    requires JoinFault(SourcesOf(items, end.bySource)[0], SourcesOf(items, end.bySource)[1], items[0].joinKeys, error)
    ensures DataFault(NotJoined(error))
  {
    SourcesFollowOutcomes(plan, items, end, agent);
    NoKeyIsMissing(items, SourcesOf(items, end.bySource), error);
  }
}
