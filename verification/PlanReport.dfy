/** What a completed run reports: its failure, its inputs and its results by source. */
module PlanReport {
  import opened Wrappers
  import opened Collections
  import opened TopologicalOrder
  import opened Planning
  import opened PlanCompiler
  import opened RetryAgent
  import opened InputBindings
  import opened PlanExecutor
  import opened PlanExecution

  // ---- the reported failure is the first of the most serious ones ----

  /** The failure an outcome leaves: that of its run, or that of a subquery that never ran. */
  ghost function RecordOf<V>(o: Outcome<V>): Option<QueryFailure> {
    match o
    case Ran(s) => s.failure
    case DependencyFailed(_) => Some(QueryFailure("DEPENDENCY_FAILED", UserCorrectable, true))
    case BindingInvalid => Some(QueryFailure("INPUT_BINDING_INVALID", Internal, true))
    case DependencyEmpty(_) => None
  }

  ghost function Records<V>(order: seq<string>, outcomes: Outcomes<V>): seq<Option<QueryFailure>>
    requires forall i :: 0 <= i < |order| ==> order[i] in outcomes
  {
    seq(|order|, i requires 0 <= i < |order| => RecordOf(outcomes[order[i]]))
  }

  /** A failure of the infrastructure is graver than an internal one, and that is graver than one the user
      can correct; between equals an original failure is graver than a dependent one. */
  ghost predicate Graver(a: QueryFailure, b: QueryFailure) {
    match (a.kind, b.kind)
    case (Infrastructure, Infrastructure) => !a.dependent && b.dependent
    case (Infrastructure, _) => true
    case (Internal, Infrastructure) => false
    case (Internal, Internal) => !a.dependent && b.dependent
    case (Internal, UserCorrectable) => true
    case (UserCorrectable, UserCorrectable) => !a.dependent && b.dependent
    case (UserCorrectable, _) => false
  }

  lemma OutranksIfGraver()
    ensures forall a, b :: Outranks(a, b) <==> Graver(a, b)
  {
  }

  /** The record at `k` beats every earlier one and is beaten by none. */
  ghost predicate FirstBestAt(records: seq<Option<QueryFailure>>, k: nat) {
    && k < |records| && records[k].Some?
    && (forall j :: 0 <= j < k && records[j].Some? ==> Graver(records[k].value, records[j].value))
    && (forall j :: k < j < |records| && records[j].Some? ==> !Graver(records[j].value, records[k].value))
  }

  ghost predicate FirstBest(best: Option<QueryFailure>, records: seq<Option<QueryFailure>>) {
    if best.None? then forall j :: 0 <= j < |records| ==> records[j].None?
    else exists k :: 0 <= k < |records| && records[k] == best && FirstBestAt(records, k)
  }

  function Prefer(best: Option<QueryFailure>, record: Option<QueryFailure>): Option<QueryFailure> {
    if record.None? then best else Some(PreferFailure(best, record.value))
  }

  lemma BestSoFar(best: Option<QueryFailure>, records: seq<Option<QueryFailure>>, record: Option<QueryFailure>)
    requires FirstBest(best, records)
    ensures FirstBest(Prefer(best, record), records + [record])
  {
    var longer := records + [record];
    OutranksIfGraver();
    if best.None? {
      if record.Some? {
        assert FirstBestAt(longer, |records|) && longer[|records|] == record;
      }
    } else {
      var k :| 0 <= k < |records| && records[k] == best && FirstBestAt(records, k);
      if record.Some? && Graver(record.value, best.value) {
        forall j | 0 <= j < |records| && longer[j].Some? ensures Graver(record.value, longer[j].value) {
          assert longer[j] == records[j];
        }
        assert FirstBestAt(longer, |records|) && longer[|records|] == record;
      } else {
        assert FirstBestAt(longer, k) && longer[k] == best;
      }
    }
  }

  /** Ids are recorded once, the best record so far is kept, and each source has its subquery's outcome. */
  ghost predicate Reporting<V>(items: seq<Subquery>, st: Progress<V>) {
    && (forall i :: 0 <= i < |st.order| ==> st.order[i] in st.outcomes)
    && FirstBest(st.queryFailure, Records(st.order, st.outcomes))
    && forall t :: t in items && t.id in st.outcomes ==>
        t.tool in st.bySource && st.bySource[t.tool] == st.outcomes[t.id]
  }

  lemma RecordKeepsReport<V>(items: seq<Subquery>, st: Progress<V>, t: Subquery, o: Outcome<V>)
    requires UniqueIds(items) && NoDuplicates(Tools(items)) && t in items
    requires Reporting(items, st) && t.id !in st.outcomes
    ensures Reporting(items, Record(st, t, o))
  {
    var next := Record(st, t, o);
    BestSoFar(st.queryFailure, Records(st.order, st.outcomes), RecordOf(o));
    assert Records(next.order, next.outcomes) == Records(st.order, st.outcomes) + [RecordOf(o)];
    forall u | u in items && u.id in next.outcomes
        ensures u.tool in next.bySource && next.bySource[u.tool] == next.outcomes[u.id] {
      SameToolSameItem(items, t, u);
    }
  }

  lemma SameToolSameItem(items: seq<Subquery>, t: Subquery, u: Subquery)
    requires UniqueIds(items) && NoDuplicates(Tools(items)) && t in items && u in items
    ensures t.tool == u.tool || t.id == u.id ==> t == u
  {
    var i :| 0 <= i < |items| && items[i] == t;
    var j :| 0 <= j < |items| && items[j] == u;
    assert Tools(items)[i] == t.tool && Tools(items)[j] == u.tool;
  }

  lemma {:induction false} WaveKeepsReport<V>(items: seq<Subquery>, st: Progress<V>, wave: seq<Subquery>,
      start: Outcomes<V>, agent: Agent<V>)
    requires UniqueIds(items) && NoDuplicates(Tools(items)) && Reporting(items, st)
    requires forall t :: t in wave ==> Released(t, start.Keys)
    requires UniqueIds(wave) && forall t :: t in wave ==> t in items && t.id !in st.outcomes
    ensures Reporting(items, RecordWave(st, wave, start, agent))
  {
    if wave != [] {
      var front, last := wave[..|wave| - 1], wave[|wave| - 1];
      WaveKeepsReport(items, st, front, start, agent);
      RecordWaveKeys(st, front, start, agent);
      RecordKeepsReport(items, RecordWave(st, front, start, agent), last, ExecuteSubquery(last, start, agent));
    }
  }

  lemma {:induction false} RunKeepsReport<V>(items: seq<Subquery>, st: Progress<V>, agent: Agent<V>)
    requires UniqueIds(items) && NoDuplicates(Tools(items)) && Reporting(items, st)
    requires RunFrom(items, st, agent).Some?
    ensures Reporting(items, RunFrom(items, st, agent).value)
    decreases |Ids(items) - st.outcomes.Keys|
  {
    var done := st.outcomes.Keys;
    if !(Ids(items) <= done) {
      var wave := Wave(items, done);
      WaveReleased(items, done);
      RecordWaveKeys(st, wave, st.outcomes, agent);
      ReadyShrinks(items, done);
      WaveUniqueIds(items, done);
      forall t | t in wave ensures t in items && t.id !in st.outcomes {
        WaveMembers(items, done, t);
      }
      WaveKeepsReport(items, st, wave, st.outcomes, agent);
      RunKeepsReport(items, RecordWave(st, wave, st.outcomes, agent), agent);
    }
  }

  /** A completed run reports the first record that no other record outranks, or none if there is
      none, and files every outcome under its own source. */
  lemma ReportsMostSevere<V>(items: seq<Subquery>, agent: Agent<V>)
    requires UniqueIds(items) && NoDuplicates(Tools(items)) && ExecutePlan(items, agent).Some?
    ensures
      var end := ExecutePlan(items, agent).value;
      && (forall i :: 0 <= i < |end.order| ==> end.order[i] in end.outcomes)
      && FirstBest(end.queryFailure, Records(end.order, end.outcomes))
      && forall t :: t in items && t.id in end.outcomes ==>
          t.tool in end.bySource && end.bySource[t.tool] == end.outcomes[t.id]
  {
    RunKeepsReport(items, Begin<V>(), agent);
  }

  // ---- agents that are retry runs ----

  /** What the executor keeps of a finished retry run. */
  function Summarize<V>(s: State<V>): Summary<V> {
    Summary(if s.result.None? then Nothing else s.result.value, s.error, s.emptyReason, s.truncated, s.failure)
  }

  /** Every answer of the agent is a retry run against some world, for the outputs its subquery requires. */
  ghost predicate RunsRetries<V(!new)>(agent: Agent<V>) {
    forall t: Subquery, inputs: map<string, seq<V>> :: RetryAnswer(agent(t, inputs), t.extra.requiredOutputs)
  }

  ghost predicate RetryAnswer<V(!new)>(summary: Summary<V>, aliases: seq<string>) {
    exists world: nat -> Probe<V> :: Run(world, aliases).Next? && summary == Summarize(Run(world, aliases).state)
  }

  /** A summary is what the answers to the last attempt of its run leave. */
  ghost predicate AnswersWith<V>(summary: Summary<V>, p: Probe<V>, aliases: seq<string>) {
    if Succeeds(p, aliases) || ReturnsEmpty(p) then
      && summary.error == None && summary.failure == None
      && p.execution == Returned(summary.result, summary.truncated)
      && (summary.emptyReason.Some? <==> ReturnsEmpty(p))
    else
      && summary.result.Nothing? && summary.error.Some?
      && exists t: Trace :: FailsAs(p, aliases, t) && summary.failure == Some(QueryFailure(t.code, t.kind, false))
  }

  /** Every run that ends gives the executor a summary of its last attempt, truncation included. */
  lemma RunIsAnswer<V(!new)>(world: nat -> Probe<V>, aliases: seq<string>, n: nat) returns (summary: Summary<V>)
    requires EndsAt(world, aliases, n)
    ensures RetryAnswer(summary, aliases) && AnswersWith(summary, world(n), aliases)
  {
    RunLeaves(world, aliases, n);
    summary := Summarize(Run(world, aliases).state);
  }

  /** And every answer of such an agent is the summary of some attempt. */
  lemma AnswerIsRun<V(!new)>(summary: Summary<V>, aliases: seq<string>) returns (p: Probe<V>)
    requires RetryAnswer(summary, aliases)
    ensures !Escaping(p) && AnswersWith(summary, p, aliases)
  {
    var world :| Run(world, aliases).Next? && summary == Summarize(Run(world, aliases).state);
    var n := Run(world, aliases).state.attemptCount;
    RunEnds(world, aliases);
    RunLeaves(world, aliases, n);
    p := world(n);
  }

  lemma RetryAnswerFacts<V(!new)>(summary: Summary<V>, aliases: seq<string>)
    requires RetryAnswer(summary, aliases)
    ensures summary.error.Some? <==> summary.failure.Some?
    ensures summary.failure.Some? ==> !summary.failure.value.dependent
    ensures summary.error.None? ==>
      EveryRowHas(summary.result, aliases) && (summary.emptyReason.Some? <==> IsEmpty(summary.result))
  {
    var world :| Run(world, aliases).Next? && summary == Summarize(Run(world, aliases).state);
    ResultOrFailure(world, aliases);
  }

  lemma RanFacts<V(!new)>(items: seq<Subquery>, outcomes: Outcomes<V>, agent: Agent<V>, t: Subquery)
    requires Finished(items, outcomes, agent) && RunsRetries(agent) && t in items && t.id in outcomes
      && outcomes[t.id].Ran?
    ensures RetryAnswer(outcomes[t.id].summary, t.extra.requiredOutputs)
  {
    assert outcomes[t.id] == ExecuteSubquery(t, outcomes, agent);
    var inputs := ReadInputs(t.inputBindings, ResultsOf(outcomes)).value;
    assert outcomes[t.id].summary == agent(t, inputs);
  }

  // ---- a validated plan always binds its inputs ----

  lemma BindingIsReadable<V(!new)>(items: seq<Subquery>, outcomes: Outcomes<V>, agent: Agent<V>, t: Subquery,
      b: Binding)
    requires Finished(items, outcomes, agent) && RunsRetries(agent) && t in items && Linked(t, items, RequiredOutputsOf)
    requires t.id in outcomes && !outcomes[t.id].DependencyFailed? && !outcomes[t.id].DependencyEmpty?
      && b in t.inputBindings
    ensures Readable(b, ResultsOf(outcomes))
  {
    var d := ProducerOf(b);
    var producer :| producer in items && producer.id == d;
    assert DependsOn(items, t.id, d);
    StepOutcome(items, outcomes, agent, t.id, d);
    RanFacts(items, outcomes, agent, producer);
    RetryAnswerFacts(outcomes[d].summary, producer.extra.requiredOutputs);
    assert AliasOf(b) in producer.extra.requiredOutputs;
  }

  /** Subqueries whose dependencies neither failed nor came back empty can read all they bind. */
  lemma InputsReadable<V(!new)>(items: seq<Subquery>, outcomes: Outcomes<V>, agent: Agent<V>, t: Subquery)
    requires Finished(items, outcomes, agent) && RunsRetries(agent) && t in items && Linked(t, items, RequiredOutputsOf)
    requires t.id in outcomes && !outcomes[t.id].DependencyFailed? && !outcomes[t.id].DependencyEmpty?
    ensures forall b :: b in t.inputBindings ==> Readable(b, ResultsOf(outcomes))
  {
    forall b | b in t.inputBindings ensures Readable(b, ResultsOf(outcomes)) {
      BindingIsReadable(items, outcomes, agent, t, b);
    }
  }

  /** `summary` answers `t` with exactly the columns its bindings name. */
  ghost predicate AnsweredWithInputs<V(!new)>(t: Subquery, summary: Summary<V>, results: map<string, Rows<V>>,
      agent: Agent<V>)
  {
    exists inputs :: Projected(t.inputBindings, results, inputs) && summary == agent(t, inputs)
  }

  lemma ReadableIsAnswered<V(!new)>(t: Subquery, outcomes: Outcomes<V>, agent: Agent<V>)
    requires Released(t, outcomes.Keys) && BindsOnce(t)
    requires forall b :: b in t.inputBindings ==> Readable(b, ResultsOf(outcomes))
    ensures !ExecuteSubquery(t, outcomes, agent).BindingInvalid?
    ensures ExecuteSubquery(t, outcomes, agent).Ran? ==>
      AnsweredWithInputs(t, ExecuteSubquery(t, outcomes, agent).summary, ResultsOf(outcomes), agent)
  {
    ReadInputsProjects(t.inputBindings, ResultsOf(outcomes));
  }

  /** In a validated plan run by retry agents no input is ever missing, and each
      subquery that runs gets exactly the columns its bindings name. */
  lemma ValidatedPlanBindsInputs<V(!new)>(items: seq<Subquery>, outcomes: Outcomes<V>, agent: Agent<V>, t: Subquery)
    requires Accepted(items, RequiredOutputsOf) && Finished(items, outcomes, agent) && RunsRetries(agent)
    requires t in items && t.id in outcomes
    ensures !outcomes[t.id].BindingInvalid?
    ensures outcomes[t.id].Ran? ==> AnsweredWithInputs(t, outcomes[t.id].summary, ResultsOf(outcomes), agent)
  {
    if outcomes[t.id].Ran? || outcomes[t.id].BindingInvalid? {
      assert Linked(t, items, RequiredOutputsOf);
      InputsReadable(items, outcomes, agent, t);
      ReadableIsAnswered(t, outcomes, agent);
    }
  }

  // ---- the whole of validation and execution ----

  lemma AcceptedIsOrdered(items: seq<Subquery>)
    requires Accepted(items, RequiredOutputsOf)
    ensures Ordered(items, items)
  {
    WavesInOrder(items, {});
  }

  lemma AcceptedRuns<V>(items: seq<Subquery>, agent: Agent<V>)
    requires Accepted(items, RequiredOutputsOf)
    ensures ExecutePlan(items, agent).Some?
    ensures Finished(items, ExecutePlan(items, agent).value.outcomes, agent)
    ensures ExecutePlan(items, agent).value.order == IdList(items)
  {
    forall t | t in items ensures BindsDependencies(t) {
      assert Linked(t, items, RequiredOutputsOf);
    }
    RunSettlesPlan(items, agent);
  }

  /** Every plan that validation accepts runs to the end, whatever the agents answer: each subquery has
      one outcome, in the validated order, and its inputs never go missing. */
  lemma ValidatedPlanCompletes<V(!new)>(plan: seq<Subquery>, agent: Agent<V>)
    requires ValidateSubqueries(plan).Success? && RunsRetries(agent)
    ensures
      var items := ValidateSubqueries(plan).value;
      && ExecutePlan(items, agent).Some?
      && var end := ExecutePlan(items, agent).value;
      && end.order == IdList(items) && Ids(items) == Ids(plan) == end.outcomes.Keys
      && forall id :: id in end.outcomes ==> !end.outcomes[id].BindingInvalid?
  {
    ValidationAccepts(plan);
    var items := ValidateSubqueries(plan).value;
    PermutationIds(plan, items);
    AcceptedRuns(items, agent);
    var outcomes := ExecutePlan(items, agent).value.outcomes;
    forall id | id in outcomes ensures !outcomes[id].BindingInvalid? {
      var t :| t in items && t.id == id;
      ValidatedPlanBindsInputs(items, outcomes, agent, t);
    }
  }

  /** Failed by itself and says why. */
  ghost predicate Explained<V>(o: Outcome<V>) { o.FailedItself() && RecordOf(o).Some? }

  lemma RecordKinds<V(!new)>(items: seq<Subquery>, outcomes: Outcomes<V>, agent: Agent<V>, id: string)
    requires Finished(items, outcomes, agent) && RunsRetries(agent) && id in outcomes
    ensures RecordOf(outcomes[id]).Some? <==> outcomes[id].DependencyFailed? || Explained(outcomes[id])
    ensures Explained(outcomes[id]) ==> Graver(RecordOf(outcomes[id]).value, DEPENDENCY_FAILURE)
  {
    var t :| t in items && t.id == id;
    if outcomes[id].Ran? {
      RanFacts(items, outcomes, agent, t);
      RetryAnswerFacts(outcomes[id].summary, t.extra.requiredOutputs);
    }
  }

  lemma BestIsDependent(best: QueryFailure, records: seq<Option<QueryFailure>>)
    requires FirstBest(Some(best), records)
    requires forall j :: 0 <= j < |records| && records[j].Some? ==>
      records[j].value == DEPENDENCY_FAILURE || Graver(records[j].value, DEPENDENCY_FAILURE)
    ensures best == DEPENDENCY_FAILURE <==>
      forall j :: 0 <= j < |records| && records[j].Some? ==> records[j].value == DEPENDENCY_FAILURE
  {
  }

  /** Each record comes from a dependency failure or from an explained one, which outranks it. */
  ghost predicate RecordsExplain<V>(order: seq<string>, outcomes: Outcomes<V>, records: seq<Option<QueryFailure>>) {
    && |records| == |order|
    && (forall id :: id in outcomes <==> id in order)
    && forall i :: 0 <= i < |order| ==> RecordExplains(outcomes, order[i], records[i])
  }

  ghost predicate RecordExplains<V>(outcomes: Outcomes<V>, id: string, record: Option<QueryFailure>) {
    && id in outcomes
    && (record.Some? <==> outcomes[id].DependencyFailed? || Explained(outcomes[id]))
    && (outcomes[id].DependencyFailed? ==> record == Some(DEPENDENCY_FAILURE))
    && (Explained(outcomes[id]) ==> record.Some? && Graver(record.value, DEPENDENCY_FAILURE))
  }

  ghost predicate SomeDependencyFailed<V>(outcomes: Outcomes<V>) {
    exists id :: id in outcomes && outcomes[id].DependencyFailed?
  }

  ghost predicate SomeExplained<V>(outcomes: Outcomes<V>) { exists id :: id in outcomes && Explained(outcomes[id]) }

  lemma ReportDecided<V>(order: seq<string>, outcomes: Outcomes<V>, records: seq<Option<QueryFailure>>,
      best: Option<QueryFailure>)
    requires RecordsExplain(order, outcomes, records) && FirstBest(best, records)
    ensures best.None? <==> !SomeDependencyFailed(outcomes) && !SomeExplained(outcomes)
    ensures best == Some(DEPENDENCY_FAILURE) <==> SomeDependencyFailed(outcomes) && !SomeExplained(outcomes)
  {
    forall i | 0 <= i < |order| ensures RecordExplains(outcomes, order[i], records[i]) && order[i] in order {
    }
    if best.Some? {
      BestIsDependent(best.value, records);
      if id :| id in outcomes && Explained(outcomes[id]) {
        var i :| 0 <= i < |order| && order[i] == id;
      }
    }
  }

  /** A dependency failure is what a run reports exactly when there is one and nothing that failed by itself
      says why. */
  lemma ReportFollowsOutcomes<V(!new)>(items: seq<Subquery>, agent: Agent<V>)
    requires Accepted(items, RequiredOutputsOf) && RunsRetries(agent) && ExecutePlan(items, agent).Some?
    ensures
      var end := ExecutePlan(items, agent).value;
      && (end.queryFailure.None? <==> !SomeDependencyFailed(end.outcomes) && !SomeExplained(end.outcomes))
      && (end.queryFailure == Some(DEPENDENCY_FAILURE) <==>
          SomeDependencyFailed(end.outcomes) && !SomeExplained(end.outcomes))
  {
    var end := ExecutePlan(items, agent).value;
    AcceptedRuns(items, agent);
    ReportsMostSevere(items, agent);
    IdListMembers(items);
    RecordsOfRun(items, end.outcomes, agent, end.order);
    ReportDecided(end.order, end.outcomes, Records(end.order, end.outcomes), end.queryFailure);
  }

  lemma RecordsOfRun<V(!new)>(items: seq<Subquery>, outcomes: Outcomes<V>, agent: Agent<V>, order: seq<string>)
    requires Finished(items, outcomes, agent) && RunsRetries(agent)
    requires forall id :: id in outcomes <==> id in order
    ensures RecordsExplain(order, outcomes, Records(order, outcomes))
  {
    forall i | 0 <= i < |order| ensures RecordExplains(outcomes, order[i], RecordOf(outcomes[order[i]])) {
      RecordKinds(items, outcomes, agent, order[i]);
    }
  }

  // ---- read off the answers of the agents ----

  predicate AnsweredWithError<V>(o: Outcome<V>) { o.Ran? && o.summary.error.Some? }

  predicate AnsweredWithNull<V>(o: Outcome<V>) { o.Ran? && o.summary.error.None? && o.summary.result.Nothing? }

  ghost predicate SomeError<V>(outcomes: Outcomes<V>) {
    exists id :: id in outcomes && AnsweredWithError(outcomes[id])
  }

  ghost predicate SomeNull<V>(outcomes: Outcomes<V>) { exists id :: id in outcomes && AnsweredWithNull(outcomes[id]) }

  /** A null answer that another subquery waits for. */
  ghost predicate SomeNullAwaited<V>(items: seq<Subquery>, outcomes: Outcomes<V>) {
    exists id, d :: DependsOn(items, id, d) && d in outcomes && AnsweredWithNull(outcomes[d])
  }

  lemma FailedItselfKinds<V(!new)>(items: seq<Subquery>, outcomes: Outcomes<V>, agent: Agent<V>, id: string)
    requires Accepted(items, RequiredOutputsOf) && Finished(items, outcomes, agent) && RunsRetries(agent)
    requires id in outcomes
    ensures Explained(outcomes[id]) <==> AnsweredWithError(outcomes[id])
    ensures outcomes[id].FailedItself() <==> AnsweredWithError(outcomes[id]) || AnsweredWithNull(outcomes[id])
  {
    var t :| t in items && t.id == id;
    ValidatedPlanBindsInputs(items, outcomes, agent, t);
    if outcomes[id].Ran? {
      RanFacts(items, outcomes, agent, t);
      RetryAnswerFacts(outcomes[id].summary, t.extra.requiredOutputs);
    }
  }

  /** Without errors a dependency failure comes from a null answer that was waited for. */
  lemma FailureComesFromNull<V(!new)>(items: seq<Subquery>, outcomes: Outcomes<V>, agent: Agent<V>, id: string)
    requires Accepted(items, RequiredOutputsOf) && Finished(items, outcomes, agent) && RunsRetries(agent)
    requires id in outcomes && outcomes[id].DependencyFailed? && !SomeError(outcomes)
    ensures SomeNullAwaited(items, outcomes)
  {
    var t :| t in items && t.id == id;
    AcceptedIsOrdered(items);
    var i :| 0 <= i < |items| && items[i] == t;
    var path := CauseExists(items, items, outcomes, agent, i);
    FailedItselfKinds(items, outcomes, agent, Last(path));
    assert DependsOn(items, path[|path| - 2], path[|path| - 2 + 1]);
  }

  lemma AwaitedNullFails<V>(items: seq<Subquery>, outcomes: Outcomes<V>, agent: Agent<V>)
    requires Finished(items, outcomes, agent) && SomeNullAwaited(items, outcomes)
    ensures SomeDependencyFailed(outcomes)
  {
    var id, d :| DependsOn(items, id, d) && d in outcomes && AnsweredWithNull(outcomes[d]);
    StepOutcome(items, outcomes, agent, id, d);
  }

  lemma OutcomesFollowAnswers<V(!new)>(items: seq<Subquery>, outcomes: Outcomes<V>, agent: Agent<V>)
    requires Accepted(items, RequiredOutputsOf) && Finished(items, outcomes, agent) && RunsRetries(agent)
    ensures SomeExplained(outcomes) <==> SomeError(outcomes)
    ensures !SomeError(outcomes) ==> (SomeDependencyFailed(outcomes) <==> SomeNullAwaited(items, outcomes))
  {
    forall id | id in outcomes ensures Explained(outcomes[id]) <==> AnsweredWithError(outcomes[id]) {
      FailedItselfKinds(items, outcomes, agent, id);
    }
    if SomeNullAwaited(items, outcomes) {
      AwaitedNullFails(items, outcomes, agent);
    } else if !SomeError(outcomes) && SomeDependencyFailed(outcomes) {
      var id :| id in outcomes && outcomes[id].DependencyFailed?;
      FailureComesFromNull(items, outcomes, agent, id);
    }
  }

  /** What a run reports is decided by the answers: a dependency failure exactly when no answer is
      an error and some null answer is waited for; nothing exactly when neither occurs. */
  lemma DependencyFailureReportedIff<V(!new)>(items: seq<Subquery>, agent: Agent<V>)
    requires Accepted(items, RequiredOutputsOf) && RunsRetries(agent) && ExecutePlan(items, agent).Some?
    ensures
      var end := ExecutePlan(items, agent).value;
      && (end.queryFailure.None? <==> !SomeError(end.outcomes) && !SomeNullAwaited(items, end.outcomes))
      && (end.queryFailure == Some(DEPENDENCY_FAILURE) <==>
          !SomeError(end.outcomes) && SomeNullAwaited(items, end.outcomes))
  {
    AcceptedRuns(items, agent);
    ReportFollowsOutcomes(items, agent);
    OutcomesFollowAnswers(items, ExecutePlan(items, agent).value.outcomes, agent);
  }

  /** The report names the cause of some failure. */
  predicate NamesCause(report: Option<QueryFailure>) { report.Some? && report.value != DEPENDENCY_FAILURE }

  /** Whenever a subquery fails by itself the report names a cause, exactly unless some answer is null
      and none is an error. */
  lemma CauseIsReported<V(!new)>(items: seq<Subquery>, agent: Agent<V>)
    requires Accepted(items, RequiredOutputsOf) && RunsRetries(agent) && ExecutePlan(items, agent).Some?
    ensures
      var end := ExecutePlan(items, agent).value;
      ((exists id :: id in end.outcomes && end.outcomes[id].FailedItself()) ==> NamesCause(end.queryFailure)) <==>
      !SomeNull(end.outcomes) || SomeError(end.outcomes)
  {
    var end := ExecutePlan(items, agent).value;
    AcceptedRuns(items, agent);
    DependencyFailureReportedIff(items, agent);
    forall id | id in end.outcomes
      ensures end.outcomes[id].FailedItself() <==>
        AnsweredWithError(end.outcomes[id]) || AnsweredWithNull(end.outcomes[id])
    {
      FailedItselfKinds(items, end.outcomes, agent, id);
    }
  }

  /** With executors that return null, every plan with a dependency reports a failure that nothing explains. */
  lemma UnexplainedFailure(items: seq<Subquery>, t: Subquery) returns (agent: Agent<int>)
    requires Accepted(items, RequiredOutputsOf) && t in items && t.dependsOn != []
    ensures RunsRetries(agent)
    ensures ExecutePlan(items, agent).Some? && ExecutePlan(items, agent).value.queryFailure == Some(DEPENDENCY_FAILURE)
    ensures ExecutePlan(items, agent).value.outcomes.Keys == Ids(items)
    ensures forall id :: id in Ids(items) ==> !Explained(ExecutePlan(items, agent).value.outcomes[id])
  {
    agent := (u: Subquery, inputs: map<string, seq<int>>) => NULL_ANSWER;
    NullAnswerIsRetry();
    AcceptedRuns(items, agent);
    ReportFollowsOutcomes(items, agent);
    var outcomes := ExecutePlan(items, agent).value.outcomes;
    forall id | id in outcomes ensures outcomes[id].Failed() && !Explained(outcomes[id]) {
      NullOutcome(items, outcomes, agent, id);
    }
    assert Released(t, outcomes.Keys);
    assert t.dependsOn[0] in t.dependsOn;
    assert t.id in outcomes;
    assert DependsOn(items, t.id, t.dependsOn[0]);
    StepOutcome(items, outcomes, agent, t.id, t.dependsOn[0]);
  }

  ghost predicate AlwaysNull(agent: Agent<int>) {
    forall u: Subquery, inputs: map<string, seq<int>> :: agent(u, inputs) == NULL_ANSWER
  }

  lemma NullRun(items: seq<Subquery>, outcomes: Outcomes<int>, agent: Agent<int>, id: string)
    requires Finished(items, outcomes, agent) && id in outcomes && outcomes[id].Ran?
    requires AlwaysNull(agent)
    ensures outcomes[id].summary == NULL_ANSWER
  {
    var u :| u in items && u.id == id;
    assert outcomes[id] == ExecuteSubquery(u, outcomes, agent);
  }

  lemma EmptyHasCause<V>(items: seq<Subquery>, outcomes: Outcomes<V>, agent: Agent<V>, t: Subquery) returns (a: string)
    requires Finished(items, outcomes, agent) && Ordered(items, items) && t in items && t.id in outcomes
    requires outcomes[t.id].DependencyEmpty?
    ensures a in outcomes && outcomes[a].EmptyItself()
  {
    CauseAmongAncestors(items, items, outcomes, agent, t);
    a :| Ancestor(items, t.id, a) && a in outcomes && outcomes[a].EmptyItself();
  }

  lemma NullNeverEmpty(items: seq<Subquery>, outcomes: Outcomes<int>, agent: Agent<int>, t: Subquery)
    requires Ordered(items, items) && Finished(items, outcomes, agent) && t in items && t.id in outcomes
    requires AlwaysNull(agent)
    ensures !outcomes[t.id].DependencyEmpty?
  {
    if outcomes[t.id].DependencyEmpty? {
      var a := EmptyHasCause(items, outcomes, agent, t);
      NullRun(items, outcomes, agent, a);
    }
  }

  lemma NullOutcome(items: seq<Subquery>, outcomes: Outcomes<int>, agent: Agent<int>, id: string)
    requires Accepted(items, RequiredOutputsOf) && Finished(items, outcomes, agent) && id in outcomes
    requires AlwaysNull(agent)
    requires RunsRetries(agent)
    ensures outcomes[id].Failed() && !Explained(outcomes[id])
  {
    var t :| t in items && t.id == id;
    ValidatedPlanBindsInputs(items, outcomes, agent, t);
    AcceptedIsOrdered(items);
    NullNeverEmpty(items, outcomes, agent, t);
    if outcomes[id].Ran? {
      NullRun(items, outcomes, agent, id);
    }
  }

  const NULL_ANSWER: Summary<int> := Summary(Nothing, None, Some(NoData), false, None)

  lemma NullAnswerIsRetry()
    ensures forall aliases :: RetryAnswer(NULL_ANSWER, aliases)
  {
    var world: nat -> Probe<int> :=
        (n: nat) => Probe(Some("q"), Allowed, Satisfied, Returned(Nothing, false), Satisfied);
    forall aliases ensures RetryAnswer(NULL_ANSWER, aliases) {
      var turns := Turns(world, aliases);
      TurnAt(world, aliases, 1);
      TurnAt(world, aliases, 2);
      var s1 := Round(Initial<int>(), turns(1)).state;
      var s2 := Round(s1, turns(2)).state;
      assert Continue(s1, turns) == Next(s2);
      assert Run(world, aliases) == Next(s2);
    }
  }
}
