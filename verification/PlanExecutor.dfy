/** Runs a validated plan in dependency waves, passing failure and emptiness on. */
module PlanExecutor {
  import opened Wrappers
  import opened TopologicalOrder
  import opened Planning
  import opened PlanCompiler
  import opened RetryAgent
  import opened InputBindings

  /** What an agent's run leaves for the executor. */
  datatype Summary<+V> = Summary(
    result: Rows<V>, error: Option<string>, emptyReason: Option<EmptyReason>, truncated: bool,
    failure: Option<QueryFailure>)

  /** How a subquery ended. */
  datatype Outcome<+V> =
    | Ran(summary: Summary<V>)
    | DependencyFailed(dependencies: seq<string>)
    | DependencyEmpty(reason: EmptyReason)
    | BindingInvalid
  {
    function ResultRows(): Rows<V> {
      match this
      case Ran(s) => s.result
      case DependencyEmpty(_) => Rows([])
      case _ => Nothing
    }

    /** Counts as failed for its dependents: an error, or no result at all. */
    predicate Failed() {
      match this
      case Ran(s) => s.error.Some? || s.result.Nothing?
      case DependencyEmpty(_) => false
      case _ => true
    }

    predicate Empty() { ResultRows().Rows? && ResultRows().rows == [] }

    function EmptyBecause(): Option<EmptyReason> {
      match this
      case Ran(s) => s.emptyReason
      case DependencyEmpty(reason) => Some(reason)
      case _ => None
    }

    function FailureRecord(): Option<QueryFailure> {
      match this
      case Ran(s) => s.failure
      case DependencyFailed(_) => Some(DEPENDENCY_FAILURE)
      case BindingInvalid => Some(BINDING_FAILURE)
      case DependencyEmpty(_) => None
    }

    /** Failed by itself, not because of a dependency: no inputs, an error or no result. */
    ghost predicate FailedItself() { BindingInvalid? || (Ran? && (summary.error.Some? || summary.result.Nothing?)) }

    /** Came back empty by itself. */
    ghost predicate EmptyItself() { Ran? && summary.error.None? && summary.result.Rows? && summary.result.rows == [] }

    /** Left it open whether there is nothing to find. */
    ghost predicate InDoubt() {
      match this
      case Ran(s) => s.emptyReason == Some(Inconclusive)
      case DependencyEmpty(reason) => reason == Inconclusive
      case _ => false
    }
  }

  const DEPENDENCY_FAILURE: QueryFailure := QueryFailure("DEPENDENCY_FAILED", UserCorrectable, true)
  const BINDING_FAILURE: QueryFailure := QueryFailure("INPUT_BINDING_INVALID", Internal, true)

  type Outcomes<V> = map<string, Outcome<V>>

  /** An agent answers any subquery with any inputs. */
  type Agent<!V> = (Subquery, map<string, seq<V>>) -> Summary<V>

  function Select<V>(ids: seq<string>, outcomes: Outcomes<V>, p: Outcome<V> -> bool): seq<string>
    requires forall id :: id in ids ==> id in outcomes
  {
    if ids == [] then []
    else (if p(outcomes[ids[0]]) then [ids[0]] else []) + Select(ids[1..], outcomes, p)
  }

  function FailedOf<V>(ids: seq<string>, outcomes: Outcomes<V>): seq<string>
    requires forall id :: id in ids ==> id in outcomes
  {
    Select(ids, outcomes, (o: Outcome<V>) => o.Failed())
  }

  function EmptyOf<V>(ids: seq<string>, outcomes: Outcomes<V>): seq<string>
    requires forall id :: id in ids ==> id in outcomes
  {
    Select(ids, outcomes, (o: Outcome<V>) => o.Empty())
  }

  lemma {:induction false} SelectMembers<V>(ids: seq<string>, outcomes: Outcomes<V>, p: Outcome<V> -> bool)
    requires forall id :: id in ids ==> id in outcomes
    ensures forall id :: id in Select(ids, outcomes, p) <==> id in ids && p(outcomes[id])
  {
    if ids != [] {
      SelectMembers(ids[1..], outcomes, p);
      assert forall id :: id in ids <==> id == ids[0] || id in ids[1..];
    }
  }

  function ResultsOf<V>(outcomes: Outcomes<V>): map<string, Rows<V>> {
    map id | id in outcomes :: outcomes[id].ResultRows()
  }

  predicate SomeInconclusive<V>(ids: seq<string>, outcomes: Outcomes<V>)
    requires forall id :: id in ids ==> id in outcomes
  {
    exists id :: id in ids && outcomes[id].EmptyBecause() == Some(Inconclusive)
  }

  /** One subquery, once all its dependencies have outcomes. */
  function ExecuteSubquery<V>(t: Subquery, outcomes: Outcomes<V>, agent: Agent<V>): Outcome<V>
    requires Released(t, outcomes.Keys)
  {
    var failed, empty := FailedOf(t.dependsOn, outcomes), EmptyOf(t.dependsOn, outcomes);
    SelectMembers(t.dependsOn, outcomes, (o: Outcome<V>) => o.Empty());
    if failed != [] then DependencyFailed(failed)
    else if empty != [] then DependencyEmpty(if SomeInconclusive(empty, outcomes) then Inconclusive else NoData)
    else match ReadInputs(t.inputBindings, ResultsOf(outcomes))
      case None => BindingInvalid
      case Some(inputs) => Ran(agent(t, inputs))
  }

  // ---- the reported failure ----

  function Priority(kind: FailureKind): nat {
    match kind
    case Infrastructure => 3
    case Internal => 2
    case UserCorrectable => 1
  }

  /** Severity first; between equals an original failure outranks a dependent one. */
  predicate Outranks(a: QueryFailure, b: QueryFailure) {
    Priority(a.kind) > Priority(b.kind) || (Priority(a.kind) == Priority(b.kind) && !a.dependent && b.dependent)
  }

  function PreferFailure(current: Option<QueryFailure>, candidate: QueryFailure): QueryFailure {
    if current.None? then candidate else if Outranks(candidate, current.value) then candidate else current.value
  }

  // ---- the wave loop ----

  /** What the executor has gathered: outcomes by id, in their order, and by source. */
  datatype Progress<V> = Progress(outcomes: Outcomes<V>, order: seq<string>, bySource: Outcomes<V>,
      queryFailure: Option<QueryFailure>)

  function Begin<V>(): Progress<V> { Progress(map[], [], map[], None) }

  function Record<V>(st: Progress<V>, t: Subquery, o: Outcome<V>): Progress<V> {
    var failure :=
      if o.FailureRecord().None? then st.queryFailure
      else Some(PreferFailure(st.queryFailure, o.FailureRecord().value));
    Progress(st.outcomes[t.id := o], st.order + [t.id], st.bySource[t.tool := o], failure)
  }

  /** Every member of a wave runs on the outcomes the wave started from. */
  function RecordWave<V>(st: Progress<V>, wave: seq<Subquery>, start: Outcomes<V>, agent: Agent<V>): Progress<V>
    requires forall t :: t in wave ==> Released(t, start.Keys)
  {
    if wave == [] then st
    else
      var last := wave[|wave| - 1];
      Record(RecordWave(st, wave[..|wave| - 1], start, agent), last, ExecuteSubquery(last, start, agent))
  }

  lemma {:induction false} RecordWaveKeys<V>(st: Progress<V>, wave: seq<Subquery>, start: Outcomes<V>, agent: Agent<V>)
    requires forall t :: t in wave ==> Released(t, start.Keys)
    ensures RecordWave(st, wave, start, agent).outcomes.Keys == st.outcomes.Keys + Ids(wave)
    ensures RecordWave(st, wave, start, agent).order == st.order + IdList(wave)
  {
    if wave == [] {
      assert Ids(wave) == {};
    } else {
      var front, last := wave[..|wave| - 1], wave[|wave| - 1];
      RecordWaveKeys(st, front, start, agent);
      assert wave == front + [last];
      IdsSnoc(front, last);
      IdListSnoc(front, last);
      RecordKeys(RecordWave(st, front, start, agent), last, ExecuteSubquery(last, start, agent));
    }
  }

  lemma RecordKeys<V>(st: Progress<V>, t: Subquery, o: Outcome<V>)
    ensures Record(st, t, o).outcomes.Keys == st.outcomes.Keys + {t.id}
    ensures Record(st, t, o).order == st.order + [t.id]
  {
  }

  lemma IdListSnoc(items: seq<Subquery>, last: Subquery)
    ensures IdList(items + [last]) == IdList(items) + [last.id]
  {
  }

  lemma WaveReleased(items: seq<Subquery>, done: set<string>)
    ensures forall t :: t in Wave(items, done) ==> Released(t, done)
  {
    forall t | t in Wave(items, done) ensures Released(t, done) {
      WaveMembers(items, done, t);
    }
  }

  /** The rest of a run; none when subqueries remain but nothing is ready. */
  function RunFrom<V>(items: seq<Subquery>, st: Progress<V>, agent: Agent<V>): Option<Progress<V>>
    decreases |Ids(items) - st.outcomes.Keys|
  {
    var done := st.outcomes.Keys;
    if Ids(items) <= done then Some(st)
    else
      var wave := Wave(items, done);
      if wave == [] then None
      else
        WaveReleased(items, done);
        RecordWaveKeys(st, wave, st.outcomes, agent);
        ReadyShrinks(items, done);
        RunFrom(items, RecordWave(st, wave, st.outcomes, agent), agent)
  }

  function ExecutePlan<V>(items: seq<Subquery>, agent: Agent<V>): Option<Progress<V>> {
    RunFrom(items, Begin(), agent)
  }

  /** The pending subqueries whose dependencies all have outcomes. */
  function Runnable(pending: seq<Subquery>, done: set<string>): seq<Subquery> {
    if pending == [] then []
    else (if Released(pending[0], done) then [pending[0]] else []) + Runnable(pending[1..], done)
  }

  lemma {:induction false} RunnableIsWave(items: seq<Subquery>, done: set<string>)
    ensures Runnable(Unplaced(items, done), done) == Wave(items, done)
  {
    if items != [] {
      var rest := Unplaced(items[1..], done);
      RunnableIsWave(items[1..], done);
      assert ([items[0]] + rest)[1..] == rest && [] + rest == rest;
    }
  }

  lemma {:induction false} UnplacedTwice(items: seq<Subquery>, a: set<string>, b: set<string>)
    ensures Unplaced(Unplaced(items, a), b) == Unplaced(items, a + b)
  {
    if items != [] {
      var rest := Unplaced(items[1..], a);
      UnplacedTwice(items[1..], a, b);
      assert ([items[0]] + rest)[1..] == rest && [] + rest == rest;
      assert [] + Unplaced(rest, b) == Unplaced(rest, b);
    }
  }

  lemma {:induction false} NothingUnplaced(items: seq<Subquery>, done: set<string>)
    ensures Unplaced(items, done) == [] <==> Ids(items) <= done
  {
    if items != [] {
      NothingUnplaced(items[1..], done);
      assert items == [items[0]] + items[1..];
      assert Ids(items) == {items[0].id} + Ids(items[1..]);
    }
  }

  /** Runs one wave and records its outcomes in input order. */
  method RunWave<V>(st: Progress<V>, ready: seq<Subquery>, agent: Agent<V>) returns (next: Progress<V>)
    requires forall t :: t in ready ==> Released(t, st.outcomes.Keys)
    ensures next == RecordWave(st, ready, st.outcomes, agent)
  {
    next := st;
    for i := 0 to |ready|
      invariant next == RecordWave(st, ready[..i], st.outcomes, agent)
    {
      assert ready[..i + 1][..i] == ready[..i];
      next := Record(next, ready[i], ExecuteSubquery(ready[i], st.outcomes, agent));
    }
    assert ready[..|ready|] == ready;
  }

  /** The loop over waves. Distinct ids are what validation guarantees. */
  method ExecuteWaves<V>(items: seq<Subquery>, agent: Agent<V>) returns (r: Option<Progress<V>>)
    requires UniqueIds(items)
    ensures r == ExecutePlan(items, agent)
  {
    var pending := items;
    var st: Progress<V> := Begin();
    UnplacedAll(items);
    while pending != []
      invariant pending == Unplaced(items, st.outcomes.Keys)
      invariant ExecutePlan(items, agent) == RunFrom(items, st, agent)
      decreases |Ids(items) - st.outcomes.Keys|
    {
      ghost var done := st.outcomes.Keys;
      NothingUnplaced(items, done);
      RunnableIsWave(items, done);
      var ready := Runnable(pending, st.outcomes.Keys);
      if ready == [] {
        return None;
      }
      WaveReleased(items, done);
      RecordWaveKeys(st, ready, st.outcomes, agent);
      ReadyShrinks(items, done);
      UnplacedTwice(items, done, Ids(ready));
      st := RunWave(st, ready, agent);
      pending := Unplaced(pending, Ids(ready));
    }
    NothingUnplaced(items, st.outcomes.Keys);
    r := Some(st);
  }

  // ---- every subquery ends once, after its dependencies, as they dictate ----

  lemma {:induction false} SelectAgrees<V>(ids: seq<string>, small: Outcomes<V>, big: Outcomes<V>,
      p: Outcome<V> -> bool)
    requires forall id :: id in ids ==> id in small && id in big && small[id] == big[id]
    ensures Select(ids, small, p) == Select(ids, big, p)
  {
    if ids != [] {
      SelectAgrees(ids[1..], small, big, p);
    }
  }

  lemma {:induction false} ReadInputsAgrees<V>(bindings: seq<Binding>, small: map<string, Rows<V>>,
      big: map<string, Rows<V>>)
    requires forall b :: b in bindings ==>
      ProducerOf(b) in small && ProducerOf(b) in big && small[ProducerOf(b)] == big[ProducerOf(b)]
    ensures ReadInputs(bindings, small) == ReadInputs(bindings, big)
  {
    if bindings != [] {
      ReadInputsAgrees(bindings[..|bindings| - 1], small, big);
      assert bindings[|bindings| - 1] in bindings;
    }
  }

  /** A subquery binds only outputs of its dependencies. */
  predicate BindsDependencies(t: Subquery) { forall b :: b in t.inputBindings ==> ProducerOf(b) in t.dependsOn }

  /** More outcomes do not change how a subquery ends. */
  lemma ExecuteAgrees<V>(t: Subquery, small: Outcomes<V>, big: Outcomes<V>, agent: Agent<V>)
    requires BindsDependencies(t) && Released(t, small.Keys)
    requires forall id :: id in small ==> id in big && big[id] == small[id]
    ensures Released(t, big.Keys) && ExecuteSubquery(t, small, agent) == ExecuteSubquery(t, big, agent)
  {
    SelectAgrees(t.dependsOn, small, big, (o: Outcome<V>) => o.Failed());
    SelectAgrees(t.dependsOn, small, big, (o: Outcome<V>) => o.Empty());
    SelectMembers(t.dependsOn, small, (o: Outcome<V>) => o.Empty());
    ReadInputsAgrees(t.inputBindings, ResultsOf(small), ResultsOf(big));
  }

  /** Every outcome is the one its dependencies' outcomes dictate. */
  ghost predicate Settled<V>(items: seq<Subquery>, outcomes: Outcomes<V>, agent: Agent<V>) {
    forall t :: t in items && t.id in outcomes ==>
      Released(t, outcomes.Keys) && outcomes[t.id] == ExecuteSubquery(t, outcomes, agent)
  }

  lemma {:induction false} RecordWaveSets<V>(st: Progress<V>, wave: seq<Subquery>, start: Outcomes<V>,
      agent: Agent<V>, i: nat)
    requires forall t :: t in wave ==> Released(t, start.Keys)
    requires UniqueIds(wave) && i < |wave|
    ensures wave[i].id in RecordWave(st, wave, start, agent).outcomes
    ensures RecordWave(st, wave, start, agent).outcomes[wave[i].id] == ExecuteSubquery(wave[i], start, agent)
  {
    if i < |wave| - 1 {
      RecordWaveSets(st, wave[..|wave| - 1], start, agent, i);
    }
  }

  lemma {:induction false} RecordWaveKeeps<V>(st: Progress<V>, wave: seq<Subquery>, start: Outcomes<V>,
      agent: Agent<V>, id: string)
    requires forall t :: t in wave ==> Released(t, start.Keys)
    requires id in st.outcomes && id !in Ids(wave)
    ensures id in RecordWave(st, wave, start, agent).outcomes
    ensures RecordWave(st, wave, start, agent).outcomes[id] == st.outcomes[id]
  {
    if wave != [] {
      var front, last := wave[..|wave| - 1], wave[|wave| - 1];
      assert last in wave && wave == front + [last];
      RecordWaveKeeps(st, front, start, agent, id);
    }
  }

  lemma {:induction false} WaveUniqueIds(items: seq<Subquery>, done: set<string>)
    requires UniqueIds(items)
    ensures UniqueIds(Wave(items, done))
  {
    if items != [] {
      WaveUniqueIds(items[1..], done);
      forall t | t in Wave(items[1..], done) ensures t.id != items[0].id {
        WaveMembers(items[1..], done, t);
        var k :| 0 <= k < |items[1..]| && items[1..][k] == t;
        assert items[k + 1] == t;
      }
    }
  }

  lemma WaveKeepsSettled<V>(items: seq<Subquery>, st: Progress<V>, agent: Agent<V>)
    requires UniqueIds(items) && (forall t :: t in items ==> BindsDependencies(t))
    requires forall t :: t in Wave(items, st.outcomes.Keys) ==> Released(t, st.outcomes.Keys)
    requires Settled(items, st.outcomes, agent)
    ensures Settled(items, RecordWave(st, Wave(items, st.outcomes.Keys), st.outcomes, agent).outcomes, agent)
  {
    var done := st.outcomes.Keys;
    var wave := Wave(items, done);
    var next := RecordWave(st, wave, st.outcomes, agent);
    WaveUniqueIds(items, done);
    RecordWaveKeys(st, wave, st.outcomes, agent);
    forall id | id in st.outcomes ensures id in next.outcomes && next.outcomes[id] == st.outcomes[id] {
      if t :| t in wave && t.id == id {
        WaveMembers(items, done, t);
      }
      RecordWaveKeeps(st, wave, st.outcomes, agent, id);
    }
    forall t | t in items && t.id in next.outcomes
      ensures Released(t, next.outcomes.Keys) && next.outcomes[t.id] == ExecuteSubquery(t, next.outcomes, agent)
    {
      if t.id in st.outcomes {
        ExecuteAgrees(t, st.outcomes, next.outcomes, agent);
      } else {
        PlacedAfterWave(items, done, t);
        WaveMembers(items, done, t);
        var i :| 0 <= i < |wave| && wave[i] == t;
        RecordWaveSets(st, wave, st.outcomes, agent, i);
        ExecuteAgrees(t, st.outcomes, next.outcomes, agent);
      }
    }
  }

  /** A state between waves: only known ids have outcomes, each as its dependencies dictate. */
  ghost predicate Underway<V>(items: seq<Subquery>, st: Progress<V>, agent: Agent<V>) {
    && UniqueIds(items) && (forall t :: t in items ==> BindsDependencies(t))
    && st.outcomes.Keys <= Ids(items) && Settled(items, st.outcomes, agent)
  }

  /** `end` completes `st`, giving the subqueries of `order` their outcomes in that order. */
  ghost predicate EndsRun<V>(items: seq<Subquery>, st: Progress<V>, end: Progress<V>, order: seq<Subquery>,
      agent: Agent<V>)
  {
    && end.outcomes.Keys == Ids(items) && Settled(items, end.outcomes, agent)
    && end.order == st.order + IdList(order)
  }

  lemma WaveStepRuns<V>(items: seq<Subquery>, st: Progress<V>, agent: Agent<V>) returns (next: Progress<V>)
    requires Underway(items, st, agent)
    requires !(Ids(items) <= st.outcomes.Keys) && Wave(items, st.outcomes.Keys) != []
    ensures RunFrom(items, st, agent) == RunFrom(items, next, agent)
    ensures Underway(items, next, agent)
    ensures next.outcomes.Keys == st.outcomes.Keys + Ids(Wave(items, st.outcomes.Keys))
    ensures next.order == st.order + IdList(Wave(items, st.outcomes.Keys))
  {
    var wave := Wave(items, st.outcomes.Keys);
    WaveReleased(items, st.outcomes.Keys);
    RecordWaveKeys(st, wave, st.outcomes, agent);
    WaveKeepsSettled(items, st, agent);
    WaveIdsKnown(items, st.outcomes.Keys);
    next := RecordWave(st, wave, st.outcomes, agent);
  }

  lemma EndsRunEarlier<V>(items: seq<Subquery>, st: Progress<V>, next: Progress<V>, end: Progress<V>,
                          ready: seq<Subquery>, later: seq<Subquery>, agent: Agent<V>)
    requires EndsRun(items, next, end, later, agent) && next.order == st.order + IdList(ready)
    ensures EndsRun(items, st, end, ready + later, agent)
  {
    IdListConcat(ready, later);
  }

  lemma NothingLeft<V>(items: seq<Subquery>, st: Progress<V>, agent: Agent<V>)
    requires Underway(items, st, agent) && Waves(items, st.outcomes.Keys) == Some([])
    ensures RunFrom(items, st, agent) == Some(st) && EndsRun(items, st, st, [], agent)
  {
    if !(Ids(items) <= st.outcomes.Keys) {
      OneWave(items, st.outcomes.Keys);
    }
  }

  lemma {:induction false} RunFromSettles<V>(items: seq<Subquery>, st: Progress<V>, agent: Agent<V>,
      order: seq<Subquery>) returns (end: Progress<V>)
    requires Underway(items, st, agent) && Waves(items, st.outcomes.Keys) == Some(order)
    ensures RunFrom(items, st, agent) == Some(end) && EndsRun(items, st, end, order, agent)
    decreases |order|
  {
    if order == [] {
      NothingLeft(items, st, agent);
      end := st;
    } else {
      var ready, later := WavesStep(items, st.outcomes.Keys, order);
      var next := WaveStepRuns(items, st, agent);
      end := RunFromSettles(items, next, agent, later);
      EndsRunEarlier(items, st, next, end, ready, later, agent);
    }
  }

  lemma {:induction false} RunFromOrders<V>(items: seq<Subquery>, st: Progress<V>, agent: Agent<V>)
    requires Underway(items, st, agent) && RunFrom(items, st, agent).Some?
    ensures Waves(items, st.outcomes.Keys).Some?
    decreases |Ids(items) - st.outcomes.Keys|
  {
    if !(Ids(items) <= st.outcomes.Keys) {
      ReadyShrinks(items, st.outcomes.Keys);
      var next := WaveStepRuns(items, st, agent);
      RunFromOrders(items, next, agent);
      OneWave(items, st.outcomes.Keys);
    }
  }

  lemma WaveIdsKnown(items: seq<Subquery>, done: set<string>)
    ensures Ids(Wave(items, done)) <= Ids(items)
  {
    forall t | t in Wave(items, done) ensures t.id in Ids(items) {
      WaveMembers(items, done, t);
    }
  }

  lemma IdListConcat(a: seq<Subquery>, b: seq<Subquery>)
    ensures IdList(a + b) == IdList(a) + IdList(b)
  {
  }

  /** A run completes exactly when the plan can be ordered. It then gives every subquery
      one outcome, in that order, and every outcome follows from those of the dependencies. */
  lemma RunSettlesPlan<V>(items: seq<Subquery>, agent: Agent<V>)
    requires UniqueIds(items) && (forall t :: t in items ==> BindsDependencies(t))
    ensures ExecutePlan(items, agent).Some? <==> Waves(items, {}).Some?
    ensures ExecutePlan(items, agent).Some? ==>
      var end := ExecutePlan(items, agent).value;
      && end.outcomes.Keys == Ids(items)
      && end.order == IdList(Waves(items, {}).value)
      && Settled(items, end.outcomes, agent)
  {
    var start: Progress<V> := Begin();
    assert start.outcomes.Keys == {};
    if Waves(items, {}).Some? {
      var end := RunFromSettles(items, start, agent, Waves(items, {}).value);
      assert [] + IdList(Waves(items, {}).value) == IdList(Waves(items, {}).value);
    } else if ExecutePlan(items, agent).Some? {
      RunFromOrders(items, start, agent);
    }
  }
}
