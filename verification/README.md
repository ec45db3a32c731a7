# The deterministic kernel of a text-to-query backend, in Dafny

A question in natural language is routed to a SQL and a graph source, each
source is queried by a model-driven agent, and the results are joined into an
answer. Around the model calls stands a deterministic kernel: it finds entity
names in the question, validates and compiles the plan, orders and executes it,
judges and retries generated queries, joins the rows, computes shortages, cuts
the answer to size and caches dashboards; a loader fills the graph database the
queries run on. This project models that kernel and proves what it promises.
Models, databases, clocks, regular expressions and Unicode tables are parameters
that may answer anything (within the few laws a proof names).

## How the pieces fit

| module | models |
|---|---|
| `NameSpans`, `NameNormalization`, `NormalizedSpans`, `SelectEntities` | finding entity names: literal search over case-folded text, a one-pass normaliser with a position map, greedy selection |
| `TopologicalOrder`, `Planning`, `PlanValidation`, `PlanOutputs`, `SemanticCatalog`, `CatalogContents`, `PlanCompiler`, `PlanContents`, `PlanRejections` | validation of the drafted route, dependency order, the catalog that both sources share and what it holds, completion with outputs and what a completed subquery holds, validation of the compiled plan, and the inputs on which the two validations differ |
| `RetryAgent` | the generate, check, execute and retry machine behind each source |
| `InputBindings`, `PlanExecutor`, `PlanExecution`, `PlanReport` | row-aligned bindings and the wave executor, with failure and emptiness propagation |
| `Values`, `Composition`, `PlanResults` | equality of result values, the capped hash join, composition of the final answer |
| `BomShortage` | the bill-of-materials explosion |
| `EtlLoad` | validation before writing and the batched MERGE load |
| `MaskQuery`, `AnswerLimits`, `RowOrdering`, `OverviewCache`, `ProcessCache`, `ProcessEviction` | the query masker, the answer budget, the result comparator, the two dashboard caches and what oldest-first eviction buys |
| `Wrappers`, `Text`, `Collections`, `StableSort` | shared vocabulary |

Code that changes variables step by step is a method with its loop, proved
against a function or a declarative predicate; the properties are then lemmas
about that function or predicate. What an operation does to its input is stated
once more in terms of the input alone (the fields of a row, the answers of the
world, the characters of a text), without the functions that the code and its
specification share. The caches and the retry graph are state
machines whose properties are invariants of every run. Several theorems cross
modules: `PlanCompiler.AcceptedRouteCompiles` joins route validation, output
planning and plan validation, over catalogs of the kind `SemanticCatalog` builds;
`PlanReport.ValidatedPlanBindsInputs` needs plan validation, the executor and the
retry machine's alias check; and `PlanResults.AnswerPlan` runs a validated plan
through to the joined answer.

## Where the code falls short of what is said about it

Each of these comes with an input on which the code falls short and a proof of
when it does not.

* `retry_agent.py:107-108` says the graph never raises. It does, exactly when an
  attempt that the run reaches gets no query from the generator, or passes the
  guard and then meets a query contract that raises, or satisfies the contract
  and gets a result that is neither empty nor a collection, whose rows the code
  fails to count off outside every handler (`RetryAgent.RaisesIff`, `Judged`,
  `RaisingExamples`). The model follows the code.
* A run can end with the error text reserved for empty results: exactly when
  all three attempts generate, the first two ask for a retry, and on the third a
  contract or invariant checker answers with that very text
  (`RetryAgent.EndsInEmptyResultIff`, `ReservedTextExample`).
* An accepted and completed route can still be rejected by the executor's own
  validation: exactly when a question is blank, a generator rule repeats
  (duplicate predicates of one role) or a binding names an alias with a dot
  (`PlanCompiler.AcceptedRouteCompiles`; an input for each in `PlanRejections`,
  against a catalog that `SemanticCatalog` compiles). `CatalogConditionsSuffice`
  gives conditions on the catalog and the question that rule this out.
* A null result can leave a dependency failure that no record explains: exactly
  when no subquery that ran was answered with an error and some subquery that
  ran was answered with null and has a dependent
  (`PlanReport.DependencyFailureReportedIff`). So a failure goes unexplained
  exactly when some answer is null and none is an error
  (`PlanReport.CauseIsReported`), and executors that always return null do it to
  every plan with a dependency (`PlanReport.UnexplainedFailure`).
* A key of the process cache can be rebuilt inside its lifetime once more keys
  are built in that lifetime than the cache holds
  (`ProcessEviction.EarlyRebuildExample`), and never while there are no more
  (`ProcessEviction.FewKeysNoEarlyRebuild`).

## Model

| member | source | states |
|---|---|---|
| NameSpans.LiteralNameSpans | backend/orchestrator/nodes/resolve_entity.py:253-287 | the spans returned, strictly increasing, are exactly the slices of the question whose folding is the folded name and whose edges no ASCII word crosses, however many characters folding adds |
| NameSpans.CasefoldWithSpans | backend/orchestrator/nodes/resolve_entity.py:235-243 | every folded character carries the question character it came from |
| NameSpans.EdgesUnique | backend/orchestrator/nodes/resolve_entity.py:246-250 | the whole-character test at both edges leaves exactly one choice of folded characters for a slice |
| NameNormalization.CollapseIsComparison | backend/orchestrator/nodes/resolve_entity.py:207-214 | one left-to-right collapse gives the same text as comma rewriting followed by splitting and joining on white space, in both comma modes |
| NormalizedSpans.NormalizeMarks | backend/orchestrator/nodes/resolve_entity.py:305-323 | the in-place pass over characters and positions is the step-by-step scan |
| NormalizedSpans.OnePassIsTwoPhase | backend/orchestrator/nodes/resolve_entity.py:305-323 | the text the pass builds for any slice is its two-phase comparison form |
| NormalizedSpans.SliceMarksFound | backend/orchestrator/nodes/resolve_entity.py:305-335 | a slice with solid ends leaves the same marks inside the question as on its own, and in one place only |
| NormalizedSpans.NormalizedNameSpans | backend/orchestrator/nodes/resolve_entity.py:290-347 | the spans returned, strictly increasing, are exactly the slices with solid ends that have the name's comparison form and stand at word edges of the question |
| SelectEntities.OccupiedUnique | backend/orchestrator/nodes/resolve_entity.py:416-429 | disjoint spans such that each span left out overlaps a longer, or equally long and earlier, taken one are unique |
| SelectEntities.OverlapIsSharing | backend/orchestrator/nodes/resolve_entity.py:423-426 | two spans that hold something overlap exactly when a position lies in both |
| SelectEntities.ChoiceUnique | backend/orchestrator/nodes/resolve_entity.py:404-444 | chosen entities, their order and the ambiguity flag depend on the set of matches only |
| SelectEntities.SelectLiteralEntities | backend/orchestrator/nodes/resolve_entity.py:404-444 | the greedy pass yields that selection: unambiguous occupied matches in question order, each entity at its first place, and the flag exactly when some occupied span names two entities |
| SelectEntities.LookupIsInsideSelected | backend/orchestrator/nodes/resolve_entity.py:447-477 | a looked-up name is redundant exactly when it occurs, under the first reading that occurs at all, and each time within the start and end of a chosen entity of its type |
| TopologicalOrder.OrdersIffAcyclic | backend/orchestrator/planning.py:320-339 | ordering succeeds exactly when ids are unique, dependencies known and the graph has no cycle; repeated ids are reported as such |
| TopologicalOrder.OrderIsPermutation | backend/orchestrator/planning.py:320-339 | the order is a permutation with every item after its dependencies |
| TopologicalOrder.OrderedByWaveThenPosition | backend/orchestrator/planning.py:327-338 | the order goes by wave, and inside a wave by input position |
| TopologicalOrder.WaveIsDepth | backend/orchestrator/planning.py:326-338 | the wave of an item is one more than the deepest of its dependencies |
| TopologicalOrder.OrderIdempotent | backend/orchestrator/planning.py:320-339 | ordering an ordered list changes nothing |
| TopologicalOrder.OrderSubqueries | backend/orchestrator/planning.py:320-339 | the loop over pending sets computes that order, and reports duplicate ids and cycles |
| PlanValidation.CompileBindingArray | backend/orchestrator/planning.py:281-317 | bindings compile exactly when every draft is well formed and no target repeats, and then the result has one binding for each draft, in order |
| Text.SafeIdentifierIff | backend/orchestrator/planning.py:32 | an identifier is safe exactly when it is a letter or underscore followed by letters, digits and underscores of ASCII, told by code points |
| Text.BlankIff | backend/orchestrator/planning.py:385-386 | a text is blank exactly when each of its characters is white space, told by code points |
| Planning.CompileDraftsIff | backend/orchestrator/planning.py:359-407 | drafts compile exactly when each passes its own checks, and each gives its own route item |
| PlanCompiler.ValidateRouteIff | backend/orchestrator/planning.py:347-453 | a route is accepted exactly when its drafts compile, ids and sources are distinct, links stand, the graph can be ordered and join keys agree; the result is the dependency order |
| PlanCompiler.ValidateSubqueriesIff | backend/orchestrator/planning.py:504-627 | a compiled plan is accepted exactly when each item passes its own checks and the same cross checks stand; the result is the dependency order |
| PlanValidation.ValidateRouteSubqueries | backend/orchestrator/planning.py:347-453 | the loops decide acceptance, the order returned and the first complaint as the route's specification does |
| PlanValidation.ValidateExecutionPlan | backend/orchestrator/planning.py:504-627 | the same for compiled plans |
| PlanCompiler.AcceptedRoute | backend/orchestrator/planning.py:347-453 | an accepted route has distinct ids and sources, known dependencies that its bindings use exactly, owned binding sources, agreeing join keys and its own dependency order |
| PlanOutputs.ComputeOrderedUnion | backend/orchestrator/nodes/plan_outputs.py:204-210 | the loops compute the ordered union |
| PlanOutputs.OrderedUnionFacts | backend/orchestrator/nodes/plan_outputs.py:204-210 | the ordered union has the members of all groups and no duplicates |
| PlanOutputs.ConformToShape | backend/orchestrator/nodes/plan_outputs.py:228-274 | the loops that add roles and completion groups compute the conforming plan or reject it |
| PlanOutputs.ConformIdempotent | backend/orchestrator/nodes/plan_outputs.py:228-274 | a plan that conformed conforms again, unchanged |
| PlanOutputs.CollectOutgoing | backend/orchestrator/nodes/plan_outputs.py:340-353 | each producer gets the aliases that bindings read from it, in order and once |
| PlanCompiler.PlanOneCompletes | backend/orchestrator/nodes/plan_outputs.py:310-373 | completing an accepted subquery fails only where the planner's answer fails; the result keeps the rest of its route and its outputs are distinct, not blank and enough for joins and bindings |
| PlanCompiler.PlanFromIff | backend/orchestrator/nodes/plan_outputs.py:492-570 | the subqueries of an accepted route are all completed exactly when each source's answer parses and conforms |
| PlanCompiler.AcceptedRouteCompiles | backend/orchestrator/nodes/plan_outputs.py:204-373 | an accepted route is completed exactly when each source's answer parses and conforms, and is then accepted unchanged and in the same order exactly when no question is blank, no rule repeats and no binding source has a second dot |
| PlanCompiler.CatalogConditionsSuffice | backend/orchestrator/planning.py:504-627 | dot-free aliases, distinct role predicates and a non-blank question make every accepted route whose answers parse and conform completed and executable |
| PlanContents.ParseIff | backend/orchestrator/nodes/plan_outputs.py:152-201 | an answer parses exactly when its lists are distinct, not blank and available to the source, and something is selected; it is then kept as it is |
| PlanContents.ConformIs | backend/orchestrator/nodes/plan_outputs.py:228-274 | a plan conforms exactly when, after every touched completion group is added in turn and every contract role one of whose keys was selected joins, the contract is covered; those are the outputs and roles of the result |
| PlanContents.CompletedOutputs | backend/orchestrator/nodes/plan_outputs.py:204-225 | a completed subquery requires, in this order and each once, the selected outputs, the keys and labels of every displayed role, the join keys and what bindings read from it; nothing else |
| PlanContents.CompletedRules | backend/orchestrator/nodes/plan_outputs.py:277-307 | its rules are one for each predicate that a displayed role has in the source, in order, and the path rule exactly for a graph source that selects an ordered path |
| SemanticCatalog.CompilePhysical | backend/orchestrator/semantic_catalog.py:983-1118 | merging gives each alias the fields it names, in order, and makes it an identity exactly when one of them is |
| SemanticCatalog.CompileDeclared | backend/orchestrator/semantic_catalog.py:632-706 | output roles and concepts are added exactly when each brings a new alias to each of its sources and refers to fields that exist or to aliases known before it |
| SemanticCatalog.CompileRoles | backend/orchestrator/semantic_catalog.py:708-792 | entity roles compile exactly when their keys are identities with a common owner, their labels describe one of those owners and their predicates name owned aliases, whatever labels earlier roles have marked |
| SemanticCatalog.BuildCatalog | backend/orchestrator/semantic_catalog.py:617-863 | a catalog is built exactly when declarations fit, every role, shape and transform finds what it refers to in the finished tables, both sources have roles and they share an identity; the catalog is that of the finished tables |
| SemanticCatalog.CompiledCatalogIsValid | backend/orchestrator/semantic_catalog.py:617-863 | every catalog built meets what planning assumes of it, and so does every result shape |
| CatalogContents.CompilesIff | backend/orchestrator/semantic_catalog.py:617-863 | an ontology compiles exactly when in each source every declaration brings a new alias over existing fields or earlier aliases, every role projects identities with a common owner, labels of such an owner and owned predicate fields, some role projects, shapes and transforms ask only for what is there, and both sources have some identity in common |
| CatalogContents.CatalogAliases | backend/orchestrator/semantic_catalog.py:617-863 | the catalog owns exactly the aliases that fields carry or declarations add; its ordered paths are those that graph concepts declare, its join aliases the identities of both sources |
| CatalogContents.CatalogSources | backend/orchestrator/semantic_catalog.py:617-863 | no source but the two owns any alias |
| CatalogContents.CatalogRoles | backend/orchestrator/semantic_catalog.py:708-792 | its entity roles are exactly those defined |
| PlanRejections.CatalogIsCompiled | backend/orchestrator/semantic_catalog.py:617-863 | the catalog of the three rejected routes is one that compiles |
| PlanRejections.BlankQuestionRejected | backend/orchestrator/planning.py:542-544 | a route accepted and completed under a blank original question is rejected afterwards |
| PlanRejections.RepeatedPredicateRejected | backend/orchestrator/nodes/plan_outputs.py:293-307 | a role that states one predicate twice makes an accepted, completed route be rejected afterwards |
| PlanRejections.DottedAliasRejected | backend/orchestrator/planning.py:562-569 | a producer id with a dot in it makes an accepted, completed route be rejected afterwards |
| RetryAgent.RunGraph | backend/orchestrator/subgraphs/retry_agent.py:618-653 | the graph, driven round by round, computes the run |
| RetryAgent.EndsIff | backend/orchestrator/subgraphs/retry_agent.py:631-653 | a run ends after attempt n exactly when every earlier attempt is followed by another: a block for a reason other than an unknown table, label or relationship, a violated contract or result invariant, a retryable execution error, a missing alias, or the first empty result; and attempt n is not, or is the third |
| RetryAgent.RunLeaves | backend/orchestrator/subgraphs/retry_agent.py:233-254 | the run leaves what its last attempt gives: its rows and truncation flag, or the failure code and kind that the first check to fail stands for |
| RetryAgent.Judged | backend/orchestrator/subgraphs/retry_agent.py:256-609 | each attempt is judged in check order: which outcomes escape, are empty, succeed or fail, which failures may be retried, and with which code, kind, stage, reason and message |
| RetryAgent.RoundFeedback | backend/orchestrator/subgraphs/retry_agent.py:205-254 | the next generation hears the text of the database error, the complaint of the checker, or that the result was empty |
| RetryAgent.OneRecordPerGeneration | backend/orchestrator/subgraphs/retry_agent.py:242-254 | a run makes one to three generations and records one attempt for each, with its query and the error that its checks, execution and result give it |
| RetryAgent.AtMostOneEmptyRetry | backend/orchestrator/subgraphs/retry_agent.py:470-511 | no two retries of a run are caused by an empty result |
| RetryAgent.EndsInEmptyResultIff | backend/orchestrator/subgraphs/retry_agent.py:470-524 | the final error is the empty-result marker exactly when all three attempts generate, the first two ask for a retry and on the third a checker complains with that very text |
| RetryAgent.NeverEndsInEmptyResult | backend/orchestrator/subgraphs/retry_agent.py:470-524 | when no checker complains with the reserved text no run ends in it |
| RetryAgent.InconclusiveIff | backend/orchestrator/subgraphs/retry_agent.py:76-83 | a run that ends with an empty result calls it inconclusive exactly when an earlier attempt was neither empty nor complained of with the reserved text |
| RetryAgent.DiagnosticsForetellRun | backend/orchestrator/subgraphs/retry_agent.py:233-254 | one diagnostic for each unsuccessful attempt, numbered in order, with the stage and reason that guard, contract, execution and result give it; a retry was scheduled exactly when another attempt followed; recovered exactly when the run ended in an accepted non-empty result |
| RetryAgent.ResultOrFailure | backend/orchestrator/subgraphs/retry_agent.py:526-609 | a run ends with rows that all carry the required aliases, with nothing, or with an error and an original failure record |
| RetryAgent.RaisesIff | backend/orchestrator/subgraphs/retry_agent.py:121-135 | an exception leaves the graph exactly when an attempt that is reached gets no query, or passes the guard and meets a contract that raises, or passes both and gets a result that cannot be counted |
| RetryAgent.RaisingExamples | backend/orchestrator/subgraphs/retry_agent.py:526-527 | a raising contract and an uncountable result each raise out of the graph |
| RetryAgent.ReservedTextExample | backend/orchestrator/subgraphs/retry_agent.py:338-361 | a contract checker that answers with the reserved text makes a run end in it |
| InputBindings.Project | backend/orchestrator/bindings.py:24-36 | projecting a field succeeds exactly when every row has it, and then yields the column |
| InputBindings.CollectInputBindings | backend/orchestrator/bindings.py:6-38 | extraction computes the inputs, or fails exactly when a binding cannot be read |
| InputBindings.ReadInputsProjects | backend/orchestrator/bindings.py:6-38 | it succeeds exactly when every binding is readable, and then projects every binding and nothing else |
| InputBindings.InputsStayAligned | backend/orchestrator/bindings.py:10-37 | inputs read from one producer have its row count and stay index-aligned |
| PlanExecutor.ExecuteWaves | backend/orchestrator/nodes/execute_plan.py:288-328 | the wave loop computes the run of the plan |
| PlanExecutor.RunSettlesPlan | backend/orchestrator/nodes/execute_plan.py:190-328 | a run completes exactly when the plan can be ordered; every subquery gets one outcome, in that order, as its dependencies dictate |
| PlanExecution.FailurePropagates | backend/orchestrator/nodes/execute_plan.py:194-221 | a failure reaches every descendant |
| PlanExecution.CauseExists | backend/orchestrator/nodes/execute_plan.py:194-239 | behind every dependency failure or emptiness stands an ancestor that failed or came back empty by itself |
| PlanExecution.DependenciesDictate | backend/orchestrator/nodes/execute_plan.py:190-239 | a subquery is a dependency failure exactly when a direct dependency has no result or an error, dependency empty exactly when none has and one has no rows, inconclusive exactly when such a one is |
| PlanExecution.AncestorsDecide | backend/orchestrator/nodes/execute_plan.py:190-239 | a subquery ends as dependency failure exactly when an ancestor failed by itself, as dependency empty exactly when none did but one came back empty, inconclusive exactly when one of those was |
| PlanReport.ReportsMostSevere | backend/orchestrator/nodes/execute_plan.py:30-50 | the reported failure is the first record that no other outranks (infrastructure above internal above user-correctable, and within a kind an own failure above a dependency's), and each source's field holds its own subquery's outcome |
| PlanReport.DependencyFailureReportedIff | backend/orchestrator/nodes/execute_plan.py:190-316 | a dependency failure is reported exactly when no subquery that ran was answered with an error and one was answered with null that another depends on; nothing is reported exactly when neither happened |
| PlanReport.CauseIsReported | backend/orchestrator/nodes/execute_plan.py:30-50 | whenever a subquery fails by itself the report names a cause, exactly unless some answer is null and none is an error |
| PlanReport.UnexplainedFailure | backend/orchestrator/nodes/execute_plan.py:194-221 | with executors that return null, every plan with a dependency reports a failure that nothing explains |
| PlanReport.ValidatedPlanBindsInputs | backend/orchestrator/nodes/execute_plan.py:241-263 | for a validated plan run by retry agents, input extraction never raises and every run subquery gets exactly the columns its bindings name |
| PlanReport.RunIsAnswer | backend/orchestrator/nodes/execute_plan.py:53-65 | every run of a retry agent that ends gives the executor its last attempt's rows, truncation flag, emptiness or failure |
| PlanReport.AnswerIsRun | backend/orchestrator/nodes/execute_plan.py:53-65 | and every answer of such an agent is that of some attempt which did not raise |
| PlanReport.ValidatedPlanCompletes | backend/orchestrator/nodes/execute_plan.py:288-328 | every plan that validation accepts runs to the end with one outcome each, in the validated order |
| Values.HashKeyIffEqual | backend/orchestrator/composition.py:156-161 | hashable values share a table entry exactly when they are equal, across number types |
| Values.EqualIff | backend/orchestrator/composition.py:174-174 | values are equal exactly when they stand for the same number (truth values for 0 and 1), are lists equal place by place or objects equal field by field, or are the same null or text |
| Values.EqualEuclidean | backend/orchestrator/composition.py:174-174 | equality of nested values is an equivalence, together with reflexivity |
| Composition.RowKey | backend/orchestrator/composition.py:136-161 | a row has a join key exactly when every alias is present, not null and hashable; the error says truly why not |
| Composition.MergeRows | backend/orchestrator/composition.py:164-181 | rows merge exactly when no non-key field disagrees, and the left row wins |
| Composition.JoinRowIsGroup | backend/orchestrator/composition.py:232-254 | a table lookup finds exactly the matching right rows, in right order |
| Composition.JoinCoversRight | backend/orchestrator/composition.py:226-232 | when no right key lies outside the left keys, the join has at least as many rows as the right side |
| Composition.ComposeJoined | backend/orchestrator/composition.py:184-275 | the hash join succeeds exactly when sources are complete, keys sound, right keys among left keys and no matching pair conflicts; it stores the first rows of the nested-loop join, counts all of it, and is empty only when a side is; an error names a true fault |
| PlanResults.ComposeResults | backend/orchestrator/composition.py:336-442 | composition by mode or by the formal transform, read off the summaries of the sources: rows position by position, emptiness, truncation, and which fault each error stands for |
| PlanResults.AnswerPlan | backend/orchestrator/composition.py:45-123 | for a validated plan without a transform, read off the outcomes: a failed subquery is reported as a bad source; a join is refused as truncated exactly when some run was, and the other modes pass rows, emptiness and truncation on; no source check and no missing key can prevent the answer |
| BomShortage.CalculateShortages | backend/orchestrator/bom_shortage.py:42-207 | accepts exactly the complete and consistent inputs, read off the fields of each row, and reports exactly the bought components whose stock is below production times the sum over distinct paths of the product of quantities, rounded and sorted |
| BomShortage.LineIffRowShort | backend/orchestrator/bom_shortage.py:157-184 | a component has a line exactly when some SQL row names it, says that it is not made and holds a stock below what the graph rows require |
| BomShortage.QuantizeRounds | backend/orchestrator/bom_shortage.py:32-33 | quantizing to a scale gives the whole number of that decimal unit nearest to the quantity, the even one in a tie |
| BomShortage.SumPaths | backend/orchestrator/bom_shortage.py:145-148 | adding up the path table gives production times the sum of the path products, in any order |
| BomShortage.ReportUnique | backend/orchestrator/bom_shortage.py:180-207 | there is only one such report, suppliers and order included |
| BomShortage.AnswerIgnoresOrderAndDuplicates | backend/orchestrator/bom_shortage.py:62-151 | acceptance and the whole answer are unchanged by reordering or repeating graph rows |
| BomShortage.SupplierFanOut | backend/orchestrator/bom_shortage.py:106-150 | another supplier for a known path changes no required quantity |
| BomShortage.RoundsToNearestEven | backend/orchestrator/bom_shortage.py:32-33 | rounding gives the nearest whole number of units, the even one in a tie, and nothing else does |
| BomShortage.RoundingIsMonotone | backend/orchestrator/bom_shortage.py:32-33 | rounding keeps the order of quantities |
| BomShortage.ComposeShortages | backend/orchestrator/composition.py:278-333 | truncated sources are refused, two empty ones answered with a reason, unacceptable ones rejected; otherwise the first lines of the report on the rows as they are stored and all of them counted |
| EtlLoad.ValidateBeforeWrite | etl/run_structured_mvp_sync.py:100-171 | reports nothing exactly when every type has rows, each with a value in every key column and no two alike in all of them, and every end of a relationship row is the key of some row of its type |
| EtlLoad.FindDuplicateKeys | etl/structured_mvp_validate.py:53-67 | the keys returned are exactly those that occur more than once, in the order in which they first occur |
| EtlLoad.DanglingFound | etl/structured_mvp_validate.py:32-50 | nothing is dangling exactly when both ends of every row are known |
| EtlLoad.ChunkRows | etl/structured_mvp_load.py:44-47 | the batches concatenate back to the rows; all are full but the last, and none is empty |
| EtlLoad.GraphDatabase.MergeNodes | etl/structured_mvp_spec.py:51-153 | one batch finds or creates a node for each row, overwrites its properties and removes those set to null; a null key undoes the batch |
| EtlLoad.GraphDatabase.MergeRelationships | etl/structured_mvp_spec.py:155-284 | the same for a relationship of each row whose two ends are matched; a null in the MERGE pattern of such a row undoes the batch |
| EtlLoad.NodeRowPut | etl/structured_mvp_spec.py:51-153 | a row merges exactly when it has a key, into the node of that key, and gives it its non-null columns and the run |
| EtlLoad.RelRowPut | etl/structured_mvp_spec.py:155-284 | a row is matched exactly when both its ends are known, then merges exactly when no value of the pattern is missing, into the relationship of its ends and pattern, and gives it its pattern, columns and the run |
| EtlLoad.AssignOverwrites | etl/structured_mvp_spec.py:51-284 | setting properties replaces those named, removes those set to null and leaves the rest |
| EtlLoad.LoadNodeRows | etl/structured_mvp_load.py:219-231 | loading in batches of any positive size has the effect of one batch, and stops exactly when some row cannot be merged, with a prefix of the rows loaded |
| EtlLoad.NodeCountExactIff | etl/structured_mvp_validate.py:53-67 | loading gives as many nodes as rows exactly when their keys differ |
| EtlLoad.RelCountExactIff | etl/structured_mvp_validate.py:32-50 | loading gives as many relationships as rows exactly when every row finds its ends and no two rows name one relationship |
| EtlLoad.SoundNodesLoad | etl/run_structured_mvp_sync.py:188-193 | a sound extract loads each label exactly: the count of its rows, and the properties of each row |
| EtlLoad.Sync | etl/run_structured_mvp_sync.py:174-230 | validation decides whether anything is written; after it passes no statement fails and the count comparison cannot either; each label and type then holds one entity for each row, named by its cells, with the run, the non-null cells of its columns and nothing else |
| EtlLoad.ShippedSpecsWellFormed | etl/structured_mvp_spec.py:51-284 | the six node and six relationship specifications meet what the load theorem asks of them |
| MaskQuery.MaskQueryText | backend/orchestrator/guards/shared.py:52-102 | the index-driven scanner computes the mask |
| MaskQuery.MaskIsClean | backend/orchestrator/guards/shared.py:52-102 | masked text has no quote, backtick or comment opener, also where openers were removed |
| MaskQuery.MaskFixedPoint | backend/orchestrator/guards/shared.py:52-102 | masking leaves a text alone exactly when it is clean |
| MaskQuery.MaskIdempotent | backend/orchestrator/guards/shared.py:52-102 | masking twice is masking once |
| MaskQuery.LiteralIsHidden | backend/orchestrator/guards/shared.py:81-99 | a quoted literal after clean code, with doubled quotes and backslash escapes inside it, turns into blanks, and the code around it is masked as if it stood alone |
| MaskQuery.LiteralEndsOnce | backend/orchestrator/guards/shared.py:81-99 | behind an opening quote there is at most one place for the literal to close |
| MaskQuery.OpenLiteralHidesAll | backend/orchestrator/guards/shared.py:81-99 | with no such place everything to the end turns into blanks |
| MaskQuery.BlockCommentIsHidden | backend/orchestrator/guards/shared.py:68-80 | behind clean code a block comment loses its opener and turns into blanks up to and including the first closer; the text behind it is masked on its own |
| MaskQuery.OpenBlockCommentHidesAll | backend/orchestrator/guards/shared.py:68-80 | with no closer everything to the end turns into blanks |
| MaskQuery.LineCommentIsHidden | backend/orchestrator/guards/shared.py:62-80 | a line comment of either kind loses its opener and turns into blanks up to, not including, the first carriage return or newline |
| AnswerLimits.TruncateSections | backend/orchestrator/nodes/answer_limits.py:92-138 | keeps a prefix of each section within both budgets, apart from one oversize row that only the first non-empty section may give; one section leads by two rows only if the other is stuck; a row is admitted whenever one exists and the limit is positive |
| AnswerLimits.TruncateRows | backend/orchestrator/nodes/answer_limits.py:61-89 | keeps the longest prefix the budgets allow |
| AnswerLimits.LongestPrefixUnique | backend/orchestrator/nodes/answer_limits.py:73-83 | there is only one such prefix |
| AnswerLimits.OneSectionIsPrefix | backend/orchestrator/nodes/answer_limits.py:92-138 | with one section the round-robin keeps what the prefix rule keeps |
| RowOrdering.ComparePreorder | backend/evaluation/normalization.py:98-114 | the comparator is a total preorder on any mix of values |
| RowOrdering.KeyLessIff | backend/evaluation/normalization.py:78-85 | numbers come by size and before lists, lists by their first difference and before everything else, which comes by the first different character of its rendering |
| RowOrdering.CompareIff | backend/evaluation/normalization.py:98-114 | the comparator puts a row first exactly when the first criterion that tells the two apart does: nulls last, smaller values first when ascending and larger ones when descending |
| RowOrdering.NullsFormSuffix | backend/evaluation/normalization.py:102-107 | nulls come last in both directions |
| RowOrdering.ResultIgnoresRowOrder | backend/evaluation/normalization.py:88-116 | every order of the same rows sorts to the same list exactly when the ordering separates distinct rows |
| RowOrdering.SortRows | backend/evaluation/normalization.py:88-116 | parses the ordering, refusing what it cannot parse, and sorts stably; no row stands before one that the first deciding criterion puts earlier |
| OverviewCache.OneBuildAtATime | backend/dashboard/service.py:247-262 | in every interleaving at most one build runs |
| OverviewCache.BuildsOneLifetimeApart | backend/dashboard/service.py:241-262 | any two successful builds begin at least one lifetime apart |
| OverviewCache.HitsAreFresh | backend/dashboard/service.py:243-250 | every cached answer comes from a build begun less than one lifetime before its check |
| OverviewCache.WaiterProceeds | backend/dashboard/service.py:247-262 | a waiting request never hangs: with no build running it takes the lock at once, and a running build that ends makes room for it |
| OverviewCache.GivingUpLeavesNothing | backend/dashboard/service.py:247-260 | a build that raises and a request cancelled in the queue change neither the cache nor any answer or other request, and leave no lock behind |
| OverviewCache.ServedIffRecent | backend/dashboard/service.py:243-250 | a request is answered from the last build that returned exactly while that build began less than 300 seconds of elapsed time ago; otherwise it queues, and builds once it has the lock |
| OverviewCache.RunIsHistory | backend/dashboard/service.py:248-261 | the builds stored are those that returned, in that order, each dated when its request took the lock |
| ProcessCache.BoundHolds | backend/dashboard/process.py:172-175 | the cache never exceeds its entry bound |
| ProcessCache.HitsMatchTheirKey | backend/dashboard/process.py:154-164 | a cached answer was built for the request's own key less than one lifetime before |
| ProcessCache.EarlyRebuildMeansEviction | backend/dashboard/process.py:154-176 | a key is rebuilt within one lifetime only if it was evicted in between |
| ProcessCache.WaiterProceeds | backend/dashboard/process.py:160-176 | a waiting request never hangs, whatever builds run |
| ProcessCache.GivingUpLeavesNothing | backend/dashboard/process.py:160-176 | the same for the keyed cache |
| ProcessCache.ServedIffRecent | backend/dashboard/process.py:154-164 | a request for a key is answered from the cache exactly while the latest build of that key has not been evicted and began less than 300 seconds ago; otherwise it queues, and builds its own key |
| ProcessCache.RunIsHistory | backend/dashboard/process.py:160-176 | the builds stored are those that returned, in that order, each under the key its request arrived with and dated when it took the lock |
| ProcessEviction.EvictedWhileOldest | backend/dashboard/process.py:172-174 | an eviction happens only in a full cache and leaves only entries that began no earlier than the one it takes |
| ProcessEviction.EarlyRebuildNeedsOtherKeys | backend/dashboard/process.py:154-176 | between the two builds of an early rebuild as many other keys were built as the cache holds |
| ProcessEviction.FewKeysNoEarlyRebuild | backend/dashboard/process.py:154-176 | while no more keys are built in a lifetime than the cache holds, no key is rebuilt early |
| ProcessEviction.EarlyRebuildExample | backend/dashboard/process.py:172-175 | with one key more, some run rebuilds its first key at once |

## Left out

- Model calls, prompts, response parsing, drivers, regular expression engines and
  the tables of Unicode: parameters. Case folding is a map from characters to
  non-empty texts that leaves white space and commas alone (toCasefold, section
  3.13 of the Unicode Standard); texts are already in Normalization Form C, which
  substrings keep (section 1.4 of UAX #15).
- JSON shape checks of drafts and plans (types of fields, unknown fields): the
  drafts arrive as typed values.
- The text of error messages and of generator rules: errors are constructors, and
  a rule is the role and predicate it is rendered from, so that two rules that
  would only read alike count as different.
- Decimal context precision and binary rounding: quantities are exact reals, and
  rounded quantities are whole numbers of the last decimal place.
- NaN, and values such as dates that compare like texts, in result rows. A SQL or
  graph row that lacks a field the shortage calculation subscripts directly is
  rejected like any other incomplete row; the code raises a key error there.
- The order in which a dictionary yields its fields: a merge may name any
  conflicting field, and components are visited in any order.
- The formal transform's route checks, the extraction of its quantity from the
  question (`planning.py:189-278` and `492-501`) and the fixed outputs and rules
  it gives a route: thresholds, number words and constants.
- Exceptions that leave an agent end the whole plan; executions are modelled for
  agents whose runs return.
- Retry counters, metrics, events, logging and the generated and failed query
  texts.
- The sections of a two-source answer are stated for distinct subquery ids, which
  validation guarantees.
- Results of an executor that are collections but not lists, such as generators:
  a collection of rows is a sequence here. An answer of the generator that is not
  a text counts as no query.
- Type conversions inside MERGE statements, constraint DDL, fixture queries after
  loading, and promotion of the loaded database.
- The Cypher clause scanner, numeric literal printing and SQL dump restoring:
  their laws are local to one function each.
- What the catalog keeps for prompts and matching only: terms, meanings, owner
  terms, nullability, the fingerprint; and which of its complaints comes first.
  Ontology texts are taken as not blank for `str.isspace`, which counts four
  separator characters (U+001C to U+001F) that the validator of the ontology may not.
- The SQL and Cypher guards, HTTP routes, history, administration, visualisation,
  text rendering of answers, the evaluation runner and the front end.
