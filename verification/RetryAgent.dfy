/** The generate, check, execute and retry machine behind each query source. */
module RetryAgent {
  import opened Wrappers

  const MAX_ATTEMPTS: nat := 3
  const EMPTY_RESULT: string := "EMPTY_RESULT"
  const NON_RETRYABLE_GUARD_REASONS: set<string> := {"UNKNOWN_TABLE", "UNKNOWN_LABEL_OR_RELATIONSHIP"}

  datatype EmptyReason = NoData | Inconclusive

  /** A result row: the fields it has, or something that is not an object. */
  datatype Row<+V> = Object(fields: map<string, V>) | NotAnObject

  /** What an executor hands back: a list of rows, or null. */
  datatype Rows<+V> = Rows(rows: seq<Row<V>>) | Nothing

  datatype FailureKind = UserCorrectable | Infrastructure | Internal

  /** The user-safe failure record. */
  datatype QueryFailure = QueryFailure(code: string, kind: FailureKind, dependent: bool)

  datatype GuardOutcome = Allowed | Blocked(reason: string) | GuardRaised

  /** `Unusable` is a result that is neither empty nor a collection, such as a number. */
  datatype ExecOutcome<+V> =
    | Returned(result: Rows<V>, truncated: bool)
    | Unusable
    | RetryableError(text: string, timeout: bool)
    | ConnectionError
    | UnclassifiedError

  datatype CheckOutcome = Satisfied | Violated(message: string) | CheckRaised

  /** Everything the outside world answers during one attempt. The generator may
      fail; the guard, the contract, the executor and the result invariant may
      answer anything. */
  datatype Probe<+V> = Probe(
    generation: Option<string>,
    guardOutcome: GuardOutcome,
    contract: CheckOutcome,
    execution: ExecOutcome<V>,
    resultInvariant: CheckOutcome)

  datatype Attempt = Attempt(query: string, error: Option<string>)

  datatype Diagnostic = Diagnostic(stage: string, reasonCode: string, attempt: nat, retryScheduled: bool,
      recovered: bool)

  datatype State<+V> = State(
    messages: seq<string>,
    result: Option<Rows<V>>,
    error: Option<string>,
    retryFeedback: Option<string>,
    attemptCount: nat,
    attempts: seq<Attempt>,
    emptyRetried: bool,
    retryable: bool,
    emptyReason: Option<EmptyReason>,
    truncated: bool,
    failure: Option<QueryFailure>,
    diagnostics: seq<Diagnostic>)

  /** The state the executor starts a source with. */
  function Initial<V>(): State<V> {
    State([], None, None, None, 0, [], false, false, None, false, None, [])
  }

  function ClassifyEmptyResult(prior: seq<Attempt>): EmptyReason {
    if exists i :: 0 <= i < |prior| && prior[i].error.Some? && prior[i].error.value != EMPTY_RESULT then Inconclusive
    else NoData
  }

  /** A node's answer: the next state, or an exception that leaves the graph. */
  datatype NodeResult<+V> = Next(state: State<V>) | Raised

  /** The agent node: one generation. */
  function AgentNode<V>(s: State<V>, generation: Option<string>): NodeResult<V> {
    match generation
    case None => Raised
    case Some(text) => Next(s.(messages := s.messages + [text], attemptCount := s.attemptCount + 1))
  }

  /** Why an attempt failed, as passed to the shared failure exit of the tools node. */
  datatype Fault = Fault(message: string, retryable: bool, failure: QueryFailure, stage: string, reasonCode: string,
      feedback: Option<string>)

  function FaultDiagnostic(fault: Fault, attempt: nat): Diagnostic {
    Diagnostic(fault.stage, fault.reasonCode, attempt, fault.retryable && attempt < MAX_ATTEMPTS, false)
  }

  function Fail<V>(s: State<V>, fault: Fault): State<V>
    requires s.messages != []
  {
    s.(error := Some(fault.message),
       retryFeedback := Some(if fault.feedback.Some? then fault.feedback.value else fault.message),
       result := None,
       attempts := s.attempts + [Attempt(s.messages[|s.messages| - 1], Some(fault.message))],
       diagnostics := s.diagnostics + [FaultDiagnostic(fault, s.attemptCount)],
       retryable := fault.retryable,
       failure := Some(fault.failure))
  }

  const ValidationRaised: Fault :=
    Fault("query validation failed", false, QueryFailure("QUERY_VALIDATION_INTERNAL_ERROR", Internal, false),
          "validation", "QUERY_VALIDATION_INTERNAL_ERROR", None)

  function ContractFault(message: string, stage: string, reasonCode: string): Fault {
    Fault(message, true, QueryFailure("QUERY_CONTRACT_FAILED", UserCorrectable, false), stage, reasonCode, None)
  }

  function GuardFault(guardOutcome: GuardOutcome): Option<Fault> {
    match guardOutcome
    case Allowed => None
    case GuardRaised => Some(ValidationRaised)
    case Blocked(reason) =>
      Some(Fault("blocked by policy (" + reason + ")", reason !in NON_RETRYABLE_GUARD_REASONS,
                 QueryFailure("QUERY_POLICY_BLOCKED", UserCorrectable, false), "validation",
                 if reason == "" then "QUERY_POLICY_BLOCKED" else reason, None))
  }

  function ExecutionFault<V>(execution: ExecOutcome<V>): Option<Fault> {
    match execution
    case Returned(_, _) => None
    case Unusable => None
    case RetryableError(text, timeout) =>
      var code := if timeout then "QUERY_TIMEOUT" else "QUERY_EXECUTION_FAILED";
      Some(Fault("query not executed", true, QueryFailure(code, UserCorrectable, false), "execution", code, Some(text)))
    case ConnectionError =>
      Some(Fault("connection error", false, QueryFailure("INFRASTRUCTURE_UNAVAILABLE", Infrastructure, false),
                 "execution", "INFRASTRUCTURE_UNAVAILABLE", None))
    case UnclassifiedError =>
      Some(Fault("internal execution error", false, QueryFailure("INTERNAL_QUERY_FAILURE", Internal, false),
                 "execution", "INTERNAL_QUERY_FAILURE", None))
  }

  predicate IsEmpty<V>(result: Rows<V>) { result.Nothing? || result.rows == [] }

  predicate HasAliases<V>(row: Row<V>, aliases: seq<string>) {
    aliases == [] || (row.Object? && forall a :: a in aliases ==> a in row.fields)
  }

  predicate EveryRowHas<V>(result: Rows<V>, aliases: seq<string>) {
    result.Rows? ==> forall i :: 0 <= i < |result.rows| ==> HasAliases(result.rows[i], aliases)
  }

  /** What is wrong with a non-empty result, if anything. */
  function ResultFault<V>(result: Rows<V>, aliases: seq<string>, resultInvariant: CheckOutcome): Option<Fault> {
    if !EveryRowHas(result, aliases) then
      Some(ContractFault("required alias missing", "result_contract", "REQUIRED_ALIAS_MISSING"))
    else match resultInvariant
      case Satisfied => None
      case CheckRaised => Some(ValidationRaised)
      case Violated(message) => Some(ContractFault(message, "result_invariant", "RESULT_INVARIANT_VIOLATION"))
  }

  /** An empty result: retried once, otherwise accepted with a reason. */
  function AcceptEmpty<V>(s: State<V>, result: Rows<V>, truncated: bool): State<V>
    requires s.messages != []
  {
    var canRetry := !s.emptyRetried && s.attemptCount < MAX_ATTEMPTS;
    var t := s.(result := Some(result),
                attempts := s.attempts + [Attempt(s.messages[|s.messages| - 1], Some(EMPTY_RESULT))],
                diagnostics := s.diagnostics + [Diagnostic("result", EMPTY_RESULT, s.attemptCount, canRetry, false)],
                truncated := truncated,
                failure := None);
    if canRetry then
      t.(error := Some(EMPTY_RESULT), retryFeedback := Some(EMPTY_RESULT),
         retryable := true, emptyRetried := true)
    else
      t.(error := None, retryFeedback := None,
         retryable := false, emptyReason := Some(ClassifyEmptyResult(s.attempts)))
  }

  function Recover(d: Diagnostic): Diagnostic { d.(recovered := true) }

  function Accept<V>(s: State<V>, result: Rows<V>, truncated: bool): State<V>
    requires s.messages != []
  {
    s.(result := Some(result), error := None, retryFeedback := None, emptyReason := None,
       attempts := s.attempts + [Attempt(s.messages[|s.messages| - 1], None)],
       diagnostics := seq(|s.diagnostics|, i requires 0 <= i < |s.diagnostics| => Recover(s.diagnostics[i])),
       retryable := false, truncated := truncated, failure := None)
  }

  /** How an attempt ends once its checks are made in order. Nobody catches the exceptions of the
      query contract, nor the one raised when the rows of an unusable result are counted off. */
  datatype Verdict<+V> =
    | Faulty(fault: Fault)
    | Blank(result: Rows<V>, truncated: bool)
    | Good(result: Rows<V>, truncated: bool)
    | Escapes

  function Judge<V>(probe: Probe<V>, aliases: seq<string>): Verdict<V> {
    if GuardFault(probe.guardOutcome).Some? then Faulty(GuardFault(probe.guardOutcome).value)
    else if probe.contract.CheckRaised? then Escapes
    else if probe.contract.Violated? then
      Faulty(ContractFault(probe.contract.message, "validation", "QUERY_CONTRACT_FAILED"))
    else if ExecutionFault(probe.execution).Some? then Faulty(ExecutionFault(probe.execution).value)
    else if probe.execution.Unusable? then Escapes
    else
      var result, truncated := probe.execution.result, probe.execution.truncated;
      if IsEmpty(result) then Blank(result, truncated)
      else match ResultFault(result, aliases, probe.resultInvariant)
        case Some(fault) => Faulty(fault)
        case None => Good(result, truncated)
  }

  /** The tools node. */
  function ToolsNode<V>(s: State<V>, verdict: Verdict<V>): NodeResult<V>
    requires s.messages != []
  {
    match verdict
    case Escapes => Raised
    case Faulty(fault) => Next(Fail(s, fault))
    case Blank(result, truncated) => Next(AcceptEmpty(s, result, truncated))
    case Good(result, truncated) => Next(Accept(s, result, truncated))
  }

  predicate ShouldRetry<V>(s: State<V>) {
    s.error.Some? && s.retryable && s.attemptCount < MAX_ATTEMPTS
  }

  /** What one attempt brings: the generated query, if any, and its verdict. */
  datatype Turn<+V> = Turn(generation: Option<string>, verdict: Verdict<V>)

  /** The world answers attempt `n` with `world(n)`. */
  function Turns<V>(world: nat -> Probe<V>, aliases: seq<string>): nat -> Turn<V> {
    (n: nat) => Turn(world(n).generation, Judge(world(n), aliases))
  }

  /** One round of the graph: agent, then tools. */
  function Round<V>(s: State<V>, turn: Turn<V>): NodeResult<V> {
    match AgentNode(s, turn.generation)
    case Raised => Raised
    case Next(t) => ToolsNode(t, turn.verdict)
  }

  /** The rest of a run, from a state in which another attempt is due. */
  function Continue<V>(s: State<V>, turns: nat -> Turn<V>): NodeResult<V>
    requires s.attemptCount < MAX_ATTEMPTS
    decreases MAX_ATTEMPTS - s.attemptCount
  {
    match Round(s, turns(s.attemptCount + 1))
    case Raised => Raised
    case Next(t) => if ShouldRetry(t) then Continue(t, turns) else Next(t)
  }

  /** The whole run of one source. */
  function Run<V>(world: nat -> Probe<V>, aliases: seq<string>): NodeResult<V> {
    Continue(Initial(), Turns(world, aliases))
  }

  /** The graph as it is driven: the nodes' answers overwrite the state. */
  method RunGraph<V>(turns: nat -> Turn<V>) returns (r: NodeResult<V>)
    ensures r == Continue(Initial(), turns)
  {
    var state: State<V> := Initial();
    ghost var whole := Continue(state, turns);
    while true
      invariant state.attemptCount < MAX_ATTEMPTS
      invariant whole == Continue(state, turns)
      decreases MAX_ATTEMPTS - state.attemptCount
    {
      var next := RunRound(state, turns(state.attemptCount + 1));
      if next.Raised? || !ShouldRetry(next.state) {
        return next;
      }
      state := next.state;
    }
  }

  method RunRound<V>(state: State<V>, turn: Turn<V>) returns (r: NodeResult<V>)
    ensures r == Round(state, turn)
    ensures r.Next? ==> r.state.attemptCount == state.attemptCount + 1
  {
    var generated := AgentNode(state, turn.generation);
    if generated.Raised? {
      return Raised;
    }
    r := ToolsNode(generated.state, turn.verdict);
  }

  // ---- what the world's answers to one attempt amount to ----

  /** The guard and the query contract let the query through to the executor. */
  ghost predicate Passes<V>(p: Probe<V>) { p.guardOutcome.Allowed? && p.contract.Satisfied? }

  ghost predicate ReturnsEmpty<V>(p: Probe<V>) {
    Passes(p) && p.execution.Returned? && (p.execution.result.Nothing? || p.execution.result.rows == [])
  }

  ghost predicate ReturnsRows<V>(p: Probe<V>) {
    Passes(p) && p.execution.Returned? && p.execution.result.Rows? && p.execution.result.rows != []
  }

  /** Some row is not an object or has no field of that name. */
  ghost predicate RowLacks<V>(rows: seq<Row<V>>, alias: string) {
    exists i :: 0 <= i < |rows| && (rows[i].NotAnObject? || alias !in rows[i].fields)
  }

  ghost predicate LacksAlias<V>(p: Probe<V>, aliases: seq<string>) {
    ReturnsRows(p) && exists a :: a in aliases && RowLacks(p.execution.result.rows, a)
  }

  /** The result goes on to its invariant. */
  ghost predicate Complete<V>(p: Probe<V>, aliases: seq<string>) { ReturnsRows(p) && !LacksAlias(p, aliases) }

  ghost predicate Succeeds<V>(p: Probe<V>, aliases: seq<string>) {
    Complete(p, aliases) && p.resultInvariant.Satisfied?
  }

  /** The contract raises, or a result that is no collection meets the row counter. */
  ghost predicate Escaping<V>(p: Probe<V>) {
    p.guardOutcome.Allowed? && (p.contract.CheckRaised? || (p.contract.Satisfied? && p.execution.Unusable?))
  }

  /** A contract or an invariant checker complains with `text`. */
  ghost predicate Complains<V>(p: Probe<V>, aliases: seq<string>, text: string) {
    || (p.guardOutcome.Allowed? && p.contract == Violated(text))
    || (Complete(p, aliases) && p.resultInvariant == Violated(text))
  }

  /** The failures that another generation may mend. */
  ghost predicate Mendable<V>(p: Probe<V>, aliases: seq<string>) {
    || (p.guardOutcome.Blocked? && p.guardOutcome.reason !in {"UNKNOWN_TABLE", "UNKNOWN_LABEL_OR_RELATIONSHIP"})
    || (p.guardOutcome.Allowed? && p.contract.Violated?)
    || (Passes(p) && p.execution.RetryableError?)
    || LacksAlias(p, aliases)
    || (Complete(p, aliases) && p.resultInvariant.Violated?)
  }

  /** What an attempt that fails leaves: the failure record, and the stage and code of its diagnostic. */
  datatype Trace = Trace(code: string, kind: FailureKind, stage: string, reasonCode: string)

  ghost predicate CheckFailsAs<V>(p: Probe<V>, aliases: seq<string>, t: Trace) {
    && (p.guardOutcome.GuardRaised? || (Complete(p, aliases) && p.resultInvariant.CheckRaised?) ==>
          t == Trace("QUERY_VALIDATION_INTERNAL_ERROR", Internal, "validation", "QUERY_VALIDATION_INTERNAL_ERROR"))
    && (p.guardOutcome.Blocked? ==>
          t == Trace("QUERY_POLICY_BLOCKED", UserCorrectable, "validation",
                     if p.guardOutcome.reason == "" then "QUERY_POLICY_BLOCKED" else p.guardOutcome.reason))
    && (p.guardOutcome.Allowed? && p.contract.Violated? ==>
          t == Trace("QUERY_CONTRACT_FAILED", UserCorrectable, "validation", "QUERY_CONTRACT_FAILED"))
    && (LacksAlias(p, aliases) ==>
          t == Trace("QUERY_CONTRACT_FAILED", UserCorrectable, "result_contract", "REQUIRED_ALIAS_MISSING"))
    && (Complete(p, aliases) && p.resultInvariant.Violated? ==>
          t == Trace("QUERY_CONTRACT_FAILED", UserCorrectable, "result_invariant", "RESULT_INVARIANT_VIOLATION"))
  }

  ghost predicate ExecutionFailsAs<V>(p: Probe<V>, t: Trace) {
    Passes(p) ==>
      match p.execution
      case RetryableError(_, true) => t == Trace("QUERY_TIMEOUT", UserCorrectable, "execution", "QUERY_TIMEOUT")
      case RetryableError(_, false) =>
        t == Trace("QUERY_EXECUTION_FAILED", UserCorrectable, "execution", "QUERY_EXECUTION_FAILED")
      case ConnectionError =>
        t == Trace("INFRASTRUCTURE_UNAVAILABLE", Infrastructure, "execution", "INFRASTRUCTURE_UNAVAILABLE")
      case UnclassifiedError =>
        t == Trace("INTERNAL_QUERY_FAILURE", Internal, "execution", "INTERNAL_QUERY_FAILURE")
      case _ => true
  }

  ghost predicate FailsAs<V>(p: Probe<V>, aliases: seq<string>, t: Trace) {
    CheckFailsAs(p, aliases, t) && ExecutionFailsAs(p, t)
  }

  /** A failure that a checker states is reported in its own words, and an error of the
      database is what the next generation hears of it. */
  ghost predicate Says<V>(p: Probe<V>, aliases: seq<string>, message: string, feedback: string) {
    && (forall text :: Complains(p, aliases, text) ==> message == text)
    && (message == EMPTY_RESULT ==> Complains(p, aliases, message))
    && feedback == if Passes(p) && p.execution.RetryableError? then p.execution.text else message
  }

  function TraceOf(fault: Fault): Trace {
    Trace(fault.failure.code, fault.failure.kind, fault.stage, fault.reasonCode)
  }

  lemma RowsLackNothing<V>(p: Probe<V>, aliases: seq<string>)
    requires ReturnsRows(p)
    ensures EveryRowHas(p.execution.result, aliases) <==> !LacksAlias(p, aliases)
  {
    var rows := p.execution.result.rows;
    if a :| a in aliases && RowLacks(rows, a) {
      var i :| 0 <= i < |rows| && (rows[i].NotAnObject? || a !in rows[i].fields);
      assert !HasAliases(rows[i], aliases);
    } else {
      forall i | 0 <= i < |rows| ensures HasAliases(rows[i], aliases) {
        if aliases != [] {
          assert aliases[0] in aliases && !RowLacks(rows, aliases[0]);
        }
      }
    }
  }

  /** The checks, made in order, sort every attempt as its answers say. */
  lemma Judged<V>(p: Probe<V>, aliases: seq<string>)
    ensures
      match Judge(p, aliases)
      case Escapes => Escaping(p)
      case Blank(result, truncated) => ReturnsEmpty(p) && p.execution == Returned(result, truncated)
      case Good(result, truncated) => Succeeds(p, aliases) && p.execution == Returned(result, truncated)
      case Faulty(fault) =>
        && !Escaping(p) && !ReturnsEmpty(p) && !Succeeds(p, aliases)
        && (fault.retryable <==> Mendable(p, aliases))
        && !fault.failure.dependent && FailsAs(p, aliases, TraceOf(fault))
        && Says(p, aliases, fault.message, if fault.feedback.Some? then fault.feedback.value else fault.message)
    ensures Escaping(p) ==> Judge(p, aliases).Escapes?
    ensures ReturnsEmpty(p) ==> Judge(p, aliases).Blank?
    ensures Succeeds(p, aliases) ==> Judge(p, aliases).Good?
  {
    assert EMPTY_RESULT[0] == 'E';
    if ReturnsRows(p) {
      RowsLackNothing(p, aliases);
    }
  }

  // ---- what holds between the rounds of every run ----

  /** The error text an attempt leaves in the record. */
  function RecordedError<V>(verdict: Verdict<V>): Option<string> {
    match verdict
    case Faulty(fault) => Some(fault.message)
    case Blank(_, _) => Some(EMPTY_RESULT)
    case _ => None
  }

  /** One record per generation, holding its query and its error. */
  ghost predicate AttemptsRecorded<V>(s: State<V>, turns: nat -> Turn<V>) {
    && |s.attempts| == s.attemptCount
    && forall i :: 0 <= i < |s.attempts| ==>
         && turns(i + 1).generation == Some(s.attempts[i].query)
         && s.attempts[i].error == RecordedError(turns(i + 1).verdict)
  }

  /** A run goes on only after a fault or an empty result. */
  ghost predicate OnlyFailuresBefore<V>(n: nat, turns: nat -> Turn<V>) {
    forall i: nat :: 1 <= i < n ==> turns(i).verdict.Faulty? || turns(i).verdict.Blank?
  }

  /** The diagnostic of attempt `number`. */
  predicate Describes<V>(d: Diagnostic, number: nat, verdict: Verdict<V>, retried: bool, recovered: bool) {
    && d.attempt == number && d.retryScheduled == retried && d.recovered == recovered
    && (verdict.Faulty? ==> d.reasonCode == verdict.fault.reasonCode && d.stage == verdict.fault.stage)
    && (verdict.Blank? ==> d.reasonCode == EMPTY_RESULT && d.stage == "result")
  }

  /** One diagnostic per unsuccessful attempt, numbered in order. */
  ghost predicate DiagnosticsMatch<V>(s: State<V>, turns: nat -> Turn<V>) {
    var n := s.attemptCount;
    var good := n > 0 && turns(n).verdict.Good?;
    && |s.diagnostics| == (if good then n - 1 else n)
    && forall i :: 0 <= i < |s.diagnostics| ==>
         Describes(s.diagnostics[i], i + 1, turns(i + 1).verdict, i + 1 < n || ShouldRetry(s), good)
  }

  ghost predicate BlankAt<V>(i: nat, turns: nat -> Turn<V>) { turns(i).verdict.Blank? }

  /** Only the first empty result can be retried. */
  ghost predicate OneEmptyRetry<V>(s: State<V>, turns: nat -> Turn<V>) {
    var n := s.attemptCount;
    && (s.emptyRetried ==> exists i: nat :: 1 <= i <= n && BlankAt(i, turns))
    && (forall i: nat :: 1 <= i <= n && BlankAt(i, turns) && (i < n || ShouldRetry(s)) ==> s.emptyRetried)
    && forall i: nat, j: nat :: 1 <= i < j <= n && BlankAt(i, turns) && BlankAt(j, turns) ==> j == n && !ShouldRetry(s)
  }

  /** What the last attempt decided. */
  ghost predicate LastDecided<V>(s: State<V>, turns: nat -> Turn<V>) {
    var n := s.attemptCount;
    n > 0 && |s.attempts| == n ==>
      match turns(n).verdict
      case Escapes => false
      case Faulty(fault) =>
        && s.error == Some(fault.message) && s.failure == Some(fault.failure)
        && s.result.None? && s.retryable == fault.retryable
      case Blank(result, truncated) =>
        && s.result.Some? && s.result.value == result && s.truncated == truncated && s.failure == None
        && (if s.error.Some? then ShouldRetry(s) && s.error == Some(EMPTY_RESULT)
            else s.emptyReason == Some(ClassifyEmptyResult(s.attempts[..n - 1])))
      case Good(result, truncated) =>
        && s.result.Some? && s.result.value == result && s.truncated == truncated
        && s.error == None && s.failure == None && s.emptyReason == None
  }

  ghost predicate Consistent<V>(s: State<V>, turns: nat -> Turn<V>) {
    && s.attemptCount <= MAX_ATTEMPTS
    && AttemptsRecorded(s, turns) && OnlyFailuresBefore(s.attemptCount, turns) && DiagnosticsMatch(s, turns)
    && OneEmptyRetry(s, turns) && LastDecided(s, turns)
  }

  /** The next attempt is the first, or the last one asked for it. */
  ghost predicate Due<V>(s: State<V>) {
    s.attemptCount < MAX_ATTEMPTS && (s.attemptCount == 0 || ShouldRetry(s))
  }

  /** A round adds one record. */
  lemma RoundRecords<V>(s: State<V>, t: State<V>, turn: Turn<V>)
    requires Round(s, turn) == Next(t)
    ensures turn.generation.Some? && t.attemptCount == s.attemptCount + 1
    ensures t.attempts == s.attempts + [Attempt(turn.generation.value, RecordedError(turn.verdict))]
  {
    var generated := AgentNode(s, turn.generation).state;
    assert generated.messages[|generated.messages| - 1] == turn.generation.value;
  }

  lemma RoundKeepsRecords<V>(s: State<V>, t: State<V>, turns: nat -> Turn<V>)
    requires AttemptsRecorded(s, turns) && Round(s, turns(s.attemptCount + 1)) == Next(t)
    ensures t.attemptCount == s.attemptCount + 1
    ensures AttemptsRecorded(t, turns) && t.attempts[..s.attemptCount] == s.attempts
  {
    RoundRecords(s, t, turns(s.attemptCount + 1));
  }

  lemma RoundDecides<V>(s: State<V>, t: State<V>, turns: nat -> Turn<V>)
    requires AttemptsRecorded(s, turns) && Round(s, turns(s.attemptCount + 1)) == Next(t)
    ensures LastDecided(t, turns)
  {
    RoundKeepsRecords(s, t, turns);
  }

  /** A round that does not succeed adds its diagnostic; one that does marks all as recovered. */
  lemma RoundDiagnostics<V>(s: State<V>, t: State<V>, turn: Turn<V>)
    requires Round(s, turn) == Next(t)
    ensures t.attemptCount == s.attemptCount + 1
    ensures turn.verdict.Good? ==>
      && |t.diagnostics| == |s.diagnostics|
      && forall i :: 0 <= i < |s.diagnostics| ==> t.diagnostics[i] == Recover(s.diagnostics[i])
    ensures !turn.verdict.Good? ==>
      && |t.diagnostics| == |s.diagnostics| + 1 && t.diagnostics[..|s.diagnostics|] == s.diagnostics
      && Describes(t.diagnostics[|s.diagnostics|], t.attemptCount, turn.verdict, ShouldRetry(t), false)
  {
  }

  lemma RoundKeepsDiagnostics<V>(s: State<V>, t: State<V>, turns: nat -> Turn<V>)
    requires DiagnosticsMatch(s, turns) && Due(s) && Round(s, turns(s.attemptCount + 1)) == Next(t)
    requires s.attemptCount > 0 ==> !turns(s.attemptCount).verdict.Good?
    ensures DiagnosticsMatch(t, turns)
  {
    RoundDiagnostics(s, t, turns(s.attemptCount + 1));
    assert s.attemptCount == 0 || ShouldRetry(s);
    forall i | 0 <= i < |t.diagnostics|
      ensures Describes(t.diagnostics[i], i + 1, turns(i + 1).verdict, i + 1 < t.attemptCount
        || ShouldRetry(t), turns(t.attemptCount).verdict.Good?)
    {
      if i < |s.diagnostics| {
        EarlierDiagnostic(s, t, turns, i);
      }
    }
  }

  lemma EarlierDiagnostic<V>(s: State<V>, t: State<V>, turns: nat -> Turn<V>, i: nat)
    requires DiagnosticsMatch(s, turns) && Due(s) && Round(s, turns(s.attemptCount + 1)) == Next(t)
    requires s.attemptCount > 0 ==> !turns(s.attemptCount).verdict.Good?
    requires i < |s.diagnostics|
    ensures i < |t.diagnostics|
      && Describes(t.diagnostics[i], i + 1, turns(i + 1).verdict, true, turns(t.attemptCount).verdict.Good?)
  {
    RoundDiagnostics(s, t, turns(s.attemptCount + 1));
    assert Describes(s.diagnostics[i], i + 1, turns(i + 1).verdict, true, false);
    assert |t.diagnostics| > |s.diagnostics| ==> t.diagnostics[..|s.diagnostics|][i] == s.diagnostics[i];
  }

  lemma RoundKeepsEmptyRetry<V>(s: State<V>, t: State<V>, turns: nat -> Turn<V>)
    requires Consistent(s, turns) && Due(s) && Round(s, turns(s.attemptCount + 1)) == Next(t)
    ensures OneEmptyRetry(t, turns)
  {
    var n := t.attemptCount;
    assert BlankAt(n, turns) <==> turns(n).verdict.Blank?;
    if s.emptyRetried {
      var i: nat :| 1 <= i <= s.attemptCount && BlankAt(i, turns);
      assert 1 <= i <= n;
    }
    forall i: nat, j: nat | 1 <= i < j <= n && BlankAt(i, turns) && BlankAt(j, turns)
      ensures j == n && !ShouldRetry(t)
    {
      assert s.emptyRetried;
    }
  }

  lemma {:induction false} ContinueConsistent<V>(s: State<V>, turns: nat -> Turn<V>)
    requires Consistent(s, turns) && Due(s) && Continue(s, turns).Next?
    ensures
      var t := Continue(s, turns).state;
      Consistent(t, turns) && t.attemptCount > 0 && !ShouldRetry(t)
    decreases MAX_ATTEMPTS - s.attemptCount
  {
    var t := Round(s, turns(s.attemptCount + 1)).state;
    RoundKeepsRecords(s, t, turns);
    RoundDecides(s, t, turns);
    RoundKeepsDiagnostics(s, t, turns);
    RoundKeepsEmptyRetry(s, t, turns);
    if ShouldRetry(t) {
      ContinueConsistent(t, turns);
    }
  }

  // ---- theorems about whole runs ----

  lemma RunConsistent<V>(world: nat -> Probe<V>, aliases: seq<string>)
    requires Run(world, aliases).Next?
    ensures
      var s := Run(world, aliases).state;
      Consistent(s, Turns(world, aliases)) && 0 < s.attemptCount <= MAX_ATTEMPTS && !ShouldRetry(s)
  {
    ContinueConsistent(Initial(), Turns(world, aliases));
  }

  /** The verdict on attempt `n` of a run. */
  function VerdictAt<V>(world: nat -> Probe<V>, aliases: seq<string>, n: nat): Verdict<V> {
    Judge(world(n), aliases)
  }

  lemma TurnAt<V>(world: nat -> Probe<V>, aliases: seq<string>, n: nat)
    ensures Turns(world, aliases)(n) == Turn(world(n).generation, VerdictAt(world, aliases, n))
  {
  }

  // ---- where a run ends, read off what the world answers ----

  ghost predicate EmptyBefore<V>(world: nat -> Probe<V>, n: nat) {
    exists i: nat :: 1 <= i < n && ReturnsEmpty(world(i))
  }

  /** The attempt asks for another one: a failure that may be mended, or the first empty result. */
  ghost predicate AsksAgain<V>(world: nat -> Probe<V>, aliases: seq<string>, n: nat) {
    Mendable(world(n), aliases) || (ReturnsEmpty(world(n)) && !EmptyBefore(world, n))
  }

  /** Every attempt before `n` generates a query and asks again. */
  ghost predicate Reaches<V>(world: nat -> Probe<V>, aliases: seq<string>, n: nat) {
    1 <= n <= 3
    && forall i: nat :: 1 <= i < n ==> world(i).generation.Some? && AsksAgain(world, aliases, i)
  }

  ghost predicate RaisesAt<V>(world: nat -> Probe<V>, aliases: seq<string>, n: nat) {
    Reaches(world, aliases, n) && (world(n).generation.None? || Escaping(world(n)))
  }

  ghost predicate EndsAt<V>(world: nat -> Probe<V>, aliases: seq<string>, n: nat) {
    && Reaches(world, aliases, n) && world(n).generation.Some? && !Escaping(world(n))
    && (n == 3 || !AsksAgain(world, aliases, n))
  }

  /** The state in which attempt `s.attemptCount + 1` is due knows whether a result was empty before. */
  ghost predicate OnTrack<V>(s: State<V>, world: nat -> Probe<V>, aliases: seq<string>) {
    && Reaches(world, aliases, s.attemptCount + 1)
    && (s.emptyRetried <==> EmptyBefore(world, s.attemptCount + 1))
  }

  lemma RoundDecision<V>(s: State<V>, t: State<V>, turn: Turn<V>)
    requires s.attemptCount < MAX_ATTEMPTS && Round(s, turn) == Next(t)
    ensures t.attemptCount == s.attemptCount + 1 && turn.generation.Some? && !turn.verdict.Escapes?
    ensures
      var again := match turn.verdict
        case Faulty(fault) => fault.retryable
        case Blank(_, _) => !s.emptyRetried
        case _ => false;
      ShouldRetry(t) <==> t.attemptCount < MAX_ATTEMPTS && again
    ensures t.attemptCount < MAX_ATTEMPTS ==> (t.emptyRetried <==> s.emptyRetried || turn.verdict.Blank?)
  {
  }

  lemma RoundOnTrack<V>(s: State<V>, t: State<V>, world: nat -> Probe<V>, aliases: seq<string>)
    requires OnTrack(s, world, aliases) && Round(s, Turns(world, aliases)(s.attemptCount + 1)) == Next(t)
    ensures t.attemptCount == s.attemptCount + 1
    ensures world(t.attemptCount).generation.Some? && !Escaping(world(t.attemptCount))
    ensures ShouldRetry(t) <==> t.attemptCount < 3 && AsksAgain(world, aliases, t.attemptCount)
    ensures ShouldRetry(t) ==> OnTrack(t, world, aliases)
  {
    var n := s.attemptCount + 1;
    TurnAt(world, aliases, n);
    Judged(world(n), aliases);
    RoundDecision(s, t, Turns(world, aliases)(n));
    assert EmptyBefore(world, n + 1) <==> EmptyBefore(world, n) || ReturnsEmpty(world(n));
  }

  /** The outcome of a run and the attempt it stops at agree. */
  ghost predicate Stops<V>(r: NodeResult<V>, world: nat -> Probe<V>, aliases: seq<string>, n: nat) {
    match r
    case Raised => RaisesAt(world, aliases, n)
    case Next(t) => n == t.attemptCount && EndsAt(world, aliases, n)
  }

  lemma RoundRaises<V>(s: State<V>, world: nat -> Probe<V>, aliases: seq<string>)
    requires OnTrack(s, world, aliases) && Round(s, Turns(world, aliases)(s.attemptCount + 1)).Raised?
    ensures RaisesAt(world, aliases, s.attemptCount + 1)
  {
    TurnAt(world, aliases, s.attemptCount + 1);
    Judged(world(s.attemptCount + 1), aliases);
  }

  lemma ContinueStops<V>(s: State<V>, t: State<V>, turns: nat -> Turn<V>)
    requires s.attemptCount < MAX_ATTEMPTS && Round(s, turns(s.attemptCount + 1)) == Next(t) && !ShouldRetry(t)
    ensures Continue(s, turns) == Next(t)
  {
  }

  lemma ContinueGoesOn<V>(s: State<V>, t: State<V>, turns: nat -> Turn<V>)
    requires s.attemptCount < MAX_ATTEMPTS && Round(s, turns(s.attemptCount + 1)) == Next(t) && ShouldRetry(t)
    ensures Continue(s, turns) == Continue(t, turns)
  {
    var r := Round(s, turns(s.attemptCount + 1));
    calc {
      Continue(s, turns);
      match r case Raised => Raised case Next(u) => if ShouldRetry(u) then Continue(t, turns) else Next(u);
      Continue(t, turns);
    }
  }

  lemma {:induction false} ContinueEnds<V>(s: State<V>, world: nat -> Probe<V>, aliases: seq<string>) returns (n: nat)
    requires OnTrack(s, world, aliases)
    ensures Stops(Continue(s, Turns(world, aliases)), world, aliases, n)
    decreases MAX_ATTEMPTS - s.attemptCount
  {
    n := s.attemptCount + 1;
    match Round(s, Turns(world, aliases)(n))
    case Raised =>
      RoundRaises(s, world, aliases);
    case Next(t) =>
      RoundOnTrack(s, t, world, aliases);
      if !ShouldRetry(t) {
        ContinueStops(s, t, Turns(world, aliases));
      } else {
        ContinueGoesOn(s, t, Turns(world, aliases));
        n := ContinueEnds(t, world, aliases);
      }
  }

  /** No attempt asks again and raises. */
  lemma StopsOnce<V>(world: nat -> Probe<V>, aliases: seq<string>, m: nat, n: nat)
    requires RaisesAt(world, aliases, m) || EndsAt(world, aliases, m)
    requires RaisesAt(world, aliases, n) || EndsAt(world, aliases, n)
    ensures m == n
  {
  }

  lemma RunStops<V>(world: nat -> Probe<V>, aliases: seq<string>) returns (n: nat)
    ensures Stops(Run(world, aliases), world, aliases, n)
  {
    n := ContinueEnds(Initial(), world, aliases);
  }

  /** A run raises exactly when an attempt it reaches gets no query, or answers that escape. */
  lemma RaisesIff<V>(world: nat -> Probe<V>, aliases: seq<string>)
    ensures Run(world, aliases).Raised? <==> exists n: nat :: RaisesAt(world, aliases, n)
  {
    var stop := RunStops(world, aliases);
    if n: nat :| RaisesAt(world, aliases, n) {
      StopsOnce(world, aliases, stop, n);
    }
  }

  /** A run makes exactly `n` attempts when it reaches attempt `n` and goes no further: each attempt
      before it met a failure that may be mended or the first empty result, and it did not, or was
      the third. */
  lemma EndsIff<V>(world: nat -> Probe<V>, aliases: seq<string>, n: nat)
    ensures Run(world, aliases).Next? && Run(world, aliases).state.attemptCount == n <==> EndsAt(world, aliases, n)
  {
    var stop := RunStops(world, aliases);
    if EndsAt(world, aliases, n) {
      StopsOnce(world, aliases, stop, n);
    }
  }

  /** A query contract that raises, and an executor that returns a number, both raise out of the graph. */
  lemma RaisingExamples() returns (contractRaises: nat -> Probe<int>, resultUnusable: nat -> Probe<int>)
    ensures contractRaises(1).contract.CheckRaised? && Run(contractRaises, []).Raised?
    ensures resultUnusable(1).execution.Unusable? && Run(resultUnusable, []).Raised?
  {
    contractRaises := (n: nat) => Probe(Some("q"), Allowed, CheckRaised, Unusable, Satisfied);
    resultUnusable := (n: nat) => Probe(Some("q"), Allowed, Satisfied, Unusable, Satisfied);
    assert RaisesAt(contractRaises, [], 1) && RaisesAt(resultUnusable, [], 1);
    RaisesIff(contractRaises, []);
    RaisesIff(resultUnusable, []);
  }

  // ---- what a run leaves behind ----

  /** The error an attempt leaves in its record. */
  ghost predicate Records<V>(p: Probe<V>, aliases: seq<string>, error: Option<string>) {
    && (error.None? <==> Succeeds(p, aliases))
    && (ReturnsEmpty(p) ==> error == Some(EMPTY_RESULT))
    && (forall text :: Complains(p, aliases, text) ==> error == Some(text))
    && (error == Some(EMPTY_RESULT) ==> ReturnsEmpty(p) || Complains(p, aliases, EMPTY_RESULT))
  }

  lemma RecordedErrorIs<V>(p: Probe<V>, aliases: seq<string>)
    requires !Escaping(p)
    ensures Records(p, aliases, RecordedError(Judge(p, aliases)))
  {
    Judged(p, aliases);
  }

  /** The attempts before the last did not escape. */
  lemma EarlierAttempt<V>(world: nat -> Probe<V>, aliases: seq<string>, n: nat, i: nat)
    requires EndsAt(world, aliases, n) && 1 <= i <= n
    ensures !Escaping(world(i)) && (i < n ==> !Succeeds(world(i), aliases))
  {
    if i < n {
      assert AsksAgain(world, aliases, i);
    }
  }

  lemma RunEnds<V>(world: nat -> Probe<V>, aliases: seq<string>)
    requires Run(world, aliases).Next?
    ensures EndsAt(world, aliases, Run(world, aliases).state.attemptCount)
  {
    EndsIff(world, aliases, Run(world, aliases).state.attemptCount);
  }

  /** At most three generations, and one attempt record for each. */
  lemma OneRecordPerGeneration<V>(world: nat -> Probe<V>, aliases: seq<string>)
    requires Run(world, aliases).Next?
    ensures
      var s := Run(world, aliases).state;
      && 1 <= s.attemptCount <= 3
      && |s.attempts| == s.attemptCount
      && forall i :: 0 <= i < |s.attempts| ==>
           && world(i + 1).generation == Some(s.attempts[i].query)
           && Records(world(i + 1), aliases, s.attempts[i].error)
  {
    RunConsistent(world, aliases);
    RunEnds(world, aliases);
    var s := Run(world, aliases).state;
    forall i | 0 <= i < |s.attempts|
      ensures world(i + 1).generation == Some(s.attempts[i].query)
      ensures Records(world(i + 1), aliases, s.attempts[i].error)
    {
      TurnAt(world, aliases, i + 1);
      EarlierAttempt(world, aliases, s.attemptCount, i + 1);
      RecordedErrorIs(world(i + 1), aliases);
    }
  }

  /** No two retries of a run are caused by an empty result. */
  lemma AtMostOneEmptyRetry<V>(world: nat -> Probe<V>, aliases: seq<string>, i: nat, j: nat)
    requires Run(world, aliases).Next?
    requires 1 <= i < Run(world, aliases).state.attemptCount && ReturnsEmpty(world(i))
    requires 1 <= j < Run(world, aliases).state.attemptCount && ReturnsEmpty(world(j))
    ensures i == j
  {
    RunEnds(world, aliases);
    assert AsksAgain(world, aliases, i) && AsksAgain(world, aliases, j);
  }

  /** How the last attempt and the final state agree. */
  lemma FinalState<V>(world: nat -> Probe<V>, aliases: seq<string>)
    requires Run(world, aliases).Next?
    ensures
      var s := Run(world, aliases).state;
      match VerdictAt(world, aliases, s.attemptCount)
      case Escapes => false
      case Faulty(fault) => s.error == Some(fault.message) && s.failure == Some(fault.failure) && s.result.None?
      case Blank(result, truncated) =>
        && s.error == None && s.failure == None
        && s.result.Some? && s.result.value == result && s.truncated == truncated
        && |s.attempts| == s.attemptCount > 0
        && s.emptyReason == Some(ClassifyEmptyResult(s.attempts[..s.attemptCount - 1]))
      case Good(result, truncated) =>
        && s.error == None && s.failure == None && s.emptyReason == None
        && s.result.Some? && s.result.value == result && s.truncated == truncated
  {
    RunConsistent(world, aliases);
    TurnAt(world, aliases, Run(world, aliases).state.attemptCount);
  }

  /** What a run leaves when its last attempt is answered by `p`. */
  ghost predicate Leaves<V>(s: State<V>, p: Probe<V>, aliases: seq<string>) {
    if Succeeds(p, aliases) || ReturnsEmpty(p) then
      && s.error == None && s.failure == None
      && s.result.Some? && p.execution == Returned(s.result.value, s.truncated)
      && (s.emptyReason.Some? <==> ReturnsEmpty(p))
    else
      && s.result == None && s.error.Some? && s.failure.Some? && !s.failure.value.dependent
      && (forall text :: Complains(p, aliases, text) ==> s.error == Some(text))
      && exists t: Trace :: FailsAs(p, aliases, t) && s.failure == Some(QueryFailure(t.code, t.kind, false))
  }

  /** A run that ends leaves the rows and the truncation flag of its last attempt, or its failure. */
  lemma RunLeaves<V>(world: nat -> Probe<V>, aliases: seq<string>, n: nat)
    requires EndsAt(world, aliases, n)
    ensures Run(world, aliases).Next? && Leaves(Run(world, aliases).state, world(n), aliases)
  {
    EndsIff(world, aliases, n);
    FinalState(world, aliases);
    Judged(world(n), aliases);
    match VerdictAt(world, aliases, n)
    case Faulty(fault) =>
      assert FailsAs(world(n), aliases, TraceOf(fault));
    case _ =>
  }

  /** With checkers that keep off the reserved text no run ends in it. */
  lemma NeverEndsInEmptyResult<V>(world: nat -> Probe<V>, aliases: seq<string>)
    requires Run(world, aliases).Next?
    requires forall n: nat :: 1 <= n <= 3 ==> !Complains(world(n), aliases, EMPTY_RESULT)
    ensures Run(world, aliases).state.error != Some(EMPTY_RESULT)
  {
    RunEnds(world, aliases);
    FinalState(world, aliases);
    Judged(world(Run(world, aliases).state.attemptCount), aliases);
  }

  /** A final empty result is inconclusive exactly when an earlier attempt failed
      with an error that is not the empty-result marker. */
  lemma InconclusiveIff<V>(world: nat -> Probe<V>, aliases: seq<string>, n: nat)
    requires EndsAt(world, aliases, n) && ReturnsEmpty(world(n))
    ensures Run(world, aliases).Next?
    ensures Run(world, aliases).state.emptyReason == Some(
      if exists i: nat :: 1 <= i < n && !ReturnsEmpty(world(i)) && !Complains(world(i), aliases, EMPTY_RESULT)
      then Inconclusive else NoData)
  {
    EndsIff(world, aliases, n);
    FinalState(world, aliases);
    OneRecordPerGeneration(world, aliases);
    Judged(world(n), aliases);
    var attempts := Run(world, aliases).state.attempts;
    forall i | 0 <= i < n - 1
      ensures attempts[i].error.Some?
      ensures attempts[i].error == Some(EMPTY_RESULT) <==>
        ReturnsEmpty(world(i + 1)) || Complains(world(i + 1), aliases, EMPTY_RESULT)
    {
      EarlierAttempt(world, aliases, n, i + 1);
      assert Records(world(i + 1), aliases, attempts[i].error);
    }
    if i: nat :| 1 <= i < n && !ReturnsEmpty(world(i)) && !Complains(world(i), aliases, EMPTY_RESULT) {
      assert attempts[i - 1] == attempts[..n - 1][i - 1];
    }
  }

  /** The diagnostic of attempt `number`, answered by `p`. */
  ghost predicate Reports<V>(d: Diagnostic, number: nat, p: Probe<V>, aliases: seq<string>, retried: bool,
      recovered: bool)
  {
    && d.attempt == number && d.retryScheduled == retried && d.recovered == recovered
    && if ReturnsEmpty(p) then d.stage == "result" && d.reasonCode == EMPTY_RESULT
       else exists t: Trace :: FailsAs(p, aliases, t) && d.stage == t.stage && d.reasonCode == t.reasonCode
  }

  lemma DescribedIsReported<V>(d: Diagnostic, number: nat, p: Probe<V>, aliases: seq<string>, retried: bool,
      recovered: bool)
    requires Describes(d, number, Judge(p, aliases), retried, recovered) && !Escaping(p) && !Succeeds(p, aliases)
    ensures Reports(d, number, p, aliases, retried, recovered)
  {
    Judged(p, aliases);
    if Judge(p, aliases).Faulty? {
      assert FailsAs(p, aliases, TraceOf(Judge(p, aliases).fault));
    }
  }

  /** Diagnostics tell the truth about the rest of the run: one for each attempt
      that did not succeed, in order; a retry was scheduled exactly when another
      attempt followed; all are marked recovered exactly when the run succeeded. */
  lemma DiagnosticsForetellRun<V>(world: nat -> Probe<V>, aliases: seq<string>, n: nat)
    requires EndsAt(world, aliases, n)
    ensures Run(world, aliases).Next?
    ensures
      var s, succeeded := Run(world, aliases).state, Succeeds(world(n), aliases);
      && |s.diagnostics| == (if succeeded then n - 1 else n)
      && (forall i: nat :: 1 <= i < n ==> !Succeeds(world(i), aliases))
      && forall i :: 0 <= i < |s.diagnostics| ==>
           Reports(s.diagnostics[i], i + 1, world(i + 1), aliases, i + 1 < n, succeeded)
  {
    EndsIff(world, aliases, n);
    RunConsistent(world, aliases);
    var s := Run(world, aliases).state;
    TurnAt(world, aliases, n);
    Judged(world(n), aliases);
    forall i: nat | 1 <= i < n ensures !Succeeds(world(i), aliases) {
      EarlierAttempt(world, aliases, n, i);
    }
    forall i | 0 <= i < |s.diagnostics|
      ensures Reports(s.diagnostics[i], i + 1, world(i + 1), aliases, i + 1 < n, Succeeds(world(n), aliases))
    {
      TurnAt(world, aliases, i + 1);
      EarlierAttempt(world, aliases, n, i + 1);
      DescribedIsReported(s.diagnostics[i], i + 1, world(i + 1), aliases, i + 1 < n, Succeeds(world(n), aliases));
    }
  }

  /** What the next generation hears of a failed attempt: the error of the database, the complaint
      of a checker, or that the result was empty. */
  lemma RoundFeedback<V>(s: State<V>, t: State<V>, p: Probe<V>, aliases: seq<string>)
    requires Round(s, Turn(p.generation, Judge(p, aliases))) == Next(t) && ShouldRetry(t)
    ensures t.retryFeedback.Some?
    ensures Passes(p) && p.execution.RetryableError? ==> t.retryFeedback == Some(p.execution.text)
    ensures forall text :: Complains(p, aliases, text) ==> t.retryFeedback == Some(text)
    ensures ReturnsEmpty(p) ==> t.retryFeedback == Some(EMPTY_RESULT)
  {
    Judged(p, aliases);
  }

  /** A run without an error returns rows that all carry the required aliases, or
      nothing at all; a run with an error always carries a failure record. */
  lemma ResultOrFailure<V>(world: nat -> Probe<V>, aliases: seq<string>)
    requires Run(world, aliases).Next?
    ensures
      var s := Run(world, aliases).state;
      && (s.error.Some? ==> s.result.None? && s.failure.Some? && !s.failure.value.dependent)
      && (s.error.None? ==> s.result.Some? && EveryRowHas(s.result.value, aliases) && s.failure == None)
      && (s.error.None? ==> (s.emptyReason.Some? <==> IsEmpty(s.result.value)))
  {
    RunEnds(world, aliases);
    var n := Run(world, aliases).state.attemptCount;
    RunLeaves(world, aliases, n);
    if ReturnsRows(world(n)) {
      RowsLackNothing(world(n), aliases);
    }
  }

  /** A run ends with the empty-result marker as its error exactly when all three attempts generate,
      the first two ask for a retry, and a checker answers the third with that very text. */
  lemma EndsInEmptyResultIff<V>(world: nat -> Probe<V>, aliases: seq<string>)
    ensures Run(world, aliases).Next? && Run(world, aliases).state.error == Some(EMPTY_RESULT) <==>
      Reaches(world, aliases, 3) && world(3).generation.Some? && Complains(world(3), aliases, EMPTY_RESULT)
  {
    if Run(world, aliases).Next? && Run(world, aliases).state.error == Some(EMPTY_RESULT) {
      var n := Run(world, aliases).state.attemptCount;
      RunEnds(world, aliases);
      FinalState(world, aliases);
      Judged(world(n), aliases);
    } else if Reaches(world, aliases, 3) && world(3).generation.Some? && Complains(world(3), aliases, EMPTY_RESULT) {
      assert EndsAt(world, aliases, 3);
      RunLeaves(world, aliases, 3);
    }
  }

  /** A contract checker that answers with the reserved text makes a run end in it. */
  lemma ReservedTextExample() returns (world: nat -> Probe<int>)
    ensures Run(world, []).Next? && Run(world, []).state.error == Some(EMPTY_RESULT)
  {
    world := (n: nat) => Probe(Some("q"), Allowed, Violated(EMPTY_RESULT), ConnectionError, Satisfied);
    EndsInEmptyResultIff(world, []);
  }
}
