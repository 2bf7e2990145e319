/**
  The restart-safe execution service (`execution_recovery.py`): what each operation decides
  from a loaded ledger, and the write it then asks the store for.
 */
module ExecutionRecovery {
  import opened Wrappers
  import opened Ordering
  import opened ExecutionState

  datatype Error =
    | ExecutionBindingMismatch | StaleCompiledPrompt | ExecutionRecordMismatch
    | DuplicateExecution | ExecutionNotFound | BlindRetryForbidden | IntakeReplayForbidden
    | WriteNotAuthorized | RuntimeOutcomeUncertain | ObservationPersistenceFailed | IntakePersistenceFailed

  /** The outcome of `CodexResultIntake.process`, which this model does not define. */
  datatype IntakeOutcome = Accepted(resultJson: string) | Refused(reasons: seq<string>)

  /** `_validate_compiled_binding`. */
  predicate BindingMatches(env: Environment, c: CompiledPrompt, b: Binding) {
    && c.requestId == b.requestId && c.contextFingerprint == b.contextFingerprint
    && c.missionId == b.missionId && c.workflowGeneration == b.workflowGeneration
    && c.role == b.role && c.subject == b.subject
    && env.casefold(c.observedCommit) == env.casefold(b.expectedCommit)
    && env.pathKey(b.cwd) == env.pathKey(WorkingRoot(c.worktreePath, c.repositoryRoot))
  }

  /** `_require_compiled`. */
  predicate CompiledMatches(env: Environment, r: Record, c: CompiledPrompt) {
    && r.Id() == ExecutionId(env, c)
    && r.identity.semanticFingerprint == SemanticFingerprint(env, c)
    && r.identity.promptFingerprint == env.promptDigest(c)
  }

  /** `_require_exact_record`. */
  function ExactRecord(env: Environment, r: Record, c: CompiledPrompt, b: Binding, x: Executable): Result<Record, Error> {
    if !CompiledMatches(env, r, c) then Err(StaleCompiledPrompt)
    else if !BindingMatches(env, c, b) then Err(ExecutionBindingMismatch)
    else if r.identity.executable != x || env.pathKey(r.identity.cwd) != env.pathKey(b.cwd) || r.identity.expectedCommit != env.casefold(b.expectedCommit)
    then Err(ExecutionRecordMismatch)
    else Ok(r)
  }

  datatype PlanDecision = Existing(record: Record) | Fresh(record: Record) | PlanRefused(error: Error)

  function PlannedRecord(env: Environment, c: CompiledPrompt, b: Binding, x: Executable, now: int): Record {
    var identity := Identity(
      ExecutionId(env, c), SemanticFingerprint(env, c), c.requestId, c.contextFingerprint,
      c.missionId, c.workflowGeneration, c.role, c.subject,
      c.repositoryRoot, c.worktreePath, b.cwd, env.casefold(b.expectedCommit),
      env.promptDigest(c), c.expectedResultContract, x, now);
    Record(identity, Planned, now, None, None, None, [])
  }

  /** `plan`, up to its write. */
  function DecidePlan(env: Environment, l: Ledger, c: CompiledPrompt, b: Binding, x: Executable, now: int): PlanDecision {
    if !BindingMatches(env, c, b) then PlanRefused(ExecutionBindingMismatch)
    else
      var existing := Find(l, ExecutionId(env, c));
      if existing.Some? then
        var exact := ExactRecord(env, existing.value, c, b, x);
        if exact.Ok? then Existing(exact.value) else PlanRefused(exact.error)
      else if exists r | r in l :: r.identity.semanticFingerprint == SemanticFingerprint(env, c) || r.identity.requestId == c.requestId
      then PlanRefused(DuplicateExecution)
      else Fresh(PlannedRecord(env, c, b, x, now))
  }

  /** `execute`, up to its first write: the record marked RUNNING. */
  function DecideRun(env: Environment, l: Ledger, id: string, c: CompiledPrompt, b: Binding, now: int): Result<Record, Error> {
    if !BindingMatches(env, c, b) then Err(ExecutionBindingMismatch)
    else
      var found := Find(l, id);
      if found.None? then Err(ExecutionNotFound)
      else
        var exact := ExactRecord(env, found.value, c, b, found.value.identity.executable);
        if exact.Err? then Err(exact.error)
        else if found.value.status != Planned then Err(BlindRetryForbidden)
        else Ok(found.value.(status := Running, updatedAt := now))
  }

  /** `_observation_status`. */
  function ObservationStatus(o: Observation): (Status, seq<string>) {
    if o.timedOut || o.interrupted then (Interrupted, ["execution timed out or was interrupted"])
    else if o.processId.None? || o.exitCode.None? || o.exitCode != Some(0) || o.toolFailureObserved
    then (Failed, ["transport did not complete successfully"])
    else (Observed, [])
  }

  /** The record with what the runtime reported. */
  function RecordedObservation(r: Record, o: Observation, now: int): Record {
    var (status, reasons) := ObservationStatus(o);
    r.(status := status, updatedAt := now, observation := Some(o), failureReasons := reasons)
  }

  /** `execute`, after the runtime returned, up to its second write. */
  function DecideObservation(l: Ledger, id: string, o: Observation, now: int): Option<Record> {
    var found := Find(l, id);
    if found.None? then None else Some(RecordedObservation(found.value, o, now))
  }

  /** The record with the outcome of its intake. */
  function RecordedIntake(env: Environment, r: Record, outcome: IntakeOutcome, now: int): Record {
    match outcome
    case Accepted(json) =>
      r.(status := Validated, updatedAt := now, resultJson := Some(json), resultFingerprint := Some(env.resultDigest(json)))
    case Refused(reasons) =>
      r.(status := Failed, updatedAt := now, failureReasons := reasons)
  }

  /** `replay_intake`, up to its write. */
  function DecideIntake(env: Environment, l: Ledger, id: string, c: CompiledPrompt, outcome: IntakeOutcome, now: int): Result<Record, Error> {
    var found := Find(l, id);
    if found.None? then Err(ExecutionNotFound)
    else if !CompiledMatches(env, found.value, c) then Err(StaleCompiledPrompt)
    else if found.value.status != Observed || found.value.observation.None? then Err(IntakeReplayForbidden)
    else Ok(RecordedIntake(env, found.value, outcome, now))
  }

  /** The store's test before a write: exact authorisation, a valid candidate, a legal transition. */
  predicate Authorized(env: Environment, stored: Ledger, before: Ledger, after: Ledger, operation: Operation) {
    stored == before && ValidLedger(env, after) && ValidTransition(before, after, operation)
  }

  // ---------- inspect_restart ----------

  datatype Disposition =
    | SafeNotStarted | IntakeReplayAvailable | ValidatedNoRerun
    | NewRequestRequired | RecoveryRequired | StaleOrInconsistent

  datatype Inspection = Inspection(disposition: Disposition, canExecute: bool, canReplay: bool, operator: bool)

  /** `_git_exact`. */
  predicate GitExact(env: Environment, actual: GitObservation, expected: string) {
    actual.error.None? && actual.headCommit == Some(env.casefold(expected)) && actual.clean == Some(true)
    && actual.changedPaths == Some([])
  }

  /** `_git_same`. */
  predicate GitSame(actual: GitObservation, expected: Option<GitObservation>) {
    && expected.Some?
    && actual.error.None? && expected.value.error.None?
    && actual.headCommit == expected.value.headCommit
    && actual.clean == expected.value.clean && actual.clean.Some?
    && actual.changedPaths == expected.value.changedPaths && actual.changedPaths.Some?
  }

  /** `revalidate_completed`: `revalidated` is the canonical result the intake accepts now, if any. */
  predicate Revalidates(env: Environment, r: Record, revalidated: Option<string>) {
    r.resultJson.Some? && r.resultFingerprint.Some? && revalidated == r.resultJson
    && env.resultDigest(revalidated.value) == r.resultFingerprint.value
  }

  /** `inspect_restart` on a record that was found. */
  function InspectRestart(env: Environment, r: Record, git: GitObservation, c: CompiledPrompt, b: Binding, x: Executable,
                          validationContext: bool, revalidated: Option<string>): Inspection
  {
    if !BindingMatches(env, c, b) || ExactRecord(env, r, c, b, x).Err? then
      Inspection(StaleOrInconsistent, false, false, false)
    else
      var baselineClean := GitExact(env, git, r.identity.expectedCommit);
      match r.status
      case Planned =>
        Inspection(if baselineClean then SafeNotStarted else StaleOrInconsistent, baselineClean, false, false)
      case Running =>
        Inspection(if baselineClean then NewRequestRequired else RecoveryRequired, false, false, !baselineClean)
      case Observed =>
        var replayable := r.observation.Some? && GitSame(git, r.observation.value.gitAfter);
        Inspection(if replayable then IntakeReplayAvailable else RecoveryRequired, false, replayable, !replayable)
      case Validated =>
        if !validationContext || r.observation.None? || !Revalidates(env, r, revalidated) then
          Inspection(StaleOrInconsistent, false, false, false)
        else
          Inspection(if GitSame(git, r.observation.value.gitAfter) then ValidatedNoRerun else StaleOrInconsistent,
                     false, false, false)
      case _ =>
        var cleanAfter := r.observation.Some? && GitSame(git, r.observation.value.gitAfter) && baselineClean;
        Inspection(if cleanAfter then NewRequestRequired else RecoveryRequired, false, false, !cleanAfter)
  }

  // ---------- plan builds what validation recomputes ----------

  /** A planned record carries the fingerprints that `validate_record` recomputes from it. */
  lemma PlannedRecordIsGenuine(env: Environment, c: CompiledPrompt, b: Binding, x: Executable, now: int)
    requires BindingMatches(env, c, b)
    requires env.recordShape(PlannedRecord(env, c, b, x, now))
    ensures ValidRecord(env, PlannedRecord(env, c, b, x, now))
    ensures CompiledMatches(env, PlannedRecord(env, c, b, x, now), c)
    ensures ExactRecord(env, PlannedRecord(env, c, b, x, now), c, b, x).Ok?
  {
    assert RecordSemanticFingerprint(env, PlannedRecord(env, c, b, x, now)) == SemanticFingerprint(env, c);
  }

  lemma ValidLedgerIsOrdered(env: Environment, l: Ledger)
    requires ValidLedger(env, l)
    ensures IdOrdered(l)
  {
  }

  ghost predicate Unrelated(a: Record, b: Record) {
    a.identity.semanticFingerprint != b.identity.semanticFingerprint && a.identity.requestId != b.identity.requestId
  }

  lemma {:induction false} InsertedStaysUnique(env: Environment, l: Ledger, r: Record)
    requires IdOrdered(l) && Find(l, r.Id()).None?
    requires forall i, j :: 0 <= i < j < |l| ==> Unrelated(l[i], l[j])
    requires forall x :: x in l ==> Unrelated(x, r)
    ensures forall i, j :: 0 <= i < j < |WithRecord(l, r)| ==> Unrelated(WithRecord(l, r)[i], WithRecord(l, r)[j])
  {
    if l == [] {
    } else if StringLeq(r.Id(), l[0].Id()) {
      assert l[0].Id() != r.Id();
      forall j | 0 <= j < |l|
        ensures Unrelated(r, l[j])
      {
        assert Unrelated(l[j], r);
      }
    } else {
      assert l[0].Id() != r.Id();
      InsertedStaysUnique(env, l[1..], r);
      assert IdOrdered(l[1..]);
      WithRecordFinds(l[1..], r);
      var rest := WithRecord(l[1..], r);
      forall j | 0 <= j < |rest|
        ensures Unrelated(l[0], rest[j])
      {
        assert rest[j] in rest;
        if rest[j] != r {
          var k :| 0 <= k < |l[1..]| && l[1..][k] == rest[j];
          assert Unrelated(l[0], l[k + 1]);
        }
      }
    }
  }

  lemma FreshIsUnrelated(env: Environment, l: Ledger, c: CompiledPrompt, b: Binding, x: Executable, now: int)
    requires DecidePlan(env, l, c, b, x, now).Fresh?
    ensures var r := PlannedRecord(env, c, b, x, now);
      BindingMatches(env, c, b) && Find(l, r.Id()).None? && forall other :: other in l ==> Unrelated(other, r)
  {
  }

  lemma InsertedIsValid(env: Environment, l: Ledger, r: Record)
    requires ValidLedger(env, l) && ValidRecord(env, r) && Find(l, r.Id()).None?
    requires forall other :: other in l ==> Unrelated(other, r)
    ensures ValidLedger(env, WithRecord(l, r))
  {
    hide ValidRecord;
    hide StringLeq;
    WithRecordFinds(l, r);
    InsertedStaysUnique(env, l, r);
    hide WithRecord;
    hide Find;
  }

  /** A fresh plan is a write the store accepts when nothing else has changed the ledger. */
  lemma FreshPlanIsAuthorized(env: Environment, l: Ledger, c: CompiledPrompt, b: Binding, x: Executable, now: int)
    requires ValidLedger(env, l) && DecidePlan(env, l, c, b, x, now).Fresh?
    requires env.recordShape(PlannedRecord(env, c, b, x, now))
    ensures Authorized(env, l, l, WithRecord(l, PlannedRecord(env, c, b, x, now)), PlanWrite)
  {
    var r := PlannedRecord(env, c, b, x, now);
    FreshIsUnrelated(env, l, c, b, x, now);
    PlannedRecordIsGenuine(env, c, b, x, now);
    ValidLedgerIsOrdered(env, l);
    WithRecordTouches(l, r, PlanWrite);
    InsertedIsValid(env, l, r);
    hide ValidLedger;
    hide ValidRecord;
    hide ValidTransition;
    hide WithRecord;
  }

  /** Planning again, with the same prompt, binding and executable, returns the record that is there. */
  lemma PlanAgainFindsTheRecord(env: Environment, l: Ledger, c: CompiledPrompt, b: Binding, x: Executable, now: int, later: int)
    requires ValidLedger(env, l) && DecidePlan(env, l, c, b, x, now).Fresh?
    ensures var r := PlannedRecord(env, c, b, x, now);
      DecidePlan(env, WithRecord(l, r), c, b, x, later) == Existing(r)
  {
    ValidLedgerIsOrdered(env, l);
    WithRecordFinds(l, PlannedRecord(env, c, b, x, now));
    hide WithRecord;
    hide ValidLedger;
  }

  // ---------- which decided writes the store accepts ----------

  lemma FoundIsValid(env: Environment, l: Ledger, id: string)
    requires ValidLedger(env, l) && Find(l, id).Some?
    ensures ValidRecord(env, Find(l, id).value) && Find(l, id).value.Id() == id && IdOrdered(l)
  {
    ValidLedgerIsOrdered(env, l);
  }

  /** A lawful change of status is authorised if and only if the record it writes is valid. */
  lemma ReplacementIsAuthorized(env: Environment, l: Ledger, r: Record, operation: Operation)
    requires ValidLedger(env, l) && operation != PlanWrite && Find(l, r.Id()).Some?
    requires Find(l, r.Id()).value.identity == r.identity && Rule(operation, Find(l, r.Id()).value.status, r.status)
    ensures Authorized(env, l, l, WithRecord(l, r), operation) <==> ValidRecord(env, r)
  {
    ValidLedgerIsOrdered(env, l);
    ReplacementIsValid(env, l, r);
    WithRecordTouches(l, r, operation);
    hide ValidLedger;
    hide ValidRecord;
    hide ValidTransition;
  }

  /** MARK_RUNNING on the loaded ledger fails only over the shape of the record or a clock that ran back. */
  lemma RunIsAuthorizedExactly(env: Environment, l: Ledger, id: string, c: CompiledPrompt, b: Binding, now: int)
    requires ValidLedger(env, l) && DecideRun(env, l, id, c, b, now).Ok?
    ensures var r := DecideRun(env, l, id, c, b, now).value;
      Authorized(env, l, l, WithRecord(l, r), MarkRunning) <==> env.recordShape(r) && r.identity.createdAt <= now
  {
    FoundIsValid(env, l, id);
    ReplacementIsAuthorized(env, l, DecideRun(env, l, id, c, b, now).value, MarkRunning);
    hide Authorized;
    hide ValidLedger;
    hide WithRecord;
  }

  lemma RecordedObservationIsValid(env: Environment, r: Record, o: Observation, now: int)
    requires ValidRecord(env, r) && r.status == Running
    ensures Rule(RecordObservation, r.status, RecordedObservation(r, o, now).status)
    ensures ValidRecord(env, RecordedObservation(r, o, now))
      <==> env.recordShape(RecordedObservation(r, o, now)) && r.identity.createdAt <= now && ObservationBound(env, r, o)
  {
    hide WorkingRoot;
    assert RecordSemanticFingerprint(env, RecordedObservation(r, o, now)) == RecordSemanticFingerprint(env, r);
    hide RecordSemanticFingerprint;
  }

  lemma RecordedIntakeIsValid(env: Environment, r: Record, outcome: IntakeOutcome, now: int)
    requires ValidRecord(env, r) && r.status == Observed
    ensures Rule(RecordIntake, r.status, RecordedIntake(env, r, outcome, now).status)
    ensures ValidRecord(env, RecordedIntake(env, r, outcome, now))
      <==> env.recordShape(RecordedIntake(env, r, outcome, now)) && r.identity.createdAt <= now
           && (outcome.Refused? ==> outcome.reasons != [] && "" !in outcome.reasons)
  {
    hide WorkingRoot;
    assert RecordSemanticFingerprint(env, RecordedIntake(env, r, outcome, now)) == RecordSemanticFingerprint(env, r);
    hide RecordSemanticFingerprint;
  }

  /** Every observation that is bound to its running record can be recorded, whatever the runtime reports in it. */
  lemma ObservationIsAuthorizedExactly(env: Environment, l: Ledger, id: string, o: Observation, now: int)
    requires ValidLedger(env, l) && Find(l, id).Some? && Find(l, id).value.status == Running
    ensures var r := DecideObservation(l, id, o, now).value;
      Authorized(env, l, l, WithRecord(l, r), RecordObservation)
      <==> env.recordShape(r) && r.identity.createdAt <= now && ObservationBound(env, Find(l, id).value, o)
  {
    hide Authorized;
    hide ValidLedger;
    hide ValidRecord;
    hide ObservationBound;
    hide WithRecord;
    FoundIsValid(env, l, id);
    RecordedObservationIsValid(env, Find(l, id).value, o, now);
    ReplacementIsAuthorized(env, l, RecordedObservation(Find(l, id).value, o, now), RecordObservation);
  }

  /** An intake outcome can be recorded unless it is a refusal without reasons. */
  lemma IntakeIsAuthorizedExactly(env: Environment, l: Ledger, id: string, c: CompiledPrompt, outcome: IntakeOutcome, now: int)
    requires ValidLedger(env, l) && DecideIntake(env, l, id, c, outcome, now).Ok?
    ensures var r := DecideIntake(env, l, id, c, outcome, now).value;
      Authorized(env, l, l, WithRecord(l, r), RecordIntake)
      <==> env.recordShape(r) && r.identity.createdAt <= now && (outcome.Refused? ==> outcome.reasons != [] && "" !in outcome.reasons)
  {
    hide Authorized;
    hide ValidLedger;
    hide ValidRecord;
    hide WithRecord;
    FoundIsValid(env, l, id);
    RecordedIntakeIsValid(env, Find(l, id).value, outcome, now);
    ReplacementIsAuthorized(env, l, RecordedIntake(env, Find(l, id).value, outcome, now), RecordIntake);
  }

  // ---------- what the fingerprints decide ----------

  ghost predicate Injective<A(!new), B(!new)>(f: A -> B) {
    forall a, b :: f(a) == f(b) ==> a == b
  }

  ghost predicate InjectiveDigests(env: Environment) {
    Injective(env.semanticDigest) && Injective(env.identityDigest)
  }

  /** Both paths are given and the same, or neither is given. */
  predicate SamePlace(env: Environment, a: Option<string>, b: Option<string>) {
    (a.None? && b.None?) || (a.Some? && b.Some? && env.pathKey(a.value) == env.pathKey(b.value))
  }

  /** The compiled prompts make the same request and ask for the same work, as far as the environment tells paths, commits and texts apart. */
  predicate SameExecution(env: Environment, c: CompiledPrompt, c0: CompiledPrompt) {
    && c.requestId == c0.requestId && c.contextFingerprint == c0.contextFingerprint
    && c.missionId == c0.missionId && c.workflowGeneration == c0.workflowGeneration
    && c.role == c0.role && c.subject == c0.subject
    && env.pathKey(c.repositoryRoot) == env.pathKey(c0.repositoryRoot) && SamePlace(env, c.worktreePath, c0.worktreePath)
    && env.casefold(c.observedCommit) == env.casefold(c0.observedCommit)
    && c.expectedResultContract == c0.expectedResultContract && env.promptDigest(c) == env.promptDigest(c0)
  }

  lemma EqualIdsMeanEqualWork(env: Environment, c: CompiledPrompt, c0: CompiledPrompt)
    requires InjectiveDigests(env) && ExecutionId(env, c) == ExecutionId(env, c0)
    ensures SameExecution(env, c, c0)
  {
    var p, q := IdentityPayload(c.requestId, SemanticFingerprint(env, c)), IdentityPayload(c0.requestId, SemanticFingerprint(env, c0));
    assert env.identityDigest(p) == env.identityDigest(q);
    assert p == q;
    assert env.semanticDigest(WorkOf(env, c)) == env.semanticDigest(WorkOf(env, c0));
  }

  /** The record is of the work that the compiled prompt asks for. */
  predicate Records(env: Environment, r: Record, c: CompiledPrompt) {
    var i := r.identity;
    && i.contextFingerprint == c.contextFingerprint && i.missionId == c.missionId && i.workflowGeneration == c.workflowGeneration
    && i.role == c.role && i.subject == c.subject
    && env.pathKey(i.repositoryRoot) == env.pathKey(c.repositoryRoot) && SamePlace(env, i.worktreePath, c.worktreePath)
    && i.expectedCommit == env.casefold(c.observedCommit)
    && i.expectedResultContract == c.expectedResultContract && i.promptFingerprint == env.promptDigest(c)
  }

  /** The record was made for the request and the work of the compiled prompt. */
  predicate MadeFor(env: Environment, r: Record, c: CompiledPrompt) {
    r.identity.requestId == c.requestId && Records(env, r, c)
  }

  /** The binding names what the record was planned for. */
  predicate BindsTo(env: Environment, b: Binding, r: Record) {
    && b.requestId == r.identity.requestId && b.contextFingerprint == r.identity.contextFingerprint
    && b.missionId == r.identity.missionId && b.workflowGeneration == r.identity.workflowGeneration
    && b.role == r.identity.role && b.subject == r.identity.subject
    && env.casefold(b.expectedCommit) == r.identity.expectedCommit
    && env.pathKey(b.cwd) == env.pathKey(r.identity.cwd)
  }

  /** The binding names the worktree, or the root of the repository where there is none. */
  predicate InPlace(env: Environment, b: Binding, c: CompiledPrompt) {
    match c.worktreePath
    case Some(path) => env.pathKey(b.cwd) == env.pathKey(if path == "" then c.repositoryRoot else path)
    case None => env.pathKey(b.cwd) == env.pathKey(c.repositoryRoot)
  }

  /** The three fingerprints of a valid record match a prompt if and only if it was made for that prompt. */
  lemma MatchMeansMadeFor(env: Environment, r: Record, c: CompiledPrompt)
    requires InjectiveDigests(env) && ValidRecord(env, r)
    ensures CompiledMatches(env, r, c) <==> MadeFor(env, r, c)
    ensures r.Id() == ExecutionId(env, c) <==> MadeFor(env, r, c)
  {
    hide StatusPayload;
    hide ObservationBound;
    hide WorkingRoot;
    var p, q := IdentityPayload(r.identity.requestId, r.identity.semanticFingerprint), IdentityPayload(c.requestId, SemanticFingerprint(env, c));
    if r.Id() == ExecutionId(env, c) {
      assert env.identityDigest(p) == env.identityDigest(q);
      assert p == q;
      assert env.semanticDigest(RecordedWork(env, r)) == env.semanticDigest(WorkOf(env, c));
    }
  }

  lemma ExactMeansBound(env: Environment, r: Record, c: CompiledPrompt, b: Binding, x: Executable)
    requires InjectiveDigests(env) && ValidRecord(env, r)
    ensures BindingMatches(env, c, b) && ExactRecord(env, r, c, b, x).Ok?
      <==> MadeFor(env, r, c) && BindsTo(env, b, r) && x == r.identity.executable
           && InPlace(env, b, c)
  {
    MatchMeansMadeFor(env, r, c);
    hide CompiledMatches;
    hide ValidRecord;
  }

  /** `execute` goes ahead exactly with a planned record that was made for its prompt and its binding. */
  lemma RunsExactlyWhatWasPlanned(env: Environment, l: Ledger, id: string, c: CompiledPrompt, b: Binding, now: int)
    requires InjectiveDigests(env) && ValidLedger(env, l)
    ensures DecideRun(env, l, id, c, b, now).Ok?
      <==> Find(l, id).Some? && Find(l, id).value.status == Planned
           && MadeFor(env, Find(l, id).value, c) && BindsTo(env, b, Find(l, id).value)
           && InPlace(env, b, c)
  {
    if Find(l, id).Some? {
      FoundIsValid(env, l, id);
      hide ValidLedger;
      hide ValidRecord;
      hide MadeFor;
      hide BindsTo;
      hide BindingMatches;
      ExactMeansBound(env, Find(l, id).value, c, b, Find(l, id).value.identity.executable);
    }
  }

  /** `plan` makes a record exactly when no record has the request and none does the work. */
  lemma PlansExactlyWhatIsNew(env: Environment, l: Ledger, c: CompiledPrompt, b: Binding, x: Executable, now: int)
    requires InjectiveDigests(env) && ValidLedger(env, l) && BindingMatches(env, c, b)
    ensures DecidePlan(env, l, c, b, x, now).Fresh?
      <==> forall r :: r in l ==> r.identity.requestId != c.requestId && !Records(env, r, c)
    ensures DecidePlan(env, l, c, b, x, now).Existing?
      <==> exists r :: r in l && MadeFor(env, r, c) && BindsTo(env, b, r) && x == r.identity.executable
  {
    hide BindingMatches;
    forall r | r in l
      ensures r.identity.semanticFingerprint == SemanticFingerprint(env, c) <==> Records(env, r, c)
      ensures r.Id() == ExecutionId(env, c) <==> MadeFor(env, r, c)
    {
      assert ValidRecord(env, r);
      MatchMeansMadeFor(env, r, c);
      assert Injective(env.semanticDigest);
    }
    var existing := Find(l, ExecutionId(env, c));
    if existing.Some? {
      FoundIsValid(env, l, ExecutionId(env, c));
      ExactMeansBound(env, existing.value, c, b, x);
    }
  }

  // ---------- what a restart inspection says ----------

  /** The working tree stands at a commit and nothing in it has changed. */
  function Untouched(commit: string): GitObservation {
    GitObservation(Some(commit), Some(true), None, Some([]))
  }

  /** The working tree is as the observation left it, and both observations are complete. */
  predicate LeftAsObserved(r: Record, git: GitObservation) {
    r.observation.Some? && r.observation.value.gitAfter == Some(git) && git.error.None? && git.clean.Some? && git.changedPaths.Some?
  }

  lemma GitTestsMean(env: Environment, r: Record, git: GitObservation, commit: string)
    ensures GitExact(env, git, commit) <==> git == Untouched(env.casefold(commit))
    ensures LeftAsObserved(r, git) <==> r.observation.Some? && GitSame(git, r.observation.value.gitAfter)
  {
  }

  predicate Bound(env: Environment, r: Record, c: CompiledPrompt, b: Binding, x: Executable) {
    MadeFor(env, r, c) && BindsTo(env, b, r) && x == r.identity.executable
    && InPlace(env, b, c)
  }

  /** The execution left nothing behind: its working tree stands untouched at the commit it was planned for. */
  predicate NothingLeft(env: Environment, r: Record, git: GitObservation) {
    git == Untouched(env.casefold(r.identity.expectedCommit))
    && (r.status == Running || ((r.status == Failed || r.status == Interrupted) && LeftAsObserved(r, git)))
  }

  /**
    Every verdict of a restart inspection, by what it means: execution is offered only at an untouched
    baseline, a replay or a completed result only where the tree is as the runtime left it, a new request
    only where nothing was left behind, and the operator is called exactly for a recovery.
   */
  lemma InspectionVerdicts(env: Environment, r: Record, git: GitObservation, c: CompiledPrompt, b: Binding, x: Executable,
                           validationContext: bool, revalidated: Option<string>)
    requires InjectiveDigests(env) && ValidRecord(env, r)
    ensures var i := InspectRestart(env, r, git, c, b, x, validationContext, revalidated);
      var bound := Bound(env, r, c, b, x);
      && (i.canExecute <==> bound && r.status == Planned && git == Untouched(env.casefold(r.identity.expectedCommit)))
      && (i.canReplay <==> bound && r.status == Observed && LeftAsObserved(r, git))
      && (i.disposition == ValidatedNoRerun <==>
            bound && r.status == Validated && validationContext && revalidated == r.resultJson && LeftAsObserved(r, git))
      && (i.disposition == NewRequestRequired <==> bound && NothingLeft(env, r, git))
      && (i.operator <==> bound && r.status != Planned && r.status != Validated && !NothingLeft(env, r, git) && !i.canReplay)
      && (i.disposition == SafeNotStarted <==> i.canExecute)
      && (i.disposition == IntakeReplayAvailable <==> i.canReplay)
      && (i.disposition == RecoveryRequired <==> i.operator)
  {
    GitTestsMean(env, r, git, r.identity.expectedCommit);
    ExactMeansBound(env, r, c, b, x);
    hide GitExact;
    hide GitSame;
    hide BindingMatches;
    hide ExactRecord;
    hide MadeFor;
    hide BindsTo;
    hide ObservationBound;
    hide RecordSemanticFingerprint;
    hide RecordExecutionId;
    hide WorkingRoot;
  }
}
