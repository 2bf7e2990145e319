/**
  Durable facts about Codex executions: `execution_state.py`, and the transition rules of
  the ledger store (`execution_state_store.py`).
 */
module ExecutionState {
  import opened Wrappers
  import opened Ordering

  datatype Status = Planned | Running | Observed | Validated | Failed | Interrupted

  datatype CompiledPrompt = CompiledPrompt(
    requestId: string, contextFingerprint: string, missionId: string, workflowGeneration: nat,
    role: string, subject: string, repositoryRoot: string, worktreePath: Option<string>,
    observedCommit: string, expectedResultContract: string, promptText: string)

  datatype Binding = Binding(
    requestId: string, contextFingerprint: string, missionId: string, workflowGeneration: nat,
    role: string, subject: string, cwd: string, expectedCommit: string)

  datatype Executable = Executable(path: string, version: string, sha256: string)

  datatype GitObservation = GitObservation(
    headCommit: Option<string>, clean: Option<bool>, error: Option<string>, changedPaths: Option<seq<string>>)

  datatype Observation = Observation(
    requestId: string, contextFingerprint: string, cwd: string,
    executablePath: Option<string>, executableVersion: Option<string>, executableSha256: Option<string>,
    processId: Option<int>, exitCode: Option<int>,
    timedOut: bool, interrupted: bool, toolFailureObserved: bool,
    gitAfter: Option<GitObservation>)

  /** The fields of a record that no transition may change: the store's `_identity` tuple. */
  datatype Identity = Identity(
    executionId: string, semanticFingerprint: string, requestId: string, contextFingerprint: string,
    missionId: string, workflowGeneration: nat, role: string, subject: string,
    repositoryRoot: string, worktreePath: Option<string>, cwd: string, expectedCommit: string,
    promptFingerprint: string, expectedResultContract: string, executable: Executable, createdAt: int)

  datatype Record = Record(
    identity: Identity, status: Status, updatedAt: int,
    observation: Option<Observation>,
    resultJson: Option<string>, resultFingerprint: Option<string>, failureReasons: seq<string>)
  {
    function Id(): string {
      identity.executionId
    }
  }

  type Ledger = seq<Record>

  datatype SemanticPayload = SemanticPayload(
    contextFingerprint: string, missionId: string, workflowGeneration: nat, role: string, subject: string,
    rootKey: string, worktreeKey: Option<string>, commit: string, contract: string, promptFingerprint: string)

  datatype IdentityPayload = IdentityPayload(requestId: string, semanticFingerprint: string)

  /**
    What the model does not define: the digests of canonical JSON, the path key, case
    folding, and the checks of a record's strings against fixed patterns and size limits.
   */
  datatype Environment = Environment(
    casefold: string -> string,
    pathKey: string -> string,
    promptDigest: CompiledPrompt -> string,
    semanticDigest: SemanticPayload -> string,
    identityDigest: IdentityPayload -> string,
    resultDigest: string -> string,
    recordShape: Record -> bool)

  // ---------- fingerprints ----------

  function KeyOf(env: Environment, path: Option<string>): Option<string> {
    if path.Some? then Some(env.pathKey(path.value)) else None
  }

  /** The work a compiled prompt asks for: the payload of its semantic fingerprint. */
  function WorkOf(env: Environment, c: CompiledPrompt): SemanticPayload {
    SemanticPayload(
      c.contextFingerprint, c.missionId, c.workflowGeneration, c.role, c.subject,
      env.pathKey(c.repositoryRoot), KeyOf(env, c.worktreePath), env.casefold(c.observedCommit),
      c.expectedResultContract, env.promptDigest(c))
  }

  /** `semantic_execution_fingerprint`, from a compiled prompt. */
  function SemanticFingerprint(env: Environment, c: CompiledPrompt): string {
    env.semanticDigest(WorkOf(env, c))
  }

  /** `derive_execution_id`. */
  function ExecutionId(env: Environment, c: CompiledPrompt): string {
    env.identityDigest(IdentityPayload(c.requestId, SemanticFingerprint(env, c)))
  }

  /** The same payload, from a stored record. */
  function RecordedWork(env: Environment, r: Record): SemanticPayload {
    SemanticPayload(
      r.identity.contextFingerprint, r.identity.missionId, r.identity.workflowGeneration, r.identity.role, r.identity.subject,
      env.pathKey(r.identity.repositoryRoot), KeyOf(env, r.identity.worktreePath), r.identity.expectedCommit,
      r.identity.expectedResultContract, r.identity.promptFingerprint)
  }

  /** `_record_semantic_fingerprint`: the fingerprint, recomputed from a stored record. */
  function RecordSemanticFingerprint(env: Environment, r: Record): string {
    env.semanticDigest(RecordedWork(env, r))
  }

  function RecordExecutionId(env: Environment, r: Record): string {
    env.identityDigest(IdentityPayload(r.identity.requestId, r.identity.semanticFingerprint))
  }

  // ---------- validation ----------

  /** `worktree_path or repository_root`. */
  function WorkingRoot(worktreePath: Option<string>, repositoryRoot: string): string {
    if worktreePath.Some? && worktreePath.value != "" then worktreePath.value else repositoryRoot
  }

  /** `_validate_status_payload`, first part: which payload goes with which status. */
  predicate StatusPayload(r: Record) {
    var bare := r.resultJson.None? && r.resultFingerprint.None?;
    match r.status
    case Planned => r.observation.None? && bare && r.failureReasons == []
    case Running => r.observation.None? && bare && r.failureReasons == []
    case Observed => r.observation.Some? && bare && r.failureReasons == []
    case Validated => r.observation.Some? && r.resultJson.Some? && r.resultFingerprint.Some? && r.failureReasons == []
    case Failed => r.observation.Some? && bare && r.failureReasons != []
    case Interrupted => r.observation.Some? && bare && r.failureReasons != []
  }

  predicate ObservationBound(env: Environment, r: Record, o: Observation) {
    && o.requestId == r.identity.requestId && o.contextFingerprint == r.identity.contextFingerprint
    && env.pathKey(o.cwd) == env.pathKey(r.identity.cwd)
    && (o.executablePath.Some? ==> env.pathKey(o.executablePath.value) == env.pathKey(r.identity.executable.path))
    && (o.executableVersion.Some? ==> o.executableVersion.value == r.identity.executable.version)
    && (o.executableSha256.Some? ==> o.executableSha256.value == r.identity.executable.sha256)
  }

  /** `validate_record`. */
  predicate ValidRecord(env: Environment, r: Record) {
    && env.recordShape(r)
    && env.pathKey(r.identity.cwd) == env.pathKey(WorkingRoot(r.identity.worktreePath, r.identity.repositoryRoot))
    && r.identity.semanticFingerprint == RecordSemanticFingerprint(env, r)
    && r.Id() == RecordExecutionId(env, r)
    && r.identity.createdAt <= r.updatedAt
    && (forall reason | reason in r.failureReasons :: reason != "")
    && StatusPayload(r)
    && (r.observation.Some? ==> ObservationBound(env, r, r.observation.value))
    && (r.resultJson.Some? ==> r.resultFingerprint == Some(env.resultDigest(r.resultJson.value)))
  }

  function ExecutionIds(l: Ledger): (ids: seq<string>)
    ensures |ids| == |l| && forall i :: 0 <= i < |l| ==> ids[i] == l[i].Id()
  {
    seq(|l|, i requires 0 <= i < |l| => l[i].Id())
  }

  /** `validate_ledger`. */
  predicate ValidLedger(env: Environment, l: Ledger) {
    && (forall r | r in l :: ValidRecord(env, r))
    && (forall i, j | 0 <= i < j < |l| :: StringLeq(l[i].Id(), l[j].Id()))
    && (forall i, j | 0 <= i < j < |l| ::
          l[i].Id() != l[j].Id() && l[i].identity.semanticFingerprint != l[j].identity.semanticFingerprint
          && l[i].identity.requestId != l[j].identity.requestId)
  }

  // ---------- the ledger as a dictionary ----------

  /** `_find`, and the dictionaries that transition checks build from a ledger. */
  function Find(l: Ledger, id: string): (r: Option<Record>)
    ensures r.Some? ==> r.value in l && r.value.Id() == id
    ensures r.None? <==> forall x :: x in l ==> x.Id() != id
  {
    if l == [] then None
    else if l[0].Id() == id then Some(l[0])
    else Find(l[1..], id)
  }

  /** `_with_record` on a ledger in identifier order: replace the record of that id, or insert it. */
  function WithRecord(l: Ledger, r: Record): Ledger {
    if l == [] then [r]
    else if l[0].Id() == r.Id() then [r] + l[1..]
    else if StringLeq(r.Id(), l[0].Id()) then [r] + l
    else [l[0]] + WithRecord(l[1..], r)
  }

  ghost predicate IdOrdered(l: Ledger) {
    forall i, j :: 0 <= i < j < |l| ==>
      StringLeq(l[i].Id(), l[j].Id()) && l[i].Id() != l[j].Id()
  }

  /** `_with_record` changes what is found under one identifier, and keeps the order. */
  lemma {:induction false} WithRecordFinds(l: Ledger, r: Record)
    requires IdOrdered(l)
    ensures IdOrdered(WithRecord(l, r))
    ensures forall id :: Find(WithRecord(l, r), id) == if id == r.Id() then Some(r) else Find(l, id)
    ensures forall x :: x in WithRecord(l, r) ==> x == r || x in l
  {
    if l == [] {
    } else if l[0].Id() == r.Id() {
      assert IdOrdered([r] + l[1..]);
    } else if StringLeq(r.Id(), l[0].Id()) {
      forall j | 0 <= j < |l|
        ensures StringLeq(r.Id(), l[j].Id()) && r.Id() != l[j].Id()
      {
        if j > 0 {
          StringLeqTransitive(r.Id(), l[0].Id(), l[j].Id());
          StringLeqTotal(l[0].Id(), l[j].Id());
        }
      }
      assert Find(l, r.Id()) == None;
    } else {
      StringLeqTotal(r.Id(), l[0].Id());
      WithRecordFinds(l[1..], r);
      var rest := WithRecord(l[1..], r);
      forall j | 0 <= j < |rest|
        ensures StringLeq(l[0].Id(), rest[j].Id()) && l[0].Id() != rest[j].Id()
      {
        assert rest[j] in rest;
      }
    }
  }

  // ---------- transitions the store accepts ----------

  datatype Operation = PlanWrite | MarkRunning | RecordObservation | RecordIntake

  /** The `transitions` table of `_validate_transition`. */
  predicate Rule(operation: Operation, previous: Status, next: Status) {
    match operation
    case PlanWrite => false
    case MarkRunning => previous == Planned && next == Running
    case RecordObservation => previous == Running && (next == Observed || next == Failed || next == Interrupted)
    case RecordIntake => previous == Observed && (next == Validated || next == Failed)
  }

  /** One record is touched by a write: added by a plan, moved along its lifecycle otherwise. */
  predicate Touches(before: Ledger, after: Ledger, operation: Operation, id: string) {
    && Find(after, id).Some?
    && (forall k | k in ExecutionIds(before) + ExecutionIds(after) && k != id :: Find(after, k) == Find(before, k))
    && (if operation == PlanWrite then Find(before, id).None? && Find(after, id).value.status == Planned
        else
          && Find(before, id).Some?
          && Rule(operation, Find(before, id).value.status, Find(after, id).value.status)
          && Find(before, id).value.identity == Find(after, id).value.identity)
  }

  /** `_validate_transition`. */
  predicate ValidTransition(before: Ledger, after: Ledger, operation: Operation) {
    exists id | id in ExecutionIds(after) :: Touches(before, after, operation, id)
  }

  lemma FindAmongIds(l: Ledger, id: string)
    ensures Find(l, id).Some? <==> id in ExecutionIds(l)
  {
    if Find(l, id).Some? {
      var i :| 0 <= i < |l| && l[i] == Find(l, id).value;
      assert ExecutionIds(l)[i] == id;
    }
  }

  /** Records that are not touched stay as they were. */
  lemma TouchesOnlyOne(before: Ledger, after: Ledger, operation: Operation, id: string, k: string)
    requires Touches(before, after, operation, id) && k != id
    ensures Find(after, k) == Find(before, k)
  {
    FindAmongIds(before, k);
    FindAmongIds(after, k);
  }

  /** A record written over its predecessor touches that record alone. */
  lemma WithRecordTouches(l: Ledger, r: Record, operation: Operation)
    requires IdOrdered(l)
    requires operation == PlanWrite ==> Find(l, r.Id()).None? && r.status == Planned
    requires operation != PlanWrite ==> Find(l, r.Id()).Some?
    requires operation != PlanWrite ==> Rule(operation, Find(l, r.Id()).value.status, r.status)
    requires operation != PlanWrite ==> Find(l, r.Id()).value.identity == r.identity
    ensures ValidTransition(l, WithRecord(l, r), operation)
  {
    WithRecordFinds(l, r);
    FindAmongIds(WithRecord(l, r), r.Id());
    assert Touches(l, WithRecord(l, r), operation, r.Id());
  }

  /** Writing a record over its predecessor replaces that one entry of the ledger. */
  lemma {:induction false} WithRecordReplaces(l: Ledger, r: Record) returns (i: nat)
    requires IdOrdered(l) && Find(l, r.Id()).Some?
    ensures i < |l| && l[i] == Find(l, r.Id()).value && WithRecord(l, r) == l[i := r]
  {
    hide StringLeq;
    if l[0].Id() == r.Id() {
      i := 0;
    } else {
      if StringLeq(r.Id(), l[0].Id()) {
        SmallerIdIsAbsent(l, r.Id());
        assert false;
      }
      var k := WithRecordReplaces(l[1..], r);
      UpdateTail(l, k, r);
      i := k + 1;
    }
  }

  lemma {:induction false} WithRecordHolds(l: Ledger, r: Record)
    ensures r in WithRecord(l, r)
  {
    if l != [] && l[0].Id() != r.Id() && !StringLeq(r.Id(), l[0].Id()) {
      WithRecordHolds(l[1..], r);
    }
  }

  lemma UpdateTail(l: Ledger, k: nat, r: Record)
    requires k + 1 < |l|
    ensures [l[0]] + l[1..][k := r] == l[k + 1 := r] && l[1..][k] == l[k + 1]
  {
  }

  lemma SmallerIdIsAbsent(l: Ledger, id: string)
    requires IdOrdered(l) && l != [] && StringLeq(id, l[0].Id()) && id != l[0].Id()
    ensures Find(l, id).None?
  {
    forall x | x in l
      ensures x.Id() != id
    {
      var j :| 0 <= j < |l| && l[j] == x;
      StringLeqTotal(l[0].Id(), id);
    }
  }

  lemma UpdateIsValid(env: Environment, l: Ledger, i: nat, r: Record)
    requires ValidLedger(env, l) && i < |l| && l[i].identity == r.identity
    ensures ValidLedger(env, l[i := r]) <==> ValidRecord(env, r)
  {
    hide ValidRecord;
    hide StringLeq;
    var after := l[i := r];
    assert r == after[i] && r in after;
    forall x | x in after
      ensures x == r || ValidRecord(env, x)
    {
      var j :| 0 <= j < |after| && after[j] == x;
      assert j != i ==> l[j] == x && l[j] in l;
    }
    assert forall j :: 0 <= j < |l| ==> after[j].identity == l[j].identity && after[j].Id() == l[j].Id();
  }

  /** A valid ledger stays valid if and only if the record that replaces another of the same identity is valid. */
  lemma ReplacementIsValid(env: Environment, l: Ledger, r: Record)
    requires ValidLedger(env, l) && IdOrdered(l)
    requires Find(l, r.Id()).Some? && Find(l, r.Id()).value.identity == r.identity
    ensures ValidLedger(env, WithRecord(l, r)) <==> ValidRecord(env, r)
  {
    hide ValidLedger;
    var i := WithRecordReplaces(l, r);
    hide WithRecord;
    hide Find;
    UpdateIsValid(env, l, i, r);
  }
}
