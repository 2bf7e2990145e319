/**
  The control loop over one authoritative project state: `control_loop.py`, with
  `human_approval_service.py`, `evidence_recorder.py` and `state_transition_service.py`.

  The store hands out the very object it holds, and copies are shallow, as in the source: what
  is proved about refused operations is that no object that existed before has changed.
 */
module ControlLoop {
  import opened Wrappers
  import opened Domain
  import opened Ordering
  import opened Certification
  import opened CertificationIntegrity
  import opened CertificationAgreement
  import CertificationService
  import opened ProjectRecords

  datatype Error =
    | StoryNotFound | AmbiguousStory | HumanEvidenceNotFound | HumanApprovalRefused
    | EvidenceRefused(reason: string) | InvalidServiceResult | DuplicateId
    | AmbiguousCertification | CertificationFailed(error: CertificationService.Error) | CertificationCollision
    | InvalidInitialStatus | EmptyBatch
    | CommitRequired | CertificationNotFound | CertificationNotCertified | CertificationIntegrityInvalid(issues: seq<Issue>)
    | TransitionRefused(refusals: seq<Refusal>)
    | InvalidState | WriteNotAuthorized | WriteFailed

  class HumanApproval {
    var required: bool
    var approved: bool
    var approvedBy: Option<string>
    var approvedAt: Option<Instant>
    var evidenceRef: Option<string>

    constructor (value: Approval)
      ensures View() == value
    {
      required, approved, approvedBy, approvedAt, evidenceRef :=
        value.required, value.approved, value.approvedBy, value.approvedAt, value.evidenceRef;
    }

    function View(): Approval
      reads this
    {
      Approval(required, approved, approvedBy, approvedAt, evidenceRef)
    }
  }

  class Metadata {
    var updatedAt: Instant

    constructor (updatedAt: Instant)
      ensures this.updatedAt == updatedAt
    {
      this.updatedAt := updatedAt;
    }
  }

  class UserStory {
    const id: string
    const dependsOn: seq<string>
    const criteria: seq<Criterion>
    const requiredGates: seq<string>
    var status: StoryStatus
    var approval: HumanApproval
    var metadata: Metadata

    constructor (id: string, dependsOn: seq<string>, criteria: seq<Criterion>, requiredGates: seq<string>, status: StoryStatus,
                 approval: HumanApproval, metadata: Metadata)
      ensures this.id == id && this.dependsOn == dependsOn && this.criteria == criteria && this.requiredGates == requiredGates
      ensures this.status == status && this.approval == approval && this.metadata == metadata
    {
      this.id, this.dependsOn, this.criteria, this.requiredGates := id, dependsOn, criteria, requiredGates;
      this.status, this.approval, this.metadata := status, approval, metadata;
    }

    function View(): Story
      reads this, approval, metadata
    {
      Story(id, status, dependsOn, criteria, requiredGates, approval.View(), metadata.updatedAt)
    }
  }

  class ProjectState {
    var stories: seq<UserStory>
    var evidence: seq<Evidence>
    var gates: seq<Gate>
    var certifications: seq<Certification>

    constructor (stories: seq<UserStory>, evidence: seq<Evidence>, gates: seq<Gate>, certifications: seq<Certification>)
      ensures this.stories == stories && this.evidence == evidence && this.gates == gates && this.certifications == certifications
    {
      this.stories, this.evidence, this.gates, this.certifications := stories, evidence, gates, certifications;
    }

    function View(): Project
      reads this, stories, set s | s in stories :: s.approval, set s | s in stories :: s.metadata
    {
      Project(Views(stories), evidence, gates, certifications)
    }
  }

  function Views(stories: seq<UserStory>): (r: seq<Story>)
    reads stories, set s | s in stories :: s.approval, set s | s in stories :: s.metadata
    ensures |r| == |stories| && forall i :: 0 <= i < |r| ==> r[i] == stories[i].View()
  {
    if stories == [] then []
    else
      assert forall s :: s in stories[..|stories| - 1] ==> s in stories;
      Views(stories[..|stories| - 1]) + [stories[|stories| - 1].View()]
  }

  /** A refusal by the store: the candidate is not valid, or writing it failed. */
  predicate StoreRefuses(error: Error, isValid: Project -> bool, candidate: Project) {
    error == WriteFailed || (error == InvalidState && !isValid(candidate))
  }

  /** The store: it validates what it is given, and writes only over the state the writer has read. */
  class StateStore {
    const isValid: Project -> bool
    var current: ProjectState

    constructor (isValid: Project -> bool, initial: ProjectState)
      ensures this.isValid == isValid && current == initial
    {
      this.isValid := isValid;
      current := initial;
    }

    /** `save`, for the authorization that the control loop issues for `before` and `candidate`. */
    method Save(before: ProjectState, candidate: ProjectState) returns (error: Option<Error>)
      modifies this`current
      ensures error.Some? ==> current == old(current)
      ensures error.Some? && before.View() == old(current.View()) ==> StoreRefuses(error.value, isValid, candidate.View())
      ensures error.None? ==> (current == candidate || current == old(current)) && current.View() == candidate.View()
      ensures error.None? ==> isValid(candidate.View())
      ensures current != old(current) ==> before.View() == old(current.View())
    {
      if !isValid(candidate.View()) {
        return Some(InvalidState);
      }
      if current.View() == candidate.View() {
        return None;
      }
      if before.View() != current.View() {
        return Some(WriteNotAuthorized);
      }
      var fails: bool := *;
      if fails {
        return Some(WriteFailed);
      }
      current := candidate;
      error := None;
    }
  }

  /** `_candidate_state`: new lists, the same stories. */
  method CandidateState(current: ProjectState) returns (candidate: ProjectState)
    ensures fresh(candidate) && candidate.stories == current.stories && candidate.evidence == current.evidence
    ensures candidate.gates == current.gates && candidate.certifications == current.certifications
    ensures candidate.View() == current.View()
  {
    candidate := new ProjectState(current.stories, current.evidence, current.gates, current.certifications);
  }

  /** `_candidate_story`: a copy that shares nothing that can be changed. */
  method CandidateStory(story: UserStory) returns (copy: UserStory)
    ensures fresh(copy) && fresh(copy.approval) && fresh(copy.metadata) && copy.View() == story.View()
  {
    var approval := new HumanApproval(story.approval.View());
    var metadata := new Metadata(story.metadata.updatedAt);
    copy := new UserStory(story.id, story.dependsOn, story.criteria, story.requiredGates, story.status, approval, metadata);
  }

  /** The copy of a story takes its place in the candidate's list. */
  method CopyInto(candidate: ProjectState, i: nat) returns (story: UserStory)
    requires i < |candidate.stories|
    modifies candidate`stories
    ensures fresh(story) && fresh(story.approval) && fresh(story.metadata)
    ensures candidate.stories == old(candidate.stories)[i := story]
    ensures candidate.View() == old(candidate.View()) && story.View() == candidate.View().stories[i]
  {
    story := CandidateStory(candidate.stories[i]);
    candidate.stories := candidate.stories[i := story];
    SameViews(candidate, old(candidate.View()));
  }

  lemma SameViews(state: ProjectState, p: Project)
    requires |state.stories| == |p.stories| && forall j :: 0 <= j < |p.stories| ==> state.stories[j].View() == p.stories[j]
    requires state.evidence == p.evidence && state.gates == p.gates && state.certifications == p.certifications
    ensures state.View() == p
  {
    hide Views;
    assert Views(state.stories) == p.stories;
  }

  /** The value of a state one of whose stories has been edited. */
  lemma Edited(state: ProjectState, p: Project, i: nat, story: Story)
    requires i < |state.stories| == |p.stories| && state.stories[i].View() == story
    requires forall j :: 0 <= j < |p.stories| && j != i ==> state.stories[j].View() == p.stories[j]
    requires state.evidence == p.evidence && state.gates == p.gates && state.certifications == p.certifications
    ensures state.View() == p.(stories := p.stories[i := story])
  {
    SameViews(state, p.(stories := p.stories[i := story]));
  }

  /** An operation was enabled in one state, and the other is its outcome. */
  ghost predicate Outcome(before: Project, action: Action, after: Project, rules: Rules) {
    Enabled(before, action, rules) && after == After(before, action)
  }

  /** The only story with an id. */
  ghost predicate Sole(p: Project, id: string, i: nat) {
    && i < |p.stories| && p.stories[i].id == id
    && forall j :: 0 <= j < |p.stories| && p.stories[j].id == id ==> j == i
  }

  /** `_require_unique_story`. */
  method RequireUniqueStory(state: ProjectState, id: string) returns (r: Result<nat, Error>)
    ensures r.Ok? ==> r.value < |state.stories| && state.stories[r.value].id == id && Sole(state.View(), id, r.value)
    ensures r.Err? ==> (r.error == StoryNotFound || r.error == AmbiguousStory) && forall i :: !Sole(state.View(), id, i)
  {
    hide Views;
    r := Err(StoryNotFound);
    for i := 0 to |state.stories|
      invariant r.Err? ==> r.error == StoryNotFound && forall j :: 0 <= j < i ==> state.stories[j].id != id
      invariant r.Ok? ==> r.value < i && state.stories[r.value].id == id
      invariant r.Ok? ==> forall j :: 0 <= j < i && state.stories[j].id == id ==> j == r.value
    {
      if state.stories[i].id == id {
        if r.Ok? {
          return Err(AmbiguousStory);
        }
        r := Ok(i);
      }
    }
  }

  // ---------- human approval ----------

  datatype ApprovalResult = ApprovalResult(subject: string, evidence: string, applied: bool)

  /** `HumanApprovalService`: decide, and change the approval of the story it is given. */
  method ApplyApproval(story: UserStory, e: Evidence, rules: Rules, expectedCommit: string) returns (r: Option<ApprovalResult>)
    modifies story.approval
    ensures r.None? ==> story.View() == old(story.View())
    ensures r.Some? <==> !rules.isBlank(expectedCommit) && (e.commit.None? || e.commit == Some(expectedCommit)) && DecisionApplies(old(story.View()), e, rules)
    ensures r.Some? ==> story.View() == old(story.View()).(approval := Decide(old(story.View()).approval, e))
    ensures r.Some? ==> r.value == ApprovalResult(story.id, e.id, e.result == Flag(true))
  {
    var approval := story.approval;
    if rules.isBlank(expectedCommit) || !rules.evidenceIsValid(e) {
      return None;
    }
    if !(approval.required && e.kind == HumanDecision && e.subject == story.id && e.result.Flag?
         && rules.isHuman(e.source) && rules.attributableHuman(e.producer)
         && (e.commit.None? || e.commit == Some(expectedCommit))) {
      return None;
    }
    if e.result == Flag(false) {
      return Some(ApprovalResult(story.id, e.id, false));
    }
    if approval.approved {
      return None;
    }
    approval.approved := true;
    approval.approvedBy := Some(e.producer);
    approval.approvedAt := Some(e.timestamp);
    approval.evidenceRef := Some(e.id);
    r := Some(ApprovalResult(story.id, e.id, true));
  }

  // ---------- evidence ----------

  datatype Provenance = Tool | Codex | HumanActor

  /** `EvidenceObservation`; `None` stands for a text that is no member of the vocabulary. */
  datatype Observation = Observation(kind: Option<EvidenceKind>, subject: string, result: Finding, provenance: Option<Provenance>,
                                     source: string, producer: string, repositoryDependent: bool, command: Option<string>,
                                     exitCode: Option<int>, artifact: Option<string>, commit: Option<string>)

  /** `_evidence_type`, `_provenance` and `_validate_traceability`: the code of the first refusal. */
  function ObservationError(o: Observation, rules: Rules): Option<string> {
    if o.kind.None? then Some("UNKNOWN_EVIDENCE_TYPE")
    else if o.provenance.None? then Some("UNKNOWN_PROVENANCE_KIND")
    else if rules.isBlank(o.source) || rules.isBlank(o.producer) then Some("PROVENANCE_REQUIRED")
    else if o.provenance.value == Codex && !rules.codexRole(o.producer) then Some("CODEX_ROLE_REQUIRED")
    else if o.kind.value == GitStateSeen && !o.repositoryDependent then Some("REPOSITORY_CONTEXT_REQUIRED")
    else if o.repositoryDependent && (o.commit.None? || rules.isBlank(o.commit.value)) then Some("COMMIT_REQUIRED")
    else if o.kind.value == CommandResult && (o.command.None? || o.exitCode.None?) then Some("COMMAND_DETAILS_REQUIRED")
    else if o.kind.value == HumanDecision && o.provenance.value != HumanActor then Some("HUMAN_PROVENANCE_REQUIRED")
    else if o.kind.value == HumanDecision && !(rules.isHuman(o.source) && rules.attributableHuman(o.producer)) then Some("HUMAN_ACTOR_REQUIRED")
    else None
  }

  function EvidenceOf(o: Observation, id: string, timestamp: Instant): Evidence
    requires o.kind.Some?
  {
    Evidence(id, o.kind.value, o.subject, o.result, o.source, o.command, o.exitCode, o.artifact, o.commit, timestamp, o.producer)
  }

  predicate Recordable(evidence: seq<Evidence>, o: Observation, id: string, timestamp: Instant, rules: Rules) {
    && ObservationError(o, rules).None? && IdIsNew(evidence, EvidenceId, id)
    && timestamp.aware && o.kind.Some? && rules.evidenceIsValid(EvidenceOf(o, id, timestamp))
  }

  /** What an observation must say of itself, kind by kind. */
  predicate Traceable(o: Observation, rules: Rules) {
    && o.kind.Some? && o.provenance.Some?
    && !rules.isBlank(o.source) && !rules.isBlank(o.producer)
    && (o.provenance == Some(Codex) ==> rules.codexRole(o.producer))
    && (o.repositoryDependent ==> o.commit.Some? && !rules.isBlank(o.commit.value))
    && (o.kind == Some(GitStateSeen) ==> o.repositoryDependent)
    && (o.kind == Some(CommandResult) ==> o.command.Some? && o.exitCode.Some?)
    && (o.kind == Some(HumanDecision) ==> o.provenance == Some(HumanActor) && rules.isHuman(o.source) && rules.attributableHuman(o.producer))
  }

  /**
    What recording lets through, seen from the evidence list alone: a Git state carries its commit, a
    command its exit code, and a human decision comes from an attributable human.
   */
  lemma RecordedIsTraceable(evidence: seq<Evidence>, o: Observation, id: string, timestamp: Instant, rules: Rules)
    ensures Recordable(evidence, o, id, timestamp, rules) <==>
      && Traceable(o, rules) && timestamp.aware && (forall e :: e in evidence ==> e.id != id)
      && rules.evidenceIsValid(EvidenceOf(o, id, timestamp))
    ensures Recordable(evidence, o, id, timestamp, rules) ==>
      var e := EvidenceOf(o, id, timestamp);
      && (e.kind == GitStateSeen ==> e.commit.Some? && !rules.isBlank(e.commit.value))
      && (e.kind == CommandResult ==> e.command.Some? && e.exitCode.Some?)
      && (e.kind == HumanDecision ==> rules.isHuman(e.source) && rules.attributableHuman(e.producer))
  {
  }

  /** `EvidenceRecorder.record` on the list of the candidate. */
  method Record(target: ProjectState, o: Observation, id: string, timestamp: Instant, rules: Rules) returns (r: Result<Evidence, string>)
    modifies target`evidence
    ensures r.Err? ==> target.evidence == old(target.evidence)
    ensures r.Ok? ==> o.kind.Some? && r.value == EvidenceOf(o, id, timestamp) && target.evidence == old(target.evidence) + [r.value]
    ensures r.Ok? <==> Recordable(old(target.evidence), o, id, timestamp, rules)
  {
    var refusal := ObservationError(o, rules);
    if refusal.Some? {
      return Err(refusal.value);
    }
    if !IdIsNew(target.evidence, EvidenceId, id) {
      return Err("DUPLICATE_EVIDENCE_ID");
    }
    if !timestamp.aware {
      return Err("UTC_TIMESTAMP_REQUIRED");
    }
    var e := EvidenceOf(o, id, timestamp);
    if !rules.evidenceIsValid(e) {
      return Err("VALIDATION_FAILED");
    }
    target.evidence := target.evidence + [e];
    r := Ok(e);
  }

  // ---------- transitions ----------

  datatype Refusal =
    | UnknownTarget | TerminalSource | NotAllowed | ContextRequired | PreconditionsNotProven | AuthorizationRequired
    | DependencyContextRequired | DependencyMissing(id: string) | DependencyUnknown(id: string) | DependencyNotCertified(id: string)

  datatype TransitionContext = TransitionContext(proven: Option<bool>, dependencies: Option<map<string, Option<StoryStatus>>>,
                                                 commit: Option<string>)

  datatype Authorization = Authorization(subject: string, commit: string, certification: string)

  predicate Authorizes(a: Option<Authorization>, subject: string, commit: Option<string>) {
    a.Some? && a.value.subject == subject && commit == Some(a.value.commit) && a.value.certification != ""
  }

  /** What is wrong with one dependency of a story that is to become ready. */
  function DependencyRefusal(id: string, statuses: map<string, Option<StoryStatus>>): Option<Refusal> {
    if id !in statuses then Some(DependencyMissing(id))
    else if statuses[id].None? then Some(DependencyUnknown(id))
    else if statuses[id].value != StoryStatus.Certified then Some(DependencyNotCertified(id))
    else None
  }

  /** The transitions that the service lets through. */
  predicate TransitionAllowed(source: StoryStatus, subject: string, dependsOn: seq<string>, target: Option<StoryStatus>,
                              context: Option<TransitionContext>, authorization: Option<Authorization>)
  {
    && target.Some? && AllowedTransition(source, target.value) && context.Some? && context.value.proven == Some(true)
    && (target.value == StoryStatus.Certified ==> Authorizes(authorization, subject, context.value.commit))
    && (target.value == Ready && dependsOn != [] ==>
          context.value.dependencies.Some? && DependenciesCertified(dependsOn, context.value.dependencies.value))
  }

  predicate DependenciesCertified(dependsOn: seq<string>, statuses: map<string, Option<StoryStatus>>) {
    forall i | 0 <= i < |dependsOn| :: DependencyRefusal(dependsOn[i], statuses).None?
  }

  /** A story may become READY exactly from an allowed state, with proven preconditions, when the context knows all its dependencies as CERTIFIED. */
  lemma ReadyExactlyWhen(source: StoryStatus, subject: string, dependsOn: seq<string>, context: TransitionContext, authorization: Option<Authorization>)
    ensures TransitionAllowed(source, subject, dependsOn, Some(Ready), Some(context), authorization)
      <==> (source == Planned || source == StoryStatus.Blocked || source == RemediationRequired) && context.proven == Some(true)
           && forall d :: d in dependsOn ==> context.dependencies.Some? && d in context.dependencies.value
                                             && context.dependencies.value[d] == Some(StoryStatus.Certified)
  {
    if dependsOn != [] && context.dependencies.Some? {
      DependenciesInWords(dependsOn, context.dependencies.value);
    }
    assert dependsOn != [] ==> dependsOn[0] in dependsOn;
    hide DependenciesCertified;
  }

  /** A story is promoted exactly from CERTIFICATION, with proven preconditions, for a certification that names it and the very commit. */
  lemma PromotedExactlyWhen(source: StoryStatus, subject: string, dependsOn: seq<string>, context: TransitionContext, a: Option<Authorization>)
    ensures TransitionAllowed(source, subject, dependsOn, Some(StoryStatus.Certified), Some(context), a)
      <==> source == StoryStatus.Certification && context.proven == Some(true)
           && exists commit, id :: context.commit == Some(commit) && id != "" && a == Some(Authorization(subject, commit, id))
  {
    if a.Some? {
      assert a == Some(Authorization(a.value.subject, a.value.commit, a.value.certification));
    }
  }

  lemma DependenciesInWords(dependsOn: seq<string>, statuses: map<string, Option<StoryStatus>>)
    ensures DependenciesCertified(dependsOn, statuses)
      <==> forall d :: d in dependsOn ==> d in statuses && statuses[d] == Some(StoryStatus.Certified)
  {
    assert forall i :: 0 <= i < |dependsOn| ==> dependsOn[i] in dependsOn;
  }

  /** What is told of a refusal: the first reason, or all that is wrong with the dependencies. */
  ghost predicate Refused(refusals: seq<Refusal>, story: UserStory, target: Option<StoryStatus>, context: Option<TransitionContext>)
    reads story
  {
    var open := target.Some? && story.status !in {StoryStatus.Certified, Cancelled};
    var allowed := open && AllowedTransition(story.status, target.value);
    && (UnknownTarget in refusals <==> target.None?)
    && (TerminalSource in refusals <==> target.Some? && !open)
    && (NotAllowed in refusals <==> open && !allowed)
    && (ContextRequired in refusals <==> allowed && context.None?)
    && (PreconditionsNotProven in refusals <==> allowed && context.Some? && context.value.proven != Some(true))
    && (DependencyContextRequired in refusals ==> context.Some? && context.value.dependencies.None?)
    && forall d :: DependencyMissing(d) in refusals || DependencyUnknown(d) in refusals || DependencyNotCertified(d) in refusals ==>
         d in story.dependsOn && context.Some? && context.value.dependencies.Some?
  }

  /** A dependency is named in the refusal exactly for what is wrong with it. */
  ghost predicate RefusedFor(refusals: seq<Refusal>, d: string, statuses: map<string, Option<StoryStatus>>) {
    && (DependencyMissing(d) in refusals <==> d !in statuses)
    && (DependencyUnknown(d) in refusals <==> d in statuses && statuses[d].None?)
    && (DependencyNotCertified(d) in refusals <==> d in statuses && statuses[d].Some? && statuses[d] != Some(StoryStatus.Certified))
  }

  /** `_dependency_refusals`, for a story that is to become READY. */
  method DependencyRefusals(dependsOn: seq<string>, dependencies: Option<map<string, Option<StoryStatus>>>) returns (refusals: seq<Refusal>)
    ensures refusals == [] <==> dependsOn == [] || (dependencies.Some? && DependenciesCertified(dependsOn, dependencies.value))
    ensures dependencies.None? && dependsOn != [] ==> refusals == [DependencyContextRequired]
    ensures forall r :: r in refusals ==> OfDependencies(r, dependsOn, dependencies)
    ensures dependencies.Some? ==> forall d :: d in dependsOn ==> RefusedFor(refusals, d, dependencies.value)
  {
    refusals := [];
    if dependsOn == [] {
      return;
    }
    if dependencies.None? {
      return [DependencyContextRequired];
    }
    for i := 0 to |dependsOn|
      invariant refusals == [] <==> forall j :: 0 <= j < i ==> DependencyRefusal(dependsOn[j], dependencies.value).None?
      invariant forall r :: r in refusals <==> exists j :: 0 <= j < i && DependencyRefusal(dependsOn[j], dependencies.value) == Some(r)
    {
      var refusal := DependencyRefusal(dependsOn[i], dependencies.value);
      if refusal.Some? && refusal.value !in refusals {
        refusals := refusals + [refusal.value];
      }
    }
  }

  predicate OfDependencies(r: Refusal, dependsOn: seq<string>, dependencies: Option<map<string, Option<StoryStatus>>>) {
    match r
    case DependencyContextRequired => dependencies.None?
    case DependencyMissing(d) => d in dependsOn && dependencies.Some?
    case DependencyUnknown(d) => d in dependsOn && dependencies.Some?
    case DependencyNotCertified(d) => d in dependsOn && dependencies.Some?
    case _ => false
  }

  /** `StateTransitionService._evaluate`. */
  method EvaluateTransition(story: UserStory, target: Option<StoryStatus>, context: Option<TransitionContext>,
                            authorization: Option<Authorization>)
    returns (refusals: seq<Refusal>)
    ensures refusals == [] <==> TransitionAllowed(story.status, story.id, story.dependsOn, target, context, authorization)
    ensures Refused(refusals, story, target, context)
    ensures target == Some(Ready) && AllowedTransition(story.status, Ready) && context.Some? && context.value.proven == Some(true) ==>
      context.value.dependencies.Some? ==> forall d :: d in story.dependsOn ==> RefusedFor(refusals, d, context.value.dependencies.value)
  {
    if target.None? {
      return [UnknownTarget];
    }
    if story.status == StoryStatus.Certified || story.status == Cancelled {
      return [TerminalSource];
    }
    if !AllowedTransition(story.status, target.value) {
      return [NotAllowed];
    }
    if context.None? {
      return [ContextRequired];
    }
    if context.value.proven != Some(true) {
      return [PreconditionsNotProven];
    }
    if story.status == StoryStatus.Certification && target.value == StoryStatus.Certified
      && !Authorizes(authorization, story.id, context.value.commit) {
      return [AuthorizationRequired];
    }
    refusals := [];
    if target.value == Ready {
      refusals := DependencyRefusals(story.dependsOn, context.value.dependencies);
    }
  }

  /** `_apply`: an allowed transition changes the status of the story, and nothing else. */
  method ApplyTransition(story: UserStory, target: Option<StoryStatus>, context: Option<TransitionContext>, authorization: Option<Authorization>)
    returns (refusals: seq<Refusal>)
    modifies story`status
    ensures refusals != [] ==> story.status == old(story.status)
    ensures refusals == [] <==> TransitionAllowed(old(story.status), story.id, story.dependsOn, target, context, authorization)
    ensures refusals == [] ==> target.Some? && story.status == target.value && AllowedTransition(old(story.status), target.value)
    ensures refusals == [] && target == Some(StoryStatus.Certified) ==> authorization.Some?
  {
    refusals := EvaluateTransition(story, target, context, authorization);
    if refusals == [] {
      story.status := target.value;
    }
  }

  // ---------- the operations ----------

  class Loop {
    const store: StateStore
    const rules: Rules

    constructor (store: StateStore, rules: Rules)
      ensures this.store == store && this.rules == rules
    {
      this.store, this.rules := store, rules;
    }

    /** What the store holds. */
    function Held(): Project
      reads store, store.current, store.current.stories
      reads set s | s in store.current.stories :: s.approval
      reads set s | s in store.current.stories :: s.metadata
    {
      store.current.View()
    }

    /** The operation was enabled, and the store holds its outcome. */
    ghost predicate Performed(before: Project, action: Action)
      reads store, store.current, store.current.stories
      reads set s | s in store.current.stories :: s.approval
      reads set s | s in store.current.stories :: s.metadata
    {
      Enabled(before, action, rules) && Held() == After(before, action)
    }

    /** `_save_candidate`, for the operation that the candidate is the outcome of. */
    method SaveCandidate(current: ProjectState, candidate: ProjectState, ghost action: Action) returns (error: Option<Error>)
      requires current == store.current && Outcome(Held(), action, candidate.View(), rules)
      modifies store`current
      ensures error.Some? ==> store.current == old(store.current) && StoreRefuses(error.value, store.isValid, After(old(Held()), action))
      ensures error.None? ==> Performed(old(Held()), action) && (store.current == candidate || store.current == old(store.current))
    {
      hide Enabled;
      hide After;
      hide Views;
      error := store.Save(current, candidate);
    }

    /** The decision can be applied to the story. */
    ghost predicate CanApprove(p: Project, i: nat, storyId: string, evidenceId: string, expectedCommit: string) {
      && Sole(p, storyId, i)
      && var e := Only(p.evidence, EvidenceId, evidenceId);
         && e.Some? && !rules.isBlank(expectedCommit) && (e.value.commit.None? || e.value.commit == Some(expectedCommit))
         && DecisionApplies(p.stories[i], e.value, rules)
    }

    /** The evidence with an id, where there is exactly one. */
    function DecisionIn(p: Project, id: string): (e: Evidence)
      ensures Only(p.evidence, EvidenceId, id).Some? ==> Only(p.evidence, EvidenceId, id) == Some(e)
    {
      var found := Only(p.evidence, EvidenceId, id);
      if found.Some? then found.value
      else Evidence(id, TestResult, "", Flag(false), "", None, None, None, None, Instant(0, false), "")
    }

    predicate AppliesTo(p: Project, i: nat, e: Evidence, storyId: string, evidenceId: string, result: ApprovalResult) {
      && i < |p.stories| && p.stories[i].id == storyId && e.id == evidenceId
      && result == ApprovalResult(storyId, evidenceId, e.result == Flag(true))
    }

    lemma NobodyApproves(p: Project, storyId: string, evidenceId: string, expectedCommit: string)
      requires forall i :: !Sole(p, storyId, i)
      ensures forall k: nat :: !CanApprove(p, k, storyId, evidenceId, expectedCommit)
    {
    }

    /** A decision that does not fit the only story of that id fits none. */
    lemma OnlyTheSoleStory(p: Project, i: nat, storyId: string, evidenceId: string, expectedCommit: string)
      requires Sole(p, storyId, i)
      requires var e := Only(p.evidence, EvidenceId, evidenceId);
        e.None? || rules.isBlank(expectedCommit) || !(e.value.commit.None? || e.value.commit == Some(expectedCommit))
        || !DecisionApplies(p.stories[i], e.value, rules)
      ensures forall k: nat :: !CanApprove(p, k, storyId, evidenceId, expectedCommit)
    {
      hide DecisionApplies;
      hide Only;
    }

    /** The changes of `apply_human_approval` to its candidate. */
    method ApproveIn(candidate: ProjectState, storyId: string, evidenceId: string, expectedCommit: string)
      returns (r: Result<ApprovalResult, Error>, i: nat, e: Option<Evidence>)
      modifies candidate`stories
      ensures r.Ok? ==> e.Some? && Outcome(old(candidate.View()), ApprovalApplied(i, e.value), candidate.View(), rules)
      ensures r.Ok? ==> AppliesTo(old(candidate.View()), i, e.value, storyId, evidenceId, r.value)
      ensures r.Ok? ==> Sole(old(candidate.View()), storyId, i) && e.value == DecisionIn(old(candidate.View()), evidenceId)
      ensures r.Err? ==> forall k: nat :: !CanApprove(old(candidate.View()), k, storyId, evidenceId, expectedCommit)
    {
      hide Named;
      hide Views;
      hide CanApprove;
      ghost var p := candidate.View();
      i, e := 0, None;
      var found := RequireUniqueStory(candidate, storyId);
      assert candidate.View() == p;
      if found.Err? {
        NobodyApproves(p, storyId, evidenceId, expectedCommit);
        return Err(found.error), i, e;
      }
      i, e := found.value, Only(candidate.evidence, EvidenceId, evidenceId);
      if e.None? {
        OnlyTheSoleStory(p, i, storyId, evidenceId, expectedCommit);
        return Err(HumanEvidenceNotFound), i, e;
      }
      var story := CopyInto(candidate, i);
      var result := ApplyApproval(story, e.value, rules, expectedCommit);
      if result.None? {
        OnlyTheSoleStory(p, i, storyId, evidenceId, expectedCommit);
        return Err(HumanApprovalRefused), i, e;
      }
      Edited(candidate, p, i, story.View());
      r := Ok(result.value);
    }

    /** `apply_human_approval`. */
    method ApplyHumanApproval(storyId: string, evidenceId: string, expectedCommit: string) returns (r: Result<ApprovalResult, Error>)
      modifies store`current
      ensures r.Err? ==> store.current == old(store.current)
      ensures r.Ok? ==> exists i: nat, e: Evidence :: Performed(old(Held()), ApprovalApplied(i, e)) && AppliesTo(old(Held()), i, e, storyId, evidenceId, r.value)
      ensures r.Err? ==> forall k: nat :: CanApprove(old(Held()), k, storyId, evidenceId, expectedCommit) ==>
        StoreRefuses(r.error, store.isValid, After(old(Held()), ApprovalApplied(k, DecisionIn(old(Held()), evidenceId))))
    {
      hide Outcome;
      hide DecisionIn;
      hide AppliesTo;
      hide Performed;
      hide Views;
      var current := store.current;
      var candidate := CandidateState(current);
      var i: nat, e: Option<Evidence>;
      r, i, e := ApproveIn(candidate, storyId, evidenceId, expectedCommit);
      if r.Ok? {
        var error := SaveCandidate(current, candidate, ApprovalApplied(i, e.value));
        if error.Some? {
          r := Err(error.value);
        }
      }
    }

    /** `record_evidence`. */
    method RecordEvidence(o: Observation, id: string, timestamp: Instant) returns (r: Result<Evidence, Error>)
      modifies store`current
      ensures r.Err? ==> store.current == old(store.current)
      ensures r.Ok? ==> r.value.id == id && Performed(old(Held()), EvidenceRecorded(r.value))
      ensures r.Err? && Recordable(old(Held()).evidence, o, id, timestamp, rules) ==>
        StoreRefuses(r.error, store.isValid, After(old(Held()), EvidenceRecorded(EvidenceOf(o, id, timestamp))))
    {
      hide Recordable;
      hide Outcome;
      hide Performed;
      hide Views;
      var current := store.current;
      var candidate := CandidateState(current);
      r := RecordIn(candidate, o, id, timestamp);
      if r.Ok? {
        var error := SaveCandidate(current, candidate, EvidenceRecorded(r.value));
        if error.Some? {
          r := Err(error.value);
        }
      }
    }

    static lemma FreshIsOnly(evidence: seq<Evidence>, e: Evidence)
      requires IdIsNew(evidence, EvidenceId, e.id)
      ensures Only(evidence + [e], EvidenceId, e.id) == Some(e)
    {
      NamedAppend(evidence, EvidenceId, e.id, e);
      NamedNone(evidence, EvidenceId, e.id);
    }

    /**
      The changes of `record_evidence` to its candidate. That the recorder has appended exactly its
      evidence, which the source checks, is proved.
     */
    method RecordIn(candidate: ProjectState, o: Observation, id: string, timestamp: Instant) returns (r: Result<Evidence, Error>)
      modifies candidate`evidence
      ensures r.Ok? ==> r.value.id == id && Outcome(old(candidate.View()), EvidenceRecorded(r.value), candidate.View(), rules)
      ensures r.Ok? ==> o.kind.Some? && r.value == EvidenceOf(o, id, timestamp)
      ensures r.Err? ==> !Recordable(old(candidate.View()).evidence, o, id, timestamp, rules)
    {
      hide ObservationError;
      hide Views;
      hide Named;
      ghost var p := candidate.View();
      var recorded := Record(candidate, o, id, timestamp, rules);
      if recorded.Err? {
        return Err(EvidenceRefused(recorded.error));
      }
      FreshIsOnly(p.evidence, recorded.value);
      assert Only(candidate.evidence, EvidenceId, id) == Some(recorded.value);
      SameViews(candidate, p.(evidence := p.evidence + [recorded.value]));
      r := Ok(recorded.value);
    }

    /** `evaluate_gate`; `evaluation` is the gate that the evaluator returned, if it did. */
    method EvaluateGate(contract: string, evaluation: Option<Gate>) returns (r: Result<Gate, Error>)
      modifies store`current
      ensures r.Err? ==> store.current == old(store.current)
      ensures r.Ok? ==> evaluation == Some(r.value) && r.value.id == contract && Performed(old(Held()), GateEvaluated(r.value))
      ensures r.Err? && evaluation.Some? && evaluation.value.id == contract && IdIsNew(old(Held()).gates, GateId, contract) ==>
        StoreRefuses(r.error, store.isValid, After(old(Held()), GateEvaluated(evaluation.value)))
    {
      hide Performed;
      hide Views;
      if evaluation.None? || evaluation.value.id != contract {
        return Err(InvalidServiceResult);
      }
      var gate := evaluation.value;
      var current := store.current;
      var candidate := CandidateState(current);
      if !IdIsNew(candidate.gates, GateId, contract) {
        return Err(DuplicateId);
      }
      candidate.gates := candidate.gates + [gate];
      SameViews(candidate, Held().(gates := Held().gates + [gate]));
      var error := SaveCandidate(current, candidate, GateEvaluated(gate));
      r := if error.Some? then Err(error.value) else Ok(gate);
    }

    /** The request that `_certify_user_story` puts to the certification service. */
    function RequestFor(p: Project, i: nat, commit: string, acceptance: seq<AcceptanceResult>, certifier: string, context: Context): Request
      requires i < |p.stories|
    {
      Request(p.stories[i], commit, acceptance, p.gates, p.evidence, certifier, context)
    }

    ghost predicate IssuedFor(c: Certification, p: Project, storyId: string, commit: string, acceptance: seq<AcceptanceResult>,
                              certifier: string, context: Context)
    {
      exists i :: 0 <= i < |p.stories| && p.stories[i].id == storyId && Reports(c, RequestFor(p, i, commit, acceptance, certifier, context), rules)
    }

    /** No single story has the id, or the certification id is taken. */
    static ghost predicate Unissuable(p: Project, storyId: string, certificationId: string) {
      (forall i: nat :: !Sole(p, storyId, i)) || !IdIsNew(p.certifications, CertificationId, certificationId)
    }

    /** The certification that the service issues, and the one that is persisted under its id already. */
    method Issue(state: ProjectState, storyId: string, commit: string, acceptance: seq<AcceptanceResult>, certifier: string,
                 context: Context, certificationId: string, certifiedAt: Instant)
      returns (r: Result<Certification, Error>, existing: Option<Certification>)
      ensures existing.Some? ==> existing.value in state.certifications && !IdIsNew(state.certifications, CertificationId, certificationId)
      ensures r.Err? ==> r.error.CertificationFailed? || Unissuable(state.View(), storyId, certificationId)
      ensures r.Ok? ==> r.value.id == certificationId && IssuedFor(r.value, state.View(), storyId, commit, acceptance, certifier, context)
      ensures r.Ok? ==> exists i :: 0 <= i < |state.stories| && state.stories[i].id == r.value.subject && Coherent(DossierIn(state.View(), state.stories[i].View(), r.value), rules)
    {
      existing := None;
      var found := RequireUniqueStory(state, storyId);
      if found.Err? {
        return Err(found.error), None;
      }
      var named := Named(state.certifications, CertificationId, certificationId);
      NamedNone(state.certifications, CertificationId, certificationId);
      if |named| > 1 {
        return Err(AmbiguousCertification), None;
      }
      existing := if named != [] then Some(named[0]) else None;
      var q := Request(state.stories[found.value].View(), commit, acceptance, state.gates, state.evidence, certifier, context);
      hide Views;
      hide Reports;
      hide Coherent;
      hide CertificationService.Acceptable;
      hide CertificationService.RequestError;
      var at := if existing.Some? then existing.value.certifiedAt else certifiedAt;
      var certified := CertificationService.Certify(q, rules, certificationId, at);
      if certified.Err? {
        return Err(CertificationFailed(certified.error)), existing;
      }
      var c := certified.value;
      SubjectOfReport(c, q, rules);
      assert q == RequestFor(state.View(), found.value, commit, acceptance, certifier, context);
      assert DossierIn(state.View(), state.stories[found.value].View(), c) == DossierOf(q, c);
      r := Ok(c);
    }

    /** The changes of `_certify_user_story` to its candidate; `append` is false when a replay is recognised. */
    method CertifyIn(candidate: ProjectState, storyId: string, commit: string, acceptance: seq<AcceptanceResult>, certifier: string,
                     context: Context, certificationId: string, certifiedAt: Instant, replay: bool)
      returns (r: Result<Certification, Error>, append: bool)
      modifies candidate`certifications
      ensures r.Ok? ==> r.value.id == certificationId && IssuedFor(r.value, old(candidate.View()), storyId, commit, acceptance, certifier, context)
      ensures r.Ok? && append ==> Outcome(old(candidate.View()), CertificationPersisted(r.value), candidate.View(), rules)
      ensures r.Ok? && !append ==> replay && r.value in old(candidate.View()).certifications
      ensures r.Err? ==> r.error.CertificationFailed? || Unissuable(old(candidate.View()), storyId, certificationId)
    {
      hide Coherent;
      hide IssuedFor;
      hide Views;
      ghost var p := candidate.View();
      append := false;
      var existing: Option<Certification>;
      r, existing := Issue(candidate, storyId, commit, acceptance, certifier, context, certificationId, certifiedAt);
      if r.Ok? {
        if existing.Some? && replay {
          if existing.value != r.value {
            r := Err(CertificationCollision);
          }
        } else if !IdIsNew(candidate.certifications, CertificationId, certificationId) {
          r := Err(DuplicateId);
        } else {
          candidate.certifications := candidate.certifications + [r.value];
          append := true;
          SameViews(candidate, p.(certifications := p.certifications + [r.value]));
        }
      }
    }

    static lemma SubjectOfReport(c: Certification, q: Request, rules: Rules)
      requires Reports(c, q, rules)
      ensures c.subject == q.story.id
    {
    }

    /** `_certify_user_story`, with (`replay`) or without recognition of an exact replay. */
    method CertifyUserStory(storyId: string, commit: string, acceptance: seq<AcceptanceResult>, certifier: string, context: Context,
                            certificationId: string, certifiedAt: Instant, replay: bool)
      returns (r: Result<Certification, Error>)
      modifies store`current
      ensures r.Err? ==> store.current == old(store.current)
      ensures r.Ok? ==> r.value.id == certificationId && IssuedFor(r.value, old(Held()), storyId, commit, acceptance, certifier, context)
      ensures r.Ok? && !Performed(old(Held()), CertificationPersisted(r.value)) ==>
        replay && store.current == old(store.current) && r.value in old(Held()).certifications
      ensures r.Err? && !Unissuable(old(Held()), storyId, certificationId) ==>
        r.error.CertificationFailed? || r.error == WriteFailed || r.error == InvalidState
    {
      hide Unissuable;
      hide Outcome;
      hide IssuedFor;
      hide Performed;
      hide Views;
      var current := store.current;
      var candidate := CandidateState(current);
      var append: bool;
      r, append := CertifyIn(candidate, storyId, commit, acceptance, certifier, context, certificationId, certifiedAt, replay);
      if r.Ok? && append {
        var error := SaveCandidate(current, candidate, CertificationPersisted(r.value));
        if error.Some? {
          r := Err(error.value);
        }
      }
    }

    static ghost predicate BadBatch(stories: seq<UserStory>)
      reads stories
    {
      || stories == []
      || (exists i :: 0 <= i < |stories| && stories[i].status != Proposed)
      || (exists i, j :: 0 <= i < j < |stories| && stories[i].id == stories[j].id)
    }

    /** What is checked of a batch before the state is loaded. */
    method BatchError(stories: seq<UserStory>) returns (error: Option<Error>)
      ensures error.None? ==> stories != [] && forall i :: 0 <= i < |stories| ==> stories[i].status == Proposed
      ensures error.None? ==> forall i, j :: 0 <= i < j < |stories| ==> stories[i].id != stories[j].id
      ensures error.Some? ==> BadBatch(stories)
    {
      if stories == [] {
        return Some(EmptyBatch);
      }
      if exists i | 0 <= i < |stories| :: stories[i].status != Proposed {
        return Some(InvalidInitialStatus);
      }
      if exists i, j | 0 <= i < j < |stories| :: stories[i].id == stories[j].id {
        return Some(DuplicateId);
      }
      error := None;
    }

    lemma TakenIdIsRefused(p: Project, values: seq<Story>, k: nat)
      requires k < |values| && !IdIsNew(p.stories + values[..k], StoryId, values[k].id)
      ensures !Enabled(p, StoriesAdded(values), rules)
    {
      var longer := p.stories + values[..k];
      var i :| 0 <= i < |longer| && longer[i].id == values[k].id;
      if i >= |p.stories| {
        assert longer[i] == values[i - |p.stories|];
      }
    }

    lemma OneStoryMore(before: seq<Story>, values: seq<Story>, k: nat)
      requires k < |values| && IdIsNew(before + values[..k], StoryId, values[k].id)
      ensures IdIsNew(before, StoryId, values[k].id)
      ensures (before + values[..k]) + [values[k]] == before + values[..k + 1]
    {
      var longer := before + values[..k];
      assert forall j :: 0 <= j < |before| ==> before[j] == longer[j];
    }

    static lemma SameIdentities(stories: seq<UserStory>, values: seq<Story>)
      requires |values| == |stories| && forall i :: 0 <= i < |stories| ==> values[i] == stories[i].View()
      ensures forall i :: 0 <= i < |stories| ==> values[i].id == stories[i].id && values[i].status == stories[i].status
    {
    }

    lemma AddOutcome(p: Project, after: Project, stories: seq<Story>)
      requires forall i, j :: 0 <= i < j < |stories| ==> stories[i].id != stories[j].id
      requires forall i :: 0 <= i < |stories| ==> stories[i].status == Proposed
      requires forall i :: 0 <= i < |stories| ==> IdIsNew(p.stories, StoryId, stories[i].id)
      requires after == p.(stories := p.stories + stories)
      ensures Outcome(p, StoriesAdded(stories), after, rules)
    {
    }

    /** One turn of the loop of `add_user_stories`: a copy is appended unless the id is taken. */
    method AddOne(candidate: ProjectState, story: UserStory) returns (added: bool)
      modifies candidate`stories
      ensures !added ==> candidate.stories == old(candidate.stories) && !IdIsNew(old(candidate.View()).stories, StoryId, story.View().id)
      ensures added ==> IdIsNew(old(candidate.View()).stories, StoryId, story.View().id)
      ensures added ==> candidate.View() == old(candidate.View()).(stories := old(candidate.View()).stories + [story.View()])
      ensures forall s :: s in candidate.stories ==> s in old(candidate.stories) || fresh(s)
    {
      hide Views;
      ghost var p := candidate.View();
      if exists j | 0 <= j < |candidate.stories| :: candidate.stories[j].id == story.id {
        return false;
      }
      assert forall j :: 0 <= j < |p.stories| ==> p.stories[j] == candidate.stories[j].View();
      var copy := CandidateStory(story);
      candidate.stories := candidate.stories + [copy];
      SameViews(candidate, p.(stories := p.stories + [story.View()]));
      added := true;
    }

    /** The changes of `add_user_stories` to its candidate. */
    method AddIn(candidate: ProjectState, stories: seq<UserStory>) returns (error: Option<Error>)
      requires forall i, j :: 0 <= i < j < |stories| ==> stories[i].id != stories[j].id
      requires forall i :: 0 <= i < |stories| ==> stories[i].status == Proposed
      modifies candidate`stories
      ensures error.None? ==> Outcome(old(candidate.View()), StoriesAdded(Views(stories)), candidate.View(), rules)
      ensures error.None? ==> forall s :: s in candidate.stories ==> s in old(candidate.stories) || fresh(s)
      ensures error.Some? ==> !Enabled(old(candidate.View()), StoriesAdded(Views(stories)), rules)
    {
      hide *;
      ghost var p, values := candidate.View(), Views(stories);
      for k := 0 to |stories|
        invariant candidate.View() == p.(stories := p.stories + values[..k]) && Views(stories) == values
        invariant forall s :: s in candidate.stories ==> s in old(candidate.stories) || fresh(s)
        invariant forall i :: 0 <= i < k ==> IdIsNew(p.stories, StoryId, values[i].id)
      {
        var added := AddOne(candidate, stories[k]);
        if !added {
          TakenIdIsRefused(p, values, k);
          return Some(DuplicateId);
        }
        OneStoryMore(p.stories, values, k);
      }
      assert values[..|stories|] == values;
      SameIdentities(stories, values);
      AddOutcome(p, candidate.View(), values);
      error := None;
    }

    lemma BadBatchIsRefused(p: Project, stories: seq<UserStory>)
      requires BadBatch(stories)
      ensures stories != [] ==> !Enabled(p, StoriesAdded(Views(stories)), rules)
    {
      hide Views;
      var values := Views(stories);
      if i :| 0 <= i < |stories| && stories[i].status != Proposed {
        assert values[i].status != Proposed;
      } else if i, j :| 0 <= i < j < |stories| && stories[i].id == stories[j].id {
        assert values[i].id == values[j].id;
      }
    }

    /** `add_user_stories`; `add_user_story` is the case of one story. */
    method AddUserStories(stories: seq<UserStory>) returns (r: Result<seq<UserStory>, Error>)
      modifies store`current
      ensures r.Err? ==> store.current == old(store.current)
      ensures r.Ok? ==> r.value == stories && Performed(old(Held()), StoriesAdded(old(Views(stories))))
      ensures r.Ok? ==> forall s :: s in store.current.stories ==> s in old(store.current.stories) || fresh(s)
      ensures r.Err? && stories != [] && Enabled(old(Held()), StoriesAdded(old(Views(stories))), rules) ==>
        StoreRefuses(r.error, store.isValid, After(old(Held()), StoriesAdded(old(Views(stories)))))
    {
      hide Outcome;
      hide Views;
      hide Performed;
      var error := BatchError(stories);
      if error.Some? {
        BadBatchIsRefused(Held(), stories);
      } else {
        var current := store.current;
        var candidate := CandidateState(current);
        error := AddIn(candidate, stories);
        if error.None? {
          error := SaveCandidate(current, candidate, StoriesAdded(Views(stories)));
        }
      }
      r := if error.Some? then Err(error.value) else Ok(stories);
    }

    /** The promotion of a story is backed: its commit has exactly one certification, certified and without an issue. */
    ghost predicate Promotable(p: Project, s: Story, context: Option<TransitionContext>) {
      && context.Some? && context.value.commit.Some? && !rules.isBlank(context.value.commit.value)
      && var matches := ApplicableCertifications(p.certifications, s.id, context.value.commit.value);
         |matches| == 1 && matches[0].result == Verdict.Certified && Coherent(DossierIn(p, s, matches[0]), rules)
    }

    /** The context and the authorization that a promotion is evaluated with. */
    static predicate Promoting(subject: string, context: Option<TransitionContext>, resolved: Option<TransitionContext>, authorization: Option<Authorization>)
    {
      && context.Some? && context.value.commit.Some? && resolved == Some(context.value.(proven := Some(true)))
      && authorization.Some? && authorization.value.subject == subject && authorization.value.commit == context.value.commit.value
    }

    /** The transition is allowed, and backed where it is a promotion of a certification with an id. */
    ghost predicate CanTransition(p: Project, i: nat, storyId: string, target: Option<StoryStatus>, context: Option<TransitionContext>) {
      && Sole(p, storyId, i)
      && if p.stories[i].status == StoryStatus.Certification && target == Some(StoryStatus.Certified)
         then Promotable(p, p.stories[i], context) && forall c :: c in p.certifications ==> c.id != ""
         else TransitionAllowed(p.stories[i].status, storyId, p.stories[i].dependsOn, target, context, None)
    }

    /** `_resolve_transition_context`: only a certified dossier without an issue authorizes promotion. */
    method ResolveTransitionContext(state: ProjectState, story: UserStory, target: Option<StoryStatus>, context: Option<TransitionContext>)
      returns (r: Result<Option<TransitionContext>, Error>, authorization: Option<Authorization>)
      ensures r.Ok? && authorization.Some? ==> HasDossier(state.View(), rules, story.View())
      ensures authorization.Some? ==> story.status == StoryStatus.Certification && target == Some(StoryStatus.Certified)
      ensures r.Ok? && authorization.None? ==> r.value == context && !(story.status == StoryStatus.Certification && target == Some(StoryStatus.Certified))
      ensures story.status != StoryStatus.Certification || target != Some(StoryStatus.Certified) ==> r == Ok(context)
      ensures story.status == StoryStatus.Certification && target == Some(StoryStatus.Certified) ==>
        (r.Ok? <==> Promotable(state.View(), story.View(), context)) && (r.Ok? ==> Promoting(story.id, context, r.value, authorization))
      ensures authorization.Some? ==> exists c :: c in state.certifications && c.id == authorization.value.certification
    {
      hide Coherent;
      hide Views;
      authorization := None;
      if story.status != StoryStatus.Certification || target != Some(StoryStatus.Certified) {
        return Ok(context), None;
      }
      if context.None? || context.value.commit.None? || rules.isBlank(context.value.commit.value) {
        return Err(CommitRequired), None;
      }
      var commit := context.value.commit.value;
      var matches := ApplicableCertifications(state.certifications, story.id, commit);
      if |matches| != 1 {
        return Err(if matches == [] then CertificationNotFound else AmbiguousCertification), None;
      }
      var c := matches[0];
      if c.result != Verdict.Certified {
        return Err(CertificationNotCertified), None;
      }
      var dossier := Dossier(story.View(), c, state.gates, state.evidence);
      var issues := CertifiedDossierIssues(dossier, rules);
      if issues != [] {
        return Err(CertificationIntegrityInvalid(issues)), None;
      }
      assert DossierIn(state.View(), story.View(), c) == dossier;
      var k :| 0 <= k < |state.certifications| && state.certifications[k] == c;
      assert Backs(state.View(), rules, story.View(), state.View().certifications[k]);
      authorization := Some(Authorization(story.id, commit, c.id));
      assert matches == ApplicableCertifications(state.View().certifications, story.View().id, commit);
      r := Ok(Some(context.value.(proven := Some(true))));
    }

    lemma UnbackedPromotion(p: Project, i: nat, storyId: string, target: Option<StoryStatus>, context: Option<TransitionContext>)
      requires Sole(p, storyId, i) && p.stories[i].status == StoryStatus.Certification && target == Some(StoryStatus.Certified)
      requires !Promotable(p, p.stories[i], context)
      ensures forall k: nat :: !CanTransition(p, k, storyId, target, context)
    {
      hide Promotable;
    }

    lemma NobodyTransitions(p: Project, storyId: string, target: Option<StoryStatus>, context: Option<TransitionContext>)
      requires forall i :: !Sole(p, storyId, i)
      ensures forall k: nat :: !CanTransition(p, k, storyId, target, context)
    {
    }

    /** A refusal, whether by the context or by the transition service, means that the transition is not possible. */
    lemma RefusedTransition(p: Project, i: nat, storyId: string, target: Option<StoryStatus>, context: Option<TransitionContext>,
                            resolved: Option<TransitionContext>, authorization: Option<Authorization>)
      requires Sole(p, storyId, i)
      requires p.stories[i].status == StoryStatus.Certification && target == Some(StoryStatus.Certified) ==>
        Promoting(storyId, context, resolved, authorization) && (authorization.value.certification != "" || exists c :: c in p.certifications && c.id == "")
      requires !(p.stories[i].status == StoryStatus.Certification && target == Some(StoryStatus.Certified)) ==> resolved == context && authorization == None
      requires !TransitionAllowed(p.stories[i].status, storyId, p.stories[i].dependsOn, target, resolved, authorization)
      ensures forall k: nat :: !CanTransition(p, k, storyId, target, context)
    {
      hide Promotable;
      forall k: nat
        ensures CanTransition(p, k, storyId, target, context) ==> k == i
      {
      }
    }

    lemma TransitionOutcome(p: Project, after: Project, i: nat, target: StoryStatus)
      requires i < |p.stories| && AllowedTransition(p.stories[i].status, target)
      requires target == StoryStatus.Certified ==> HasDossier(p, rules, p.stories[i])
      requires after == p.(stories := p.stories[i := p.stories[i].(status := target)])
      ensures Outcome(p, Transitioned(i, target), after, rules)
    {
      hide HasDossier;
      hide AllowedTransition;
    }

    /** The changes of `transition_user_story` to its candidate. */
    method TransitionIn(candidate: ProjectState, storyId: string, target: Option<StoryStatus>, context: Option<TransitionContext>)
      returns (r: Result<nat, Error>)
      modifies candidate`stories
      ensures r.Ok? ==> target.Some? && Outcome(old(candidate.View()), Transitioned(r.value, target.value), candidate.View(), rules)
      ensures r.Ok? ==> Sole(old(candidate.View()), storyId, r.value)
      ensures r.Err? ==> forall k: nat :: !CanTransition(old(candidate.View()), k, storyId, target, context)
    {
      hide HasDossier;
      hide Views;
      hide TransitionAllowed;
      hide AllowedTransition;
      hide Outcome;
      hide CanTransition;
      hide Promotable;
      ghost var p := candidate.View();
      var found := RequireUniqueStory(candidate, storyId);
      assert candidate.View() == p;
      if found.Err? {
        NobodyTransitions(p, storyId, target, context);
        return Err(found.error);
      }
      var story := CopyInto(candidate, found.value);
      var resolved, authorization := ResolveTransitionContext(candidate, story, target, context);
      if resolved.Err? {
        UnbackedPromotion(p, found.value, storyId, target, context);
        return Err(resolved.error);
      }
      assert authorization.Some? ==> HasDossier(p, rules, p.stories[found.value]);
      var refusals := ApplyTransition(story, target, resolved.value, authorization);
      if refusals != [] {
        RefusedTransition(p, found.value, storyId, target, context, resolved.value, authorization);
        return Err(TransitionRefused(refusals));
      }
      assert story.View() == p.stories[found.value].(status := target.value);
      Edited(candidate, p, found.value, story.View());
      TransitionOutcome(p, candidate.View(), found.value, target.value);
      r := Ok(found.value);
    }

    /** `transition_user_story`. */
    method TransitionUserStory(storyId: string, target: Option<StoryStatus>, context: Option<TransitionContext>) returns (r: Result<nat, Error>)
      modifies store`current
      ensures r.Err? ==> store.current == old(store.current)
      ensures r.Ok? ==> target.Some? && r.value < |old(Held()).stories| && old(Held()).stories[r.value].id == storyId
      ensures r.Ok? ==> Performed(old(Held()), Transitioned(r.value, target.value))
      ensures r.Err? ==> forall k: nat :: CanTransition(old(Held()), k, storyId, target, context) && target.Some? ==>
        StoreRefuses(r.error, store.isValid, After(old(Held()), Transitioned(k, target.value)))
    {
      hide Outcome;
      hide Performed;
      hide Views;
      var current := store.current;
      var candidate := CandidateState(current);
      r := TransitionIn(candidate, storyId, target, context);
      if r.Ok? {
        var error := SaveCandidate(current, candidate, Transitioned(r.value, target.value));
        if error.Some? {
          r := Err(error.value);
        }
      }
    }

    /** One call of the loop: what the store holds has not changed, or is the outcome of an enabled operation. */
    method Perform(call: Call) returns (ghost action: Option<Action>)
      modifies store`current
      ensures action.None? ==> store.current == old(store.current)
      ensures action.Some? ==> Performed(old(Held()), action.value)
    {
      hide Performed;
      hide Views;
      action := None;
      match call {
        case Approve(story, evidence, commit) =>
          var r := ApplyHumanApproval(story, evidence, commit);
          if r.Ok? {
            ghost var i: nat, e: Evidence :| Performed(old(Held()), ApprovalApplied(i, e));
            action := Some(ApprovalApplied(i, e));
          }
        case Observe(o, id, timestamp) =>
          var r := RecordEvidence(o, id, timestamp);
          action := if r.Ok? then Some(EvidenceRecorded(r.value)) else None;
        case Judge(contract, evaluation) =>
          var r := EvaluateGate(contract, evaluation);
          action := if r.Ok? then Some(GateEvaluated(r.value)) else None;
        case Certify(story, commit, acceptance, certifier, context, id, at, replay) =>
          var r := CertifyUserStory(story, commit, acceptance, certifier, context, id, at, replay);
          action := if r.Ok? && Performed(old(Held()), CertificationPersisted(r.value)) then Some(CertificationPersisted(r.value)) else None;
        case Add(stories) =>
          var r := AddUserStories(stories);
          action := if r.Ok? then Some(StoriesAdded(old(Views(stories)))) else None;
        case Transition(story, target, context) =>
          var r := TransitionUserStory(story, target, context);
          action := if r.Ok? then Some(Transitioned(r.value, target.value)) else None;
      }
    }

    /** Any sequence of calls: it is a run of operations, so every certified story stays backed. */
    method Session(calls: seq<Call>)
      requires CertifiedIsBacked(Held(), rules)
      modifies store`current
      ensures exists actions :: Run(old(Held()), actions, rules, Held())
      ensures CertifiedIsBacked(Held(), rules)
    {
      hide Views;
      hide Enabled;
      hide After;
      hide CertifiedIsBacked;
      ghost var actions: seq<Action> := [];
      for k := 0 to |calls|
        invariant Run(old(Held()), actions, rules, Held())
      {
        ghost var before := Held();
        ghost var action := Perform(calls[k]);
        if action.Some? {
          RunOneMore(old(Held()), actions, rules, before, action.value);
          actions := actions + [action.value];
        }
      }
      RunKeepsBacking(old(Held()), actions, rules, Held());
    }
  }

  /** The calls that a user of the loop can make. */
  datatype Call =
    | Approve(story: string, evidence: string, commit: string)
    | Observe(observation: Observation, id: string, timestamp: Instant)
    | Judge(contract: string, evaluation: Option<Gate>)
    | Certify(story: string, commit: string, acceptance: seq<AcceptanceResult>, certifier: string, context: Context,
              id: string, at: Instant, replay: bool)
    | Add(stories: seq<UserStory>)
    | Transition(story: string, target: Option<StoryStatus>, facts: Option<TransitionContext>)

  /** The certifications of a story at a commit. */
  function ApplicableCertifications(certifications: seq<Certification>, subject: string, commit: string): (r: seq<Certification>)
    ensures forall c :: c in r <==> c in certifications && c.subject == subject && c.commit == commit
  {
    if certifications == [] then []
    else
      var c := certifications[0];
      (if c.subject == subject && c.commit == commit then [c] else []) + ApplicableCertifications(certifications[1..], subject, commit)
  }
}
