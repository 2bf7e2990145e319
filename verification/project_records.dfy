/** The project's records as values, and what each operation of the control loop does to them. */
module ProjectRecords {
  import opened Wrappers
  import opened Domain
  import opened Ordering
  import opened Certification
  import opened CertificationIntegrity

  datatype Project = Project(stories: seq<Story>, evidence: seq<Evidence>, gates: seq<Gate>, certifications: seq<Certification>)

  function CertificationId(c: Certification): string { c.id }
  function StoryId(s: Story): string { s.id }

  function DossierIn(p: Project, s: Story, c: Certification): Dossier {
    Dossier(s, c, p.gates, p.evidence)
  }

  /** A certification that certifies the story, without an issue. */
  ghost predicate Backs(p: Project, rules: Rules, s: Story, c: Certification) {
    c.subject == s.id && c.result == Verdict.Certified && Coherent(DossierIn(p, s, c), rules)
  }

  ghost predicate HasDossier(p: Project, rules: Rules, s: Story) {
    exists i :: 0 <= i < |p.certifications| && Backs(p, rules, s, p.certifications[i])
  }

  /** Every certified story has a coherent certified dossier. */
  ghost predicate CertifiedIsBacked(p: Project, rules: Rules) {
    forall i :: 0 <= i < |p.stories| && p.stories[i].status == StoryStatus.Certified ==> HasDossier(p, rules, p.stories[i])
  }

  // ---------- transitions between states of a story ----------

  /** `ALLOWED_TRANSITIONS`. */
  predicate AllowedTransition(source: StoryStatus, target: StoryStatus) {
    match source
    case Proposed => target == Planned || target == Cancelled
    case Planned => target == Ready || target == StoryStatus.Blocked || target == Cancelled
    case Blocked => target == Ready || target == Cancelled
    case Ready => target == InProgress || target == StoryStatus.Blocked || target == Cancelled
    case InProgress => target == Implemented || target == StoryStatus.Blocked || target == Cancelled
    case Implemented => target == Testing || target == Cancelled
    case Testing => target == Review || target == StoryStatus.Rejected || target == Cancelled
    case Review => target == StoryStatus.Certification || target == StoryStatus.Rejected || target == Cancelled
    case Certification => target == StoryStatus.Certified || target == StoryStatus.Rejected || target == Cancelled
    case Rejected => target == RemediationRequired || target == Cancelled
    case RemediationRequired => target == Ready || target == Cancelled
    case Certified => false
    case Cancelled => false
  }

  // ---------- what an operation changes ----------

  datatype Action =
    | ApprovalApplied(story: nat, evidence: Evidence)
    | EvidenceRecorded(evidence: Evidence)
    | GateEvaluated(gate: Gate)
    | CertificationPersisted(certification: Certification)
    | StoriesAdded(stories: seq<Story>)
    | Transitioned(story: nat, target: StoryStatus)

  predicate IdIsNew<T>(items: seq<T>, key: T -> string, id: string) {
    forall i | 0 <= i < |items| :: key(items[i]) != id
  }

  /** `HumanApprovalService.apply` on an approval. */
  function Decide(approval: Approval, e: Evidence): Approval {
    if e.result == Flag(true) then Approval(approval.required, true, Some(e.producer), Some(e.timestamp), Some(e.id))
    else approval
  }

  /** Under which conditions an operation gets as far as saving its candidate. */
  ghost predicate Enabled(p: Project, action: Action, rules: Rules) {
    match action
    case ApprovalApplied(i, e) =>
      i < |p.stories| && Only(p.evidence, EvidenceId, e.id) == Some(e) && DecisionApplies(p.stories[i], e, rules)
    case EvidenceRecorded(e) => IdIsNew(p.evidence, EvidenceId, e.id) && rules.evidenceIsValid(e)
    case GateEvaluated(g) => IdIsNew(p.gates, GateId, g.id)
    case CertificationPersisted(c) =>
      && IdIsNew(p.certifications, CertificationId, c.id)
      && exists i :: 0 <= i < |p.stories| && p.stories[i].id == c.subject && Coherent(DossierIn(p, p.stories[i], c), rules)
    case StoriesAdded(stories) =>
      forall i :: 0 <= i < |stories| ==>
        && stories[i].status == Proposed && IdIsNew(p.stories, StoryId, stories[i].id)
        && forall j :: 0 <= j < i ==> stories[j].id != stories[i].id
    case Transitioned(i, target) =>
      && i < |p.stories| && AllowedTransition(p.stories[i].status, target)
      && (target == StoryStatus.Certified ==> HasDossier(p, rules, p.stories[i]))
  }

  /** `HumanApprovalService.evaluate`, except for the expected commit. */
  predicate DecisionApplies(s: Story, e: Evidence, rules: Rules) {
    && rules.evidenceIsValid(e) && s.approval.required && e.kind == HumanDecision && e.subject == s.id && e.result.Flag?
    && rules.isHuman(e.source) && rules.attributableHuman(e.producer)
    && (e.result == Flag(true) ==> !s.approval.approved)
  }

  function After(p: Project, action: Action): Project {
    match action
    case ApprovalApplied(i, e) =>
      if i < |p.stories| then p.(stories := p.stories[i := p.stories[i].(approval := Decide(p.stories[i].approval, e))]) else p
    case EvidenceRecorded(e) => p.(evidence := p.evidence + [e])
    case GateEvaluated(g) => p.(gates := p.gates + [g])
    case CertificationPersisted(c) => p.(certifications := p.certifications + [c])
    case StoriesAdded(stories) => p.(stories := p.stories + stories)
    case Transitioned(i, target) =>
      if i < |p.stories| then p.(stories := p.stories[i := p.stories[i].(status := target)]) else p
  }

  // ---------- no operation breaks a dossier ----------

  /** New evidence is found under no id that a coherent dossier refers to. */
  lemma EvidenceKeepsDossier(d: Dossier, e: Evidence, rules: Rules)
    requires d.certification.result == Verdict.Certified && Coherent(d, rules) && IdIsNew(d.evidence, EvidenceId, e.id)
    ensures Coherent(d.(evidence := d.evidence + [e]), rules)
  {
    var after := d.(evidence := d.evidence + [e]);
    forall issue
      ensures !IssueHolds(issue, after, rules)
    {
      EvidenceKeepsIssue(d, e, rules, issue);
    }
  }

  lemma ReferencedIsFound(d: Dossier, rules: Rules, id: string)
    requires d.certification.result == Verdict.Certified && Coherent(d, rules) && (id in d.certification.refs || CitedByGate(d, id))
    ensures Found(d, id).Some? && id in d.certification.refs
  {
    hide CitedByGate;
    assert !IssueHolds(GateEvidenceNotCertified(id), d, rules);
    assert !IssueHolds(EvidenceReferenceInvalid(id), d, rules);
  }

  lemma SameFound(d: Dossier, e: Evidence, id: string)
    requires Found(d, id).Some? && IdIsNew(d.evidence, EvidenceId, e.id)
    ensures Found(d.(evidence := d.evidence + [e]), id) == Found(d, id)
  {
    OnlyAppend(d.evidence, EvidenceId, id, e);
  }

  lemma EvidenceKeepsIssue(d: Dossier, e: Evidence, rules: Rules, issue: Issue)
    requires d.certification.result == Verdict.Certified && Coherent(d, rules) && IdIsNew(d.evidence, EvidenceId, e.id)
    ensures !IssueHolds(issue, d.(evidence := d.evidence + [e]), rules)
  {
    hide Only;
    hide IdIsNew;
    var after := d.(evidence := d.evidence + [e]);
    assert !IssueHolds(issue, d, rules);
    assert forall id :: RequiredGate(after, id) == RequiredGate(d, id);
    forall id | id in d.certification.refs
      ensures Found(after, id) == Found(d, id) && Found(d, id).Some?
    {
      ReferencedIsFound(d, rules, id);
      SameFound(d, e, id);
    }
    if AboutEvidence(issue) && CitedByGate(after, issue.ref) {
      SameCitations(d, after, issue.ref);
      ReferencedIsFound(d, rules, issue.ref);
    } else if issue.AcceptanceEvidenceInvalid? && IsMandatory(d.story, issue.id) {
      SameProof(d, after, issue.id);
    }
  }

  lemma SameCitations(d: Dossier, after: Dossier, ref: string)
    requires d.story == after.story && forall id :: RequiredGate(after, id) == RequiredGate(d, id)
    ensures CitedByGate(after, ref) <==> CitedByGate(d, ref)
  {
    hide RequiredGate;
  }

  lemma SameProof(d: Dossier, after: Dossier, criterion: string)
    requires d.certification == after.certification
    requires forall id :: id in d.certification.refs ==> Found(after, id) == Found(d, id)
    ensures PositivelyProven(after, criterion) <==> PositivelyProven(d, criterion)
  {
    hide Found;
    var refs := d.certification.refs;
    assert forall i :: 0 <= i < |refs| ==> IsProof(after, refs[i], criterion) == IsProof(d, refs[i], criterion);
  }

  /** A new gate is none of those the story requires. */
  lemma GateKeepsDossier(d: Dossier, g: Gate, rules: Rules)
    requires d.certification.result == Verdict.Certified && Coherent(d, rules) && IdIsNew(d.gates, GateId, g.id)
    ensures Coherent(d.(gates := d.gates + [g]), rules)
  {
    hide Only;
    hide IssueHolds;
    var after := d.(gates := d.gates + [g]);
    forall id | id in d.story.requiredGates
      ensures Only(after.gates, GateId, id) == Only(d.gates, GateId, id)
    {
      RequiredGateIsFound(d, rules, id);
      OnlyAppend(d.gates, GateId, id, g);
    }
    forall issue
      ensures !IssueHolds(issue, after, rules)
    {
      SameGatesSameIssue(d, after, rules, issue);
    }
  }

  lemma RequiredGateIsFound(d: Dossier, rules: Rules, id: string)
    requires d.certification.result == Verdict.Certified && Coherent(d, rules) && id in d.story.requiredGates
    ensures Only(d.gates, GateId, id).Some?
  {
    hide Only;
    assert !IssueHolds(RequiredGateMissing(id), d, rules);
  }

  lemma SameGatesSameIssue(d: Dossier, after: Dossier, rules: Rules, issue: Issue)
    requires after == d.(gates := after.gates)
    requires forall id :: id in d.story.requiredGates ==> Only(after.gates, GateId, id) == Only(d.gates, GateId, id)
    ensures IssueHolds(issue, after, rules) <==> IssueHolds(issue, d, rules)
  {
    hide Only;
    hide Attributable;
    assert forall id :: RequiredGate(after, id) == RequiredGate(d, id);
    assert forall id :: Found(after, id) == Found(d, id);
    if AboutEvidence(issue) {
      SameCitations(d, after, issue.ref);
    } else if issue.AcceptanceEvidenceInvalid? {
      SameProof(d, after, issue.id);
    }
  }

  /** The check looks neither at a story's state nor at its time of change. */
  lemma StatusKeepsDossier(d: Dossier, status: StoryStatus, rules: Rules)
    requires d.certification.result == Verdict.Certified && Coherent(d, rules)
    ensures Coherent(d.(story := d.story.(status := status)), rules)
  {
    var after := d.(story := d.story.(status := status));
    forall issue
      ensures !IssueHolds(issue, after, rules)
    {
      assert !IssueHolds(issue, d, rules);
      SameStorySameIssue(d, after, rules, issue);
    }
  }

  lemma SameStorySameIssue(d: Dossier, after: Dossier, rules: Rules, issue: Issue)
    requires after == d.(story := after.story) && after.story == d.story.(status := after.story.status)
    ensures IssueHolds(issue, after, rules) <==> IssueHolds(issue, d, rules)
  {
    hide Only;
    hide Attributable;
    assert forall id :: RequiredGate(after, id) == RequiredGate(d, id);
    assert forall id :: Found(after, id) == Found(d, id);
    if issue.AcceptanceEvidenceInvalid? || issue.MandatoryAcceptanceNotPass? {
      SameProof(d, after, issue.id);
    }
  }

  /** A story with a coherent dossier has its approval already, if it needs one. */
  lemma ApprovalKeepsDossier(d: Dossier, e: Evidence, rules: Rules)
    requires d.certification.result == Verdict.Certified && Coherent(d, rules) && DecisionApplies(d.story, e, rules)
    ensures Decide(d.story.approval, e) == d.story.approval
  {
    assert !IssueHolds(HumanApprovalIncomplete, d, rules);
  }

  /** Every coherent dossier survives every operation, for the story as it is afterwards. */
  lemma DossierSurvives(p: Project, action: Action, rules: Rules, i: nat, c: Certification)
    requires Enabled(p, action, rules) && i < |p.stories| && Backs(p, rules, p.stories[i], c)
    ensures i < |After(p, action).stories| && Backs(After(p, action), rules, After(p, action).stories[i], c)
  {
    hide Coherent;
    hide IdIsNew;
    hide DecisionApplies;
    hide HasDossier;
    var d := DossierIn(p, p.stories[i], c);
    match action {
      case ApprovalApplied(j, e) =>
        if i == j {
          ApprovalKeepsDossier(d, e, rules);
        }
      case EvidenceRecorded(e) => EvidenceKeepsDossier(d, e, rules);
      case GateEvaluated(g) => GateKeepsDossier(d, g, rules);
      case CertificationPersisted(_) =>
      case StoriesAdded(_) =>
      case Transitioned(j, target) =>
        if i == j {
          StatusKeepsDossier(d, target, rules);
        }
    }
  }

  lemma CertificationsGrow(p: Project, action: Action)
    ensures p.certifications <= After(p, action).certifications
  {
  }

  lemma HasDossierSurvives(p: Project, action: Action, rules: Rules, i: nat)
    requires Enabled(p, action, rules) && i < |p.stories| && HasDossier(p, rules, p.stories[i])
    ensures i < |After(p, action).stories| && HasDossier(After(p, action), rules, After(p, action).stories[i])
  {
    hide Backs;
    hide Enabled;
    var k :| 0 <= k < |p.certifications| && Backs(p, rules, p.stories[i], p.certifications[k]);
    DossierSurvives(p, action, rules, i, p.certifications[k]);
    CertificationsGrow(p, action);
    assert Backs(After(p, action), rules, After(p, action).stories[i], After(p, action).certifications[k]);
  }

  /** One operation keeps every certified story backed. */
  lemma StepKeepsBacking(p: Project, action: Action, rules: Rules)
    requires CertifiedIsBacked(p, rules) && Enabled(p, action, rules)
    ensures CertifiedIsBacked(After(p, action), rules)
  {
    hide HasDossier;
    hide IdIsNew;
    hide DecisionApplies;
    var after := After(p, action);
    forall i | 0 <= i < |after.stories| && after.stories[i].status == StoryStatus.Certified
      ensures HasDossier(after, rules, after.stories[i])
    {
      if i < |p.stories| {
        HasDossierSurvives(p, action, rules, i);
      }
    }
  }

  ghost predicate Run(p: Project, actions: seq<Action>, rules: Rules, after: Project)
    decreases |actions|
  {
    if actions == [] then after == p
    else Enabled(p, actions[0], rules) && Run(After(p, actions[0]), actions[1..], rules, after)
  }

  /** In every run of operations, every certified story stays backed. */
  lemma {:induction false} RunKeepsBacking(p: Project, actions: seq<Action>, rules: Rules, after: Project)
    requires CertifiedIsBacked(p, rules) && Run(p, actions, rules, after)
    ensures CertifiedIsBacked(after, rules)
    decreases |actions|
  {
    if actions != [] {
      StepKeepsBacking(p, actions[0], rules);
      RunKeepsBacking(After(p, actions[0]), actions[1..], rules, after);
    }
  }

  /** A certified story is certified for good, by the certification that made it so. */
  lemma {:induction false} CertifiedForGood(p: Project, actions: seq<Action>, rules: Rules, after: Project, i: nat, c: Certification)
    requires Run(p, actions, rules, after) && i < |p.stories| && p.stories[i].status == StoryStatus.Certified
    requires c in p.certifications && Backs(p, rules, p.stories[i], c)
    ensures i < |after.stories| && after.stories[i].status == StoryStatus.Certified && after.stories[i].id == p.stories[i].id
    ensures c in after.certifications && Backs(after, rules, after.stories[i], c)
    decreases |actions|
  {
    hide Backs;
    if actions != [] {
      DossierSurvives(p, actions[0], rules, i, c);
      CertifiedForGood(After(p, actions[0]), actions[1..], rules, after, i, c);
    }
  }

  /** A run can be continued by one more operation. */
  lemma {:induction false} RunOneMore(p: Project, actions: seq<Action>, rules: Rules, middle: Project, action: Action)
    requires Run(p, actions, rules, middle) && Enabled(middle, action, rules)
    ensures Run(p, actions + [action], rules, After(middle, action))
    decreases |actions|
  {
    hide Enabled;
    hide After;
    if actions == [] {
      assert (actions + [action])[1..] == [];
    } else {
      RunOneMore(After(p, actions[0]), actions[1..], rules, middle, action);
      assert (actions + [action])[1..] == actions[1..] + [action];
    }
  }
}
