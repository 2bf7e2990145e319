/** The separately written check of certified dossiers: `certification_integrity.py`. */
module CertificationIntegrity {
  import opened Wrappers
  import opened Ordering
  import opened Certification

  datatype Issue =
    | SubjectMismatch | CertifierNotAttributable
    | EvidenceReferenceInvalid(id: string) | EvidenceCommitMismatch(id: string) | EvidenceSubjectMismatch(id: string)
    | AcceptanceResultsIncomplete | MandatoryAcceptanceNotPass(id: string) | AcceptanceEvidenceInvalid(id: string)
    | AuthorityDuplicate | AuthorityNotRequired(id: string)
    | GateResultsIncomplete | RequiredGateMissing(id: string) | RequiredGateMismatch(id: string)
    | GateResultMismatch(id: string) | RequiredGateNotSatisfied(id: string)
    | AuthorityMissing(id: string) | AuthorityUnused(id: string)
    | GateEvidenceMissing(id: string) | GateEvidenceNotCertified(ref: string) | GateEvidenceSubjectMismatch(ref: string)
    | HumanApprovalMismatch | HumanApprovalIncomplete | HumanEvidenceInvalid

  /** A story with its certification and everything recorded for the project. */
  datatype Dossier = Dossier(story: Story, certification: Certification, gates: seq<Gate>, evidence: seq<Evidence>)

  // ---------- what each issue means ----------

  predicate IsCriterion(story: Story, id: string) {
    exists i | 0 <= i < |story.criteria| :: story.criteria[i].id == id
  }

  predicate IsMandatory(story: Story, id: string) {
    exists i | 0 <= i < |story.criteria| :: story.criteria[i].id == id && story.criteria[i].mandatory
  }

  predicate Attributable(rules: Rules, certifier: string) {
    if rules.isCodex(certifier) then rules.codexRole(certifier) else rules.attributableHuman(certifier)
  }

  function Found(d: Dossier, id: string): Option<Evidence> {
    Only(d.evidence, EvidenceId, id)
  }

  function RequiredGate(d: Dossier, id: string): Option<Gate> {
    if id in d.story.requiredGates then Only(d.gates, GateId, id) else None
  }

  /** Referenced evidence that is offered as proof of a criterion. */
  predicate IsProof(d: Dossier, ref: string, criterion: string) {
    var e := Found(d, ref);
    e.Some? && e.value.subject == criterion && e.value.kind == AcceptanceCriterionCheck
  }

  predicate PositivelyProven(d: Dossier, criterion: string) {
    && (exists i | 0 <= i < |d.certification.refs| :: IsProof(d, d.certification.refs[i], criterion))
    && (forall i | 0 <= i < |d.certification.refs| ::
          IsProof(d, d.certification.refs[i], criterion) ==> Found(d, d.certification.refs[i]).value.result == Flag(true))
  }

  predicate CitedByGate(d: Dossier, ref: string) {
    exists i | 0 <= i < |d.story.requiredGates| ::
      var gate := RequiredGate(d, d.story.requiredGates[i]);
      gate.Some? && ref in gate.value.refs
  }

  predicate HumanComplete(d: Dossier) {
    var approval, record := d.story.approval, d.certification.human;
    && approval.approved && approval.approvedBy.Some? && approval.approvedAt.Some? && approval.approvedAt.value.aware
    && record.required && record.approved && record.result == Some(Pass)
    && record.evidenceRef.Some? && record.evidenceRef.value in d.certification.refs
  }

  predicate HumanProven(d: Dossier, rules: Rules, id: string) {
    var e := Found(d, id);
    && e.Some? && e.value.kind == HumanDecision && e.value.subject == d.story.id && e.value.result == Flag(true)
    && rules.isHuman(e.value.source) && d.story.approval.approvedBy == Some(e.value.producer)
    && d.story.approval.evidenceRef == Some(id) && rules.attributableHuman(e.value.producer)
    && (e.value.commit.None? || e.value.commit == Some(d.certification.commit))
  }

  /** When a certified dossier has an issue. */
  predicate IssueHolds(issue: Issue, d: Dossier, rules: Rules) {
    var c, story := d.certification, d.story;
    match issue
    case SubjectMismatch => c.subject != story.id
    case CertifierNotAttributable => !Attributable(rules, c.certifier)
    case EvidenceReferenceInvalid(id) => id in c.refs && Found(d, id).None?
    case EvidenceCommitMismatch(id) =>
      id in c.refs && Found(d, id).Some? && Found(d, id).value.commit.Some? && Found(d, id).value.commit != Some(c.commit)
    case EvidenceSubjectMismatch(id) =>
      id in c.refs && Found(d, id).Some? && Found(d, id).value.subject != story.id && !IsCriterion(story, Found(d, id).value.subject)
    case AcceptanceResultsIncomplete => c.acceptance.Keys != CriterionIds(story)
    case MandatoryAcceptanceNotPass(id) => IsMandatory(story, id) && !(id in c.acceptance && c.acceptance[id] == Pass)
    case AcceptanceEvidenceInvalid(id) =>
      IsMandatory(story, id) && id in c.acceptance && c.acceptance[id] == Pass && !PositivelyProven(d, id)
    case AuthorityDuplicate => !Distinct(c.authorized)
    case AuthorityNotRequired(id) => id in c.authorized && id !in story.requiredGates
    case GateResultsIncomplete => c.gates.Keys != Elements(story.requiredGates)
    case RequiredGateMissing(id) => id in story.requiredGates && Only(d.gates, GateId, id).None?
    case RequiredGateMismatch(id) =>
      var g := RequiredGate(d, id); g.Some? && (g.value.subject != story.id || !g.value.required)
    case GateResultMismatch(id) =>
      var g := RequiredGate(d, id); g.Some? && !(id in c.gates && c.gates[id] == g.value.result)
    case RequiredGateNotSatisfied(id) =>
      var g := RequiredGate(d, id); g.Some? && g.value.result != Pass && g.value.result != NotApplicable
    case AuthorityMissing(id) =>
      var g := RequiredGate(d, id); g.Some? && g.value.result == NotApplicable && id !in c.authorized
    case AuthorityUnused(id) =>
      var g := RequiredGate(d, id); g.Some? && g.value.result != NotApplicable && id in c.authorized
    case GateEvidenceMissing(id) =>
      var g := RequiredGate(d, id); g.Some? && g.value.result == Pass && g.value.refs == []
    case GateEvidenceNotCertified(ref) => CitedByGate(d, ref) && ref !in c.refs
    case GateEvidenceSubjectMismatch(ref) => CitedByGate(d, ref) && Found(d, ref).Some? && Found(d, ref).value.subject != story.id
    case HumanApprovalMismatch => !story.approval.required && (c.human.required || c.human.evidenceRef.Some?)
    case HumanApprovalIncomplete => story.approval.required && !HumanComplete(d)
    case HumanEvidenceInvalid => story.approval.required && HumanComplete(d) && !HumanProven(d, rules, c.human.evidenceRef.value)
  }

  function CriterionIds(story: Story): set<string> {
    set i | 0 <= i < |story.criteria| :: story.criteria[i].id
  }

  /** A certified dossier without an issue; any other certification passes. */
  ghost predicate Coherent(d: Dossier, rules: Rules) {
    d.certification.result == Certified ==> forall issue :: !IssueHolds(issue, d, rules)
  }

  // ---------- the check ----------

  /** The part of the check an issue belongs to. */
  datatype Part = Head | References | Acceptance | Authority | Gates | Human

  function PartOf(issue: Issue): Part {
    match issue
    case SubjectMismatch | CertifierNotAttributable => Head
    case EvidenceReferenceInvalid(_) | EvidenceCommitMismatch(_) | EvidenceSubjectMismatch(_) => References
    case AcceptanceResultsIncomplete | MandatoryAcceptanceNotPass(_) | AcceptanceEvidenceInvalid(_) => Acceptance
    case AuthorityDuplicate | AuthorityNotRequired(_) => Authority
    case HumanApprovalMismatch | HumanApprovalIncomplete | HumanEvidenceInvalid => Human
    case _ => Gates
  }

  ghost predicate ReportsPart(issues: seq<Issue>, part: Part, d: Dossier, rules: Rules) {
    forall issue :: issue in issues <==> PartOf(issue) == part && IssueHolds(issue, d, rules)
  }

  ghost predicate IndexesEvidence(index: map<string, seq<Evidence>>, d: Dossier) {
    forall id :: Index(index, id) == Named(d.evidence, EvidenceId, id)
  }

  /** `certified_dossier_issues`. */
  method CertifiedDossierIssues(d: Dossier, rules: Rules) returns (issues: seq<Issue>)
    ensures forall issue :: issue in issues <==> d.certification.result == Certified && IssueHolds(issue, d, rules)
    ensures issues == [] <==> Coherent(d, rules)
  {
    hide IssueHolds;
    hide Named;
    if d.certification.result != Certified {
      return [];
    }
    var evidenceById := IndexById(d.evidence, EvidenceId);
    var gatesById := IndexById(d.gates, GateId);
    var head := CheckHead(d, rules);
    var references := CheckReferences(d, rules, evidenceById);
    var acceptance := CheckAcceptance(d, rules, evidenceById);
    var authority := CheckAuthority(d, rules);
    var gates := CheckGates(d, rules, evidenceById, gatesById);
    var human := CheckHumanApproval(d, rules, evidenceById);
    issues := head + references + acceptance + authority + gates + human;
    forall issue
      ensures issue in issues <==> IssueHolds(issue, d, rules)
    {
      match PartOf(issue)
      case Head =>
      case References =>
      case Acceptance =>
      case Authority =>
      case Gates =>
      case Human =>
    }
    if issues != [] {
      assert issues[0] in issues;
    }
  }

  method CheckHead(d: Dossier, rules: Rules) returns (issues: seq<Issue>)
    ensures ReportsPart(issues, Head, d, rules)
  {
    issues := [];
    if d.certification.subject != d.story.id {
      issues := issues + [SubjectMismatch];
    }
    if !Attributable(rules, d.certification.certifier) {
      issues := issues + [CertifierNotAttributable];
    }
  }

  /** The loops over the referenced evidence. */
  method CheckReferences(d: Dossier, rules: Rules, index: map<string, seq<Evidence>>) returns (issues: seq<Issue>)
    requires IndexesEvidence(index, d)
    ensures ReportsPart(issues, References, d, rules)
  {
    hide Named;
    hide PositivelyProven;
    hide CitedByGate;
    hide Elements;
    hide Distinct;
    hide CriterionIds;
    hide IsMandatory;
    issues := [];
    var refs := d.certification.refs;
    for i := 0 to |refs|
      invariant forall issue :: issue in issues <==> PartOf(issue) == References && ReferenceOf(issue) in refs[..i] && IssueHolds(issue, d, rules)
    {
      var ref := refs[i];
      var item := Lone(Index(index, ref));
      assert item == Found(d, ref);
      if item.None? {
        issues := issues + [EvidenceReferenceInvalid(ref)];
      } else {
        if item.value.commit.Some? && item.value.commit.value != d.certification.commit {
          issues := issues + [EvidenceCommitMismatch(ref)];
        }
        if item.value.subject != d.story.id && !IsCriterion(d.story, item.value.subject) {
          issues := issues + [EvidenceSubjectMismatch(ref)];
        }
      }
    }
  }

  function ReferenceOf(issue: Issue): string
    requires PartOf(issue) == References
  {
    issue.id
  }

  /** The loop over the acceptance criteria. */
  method CheckAcceptance(d: Dossier, rules: Rules, index: map<string, seq<Evidence>>) returns (issues: seq<Issue>)
    requires IndexesEvidence(index, d)
    ensures ReportsPart(issues, Acceptance, d, rules)
  {
    hide PositivelyProven;
    hide Named;
    var c, criteria := d.certification, d.story.criteria;
    issues := if c.acceptance.Keys != CriterionIds(d.story) then [AcceptanceResultsIncomplete] else [];
    for i := 0 to |criteria|
      invariant forall issue :: issue in issues <==>
        PartOf(issue) == Acceptance && IssueHolds(issue, d, rules) && (issue.AcceptanceResultsIncomplete? || MandatoryBefore(d.story, issue.id, i))
    {
      var id := criteria[i].id;
      var passed := id in c.acceptance && c.acceptance[id] == Pass;
      if criteria[i].mandatory {
        if !passed {
          issues := issues + [MandatoryAcceptanceNotPass(id)];
        } else {
          var proven := CheckProof(d, id, index);
          if !proven {
            issues := issues + [AcceptanceEvidenceInvalid(id)];
          }
        }
      }
    }
  }

  predicate MandatoryBefore(story: Story, id: string, k: nat)
    requires k <= |story.criteria|
  {
    exists i | 0 <= i < k :: story.criteria[i].id == id && story.criteria[i].mandatory
  }

  /** The proof collected for one criterion: there is some, and all of it is positive. */
  method CheckProof(d: Dossier, criterion: string, index: map<string, seq<Evidence>>) returns (proven: bool)
    requires IndexesEvidence(index, d)
    ensures proven <==> PositivelyProven(d, criterion)
  {
    hide Named;
    var some := false;
    var refs := d.certification.refs;
    for i := 0 to |refs|
      invariant some <==> exists j :: 0 <= j < i && IsProof(d, refs[j], criterion)
      invariant forall j :: 0 <= j < i && IsProof(d, refs[j], criterion) ==> Found(d, refs[j]).value.result == Flag(true)
    {
      var item := Lone(Index(index, refs[i]));
      assert item == Found(d, refs[i]);
      if item.Some? && item.value.subject == criterion && item.value.kind == AcceptanceCriterionCheck {
        if item.value.result != Flag(true) {
          return false;
        }
        some := true;
      }
    }
    proven := some;
  }

  method CheckAuthority(d: Dossier, rules: Rules) returns (issues: seq<Issue>)
    ensures ReportsPart(issues, Authority, d, rules)
  {
    var authorized := d.certification.authorized;
    issues := if Distinct(authorized) then [] else [AuthorityDuplicate];
    for i := 0 to |authorized|
      invariant forall issue :: issue in issues <==>
        PartOf(issue) == Authority && IssueHolds(issue, d, rules) && (issue.AuthorityDuplicate? || issue.id in authorized[..i])
    {
      if authorized[i] !in d.story.requiredGates {
        issues := issues + [AuthorityNotRequired(authorized[i])];
      }
    }
  }

  /** The loop over the required gates. */
  method CheckGates(d: Dossier, rules: Rules, evidenceById: map<string, seq<Evidence>>, gatesById: map<string, seq<Gate>>)
    returns (issues: seq<Issue>)
    requires IndexesEvidence(evidenceById, d) && forall id :: Index(gatesById, id) == Named(d.gates, GateId, id)
    ensures ReportsPart(issues, Gates, d, rules)
  {
    hide Named;
    hide IssueHolds;
    var required := d.story.requiredGates;
    issues := if d.certification.gates.Keys != Elements(required) then [GateResultsIncomplete] else [];
    CompletenessHolds(d, rules);
    for i := 0 to |required|
      invariant forall issue :: issue in issues <==> IssueOfGates(issue, required[..i], d, rules)
    {
      var gate := Lone(Index(gatesById, required[i]));
      var more := CheckGate(d, rules, evidenceById, required[i], gate);
      OneGateMore(d, rules, i, more);
      issues := issues + more;
    }
    assert required[..|required|] == required;
    forall issue
      ensures issue in issues <==> PartOf(issue) == Gates && IssueHolds(issue, d, rules)
    {
      AllGatesSeen(issue, d, rules);
    }
  }

  /** An issue that one required gate gives rise to. */
  predicate IssueOfGate(issue: Issue, id: string, d: Dossier, rules: Rules) {
    && PartOf(issue) == Gates && issue != GateResultsIncomplete && IssueHolds(issue, d, rules)
    && if issue.GateEvidenceNotCertified? || issue.GateEvidenceSubjectMismatch?
       then RequiredGate(d, id).Some? && issue.ref in RequiredGate(d, id).value.refs
       else issue.id == id
  }

  predicate IssueOfGates(issue: Issue, ids: seq<string>, d: Dossier, rules: Rules) {
    || (issue == GateResultsIncomplete && IssueHolds(issue, d, rules))
    || exists i | 0 <= i < |ids| :: IssueOfGate(issue, ids[i], d, rules)
  }

  lemma CompletenessHolds(d: Dossier, rules: Rules)
    ensures IssueHolds(GateResultsIncomplete, d, rules) <==> d.certification.gates.Keys != Elements(d.story.requiredGates)
  {
  }

  lemma OneGateMore(d: Dossier, rules: Rules, i: nat, more: seq<Issue>)
    requires i < |d.story.requiredGates|
    requires forall issue :: issue in more <==> IssueOfGate(issue, d.story.requiredGates[i], d, rules)
    ensures forall issue ::
      IssueOfGates(issue, d.story.requiredGates[..i + 1], d, rules) <==> (IssueOfGates(issue, d.story.requiredGates[..i], d, rules) || issue in more)
  {
    hide IssueOfGate;
    var ids, longer := d.story.requiredGates[..i], d.story.requiredGates[..i + 1];
    forall issue
      ensures IssueOfGates(issue, longer, d, rules) <==> (IssueOfGates(issue, ids, d, rules) || issue in more)
    {
      if j :| 0 <= j < |ids| && IssueOfGate(issue, ids[j], d, rules) {
        assert IssueOfGate(issue, longer[j], d, rules);
      }
      if j :| 0 <= j < |longer| && IssueOfGate(issue, longer[j], d, rules) {
        if j < i {
          assert IssueOfGate(issue, ids[j], d, rules);
        }
      }
      if issue in more {
        assert IssueOfGate(issue, longer[i], d, rules);
      }
    }
  }

  lemma AllGatesSeen(issue: Issue, d: Dossier, rules: Rules)
    ensures IssueOfGates(issue, d.story.requiredGates, d, rules) <==> PartOf(issue) == Gates && IssueHolds(issue, d, rules)
  {
    var ids := d.story.requiredGates;
    if PartOf(issue) == Gates && issue != GateResultsIncomplete && IssueHolds(issue, d, rules) {
      if issue.GateEvidenceNotCertified? || issue.GateEvidenceSubjectMismatch? {
        var i :| 0 <= i < |ids| && RequiredGate(d, ids[i]).Some? && issue.ref in RequiredGate(d, ids[i]).value.refs;
        assert IssueOfGate(issue, ids[i], d, rules);
      } else {
        var i :| 0 <= i < |ids| && ids[i] == issue.id;
        assert IssueOfGate(issue, ids[i], d, rules);
      }
    }
  }

  /** One turn of that loop. */
  method CheckGate(d: Dossier, rules: Rules, index: map<string, seq<Evidence>>, id: string, found: Option<Gate>) returns (issues: seq<Issue>)
    requires IndexesEvidence(index, d) && id in d.story.requiredGates && found == Only(d.gates, GateId, id)
    ensures forall issue :: issue in issues <==> IssueOfGate(issue, id, d, rules)
  {
    hide IssueOfGate;
    if found.None? {
      MissingGate(d, rules, id);
      return [RequiredGateMissing(id)];
    }
    var results := CheckGateResult(d, id, found.value);
    var evidence := CheckGateEvidence(d, rules, index, id, found.value);
    issues := results + evidence;
    forall issue
      ensures issue in issues <==> IssueOfGate(issue, id, d, rules)
    {
      if !AboutEvidence(issue) {
        ResultIssueIsIssue(issue, id, found.value, d, rules);
      }
    }
  }

  lemma MissingGate(d: Dossier, rules: Rules, id: string)
    requires id in d.story.requiredGates && Only(d.gates, GateId, id).None?
    ensures forall issue :: IssueOfGate(issue, id, d, rules) <==> issue == RequiredGateMissing(id)
  {
    hide Named;
  }

  /** The issues that a gate's subject, result and authority give rise to. */
  predicate ResultIssue(issue: Issue, id: string, gate: Gate, d: Dossier) {
    var c := d.certification;
    match issue
    case RequiredGateMismatch(i) => i == id && (gate.subject != d.story.id || !gate.required)
    case GateResultMismatch(i) => i == id && !(id in c.gates && c.gates[id] == gate.result)
    case RequiredGateNotSatisfied(i) => i == id && gate.result != Pass && gate.result != NotApplicable
    case AuthorityMissing(i) => i == id && gate.result == NotApplicable && id !in c.authorized
    case AuthorityUnused(i) => i == id && gate.result != NotApplicable && id in c.authorized
    case GateEvidenceMissing(i) => i == id && gate.result == Pass && gate.refs == []
    case _ => false
  }

  lemma ResultIssueIsIssue(issue: Issue, id: string, gate: Gate, d: Dossier, rules: Rules)
    requires RequiredGate(d, id) == Some(gate) && !AboutEvidence(issue)
    ensures IssueOfGate(issue, id, d, rules) <==> ResultIssue(issue, id, gate, d)
  {
    hide Only;
  }

  method CheckGateResult(d: Dossier, id: string, gate: Gate) returns (issues: seq<Issue>)
    ensures forall issue :: issue in issues <==> ResultIssue(issue, id, gate, d)
  {
    var c := d.certification;
    issues := [];
    if gate.subject != d.story.id || !gate.required {
      issues := issues + [RequiredGateMismatch(id)];
    }
    if !(id in c.gates && c.gates[id] == gate.result) {
      issues := issues + [GateResultMismatch(id)];
    }
    if gate.result != Pass && gate.result != NotApplicable {
      issues := issues + [RequiredGateNotSatisfied(id)];
    }
    if gate.result == NotApplicable && id !in c.authorized {
      issues := issues + [AuthorityMissing(id)];
    }
    if gate.result != NotApplicable && id in c.authorized {
      issues := issues + [AuthorityUnused(id)];
    }
    if gate.result == Pass && gate.refs == [] {
      issues := issues + [GateEvidenceMissing(id)];
    }
  }

  predicate AboutEvidence(issue: Issue) {
    issue.GateEvidenceNotCertified? || issue.GateEvidenceSubjectMismatch?
  }

  /** The loop over a gate's evidence. */
  method CheckGateEvidence(d: Dossier, rules: Rules, index: map<string, seq<Evidence>>, id: string, gate: Gate) returns (issues: seq<Issue>)
    requires IndexesEvidence(index, d) && id in d.story.requiredGates && Only(d.gates, GateId, id) == Some(gate)
    ensures forall issue :: issue in issues <==> IssueOfGate(issue, id, d, rules) && AboutEvidence(issue)
  {
    hide Named;
    hide PositivelyProven;
    hide HumanComplete;
    hide HumanProven;
    hide Distinct;
    hide Elements;
    hide CriterionIds;
    hide IsCriterion;
    hide IsMandatory;
    issues := [];
    for i := 0 to |gate.refs|
      invariant forall issue :: issue in issues <==> AboutEvidence(issue) && issue.ref in gate.refs[..i] && EvidenceIssueHolds(issue, d)
    {
      var ref := gate.refs[i];
      if ref !in d.certification.refs {
        issues := issues + [GateEvidenceNotCertified(ref)];
      }
      var item := Lone(Index(index, ref));
      assert item == Found(d, ref);
      if item.Some? && item.value.subject != d.story.id {
        issues := issues + [GateEvidenceSubjectMismatch(ref)];
      }
    }
    forall issue
      ensures issue in issues <==> IssueOfGate(issue, id, d, rules) && AboutEvidence(issue)
    {
      if AboutEvidence(issue) && issue.ref in gate.refs {
        CitedHere(d, issue.ref, id);
      }
    }
  }

  predicate EvidenceIssueHolds(issue: Issue, d: Dossier)
    requires AboutEvidence(issue)
  {
    if issue.GateEvidenceNotCertified? then issue.ref !in d.certification.refs
    else Found(d, issue.ref).Some? && Found(d, issue.ref).value.subject != d.story.id
  }

  lemma CitedHere(d: Dossier, ref: string, id: string)
    requires RequiredGate(d, id).Some? && ref in RequiredGate(d, id).value.refs
    ensures CitedByGate(d, ref)
  {
    hide Only;
    var i :| 0 <= i < |d.story.requiredGates| && d.story.requiredGates[i] == id;
  }

  /** `_validate_human_approval`. */
  method CheckHumanApproval(d: Dossier, rules: Rules, index: map<string, seq<Evidence>>) returns (issues: seq<Issue>)
    requires IndexesEvidence(index, d)
    ensures ReportsPart(issues, Human, d, rules)
  {
    hide Named;
    hide CitedByGate;
    hide PositivelyProven;
    hide Elements;
    hide Distinct;
    hide CriterionIds;
    var approval, record := d.story.approval, d.certification.human;
    issues := [];
    if !approval.required {
      if record.required || record.evidenceRef.Some? {
        issues := [HumanApprovalMismatch];
      }
      return;
    }
    if !approval.approved || approval.approvedBy.None? || approval.approvedAt.None? || !approval.approvedAt.value.aware
      || !record.required || !record.approved || record.result != Some(Pass)
      || record.evidenceRef.None? || record.evidenceRef.value !in d.certification.refs {
      return [HumanApprovalIncomplete];
    }
    var id := record.evidenceRef.value;
    var found := Lone(Index(index, id));
    assert found == Found(d, id);
    if found.None? {
      return [HumanEvidenceInvalid];
    }
    var e := found.value;
    if !(e.kind == HumanDecision && e.subject == d.story.id && e.result == Flag(true) && rules.isHuman(e.source)
         && approval.approvedBy == Some(e.producer) && approval.evidenceRef == Some(id)
         && rules.attributableHuman(e.producer) && (e.commit.None? || e.commit == Some(d.certification.commit))) {
      return [HumanEvidenceInvalid];
    }
  }
}
