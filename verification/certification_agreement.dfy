/** How far the certification rules and the dossier check agree. */
module CertificationAgreement {
  import opened Wrappers
  import Domain
  import opened Ordering
  import opened Certification
  import opened CertificationIntegrity

  function DossierOf(q: Request, c: Certification): Dossier {
    Dossier(q.story, c, q.gates, q.evidence)
  }

  // ---------- waived gates ----------

  lemma {:induction false} WaivedMember(q: Request, rules: Rules, gates: seq<string>, id: string)
    ensures id in Waived(q, rules, gates) <==> id in gates && GateWaived(q, rules, id)
    decreases |gates|
  {
    hide GateWaived;
    if gates != [] {
      var n := |gates| - 1;
      WaivedMember(q, rules, gates[..n], id);
      assert gates == gates[..n] + [gates[n]];
    }
  }

  /** A waived gate that the story requires more than once. */
  predicate WaivedTwice(q: Request, rules: Rules, gates: seq<string>) {
    exists i, j | 0 <= i < j < |gates| :: gates[i] == gates[j] && GateWaived(q, rules, gates[i])
  }

  lemma {:induction false} WaivedDistinct(q: Request, rules: Rules, gates: seq<string>)
    ensures Distinct(Waived(q, rules, gates)) <==> !WaivedTwice(q, rules, gates)
    decreases |gates|
  {
    hide GateWaived;
    if gates != [] {
      var n := |gates| - 1;
      var waived := Waived(q, rules, gates[..n]);
      WaivedDistinct(q, rules, gates[..n]);
      WaivedMember(q, rules, gates[..n], gates[n]);
      if GateWaived(q, rules, gates[n]) {
        var longer := waived + [gates[n]];
        assert Waived(q, rules, gates) == longer;
        DistinctAppend(waived, gates[n]);
      } else {
        assert Waived(q, rules, gates) == waived;
      }
      TwiceOneMore(q, rules, gates);
    }
  }

  lemma DistinctAppend(s: seq<string>, x: string)
    ensures Distinct(s + [x]) <==> Distinct(s) && x !in s
  {
    var longer := s + [x];
    if Distinct(longer) {
      forall i, j | 0 <= i < j < |s|
        ensures s[i] != s[j]
      {
        assert longer[i] != longer[j];
      }
      forall i | 0 <= i < |s|
        ensures s[i] != x
      {
        assert longer[i] != longer[|s|];
      }
    }
  }

  lemma TwiceOneMore(q: Request, rules: Rules, gates: seq<string>)
    requires gates != []
    ensures var n := |gates| - 1;
      WaivedTwice(q, rules, gates) <==>
        WaivedTwice(q, rules, gates[..n]) || (GateWaived(q, rules, gates[n]) && gates[n] in gates[..n])
  {
    hide GateWaived;
    var n := |gates| - 1;
    var init := gates[..n];
    if i, j :| 0 <= i < j < |gates| && gates[i] == gates[j] && GateWaived(q, rules, gates[i]) {
      if j < n {
        assert init[i] == init[j] && GateWaived(q, rules, init[i]);
      } else {
        assert init[i] == gates[n];
      }
    }
    if i, j :| 0 <= i < j < |init| && init[i] == init[j] && GateWaived(q, rules, init[i]) {
      assert gates[i] == gates[j] && GateWaived(q, rules, gates[i]);
    }
    if GateWaived(q, rules, gates[n]) && gates[n] in init {
      var i :| 0 <= i < |init| && init[i] == gates[n];
      assert gates[i] == gates[n] && GateWaived(q, rules, gates[i]);
    }
  }

  // ---------- the exceptions ----------

  /** Evidence that a waived gate refers to. */
  predicate CitedByWaived(q: Request, rules: Rules, ref: string) {
    exists i | 0 <= i < |q.story.requiredGates| :: WaivedCites(q, rules, q.story.requiredGates[i], ref)
  }

  predicate WaivedCites(q: Request, rules: Rules, id: string, ref: string) {
    GateWaived(q, rules, id) && ref in Supplied(q, rules, id).value.refs
  }

  /** What the check can still object to when the rules say certified. */
  predicate Excepted(issue: Issue, q: Request, rules: Rules) {
    match issue
    case CertifierNotAttributable => !Attributable(rules, q.certifier)
    case AuthorityDuplicate => WaivedTwice(q, rules, q.story.requiredGates)
    case GateEvidenceNotCertified(ref) => CitedByWaived(q, rules, ref) && !Used(q, rules, ref)
    case GateEvidenceSubjectMismatch(ref) =>
      CitedByWaived(q, rules, ref) && Only(q.evidence, EvidenceId, ref).Some? && Only(q.evidence, EvidenceId, ref).value.subject != q.story.id
    case _ => false
  }

  /** The setting of the agreement: the rules say certified. */
  ghost predicate Certifies(c: Certification, q: Request, rules: Rules) {
    Reports(c, q, rules) && c.result == Certified && !IsCriterion(q.story, q.story.id)
  }

  // ---------- evidence that was used ----------

  lemma ResolvedReference(q: Request, rules: Rules, subject: string, refs: seq<string>, ref: string)
    requires Resolves(q, rules, subject, refs) && ref in refs
    ensures ReferenceHolds(q, rules, subject, ref)
  {
    hide ReferenceHolds;
  }

  /** Used evidence exists once, is about the story or a criterion, and is bound to the commit or to none. */
  lemma UsedIsSound(q: Request, rules: Rules, ref: string)
    requires Used(q, rules, ref)
    ensures var e := Only(q.evidence, EvidenceId, ref);
      && e.Some? && (e.value.subject == q.story.id || IsCriterion(q.story, e.value.subject))
      && (e.value.commit.None? || e.value.commit == Some(q.commit))
  {
    hide Only;
    hide Supports;
    hide Distinct;
    if i :| 0 <= i < |q.story.criteria| && UsedByCriterion(q, rules, q.story.criteria[i], ref) {
      ResolvedReference(q, rules, q.story.criteria[i].id, Answer(q, q.story.criteria[i].id).value.refs, ref);
    } else if i :| 0 <= i < |q.story.requiredGates| && UsedByGate(q, rules, q.story.requiredGates[i], ref) {
      ResolvedReference(q, rules, q.story.id, Supplied(q, rules, q.story.requiredGates[i]).value.refs, ref);
    }
  }

  /** Evidence about the story that the certification rests on, through a gate or the human decision. */
  predicate UsedForStory(q: Request, rules: Rules, ref: string) {
    || (exists i | 0 <= i < |q.story.requiredGates| :: UsedByGate(q, rules, q.story.requiredGates[i], ref))
    || UsedByHuman(q, rules, ref)
  }

  /** When no criterion is called like the story, used evidence about the story is exactly that. */
  lemma UsedAboutStory(q: Request, rules: Rules, ref: string)
    requires !IsCriterion(q.story, q.story.id)
    ensures UsedForStory(q, rules, ref) <==>
      (Used(q, rules, ref) && Only(q.evidence, EvidenceId, ref).Some? && Only(q.evidence, EvidenceId, ref).value.subject == q.story.id)
  {
    hide Only;
    hide Supports;
    hide Distinct;
    if i :| 0 <= i < |q.story.requiredGates| && UsedByGate(q, rules, q.story.requiredGates[i], ref) {
      ResolvedReference(q, rules, q.story.id, Supplied(q, rules, q.story.requiredGates[i]).value.refs, ref);
    } else if i :| 0 <= i < |q.story.criteria| && UsedByCriterion(q, rules, q.story.criteria[i], ref) {
      ResolvedReference(q, rules, q.story.criteria[i].id, Answer(q, q.story.criteria[i].id).value.refs, ref);
      assert IsCriterion(q.story, q.story.criteria[i].id);
    }
  }

  // ---------- acceptance ----------

  /** Used evidence about a criterion comes from the criterion's own answer. */
  lemma UsedForCriterion(q: Request, rules: Rules, ref: string, id: string)
    requires Used(q, rules, ref) && Only(q.evidence, EvidenceId, ref).Some? && Only(q.evidence, EvidenceId, ref).value.subject == id
    requires id != q.story.id
    ensures Backed(q, rules, id) && ref in Answer(q, id).value.refs
  {
    hide Only;
    hide Supports;
    hide Distinct;
    if i :| 0 <= i < |q.story.criteria| && UsedByCriterion(q, rules, q.story.criteria[i], ref) {
      ResolvedReference(q, rules, q.story.criteria[i].id, Answer(q, q.story.criteria[i].id).value.refs, ref);
    } else if i :| 0 <= i < |q.story.requiredGates| && UsedByGate(q, rules, q.story.requiredGates[i], ref) {
      ResolvedReference(q, rules, q.story.id, Supplied(q, rules, q.story.requiredGates[i]).value.refs, ref);
    }
  }

  lemma PassedIsProven(q: Request, rules: Rules, c: Certification, id: string)
    requires Certifies(c, q, rules) && IsCriterion(q.story, id) && CriterionPasses(q, rules, id)
    ensures PositivelyProven(DossierOf(q, c), id)
  {
    var d := DossierOf(q, c);
    var refs := Answer(q, id).value.refs;
    forall i | 0 <= i < |refs|
      ensures refs[i] in c.refs && IsProof(d, refs[i], id) && Found(d, refs[i]).value.result == Flag(true)
    {
      ResolvedReference(q, rules, id, refs, refs[i]);
      UsedByAnswer(q, rules, id, refs[i]);
    }
    var k :| 0 <= k < |c.refs| && c.refs[k] == refs[0];
    assert IsProof(d, c.refs[k], id);
    forall i | 0 <= i < |c.refs| && IsProof(d, c.refs[i], id)
      ensures Found(d, c.refs[i]).value.result == Flag(true)
    {
      UsedForCriterion(q, rules, c.refs[i], id);
    }
  }

  lemma UsedByAnswer(q: Request, rules: Rules, id: string, ref: string)
    requires IsCriterion(q.story, id) && Backed(q, rules, id) && ref in Answer(q, id).value.refs
    ensures Used(q, rules, ref)
  {
    hide Backed;
    var i :| 0 <= i < |q.story.criteria| && q.story.criteria[i].id == id;
    assert UsedByCriterion(q, rules, q.story.criteria[i], ref);
  }

  lemma AcceptanceAgrees(q: Request, rules: Rules, c: Certification, issue: Issue)
    requires Certifies(c, q, rules) && PartOf(issue) == Acceptance
    ensures !IssueHolds(issue, DossierOf(q, c), rules)
  {
    hide CriterionPasses;
    hide PositivelyProven;
    hide Used;
    if issue.AcceptanceResultsIncomplete? {
      assert c.acceptance.Keys == CriterionIds(q.story);
    } else if IsMandatory(q.story, issue.id) {
      var i :| 0 <= i < |q.story.criteria| && q.story.criteria[i].id == issue.id && q.story.criteria[i].mandatory;
      assert CriterionPasses(q, rules, issue.id);
      PassedIsProven(q, rules, c, issue.id);
      PassingVerdict(q, rules, issue.id);
    }
  }

  lemma PassingVerdict(q: Request, rules: Rules, id: string)
    requires CriterionPasses(q, rules, id)
    ensures AcceptanceVerdict(q, id) == Pass
  {
  }

  // ---------- gates ----------

  /** Under a certified verdict every required gate passes or is waived. */
  lemma RequiredGateStands(q: Request, rules: Rules, c: Certification, id: string)
    requires Certifies(c, q, rules) && id in q.story.requiredGates
    ensures RequiredGate(DossierOf(q, c), id).Some? && RequiredGate(DossierOf(q, c), id) == Supplied(q, rules, id)
    ensures GateFits(q, rules, id) && (GatePasses(q, rules, id) || GateWaived(q, rules, id))
  {
    hide Only;
    hide Resolves;
    hide Used;
    var i :| 0 <= i < |q.story.requiredGates| && q.story.requiredGates[i] == id;
    assert GatePasses(q, rules, q.story.requiredGates[i]) || GateWaived(q, rules, q.story.requiredGates[i]);
  }

  lemma GateResultsAgree(q: Request, rules: Rules, c: Certification, issue: Issue)
    requires Certifies(c, q, rules) && PartOf(issue) == Gates && !AboutEvidence(issue)
    ensures !IssueHolds(issue, DossierOf(q, c), rules)
  {
    hide Only;
    hide Used;
    hide Reports;
    ReportedGates(q, rules, c);
    if issue.GateResultsIncomplete? {
      assert c.gates.Keys == Elements(q.story.requiredGates);
    } else if issue.id in q.story.requiredGates {
      RequiredGateStands(q, rules, c, issue.id);
      WaivedMember(q, rules, q.story.requiredGates, issue.id);
    }
  }

  lemma ReportedGates(q: Request, rules: Rules, c: Certification)
    requires Certifies(c, q, rules)
    ensures forall id :: id in c.gates <==> id in q.story.requiredGates
    ensures forall id :: id in c.gates ==> c.gates[id] == GateVerdict(q, rules, id)
    ensures c.authorized == Waived(q, rules, q.story.requiredGates)
  {
  }

  /** Citations that are not certified for the story come from waived gates only. */
  lemma GateEvidenceAgrees(q: Request, rules: Rules, c: Certification, issue: Issue)
    requires Certifies(c, q, rules) && AboutEvidence(issue)
    ensures IssueHolds(issue, DossierOf(q, c), rules) <==> Excepted(issue, q, rules)
  {
    hide Only;
    hide GateWaived;
    hide GatePasses;
    hide Used;
    var d, ids, ref := DossierOf(q, c), q.story.requiredGates, issue.ref;
    if CitedByGate(d, ref) && !CitedByWaived(q, rules, ref) {
      var i :| 0 <= i < |ids| && RequiredGate(d, ids[i]).Some? && ref in RequiredGate(d, ids[i]).value.refs;
      RequiredGateStands(q, rules, c, ids[i]);
      assert !WaivedCites(q, rules, ids[i], ref);
      PassedGateIsUsed(q, rules, ids[i], ref);
    }
    if CitedByWaived(q, rules, ref) {
      var i :| 0 <= i < |ids| && WaivedCites(q, rules, ids[i], ref);
      RequiredGateStands(q, rules, c, ids[i]);
      CitedHere(d, ref, ids[i]);
    }
  }

  lemma PassedGateIsUsed(q: Request, rules: Rules, id: string, ref: string)
    requires id in q.story.requiredGates && GatePasses(q, rules, id) && ref in Supplied(q, rules, id).value.refs
    ensures Used(q, rules, ref)
    ensures Only(q.evidence, EvidenceId, ref).Some? && Only(q.evidence, EvidenceId, ref).value.subject == q.story.id
  {
    hide Only;
    hide Distinct;
    var i :| 0 <= i < |q.story.requiredGates| && q.story.requiredGates[i] == id;
    assert UsedByGate(q, rules, q.story.requiredGates[i], ref);
    ResolvedReference(q, rules, q.story.id, Supplied(q, rules, id).value.refs, ref);
  }

  // ---------- the other parts ----------

  lemma ReferencesAgree(q: Request, rules: Rules, c: Certification, issue: Issue)
    requires Certifies(c, q, rules) && PartOf(issue) == References
    ensures !IssueHolds(issue, DossierOf(q, c), rules)
  {
    hide Only;
    hide Used;
    hide EverythingPasses;
    hide SomethingFails;
    if issue.id in c.refs {
      UsedIsSound(q, rules, issue.id);
    }
  }

  lemma AuthorityAgrees(q: Request, rules: Rules, c: Certification, issue: Issue)
    requires Certifies(c, q, rules) && PartOf(issue) == Authority
    ensures IssueHolds(issue, DossierOf(q, c), rules) <==> Excepted(issue, q, rules)
  {
    hide Used;
    hide GateWaived;
    hide Distinct;
    if issue.AuthorityDuplicate? {
      WaivedDistinct(q, rules, q.story.requiredGates);
    } else {
      WaivedMember(q, rules, q.story.requiredGates, issue.id);
    }
  }

  lemma HumanAgrees(q: Request, rules: Rules, c: Certification, issue: Issue)
    requires Certifies(c, q, rules) && PartOf(issue) == Human
    ensures !IssueHolds(issue, DossierOf(q, c), rules)
  {
    hide Only;
    hide CriteriaPass;
    hide GatesPass;
    hide SomethingFails;
    if q.story.approval.required {
      assert Approved(q, rules);
      var id := q.context.humanEvidence.value;
      assert Used(q, rules, id);
      OnlyHasItsId(q.evidence, id);
    }
  }

  lemma OnlyHasItsId(evidence: seq<Evidence>, id: string)
    requires Only(evidence, EvidenceId, id).Some?
    ensures Only(evidence, EvidenceId, id).value.id == id
  {
  }

  /**
    Main result: when the rules say certified, the separately written check raises exactly the
    excepted issues.
   */
  lemma CheckAgreesWithRules(q: Request, rules: Rules, c: Certification, issue: Issue)
    requires Certifies(c, q, rules)
    ensures IssueHolds(issue, DossierOf(q, c), rules) <==> Excepted(issue, q, rules)
  {
    hide Excepted;
    hide IssueHolds;
    hide Certifies;
    match PartOf(issue) {
      case Head => HeadAgrees(q, rules, c, issue);
      case References => ReferencesAgree(q, rules, c, issue); NotExcepted(issue, q, rules);
      case Acceptance => AcceptanceAgrees(q, rules, c, issue); NotExcepted(issue, q, rules);
      case Authority => AuthorityAgrees(q, rules, c, issue);
      case Gates =>
        if AboutEvidence(issue) {
          GateEvidenceAgrees(q, rules, c, issue);
        } else {
          GateResultsAgree(q, rules, c, issue);
          NotExcepted(issue, q, rules);
        }
      case Human => HumanAgrees(q, rules, c, issue); NotExcepted(issue, q, rules);
    }
  }

  lemma HeadAgrees(q: Request, rules: Rules, c: Certification, issue: Issue)
    requires Certifies(c, q, rules) && PartOf(issue) == Head
    ensures IssueHolds(issue, DossierOf(q, c), rules) <==> Excepted(issue, q, rules)
  {
    hide Used;
    hide SomethingFails;
    hide EverythingPasses;
  }

  lemma NotExcepted(issue: Issue, q: Request, rules: Rules)
    requires PartOf(issue) == References || PartOf(issue) == Acceptance || PartOf(issue) == Human
      || (PartOf(issue) == Gates && !AboutEvidence(issue))
    ensures !Excepted(issue, q, rules)
  {
  }

  /**
    A certified dossier is accepted exactly when the certifier is attributable, no waived gate is
    required twice, and every reference of a waived gate is certified evidence about the story.
   */
  lemma AcceptedExactlyWhen(q: Request, rules: Rules, c: Certification)
    requires Certifies(c, q, rules)
    ensures Coherent(DossierOf(q, c), rules) <==>
      && Attributable(rules, q.certifier)
      && !WaivedTwice(q, rules, q.story.requiredGates)
      && forall ref :: CitedByWaived(q, rules, ref) ==> UsedForStory(q, rules, ref)
  {
    hide IssueHolds;
    hide Excepted;
    hide Attributable;
    hide WaivedTwice;
    hide CitedByWaived;
    hide UsedForStory;
    hide Reports;
    forall issue
      ensures IssueHolds(issue, DossierOf(q, c), rules) <==> Excepted(issue, q, rules)
    {
      CheckAgreesWithRules(q, rules, c, issue);
    }
    ExceptionsInWords(q, rules);
  }

  lemma ExceptionsInWords(q: Request, rules: Rules)
    requires !IsCriterion(q.story, q.story.id)
    ensures (forall issue :: !Excepted(issue, q, rules)) <==>
      && Attributable(rules, q.certifier)
      && !WaivedTwice(q, rules, q.story.requiredGates)
      && forall ref :: CitedByWaived(q, rules, ref) ==> UsedForStory(q, rules, ref)
  {
    hide Attributable;
    hide WaivedTwice;
    hide CitedByWaived;
    hide Used;
    hide UsedForStory;
    hide Only;
    forall ref
      ensures (Excepted(GateEvidenceNotCertified(ref), q, rules) || Excepted(GateEvidenceSubjectMismatch(ref), q, rules))
        <==> (CitedByWaived(q, rules, ref) && !UsedForStory(q, rules, ref))
    {
      UsedAboutStory(q, rules, ref);
      if Used(q, rules, ref) {
        UsedIsSound(q, rules, ref);
      }
    }
    assert Excepted(CertifierNotAttributable, q, rules) <==> !Attributable(rules, q.certifier);
    assert Excepted(AuthorityDuplicate, q, rules) <==> WaivedTwice(q, rules, q.story.requiredGates);
  }

  // ---------- the exceptions occur ----------

  /** A story with one gate, which is waived, and refers to evidence that does not exist. */
  const WAIVED: Gate := Gate("GATE", "US-0001", true, NotApplicable, ["EV-1"], Instant(0, true), "Codex/Certifier")

  const SOME_COMMIT: string := seq(40, _ => 'a')

  const LOOSE: Request :=
    Request(Story("US-0001", Domain.Review, [], [Criterion("AC-1", false)], ["GATE"],
                  Approval(false, false, None, None, None), Instant(0, true)),
            SOME_COMMIT, [], [WAIVED], [], "Codex/Certifier", Context({}, {}, {"GATE"}, None))

  /** The commits that the contract of certifications allows: 40 or 64 hexadecimal digits. */
  predicate IsCommitId(commit: string) {
    (|commit| == 40 || |commit| == 64)
    && forall c | c in commit :: '0' <= c <= '9' || 'a' <= c <= 'f' || 'A' <= c <= 'F'
  }

  /** The rules certify it, and only the dossier check objects. */
  lemma LooseWaiver(rules: Rules, c: Certification)
    requires rules.gateIsValid(WAIVED) && Reports(c, LOOSE, rules)
    ensures VerdictOf(LOOSE, rules) == c.result == Certified && IsCommitId(c.commit)
    ensures IssueHolds(GateEvidenceNotCertified("EV-1"), DossierOf(LOOSE, c), rules)
  {
    LooseGate(rules);
    LooseVerdict(rules);
    LooseCommit();
    hide VerdictOf;
    hide IsCommitId;
    var id := LOOSE.story.criteria[0].id;
    assert id == "AC-1";
    assert !IsCriterion(LOOSE.story, LOOSE.story.id) by {
      assert LOOSE.story.id[0] == 'U' && id[0] == 'A';
    }
    assert WaivedCites(LOOSE, rules, LOOSE.story.requiredGates[0], "EV-1");
    assert Only(LOOSE.evidence, EvidenceId, "EV-1").None?;
    if Used(LOOSE, rules, "EV-1") {
      UsedIsSound(LOOSE, rules, "EV-1");
    }
    CheckAgreesWithRules(LOOSE, rules, c, GateEvidenceNotCertified("EV-1"));
  }

  lemma LooseCommit()
    ensures IsCommitId(LOOSE.commit)
  {
  }

  lemma LooseGate(rules: Rules)
    requires rules.gateIsValid(WAIVED)
    ensures Supplied(LOOSE, rules, "GATE") == Some(WAIVED) && GateWaived(LOOSE, rules, "GATE")
  {
    assert LOOSE.gates[1..] == [];
    assert Named(LOOSE.gates, GateId, "GATE") == [WAIVED];
  }

  lemma LooseVerdict(rules: Rules)
    requires GateWaived(LOOSE, rules, "GATE")
    ensures VerdictOf(LOOSE, rules) == Certified
  {
    hide Supplied;
    assert LOOSE.story.requiredGates[0] == "GATE";
  }
}
