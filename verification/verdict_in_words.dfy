/** The three verdicts, said of the request itself: of its answers, gates, evidence and human decision. */
module VerdictInWords {
  import opened Wrappers
  import opened Ordering
  import opened Certification
  import CertificationAgreement
  import opened DossierSoundness

  /** The valid and current evidence with that id, about the subject, of this commit or allowed to be of none. */
  ghost predicate StandsFor(q: Request, rules: Rules, subject: string, ref: string, e: Evidence) {
    && TheOnly(q.evidence, EvidenceId, ref, e) && rules.evidenceIsValid(e) && e.subject == subject && ref !in q.context.stale
    && (e.commit == Some(q.commit) || (e.commit.None? && ref in q.context.independent))
  }

  /** There are references, none twice, and all of them are to evidence that supports the subject. */
  ghost predicate Substantiated(q: Request, rules: Rules, subject: string, refs: seq<string>) {
    && refs != [] && (forall i, j :: 0 <= i < j < |refs| ==> refs[i] != refs[j])
    && (forall ref :: ref in refs ==> exists e :: StandsFor(q, rules, subject, ref, e))
  }

  ghost predicate Check(q: Request, rules: Rules, subject: string, ref: string, e: Evidence) {
    StandsFor(q, rules, subject, ref, e) && e.kind == AcceptanceCriterionCheck && e.result.Flag?
  }

  /** The one answer to a criterion rests on checks. */
  ghost predicate Checked(q: Request, rules: Rules, id: string, a: AcceptanceResult) {
    && TheOnly(q.acceptance, CriterionOf, id, a) && Substantiated(q, rules, id, a.refs)
    && (forall ref :: ref in a.refs ==> exists e :: Check(q, rules, id, ref, e))
  }

  ghost predicate Positive(q: Request, ref: string) {
    exists e :: TheOnly(q.evidence, EvidenceId, ref, e) && e.result == Flag(true)
  }

  ghost predicate Met(q: Request, rules: Rules, id: string) {
    exists a :: Checked(q, rules, id, a) && a.result == Some(Pass) && forall ref :: ref in a.refs ==> Positive(q, ref)
  }

  ghost predicate Unmet(q: Request, rules: Rules, id: string) {
    exists a :: Checked(q, rules, id, a) && a.result == Some(Fail) && exists ref :: ref in a.refs && !Positive(q, ref)
  }

  /** The one gate under that id, valid and required for this story. */
  ghost predicate Evaluated(q: Request, rules: Rules, id: string, g: Gate) {
    TheOnly(q.gates, GateId, id, g) && rules.gateIsValid(g) && g.subject == q.story.id && g.required
  }

  ghost predicate Open(q: Request, rules: Rules, id: string) {
    exists g :: Evaluated(q, rules, id, g) &&
      ((g.result == Pass && Substantiated(q, rules, q.story.id, g.refs)) || (g.result == NotApplicable && id in q.context.allowedNotApplicable))
  }

  ghost predicate Closed(q: Request, rules: Rules, id: string) {
    exists g :: Evaluated(q, rules, id, g) && g.result == Fail && Substantiated(q, rules, q.story.id, g.refs)
  }

  /** The decision that the request names: valid, current, by the human whom the story names, at this commit if at any. */
  ghost predicate DecidesAs(q: Request, rules: Rules, e: Evidence, approved: bool) {
    var approval := q.story.approval;
    && q.context.humanEvidence == Some(e.id) && TheOnly(q.evidence, EvidenceId, e.id, e) && rules.evidenceIsValid(e)
    && e.kind == HumanDecision && e.subject == q.story.id && e.id !in q.context.stale && e.commit in {None, Some(q.commit)}
    && rules.isHuman(e.source) && rules.attributableHuman(e.producer) && approval.approvedBy == Some(e.producer)
    && approval.approvedAt.Some? && approval.approvedAt.value.aware
    && e.result == Flag(approved) && approval.approved == approved && (approved ==> approval.evidenceRef == Some(e.id))
  }

  /** Every mandatory criterion is met, every required gate open, the human in favour where one is required, and no waiver is left over. */
  ghost predicate Proven(q: Request, rules: Rules) {
    && (forall c :: c in q.story.criteria && c.mandatory ==> Met(q, rules, c.id))
    && (forall id :: id in q.story.requiredGates ==> Open(q, rules, id))
    && (q.story.approval.required ==> exists e :: DecidesAs(q, rules, e, true))
    && (forall id :: id in q.context.allowedNotApplicable ==> id in q.story.requiredGates)
  }

  /** Some mandatory criterion is not met, some required gate is closed, or the human required is against it. */
  ghost predicate Disproven(q: Request, rules: Rules) {
    || (exists c :: c in q.story.criteria && c.mandatory && Unmet(q, rules, c.id))
    || (exists id :: id in q.story.requiredGates && Closed(q, rules, id))
    || (q.story.approval.required && exists e :: DecidesAs(q, rules, e, false))
  }

  // ---------- part by part ----------

  lemma ReferenceInWords(q: Request, rules: Rules, subject: string, ref: string)
    ensures ReferenceHolds(q, rules, subject, ref) <==> exists e :: StandsFor(q, rules, subject, ref, e)
    ensures ReferenceHolds(q, rules, subject, ref) && IsCheck(q, ref) <==> exists e :: Check(q, rules, subject, ref, e)
    ensures IsPositive(q, ref) <==> Positive(q, ref)
  {
    forall e
      ensures Only(q.evidence, EvidenceId, ref) == Some(e) <==> TheOnly(q.evidence, EvidenceId, ref, e)
    {
      OnlyExactly(q.evidence, EvidenceId, ref, e);
    }
    hide Only;
    hide TheOnly;
    var found := Only(q.evidence, EvidenceId, ref);
    if found.Some? {
      assert TheOnly(q.evidence, EvidenceId, ref, found.value);
      assert ReferenceHolds(q, rules, subject, ref) <==> StandsFor(q, rules, subject, ref, found.value);
      assert ReferenceHolds(q, rules, subject, ref) && IsCheck(q, ref) <==> Check(q, rules, subject, ref, found.value);
    }
  }

  lemma ResolvesInWords(q: Request, rules: Rules, subject: string, refs: seq<string>)
    ensures Resolves(q, rules, subject, refs) <==> Substantiated(q, rules, subject, refs)
  {
    hide ReferenceHolds;
    hide StandsFor;
    forall ref
      ensures ReferenceHolds(q, rules, subject, ref) <==> exists e :: StandsFor(q, rules, subject, ref, e)
    {
      ReferenceInWords(q, rules, subject, ref);
    }
    assert forall i :: 0 <= i < |refs| ==> refs[i] in refs;
  }

  lemma BackedInWords(q: Request, rules: Rules, id: string, a: AcceptanceResult)
    ensures Resolves(q, rules, id, a.refs) && (forall i :: 0 <= i < |a.refs| ==> IsCheck(q, a.refs[i]))
      <==> Substantiated(q, rules, id, a.refs) && forall ref :: ref in a.refs ==> exists e :: Check(q, rules, id, ref, e)
    ensures (forall i :: 0 <= i < |a.refs| ==> IsPositive(q, a.refs[i])) <==> forall ref :: ref in a.refs ==> Positive(q, ref)
  {
    hide Resolves;
    hide Substantiated;
    hide Check;
    hide Positive;
    hide IsPositive;
    hide IsCheck;
    hide ReferenceHolds;
    assert forall i :: 0 <= i < |a.refs| ==> a.refs[i] in a.refs;
    ResolvesInWords(q, rules, id, a.refs);
    forall ref | ref in a.refs
      ensures Resolves(q, rules, id, a.refs) ==> (IsCheck(q, ref) <==> exists e :: Check(q, rules, id, ref, e))
      ensures IsPositive(q, ref) <==> Positive(q, ref)
    {
      ReferenceInWords(q, rules, id, ref);
      if Resolves(q, rules, id, a.refs) {
        CertificationAgreement.ResolvedReference(q, rules, id, a.refs, ref);
      }
    }
  }

  /** An answer is backed, and passes or fails, as its checks say. */
  lemma AnswerInWords(q: Request, rules: Rules, id: string, a: AcceptanceResult)
    requires Answer(q, id) == Some(a)
    ensures CriterionPasses(q, rules, id) <==>
      Checked(q, rules, id, a) && a.result == Some(Pass) && forall ref :: ref in a.refs ==> Positive(q, ref)
    ensures CriterionFails(q, rules, id) <==>
      Checked(q, rules, id, a) && a.result == Some(Fail) && exists ref :: ref in a.refs && !Positive(q, ref)
  {
    OnlyExactly(q.acceptance, CriterionOf, id, a);
    BackedInWords(q, rules, id, a);
    hide Only;
    hide TheOnly;
    hide Resolves;
    hide Substantiated;
    hide Check;
    hide Positive;
    hide IsPositive;
    hide IsCheck;
  }

  lemma CriterionInWords(q: Request, rules: Rules, id: string)
    ensures CriterionPasses(q, rules, id) <==> Met(q, rules, id)
    ensures CriterionFails(q, rules, id) <==> Unmet(q, rules, id)
  {
    forall a
      ensures Answer(q, id) == Some(a) <==> TheOnly(q.acceptance, CriterionOf, id, a)
    {
      OnlyExactly(q.acceptance, CriterionOf, id, a);
    }
    if Answer(q, id).Some? {
      AnswerInWords(q, rules, id, Answer(q, id).value);
    }
    hide Answer;
    hide TheOnly;
    hide Substantiated;
    hide Positive;
  }

  lemma GateInWords(q: Request, rules: Rules, id: string)
    ensures GatePasses(q, rules, id) || GateWaived(q, rules, id) <==> Open(q, rules, id)
    ensures GateFails(q, rules, id) <==> Closed(q, rules, id)
  {
    forall g: Gate
      ensures Only(q.gates, GateId, id) == Some(g) <==> TheOnly(q.gates, GateId, id, g)
      ensures Resolves(q, rules, q.story.id, g.refs) <==> Substantiated(q, rules, q.story.id, g.refs)
    {
      OnlyExactly(q.gates, GateId, id, g);
      ResolvesInWords(q, rules, q.story.id, g.refs);
    }
    hide Only;
    hide TheOnly;
    hide Resolves;
    hide Substantiated;
    var found := Supplied(q, rules, id);
    if found.Some? && GateFits(q, rules, id) {
      assert Evaluated(q, rules, id, found.value);
    }
  }

  lemma DecisionInWords(q: Request, rules: Rules)
    ensures Approved(q, rules) <==> exists e :: DecidesAs(q, rules, e, true)
    ensures Refused(q, rules) <==> exists e :: DecidesAs(q, rules, e, false)
  {
    forall e, id
      ensures Only(q.evidence, EvidenceId, id) == Some(e) <==> TheOnly(q.evidence, EvidenceId, id, e)
    {
      OnlyExactly(q.evidence, EvidenceId, id, e);
    }
    hide Only;
    hide TheOnly;
    var found := Decision(q, rules);
    if found.Some? {
      assert Approved(q, rules) <==> DecidesAs(q, rules, found.value, true);
      assert Refused(q, rules) <==> DecidesAs(q, rules, found.value, false);
    }
  }

  // ---------- the verdicts ----------

  lemma PassesInWords(q: Request, rules: Rules)
    ensures EverythingPasses(q, rules) <==> Proven(q, rules)
    ensures SomethingFails(q, rules) <==> Disproven(q, rules)
  {
    hide Approved;
    hide Refused;
    hide DecidesAs;
    hide CriterionPasses;
    hide CriterionFails;
    hide GatePasses;
    hide GateWaived;
    hide GateFails;
    hide Met;
    hide Unmet;
    hide Open;
    hide Closed;
    DecisionInWords(q, rules);
    forall id
      ensures CriterionPasses(q, rules, id) <==> Met(q, rules, id)
      ensures CriterionFails(q, rules, id) <==> Unmet(q, rules, id)
      ensures GatePasses(q, rules, id) || GateWaived(q, rules, id) <==> Open(q, rules, id)
      ensures GateFails(q, rules, id) <==> Closed(q, rules, id)
    {
      CriterionInWords(q, rules, id);
      GateInWords(q, rules, id);
    }
    assert forall i :: 0 <= i < |q.story.criteria| ==> q.story.criteria[i] in q.story.criteria;
    assert forall i :: 0 <= i < |q.story.requiredGates| ==> q.story.requiredGates[i] in q.story.requiredGates;
  }

  /** Nothing is proven and disproven at once. */
  lemma NeverBoth(q: Request, rules: Rules)
    requires EverythingPasses(q, rules)
    ensures !SomethingFails(q, rules)
  {
    hide Resolves;
    hide Supplied;
    hide Only;
    hide IsDecision;
    hide Backed;
  }

  /** Main result: a request is certified exactly when all is proven, rejected exactly when something is disproven, and blocked otherwise. */
  lemma VerdictInWords(q: Request, rules: Rules)
    ensures VerdictOf(q, rules) == Verdict.Certified <==> Proven(q, rules)
    ensures VerdictOf(q, rules) == Verdict.Rejected <==> Disproven(q, rules)
    ensures !(Proven(q, rules) && Disproven(q, rules))
  {
    hide Proven;
    hide Disproven;
    hide SomethingFails;
    hide EverythingPasses;
    PassesInWords(q, rules);
    if EverythingPasses(q, rules) {
      NeverBoth(q, rules);
    }
  }

  // ---------- what a certification records ----------

  /** The one answer to a criterion, with references that say as much as it does. */
  ghost predicate Answered(q: Request, rules: Rules, id: string, a: AcceptanceResult) {
    && TheOnly(q.acceptance, CriterionOf, id, a) && Substantiated(q, rules, id, a.refs) && a.result.Some?
    && (a.result.value in {Pass, Fail} ==>
          (forall ref :: ref in a.refs ==> exists e :: Check(q, rules, id, ref, e))
          && (a.result.value == Pass <==> forall ref :: ref in a.refs ==> Positive(q, ref)))
  }

  /** The decision that the request names, whichever way it goes and whatever the story says of it. */
  ghost predicate DecisionNamed(q: Request, rules: Rules, e: Evidence) {
    var approval := q.story.approval;
    && q.context.humanEvidence == Some(e.id) && TheOnly(q.evidence, EvidenceId, e.id, e) && rules.evidenceIsValid(e)
    && e.kind == HumanDecision && e.subject == q.story.id && e.id !in q.context.stale && e.commit in {None, Some(q.commit)}
    && rules.isHuman(e.source) && rules.attributableHuman(e.producer) && approval.approvedBy == Some(e.producer)
    && approval.approvedAt.Some? && approval.approvedAt.value.aware
    && e.result.Flag? && (e.result.holds ==> approval.evidenceRef == Some(e.id))
  }

  /** The evidence that was looked at with success: for a criterion, for a required gate, or for the decision. */
  ghost predicate LookedAt(q: Request, rules: Rules, ref: string) {
    || (exists c, a :: c in q.story.criteria && Answered(q, rules, c.id, a) && ref in a.refs)
    || (exists id, g :: id in q.story.requiredGates && TheOnly(q.gates, GateId, id, g) && rules.gateIsValid(g)
                        && Substantiated(q, rules, q.story.id, g.refs) && ref in g.refs)
    || (q.story.approval.required && exists e: Evidence :: e.id == ref && DecisionNamed(q, rules, e))
  }

  lemma AnsweredMeansBacked(q: Request, rules: Rules, id: string, a: AcceptanceResult)
    ensures Answer(q, id) == Some(a) && Backed(q, rules, id) <==> Answered(q, rules, id, a)
  {
    OnlyExactly(q.acceptance, CriterionOf, id, a);
    BackedInWords(q, rules, id, a);
    ResolvesInWords(q, rules, id, a.refs);
    hide Only;
    hide TheOnly;
    hide Resolves;
    hide Substantiated;
    hide Check;
    hide Positive;
    hide IsPositive;
    hide IsCheck;
  }

  lemma UsedByCriteria(q: Request, rules: Rules, ref: string)
    ensures (exists i | 0 <= i < |q.story.criteria| :: UsedByCriterion(q, rules, q.story.criteria[i], ref))
      <==> exists c, a :: c in q.story.criteria && Answered(q, rules, c.id, a) && ref in a.refs
  {
    forall id, a
      ensures Answer(q, id) == Some(a) && Backed(q, rules, id) <==> Answered(q, rules, id, a)
    {
      AnsweredMeansBacked(q, rules, id, a);
    }
    assert forall id :: Backed(q, rules, id) ==> Answer(q, id).Some?;
    hide Answered;
    hide Backed;
    hide Answer;
    forall i | 0 <= i < |q.story.criteria| && UsedByCriterion(q, rules, q.story.criteria[i], ref)
      ensures exists c, a :: c in q.story.criteria && Answered(q, rules, c.id, a) && ref in a.refs
    {
      var c := q.story.criteria[i];
      assert c in q.story.criteria && Answered(q, rules, c.id, Answer(q, c.id).value);
    }
  }

  lemma UsedByGates(q: Request, rules: Rules, ref: string)
    ensures (exists i | 0 <= i < |q.story.requiredGates| :: UsedByGate(q, rules, q.story.requiredGates[i], ref))
      <==> exists id, g :: id in q.story.requiredGates && TheOnly(q.gates, GateId, id, g) && rules.gateIsValid(g)
                           && Substantiated(q, rules, q.story.id, g.refs) && ref in g.refs
  {
    forall id, g: Gate
      ensures Only(q.gates, GateId, id) == Some(g) <==> TheOnly(q.gates, GateId, id, g)
      ensures Resolves(q, rules, q.story.id, g.refs) <==> Substantiated(q, rules, q.story.id, g.refs)
    {
      OnlyExactly(q.gates, GateId, id, g);
      ResolvesInWords(q, rules, q.story.id, g.refs);
    }
    hide Only;
    hide TheOnly;
    hide Resolves;
    hide Substantiated;
    forall i | 0 <= i < |q.story.requiredGates| && UsedByGate(q, rules, q.story.requiredGates[i], ref)
      ensures exists id, g :: id in q.story.requiredGates && TheOnly(q.gates, GateId, id, g) && rules.gateIsValid(g)
                              && Substantiated(q, rules, q.story.id, g.refs) && ref in g.refs
    {
      var id := q.story.requiredGates[i];
      assert id in q.story.requiredGates && TheOnly(q.gates, GateId, id, Supplied(q, rules, id).value);
    }
  }

  lemma DecisionMeansNamed(q: Request, rules: Rules, e: Evidence)
    ensures Decision(q, rules) == Some(e) <==> DecisionNamed(q, rules, e)
  {
    OnlyExactly(q.evidence, EvidenceId, e.id, e);
    hide TheOnly;
    hide Named;
  }

  /** A certification refers to exactly the evidence that was looked at with success. */
  lemma UsedInWords(q: Request, rules: Rules, ref: string)
    ensures Used(q, rules, ref) <==> LookedAt(q, rules, ref)
  {
    UsedByCriteria(q, rules, ref);
    UsedByGates(q, rules, ref);
    forall e
      ensures Decision(q, rules) == Some(e) <==> DecisionNamed(q, rules, e)
    {
      DecisionMeansNamed(q, rules, e);
    }
    hide DecisionNamed;
    hide Decision;
    hide UsedByCriterion;
    hide UsedByGate;
    hide Answered;
    hide TheOnly;
    hide Substantiated;
    assert forall e :: DecisionNamed(q, rules, e) ==> q.context.humanEvidence == Some(e.id) by {
      NamedByContext(q, rules);
    }
  }

  lemma NamedByContext(q: Request, rules: Rules)
    ensures forall e :: DecisionNamed(q, rules, e) ==> q.context.humanEvidence == Some(e.id)
  {
  }

  /** What the certification says of a criterion, of a gate and of the human: what was supplied, and UNKNOWN where nothing usable was. */
  lemma RecordedInWords(q: Request, rules: Rules, id: string)
    ensures AcceptanceVerdict(q, id) != Unknown <==>
      exists a :: TheOnly(q.acceptance, CriterionOf, id, a) && a.result == Some(AcceptanceVerdict(q, id)) && a.result != Some(Unknown)
    ensures GateVerdict(q, rules, id) != Unknown <==>
      exists g :: TheOnly(q.gates, GateId, id, g) && rules.gateIsValid(g) && g.result == GateVerdict(q, rules, id) && g.result != Unknown
    ensures forall a :: TheOnly(q.acceptance, CriterionOf, id, a) && a.result.Some? ==> AcceptanceVerdict(q, id) == a.result.value
    ensures forall g :: TheOnly(q.gates, GateId, id, g) && rules.gateIsValid(g) ==> GateVerdict(q, rules, id) == g.result
  {
    forall a
      ensures Answer(q, id) == Some(a) <==> TheOnly(q.acceptance, CriterionOf, id, a)
    {
      OnlyExactly(q.acceptance, CriterionOf, id, a);
    }
    forall g: Gate
      ensures Only(q.gates, GateId, id) == Some(g) <==> TheOnly(q.gates, GateId, id, g)
    {
      OnlyExactly(q.gates, GateId, id, g);
    }
    hide Answer;
    hide Only;
    hide TheOnly;
  }

  /** The human record, of a story that requires a decision: its result is known exactly where a usable decision is named. */
  lemma HumanRecordInWords(q: Request, rules: Rules)
    requires q.story.approval.required
    ensures var r := RecordOf(q, rules);
      && r.required && r.approved == q.story.approval.approved && r.evidenceRef == q.context.humanEvidence
      && (r.result.Some? <==> exists e :: DecisionNamed(q, rules, e))
      && (r.result == Some(Pass) <==> exists e :: DecidesAs(q, rules, e, true))
      && (r.result == Some(Fail) <==> exists e :: DecidesAs(q, rules, e, false))
      && r.result != Some(NotApplicable)
  {
    DecisionInWords(q, rules);
    forall e
      ensures Decision(q, rules) == Some(e) <==> DecisionNamed(q, rules, e)
    {
      DecisionMeansNamed(q, rules, e);
    }
    hide DecisionNamed;
    hide DecidesAs;
    hide Decision;
  }
}
