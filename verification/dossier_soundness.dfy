/** What a dossier without an issue proves, said of the story and its records themselves. */
module DossierSoundness {
  import opened Wrappers
  import opened Ordering
  import opened Certification
  import opened CertificationIntegrity

  /** The item with that id, and no other has it. */
  ghost predicate TheOnly<T(!new)>(items: seq<T>, key: T -> string, id: string, x: T) {
    exists i :: 0 <= i < |items| && items[i] == x && key(x) == id && forall j :: 0 <= j < |items| && key(items[j]) == id ==> j == i
  }

  lemma {:induction false} OnlyExactly<T(!new)>(items: seq<T>, key: T -> string, id: string, x: T)
    ensures Only(items, key, id) == Some(x) <==> TheOnly(items, key, id, x)
  {
    if items != [] {
      var rest := items[1..];
      NamedNone(rest, key, id);
      if key(items[0]) == id {
        assert Named(items, key, id) == [items[0]] + Named(rest, key, id);
        FirstIsTheOnly(items, key, id, x);
      } else {
        OnlyExactly(rest, key, id, x);
        assert Named(items, key, id) == Named(rest, key, id);
        LaterIsTheOnly(items, key, id, x);
      }
    }
  }

  lemma FirstIsTheOnly<T(!new)>(items: seq<T>, key: T -> string, id: string, x: T)
    requires items != [] && key(items[0]) == id
    ensures TheOnly(items, key, id, x) <==> x == items[0] && forall i :: 0 <= i < |items[1..]| ==> key(items[1..][i]) != id
  {
    assert forall i :: 1 <= i < |items| ==> items[i] == items[1..][i - 1];
  }

  lemma LaterIsTheOnly<T(!new)>(items: seq<T>, key: T -> string, id: string, x: T)
    requires items != [] && key(items[0]) != id
    ensures TheOnly(items, key, id, x) <==> TheOnly(items[1..], key, id, x)
  {
    var rest := items[1..];
    assert forall i :: 1 <= i < |items| ==> items[i] == rest[i - 1];
    if TheOnly(rest, key, id, x) {
      var i :| 0 <= i < |rest| && rest[i] == x && forall j :: 0 <= j < |rest| && key(rest[j]) == id ==> j == i;
      assert items[i + 1] == x && forall j :: 0 <= j < |items| && key(items[j]) == id ==> j == i + 1;
    }
    if TheOnly(items, key, id, x) {
      var i :| 0 <= i < |items| && items[i] == x && forall j :: 0 <= j < |items| && key(items[j]) == id ==> j == i;
      assert rest[i - 1] == x && forall j :: 0 <= j < |rest| && key(rest[j]) == id ==> j == i - 1;
    }
  }

  /** The one piece of evidence that a certification refers to by this id. */
  ghost predicate Cites(d: Dossier, ref: string, e: Evidence) {
    ref in d.certification.refs && TheOnly(d.evidence, EvidenceId, ref, e)
  }

  /** The evidence is there, of no other commit, and about the story or one of its criteria. */
  ghost predicate EvidenceFits(d: Dossier, ref: string) {
    exists e :: Cites(d, ref, e)
      && (e.commit.None? || e.commit == Some(d.certification.commit))
      && (e.subject == d.story.id || exists c :: c in d.story.criteria && c.id == e.subject)
  }

  ghost predicate Checks(d: Dossier, criterion: string, e: Evidence) {
    e.kind == AcceptanceCriterionCheck && e.subject == criterion && Cites(d, e.id, e)
  }

  /** The criterion passed, on checks that are all positive, of which there is one at least. */
  ghost predicate CriterionMet(d: Dossier, criterion: string) {
    && criterion in d.certification.acceptance && d.certification.acceptance[criterion] == Pass
    && (exists e :: Checks(d, criterion, e)) && (forall e :: Checks(d, criterion, e) ==> e.result == Flag(true))
  }

  /** The one gate with that id passed on evidence, or was waived with authority; all its evidence is certified, and about the story. */
  ghost predicate GateMet(d: Dossier, id: string) {
    var c := d.certification;
    exists g :: TheOnly(d.gates, GateId, id, g) && g.subject == d.story.id && g.required && id in c.gates && c.gates[id] == g.result
      && (if g.result == Pass then g.refs != [] && id !in c.authorized else g.result == NotApplicable && id in c.authorized)
      && forall ref :: ref in g.refs ==> ref in c.refs && forall e :: Cites(d, ref, e) ==> e.subject == d.story.id
  }

  /** A human who is not anonymous decided in favour of the story, at this commit if at any, and approval and certification say so. */
  ghost predicate DecidedBy(d: Dossier, rules: Rules, e: Evidence) {
    var approval, c := d.story.approval, d.certification;
    && Cites(d, e.id, e) && e.kind == HumanDecision && e.subject == d.story.id && e.result == Flag(true)
    && rules.isHuman(e.source) && rules.attributableHuman(e.producer) && (e.commit.None? || e.commit == Some(c.commit))
    && approval.approved && approval.approvedBy == Some(e.producer) && approval.evidenceRef == Some(e.id)
    && approval.approvedAt.Some? && approval.approvedAt.value.aware
    && c.human == HumanRecord(true, true, Some(e.id), Some(Pass))
  }

  ghost predicate HumanMet(d: Dossier, rules: Rules) {
    if d.story.approval.required then exists e :: DecidedBy(d, rules, e)
    else !d.certification.human.required && d.certification.human.evidenceRef.None?
  }

  ghost predicate HeadMet(d: Dossier, rules: Rules) {
    && d.certification.subject == d.story.id
    && (rules.isCodex(d.certification.certifier) ==> rules.codexRole(d.certification.certifier))
    && (!rules.isCodex(d.certification.certifier) ==> rules.attributableHuman(d.certification.certifier))
  }

  ghost predicate CriteriaMet(d: Dossier) {
    && (forall id :: id in d.certification.acceptance <==> exists c :: c in d.story.criteria && c.id == id)
    && (forall c :: c in d.story.criteria && c.mandatory ==> CriterionMet(d, c.id))
  }

  ghost predicate AuthorityMet(d: Dossier) {
    && (forall i, j :: 0 <= i < j < |d.certification.authorized| ==> d.certification.authorized[i] != d.certification.authorized[j])
    && (forall id :: id in d.certification.authorized ==> id in d.story.requiredGates)
  }

  ghost predicate GatesMet(d: Dossier) {
    && (forall id :: id in d.certification.gates <==> id in d.story.requiredGates)
    && (forall id :: id in d.story.requiredGates ==> GateMet(d, id))
  }

  /** Everything the story demands is proven by what is on record. */
  ghost predicate Sound(d: Dossier, rules: Rules) {
    && HeadMet(d, rules) && (forall ref :: ref in d.certification.refs ==> EvidenceFits(d, ref))
    && CriteriaMet(d) && AuthorityMet(d) && GatesMet(d) && HumanMet(d, rules)
  }

  ghost predicate Clear(part: Part, d: Dossier, rules: Rules) {
    forall issue :: PartOf(issue) == part ==> !IssueHolds(issue, d, rules)
  }

  // ---------- part by part ----------

  lemma FoundMeansCited(d: Dossier, ref: string, e: Evidence)
    ensures ref in d.certification.refs ==> (Found(d, ref) == Some(e) <==> Cites(d, ref, e))
    ensures Found(d, ref) == Some(e) ==> e.id == ref
  {
    OnlyExactly(d.evidence, EvidenceId, ref, e);
    hide Named;
  }

  lemma HeadClear(d: Dossier, rules: Rules)
    ensures Clear(Head, d, rules) <==> HeadMet(d, rules)
  {
    assert IssueHolds(SubjectMismatch, d, rules) <==> d.certification.subject != d.story.id;
    assert IssueHolds(CertifierNotAttributable, d, rules) <==> !Attributable(rules, d.certification.certifier);
    hide IssueHolds;
  }

  lemma CriterionIsThere(d: Dossier, id: string)
    ensures IsCriterion(d.story, id) <==> exists c :: c in d.story.criteria && c.id == id
    ensures IsMandatory(d.story, id) <==> exists c :: c in d.story.criteria && c.id == id && c.mandatory
    ensures id in CriterionIds(d.story) <==> exists c :: c in d.story.criteria && c.id == id
  {
  }

  lemma ReferenceClear(d: Dossier, rules: Rules, ref: string)
    requires ref in d.certification.refs
    ensures EvidenceFits(d, ref) <==>
      && !IssueHolds(EvidenceReferenceInvalid(ref), d, rules) && !IssueHolds(EvidenceCommitMismatch(ref), d, rules)
      && !IssueHolds(EvidenceSubjectMismatch(ref), d, rules)
  {
    hide Only;
    hide TheOnly;
    hide Cites;
    forall e {
      FoundMeansCited(d, ref, e);
    }
    forall id {
      CriterionIsThere(d, id);
    }
    hide IsCriterion;
    assert Found(d, ref).Some? ==> Cites(d, ref, Found(d, ref).value);
    hide Found;
  }

  lemma OnlyReferenced(d: Dossier, rules: Rules, issue: Issue)
    requires PartOf(issue) == References && IssueHolds(issue, d, rules)
    ensures issue.id in d.certification.refs
  {
    hide Found;
  }

  lemma ReferencesClear(d: Dossier, rules: Rules)
    ensures Clear(References, d, rules) <==> forall ref :: ref in d.certification.refs ==> EvidenceFits(d, ref)
  {
    hide EvidenceFits;
    hide IssueHolds;
    forall ref | ref in d.certification.refs {
      ReferenceClear(d, rules, ref);
    }
    forall issue | PartOf(issue) == References && IssueHolds(issue, d, rules)
      ensures issue.id in d.certification.refs
    {
      OnlyReferenced(d, rules, issue);
    }
    if Clear(References, d, rules) {
      forall ref | ref in d.certification.refs
        ensures EvidenceFits(d, ref)
      {
        assert PartOf(EvidenceReferenceInvalid(ref)) == References && PartOf(EvidenceCommitMismatch(ref)) == References;
        assert PartOf(EvidenceSubjectMismatch(ref)) == References;
      }
    }
  }

  lemma ProofClear(d: Dossier, criterion: string)
    ensures PositivelyProven(d, criterion) <==>
      (exists e :: Checks(d, criterion, e)) && (forall e :: Checks(d, criterion, e) ==> e.result == Flag(true))
  {
    hide Only;
    hide TheOnly;
    hide Cites;
    var refs := d.certification.refs;
    forall ref, e | ref in refs
      ensures Found(d, ref) == Some(e) <==> Cites(d, ref, e)
      ensures Cites(d, ref, e) ==> e.id == ref
    {
      FoundMeansCited(d, ref, e);
    }
    assert forall ref, e :: Cites(d, ref, e) ==> ref in refs by {
      CitedIsReferred(d);
    }
    hide Found;
    forall i | 0 <= i < |refs| && IsProof(d, refs[i], criterion)
      ensures Checks(d, criterion, Found(d, refs[i]).value)
    {
      assert Cites(d, refs[i], Found(d, refs[i]).value);
    }
    forall e | Checks(d, criterion, e)
      ensures exists i :: 0 <= i < |refs| && IsProof(d, refs[i], criterion) && Found(d, refs[i]).value == e
    {
      var i :| 0 <= i < |refs| && refs[i] == e.id;
      assert Found(d, refs[i]) == Some(e);
    }
  }

  lemma CitedIsReferred(d: Dossier)
    ensures forall ref, e :: Cites(d, ref, e) ==> ref in d.certification.refs
  {
  }

  lemma CriterionClear(d: Dossier, rules: Rules, id: string)
    requires IsMandatory(d.story, id)
    ensures CriterionMet(d, id) <==> !IssueHolds(MandatoryAcceptanceNotPass(id), d, rules) && !IssueHolds(AcceptanceEvidenceInvalid(id), d, rules)
  {
    ProofClear(d, id);
    hide Checks;
    hide PositivelyProven;
    hide IsMandatory;
  }

  lemma CompleteClear(d: Dossier, rules: Rules)
    ensures IssueHolds(AcceptanceResultsIncomplete, d, rules) <==>
      !(forall id :: id in d.certification.acceptance <==> exists c :: c in d.story.criteria && c.id == id)
  {
    forall id
      ensures id in CriterionIds(d.story) <==> exists c :: c in d.story.criteria && c.id == id
    {
      CriterionIsThere(d, id);
    }
    hide CriterionIds;
  }

  lemma NotMandatory(d: Dossier, rules: Rules, id: string)
    requires !IsMandatory(d.story, id)
    ensures !IssueHolds(MandatoryAcceptanceNotPass(id), d, rules) && !IssueHolds(AcceptanceEvidenceInvalid(id), d, rules)
  {
  }

  lemma MandatoryClear(d: Dossier, rules: Rules, id: string)
    ensures !IssueHolds(MandatoryAcceptanceNotPass(id), d, rules) && !IssueHolds(AcceptanceEvidenceInvalid(id), d, rules)
      <==> (IsMandatory(d.story, id) ==> CriterionMet(d, id))
  {
    hide IssueHolds;
    hide IsMandatory;
    hide CriterionMet;
    if IsMandatory(d.story, id) {
      CriterionClear(d, rules, id);
    } else {
      NotMandatory(d, rules, id);
    }
  }

  lemma AcceptanceIssues(d: Dossier, rules: Rules)
    ensures Clear(Acceptance, d, rules) <==>
      && !IssueHolds(AcceptanceResultsIncomplete, d, rules)
      && forall id :: !IssueHolds(MandatoryAcceptanceNotPass(id), d, rules) && !IssueHolds(AcceptanceEvidenceInvalid(id), d, rules)
  {
    hide IssueHolds;
    assert PartOf(AcceptanceResultsIncomplete) == Acceptance;
    assert forall id :: PartOf(MandatoryAcceptanceNotPass(id)) == Acceptance && PartOf(AcceptanceEvidenceInvalid(id)) == Acceptance;
  }

  lemma AcceptanceClear(d: Dossier, rules: Rules)
    ensures Clear(Acceptance, d, rules) <==> CriteriaMet(d)
  {
    hide IssueHolds;
    hide CriterionMet;
    hide IsMandatory;
    hide Clear;
    CompleteClear(d, rules);
    AcceptanceIssues(d, rules);
    forall id
      ensures IsMandatory(d.story, id) <==> exists c :: c in d.story.criteria && c.id == id && c.mandatory
      ensures !IssueHolds(MandatoryAcceptanceNotPass(id), d, rules) && !IssueHolds(AcceptanceEvidenceInvalid(id), d, rules)
        <==> (IsMandatory(d.story, id) ==> CriterionMet(d, id))
    {
      CriterionIsThere(d, id);
      MandatoryClear(d, rules, id);
    }
  }

  lemma AuthorityClear(d: Dossier, rules: Rules)
    ensures Clear(Authority, d, rules) <==> AuthorityMet(d)
  {
    assert IssueHolds(AuthorityDuplicate, d, rules) <==> !Distinct(d.certification.authorized);
    assert forall id :: IssueHolds(AuthorityNotRequired(id), d, rules) <==> id in d.certification.authorized && id !in d.story.requiredGates;
    hide IssueHolds;
    if Clear(Authority, d, rules) {
      assert PartOf(AuthorityDuplicate) == Authority;
      forall id | id in d.certification.authorized
        ensures id in d.story.requiredGates
      {
        assert PartOf(AuthorityNotRequired(id)) == Authority;
      }
    }
  }

  /** A gate without an issue of its own, and its evidence. */
  ghost predicate GateClear(d: Dossier, rules: Rules, id: string) {
    forall issue :: !IssueOfGate(issue, id, d, rules)
  }

  lemma GateClearMeans(d: Dossier, rules: Rules, id: string)
    requires id in d.story.requiredGates
    ensures GateClear(d, rules, id) <==> GateMet(d, id)
  {
    forall g: Gate {
      OnlyExactly(d.gates, GateId, id, g);
    }
    hide TheOnly;
    hide Named;
    if Only(d.gates, GateId, id).None? {
      MissingGate(d, rules, id);
      hide *;
      assert IssueOfGate(RequiredGateMissing(id), id, d, rules);
      assert !GateMet(d, id) by {
        NotMet(d, id);
      }
      assert !GateClear(d, rules, id) by {
        NotClear(d, rules, id, RequiredGateMissing(id));
      }
    } else {
      GivenGateClear(d, rules, id, Only(d.gates, GateId, id).value);
    }
  }

  lemma NotMet(d: Dossier, id: string)
    requires Only(d.gates, GateId, id).None?
    ensures !GateMet(d, id)
  {
    forall g: Gate {
      OnlyExactly(d.gates, GateId, id, g);
    }
    hide TheOnly;
    hide Only;
  }

  lemma NotClear(d: Dossier, rules: Rules, id: string, issue: Issue)
    requires IssueOfGate(issue, id, d, rules)
    ensures !GateClear(d, rules, id)
  {
    hide IssueOfGate;
  }

  /** Result, subject and authority of the gate are in order. */
  predicate ResultMet(d: Dossier, id: string, g: Gate) {
    var c := d.certification;
    && g.subject == d.story.id && g.required && id in c.gates && c.gates[id] == g.result
    && (if g.result == Pass then g.refs != [] && id !in c.authorized else g.result == NotApplicable && id in c.authorized)
  }

  lemma ResultClear(d: Dossier, id: string, g: Gate)
    ensures (forall issue :: !ResultIssue(issue, id, g, d)) <==> ResultMet(d, id, g)
  {
    if !ResultMet(d, id, g) {
      assert || ResultIssue(RequiredGateMismatch(id), id, g, d) || ResultIssue(GateResultMismatch(id), id, g, d)
             || ResultIssue(RequiredGateNotSatisfied(id), id, g, d) || ResultIssue(AuthorityMissing(id), id, g, d)
             || ResultIssue(AuthorityUnused(id), id, g, d) || ResultIssue(GateEvidenceMissing(id), id, g, d);
    }
  }

  ghost predicate RefsMet(d: Dossier, g: Gate) {
    forall ref :: ref in g.refs ==> ref in d.certification.refs && (Found(d, ref).Some? ==> Found(d, ref).value.subject == d.story.id)
  }

  lemma EvidenceIssues(d: Dossier, rules: Rules, ref: string)
    ensures IssueHolds(GateEvidenceNotCertified(ref), d, rules) <==> CitedByGate(d, ref) && ref !in d.certification.refs
    ensures IssueHolds(GateEvidenceSubjectMismatch(ref), d, rules)
      <==> CitedByGate(d, ref) && Found(d, ref).Some? && Found(d, ref).value.subject != d.story.id
  {
    hide CitedByGate;
    hide Found;
  }

  lemma RefClear(d: Dossier, rules: Rules, id: string, g: Gate, ref: string)
    requires RequiredGate(d, id) == Some(g)
    ensures IssueOfGate(GateEvidenceNotCertified(ref), id, d, rules) <==> ref in g.refs && ref !in d.certification.refs
    ensures IssueOfGate(GateEvidenceSubjectMismatch(ref), id, d, rules)
      <==> ref in g.refs && Found(d, ref).Some? && Found(d, ref).value.subject != d.story.id
  {
    hide IssueHolds;
    hide CitedByGate;
    hide RequiredGate;
    hide Found;
    EvidenceIssues(d, rules, ref);
    if ref in g.refs {
      CitedHere(d, ref, id);
    }
  }

  lemma GateRefsClear(d: Dossier, rules: Rules, id: string, g: Gate)
    requires RequiredGate(d, id) == Some(g)
    ensures (forall issue :: AboutEvidence(issue) ==> !IssueOfGate(issue, id, d, rules)) <==> RefsMet(d, g)
  {
    hide IssueOfGate;
    hide Found;
    hide RequiredGate;
    forall ref
      ensures IssueOfGate(GateEvidenceNotCertified(ref), id, d, rules) <==> ref in g.refs && ref !in d.certification.refs
      ensures IssueOfGate(GateEvidenceSubjectMismatch(ref), id, d, rules)
        <==> ref in g.refs && Found(d, ref).Some? && Found(d, ref).value.subject != d.story.id
    {
      RefClear(d, rules, id, g, ref);
    }
    if forall issue :: AboutEvidence(issue) ==> !IssueOfGate(issue, id, d, rules) {
      forall ref | ref in g.refs
        ensures ref in d.certification.refs && (Found(d, ref).Some? ==> Found(d, ref).value.subject == d.story.id)
      {
        assert AboutEvidence(GateEvidenceNotCertified(ref)) && AboutEvidence(GateEvidenceSubjectMismatch(ref));
      }
    }
  }

  lemma ResultIsNotEvidence(id: string, g: Gate, d: Dossier)
    ensures forall issue :: ResultIssue(issue, id, g, d) ==> !AboutEvidence(issue)
  {
  }

  lemma GivenGateClear(d: Dossier, rules: Rules, id: string, g: Gate)
    requires RequiredGate(d, id) == Some(g)
    ensures GateClear(d, rules, id) <==> GateMet(d, id)
  {
    ResultClear(d, id, g);
    GateRefsClear(d, rules, id, g);
    GateMetMeans(d, id, g);
    ResultIsNotEvidence(id, g, d);
    hide IssueOfGate;
    hide ResultIssue;
    hide ResultMet;
    hide RefsMet;
    hide GateMet;
    hide AboutEvidence;
    hide RequiredGate;
    forall issue | !AboutEvidence(issue)
      ensures IssueOfGate(issue, id, d, rules) <==> ResultIssue(issue, id, g, d)
    {
      ResultIssueIsIssue(issue, id, g, d, rules);
    }
  }

  lemma GateMetMeans(d: Dossier, id: string, g: Gate)
    requires RequiredGate(d, id) == Some(g)
    ensures GateMet(d, id) <==> ResultMet(d, id, g) && RefsMet(d, g)
  {
    forall other: Gate {
      OnlyExactly(d.gates, GateId, id, other);
    }
    forall ref, e {
      FoundMeansCited(d, ref, e);
    }
    assert Only(d.gates, GateId, id) == Some(g);
    assert forall ref :: Found(d, ref).Some? && ref in d.certification.refs ==> Cites(d, ref, Found(d, ref).value);
    hide TheOnly;
    hide Cites;
    hide Only;
    hide Found;
    hide RequiredGate;
  }

  /** The issues of the gates are those of each required gate, and that the results are not complete. */
  lemma GatesClearOneByOne(d: Dossier, rules: Rules)
    ensures Clear(Gates, d, rules) <==>
      !IssueHolds(GateResultsIncomplete, d, rules) && forall id :: id in d.story.requiredGates ==> GateClear(d, rules, id)
  {
    hide IssueHolds;
    hide IssueOfGate;
    var ids := d.story.requiredGates;
    forall issue
      ensures IssueOfGates(issue, ids, d, rules) <==> PartOf(issue) == Gates && IssueHolds(issue, d, rules)
    {
      AllGatesSeen(issue, d, rules);
    }
    if Clear(Gates, d, rules) {
      assert PartOf(GateResultsIncomplete) == Gates;
      forall id, issue | id in ids
        ensures !IssueOfGate(issue, id, d, rules)
      {
        var i :| 0 <= i < |ids| && ids[i] == id;
        assert IssueOfGate(issue, ids[i], d, rules) ==> IssueOfGates(issue, ids, d, rules);
      }
    } else {
      var issue :| PartOf(issue) == Gates && IssueHolds(issue, d, rules);
      if issue != GateResultsIncomplete {
        var i :| 0 <= i < |ids| && IssueOfGate(issue, ids[i], d, rules);
        assert ids[i] in ids && !GateClear(d, rules, ids[i]);
      }
    }
  }

  lemma GatesClear(d: Dossier, rules: Rules)
    ensures Clear(Gates, d, rules) <==> GatesMet(d)
  {
    hide IssueHolds;
    hide Clear;
    hide GateClear;
    hide GateMet;
    GatesClearOneByOne(d, rules);
    CompletenessHolds(d, rules);
    forall id | id in d.story.requiredGates
      ensures GateClear(d, rules, id) <==> GateMet(d, id)
    {
      GateClearMeans(d, rules, id);
    }
  }

  lemma HumanClear(d: Dossier, rules: Rules)
    ensures Clear(Human, d, rules) <==> HumanMet(d, rules)
  {
    HumanIssues(d, rules);
    HumanDecided(d, rules);
    hide Clear;
    hide DecidedBy;
    hide HumanComplete;
    hide HumanProven;
  }

  lemma HumanDecided(d: Dossier, rules: Rules)
    ensures HumanComplete(d) && HumanProven(d, rules, d.certification.human.evidenceRef.value) <==> exists e :: DecidedBy(d, rules, e)
  {
    forall ref, e
      ensures ref in d.certification.refs ==> (Found(d, ref) == Some(e) <==> Cites(d, ref, e))
      ensures Found(d, ref) == Some(e) ==> e.id == ref
      ensures Cites(d, ref, e) ==> ref in d.certification.refs
    {
      FoundMeansCited(d, ref, e);
    }
    hide Found;
    hide Cites;
    if HumanComplete(d) && HumanProven(d, rules, d.certification.human.evidenceRef.value) {
      assert DecidedBy(d, rules, Found(d, d.certification.human.evidenceRef.value).value);
    }
  }

  lemma HumanIssues(d: Dossier, rules: Rules)
    ensures Clear(Human, d, rules) <==>
      if d.story.approval.required then HumanComplete(d) && HumanProven(d, rules, d.certification.human.evidenceRef.value)
      else !d.certification.human.required && d.certification.human.evidenceRef.None?
  {
    assert IssueHolds(HumanApprovalMismatch, d, rules) <==>
      !d.story.approval.required && (d.certification.human.required || d.certification.human.evidenceRef.Some?);
    assert IssueHolds(HumanApprovalIncomplete, d, rules) <==> d.story.approval.required && !HumanComplete(d);
    assert IssueHolds(HumanEvidenceInvalid, d, rules) <==>
      d.story.approval.required && HumanComplete(d) && !HumanProven(d, rules, d.certification.human.evidenceRef.value);
    hide IssueHolds;
    hide HumanComplete;
    hide HumanProven;
    assert PartOf(HumanApprovalMismatch) == Human && PartOf(HumanApprovalIncomplete) == Human && PartOf(HumanEvidenceInvalid) == Human;
  }

  /** Main result: a certified dossier has no issue if and only if everything the story demands is proven by what is on record. */
  lemma CoherentMeansSound(d: Dossier, rules: Rules)
    requires d.certification.result == Verdict.Certified
    ensures Coherent(d, rules) <==> Sound(d, rules)
  {
    HeadClear(d, rules);
    ReferencesClear(d, rules);
    AcceptanceClear(d, rules);
    AuthorityClear(d, rules);
    GatesClear(d, rules);
    HumanClear(d, rules);
    EveryPart(d, rules);
    SoundInParts(d, rules);
    hide *;
  }

  lemma SoundInParts(d: Dossier, rules: Rules)
    ensures Sound(d, rules) <==>
      && HeadMet(d, rules) && (forall ref :: ref in d.certification.refs ==> EvidenceFits(d, ref))
      && CriteriaMet(d) && AuthorityMet(d) && GatesMet(d) && HumanMet(d, rules)
  {
  }

  lemma EveryPart(d: Dossier, rules: Rules)
    requires d.certification.result == Verdict.Certified
    ensures Coherent(d, rules) <==>
      && Clear(Head, d, rules) && Clear(References, d, rules) && Clear(Acceptance, d, rules)
      && Clear(Authority, d, rules) && Clear(Gates, d, rules) && Clear(Human, d, rules)
  {
    hide IssueHolds;
    hide PartOf;
  }
}
