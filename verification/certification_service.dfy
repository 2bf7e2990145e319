/** The evaluation of a certification request: `certification_service.py`. */
module CertificationService {
  import opened Wrappers
  import opened Ordering
  import opened Certification
  import opened CertificationIntegrity
  import opened CertificationAgreement

  /** Entries of the service's lists of failures and blockers. */
  datatype Note =
    | CriterionFailed(id: string) | CriterionMissing(id: string) | CriterionUnknown(id: string) | CriterionNotProven(id: string)
    | GateFailed(id: string) | GateMissing(id: string) | GateInvalid(id: string) | GateMismatch(id: string)
    | GateNotProven(id: string) | AuthorityUnknown(id: string)
    | HumanRefused | HumanMissing | HumanAmbiguous | HumanInvalid | HumanConflicting

  datatype Error =
    | CommitRequired | CertifierRequired | CertifierRoleRequired | InvalidStory
    | ValidationFailed | InvalidDossier(issues: seq<Issue>)

  // ---------- what one criterion, one gate and the human decision contribute ----------

  function CriterionFailure(q: Request, rules: Rules, c: Criterion): Option<Note> {
    if c.mandatory && CriterionFails(q, rules, c.id) then Some(CriterionFailed(c.id)) else None
  }

  function CriterionBlocker(q: Request, rules: Rules, c: Criterion): Option<Note> {
    if !c.mandatory then None
    else if Answer(q, c.id).None? then Some(CriterionMissing(c.id))
    else if !Decided(q, c.id) then Some(CriterionUnknown(c.id))
    else if CriterionPasses(q, rules, c.id) || CriterionFails(q, rules, c.id) then None
    else Some(CriterionNotProven(c.id))
  }

  function GateFailure(q: Request, rules: Rules, id: string): Option<Note> {
    if GateFails(q, rules, id) then Some(GateFailed(id)) else None
  }

  function GateBlocker(q: Request, rules: Rules, id: string): Option<Note> {
    if Only(q.gates, GateId, id).None? then Some(GateMissing(id))
    else if Supplied(q, rules, id).None? then Some(GateInvalid(id))
    else if !GateFits(q, rules, id) then Some(GateMismatch(id))
    else if GatePasses(q, rules, id) || GateFails(q, rules, id) || GateWaived(q, rules, id) then None
    else Some(GateNotProven(id))
  }

  function HumanFailure(q: Request, rules: Rules): Option<Note> {
    if q.story.approval.required && Refused(q, rules) then Some(HumanRefused) else None
  }

  function HumanBlocker(q: Request, rules: Rules): Option<Note> {
    if !q.story.approval.required then None
    else if q.context.humanEvidence.None? then Some(HumanMissing)
    else if Only(q.evidence, EvidenceId, q.context.humanEvidence.value).None? then Some(HumanAmbiguous)
    else if Decision(q, rules).None? then Some(HumanInvalid)
    else if Approved(q, rules) || Refused(q, rules) then None
    else Some(HumanConflicting)
  }

  predicate AuthorityBlocks(q: Request, n: Note) {
    n.AuthorityUnknown? && n.id in q.context.allowedNotApplicable && n.id !in q.story.requiredGates
  }

  ghost predicate Indexed<T(!new)>(index: map<string, seq<T>>, items: seq<T>, key: T -> string) {
    forall id :: Index(index, id) == Named(items, key, id)
  }

  lemma LoneIsOnly<T(!new)>(index: map<string, seq<T>>, items: seq<T>, key: T -> string, id: string)
    requires Indexed(index, items, key)
    ensures Lone(Index(index, id)) == Only(items, key, id)
  {
    hide Index;
  }

  /** `_resolve_evidence`. */
  method ResolveEvidence(q: Request, rules: Rules, refs: seq<string>, index: map<string, seq<Evidence>>, subject: string)
    returns (valid: bool, resolved: seq<string>)
    requires Indexed(index, q.evidence, EvidenceId)
    ensures valid <==> Resolves(q, rules, subject, refs)
    ensures resolved <= refs && (valid ==> resolved == refs)
  {
    hide Indexed;
    hide Only;
    hide Lone;
    hide Index;
    hide Distinct;
    resolved := [];
    if refs == [] || !Distinct(refs) {
      return false, [];
    }
    for i := 0 to |refs|
      invariant resolved == refs[..i]
      invariant forall j :: 0 <= j < i ==> ReferenceHolds(q, rules, subject, refs[j])
    {
      var item := Lone(Index(index, refs[i]));
      LoneIsOnly(index, q.evidence, EvidenceId, refs[i]);
      if item.None? {
        return false, resolved;
      }
      var e := item.value;
      if !rules.evidenceIsValid(e) || e.subject != subject || refs[i] in q.context.stale {
        return false, resolved;
      }
      if refs[i] in q.context.independent {
        if e.commit.Some? && e.commit != Some(q.commit) {
          return false, resolved;
        }
      } else if e.commit != Some(q.commit) {
        return false, resolved;
      }
      resolved := resolved + [refs[i]];
    }
    valid := true;
  }

  lemma WaivedNothing(q: Request, rules: Rules, gates: seq<string>)
    ensures Waived(q, rules, gates[..0]) == []
  {
  }

  lemma WaivedOneMore(q: Request, rules: Rules, gates: seq<string>, i: nat)
    requires i < |gates|
    ensures Waived(q, rules, gates[..i + 1]) == Waived(q, rules, gates[..i]) + if GateWaived(q, rules, gates[i]) then [gates[i]] else []
  {
    assert gates[..i + 1][..i] == gates[..i];
  }

  /** The lists that the evaluation methods share. */
  class Evaluation {
    const q: Request
    const rules: Rules
    var failures: seq<Note>
    var blockers: seq<Note>
    var used: seq<string>
    var authorized: seq<string>

    constructor (q: Request, rules: Rules)
      ensures this.q == q && this.rules == rules
      ensures failures == [] && blockers == [] && used == [] && authorized == []
    {
      this.q, this.rules := q, rules;
      failures, blockers, used, authorized := [], [], [], [];
    }

    /** Authorities for gates that the story does not require are blockers. */
    method NoteAuthorities()
      modifies this`blockers
      ensures forall n :: n in blockers <==> n in old(blockers) || AuthorityBlocks(q, n)
    {
      var todo := q.context.allowedNotApplicable - Elements(q.story.requiredGates);
      while todo != {}
        invariant todo <= q.context.allowedNotApplicable - Elements(q.story.requiredGates)
        invariant forall n :: n in blockers <==> n in old(blockers) || (AuthorityBlocks(q, n) && n.id !in todo)
        decreases todo
      {
        var id :| id in todo;
        blockers := blockers + [AuthorityUnknown(id)];
        todo := todo - {id};
      }
    }

    /** `_evaluate_acceptance`. */
    method EvaluateAcceptance(index: map<string, seq<Evidence>>) returns (results: map<string, GateResult>)
      requires Indexed(index, q.evidence, EvidenceId)
      modifies this`failures, this`blockers, this`used
      ensures forall id :: id in results <==> exists i :: 0 <= i < |q.story.criteria| && q.story.criteria[i].id == id
      ensures forall id :: id in results ==> results[id] == AcceptanceVerdict(q, id)
      ensures forall n :: n in failures <==> n in old(failures) || exists i :: 0 <= i < |q.story.criteria| && CriterionFailure(q, rules, q.story.criteria[i]) == Some(n)
      ensures forall n :: n in blockers <==> n in old(blockers) || exists i :: 0 <= i < |q.story.criteria| && CriterionBlocker(q, rules, q.story.criteria[i]) == Some(n)
      ensures forall id :: id in used <==> id in old(used) || exists i :: 0 <= i < |q.story.criteria| && UsedByCriterion(q, rules, q.story.criteria[i], id)
    {
      hide CriterionFailure;
      hide CriterionBlocker;
      hide UsedByCriterion;
      hide Named;
      hide Distinct;
      var byId := IndexById(q.acceptance, CriterionOf);
      results := map[];
      for i := 0 to |q.story.criteria|
        invariant forall id :: id in results <==> exists j :: 0 <= j < i && q.story.criteria[j].id == id
        invariant forall id :: id in results ==> results[id] == AcceptanceVerdict(q, id)
        invariant forall n :: n in failures <==> n in old(failures) || exists j :: 0 <= j < i && CriterionFailure(q, rules, q.story.criteria[j]) == Some(n)
        invariant forall n :: n in blockers <==> n in old(blockers) || exists j :: 0 <= j < i && CriterionBlocker(q, rules, q.story.criteria[j]) == Some(n)
        invariant forall id :: id in used <==> id in old(used) || exists j :: 0 <= j < i && UsedByCriterion(q, rules, q.story.criteria[j], id)
      {
        var c := q.story.criteria[i];
        var answer := Lone(Index(byId, c.id));
        assert answer == Answer(q, c.id);
        EvaluateCriterion(index, c, answer);
        results := results[c.id := if answer.Some? && answer.value.result.Some? then answer.value.result.value else Unknown];
      }
    }

    /** One turn of the loop over the criteria. */
    method EvaluateCriterion(index: map<string, seq<Evidence>>, c: Criterion, answer: Option<AcceptanceResult>)
      requires Indexed(index, q.evidence, EvidenceId) && answer == Answer(q, c.id)
      modifies this`failures, this`blockers, this`used
      ensures forall n :: n in failures <==> n in old(failures) || CriterionFailure(q, rules, c) == Some(n)
      ensures forall n :: n in blockers <==> n in old(blockers) || CriterionBlocker(q, rules, c) == Some(n)
      ensures forall id :: id in used <==> id in old(used) || UsedByCriterion(q, rules, c, id)
    {
      if answer.None? {
        if c.mandatory {
          blockers := blockers + [CriterionMissing(c.id)];
        }
        return;
      }
      if answer.value.result.None? {
        if c.mandatory {
          blockers := blockers + [CriterionUnknown(c.id)];
        }
        return;
      }
      var result := answer.value.result.value;
      var valid, resolved := ResolveEvidence(q, rules, answer.value.refs, index, c.id);
      valid := valid && Supports(q, result, resolved);
      assert valid <==> Backed(q, rules, c.id);
      if valid {
        used := used + resolved;
      }
      if !c.mandatory {
        return;
      }
      if result == Fail && valid {
        failures := failures + [CriterionFailed(c.id)];
      } else if result != Pass || !valid {
        blockers := blockers + [CriterionNotProven(c.id)];
      }
    }

    /** `_evaluate_gates`. */
    method EvaluateGates(index: map<string, seq<Evidence>>) returns (results: map<string, GateResult>)
      requires Indexed(index, q.evidence, EvidenceId)
      modifies this
      ensures forall id :: id in results <==> id in q.story.requiredGates
      ensures forall id :: id in results ==> results[id] == GateVerdict(q, rules, id)
      ensures forall n :: n in failures <==> n in old(failures) || exists i :: 0 <= i < |q.story.requiredGates| && GateFailure(q, rules, q.story.requiredGates[i]) == Some(n)
      ensures forall n :: n in blockers <==> n in old(blockers) || exists i :: 0 <= i < |q.story.requiredGates| && GateBlocker(q, rules, q.story.requiredGates[i]) == Some(n)
      ensures forall id :: id in used <==> id in old(used) || exists i :: 0 <= i < |q.story.requiredGates| && UsedByGate(q, rules, q.story.requiredGates[i], id)
      ensures authorized == old(authorized) + Waived(q, rules, q.story.requiredGates)
    {
      hide GateFailure;
      hide GateBlocker;
      hide UsedByGate;
      hide Waived;
      hide GateVerdict;
      WaivedNothing(q, rules, q.story.requiredGates);
      hide Named;
      hide Distinct;
      var byId := IndexById(q.gates, GateId);
      var required := q.story.requiredGates;
      results := map[];
      for i := 0 to |required|
        invariant forall id :: id in results <==> exists j :: 0 <= j < i && required[j] == id
        invariant forall id :: id in results ==> results[id] == GateVerdict(q, rules, id)
        invariant forall n :: n in failures <==> n in old(failures) || exists j :: 0 <= j < i && GateFailure(q, rules, required[j]) == Some(n)
        invariant forall n :: n in blockers <==> n in old(blockers) || exists j :: 0 <= j < i && GateBlocker(q, rules, required[j]) == Some(n)
        invariant forall id :: id in used <==> id in old(used) || exists j :: 0 <= j < i && UsedByGate(q, rules, required[j], id)
        invariant authorized == old(authorized) + Waived(q, rules, required[..i])
      {
        WaivedOneMore(q, rules, required, i);
        var found := Lone(Index(byId, required[i]));
        assert found == Only(q.gates, GateId, required[i]);
        var result := EvaluateGate(index, required[i], found);
        results := results[required[i] := result];
      }
      assert required[..|required|] == required;
    }

    /** One turn of the loop over the required gates. */
    method EvaluateGate(index: map<string, seq<Evidence>>, id: string, found: Option<Gate>) returns (result: GateResult)
      requires Indexed(index, q.evidence, EvidenceId) && found == Only(q.gates, GateId, id)
      modifies this
      ensures result == GateVerdict(q, rules, id)
      ensures forall n :: n in failures <==> n in old(failures) || GateFailure(q, rules, id) == Some(n)
      ensures forall n :: n in blockers <==> n in old(blockers) || GateBlocker(q, rules, id) == Some(n)
      ensures forall e :: e in used <==> e in old(used) || UsedByGate(q, rules, id, e)
      ensures authorized == old(authorized) + if GateWaived(q, rules, id) then [id] else []
    {
      result := Unknown;
      if found.None? {
        blockers := blockers + [GateMissing(id)];
        return;
      }
      var gate := found.value;
      if !rules.gateIsValid(gate) {
        blockers := blockers + [GateInvalid(id)];
        return;
      }
      result := gate.result;
      var valid, resolved := ResolveEvidence(q, rules, gate.refs, index, q.story.id);
      assert valid <==> GateBacked(q, rules, id);
      if valid {
        used := used + resolved;
      }
      if gate.subject != q.story.id || !gate.required {
        blockers := blockers + [GateMismatch(id)];
      } else if gate.result == Fail && valid {
        failures := failures + [GateFailed(id)];
      } else if gate.result == Pass && valid {
      } else if gate.result == NotApplicable && id in q.context.allowedNotApplicable {
        authorized := authorized + [id];
      } else {
        blockers := blockers + [GateNotProven(id)];
      }
    }

    /** `_evaluate_human_approval`. */
    method EvaluateHumanApproval(index: map<string, seq<Evidence>>) returns (record: HumanRecord)
      requires Indexed(index, q.evidence, EvidenceId)
      modifies this`failures, this`blockers, this`used
      ensures record == RecordOf(q, rules)
      ensures forall n :: n in failures <==> n in old(failures) || HumanFailure(q, rules) == Some(n)
      ensures forall n :: n in blockers <==> n in old(blockers) || HumanBlocker(q, rules) == Some(n)
      ensures forall id :: id in used <==> id in old(used) || UsedByHuman(q, rules, id)
    {
      var approval := q.story.approval;
      if !approval.required {
        return HumanRecord(false, approval.approved, None, None);
      }
      record := HumanRecord(true, approval.approved, q.context.humanEvidence, None);
      if q.context.humanEvidence.None? {
        blockers := blockers + [HumanMissing];
        return;
      }
      var id := q.context.humanEvidence.value;
      var found := Lone(Index(index, id));
      if found.None? {
        blockers := blockers + [HumanAmbiguous];
        return;
      }
      if !IsDecision(q, rules, found.value) {
        blockers := blockers + [HumanInvalid];
        return;
      }
      used := used + [id];
      if approval.approved && found.value.result == Flag(true) {
        record := record.(result := Some(Pass));
      } else if !approval.approved && found.value.result == Flag(false) {
        record := record.(result := Some(Fail));
        failures := failures + [HumanRefused];
      } else {
        record := record.(result := Some(Unknown));
        blockers := blockers + [HumanConflicting];
      }
    }
  }

  /** `dict.fromkeys`: the first occurrences, in their order. */
  method Deduplicate(items: seq<string>) returns (r: seq<string>)
    ensures Distinct(r) && forall x :: x in r <==> x in items
  {
    r := [];
    for i := 0 to |items|
      invariant Distinct(r)
      invariant forall x :: x in r <==> x in items[..i]
    {
      if items[i] !in r {
        r := r + [items[i]];
      }
    }
  }

  /** The notes say exactly what the rules say. */
  lemma NotesDecide(q: Request, rules: Rules, failures: seq<Note>, blockers: seq<Note>)
    requires forall n :: n in failures <==>
      || (exists i :: 0 <= i < |q.story.criteria| && CriterionFailure(q, rules, q.story.criteria[i]) == Some(n))
      || (exists i :: 0 <= i < |q.story.requiredGates| && GateFailure(q, rules, q.story.requiredGates[i]) == Some(n))
      || HumanFailure(q, rules) == Some(n)
    requires forall n :: n in blockers <==>
      || AuthorityBlocks(q, n)
      || (exists i :: 0 <= i < |q.story.criteria| && CriterionBlocker(q, rules, q.story.criteria[i]) == Some(n))
      || (exists i :: 0 <= i < |q.story.requiredGates| && GateBlocker(q, rules, q.story.requiredGates[i]) == Some(n))
      || HumanBlocker(q, rules) == Some(n)
    ensures VerdictOf(q, rules) == if failures != [] then Rejected else if blockers != [] then Blocked else Certified
  {
    FailuresDecide(q, rules, failures);
    if !SomethingFails(q, rules) {
      BlockersDecide(q, rules, blockers);
    }
  }

  lemma FailuresDecide(q: Request, rules: Rules, failures: seq<Note>)
    requires forall n :: n in failures <==>
      || (exists i :: 0 <= i < |q.story.criteria| && CriterionFailure(q, rules, q.story.criteria[i]) == Some(n))
      || (exists i :: 0 <= i < |q.story.requiredGates| && GateFailure(q, rules, q.story.requiredGates[i]) == Some(n))
      || HumanFailure(q, rules) == Some(n)
    ensures failures != [] <==> SomethingFails(q, rules)
  {
    hide CriterionFails;
    hide GateFails;
    hide Refused;
    if failures != [] {
      assert failures[0] in failures;
    }
    if i :| 0 <= i < |q.story.criteria| && q.story.criteria[i].mandatory && CriterionFails(q, rules, q.story.criteria[i].id) {
      assert CriterionFailed(q.story.criteria[i].id) in failures;
    } else if i :| 0 <= i < |q.story.requiredGates| && GateFails(q, rules, q.story.requiredGates[i]) {
      assert GateFailed(q.story.requiredGates[i]) in failures;
    } else if q.story.approval.required && Refused(q, rules) {
      assert HumanRefused in failures;
    }
  }

  lemma BlockersDecide(q: Request, rules: Rules, blockers: seq<Note>)
    requires !SomethingFails(q, rules)
    requires forall n :: n in blockers <==>
      || AuthorityBlocks(q, n)
      || (exists i :: 0 <= i < |q.story.criteria| && CriterionBlocker(q, rules, q.story.criteria[i]) == Some(n))
      || (exists i :: 0 <= i < |q.story.requiredGates| && GateBlocker(q, rules, q.story.requiredGates[i]) == Some(n))
      || HumanBlocker(q, rules) == Some(n)
    ensures blockers == [] <==> EverythingPasses(q, rules)
  {
    if blockers == [] {
      NoBlockerMeansPass(q, rules, blockers);
    } else {
      var n := blockers[0];
      assert n in blockers;
    }
  }

  lemma NoBlockerMeansPass(q: Request, rules: Rules, blockers: seq<Note>)
    requires !SomethingFails(q, rules) && blockers == []
    requires forall id :: id in q.context.allowedNotApplicable ==> id in q.story.requiredGates || AuthorityUnknown(id) in blockers
    requires forall i :: 0 <= i < |q.story.criteria| && CriterionBlocker(q, rules, q.story.criteria[i]).Some? ==>
      CriterionBlocker(q, rules, q.story.criteria[i]).value in blockers
    requires forall i :: 0 <= i < |q.story.requiredGates| && GateBlocker(q, rules, q.story.requiredGates[i]).Some? ==>
      GateBlocker(q, rules, q.story.requiredGates[i]).value in blockers
    requires HumanBlocker(q, rules).Some? ==> HumanBlocker(q, rules).value in blockers
    ensures EverythingPasses(q, rules)
  {
    forall i | 0 <= i < |q.story.criteria| && q.story.criteria[i].mandatory
      ensures CriterionPasses(q, rules, q.story.criteria[i].id)
    {
      assert CriterionBlocker(q, rules, q.story.criteria[i]).None?;
    }
    forall i | 0 <= i < |q.story.requiredGates|
      ensures GatePasses(q, rules, q.story.requiredGates[i]) || GateWaived(q, rules, q.story.requiredGates[i])
    {
      assert GateBlocker(q, rules, q.story.requiredGates[i]).None?;
    }
  }

  // ---------- certify ----------

  /** `_validate_request`. */
  function RequestError(q: Request, rules: Rules): Option<Error> {
    if rules.isBlank(q.commit) then Some(CommitRequired)
    else if rules.isBlank(q.certifier) then Some(CertifierRequired)
    else if rules.isCodex(q.certifier) && !rules.codexRole(q.certifier) then Some(CertifierRoleRequired)
    else if !rules.storyIsValid(q.story) then Some(InvalidStory)
    else None
  }

  /** What the caller can know before the call about a request that the rules certify. */
  ghost predicate Acceptable(q: Request, rules: Rules) {
    && Attributable(rules, q.certifier)
    && !WaivedTwice(q, rules, q.story.requiredGates)
    && forall ref :: CitedByWaived(q, rules, ref) ==> UsedForStory(q, rules, ref)
  }

  ghost predicate HasIssues(c: Certification, q: Request, rules: Rules, issues: seq<Issue>) {
    forall issue :: issue in issues <==> IssueHolds(issue, DossierOf(q, c), rules)
  }

  /** `certify`. The id and the time are given, or come from the service's factories. */
  method Certify(q: Request, rules: Rules, id: string, certifiedAt: Instant) returns (r: Result<Certification, Error>)
    ensures RequestError(q, rules).Some? ==> r == Err(RequestError(q, rules).value)
    ensures r.Ok? ==> Reports(r.value, q, rules) && r.value.id == id && r.value.certifiedAt == certifiedAt && Coherent(DossierOf(q, r.value), rules)
    ensures r.Err? && r.error.ValidationFailed? ==> exists c :: Reports(c, q, rules) && c.id == id && c.certifiedAt == certifiedAt && !rules.certificationIsValid(c)
    ensures r.Err? && r.error.InvalidDossier? ==> VerdictOf(q, rules) == Certified && r.error.issues != []
    ensures r.Err? && r.error.InvalidDossier? ==> exists c :: Reports(c, q, rules) && HasIssues(c, q, rules, r.error.issues)
    ensures RequestError(q, rules).None? ==> r.Ok? || r.error.ValidationFailed? || r.error.InvalidDossier?
    ensures RequestError(q, rules).None? && VerdictOf(q, rules) == Certified && !IsCriterion(q.story, q.story.id) ==>
      (r.Ok? ==> Acceptable(q, rules)) && (r.Err? && r.error.InvalidDossier? ==> !Acceptable(q, rules))
  {
    hide VerdictOf;
    hide Used;
    hide AcceptanceVerdict;
    hide GateVerdict;
    hide RecordOf;
    hide IsCriterion;
    hide Attributable;
    hide WaivedTwice;
    hide CitedByWaived;
    hide UsedForStory;
    var error := RequestError(q, rules);
    if error.Some? {
      return Err(error.value);
    }
    var verdict, acceptance, gates, human, refs, authorized := Evaluate(q, rules);
    var c := Certification(id, q.story.id, verdict, q.commit, acceptance, gates, human, refs, certifiedAt, q.certifier, authorized);
    assert Reports(c, q, rules);
    if !rules.certificationIsValid(c) {
      return Err(ValidationFailed);
    }
    hide Reports;
    hide IssueHolds;
    var issues := CertifiedDossierIssues(DossierOf(q, c), rules);
    assert c.result == verdict;
    if issues != [] {
      assert issues[0] in issues;
      assert HasIssues(c, q, rules, issues);
    }
    if verdict == Certified && !IsCriterion(q.story, q.story.id) {
      AcceptedExactlyWhen(q, rules, c);
    }
    r := if issues != [] then Err(InvalidDossier(issues)) else Ok(c);
  }

  /**
    A request that passes every other test of `certify` and is refused for its dossier: a waived gate
    refers to evidence that does not exist.
   */
  method LooseWaiverIsRefused(rules: Rules, id: string, certifiedAt: Instant) returns (r: Result<Certification, Error>)
    requires RequestError(LOOSE, rules).None? && rules.gateIsValid(WAIVED)
    requires forall c ::
      Reports(c, LOOSE, rules) && IsCommitId(c.commit) && c.id == id && c.certifiedAt == certifiedAt ==> rules.certificationIsValid(c)
    ensures r.Err? && r.error.InvalidDossier? && GateEvidenceNotCertified("EV-1") in r.error.issues
  {
    hide Reports;
    hide IssueHolds;
    hide RequestError;
    hide VerdictOf;
    hide Acceptable;
    hide IsCommitId;
    hide IsCriterion;
    r := Certify(LOOSE, rules, id, certifiedAt);
    forall c | Reports(c, LOOSE, rules)
      ensures c.id == id && c.certifiedAt == certifiedAt ==> rules.certificationIsValid(c)
      ensures IssueHolds(GateEvidenceNotCertified("EV-1"), DossierOf(LOOSE, c), rules)
    {
      LooseWaiver(rules, c);
    }
    if r.Ok? {
      LooseWaiver(rules, r.value);
    }
  }

  /** The evaluation: every part of the certification is what the rules say. */
  method Evaluate(q: Request, rules: Rules)
    returns (verdict: Verdict, acceptance: map<string, GateResult>, gates: map<string, GateResult>, human: HumanRecord,
             refs: seq<string>, authorized: seq<string>)
    ensures verdict == VerdictOf(q, rules)
    ensures forall i :: i in acceptance <==> exists j :: 0 <= j < |q.story.criteria| && q.story.criteria[j].id == i
    ensures forall i :: i in acceptance ==> acceptance[i] == AcceptanceVerdict(q, i)
    ensures forall i :: i in gates <==> i in q.story.requiredGates
    ensures forall i :: i in gates ==> gates[i] == GateVerdict(q, rules, i)
    ensures human == RecordOf(q, rules)
    ensures Distinct(refs) && forall i :: i in refs <==> Used(q, rules, i)
    ensures authorized == Waived(q, rules, q.story.requiredGates)
  {
    hide Named;
    hide VerdictOf;
    hide AcceptanceVerdict;
    hide GateVerdict;
    hide RecordOf;
    hide Waived;
    hide CriterionFailure;
    hide CriterionBlocker;
    hide GateFailure;
    hide GateBlocker;
    hide HumanFailure;
    hide HumanBlocker;
    hide UsedByCriterion;
    hide UsedByGate;
    hide UsedByHuman;
    hide Distinct;
    var index := IndexById(q.evidence, EvidenceId);
    var e := new Evaluation(q, rules);
    e.NoteAuthorities();
    acceptance := e.EvaluateAcceptance(index);
    gates := e.EvaluateGates(index);
    human := e.EvaluateHumanApproval(index);
    NotesDecide(q, rules, e.failures, e.blockers);
    verdict := if e.failures != [] then Rejected else if e.blockers != [] then Blocked else Certified;
    refs := Deduplicate(e.used);
    authorized := e.authorized;
  }
}
