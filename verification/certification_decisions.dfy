/**
  What one answer decides: how the verdict on a certified request changes when a gate, a criterion or the
  human decision turns out differently, and nothing else changes.
 */
module CertificationDecisions {
  import opened Wrappers
  import opened Ordering
  import opened Certification

  // ---------- replacing one item ----------

  /** What is found under each id when one item is replaced by another with its id. */
  lemma {:induction false} NamedUpdate<T>(items: seq<T>, key: T -> string, k: nat, x: T, id: string)
    requires k < |items| && key(x) == key(items[k])
    ensures id != key(x) ==> Named(items[k := x], key, id) == Named(items, key, id)
    ensures id == key(x) ==> |Named(items[k := x], key, id)| == |Named(items, key, id)| && items[k] in Named(items, key, id)
    ensures id == key(x) && Named(items, key, id) == [items[k]] ==> Named(items[k := x], key, id) == [x]
  {
    if k == 0 {
      assert items[k := x][1..] == items[1..];
    } else {
      assert items[k := x][1..] == items[1..][k - 1 := x];
      NamedUpdate(items[1..], key, k - 1, x, id);
    }
  }

  lemma OnlyUpdate<T>(items: seq<T>, key: T -> string, k: nat, x: T, id: string)
    requires k < |items| && key(x) == key(items[k])
    ensures id != key(x) ==> Only(items[k := x], key, id) == Only(items, key, id)
    ensures Only(items, key, key(x)).Some? ==> Only(items, key, key(x)) == Some(items[k]) && Only(items[k := x], key, key(x)) == Some(x)
  {
    NamedUpdate(items, key, k, x, id);
    NamedUpdate(items, key, k, x, key(x));
  }

  // ---------- gates ----------

  /** The request with another result of one gate. */
  function WithGate(q: Request, k: nat, result: GateResult): Request
    requires k < |q.gates|
  {
    q.(gates := q.gates[k := q.gates[k].(result := result)])
  }

  lemma GateWith(q: Request, rules: Rules, k: nat, result: GateResult, id: string)
    requires k < |q.gates| && rules.gateIsValid(q.gates[k].(result := result))
    requires Supplied(q, rules, q.gates[k].id).Some?
    ensures Supplied(WithGate(q, k, result), rules, id)
         == if id == q.gates[k].id then Some(q.gates[k].(result := result)) else Supplied(q, rules, id)
  {
    OnlyUpdate(q.gates, GateId, k, q.gates[k].(result := result), id);
    hide Only;
  }

  /** Gates are no part of what criteria, references and the human decision rest on. */
  lemma RestWithGate(q: Request, rules: Rules, k: nat, result: GateResult)
    requires k < |q.gates|
    ensures var changed := WithGate(q, k, result);
      && (CriteriaPass(changed, rules) <==> CriteriaPass(q, rules))
      && (Approved(changed, rules) <==> Approved(q, rules)) && (Refused(changed, rules) <==> Refused(q, rules))
      && (forall id :: CriterionFails(changed, rules, id) <==> CriterionFails(q, rules, id))
      && (forall subject, refs :: Resolves(changed, rules, subject, refs) <==> Resolves(q, rules, subject, refs))
  {
    var changed := WithGate(q, k, result);
    hide Only;
    assert forall subject, refs :: Resolves(changed, rules, subject, refs) == Resolves(q, rules, subject, refs) by {
      assert forall subject, ref :: ReferenceHolds(changed, rules, subject, ref) == ReferenceHolds(q, rules, subject, ref);
    }
    hide Resolves;
    hide Supports;
  }

  /**
    From a certified request, only the result of one passing required gate is changed: FAIL rejects the
    story, UNKNOWN blocks it, and NOT_APPLICABLE blocks it unless the context allows the gate to be waived.
   */
  lemma GateDecides(q: Request, rules: Rules, k: nat, result: GateResult)
    requires VerdictOf(q, rules) == Verdict.Certified
    requires k < |q.gates| && q.gates[k].id in q.story.requiredGates && q.gates[k].result == Pass
    requires rules.gateIsValid(q.gates[k].(result := result))
    ensures VerdictOf(WithGate(q, k, result), rules)
         == match result
            case Pass => Verdict.Certified
            case Fail => Verdict.Rejected
            case Unknown => Verdict.Blocked
            case NotApplicable => if q.gates[k].id in q.context.allowedNotApplicable then Verdict.Certified else Verdict.Blocked
  {
    var changed, name := WithGate(q, k, result), q.gates[k].id;
    var n :| 0 <= n < |q.story.requiredGates| && q.story.requiredGates[n] == name;
    PassingGateIsSupplied(q, rules, k);
    RestWithGate(q, rules, k, result);
    forall id
      ensures Supplied(changed, rules, id) == if id == name then Some(q.gates[k].(result := result)) else Supplied(q, rules, id)
    {
      GateWith(q, rules, k, result, id);
    }
    hide CriteriaPass;
    hide CriterionFails;
    hide Approved;
    hide Refused;
    hide Supplied;
    hide Resolves;
    CertifiedHasNoFailure(q, rules);
    forall id | id in q.story.requiredGates && id != name
      ensures GatePasses(changed, rules, id) <==> GatePasses(q, rules, id)
      ensures GateWaived(changed, rules, id) <==> GateWaived(q, rules, id)
      ensures GateFails(changed, rules, id) <==> GateFails(q, rules, id)
    {
    }
    assert GatePasses(changed, rules, name) <==> result == Pass;
    assert GateFails(changed, rules, name) <==> result == Fail;
    assert GateWaived(changed, rules, name) <==> result == NotApplicable && name in q.context.allowedNotApplicable;
    hide GatePasses;
    hide GateWaived;
    hide GateFails;
    VerdictByGate(q, changed, rules, n);
  }

  lemma PassingGateIsSupplied(q: Request, rules: Rules, k: nat)
    requires VerdictOf(q, rules) == Verdict.Certified
    requires k < |q.gates| && q.gates[k].id in q.story.requiredGates && q.gates[k].result == Pass
    ensures Supplied(q, rules, q.gates[k].id) == Some(q.gates[k]) && GatePasses(q, rules, q.gates[k].id)
  {
    var name := q.gates[k].id;
    var n :| 0 <= n < |q.story.requiredGates| && q.story.requiredGates[n] == name;
    assert GatePasses(q, rules, q.story.requiredGates[n]) || GateWaived(q, rules, q.story.requiredGates[n]);
    OnlyUpdate(q.gates, GateId, k, q.gates[k], name);
    hide Only;
    hide Resolves;
  }

  lemma CertifiedHasNoFailure(q: Request, rules: Rules)
    requires VerdictOf(q, rules) == Verdict.Certified
    ensures EverythingPasses(q, rules) && !SomethingFails(q, rules)
  {
    hide EverythingPasses;
    hide SomethingFails;
  }

  /** Where one required gate is all that is different. */
  lemma VerdictByGate(q: Request, changed: Request, rules: Rules, n: nat)
    requires n < |q.story.requiredGates| && EverythingPasses(q, rules) && !SomethingFails(q, rules)
    requires changed == q.(gates := changed.gates) && CriteriaPass(changed, rules) && (Approved(changed, rules) <==> Approved(q, rules))
    requires (Refused(changed, rules) <==> Refused(q, rules)) && forall id :: CriterionFails(changed, rules, id) <==> CriterionFails(q, rules, id)
    requires forall id :: id in q.story.requiredGates && id != q.story.requiredGates[n] ==>
      (GatePasses(changed, rules, id) <==> GatePasses(q, rules, id)) && (GateWaived(changed, rules, id) <==> GateWaived(q, rules, id))
      && (GateFails(changed, rules, id) <==> GateFails(q, rules, id))
    ensures VerdictOf(changed, rules) == if GateFails(changed, rules, q.story.requiredGates[n]) then Verdict.Rejected
      else if GatePasses(changed, rules, q.story.requiredGates[n]) || GateWaived(changed, rules, q.story.requiredGates[n]) then Verdict.Certified
      else Verdict.Blocked
  {
    hide CriteriaPass;
    hide CriterionFails;
    hide Approved;
    hide Refused;
    hide GatePasses;
    hide GateWaived;
    hide GateFails;
    assert changed.story == q.story && changed.context == q.context;
    var gates := q.story.requiredGates;
    assert gates[n] in gates;
    if !GateFails(changed, rules, gates[n]) {
      forall i | 0 <= i < |gates|
        ensures !GateFails(changed, rules, gates[i])
      {
        assert gates[i] in gates;
      }
      assert !SomethingFails(changed, rules);
      forall i | 0 <= i < |gates| && gates[i] != gates[n]
        ensures GatePasses(changed, rules, gates[i]) || GateWaived(changed, rules, gates[i])
      {
        assert gates[i] in gates;
      }
    }
  }

  // ---------- acceptance criteria ----------

  /** The request with another answer about one criterion. */
  function WithAnswer(q: Request, j: nat, result: Option<GateResult>): Request
    requires j < |q.acceptance|
  {
    q.(acceptance := q.acceptance[j := q.acceptance[j].(result := result)])
  }

  /** The request with another finding of one piece of evidence. */
  function WithFinding(q: Request, k: nat, holds: bool): Request
    requires k < |q.evidence|
  {
    q.(evidence := q.evidence[k := q.evidence[k].(result := Flag(holds))])
  }

  lemma PassingAnswer(q: Request, rules: Rules, i: nat, j: nat)
    requires VerdictOf(q, rules) == Verdict.Certified
    requires i < |q.story.criteria| && q.story.criteria[i].mandatory && j < |q.acceptance| && q.acceptance[j].criterion == q.story.criteria[i].id
    ensures Answer(q, q.story.criteria[i].id) == Some(q.acceptance[j]) && q.acceptance[j].result == Some(Pass)
    ensures Resolves(q, rules, q.story.criteria[i].id, q.acceptance[j].refs) && Supports(q, Pass, q.acceptance[j].refs)
  {
    CertifiedHasNoFailure(q, rules);
    assert CriterionPasses(q, rules, q.story.criteria[i].id);
    OnlyUpdate(q.acceptance, CriterionOf, j, q.acceptance[j], q.story.criteria[i].id);
    hide Only;
    hide Resolves;
    hide Supports;
  }

  lemma AnswerWith(q: Request, j: nat, result: Option<GateResult>, id: string)
    requires j < |q.acceptance| && Answer(q, q.acceptance[j].criterion).Some?
    ensures Answer(WithAnswer(q, j, result), id)
         == if id == q.acceptance[j].criterion then Some(q.acceptance[j].(result := result)) else Answer(q, id)
  {
    OnlyUpdate(q.acceptance, CriterionOf, j, q.acceptance[j].(result := result), id);
    hide Only;
  }

  /** Answers about criteria are no part of what gates, references and the human decision rest on. */
  lemma RestWithAnswer(q: Request, rules: Rules, j: nat, result: Option<GateResult>)
    requires j < |q.acceptance|
    ensures var changed := WithAnswer(q, j, result);
      && (GatesPass(changed, rules) <==> GatesPass(q, rules))
      && (Approved(changed, rules) <==> Approved(q, rules)) && (Refused(changed, rules) <==> Refused(q, rules))
      && (forall id :: GateFails(changed, rules, id) <==> GateFails(q, rules, id))
  {
    var changed := WithAnswer(q, j, result);
    hide Only;
    assert forall subject, refs :: Resolves(changed, rules, subject, refs) == Resolves(q, rules, subject, refs) by {
      assert forall subject, ref :: ReferenceHolds(changed, rules, subject, ref) == ReferenceHolds(q, rules, subject, ref);
    }
    hide Resolves;
  }

  lemma ReferencesWithAnswer(q: Request, rules: Rules, j: nat, result: Option<GateResult>, subject: string, r: GateResult, refs: seq<string>)
    requires j < |q.acceptance|
    ensures Resolves(WithAnswer(q, j, result), rules, subject, refs) <==> Resolves(q, rules, subject, refs)
    ensures Supports(WithAnswer(q, j, result), r, refs) <==> Supports(q, r, refs)
  {
    hide Only;
  }

  /** What each criterion comes to when one answer is another. */
  lemma CriterionWithAnswer(q: Request, rules: Rules, i: nat, j: nat, result: Option<GateResult>, id: string)
    requires VerdictOf(q, rules) == Verdict.Certified
    requires i < |q.story.criteria| && q.story.criteria[i].mandatory && j < |q.acceptance| && q.acceptance[j].criterion == q.story.criteria[i].id
    ensures var changed := WithAnswer(q, j, result);
      if id == q.story.criteria[i].id then (CriterionPasses(changed, rules, id) <==> result == Some(Pass)) && !CriterionFails(changed, rules, id)
      else (CriterionPasses(changed, rules, id) <==> CriterionPasses(q, rules, id)) && (CriterionFails(changed, rules, id) <==> CriterionFails(q, rules, id))
  {
    PassingAnswer(q, rules, i, j);
    AnswerWith(q, j, result, id);
    PositiveChecksFailNothing(q, q.acceptance[j].refs);
    var answer := Answer(WithAnswer(q, j, result), id);
    if answer.Some? && answer.value.result.Some? {
      ReferencesWithAnswer(q, rules, j, result, id, answer.value.result.value, answer.value.refs);
    }
    hide Answer;
    hide Resolves;
    hide Supports;
    hide VerdictOf;
    hide WithAnswer;
  }

  /**
    From a certified request, only the answer about one mandatory criterion is changed: any other answer than
    PASS blocks the story. FAIL is no exception, because the checks are still positive.
   */
  lemma AnswerDecides(q: Request, rules: Rules, i: nat, j: nat, result: Option<GateResult>)
    requires VerdictOf(q, rules) == Verdict.Certified
    requires i < |q.story.criteria| && q.story.criteria[i].mandatory && j < |q.acceptance| && q.acceptance[j].criterion == q.story.criteria[i].id
    ensures VerdictOf(WithAnswer(q, j, result), rules) == if result == Some(Pass) then Verdict.Certified else Verdict.Blocked
  {
    RestWithAnswer(q, rules, j, result);
    CertifiedHasNoFailure(q, rules);
    forall id {
      CriterionWithAnswer(q, rules, i, j, result, id);
    }
    hide *;
    var changed := WithAnswer(q, j, result);
    assert changed == q.(acceptance := changed.acceptance) by {
      OtherAnswersOnly(q, j, result);
    }
    VerdictByCriterion(q, changed, rules, i);
  }

  lemma OtherAnswersOnly(q: Request, j: nat, result: Option<GateResult>)
    requires j < |q.acceptance|
    ensures WithAnswer(q, j, result) == q.(acceptance := WithAnswer(q, j, result).acceptance)
  {
  }

  /** An answer about a criterion that is not mandatory decides nothing. */
  lemma OptionalAnswerDecidesNothing(q: Request, rules: Rules, j: nat, result: Option<GateResult>)
    requires VerdictOf(q, rules) == Verdict.Certified && j < |q.acceptance|
    requires forall i :: 0 <= i < |q.story.criteria| && q.story.criteria[i].id == q.acceptance[j].criterion ==> !q.story.criteria[i].mandatory
    ensures VerdictOf(WithAnswer(q, j, result), rules) == Verdict.Certified
  {
    var changed := WithAnswer(q, j, result);
    RestWithAnswer(q, rules, j, result);
    CertifiedHasNoFailure(q, rules);
    forall i | 0 <= i < |q.story.criteria| && q.story.criteria[i].mandatory
      ensures CriterionPasses(changed, rules, q.story.criteria[i].id) && !CriterionFails(changed, rules, q.story.criteria[i].id)
    {
      OtherCriterionPasses(q, rules, j, result, q.story.criteria[i].id);
    }
    assert changed.story == q.story && changed.context == q.context;
    hide CriterionPasses;
    hide CriterionFails;
    hide GatesPass;
    hide GateFails;
    hide Approved;
    hide Refused;
  }

  lemma OtherCriterionPasses(q: Request, rules: Rules, j: nat, result: Option<GateResult>, id: string)
    requires j < |q.acceptance| && id != q.acceptance[j].criterion && CriterionPasses(q, rules, id)
    ensures CriterionPasses(WithAnswer(q, j, result), rules, id) && !CriterionFails(WithAnswer(q, j, result), rules, id)
  {
    OnlyUpdate(q.acceptance, CriterionOf, j, q.acceptance[j].(result := result), id);
    hide Only;
    ReferencesWithAnswer(q, rules, j, result, id, Pass, Answer(q, id).value.refs);
    hide Resolves;
    hide Supports;
  }

  lemma PositiveChecksFailNothing(q: Request, refs: seq<string>)
    requires Supports(q, Pass, refs)
    ensures !Supports(q, Fail, refs)
  {
  }

  /** Where one mandatory criterion is all that is different, and it does not fail. */
  lemma VerdictByCriterion(q: Request, changed: Request, rules: Rules, i: nat)
    requires i < |q.story.criteria| && q.story.criteria[i].mandatory && EverythingPasses(q, rules) && !SomethingFails(q, rules)
    requires changed == q.(acceptance := changed.acceptance) && (GatesPass(changed, rules) <==> GatesPass(q, rules))
    requires (Approved(changed, rules) <==> Approved(q, rules)) && (Refused(changed, rules) <==> Refused(q, rules))
    requires forall id :: GateFails(changed, rules, id) <==> GateFails(q, rules, id)
    requires forall id :: id != q.story.criteria[i].id ==>
      (CriterionPasses(changed, rules, id) <==> CriterionPasses(q, rules, id)) && (CriterionFails(changed, rules, id) <==> CriterionFails(q, rules, id))
    requires !CriterionFails(changed, rules, q.story.criteria[i].id)
    ensures VerdictOf(changed, rules)
         == if CriterionPasses(changed, rules, q.story.criteria[i].id) then Verdict.Certified else Verdict.Blocked
  {
    hide CriterionPasses;
    hide CriterionFails;
    hide Approved;
    hide Refused;
    hide GatesPass;
    hide GateFails;
    assert changed.story == q.story && changed.context == q.context;
    assert !SomethingFails(changed, rules);
  }

  // ---------- evidence turned negative ----------

  lemma FoundWithFinding(q: Request, k: nat, holds: bool, id: string)
    requires k < |q.evidence|
    ensures id != q.evidence[k].id ==> Only(WithFinding(q, k, holds).evidence, EvidenceId, id) == Only(q.evidence, EvidenceId, id)
    ensures Only(q.evidence, EvidenceId, q.evidence[k].id).Some? ==>
      Only(q.evidence, EvidenceId, q.evidence[k].id) == Some(q.evidence[k])
      && Only(WithFinding(q, k, holds).evidence, EvidenceId, q.evidence[k].id) == Some(q.evidence[k].(result := Flag(holds)))
  {
    OnlyUpdate(q.evidence, EvidenceId, k, q.evidence[k].(result := Flag(holds)), id);
  }

  /** References resolve as before when a finding is turned, as long as the evidence is still valid. */
  lemma ResolvesWithFinding(q: Request, rules: Rules, k: nat, holds: bool, subject: string, refs: seq<string>)
    requires k < |q.evidence| && rules.evidenceIsValid(q.evidence[k]) && rules.evidenceIsValid(q.evidence[k].(result := Flag(holds)))
    requires Only(q.evidence, EvidenceId, q.evidence[k].id).Some?
    ensures Resolves(WithFinding(q, k, holds), rules, subject, refs) <==> Resolves(q, rules, subject, refs)
  {
    forall ref
      ensures ReferenceHolds(WithFinding(q, k, holds), rules, subject, ref) <==> ReferenceHolds(q, rules, subject, ref)
    {
      FoundWithFinding(q, k, holds, ref);
      hide Only;
    }
    hide ReferenceHolds;
  }

  /**
    From a certified request, one mandatory criterion is answered FAIL, and one of the checks that it
    refers to is negative: the story is rejected, whatever else rests on that check.
   */
  lemma NegativeCheckRejects(q: Request, rules: Rules, i: nat, j: nat, k: nat)
    requires VerdictOf(q, rules) == Verdict.Certified
    requires i < |q.story.criteria| && q.story.criteria[i].mandatory && j < |q.acceptance| && q.acceptance[j].criterion == q.story.criteria[i].id
    requires k < |q.evidence| && q.evidence[k].id in q.acceptance[j].refs && rules.evidenceIsValid(q.evidence[k].(result := Flag(false)))
    ensures VerdictOf(WithFinding(WithAnswer(q, j, Some(Fail)), k, false), rules) == Verdict.Rejected
  {
    var answered, name := WithAnswer(q, j, Some(Fail)), q.story.criteria[i].id;
    PassingAnswer(q, rules, i, j);
    AnswerWith(q, j, Some(Fail), name);
    ReferencesWithAnswer(q, rules, j, Some(Fail), name, Pass, q.acceptance[j].refs);
    hide *;
    OtherAnswersOnly(q, j, Some(Fail));
    NegativeCheckFails(answered, rules, name, k, q.acceptance[j].refs);
    FailedCriterionRejects(WithFinding(answered, k, false), rules, i);
  }

  lemma NegativeCheckFails(q: Request, rules: Rules, name: string, k: nat, refs: seq<string>)
    requires Answer(q, name).Some? && Answer(q, name).value.result == Some(Fail) && Answer(q, name).value.refs == refs
    requires Resolves(q, rules, name, refs) && Supports(q, Pass, refs)
    requires k < |q.evidence| && q.evidence[k].id in refs && rules.evidenceIsValid(q.evidence[k].(result := Flag(false)))
    ensures CriterionFails(WithFinding(q, k, false), rules, name)
    ensures WithFinding(q, k, false).story == q.story
  {
    var m :| 0 <= m < |refs| && refs[m] == q.evidence[k].id;
    assert ReferenceHolds(q, rules, name, refs[m]);
    FoundWithFinding(q, k, false, refs[m]);
    ResolvesWithFinding(q, rules, k, false, name, refs);
    NegativeCheckSupports(q, k, refs, m);
    hide Resolves;
    hide Supports;
    hide Only;
    assert Answer(WithFinding(q, k, false), name) == Answer(q, name);
  }

  lemma FailedCriterionRejects(q: Request, rules: Rules, i: nat)
    requires i < |q.story.criteria| && q.story.criteria[i].mandatory && CriterionFails(q, rules, q.story.criteria[i].id)
    ensures VerdictOf(q, rules) == Verdict.Rejected
  {
    hide CriterionFails;
    assert SomethingFails(q, rules);
  }

  lemma NegativeCheckSupports(q: Request, k: nat, refs: seq<string>, m: nat)
    requires k < |q.evidence| && m < |refs| && refs[m] == q.evidence[k].id && Supports(q, Pass, refs)
    ensures Supports(WithFinding(q, k, false), Fail, refs)
  {
    var changed := WithFinding(q, k, false);
    forall n | 0 <= n < |refs|
      ensures IsCheck(changed, refs[n])
    {
      assert IsCheck(q, refs[n]);
      FoundWithFinding(q, k, false, refs[n]);
      hide Only;
    }
    assert IsCheck(q, refs[m]);
    FoundWithFinding(q, k, false, refs[m]);
    hide Only;
    assert !IsPositive(changed, refs[m]);
  }

  // ---------- the human decision ----------

  /** The request with another flag on the story's approval and another finding of the decision. */
  function WithDecision(q: Request, k: nat, approved: bool, holds: bool): Request
    requires k < |q.evidence|
  {
    WithFinding(q.(story := q.story.(approval := q.story.approval.(approved := approved))), k, holds)
  }

  lemma DecisionIsFound(q: Request, rules: Rules, k: nat)
    requires Approved(q, rules) && k < |q.evidence| && q.context.humanEvidence == Some(q.evidence[k].id)
    ensures Only(q.evidence, EvidenceId, q.evidence[k].id) == Some(q.evidence[k]) && IsDecision(q, rules, q.evidence[k])
    ensures q.evidence[k].result == Flag(true) && q.story.approval.approved
  {
    OnlyUpdate(q.evidence, EvidenceId, k, q.evidence[k], q.evidence[k].id);
    hide Only;
  }

  lemma DecisionWith(q: Request, rules: Rules, k: nat, approved: bool, holds: bool)
    requires Approved(q, rules) && k < |q.evidence| && q.context.humanEvidence == Some(q.evidence[k].id)
    requires rules.evidenceIsValid(q.evidence[k].(result := Flag(holds)))
    ensures Approved(WithDecision(q, k, approved, holds), rules) <==> approved && holds
    ensures Refused(WithDecision(q, k, approved, holds), rules) <==> !approved && !holds
  {
    DecisionIsFound(q, rules, k);
    FoundWithFinding(q, k, holds, q.evidence[k].id);
    hide Only;
  }

  /** A human decision is no check of a criterion, so criteria that pass do not rest on it, nor do gates on what it says. */
  lemma CriterionWithDecision(q: Request, rules: Rules, k: nat, approved: bool, holds: bool, id: string)
    requires Approved(q, rules) && k < |q.evidence| && q.context.humanEvidence == Some(q.evidence[k].id)
    requires rules.evidenceIsValid(q.evidence[k].(result := Flag(holds))) && CriterionPasses(q, rules, id)
    ensures CriterionPasses(WithDecision(q, k, approved, holds), rules, id) && !CriterionFails(WithDecision(q, k, approved, holds), rules, id)
  {
    var changed := WithDecision(q, k, approved, holds);
    DecisionIsFound(q, rules, k);
    ResolvesWithDecision(q, rules, k, approved, holds, id, Answer(q, id).value.refs);
    hide Resolves;
    var refs := Answer(q, id).value.refs;
    assert Answer(changed, id) == Answer(q, id);
    forall n | 0 <= n < |refs|
      ensures IsCheck(changed, refs[n]) && IsPositive(changed, refs[n])
    {
      assert IsCheck(q, refs[n]) && IsPositive(q, refs[n]);
      FoundWithFinding(q, k, holds, refs[n]);
      hide Only;
    }
    hide Only;
  }

  lemma ResolvesWithDecision(q: Request, rules: Rules, k: nat, approved: bool, holds: bool, subject: string, refs: seq<string>)
    requires Approved(q, rules) && k < |q.evidence| && q.context.humanEvidence == Some(q.evidence[k].id)
    requires rules.evidenceIsValid(q.evidence[k].(result := Flag(holds)))
    ensures Resolves(WithDecision(q, k, approved, holds), rules, subject, refs) <==> Resolves(q, rules, subject, refs)
  {
    DecisionIsFound(q, rules, k);
    hide Only;
    ResolvesWithFinding(q, rules, k, holds, subject, refs);
    var found, changed := WithFinding(q, k, holds), WithDecision(q, k, approved, holds);
    assert forall ref :: ReferenceHolds(found, rules, subject, ref) <==> ReferenceHolds(changed, rules, subject, ref);
    hide ReferenceHolds;
  }

  lemma GateWithDecision(q: Request, rules: Rules, k: nat, approved: bool, holds: bool, id: string)
    requires Approved(q, rules) && k < |q.evidence| && q.context.humanEvidence == Some(q.evidence[k].id)
    requires rules.evidenceIsValid(q.evidence[k].(result := Flag(holds)))
    ensures var changed := WithDecision(q, k, approved, holds);
      && (GatePasses(changed, rules, id) <==> GatePasses(q, rules, id)) && (GateWaived(changed, rules, id) <==> GateWaived(q, rules, id))
      && (GateFails(changed, rules, id) <==> GateFails(q, rules, id))
  {
    hide Only;
    if Supplied(q, rules, id).Some? {
      ResolvesWithDecision(q, rules, k, approved, holds, q.story.id, Supplied(q, rules, id).value.refs);
    }
    hide Resolves;
    hide Approved;
  }

  /**
    From a certified request, only the required human decision is changed: it rejects the story exactly when
    the decision and its record on the story are both negative, and blocks it when they contradict.
   */
  lemma DecisionDecides(q: Request, rules: Rules, k: nat, approved: bool, holds: bool)
    requires VerdictOf(q, rules) == Verdict.Certified && q.story.approval.required
    requires k < |q.evidence| && q.context.humanEvidence == Some(q.evidence[k].id)
    requires rules.evidenceIsValid(q.evidence[k].(result := Flag(holds)))
    ensures VerdictOf(WithDecision(q, k, approved, holds), rules)
         == if approved && holds then Verdict.Certified else if !approved && !holds then Verdict.Rejected else Verdict.Blocked
  {
    var changed := WithDecision(q, k, approved, holds);
    CertifiedHasNoFailure(q, rules);
    DecisionWith(q, rules, k, approved, holds);
    forall i | 0 <= i < |q.story.criteria| && q.story.criteria[i].mandatory
      ensures CriterionPasses(changed, rules, q.story.criteria[i].id) && !CriterionFails(changed, rules, q.story.criteria[i].id)
    {
      CriterionWithDecision(q, rules, k, approved, holds, q.story.criteria[i].id);
    }
    forall i | 0 <= i < |q.story.requiredGates|
      ensures GatePasses(changed, rules, q.story.requiredGates[i]) || GateWaived(changed, rules, q.story.requiredGates[i])
      ensures !GateFails(changed, rules, q.story.requiredGates[i])
    {
      GateWithDecision(q, rules, k, approved, holds, q.story.requiredGates[i]);
    }
    hide CriterionPasses;
    hide CriterionFails;
    hide GatePasses;
    hide GateWaived;
    hide GateFails;
    hide Approved;
    hide Refused;
    assert changed.story.criteria == q.story.criteria && changed.story.requiredGates == q.story.requiredGates;
  }

  /** Where no decision is required, neither its record on the story nor its evidence decides anything. */
  lemma UnrequiredDecisionDecidesNothing(q: Request, rules: Rules, approval: Approval, humanEvidence: Option<string>)
    requires !q.story.approval.required && !approval.required
    ensures VerdictOf(q.(story := q.story.(approval := approval), context := q.context.(humanEvidence := humanEvidence)), rules)
         == VerdictOf(q, rules)
  {
    var changed := q.(story := q.story.(approval := approval), context := q.context.(humanEvidence := humanEvidence));
    hide Only;
    forall subject, refs
      ensures Resolves(changed, rules, subject, refs) <==> Resolves(q, rules, subject, refs)
    {
      assert forall ref :: ReferenceHolds(changed, rules, subject, ref) == ReferenceHolds(q, rules, subject, ref);
    }
    hide Resolves;
    assert forall r, refs :: Supports(changed, r, refs) == Supports(q, r, refs);
    hide Supports;
    assert forall id :: CriterionPasses(changed, rules, id) == CriterionPasses(q, rules, id);
    assert forall id :: CriterionFails(changed, rules, id) == CriterionFails(q, rules, id);
    assert forall id :: GatePasses(changed, rules, id) == GatePasses(q, rules, id);
    assert forall id :: GateFails(changed, rules, id) == GateFails(q, rules, id);
    assert forall id :: GateWaived(changed, rules, id) == GateWaived(q, rules, id);
    hide CriterionPasses;
    hide CriterionFails;
    hide GatePasses;
    hide GateFails;
    hide GateWaived;
  }

  // ---------- failure before doubt ----------

  /** A proven failure rejects, whatever else is in doubt: here a required gate that fails on references that hold. */
  lemma FailedGateRejects(q: Request, rules: Rules, k: nat)
    requires k < |q.gates| && q.gates[k].id in q.story.requiredGates && rules.gateIsValid(q.gates[k])
    requires forall n :: 0 <= n < |q.gates| && n != k ==> q.gates[n].id != q.gates[k].id
    requires q.gates[k].subject == q.story.id && q.gates[k].required && q.gates[k].result == Fail
    requires q.gates[k].refs != [] && Distinct(q.gates[k].refs)
    requires forall ref :: ref in q.gates[k].refs ==> ReferenceHolds(q, rules, q.story.id, ref)
    ensures VerdictOf(q, rules) == Verdict.Rejected
  {
    hide ReferenceHolds;
    var n :| 0 <= n < |q.story.requiredGates| && q.story.requiredGates[n] == q.gates[k].id;
    NamedAlone(q.gates, GateId, k);
    assert Supplied(q, rules, q.gates[k].id) == Some(q.gates[k]);
    assert Resolves(q, rules, q.story.id, q.gates[k].refs);
    hide Resolves;
    hide Supplied;
    assert GateFails(q, rules, q.story.requiredGates[n]);
  }

  lemma {:induction false} NamedAlone<T>(items: seq<T>, key: T -> string, k: nat)
    requires k < |items| && forall n :: 0 <= n < |items| && n != k ==> key(items[n]) != key(items[k])
    ensures Named(items, key, key(items[k])) == [items[k]]
  {
    assert forall n :: 0 <= n < |items| - 1 ==> items[1..][n] == items[n + 1];
    if k == 0 {
      NamedNone(items[1..], key, key(items[0]));
    } else {
      NamedAlone(items[1..], key, k - 1);
    }
  }
}
