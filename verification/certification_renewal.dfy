/**
  What becomes of a certified request when it is put again later: for another commit, with more
  evidence gone stale, or with less authority to waive gates.
 */
module CertificationRenewal {
  import opened Wrappers
  import opened Ordering
  import opened Certification

  /** The same request, for any commit and with at least the same evidence stale. */
  predicate PutAgain(q: Request, later: Request) {
    && later == q.(commit := later.commit, context := q.context.(stale := later.context.stale))
    && q.context.stale <= later.context.stale
  }

  /** Evidence that was good for the request is still good for the later one. */
  predicate Current(q: Request, later: Request, id: string) {
    && id !in later.context.stale
    && (later.commit == q.commit || (Only(q.evidence, EvidenceId, id).Some? && Only(q.evidence, EvidenceId, id).value.commit.None?))
  }

  /** The certification would not stand without this evidence. */
  ghost predicate Needed(q: Request, rules: Rules, id: string) {
    || (exists i :: 0 <= i < |q.story.criteria| && q.story.criteria[i].mandatory && UsedByCriterion(q, rules, q.story.criteria[i], id))
    || (exists i :: 0 <= i < |q.story.requiredGates| && GatePasses(q, rules, q.story.requiredGates[i])
                    && UsedByGate(q, rules, q.story.requiredGates[i], id))
    || UsedByHuman(q, rules, id)
  }

  function AnswerRefs(q: Request, id: string): seq<string> {
    if Answer(q, id).Some? then Answer(q, id).value.refs else []
  }

  function GateRefs(q: Request, rules: Rules, id: string): seq<string> {
    if Supplied(q, rules, id).Some? then Supplied(q, rules, id).value.refs else []
  }

  predicate CurrentRefs(q: Request, later: Request, refs: seq<string>) {
    forall i | 0 <= i < |refs| :: Current(q, later, refs[i])
  }

  // ---------- references ----------

  lemma ReferenceLater(q: Request, later: Request, rules: Rules, subject: string, id: string)
    requires PutAgain(q, later) && ReferenceHolds(q, rules, subject, id)
    ensures ReferenceHolds(later, rules, subject, id) <==> Current(q, later, id)
  {
    hide Only;
  }

  lemma ResolvesLater(q: Request, later: Request, rules: Rules, subject: string, refs: seq<string>)
    requires PutAgain(q, later) && Resolves(q, rules, subject, refs)
    ensures Resolves(later, rules, subject, refs) <==> CurrentRefs(q, later, refs)
  {
    hide PutAgain;
    hide ReferenceHolds;
    hide Current;
    forall i | 0 <= i < |refs|
      ensures ReferenceHolds(later, rules, subject, refs[i]) <==> Current(q, later, refs[i])
    {
      ReferenceLater(q, later, rules, subject, refs[i]);
    }
  }

  // ---------- the parts of a certified request ----------

  lemma CriterionLater(q: Request, later: Request, rules: Rules, id: string)
    requires PutAgain(q, later) && CriterionPasses(q, rules, id)
    ensures CriterionPasses(later, rules, id) <==> CurrentRefs(q, later, AnswerRefs(q, id))
    ensures !CriterionFails(later, rules, id)
  {
    ResolvesLater(q, later, rules, id, Answer(q, id).value.refs);
    hide Resolves;
    hide CurrentRefs;
    hide Only;
  }

  lemma GateLater(q: Request, later: Request, rules: Rules, id: string)
    requires PutAgain(q, later) && (GatePasses(q, rules, id) || GateWaived(q, rules, id))
    ensures GateWaived(later, rules, id) <==> GateWaived(q, rules, id)
    ensures GatePasses(later, rules, id) <==> GatePasses(q, rules, id) && CurrentRefs(q, later, GateRefs(q, rules, id))
    ensures !GateFails(later, rules, id)
  {
    if GatePasses(q, rules, id) {
      ResolvesLater(q, later, rules, q.story.id, Supplied(q, rules, id).value.refs);
    }
    hide Resolves;
    hide CurrentRefs;
    hide Only;
  }

  lemma DecisionLater(q: Request, later: Request, rules: Rules)
    requires PutAgain(q, later) && Approved(q, rules)
    ensures q.context.humanEvidence.Some?
    ensures Approved(later, rules) <==> Current(q, later, q.context.humanEvidence.value)
    ensures !Refused(later, rules)
  {
    hide Named;
  }

  // ---------- the whole request ----------

  ghost predicate CriteriaCurrent(q: Request, later: Request) {
    forall i :: 0 <= i < |q.story.criteria| && q.story.criteria[i].mandatory ==> CurrentRefs(q, later, AnswerRefs(q, q.story.criteria[i].id))
  }

  ghost predicate GatesCurrent(q: Request, later: Request, rules: Rules) {
    forall i :: 0 <= i < |q.story.requiredGates| && GatePasses(q, rules, q.story.requiredGates[i])
      ==> CurrentRefs(q, later, GateRefs(q, rules, q.story.requiredGates[i]))
  }

  ghost predicate DecisionCurrent(q: Request, later: Request) {
    q.story.approval.required && q.context.humanEvidence.Some? ==> Current(q, later, q.context.humanEvidence.value)
  }

  ghost predicate AllCurrent(q: Request, later: Request, rules: Rules) {
    forall id :: Needed(q, rules, id) ==> Current(q, later, id)
  }

  lemma NothingFailsLater(q: Request, later: Request, rules: Rules)
    requires PutAgain(q, later) && EverythingPasses(q, rules)
    ensures !SomethingFails(later, rules)
  {
    hide CriterionPasses;
    hide CriterionFails;
    hide GatePasses;
    hide GateFails;
    hide GateWaived;
    hide Approved;
    hide Refused;
    forall i | 0 <= i < |q.story.criteria| && q.story.criteria[i].mandatory
      ensures !CriterionFails(later, rules, q.story.criteria[i].id)
    {
      CriterionLater(q, later, rules, q.story.criteria[i].id);
    }
    forall i | 0 <= i < |q.story.requiredGates|
      ensures !GateFails(later, rules, q.story.requiredGates[i])
    {
      GateLater(q, later, rules, q.story.requiredGates[i]);
    }
    if q.story.approval.required {
      DecisionLater(q, later, rules);
    }
  }

  lemma PassesLater(q: Request, later: Request, rules: Rules)
    requires PutAgain(q, later) && EverythingPasses(q, rules)
    ensures EverythingPasses(later, rules) <==> CriteriaCurrent(q, later) && GatesCurrent(q, later, rules) && DecisionCurrent(q, later)
  {
    hide CriterionPasses;
    hide GatePasses;
    hide GateWaived;
    hide Approved;
    hide AnswerRefs;
    hide GateRefs;
    hide CurrentRefs;
    hide Current;
    forall i | 0 <= i < |q.story.criteria| && q.story.criteria[i].mandatory
      ensures CriterionPasses(later, rules, q.story.criteria[i].id) <==> CurrentRefs(q, later, AnswerRefs(q, q.story.criteria[i].id))
    {
      CriterionLater(q, later, rules, q.story.criteria[i].id);
    }
    forall i | 0 <= i < |q.story.requiredGates|
      ensures GatePasses(later, rules, q.story.requiredGates[i]) || GateWaived(later, rules, q.story.requiredGates[i])
        <==> (GatePasses(q, rules, q.story.requiredGates[i]) ==> CurrentRefs(q, later, GateRefs(q, rules, q.story.requiredGates[i])))
    {
      GateLater(q, later, rules, q.story.requiredGates[i]);
      PassedIsNotWaived(q, rules, q.story.requiredGates[i]);
    }
    if q.story.approval.required {
      DecisionLater(q, later, rules);
    }
  }

  lemma PassedIsNotWaived(q: Request, rules: Rules, id: string)
    ensures !(GatePasses(q, rules, id) && GateWaived(q, rules, id))
  {
  }

  /** The needed evidence is what the passing parts refer to. */
  lemma NeededIsReferredTo(q: Request, later: Request, rules: Rules)
    requires EverythingPasses(q, rules)
    ensures AllCurrent(q, later, rules) <==> CriteriaCurrent(q, later) && GatesCurrent(q, later, rules) && DecisionCurrent(q, later)
  {
    hide Current;
    hide Resolves;
    hide Supports;
    hide Only;
    hide IsDecision;
    if AllCurrent(q, later, rules) {
      forall i, k | 0 <= i < |q.story.criteria| && q.story.criteria[i].mandatory && 0 <= k < |AnswerRefs(q, q.story.criteria[i].id)|
        ensures Current(q, later, AnswerRefs(q, q.story.criteria[i].id)[k])
      {
        assert UsedByCriterion(q, rules, q.story.criteria[i], AnswerRefs(q, q.story.criteria[i].id)[k]);
        assert Needed(q, rules, AnswerRefs(q, q.story.criteria[i].id)[k]);
      }
      forall i, k | 0 <= i < |q.story.requiredGates| && GatePasses(q, rules, q.story.requiredGates[i])
                    && 0 <= k < |GateRefs(q, rules, q.story.requiredGates[i])|
        ensures Current(q, later, GateRefs(q, rules, q.story.requiredGates[i])[k])
      {
        assert UsedByGate(q, rules, q.story.requiredGates[i], GateRefs(q, rules, q.story.requiredGates[i])[k]);
        assert Needed(q, rules, GateRefs(q, rules, q.story.requiredGates[i])[k]);
      }
      assert q.story.approval.required && q.context.humanEvidence.Some? ==> Needed(q, rules, q.context.humanEvidence.value);
    } else {
      var id :| Needed(q, rules, id) && !Current(q, later, id);
    }
  }

  /**
    A certified request that is put again for another commit or with more evidence stale: it is
    certified if and only if everything that it needs is still current, and blocked otherwise. Nothing
    that merely expires ever rejects a story.
   */
  lemma CertifiedWhileCurrent(q: Request, later: Request, rules: Rules)
    requires PutAgain(q, later) && VerdictOf(q, rules) == Verdict.Certified
    ensures VerdictOf(later, rules) == if AllCurrent(q, later, rules) then Verdict.Certified else Verdict.Blocked
  {
    hide SomethingFails;
    hide EverythingPasses;
    hide AllCurrent;
    hide PutAgain;
    NothingFailsLater(q, later, rules);
    PassesLater(q, later, rules);
    NeededIsReferredTo(q, later, rules);
  }

  // ---------- authority ----------

  /** The gates that stand only by the authority to waive them. */
  ghost predicate NeedsAuthority(q: Request, rules: Rules, id: string) {
    id in q.story.requiredGates && !GatePasses(q, rules, id)
  }

  /**
    A certified request with other authority: certified if and only if the authority covers every
    required gate that does not pass by itself and nothing that is not required, and blocked otherwise.
   */
  lemma CertifiedWithAuthority(q: Request, rules: Rules, allowed: set<string>)
    requires VerdictOf(q, rules) == Verdict.Certified
    ensures var other := q.(context := q.context.(allowedNotApplicable := allowed));
      var covers := (forall id :: NeedsAuthority(q, rules, id) ==> id in allowed) && (forall id :: id in allowed ==> id in q.story.requiredGates);
      VerdictOf(other, rules) == if covers then Verdict.Certified else Verdict.Blocked
  {
    var other := q.(context := q.context.(allowedNotApplicable := allowed));
    AuthorityLeavesTheRest(q, rules, allowed);
    hide CriteriaPass;
    hide CriterionFails;
    hide Approved;
    hide Refused;
    hide GateFails;
    hide GatePasses;
    forall i | 0 <= i < |q.story.requiredGates|
      ensures GatePasses(other, rules, q.story.requiredGates[i]) <==> GatePasses(q, rules, q.story.requiredGates[i])
      ensures GateFails(other, rules, q.story.requiredGates[i]) <==> GateFails(q, rules, q.story.requiredGates[i])
      ensures !GatePasses(q, rules, q.story.requiredGates[i]) ==>
        (GateWaived(other, rules, q.story.requiredGates[i]) <==> q.story.requiredGates[i] in allowed)
    {
      GateWithAuthority(q, rules, allowed, q.story.requiredGates[i]);
    }
    hide GateWaived;
  }

  lemma GateWithAuthority(q: Request, rules: Rules, allowed: set<string>, id: string)
    ensures var other := q.(context := q.context.(allowedNotApplicable := allowed));
      (GatePasses(other, rules, id) <==> GatePasses(q, rules, id))
      && (GateFails(other, rules, id) <==> GateFails(q, rules, id))
      && (GateWaived(q, rules, id) ==> (GateWaived(other, rules, id) <==> id in allowed))
  {
    var other := q.(context := q.context.(allowedNotApplicable := allowed));
    hide Only;
    assert forall subject, refs :: Resolves(other, rules, subject, refs) == Resolves(q, rules, subject, refs) by {
      assert forall subject, ref :: ReferenceHolds(other, rules, subject, ref) == ReferenceHolds(q, rules, subject, ref);
    }
    hide Resolves;
  }

  lemma AuthorityLeavesTheRest(q: Request, rules: Rules, allowed: set<string>)
    ensures var other := q.(context := q.context.(allowedNotApplicable := allowed));
      (CriteriaPass(other, rules) <==> CriteriaPass(q, rules))
      && (Approved(other, rules) <==> Approved(q, rules)) && (Refused(other, rules) <==> Refused(q, rules))
      && (forall id :: CriterionFails(other, rules, id) <==> CriterionFails(q, rules, id))
  {
    var other := q.(context := q.context.(allowedNotApplicable := allowed));
    hide Only;
    assert forall subject, refs :: Resolves(other, rules, subject, refs) == Resolves(q, rules, subject, refs) by {
      assert forall subject, ref :: ReferenceHolds(other, rules, subject, ref) == ReferenceHolds(q, rules, subject, ref);
    }
    hide Resolves;
    hide Supports;
  }
}
