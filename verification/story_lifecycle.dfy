/** The way of a story to its certification, over every run of operations on the project's records. */
module StoryLifecycle {
  import opened Wrappers
  import opened Domain
  import opened Certification
  import opened CertificationIntegrity
  import opened DossierSoundness
  import opened ProjectRecords
  import opened Stages

  /** The states that a story is in during a run, from its first project on; none while it is not there yet. */
  function History(p: Project, actions: seq<Action>, i: nat): seq<StoryStatus>
    decreases |actions|
  {
    (if i < |p.stories| then [p.stories[i].status] else [])
    + if actions == [] then [] else History(After(p, actions[0]), actions[1..], i)
  }

  /** From READY on, everything that stands between a story and its certification. */
  const FROM_READY: seq<StoryStatus> :=
    [Ready, InProgress, Implemented, Testing, Review, StoryStatus.Certification, StoryStatus.Certified]

  /** What a story in some state has yet to pass to become certified. */
  function Remaining(status: StoryStatus): seq<StoryStatus> {
    match status
    case Proposed => [Planned] + FROM_READY
    case Planned | Blocked | RemediationRequired => FROM_READY
    case Rejected => [RemediationRequired] + FROM_READY
    case Ready => FROM_READY[1..]
    case InProgress => FROM_READY[2..]
    case Implemented => FROM_READY[3..]
    case Testing => FROM_READY[4..]
    case Review => FROM_READY[5..]
    case Certification => FROM_READY[6..]
    case Certified | Cancelled => []
  }

  // ---------- one transition ----------

  /**
    The declared transitions, in words: an open story may go on to the next state on its way, it may be
    cancelled, it may be blocked before it is implemented, and it may be rejected from testing on.
   */
  lemma TransitionsInWords(source: StoryStatus, target: StoryStatus)
    ensures AllowedTransition(source, target)
      <==> source != StoryStatus.Certified && source != Cancelled
           && (|| target == Cancelled || target == Remaining(source)[0]
               || (target == StoryStatus.Blocked && source in {Planned, Ready, InProgress})
               || (target == StoryStatus.Rejected && source in {Testing, Review, StoryStatus.Certification}))
  {
  }

  lemma NextStage(status: StoryStatus)
    ensures Remaining(status) == [] <==> status == StoryStatus.Certified || status == Cancelled
    ensures Remaining(status) != [] ==>
      AllowedTransition(status, Remaining(status)[0]) && Remaining(Remaining(status)[0]) == Remaining(status)[1..] && Remaining(status)[0] != Cancelled
  {
  }

  /** To be blocked or rejected leaves more to pass, that ends in the same way. */
  lemma StepAside(source: StoryStatus, target: StoryStatus) returns (n: nat)
    requires target in {StoryStatus.Blocked, StoryStatus.Rejected} && AllowedTransition(source, target)
    ensures n <= |Remaining(target)| && Remaining(source) == Remaining(target)[n..]
  {
    n := |Remaining(target)| - |Remaining(source)|;
    if target == StoryStatus.Rejected {
      assert forall k: nat :: k < |FROM_READY| ==> Remaining(target)[k + 1..] == FROM_READY[k..];
    }
  }

  /** A transition either takes the next stage, or leaves more to pass that ends in the same way. */
  lemma StepOnTheWay(source: StoryStatus, target: StoryStatus) returns (n: nat)
    requires AllowedTransition(source, target) && target != Cancelled
    ensures n <= |Remaining(target)|
    ensures Remaining(source) == [target] + Remaining(target) || Remaining(source) == Remaining(target)[n..]
  {
    NextStage(source);
    TransitionsInWords(source, target);
    if target in {StoryStatus.Blocked, StoryStatus.Rejected} {
      n := StepAside(source, target);
    } else {
      hide *;
      n := 0;
    }
  }

  /** What one operation does to the state of a story. */
  lemma StatusAfter(p: Project, action: Action, rules: Rules, i: nat)
    requires Enabled(p, action, rules) && i < |p.stories|
    ensures var after := After(p, action);
      i < |after.stories| && (after.stories[i].status == p.stories[i].status || AllowedTransition(p.stories[i].status, after.stories[i].status))
  {
    hide AllowedTransition;
    hide HasDossier;
    hide IdIsNew;
    hide DecisionApplies;
  }

  lemma ArrivesProposed(p: Project, action: Action, rules: Rules, i: nat)
    requires Enabled(p, action, rules) && |p.stories| <= i < |After(p, action).stories|
    ensures After(p, action).stories[i].status == Proposed
  {
    hide HasDossier;
    hide IdIsNew;
    hide DecisionApplies;
  }

  // ---------- whole runs ----------

  lemma {:induction false} CancelledForGood(p: Project, actions: seq<Action>, rules: Rules, after: Project, i: nat)
    requires Run(p, actions, rules, after) && i < |p.stories| && p.stories[i].status == Cancelled
    ensures i < |after.stories| && after.stories[i].status == Cancelled
    decreases |actions|
  {
    hide Enabled;
    hide After;
    if actions != [] {
      StatusAfter(p, actions[0], rules, i);
      CancelledForGood(After(p, actions[0]), actions[1..], rules, after, i);
    }
  }

  /** In every run that ends with a story certified, the story passes all that it has yet to pass. */
  lemma {:induction false} PassesWhatRemains(p: Project, actions: seq<Action>, rules: Rules, after: Project, i: nat)
    requires Run(p, actions, rules, after) && i < |p.stories|
    requires i < |after.stories| && after.stories[i].status == StoryStatus.Certified
    ensures Passes(History(p, actions, i)[1..], Remaining(p.stories[i].status))
    decreases |actions|
  {
    if actions == [] {
      assert Remaining(p.stories[i].status) == [];
    } else {
      hide Enabled;
      hide After;
      var next, status := After(p, actions[0]), p.stories[i].status;
      StatusAfter(p, actions[0], rules, i);
      var history := History(next, actions[1..], i);
      var now := next.stories[i].status;
      assert History(p, actions, i)[1..] == history && history == [now] + history[1..];
      if now == Cancelled {
        CancelledForGood(next, actions[1..], rules, after, i);
        assert false;
      }
      PassesWhatRemains(next, actions[1..], rules, after, i);
      if now == status {
        PassesLater(history[1..], Remaining(now), now);
      } else {
        StepPasses(history, status, now);
      }
    }
  }

  lemma StepPasses(history: seq<StoryStatus>, source: StoryStatus, target: StoryStatus)
    requires AllowedTransition(source, target) && target != Cancelled
    requires history != [] && history[0] == target && Passes(history[1..], Remaining(target))
    ensures Passes(history, Remaining(source))
  {
    var n := StepOnTheWay(source, target);
    hide *;
    if Remaining(source) == Remaining(target)[n..] {
      PassesSuffix(history[1..], Remaining(target), n);
      PassesAfter(history, 1, Remaining(source));
    } else {
      PassesFrom(history, Remaining(source), target);
    }
  }

  /** A history that begins with a state, and passes what remains from there, passes both. */
  lemma PassesFrom(history: seq<StoryStatus>, stages: seq<StoryStatus>, status: StoryStatus)
    requires history != [] && history[0] == status && Passes(history[1..], Remaining(status)) && stages == [status] + Remaining(status)
    ensures Passes(history, stages)
  {
    hide *;
    assert stages[1..] == Remaining(status);
    PassesFirst(history, stages);
  }

  /** The whole way of a story: every stage from PLANNED on, none left out, in this order. */
  const WHOLE_WAY: seq<StoryStatus> :=
    [Proposed, Planned, Ready, InProgress, Implemented, Testing, Review, StoryStatus.Certification, StoryStatus.Certified]

  lemma ProposedGoesTheWholeWay(p: Project, actions: seq<Action>, rules: Rules, after: Project, i: nat)
    requires Run(p, actions, rules, after) && i < |p.stories| && p.stories[i].status == Proposed
    requires i < |after.stories| && after.stories[i].status == StoryStatus.Certified
    ensures Passes(History(p, actions, i), WHOLE_WAY)
  {
    assert History(p, actions, i) != [] && History(p, actions, i)[0] == Proposed;
    assert WHOLE_WAY == [Proposed] + Remaining(Proposed);
    hide *;
    PassesWhatRemains(p, actions, rules, after, i);
    PassesFrom(History(p, actions, i), WHOLE_WAY, Proposed);
  }

  /**
    Main result: in every run of operations, a story that is added during the run, or proposed at its start,
    and is certified at its end, has been in every state of the whole way, in this order.
   */
  lemma {:induction false} CertifiedOnlyTheWholeWay(p: Project, actions: seq<Action>, rules: Rules, after: Project, i: nat)
    requires Run(p, actions, rules, after) && i < |after.stories| && after.stories[i].status == StoryStatus.Certified
    requires i < |p.stories| ==> p.stories[i].status == Proposed
    ensures Passes(History(p, actions, i), WHOLE_WAY)
    decreases |actions|
  {
    if i < |p.stories| {
      ProposedGoesTheWholeWay(p, actions, rules, after, i);
    } else {
      hide Enabled;
      hide After;
      hide Passes;
      var next := After(p, actions[0]);
      if i < |next.stories| {
        ArrivesProposed(p, actions[0], rules, i);
      }
      CertifiedOnlyTheWholeWay(next, actions[1..], rules, after, i);
      assert History(p, actions, i) == History(next, actions[1..], i);
    }
  }

  const AGAIN: seq<StoryStatus> :=
    [StoryStatus.Rejected, RemediationRequired, Ready, InProgress, Implemented, Testing, Review, StoryStatus.Certification, StoryStatus.Certified]

  /** A rejected story becomes certified only by remediation and all stages from READY on, once more. */
  lemma RejectedStartsAgain(p: Project, actions: seq<Action>, rules: Rules, after: Project, i: nat)
    requires Run(p, actions, rules, after) && i < |p.stories| && p.stories[i].status == StoryStatus.Rejected
    requires i < |after.stories| && after.stories[i].status == StoryStatus.Certified
    ensures Passes(History(p, actions, i), AGAIN)
  {
    assert History(p, actions, i) != [] && History(p, actions, i)[0] == StoryStatus.Rejected;
    assert AGAIN == [StoryStatus.Rejected] + Remaining(StoryStatus.Rejected);
    hide *;
    PassesWhatRemains(p, actions, rules, after, i);
    PassesFrom(History(p, actions, i), AGAIN, StoryStatus.Rejected);
  }

  // ---------- the way is open ----------

  /** The transitions of one story, one after the other. */
  function Transitions(i: nat, stages: seq<StoryStatus>): (r: seq<Action>)
    ensures |r| == |stages| && forall k :: 0 <= k < |r| ==> r[k] == Transitioned(i, stages[k])
  {
    seq(|stages|, k requires 0 <= k < |stages| => Transitioned(i, stages[k]))
  }

  /** A story that has its dossier and is not cancelled can go the rest of its way, and be certified. */
  lemma {:induction false} CanBeCertified(p: Project, rules: Rules, i: nat) returns (after: Project)
    requires i < |p.stories| && p.stories[i].status != Cancelled && HasDossier(p, rules, p.stories[i])
    ensures Run(p, Transitions(i, Remaining(p.stories[i].status)), rules, after)
    ensures i < |after.stories| && after.stories[i].status == StoryStatus.Certified
    decreases |Remaining(p.stories[i].status)|
  {
    var stages := Remaining(p.stories[i].status);
    NextStage(p.stories[i].status);
    if stages == [] {
      after := p;
    } else {
      var action := Transitioned(i, stages[0]);
      hide HasDossier;
      hide Remaining;
      hide AllowedTransition;
      HasDossierSurvives(p, action, rules, i);
      after := CanBeCertified(After(p, action), rules, i);
      assert Transitions(i, stages)[1..] == Transitions(i, stages[1..]);
    }
  }

  // ---------- what else a run keeps ----------

  /** A human's decision about a story, in favour of it, that the story's approval records. */
  ghost predicate DecidedByHuman(s: Story, e: Evidence, rules: Rules) {
    && e.kind == HumanDecision && e.subject == s.id && e.result == Flag(true) && rules.evidenceIsValid(e)
    && rules.isHuman(e.source) && rules.attributableHuman(e.producer)
    && s.approval.required && s.approval.approved
    && s.approval.approvedBy == Some(e.producer) && s.approval.approvedAt == Some(e.timestamp) && s.approval.evidenceRef == Some(e.id)
  }

  ghost predicate HasDecision(p: Project, s: Story, rules: Rules) {
    exists e :: e in p.evidence && DecidedByHuman(s, e, rules)
  }

  lemma ApprovalAfter(p: Project, action: Action, rules: Rules, i: nat)
    requires Enabled(p, action, rules) && i < |p.stories|
    ensures var after := After(p, action);
      && i < |after.stories| && after.stories[i].id == p.stories[i].id && p.evidence <= after.evidence
      && (after.stories[i].approval == p.stories[i].approval || HasDecision(after, after.stories[i], rules))
  {
    hide AllowedTransition;
    hide HasDossier;
    hide IdIsNew;
    var after := After(p, action);
    if action.ApprovalApplied? && action.story == i {
      var e := action.evidence;
      assert e in p.evidence;
      if e.result == Flag(true) {
        assert DecidedByHuman(after.stories[i], e, rules);
      }
    }
  }

  /** In every run the approval of a story changes only by an attributable human's valid decision in favour of it, which is on record. */
  lemma {:induction false} ApprovedOnlyByHumans(p: Project, actions: seq<Action>, rules: Rules, after: Project, i: nat)
    requires Run(p, actions, rules, after) && i < |p.stories|
    ensures i < |after.stories| && after.stories[i].id == p.stories[i].id && p.evidence <= after.evidence
    ensures after.stories[i].approval == p.stories[i].approval || HasDecision(after, after.stories[i], rules)
    decreases |actions|
  {
    if actions != [] {
      hide Enabled;
      hide After;
      var next := After(p, actions[0]);
      ApprovalAfter(p, actions[0], rules, i);
      ApprovedOnlyByHumans(next, actions[1..], rules, after, i);
      if after.stories[i].approval == next.stories[i].approval && HasDecision(next, next.stories[i], rules) {
        var e :| e in next.evidence && DecidedByHuman(next.stories[i], e, rules);
        assert e in after.evidence && DecidedByHuman(after.stories[i], e, rules);
      }
    }
  }

  /** No two items have the same id. */
  ghost predicate DistinctIds<T>(items: seq<T>, key: T -> string) {
    forall i, j :: 0 <= i < j < |items| ==> key(items[i]) != key(items[j])
  }

  ghost predicate IdsAreDistinct(p: Project) {
    DistinctIds(p.stories, StoryId) && DistinctIds(p.evidence, EvidenceId) && DistinctIds(p.gates, GateId) && DistinctIds(p.certifications, CertificationId)
  }

  lemma StepKeepsRecords(p: Project, action: Action, rules: Rules)
    requires Enabled(p, action, rules)
    ensures var after := After(p, action);
      && p.evidence <= after.evidence && p.gates <= after.gates && p.certifications <= after.certifications
      && (IdsAreDistinct(p) ==> IdsAreDistinct(after))
  {
    hide AllowedTransition;
    hide HasDossier;
    hide DecisionApplies;
  }

  /** In every run evidence, gates and certifications only grow, and ids stay distinct. */
  lemma {:induction false} RecordsOnlyGrow(p: Project, actions: seq<Action>, rules: Rules, after: Project)
    requires Run(p, actions, rules, after)
    ensures p.evidence <= after.evidence && p.gates <= after.gates && p.certifications <= after.certifications
    ensures IdsAreDistinct(p) ==> IdsAreDistinct(after)
    decreases |actions|
  {
    if actions != [] {
      hide Enabled;
      hide After;
      hide IdsAreDistinct;
      StepKeepsRecords(p, actions[0], rules);
      RecordsOnlyGrow(After(p, actions[0]), actions[1..], rules, after);
    }
  }

  /** The story's certification, on record, is one that everything on record proves. */
  ghost predicate ProvenBy(p: Project, s: Story, c: Certification, rules: Rules) {
    c in p.certifications && c.subject == s.id && c.result == Verdict.Certified && Sound(DossierIn(p, s, c), rules)
  }

  /**
    Main result: in every run of operations, a story that was not certified at its start, or was certified
    with proof, and is certified at its end, has a certification then that everything on record proves.
   */
  lemma CertifiedIsProven(p: Project, actions: seq<Action>, rules: Rules, after: Project, s: Story)
    requires Run(p, actions, rules, after) && s in after.stories && s.status == StoryStatus.Certified
    requires forall t :: t in p.stories && t.status == StoryStatus.Certified ==> exists c :: ProvenBy(p, t, c, rules)
    ensures exists c :: ProvenBy(after, s, c, rules)
  {
    hide Run;
    hide Sound;
    hide Coherent;
    forall i | 0 <= i < |p.stories| && p.stories[i].status == StoryStatus.Certified
      ensures HasDossier(p, rules, p.stories[i])
    {
      var t := p.stories[i];
      assert t in p.stories;
      var c :| ProvenBy(p, t, c, rules);
      CoherentMeansSound(DossierIn(p, t, c), rules);
      var k :| 0 <= k < |p.certifications| && p.certifications[k] == c;
      assert Backs(p, rules, t, p.certifications[k]);
    }
    RunKeepsBacking(p, actions, rules, after);
    var j :| 0 <= j < |after.stories| && after.stories[j] == s;
    var i :| 0 <= i < |after.certifications| && Backs(after, rules, s, after.certifications[i]);
    CoherentMeansSound(DossierIn(after, s, after.certifications[i]), rules);
    assert ProvenBy(after, s, after.certifications[i], rules);
  }
}
