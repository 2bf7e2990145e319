/** Integration of a gated parallel group: `merge_coordinator.py`. */
module MergeCoordinator {
  import opened Wrappers
  import opened CommitGraph
  import opened GitRepository

  datatype Member = Member(story: string, assignment: string, commit: Commit)

  /** What the coordinator reads of an `IntegrationGateResult`. */
  datatype Gate = Gate(mission: string, generation: nat, baseline: Commit, members: seq<Member>, passed: bool)

  /** A gate with the branch name and the path that are derived from its identity. */
  datatype Request = Request(gate: Gate, branch: string, path: string)

  datatype Status = Merged | Failed | Blocked

  datatype Finding =
    | GateNotPass | StaleIntegrationGate | PrimaryDrift | PrimaryDirty | MemberMismatch | MemberDrift
    | TempResourceDivergence | GitMergeConflict | GitOperationFailed | PromotionFailed
    | FinalStateInvalid | AlreadyMerged

  datatype MergeResult = MergeResult(status: Status, finding: Option<Finding>, integration: Option<Commit>,
                                     before: Commit, after: Commit)

  function Commits(members: seq<Member>): (r: seq<Commit>)
    ensures |r| == |members| && forall i :: 0 <= i < |r| ==> r[i] == members[i].commit
  {
    seq(|members|, i requires 0 <= i < |members| => members[i].commit)
  }

  // ---------- what a call may do to the primary ----------

  /** A move of the primary to a commit that merges all members of the gate in its order. */
  ghost predicate Promotes(gate: Gate, disturbance: Disturbance, move: Move) {
    && Integrates(gate.baseline, Commits(gate.members), move.to)
    && Ancestor(move.from, move.to) && move.from != move.to
    && (disturbance != Anything ==> move.from == gate.baseline)
  }

  /** At most one move, and only a promotion. */
  ghost predicate PromotesAtMostOnce(gate: Gate, disturbance: Disturbance, before: seq<Move>, after: seq<Move>) {
    after == before || exists move :: after == before + [move] && Promotes(gate, disturbance, move)
  }

  /** After a promotion the primary is no longer at the gated baseline. */
  lemma PromotedOnlyOnce(gate: Gate, disturbance: Disturbance, first: Move, second: Move)
    requires Promotes(gate, disturbance, first) && disturbance != Anything
    requires second.from == first.to
    ensures !Promotes(gate, disturbance, second)
  {
    IntegrationDepth(gate.baseline, Commits(gate.members), first.to);
    IntegratesNothing(gate.baseline, first.to);
  }

  // ---------- states of a repository ----------

  predicate Matches(gate: Gate, member: Member, registry: Registry) {
    && member.assignment in registry
    && var a := registry[member.assignment];
       && a.completed && a.mission == gate.mission && a.generation == gate.generation
       && a.baseline == gate.baseline && a.story == member.story && a.result == member.commit
  }

  predicate AllMatch(gate: Gate, registry: Registry) {
    forall i | 0 <= i < |gate.members| :: Matches(gate, gate.members[i], registry)
  }

  /** Every member is the completed work of its assignment: on this mission, generation, baseline and story, with this result. */
  predicate Delivered(gate: Gate, registry: Registry) {
    forall m | m in gate.members ::
      && m.assignment in registry
      && registry[m.assignment] == Assignment(gate.mission, gate.generation, m.story, gate.baseline, registry[m.assignment].branch, m.commit, true)
  }

  /** What is matched against the registry is exactly what has been delivered. */
  lemma MatchedMeansDelivered(gate: Gate, registry: Registry)
    ensures AllMatch(gate, registry) <==> Delivered(gate, registry)
  {
    forall i | 0 <= i < |gate.members|
      ensures gate.members[i] in gate.members
    {
    }
  }

  /** The branch of every member still ends at the gated commit. */
  predicate MembersInPlace(gate: Gate, s: GitState) {
    forall i | 0 <= i < |gate.members| ::
      && gate.members[i].assignment in s.registry
      && var branch := s.registry[gate.members[i].assignment].branch;
         branch in s.tips && s.tips[branch] == gate.members[i].commit
  }

  /** The integration branch is checked out at its path, and nowhere else. */
  predicate ResourceOn(request: Request, s: GitState) {
    && request.path in s.worktrees && s.worktrees[request.path].head == Attached(request.branch)
    && request.branch in s.tips
    && forall p | p in s.worktrees && s.worktrees[p].head == Attached(request.branch) :: p == request.path
  }

  /** The state a completed merge leaves. */
  ghost predicate Promoted(request: Request, s: GitState, commit: Commit) {
    && Integrates(request.gate.baseline, Commits(request.gate.members), commit)
    && s.primary == commit && s.primaryClean && ResourceOn(request, s)
    && s.worktrees[request.path].clean && s.tips[request.branch] == commit
    && AllMatch(request.gate, s.registry) && MembersInPlace(request.gate, s)
  }

  /** The state after staging that was given up: some members are merged, the primary is not moved. */
  ghost predicate Abandoned(request: Request, s: GitState) {
    && s.primary == request.gate.baseline
    && request.branch in s.tips && s.tips[request.branch] != request.gate.baseline
  }

  /** A refusal for a reason that is found before the primary is touched. */
  predicate BeforePromotion(result: MergeResult) {
    && result.finding.Some? && result.integration.None?
    && match result.finding.value
       case PromotionFailed | AlreadyMerged => false
       case FinalStateInvalid => result.status == Blocked
       case _ => true
  }

  ghost predicate MergedAs(gate: Gate, result: MergeResult, commit: Commit) {
    && result.integration == Some(commit) && result.after == commit
    && Integrates(gate.baseline, Commits(gate.members), commit)
  }

  /** A call for a group that has been merged before. */
  ghost predicate Repeats(request: Request, s: GitState) {
    request.gate.passed && request.gate.members != [] && Promoted(request, s, s.primary)
  }

  /** Some member is contained in the baseline or in an earlier member. */
  predicate Overlapping(gate: Gate) {
    SomeContained(gate.baseline, Commits(gate.members))
  }

  /** The commits that a gate names are there before the merge. */
  predicate Known(gate: Gate, earlier: set<Commit>) {
    forall i | 0 <= i < |gate.members| :: gate.members[i].commit in earlier
  }

  /** A run of the staging loop, with new merge commits, that ends with a commit. */
  ghost predicate StagedTo(gate: Gate, earlier: set<Commit>, commit: Commit) {
    exists heads :: Staging(gate.baseline, Commits(gate.members), heads) && MakesNew(heads, earlier) && heads[|gate.members|] == commit
  }

  function Again(commit: Commit): MergeResult {
    MergeResult(Merged, Some(AlreadyMerged), Some(commit), commit, commit)
  }

  lemma ExactUnlessOverlapping(gate: Gate, earlier: set<Commit>, commit: Commit)
    requires StagedTo(gate, earlier, commit) && Known(gate, earlier)
    ensures Integrates(gate.baseline, Commits(gate.members), commit) <==> !Overlapping(gate)
  {
    var members := Commits(gate.members);
    var heads :| Staging(gate.baseline, members, heads) && MakesNew(heads, earlier) && heads[|members|] == commit;
    IntegratesUnlessContained(gate.baseline, members, heads, earlier);
  }

  /** There is no trace of the integration worktree, or it is there and nothing has been merged in it. */
  predicate ResourceUsable(request: Request, s: GitState) {
    if request.branch !in s.tips then
      && request.path !in s.worktrees && request.path !in s.files
      && forall p | p in s.worktrees :: s.worktrees[p].head != Attached(request.branch)
    else ResourcePristine(request, s)
  }

  predicate ResourcePristine(request: Request, s: GitState) {
    && ResourceOn(request, s) && s.tips[request.branch] == request.gate.baseline
    && s.worktrees[request.path].clean && !s.worktrees[request.path].merging
  }

  /** A member can be merged: its branch is in place, is not the integration branch, and descends from the baseline. */
  ghost predicate Mergeable(request: Request, assignment: Assignment, s: GitState) {
    && assignment.branch in s.tips && s.tips[assignment.branch] == assignment.result
    && assignment.branch != request.branch && Ancestor(request.gate.baseline, assignment.result)
  }

  /** Everything that a merge checks before it stages is in order. */
  ghost predicate Ready(request: Request, s: GitState) {
    && request.gate.passed && s.primary == request.gate.baseline && s.primaryClean
    && AllMatch(request.gate, s.registry) && ResourceUsable(request, s)
    && forall i | 0 <= i < |request.gate.members| :: Mergeable(request, s.registry[request.gate.members[i].assignment], s)
  }

  /** The state in which staging starts, when all is in order. */
  ghost predicate Stageable(request: Request, assignments: seq<Assignment>, registry: Registry, s: GitState) {
    && s.primary == request.gate.baseline && s.primaryClean && s.registry == registry && ResourcePristine(request, s)
    && forall i | 0 <= i < |assignments| :: Mergeable(request, assignments[i], s)
  }

  /** How a merge that was in order can end without having merged: members conflict, or contain one another. */
  predicate OnlyConflicts(result: MergeResult) {
    result.status == Merged || result.finding == Some(GitMergeConflict) || result.finding == Some(FinalStateInvalid)
  }

  /** The findings that say why nothing was staged, each exactly when it is the first thing that is not in order. */
  ghost predicate RefusalsExplained(request: Request, s: GitState, gateAgain: Answer<bool>, finding: Option<Finding>) {
    var gate := request.gate;
    var delivered := gate.passed && Delivered(gate, s.registry);
    && (finding == Some(GateNotPass) <==> !gate.passed)
    && (finding == Some(MemberMismatch) <==> gate.passed && !delivered)
    && (finding == Some(PrimaryDrift) || finding == Some(AlreadyMerged) <==> delivered && s.primary != gate.baseline)
    && (finding == Some(PrimaryDirty) <==> delivered && s.primary == gate.baseline && !s.primaryClean)
    && (finding == Some(StaleIntegrationGate) <==>
          delivered && s.primary == gate.baseline && s.primaryClean && gateAgain != Value(true))
  }

  /** A finding that is made, if at all, before staging. */
  predicate BeforeStaging(finding: Option<Finding>) {
    finding.Some? && (finding.value.GateNotPass? || finding.value.MemberMismatch? || finding.value.PrimaryDrift? || finding.value.AlreadyMerged?
                      || finding.value.PrimaryDirty? || finding.value.StaleIntegrationGate?)
  }

  lemma WhatExplains(request: Request, s: GitState, gateAgain: Answer<bool>)
    ensures var gate := request.gate;
      var inOrder := gate.passed && AllMatch(gate, s.registry);
      && (!gate.passed ==> RefusalsExplained(request, s, gateAgain, Some(GateNotPass)))
      && (gate.passed && !inOrder ==> RefusalsExplained(request, s, gateAgain, Some(MemberMismatch)))
      && (inOrder && s.primary != gate.baseline ==> RefusalsExplained(request, s, gateAgain, Some(PrimaryDrift)))
      && (inOrder && s.primary != gate.baseline ==> RefusalsExplained(request, s, gateAgain, Some(AlreadyMerged)))
      && (inOrder && s.primary == gate.baseline && !s.primaryClean ==> RefusalsExplained(request, s, gateAgain, Some(PrimaryDirty)))
      && (inOrder && s.primary == gate.baseline && s.primaryClean && gateAgain != Value(true) ==>
            RefusalsExplained(request, s, gateAgain, Some(StaleIntegrationGate)))
      && (inOrder && s.primary == gate.baseline && s.primaryClean && gateAgain == Value(true) ==>
            forall finding :: !BeforeStaging(finding) ==> RefusalsExplained(request, s, gateAgain, finding))
  {
    MatchedMeansDelivered(request.gate, s.registry);
  }

  datatype Admission = Admitted(assignments: seq<Assignment>, before: Commit) | Refused(result: MergeResult)
  datatype Staged = Head(commit: Commit) | Ended(result: MergeResult)

  class Coordinator {
    const git: Repository

    constructor (git: Repository)
      ensures this.git == git
    {
      this.git := git;
    }

    ghost predicate Kept(before: GitState, after: GitState)
      reads git
    {
      git.Disturbed(before, after)
    }

    /** `_result` and `_blocked` without an integration commit: the primary is looked at once more. */
    method Refuse(status: Status, finding: Finding, before: Commit) returns (a: Answer<MergeResult>)
      modifies git`state
      ensures Kept(old(git.state), git.state) && !a.GitError?
      ensures a.Value? ==> a.value == MergeResult(status, Some(finding), None, before, git.state.primary)
    {
      var observed := git.InspectPrimary();
      a := match observed
        case Value(primary) => Value(MergeResult(status, Some(finding), None, before, primary.0))
        case _ => Stopped;
    }

    /** `_assignments`; `None` is the mismatch. */
    method Assignments(gate: Gate) returns (a: Answer<Option<seq<Assignment>>>)
      modifies git`state
      ensures Kept(old(git.state), git.state) && !a.GitError?
      ensures a.Value? ==> (a.value.Some? <==> AllMatch(gate, git.state.registry))
      ensures a.Value? && a.value.Some? ==> Bound(gate, a.value.value)
      ensures a.Value? && a.value.Some? ==> forall i :: 0 <= i < |gate.members| ==>
        a.value.value[i] == git.state.registry[gate.members[i].assignment]
    {
      var loaded := git.LoadRegistry();
      if !loaded.Value? {
        return Stopped;
      }
      var registry := loaded.value;
      var assignments: seq<Assignment> := [];
      for i := 0 to |gate.members|
        invariant |assignments| == i
        invariant forall j :: 0 <= j < i ==> Matches(gate, gate.members[j], registry)
        invariant forall j :: 0 <= j < i ==> assignments[j] == registry[gate.members[j].assignment]
      {
        if !Matches(gate, gate.members[i], registry) {
          return Value(None);
        }
        assignments := assignments + [registry[gate.members[i].assignment]];
      }
      a := Value(Some(assignments));
    }

    /** The assignments are those of the members, in their order. */
    static predicate Bound(gate: Gate, assignments: seq<Assignment>) {
      |assignments| == |gate.members| && forall i | 0 <= i < |gate.members| :: assignments[i].result == gate.members[i].commit
    }

    /** `_is_exact_integration_sequence`: walk back from the commit, member by member. */
    method IsExactIntegrationSequence(baseline: Commit, members: seq<Commit>, commit: Commit) returns (a: Answer<bool>)
      modifies git`state
      ensures Kept(old(git.state), git.state) && !a.GitError?
      ensures a.Value? && a.value ==> Integrates(baseline, members, commit)
      ensures a.Value? && git.disturbance == Quiet ==> (a.value <==> Integrates(baseline, members, commit))
    {
      var current := commit;
      var k := |members|;
      assert members[..k] == members;
      while k > 0
        invariant 0 <= k <= |members|
        invariant Integrates(baseline, members, commit) <==> Integrates(baseline, members[..k], current)
        invariant Kept(old(git.state), git.state)
      {
        IntegratesLast(baseline, members[..k], current);
        assert members[..k][..k - 1] == members[..k - 1];
        var parents := git.CommitParents(current);
        if parents.Stopped? {
          return Stopped;
        }
        if parents.GitError? || |parents.value| != 2 || parents.value[1] != members[k - 1] {
          return Value(false);
        }
        current := parents.value[0];
        k := k - 1;
      }
      IntegratesNothing(baseline, current);
      assert members[..0] == [];
      a := Value(current == baseline);
    }

    /** Whether every member branch still ends at its assignment's result. */
    method BranchesUnchanged(gate: Gate, assignments: seq<Assignment>) returns (a: Answer<bool>)
      requires Bound(gate, assignments)
      modifies git`state
      ensures Kept(old(git.state), git.state)
      ensures git.disturbance == Quiet && TipsHold(assignments, old(git.state)) ==> a != Value(false) && !a.GitError?
      ensures git.disturbance == Quiet && a == Value(true) ==> TipsHold(assignments, git.state)
    {
      for i := 0 to |assignments|
        invariant Kept(old(git.state), git.state)
        invariant git.disturbance == Quiet ==> forall j :: 0 <= j < i ==> TipHolds(assignments[j], git.state)
      {
        var tip :- git.BranchTip(assignments[i].branch);
        if tip != assignments[i].result {
          return Value(false);
        }
      }
      a := Value(true);
    }

    static predicate TipHolds(assignment: Assignment, s: GitState) {
      assignment.branch in s.tips && s.tips[assignment.branch] == assignment.result
    }

    static predicate TipsHold(assignments: seq<Assignment>, s: GitState) {
      forall i | 0 <= i < |assignments| :: TipHolds(assignments[i], s)
    }

    /** What a quiet repository must look like for a merge to be recognised. */
    static ghost predicate Recognizable(request: Request, assignments: seq<Assignment>, s: GitState, head: Commit, clean: bool) {
      && clean && head != request.gate.baseline && ResourceOn(request, s)
      && s.worktrees[request.path].clean && s.tips[request.branch] == head
      && Integrates(request.gate.baseline, Commits(request.gate.members), head) && TipsHold(assignments, s)
    }

    static lemma RepeatIsRecognizable(request: Request, assignments: seq<Assignment>, s: GitState)
      requires Repeats(request, s) && |assignments| == |request.gate.members|
      requires forall i :: 0 <= i < |assignments| ==> assignments[i] == s.registry[request.gate.members[i].assignment]
      ensures Recognizable(request, assignments, s, s.primary, s.primaryClean)
    {
      IntegrationDepth(request.gate.baseline, Commits(request.gate.members), s.primary);
      forall i | 0 <= i < |assignments|
        ensures TipHolds(assignments[i], s)
      {
        assert Matches(request.gate, request.gate.members[i], s.registry);
      }
    }

    /** `_already_merged`. */
    method RecognizeMerged(request: Request, assignments: seq<Assignment>, head: Commit, clean: bool)
      returns (a: Answer<Option<MergeResult>>)
      requires Bound(request.gate, assignments)
      modifies git`state
      ensures Kept(old(git.state), git.state)
      ensures a.Value? && a.value.Some? ==>
        && a.value.value == Again(head)
        && Integrates(request.gate.baseline, Commits(request.gate.members), head)
        && head != request.gate.baseline && clean
      ensures git.disturbance == Quiet && Recognizable(request, assignments, old(git.state), head, clean) ==>
        a.Stopped? || (a.Value? && a.value.Some?)
      ensures git.disturbance == Quiet && head == request.gate.baseline && ResourceUsable(request, old(git.state)) ==>
        a.Stopped? || a == Value(None)
    {
      var worktrees :- git.ListWorktrees();
      if !exists p :: p in worktrees && worktrees[p].0 == Attached(request.branch) {
        return Value(None);
      }
      var at :| at in worktrees && worktrees[at].0 == Attached(request.branch);
      if at != request.path {
        return Value(None);
      }
      var tip :- git.BranchTip(request.branch);
      if head != tip || head == request.gate.baseline || !clean {
        return Value(None);
      }
      var tidy :- git.IsClean(request.path);
      if !tidy {
        return Value(None);
      }
      var exact :- IsExactIntegrationSequence(request.gate.baseline, Commits(request.gate.members), tip);
      if !exact {
        return Value(None);
      }
      var inPlace :- BranchesUnchanged(request.gate, assignments);
      if !inPlace {
        return Value(None);
      }
      a := Value(Some(Again(head)));
    }

    /** `_prepare_integration_resource`: a new worktree, or a pristine one that is there already. */
    method PrepareIntegrationResource(request: Request) returns (a: Answer<()>)
      modifies git`state, git`writes
      ensures git.disturbance != Anything ==> git.state.primary == old(git.state.primary)
      ensures git.disturbance == Quiet && a.Value? ==>
        && ResourceOn(request, git.state) && git.state.tips[request.branch] == request.gate.baseline
        && git.state.(tips := old(git.state).tips, worktrees := old(git.state).worktrees, files := old(git.state).files) == old(git.state)
        && forall b :: b in old(git.state).tips ==> b in git.state.tips && git.state.tips[b] == old(git.state).tips[b]
      ensures git.disturbance == Quiet && request.branch in old(git.state).tips ==>
        git.state == old(git.state) && git.writes == old(git.writes)
      ensures git.disturbance == Quiet && a.Value? && request.branch in old(git.state).tips ==>
        old(git.state).tips[request.branch] == request.gate.baseline
      ensures git.disturbance == Quiet && ResourceUsable(request, old(git.state)) ==> !a.GitError?
      ensures git.disturbance == Quiet && ResourceUsable(request, old(git.state)) && a.Value? ==> ResourcePristine(request, git.state)
    {
      var branchExists :- git.BranchExists(request.branch);
      var worktrees :- git.ListWorktrees();
      var atPath := request.path in worktrees;
      var byBranch := exists p :: p in worktrees && worktrees[p].0 == Attached(request.branch);
      if !branchExists && !atPath && !byBranch {
        var exists_ :- git.PathExists(request.path);
        if !exists_ {
          a := git.AddWorktree(request.path, request.branch, request.gate.baseline);
          return;
        }
      }
      if !branchExists || !atPath || worktrees[request.path].0 != Attached(request.branch)
        || exists p :: p in worktrees && p != request.path && worktrees[p].0 == Attached(request.branch) {
        return GitError;
      }
      var tip :- git.BranchTip(request.branch);
      if tip != request.gate.baseline || worktrees[request.path].1 != Some(request.gate.baseline) {
        return GitError;
      }
      var clean :- git.IsClean(request.path);
      a := if clean then Value(()) else GitError;
    }

    /** What is checked before one member is merged is in order. */
    static ghost predicate InOrder(request: Request, assignment: Assignment, commit: Commit, expected: Commit, registry: Registry, s: GitState) {
      && s.primary == request.gate.baseline && s.primaryClean && s.registry == registry
      && s.HeadAt(request.path) == Some(expected) && s.worktrees[request.path].clean && !s.worktrees[request.path].merging
      && assignment.result == commit && TipHolds(assignment, s) && Ancestor(request.gate.baseline, commit)
    }

    /** `_pre_merge_drift`: what is found to have drifted before one member is merged. */
    method PreMergeDrift(request: Request, assignment: Assignment, commit: Commit, expected: Commit, registry: Registry)
      returns (a: Answer<Option<Finding>>)
      modifies git`state
      ensures Kept(old(git.state), git.state)
      ensures git.disturbance == Quiet ==>
        (if InOrder(request, assignment, commit, expected, registry, old(git.state)) then a.Stopped? || a == Value(None) else a != Value(None))
      ensures a.Value? && a.value.Some? ==> a.value.value.PrimaryDrift? || a.value.value.PrimaryDirty? || a.value.value.TempResourceDivergence? || a.value.value.MemberDrift?
      ensures git.disturbance == Quiet && a.Value? ==>
        && (a.value == Some(PrimaryDrift) <==> old(git.state).primary != request.gate.baseline)
        && (a.value == Some(PrimaryDirty) <==> old(git.state).primary == request.gate.baseline && !old(git.state).primaryClean)
    {
      var primary :- git.InspectPrimary();
      if primary.0 != request.gate.baseline {
        return Value(Some(PrimaryDrift));
      }
      if !primary.1 {
        return Value(Some(PrimaryDirty));
      }
      var head :- git.CurrentHead(request.path);
      if head != expected {
        return Value(Some(TempResourceDivergence));
      }
      var clean :- git.IsClean(request.path);
      if !clean {
        return Value(Some(TempResourceDivergence));
      }
      var merging :- git.MergeInProgress(request.path);
      if merging {
        return Value(Some(TempResourceDivergence));
      }
      if assignment.result != commit {
        return Value(Some(MemberDrift));
      }
      var tip :- git.BranchTip(assignment.branch);
      if tip != commit {
        return Value(Some(MemberDrift));
      }
      var based :- git.IsAncestor(request.gate.baseline, commit);
      if !based {
        return Value(Some(MemberDrift));
      }
      var now :- git.LoadRegistry();
      a := Value(if now != registry then Some(MemberDrift) else None);
    }

    static ghost predicate StillInOrder(request: Request, assignments: seq<Assignment>, commit: Commit, registry: Registry, s: GitState) {
      && s.primary == request.gate.baseline && s.primaryClean && s.registry == registry
      && s.HeadAt(request.path) == Some(commit) && s.worktrees[request.path].clean && TipsHold(assignments, s)
    }

    /** `_pre_promotion_drift`. */
    method PrePromotionDrift(request: Request, assignments: seq<Assignment>, commit: Commit, registry: Registry)
      returns (a: Answer<Option<Finding>>)
      requires Bound(request.gate, assignments)
      modifies git`state
      ensures Kept(old(git.state), git.state)
      ensures git.disturbance == Quiet && StillInOrder(request, assignments, commit, registry, old(git.state)) ==> a.Stopped? || a == Value(None)
      ensures git.disturbance == Quiet && a == Value(None) ==>
        && git.state.primary == request.gate.baseline && git.state.primaryClean
        && git.state.HeadAt(request.path) == Some(commit)
        && request.path in git.state.worktrees && git.state.worktrees[request.path].clean
        && git.state.registry == registry && TipsHold(assignments, git.state)
      ensures a.Value? && a.value.Some? ==> a.value.value.PrimaryDrift? || a.value.value.PrimaryDirty? || a.value.value.TempResourceDivergence? || a.value.value.MemberDrift?
      ensures git.disturbance == Quiet && a.Value? ==>
        && (a.value == Some(PrimaryDrift) <==> old(git.state).primary != request.gate.baseline)
        && (a.value == Some(PrimaryDirty) <==> old(git.state).primary == request.gate.baseline && !old(git.state).primaryClean)
    {
      var primary :- git.InspectPrimary();
      if primary.0 != request.gate.baseline {
        return Value(Some(PrimaryDrift));
      }
      if !primary.1 {
        return Value(Some(PrimaryDirty));
      }
      var head :- git.CurrentHead(request.path);
      if head != commit {
        return Value(Some(TempResourceDivergence));
      }
      var clean :- git.IsClean(request.path);
      if !clean {
        return Value(Some(TempResourceDivergence));
      }
      var inPlace :- BranchesUnchanged(request.gate, assignments);
      if !inPlace {
        return Value(Some(MemberDrift));
      }
      var now :- git.LoadRegistry();
      a := Value(if now != registry then Some(MemberDrift) else None);
    }

    /** `_abort_conflict`: whatever becomes of the cleanup, the result is the same. */
    method AbortConflict(request: Request, before: Commit, expected: Commit) returns (a: Answer<MergeResult>)
      modifies git`state, git`writes
      ensures git.disturbance != Anything ==> git.state.primary == old(git.state.primary)
      ensures !a.GitError? && (a.Value? ==> a.value == MergeResult(Failed, Some(GitMergeConflict), None, before, git.state.primary))
    {
      var merging := git.MergeInProgress(request.path);
      if merging.Stopped? {
        return Stopped;
      }
      if merging == Value(true) {
        var aborted := git.AbortMerge(request.path);
        if aborted.Stopped? {
          return Stopped;
        }
      }
      if !merging.GitError? {
        var head := git.CurrentHead(request.path);
        if head.Stopped? {
          return Stopped;
        }
        if head == Value(expected) {
          var clean := git.IsClean(request.path);
          if clean.Stopped? {
            return Stopped;
          }
        }
      }
      a := Refuse(Failed, GitMergeConflict, before);
    }

    /** `_failed_git_operation`. */
    method FailedGitOperation(request: Request, before: Commit) returns (a: Answer<MergeResult>)
      modifies git`state, git`writes
      ensures git.disturbance != Anything ==> git.state.primary == old(git.state.primary)
      ensures a.Value? ==> a.value == MergeResult(Failed, Some(GitOperationFailed), None, before, git.state.primary)
    {
      var merging :- git.MergeInProgress(request.path);
      if merging {
        var aborted := git.AbortMerge(request.path);
        if aborted.Stopped? {
          return Stopped;
        }
      }
      a := Refuse(Failed, GitOperationFailed, before);
    }

    /** The staging loop of `merge`: the head it ends with, or the result that ends the call. */
    method Stage(request: Request, assignments: seq<Assignment>, before: Commit, registry: Registry) returns (a: Answer<Staged>)
      requires Bound(request.gate, assignments)
      requires git.disturbance == Quiet ==> ResourceOn(request, git.state)
      modifies git`state, git`writes
      ensures git.disturbance != Anything ==> git.state.primary == old(git.state.primary)
      ensures a.Value? && a.value.Ended? ==> a.value.result.status != Merged && BeforePromotion(a.value.result) && a.value.result.finding != Some(FinalStateInvalid)
      ensures git.disturbance == Quiet && old(git.state).primary == request.gate.baseline && old(git.state).primaryClean ==>
        a.Value? && a.value.Ended? ==> !BeforeStaging(a.value.result.finding)
      ensures git.disturbance == Quiet && Stageable(request, assignments, registry, old(git.state)) ==>
        && !a.GitError?
        && (a.Value? && a.value.Ended? ==> a.value.result.finding == Some(GitMergeConflict))
        && (a.Value? && a.value.Head? ==> StillInOrder(request, assignments, a.value.commit, registry, git.state))
      ensures git.disturbance == Quiet && a.Value? && a.value.Head? ==>
        && ResourceOn(request, git.state)
        && git.state.(tips := old(git.state).tips) == old(git.state)
        && StagedTo(request.gate, git.earlier, a.value.commit)
    {
      hide Ancestor;
      hide Integrates;
      var members := Commits(request.gate.members);
      var expected := request.gate.baseline;
      ghost var heads := [expected];
      for i := 0 to |members|
        invariant git.disturbance != Anything ==> git.state.primary == old(git.state.primary)
        invariant git.disturbance == Quiet ==>
          ResourceOn(request, git.state) && git.state.(tips := old(git.state).tips) == old(git.state)
        invariant git.disturbance == Quiet ==>
          Staging(request.gate.baseline, members[..i], heads) && heads[i] == expected && MakesNew(heads, git.earlier)
        invariant git.disturbance == Quiet && Stageable(request, assignments, registry, old(git.state)) ==>
          git.state.tips == old(git.state).tips[request.branch := expected]
      {
        var drift :- PreMergeDrift(request, assignments[i], members[i], expected, registry);
        if drift.Some? {
          var refused :- Refuse(Blocked, drift.value, before);
          return Value(Ended(refused));
        }
        var attempt := git.MergeNoFf(request.path, members[i]);
        if attempt.Stopped? {
          return Stopped;
        }
        if attempt.GitError? {
          var failed :- FailedGitOperation(request, before);
          return Value(Ended(failed));
        }
        if !attempt.value.merged {
          var conflict :- AbortConflict(request, before, expected);
          return Value(Ended(conflict));
        }
        ghost var longer := heads + [attempt.value.head];
        if git.disturbance == Quiet {
          StagedOneMore(request.gate.baseline, members, i, heads, attempt.value.head, git.earlier);
        }
        heads := longer;
        expected := attempt.value.head;
      }
      assert members[..|members|] == members;
      assert git.disturbance == Quiet ==> StagedTo(request.gate, git.earlier, expected);
      a := Value(Head(expected));
    }

    /** The end of `merge`: check the staged commit, promote it once, and look at what came of it. */
    method Promote(request: Request, assignments: seq<Assignment>, before: Commit, registry: Registry, commit: Commit)
      returns (a: Answer<MergeResult>)
      requires Bound(request.gate, assignments)
      modifies git`state, git`moves, git`writes
      ensures PromotesAtMostOnce(request.gate, git.disturbance, old(git.moves), git.moves)
      ensures a.Value? && BeforePromotion(a.value) ==> git.moves == old(git.moves) && git.writes == old(git.writes)
      ensures git.disturbance != Anything ==> PrimaryFollows(old(git.state.primary), git.state.primary, old(git.moves), git.moves)
      ensures a.Value? && a.value.status == Merged ==> a.value.finding.None? && MergedAs(request.gate, a.value, commit)
      ensures git.disturbance == Quiet && git.moves != old(git.moves) ==>
        old(git.state).primaryClean && git.state.registry == registry && TipsHold(assignments, git.state)
      ensures a.Value? ==> a.value.finding != Some(AlreadyMerged)
      ensures git.disturbance == Quiet && old(git.state).primary == request.gate.baseline && old(git.state).primaryClean ==>
        a.Value? ==> !BeforeStaging(a.value.finding)
      ensures git.disturbance == Quiet && StillInOrder(request, assignments, commit, registry, old(git.state)) && a.Value? ==> OnlyConflicts(a.value)
      ensures git.disturbance == Quiet && a.Value? && a.value.finding == Some(FinalStateInvalid) ==>
        a.value.status == Blocked && !Integrates(request.gate.baseline, Commits(request.gate.members), commit)
      ensures git.disturbance == Quiet && a.Value? && a.value.status == Merged ==>
        && git.state == old(git.state).(primary := commit) && git.state.primaryClean
        && git.state.HeadAt(request.path) == Some(commit) && request.path in git.state.worktrees
        && git.state.worktrees[request.path].clean && git.state.registry == registry && TipsHold(assignments, git.state)
    {
      hide Integrates;
      hide Ancestor;
      hide Bound;
      hide Commits;
      var members := Commits(request.gate.members);
      var exact :- IsExactIntegrationSequence(request.gate.baseline, members, commit);
      if !exact {
        a := Refuse(Blocked, FinalStateInvalid, before);
        return;
      }
      var drift :- PrePromotionDrift(request, assignments, commit, registry);
      if drift.Some? {
        a := Refuse(Blocked, drift.value, before);
        return;
      }
      IntegrationContains(request.gate.baseline, members, commit);
      var promoted := git.FastForward(request.gate.baseline, commit);
      if promoted.Stopped? {
        return Stopped;
      }
      if promoted.GitError? {
        a := Refuse(Blocked, PromotionFailed, before);
        return;
      }
      if git.disturbance == Quiet && promoted.value != commit {
        AncestryIsAntisymmetric(promoted.value, commit);
      }
      a := Confirm(request, assignments, before, registry, commit, promoted.value);
    }

    /** What `merge` looks at once the primary has been promoted. */
    method Confirm(request: Request, assignments: seq<Assignment>, before: Commit, registry: Registry, commit: Commit, promoted: Commit)
      returns (a: Answer<MergeResult>)
      requires Bound(request.gate, assignments)
      modifies git`state
      ensures Kept(old(git.state), git.state)
      ensures a.Value? && a.value.status == Merged ==> a.value == MergeResult(Merged, None, Some(commit), before, commit)
      ensures a.Value? && a.value.status != Merged ==> a.value.status == Failed && a.value.finding == Some(FinalStateInvalid)
      ensures git.disturbance == Quiet && a.Value? ==>
        (a.value.status == Merged <==> Confirmed(old(git.state), assignments, registry, commit) && promoted == commit)
    {
      var final :- git.InspectPrimary();
      var now :- git.LoadRegistry();
      var inPlace :- BranchesUnchanged(request.gate, assignments);
      var good := promoted == commit && final.0 == commit && final.1 && now == registry && inPlace;
      a := Value(if good then MergeResult(Merged, None, Some(commit), before, final.0)
                 else MergeResult(Failed, Some(FinalStateInvalid), Some(commit), before, final.0));
    }

    static predicate Confirmed(s: GitState, assignments: seq<Assignment>, registry: Registry, commit: Commit) {
      s.primary == commit && s.primaryClean && s.registry == registry && TipsHold(assignments, s)
    }

    /** The checks of `merge` before it prepares anything. */
    method Admit(request: Request, gateAgain: Answer<bool>) returns (a: Answer<Admission>)
      modifies git`state
      ensures Kept(old(git.state), git.state)
      ensures a.Value? && a.value.Refused? && a.value.result.finding != Some(AlreadyMerged) ==>
        BeforePromotion(a.value.result) && a.value.result.status == Blocked && a.value.result.finding != Some(FinalStateInvalid)
      ensures a.Value? && a.value.Refused? && a.value.result.finding == Some(AlreadyMerged) ==>
        a.value.result == Again(a.value.result.after) && MergedAs(request.gate, a.value.result, a.value.result.after)
      ensures a.Value? && a.value.Admitted? ==> Bound(request.gate, a.value.assignments) && request.gate.passed && gateAgain == Value(true)
      ensures git.disturbance == Quiet && a.Value? && a.value.Refused? ==>
        RefusalsExplained(request, git.state, gateAgain, a.value.result.finding)
      ensures git.disturbance == Quiet && a.Value? && a.value.Admitted? ==>
        && git.state.primary == request.gate.baseline && git.state.primaryClean && AllMatch(request.gate, git.state.registry)
        && AssignedBy(request.gate, a.value.assignments, git.state.registry)
      ensures git.disturbance == Quiet && a.Value? && a.value.Refused? && git.state.primary == request.gate.baseline ==> a.value.result.status == Blocked
      ensures git.disturbance == Quiet && Repeats(request, git.state) && a.Value? ==> a.value == Refused(Again(git.state.primary))
      ensures git.disturbance == Quiet && Ready(request, git.state) && gateAgain == Value(true) && a.Value? ==> a.value.Admitted?
    {
      hide Integrates;
      hide Ancestor;
      hide Commits;
      hide RefusalsExplained;
      var gate := request.gate;
      WhatExplains(request, git.state, gateAgain);
      var primary :- git.InspectPrimary();
      var before := primary.0;
      if !gate.passed {
        return Value(Refused(MergeResult(Blocked, Some(GateNotPass), None, before, before)));
      }
      var bound :- Assignments(gate);
      if bound.None? {
        var mismatch :- Refuse(Blocked, MemberMismatch, before);
        return Value(Refused(mismatch));
      }
      var assignments := bound.value;
      if git.disturbance == Quiet && Repeats(request, old(git.state)) {
        RepeatIsRecognizable(request, assignments, git.state);
      }
      var recognized :- RecognizeMerged(request, assignments, primary.0, primary.1);
      if recognized.Some? {
        return Value(Refused(recognized.value));
      }
      if primary.0 != gate.baseline {
        var drift :- Refuse(Blocked, PrimaryDrift, before);
        return Value(Refused(drift));
      }
      if !primary.1 {
        var dirty :- Refuse(Blocked, PrimaryDirty, before);
        return Value(Refused(dirty));
      }
      if gateAgain.Stopped? {
        return Stopped;
      }
      if gateAgain != Value(true) {
        var stale :- Refuse(Blocked, StaleIntegrationGate, before);
        return Value(Refused(stale));
      }
      a := Value(Admitted(assignments, before));
    }

    static predicate AssignedBy(gate: Gate, assignments: seq<Assignment>, registry: Registry)
      requires AllMatch(gate, registry)
    {
      |assignments| == |gate.members|
      && forall i | 0 <= i < |assignments| :: Matches(gate, gate.members[i], registry) && assignments[i] == registry[gate.members[i].assignment]
    }

    /**
      `merge`. `gateAgain` is what evaluating the gate again says: whether it still passes with the
      same result, or that it cannot be evaluated.
     */
    method Merge(request: Request, gateAgain: Answer<bool>) returns (a: Answer<MergeResult>)
      modifies git`state, git`moves, git`writes
      // However others interfere, and wherever the process ends:
      ensures PromotesAtMostOnce(request.gate, git.disturbance, old(git.moves), git.moves)
      ensures a.Value? && BeforePromotion(a.value) ==> git.moves == old(git.moves)
      ensures git.moves != old(git.moves) ==> request.gate.passed && gateAgain == Value(true)
      ensures a.Value? && a.value.status == Merged ==> MergedAs(request.gate, a.value, a.value.after)
      ensures a.Value? && a.value.finding == Some(AlreadyMerged) ==> git.moves == old(git.moves) && git.writes == old(git.writes)
      ensures git.disturbance != Anything ==> PrimaryFollows(old(git.state.primary), git.state.primary, old(git.moves), git.moves)
      // When nobody interferes:
      ensures git.disturbance == Quiet && git.moves != old(git.moves) ==>
        old(git.state).primaryClean && Delivered(request.gate, old(git.state).registry) && MembersInPlace(request.gate, git.state)
      ensures git.disturbance == Quiet && a.Value? && a.value.status == Merged && a.value.finding.None? ==>
        Promoted(request, git.state, a.value.after) && Delivered(request.gate, git.state.registry)
      ensures git.disturbance == Quiet && a.Value? ==> RefusalsExplained(request, old(git.state), gateAgain, a.value.finding)
      ensures git.disturbance == Quiet && a.Value? && a.value.finding == Some(FinalStateInvalid) ==>
        a.value.status == Blocked && (Known(request.gate, git.earlier) ==> Overlapping(request.gate))
      ensures git.disturbance == Quiet && Ready(request, old(git.state)) && gateAgain == Value(true) && a.Value? ==> OnlyConflicts(a.value)
      ensures git.disturbance == Quiet && Ready(request, old(git.state)) && gateAgain == Value(true) && Known(request.gate, git.earlier) ==>
        (a.Value? && a.value.finding != Some(GitMergeConflict) ==> (a.value.status == Merged <==> !Overlapping(request.gate)))
      ensures git.disturbance == Quiet && Repeats(request, old(git.state)) && a.Value? ==>
        a.value == Again(old(git.state).primary) && git.state == old(git.state)
      ensures git.disturbance == Quiet && Abandoned(request, old(git.state)) && a.Value? ==>
        a.value.status == Blocked && git.state == old(git.state) && git.moves == old(git.moves) && git.writes == old(git.writes)
    {
      hide Integrates;
      hide Ancestor;
      hide MembersInPlace;
      hide Commits;
      hide Overlapping;
      hide Known;
      hide StagedTo;
      hide Delivered;
      hide RefusalsExplained;
      var gate := request.gate;
      WhatExplains(request, git.state, gateAgain);
      var admission :- Admit(request, gateAgain);
      if admission.Refused? {
        return Value(admission.result);
      }
      var assignments, before := admission.assignments, admission.before;
      var registry :- git.LoadRegistry();
      var prepared := PrepareIntegrationResource(request);
      if prepared.Stopped? {
        return Stopped;
      }
      if prepared.GitError? {
        a := Refuse(Blocked, TempResourceDivergence, before);
        return;
      }
      var staged :- Stage(request, assignments, before, registry);
      if staged.Ended? {
        return Value(staged.result);
      }
      if git.disturbance == Quiet && Known(gate, git.earlier) {
        ExactUnlessOverlapping(gate, git.earlier, staged.commit);
      }
      a := Promote(request, assignments, before, registry, staged.commit);
      if git.disturbance == Quiet && (git.moves != old(git.moves) || (a.Value? && a.value.status == Merged)) {
        InPlaceByAssignments(gate, assignments, git.state);
        MatchedMeansDelivered(gate, git.state.registry);
      }
    }

    static lemma InPlaceByAssignments(gate: Gate, assignments: seq<Assignment>, s: GitState)
      requires |assignments| == |gate.members| && AllMatch(gate, s.registry) && TipsHold(assignments, s)
      requires forall i :: 0 <= i < |gate.members| ==> assignments[i] == s.registry[gate.members[i].assignment]
      ensures MembersInPlace(gate, s)
    {
      forall i | 0 <= i < |gate.members|
        ensures Matches(gate, gate.members[i], s.registry) && TipHolds(assignments[i], s)
      {
      }
    }

    /**
      Any number of calls for one group, each of which may end anywhere. Whatever the calls before
      have left behind, the primary is only ever promoted to a commit that merges all members; and
      if nobody else moves it, it is promoted at most once, from the gated baseline.
     */
    method Rerun(request: Request, gateAgain: seq<Answer<bool>>)
      modifies git`state, git`moves, git`writes
      ensures old(git.moves) <= git.moves
      ensures forall i :: |old(git.moves)| <= i < |git.moves| ==> Promotes(request.gate, git.disturbance, git.moves[i])
      ensures git.disturbance != Anything ==> PrimaryFollows(old(git.state.primary), git.state.primary, old(git.moves), git.moves)
    {
      for k := 0 to |gateAgain|
        invariant old(git.moves) <= git.moves
        invariant forall i :: |old(git.moves)| <= i < |git.moves| ==> Promotes(request.gate, git.disturbance, git.moves[i])
        invariant git.disturbance != Anything ==> PrimaryFollows(old(git.state.primary), git.state.primary, old(git.moves), git.moves)
      {
        ghost var head, moved := git.state.primary, git.moves;
        var _ := Merge(request, gateAgain[k]);
        if git.disturbance != Anything && moved != old(git.moves) && git.moves != moved {
          PromotedOnlyOnce(request.gate, git.disturbance, moved[|moved| - 1], git.moves[|moved|]);
        }
      }
    }
  }
}
