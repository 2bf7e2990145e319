/**
  The Git repository that the merge coordinator works in, with somebody else at work in it.
  Every command first gives the others a turn, and every command can be the last one that the
  coordinator's process runs.
 */
module GitRepository {
  import opened Wrappers
  import opened CommitGraph

  /** The answer of a command: a value, a `GitOperationError`, or nothing because the process ended. */
  datatype Answer<+T> = Value(value: T) | GitError | Stopped {
    predicate IsFailure() {
      !Value?
    }

    function PropagateFailure<U>(): Answer<U>
      requires IsFailure()
    {
      if GitError? then GitError else Stopped
    }

    function Extract(): T
      requires !IsFailure()
    {
      value
    }
  }

  datatype Head = Attached(branch: string) | Detached(commit: Commit)
  datatype Worktree = Worktree(head: Head, clean: bool, merging: bool)
  datatype Assignment = Assignment(mission: string, generation: nat, story: string, baseline: Commit,
                                   branch: string, result: Commit, completed: bool)
  type Registry = map<string, Assignment>

  datatype GitState = GitState(primary: Commit, primaryClean: bool, tips: map<string, Commit>,
                               worktrees: map<string, Worktree>, files: set<string>, registry: Registry)
  {
    /** The commit checked out at a path. */
    function HeadAt(path: string): Option<Commit> {
      if path !in worktrees then None
      else match worktrees[path].head
        case Detached(commit) => Some(commit)
        case Attached(branch) => if branch in tips then Some(tips[branch]) else None
    }

    /** The state after the checkout at a path has advanced to `commit`. */
    function Advance(path: string, commit: Commit): GitState
      requires path in worktrees
    {
      var w := worktrees[path];
      match w.head
      case Detached(_) => this.(worktrees := worktrees[path := w.(head := Detached(commit))])
      case Attached(branch) => this.(tips := tips[branch := commit])
    }

    function Merging(path: string, merging: bool): GitState
      requires path in worktrees
    {
      this.(worktrees := worktrees[path := worktrees[path].(clean := !merging, merging := merging)])
    }

    function NewWorktree(path: string, branch: string, commit: Commit): GitState {
      this.(tips := tips[branch := commit],
            worktrees := worktrees[path := Worktree(Attached(branch), true, false)],
            files := files + {path})
    }
  }

  /** What others may do between two commands. */
  datatype Disturbance = Quiet | PrimaryKept | Anything

  /** A promotion of the primary by the coordinator. */
  datatype Move = Move(from: Commit, to: Commit)

  /** Nobody but the coordinator has moved the primary, and it has done so at most once, from where it was. */
  predicate PrimaryFollows(primaryBefore: Commit, primaryAfter: Commit, before: seq<Move>, after: seq<Move>) {
    if after == before then primaryAfter == primaryBefore
    else after == before + [Move(primaryBefore, primaryAfter)]
  }

  /** What others may make of a state in one turn. */
  predicate MayDisturb(disturbance: Disturbance, before: GitState, after: GitState) {
    && (disturbance == Quiet ==> after == before)
    && (disturbance == PrimaryKept ==> after.primary == before.primary)
  }

  /**
    The three commands of a fast-forward, in the states that they find: the head is compared, nothing may be
    modified, and the merge goes from the head that it finds itself. `None` when one of them fails.
   */
  function FastForwarded(compared: GitState, inspected: GitState, merging: GitState, expected: Commit, commit: Commit): Option<GitState> {
    if compared.primary != expected || !inspected.primaryClean then None
    else if Ancestor(commit, merging.primary) then Some(merging)
    else if !Ancestor(merging.primary, commit) then None
    else Some(merging.(primary := commit))
  }

  /** The states that the three commands find, when others have a turn before each of them. */
  predicate MayFind(disturbance: Disturbance, before: GitState, compared: GitState, inspected: GitState, merging: GitState) {
    MayDisturb(disturbance, before, compared) && MayDisturb(disturbance, compared, inspected) && MayDisturb(disturbance, inspected, merging)
  }

  /** A fast-forward can move the primary from a commit. */
  ghost predicate MovesFrom(disturbance: Disturbance, before: GitState, expected: Commit, commit: Commit, from: Commit) {
    exists compared, inspected, merging ::
      MayFind(disturbance, before, compared, inspected, merging) && merging.primary == from && from != commit
      && FastForwarded(compared, inspected, merging, expected, commit) == Some(merging.(primary := commit))
  }

  /**
    Where a fast-forward can start. Unless others move the primary, that is the expected head alone. If they do,
    it is every ancestor of the target but the target, whatever the head was before and whatever was expected.
   */
  lemma MovesFromExactly(disturbance: Disturbance, before: GitState, expected: Commit, commit: Commit, from: Commit)
    ensures MovesFrom(disturbance, before, expected, commit, from)
      <==> Ancestor(from, commit) && from != commit
           && (disturbance != Anything ==> from == expected == before.primary)
           && (disturbance == Quiet ==> before.primaryClean)
  {
    if Ancestor(from, commit) && Ancestor(commit, from) {
      AncestryIsAntisymmetric(from, commit);
    }
    if Ancestor(from, commit) && from != commit {
      var compared := if disturbance == Anything then before.(primary := expected) else before;
      var inspected := if disturbance == Quiet then compared else compared.(primaryClean := true);
      var merging := if disturbance == Anything then inspected.(primary := from) else inspected;
      assert MayFind(disturbance, before, compared, inspected, merging);
    }
  }

  datatype MergeAttempt = MergeAttempt(merged: bool, head: Commit)

  class Repository {
    const disturbance: Disturbance
    // Commits that are there before the coordinator merges; a commit it makes carries its own time and is none of them.
    const earlier: set<Commit>
    var state: GitState
    ghost var moves: seq<Move>
    ghost var writes: nat

    ghost predicate Disturbed(before: GitState, after: GitState) {
      MayDisturb(disturbance, before, after)
    }

    /** The others take their turn; then the command starts, fails, or is never run. */
    method Turn() returns (a: Answer<()>)
      modifies this`state
      ensures Disturbed(old(state), state)
      ensures disturbance == Quiet ==> !a.GitError?
    {
      var other: GitState := *;
      match disturbance {
        case Quiet =>
        case PrimaryKept => state := other.(primary := state.primary);
        case Anything => state := other;
      }
      var stops, fails: bool := *, *;
      a := if stops then Stopped else if fails && disturbance != Quiet then GitError else Value(());
    }

    // ---------- commands that only read ----------

    /** `inspect_primary`; its error is not a `GitOperationError`. */
    method InspectPrimary() returns (a: Answer<(Commit, bool)>)
      modifies this`state
      ensures Disturbed(old(state), state) && !a.GitError?
      ensures a.Value? ==> a.value == (state.primary, state.primaryClean)
    {
      var turn := Turn();
      a := if turn.Value? then Value((state.primary, state.primaryClean)) else Stopped;
    }

    /** `registry_store.load`. */
    method LoadRegistry() returns (a: Answer<Registry>)
      modifies this`state
      ensures Disturbed(old(state), state) && !a.GitError?
      ensures a.Value? ==> a.value == state.registry
    {
      var turn := Turn();
      a := if turn.Value? then Value(state.registry) else Stopped;
    }

    method BranchExists(branch: string) returns (a: Answer<bool>)
      modifies this`state
      ensures Disturbed(old(state), state)
      ensures disturbance == Quiet ==> !a.GitError?
      ensures a.Value? ==> (a.value <==> branch in state.tips)
    {
      var _ :- Turn();
      a := Value(branch in state.tips);
    }

    method BranchTip(branch: string) returns (a: Answer<Commit>)
      modifies this`state
      ensures Disturbed(old(state), state)
      ensures a.Value? ==> branch in state.tips && a.value == state.tips[branch]
      ensures a.GitError? && disturbance == Quiet ==> branch !in state.tips
    {
      var _ :- Turn();
      a := if branch in state.tips then Value(state.tips[branch]) else GitError;
    }

    /** `list_worktrees`, with the commits that are checked out. */
    method ListWorktrees() returns (a: Answer<map<string, (Head, Option<Commit>)>>)
      modifies this`state
      ensures Disturbed(old(state), state)
      ensures disturbance == Quiet ==> !a.GitError?
      ensures a.Value? ==> a.value.Keys == state.worktrees.Keys
      ensures a.Value? ==> forall p :: p in a.value ==> a.value[p] == (state.worktrees[p].head, state.HeadAt(p))
    {
      var _ :- Turn();
      a := Value(map p | p in state.worktrees :: (state.worktrees[p].head, state.HeadAt(p)));
    }

    method PathExists(path: string) returns (a: Answer<bool>)
      modifies this`state
      ensures Disturbed(old(state), state)
      ensures disturbance == Quiet ==> !a.GitError?
      ensures a.Value? ==> (a.value <==> path in state.files)
    {
      var _ :- Turn();
      a := Value(path in state.files);
    }

    method CurrentHead(path: string) returns (a: Answer<Commit>)
      modifies this`state
      ensures Disturbed(old(state), state)
      ensures a.Value? ==> state.HeadAt(path) == Some(a.value)
      ensures a.GitError? && disturbance == Quiet ==> state.HeadAt(path).None?
    {
      var _ :- Turn();
      var head := state.HeadAt(path);
      a := if head.Some? then Value(head.value) else GitError;
    }

    method IsClean(path: string) returns (a: Answer<bool>)
      modifies this`state
      ensures Disturbed(old(state), state)
      ensures a.Value? ==> path in state.worktrees && a.value == state.worktrees[path].clean
      ensures a.GitError? && disturbance == Quiet ==> path !in state.worktrees
    {
      var _ :- Turn();
      a := if path in state.worktrees then Value(state.worktrees[path].clean) else GitError;
    }

    method MergeInProgress(path: string) returns (a: Answer<bool>)
      modifies this`state
      ensures Disturbed(old(state), state)
      ensures a.Value? ==> path in state.worktrees && a.value == state.worktrees[path].merging
      ensures a.GitError? && disturbance == Quiet ==> path !in state.worktrees
    {
      var _ :- Turn();
      a := if path in state.worktrees then Value(state.worktrees[path].merging) else GitError;
    }

    method IsAncestor(ancestor: Commit, descendant: Commit) returns (a: Answer<bool>)
      modifies this`state
      ensures Disturbed(old(state), state)
      ensures disturbance == Quiet ==> !a.GitError?
      ensures a.Value? ==> a.value == Ancestor(ancestor, descendant)
    {
      var _ :- Turn();
      a := Value(Ancestor(ancestor, descendant));
    }

    method CommitParents(commit: Commit) returns (a: Answer<seq<Commit>>)
      modifies this`state
      ensures Disturbed(old(state), state)
      ensures disturbance == Quiet ==> !a.GitError?
      ensures a.Value? ==> a.value == commit.parents
    {
      var _ :- Turn();
      a := Value(commit.parents);
    }

    // ---------- commands that write ----------

    /** `git worktree add -b branch path commit`. */
    method AddWorktree(path: string, branch: string, commit: Commit) returns (a: Answer<()>)
      modifies this`state, this`writes
      ensures disturbance != Anything ==> state.primary == old(state.primary)
      ensures disturbance == Quiet && a.Value? ==> state == old(state).NewWorktree(path, branch, commit)
      ensures disturbance == Quiet && a.GitError? ==> state == old(state) && (branch in state.tips || path in state.files)
    {
      var _ :- Turn();
      writes := writes + 1;
      if branch in state.tips || path in state.files {
        return GitError;
      }
      state := state.NewWorktree(path, branch, commit);
      a := Turn();
    }

    /** `git merge --no-ff`, followed by a look at the new head. */
    method MergeNoFf(path: string, member: Commit) returns (a: Answer<MergeAttempt>)
      modifies this`state, this`writes
      ensures disturbance != Anything ==> state.primary == old(state.primary)
      ensures disturbance == Quiet && a.Value? ==> path in old(state).worktrees && old(state).HeadAt(path).Some?
      ensures disturbance == Quiet && a.GitError? ==> old(state).HeadAt(path).None? || old(state).worktrees[path].merging
      ensures disturbance == Quiet && a.Value? && a.value.merged ==>
        MergeStep(old(state).HeadAt(path).value, member, a.value.head) && state == old(state).Advance(path, a.value.head)
      ensures disturbance == Quiet && a.Value? && a.value.merged ==>
        a.value.head == old(state).HeadAt(path).value || a.value.head !in earlier
      ensures disturbance == Quiet && a.Value? && !a.value.merged ==>
        a.value.head == old(state).HeadAt(path).value && state == old(state).Merging(path, true)
    {
      var _ :- Turn();
      writes := writes + 1;
      var head := state.HeadAt(path);
      if head.None? || state.worktrees[path].merging {
        return GitError;
      }
      var merged := true;
      if !Ancestor(member, head.value) {
        if * {
          merged := false;
          state := state.Merging(path, true);
        } else {
          ghost var unused := NewContent([head.value, member], earlier);
          assert Commit([head.value, member], unused) !in earlier;
          var content: int :| Commit([head.value, member], content) !in earlier;
          state := state.Advance(path, Commit([head.value, member], content));
        }
      } else {
        assert state.Advance(path, head.value) == state by {
          if state.worktrees[path].head.Attached? {
            assert state.tips[state.worktrees[path].head.branch := head.value] == state.tips;
          } else {
            assert state.worktrees[path := state.worktrees[path].(head := Detached(head.value))] == state.worktrees;
          }
        }
      }
      var now :- CurrentHead(path);
      a := Value(MergeAttempt(merged, now));
    }

    /** `git merge --abort`. */
    method AbortMerge(path: string) returns (a: Answer<()>)
      modifies this`state, this`writes
      ensures disturbance != Anything ==> state.primary == old(state.primary)
      ensures disturbance == Quiet ==> state == old(state) || (path in old(state).worktrees && state == old(state).Merging(path, false))
    {
      var _ :- Turn();
      writes := writes + 1;
      if path !in state.worktrees || !state.worktrees[path].merging {
        return GitError;
      }
      state := state.Merging(path, false);
      a := Turn();
    }

    /**
      `fast_forward`: compare the head, check that nothing is modified, then `git merge --ff-only`.
      The three are separate commands; only the last one is safe against others, and only in so
      far as it never moves the primary to a commit that does not contain where it was.
     */
    method FastForward(expected: Commit, commit: Commit) returns (a: Answer<Commit>)
      modifies this`state, this`moves, this`writes
      ensures moves == old(moves) || exists from ::
        && moves == old(moves) + [Move(from, commit)]
        && MovesFrom(disturbance, old(state), expected, commit, from)
        && from != commit && Ancestor(from, commit) && (disturbance != Anything ==> from == expected)
      ensures disturbance != Anything && a.Value? ==> state.primary == a.value
      ensures disturbance == Quiet ==> state == old(state).(primary := state.primary)
      ensures disturbance != Anything && moves != old(moves) ==> state.primary == commit
      ensures disturbance != Anything && a.Value? && moves == old(moves) ==> Ancestor(commit, a.value)
      ensures disturbance != Anything ==> PrimaryFollows(old(state.primary), state.primary, old(moves), moves)
      ensures disturbance == Quiet && a.GitError? ==> old(state.primary) != expected || !old(state.primaryClean) || !Ancestor(expected, commit)
    {
      ghost var before := state;
      var _ :- Turn();
      ghost var compared := state;
      if state.primary != expected {
        return GitError;
      }
      var _ :- Turn();
      ghost var inspected := state;
      if !state.primaryClean {
        return GitError;
      }
      var _ :- Turn();
      ghost var merging := state;
      writes := writes + 1;
      if !Ancestor(commit, state.primary) {
        if !Ancestor(state.primary, commit) {
          return GitError;
        }
        assert state.primary != commit;
        assert MayFind(disturbance, before, compared, inspected, merging);
        assert MovesFrom(disturbance, before, expected, commit, merging.primary);
        moves := moves + [Move(state.primary, commit)];
        state := state.(primary := commit);
      }
      var _ :- Turn();
      a := Value(state.primary);
    }

    constructor (disturbance: Disturbance, earlier: set<Commit>, state: GitState)
      ensures this.disturbance == disturbance && this.earlier == earlier && this.state == state && moves == [] && writes == 0
    {
      this.disturbance, this.earlier := disturbance, earlier;
      this.state := state;
      moves := [];
      writes := 0;
    }
  }
}
