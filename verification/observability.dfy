/** The projection of the execution ledger into operational events: `execution_observability.py`. */
module Observability {
  import opened Wrappers
  import opened Ordering
  import opened Metrics
  import ExecutionState

  type Record = ExecutionState.Record
  type Ledger = ExecutionState.Ledger
  type GitObservation = ExecutionState.GitObservation

  /**
    What the projection takes from elsewhere: the project, the path key of its root, the times and the
    Git state before of a record's observation, which may be missing, and the event ids.
   */
  datatype Projector = Projector(project: string, root: string, pathKey: string -> string, startedAt: Record -> Option<int>, endedAt: Record -> int,
                                 gitBefore: Record -> Option<GitObservation>, eventId: (Record, Operation) -> string)

  /** `ExecutionObservabilityError`, or what reading an observation that is not complete raises. */
  datatype ReadError = ForeignRepository | MissingObservation | IncompleteObservation | UnboundEvent

  function GitAfter(r: Record): Option<GitObservation> {
    if r.observation.Some? then r.observation.value.gitAfter else None
  }

  /** The observation holds what an event is made of. */
  predicate Observed(p: Projector, r: Record) {
    r.observation.Some? && p.startedAt(r).Some? && p.gitBefore(r).Some? && GitAfter(r).Some?
  }

  /** `_repository_commit`: the observed head, or the expected commit where none was observed. */
  function CommitOf(git: Option<GitObservation>, r: Record): string {
    if git.Some? && git.value.headCommit.Some? then git.value.headCommit.value else r.identity.expectedCommit
  }

  /** `_TERMINAL_OPERATIONS`. */
  function TerminalOperation(r: Record): Option<Operation> {
    match r.status
    case Validated => Some(Finished)
    case Failed => Some(Operation.Failed)
    case Interrupted => Some(Operation.Interrupted)
    case _ => None
  }

  predicate Terminal(r: Record) {
    TerminalOperation(r).Some?
  }

  function CorrelationOf(r: Record, commit: string): Correlation {
    Correlation(Some(r.identity.missionId), Some(r.identity.workflowGeneration), None, Some(r.identity.role), Some(r.Id()), None, Some(commit))
  }

  /** `_event`, for the start of a record. */
  function StartEvent(p: Projector, r: Record): Event {
    var at := if p.startedAt(r).Some? then p.startedAt(r).value else 0;
    Event(p.eventId(r, Started), CodexExecution, at, p.project, CorrelationOf(r, CommitOf(p.gitBefore(r), r)), Started, OtherOutcome, false)
  }

  /** `_event`, for the outcome of a record. */
  function EndEvent(p: Projector, r: Record): Event
    requires Terminal(r)
  {
    var operation := TerminalOperation(r).value;
    Event(p.eventId(r, operation), CodexExecution, p.endedAt(r), p.project, CorrelationOf(r, CommitOf(GitAfter(r), r)), operation, OtherOutcome,
          operation != Finished && r.observation.Some? && r.observation.value.timedOut)
  }

  function Projected(p: Projector, ledger: Ledger): seq<Event> {
    if ledger == [] then []
    else
      var n := |ledger| - 1;
      Projected(p, ledger[..n]) + if Terminal(ledger[n]) then [StartEvent(p, ledger[n]), EndEvent(p, ledger[n])] else []
  }

  predicate Foreign(p: Projector, r: Record) {
    p.pathKey(r.identity.repositoryRoot) != p.pathKey(p.root)
  }

  /** What keeps one record from being projected. */
  function Obstacle(p: Projector, r: Record): Option<ReadError> {
    if Foreign(p, r) then Some(ForeignRepository)
    else if !Terminal(r) || Observed(p, r) then None
    else if r.observation.None? then Some(MissingObservation)
    else Some(IncompleteObservation)
  }

  predicate Projectable(p: Projector, ledger: Ledger) {
    forall i | 0 <= i < |ledger| :: !Foreign(p, ledger[i]) && (Terminal(ledger[i]) ==> Observed(p, ledger[i]))
  }

  /** `project_terminal_execution_events`. */
  method ProjectTerminalEvents(p: Projector, ledger: Ledger) returns (events: Result<seq<Event>, ReadError>)
    ensures events.Ok? <==> Projectable(p, ledger)
    ensures events.Ok? ==> events.value == Projected(p, ledger)
    ensures events.Err? ==> exists i :: 0 <= i < |ledger| && Obstacle(p, ledger[i]) == Some(events.error) && Projectable(p, ledger[..i])
  {
    var out: seq<Event> := [];
    for i := 0 to |ledger|
      invariant out == Projected(p, ledger[..i]) && Projectable(p, ledger[..i])
    {
      assert ledger[..i + 1][..i] == ledger[..i];
      var r := ledger[i];
      if Foreign(p, r) {
        return Err(ForeignRepository);
      }
      if Terminal(r) {
        if r.observation.None? {
          return Err(MissingObservation);
        }
        if !Observed(p, r) {
          return Err(IncompleteObservation);
        }
        out := out + [StartEvent(p, r)];
        out := out + [EndEvent(p, r)];
      }
    }
    assert ledger[..|ledger|] == ledger;
    events := Ok(out);
  }

  /**
    A ledger can be projected if and only if all its records are of this repository, and what was observed of each
    VALIDATED, FAILED or INTERRUPTED one has a start time and both Git states.
   */
  lemma ProjectableExactlyWhen(p: Projector, ledger: Ledger)
    ensures Projectable(p, ledger) <==> forall r :: r in ledger ==>
      && p.pathKey(r.identity.repositoryRoot) == p.pathKey(p.root)
      && (r.status.Validated? || r.status.Failed? || r.status.Interrupted? ==>
            r.observation.Some? && p.startedAt(r).Some? && p.gitBefore(r).Some? && r.observation.value.gitAfter.Some?)
  {
    assert forall i :: 0 <= i < |ledger| ==> ledger[i] in ledger;
  }

  /** Where an execution has moved the head, its start tells where it was, and its outcome where it is. */
  lemma EventsTellWhere(p: Projector, ledger: Ledger, r: Record, before: string, after: string)
    requires r in ledger && Terminal(r) && Projectable(p, ledger)
    requires Observed(p, r) && p.gitBefore(r).value.headCommit == Some(before) && GitAfter(r).value.headCommit == Some(after)
    ensures exists e :: e in Projected(p, ledger) && e.operation == Started && e.correlation.execution == Some(r.Id())
                        && e.correlation.commit == Some(before) && Some(e.at) == p.startedAt(r) && !e.timedOut
    ensures exists e :: e in Projected(p, ledger) && e.operation != Started && e.correlation.execution == Some(r.Id())
                        && e.correlation.commit == Some(after) && e.at == p.endedAt(r)
  {
    var k :| 0 <= k < |ledger| && ledger[k] == r;
    BothAreProjected(p, ledger, k);
    assert Observed(p, ledger[k]);
    hide Projected;
    var start, end := StartEvent(p, r), EndEvent(p, r);
    assert start.operation == Started && start.correlation.commit == Some(before);
    assert end.operation != Started && end.correlation.commit == Some(after);
  }

  // ---------- the reader ----------

  datatype EventKey = EventKey(project: string, mission: Option<string>, generation: Option<nat>, role: Option<string>,
                               execution: Option<string>, operation: Operation)

  /** `_lifecycle_key`. */
  function ProjectionKey(e: Event): EventKey {
    EventKey(e.project, e.correlation.mission, e.correlation.generation, e.correlation.role, e.correlation.execution, e.operation)
  }

  predicate KeyProjected(e: Event, projected: seq<Event>) {
    exists i | 0 <= i < |projected| :: ProjectionKey(projected[i]) == ProjectionKey(e)
  }

  /** The commits that a record may be observed at. */
  predicate MayBeAt(p: Projector, r: Record, commit: string) {
    || commit == r.identity.expectedCommit
    || (r.observation.Some? && (AtHead(p.gitBefore(r), commit) || AtHead(GitAfter(r), commit)))
  }

  predicate AtHead(git: Option<GitObservation>, commit: string) {
    git.Some? && git.value.headCommit == Some(commit)
  }

  /** `_correlation_matches_record`. */
  predicate MatchesRecord(p: Projector, e: Event, r: Record) {
    && e.correlation.mission == Some(r.identity.missionId) && e.correlation.generation == Some(r.identity.workflowGeneration)
    && e.correlation.role == Some(r.identity.role) && e.correlation.execution == Some(r.Id())
    && e.correlation.commit.Some? && MayBeAt(p, r, e.correlation.commit.value)
  }

  /** The Git states that the comparison looks at are there. */
  predicate Comparable(p: Projector, r: Record) {
    r.observation.Some? ==> p.gitBefore(r).Some? && GitAfter(r).Some?
  }

  /** What the reader finds wrong with one stored event. */
  function Objection(p: Projector, e: Event, ledger: Ledger): Option<ReadError> {
    if e.kind != CodexExecution then None
    else if e.correlation.execution.None? then Some(UnboundEvent)
    else
      var r := ExecutionState.Find(ledger, e.correlation.execution.value);
      if r.None? then Some(UnboundEvent)
      else if !Comparable(p, r.value) then Some(IncompleteObservation)
      else if !MatchesRecord(p, e, r.value) then Some(UnboundEvent)
      else None
  }

  predicate BoundToLedger(p: Projector, e: Event, ledger: Ledger) {
    Objection(p, e, ledger).None?
  }

  /** The stored event tells of this record, at a commit where it may be; an observation has its Git states. */
  ghost predicate TellsOf(p: Projector, e: Event, r: Record) {
    && e.correlation.execution == Some(r.Id()) && e.correlation.mission == Some(r.identity.missionId)
    && e.correlation.generation == Some(r.identity.workflowGeneration) && e.correlation.role == Some(r.identity.role)
    && (|| e.correlation.commit == Some(r.identity.expectedCommit)
        || (r.observation.Some? && e.correlation.commit.Some?
            && exists git :: (p.gitBefore(r) == Some(git) || r.observation.value.gitAfter == Some(git)) && git.headCommit == e.correlation.commit))
    && (r.observation.Some? ==> p.gitBefore(r).Some? && r.observation.value.gitAfter.Some?)
  }

  /** A stored Codex event is accepted exactly when it tells of the record with its execution id; all other events are. */
  lemma BoundExactlyWhen(p: Projector, e: Event, ledger: Ledger)
    requires DistinctExecutions(ledger)
    ensures BoundToLedger(p, e, ledger) <==> e.kind != CodexExecution || exists r :: r in ledger && TellsOf(p, e, r)
  {
    if e.kind == CodexExecution && e.correlation.execution.Some? {
      var found := ExecutionState.Find(ledger, e.correlation.execution.value);
      forall r | r in ledger && r.Id() == e.correlation.execution.value
        ensures found == Some(r)
      {
        var k :| 0 <= k < |ledger| && ledger[k] == r;
        FindsItsRecord(ledger, k);
      }
      if found.Some? {
        MatchesMeansTells(p, e, found.value);
      }
      hide TellsOf;
      hide MatchesRecord;
      hide Comparable;
    }
  }

  lemma MatchesMeansTells(p: Projector, e: Event, r: Record)
    ensures Comparable(p, r) && MatchesRecord(p, e, r) && e.correlation.execution.Some? <==> TellsOf(p, e, r)
  {
  }

  /** A stored event gives way exactly to a projected one of the same project, mission, generation, role, execution and operation. */
  lemma RetainedExactlyWhen(e: Event, projected: seq<Event>)
    ensures Retained(e, projected) <==> e.kind == CodexExecution ==>
      forall other :: other in projected && other.correlation.execution == e.correlation.execution && other.operation == e.operation ==>
        (other.project, other.correlation.mission, other.correlation.generation, other.correlation.role)
        != (e.project, e.correlation.mission, e.correlation.generation, e.correlation.role)
  {
    assert forall i :: 0 <= i < |projected| ==> projected[i] in projected;
  }

  predicate Retained(e: Event, projected: seq<Event>) {
    e.kind != CodexExecution || !KeyProjected(e, projected)
  }

  /** The combined events, in the order of their keys. */
  function Combined(p: Projector, stored: seq<Event>, ledger: Ledger): seq<Event> {
    EventOrder();
    var projected := Projected(p, ledger);
    Sort(EventLeq, Filter(stored, e => Retained(e, projected)) + projected)
  }

  class Reader {
    const projector: Projector
    var snapshot: Option<seq<Event>>

    constructor (projector: Projector)
      ensures this.projector == projector && snapshot == None
    {
      this.projector := projector;
      snapshot := None;
    }

    /** `read`: what the sources say at the first call that succeeds, and the same ever after. */
    method Read(stored: seq<Event>, ledger: Ledger) returns (events: Result<seq<Event>, ReadError>)
      modifies this
      ensures old(snapshot).Some? ==> events == Ok(old(snapshot).value) && snapshot == old(snapshot)
      ensures old(snapshot).None? ==> snapshot == if events.Ok? then Some(events.value) else None
      ensures old(snapshot).None? ==>
        (events.Ok? <==> Projectable(projector, ledger) && forall i :: 0 <= i < |stored| ==> BoundToLedger(projector, stored[i], ledger))
      ensures old(snapshot).None? && events.Ok? ==> events.value == Combined(projector, stored, ledger)
      ensures events.Err? && Projectable(projector, ledger) ==>
        exists i :: 0 <= i < |stored| && Objection(projector, stored[i], ledger) == Some(events.error)
    {
      if snapshot.Some? {
        return Ok(snapshot.value);
      }
      var projected := ProjectTerminalEvents(projector, ledger);
      if projected.Err? {
        return projected;
      }
      var retained := Retain(stored, ledger, projected.value);
      if retained.Err? {
        return retained;
      }
      EventOrder();
      var combined := Sort(EventLeq, retained.value + projected.value);
      snapshot := Some(combined);
      events := Ok(combined);
    }

    /** The loop over the stored events. */
    method Retain(stored: seq<Event>, ledger: Ledger, projected: seq<Event>) returns (r: Result<seq<Event>, ReadError>)
      ensures r.Ok? <==> forall i :: 0 <= i < |stored| ==> BoundToLedger(projector, stored[i], ledger)
      ensures r.Ok? ==> r.value == Filter(stored, e => Retained(e, projected))
      ensures r.Err? ==> exists i :: 0 <= i < |stored| && Objection(projector, stored[i], ledger) == Some(r.error)
    {
      hide Objection;
      hide Retained;
      var retained: seq<Event> := [];
      for i := 0 to |stored|
        invariant retained == Filter(stored[..i], e => Retained(e, projected))
        invariant forall j :: 0 <= j < i ==> BoundToLedger(projector, stored[j], ledger)
      {
        FilterOneMore(stored, e => Retained(e, projected), i);
        var objection := Objection(projector, stored[i], ledger);
        if objection.Some? {
          return Err(objection.value);
        }
        if Retained(stored[i], projected) {
          retained := retained + [stored[i]];
        }
      }
      assert stored[..|stored|] == stored;
      r := Ok(retained);
    }
  }

  // ---------- counting ----------

  /** Counting projected events is counting records, by their starts and by their ends. */
  lemma {:induction false} CountProjected(p: Projector, ledger: Ledger, keep: Event -> bool, starts: Record -> bool, ends: Record -> bool)
    requires forall r :: starts(r) <==> Terminal(r) && keep(StartEvent(p, r))
    requires forall r :: ends(r) <==> Terminal(r) && keep(EndEvent(p, r))
    ensures Count(Projected(p, ledger), keep) == Count(ledger, starts) + Count(ledger, ends)
    decreases |ledger|
  {
    hide StartEvent;
    hide EndEvent;
    if ledger != [] {
      var n := |ledger| - 1;
      CountProjected(p, ledger[..n], keep, starts, ends);
      var before := Projected(p, ledger[..n]);
      assert ledger == ledger[..n] + [ledger[n]];
      CountOneMore(ledger[..n], ledger[n], starts);
      CountOneMore(ledger[..n], ledger[n], ends);
      if Terminal(ledger[n]) {
        var s, e := StartEvent(p, ledger[n]), EndEvent(p, ledger[n]);
        assert Projected(p, ledger) == (before + [s]) + [e];
        CountOneMore(before, s, keep);
        CountOneMore(before + [s], e, keep);
      } else {
        assert Projected(p, ledger) == before;
      }
    }
  }

  // ---------- the counters ----------

  /** The stored Codex events only repeat what the ledger projects. */
  predicate OnlyRestates(p: Projector, stored: seq<Event>, ledger: Ledger) {
    forall i | 0 <= i < |stored| :: stored[i].kind == CodexExecution ==> KeyProjected(stored[i], Projected(p, ledger))
  }

  /** Events that are combined from the stored and the projected ones, in any order. */
  ghost predicate Combines(p: Projector, stored: seq<Event>, ledger: Ledger, events: seq<Event>) {
    var projected := Projected(p, ledger);
    multiset(events) == multiset(Filter(stored, e => Retained(e, projected)) + projected)
  }

  /** A question about Codex events has the same answer for the combined events as for the projected ones. */
  lemma OnlyProjectedCount(p: Projector, stored: seq<Event>, ledger: Ledger, events: seq<Event>, keep: Event -> bool)
    requires OnlyRestates(p, stored, ledger) && Combines(p, stored, ledger, events) && forall e :: keep(e) ==> e.kind == CodexExecution
    ensures Count(events, keep) == Count(Projected(p, ledger), keep)
  {
    var projected := Projected(p, ledger);
    var retained := Filter(stored, e => Retained(e, projected));
    forall e | e in retained
      ensures !keep(e)
    {
      var i :| 0 <= i < |stored| && stored[i] == e;
    }
    CountPermutation(events, retained + projected, keep);
    CountConcat(retained, projected, keep);
    CountNone(retained, keep);
  }

  predicate RecordInScope(p: Projector, r: Record, scope: Scope) {
    Matches(StartEvent(p, r), scope)
  }

  /** The counter that counts records with a status. */
  function StatusCounter(status: ExecutionState.Status): Counter
    requires status.Validated? || status.Failed? || status.Interrupted?
  {
    match status case Validated => CodexCompleted case Failed => CodexFailed case Interrupted => CodexInterrupted
  }

  predicate CountsWithin(c: Counter, scope: Scope, e: Event) {
    Matches(e, scope) && Counts(c, e)
  }

  function CountedIn(c: Counter, scope: Scope): Event -> bool {
    e => CountsWithin(c, scope, e)
  }

  function Starting(p: Projector, c: Counter, scope: Scope): Record -> bool {
    r => Terminal(r) && CountsWithin(c, scope, StartEvent(p, r))
  }

  function Ending(p: Projector, c: Counter, scope: Scope): Record -> bool {
    r => Terminal(r) && CountsWithin(c, scope, EndEvent(p, r))
  }

  lemma CounterOfRecords(p: Projector, stored: seq<Event>, ledger: Ledger, events: seq<Event>, c: Counter, scope: Scope)
    requires OnlyRestates(p, stored, ledger) && Combines(p, stored, ledger, events)
    requires c in {CodexStarted, CodexCompleted, CodexFailed, CodexInterrupted, CodexTimeouts}
    ensures CounterValue(c, Filter(events, e => Matches(e, scope)))
         == Count(ledger, Starting(p, c, scope)) + Count(ledger, Ending(p, c, scope))
  {
    CountSelected(events, e => Matches(e, scope), e => Counts(c, e), CountedIn(c, scope));
    OnlyProjectedCount(p, stored, ledger, events, CountedIn(c, scope));
    CountProjected(p, ledger, CountedIn(c, scope), Starting(p, c, scope), Ending(p, c, scope));
  }

  function TerminalIn(p: Projector, scope: Scope): Record -> bool {
    r => Terminal(r) && RecordInScope(p, r, scope)
  }

  function StatusIn(p: Projector, status: ExecutionState.Status, scope: Scope): Record -> bool {
    (r: Record) => r.status == status && RecordInScope(p, r, scope)
  }

  /** What the two events of a record count for; both are in the same scopes. */
  lemma WhatRecordsCount(p: Projector, c: Counter, scope: Scope, r: Record)
    requires c in {CodexStarted, CodexCompleted, CodexFailed, CodexInterrupted}
    ensures Starting(p, c, scope)(r) <==> Terminal(r) && RecordInScope(p, r, scope) && c == CodexStarted
    ensures Ending(p, c, scope)(r) <==> Terminal(r) && RecordInScope(p, r, scope) && c != CodexStarted && c == StatusCounter(r.status)
  {
  }

  /** The started counter is the number of terminal records, however many copies of their events are stored. */
  lemma StartedCountsTerminals(p: Projector, stored: seq<Event>, ledger: Ledger, events: seq<Event>, scope: Scope)
    requires OnlyRestates(p, stored, ledger) && Combines(p, stored, ledger, events)
    ensures CounterValue(CodexStarted, Filter(events, e => Matches(e, scope))) == Count(ledger, TerminalIn(p, scope))
  {
    CounterOfRecords(p, stored, ledger, events, CodexStarted, scope);
    forall r
      ensures !Ending(p, CodexStarted, scope)(r)
      ensures Starting(p, CodexStarted, scope)(r) <==> TerminalIn(p, scope)(r)
    {
      WhatRecordsCount(p, CodexStarted, scope, r);
    }
    CountNone(ledger, Ending(p, CodexStarted, scope));
    CountSame(ledger, Starting(p, CodexStarted, scope), TerminalIn(p, scope));
  }

  lemma WhatStatusCounts(p: Projector, status: ExecutionState.Status, scope: Scope, r: Record)
    requires status.Validated? || status.Failed? || status.Interrupted?
    ensures !Starting(p, StatusCounter(status), scope)(r)
    ensures Ending(p, StatusCounter(status), scope)(r) <==> StatusIn(p, status, scope)(r)
  {
    WhatRecordsCount(p, StatusCounter(status), scope, r);
  }

  /** The counters of outcomes are the numbers of records with the statuses. */
  lemma OutcomesCountStatuses(p: Projector, stored: seq<Event>, ledger: Ledger, events: seq<Event>, scope: Scope, status: ExecutionState.Status)
    requires OnlyRestates(p, stored, ledger) && Combines(p, stored, ledger, events) && (status.Validated? || status.Failed? || status.Interrupted?)
    ensures CounterValue(StatusCounter(status), Filter(events, e => Matches(e, scope)))
         == Count(ledger, StatusIn(p, status, scope))
  {
    var c := StatusCounter(status);
    CounterOfRecords(p, stored, ledger, events, c, scope);
    forall r {
      WhatStatusCounts(p, status, scope, r);
    }
    hide Starting;
    hide Ending;
    hide StatusIn;
    hide CounterValue;
    hide Filter;
    hide Count;
    CountNone(ledger, Starting(p, c, scope));
    CountSame(ledger, Ending(p, c, scope), StatusIn(p, status, scope));
  }

  // ---------- the Codex lifecycle ----------

  ghost predicate DistinctExecutions(ledger: Ledger) {
    forall i, j :: 0 <= i < j < |ledger| ==> ledger[i].Id() != ledger[j].Id()
  }

  lemma {:induction false} CountUnique(ledger: Ledger, keep: Record -> bool, k: nat)
    requires DistinctExecutions(ledger) && k < |ledger| && keep(ledger[k])
    requires forall i :: 0 <= i < |ledger| && keep(ledger[i]) ==> ledger[i].Id() == ledger[k].Id()
    ensures Count(ledger, keep) == 1
    decreases |ledger|
  {
    var n := |ledger| - 1;
    var init := ledger[..n];
    assert ledger == init + [ledger[n]];
    assert forall i :: 0 <= i < n ==> init[i] == ledger[i];
    if k == n {
      CountNone(init, keep);
    } else {
      CountUnique(init, keep, k);
    }
  }

  /** Events of a lifecycle of a selection, with one of some operations. */
  predicate IsInLifecycle(scope: Scope, key: LifecycleKey, operations: set<Operation>, e: Event) {
    Matches(e, scope) && Relevant(CODEX_RULE, e) && KeyOf(ByExecution, e) == key && e.operation in operations
  }

  function InLifecycle(scope: Scope, key: LifecycleKey, operations: set<Operation>): Event -> bool {
    e => IsInLifecycle(scope, key, operations, e)
  }

  function RecordStarts(p: Projector, scope: Scope, key: LifecycleKey, operations: set<Operation>): Record -> bool {
    r => Terminal(r) && IsInLifecycle(scope, key, operations, StartEvent(p, r))
  }

  function RecordEnds(p: Projector, scope: Scope, key: LifecycleKey, operations: set<Operation>): Record -> bool {
    r => Terminal(r) && IsInLifecycle(scope, key, operations, EndEvent(p, r))
  }

  /** When a record's events are in a lifecycle: the execution id decides. */
  lemma WhatRecordsAreIn(p: Projector, scope: Scope, key: LifecycleKey, r: Record)
    requires Terminal(r)
    ensures Matches(StartEvent(p, r), scope) <==> Matches(EndEvent(p, r), scope)
    ensures KeyOf(ByExecution, StartEvent(p, r)) == KeyOf(ByExecution, EndEvent(p, r))
    ensures var inside := Matches(StartEvent(p, r), scope) && KeyOf(ByExecution, StartEvent(p, r)) == key;
      && (RecordStarts(p, scope, key, {Started})(r) <==> inside) && !RecordEnds(p, scope, key, {Started})(r)
      && (RecordEnds(p, scope, key, CODEX_RULE.terminals)(r) <==> inside) && !RecordStarts(p, scope, key, CODEX_RULE.terminals)(r)
    ensures KeyOf(ByExecution, StartEvent(p, r)) == key ==> key.execution == Some(r.Id())
  {
  }

  /** The lifecycle of a terminal record has exactly one start and exactly one end among the combined events. */
  lemma OneStartOneEnd(p: Projector, stored: seq<Event>, ledger: Ledger, events: seq<Event>, scope: Scope, k: nat)
    requires OnlyRestates(p, stored, ledger) && Combines(p, stored, ledger, events) && DistinctExecutions(ledger)
    requires k < |ledger| && Terminal(ledger[k]) && RecordInScope(p, ledger[k], scope)
    ensures var key := KeyOf(ByExecution, StartEvent(p, ledger[k]));
      && Count(events, InLifecycle(scope, key, {Started})) == 1
      && Count(events, InLifecycle(scope, key, CODEX_RULE.terminals)) == 1
  {
    var key := KeyOf(ByExecution, StartEvent(p, ledger[k]));
    OneRecord(p, ledger, scope, key, {Started}, k);
    OneRecord(p, ledger, scope, key, CODEX_RULE.terminals, k);
    OnlyProjectedCount(p, stored, ledger, events, InLifecycle(scope, key, {Started}));
    OnlyProjectedCount(p, stored, ledger, events, InLifecycle(scope, key, CODEX_RULE.terminals));
  }

  lemma OneRecord(p: Projector, ledger: Ledger, scope: Scope, key: LifecycleKey, operations: set<Operation>, k: nat)
    requires DistinctExecutions(ledger) && k < |ledger| && Terminal(ledger[k])
    requires operations == {Started} || operations == CODEX_RULE.terminals
    requires Matches(StartEvent(p, ledger[k]), scope) && KeyOf(ByExecution, StartEvent(p, ledger[k])) == key
    ensures Count(Projected(p, ledger), InLifecycle(scope, key, operations)) == 1
  {
    hide StartEvent;
    hide EndEvent;
    hide KeyOf;
    hide Matches;
    var starts, ends := RecordStarts(p, scope, key, operations), RecordEnds(p, scope, key, operations);
    CountProjected(p, ledger, InLifecycle(scope, key, operations), starts, ends);
    forall r | Terminal(r)
      ensures operations == {Started} ==> !ends(r) && (starts(r) ==> key.execution == Some(r.Id()))
      ensures operations != {Started} ==> !starts(r) && (ends(r) ==> key.execution == Some(r.Id()))
      ensures r == ledger[k] ==> if operations == {Started} then starts(r) else ends(r)
      ensures r == ledger[k] ==> key.execution == Some(r.Id())
    {
      WhatRecordsAreIn(p, scope, key, r);
    }
    if operations == {Started} {
      CountUnique(ledger, starts, k);
      CountNone(ledger, ends);
    } else {
      CountUnique(ledger, ends, k);
      CountNone(ledger, starts);
    }
  }

  /** The record that a combined Codex event is projected from. */
  lemma RecordBehind(p: Projector, stored: seq<Event>, ledger: Ledger, events: seq<Event>, e: Event) returns (k: nat)
    requires OnlyRestates(p, stored, ledger) && Combines(p, stored, ledger, events) && e in events && e.kind == CodexExecution
    ensures k < |ledger| && Terminal(ledger[k]) && (e == StartEvent(p, ledger[k]) || e == EndEvent(p, ledger[k]))
  {
    var projected := Projected(p, ledger);
    var retained := Filter(stored, x => Retained(x, projected));
    assert e in multiset(events);
    assert e in multiset(retained + projected);
    assert e in retained + projected;
    assert !(e in stored && Retained(e, projected));
    k := RecordOf(p, ledger, e);
  }

  lemma {:induction false} RecordOf(p: Projector, ledger: Ledger, e: Event) returns (k: nat)
    requires e in Projected(p, ledger)
    ensures k < |ledger| && Terminal(ledger[k]) && (e == StartEvent(p, ledger[k]) || e == EndEvent(p, ledger[k]))
    decreases |ledger|
  {
    hide StartEvent;
    hide EndEvent;
    var n := |ledger| - 1;
    if e in Projected(p, ledger[..n]) {
      k := RecordOf(p, ledger[..n], e);
    } else {
      k := n;
    }
  }

  /** The Codex lifecycle events in scope. */
  function Selection(events: seq<Event>, scope: Scope): seq<Event> {
    RelevantEvents(CODEX_RULE, Filter(events, e => Matches(e, scope)))
  }

  /** In a selection, the group of a key has as many events of some operations as the selection has. */
  lemma GroupCount(events: seq<Event>, scope: Scope, key: LifecycleKey, operations: set<Operation>, keep: Event -> bool)
    requires forall e :: keep(e) <==> e.operation in operations
    ensures Count(Group(ByExecution, Selection(events, scope), key), keep) == Count(events, InLifecycle(scope, key, operations))
  {
    hide Filter;
    hide KeyOf;
    hide Matches;
    hide Relevant;
    var selected := Filter(events, e => Matches(e, scope));
    var relevant := RelevantEvents(CODEX_RULE, selected);
    var inGroup := (e: Event) => KeyOf(ByExecution, e) == key && e.operation in operations;
    var inRelevant := (e: Event) => Relevant(CODEX_RULE, e) && KeyOf(ByExecution, e) == key && e.operation in operations;
    CountSelected(relevant, (e: Event) => KeyOf(ByExecution, e) == key, keep, inGroup);
    CountSelected(selected, e => Relevant(CODEX_RULE, e), inGroup, inRelevant);
    CountSelected(events, e => Matches(e, scope), inRelevant, InLifecycle(scope, key, operations));
  }

  /** Both events of every terminal record are among the combined ones. */
  lemma BothAreThere(p: Projector, stored: seq<Event>, ledger: Ledger, events: seq<Event>, k: nat)
    requires Combines(p, stored, ledger, events) && k < |ledger| && Terminal(ledger[k])
    ensures StartEvent(p, ledger[k]) in events && EndEvent(p, ledger[k]) in events
  {
    var projected := Projected(p, ledger);
    var retained := Filter(stored, e => Retained(e, projected));
    BothAreProjected(p, ledger, k);
    assert forall e :: e in events <==> e in multiset(events);
    assert forall e :: e in projected ==> e in retained + projected && e in multiset(retained + projected);
  }

  lemma {:induction false} BothAreProjected(p: Projector, ledger: Ledger, k: nat)
    requires k < |ledger| && Terminal(ledger[k])
    ensures StartEvent(p, ledger[k]) in Projected(p, ledger) && EndEvent(p, ledger[k]) in Projected(p, ledger)
    decreases |ledger|
  {
    hide StartEvent;
    hide EndEvent;
    var n := |ledger| - 1;
    if k < n {
      BothAreProjected(p, ledger[..n], k);
    } else {
      assert [StartEvent(p, ledger[k]), EndEvent(p, ledger[k])][0] == StartEvent(p, ledger[k]);
      assert [StartEvent(p, ledger[k]), EndEvent(p, ledger[k])][1] == EndEvent(p, ledger[k]);
    }
  }

  /** What a terminal record amounts to: it lasted, unless its end is dated before its start. */
  function RecordVerdict(p: Projector, r: Record): Verdict
    requires Terminal(r)
  {
    var start, end := StartEvent(p, r).at, EndEvent(p, r).at;
    if end < start then Bad(EndBeforeStart) else Lasted(end - start)
  }

  lemma InItsGroup(events: seq<Event>, scope: Scope, e: Event)
    requires e in events && Matches(e, scope) && Relevant(CODEX_RULE, e)
    ensures e in Group(ByExecution, Selection(events, scope), KeyOf(ByExecution, e))
  {
    hide KeyOf;
    hide Matches;
    hide Relevant;
  }

  lemma VerdictOfPair(group: seq<Event>, start: Event, end: Event)
    requires Filter(group, (e: Event) => e.operation == CODEX_RULE.start) == [start]
    requires Filter(group, (e: Event) => e.operation in CODEX_RULE.terminals) == [end]
    ensures VerdictOn(CODEX_RULE, group) == if end.at < start.at then Bad(EndBeforeStart) else Lasted(end.at - start.at)
  {
    hide Filter;
  }

  /** A lifecycle with one start and one end amounts to what they say. */
  lemma OneOfEach(p: Projector, events: seq<Event>, scope: Scope, r: Record)
    requires Terminal(r) && RecordInScope(p, r, scope) && StartEvent(p, r) in events && EndEvent(p, r) in events
    requires var key := KeyOf(ByExecution, StartEvent(p, r));
      Count(events, InLifecycle(scope, key, {Started})) == 1 && Count(events, InLifecycle(scope, key, CODEX_RULE.terminals)) == 1
    ensures VerdictOn(CODEX_RULE, Group(ByExecution, Selection(events, scope), KeyOf(ByExecution, StartEvent(p, r)))) == RecordVerdict(p, r)
  {
    var start, end := StartEvent(p, r), EndEvent(p, r);
    var key := KeyOf(ByExecution, start);
    WhatRecordsAreIn(p, scope, key, r);
    assert start.operation == CODEX_RULE.start && end.operation in CODEX_RULE.terminals;
    assert Relevant(CODEX_RULE, start) && Relevant(CODEX_RULE, end);
    PairOfGroup(events, scope, key, start, end);
  }

  lemma PairOfGroup(events: seq<Event>, scope: Scope, key: LifecycleKey, start: Event, end: Event)
    requires Count(events, InLifecycle(scope, key, {Started})) == 1 && Count(events, InLifecycle(scope, key, CODEX_RULE.terminals)) == 1
    requires start in events && Matches(start, scope) && Relevant(CODEX_RULE, start) && KeyOf(ByExecution, start) == key
    requires end in events && Matches(end, scope) && Relevant(CODEX_RULE, end) && KeyOf(ByExecution, end) == key
    requires start.operation == CODEX_RULE.start && end.operation in CODEX_RULE.terminals
    ensures VerdictOn(CODEX_RULE, Group(ByExecution, Selection(events, scope), key))
         == if end.at < start.at then Bad(EndBeforeStart) else Lasted(end.at - start.at)
  {
    hide Filter;
    hide Group;
    hide Selection;
    hide InLifecycle;
    hide Count;
    hide Matches;
    hide Relevant;
    hide KeyOf;
    hide VerdictOn;
    var group := Group(ByExecution, Selection(events, scope), key);
    InItsGroup(events, scope, start);
    InItsGroup(events, scope, end);
    GroupCount(events, scope, key, {Started}, (e: Event) => e.operation == CODEX_RULE.start);
    GroupCount(events, scope, key, CODEX_RULE.terminals, (e: Event) => e.operation in CODEX_RULE.terminals);
    OnlyMember(group, (e: Event) => e.operation == CODEX_RULE.start, start);
    OnlyMember(group, (e: Event) => e.operation in CODEX_RULE.terminals, end);
    VerdictOfPair(group, start, end);
  }

  lemma OnlyMember(group: seq<Event>, keep: Event -> bool, e: Event)
    requires Count(group, keep) == 1 && e in group && keep(e)
    ensures Filter(group, keep) == [e]
  {
    assert e in Filter(group, keep);
  }

  /** Every selected Codex lifecycle is that of a record, and amounts to what the record says. */
  lemma VerdictOfRecord(p: Projector, stored: seq<Event>, ledger: Ledger, events: seq<Event>, scope: Scope, k: nat)
    requires OnlyRestates(p, stored, ledger) && Combines(p, stored, ledger, events) && DistinctExecutions(ledger)
    requires k < |ledger| && Terminal(ledger[k]) && RecordInScope(p, ledger[k], scope)
    ensures VerdictOn(CODEX_RULE, Group(ByExecution, Selection(events, scope), KeyOf(ByExecution, StartEvent(p, ledger[k]))))
         == RecordVerdict(p, ledger[k])
  {
    hide *;
    OneStartOneEnd(p, stored, ledger, events, scope, k);
    BothAreThere(p, stored, ledger, events, k);
    OneOfEach(p, events, scope, ledger[k]);
  }

  lemma VerdictIsClosed(p: Projector, stored: seq<Event>, ledger: Ledger, events: seq<Event>, scope: Scope, e: Event)
    requires OnlyRestates(p, stored, ledger) && Combines(p, stored, ledger, events) && DistinctExecutions(ledger)
    requires e in Selection(events, scope)
    ensures var verdict := VerdictOn(CODEX_RULE, Group(ByExecution, Selection(events, scope), KeyOf(ByExecution, e)));
      verdict.Lasted? || verdict == Bad(EndBeforeStart)
  {
    var k := RecordBehind(p, stored, ledger, events, e);
    WhatRecordsAreIn(p, scope, KeyOf(ByExecution, e), ledger[k]);
    VerdictOfRecord(p, stored, ledger, events, scope, k);
  }

  /** The lifecycles among events that are diagnosed. */
  function Diagnosed(relevant: seq<Event>): LifecycleKey -> bool {
    key => VerdictOn(CODEX_RULE, Group(ByExecution, relevant, key)).Bad?
  }

  lemma {:induction false} ClosedGroups(events: seq<Event>, keys: seq<LifecycleKey>, count: nat)
    requires forall k :: k in keys ==>
      var verdict := VerdictOn(CODEX_RULE, Group(ByExecution, events, k)); verdict.Lasted? || verdict == Bad(EndBeforeStart)
    ensures var r := AddGroups(CODEX_RULE, LifecycleResult([], 0, count, []), events, keys);
      && r.active == 0 && (forall d :: d in r.diagnostics ==> d.code == EndBeforeStart)
      && |r.diagnostics| == Count(keys, Diagnosed(events)) && |r.durations| + |r.diagnostics| == |keys|
    decreases |keys|
  {
    hide VerdictOn;
    hide Group;
    hide Count;
    if keys != [] {
      var n := |keys| - 1;
      assert keys == keys[..n] + [keys[n]];
      ClosedGroups(events, keys[..n], count);
      CountOneMore(keys[..n], keys[n], Diagnosed(events));
    } else {
      CountNone(keys, Diagnosed(events));
    }
  }

  /** The record ended, in scope, before it started, as its observation has it. */
  function EndsEarly(p: Projector, scope: Scope): Record -> bool {
    r => Terminal(r) && RecordInScope(p, r, scope) && p.startedAt(r).Some? && p.endedAt(r) < p.startedAt(r).value
  }

  /** The start of one of some lifecycles. */
  predicate IsStart(which: LifecycleKey -> bool, scope: Scope, e: Event) {
    IsInLifecycle(scope, KeyOf(ByExecution, e), {Started}, e) && which(KeyOf(ByExecution, e))
  }

  function StartOf(which: LifecycleKey -> bool, scope: Scope): Event -> bool {
    e => IsStart(which, scope, e)
  }

  lemma DiagnosedMeansEarly(p: Projector, stored: seq<Event>, ledger: Ledger, events: seq<Event>, scope: Scope, k: nat)
    requires OnlyRestates(p, stored, ledger) && Combines(p, stored, ledger, events) && DistinctExecutions(ledger)
    requires k < |ledger| && (Terminal(ledger[k]) ==> Observed(p, ledger[k]))
    ensures Terminal(ledger[k]) && IsStart(Diagnosed(Selection(events, scope)), scope, StartEvent(p, ledger[k]))
      <==> EndsEarly(p, scope)(ledger[k])
  {
    var r := ledger[k];
    if Terminal(r) {
      WhatRecordsAreIn(p, scope, KeyOf(ByExecution, StartEvent(p, r)), r);
      if RecordInScope(p, r, scope) {
        VerdictOfRecord(p, stored, ledger, events, scope, k);
      }
    }
    hide OnlyRestates;
    hide Combines;
    hide DistinctExecutions;
    hide VerdictOn;
    hide Group;
    hide Selection;
  }

  /** Counting the starts of lifecycles is counting records by their starts. */
  lemma StartsAreRecords(p: Projector, stored: seq<Event>, ledger: Ledger, events: seq<Event>, scope: Scope, which: LifecycleKey -> bool,
                         records: Record -> bool)
    requires OnlyRestates(p, stored, ledger) && Combines(p, stored, ledger, events)
    requires forall r :: r in ledger ==> (Terminal(r) && IsStart(which, scope, StartEvent(p, r)) <==> records(r))
    ensures Count(events, StartOf(which, scope)) == Count(ledger, records)
  {
    var starts := (r: Record) => Terminal(r) && IsStart(which, scope, StartEvent(p, r));
    var ends := (r: Record) => Terminal(r) && IsStart(which, scope, EndEvent(p, r));
    assert forall e :: IsStart(which, scope, e) ==> e.kind == CodexExecution;
    forall r | r in ledger
      ensures !ends(r)
    {
    }
    hide *;
    OnlyProjectedCount(p, stored, ledger, events, StartOf(which, scope));
    CountProjected(p, ledger, StartOf(which, scope), starts, ends);
    CountNone(ledger, ends);
    CountSame(ledger, starts, records);
  }

  /** Each lifecycle has one start, which is counted or not. */
  lemma OneStartInGroup(p: Projector, stored: seq<Event>, ledger: Ledger, events: seq<Event>, scope: Scope, which: LifecycleKey -> bool, e: Event)
    requires OnlyRestates(p, stored, ledger) && Combines(p, stored, ledger, events) && DistinctExecutions(ledger)
    requires e in Selection(events, scope)
    ensures var key := KeyOf(ByExecution, e);
      |Filter(Group(ByExecution, Selection(events, scope), key), StartOf(which, scope))| == if which(key) then 1 else 0
  {
    var key := KeyOf(ByExecution, e);
    var k := RecordBehind(p, stored, ledger, events, e);
    WhatRecordsAreIn(p, scope, key, ledger[k]);
    OneStartOneEnd(p, stored, ledger, events, scope, k);
    GroupCount(events, scope, key, {Started}, (x: Event) => x.operation == CODEX_RULE.start);
    StartsOfGroup(events, scope, key, which);
  }

  lemma StartsOfGroup(events: seq<Event>, scope: Scope, key: LifecycleKey, which: LifecycleKey -> bool)
    requires Count(Group(ByExecution, Selection(events, scope), key), (x: Event) => x.operation == CODEX_RULE.start) == 1
    ensures Count(Group(ByExecution, Selection(events, scope), key), StartOf(which, scope)) == if which(key) then 1 else 0
  {
    var relevant := Selection(events, scope);
    var group := Group(ByExecution, relevant, key);
    forall x | x in group
      ensures StartOf(which, scope)(x) <==> x.operation == CODEX_RULE.start && which(key)
    {
      assert x in relevant;
    }
    hide *;
    if which(key) {
      CountSame(group, StartOf(which, scope), (x: Event) => x.operation == CODEX_RULE.start);
    } else {
      CountNone(group, StartOf(which, scope));
    }
  }

  /** There are as many of some lifecycles as starts of them. */
  lemma StartsCountLifecycles(p: Projector, stored: seq<Event>, ledger: Ledger, events: seq<Event>, scope: Scope, which: LifecycleKey -> bool)
    requires OnlyRestates(p, stored, ledger) && Combines(p, stored, ledger, events) && DistinctExecutions(ledger)
    ensures Count(Keys(ByExecution, Selection(events, scope)), which) == Count(events, StartOf(which, scope))
  {
    var relevant := Selection(events, scope);
    var keys := Keys(ByExecution, relevant);
    forall key | key in keys
      ensures |Filter(Group(ByExecution, relevant, key), StartOf(which, scope))| == if which(key) then 1 else 0
    {
      var i :| 0 <= i < |relevant| && KeyOf(ByExecution, relevant[i]) == key;
      OneStartInGroup(p, stored, ledger, events, scope, which, relevant[i]);
    }
    OnePerGroup(ByExecution, relevant, keys, StartOf(which, scope), which);
    SelectedCount(events, scope, which);
  }

  lemma SelectedCount(events: seq<Event>, scope: Scope, which: LifecycleKey -> bool)
    ensures Count(Selection(events, scope), StartOf(which, scope)) == Count(events, StartOf(which, scope))
  {
    hide Filter;
    var keep := StartOf(which, scope);
    CountSelected(Filter(events, e => Matches(e, scope)), e => Relevant(CODEX_RULE, e), keep, keep);
    CountSelected(events, e => Matches(e, scope), keep, keep);
  }

  /** There are as many diagnosed lifecycles as records that end before they start. */
  lemma DiagnosedAreEarly(p: Projector, stored: seq<Event>, ledger: Ledger, events: seq<Event>, scope: Scope)
    requires OnlyRestates(p, stored, ledger) && Combines(p, stored, ledger, events) && DistinctExecutions(ledger) && Projectable(p, ledger)
    ensures var relevant := Selection(events, scope);
      Count(Keys(ByExecution, relevant), Diagnosed(relevant)) == Count(ledger, EndsEarly(p, scope))
  {
    var which := Diagnosed(Selection(events, scope));
    assert forall k :: 0 <= k < |ledger| ==> Terminal(ledger[k]) ==> Observed(p, ledger[k]);
    hide *;
    forall r | r in ledger
      ensures Terminal(r) && IsStart(which, scope, StartEvent(p, r)) <==> EndsEarly(p, scope)(r)
    {
      var k :| 0 <= k < |ledger| && ledger[k] == r;
      DiagnosedMeansEarly(p, stored, ledger, events, scope, k);
    }
    StartsAreRecords(p, stored, ledger, events, scope, which, EndsEarly(p, scope));
    StartsCountLifecycles(p, stored, ledger, events, scope, which);
  }

  /** There are as many lifecycles as terminal records. */
  lemma LifecyclesAreRecords(p: Projector, stored: seq<Event>, ledger: Ledger, events: seq<Event>, scope: Scope)
    requires OnlyRestates(p, stored, ledger) && Combines(p, stored, ledger, events) && DistinctExecutions(ledger)
    ensures |Keys(ByExecution, Selection(events, scope))| == Count(ledger, TerminalIn(p, scope))
  {
    var which := (key: LifecycleKey) => true;
    forall r | r in ledger
      ensures Terminal(r) && IsStart(which, scope, StartEvent(p, r)) <==> TerminalIn(p, scope)(r)
    {
    }
    hide *;
    StartsAreRecords(p, stored, ledger, events, scope, which, TerminalIn(p, scope));
    StartsCountLifecycles(p, stored, ledger, events, scope, which);
    CountAll(Keys(ByExecution, Selection(events, scope)));
  }

  /**
    The Codex lifecycle shows no open, ambiguous or orphaned execution. It has a duration for every
    terminal record in scope, except for those that end before they start: these are what it diagnoses.
   */
  lemma CodexLifecycleIsClosed(p: Projector, stored: seq<Event>, ledger: Ledger, events: seq<Event>, scope: Scope)
    requires OnlyRestates(p, stored, ledger) && Combines(p, stored, ledger, events) && DistinctExecutions(ledger)
    ensures var r := Lifecycle(CODEX_RULE, Filter(events, e => Matches(e, scope)));
      && r.active == 0 && (forall d :: d in r.diagnostics ==> d.code == EndBeforeStart)
      && |r.durations| + |r.diagnostics| == Count(ledger, TerminalIn(p, scope))
      && (Projectable(p, ledger) ==> |r.diagnostics| == Count(ledger, EndsEarly(p, scope)))
  {
    var relevant := Selection(events, scope);
    var keys := Keys(ByExecution, relevant);
    forall key | key in keys
      ensures var verdict := VerdictOn(CODEX_RULE, Group(ByExecution, relevant, key)); verdict.Lasted? || verdict == Bad(EndBeforeStart)
    {
      var i :| 0 <= i < |relevant| && KeyOf(ByExecution, relevant[i]) == key;
      VerdictIsClosed(p, stored, ledger, events, scope, relevant[i]);
    }
    assert Lifecycle(CODEX_RULE, Filter(events, e => Matches(e, scope)))
        == AddGroups(CODEX_RULE, LifecycleResult([], 0, |relevant|, []), relevant, keys);
    hide *;
    ClosedGroups(relevant, keys, |relevant|);
    LifecyclesAreRecords(p, stored, ledger, events, scope);
    if Projectable(p, ledger) {
      DiagnosedAreEarly(p, stored, ledger, events, scope);
    }
  }

  /** Every duration is how long some terminal record in scope took, by its observation. */
  lemma DurationsAreRecords(p: Projector, stored: seq<Event>, ledger: Ledger, events: seq<Event>, scope: Scope, duration: int) returns (k: nat)
    requires OnlyRestates(p, stored, ledger) && Combines(p, stored, ledger, events) && DistinctExecutions(ledger) && Projectable(p, ledger)
    requires duration in Lifecycle(CODEX_RULE, Filter(events, e => Matches(e, scope))).durations
    ensures k < |ledger| && Terminal(ledger[k]) && RecordInScope(p, ledger[k], scope) && p.startedAt(ledger[k]).Some?
    ensures p.endedAt(ledger[k]) == p.startedAt(ledger[k]).value + duration
  {
    hide OnlyRestates;
    hide Combines;
    hide DistinctExecutions;
    hide StartEvent;
    hide EndEvent;
    hide RecordInScope;
    hide Observed;
    hide VerdictOn;
    hide Group;
    hide AddGroups;
    var relevant := Selection(events, scope);
    var key := LastedGroup(CODEX_RULE, relevant, Keys(ByExecution, relevant), |relevant|, duration);
    var i :| 0 <= i < |relevant| && KeyOf(ByExecution, relevant[i]) == key;
    assert relevant[i] in relevant;
    k := RecordOfSelected(p, stored, ledger, events, scope, relevant[i]);
    VerdictOfRecord(p, stored, ledger, events, scope, k);
    VerdictSpans(p, ledger, k, duration);
  }

  lemma VerdictSpans(p: Projector, ledger: Ledger, k: nat, duration: int)
    requires k < |ledger| && Projectable(p, ledger) && Terminal(ledger[k]) && RecordVerdict(p, ledger[k]) == Lasted(duration)
    ensures p.startedAt(ledger[k]).Some? && p.endedAt(ledger[k]) == p.startedAt(ledger[k]).value + duration
  {
    assert Observed(p, ledger[k]);
  }

  lemma RecordOfSelected(p: Projector, stored: seq<Event>, ledger: Ledger, events: seq<Event>, scope: Scope, e: Event) returns (k: nat)
    requires OnlyRestates(p, stored, ledger) && Combines(p, stored, ledger, events) && e in Selection(events, scope)
    ensures k < |ledger| && Terminal(ledger[k]) && RecordInScope(p, ledger[k], scope)
    ensures KeyOf(ByExecution, StartEvent(p, ledger[k])) == KeyOf(ByExecution, e)
  {
    k := RecordBehind(p, stored, ledger, events, e);
    WhatRecordsAreIn(p, scope, KeyOf(ByExecution, e), ledger[k]);
  }

  // ---------- what timed out ----------

  /** The execution was cut off for taking too long, and failed or was interrupted for it. */
  function TimedOutIn(p: Projector, scope: Scope): Record -> bool {
    (r: Record) => (r.status.Failed? || r.status.Interrupted?) && r.observation.Some? && r.observation.value.timedOut && RecordInScope(p, r, scope)
  }

  lemma WhatTimedOut(p: Projector, scope: Scope, r: Record)
    ensures !Starting(p, CodexTimeouts, scope)(r)
    ensures Ending(p, CodexTimeouts, scope)(r) <==> TimedOutIn(p, scope)(r)
  {
  }

  /** The timeout counter is the number of records in scope that timed out. */
  lemma TimeoutsCountRecords(p: Projector, stored: seq<Event>, ledger: Ledger, events: seq<Event>, scope: Scope)
    requires OnlyRestates(p, stored, ledger) && Combines(p, stored, ledger, events)
    ensures CounterValue(CodexTimeouts, Filter(events, e => Matches(e, scope))) == Count(ledger, TimedOutIn(p, scope))
  {
    CounterOfRecords(p, stored, ledger, events, CodexTimeouts, scope);
    forall r {
      WhatTimedOut(p, scope, r);
    }
    hide Starting;
    hide Ending;
    hide TimedOutIn;
    hide CounterValue;
    hide Filter;
    CountNone(ledger, Starting(p, CodexTimeouts, scope));
    CountSame(ledger, Ending(p, CodexTimeouts, scope), TimedOutIn(p, scope));
  }

  // ---------- the metrics say what the ledger says ----------

  /** The Codex part of a snapshot counts the terminal records in scope, and diagnoses those that end before they start. */
  ghost predicate AgreesWithLedger(p: Projector, ledger: Ledger, scope: Scope, s: Snapshot) {
    && (forall c: Counter :: c in s.counters) && s.counters[CodexStarted] == Count(ledger, TerminalIn(p, scope))
    && s.counters[CodexCompleted] == Count(ledger, StatusIn(p, ExecutionState.Validated, scope))
    && s.counters[CodexFailed] == Count(ledger, StatusIn(p, ExecutionState.Failed, scope))
    && s.counters[CodexInterrupted] == Count(ledger, StatusIn(p, ExecutionState.Interrupted, scope))
    && s.counters[CodexTimeouts] == Count(ledger, TimedOutIn(p, scope))
    && s.codex.active == 0 && (forall d :: d in s.codex.diagnostics ==> d.code == EndBeforeStart)
    && |s.codex.durations| + |s.codex.diagnostics| == Count(ledger, TerminalIn(p, scope))
    && (Projectable(p, ledger) ==> |s.codex.diagnostics| == Count(ledger, EndsEarly(p, scope)))
  }

  /** Main result: the Codex metrics of the combined events agree with the ledger. */
  lemma CodexMetricsAgreeWithLedger(p: Projector, stored: seq<Event>, ledger: Ledger, scope: Scope)
    requires OnlyRestates(p, stored, ledger) && DistinctExecutions(ledger)
    ensures AgreesWithLedger(p, ledger, scope, SnapshotOf(Selected(Combined(p, stored, ledger), scope)))
  {
    EventOrder();
    var events := Sort(EventLeq, Combined(p, stored, ledger));
    StartedCountsTerminals(p, stored, ledger, events, scope);
    OutcomesCountStatuses(p, stored, ledger, events, scope, ExecutionState.Validated);
    OutcomesCountStatuses(p, stored, ledger, events, scope, ExecutionState.Failed);
    OutcomesCountStatuses(p, stored, ledger, events, scope, ExecutionState.Interrupted);
    TimeoutsCountRecords(p, stored, ledger, events, scope);
    CodexLifecycleIsClosed(p, stored, ledger, events, scope);
  }

  /** What `compute_from_store` makes of the events that it has read. */
  ghost predicate ComputedFrom(events: seq<Event>, exhausted: bool, scope: Scope, r: Outcome) {
    if exhausted then r == Saturated
    else if Accepted(events, scope.project) then r == Computed(SnapshotOf(Selected(events, scope)))
    else r.Incomplete?
  }

  /** `compute_from_store`, over the reader. `exhausted` is the answer of the retention probe. */
  method ComputeFromStore(reader: Reader, stored: seq<Event>, ledger: Ledger, exhausted: bool, scope: Scope) returns (r: Outcome)
    modifies reader
    ensures r.Unavailable? <==> reader.snapshot.None?
    ensures reader.snapshot.Some? ==> ComputedFrom(reader.snapshot.value, exhausted, scope, r)
    ensures old(reader.snapshot).Some? ==> reader.snapshot == old(reader.snapshot)
    ensures old(reader.snapshot).None? ==>
      (r.Unavailable? <==> !Projectable(reader.projector, ledger) || exists i :: 0 <= i < |stored| && !BoundToLedger(reader.projector, stored[i], ledger))
    ensures old(reader.snapshot).None? && r.Computed? && OnlyRestates(reader.projector, stored, ledger) && DistinctExecutions(ledger) ==>
      AgreesWithLedger(reader.projector, ledger, scope, r.snapshot)
  {
    hide Combined;
    hide BoundToLedger;
    hide AgreesWithLedger;
    var before := reader.snapshot;
    var events := reader.Read(stored, ledger);
    if events.Err? {
      return Unavailable;
    }
    if exhausted {
      return Saturated;
    }
    r := Compute(events.value, scope, true);
    if before.None? && OnlyRestates(reader.projector, stored, ledger) && DistinctExecutions(ledger) {
      CodexMetricsAgreeWithLedger(reader.projector, stored, ledger, scope);
    }
  }

  // ---------- reading back what was projected ----------

  /** Everything the projection emits passes the check that stored Codex events must pass. */
  lemma ProjectedEventsAreAccepted(p: Projector, ledger: Ledger, e: Event)
    requires DistinctExecutions(ledger) && Projectable(p, ledger) && e in Projected(p, ledger)
    ensures BoundToLedger(p, e, ledger)
  {
    var k := RecordOf(p, ledger, e);
    FindsItsRecord(ledger, k);
    hide ExecutionState.Find;
    hide DistinctExecutions;
    assert Observed(p, ledger[k]);
    hide Projectable;
    hide Projected;
  }

  lemma {:induction false} FindsItsRecord(ledger: Ledger, k: nat)
    requires DistinctExecutions(ledger) && k < |ledger|
    ensures ExecutionState.Find(ledger, ledger[k].Id()) == Some(ledger[k])
  {
    if k > 0 {
      assert forall i :: 0 <= i < |ledger[1..]| ==> ledger[1..][i] == ledger[i + 1];
      FindsItsRecord(ledger[1..], k - 1);
    }
  }

  lemma {:induction false} FilterCounts(events: seq<Event>, keep: Event -> bool, x: Event)
    ensures multiset(Filter(events, keep))[x] == if keep(x) then multiset(events)[x] else 0
    decreases |events|
  {
    if events != [] {
      var n := |events| - 1;
      assert events == events[..n] + [events[n]];
      FilterCounts(events[..n], keep, x);
    }
  }

  lemma ProjectedIsNotRetained(p: Projector, ledger: Ledger, e: Event)
    requires e in Projected(p, ledger)
    ensures !Retained(e, Projected(p, ledger))
  {
    var k := RecordOf(p, ledger, e);
    var projected := Projected(p, ledger);
    var i :| 0 <= i < |projected| && projected[i] == e;
    assert ProjectionKey(projected[i]) == ProjectionKey(e);
  }

  /** Reading what was read before, over the same ledger, changes nothing: no event is lost and none is counted twice. */
  lemma ReadingBackChangesNothing(p: Projector, stored: seq<Event>, ledger: Ledger)
    requires DistinctIds(Combined(p, stored, ledger))
    ensures Combined(p, Combined(p, stored, ledger), ledger) == Combined(p, stored, ledger)
  {
    EventOrder();
    var once, projected := Combined(p, stored, ledger), Projected(p, ledger);
    var keep := (e: Event) => Retained(e, projected);
    var again := Filter(once, keep) + projected;
    SameEventsAgain(p, stored, ledger);
    IdsIdentify(once);
    SortIgnoresInputOrder(EventLeq, once, again);
    SortIgnoresInputOrder(EventLeq, once, Filter(stored, keep) + projected);
    SortedUnique(EventLeq, once, Sort(EventLeq, once));
  }

  lemma SameEventsAgain(p: Projector, stored: seq<Event>, ledger: Ledger)
    ensures var once, projected := Combined(p, stored, ledger), Projected(p, ledger);
      multiset(Filter(once, e => Retained(e, projected)) + projected) == multiset(once)
  {
    EventOrder();
    var once, projected := Combined(p, stored, ledger), Projected(p, ledger);
    var keep := (e: Event) => Retained(e, projected);
    forall x
      ensures multiset(Filter(once, keep) + projected)[x] == multiset(once)[x]
    {
      FilterCounts(once, keep, x);
      FilterCounts(stored, keep, x);
      if x in projected {
        ProjectedIsNotRetained(p, ledger, x);
      }
    }
  }
}
