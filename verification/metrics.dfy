/** Metrics over operational events: `metrics_engine.py`. */
module Metrics {
  import opened Wrappers
  import opened Ordering

  datatype Kind =
    | MissionLifecycle | RoleExecution | CodexExecution | RemediationRecovery | HumanWaiting | WorktreeLifecycle
    | MergeOperation | PersistenceFailure | AdoptionMigration | IntegrationGate | OtherKind

  datatype Operation =
    | Started | Finished | Failed | Interrupted | Blocked | Requested | WaitingStarted | WaitingFinished
    | Created | Completed | Cleaned | ConflictObserved | ReadFailed | WriteFailed | CorruptionObserved | Refused
    | RecoveryRequired | RecoveryInspected | OtherOperation(text: string)

  datatype Correlation = Correlation(mission: Option<string>, generation: Option<nat>, story: Option<string>, role: Option<string>,
                                     execution: Option<string>, assignment: Option<string>, commit: Option<string>)

  datatype GateOutcome = GatePass | GateFail | GateUnknown | OtherOutcome

  datatype Event = Event(id: string, kind: Kind, at: int, project: string, correlation: Correlation, operation: Operation,
                         outcome: GateOutcome, timedOut: bool)

  datatype Scope = Scope(project: string, mission: Option<string>, generation: Option<nat>, story: Option<string>,
                         role: Option<string>, execution: Option<string>)

  // ---------- the order of events ----------

  function Rank(e: Event): int {
    if e.operation == Started then 0 else 1
  }

  /** The order of `_event_order_key`. */
  predicate EventLeq(a: Event, b: Event) {
    if a.at != b.at then a.at < b.at
    else if Rank(a) != Rank(b) then Rank(a) < Rank(b)
    else StringLeq(a.id, b.id)
  }

  lemma EventOrder()
    ensures KeyOrder(EventLeq)
  {
    StringOrder();
  }

  predicate DistinctIds(events: seq<Event>) {
    forall i, j | 0 <= i < j < |events| :: events[i].id != events[j].id
  }

  /** Events with distinct ids have distinct keys. */
  lemma IdsIdentify(events: seq<Event>)
    requires DistinctIds(events)
    ensures KeysIdentify(EventLeq, events)
  {
    StringOrder();
    forall x, y | x in events && y in events && EventLeq(x, y) && EventLeq(y, x)
      ensures x == y
    {
      assert x.id == y.id;
      var i :| 0 <= i < |events| && events[i] == x;
      var j :| 0 <= j < |events| && events[j] == y;
    }
  }

  // ---------- _validate_corpus ----------

  const MAX_SOURCE_EVENTS: int := 10000
  const MAX_CARDINALITY: int := 1024

  datatype Dimension = MissionDimension | StoryDimension | ExecutionDimension | AssignmentDimension

  function DimensionOf(d: Dimension, e: Event): Option<string> {
    match d
    case MissionDimension => e.correlation.mission
    case StoryDimension => e.correlation.story
    case ExecutionDimension => e.correlation.execution
    case AssignmentDimension => e.correlation.assignment
  }

  function ValuesOf(d: Dimension, events: seq<Event>): set<string> {
    set i | 0 <= i < |events| && DimensionOf(d, events[i]).Some? :: DimensionOf(d, events[i]).value
  }

  /** What a corpus must be like, whatever the order of its events. */
  predicate Accepted(events: seq<Event>, project: string) {
    && |events| <= MAX_SOURCE_EVENTS && DistinctIds(events)
    && (forall i | 0 <= i < |events| :: events[i].project == project)
    && (forall d: Dimension :: |ValuesOf(d, events)| <= MAX_CARDINALITY)
  }

  datatype Refusal = CardinalityLimitExceeded | DuplicateEventId | CrossProjectEvent

  lemma FourPlaces()
    ensures forall d: Dimension :: Place(d) < 4
    ensures forall d, e: Dimension :: Place(d) == Place(e) ==> d == e
  {
  }

  type Dimensions = map<Dimension, set<string>>

  function Place(d: Dimension): nat {
    match d case MissionDimension => 0 case StoryDimension => 1 case ExecutionDimension => 2 case AssignmentDimension => 3
  }

  function DimensionAt(i: nat): (d: Dimension)
    ensures i < 4 ==> Place(d) == i
  {
    if i == 0 then MissionDimension else if i == 1 then StoryDimension else if i == 2 then ExecutionDimension else AssignmentDimension
  }

  /** The state of the scan after some events. */
  ghost predicate Scanned(events: seq<Event>, k: nat, project: string, ids: set<string>, dimensions: Dimensions)
    requires k <= |events|
  {
    && (forall id :: id in ids <==> exists i :: 0 <= i < k && events[i].id == id)
    && DistinctIds(events[..k]) && (forall i :: 0 <= i < k ==> events[i].project == project)
    && forall d: Dimension :: d in dimensions && dimensions[d] == ValuesOf(d, events[..k]) && |dimensions[d]| <= MAX_CARDINALITY
  }

  /** `_validate_corpus`: the first reason to refuse, if there is one. */
  method ValidateCorpus(events: seq<Event>, project: string) returns (refusal: Option<Refusal>)
    ensures refusal.None? <==> Accepted(events, project)
    ensures refusal == Some(DuplicateEventId) ==> !DistinctIds(events)
    ensures refusal == Some(CrossProjectEvent) ==> exists i :: 0 <= i < |events| && events[i].project != project
    ensures refusal == Some(CardinalityLimitExceeded) ==> |events| > MAX_SOURCE_EVENTS || exists d: Dimension :: |ValuesOf(d, events)| > MAX_CARDINALITY
  {
    if |events| > MAX_SOURCE_EVENTS {
      return Some(CardinalityLimitExceeded);
    }
    var ids: set<string> := {};
    var dimensions: Dimensions := map[MissionDimension := {}, StoryDimension := {}, ExecutionDimension := {}, AssignmentDimension := {}];
    forall d: Dimension
      ensures d in dimensions && dimensions[d] == {}
    {
      match d
      case MissionDimension =>
      case StoryDimension =>
      case ExecutionDimension =>
      case AssignmentDimension =>
    }
    for k := 0 to |events|
      invariant Scanned(events, k, project, ids, dimensions)
    {
      hide DistinctIds;
      hide ValuesOf;
      var e := events[k];
      if e.id in ids {
        RepeatedId(events, k);
        return Some(DuplicateEventId);
      }
      NewId(events, k);
      if e.project != project {
        return Some(CrossProjectEvent);
      }
      forall d: Dimension
        ensures ValuesOf(d, events[..k + 1]) == Noted(dimensions[d], DimensionOf(d, e))
        ensures |ValuesOf(d, events[..k + 1])| <= |ValuesOf(d, events)|
      {
        OneValueMore(d, events, k);
      }
      var overflow: bool;
      dimensions, overflow := NoteDimensions(dimensions, e);
      if overflow {
        return Some(CardinalityLimitExceeded);
      }
      ids := ids + {e.id};
    }
    assert events[..|events|] == events;
    refusal := None;
  }

  /** The loop over the dimensions of one event. */
  method NoteDimensions(before: Dimensions, e: Event) returns (dimensions: Dimensions, overflow: bool)
    requires forall d: Dimension :: d in before && |before[d]| <= MAX_CARDINALITY
    ensures !overflow ==> forall d: Dimension ::
      d in dimensions && dimensions[d] == Noted(before[d], DimensionOf(d, e)) && |dimensions[d]| <= MAX_CARDINALITY
    ensures overflow ==> exists d: Dimension :: |Noted(before[d], DimensionOf(d, e))| > MAX_CARDINALITY
  {
    hide Noted;
    hide DimensionOf;
    hide Place;
    hide DimensionAt;
    FourPlaces();
    dimensions := before;
    for i := 0 to 4
      invariant forall d: Dimension :: d in dimensions && |dimensions[d]| <= MAX_CARDINALITY
      invariant forall d: Dimension :: dimensions[d] == if Place(d) < i then Noted(before[d], DimensionOf(d, e)) else before[d]
    {
      var d := DimensionAt(i);
      dimensions := dimensions[d := Noted(dimensions[d], DimensionOf(d, e))];
      if |dimensions[d]| > MAX_CARDINALITY {
        return dimensions, true;
      }
    }
    overflow := false;
  }

  function Noted(values: set<string>, value: Option<string>): set<string> {
    if value.Some? then values + {value.value} else values
  }

  lemma RepeatedId(events: seq<Event>, k: nat)
    requires k < |events| && exists i :: 0 <= i < k && events[i].id == events[k].id
    ensures !DistinctIds(events)
  {
  }

  lemma NewId(events: seq<Event>, k: nat)
    requires k < |events| && DistinctIds(events[..k]) && forall i :: 0 <= i < k ==> events[i].id != events[k].id
    ensures DistinctIds(events[..k + 1])
  {
    var longer := events[..k + 1];
    forall i, j | 0 <= i < j < |longer|
      ensures longer[i].id != longer[j].id
    {
      if j < k {
        assert events[..k][i].id != events[..k][j].id;
      }
    }
  }

  lemma OneValueMore(d: Dimension, events: seq<Event>, k: nat)
    requires k < |events|
    ensures ValuesOf(d, events[..k + 1]) == Noted(ValuesOf(d, events[..k]), DimensionOf(d, events[k]))
    ensures |ValuesOf(d, events[..k + 1])| <= |ValuesOf(d, events)|
  {
    var shorter, longer := events[..k], events[..k + 1];
    forall v
      ensures v in ValuesOf(d, longer) <==> v in Noted(ValuesOf(d, shorter), DimensionOf(d, events[k]))
    {
      if v in ValuesOf(d, longer) {
        var i :| 0 <= i < |longer| && DimensionOf(d, longer[i]) == Some(v);
        if i < k {
          assert shorter[i] == longer[i];
        }
      }
      if i :| 0 <= i < |shorter| && DimensionOf(d, shorter[i]) == Some(v) {
        assert longer[i] == shorter[i];
      }
      if DimensionOf(d, events[k]) == Some(v) {
        assert longer[k] == events[k];
      }
    }
    forall v | v in ValuesOf(d, longer)
      ensures v in ValuesOf(d, events)
    {
      var i :| 0 <= i < |longer| && DimensionOf(d, longer[i]) == Some(v);
      assert events[i] == longer[i];
    }
    SubsetCardinality(ValuesOf(d, longer), ValuesOf(d, events));
  }

  // ---------- acceptance does not depend on the order ----------

  lemma DistinctIdsAsMembers(events: seq<Event>)
    ensures DistinctIds(events) <==> Distinct(events) && forall x, y :: x in events && y in events && x.id == y.id ==> x == y
  {
    if DistinctIds(events) {
      forall x, y | x in events && y in events && x.id == y.id
        ensures x == y
      {
        var i :| 0 <= i < |events| && events[i] == x;
        var j :| 0 <= j < |events| && events[j] == y;
      }
    }
  }

  /** Whether a corpus is accepted does not depend on the order of its events. */
  lemma AcceptanceIgnoresOrder(a: seq<Event>, b: seq<Event>, project: string)
    requires multiset(a) == multiset(b)
    ensures Accepted(a, project) <==> Accepted(b, project)
  {
    assert |a| == |multiset(a)| == |multiset(b)| == |b|;
    assert forall e :: e in a <==> e in multiset(a);
    assert forall e :: e in b <==> e in multiset(b);
    DistinctIdsAsMembers(a);
    DistinctIdsAsMembers(b);
    if Distinct(a) {
      DistinctPermutation(a, b);
    }
    if Distinct(b) {
      DistinctPermutation(b, a);
    }
    forall d: Dimension
      ensures ValuesOf(d, a) == ValuesOf(d, b)
    {
      SameValues(d, a, b);
      SameValues(d, b, a);
    }
    ProjectsAsMembers(a, project);
    ProjectsAsMembers(b, project);
  }

  lemma ProjectsAsMembers(events: seq<Event>, project: string)
    ensures (forall i :: 0 <= i < |events| ==> events[i].project == project) <==> forall e :: e in events ==> e.project == project
  {
  }

  lemma SameValues(d: Dimension, a: seq<Event>, b: seq<Event>)
    requires forall e :: e in a ==> e in b
    ensures ValuesOf(d, a) <= ValuesOf(d, b)
  {
    forall v | v in ValuesOf(d, a)
      ensures v in ValuesOf(d, b)
    {
      var i :| 0 <= i < |a| && DimensionOf(d, a[i]) == Some(v);
      assert a[i] in b;
      var j :| 0 <= j < |b| && b[j] == a[i];
    }
  }

  // ---------- selection and counting ----------

  /** `_matches_scope`. */
  predicate Matches(e: Event, scope: Scope) {
    && e.project == scope.project
    && (scope.mission.None? || e.correlation.mission == scope.mission)
    && (scope.generation.None? || e.correlation.generation == scope.generation)
    && (scope.story.None? || e.correlation.story == scope.story)
    && (scope.role.None? || e.correlation.role == scope.role)
    && (scope.execution.None? || e.correlation.execution == scope.execution)
  }

  function Filter<T(!new)>(items: seq<T>, keep: T -> bool): (r: seq<T>)
    ensures |r| <= |items| && forall x :: x in r <==> x in items && keep(x)
  {
    if items == [] then []
    else
      var n := |items| - 1;
      assert items == items[..n] + [items[n]];
      Filter(items[..n], keep) + if keep(items[n]) then [items[n]] else []
  }

  lemma FilterOneMore<T(!new)>(items: seq<T>, keep: T -> bool, i: nat)
    requires i < |items|
    ensures Filter(items[..i + 1], keep) == Filter(items[..i], keep) + if keep(items[i]) then [items[i]] else []
  {
    assert items[..i + 1][..i] == items[..i];
  }

  // ---------- counting ----------

  function Count<T(!new)>(items: seq<T>, keep: T -> bool): nat {
    |Filter(items, keep)|
  }

  lemma CountOneMore<T(!new)>(items: seq<T>, x: T, keep: T -> bool)
    ensures Count(items + [x], keep) == Count(items, keep) + if keep(x) then 1 else 0
  {
    assert (items + [x])[..|items|] == items;
  }

  lemma {:induction false} CountConcat<T(!new)>(a: seq<T>, b: seq<T>, keep: T -> bool)
    ensures Count(a + b, keep) == Count(a, keep) + Count(b, keep)
    decreases |b|
  {
    hide *;
    if b == [] {
      CountNone(b, keep);
      assert a + b == a;
    } else {
      var n := |b| - 1;
      CountConcat(a, b[..n], keep);
      assert a + b == (a + b[..n]) + [b[n]] && b == b[..n] + [b[n]];
      CountOneMore(a + b[..n], b[n], keep);
      CountOneMore(b[..n], b[n], keep);
    }
  }

  /** Counting does not depend on the order. */
  lemma {:induction false} CountPermutation<T(!new)>(a: seq<T>, b: seq<T>, keep: T -> bool)
    requires multiset(a) == multiset(b)
    ensures Count(a, keep) == Count(b, keep)
    decreases |a|
  {
    if a == [] {
      assert |multiset(b)| == 0;
    } else {
      var n := |a| - 1;
      assert a == a[..n] + [a[n]];
      assert a[n] in multiset(b);
      var j :| 0 <= j < |b| && b[j] == a[n];
      assert b == b[..j] + [b[j]] + b[j + 1..];
      var rest := b[..j] + b[j + 1..];
      assert multiset(a[..n]) == multiset(a) - multiset{a[n]} == multiset(rest);
      CountPermutation(a[..n], rest, keep);
      CountOneMore(a[..n], a[n], keep);
      CountOneMore(b[..j], b[j], keep);
      CountConcat(b[..j] + [b[j]], b[j + 1..], keep);
      CountConcat(b[..j], b[j + 1..], keep);
    }
  }

  /** Counting among the selected is counting what is selected and counted. */
  lemma {:induction false} CountSelected<T(!new)>(items: seq<T>, select: T -> bool, keep: T -> bool, both: T -> bool)
    requires forall x :: both(x) <==> select(x) && keep(x)
    ensures Count(Filter(items, select), keep) == Count(items, both)
    decreases |items|
  {
    if items != [] {
      var n := |items| - 1;
      CountSelected(items[..n], select, keep, both);
      assert items == items[..n] + [items[n]];
      CountOneMore(items[..n], items[n], both);
      if select(items[n]) {
        CountOneMore(Filter(items[..n], select), items[n], keep);
      } else {
        assert Filter(items, select) == Filter(items[..n], select);
      }
    }
  }

  lemma {:induction false} CountNone<T(!new)>(items: seq<T>, keep: T -> bool)
    requires forall x :: x in items ==> !keep(x)
    ensures Count(items, keep) == 0
    decreases |items|
  {
    if items != [] {
      var n := |items| - 1;
      assert items == items[..n] + [items[n]];
      CountNone(items[..n], keep);
    }
  }

  lemma {:induction false} CountSame<T(!new)>(items: seq<T>, a: T -> bool, b: T -> bool)
    requires forall x :: x in items ==> (a(x) <==> b(x))
    ensures Count(items, a) == Count(items, b)
    decreases |items|
  {
    if items != [] {
      var n := |items| - 1;
      assert items == items[..n] + [items[n]];
      CountSame(items[..n], a, b);
    }
  }

  /** Two questions that exclude each other count apart. */
  lemma {:induction false} CountEither<T(!new)>(items: seq<T>, either: T -> bool, a: T -> bool, b: T -> bool)
    requires forall x :: x in items ==> (either(x) <==> a(x) || b(x)) && !(a(x) && b(x))
    ensures Count(items, either) == Count(items, a) + Count(items, b)
    decreases |items|
  {
    if items != [] {
      var n := |items| - 1;
      assert items == items[..n] + [items[n]];
      CountEither(items[..n], either, a, b);
      CountOneMore(items[..n], items[n], either);
      CountOneMore(items[..n], items[n], a);
      CountOneMore(items[..n], items[n], b);
    }
  }

  lemma {:induction false} CountAll<T(!new)>(items: seq<T>)
    ensures Count(items, x => true) == |items|
    decreases |items|
  {
    if items != [] {
      CountAll(items[..|items| - 1]);
    }
  }

  /** Two selections can be made in either order. */
  lemma {:induction false} FiltersCommute<T(!new)>(items: seq<T>, a: T -> bool, b: T -> bool)
    ensures Filter(Filter(items, a), b) == Filter(Filter(items, b), a)
    decreases |items|
  {
    if items != [] {
      var n := |items| - 1;
      var x := items[n];
      FiltersCommute(items[..n], a, b);
      FilterAppend(Filter(items[..n], a), x, b);
      FilterAppend(Filter(items[..n], b), x, a);
      assert Filter(items[..n], a) + [] == Filter(items[..n], a) && Filter(items[..n], b) + [] == Filter(items[..n], b);
    }
  }

  lemma FilterAppend<T(!new)>(items: seq<T>, x: T, keep: T -> bool)
    ensures Filter(items + [x], keep) == Filter(items, keep) + if keep(x) then [x] else []
  {
    assert (items + [x])[..|items|] == items;
  }

  datatype Counter =
    | MissionsStarted | MissionsCompleted | MissionsBlocked | RolesStarted | RolesCompleted | RolesFailed
    | CodexStarted | CodexCompleted | CodexFailed | CodexInterrupted | RemediationsRequested | HumanWaitsStarted
    | WorktreesCreated | WorktreesCompleted | WorktreesFailed | MergesSucceeded | MergesFailed | PersistenceFailures
    | AdoptionsSucceeded | AdoptionsFailed | AdoptionsRefused | CodexTimeouts | RecoveriesObserved

  /** `_COUNTER_RULES`, with the two counters that have rules of their own. */
  predicate Counts(c: Counter, e: Event) {
    match c
    case MissionsStarted => e.kind == MissionLifecycle && e.operation == Started
    case MissionsCompleted => e.kind == MissionLifecycle && e.operation == Finished
    case MissionsBlocked => e.kind == MissionLifecycle && e.operation == Blocked
    case RolesStarted => e.kind == RoleExecution && e.operation == Started
    case RolesCompleted => e.kind == RoleExecution && e.operation == Finished
    case RolesFailed => e.kind == RoleExecution && e.operation == Failed
    case CodexStarted => e.kind == CodexExecution && e.operation == Started
    case CodexCompleted => e.kind == CodexExecution && e.operation == Finished
    case CodexFailed => e.kind == CodexExecution && e.operation == Failed
    case CodexInterrupted => e.kind == CodexExecution && e.operation == Interrupted
    case RemediationsRequested => e.kind == RemediationRecovery && e.operation == Requested
    case HumanWaitsStarted => e.kind == HumanWaiting && e.operation == WaitingStarted
    case WorktreesCreated => e.kind == WorktreeLifecycle && e.operation == Created
    case WorktreesCompleted => e.kind == WorktreeLifecycle && e.operation == Completed
    case WorktreesFailed => e.kind == WorktreeLifecycle && e.operation == Failed
    case MergesSucceeded => e.kind == MergeOperation && e.operation == Finished
    case MergesFailed => e.kind == MergeOperation && e.operation in {Failed, ConflictObserved}
    case PersistenceFailures => e.kind == PersistenceFailure && e.operation in {ReadFailed, WriteFailed, CorruptionObserved}
    case AdoptionsSucceeded => e.kind == AdoptionMigration && e.operation == Finished
    case AdoptionsFailed => e.kind == AdoptionMigration && e.operation == Failed
    case AdoptionsRefused => e.kind == AdoptionMigration && e.operation == Refused
    case CodexTimeouts => e.kind == CodexExecution && e.operation in {Failed, Interrupted} && e.timedOut
    case RecoveriesObserved =>
      (e.kind == RemediationRecovery && e.operation == RecoveryRequired) || (e.kind == CodexExecution && e.operation == RecoveryInspected)
  }

  function CounterValue(c: Counter, events: seq<Event>): nat {
    |Filter(events, e => Counts(c, e))|
  }

  // ---------- lifecycles ----------

  datatype LifecycleKey = LifecycleKey(mission: Option<string>, generation: Option<nat>, story: Option<string>, role: Option<string>,
                                       execution: Option<string>, assignment: Option<string>)

  datatype Grouping = ByExecution | ByStory | ByAssignment

  /** `_role_key`, `_codex_key`, `_human_wait_key`, `_worktree_key`. */
  function KeyOf(grouping: Grouping, e: Event): LifecycleKey {
    var c := e.correlation;
    match grouping
    case ByExecution => LifecycleKey(c.mission, c.generation, c.story, c.role, c.execution, None)
    case ByStory => LifecycleKey(c.mission, c.generation, c.story, None, None, None)
    case ByAssignment => LifecycleKey(c.mission, c.generation, c.story, None, None, c.assignment)
  }

  datatype Rule = Rule(kind: Kind, start: Operation, terminals: set<Operation>, grouping: Grouping, openIsDiagnostic: bool)

  predicate ValidRule(rule: Rule) {
    rule.start !in rule.terminals
  }

  const ROLE_RULE: Rule := Rule(RoleExecution, Started, {Finished, Failed}, ByExecution, true)
  const CODEX_RULE: Rule := Rule(CodexExecution, Started, {Finished, Failed, Interrupted}, ByExecution, true)
  const HUMAN_RULE: Rule := Rule(HumanWaiting, WaitingStarted, {WaitingFinished}, ByStory, true)
  const WORKTREE_RULE: Rule := Rule(WorktreeLifecycle, Created, {Completed, Failed, Cleaned}, ByAssignment, false)

  predicate Relevant(rule: Rule, e: Event) {
    e.kind == rule.kind && (e.operation == rule.start || e.operation in rule.terminals)
  }

  datatype Code = TerminalWithoutStart | AmbiguousLifecycle | OpenLifecycle | EndBeforeStart
  datatype Diagnostic = Diagnostic(code: Code, ids: seq<string>)

  datatype LifecycleResult = LifecycleResult(durations: seq<int>, active: nat, sourceCount: nat, diagnostics: seq<Diagnostic>)

  /** What one group of events amounts to. */
  datatype Verdict = Lasted(duration: int) | Open | Bad(code: Code) | Nothing

  function VerdictOn(rule: Rule, group: seq<Event>): Verdict {
    var starts := Filter(group, (e: Event) => e.operation == rule.start);
    var terminals := Filter(group, (e: Event) => e.operation in rule.terminals);
    if starts == [] && terminals != [] then Bad(TerminalWithoutStart)
    else if |starts| > 1 || |terminals| > 1 then Bad(AmbiguousLifecycle)
    else if |starts| == 1 && terminals == [] then Open
    else if |starts| == 1 && |terminals| == 1 then
      if terminals[0].at < starts[0].at then Bad(EndBeforeStart) else Lasted(terminals[0].at - starts[0].at)
    else Nothing
  }

  function FirstIds(group: seq<Event>): seq<string> {
    seq(if |group| < 4 then |group| else 4, i requires 0 <= i < |group| => group[i].id)
  }

  /** What is added to the result for one group. */
  function AddGroup(rule: Rule, r: LifecycleResult, group: seq<Event>): LifecycleResult {
    match VerdictOn(rule, group)
    case Lasted(d) => r.(durations := r.durations + [d])
    case Open =>
      r.(active := r.active + 1,
         diagnostics := r.diagnostics + if rule.openIsDiagnostic then [Diagnostic(OpenLifecycle, FirstIds(group))] else [])
    case Bad(code) => r.(diagnostics := r.diagnostics + [Diagnostic(code, FirstIds(group))])
    case Nothing => r
  }

  /** The keys of events, in the order of their first occurrence: the order of a dictionary. */
  function Keys(grouping: Grouping, events: seq<Event>): (r: seq<LifecycleKey>)
    ensures forall k :: k in r <==> exists i :: 0 <= i < |events| && KeyOf(grouping, events[i]) == k
    ensures Distinct(r)
  {
    if events == [] then []
    else
      var n := |events| - 1;
      var before, key := Keys(grouping, events[..n]), KeyOf(grouping, events[n]);
      assert forall i :: 0 <= i < n ==> events[..n][i] == events[i];
      if key in before then before else before + [key]
  }

  function Group(grouping: Grouping, events: seq<Event>, key: LifecycleKey): seq<Event> {
    Filter(events, (e: Event) => KeyOf(grouping, e) == key)
  }

  lemma GroupOneMore(grouping: Grouping, events: seq<Event>, i: nat, key: LifecycleKey)
    requires i < |events|
    ensures Group(grouping, events[..i + 1], key) == Group(grouping, events[..i], key) + if KeyOf(grouping, events[i]) == key then [events[i]] else []
  {
    hide KeyOf;
    FilterOneMore(events, (e: Event) => KeyOf(grouping, e) == key, i);
  }

  function AddGroups(rule: Rule, r: LifecycleResult, events: seq<Event>, keys: seq<LifecycleKey>): LifecycleResult {
    if keys == [] then r
    else
      var n := |keys| - 1;
      AddGroup(rule, AddGroups(rule, r, events, keys[..n]), Group(rule.grouping, events, keys[n]))
  }

  function RelevantEvents(rule: Rule, events: seq<Event>): seq<Event> {
    Filter(events, e => Relevant(rule, e))
  }

  /** `_lifecycle`. */
  function Lifecycle(rule: Rule, events: seq<Event>): LifecycleResult {
    var relevant := RelevantEvents(rule, events);
    AddGroups(rule, LifecycleResult([], 0, |relevant|, []), relevant, Keys(rule.grouping, relevant))
  }

  lemma KeysOneMore(grouping: Grouping, events: seq<Event>, i: nat)
    requires i < |events|
    ensures var before, key := Keys(grouping, events[..i]), KeyOf(grouping, events[i]);
      Keys(grouping, events[..i + 1]) == if key in before then before else before + [key]
  {
    assert events[..i + 1][..i] == events[..i];
  }

  /** `_lifecycle`, with its dictionary of groups. */
  method ComputeLifecycle(rule: Rule, events: seq<Event>) returns (result: LifecycleResult)
    ensures result == Lifecycle(rule, events)
  {
    hide Keys;
    hide Filter;
    var relevant := RelevantEvents(rule, events);
    var order, groups := GroupEvents(rule.grouping, relevant);
    result := LifecycleResult([], 0, |relevant|, []);
    ghost var empty := result;
    for k := 0 to |order|
      invariant result == AddGroups(rule, empty, relevant, order[..k])
    {
      assert order[..k + 1][..k] == order[..k];
      result := AddGroup(rule, result, groups[order[k]]);
    }
    assert order[..|order|] == order;
  }

  lemma NoGroups(grouping: Grouping, events: seq<Event>)
    ensures Keys(grouping, events[..0]) == [] && forall k :: Group(grouping, events[..0], k) == []
  {
  }

  method GroupEvents(grouping: Grouping, events: seq<Event>) returns (order: seq<LifecycleKey>, groups: map<LifecycleKey, seq<Event>>)
    ensures order == Keys(grouping, events) && groups.Keys == Elements(order)
    ensures forall key :: key in groups ==> groups[key] == Group(grouping, events, key)
  {
    hide Distinct;
    hide Group;
    hide Keys;
    hide KeyOf;
    order, groups := [], map[];
    NoGroups(grouping, events);
    for i := 0 to |events|
      invariant order == Keys(grouping, events[..i]) && forall key :: key in groups <==> key in order
      invariant forall key :: key in groups ==> groups[key] == Group(grouping, events[..i], key)
      invariant forall key :: key !in groups ==> Group(grouping, events[..i], key) == []
    {
      var key := KeyOf(grouping, events[i]);
      KeysOneMore(grouping, events, i);
      forall k: LifecycleKey
        ensures Group(grouping, events[..i + 1], k) == Group(grouping, events[..i], k) + if key == k then [events[i]] else []
      {
        GroupOneMore(grouping, events, i, k);
      }
      if key in groups {
        groups := groups[key := groups[key] + [events[i]]];
      } else {
        order := order + [key];
        groups := groups[key := [events[i]]];
      }
    }
    assert events[..|events|] == events;
  }

  // ---------- the lifecycle pass is a partition ----------

  function SumSizes(grouping: Grouping, events: seq<Event>, keys: seq<LifecycleKey>): nat {
    if keys == [] then 0
    else SumSizes(grouping, events, keys[..|keys| - 1]) + |Group(grouping, events, keys[|keys| - 1])|
  }

  function NotOpen(diagnostics: seq<Diagnostic>): nat {
    |Filter(diagnostics, (d: Diagnostic) => d.code != OpenLifecycle)|
  }

  lemma NotOpenAppend(diagnostics: seq<Diagnostic>, d: Diagnostic)
    ensures NotOpen(diagnostics + [d]) == NotOpen(diagnostics) + if d.code != OpenLifecycle then 1 else 0
  {
    assert (diagnostics + [d])[..|diagnostics|] == diagnostics;
  }

  /** A group that is not empty is a duration, an open lifecycle, or a diagnostic other than open. */
  lemma GroupCounts(rule: Rule, group: seq<Event>)
    requires ValidRule(rule) && group != [] && forall e :: e in group ==> Relevant(rule, e)
    ensures VerdictOn(rule, group) != Nothing && VerdictOn(rule, group) != Bad(OpenLifecycle)
    ensures VerdictOn(rule, group).Lasted? ==> VerdictOn(rule, group).duration >= 0
  {
    var starts := Filter(group, (e: Event) => e.operation == rule.start);
    var terminals := Filter(group, (e: Event) => e.operation in rule.terminals);
    assert group[0] in group;
    assert group[0] in starts || group[0] in terminals;
  }

  lemma {:induction false} GroupsPartition(rule: Rule, events: seq<Event>, keys: seq<LifecycleKey>, count: nat)
    requires ValidRule(rule) && forall e :: e in events ==> Relevant(rule, e)
    requires forall k :: k in keys ==> Group(rule.grouping, events, k) != []
    ensures var r := AddGroups(rule, LifecycleResult([], 0, count, []), events, keys);
      && |keys| == |r.durations| + r.active + NotOpen(r.diagnostics)
      && r.sourceCount == count
      && forall i :: 0 <= i < |r.durations| ==> r.durations[i] >= 0
    decreases |keys|
  {
    hide Filter;
    if keys != [] {
      var n := |keys| - 1;
      assert keys == keys[..n] + [keys[n]];
      GroupsPartition(rule, events, keys[..n], count);
      var before := AddGroups(rule, LifecycleResult([], 0, count, []), events, keys[..n]);
      var group := Group(rule.grouping, events, keys[n]);
      GroupCounts(rule, group);
      OneGroupMore(rule, before, group);
    }
  }

  lemma OneGroupMore(rule: Rule, before: LifecycleResult, group: seq<Event>)
    requires VerdictOn(rule, group) != Nothing && VerdictOn(rule, group) != Bad(OpenLifecycle)
    requires VerdictOn(rule, group).Lasted? ==> VerdictOn(rule, group).duration >= 0
    requires forall i :: 0 <= i < |before.durations| ==> before.durations[i] >= 0
    ensures var r := AddGroup(rule, before, group);
      && |r.durations| + r.active + NotOpen(r.diagnostics) == |before.durations| + before.active + NotOpen(before.diagnostics) + 1
      && r.sourceCount == before.sourceCount
      && forall i :: 0 <= i < |r.durations| ==> r.durations[i] >= 0
  {
    hide VerdictOn;
    hide NotOpen;
    var verdict := VerdictOn(rule, group);
    if verdict.Open? {
      assert before.diagnostics + [] == before.diagnostics;
      NotOpenAppend(before.diagnostics, Diagnostic(OpenLifecycle, FirstIds(group)));
    } else if verdict.Bad? {
      NotOpenAppend(before.diagnostics, Diagnostic(verdict.code, FirstIds(group)));
    }
  }

  /** One event more is in exactly one of the groups. */
  lemma {:induction false} SizesAddUp(grouping: Grouping, events: seq<Event>, keys: seq<LifecycleKey>, i: nat)
    requires i < |events| && Distinct(keys)
    ensures SumSizes(grouping, events[..i + 1], keys) == SumSizes(grouping, events[..i], keys) + if KeyOf(grouping, events[i]) in keys then 1 else 0
    decreases |keys|
  {
    if keys != [] {
      var n := |keys| - 1;
      assert keys == keys[..n] + [keys[n]];
      SizesAddUp(grouping, events, keys[..n], i);
      GroupOneMore(grouping, events, i, keys[n]);
    }
  }

  lemma {:induction false} NothingToSum(grouping: Grouping, keys: seq<LifecycleKey>)
    ensures SumSizes(grouping, [], keys) == 0
    decreases |keys|
  {
    if keys != [] {
      NothingToSum(grouping, keys[..|keys| - 1]);
    }
  }

  lemma {:induction false} SizesSumToPrefix(grouping: Grouping, events: seq<Event>, keys: seq<LifecycleKey>, k: nat)
    requires k <= |events| && Distinct(keys) && forall i :: 0 <= i < |events| ==> KeyOf(grouping, events[i]) in keys
    ensures SumSizes(grouping, events[..k], keys) == k
  {
    hide *;
    if k == 0 {
      NothingToSum(grouping, keys);
      assert events[..0] == [];
    } else {
      SizesSumToPrefix(grouping, events, keys, k - 1);
      SizesAddUp(grouping, events, keys, k - 1);
    }
  }

  lemma KeysHaveGroups(grouping: Grouping, events: seq<Event>)
    ensures forall k :: k in Keys(grouping, events) ==> Group(grouping, events, k) != []
  {
    forall k | k in Keys(grouping, events)
      ensures Group(grouping, events, k) != []
    {
      var i :| 0 <= i < |events| && KeyOf(grouping, events[i]) == k;
      assert events[i] in Group(grouping, events, k);
    }
  }

  /** The lifecycle pass accounts for every group and every event exactly once. */
  lemma LifecyclePartitions(rule: Rule, events: seq<Event>)
    requires ValidRule(rule)
    ensures var relevant, r := RelevantEvents(rule, events), Lifecycle(rule, events);
      && |Keys(rule.grouping, relevant)| == |r.durations| + r.active + NotOpen(r.diagnostics)
      && SumSizes(rule.grouping, relevant, Keys(rule.grouping, relevant)) == |relevant| == r.sourceCount
      && forall i :: 0 <= i < |r.durations| ==> r.durations[i] >= 0
  {
    var relevant := RelevantEvents(rule, events);
    var keys := Keys(rule.grouping, relevant);
    KeysHaveGroups(rule.grouping, relevant);
    GroupsPartition(rule, relevant, keys, |relevant|);
    SizesSumToPrefix(rule.grouping, relevant, keys, |relevant|);
    assert relevant[..|relevant|] == relevant;
  }

  // ---------- what a duration spans ----------

  /** A start and an end of one lifecycle, the only ones it has, and the time between them. */
  ghost predicate Spans(rule: Rule, events: seq<Event>, start: Event, end: Event, duration: int) {
    && start in events && end in events && start.kind == rule.kind && end.kind == rule.kind
    && start.operation == rule.start && end.operation in rule.terminals
    && KeyOf(rule.grouping, start) == KeyOf(rule.grouping, end) && start.at + duration == end.at
    && (forall e :: e in events && e.kind == rule.kind && KeyOf(rule.grouping, e) == KeyOf(rule.grouping, start) ==>
          (e.operation == rule.start ==> e == start) && (e.operation in rule.terminals ==> e == end))
  }

  /** Every duration is the time from the one start of a lifecycle to its one end. */
  lemma DurationsSpan(rule: Rule, events: seq<Event>, duration: int) returns (start: Event, end: Event)
    requires duration in Lifecycle(rule, events).durations
    ensures Spans(rule, events, start, end, duration)
  {
    var relevant := RelevantEvents(rule, events);
    var key := LastedGroup(rule, relevant, Keys(rule.grouping, relevant), |relevant|, duration);
    start, end := SpanOfGroup(rule, events, key, duration);
  }

  /** The group that a duration comes from. */
  lemma {:induction false} LastedGroup(rule: Rule, events: seq<Event>, keys: seq<LifecycleKey>, count: nat, duration: int) returns (key: LifecycleKey)
    requires duration in AddGroups(rule, LifecycleResult([], 0, count, []), events, keys).durations
    ensures key in keys && VerdictOn(rule, Group(rule.grouping, events, key)) == Lasted(duration)
    decreases |keys|
  {
    hide VerdictOn;
    hide Group;
    var n := |keys| - 1;
    assert keys == keys[..n] + [keys[n]];
    if duration in AddGroups(rule, LifecycleResult([], 0, count, []), events, keys[..n]).durations {
      key := LastedGroup(rule, events, keys[..n], count, duration);
    } else {
      key := keys[n];
    }
  }

  lemma SpanOfGroup(rule: Rule, events: seq<Event>, key: LifecycleKey, duration: int) returns (start: Event, end: Event)
    requires VerdictOn(rule, Group(rule.grouping, RelevantEvents(rule, events), key)) == Lasted(duration)
    ensures Spans(rule, events, start, end, duration)
  {
    hide KeyOf;
    var group := Group(rule.grouping, RelevantEvents(rule, events), key);
    var starts := Filter(group, (e: Event) => e.operation == rule.start);
    var terminals := Filter(group, (e: Event) => e.operation in rule.terminals);
    start, end := starts[0], terminals[0];
    assert start in starts && end in terminals;
    assert starts == [start] && terminals == [end];
    forall e | e in events && e.kind == rule.kind && KeyOf(rule.grouping, e) == key
      ensures (e.operation == rule.start ==> e == start) && (e.operation in rule.terminals ==> e == end)
    {
      if e.operation == rule.start || e.operation in rule.terminals {
        assert e in RelevantEvents(rule, events) && e in group;
        assert e.operation == rule.start ==> e in starts;
        assert e.operation in rule.terminals ==> e in terminals;
      }
    }
  }

  // ---------- closed lifecycles balance ----------

  function Starts(rule: Rule): Event -> bool {
    (e: Event) => e.operation == rule.start
  }

  function Ends(rule: Rule): Event -> bool {
    (e: Event) => e.operation in rule.terminals
  }

  /** Where nothing is open and nothing is diagnosed, every group has lasted. */
  lemma {:induction false} ClosedGroupsLasted(rule: Rule, events: seq<Event>, keys: seq<LifecycleKey>, count: nat, key: LifecycleKey)
    requires ValidRule(rule) && forall e :: e in events ==> Relevant(rule, e)
    requires forall k :: k in keys ==> Group(rule.grouping, events, k) != []
    requires var r := AddGroups(rule, LifecycleResult([], 0, count, []), events, keys); r.active == 0 && r.diagnostics == []
    requires key in keys
    ensures VerdictOn(rule, Group(rule.grouping, events, key)).Lasted?
    decreases |keys|
  {
    hide VerdictOn;
    hide Relevant;
    var n := |keys| - 1;
    assert keys == keys[..n] + [keys[n]];
    GroupIsRelevant(rule, events, keys[n]);
    GroupCounts(rule, Group(rule.grouping, events, keys[n]));
    if key != keys[n] {
      ClosedGroupsLasted(rule, events, keys[..n], count, key);
    }
  }

  lemma GroupIsRelevant(rule: Rule, events: seq<Event>, key: LifecycleKey)
    requires forall e :: e in events ==> Relevant(rule, e)
    ensures forall e :: e in Group(rule.grouping, events, key) ==> Relevant(rule, e)
  {
    hide Relevant;
  }

  lemma KeptKeys(grouping: Grouping, events: seq<Event>, keys: seq<LifecycleKey>, kept: seq<Event>)
    requires forall i :: 0 <= i < |events| ==> KeyOf(grouping, events[i]) in keys
    requires forall e :: e in kept ==> e in events
    ensures forall i :: 0 <= i < |kept| ==> KeyOf(grouping, kept[i]) in keys
  {
    hide KeyOf;
    forall i | 0 <= i < |kept|
      ensures KeyOf(grouping, kept[i]) in keys
    {
      assert kept[i] in kept;
      var j :| 0 <= j < |events| && events[j] == kept[i];
    }
  }

  lemma KeptGroup(grouping: Grouping, events: seq<Event>, key: LifecycleKey, keep: Event -> bool)
    ensures Group(grouping, Filter(events, keep), key) == Filter(Group(grouping, events, key), keep)
  {
    FiltersCommute(events, keep, (e: Event) => KeyOf(grouping, e) == key);
  }

  /** If some of the groups each hold one event that is asked for, and the others none, there are as many such events as such groups. */
  lemma OnePerGroup(grouping: Grouping, events: seq<Event>, keys: seq<LifecycleKey>, keep: Event -> bool, which: LifecycleKey -> bool)
    requires Distinct(keys) && forall i :: 0 <= i < |events| ==> KeyOf(grouping, events[i]) in keys
    requires forall k :: k in keys ==> |Filter(Group(grouping, events, k), keep)| == if which(k) then 1 else 0
    ensures |Filter(events, keep)| == Count(keys, which)
  {
    KeptKeys(grouping, events, keys, Filter(events, keep));
    KeptSizes(grouping, events, keys, keep, which);
    hide *;
    OneOrNone(grouping, Filter(events, keep), keys, which);
  }

  lemma OneOrNone(grouping: Grouping, events: seq<Event>, keys: seq<LifecycleKey>, which: LifecycleKey -> bool)
    requires Distinct(keys) && forall i :: 0 <= i < |events| ==> KeyOf(grouping, events[i]) in keys
    requires forall k :: k in keys ==> |Group(grouping, events, k)| == if which(k) then 1 else 0
    ensures |events| == Count(keys, which)
  {
    hide *;
    SizesOfOne(grouping, events, keys, which);
    SizesSumToPrefix(grouping, events, keys, |events|);
    assert events[..|events|] == events;
  }

  lemma KeptSizes(grouping: Grouping, events: seq<Event>, keys: seq<LifecycleKey>, keep: Event -> bool, which: LifecycleKey -> bool)
    requires forall k :: k in keys ==> |Filter(Group(grouping, events, k), keep)| == if which(k) then 1 else 0
    ensures forall k :: k in keys ==> |Group(grouping, Filter(events, keep), k)| == if which(k) then 1 else 0
  {
    hide *;
    forall k | k in keys
      ensures |Group(grouping, Filter(events, keep), k)| == if which(k) then 1 else 0
    {
      KeptGroup(grouping, events, k, keep);
    }
  }

  lemma {:induction false} SizesOfOne(grouping: Grouping, events: seq<Event>, keys: seq<LifecycleKey>, which: LifecycleKey -> bool)
    requires forall k :: k in keys ==> |Group(grouping, events, k)| == if which(k) then 1 else 0
    ensures SumSizes(grouping, events, keys) == Count(keys, which)
    decreases |keys|
  {
    hide Group;
    if keys != [] {
      var n := |keys| - 1;
      assert keys == keys[..n] + [keys[n]];
      SizesOfOne(grouping, events, keys[..n], which);
      CountOneMore(keys[..n], keys[n], which);
    }
  }

  /** In a lifecycle that shows nothing open and nothing to diagnose, starts, ends and durations are equally many. */
  lemma ClosedLifecyclesBalance(rule: Rule, events: seq<Event>)
    requires ValidRule(rule) && Lifecycle(rule, events).active == 0 && Lifecycle(rule, events).diagnostics == []
    ensures var relevant := RelevantEvents(rule, events);
      |Filter(relevant, Starts(rule))| == |Filter(relevant, Ends(rule))| == |Lifecycle(rule, events).durations|
  {
    var relevant := RelevantEvents(rule, events);
    var keys := Keys(rule.grouping, relevant);
    LifecyclePartitions(rule, events);
    KeysHaveGroups(rule.grouping, relevant);
    ClosedGroupsHaveBoth(rule, relevant, keys);
    hide *;
    OnePerGroup(rule.grouping, relevant, keys, Starts(rule), k => true);
    OnePerGroup(rule.grouping, relevant, keys, Ends(rule), k => true);
    CountAll(keys);
  }

  lemma ClosedGroupsHaveBoth(rule: Rule, events: seq<Event>, keys: seq<LifecycleKey>)
    requires ValidRule(rule) && forall e :: e in events ==> Relevant(rule, e)
    requires forall k :: k in keys ==> Group(rule.grouping, events, k) != []
    requires var r := AddGroups(rule, LifecycleResult([], 0, |events|, []), events, keys); r.active == 0 && r.diagnostics == []
    ensures forall k :: k in keys ==>
      |Filter(Group(rule.grouping, events, k), Starts(rule))| == 1 && |Filter(Group(rule.grouping, events, k), Ends(rule))| == 1
  {
    hide *;
    forall k | k in keys
      ensures |Filter(Group(rule.grouping, events, k), Starts(rule))| == 1 && |Filter(Group(rule.grouping, events, k), Ends(rule))| == 1
    {
      ClosedGroupsLasted(rule, events, keys, |events|, k);
      LastedHasBoth(rule, Group(rule.grouping, events, k));
    }
  }

  lemma LastedHasBoth(rule: Rule, group: seq<Event>)
    requires VerdictOn(rule, group).Lasted?
    ensures |Filter(group, Starts(rule))| == 1 && |Filter(group, Ends(rule))| == 1
  {
    assert Count(group, Starts(rule)) == Count(group, (e: Event) => e.operation == rule.start) by {
      CountSame(group, Starts(rule), (e: Event) => e.operation == rule.start);
    }
    assert Count(group, Ends(rule)) == Count(group, (e: Event) => e.operation in rule.terminals) by {
      CountSame(group, Ends(rule), (e: Event) => e.operation in rule.terminals);
    }
  }

  // ---------- the duration summary ----------

  datatype Summary = Summary(count: nat, total: int, least: int, greatest: int)

  function Total(durations: seq<int>): int {
    if durations == [] then 0 else Total(durations[..|durations| - 1]) + durations[|durations| - 1]
  }

  /** The values of `_duration_sample`. */
  method Summarize(durations: seq<int>) returns (s: Summary)
    requires durations != []
    ensures s.count == |durations| && s.total == Total(durations)
    ensures s.least in durations && s.greatest in durations
    ensures forall i :: 0 <= i < |durations| ==> s.least <= durations[i] <= s.greatest
    ensures s.count * s.least <= s.total <= s.count * s.greatest
  {
    var total, least, greatest := durations[0], durations[0], durations[0];
    assert durations[..1] == [durations[0]];
    for k := 1 to |durations|
      invariant total == Total(durations[..k]) && least in durations && greatest in durations
      invariant forall i :: 0 <= i < k ==> least <= durations[i] <= greatest
    {
      assert durations[..k + 1][..k] == durations[..k];
      total := total + durations[k];
      if durations[k] < least {
        least := durations[k];
      }
      if durations[k] > greatest {
        greatest := durations[k];
      }
    }
    assert durations[..|durations|] == durations;
    TotalIsBounded(durations, least, greatest);
    s := Summary(|durations|, total, least, greatest);
  }

  lemma {:induction false} TotalIsBounded(durations: seq<int>, least: int, greatest: int)
    requires forall i :: 0 <= i < |durations| ==> least <= durations[i] <= greatest
    ensures |durations| * least <= Total(durations) <= |durations| * greatest
    decreases |durations|
  {
    if durations != [] {
      var n := |durations| - 1;
      TotalIsBounded(durations[..n], least, greatest);
      assert n * least + least == (n + 1) * least && n * greatest + greatest == (n + 1) * greatest;
    }
  }

  // ---------- the snapshot ----------

  datatype Snapshot = Snapshot(counters: map<Counter, nat>, gates: Option<(nat, nat, nat)>, role: LifecycleResult, codex: LifecycleResult,
                               human: LifecycleResult, worktree: LifecycleResult, count: nat, first: Option<string>, last: Option<string>)

  function Gates(events: seq<Event>): Option<(nat, nat, nat)> {
    var gates := Filter(events, (e: Event) => e.kind == IntegrationGate);
    if Filter(gates, (e: Event) => e.outcome == OtherOutcome) != [] then None
    else Some((|Filter(gates, (e: Event) => e.outcome == GatePass)|, |Filter(gates, (e: Event) => e.outcome == GateFail)|,
               |Filter(gates, (e: Event) => e.outcome == GateUnknown)|))
  }

  /** `_compute_snapshot` on the selected events. */
  function SnapshotOf(events: seq<Event>): Snapshot {
    Snapshot(map c: Counter | true :: CounterValue(c, events), Gates(events), Lifecycle(ROLE_RULE, events), Lifecycle(CODEX_RULE, events),
             Lifecycle(HUMAN_RULE, events), Lifecycle(WORKTREE_RULE, events), |events|,
             if events == [] then None else Some(events[0].id), if events == [] then None else Some(events[|events| - 1].id))
  }

  function GateOutcomes(events: seq<Event>, outcome: GateOutcome): nat {
    Count(events, (e: Event) => e.kind == IntegrationGate && e.outcome == outcome)
  }

  /**
    The three gate samples are unavailable exactly when some outcome is unclassified, and otherwise the
    numbers of gates that passed, failed and are unknown, which share out all gate events.
   */
  lemma GatesShareOut(events: seq<Event>)
    ensures var gates := Count(events, (e: Event) => e.kind == IntegrationGate);
      match Gates(events)
      case None => exists e :: e in events && e.kind == IntegrationGate && e.outcome == OtherOutcome
      case Some((passed, failed, unknown)) =>
        && passed == GateOutcomes(events, GatePass) && failed == GateOutcomes(events, GateFail) && unknown == GateOutcomes(events, GateUnknown)
        && passed + failed + unknown == gates && forall e :: e in events && e.kind == IntegrationGate ==> e.outcome != OtherOutcome
  {
    var gates := Filter(events, (e: Event) => e.kind == IntegrationGate);
    if Gates(events).None? {
      var other := Filter(gates, (e: Event) => e.outcome == OtherOutcome);
      assert other[0] in other;
    } else {
      forall e | e in events && e.kind == IntegrationGate
        ensures e.outcome != OtherOutcome
      {
        assert e in gates;
      }
      var passed, failed, unknown :=
        (e: Event) => e.outcome == GatePass, (e: Event) => e.outcome == GateFail, (e: Event) => e.outcome == GateUnknown;
      var rest := (e: Event) => e.outcome == GateFail || e.outcome == GateUnknown;
      CountEither(gates, e => true, passed, rest);
      CountEither(gates, rest, failed, unknown);
      CountAll(gates);
      GatesOfOutcome(events, GatePass, passed);
      GatesOfOutcome(events, GateFail, failed);
      GatesOfOutcome(events, GateUnknown, unknown);
    }
  }

  lemma GatesOfOutcome(events: seq<Event>, outcome: GateOutcome, keep: Event -> bool)
    requires forall e :: keep(e) <==> e.outcome == outcome
    ensures Count(Filter(events, (e: Event) => e.kind == IntegrationGate), keep) == GateOutcomes(events, outcome)
  {
    CountSelected(events, (e: Event) => e.kind == IntegrationGate, keep, (e: Event) => e.kind == IntegrationGate && e.outcome == outcome);
  }

  predicate Closed(r: LifecycleResult) {
    r.active == 0 && r.diagnostics == []
  }

  /** The counter of starts counts the starts of the lifecycle. */
  lemma StartsAreCounted(rule: Rule, c: Counter, events: seq<Event>)
    requires ValidRule(rule) && forall e :: Counts(c, e) <==> e.kind == rule.kind && e.operation == rule.start
    ensures CounterValue(c, events) == |Filter(RelevantEvents(rule, events), Starts(rule))|
  {
    hide Filter;
    hide Counts;
    CountSelected(events, e => Relevant(rule, e), Starts(rule), e => Counts(c, e));
  }

  /** The ends of a lifecycle, counted over all events. */
  lemma EndsAreCounted(rule: Rule, events: seq<Event>)
    ensures Count(events, e => IsEnd(rule, e)) == |Filter(RelevantEvents(rule, events), Ends(rule))|
  {
    hide Filter;
    CountSelected(events, e => Relevant(rule, e), Ends(rule), e => IsEnd(rule, e));
  }

  predicate IsEnd(rule: Rule, e: Event) {
    e.kind == rule.kind && e.operation in rule.terminals
  }

  /** Two counters, or two counters and a third, share out the ends of a lifecycle. */
  lemma CountersShareOut(events: seq<Event>, ends: Event -> bool, a: Counter, b: Counter)
    requires forall e :: (ends(e) <==> Counts(a, e) || Counts(b, e)) && !(Counts(a, e) && Counts(b, e))
    ensures Count(events, ends) == CounterValue(a, events) + CounterValue(b, events)
  {
    hide Counts;
    CountEither(events, ends, e => Counts(a, e), e => Counts(b, e));
  }

  lemma RolesBalance(events: seq<Event>)
    requires Closed(Lifecycle(ROLE_RULE, events))
    ensures CounterValue(RolesStarted, events) == |Lifecycle(ROLE_RULE, events).durations|
    ensures CounterValue(RolesCompleted, events) + CounterValue(RolesFailed, events) == |Lifecycle(ROLE_RULE, events).durations|
  {
    hide Lifecycle;
    hide Filter;
    hide Count;
    hide CounterValue;
    hide RelevantEvents;
    hide Starts;
    hide Ends;
    StartsAreCounted(ROLE_RULE, RolesStarted, events);
    EndsAreCounted(ROLE_RULE, events);
    CountersShareOut(events, e => IsEnd(ROLE_RULE, e), RolesCompleted, RolesFailed);
    ClosedLifecyclesBalance(ROLE_RULE, events);
  }

  lemma CounterIsCount(c: Counter, events: seq<Event>)
    ensures CounterValue(c, events) == Count(events, e => Counts(c, e))
  {
  }

  lemma CodexBalances(events: seq<Event>)
    requires Closed(Lifecycle(CODEX_RULE, events))
    ensures CounterValue(CodexStarted, events) == |Lifecycle(CODEX_RULE, events).durations|
    ensures CounterValue(CodexCompleted, events) + CounterValue(CodexFailed, events) + CounterValue(CodexInterrupted, events)
         == |Lifecycle(CODEX_RULE, events).durations|
  {
    hide Lifecycle;
    hide Filter;
    hide Count;
    hide CounterValue;
    hide RelevantEvents;
    hide Starts;
    hide Ends;
    var unsuccessful := (e: Event) => Counts(CodexFailed, e) || Counts(CodexInterrupted, e);
    StartsAreCounted(CODEX_RULE, CodexStarted, events);
    EndsAreCounted(CODEX_RULE, events);
    CountersShareOut(events, unsuccessful, CodexFailed, CodexInterrupted);
    CounterIsCount(CodexCompleted, events);
    CountEither(events, e => IsEnd(CODEX_RULE, e), e => Counts(CodexCompleted, e), unsuccessful);
    ClosedLifecyclesBalance(CODEX_RULE, events);
  }

  predicate WasCleaned(e: Event) {
    e.kind == WorktreeLifecycle && e.operation == Cleaned
  }

  lemma WorktreesBalance(events: seq<Event>)
    requires Closed(Lifecycle(WORKTREE_RULE, events))
    ensures CounterValue(WorktreesCreated, events) == |Lifecycle(WORKTREE_RULE, events).durations|
    ensures CounterValue(WorktreesCompleted, events) + CounterValue(WorktreesFailed, events)
         + Count(events, (e: Event) => WasCleaned(e)) == |Lifecycle(WORKTREE_RULE, events).durations|
  {
    hide Lifecycle;
    hide Filter;
    hide Count;
    hide CounterValue;
    hide RelevantEvents;
    hide Starts;
    hide Ends;
    var counted := (e: Event) => Counts(WorktreesCompleted, e) || Counts(WorktreesFailed, e);
    StartsAreCounted(WORKTREE_RULE, WorktreesCreated, events);
    EndsAreCounted(WORKTREE_RULE, events);
    CountersShareOut(events, counted, WorktreesCompleted, WorktreesFailed);
    CountEither(events, e => IsEnd(WORKTREE_RULE, e), counted, (e: Event) => WasCleaned(e));
    ClosedLifecyclesBalance(WORKTREE_RULE, events);
  }

  lemma HumanWaitsBalance(events: seq<Event>)
    requires Closed(Lifecycle(HUMAN_RULE, events))
    ensures CounterValue(HumanWaitsStarted, events) == |Lifecycle(HUMAN_RULE, events).durations|
  {
    hide Lifecycle;
    hide Filter;
    hide Count;
    hide CounterValue;
    hide RelevantEvents;
    hide Starts;
    hide Ends;
    StartsAreCounted(HUMAN_RULE, HumanWaitsStarted, events);
    ClosedLifecyclesBalance(HUMAN_RULE, events);
  }

  /**
    Conservation, across the two tables that the snapshot is computed from: in a lifecycle that shows
    nothing open and no diagnostic, as many have started as have ended, in one of the counted ways.
   */
  lemma ClosedMeansBalanced(events: seq<Event>)
    ensures var s := SnapshotOf(events);
      && (Closed(s.role) ==> s.counters[RolesStarted] == s.counters[RolesCompleted] + s.counters[RolesFailed] == |s.role.durations|)
      && (Closed(s.codex) ==>
            s.counters[CodexStarted] == s.counters[CodexCompleted] + s.counters[CodexFailed] + s.counters[CodexInterrupted] == |s.codex.durations|)
      && (Closed(s.human) ==> s.counters[HumanWaitsStarted] == |s.human.durations|)
      && (Closed(s.worktree) ==> s.counters[WorktreesCompleted] + s.counters[WorktreesFailed] <= s.counters[WorktreesCreated] == |s.worktree.durations|)
  {
    hide Lifecycle;
    hide CounterValue;
    hide Gates;
    hide Count;
    hide Closed;
    if Closed(Lifecycle(ROLE_RULE, events)) {
      RolesBalance(events);
    }
    if Closed(Lifecycle(CODEX_RULE, events)) {
      CodexBalances(events);
    }
    if Closed(Lifecycle(HUMAN_RULE, events)) {
      HumanWaitsBalance(events);
    }
    if Closed(Lifecycle(WORKTREE_RULE, events)) {
      WorktreesBalance(events);
    }
  }

  function Selected(events: seq<Event>, scope: Scope): seq<Event> {
    EventOrder();
    Filter(Sort(EventLeq, events), e => Matches(e, scope))
  }

  datatype Outcome = Unavailable | Saturated | IncompleteSource | Incomplete(reason: Refusal) | Computed(snapshot: Snapshot)

  /** `compute`. */
  method Compute(events: seq<Event>, scope: Scope, sourceComplete: bool) returns (r: Outcome)
    ensures !sourceComplete ==> r == IncompleteSource
    ensures sourceComplete && !Accepted(events, scope.project) ==> r.Incomplete?
    ensures sourceComplete && Accepted(events, scope.project) ==> r == Computed(SnapshotOf(Selected(events, scope)))
  {
    if !sourceComplete {
      return IncompleteSource;
    }
    var refusal := ValidateCorpus(events, scope.project);
    if refusal.Some? {
      return Incomplete(refusal.value);
    }
    EventOrder();
    var ordered := Sort(EventLeq, events);
    r := Computed(SnapshotOf(Filter(ordered, e => Matches(e, scope))));
  }

  /** Every permutation of an accepted corpus is accepted, and gives the identical snapshot. */
  lemma SnapshotIgnoresOrder(a: seq<Event>, b: seq<Event>, scope: Scope)
    requires multiset(a) == multiset(b) && Accepted(a, scope.project)
    ensures Accepted(b, scope.project)
    ensures SnapshotOf(Selected(a, scope)) == SnapshotOf(Selected(b, scope))
  {
    AcceptanceIgnoresOrder(a, b, scope.project);
    IdsIdentify(a);
    EventOrder();
    SortIgnoresInputOrder(EventLeq, a, b);
  }
}
