/** What counters, scopes and diagnostics of the metrics mean, event by event and group by group. */
module MetricsMeaning {
  import opened Wrappers
  import opened Ordering
  import opened Metrics

  // ---------- counters ----------

  /** The counter that an event adds to, timeouts aside, if there is one. */
  function CounterOf(e: Event): Option<Counter> {
    match (e.kind, e.operation)
    case (MissionLifecycle, Started) => Some(MissionsStarted)
    case (MissionLifecycle, Finished) => Some(MissionsCompleted)
    case (MissionLifecycle, Blocked) => Some(MissionsBlocked)
    case (RoleExecution, Started) => Some(RolesStarted)
    case (RoleExecution, Finished) => Some(RolesCompleted)
    case (RoleExecution, Failed) => Some(RolesFailed)
    case (CodexExecution, Started) => Some(CodexStarted)
    case (CodexExecution, Finished) => Some(CodexCompleted)
    case (CodexExecution, Failed) => Some(CodexFailed)
    case (CodexExecution, Interrupted) => Some(CodexInterrupted)
    case (CodexExecution, RecoveryInspected) => Some(RecoveriesObserved)
    case (RemediationRecovery, RecoveryRequired) => Some(RecoveriesObserved)
    case (RemediationRecovery, Requested) => Some(RemediationsRequested)
    case (HumanWaiting, WaitingStarted) => Some(HumanWaitsStarted)
    case (WorktreeLifecycle, Created) => Some(WorktreesCreated)
    case (WorktreeLifecycle, Completed) => Some(WorktreesCompleted)
    case (WorktreeLifecycle, Failed) => Some(WorktreesFailed)
    case (MergeOperation, Finished) => Some(MergesSucceeded)
    case (MergeOperation, Failed) => Some(MergesFailed)
    case (MergeOperation, ConflictObserved) => Some(MergesFailed)
    case (PersistenceFailure, ReadFailed) => Some(PersistenceFailures)
    case (PersistenceFailure, WriteFailed) => Some(PersistenceFailures)
    case (PersistenceFailure, CorruptionObserved) => Some(PersistenceFailures)
    case (AdoptionMigration, Finished) => Some(AdoptionsSucceeded)
    case (AdoptionMigration, Failed) => Some(AdoptionsFailed)
    case (AdoptionMigration, Refused) => Some(AdoptionsRefused)
    case _ => None
  }

  /** No event adds to two counters, unless it is a timeout. */
  lemma CountedByItsCounter(c: Counter, e: Event)
    ensures c != CodexTimeouts ==> (Counts(c, e) <==> CounterOf(e) == Some(c))
    ensures Counts(CodexTimeouts, e) <==> CounterOf(e) in {Some(CodexFailed), Some(CodexInterrupted)} && e.timedOut
  {
  }

  function SumOf(counters: seq<Counter>, events: seq<Event>): nat {
    if counters == [] then 0 else SumOf(counters[..|counters| - 1], events) + CounterValue(counters[|counters| - 1], events)
  }

  predicate CountedBy(counters: seq<Counter>, e: Event) {
    CounterOf(e).Some? && CounterOf(e).value in counters
  }

  /** Different counters share out the events they count: none is counted twice, and none is left out. */
  lemma {:induction false} CountersShareOutEvents(counters: seq<Counter>, events: seq<Event>)
    requires Distinct(counters) && CodexTimeouts !in counters
    ensures SumOf(counters, events) == Count(events, e => CountedBy(counters, e))
    decreases |counters|
  {
    hide Count;
    hide CounterOf;
    hide Counts;
    if counters == [] {
      CountNone(events, e => CountedBy(counters, e));
    } else {
      var n := |counters| - 1;
      var c, rest := counters[n], counters[..n];
      assert counters == rest + [c];
      CountersShareOutEvents(rest, events);
      forall e
        ensures Counts(c, e) <==> CounterOf(e) == Some(c)
      {
        CountedByItsCounter(c, e);
      }
      CounterIsCount(c, events);
      CountEither(events, e => CountedBy(counters, e), e => CountedBy(rest, e), e => Counts(c, e));
    }
  }

  // ---------- what is accepted ----------

  /** At most 1024 different values are named. */
  predicate Few(values: set<string>) {
    |values| <= 1024
  }

  /** A corpus is accepted if and only if it is of one project, names no event twice, and is within the limits on events and on names. */
  lemma AcceptedInWords(events: seq<Event>, project: string)
    ensures Accepted(events, project) <==>
      && |events| <= 10000 && (forall e :: e in events ==> e.project == project)
      && (forall i, j :: 0 <= i < |events| && 0 <= j < |events| && events[i].id == events[j].id ==> i == j)
      && Few(set e | e in events && e.correlation.mission.Some? :: e.correlation.mission.value)
      && Few(set e | e in events && e.correlation.story.Some? :: e.correlation.story.value)
      && Few(set e | e in events && e.correlation.execution.Some? :: e.correlation.execution.value)
      && Few(set e | e in events && e.correlation.assignment.Some? :: e.correlation.assignment.value)
  {
    assert forall i :: 0 <= i < |events| ==> events[i] in events;
    assert ValuesOf(MissionDimension, events) == set e | e in events && e.correlation.mission.Some? :: e.correlation.mission.value;
    assert ValuesOf(StoryDimension, events) == set e | e in events && e.correlation.story.Some? :: e.correlation.story.value;
    assert ValuesOf(ExecutionDimension, events) == set e | e in events && e.correlation.execution.Some? :: e.correlation.execution.value;
    assert ValuesOf(AssignmentDimension, events) == set e | e in events && e.correlation.assignment.Some? :: e.correlation.assignment.value;
    hide ValuesOf;
    if |ValuesOf(MissionDimension, events)| <= MAX_CARDINALITY && |ValuesOf(StoryDimension, events)| <= MAX_CARDINALITY
      && |ValuesOf(ExecutionDimension, events)| <= MAX_CARDINALITY && |ValuesOf(AssignmentDimension, events)| <= MAX_CARDINALITY {
      EveryDimension(events);
    }
  }

  lemma EveryDimension(events: seq<Event>)
    requires |ValuesOf(MissionDimension, events)| <= MAX_CARDINALITY && |ValuesOf(StoryDimension, events)| <= MAX_CARDINALITY
    requires |ValuesOf(ExecutionDimension, events)| <= MAX_CARDINALITY && |ValuesOf(AssignmentDimension, events)| <= MAX_CARDINALITY
    ensures forall d: Dimension :: |ValuesOf(d, events)| <= MAX_CARDINALITY
  {
    forall d: Dimension
      ensures |ValuesOf(d, events)| <= MAX_CARDINALITY
    {
      match d
      case MissionDimension =>
      case StoryDimension =>
      case ExecutionDimension =>
      case AssignmentDimension =>
    }
  }

  // ---------- scopes ----------

  lemma {:induction false} FilterTwice<T(!new)>(items: seq<T>, a: T -> bool, b: T -> bool, both: T -> bool)
    requires forall x :: both(x) <==> a(x) && b(x)
    ensures Filter(items, both) == Filter(Filter(items, a), b)
    decreases |items|
  {
    if items != [] {
      var n := |items| - 1;
      FilterTwice(items[..n], a, b, both);
      FilterAppend(Filter(items[..n], a), items[n], b);
      assert Filter(items[..n], a) + [] == Filter(items[..n], a);
    }
  }

  lemma Narrowed(events: seq<Event>, wide: Scope, narrow: Scope, keep: Event -> bool)
    requires forall e :: Matches(e, narrow) <==> Matches(e, wide) && keep(e)
    ensures Selected(events, narrow) == Filter(Selected(events, wide), keep)
  {
    EventOrder();
    FilterTwice(Sort(EventLeq, events), e => Matches(e, wide), keep, e => Matches(e, narrow));
  }

  /** The widest scope selects the events of the project; each field that is given selects from what it would be without. */
  lemma ScopesNarrow(events: seq<Event>, s: Scope, text: string, generation: nat)
    ensures forall e :: e in Selected(events, Scope(s.project, None, None, None, None, None)) <==> e in events && e.project == s.project
    ensures Selected(events, s.(mission := Some(text)))
         == Filter(Selected(events, s.(mission := None)), (e: Event) => e.correlation.mission == Some(text))
    ensures Selected(events, s.(generation := Some(generation)))
         == Filter(Selected(events, s.(generation := None)), (e: Event) => e.correlation.generation == Some(generation))
    ensures Selected(events, s.(story := Some(text)))
         == Filter(Selected(events, s.(story := None)), (e: Event) => e.correlation.story == Some(text))
    ensures Selected(events, s.(role := Some(text)))
         == Filter(Selected(events, s.(role := None)), (e: Event) => e.correlation.role == Some(text))
    ensures Selected(events, s.(execution := Some(text)))
         == Filter(Selected(events, s.(execution := None)), (e: Event) => e.correlation.execution == Some(text))
  {
    Narrowed(events, s.(mission := None), s.(mission := Some(text)), (e: Event) => e.correlation.mission == Some(text));
    Narrowed(events, s.(generation := None), s.(generation := Some(generation)), (e: Event) => e.correlation.generation == Some(generation));
    Narrowed(events, s.(story := None), s.(story := Some(text)), (e: Event) => e.correlation.story == Some(text));
    Narrowed(events, s.(role := None), s.(role := Some(text)), (e: Event) => e.correlation.role == Some(text));
    Narrowed(events, s.(execution := None), s.(execution := Some(text)), (e: Event) => e.correlation.execution == Some(text));
    SelectedOfProject(events, s.project);
  }

  lemma SelectedOfProject(events: seq<Event>, project: string)
    ensures forall e :: e in Selected(events, Scope(project, None, None, None, None, None)) <==> e in events && e.project == project
  {
    EventOrder();
    var sorted := Sort(EventLeq, events);
    assert multiset(sorted) == multiset(events);
    forall e
      ensures e in sorted <==> e in events
    {
      assert e in sorted <==> e in multiset(sorted);
      assert e in events <==> e in multiset(events);
    }
  }

  lemma {:induction false} FilterKeepsOrder<T(!new)>(items: seq<T>, keep: T -> bool, leq: (T, T) -> bool)
    requires SortedBy(leq, items)
    ensures SortedBy(leq, Filter(items, keep))
    decreases |items|
  {
    if items != [] {
      var n := |items| - 1;
      FilterKeepsOrder(items[..n], keep, leq);
      var before := Filter(items[..n], keep);
      forall i | 0 <= i < |before|
        ensures leq(before[i], items[n])
      {
        assert before[i] in before;
        var j :| 0 <= j < n && items[j] == before[i];
      }
    }
  }

  /** Selected events are in the order of time; of those at one time starts come first, and then the order of ids decides. */
  lemma SelectedInOrder(events: seq<Event>, scope: Scope, i: nat, j: nat)
    requires i < j < |Selected(events, scope)|
    ensures var a, b := Selected(events, scope)[i], Selected(events, scope)[j];
      && a.at <= b.at
      && (a.at == b.at && b.operation == Started ==> a.operation == Started)
      && (a.at == b.at && (a.operation == Started <==> b.operation == Started) ==> StringLeq(a.id, b.id))
  {
    EventOrder();
    FilterKeepsOrder(Sort(EventLeq, events), e => Matches(e, scope), EventLeq);
    assert EventLeq(Selected(events, scope)[i], Selected(events, scope)[j]);
  }

  // ---------- lifecycles ----------

  /** Events of roles and of Codex belong together by execution, waits by story, worktrees by assignment; always within one mission, generation and story. */
  lemma TogetherInWords(a: Event, b: Event)
    ensures var x, y := a.correlation, b.correlation;
      var same := x.mission == y.mission && x.generation == y.generation && x.story == y.story;
      && (KeyOf(ROLE_RULE.grouping, a) == KeyOf(ROLE_RULE.grouping, b) <==> same && x.role == y.role && x.execution == y.execution)
      && (KeyOf(CODEX_RULE.grouping, a) == KeyOf(CODEX_RULE.grouping, b) <==> same && x.role == y.role && x.execution == y.execution)
      && (KeyOf(HUMAN_RULE.grouping, a) == KeyOf(HUMAN_RULE.grouping, b) <==> same)
      && (KeyOf(WORKTREE_RULE.grouping, a) == KeyOf(WORKTREE_RULE.grouping, b) <==> same && x.assignment == y.assignment)
  {
  }

  /** What a diagnostic says about the starts and ends of its group. */
  ghost predicate Deserves(rule: Rule, group: seq<Event>, code: Code) {
    var starts, ends := Count(group, Starts(rule)), Count(group, Ends(rule));
    match code
    case TerminalWithoutStart => starts == 0 && ends > 0
    case AmbiguousLifecycle => starts > 1 || (starts == 1 && ends > 1)
    case OpenLifecycle => starts == 1 && ends == 0 && rule.openIsDiagnostic
    case EndBeforeStart =>
      starts == 1 && ends == 1
      && exists s, e :: s in group && e in group && s.operation == rule.start && e.operation in rule.terminals && e.at < s.at
  }

  /** What is added to the diagnostics for one group. */
  lemma DiagnosticOfGroup(rule: Rule, r: LifecycleResult, group: seq<Event>, d: Diagnostic)
    ensures d in AddGroup(rule, r, group).diagnostics <==> d in r.diagnostics || (d.ids == FirstIds(group) && Deserves(rule, group, d.code))
  {
    var starts := Filter(group, (e: Event) => e.operation == rule.start);
    var terminals := Filter(group, (e: Event) => e.operation in rule.terminals);
    CountSame(group, Starts(rule), (e: Event) => e.operation == rule.start);
    CountSame(group, Ends(rule), (e: Event) => e.operation in rule.terminals);
    assert Count(group, Starts(rule)) == |starts| && Count(group, Ends(rule)) == |terminals|;
    if |starts| == 1 && |terminals| == 1 {
      assert starts[0] in starts && terminals[0] in terminals;
      forall e | e in group
        ensures e.operation == rule.start ==> e == starts[0]
        ensures e.operation in rule.terminals ==> e == terminals[0]
      {
        assert e.operation == rule.start ==> e in starts;
        assert e.operation in rule.terminals ==> e in terminals;
      }
    }
    hide FirstIds;
    hide Filter;
  }

  lemma {:induction false} DiagnosticsOfGroups(rule: Rule, events: seq<Event>, keys: seq<LifecycleKey>, count: nat, d: Diagnostic)
    ensures d in AddGroups(rule, LifecycleResult([], 0, count, []), events, keys).diagnostics
      <==> exists key :: key in keys && d.ids == FirstIds(Group(rule.grouping, events, key)) && Deserves(rule, Group(rule.grouping, events, key), d.code)
    decreases |keys|
  {
    hide AddGroup;
    hide Deserves;
    hide FirstIds;
    hide Group;
    if keys != [] {
      var n := |keys| - 1;
      assert keys == keys[..n] + [keys[n]];
      DiagnosticsOfGroups(rule, events, keys[..n], count, d);
      DiagnosticOfGroup(rule, AddGroups(rule, LifecycleResult([], 0, count, []), events, keys[..n]), Group(rule.grouping, events, keys[n]), d);
    }
  }

  /** A diagnostic is reported exactly when the starts and ends of some lifecycle deserve it, and names the first events of that lifecycle. */
  lemma DiagnosedExactlyWhen(rule: Rule, events: seq<Event>, d: Diagnostic)
    ensures var relevant := RelevantEvents(rule, events);
      d in Lifecycle(rule, events).diagnostics
      <==> exists key :: key in Keys(rule.grouping, relevant) && d.ids == FirstIds(Group(rule.grouping, relevant, key))
                         && Deserves(rule, Group(rule.grouping, relevant, key), d.code)
  {
    var relevant := RelevantEvents(rule, events);
    DiagnosticsOfGroups(rule, relevant, Keys(rule.grouping, relevant), |relevant|, d);
  }

  /** Some start has no end yet. */
  ghost predicate StaysOpen(rule: Rule, group: seq<Event>) {
    Count(group, Starts(rule)) == 1 && Count(group, Ends(rule)) == 0
  }

  lemma ActiveOfGroup(rule: Rule, r: LifecycleResult, group: seq<Event>)
    ensures AddGroup(rule, r, group).active == r.active + if StaysOpen(rule, group) then 1 else 0
  {
    CountSame(group, Starts(rule), (e: Event) => e.operation == rule.start);
    CountSame(group, Ends(rule), (e: Event) => e.operation in rule.terminals);
    hide Filter;
    hide FirstIds;
  }

  ghost function OpenGroups(rule: Rule, events: seq<Event>, keys: seq<LifecycleKey>): nat {
    if keys == [] then 0
    else OpenGroups(rule, events, keys[..|keys| - 1]) + if StaysOpen(rule, Group(rule.grouping, events, keys[|keys| - 1])) then 1 else 0
  }

  lemma {:induction false} ActiveGroups(rule: Rule, events: seq<Event>, keys: seq<LifecycleKey>, count: nat)
    ensures AddGroups(rule, LifecycleResult([], 0, count, []), events, keys).active == OpenGroups(rule, events, keys)
    ensures OpenGroups(rule, events, keys) > 0 <==> exists key :: key in keys && StaysOpen(rule, Group(rule.grouping, events, key))
    decreases |keys|
  {
    hide AddGroup;
    hide StaysOpen;
    hide Group;
    if keys != [] {
      var n := |keys| - 1;
      assert keys == keys[..n] + [keys[n]];
      ActiveGroups(rule, events, keys[..n], count);
      ActiveOfGroup(rule, AddGroups(rule, LifecycleResult([], 0, count, []), events, keys[..n]), Group(rule.grouping, events, keys[n]));
    }
  }

  /** The active lifecycles are those that stay open; they are diagnosed, except for worktrees, which may stay open. */
  lemma ActiveMeansOpen(rule: Rule, events: seq<Event>)
    ensures var relevant := RelevantEvents(rule, events);
      Lifecycle(rule, events).active == OpenGroups(rule, relevant, Keys(rule.grouping, relevant))
    ensures rule in {ROLE_RULE, CODEX_RULE, HUMAN_RULE} ==>
      (Lifecycle(rule, events).active > 0 <==> exists d :: d in Lifecycle(rule, events).diagnostics && d.code == OpenLifecycle)
    ensures rule == WORKTREE_RULE ==> forall d :: d in Lifecycle(rule, events).diagnostics ==> d.code != OpenLifecycle
  {
    var relevant := RelevantEvents(rule, events);
    var keys := Keys(rule.grouping, relevant);
    ActiveGroups(rule, relevant, keys, |relevant|);
    forall d
      ensures d in Lifecycle(rule, events).diagnostics && d.code == OpenLifecycle <==>
        rule.openIsDiagnostic && d.code == OpenLifecycle
        && exists key :: key in keys && d.ids == FirstIds(Group(rule.grouping, relevant, key)) && StaysOpen(rule, Group(rule.grouping, relevant, key))
    {
      DiagnosedExactlyWhen(rule, events, d);
    }
    hide Lifecycle;
    hide StaysOpen;
    hide FirstIds;
    if rule.openIsDiagnostic && OpenGroups(rule, relevant, keys) > 0 {
      var key :| key in keys && StaysOpen(rule, Group(rule.grouping, relevant, key));
      var d := Diagnostic(OpenLifecycle, FirstIds(Group(rule.grouping, relevant, key)));
      assert d in Lifecycle(rule, events).diagnostics && d.code == OpenLifecycle;
    }
  }
}
