/**
  Many clients of the execution service over one persisted ledger: every interleaving of
  their steps, stale snapshots, and a crash of any client between any two steps.

  A store write is two steps in the code: `_replace_authorized` loads and tests, then
  `_write` replaces the file. `serialized` says whether other clients are kept out between
  the two, as `RepositoryOperationLock` does for the mission commands.
 */
module ExecutionProtocol {
  import opened Wrappers
  import opened Ordering
  import opened ExecutionState
  import opened ExecutionRecovery

  /** Where a client stands; what it holds was computed from the ledger it loaded. */
  datatype Client =
    | Idle
    | Persisting(before: Ledger, record: Record, operation: Operation)
    | Approved(before: Ledger, record: Record, operation: Operation)
    | Launching(id: string)
    | Returned(id: string, observation: Observation)

  /** `launches` counts the physical calls of `runtime.execute` for each execution id. */
  datatype State = State(ledger: Ledger, clients: map<nat, Client>, launches: multiset<string>)

  datatype Action =
    | BeginPlan(client: nat, compiled: CompiledPrompt, binding: Binding, executable: Executable, now: int)
    | BeginExecute(client: nat, id: string, compiled: CompiledPrompt, binding: Binding, now: int)
    | Authorize(client: nat)
    | Write(client: nat)
    | Launch(client: nat, outcome: Option<Observation>)
    | BeginRecord(client: nat, now: int)
    | BeginIntake(client: nat, id: string, compiled: CompiledPrompt, intake: IntakeOutcome, now: int)
    | Crash(client: nat)

  const Initial := State([], map[], multiset{})

  function ClientOf(s: State, c: nat): Client {
    if c in s.clients then s.clients[c] else Idle
  }

  function At(s: State, c: nat, client: Client): State {
    s.(clients := s.clients[c := client])
  }

  /** The client after its write: `execute` goes on to the runtime, every other operation is over. */
  function AfterWrite(record: Record, operation: Operation): Client {
    if operation == MarkRunning then Launching(record.Id()) else Idle
  }

  function Replace(s: State, c: nat, record: Record, operation: Operation): State {
    At(s.(ledger := WithRecord(s.ledger, record)), c, AfterWrite(record, operation))
  }

  /** One step; an action that its client is not ready for changes nothing. */
  function Next(env: Environment, serialized: bool, s: State, a: Action): State {
    var client := ClientOf(s, a.client);
    match a
    case BeginPlan(c, compiled, binding, executable, now) =>
      if !client.Idle? then s
      else
        var decision := DecidePlan(env, s.ledger, compiled, binding, executable, now);
        if decision.Fresh? then At(s, c, Persisting(s.ledger, decision.record, PlanWrite)) else s
    case BeginExecute(c, id, compiled, binding, now) =>
      if !client.Idle? then s
      else
        var running := DecideRun(env, s.ledger, id, compiled, binding, now);
        if running.Ok? then At(s, c, Persisting(s.ledger, running.value, MarkRunning)) else s
    case Authorize(c) =>
      if !client.Persisting? then s
      else if !Authorized(env, s.ledger, client.before, WithRecord(client.before, client.record), client.operation)
      then At(s, c, Idle)
      else if serialized then Replace(s, c, client.record, client.operation)
      else At(s, c, Approved(client.before, client.record, client.operation))
    case Write(c) =>
      if !client.Approved? then s
      else At(s.(ledger := WithRecord(client.before, client.record)), c, AfterWrite(client.record, client.operation))
    case Launch(c, outcome) =>
      if !client.Launching? then s
      else
        At(s.(launches := s.launches + multiset{client.id}), c,
           if outcome.Some? then Returned(client.id, outcome.value) else Idle)
    case BeginRecord(c, now) =>
      if !client.Returned? then s
      else
        var recorded := DecideObservation(s.ledger, client.id, client.observation, now);
        At(s, c, if recorded.Some? then Persisting(s.ledger, recorded.value, RecordObservation) else Idle)
    case BeginIntake(c, id, compiled, intake, now) =>
      if !client.Idle? then s
      else
        var updated := DecideIntake(env, s.ledger, id, compiled, intake, now);
        if updated.Ok? then At(s, c, Persisting(s.ledger, updated.value, RecordIntake)) else s
    case Crash(c) => At(s, c, Idle)
  }

  function Run(env: Environment, serialized: bool, s: State, actions: seq<Action>): State
    decreases |actions|
  {
    if actions == [] then s else Run(env, serialized, Next(env, serialized, s, actions[0]), actions[1..])
  }

  // ---------- what every step keeps ----------

  predicate Started(l: Ledger, id: string) {
    Find(l, id).Some? && Find(l, id).value.status != Planned
  }

  /** The ledger is valid, and so is every ledger a client still holds. */
  ghost predicate LedgersValid(env: Environment, s: State) {
    && ValidLedger(env, s.ledger)
    && forall c :: c in s.clients ==>
         && (s.clients[c].Persisting? ==> ValidLedger(env, s.clients[c].before))
         && (s.clients[c].Approved? ==> ValidLedger(env, WithRecord(s.clients[c].before, s.clients[c].record)))
  }

  /** An execution id is held by one client on its way to the runtime, or has been launched once, or neither. */
  ghost predicate LaunchDiscipline(s: State) {
    && (forall c :: c in s.clients ==> !s.clients[c].Approved?)
    && (forall c :: c in s.clients && s.clients[c].Launching? ==>
          Started(s.ledger, s.clients[c].id) && s.launches[s.clients[c].id] == 0)
    && (forall c, d :: c in s.clients && d in s.clients && c != d && s.clients[c].Launching? && s.clients[d].Launching?
          ==> s.clients[c].id != s.clients[d].id)
    && (forall id :: id in s.launches ==> Started(s.ledger, id) && s.launches[id] == 1)
  }

  ghost predicate Inv(env: Environment, s: State) {
    LedgersValid(env, s) && LaunchDiscipline(s)
  }

  /** The record a client writes is the one its write touches. */
  lemma WriteTouchesItsRecord(l: Ledger, r: Record, operation: Operation)
    requires IdOrdered(l) && ValidTransition(l, WithRecord(l, r), operation)
    ensures Touches(l, WithRecord(l, r), operation, r.Id())
  {
    var id :| id in ExecutionIds(WithRecord(l, r)) && Touches(l, WithRecord(l, r), operation, id);
    WithRecordFinds(l, r);
    TouchedRecordDiffers(l, WithRecord(l, r), operation, id);
  }

  lemma TouchedRecordDiffers(before: Ledger, after: Ledger, operation: Operation, id: string)
    requires Touches(before, after, operation, id)
    ensures Find(after, id) != Find(before, id)
  {
  }

  /** A write changes one record, and moves its status strictly forward; MARK_RUNNING starts an execution that was not started. */
  lemma WriteMovesForward(l: Ledger, r: Record, operation: Operation)
    requires IdOrdered(l) && ValidTransition(l, WithRecord(l, r), operation)
    ensures forall id :: Started(l, id) ==> Started(WithRecord(l, r), id)
    ensures operation == MarkRunning ==> !Started(l, r.Id()) && Started(WithRecord(l, r), r.Id())
    ensures forall id :: Find(WithRecord(l, r), id) == if id == r.Id() then Some(r) else Find(l, id)
    ensures if operation == PlanWrite then Find(l, r.Id()).None? && r.status == Planned
            else Find(l, r.Id()).Some? && Weight(r.status) > Weight(Find(l, r.Id()).value.status)
  {
    WriteTouchesItsRecord(l, r, operation);
    WithRecordFinds(l, r);
    TouchRaisesWeight(l, WithRecord(l, r), operation, r.Id());
    forall id | Started(l, id)
      ensures Started(WithRecord(l, r), id)
    {
      if id != r.Id() {
        TouchesOnlyOne(l, WithRecord(l, r), operation, r.Id(), id);
      }
    }
  }

  lemma StepKeepsLedgersValid(env: Environment, serialized: bool, s: State, a: Action)
    requires LedgersValid(env, s)
    ensures LedgersValid(env, Next(env, serialized, s, a))
  {
    hide ValidLedger;
    hide ValidTransition;
    hide WithRecord;
  }

  /** A ledger that only moves forward keeps the discipline, whoever sets out for the runtime. */
  lemma ForwardWriteKeepsDiscipline(s: State, after: Ledger, c: nat, client: Client)
    requires LaunchDiscipline(s) && (client.Idle? || client.Launching?)
    requires forall id :: Started(s.ledger, id) ==> Started(after, id)
    requires client.Launching? ==> !Started(s.ledger, client.id) && Started(after, client.id)
    ensures LaunchDiscipline(At(s.(ledger := after), c, client))
  {
    hide Started;
  }

  /** A write that is compared and made in one step keeps the discipline. */
  lemma ReplaceKeepsDiscipline(env: Environment, s: State, c: nat, r: Record, operation: Operation)
    requires LaunchDiscipline(s) && ValidLedger(env, s.ledger)
    requires ValidTransition(s.ledger, WithRecord(s.ledger, r), operation)
    ensures LaunchDiscipline(Replace(s, c, r, operation))
  {
    hide LaunchDiscipline;
    ValidLedgerIsOrdered(env, s.ledger);
    WriteMovesForward(s.ledger, r, operation);
    ForwardWriteKeepsDiscipline(s, WithRecord(s.ledger, r), c, AfterWrite(r, operation));
  }

  /** The one client on its way to the runtime gets there, once. */
  lemma LaunchKeepsDiscipline(s: State, c: nat, client: Client)
    requires LaunchDiscipline(s) && ClientOf(s, c).Launching?
    requires client.Returned? || client.Idle?
    ensures LaunchDiscipline(At(s.(launches := s.launches + multiset{ClientOf(s, c).id}), c, client))
  {
    hide Started;
  }

  /** Steps that only move a client to or from its preparations keep the discipline. */
  lemma PreparationKeepsDiscipline(s: State, c: nat, client: Client)
    requires LaunchDiscipline(s)
    requires client.Idle? || client.Persisting?
    ensures LaunchDiscipline(At(s, c, client))
  {
    hide Started;
  }

  /** A serialized authorisation sends the client back, or makes a lawful write in one step. */
  lemma AuthorizeStep(env: Environment, s: State, c: nat)
    requires ClientOf(s, c).Persisting?
    ensures var client := ClientOf(s, c);
      var next := Next(env, true, s, Authorize(c));
      next == At(s, c, Idle)
      || (ValidTransition(s.ledger, WithRecord(s.ledger, client.record), client.operation) && next == Replace(s, c, client.record, client.operation))
  {
    hide ValidLedger;
    hide ValidTransition;
    hide WithRecord;
  }

  predicate Preparation(s: State, a: Action) {
    !(a.Authorize? && ClientOf(s, a.client).Persisting?) && !(a.Launch? && ClientOf(s, a.client).Launching?)
  }

  /** Every other step moves its client to or from its preparations; an observation is recorded as it was returned. */
  lemma PreparationStep(env: Environment, s: State, a: Action)
    requires LaunchDiscipline(s) && Preparation(s, a)
    ensures var next := Next(env, true, s, a);
      var client := ClientOf(next, a.client);
      next == s
      || (next == At(s, a.client, client) && (client.Idle? || client.Persisting?)
          && (client.Persisting? && client.operation == RecordObservation ==>
                ClientOf(s, a.client).Returned? && client.record.Id() == ClientOf(s, a.client).id))
  {
    hide ValidLedger;
    hide WithRecord;
    hide DecidePlan;
    hide DecideRun;
    hide DecideIntake;
    hide Find;
  }

  lemma StepKeepsDiscipline(env: Environment, s: State, a: Action)
    requires Inv(env, s)
    ensures LaunchDiscipline(Next(env, true, s, a))
  {
    hide ValidLedger;
    hide ValidTransition;
    hide WithRecord;
    hide LaunchDiscipline;
    var client := ClientOf(s, a.client);
    if Preparation(s, a) {
      hide Next;
      var next := Next(env, true, s, a);
      PreparationStep(env, s, a);
      if next != s {
        PreparationKeepsDiscipline(s, a.client, ClientOf(next, a.client));
      }
    } else if a.Authorize? {
      hide Next;
      AuthorizeStep(env, s, a.client);
      if Next(env, true, s, a) == At(s, a.client, Idle) {
        PreparationKeepsDiscipline(s, a.client, Idle);
      } else {
        ReplaceKeepsDiscipline(env, s, a.client, client.record, client.operation);
      }
    } else {
      LaunchKeepsDiscipline(s, a.client, if a.outcome.Some? then Returned(client.id, a.outcome.value) else Idle);
    }
  }

  lemma {:induction false} RunKeepsInv(env: Environment, s: State, actions: seq<Action>)
    requires Inv(env, s)
    ensures Inv(env, Run(env, true, s, actions))
    decreases |actions|
  {
    hide Inv;
    if actions != [] {
      assert Inv(env, Next(env, true, s, actions[0])) by {
        StepKeepsInv(env, s, actions[0]);
      }
      RunKeepsInv(env, Next(env, true, s, actions[0]), actions[1..]);
    }
  }

  lemma StepKeepsInv(env: Environment, s: State, a: Action)
    requires Inv(env, s)
    ensures Inv(env, Next(env, true, s, a))
  {
    StepKeepsLedgersValid(env, true, s, a);
    StepKeepsDiscipline(env, s, a);
  }

  lemma InitialInv(env: Environment)
    ensures Inv(env, Initial)
  {
  }

  // ---------- main results ----------

  /** However clients interleave and crash, the runtime is invoked at most once per execution id. */
  lemma AtMostOneLaunch(env: Environment, actions: seq<Action>, id: string)
    ensures Run(env, true, Initial, actions).launches[id] <= 1
  {
    InitialInv(env);
    RunKeepsInv(env, Initial, actions);
  }

  lemma {:induction false} RunKeepsLedgersValid(env: Environment, serialized: bool, s: State, actions: seq<Action>)
    requires LedgersValid(env, s)
    ensures LedgersValid(env, Run(env, serialized, s, actions))
    decreases |actions|
  {
    hide LedgersValid;
    if actions != [] {
      StepKeepsLedgersValid(env, serialized, s, actions[0]);
      RunKeepsLedgersValid(env, serialized, Next(env, serialized, s, actions[0]), actions[1..]);
    }
  }

  /** Every persisted ledger is ordered, free of duplicates and lawful record by record, serialized or not. */
  lemma PersistedLedgersAreValid(env: Environment, serialized: bool, actions: seq<Action>)
    ensures ValidLedger(env, Run(env, serialized, Initial, actions).ledger)
  {
    RunKeepsLedgersValid(env, serialized, Initial, actions);
  }

  // ---------- without serialization ----------

  /** Something that can be planned on an empty ledger, and then be marked as running. */
  predicate Plannable(env: Environment, c: CompiledPrompt, b: Binding, x: Executable, now: int) {
    var planned := PlannedRecord(env, c, b, x, now);
    BindingMatches(env, c, b) && env.recordShape(planned) && env.recordShape(planned.(status := Running))
  }

  lemma RunCons(env: Environment, serialized: bool, s: State, a: Action, rest: seq<Action>)
    ensures Run(env, serialized, s, [a] + rest) == Run(env, serialized, Next(env, serialized, s, a), rest)
  {
    assert ([a] + rest)[1..] == rest;
  }

  /** The ledgers of the race: first the record is planned, then it is running. */
  lemma RaceLedgers(env: Environment, c: CompiledPrompt, b: Binding, x: Executable, now: int)
    requires Plannable(env, c, b, x, now)
    ensures var planned := PlannedRecord(env, c, b, x, now);
      var running := planned.(status := Running);
      && DecidePlan(env, [], c, b, x, now) == Fresh(planned) && WithRecord([], planned) == [planned]
      && Authorized(env, [], [], [planned], PlanWrite)
      && DecideRun(env, [planned], ExecutionId(env, c), c, b, now) == Ok(running) && WithRecord([planned], running) == [running]
      && Authorized(env, [planned], [planned], [running], MarkRunning)
  {
    var planned := PlannedRecord(env, c, b, x, now);
    PlannedRecordIsGenuine(env, c, b, x, now);
    assert DecidePlan(env, [], c, b, x, now) == Fresh(planned);
    FreshPlanIsAuthorized(env, [], c, b, x, now);
    hide ValidRecord;
    hide BindingMatches;
    hide CompiledMatches;
    assert Find([planned], planned.Id()) == Some(planned);
    assert DecideRun(env, [planned], planned.Id(), c, b, now) == Ok(planned.(status := Running));
    RunIsAuthorizedExactly(env, [planned], planned.Id(), c, b, now);
  }

  /**
    In every environment, for everything that can be planned: two clients that both pass the comparison
    before either writes launch the same execution twice.
   */
  lemma RaceLaunchesTwice(env: Environment, c: CompiledPrompt, b: Binding, x: Executable, now: int) returns (actions: seq<Action>)
    requires Plannable(env, c, b, x, now)
    ensures Run(env, false, Initial, actions).launches[ExecutionId(env, c)] == 2
  {
    var planned := PlannedRecord(env, c, b, x, now);
    var running := planned.(status := Running);
    var id := ExecutionId(env, c);
    RaceLedgers(env, c, b, x, now);
    hide Authorized;
    hide DecidePlan;
    hide DecideRun;
    hide WithRecord;
    var tail := [Launch(0, None)] + ([Launch(1, None)] + []);
    var middle := [Authorize(0)] + ([Authorize(1)] + ([Write(0)] + ([Write(1)] + tail)));
    var begin := [BeginExecute(0, id, c, b, now)] + ([BeginExecute(1, id, c, b, now)] + middle);
    actions := [BeginPlan(0, c, b, x, now)] + ([Authorize(0)] + ([Write(0)] + begin));
    var s1 := RacePlan(env, planned, c, b, x, now, begin);
    var s2 := RaceBegin(env, planned, running, s1, id, c, b, now, middle);
    var s3 := RaceWrite(env, planned, running, s2, tail);
    RunCons(env, false, s3, Launch(0, None), [Launch(1, None)] + []);
    var s4 := Next(env, false, s3, Launch(0, None));
    RunCons(env, false, s4, Launch(1, None), []);
  }

  lemma RacePlan(env: Environment, planned: Record, c: CompiledPrompt, b: Binding, x: Executable, now: int, rest: seq<Action>) returns (s: State)
    requires DecidePlan(env, [], c, b, x, now) == Fresh(planned) && WithRecord([], planned) == [planned]
    requires Authorized(env, [], [], [planned], PlanWrite)
    ensures s.ledger == [planned] && s.launches == multiset{} && ClientOf(s, 0) == Idle && ClientOf(s, 1) == Idle
    ensures Run(env, false, Initial, [BeginPlan(0, c, b, x, now)] + ([Authorize(0)] + ([Write(0)] + rest))) == Run(env, false, s, rest)
  {
    hide Authorized;
    hide DecidePlan;
    hide WithRecord;
    hide Run;
    var plan := BeginPlan(0, c, b, x, now);
    var t := Next(env, false, Initial, plan);
    RunCons(env, false, Initial, plan, [Authorize(0)] + ([Write(0)] + rest));
    var u := Next(env, false, t, Authorize(0));
    RunCons(env, false, t, Authorize(0), [Write(0)] + rest);
    s := Next(env, false, u, Write(0));
    RunCons(env, false, u, Write(0), rest);
  }

  lemma RaceBegin(env: Environment, planned: Record, running: Record, s: State, id: string, c: CompiledPrompt, b: Binding, now: int,
                  rest: seq<Action>) returns (t: State)
    requires DecideRun(env, [planned], id, c, b, now) == Ok(running)
    requires s.ledger == [planned] && s.launches == multiset{} && ClientOf(s, 0) == Idle && ClientOf(s, 1) == Idle
    ensures t.ledger == [planned] && t.launches == multiset{}
    ensures ClientOf(t, 0) == ClientOf(t, 1) == Persisting([planned], running, MarkRunning)
    ensures Run(env, false, s, [BeginExecute(0, id, c, b, now)] + ([BeginExecute(1, id, c, b, now)] + rest)) == Run(env, false, t, rest)
  {
    hide DecideRun;
    hide Run;
    var first, second := BeginExecute(0, id, c, b, now), BeginExecute(1, id, c, b, now);
    var u := Next(env, false, s, first);
    RunCons(env, false, s, first, [second] + rest);
    t := Next(env, false, u, second);
    RunCons(env, false, u, second, rest);
  }

  lemma RaceWrite(env: Environment, planned: Record, running: Record, s: State, rest: seq<Action>) returns (t: State)
    requires WithRecord([planned], running) == [running] && Authorized(env, [planned], [planned], [running], MarkRunning)
    requires s.ledger == [planned] && s.launches == multiset{}
    requires ClientOf(s, 0) == ClientOf(s, 1) == Persisting([planned], running, MarkRunning)
    ensures t.launches == multiset{} && ClientOf(t, 0) == ClientOf(t, 1) == Launching(running.Id())
    ensures Run(env, false, s, [Authorize(0)] + ([Authorize(1)] + ([Write(0)] + ([Write(1)] + rest)))) == Run(env, false, t, rest)
  {
    hide Authorized;
    hide WithRecord;
    hide Run;
    var u := Next(env, false, s, Authorize(0));
    RunCons(env, false, s, Authorize(0), [Authorize(1)] + ([Write(0)] + ([Write(1)] + rest)));
    var v := Next(env, false, u, Authorize(1));
    RunCons(env, false, u, Authorize(1), [Write(0)] + ([Write(1)] + rest));
    var w := Next(env, false, v, Write(0));
    RunCons(env, false, v, Write(0), [Write(1)] + rest);
    t := Next(env, false, w, Write(1));
    RunCons(env, false, w, Write(1), rest);
  }

  /**
    In every environment in which anything can be planned, at most one launch per execution id is
    guaranteed if and only if test and write are serialized.
   */
  lemma AtMostOnceExactlyWhenSerialized(env: Environment, serialized: bool, c: CompiledPrompt, b: Binding, x: Executable, now: int)
    requires Plannable(env, c, b, x, now)
    ensures serialized <==> forall actions, id :: Run(env, serialized, Initial, actions).launches[id] <= 1
  {
    if serialized {
      forall actions, id
        ensures Run(env, serialized, Initial, actions).launches[id] <= 1
      {
        AtMostOneLaunch(env, actions, id);
      }
    } else {
      var actions := RaceLaunchesTwice(env, c, b, x, now);
      assert Run(env, serialized, Initial, actions).launches[ExecutionId(env, c)] > 1;
    }
  }

  // ---------- no stale snapshot ever becomes current again ----------

  function Weight(status: Status): nat {
    match status
    case Planned => 1
    case Running => 2
    case Observed => 3
    case _ => 4
  }

  /** Every accepted write makes this larger. */
  function Potential(l: Ledger): nat {
    if l == [] then 0 else Weight(l[0].status) + Potential(l[1..])
  }

  lemma {:induction false} PotentialAfterWrite(l: Ledger, r: Record)
    requires IdOrdered(l)
    ensures Potential(WithRecord(l, r)) + (if Find(l, r.Id()).Some? then Weight(Find(l, r.Id()).value.status) else 0)
         == Potential(l) + Weight(r.status)
  {
    if l == [] {
    } else if l[0].Id() == r.Id() {
    } else if StringLeq(r.Id(), l[0].Id()) {
      WithRecordFinds(l, r);
      SmallerIdIsAbsent(l, r.Id());
    } else {
      PotentialAfterWrite(l[1..], r);
    }
  }

  lemma TouchRaisesWeight(before: Ledger, after: Ledger, operation: Operation, id: string)
    requires Touches(before, after, operation, id)
    ensures Find(after, id).Some?
    ensures Find(before, id).Some? ==> Weight(Find(after, id).value.status) > Weight(Find(before, id).value.status)
  {
    hide ExecutionIds;
  }

  lemma WriteRaisesPotential(l: Ledger, r: Record, operation: Operation)
    requires IdOrdered(l) && ValidTransition(l, WithRecord(l, r), operation)
    ensures Potential(WithRecord(l, r)) > Potential(l)
  {
    hide ValidTransition;
    hide Touches;
    WriteTouchesItsRecord(l, r, operation);
    TouchRaisesWeight(l, WithRecord(l, r), operation, r.Id());
    PotentialAfterWrite(l, r);
    WithRecordFinds(l, r);
  }

  lemma StepRaisesPotential(env: Environment, s: State, a: Action)
    requires Inv(env, s)
    ensures Potential(Next(env, true, s, a).ledger) >= Potential(s.ledger)
    ensures Next(env, true, s, a).ledger != s.ledger ==> Potential(Next(env, true, s, a).ledger) > Potential(s.ledger)
  {
    hide ValidTransition;
    hide WithRecord;
    hide ValidLedger;
    var client := ClientOf(s, a.client);
    if Preparation(s, a) {
      hide Next;
      PreparationStep(env, s, a);
    } else if a.Authorize? {
      hide Next;
      AuthorizeStep(env, s, a.client);
      if Next(env, true, s, a) != At(s, a.client, Idle) {
        ValidLedgerIsOrdered(env, s.ledger);
        WriteRaisesPotential(s.ledger, client.record, client.operation);
      }
    }
  }

  lemma {:induction false} RunRaisesPotential(env: Environment, s: State, actions: seq<Action>)
    requires Inv(env, s)
    ensures Potential(Run(env, true, s, actions).ledger) >= Potential(s.ledger)
    ensures Run(env, true, s, actions).ledger != s.ledger ==> Potential(Run(env, true, s, actions).ledger) > Potential(s.ledger)
    decreases |actions|
  {
    hide Inv;
    hide Next;
    if actions != [] {
      StepKeepsInv(env, s, actions[0]);
      StepRaisesPotential(env, s, actions[0]);
      RunRaisesPotential(env, Next(env, true, s, actions[0]), actions[1..]);
    }
  }

  /**
    Once the ledger has moved on from a snapshot it never equals it again, so a write that was
    computed from that snapshot is refused for ever.
   */
  lemma OvertakenSnapshotStaysRefused(env: Environment, s: State, before: seq<Action>, after: seq<Action>,
                                      r: Record, operation: Operation)
    requires Inv(env, s) && Run(env, true, s, before).ledger != s.ledger
    ensures var late := Run(env, true, Run(env, true, s, before), after);
      late.ledger != s.ledger && !Authorized(env, late.ledger, s.ledger, WithRecord(s.ledger, r), operation)
  {
    RunKeepsInv(env, s, before);
    RunRaisesPotential(env, s, before);
    RunRaisesPotential(env, Run(env, true, s, before), after);
  }

  // ---------- durable outcomes, and what a restart may do ----------

  predicate Concluded(l: Ledger, id: string) {
    Started(l, id) && Find(l, id).value.status != Running
  }

  /** A durable outcome, and every outcome on its way to the ledger, comes from one launch. */
  ghost predicate OutcomeBacked(s: State) {
    && (forall id :: Concluded(s.ledger, id) ==> s.launches[id] == 1)
    && (forall c :: c in s.clients && s.clients[c].Returned? ==> s.launches[s.clients[c].id] == 1)
    && (forall c :: c in s.clients && s.clients[c].Persisting? && s.clients[c].operation == RecordObservation ==>
          s.launches[s.clients[c].record.Id()] == 1)
  }

  lemma WriteConcludesOnlyObserved(l: Ledger, r: Record, operation: Operation)
    requires IdOrdered(l) && ValidTransition(l, WithRecord(l, r), operation)
    ensures forall id :: Concluded(WithRecord(l, r), id) && !Concluded(l, id) ==> operation == RecordObservation && id == r.Id()
  {
    WriteTouchesItsRecord(l, r, operation);
    forall id | Concluded(WithRecord(l, r), id) && !Concluded(l, id)
      ensures operation == RecordObservation && id == r.Id()
    {
      if id != r.Id() {
        TouchesOnlyOne(l, WithRecord(l, r), operation, r.Id(), id);
      }
    }
  }

  lemma ReplaceKeepsOutcomes(s: State, after: Ledger, c: nat, client: Client, id: string, observed: bool)
    requires OutcomeBacked(s) && (client.Idle? || client.Launching?)
    requires forall k :: Concluded(after, k) && !Concluded(s.ledger, k) ==> observed && k == id
    requires observed ==> s.launches[id] == 1
    ensures OutcomeBacked(At(s.(ledger := after), c, client))
  {
    hide Concluded;
  }

  lemma LaunchKeepsOutcomes(s: State, c: nat, outcome: Option<Observation>)
    requires OutcomeBacked(s) && LaunchDiscipline(s) && c in s.clients && s.clients[c].Launching?
    ensures OutcomeBacked(At(s.(launches := s.launches + multiset{s.clients[c].id}), c,
                             if outcome.Some? then Returned(s.clients[c].id, outcome.value) else Idle))
  {
    hide Concluded;
    hide Started;
    assert s.launches[s.clients[c].id] == 0;
  }

  lemma PreparationKeepsOutcomes(s: State, c: nat, client: Client)
    requires OutcomeBacked(s) && (client.Idle? || client.Persisting?)
    requires client.Persisting? && client.operation == RecordObservation ==> s.launches[client.record.Id()] == 1
    ensures OutcomeBacked(At(s, c, client))
  {
    hide Concluded;
  }

  /** A lawful write keeps every durable outcome backed by one launch. */
  lemma WriteKeepsOutcomes(env: Environment, s: State, c: nat)
    requires Inv(env, s) && OutcomeBacked(s) && c in s.clients && s.clients[c].Persisting?
    requires ValidTransition(s.ledger, WithRecord(s.ledger, s.clients[c].record), s.clients[c].operation)
    ensures OutcomeBacked(Replace(s, c, s.clients[c].record, s.clients[c].operation))
  {
    hide ValidTransition;
    hide WithRecord;
    hide Concluded;
    var client := s.clients[c];
    assert ValidLedger(env, s.ledger);
    hide ValidLedger;
    ValidLedgerIsOrdered(env, s.ledger);
    WriteConcludesOnlyObserved(s.ledger, client.record, client.operation);
    ReplaceKeepsOutcomes(s, WithRecord(s.ledger, client.record), c, AfterWrite(client.record, client.operation),
                         client.record.Id(), client.operation == RecordObservation);
  }

  lemma StepKeepsOutcomes(env: Environment, s: State, a: Action)
    requires Inv(env, s) && OutcomeBacked(s)
    ensures OutcomeBacked(Next(env, true, s, a))
  {
    hide LedgersValid;
    hide ValidTransition;
    hide WithRecord;
    hide Concluded;
    var client := ClientOf(s, a.client);
    if Preparation(s, a) {
      hide Next;
      var next := Next(env, true, s, a);
      PreparationStep(env, s, a);
      if next != s {
        PreparationKeepsOutcomes(s, a.client, ClientOf(next, a.client));
      }
    } else if a.Authorize? {
      hide Next;
      AuthorizeStep(env, s, a.client);
      if Next(env, true, s, a) == At(s, a.client, Idle) {
        PreparationKeepsOutcomes(s, a.client, Idle);
      } else {
        WriteKeepsOutcomes(env, s, a.client);
      }
    } else {
      LaunchKeepsOutcomes(s, a.client, a.outcome);
    }
  }

  lemma {:induction false} RunKeepsOutcomes(env: Environment, s: State, actions: seq<Action>)
    requires Inv(env, s) && OutcomeBacked(s)
    ensures OutcomeBacked(Run(env, true, s, actions))
    decreases |actions|
  {
    hide Inv;
    hide OutcomeBacked;
    hide Next;
    if actions != [] {
      StepKeepsInv(env, s, actions[0]);
      StepKeepsOutcomes(env, s, actions[0]);
      RunKeepsOutcomes(env, Next(env, true, s, actions[0]), actions[1..]);
    }
  }

  /** A planned record has not been launched, and nobody is about to; a concluded one has been, once. */
  lemma StatusMatchesHistory(s: State, r: Record)
    requires LaunchDiscipline(s) && OutcomeBacked(s) && Find(s.ledger, r.Id()) == Some(r)
    ensures r.status == Planned ==> s.launches[r.Id()] == 0 && forall k :: k in s.clients ==> s.clients[k] != Launching(r.Id())
    ensures r.status != Planned && r.status != Running ==> s.launches[r.Id()] == 1
  {
    assert r.status != Planned && r.status != Running ==> Concluded(s.ledger, r.Id());
    assert r.status == Planned ==> r.Id() !in s.launches;
  }

  /** What each verdict of a restart inspection says about the status of the record. */
  lemma InspectionByStatus(env: Environment, r: Record, git: GitObservation, c: CompiledPrompt, b: Binding, x: Executable,
                           validationContext: bool, revalidated: Option<string>)
    ensures var inspection := InspectRestart(env, r, git, c, b, x, validationContext, revalidated);
      && (inspection.canExecute ==> r.status == Planned && !inspection.canReplay && !inspection.operator)
      && (inspection.canReplay || inspection.disposition == ValidatedNoRerun ==> r.status != Planned && r.status != Running)
  {
  }

  /**
    In every reachable state: restart inspection permits execution only of a request the runtime
    has never seen and no client is about to send; it permits an intake replay, and reports a
    completed result, only for a request the runtime has seen exactly once.
   */
  lemma InspectionMatchesHistory(env: Environment, actions: seq<Action>, r: Record, git: GitObservation,
                                 c: CompiledPrompt, b: Binding, x: Executable, validationContext: bool, revalidated: Option<string>)
    requires Find(Run(env, true, Initial, actions).ledger, r.Id()) == Some(r)
    ensures var s := Run(env, true, Initial, actions);
      var inspection := InspectRestart(env, r, git, c, b, x, validationContext, revalidated);
      && (inspection.canExecute ==> s.launches[r.Id()] == 0)
      && (inspection.canExecute ==> forall k :: k in s.clients ==> s.clients[k] != Launching(r.Id()))
      && (inspection.canReplay || inspection.disposition == ValidatedNoRerun ==> s.launches[r.Id()] == 1)
      && (inspection.canExecute ==> !inspection.canReplay && !inspection.operator)
  {
    hide InspectRestart;
    hide Run;
    InitialInv(env);
    RunKeepsInv(env, Initial, actions);
    RunKeepsOutcomes(env, Initial, actions);
    InspectionByStatus(env, r, git, c, b, x, validationContext, revalidated);
    StatusMatchesHistory(Run(env, true, Initial, actions), r);
  }

  // ---------- a recorded execution is the same work for ever ----------

  /** What is under an id in one ledger is there in the other, with the same identity. */
  ghost predicate IdentitiesKept(l: Ledger, after: Ledger) {
    forall id :: Find(l, id).Some? ==> Find(after, id).Some? && Find(after, id).value.identity == Find(l, id).value.identity
  }

  lemma WriteKeepsIdentities(l: Ledger, r: Record, operation: Operation)
    requires IdOrdered(l) && ValidTransition(l, WithRecord(l, r), operation)
    ensures IdentitiesKept(l, WithRecord(l, r))
  {
    WriteTouchesItsRecord(l, r, operation);
    forall id | Find(l, id).Some?
      ensures Find(WithRecord(l, r), id).Some? && Find(WithRecord(l, r), id).value.identity == Find(l, id).value.identity
    {
      if id != r.Id() {
        TouchesOnlyOne(l, WithRecord(l, r), operation, r.Id(), id);
      }
    }
  }

  lemma StepKeepsIdentities(env: Environment, s: State, a: Action)
    requires Inv(env, s)
    ensures IdentitiesKept(s.ledger, Next(env, true, s, a).ledger)
  {
    hide ValidTransition;
    hide WithRecord;
    hide ValidLedger;
    hide Find;
    var client := ClientOf(s, a.client);
    if Preparation(s, a) {
      hide Next;
      PreparationStep(env, s, a);
    } else if a.Authorize? {
      hide Next;
      AuthorizeStep(env, s, a.client);
      if Next(env, true, s, a) != At(s, a.client, Idle) {
        ValidLedgerIsOrdered(env, s.ledger);
        WriteKeepsIdentities(s.ledger, client.record, client.operation);
      }
    }
  }

  lemma {:induction false} RunKeepsIdentities(env: Environment, s: State, actions: seq<Action>)
    requires Inv(env, s)
    ensures IdentitiesKept(s.ledger, Run(env, true, s, actions).ledger)
    decreases |actions|
  {
    hide Inv;
    hide Next;
    if actions != [] {
      StepKeepsInv(env, s, actions[0]);
      StepKeepsIdentities(env, s, actions[0]);
      RunKeepsIdentities(env, Next(env, true, s, actions[0]), actions[1..]);
    }
  }

  /** Once recorded, neither the request nor the work it asks for is ever planned as another execution. */
  lemma NeverPlannedAgain(env: Environment, s: State, actions: seq<Action>, r: Record,
                          c: CompiledPrompt, b: Binding, x: Executable, now: int)
    requires Inv(env, s) && Find(s.ledger, r.Id()) == Some(r)
    requires c.requestId == r.identity.requestId || SemanticFingerprint(env, c) == r.identity.semanticFingerprint
    ensures var decision := DecidePlan(env, Run(env, true, s, actions).ledger, c, b, x, now);
      !decision.Fresh? && (decision.Existing? ==> decision.record.Id() == ExecutionId(env, c))
  {
    hide Run;
    hide Inv;
    hide SemanticFingerprint;
    RunKeepsIdentities(env, s, actions);
    assert Find(Run(env, true, s, actions).ledger, r.Id()).Some?;
  }

  /**
    Whatever happened since an execution was planned: a prompt that `execute` or `replay_intake`
    accepts under its id asks for the planned request and work, and `execute` accepts it only for
    the directory and the commit it was planned for.
   */
  lemma OnlyPlannedWorkIsAccepted(env: Environment, s: State, actions: seq<Action>,
                                  c0: CompiledPrompt, b0: Binding, x: Executable, plannedAt: int,
                                  c: CompiledPrompt, b: Binding, outcome: IntakeOutcome, now: int)
    requires Inv(env, s) && InjectiveDigests(env)
    requires var planned := PlannedRecord(env, c0, b0, x, plannedAt);
      Find(s.ledger, planned.Id()) == Some(planned)
    ensures var late, id := Run(env, true, s, actions).ledger, ExecutionId(env, c0);
      && (DecideRun(env, late, id, c, b, now).Ok? || DecideIntake(env, late, id, c, outcome, now).Ok? ==> SameExecution(env, c, c0))
      && (DecideRun(env, late, id, c, b, now).Ok? ==>
            env.pathKey(b.cwd) == env.pathKey(b0.cwd) && env.casefold(b.expectedCommit) == env.casefold(b0.expectedCommit))
  {
    hide Inv;
    RunKeepsIdentities(env, s, actions);
    hide Run;
    var planned := PlannedRecord(env, c0, b0, x, plannedAt);
    var late := Run(env, true, s, actions).ledger;
    var r := Find(late, planned.Id()).value;
    assert r.identity == planned.identity;
    if CompiledMatches(env, r, c) {
      EqualIdsMeanEqualWork(env, c, c0);
    }
  }
}
