/**
  `RestartSafeCodexExecutionService` as an object over its store. Each operation is specified
  by what it does to the ledger when nothing interrupts it, and that is shown to be the
  matching run of the protocol by one client.
 */
module ExecutionService {
  import opened Wrappers
  import opened Ordering
  import opened ExecutionState
  import opened ExecutionRecovery
  import opened ExecutionProtocol
  import opened ExecutionOutcomes

  // ---------- the operations on values ----------

  /** The effect of an operation: the ledger it leaves, and how often it calls the runtime. */
  datatype Effect = Effect(ledger: Ledger, launched: bool)

  function PersistAlone(env: Environment, l: Ledger, record: Record, operation: Operation): Ledger {
    if Authorized(env, l, l, WithRecord(l, record), operation) then WithRecord(l, record) else l
  }

  function PlanAlone(env: Environment, l: Ledger, c: CompiledPrompt, b: Binding, x: Executable, now: int): Ledger {
    var decision := DecidePlan(env, l, c, b, x, now);
    if decision.Fresh? then PersistAlone(env, l, decision.record, PlanWrite) else l
  }

  function ObserveAlone(env: Environment, l: Ledger, id: string, outcome: Option<Observation>, now: int): Ledger {
    if outcome.None? then l
    else
      var recorded := DecideObservation(l, id, outcome.value, now);
      if recorded.None? then l else PersistAlone(env, l, recorded.value, RecordObservation)
  }

  function ExecuteAlone(env: Environment, l: Ledger, id: string, c: CompiledPrompt, b: Binding,
                        outcome: Option<Observation>, startedAt: int, recordedAt: int): Effect
  {
    var running := DecideRun(env, l, id, c, b, startedAt);
    if running.Err? || !Authorized(env, l, l, WithRecord(l, running.value), MarkRunning) then Effect(l, false)
    else Effect(ObserveAlone(env, WithRecord(l, running.value), id, outcome, recordedAt), true)
  }

  function IntakeAlone(env: Environment, l: Ledger, id: string, c: CompiledPrompt, intake: IntakeOutcome, now: int): Ledger {
    var updated := DecideIntake(env, l, id, c, intake, now);
    if updated.Err? then l else PersistAlone(env, l, updated.value, RecordIntake)
  }

  // ---------- they are runs of the protocol ----------

  lemma AuthorizeAlone(env: Environment, s: State, c: nat)
    requires ClientOf(s, c).Persisting? && ClientOf(s, c).before == s.ledger
    ensures var client := ClientOf(s, c);
      var next := Next(env, true, s, Authorize(c));
      next.ledger == PersistAlone(env, s.ledger, client.record, client.operation) && next.launches == s.launches
  {
  }

  lemma RunTwo(env: Environment, s: State, a: Action, b: Action)
    ensures Run(env, true, s, [a, b]) == Next(env, true, Next(env, true, s, a), b)
  {
    hide Next;
    assert [a, b] == [a] + [b] && [b] == [b] + [];
    RunCons(env, true, s, a, [b]);
    RunCons(env, true, Next(env, true, s, a), b, []);
  }

  /** `plan` is the run BeginPlan, Authorize of a lone client. */
  lemma PlanIsProtocolRun(env: Environment, l: Ledger, launches: multiset<string>,
                          c: CompiledPrompt, b: Binding, x: Executable, now: int)
    ensures var end := Run(env, true, State(l, map[], launches), [BeginPlan(0, c, b, x, now), Authorize(0)]);
      end.ledger == PlanAlone(env, l, c, b, x, now) && end.launches == launches
  {
    hide Authorized;
    hide DecidePlan;
    hide WithRecord;
    var start := State(l, map[], launches);
    RunTwo(env, start, BeginPlan(0, c, b, x, now), Authorize(0));
    var s := Next(env, true, start, BeginPlan(0, c, b, x, now));
    if ClientOf(s, 0).Persisting? {
      AuthorizeAlone(env, s, 0);
    }
  }

  /** `replay_intake` is the run BeginIntake, Authorize of a lone client. */
  lemma IntakeIsProtocolRun(env: Environment, l: Ledger, launches: multiset<string>,
                            id: string, c: CompiledPrompt, intake: IntakeOutcome, now: int)
    ensures var end := Run(env, true, State(l, map[], launches), [BeginIntake(0, id, c, intake, now), Authorize(0)]);
      end.ledger == IntakeAlone(env, l, id, c, intake, now) && end.launches == launches
  {
    hide Authorized;
    hide DecideIntake;
    hide WithRecord;
    var start := State(l, map[], launches);
    RunTwo(env, start, BeginIntake(0, id, c, intake, now), Authorize(0));
    var s := Next(env, true, start, BeginIntake(0, id, c, intake, now));
    if ClientOf(s, 0).Persisting? {
      AuthorizeAlone(env, s, 0);
    }
  }

  /** The second half of `execute`: from the runtime to the recorded observation. */
  lemma ObserveIsProtocolRun(env: Environment, s: State, id: string, outcome: Option<Observation>, now: int)
    requires ClientOf(s, 0) == Launching(id)
    ensures var launched := Next(env, true, s, Launch(0, outcome));
      var end := Run(env, true, launched, [BeginRecord(0, now), Authorize(0)]);
      end.ledger == ObserveAlone(env, s.ledger, id, outcome, now) && end.launches == s.launches + multiset{id}
  {
    hide Authorized;
    hide DecideObservation;
    hide WithRecord;
    var launched := Next(env, true, s, Launch(0, outcome));
    RunTwo(env, launched, BeginRecord(0, now), Authorize(0));
    var t := Next(env, true, launched, BeginRecord(0, now));
    if ClientOf(t, 0).Persisting? {
      AuthorizeAlone(env, t, 0);
    }
  }

  /** The first half of `execute`: the client is about to launch exactly when the running record was written. */
  lemma MarkIsProtocolRun(env: Environment, l: Ledger, launches: multiset<string>, id: string, c: CompiledPrompt, b: Binding, now: int)
    ensures var s := Next(env, true, Next(env, true, State(l, map[], launches), BeginExecute(0, id, c, b, now)), Authorize(0));
      var running := DecideRun(env, l, id, c, b, now);
      s.launches == launches &&
      if running.Err? || !Authorized(env, l, l, WithRecord(l, running.value), MarkRunning)
      then s.ledger == l && ClientOf(s, 0) == Idle
      else s.ledger == WithRecord(l, running.value) && ClientOf(s, 0) == Launching(id)
  {
    hide Authorized;
    hide DecideRun;
    hide WithRecord;
    RunningKeepsId(env, l, id, c, b, now);
  }

  /** A client that is not about to launch does nothing in the second half. */
  lemma NothingToObserve(env: Environment, s: State, outcome: Option<Observation>, now: int)
    requires ClientOf(s, 0) == Idle
    ensures var end := Run(env, true, Next(env, true, s, Launch(0, outcome)), [BeginRecord(0, now), Authorize(0)]);
      end.ledger == s.ledger && end.launches == s.launches
  {
    hide Authorized;
    hide WithRecord;
    RunTwo(env, Next(env, true, s, Launch(0, outcome)), BeginRecord(0, now), Authorize(0));
  }

  /** `execute` is the run BeginExecute, Authorize, Launch, BeginRecord, Authorize of a lone client. */
  lemma ExecuteIsProtocolRun(env: Environment, l: Ledger, launches: multiset<string>, id: string, c: CompiledPrompt, b: Binding,
                             outcome: Option<Observation>, startedAt: int, recordedAt: int)
    ensures var end := Run(env, true, State(l, map[], launches),
        [BeginExecute(0, id, c, b, startedAt), Authorize(0)] + ([Launch(0, outcome)] + [BeginRecord(0, recordedAt), Authorize(0)]));
      var effect := ExecuteAlone(env, l, id, c, b, outcome, startedAt, recordedAt);
      end.ledger == effect.ledger && end.launches == launches + (if effect.launched then multiset{id} else multiset{})
  {
    hide Authorized;
    hide DecideRun;
    hide WithRecord;
    hide Next;
    hide Run;
    hide ClientOf;
    var start := State(l, map[], launches);
    var begin := BeginExecute(0, id, c, b, startedAt);
    var tail := [Launch(0, outcome)] + [BeginRecord(0, recordedAt), Authorize(0)];
    assert [begin, Authorize(0)] + tail == [begin] + ([Authorize(0)] + tail);
    RunCons(env, true, start, begin, [Authorize(0)] + tail);
    var s1 := Next(env, true, start, begin);
    RunCons(env, true, s1, Authorize(0), tail);
    var s2 := Next(env, true, s1, Authorize(0));
    RunCons(env, true, s2, Launch(0, outcome), [BeginRecord(0, recordedAt), Authorize(0)]);
    MarkIsProtocolRun(env, l, launches, id, c, b, startedAt);
    if ClientOf(s2, 0).Launching? {
      ObserveIsProtocolRun(env, s2, id, outcome, recordedAt);
    } else {
      NothingToObserve(env, s2, outcome, recordedAt);
    }
  }

  lemma RunningKeepsId(env: Environment, l: Ledger, id: string, c: CompiledPrompt, b: Binding, now: int)
    ensures DecideRun(env, l, id, c, b, now).Ok? ==> DecideRun(env, l, id, c, b, now).value.Id() == id
  {
  }

  // ---------- an undisturbed execution completes ----------

  function MarkedRunning(r: Record, now: int): Record {
    r.(status := Running, updatedAt := now)
  }

  /** `after` is a valid ledger that holds the record under its id, and is `before` otherwise. */
  ghost predicate Updates(env: Environment, before: Ledger, after: Ledger, r: Record) {
    ValidLedger(env, after) && Find(after, r.Id()) == Some(r) && forall id :: id != r.Id() ==> Find(after, id) == Find(before, id)
  }

  lemma PersistedUpdates(env: Environment, l: Ledger, r: Record, operation: Operation)
    requires ValidLedger(env, l) && Authorized(env, l, l, WithRecord(l, r), operation)
    ensures Updates(env, l, WithRecord(l, r), r) && PersistAlone(env, l, r, operation) == WithRecord(l, r)
  {
    ValidLedgerIsOrdered(env, l);
    WithRecordFinds(l, r);
    hide WithRecord;
  }

  lemma UpdatesTwice(env: Environment, a: Ledger, b: Ledger, c: Ledger, r: Record, next: Record)
    requires Updates(env, a, b, r) && Updates(env, b, c, next) && r.Id() == next.Id()
    ensures Updates(env, a, c, next)
  {
    hide ValidLedger;
    hide Find;
  }

  lemma PlanStage(env: Environment, l: Ledger, c: CompiledPrompt, b: Binding, x: Executable, now: int)
    requires ValidLedger(env, l) && DecidePlan(env, l, c, b, x, now).Fresh?
    requires env.recordShape(PlannedRecord(env, c, b, x, now))
    ensures Updates(env, l, PlanAlone(env, l, c, b, x, now), PlannedRecord(env, c, b, x, now))
  {
    hide ValidLedger;
    hide Authorized;
    hide WithRecord;
    hide PersistAlone;
    hide Updates;
    FreshPlanIsAuthorized(env, l, c, b, x, now);
    PersistedUpdates(env, l, PlannedRecord(env, c, b, x, now), PlanWrite);
  }

  lemma MarkStage(env: Environment, l: Ledger, r: Record, c: CompiledPrompt, b: Binding, now: int)
    requires ValidLedger(env, l) && Find(l, r.Id()) == Some(r) && r.status == Planned
    requires BindingMatches(env, c, b) && ExactRecord(env, r, c, b, r.identity.executable).Ok?
    requires env.recordShape(MarkedRunning(r, now)) && r.identity.createdAt <= now
    ensures var running := MarkedRunning(r, now);
      DecideRun(env, l, r.Id(), c, b, now) == Ok(running) && Authorized(env, l, l, WithRecord(l, running), MarkRunning)
      && Updates(env, l, WithRecord(l, running), running)
  {
    hide ValidLedger;
    hide Authorized;
    hide WithRecord;
    hide Updates;
    hide CompiledMatches;
    hide BindingMatches;
    RunIsAuthorizedExactly(env, l, r.Id(), c, b, now);
    PersistedUpdates(env, l, MarkedRunning(r, now), MarkRunning);
  }

  lemma ObserveStage(env: Environment, l: Ledger, r: Record, o: Observation, now: int)
    requires ValidLedger(env, l) && Find(l, r.Id()) == Some(r) && r.status == Running && ObservationBound(env, r, o)
    requires env.recordShape(RecordedObservation(r, o, now)) && r.identity.createdAt <= now
    ensures Updates(env, l, ObserveAlone(env, l, r.Id(), Some(o), now), RecordedObservation(r, o, now))
  {
    hide ValidLedger;
    hide Authorized;
    hide WithRecord;
    hide Updates;
    hide PersistAlone;
    hide ObservationBound;
    ObservationIsAuthorizedExactly(env, l, r.Id(), o, now);
    PersistedUpdates(env, l, RecordedObservation(r, o, now), RecordObservation);
  }

  lemma IntakeStage(env: Environment, l: Ledger, r: Record, c: CompiledPrompt, outcome: IntakeOutcome, now: int)
    requires ValidLedger(env, l) && Find(l, r.Id()) == Some(r)
    requires r.status == Observed && r.observation.Some? && CompiledMatches(env, r, c)
    requires env.recordShape(RecordedIntake(env, r, outcome, now)) && r.identity.createdAt <= now
    requires outcome.Refused? ==> outcome.reasons != [] && "" !in outcome.reasons
    ensures Updates(env, l, IntakeAlone(env, l, r.Id(), c, outcome, now), RecordedIntake(env, r, outcome, now))
  {
    hide ValidLedger;
    hide Authorized;
    hide WithRecord;
    hide Updates;
    hide PersistAlone;
    hide CompiledMatches;
    IntakeIsAuthorizedExactly(env, l, r.Id(), c, outcome, now);
    PersistedUpdates(env, l, RecordedIntake(env, r, outcome, now), RecordIntake);
  }

  lemma ExecuteStage(env: Environment, l: Ledger, r: Record, c: CompiledPrompt, b: Binding, o: Observation, startedAt: int, recordedAt: int)
    requires ValidLedger(env, l) && Find(l, r.Id()) == Some(r) && r.status == Planned
    requires BindingMatches(env, c, b) && ExactRecord(env, r, c, b, r.identity.executable).Ok?
    requires r.identity.createdAt <= startedAt && r.identity.createdAt <= recordedAt && ObservationBound(env, r, o)
    requires env.recordShape(MarkedRunning(r, startedAt))
    requires env.recordShape(RecordedObservation(MarkedRunning(r, startedAt), o, recordedAt))
    ensures var effect := ExecuteAlone(env, l, r.Id(), c, b, Some(o), startedAt, recordedAt);
      effect.launched && Updates(env, l, effect.ledger, RecordedObservation(MarkedRunning(r, startedAt), o, recordedAt))
  {
    var running := MarkedRunning(r, startedAt);
    assert ObservationBound(env, running, o) && running.Id() == r.Id() && running.status == Running;
    assert RecordedObservation(running, o, recordedAt).Id() == r.Id();
    MarkStage(env, l, r, c, b, startedAt);
    var marked := WithRecord(l, running);
    hide WithRecord;
    hide DecideRun;
    hide ExactRecord;
    hide Authorized;
    hide ObserveAlone;
    hide RecordedObservation;
    hide ObservationBound;
    hide BindingMatches;
    hide ValidLedger;
    ObserveStage(env, marked, running, o, recordedAt);
    hide Updates;
    UpdatesTwice(env, l, marked, ObserveAlone(env, marked, r.Id(), Some(o), recordedAt), running, RecordedObservation(running, o, recordedAt));
  }

  /** What the three operations leave, one after the other. */
  function CompleteAlone(env: Environment, l: Ledger, c: CompiledPrompt, b: Binding, x: Executable, o: Observation, json: string,
                         plannedAt: int, startedAt: int, recordedAt: int, acceptedAt: int): Effect
  {
    var id := ExecutionId(env, c);
    var effect := ExecuteAlone(env, PlanAlone(env, l, c, b, x, plannedAt), id, c, b, Some(o), startedAt, recordedAt);
    Effect(IntakeAlone(env, effect.ledger, id, c, Accepted(json), acceptedAt), effect.launched)
  }

  /**
    Planned, executed with a clean observation of its own, and accepted at intake by a lone client:
    one launch, and the record is VALIDATED with that observation and result under the planned
    identity, while every other record is as it was.
   */
  lemma UndisturbedExecutionCompletes(env: Environment, l: Ledger, c: CompiledPrompt, b: Binding, x: Executable, o: Observation,
                                      json: string, plannedAt: int, startedAt: int, recordedAt: int, acceptedAt: int)
    requires ValidLedger(env, l) && DecidePlan(env, l, c, b, x, plannedAt).Fresh?
    requires plannedAt <= startedAt && plannedAt <= recordedAt && plannedAt <= acceptedAt
    requires forall r: Record :: r.identity == PlannedRecord(env, c, b, x, plannedAt).identity ==> env.recordShape(r)
    requires ObservationBound(env, PlannedRecord(env, c, b, x, plannedAt), o) && Clean(o)
    ensures var done := CompleteAlone(env, l, c, b, x, o, json, plannedAt, startedAt, recordedAt, acceptedAt);
      var identity := PlannedRecord(env, c, b, x, plannedAt).identity;
      done.launched
      && Updates(env, l, done.ledger, Record(identity, Validated, acceptedAt, Some(o), Some(json), Some(env.resultDigest(json)), []))
  {
    CleanMeansObserved(o);
    var planned := PlannedRecord(env, c, b, x, plannedAt);
    PlannedRecordIsGenuine(env, c, b, x, plannedAt);
    var running := MarkedRunning(planned, startedAt);
    var observed := Record(planned.identity, Observed, recordedAt, Some(o), None, None, []);
    assert RecordedObservation(running, o, recordedAt) == observed;
    var validated := Record(planned.identity, Validated, acceptedAt, Some(o), Some(json), Some(env.resultDigest(json)), []);
    assert RecordedIntake(env, observed, Accepted(json), acceptedAt) == validated;
    assert CompiledMatches(env, observed, c);
    var l1 := PlanAlone(env, l, c, b, x, plannedAt);
    assert Updates(env, l, l1, planned) by {
      PlanStage(env, l, c, b, x, plannedAt);
    }
    assert BindingMatches(env, c, b) && planned.Id() == ExecutionId(env, c) == observed.Id();
    assert planned.identity.executable == x && planned.identity.createdAt == plannedAt;
    CompletesFromPlan(env, l, l1, planned, observed, validated, c, b, o, json, startedAt, recordedAt, acceptedAt);
  }

  lemma CompletesFromPlan(env: Environment, l: Ledger, l1: Ledger, planned: Record, observed: Record, validated: Record,
                          c: CompiledPrompt, b: Binding, o: Observation, json: string, startedAt: int, recordedAt: int, acceptedAt: int)
    requires Updates(env, l, l1, planned) && planned.status == Planned
    requires planned.Id() == observed.Id() == validated.Id()
    requires BindingMatches(env, c, b) && ExactRecord(env, planned, c, b, planned.identity.executable).Ok?
    requires planned.identity.createdAt <= startedAt && planned.identity.createdAt <= recordedAt && observed.identity.createdAt <= acceptedAt
    requires ObservationBound(env, planned, o)
    requires env.recordShape(MarkedRunning(planned, startedAt)) && env.recordShape(observed) && env.recordShape(validated)
    requires RecordedObservation(MarkedRunning(planned, startedAt), o, recordedAt) == observed
    requires observed.status == Observed && observed.observation.Some? && CompiledMatches(env, observed, c)
    requires RecordedIntake(env, observed, Accepted(json), acceptedAt) == validated
    ensures var effect := ExecuteAlone(env, l1, planned.Id(), c, b, Some(o), startedAt, recordedAt);
      effect.launched && Updates(env, l, IntakeAlone(env, effect.ledger, planned.Id(), c, Accepted(json), acceptedAt), validated)
  {
    hide ValidLedger;
    hide ExecuteAlone;
    hide IntakeAlone;
    hide RecordedObservation;
    hide RecordedIntake;
    hide CompiledMatches;
    hide BindingMatches;
    hide ExactRecord;
    hide ObservationBound;
    ExecuteStage(env, l1, planned, c, b, o, startedAt, recordedAt);
    var l2 := ExecuteAlone(env, l1, planned.Id(), c, b, Some(o), startedAt, recordedAt).ledger;
    IntakeStage(env, l2, observed, c, Accepted(json), acceptedAt);
    hide Updates;
    UpdatesTwice(env, l, l1, l2, planned, observed);
    UpdatesTwice(env, l, l2, IntakeAlone(env, l2, planned.Id(), c, Accepted(json), acceptedAt), observed, validated);
  }

  // ---------- the objects ----------

  class LedgerStore {
    const env: Environment
    var ledger: Ledger

    constructor (env: Environment)
      ensures this.env == env && ledger == []
    {
      this.env := env;
      ledger := [];
    }

    /** `_replace_authorized`, for a candidate that replaces or adds one record. */
    method ReplaceAuthorized(before: Ledger, record: Record, operation: Operation) returns (ok: bool)
      modifies this
      ensures ok <==> Authorized(env, old(ledger), before, WithRecord(before, record), operation)
      ensures ledger == if ok then WithRecord(before, record) else old(ledger)
      ensures ok ==> record in ledger
    {
      WithRecordHolds(before, record);
      var candidate := WithRecord(before, record);
      ok := ledger == before && ValidLedger(env, candidate) && ValidTransition(before, candidate, operation);
      if ok {
        ledger := candidate;
      }
    }
  }

  class Service {
    const store: LedgerStore
    ghost var launches: multiset<string>

    constructor (store: LedgerStore)
      ensures this.store == store && launches == multiset{}
    {
      this.store := store;
      launches := multiset{};
    }

    method Plan(c: CompiledPrompt, b: Binding, x: Executable, now: int) returns (r: Result<Record, Error>)
      modifies store
      ensures store.ledger == PlanAlone(store.env, old(store.ledger), c, b, x, now)
      ensures r.Err? ==> store.ledger == old(store.ledger)
      ensures r.Ok? ==> r.value in store.ledger && ExactRecord(store.env, r.value, c, b, x).Ok?
    {
      var before := store.ledger;
      match DecidePlan(store.env, before, c, b, x, now) {
        case PlanRefused(error) =>
          r := Err(error);
        case Existing(record) =>
          r := Ok(record);
        case Fresh(record) =>
          var ok := store.ReplaceAuthorized(before, record, PlanWrite);
          r := if ok then Ok(record) else Err(WriteNotAuthorized);
      }
    }

    /** `execute`: `outcome` is what the runtime returns, `None` when it raises. */
    method Execute(id: string, c: CompiledPrompt, b: Binding, outcome: Option<Observation>, startedAt: int, recordedAt: int)
      returns (r: Result<Observation, Error>)
      modifies this, store
      ensures var effect := ExecuteAlone(store.env, old(store.ledger), id, c, b, outcome, startedAt, recordedAt);
        store.ledger == effect.ledger && launches == old(launches) + (if effect.launched then multiset{id} else multiset{})
      ensures r.Ok? ==> outcome == Some(r.value) && launches == old(launches) + multiset{id}
      ensures r.Ok? ==> exists record :: record in store.ledger && record.Id() == id && record.observation == outcome
      ensures r == Err(BlindRetryForbidden) ==> store.ledger == old(store.ledger) && launches == old(launches)
      ensures r == Err(RuntimeOutcomeUncertain) ==> launches == old(launches) + multiset{id}
    {
      hide Authorized;
      hide WithRecord;
      var before := store.ledger;
      var running := DecideRun(store.env, before, id, c, b, startedAt);
      if running.Err? {
        return Err(running.error);
      }
      var marked := store.ReplaceAuthorized(before, running.value, MarkRunning);
      if !marked {
        return Err(WriteNotAuthorized);
      }
      launches := launches + multiset{id};
      if outcome.None? {
        return Err(RuntimeOutcomeUncertain);
      }
      var current := store.ledger;
      var recorded := DecideObservation(current, id, outcome.value, recordedAt);
      if recorded.None? {
        return Err(ExecutionNotFound);
      }
      var persisted := store.ReplaceAuthorized(current, recorded.value, RecordObservation);
      if !persisted {
        return Err(ObservationPersistenceFailed);
      }
      return Ok(outcome.value);
    }

    /** `replay_intake`: `intake` is the outcome of processing the stored observation. */
    method ReplayIntake(id: string, c: CompiledPrompt, intake: IntakeOutcome, now: int) returns (r: Result<IntakeOutcome, Error>)
      modifies store
      ensures store.ledger == IntakeAlone(store.env, old(store.ledger), id, c, intake, now)
      ensures r.Ok? ==> r.value == intake && store.ledger != old(store.ledger)
      ensures r.Ok? ==> exists record :: record in store.ledger && record.Id() == id && record.status == (if intake.Accepted? then Validated else Failed)
      ensures r.Err? ==> store.ledger == old(store.ledger)
    {
      var before := store.ledger;
      var updated := DecideIntake(store.env, before, id, c, intake, now);
      if updated.Err? {
        return Err(updated.error);
      }
      var ok := store.ReplaceAuthorized(before, updated.value, RecordIntake);
      if ok {
        TransitionChangesLedger(before, WithRecord(before, updated.value), RecordIntake);
      }
      r := if ok then Ok(intake) else Err(IntakePersistenceFailed);
    }
  }

  lemma TransitionChangesLedger(before: Ledger, after: Ledger, operation: Operation)
    requires ValidTransition(before, after, operation)
    ensures before != after
  {
    var id :| id in ExecutionIds(after) && Touches(before, after, operation, id);
    TouchedRecordDiffers(before, after, operation, id);
  }
}
