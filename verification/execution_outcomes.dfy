/**
  What the outcomes in the ledger say about what the runtime reported, in every run of the protocol.
 */
module ExecutionOutcomes {
  import opened Wrappers
  import opened Ordering
  import opened ExecutionState
  import opened ExecutionRecovery
  import opened ExecutionProtocol

  /** The runtime ran to its end, and neither it nor its tools failed. */
  predicate Clean(o: Observation) {
    !o.timedOut && !o.interrupted && o.processId.Some? && o.exitCode == Some(0) && !o.toolFailureObserved
  }

  /** The status of a record tells what was observed. */
  predicate Truthful(r: Record) {
    match r.status
    case Planned | Running => r.observation.None?
    case Observed | Validated => r.observation.Some? && Clean(r.observation.value)
    case Failed => r.observation.Some? && !r.observation.value.timedOut && !r.observation.value.interrupted
    case Interrupted => r.observation.Some? && (r.observation.value.timedOut || r.observation.value.interrupted)
  }

  ghost predicate AllTruthful(l: Ledger) {
    forall r :: r in l ==> Truthful(r)
  }

  /** The ledger is truthful, and so is everything a client is about to write. */
  ghost predicate TruthfulState(s: State) {
    && AllTruthful(s.ledger)
    && forall c :: c in s.clients ==> TruthfulClient(s.clients[c])
  }

  ghost predicate TruthfulClient(client: Client) {
    client.Persisting? || client.Approved? ==> AllTruthful(client.before) && Truthful(client.record)
  }

  lemma {:induction false} WriteStaysTruthful(l: Ledger, r: Record)
    requires AllTruthful(l) && Truthful(r)
    ensures AllTruthful(WithRecord(l, r))
  {
    hide Truthful;
    if l != [] && l[0].Id() != r.Id() && !StringLeq(r.Id(), l[0].Id()) {
      WriteStaysTruthful(l[1..], r);
    }
  }

  /** What the runtime reported decides the status; nothing but an accepted intake adds to it. */
  lemma DecisionsAreTruthful(env: Environment, l: Ledger, a: Action, id: string, observation: Observation)
    requires AllTruthful(l)
    ensures a.BeginPlan? && DecidePlan(env, l, a.compiled, a.binding, a.executable, a.now).Fresh? ==>
      Truthful(DecidePlan(env, l, a.compiled, a.binding, a.executable, a.now).record)
    ensures a.BeginExecute? && DecideRun(env, l, a.id, a.compiled, a.binding, a.now).Ok? ==>
      Truthful(DecideRun(env, l, a.id, a.compiled, a.binding, a.now).value)
    ensures a.BeginRecord? && DecideObservation(l, id, observation, a.now).Some? ==>
      Truthful(DecideObservation(l, id, observation, a.now).value)
    ensures a.BeginIntake? && DecideIntake(env, l, a.id, a.compiled, a.intake, a.now).Ok? ==>
      Truthful(DecideIntake(env, l, a.id, a.compiled, a.intake, a.now).value)
  {
    hide BindingMatches;
    hide CompiledMatches;
    hide SemanticFingerprint;
  }

  lemma StepKeepsTruth(env: Environment, serialized: bool, s: State, a: Action)
    requires TruthfulState(s)
    ensures TruthfulState(Next(env, serialized, s, a))
  {
    var client := ClientOf(s, a.client);
    if client.Persisting? || client.Approved? {
      assert TruthfulClient(client);
      WriteStaysTruthful(client.before, client.record);
      if s.ledger == client.before || a.Authorize? {
        WriteStaysTruthful(s.ledger, client.record);
      }
    }
    if client.Returned? {
      DecisionsAreTruthful(env, s.ledger, a, client.id, client.observation);
    } else if a.BeginPlan? || a.BeginExecute? || a.BeginIntake? {
      DecisionsAreTruthful(env, s.ledger, a, "", Observation("", "", "", None, None, None, None, None, false, false, false, None));
    }
    hide AllTruthful;
    hide Truthful;
    hide WithRecord;
    hide Authorized;
    hide DecidePlan;
    hide DecideRun;
    hide DecideObservation;
    hide DecideIntake;
  }

  lemma {:induction false} RunKeepsTruth(env: Environment, serialized: bool, s: State, actions: seq<Action>)
    requires TruthfulState(s)
    ensures TruthfulState(Run(env, serialized, s, actions))
    decreases |actions|
  {
    hide TruthfulState;
    hide Next;
    if actions != [] {
      StepKeepsTruth(env, serialized, s, actions[0]);
      RunKeepsTruth(env, serialized, Next(env, serialized, s, actions[0]), actions[1..]);
    }
  }

  /** What an observation says about the request, the place and the executable is what was planned. */
  predicate FromThePlannedExecution(env: Environment, o: Observation, planned: Identity) {
    && (o.requestId, o.contextFingerprint, env.pathKey(o.cwd)) == (planned.requestId, planned.contextFingerprint, env.pathKey(planned.cwd))
    && (o.executablePath.Some? ==> env.pathKey(o.executablePath.value) == env.pathKey(planned.executable.path))
    && o.executableVersion in [None, Some(planned.executable.version)]
    && o.executableSha256 in [None, Some(planned.executable.sha256)]
  }

  /** What is kept beside the status: a result exactly when one was accepted, reasons exactly when there is none to come. */
  predicate TellsItsStory(env: Environment, r: Record) {
    && (r.observation.Some? <==> r.status !in {Planned, Running})
    && (r.resultJson.Some? <==> r.status == Validated)
    && r.resultFingerprint == (if r.resultJson.Some? then Some(env.resultDigest(r.resultJson.value)) else None)
    && (r.failureReasons != [] <==> r.status in {Failed, Interrupted}) && "" !in r.failureReasons
    && r.identity.createdAt <= r.updatedAt
  }

  lemma ValidTellsItsStory(env: Environment, r: Record)
    requires ValidRecord(env, r)
    ensures TellsItsStory(env, r)
  {
    hide RecordSemanticFingerprint;
    hide RecordExecutionId;
    hide ObservationBound;
  }

  /**
    In every run, serialized or not: an execution is OBSERVED or VALIDATED only if its runtime ended
    cleanly, INTERRUPTED exactly if it was cut off, and no observation is kept before there is one,
    nor one of another execution. A result is kept exactly for what was validated.
   */
  lemma OutcomesAreTruthful(env: Environment, serialized: bool, actions: seq<Action>, r: Record)
    requires r in Run(env, serialized, Initial, actions).ledger
    ensures Truthful(r) && TellsItsStory(env, r)
    ensures r.observation.Some? ==> FromThePlannedExecution(env, r.observation.value, r.identity)
  {
    RunKeepsTruth(env, serialized, Initial, actions);
    PersistedLedgersAreValid(env, serialized, actions);
    hide Run;
    assert ValidRecord(env, r);
    ValidTellsItsStory(env, r);
    hide StatusPayload;
    hide TellsItsStory;
    hide RecordSemanticFingerprint;
    hide Truthful;
  }

  /** A clean observation becomes an OBSERVED record, and no other does. */
  lemma CleanMeansObserved(o: Observation)
    ensures ObservationStatus(o).0 == Observed <==> Clean(o)
    ensures ObservationStatus(o).0 == Interrupted <==> o.timedOut || o.interrupted
    ensures ObservationStatus(o).1 == [] <==> Clean(o)
  {
  }
}
