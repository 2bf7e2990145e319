/**
  What the events and the metrics can say about executions that were refused before they started:
  the ledger keeps them, and the projection of the ledger fails on them.
 */
module ExecutionReporting {
  import opened Wrappers
  import opened ExecutionState
  import opened ExecutionRecovery
  import opened ExecutionProtocol
  import Observability

  /** What `_not_started` reports: no process, and no Git state after. */
  predicate NotStarted(o: Observation) {
    o.processId.None? && o.gitAfter.None?
  }

  /** A terminal record, kept under an id, whose observation has no Git state after. */
  predicate HoldsUnfinished(l: Ledger, id: string) {
    Find(l, id).Some? && Observability.Terminal(Find(l, id).value) && Observability.GitAfter(Find(l, id).value).None?
  }

  /** No projector can project a ledger that holds such a record. */
  lemma UnfinishedIsNotProjectable(p: Observability.Projector, l: Ledger, id: string)
    requires HoldsUnfinished(l, id)
    ensures !Observability.Projectable(p, l)
  {
    var i :| 0 <= i < |l| && l[i] == Find(l, id).value;
    assert !Observability.Observed(p, l[i]);
  }

  /**
    A refused start is lawful, and cannot be projected: whenever a running record is observed not to have
    started, the store accepts the write, and no projector can project the ledger that is written.
   */
  lemma RefusedStartIsRecordedButNotProjected(env: Environment, l: Ledger, id: string, o: Observation, now: int, p: Observability.Projector)
    requires ValidLedger(env, l) && Find(l, id).Some? && Find(l, id).value.status == Running && NotStarted(o)
    requires ObservationBound(env, Find(l, id).value, o)
    requires var r := DecideObservation(l, id, o, now).value; env.recordShape(r) && r.identity.createdAt <= now
    ensures var next := WithRecord(l, DecideObservation(l, id, o, now).value);
      Authorized(env, l, l, next, RecordObservation) && HoldsUnfinished(next, id) && !Observability.Projectable(p, next)
  {
    var r := DecideObservation(l, id, o, now).value;
    ObservationIsAuthorizedExactly(env, l, id, o, now);
    ValidLedgerIsOrdered(env, l);
    NotStartedIsUnfinished(Find(l, id).value, o, now);
    hide *;
    WithRecordFinds(l, r);
    UnfinishedIsHeld(WithRecord(l, r), id, r);
    UnfinishedIsNotProjectable(p, WithRecord(l, r), id);
  }

  lemma NotStartedIsUnfinished(r: Record, o: Observation, now: int)
    requires NotStarted(o)
    ensures Observability.Terminal(RecordedObservation(r, o, now)) && Observability.GitAfter(RecordedObservation(r, o, now)).None?
    ensures RecordedObservation(r, o, now).Id() == r.Id()
  {
  }

  lemma UnfinishedIsHeld(l: Ledger, id: string, r: Record)
    requires Find(l, id) == Some(r) && Observability.Terminal(r) && Observability.GitAfter(r).None?
    ensures HoldsUnfinished(l, id)
  {
  }

  /**
    Recording an observation leaves the ledger one that can be projected if and only if the runtime ended
    cleanly, so that the record is not terminal yet, or the observation is complete.
   */
  lemma ProjectedExactlyWhen(env: Environment, l: Ledger, id: string, o: Observation, now: int, p: Observability.Projector)
    requires ValidLedger(env, l) && Find(l, id).Some? && Find(l, id).value.status == Running && Observability.Projectable(p, l)
    ensures var r := DecideObservation(l, id, o, now).value;
      Observability.Projectable(p, WithRecord(l, r))
      <==> ObservationStatus(o).0 == Observed || (p.startedAt(r).Some? && p.gitBefore(r).Some? && o.gitAfter.Some?)
  {
    var r := DecideObservation(l, id, o, now).value;
    ValidLedgerIsOrdered(env, l);
    var i := WithRecordReplaces(l, r);
    UpdateProjected(p, l, i, r);
    hide Observability.Projectable;
    hide WithRecord;
    hide Find;
  }

  /** Replacing a record by one of the same identity. */
  lemma UpdateProjected(p: Observability.Projector, l: Ledger, i: nat, r: Record)
    requires Observability.Projectable(p, l) && i < |l| && l[i].identity == r.identity
    ensures Observability.Projectable(p, l[i := r]) <==> (Observability.Terminal(r) ==> Observability.Observed(p, r))
  {
    hide Observability.Terminal;
    hide Observability.Observed;
    var next := l[i := r];
    assert forall k :: 0 <= k < |l| && k != i ==> next[k] == l[k];
    assert next[i] == r && !Observability.Foreign(p, r);
  }

  // ---------- terminal records stay ----------

  /** A terminal record is never written again. */
  lemma WriteKeepsTerminal(l: Ledger, r: Record, operation: Operation, id: string)
    requires IdOrdered(l) && ValidTransition(l, WithRecord(l, r), operation)
    requires Find(l, id).Some? && Observability.Terminal(Find(l, id).value)
    ensures Find(WithRecord(l, r), id) == Find(l, id)
  {
    WriteMovesForward(l, r, operation);
    hide ValidTransition;
    hide WithRecord;
  }

  lemma StepKeepsTerminal(env: Environment, s: State, a: Action, id: string)
    requires Inv(env, s) && Find(s.ledger, id).Some? && Observability.Terminal(Find(s.ledger, id).value)
    ensures Find(Next(env, true, s, a).ledger, id) == Find(s.ledger, id)
  {
    hide ValidTransition;
    hide WithRecord;
    hide ValidLedger;
    hide Find;
    var client := ClientOf(s, a.client);
    if Preparation(s, a) {
      hide Next;
      PreparationStep(env, s, a);
    } else if a.Authorize? {
      hide Next;
      AuthorizeStep(env, s, a.client);
      if Next(env, true, s, a) != At(s, a.client, Idle) {
        ValidLedgerIsOrdered(env, s.ledger);
        WriteKeepsTerminal(s.ledger, client.record, client.operation, id);
      }
    }
  }

  /** Whatever clients do, a terminal record stays as it is. */
  lemma {:induction false} RunKeepsTerminal(env: Environment, s: State, actions: seq<Action>, id: string)
    requires Inv(env, s) && Find(s.ledger, id).Some? && Observability.Terminal(Find(s.ledger, id).value)
    ensures Find(Run(env, true, s, actions).ledger, id) == Find(s.ledger, id)
    decreases |actions|
  {
    hide Inv;
    hide Next;
    hide Observability.Terminal;
    if actions != [] {
      StepKeepsInv(env, s, actions[0]);
      StepKeepsTerminal(env, s, actions[0], id);
      RunKeepsTerminal(env, Next(env, true, s, actions[0]), actions[1..], id);
    }
  }

  /** After a refused start, no run of clients ever makes the ledger one that can be projected. */
  lemma NeverProjectedAgain(env: Environment, s: State, actions: seq<Action>, id: string, p: Observability.Projector)
    requires Inv(env, s) && HoldsUnfinished(s.ledger, id)
    ensures !Observability.Projectable(p, Run(env, true, s, actions).ledger)
  {
    RunKeepsTerminal(env, s, actions, id);
    hide Inv;
    hide Run;
    UnfinishedIsNotProjectable(p, Run(env, true, s, actions).ledger, id);
  }
}
