/** The way of an execution through its statuses, over every serialized run of the protocol. */
module ExecutionLifecycle {
  import opened Wrappers
  import opened Ordering
  import opened Stages
  import opened ExecutionState
  import opened ExecutionRecovery
  import opened ExecutionProtocol

  /** The statuses under an execution id during a run, from its first state on; none while nothing is recorded. */
  function History(env: Environment, s: State, actions: seq<Action>, id: string): seq<Status>
    decreases |actions|
  {
    var found := Find(s.ledger, id);
    (if found.Some? then [found.value.status] else [])
    + if actions == [] then [] else History(env, Next(env, true, s, actions[0]), actions[1..], id)
  }

  /** The whole way to a status. */
  function Way(status: Status): seq<Status> {
    match status
    case Planned => [Planned]
    case Running => [Planned, Running]
    case Observed => [Planned, Running, Observed]
    case Validated => [Planned, Running, Observed, Validated]
    case Failed => [Planned, Running, Failed]
    case Interrupted => [Planned, Running, Interrupted]
  }

  /** What is left of the way to a status. */
  function Rest(from: Status, end: Status): seq<Status> {
    if from == end then []
    else
      match from
      case Planned => Way(end)[1..]
      case Running => if end == Planned then [] else Way(end)[2..]
      case _ => [end]
  }

  /** The moves of a status, in words: on to the next one, or to its end with nothing validated. */
  predicate Moves(before: Status, after: Status) {
    || (before, after) in [(Planned, Running), (Running, Observed), (Observed, Validated)]
    || (after == Failed && before in {Running, Observed})
    || (after == Interrupted && before == Running)
  }

  /** The store's table lets a status make these moves, each by one operation, and no other. */
  lemma RulesInWords(before: Status, after: Status)
    ensures Moves(before, after) <==> exists operation :: Rule(operation, before, after)
    ensures Moves(before, after) ==>
      var operation := if after == Running then MarkRunning else if before == Running then RecordObservation else RecordIntake;
      forall other :: Rule(other, before, after) <==> other == operation
  {
    if Moves(before, after) {
      assert Rule(if after == Running then MarkRunning else if before == Running then RecordObservation else RecordIntake, before, after);
    }
  }

  ghost predicate Evolves(before: Option<Record>, after: Option<Record>) {
    || after == before
    || (before.None? && after.Some? && after.value.status == Planned)
    || (before.Some? && after.Some? && after.value.identity == before.value.identity && Moves(before.value.status, after.value.status))
  }

  lemma WriteEvolves(l: Ledger, r: Record, operation: Operation, id: string)
    requires IdOrdered(l) && ValidTransition(l, WithRecord(l, r), operation)
    ensures Evolves(Find(l, id), Find(WithRecord(l, r), id))
  {
    WriteTouchesItsRecord(l, r, operation);
    hide ValidTransition;
    hide Touches;
    hide Find;
    hide Moves;
    if id != r.Id() {
      TouchesOnlyOne(l, WithRecord(l, r), operation, r.Id(), id);
    } else {
      TouchedEvolves(l, WithRecord(l, r), operation, id);
    }
  }

  lemma TouchedEvolves(before: Ledger, after: Ledger, operation: Operation, id: string)
    requires Touches(before, after, operation, id)
    ensures Evolves(Find(before, id), Find(after, id))
  {
    if operation != PlanWrite {
      RulesInWords(Find(before, id).value.status, Find(after, id).value.status);
    }
    hide ExecutionIds;
    hide Moves;
  }

  lemma StepEvolves(env: Environment, s: State, a: Action, id: string)
    requires Inv(env, s)
    ensures Evolves(Find(s.ledger, id), Find(Next(env, true, s, a).ledger, id))
  {
    hide ValidTransition;
    hide WithRecord;
    hide ValidLedger;
    hide Find;
    hide Moves;
    var client := ClientOf(s, a.client);
    if Preparation(s, a) {
      hide Next;
      PreparationStep(env, s, a);
    } else if a.Authorize? {
      hide Next;
      AuthorizeStep(env, s, a.client);
      if Next(env, true, s, a) != At(s, a.client, Idle) {
        ValidLedgerIsOrdered(env, s.ledger);
        WriteEvolves(s.ledger, client.record, client.operation, id);
      }
    }
  }

  /** The end can still be reached. */
  predicate Open(from: Status, end: Status) {
    from == end || from == Planned || (from == Running && end != Planned) || (from == Observed && end in {Validated, Failed})
  }

  /** A move takes the next stage on the way to an end that stays open, or none of them. */
  lemma MoveOnTheWay(before: Status, after: Status, end: Status)
    requires Moves(before, after) && Open(after, end)
    ensures Open(before, end) && (Rest(before, end) == [after] + Rest(after, end) || Rest(before, end) == Rest(after, end))
  {
  }

  lemma MovePasses(history: seq<Status>, before: Status, after: Status, end: Status)
    requires Moves(before, after) && Open(after, end)
    requires history != [] && history[0] == after && Passes(history[1..], Rest(after, end))
    ensures Open(before, end) && Passes(history, Rest(before, end))
  {
    MoveOnTheWay(before, after, end);
    hide *;
    if Rest(before, end) == Rest(after, end) {
      PassesAfter(history, 1, Rest(before, end));
    } else {
      assert Rest(before, end)[1..] == Rest(after, end);
      PassesFirst(history, Rest(before, end));
    }
  }

  /** In every run an execution passes all that is left of the way to the status it ends in. */
  lemma {:induction false} PassesTheRest(env: Environment, s: State, actions: seq<Action>, id: string)
    requires Inv(env, s) && Find(s.ledger, id).Some?
    ensures var end := Find(Run(env, true, s, actions).ledger, id);
      && end.Some? && Open(Find(s.ledger, id).value.status, end.value.status)
      && Passes(History(env, s, actions, id)[1..], Rest(Find(s.ledger, id).value.status, end.value.status))
    decreases |actions|
  {
    hide Inv;
    hide Next;
    hide Moves;
    hide Find;
    hide Passes;
    if actions == [] {
      assert Passes(History(env, s, actions, id)[1..], []) by {
        NothingToPass(History(env, s, actions, id)[1..]);
      }
    } else {
      var next := Next(env, true, s, actions[0]);
      StepKeepsInv(env, s, actions[0]);
      StepEvolves(env, s, actions[0], id);
      PassesTheRest(env, next, actions[1..], id);
      var history := History(env, next, actions[1..], id);
      var before, after := Find(s.ledger, id).value.status, Find(next.ledger, id).value.status;
      var end := Find(Run(env, true, s, actions).ledger, id).value.status;
      assert History(env, s, actions, id)[1..] == history && history[0] == after;
      if Moves(before, after) {
        MovePasses(history, before, after, end);
      } else {
        PassesAfter(history, 1, Rest(before, end));
      }
    }
  }

  lemma NothingToPass(history: seq<Status>)
    ensures Passes(history, [])
  {
  }

  /** The same from before it is planned: an execution passes the whole way. */
  lemma {:induction false} PassesTheWholeWay(env: Environment, s: State, actions: seq<Action>, id: string)
    requires Inv(env, s) && Find(s.ledger, id).None?
    requires Find(Run(env, true, s, actions).ledger, id).Some?
    ensures Passes(History(env, s, actions, id), Way(Find(Run(env, true, s, actions).ledger, id).value.status))
    decreases |actions|
  {
    hide Inv;
    hide Next;
    hide Moves;
    hide Find;
    hide Passes;
    var next := Next(env, true, s, actions[0]);
    StepKeepsInv(env, s, actions[0]);
    StepEvolves(env, s, actions[0], id);
    var history := History(env, next, actions[1..], id);
    assert History(env, s, actions, id) == history;
    if Find(next.ledger, id).None? {
      PassesTheWholeWay(env, next, actions[1..], id);
    } else {
      PassesTheRest(env, next, actions[1..], id);
      var end := Find(Run(env, true, s, actions).ledger, id).value.status;
      assert Way(end)[0] == Planned && Way(end)[1..] == Rest(Planned, end);
      PassesFirst(history, Way(end));
    }
  }

  /**
    Main result: however clients interleave and crash, every record has come to its status by the whole way,
    no stage left out: it was planned, marked as running before the runtime was called, observed before
    anything was made of its result, and only then validated.
   */
  lemma EveryStatusIsReachedInOrder(env: Environment, actions: seq<Action>, r: Record)
    requires r in Run(env, true, Initial, actions).ledger
    ensures Passes(History(env, Initial, actions, r.Id()), Way(r.status))
  {
    hide Passes;
    hide Run;
    InitialInv(env);
    PersistedLedgersAreValid(env, true, actions);
    FoundUnderItsId(env, Run(env, true, Initial, actions).ledger, r);
    PassesTheWholeWay(env, Initial, actions, r.Id());
  }

  lemma FoundUnderItsId(env: Environment, l: Ledger, r: Record)
    requires ValidLedger(env, l) && r in l
    ensures Find(l, r.Id()) == Some(r)
  {
    ValidLedgerIsOrdered(env, l);
    var found := Find(l, r.Id()).value;
    var i, j :| 0 <= i < |l| && 0 <= j < |l| && l[i] == r && l[j] == found;
    if i != j {
      assert false;
    }
  }
}
