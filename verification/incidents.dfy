/**
  Incident records and their lifecycle: `incident_manager.py` and the validation of records in
  `domain/incidents.py`. A fingerprint is an injective hash of a record, so a record here holds its
  predecessor where the source holds the predecessor's fingerprint.
 */
module Incidents {
  import opened Wrappers

  datatype Classification =
    | PersistenceFailure | RecoveryStuck | RemediationLoop | GitWorktreeDivergence | CodexRuntimeFailure
    | ResourceExhaustion | ObservabilityLoss | PolicyBlock | UnknownCriticalState

  datatype Severity = Critical | Error
  datatype State = AcknowledgementRequired | Escalated | Resolved
  datatype Escalation = ObserveOnly | OperatorAckRequired | OperatorActionRequired | EmergencyBlockRecommended

  type Scope = string
  type Correlation = string

  /** What an incident id is derived from. */
  datatype Identity = Identity(scope: Scope, classification: Classification, correlation: Correlation)

  datatype Record = Record(identity: Identity, revision: nat, state: State, escalation: Escalation, openedAt: int, updatedAt: int,
                           occurrences: nat, reopens: nat, reasons: set<string>, sources: set<string>,
                           acknowledgedBy: Option<string>, resolutionSource: Option<string>, previous: Option<Record>)

  datatype Signal = Signal(classification: Classification, correlation: Correlation, sources: set<string>, reasons: set<string>)

  /** `_bounded_sources`, with its digest of the sources that do not fit. */
  type Bounding = set<string> -> set<string>

  function SeverityOf(c: Classification): Severity {
    match c
    case PersistenceFailure | ResourceExhaustion | ObservabilityLoss | UnknownCriticalState => Critical
    case _ => Error
  }

  function OpenState(c: Classification): State {
    if SeverityOf(c) == Critical then Escalated else AcknowledgementRequired
  }

  function OpenEscalation(c: Classification): Escalation {
    if SeverityOf(c) == Critical then EmergencyBlockRecommended else OperatorAckRequired
  }

  /** `_validate_lifecycle`. */
  predicate ValidLifecycle(r: Record) {
    if r.state == Resolved then r.escalation == ObserveOnly && r.resolutionSource.Some? && r.acknowledgedBy.Some?
    else
      && r.resolutionSource.None?
      && if SeverityOf(r.identity.classification) == Critical then r.state == Escalated && r.escalation == EmergencyBlockRecommended
         else if r.acknowledgedBy.None? then r.state == AcknowledgementRequired && r.escalation == OperatorAckRequired
         else r.state == Escalated && r.escalation == OperatorActionRequired
  }

  /** `IncidentRecord.__post_init__`, as far as it concerns counters, times and the revision chain. */
  predicate ValidRecord(r: Record) {
    && r.revision >= 1 && r.occurrences >= 1 && r.reopens < r.occurrences
    && r.openedAt <= r.updatedAt && r.reasons != {} && r.sources != {}
    && (r.revision == 1 <==> r.previous.None?)
    && ValidLifecycle(r)
  }

  function Checked(r: Record): Option<Record> {
    if ValidRecord(r) then Some(r) else None
  }

  // ---------- the operations on one record ----------

  function IdentityOf(scope: Scope, s: Signal): Identity {
    Identity(scope, s.classification, s.correlation)
  }

  /** `_new_record`. */
  function NewRecord(scope: Scope, now: int, s: Signal): Record {
    Record(IdentityOf(scope, s), 1, OpenState(s.classification), OpenEscalation(s.classification), now, now,
           1, 0, s.reasons, s.sources, None, None, None)
  }

  /** `_reopen_record`. */
  function ReopenRecord(now: int, s: Signal, p: Record, bound: Bounding): Record {
    var c := p.identity.classification;
    Record(p.identity, p.revision + 1, OpenState(c), OpenEscalation(c), p.openedAt, now,
           p.occurrences + 1, p.reopens + 1, s.reasons, bound(p.sources + s.sources), None, None, Some(p))
  }

  /** `acknowledge`. */
  function Acknowledge(r: Record, identity: Identity, operator: string, at: int): Option<Record> {
    if r.state == Resolved || identity != r.identity || at < r.updatedAt then None
    else
      var escalation := if SeverityOf(r.identity.classification) == Critical then EmergencyBlockRecommended else OperatorActionRequired;
      Checked(Record(r.identity, r.revision + 1, Escalated, escalation, r.openedAt, at,
                     r.occurrences, r.reopens, r.reasons, r.sources, Some(operator), None, Some(r)))
  }

  datatype Condition = Active | Normalized | Uncertain
  datatype Diagnostic = Diagnostic(classification: Classification, correlation: Correlation, condition: Condition,
                                   source: string, current: bool)
  datatype Resolution = Resolution(identity: Identity, observedAt: int, source: string, operator: string)

  predicate Normalizes(d: Diagnostic, r: Record, source: string) {
    && d.classification == r.identity.classification && d.correlation == r.identity.correlation
    && d.condition == Normalized && d.source == source && d.current
  }

  function CountNormalizing(ds: seq<Diagnostic>, r: Record, source: string): nat {
    if ds == [] then 0
    else (if Normalizes(ds[0], r, source) then 1 else 0) + CountNormalizing(ds[1..], r, source)
  }

  /** `resolve`, given the signals of the current context. */
  function Resolve(r: Record, scope: Scope, now: int, diagnostics: seq<Diagnostic>, signals: map<Identity, Signal>, res: Resolution,
                   bound: Bounding): Option<Record>
  {
    if r.state == Resolved || r.identity.scope != scope || res.identity != r.identity then None
    else if res.observedAt < r.updatedAt || res.observedAt != now then None
    else if CountNormalizing(diagnostics, r, res.source) != 1 then None
    else if exists id | id in signals :: id.classification == UnknownCriticalState then None
    else if r.identity in signals then None
    else Checked(Record(r.identity, r.revision + 1, Resolved, ObserveOnly, r.openedAt, now, r.occurrences, r.reopens, r.reasons,
                        bound(r.sources + {res.source}), Some(res.operator), Some(res.source), Some(r)))
  }

  // ---------- evaluation ----------

  /** The sources of an incident's signals, bounded each time one is added. */
  function MergedSources(scope: Scope, signals: seq<Signal>, id: Identity, bound: Bounding): Option<set<string>> {
    if signals == [] then None
    else
      var n := |signals| - 1;
      var before := MergedSources(scope, signals[..n], id, bound);
      if IdentityOf(scope, signals[n]) != id then before
      else if before.None? then Some(signals[n].sources)
      else Some(bound(before.value + signals[n].sources))
  }

  /** `_merge_signals`: one signal for each incident id. */
  method MergeSignals(scope: Scope, signals: seq<Signal>, bound: Bounding) returns (merged: map<Identity, Signal>)
    ensures forall id :: id in merged <==> exists i :: 0 <= i < |signals| && IdentityOf(scope, signals[i]) == id
    ensures forall id :: id in merged ==> IdentityOf(scope, merged[id]) == id
    ensures forall id :: id in merged ==> MergedSources(scope, signals, id, bound) == Some(merged[id].sources)
    ensures forall id, reason :: id in merged ==>
      (reason in merged[id].reasons <==> exists i :: 0 <= i < |signals| && IdentityOf(scope, signals[i]) == id && reason in signals[i].reasons)
  {
    merged := map[];
    for k := 0 to |signals|
      invariant forall id :: id in merged <==> exists i :: 0 <= i < k && IdentityOf(scope, signals[i]) == id
      invariant forall id :: id in merged ==> IdentityOf(scope, merged[id]) == id
      invariant forall id :: MergedSources(scope, signals[..k], id, bound) == if id in merged then Some(merged[id].sources) else None
      invariant forall id, reason :: id in merged ==>
        (reason in merged[id].reasons <==> exists i :: 0 <= i < k && IdentityOf(scope, signals[i]) == id && reason in signals[i].reasons)
    {
      assert signals[..k + 1][..k] == signals[..k];
      var s := signals[k];
      var id := IdentityOf(scope, s);
      if id !in merged {
        merged := merged[id := s];
      } else {
        merged := merged[id := Signal(s.classification, s.correlation, bound(merged[id].sources + s.sources), merged[id].reasons + s.reasons)];
      }
    }
    assert signals[..|signals|] == signals;
  }

  type Records = map<Identity, Record>

  /** The record of one incident after an evaluation; `None` when it is not in the assessment. */
  function Next(prior: Records, signals: map<Identity, Signal>, scope: Scope, now: int, bound: Bounding, id: Identity): Option<Record> {
    if id in signals then
      if id !in prior then Some(NewRecord(scope, now, signals[id]))
      else if prior[id].state == Resolved then Some(ReopenRecord(now, signals[id], prior[id], bound))
      else Some(prior[id])
    else if id in prior && prior[id].state != Resolved then Some(prior[id])
    else None
  }

  const MAX_INCIDENT_RECORDS: nat := 256

  /** The incidents of an assessment: those with a signal, and those that are open. */
  function AssessedIds(prior: Records, signals: map<Identity, Signal>): set<Identity> {
    signals.Keys + set id | id in prior && prior[id].state != Resolved
  }

  predicate TooMany(ids: set<Identity>) {
    |ids| > MAX_INCIDENT_RECORDS
  }

  /** An assessment: the records, and the incidents whose signals were known already. */
  datatype Assessment = Assessment(records: Records, deduplicated: set<Identity>)

  /** What makes `evaluate` fail: a record of another scope, one that would not be valid, or too many. */
  ghost predicate Refuses(prior: Records, signals: map<Identity, Signal>, scope: Scope, now: int, bound: Bounding) {
    || (exists id :: id in prior && id.scope != scope)
    || (exists id :: Next(prior, signals, scope, now, bound, id).Some? && !ValidRecord(Next(prior, signals, scope, now, bound, id).value))
    || TooMany(AssessedIds(prior, signals))
  }

  /** What `evaluate` yields: for each incident its next record, all of them valid and not too many. */
  ghost predicate Evaluates(prior: Records, signals: map<Identity, Signal>, scope: Scope, now: int, bound: Bounding, r: Option<Assessment>) {
    if r.None? then Refuses(prior, signals, scope, now, bound)
    else
      && (forall id :: id in prior ==> id.scope == scope)
      && r.value.records.Keys == AssessedIds(prior, signals) && !TooMany(AssessedIds(prior, signals))
      && (forall id :: id in r.value.records ==> Some(r.value.records[id]) == Next(prior, signals, scope, now, bound, id))
      && (forall id :: id in r.value.records ==> ValidRecord(r.value.records[id]))
      && r.value.deduplicated == set id | id in signals && id in prior && prior[id].state != Resolved
  }

  /** `evaluate`, from the merged signals on. */
  method Evaluate(prior: Records, signals: map<Identity, Signal>, scope: Scope, now: int, bound: Bounding) returns (r: Option<Assessment>)
    requires forall id :: id in prior ==> ValidRecord(prior[id])
    ensures Evaluates(prior, signals, scope, now, bound, r)
  {
    hide ValidRecord;
    hide NewRecord;
    hide ReopenRecord;
    hide TooMany;
    if exists id | id in prior :: id.scope != scope {
      return None;
    }
    var signalled := EvaluateSignals(prior, signals, scope, now, bound);
    if signalled.None? {
      return None;
    }
    var records := signalled.value.records;
    var kept := map id | id in prior && prior[id].state != Resolved && id !in records :: prior[id];
    var all := records + kept;
    KeptJoin(prior, signals, scope, now, bound, records, kept);
    hide Next;
    hide AssessedIds;
    if TooMany(all.Keys) {
      return None;
    }
    r := Some(Assessment(all, signalled.value.deduplicated));
  }

  /** The records of the signals, and the open ones without a signal, are what is assessed. */
  lemma KeptJoin(prior: Records, signals: map<Identity, Signal>, scope: Scope, now: int, bound: Bounding, records: Records, kept: Records)
    requires records.Keys == signals.Keys && kept == map id | id in prior && prior[id].state != Resolved && id !in records :: prior[id]
    requires forall id :: id in signals ==> Some(records[id]) == Next(prior, signals, scope, now, bound, id)
    ensures (records + kept).Keys == AssessedIds(prior, signals)
    ensures forall id :: id in records + kept ==> Some((records + kept)[id]) == Next(prior, signals, scope, now, bound, id)
    ensures forall id :: id in records + kept ==> (records + kept)[id] == if id in records then records[id] else prior[id]
    ensures forall id :: id in records + kept && id !in records ==> id in prior
  {
  }

  /** The loop over the signals. */
  method EvaluateSignals(prior: Records, signals: map<Identity, Signal>, scope: Scope, now: int, bound: Bounding) returns (r: Option<Assessment>)
    requires forall id :: id in prior ==> ValidRecord(prior[id])
    ensures r.None? ==> exists id :: Next(prior, signals, scope, now, bound, id).Some? && !ValidRecord(Next(prior, signals, scope, now, bound, id).value)
    ensures r.Some? ==> r.value.records.Keys == signals.Keys
    ensures r.Some? ==> forall id :: id in signals ==>
      Some(r.value.records[id]) == Next(prior, signals, scope, now, bound, id) && ValidRecord(r.value.records[id])
    ensures r.Some? ==> r.value.deduplicated == set id | id in signals && id in prior && prior[id].state != Resolved
  {
    hide ValidRecord;
    hide NewRecord;
    hide ReopenRecord;
    var records: Records := map[];
    var deduplicated: set<Identity> := {};
    var todo := signals.Keys;
    while todo != {}
      invariant todo <= signals.Keys && records.Keys == signals.Keys - todo
      invariant forall id :: id in records ==> Some(records[id]) == Next(prior, signals, scope, now, bound, id) && ValidRecord(records[id])
      invariant deduplicated == set id | id in signals && id !in todo && id in prior && prior[id].state != Resolved
      decreases todo
    {
      var id :| id in todo;
      todo := todo - {id};
      var record := if id !in prior then NewRecord(scope, now, signals[id])
                    else if prior[id].state == Resolved then ReopenRecord(now, signals[id], prior[id], bound)
                    else prior[id];
      assert Next(prior, signals, scope, now, bound, id) == Some(record);
      if !ValidRecord(record) {
        return None;
      }
      records := records[id := record];
      if id in prior && prior[id].state != Resolved {
        deduplicated := deduplicated + {id};
      }
    }
    r := Some(Assessment(records, deduplicated));
  }

  lemma StaysOpen(prior: Records, signals: map<Identity, Signal>, scope: Scope, now: int, bound: Bounding, a: Assessment, id: Identity)
    requires Evaluates(prior, signals, scope, now, bound, Some(a)) && id in a.records
    requires forall id :: id in signals ==> id == IdentityOf(scope, signals[id])
    ensures id.scope == scope && a.records[id].state != Resolved
  {
    hide ValidRecord;
    assert Next(prior, signals, scope, now, bound, id) == Some(a.records[id]);
  }

  /** What an assessment's records are like: open, valid, of the scope, and not too many. */
  ghost predicate Settled(records: Records, scope: Scope) {
    && (forall id :: id in records ==> id.scope == scope && records[id].state != Resolved && ValidRecord(records[id]))
    && !TooMany(records.Keys)
  }

  lemma AssessmentIsSettled(prior: Records, signals: map<Identity, Signal>, scope: Scope, now: int, bound: Bounding, a: Assessment)
    requires Evaluates(prior, signals, scope, now, bound, Some(a))
    requires forall id :: id in signals ==> id == IdentityOf(scope, signals[id])
    ensures Settled(a.records, scope)
  {
    hide TooMany;
    hide ValidRecord;
    hide AssessedIds;
    hide Next;
    forall id | id in a.records
      ensures id.scope == scope && a.records[id].state != Resolved
    {
      StaysOpen(prior, signals, scope, now, bound, a, id);
    }
  }

  lemma NothingNew(records: Records, again: map<Identity, Signal>, scope: Scope, later: int, bound: Bounding, id: Identity)
    requires again.Keys <= records.Keys && forall id :: id in records ==> records[id].state != Resolved
    ensures Next(records, again, scope, later, bound, id) == if id in records then Some(records[id]) else None
  {
  }

  lemma NobodyNew(records: Records, again: map<Identity, Signal>)
    requires again.Keys <= records.Keys && forall id :: id in records ==> records[id].state != Resolved
    ensures AssessedIds(records, again) == records.Keys
  {
  }

  /**
    Evaluating again, with the records of an assessment as the prior ones, changes no record,
    whenever every signal is about an incident in the assessment.
   */
  lemma ReevaluationChangesNothing(prior: Records, signals: map<Identity, Signal>, scope: Scope, now: int, bound: Bounding, a: Assessment,
                                   again: map<Identity, Signal>, later: int, r: Option<Assessment>)
    requires Evaluates(prior, signals, scope, now, bound, Some(a)) && again.Keys <= a.records.Keys
    requires forall id :: id in signals ==> id == IdentityOf(scope, signals[id])
    requires Evaluates(a.records, again, scope, later, bound, r)
    ensures r == Some(Assessment(a.records, again.Keys))
  {
    AssessmentIsSettled(prior, signals, scope, now, bound, a);
    SettledStays(a.records, again, scope, later, bound, r);
  }

  lemma SettledStays(records: Records, again: map<Identity, Signal>, scope: Scope, later: int, bound: Bounding, r: Option<Assessment>)
    requires Settled(records, scope) && again.Keys <= records.Keys && Evaluates(records, again, scope, later, bound, r)
    ensures r == Some(Assessment(records, again.Keys))
  {
    hide ValidRecord;
    hide TooMany;
    forall id: Identity {
      NothingNew(records, again, scope, later, bound, id);
    }
    NobodyNew(records, again);
    hide Next;
    hide AssessedIds;
    assert r.Some?;
    assert r.value.records == records;
    assert r.value.deduplicated == again.Keys;
  }

  // ---------- the life of a record ----------

  datatype Event = Opened | Reopened | Acknowledged | ResolvedNow

  /** A record that the operations have produced, and what produced it from its predecessor. */
  ghost predicate Produced(r: Record, bound: Bounding)
    decreases r
  {
    ValidRecord(r) &&
    match r.previous
    case None => exists scope, now, s :: r == NewRecord(scope, now, s)
    case Some(p) =>
      Produced(p, bound) &&
      ( || (p.state == Resolved && exists now, s :: r == ReopenRecord(now, s, p, bound))
        || (exists operator, at :: Acknowledge(p, p.identity, operator, at) == Some(r))
        || (exists scope, now, ds, signals, res :: Resolve(p, scope, now, ds, signals, res, bound) == Some(r)))
  }

  /** A record and its predecessors, the latest last. */
  function Chain(r: Record): (c: seq<Record>)
    ensures |c| > 0 && c[|c| - 1] == r
    decreases r
  {
    if r.previous.None? then [r] else Chain(r.previous.value) + [r]
  }

  function Resolutions(c: seq<Record>): nat {
    if c == [] then 0 else Resolutions(c[..|c| - 1]) + if c[|c| - 1].state == Resolved then 1 else 0
  }

  /** One link of the chain: the identity and the time of opening stay, and the counters follow the event. */
  lemma LinkHolds(r: Record, bound: Bounding)
    requires Produced(r, bound) && r.previous.Some?
    ensures var p := r.previous.value;
      && r.identity == p.identity && r.openedAt == p.openedAt && r.revision == p.revision + 1
      && (r.state == Resolved ==> p.state != Resolved && r.occurrences == p.occurrences && r.reopens == p.reopens)
      && (r.state != Resolved && p.state == Resolved ==> r.occurrences == p.occurrences + 1 && r.reopens == p.reopens + 1)
      && (r.state != Resolved && p.state != Resolved ==> r.occurrences == p.occurrences && r.reopens == p.reopens)
  {
    hide ValidRecord;
  }

  /** Over every life of an incident, the counters count what happened to it. */
  lemma {:induction false} CountersCount(r: Record, bound: Bounding)
    requires Produced(r, bound)
    ensures r.occurrences == r.reopens + 1
    ensures Resolutions(Chain(r)) == r.reopens + if r.state == Resolved then 1 else 0
    ensures |Chain(r)| == r.revision
    decreases r
  {
    var chain := Chain(r);
    if r.previous.Some? {
      var p := r.previous.value;
      CountersCount(p, bound);
      LinkHolds(r, bound);
      assert chain[..|chain| - 1] == Chain(p);
    } else {
      assert chain[..|chain| - 1] == [];
    }
  }

  /** The chain of predecessors is unbroken: revision by revision, of one incident, each record follows the one before. */
  lemma {:induction false} ChainIsUnbroken(r: Record, bound: Bounding, k: nat)
    requires Produced(r, bound) && k < |Chain(r)|
    ensures Chain(r)[k].revision == k + 1 && Chain(r)[k].identity == r.identity && Chain(r)[k].openedAt == r.openedAt
    ensures Chain(r)[k].previous == if k == 0 then None else Some(Chain(r)[k - 1])
    decreases r
  {
    CountersCount(r, bound);
    if r.previous.Some? {
      var p := r.previous.value;
      LinkHolds(r, bound);
      CountersCount(p, bound);
      if k < |Chain(p)| {
        ChainIsUnbroken(p, bound, k);
      }
    }
  }

  /** Every record of an assessment has been produced, if the prior ones have. */
  lemma EvaluationProduces(prior: Records, signals: map<Identity, Signal>, scope: Scope, now: int, bound: Bounding, a: Assessment, id: Identity)
    requires Evaluates(prior, signals, scope, now, bound, Some(a)) && id in a.records
    requires forall i :: i in prior ==> Produced(prior[i], bound)
    ensures Produced(a.records[id], bound)
  {
    var r := a.records[id];
    assert Some(r) == Next(prior, signals, scope, now, bound, id) && ValidRecord(r);
    if id in signals && id in prior && prior[id].state == Resolved {
      assert r == ReopenRecord(now, signals[id], prior[id], bound);
    } else if id in signals && id !in prior {
      assert r == NewRecord(scope, now, signals[id]);
    }
  }

  /** Whatever opens or reopens an incident says why with the reasons of its signal alone, and says so now. */
  lemma OpenedForItsReasons(prior: Records, signals: map<Identity, Signal>, scope: Scope, now: int, bound: Bounding, a: Assessment, id: Identity)
    requires Evaluates(prior, signals, scope, now, bound, Some(a)) && id in a.records && id in signals
    ensures id in prior && prior[id].state != Resolved ==> a.records[id] == prior[id]
    ensures id !in prior || prior[id].state == Resolved ==>
      && a.records[id].reasons == signals[id].reasons && a.records[id].updatedAt == now
      && a.records[id].openedAt == (if id in prior then prior[id].openedAt else now)
      && a.records[id].sources == (if id in prior then bound(prior[id].sources + signals[id].sources) else signals[id].sources)
      && a.records[id].acknowledgedBy.None? && a.records[id].resolutionSource.None?
  {
    assert Some(a.records[id]) == Next(prior, signals, scope, now, bound, id);
  }

  /** Exactly four kinds of incident are critical: while open they recommend an emergency block, whoever has acknowledged them. */
  lemma CriticalAtOnce(r: Record, bound: Bounding)
    requires Produced(r, bound) && r.state != Resolved
    ensures r.escalation == EmergencyBlockRecommended
      <==> r.identity.classification in {PersistenceFailure, ResourceExhaustion, ObservabilityLoss, UnknownCriticalState}
  {
    EscalationFollowsHistory(r, bound);
    hide Produced;
  }

  /** Every record has its reasons and sources, and is not dated before the incident was opened. */
  lemma RecordsAreComplete(r: Record, bound: Bounding)
    requires Produced(r, bound)
    ensures r.reasons != {} && r.sources != {} && r.openedAt <= r.updatedAt
  {
    assert ValidRecord(r);
  }

  /** The signal opens or reopens an incident, and lacks reasons or sources, or comes before the incident was first opened. */
  predicate Lacking(prior: Records, signals: map<Identity, Signal>, now: int, bound: Bounding, id: Identity) {
    && id in signals && (id in prior ==> prior[id].state == Resolved)
    && (|| signals[id].reasons == {}
        || (if id in prior then now < prior[id].openedAt || bound(prior[id].sources + signals[id].sources) == {} else signals[id].sources == {}))
  }

  lemma NextIsValid(prior: Records, signals: map<Identity, Signal>, scope: Scope, now: int, bound: Bounding, id: Identity)
    requires id in prior ==> ValidRecord(prior[id]) && prior[id].identity == id
    requires id in signals ==> id == IdentityOf(scope, signals[id])
    ensures Next(prior, signals, scope, now, bound, id).Some? && !ValidRecord(Next(prior, signals, scope, now, bound, id).value)
      <==> Lacking(prior, signals, now, bound, id)
  {
  }

  lemma SomeNextIsInvalid(prior: Records, signals: map<Identity, Signal>, scope: Scope, now: int, bound: Bounding)
    requires forall id :: id in prior ==> ValidRecord(prior[id]) && prior[id].identity == id
    requires forall id :: id in signals ==> id == IdentityOf(scope, signals[id])
    ensures (exists id :: Next(prior, signals, scope, now, bound, id).Some? && !ValidRecord(Next(prior, signals, scope, now, bound, id).value))
      <==> exists id :: Lacking(prior, signals, now, bound, id)
  {
    hide Next;
    hide ValidRecord;
    hide Lacking;
    hide IdentityOf;
    forall id
      ensures Next(prior, signals, scope, now, bound, id).Some? && !ValidRecord(Next(prior, signals, scope, now, bound, id).value)
        <==> Lacking(prior, signals, now, bound, id)
    {
      NextIsValid(prior, signals, scope, now, bound, id);
    }
  }

  /**
    An evaluation is refused if and only if some record is of another scope, some signal lacks what it takes to open
    or reopen its incident, or there would be more than 256 open incidents.
   */
  lemma RefusesExactlyWhen(prior: Records, signals: map<Identity, Signal>, scope: Scope, now: int, bound: Bounding)
    requires forall id :: id in prior ==> ValidRecord(prior[id]) && prior[id].identity == id
    requires forall id :: id in signals ==> id == IdentityOf(scope, signals[id])
    ensures Refuses(prior, signals, scope, now, bound) <==>
      || (exists id :: id in prior && id.scope != scope)
      || (exists id :: Lacking(prior, signals, now, bound, id))
      || |signals.Keys + set id | id in prior && prior[id].state != Resolved| > 256
  {
    hide Next;
    hide ValidRecord;
    hide Lacking;
    hide IdentityOf;
    SomeNextIsInvalid(prior, signals, scope, now, bound);
  }

  /** Unless they are bounded, the sources of an incident are those of all its signals. */
  lemma {:induction false} SourcesAreJoined(scope: Scope, signals: seq<Signal>, id: Identity, source: string)
    ensures MergedSources(scope, signals, id, Whole).Some? <==> exists i :: 0 <= i < |signals| && IdentityOf(scope, signals[i]) == id
    ensures (exists i :: 0 <= i < |signals| && IdentityOf(scope, signals[i]) == id && source in signals[i].sources)
      <==> MergedSources(scope, signals, id, Whole).Some? && source in MergedSources(scope, signals, id, Whole).value
    decreases |signals|
  {
    if signals != [] {
      var n := |signals| - 1;
      SourcesAreJoined(scope, signals[..n], id, source);
      assert forall i :: 0 <= i < n ==> signals[..n][i] == signals[i];
    }
  }

  /** An operator has acknowledged the incident since it was opened or reopened. */
  predicate AcknowledgedSinceOpening(r: Record) {
    r.state != Resolved && r.previous.Some? && r.previous.value.state != Resolved
  }

  /** What a record recommends follows from its severity and from what has happened since it was last opened. */
  lemma EscalationFollowsHistory(r: Record, bound: Bounding)
    requires Produced(r, bound)
    ensures r.escalation ==
      if r.state == Resolved then ObserveOnly
      else if SeverityOf(r.identity.classification) == Critical then EmergencyBlockRecommended
      else if AcknowledgedSinceOpening(r) then OperatorActionRequired
      else OperatorAckRequired
    ensures r.state != Resolved ==> (r.acknowledgedBy.Some? <==> AcknowledgedSinceOpening(r))
    ensures r.state != Resolved ==>
      (r.state == Escalated <==> SeverityOf(r.identity.classification) == Critical || AcknowledgedSinceOpening(r))
    ensures r.state == Resolved ==> r.previous.Some? && r.previous.value.state != Resolved && r.acknowledgedBy.Some? && r.resolutionSource.Some?
  {
    assert ValidLifecycle(r);
    hide ValidRecord;
    hide NewRecord;
    hide CountNormalizing;
    if r.previous.Some? {
      LinkOfStates(r, bound);
    } else {
      FirstIsOpen(r, bound);
    }
  }

  lemma FirstIsOpen(r: Record, bound: Bounding)
    requires Produced(r, bound) && r.previous.None?
    ensures r.state != Resolved && r.acknowledgedBy.None?
  {
    hide ValidRecord;
  }

  lemma LinkOfStates(r: Record, bound: Bounding)
    requires Produced(r, bound) && r.previous.Some?
    ensures r.state == Resolved ==> r.previous.value.state != Resolved
    ensures r.state != Resolved ==> (r.acknowledgedBy.Some? <==> r.previous.value.state != Resolved)
  {
    hide ValidRecord;
    hide CountNormalizing;
  }

  // ---------- when an operator's operation succeeds ----------

  /** An acknowledgement succeeds if and only if it names the open incident and is not dated back; then the record names the operator. */
  lemma AcknowledgedExactlyWhen(r: Record, identity: Identity, operator: string, at: int)
    requires ValidRecord(r)
    ensures Acknowledge(r, identity, operator, at).Some? <==> r.state != Resolved && identity == r.identity && r.updatedAt <= at
    ensures Acknowledge(r, identity, operator, at).Some? ==>
      var after := Acknowledge(r, identity, operator, at).value;
      && after.acknowledgedBy == Some(operator) && after.updatedAt == at && after.state == Escalated
      && SameMatter(r, after) && after.sources == r.sources
  {
  }

  /** The later record follows the earlier one, of the same incident with the same counters and reasons. */
  predicate SameMatter(r: Record, after: Record) {
    && after.previous == Some(r) && after.identity == r.identity && after.openedAt == r.openedAt
    && after.occurrences == r.occurrences && after.reopens == r.reopens && after.reasons == r.reasons
  }

  /** The diagnosis that an incident is back to normal, from one source and current. */
  function BackToNormal(r: Record, source: string): Diagnostic {
    Diagnostic(r.identity.classification, r.identity.correlation, Normalized, source, true)
  }

  lemma {:induction false} CountMeansOccurrences(ds: seq<Diagnostic>, r: Record, source: string)
    ensures CountNormalizing(ds, r, source) == multiset(ds)[BackToNormal(r, source)]
  {
    if ds != [] {
      CountMeansOccurrences(ds[1..], r, source);
      assert ds == [ds[0]] + ds[1..];
      assert Normalizes(ds[0], r, source) <==> ds[0] == BackToNormal(r, source);
    }
  }

  /**
    A resolution succeeds if and only if it names the open incident, is dated now and not before the
    record, exactly one current diagnosis says that the incident is back to normal, and no signal says
    otherwise: neither of this incident nor of an unknown critical state. The record then names the
    operator and the source.
   */
  lemma ResolvedExactlyWhen(r: Record, scope: Scope, now: int, ds: seq<Diagnostic>, signals: map<Identity, Signal>, res: Resolution,
                            bound: Bounding)
    requires ValidRecord(r)
    ensures Resolve(r, scope, now, ds, signals, res, bound).Some?
      <==> r.state != Resolved && r.identity.scope == scope && res.identity == r.identity
           && r.updatedAt <= res.observedAt && res.observedAt == now
           && multiset(ds)[BackToNormal(r, res.source)] == 1
           && r.identity !in signals && (forall id :: id in signals ==> id.classification != UnknownCriticalState)
           && bound(r.sources + {res.source}) != {}
    ensures Resolve(r, scope, now, ds, signals, res, bound).Some? ==>
      var after := Resolve(r, scope, now, ds, signals, res, bound).value;
      && after.acknowledgedBy == Some(res.operator) && after.resolutionSource == Some(res.source) && after.updatedAt == now
      && SameMatter(r, after) && after.sources == bound(r.sources + {res.source})
  {
    CountMeansOccurrences(ds, r, res.source);
    hide CountNormalizing;
  }

  // ---------- where time is not checked ----------

  /** The times of a chain do not run backwards. */
  ghost predicate Chronological(r: Record)
    decreases r
  {
    r.previous.Some? ==> r.previous.value.updatedAt <= r.updatedAt && Chronological(r.previous.value)
  }

  /** A reopening is the one operation that does not compare: times still run forwards if and only if it is not dated back. */
  lemma ReopeningKeepsTimeExactlyWhen(now: int, s: Signal, p: Record, bound: Bounding)
    ensures Chronological(ReopenRecord(now, s, p, bound)) <==> Chronological(p) && p.updatedAt <= now
  {
    assert ReopenRecord(now, s, p, bound).previous == Some(p);
  }

  /** An acknowledgement never dates a record back. */
  lemma AcknowledgingKeepsTime(p: Record, identity: Identity, operator: string, at: int)
    requires Acknowledge(p, identity, operator, at).Some?
    ensures Chronological(Acknowledge(p, identity, operator, at).value) <==> Chronological(p)
  {
    hide ValidRecord;
    assert Acknowledge(p, identity, operator, at).value.previous == Some(p);
  }

  /** Neither does a resolution. */
  lemma ResolvingKeepsTime(p: Record, scope: Scope, now: int, ds: seq<Diagnostic>, signals: map<Identity, Signal>, res: Resolution, bound: Bounding)
    requires Resolve(p, scope, now, ds, signals, res, bound).Some?
    ensures Chronological(Resolve(p, scope, now, ds, signals, res, bound).value) <==> Chronological(p)
  {
    hide ValidRecord;
    hide CountNormalizing;
    assert Resolve(p, scope, now, ds, signals, res, bound).value.previous == Some(p);
  }

  /** The evaluation reopens nothing that was resolved later than the evaluation. */
  predicate ReopensInTime(prior: Records, signals: map<Identity, Signal>, now: int) {
    forall id | id in signals && id in prior && prior[id].state == Resolved :: prior[id].updatedAt <= now
  }

  /** An evaluation keeps all times running forwards if and only if no resolved incident with a signal is dated after it. */
  lemma EvaluationKeepsTimeExactlyWhen(prior: Records, signals: map<Identity, Signal>, scope: Scope, now: int, bound: Bounding, a: Assessment)
    requires Evaluates(prior, signals, scope, now, bound, Some(a)) && forall id :: id in prior ==> Chronological(prior[id])
    ensures (forall id :: id in a.records ==> Chronological(a.records[id])) <==> ReopensInTime(prior, signals, now)
  {
    hide ValidRecord;
    forall id | id in a.records
      ensures Chronological(a.records[id])
        <==> (id in signals && id in prior && prior[id].state == Resolved ==> prior[id].updatedAt <= now)
    {
      assert Some(a.records[id]) == Next(prior, signals, scope, now, bound, id);
      if id in signals && id in prior && prior[id].state == Resolved {
        ReopeningKeepsTimeExactlyWhen(now, signals[id], prior[id], bound);
      }
    }
  }

  /** Some recurrence is recorded at a time before the resolution it follows. */
  ghost predicate ReopenedEarly(r: Record)
    decreases r
  {
    r.previous.Some? &&
    ((r.previous.value.state == Resolved && r.updatedAt < r.previous.value.updatedAt) || ReopenedEarly(r.previous.value))
  }

  /** The times of a life run forwards exactly when no recurrence is evaluated before the resolution it follows. */
  lemma {:induction false} ChronologicalExactlyWhen(r: Record, bound: Bounding)
    requires Produced(r, bound)
    ensures Chronological(r) <==> !ReopenedEarly(r)
    decreases r
  {
    if r.previous.Some? {
      var p := r.previous.value;
      ChronologicalExactlyWhen(p, bound);
      LinkKeepsTime(r, bound);
    }
  }

  /** One link of a life: only a reopening can be dated back. */
  lemma LinkKeepsTime(r: Record, bound: Bounding)
    requires Produced(r, bound) && r.previous.Some?
    ensures var p := r.previous.value;
      Chronological(r) <==> Chronological(p) && (p.state == Resolved ==> p.updatedAt <= r.updatedAt)
  {
    hide ValidRecord;
    hide Chronological;
    hide CountNormalizing;
    var p := r.previous.value;
    if operator, at :| Acknowledge(p, p.identity, operator, at) == Some(r) {
      AcknowledgingKeepsTime(p, p.identity, operator, at);
    } else if scope, now, ds, signals, res :| Resolve(p, scope, now, ds, signals, res, bound) == Some(r) {
      ResolvingKeepsTime(p, scope, now, ds, signals, res, bound);
    } else {
      var now, s :| r == ReopenRecord(now, s, p, bound);
      ReopeningKeepsTimeExactlyWhen(now, s, p, bound);
    }
  }

  function Whole(s: set<string>): set<string> { s }

  /** Such a recurrence is accepted: resolved at 10, reopened at 5. */
  lemma RecurrenceCanPredateResolution()
    ensures exists r: Record :: Produced(r, Whole) && !Chronological(r)
  {
    var s := Signal(PolicyBlock, "operation", {"source"}, {"GOVERNANCE_BLOCK"});
    var first := NewRecord("scope", 0, s);
    var d := Diagnostic(PolicyBlock, "operation", Normalized, "normal", true);
    var res := Resolution(first.identity, 10, "normal", "operator");
    var nothing: map<Identity, Signal> := map[];
    assert CountNormalizing([d], first, "normal") == 1 by {
      assert [d][1..] == [];
    }
    var closed := Resolve(first, "scope", 10, [d], nothing, res, Whole).value;
    var reopened := ReopenRecord(5, s, closed, Whole);
    assert "source" in first.sources && "source" in closed.sources && "source" in reopened.sources;
    assert "GOVERNANCE_BLOCK" in first.reasons;
    assert Produced(first, Whole);
    assert Resolve(first, "scope", 10, [d], nothing, res, Whole) == Some(closed);
    assert Produced(closed, Whole);
    assert Produced(reopened, Whole) && !Chronological(reopened);
  }
}
