/** Stories, evidence, gates and certifications, and what the certification rules say about them. */
module Certification {
  import opened Wrappers
  import opened Domain
  import opened Ordering

  datatype GateResult = Pass | Fail | Unknown | NotApplicable
  datatype Verdict = Certified | Rejected | Blocked

  datatype EvidenceKind =
    | CommandResult | TestResult | GitStateSeen | FileInspection | ReviewResult
    | HumanDecision | AcceptanceCriterionCheck

  datatype Instant = Instant(at: int, aware: bool)

  /** An evidence result: a truth value, or any other JSON value. */
  datatype Finding = Flag(holds: bool) | Other(text: string)

  datatype Evidence = Evidence(id: string, kind: EvidenceKind, subject: string, result: Finding, source: string,
                               command: Option<string>, exitCode: Option<int>, artifact: Option<string>,
                               commit: Option<string>, timestamp: Instant, producer: string)

  datatype Gate = Gate(id: string, subject: string, required: bool, result: GateResult, refs: seq<string>,
                       evaluatedAt: Instant, evaluator: string)

  datatype Criterion = Criterion(id: string, mandatory: bool)

  datatype Approval = Approval(required: bool, approved: bool, approvedBy: Option<string>,
                               approvedAt: Option<Instant>, evidenceRef: Option<string>)

  datatype Story = Story(id: string, status: StoryStatus, dependsOn: seq<string>, criteria: seq<Criterion>,
                         requiredGates: seq<string>, approval: Approval, updatedAt: Instant)

  datatype HumanRecord = HumanRecord(required: bool, approved: bool, evidenceRef: Option<string>, result: Option<GateResult>)

  datatype Certification = Certification(id: string, subject: string, result: Verdict, commit: string,
                                         acceptance: map<string, GateResult>, gates: map<string, GateResult>,
                                         human: HumanRecord, refs: seq<string>, certifiedAt: Instant,
                                         certifier: string, authorized: seq<string>)

  /** The contract validator, the identity checks and case folding, which this model does not look into. */
  datatype Rules = Rules(storyIsValid: Story -> bool, evidenceIsValid: Evidence -> bool, gateIsValid: Gate -> bool,
                         certificationIsValid: Certification -> bool, isHuman: string -> bool,
                         attributableHuman: string -> bool, isCodex: string -> bool, codexRole: string -> bool,
                         isBlank: string -> bool)

  function EvidenceId(e: Evidence): string { e.id }
  function GateId(g: Gate): string { g.id }
  function CriterionOf(a: AcceptanceResult): string { a.criterion }

  // ---------- looking up by id ----------

  /** All items with an id, in their order. */
  function Named<T>(items: seq<T>, key: T -> string, id: string): (r: seq<T>)
    ensures forall i :: 0 <= i < |r| ==> r[i] in items && key(r[i]) == id
  {
    if items == [] then []
    else (if key(items[0]) == id then [items[0]] else []) + Named(items[1..], key, id)
  }

  /** The item, where there is exactly one. */
  function Lone<T>(items: seq<T>): (r: Option<T>)
    ensures r.Some? ==> items == [r.value]
  {
    if |items| == 1 then Some(items[0]) else None
  }

  /** The item with an id, if there is exactly one. */
  function Only<T>(items: seq<T>, key: T -> string, id: string): (r: Option<T>)
    ensures r.Some? ==> r.value in items && key(r.value) == id
  {
    Lone(Named(items, key, id))
  }

  lemma {:induction false} NamedAppend<T>(items: seq<T>, key: T -> string, id: string, x: T)
    ensures Named(items + [x], key, id) == Named(items, key, id) + if key(x) == id then [x] else []
  {
    if items != [] {
      assert (items + [x])[1..] == items[1..] + [x];
      NamedAppend(items[1..], key, id, x);
    }
  }

  lemma {:induction false} NamedNone<T>(items: seq<T>, key: T -> string, id: string)
    ensures Named(items, key, id) == [] <==> forall i :: 0 <= i < |items| ==> key(items[i]) != id
  {
    if items != [] {
      NamedNone(items[1..], key, id);
      assert forall i :: 1 <= i < |items| ==> items[i] == items[1..][i - 1];
    }
  }

  /** What is found under an id does not change when an item with another id is appended. */
  lemma OnlyAppend<T>(items: seq<T>, key: T -> string, id: string, x: T)
    ensures key(x) != id ==> Only(items + [x], key, id) == Only(items, key, id)
    ensures Only(items, key, id).Some? && (forall i :: 0 <= i < |items| ==> key(items[i]) != key(x)) ==>
      Only(items + [x], key, id) == Only(items, key, id)
  {
    NamedAppend(items, key, id, x);
    NamedNone(items, key, id);
  }

  function Index<T>(index: map<string, seq<T>>, id: string): seq<T> {
    if id in index then index[id] else []
  }

  /** `_index_by_id`: a dictionary from ids to all items with that id. */
  method IndexById<T>(items: seq<T>, key: T -> string) returns (index: map<string, seq<T>>)
    ensures forall id :: Index(index, id) == Named(items, key, id)
  {
    index := map[];
    assert items[..0] == [];
    for i := 0 to |items|
      invariant forall id :: Index(index, id) == Named(items[..i], key, id)
    {
      assert items[..i + 1] == items[..i] + [items[i]];
      forall id {
        NamedAppend(items[..i], key, id, items[i]);
      }
      index := index[key(items[i]) := Index(index, key(items[i])) + [items[i]]];
    }
    assert items[..|items|] == items;
  }

  // ---------- the request ----------

  /** `AcceptanceResult`; `None` is a text that is no gate result. */
  datatype AcceptanceResult = AcceptanceResult(criterion: string, result: Option<GateResult>, refs: seq<string>)

  datatype Context = Context(stale: set<string>, independent: set<string>, allowedNotApplicable: set<string>,
                             humanEvidence: Option<string>)

  datatype Request = Request(story: Story, commit: string, acceptance: seq<AcceptanceResult>, gates: seq<Gate>,
                             evidence: seq<Evidence>, certifier: string, context: Context)

  // ---------- evidence references ----------

  predicate ReferenceHolds(q: Request, rules: Rules, subject: string, id: string) {
    match Only(q.evidence, EvidenceId, id)
    case None => false
    case Some(e) =>
      && rules.evidenceIsValid(e) && e.subject == subject && id !in q.context.stale
      && (if id in q.context.independent && e.commit.None? then true else e.commit == Some(q.commit))
  }

  predicate Resolves(q: Request, rules: Rules, subject: string, refs: seq<string>) {
    refs != [] && Distinct(refs) && forall i | 0 <= i < |refs| :: ReferenceHolds(q, rules, subject, refs[i])
  }

  predicate IsCheck(q: Request, id: string) {
    var e := Only(q.evidence, EvidenceId, id);
    e.Some? && e.value.kind == AcceptanceCriterionCheck && e.value.result.Flag?
  }

  predicate IsPositive(q: Request, id: string) {
    var e := Only(q.evidence, EvidenceId, id);
    e.Some? && e.value.result == Flag(true)
  }

  /** `_acceptance_evidence_supports`. */
  predicate Supports(q: Request, result: GateResult, refs: seq<string>) {
    match result
    case Pass => forall i | 0 <= i < |refs| :: IsCheck(q, refs[i]) && IsPositive(q, refs[i])
    case Fail =>
      && (forall i | 0 <= i < |refs| :: IsCheck(q, refs[i]))
      && (exists i | 0 <= i < |refs| :: !IsPositive(q, refs[i]))
    case _ => true
  }

  // ---------- acceptance criteria ----------

  function Answer(q: Request, id: string): Option<AcceptanceResult> {
    Only(q.acceptance, CriterionOf, id)
  }

  predicate Decided(q: Request, id: string) {
    Answer(q, id).Some? && Answer(q, id).value.result.Some?
  }

  function AcceptanceVerdict(q: Request, id: string): GateResult {
    if Decided(q, id) then Answer(q, id).value.result.value else Unknown
  }

  /** The answer rests on evidence that resolves and supports it. */
  predicate Backed(q: Request, rules: Rules, id: string) {
    && Decided(q, id)
    && Resolves(q, rules, id, Answer(q, id).value.refs)
    && Supports(q, AcceptanceVerdict(q, id), Answer(q, id).value.refs)
  }

  predicate CriterionPasses(q: Request, rules: Rules, id: string) {
    Backed(q, rules, id) && AcceptanceVerdict(q, id) == Pass
  }

  predicate CriterionFails(q: Request, rules: Rules, id: string) {
    Backed(q, rules, id) && AcceptanceVerdict(q, id) == Fail
  }

  // ---------- gates ----------

  /** The one valid gate supplied under a required id. */
  function Supplied(q: Request, rules: Rules, id: string): Option<Gate> {
    var gate := Only(q.gates, GateId, id);
    if gate.Some? && rules.gateIsValid(gate.value) then gate else None
  }

  function GateVerdict(q: Request, rules: Rules, id: string): GateResult {
    if Supplied(q, rules, id).Some? then Supplied(q, rules, id).value.result else Unknown
  }

  predicate GateFits(q: Request, rules: Rules, id: string) {
    var gate := Supplied(q, rules, id);
    gate.Some? && gate.value.subject == q.story.id && gate.value.required
  }

  predicate GateBacked(q: Request, rules: Rules, id: string) {
    var gate := Supplied(q, rules, id);
    gate.Some? && Resolves(q, rules, q.story.id, gate.value.refs)
  }

  predicate GatePasses(q: Request, rules: Rules, id: string) {
    GateFits(q, rules, id) && GateVerdict(q, rules, id) == Pass && GateBacked(q, rules, id)
  }

  predicate GateFails(q: Request, rules: Rules, id: string) {
    GateFits(q, rules, id) && GateVerdict(q, rules, id) == Fail && GateBacked(q, rules, id)
  }

  /** Declared not applicable, with the context's authority. */
  predicate GateWaived(q: Request, rules: Rules, id: string) {
    && GateFits(q, rules, id) && GateVerdict(q, rules, id) == NotApplicable
    && id in q.context.allowedNotApplicable
  }

  // ---------- human approval ----------

  /** The evidence of the human decision, if it is valid and attributable (`_human_evidence_is_valid`). */
  function Decision(q: Request, rules: Rules): Option<Evidence> {
    var found := if q.context.humanEvidence.Some? then Only(q.evidence, EvidenceId, q.context.humanEvidence.value) else None;
    if found.Some? && IsDecision(q, rules, found.value) then found else None
  }

  predicate IsDecision(q: Request, rules: Rules, e: Evidence) {
    var approval := q.story.approval;
    && rules.evidenceIsValid(e) && e.kind == HumanDecision && e.subject == q.story.id && e.id !in q.context.stale
    && (e.commit.None? || e.commit == Some(q.commit))
    && rules.isHuman(e.source) && rules.attributableHuman(e.producer)
    && approval.approvedBy == Some(e.producer)
    && (e.result == Flag(false) || approval.evidenceRef == Some(e.id))
    && approval.approvedAt.Some? && approval.approvedAt.value.aware && e.result.Flag?
  }

  predicate Approved(q: Request, rules: Rules) {
    var e := Decision(q, rules);
    e.Some? && q.story.approval.approved && e.value.result == Flag(true)
  }

  predicate Refused(q: Request, rules: Rules) {
    var e := Decision(q, rules);
    e.Some? && !q.story.approval.approved && e.value.result == Flag(false)
  }

  /** `_evaluate_human_approval`: what the certification records. */
  function RecordOf(q: Request, rules: Rules): HumanRecord {
    var approval := q.story.approval;
    if !approval.required then HumanRecord(false, approval.approved, None, None)
    else
      HumanRecord(true, approval.approved, q.context.humanEvidence,
                  if Decision(q, rules).None? then None
                  else if Approved(q, rules) then Some(Pass)
                  else if Refused(q, rules) then Some(Fail)
                  else Some(Unknown))
  }

  // ---------- the verdict ----------

  predicate SomethingFails(q: Request, rules: Rules) {
    || (exists i | 0 <= i < |q.story.criteria| :: q.story.criteria[i].mandatory && CriterionFails(q, rules, q.story.criteria[i].id))
    || (exists i | 0 <= i < |q.story.requiredGates| :: GateFails(q, rules, q.story.requiredGates[i]))
    || (q.story.approval.required && Refused(q, rules))
  }

  predicate CriteriaPass(q: Request, rules: Rules) {
    forall i | 0 <= i < |q.story.criteria| :: q.story.criteria[i].mandatory ==> CriterionPasses(q, rules, q.story.criteria[i].id)
  }

  predicate GatesPass(q: Request, rules: Rules) {
    forall i | 0 <= i < |q.story.requiredGates| ::
      GatePasses(q, rules, q.story.requiredGates[i]) || GateWaived(q, rules, q.story.requiredGates[i])
  }

  /** Everything the story demands is proven, and no authority is left over. */
  predicate EverythingPasses(q: Request, rules: Rules) {
    && CriteriaPass(q, rules) && GatesPass(q, rules)
    && (q.story.approval.required ==> Approved(q, rules))
    && forall id | id in q.context.allowedNotApplicable :: id in q.story.requiredGates
  }

  /** A proven failure dominates uncertainty, and uncertainty dominates success. */
  function VerdictOf(q: Request, rules: Rules): Verdict {
    if SomethingFails(q, rules) then Verdict.Rejected else if EverythingPasses(q, rules) then Verdict.Certified else Verdict.Blocked
  }

  predicate UsedByCriterion(q: Request, rules: Rules, c: Criterion, id: string) {
    Backed(q, rules, c.id) && id in Answer(q, c.id).value.refs
  }

  predicate UsedByGate(q: Request, rules: Rules, gate: string, id: string) {
    GateBacked(q, rules, gate) && id in Supplied(q, rules, gate).value.refs
  }

  predicate UsedByHuman(q: Request, rules: Rules, id: string) {
    q.story.approval.required && Decision(q, rules).Some? && q.context.humanEvidence == Some(id)
  }

  /** Evidence that the certification rests on. */
  predicate Used(q: Request, rules: Rules, id: string) {
    || (exists i | 0 <= i < |q.story.criteria| :: UsedByCriterion(q, rules, q.story.criteria[i], id))
    || (exists i | 0 <= i < |q.story.requiredGates| :: UsedByGate(q, rules, q.story.requiredGates[i], id))
    || UsedByHuman(q, rules, id)
  }

  /** The waived gates, in the order in which the story requires them. */
  function Waived(q: Request, rules: Rules, gates: seq<string>): seq<string> {
    if gates == [] then []
    else
      var n := |gates| - 1;
      Waived(q, rules, gates[..n]) + if GateWaived(q, rules, gates[n]) then [gates[n]] else []
  }

  /** A certification says what the rules say. */
  ghost predicate Reports(c: Certification, q: Request, rules: Rules) {
    && c.subject == q.story.id && c.commit == q.commit && c.certifier == q.certifier
    && c.result == VerdictOf(q, rules)
    && (forall id :: id in c.acceptance <==> exists i :: 0 <= i < |q.story.criteria| && q.story.criteria[i].id == id)
    && (forall id :: id in c.acceptance ==> c.acceptance[id] == AcceptanceVerdict(q, id))
    && (forall id :: id in c.gates <==> id in q.story.requiredGates)
    && (forall id :: id in c.gates ==> c.gates[id] == GateVerdict(q, rules, id))
    && c.human == RecordOf(q, rules)
    && Distinct(c.refs) && (forall id :: id in c.refs <==> Used(q, rules, id))
    && c.authorized == Waived(q, rules, q.story.requiredGates)
  }
}
