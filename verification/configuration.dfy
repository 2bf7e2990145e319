/** Resolution of configuration layers: `configuration_resolver.py`. */
module Configuration {
  import opened Wrappers

  datatype Key =
    | MaxConcurrency | MaxTimeoutSeconds | MaxRemediationGenerations | SandboxMaximum | MinimumVerificationTier
    | RequireCleanGit | RequireObservability | RequireStrictHealth | RequireReviewer | RequireHumanAuthority
    | RequireEvidence | RequireCertificationIntegrity | RequireOperatorEarly | AllowArbitraryExecutable

  datatype Sandbox = ReadOnly | WorkspaceWrite
  datatype Tier = Basic | Standard | Strict
  datatype Setting = Limit(n: int) | Boundary(sandbox: Sandbox) | Verification(tier: Tier) | Switch(on: bool)

  datatype Authority = SystemInvariant | HardSafetyPolicy | ProjectConfiguration | OperationalPolicy | OperatorPreference | MachineFact

  datatype Directive = Directive(key: Key, value: Setting, source: string)
  datatype Step = Step(authority: Authority, directive: Directive)

  datatype Reason = InvariantKey | ExceedsSafetyCeiling | WeakensHigherAuthority
  datatype Rejection = Rejection(key: Key, authority: Authority, requested: Setting, source: string, reason: Reason)

  type Settings = map<Key, Setting>

  /** `_SYSTEM_INVARIANT_KEYS`. */
  predicate Invariant(key: Key) {
    match key
    case MaxConcurrency | MaxTimeoutSeconds | MaxRemediationGenerations => false
    case SandboxMaximum | MinimumVerificationTier | RequireOperatorEarly => false
    case _ => true
  }

  predicate IsLimit(key: Key) {
    key == MaxConcurrency || key == MaxTimeoutSeconds || key == MaxRemediationGenerations
  }

  /** `_validate_value`: the kind of value a key takes. */
  predicate Fits(key: Key, value: Setting) {
    match key
    case MaxConcurrency | MaxRemediationGenerations => value.Limit? && value.n >= 0
    case MaxTimeoutSeconds => value.Limit? && value.n >= 1
    case SandboxMaximum => value.Boundary?
    case MinimumVerificationTier => value.Verification?
    case _ => value.Switch?
  }

  predicate Complete(values: Settings) {
    forall key: Key :: key in values && Fits(key, values[key])
  }

  predicate AllFit(steps: seq<Step>) {
    forall i | 0 <= i < |steps| :: Fits(steps[i].directive.key, steps[i].directive.value)
  }

  function TierRank(tier: Tier): int {
    match tier case Basic => 0 case Standard => 1 case Strict => 2
  }

  /** `_is_more_restrictive_or_equal`. */
  predicate AtLeastAsStrict(key: Key, requested: Setting, current: Setting)
    requires Fits(key, requested) && Fits(key, current)
  {
    if IsLimit(key) then requested.n <= current.n
    else if key == SandboxMaximum then requested.sandbox == ReadOnly || current.sandbox == WorkspaceWrite
    else if key == MinimumVerificationTier then TierRank(requested.tier) >= TierRank(current.tier)
    else if key == AllowArbitraryExecutable then !requested.on || current.on
    else requested.on || !current.on
  }

  // ---------- the specification ----------

  predicate Accepts(values: Settings, d: Directive)
    requires Complete(values) && Fits(d.key, d.value)
  {
    (Invariant(d.key) ==> d.value == values[d.key]) && AtLeastAsStrict(d.key, d.value, values[d.key])
  }

  /** The values after a list of directives, one after the other. */
  function Settle(values: Settings, steps: seq<Step>): (r: Settings)
    requires Complete(values) && AllFit(steps)
    ensures Complete(r)
  {
    if steps == [] then values
    else
      var n := |steps| - 1;
      assert AllFit(steps[..n]);
      var before := Settle(values, steps[..n]);
      var d := steps[n].directive;
      if Accepts(before, d) then before[d.key := d.value] else before
  }

  function Refusal(values: Settings, step: Step): Rejection
    requires Complete(values) && Fits(step.directive.key, step.directive.value)
  {
    var d := step.directive;
    Rejection(d.key, step.authority, d.value, d.source,
              if Invariant(d.key) && d.value != values[d.key] then InvariantKey
              else if IsLimit(d.key) then ExceedsSafetyCeiling else WeakensHigherAuthority)
  }

  /** What has been rejected, in the order of the directives. */
  function Refusals(values: Settings, steps: seq<Step>): seq<Rejection>
    requires Complete(values) && AllFit(steps)
  {
    if steps == [] then []
    else
      var n := |steps| - 1;
      assert AllFit(steps[..n]);
      var before := Settle(values, steps[..n]);
      Refusals(values, steps[..n]) + if Accepts(before, steps[n].directive) then [] else [Refusal(before, steps[n])]
  }

  function AcceptedCount(values: Settings, steps: seq<Step>): nat
    requires Complete(values) && AllFit(steps)
  {
    if steps == [] then 0
    else
      var n := |steps| - 1;
      assert AllFit(steps[..n]);
      AcceptedCount(values, steps[..n]) + if Accepts(Settle(values, steps[..n]), steps[n].directive) then 1 else 0
  }

  // ---------- the order of strictness ----------

  lemma StrictnessIsAnOrder(key: Key, a: Setting, b: Setting, c: Setting)
    requires Fits(key, a) && Fits(key, b) && Fits(key, c)
    ensures AtLeastAsStrict(key, a, a)
    ensures AtLeastAsStrict(key, a, b) || AtLeastAsStrict(key, b, a)
    ensures AtLeastAsStrict(key, a, b) && AtLeastAsStrict(key, b, a) ==> a == b
    ensures AtLeastAsStrict(key, a, b) && AtLeastAsStrict(key, b, c) ==> AtLeastAsStrict(key, a, c)
  {
  }

  /** Something a run may do, in the terms of some key. */
  datatype Conduct = Amount(n: int) | Writing | Reading | CheckedAt(tier: Tier) | AsRequired | Otherwise

  /** What a setting of a key lets a run do; the last key is the only one that permits instead of requiring. */
  predicate Permits(key: Key, value: Setting, conduct: Conduct)
    requires Fits(key, value)
  {
    match key
    case MaxConcurrency | MaxTimeoutSeconds | MaxRemediationGenerations => conduct.Amount? && conduct.n <= value.n
    case SandboxMaximum => conduct == Reading || (conduct == Writing && value.sandbox == WorkspaceWrite)
    case MinimumVerificationTier => conduct.CheckedAt? && TierRank(conduct.tier) >= TierRank(value.tier)
    case AllowArbitraryExecutable => conduct == AsRequired || (conduct == Otherwise && value.on)
    case _ => conduct == AsRequired || (conduct == Otherwise && !value.on)
  }

  /** A setting is at least as strict as another if and only if it permits nothing that the other does not. */
  lemma StricterPermitsLess(key: Key, a: Setting, b: Setting)
    requires Fits(key, a) && Fits(key, b)
    ensures AtLeastAsStrict(key, a, b) <==> forall conduct :: Permits(key, a, conduct) ==> Permits(key, b, conduct)
  {
    if forall conduct :: Permits(key, a, conduct) ==> Permits(key, b, conduct) {
      var witnesses := [Amount(if a.Limit? then a.n else 0), Writing, CheckedAt(if a.Verification? then a.tier else Basic), Otherwise];
      assert Permits(key, a, witnesses[0]) ==> Permits(key, b, witnesses[0]);
      assert Permits(key, a, witnesses[1]) ==> Permits(key, b, witnesses[1]);
      assert Permits(key, a, witnesses[2]) ==> Permits(key, b, witnesses[2]);
      assert Permits(key, a, witnesses[3]) ==> Permits(key, b, witnesses[3]);
    }
  }

  /** Somebody asks for this value of this key. */
  predicate Requested(steps: seq<Step>, key: Key, value: Setting) {
    exists i | 0 <= i < |steps| :: steps[i].directive.key == key && steps[i].directive.value == value
  }

  /** A value is the strictest of the one given and all that are requested. */
  ghost predicate Strictest(values: Settings, steps: seq<Step>, key: Key, value: Setting)
    requires Complete(values) && AllFit(steps)
  {
    && Fits(key, value)
    && (value == values[key] || Requested(steps, key, value))
    && AtLeastAsStrict(key, value, values[key])
    && forall other: Setting :: Requested(steps, key, other) ==> Fits(key, other) && AtLeastAsStrict(key, value, other)
  }

  lemma RequestedOneMore(steps: seq<Step>, key: Key, value: Setting)
    requires steps != []
    ensures var n := |steps| - 1;
      Requested(steps, key, value) <==>
        Requested(steps[..n], key, value) || (steps[n].directive.key == key && steps[n].directive.value == value)
  {
    var n := |steps| - 1;
    var init := steps[..n];
    if i :| 0 <= i < |steps| && steps[i].directive.key == key && steps[i].directive.value == value {
      if i < n {
        assert init[i] == steps[i];
      }
    }
    if i :| 0 <= i < |init| && init[i].directive.key == key && init[i].directive.value == value {
      assert steps[i] == init[i];
    }
  }

  /** A key that is no invariant ends at the strictest value that anybody asks for. */
  lemma {:induction false} SettlesAtStrictest(values: Settings, steps: seq<Step>, key: Key)
    requires Complete(values) && AllFit(steps) && !Invariant(key)
    ensures Strictest(values, steps, key, Settle(values, steps)[key])
    decreases |steps|
  {
    StrictnessIsAnOrder(key, values[key], values[key], values[key]);
    if steps != [] {
      var n := |steps| - 1;
      assert AllFit(steps[..n]);
      SettlesAtStrictest(values, steps[..n], key);
      StricterOfTwo(values, steps, key);
      OneDirectiveMore(values, steps, key, Settle(values, steps[..n])[key], Settle(values, steps)[key]);
    }
  }

  /** One directive moves its key to the stricter of two values. */
  lemma StricterOfTwo(values: Settings, steps: seq<Step>, key: Key)
    requires Complete(values) && AllFit(steps) && steps != [] && !Invariant(key) && AllFit(steps[..|steps| - 1])
    ensures var before, after, d := Settle(values, steps[..|steps| - 1])[key], Settle(values, steps)[key], steps[|steps| - 1].directive;
      && AtLeastAsStrict(key, after, before)
      && (after == before || (d.key == key && after == d.value))
      && (d.key == key ==> Fits(key, d.value) && AtLeastAsStrict(key, after, d.value))
  {
    var before, d := Settle(values, steps[..|steps| - 1]), steps[|steps| - 1].directive;
    assert Fits(d.key, d.value);
    StrictnessIsAnOrder(key, before[key], before[key], before[key]);
    if d.key == key {
      StrictnessIsAnOrder(key, before[key], d.value, d.value);
      StrictnessIsAnOrder(key, d.value, d.value, d.value);
    }
  }

  lemma OneDirectiveMore(values: Settings, steps: seq<Step>, key: Key, before: Setting, after: Setting)
    requires Complete(values) && AllFit(steps) && steps != [] && AllFit(steps[..|steps| - 1])
    requires Strictest(values, steps[..|steps| - 1], key, before) && Fits(key, after) && AtLeastAsStrict(key, after, before)
    requires after == before || Requested(steps, key, after)
    requires steps[|steps| - 1].directive.key == key ==>
      Fits(key, steps[|steps| - 1].directive.value) && AtLeastAsStrict(key, after, steps[|steps| - 1].directive.value)
    ensures Strictest(values, steps, key, after)
  {
    hide AtLeastAsStrict;
    hide Requested;
    hide Fits;
    hide AllFit;
    RequestedOneMore(steps, key, after);
    StrictnessIsAnOrder(key, after, before, values[key]);
    forall other | Requested(steps, key, other)
      ensures Fits(key, other) && AtLeastAsStrict(key, after, other)
    {
      RequestedOneMore(steps, key, other);
      if Requested(steps[..|steps| - 1], key, other) {
        StrictnessIsAnOrder(key, after, before, other);
      }
    }
  }

  /** Invariant keys never move. */
  lemma {:induction false} InvariantsNeverMove(values: Settings, steps: seq<Step>, key: Key)
    requires Complete(values) && AllFit(steps) && Invariant(key)
    ensures Settle(values, steps)[key] == values[key]
    decreases |steps|
  {
    if steps != [] {
      assert AllFit(steps[..|steps| - 1]);
      InvariantsNeverMove(values, steps[..|steps| - 1], key);
    }
  }

  /** Whoever asks for at least as much gets at least as strict values; nothing is ever loosened. */
  lemma MoreNeverLoosens(values: Settings, steps: seq<Step>, more: seq<Step>, key: Key)
    requires Complete(values) && AllFit(steps) && AllFit(more)
    requires forall k, v :: Requested(steps, k, v) ==> Requested(more, k, v)
    ensures AtLeastAsStrict(key, Settle(values, more)[key], Settle(values, steps)[key])
  {
    StrictnessIsAnOrder(key, values[key], values[key], values[key]);
    if Invariant(key) {
      InvariantsNeverMove(values, steps, key);
      InvariantsNeverMove(values, more, key);
    } else {
      SettlesAtStrictest(values, steps, key);
      SettlesAtStrictest(values, more, key);
    }
  }

  /** The order of the layers and of the directives in them makes no difference to the values. */
  lemma OrderMakesNoDifference(values: Settings, steps: seq<Step>, others: seq<Step>)
    requires Complete(values) && AllFit(steps) && AllFit(others)
    requires forall k, v :: Requested(steps, k, v) <==> Requested(others, k, v)
    ensures Settle(values, steps) == Settle(values, others)
  {
    hide AtLeastAsStrict;
    var a, b := Settle(values, steps), Settle(values, others);
    forall key
      ensures a[key] == b[key]
    {
      MoreNeverLoosens(values, steps, others, key);
      MoreNeverLoosens(values, others, steps, key);
      StrictnessIsAnOrder(key, a[key], b[key], a[key]);
    }
  }

  /** A directive asks for less than the hard value or an earlier directive does; an invariant key admits no change. */
  predicate TooLoose(values: Settings, steps: seq<Step>, i: nat)
    requires Complete(values) && AllFit(steps) && i < |steps|
  {
    var d := steps[i].directive;
    assert Fits(d.key, d.value);
    if Invariant(d.key) then d.value != values[d.key]
    else !AtLeastAsStrict(d.key, d.value, values[d.key]) || exists j | 0 <= j < i :: Undercuts(steps, i, j)
  }

  /** An earlier directive asks for more. */
  predicate Undercuts(steps: seq<Step>, i: nat, j: nat)
    requires AllFit(steps) && j < i < |steps|
  {
    var d, before := steps[i].directive, steps[j].directive;
    assert Fits(d.key, d.value) && Fits(before.key, before.value);
    before.key == d.key && !AtLeastAsStrict(d.key, d.value, before.value)
  }

  /** Whether a directive is accepted depends on what was asked for before it, and on nothing else. */
  lemma AcceptedUnlessTooLoose(values: Settings, steps: seq<Step>, i: nat)
    requires Complete(values) && AllFit(steps) && i < |steps| && AllFit(steps[..i])
    ensures Accepts(Settle(values, steps[..i]), steps[i].directive) <==> !TooLoose(values, steps, i)
  {
    var d, before := steps[i].directive, steps[..i];
    assert Fits(d.key, d.value);
    var settled := Settle(values, before)[d.key];
    StrictnessIsAnOrder(d.key, settled, settled, settled);
    if Invariant(d.key) {
      InvariantsNeverMove(values, before, d.key);
    } else {
      SettlesAtStrictest(values, before, d.key);
      StrictnessIsAnOrder(d.key, d.value, settled, values[d.key]);
      if AtLeastAsStrict(d.key, d.value, settled) {
        forall j | 0 <= j < i
          ensures !Undercuts(steps, i, j)
        {
          if steps[j].directive.key == d.key {
            assert before[j] == steps[j] && Requested(before, d.key, steps[j].directive.value);
            StrictnessIsAnOrder(d.key, d.value, settled, steps[j].directive.value);
          }
        }
      } else if settled != values[d.key] {
        var j :| 0 <= j < |before| && before[j].directive.key == d.key && before[j].directive.value == settled;
        assert Undercuts(steps, i, j);
      }
    }
  }

  ghost function TooLooseAmong(values: Settings, steps: seq<Step>): set<nat>
    requires Complete(values) && AllFit(steps)
  {
    set i: nat | i < |steps| && TooLoose(values, steps, i)
  }

  lemma TooLooseOneMore(values: Settings, steps: seq<Step>)
    requires Complete(values) && AllFit(steps) && steps != [] && AllFit(steps[..|steps| - 1])
    ensures var n := |steps| - 1;
      TooLooseAmong(values, steps) == TooLooseAmong(values, steps[..n]) + if TooLoose(values, steps, n) then {n} else {}
  {
    var n := |steps| - 1;
    forall i: nat | i < n
      ensures TooLoose(values, steps[..n], i) <==> TooLoose(values, steps, i)
    {
      assert steps[..n][i] == steps[i];
      assert forall j: nat :: j < i ==> (Undercuts(steps[..n], i, j) <==> Undercuts(steps, i, j));
    }
  }

  /** Each directive is accepted or rejected, never both, and those are rejected that ask for too little. */
  lemma {:induction false} EachIsDecidedOnce(values: Settings, steps: seq<Step>)
    requires Complete(values) && AllFit(steps)
    ensures AcceptedCount(values, steps) + |Refusals(values, steps)| == |steps|
    ensures |Refusals(values, steps)| == |TooLooseAmong(values, steps)|
    decreases |steps|
  {
    if steps != [] {
      var n := |steps| - 1;
      assert AllFit(steps[..n]);
      EachIsDecidedOnce(values, steps[..n]);
      AcceptedUnlessTooLoose(values, steps, n);
      TooLooseOneMore(values, steps);
    }
  }

  /** What is rejected for a key that is no invariant is strictly looser than what the key ends at. */
  lemma {:induction false} RejectedIsLooser(values: Settings, steps: seq<Step>, r: Rejection)
    requires Complete(values) && AllFit(steps) && r in Refusals(values, steps)
    ensures Fits(r.key, r.requested) && Requested(steps, r.key, r.requested)
    ensures r.requested != Settle(values, steps)[r.key]
    ensures r.reason == if Invariant(r.key) then InvariantKey else if IsLimit(r.key) then ExceedsSafetyCeiling else WeakensHigherAuthority
    decreases |steps|
  {
    var n := |steps| - 1;
    var init := steps[..n];
    assert AllFit(init);
    RequestedOneMore(steps, r.key, r.requested);
    var before := Settle(values, init);
    StrictnessIsAnOrder(r.key, before[r.key], before[r.key], before[r.key]);
    if r in Refusals(values, init) {
      RejectedIsLooser(values, init, r);
      if !Invariant(r.key) {
        SettlesAtStrictest(values, steps, r.key);
        SettlesAtStrictest(values, init, r.key);
        RejectedStaysLooser(values, init, r, Settle(values, steps)[r.key]);
      } else {
        InvariantsNeverMove(values, steps, r.key);
        InvariantsNeverMove(values, init, r.key);
      }
    }
  }

  lemma RejectedStaysLooser(values: Settings, init: seq<Step>, r: Rejection, after: Setting)
    requires Complete(values) && AllFit(init) && Fits(r.key, r.requested) && Fits(r.key, after)
    requires Strictest(values, init, r.key, Settle(values, init)[r.key]) && Requested(init, r.key, r.requested)
    requires r.requested != Settle(values, init)[r.key] && AtLeastAsStrict(r.key, after, Settle(values, init)[r.key])
    ensures r.requested != after
  {
    StrictnessIsAnOrder(r.key, r.requested, Settle(values, init)[r.key], after);
  }

  // ---------- the resolver ----------

  datatype HardSafety = HardSafety(maxConcurrency: int, maxTimeout: int, maxGenerations: int, sandbox: Sandbox, tier: Tier)

  /** `HardSafetyPolicy.__post_init__`. */
  predicate ValidHardSafety(h: HardSafety) {
    1 <= h.maxConcurrency <= 8 && h.maxTimeout >= 1 && h.maxGenerations >= 1
  }

  function HardValue(h: HardSafety, key: Key): Setting {
    match key
    case MaxConcurrency => Limit(h.maxConcurrency)
    case MaxTimeoutSeconds => Limit(h.maxTimeout)
    case MaxRemediationGenerations => Limit(h.maxGenerations)
    case SandboxMaximum => Boundary(h.sandbox)
    case MinimumVerificationTier => Verification(h.tier)
    case RequireOperatorEarly | AllowArbitraryExecutable => Switch(false)
    case _ => Switch(true)
  }

  /** `_hard_values`. */
  function HardValues(h: HardSafety): (r: Settings)
    requires ValidHardSafety(h)
    ensures Complete(r)
  {
    map key: Key | true :: HardValue(h, key)
  }

  /** The directives of one authority, in their order. */
  function Of(steps: seq<Step>, authority: Authority): (r: seq<Step>)
    requires AllFit(steps)
    ensures AllFit(r) && forall i :: 0 <= i < |r| ==> r[i] in steps
  {
    if steps == [] then []
    else
      var n := |steps| - 1;
      assert AllFit(steps[..n]);
      Of(steps[..n], authority) + if steps[n].authority == authority then [steps[n]] else []
  }

  datatype Layers = Layers(budgets: seq<Step>, project: seq<Step>, policy: seq<Step>, preferences: seq<Step>, machineLimit: Option<int>)

  predicate ValidLayers(l: Layers) {
    && AllFit(l.budgets) && AllFit(l.project) && AllFit(l.policy) && AllFit(l.preferences)
    && (l.machineLimit.Some? ==> l.machineLimit.value >= 1)
  }

  /** All directives, in the order in which the layers are applied. */
  function Sequence(l: Layers): (r: seq<Step>)
    requires ValidLayers(l)
    ensures AllFit(r)
  {
    Of(l.budgets, HardSafetyPolicy) + l.project
      + Of(l.budgets, OperationalPolicy) + l.policy + Of(l.budgets, OperatorPreference) + l.preferences
  }

  // ---------- the layers, apart from how they are put in sequence ----------

  /** A directive of the n-th layer: hard budgets, the project, then policy and preferences, each after its budgets. */
  predicate InLayer(l: Layers, n: nat, step: Step) {
    || (n == 0 && step in l.budgets && step.authority == HardSafetyPolicy)
    || (n == 1 && step in l.project)
    || (n == 2 && step in l.budgets && step.authority == OperationalPolicy)
    || (n == 3 && step in l.policy)
    || (n == 4 && step in l.budgets && step.authority == OperatorPreference)
    || (n == 5 && step in l.preferences)
  }

  /** Some layer asks for this value of this key. */
  ghost predicate AskedFor(l: Layers, key: Key, value: Setting) {
    exists n, step :: InLayer(l, n, step) && step.directive.key == key && step.directive.value == value
  }

  /** The directives of the n-th layer, in their order. */
  function LayerOf(l: Layers, n: nat): (r: seq<Step>)
    requires ValidLayers(l)
  {
    if n == 0 then Of(l.budgets, HardSafetyPolicy)
    else if n == 1 then l.project
    else if n == 2 then Of(l.budgets, OperationalPolicy)
    else if n == 3 then l.policy
    else if n == 4 then Of(l.budgets, OperatorPreference)
    else if n == 5 then l.preferences
    else []
  }

  /** The first n layers, one after the other. */
  function FirstLayers(l: Layers, n: nat): seq<Step>
    requires ValidLayers(l)
  {
    if n == 0 then [] else FirstLayers(l, n - 1) + LayerOf(l, n - 1)
  }

  lemma {:induction false} OfHolds(steps: seq<Step>, authority: Authority, step: Step)
    requires AllFit(steps)
    ensures step in Of(steps, authority) <==> step in steps && step.authority == authority
    decreases |steps|
  {
    if steps != [] {
      var n := |steps| - 1;
      assert AllFit(steps[..n]) && steps == steps[..n] + [steps[n]];
      OfHolds(steps[..n], authority, step);
    }
  }

  lemma LayerHolds(l: Layers, n: nat, step: Step)
    requires ValidLayers(l)
    ensures step in LayerOf(l, n) <==> InLayer(l, n, step)
  {
    OfHolds(l.budgets, HardSafetyPolicy, step);
    OfHolds(l.budgets, OperationalPolicy, step);
    OfHolds(l.budgets, OperatorPreference, step);
    hide Of;
    hide AllFit;
  }

  lemma SequenceIsLayers(l: Layers)
    requires ValidLayers(l)
    ensures Sequence(l) == FirstLayers(l, 6)
  {
    hide Of;
    hide AllFit;
    assert FirstLayers(l, 1) == Of(l.budgets, HardSafetyPolicy);
    assert FirstLayers(l, 2) == FirstLayers(l, 1) + l.project;
    assert FirstLayers(l, 3) == FirstLayers(l, 2) + Of(l.budgets, OperationalPolicy);
    assert FirstLayers(l, 4) == FirstLayers(l, 3) + l.policy;
    assert FirstLayers(l, 5) == FirstLayers(l, 4) + Of(l.budgets, OperatorPreference);
  }

  lemma {:induction false} FirstLayersGrow(l: Layers, m: nat, n: nat)
    requires ValidLayers(l) && m <= n
    ensures |FirstLayers(l, m)| <= |FirstLayers(l, n)|
    ensures forall i :: 0 <= i < |FirstLayers(l, m)| ==> FirstLayers(l, n)[i] == FirstLayers(l, m)[i]
    decreases n
  {
    hide LayerOf;
    if m < n {
      FirstLayersGrow(l, m, n - 1);
    }
  }

  /** What stands at a position of the sequence belongs to the layer that the position is in. */
  lemma {:induction false} PositionInLayer(l: Layers, n: nat, i: nat) returns (m: nat)
    requires ValidLayers(l) && i < |FirstLayers(l, n)|
    ensures m < n && |FirstLayers(l, m)| <= i < |FirstLayers(l, m + 1)| && InLayer(l, m, FirstLayers(l, n)[i])
    decreases n
  {
    hide LayerOf;
    hide InLayer;
    if i < |FirstLayers(l, n - 1)| {
      m := PositionInLayer(l, n - 1, i);
    } else {
      m := n - 1;
      LayerHolds(l, m, FirstLayers(l, n)[i]);
    }
  }

  /** A directive of a layer stands in the sequence, after all earlier layers. */
  lemma LayerInPosition(l: Layers, m: nat, step: Step) returns (i: nat)
    requires ValidLayers(l) && InLayer(l, m, step)
    ensures i < |Sequence(l)| && Sequence(l)[i] == step && |FirstLayers(l, m)| <= i < |FirstLayers(l, m + 1)| <= |Sequence(l)|
  {
    assert m < 6;
    LayerHolds(l, m, step);
    SequenceIsLayers(l);
    FirstLayersGrow(l, m + 1, 6);
    hide *;
    i := LayerInFirst(l, m, step);
  }

  lemma LayerInFirst(l: Layers, m: nat, step: Step) returns (i: nat)
    requires ValidLayers(l) && step in LayerOf(l, m)
    ensures |FirstLayers(l, m)| <= i < |FirstLayers(l, m + 1)| && FirstLayers(l, m + 1)[i] == step
  {
    hide LayerOf;
    var k :| 0 <= k < |LayerOf(l, m)| && LayerOf(l, m)[k] == step;
    i := |FirstLayers(l, m)| + k;
  }

  /** The sequence asks for exactly what some layer asks for. */
  lemma SequenceAsksFor(l: Layers, key: Key, value: Setting)
    requires ValidLayers(l)
    ensures Requested(Sequence(l), key, value) <==> AskedFor(l, key, value)
  {
    SequenceIsLayers(l);
    hide Sequence;
    hide InLayer;
    if Requested(Sequence(l), key, value) {
      var i :| 0 <= i < |Sequence(l)| && Sequence(l)[i].directive.key == key && Sequence(l)[i].directive.value == value;
      var m := PositionInLayer(l, 6, i);
    }
    if n, step :| InLayer(l, n, step) && step.directive.key == key && step.directive.value == value {
      var i := LayerInPosition(l, n, step);
    }
  }

  // ---------- which layer wins ----------

  lemma {:induction false} TooLooseIsRefused(values: Settings, steps: seq<Step>, i: nat)
    requires Complete(values) && AllFit(steps) && i < |steps| && TooLoose(values, steps, i)
    ensures AllFit(steps[..i]) && Fits(steps[i].directive.key, steps[i].directive.value)
    ensures Refusal(Settle(values, steps[..i]), steps[i]) in Refusals(values, steps)
    decreases |steps|
  {
    var n := |steps| - 1;
    var init := steps[..n];
    assert AllFit(init) && AllFit(steps[..i]);
    AcceptedUnlessTooLoose(values, steps, i);
    if i < n {
      assert init[i] == steps[i] && init[..i] == steps[..i];
      assert forall j :: 0 <= j < i ==> (Undercuts(init, i, j) <==> Undercuts(steps, i, j));
      TooLooseIsRefused(values, init, i);
    }
  }

  /** What a refusal of a directive about a key that is no invariant says. */
  function RefusalOf(step: Step): Rejection {
    Rejection(step.directive.key, step.authority, step.directive.value, step.directive.source,
              if IsLimit(step.directive.key) then ExceedsSafetyCeiling else WeakensHigherAuthority)
  }

  /** A directive asks for less than one of the first layers does. */
  ghost predicate UndercutsLayer(l: Layers, layers: nat, d: Directive)
    requires Fits(d.key, d.value)
  {
    exists m: nat, other: Step :: m < layers && InLayer(l, m, other) && AsksForMore(other.directive, d)
  }

  predicate AsksForMore(other: Directive, d: Directive)
    requires Fits(d.key, d.value)
  {
    other.key == d.key && Fits(d.key, other.value) && !AtLeastAsStrict(d.key, d.value, other.value)
  }

  /**
    Precedence: what a layer asks for, a later layer cannot undercut. Each of its directives that asks for
    less than the hard value, or than a directive of an earlier layer, is rejected and reported.
   */
  lemma EarlierLayersBind(policy: HardSafety, l: Layers, n: nat, step: Step)
    requires ValidHardSafety(policy) && ValidLayers(l) && InLayer(l, n, step) && !Invariant(step.directive.key)
    requires var d := step.directive;
      Fits(d.key, d.value) && (!AtLeastAsStrict(d.key, d.value, HardValues(policy)[d.key]) || UndercutsLayer(l, n, d))
    ensures RefusalOf(step) in Refusals(HardValues(policy), Sequence(l))
  {
    hide HardValues;
    hide AtLeastAsStrict;
    hide InLayer;
    hide Sequence;
    hide FirstLayers;
    var d, hard, steps := step.directive, HardValues(policy), Sequence(l);
    var i := LayerInPosition(l, n, step);
    if UndercutsLayer(l, n, d) {
      var m: nat, earlier: Step :| m < n && InLayer(l, m, earlier) && AsksForMore(earlier.directive, d);
      var j := LayerInPosition(l, m, earlier);
      FirstLayersGrow(l, m + 1, n);
      assert Undercuts(steps, i, j);
    }
    assert TooLoose(hard, steps, i);
    TooLooseIsRefused(hard, steps, i);
    hide Settle;
    hide Refusals;
  }

  /** Nothing else is rejected: what is, asks for less than the hard value or than a layer that is no later. */
  lemma RejectedForCause(policy: HardSafety, l: Layers, r: Rejection)
    requires ValidHardSafety(policy) && ValidLayers(l) && r in Refusals(HardValues(policy), Sequence(l)) && !Invariant(r.key)
    ensures exists n: nat, step: Step :: InLayer(l, n, step) && r == RefusalOf(step) && Deserved(policy, l, n, step.directive)
  {
    hide HardValues;
    hide AtLeastAsStrict;
    hide InLayer;
    hide Sequence;
    hide FirstLayers;
    var hard, steps := HardValues(policy), Sequence(l);
    var i := RefusedAt(hard, steps, r);
    SequenceIsLayers(l);
    var n := PositionInLayer(l, 6, i);
    if AtLeastAsStrict(r.key, r.requested, hard[r.key]) {
      var j :| 0 <= j < i && Undercuts(steps, i, j);
      var m := PositionInLayer(l, 6, j);
      if m > n {
        FirstLayersGrow(l, n + 1, m);
      }
      assert m < n + 1 && InLayer(l, m, steps[j]) && AsksForMore(steps[j].directive, steps[i].directive);
    }
    assert InLayer(l, n, steps[i]) && r == RefusalOf(steps[i]) && Deserved(policy, l, n, steps[i].directive);
  }

  /** A directive of the n-th layer asks for less than the hard value, or than a layer that is no later. */
  ghost predicate Deserved(policy: HardSafety, l: Layers, n: nat, d: Directive)
    requires ValidHardSafety(policy)
  {
    Fits(d.key, d.value) && (!AtLeastAsStrict(d.key, d.value, HardValues(policy)[d.key]) || UndercutsLayer(l, n + 1, d))
  }

  /** The directive behind a rejection. */
  lemma {:induction false} RefusedAt(values: Settings, steps: seq<Step>, r: Rejection) returns (i: nat)
    requires Complete(values) && AllFit(steps) && r in Refusals(values, steps)
    ensures i < |steps| && TooLoose(values, steps, i)
    ensures r.key == steps[i].directive.key && r.requested == steps[i].directive.value && Fits(r.key, r.requested)
    ensures !Invariant(r.key) ==> r == RefusalOf(steps[i])
    decreases |steps|
  {
    var n := |steps| - 1;
    var init := steps[..n];
    assert AllFit(init);
    if r in Refusals(values, init) {
      i := RefusedAt(values, init, r);
      assert init[i] == steps[i];
      assert forall j :: 0 <= j < i ==> (Undercuts(init, i, j) <==> Undercuts(steps, i, j));
    } else {
      i := n;
      AcceptedUnlessTooLoose(values, steps, n);
    }
  }

  /** A value is attributed to the earliest layer that asks for it. */
  ghost predicate FromEarliestLayer(l: Layers, key: Key, value: Setting, authority: Authority, source: string) {
    exists n: nat :: InLayer(l, n, Step(authority, Directive(key, value, source)))
      && (forall m: nat, other: Step :: m < n && InLayer(l, m, other) ==> other.directive.key != key || other.directive.value != value)
  }

  lemma AttributedToEarliest(hard: Setting, l: Layers, key: Key, value: Setting, authority: Authority, source: string)
    requires ValidLayers(l) && Attributed(hard, Sequence(l), key, value, authority, source) && value != hard
    ensures FromEarliestLayer(l, key, value, authority, source)
  {
    hide InLayer;
    hide FirstLayers;
    hide Sequence;
    hide Requested;
    var steps := Sequence(l);
    var i :| 0 <= i < |steps| && steps[i] == Step(authority, Directive(key, value, source)) && !Requested(steps[..i], key, value);
    SequenceIsLayers(l);
    var n := PositionInLayer(l, 6, i);
    forall m: nat, other: Step | m < n && InLayer(l, m, other)
      ensures other.directive.key != key || other.directive.value != value
    {
      NotAskedEarlier(l, i, n, key, value, m, other);
    }
  }

  lemma NotAskedEarlier(l: Layers, i: nat, n: nat, key: Key, value: Setting, m: nat, other: Step)
    requires ValidLayers(l) && i < |Sequence(l)| && |FirstLayers(l, n)| <= i && !Requested(Sequence(l)[..i], key, value)
    requires m < n && InLayer(l, m, other)
    ensures other.directive.key != key || other.directive.value != value
  {
    hide InLayer;
    hide FirstLayers;
    hide Sequence;
    var j := LayerInPosition(l, m, other);
    FirstLayersGrow(l, m + 1, n);
    assert Sequence(l)[..i][j] == other;
  }

  /** A value that is replaced is not the one that the hard policy gives. */
  lemma StillStricter(hard: Settings, applied: seq<Step>, key: Key, requested: Setting)
    requires Complete(hard) && AllFit(applied) && Fits(key, requested)
    ensures var current := Settle(hard, applied)[key];
      !Invariant(key) && AtLeastAsStrict(key, requested, current) && requested != current ==> requested != hard[key]
  {
    if !Invariant(key) {
      SettlesAtStrictest(hard, applied, key);
      StrictnessIsAnOrder(key, requested, Settle(hard, applied)[key], hard[key]);
    }
  }

  /** Where the value of a key comes from: the hard policy, or the first directive that asks for it. */
  ghost predicate Attributed(hard: Setting, steps: seq<Step>, key: Key, value: Setting, authority: Authority, source: string) {
    if value == hard then authority == (if Invariant(key) then SystemInvariant else HardSafetyPolicy)
    else exists i :: 0 <= i < |steps| && steps[i] == Step(authority, Directive(key, value, source)) && !Requested(steps[..i], key, value)
  }

  ghost predicate AllAttributed(hard: Settings, steps: seq<Step>, values: Settings, provenance: map<Key, Authority>, sources: map<Key, string>)
    requires Complete(hard)
  {
    forall key: Key ::
      key in values && key in provenance && key in sources && Attributed(hard[key], steps, key, values[key], provenance[key], sources[key])
  }

  /** What has been attributed stays so when one more directive is applied, whether or not it is accepted. */
  lemma AttributionsStay(hard: Settings, steps: seq<Step>, step: Step, values: Settings, provenance: map<Key, Authority>, sources: map<Key, string>)
    requires Complete(hard) && AllAttributed(hard, steps, values, provenance, sources)
    ensures AllAttributed(hard, steps + [step], values, provenance, sources)
    ensures var d := step.directive;
      d.value != hard[d.key] && !Requested(steps, d.key, d.value) ==>
        AllAttributed(hard, steps + [step], values[d.key := d.value], provenance[d.key := step.authority], sources[d.key := d.source])
  {
    hide Fits;
    hide Requested;
    var longer := steps + [step];
    assert longer[|steps|] == step && longer[..|steps|] == steps;
    forall key: Key
      ensures Attributed(hard[key], longer, key, values[key], provenance[key], sources[key])
    {
      if i :| 0 <= i < |steps| && steps[i] == Step(provenance[key], Directive(key, values[key], sources[key]))
              && !Requested(steps[..i], key, values[key]) {
        assert longer[i] == steps[i] && longer[..i] == steps[..i];
      }
    }
  }

  /** A value that is taken over has not been asked for before. */
  lemma TakenIsNew(hard: Settings, applied: seq<Step>, key: Key, requested: Setting)
    requires Complete(hard) && AllFit(applied) && Fits(key, requested) && !Invariant(key)
    requires AtLeastAsStrict(key, requested, Settle(hard, applied)[key]) && requested != Settle(hard, applied)[key]
    ensures !Requested(applied, key, requested)
  {
    SettlesAtStrictest(hard, applied, key);
    StrictnessIsAnOrder(key, requested, Settle(hard, applied)[key], requested);
  }

  lemma OneStepMore(values: Settings, steps: seq<Step>, step: Step)
    requires Complete(values) && AllFit(steps) && Fits(step.directive.key, step.directive.value)
    ensures AllFit(steps + [step])
    ensures var before, d := Settle(values, steps), step.directive;
      && Settle(values, steps + [step]) == (if Accepts(before, d) then before[d.key := d.value] else before)
      && Refusals(values, steps + [step]) == Refusals(values, steps) + if Accepts(before, d) then [] else [Refusal(before, step)]
  {
    var more := steps + [step];
    assert more[..|more| - 1] == steps;
  }

  /** The dictionaries that `resolve` and `_apply_layer` update. */
  class Resolution {
    var values: Settings
    var provenance: map<Key, Authority>
    var sources: map<Key, string>
    var rejected: seq<Rejection>
    ghost var applied: seq<Step>
    ghost const hard: Settings

    ghost predicate Valid()
      reads this
    {
      && Complete(hard) && AllFit(applied)
      && values == Settle(hard, applied) && rejected == Refusals(hard, applied)
      && AllAttributed(hard, applied, values, provenance, sources)
    }

    constructor (policy: HardSafety)
      requires ValidHardSafety(policy)
      ensures Valid() && applied == [] && hard == HardValues(policy)
    {
      hard := HardValues(policy);
      values := HardValues(policy);
      provenance := map key | key in HardValues(policy) :: if Invariant(key) then SystemInvariant else HardSafetyPolicy;
      sources := map key | key in HardValues(policy) :: if Invariant(key) then "system-invariant" else "hard-safety-policy";
      rejected := [];
      applied := [];
    }

    /** `_apply_layer`. */
    method ApplyLayer(steps: seq<Step>)
      requires Valid() && AllFit(steps)
      modifies this
      ensures Valid() && applied == old(applied) + steps
    {
      hide Valid;
      hide Fits;
      for i := 0 to |steps|
        invariant Valid() && applied == old(applied) + steps[..i]
      {
        ApplyDirective(steps[i]);
      }
    }

    /** One turn of its loop. */
    method ApplyDirective(step: Step)
      requires Valid() && Fits(step.directive.key, step.directive.value)
      modifies this
      ensures Valid() && applied == old(applied) + [step]
    {
      hide AtLeastAsStrict;
      hide AllAttributed;
      hide Settle;
      hide Refusals;
      ghost var more := applied + [step];
      OneStepMore(hard, applied, step);
      AttributionsStay(hard, applied, step, values, provenance, sources);
      var key, requested := step.directive.key, step.directive.value;
      var current := values[key];
      StillStricter(hard, applied, key, requested);
      if !Invariant(key) && AtLeastAsStrict(key, requested, current) && requested != current {
        TakenIsNew(hard, applied, key, requested);
      }
      if Invariant(key) && requested != current {
        rejected := rejected + [Rejection(key, step.authority, requested, step.directive.source, InvariantKey)];
      } else if AtLeastAsStrict(key, requested, current) {
        if requested != current {
          values := values[key := requested];
          provenance := provenance[key := step.authority];
          sources := sources[key := step.directive.source];
        }
      } else {
        var reason := if IsLimit(key) then ExceedsSafetyCeiling else WeakensHigherAuthority;
        rejected := rejected + [Rejection(key, step.authority, requested, step.directive.source, reason)];
      }
      applied := more;
    }

    /** The budgets of one authority, each a layer of its own. */
    method ApplyBudgets(budgets: seq<Step>, authority: Authority)
      requires Valid() && AllFit(budgets)
      modifies this
      ensures Valid() && applied == old(applied) + Of(budgets, authority)
    {
      hide Valid;
      hide Of;
      OfNothing(budgets, authority);
      for i := 0 to |budgets|
        invariant Valid() && applied == old(applied) + Of(budgets[..i], authority)
      {
        OfOneMore(budgets, authority, i);
        if budgets[i].authority == authority {
          ApplyLayer([budgets[i]]);
        }
      }
      assert budgets[..|budgets|] == budgets;
    }

    /** The layers of `resolve`, in their order. */
    method ApplyLayers(layers: Layers)
      requires Valid() && applied == [] && ValidLayers(layers)
      modifies this
      ensures Valid() && applied == Sequence(layers)
    {
      hide Valid;
      hide Of;
      hide AllFit;
      ApplyBudgets(layers.budgets, HardSafetyPolicy);
      ApplyLayer(layers.project);
      ApplyBudgets(layers.budgets, OperationalPolicy);
      ApplyLayer(layers.policy);
      ApplyBudgets(layers.budgets, OperatorPreference);
      ApplyLayer(layers.preferences);
    }
  }

  lemma OfNothing(steps: seq<Step>, authority: Authority)
    requires AllFit(steps)
    ensures Of(steps[..0], authority) == []
  {
  }

  lemma OfOneMore(steps: seq<Step>, authority: Authority, i: nat)
    requires AllFit(steps) && i < |steps|
    ensures AllFit(steps[..i]) && AllFit(steps[..i + 1]) && AllFit([steps[i]])
    ensures Of(steps[..i + 1], authority) == Of(steps[..i], authority) + if steps[i].authority == authority then [steps[i]] else []
  {
    assert steps[..i + 1][..i] == steps[..i];
  }

  /** The machine allows less concurrency than everybody asks for. */
  predicate Capped(values: Settings, machineLimit: Option<int>)
    requires Complete(values)
  {
    machineLimit.Some? && machineLimit.value < values[MaxConcurrency].n
  }

  /** The machine's own limit on concurrency, where it is stricter. */
  function Cap(values: Settings, machineLimit: Option<int>): (r: Settings)
    requires Complete(values) && (machineLimit.Some? ==> machineLimit.value >= 0)
    ensures Complete(r)
  {
    if Capped(values, machineLimit)
    then values[MaxConcurrency := Limit(machineLimit.value)]
    else values
  }

  /** The hard policy stands for its own values, and the earliest layer that asks for it for any other. */
  ghost predicate AttributedIn(policy: HardSafety, l: Layers, key: Key, value: Setting, authority: Authority, source: string)
    requires ValidHardSafety(policy) && ValidLayers(l)
  {
    if value == HardValues(policy)[key] then authority == (if Invariant(key) then SystemInvariant else HardSafetyPolicy)
    else FromEarliestLayer(l, key, value, authority, source)
  }

  lemma AttributionsInLayers(policy: HardSafety, l: Layers, key: Key, value: Setting, authority: Authority, source: string)
    requires ValidHardSafety(policy) && ValidLayers(l) && Attributed(HardValues(policy)[key], Sequence(l), key, value, authority, source)
    ensures AttributedIn(policy, l, key, value, authority, source)
  {
    if value != HardValues(policy)[key] {
      AttributedToEarliest(HardValues(policy)[key], l, key, value, authority, source);
    }
    hide HardValues;
    hide FromEarliestLayer;
  }

  /** `resolve`, from the hard values to the effective ones. */
  method Resolve(policy: HardSafety, layers: Layers)
    returns (values: Settings, provenance: map<Key, Authority>, sources: map<Key, string>, rejected: seq<Rejection>)
    requires ValidHardSafety(policy) && ValidLayers(layers)
    ensures Complete(values) && rejected == Refusals(HardValues(policy), Sequence(layers))
    ensures values == Cap(Settle(HardValues(policy), Sequence(layers)), layers.machineLimit)
    ensures forall key: Key :: key in provenance && key in sources
    ensures forall key: Key :: if key == MaxConcurrency && Capped(Settle(HardValues(policy), Sequence(layers)), layers.machineLimit)
      then provenance[key] == MachineFact && sources[key] == "codex-capability-assessment"
      else AttributedIn(policy, layers, key, values[key], provenance[key], sources[key])
  {
    hide HardValues;
    hide Sequence;
    hide AllFit;
    hide Attributed;
    hide Settle;
    hide Refusals;
    var r := new Resolution(policy);
    r.ApplyLayers(layers);
    values, provenance, sources, rejected := r.values, r.provenance, r.sources, r.rejected;
    forall key: Key
      ensures AttributedIn(policy, layers, key, values[key], provenance[key], sources[key])
    {
      assert Attributed(HardValues(policy)[key], Sequence(layers), key, values[key], provenance[key], sources[key]);
      AttributionsInLayers(policy, layers, key, values[key], provenance[key], sources[key]);
    }
    hide AttributedIn;
    if layers.machineLimit.Some? && layers.machineLimit.value < values[MaxConcurrency].n {
      values := values[MaxConcurrency := Limit(layers.machineLimit.value)];
      provenance := provenance[MaxConcurrency := MachineFact];
      sources := sources[MaxConcurrency := "codex-capability-assessment"];
    }
  }

  /** A layer or the machine asks for this value of this key. */
  ghost predicate Wanted(l: Layers, key: Key, value: Setting) {
    AskedFor(l, key, value)
    || (l.machineLimit.Some? && key == MaxConcurrency && value == Limit(l.machineLimit.value))
  }

  /** Main result: what `resolve` gives is the strictest of the hard value and all that some layer or the machine asks for. */
  lemma ResolvedIsStrictest(policy: HardSafety, l: Layers, key: Key)
    requires ValidHardSafety(policy) && ValidLayers(l) && !Invariant(key)
    ensures var value := Cap(Settle(HardValues(policy), Sequence(l)), l.machineLimit)[key];
      && (value == HardValues(policy)[key] || Wanted(l, key, value))
      && AtLeastAsStrict(key, value, HardValues(policy)[key])
      && forall other: Setting :: Wanted(l, key, other) ==> Fits(key, other) && AtLeastAsStrict(key, value, other)
  {
    hide HardValues;
    hide Requested;
    hide AskedFor;
    hide Sequence;
    var hard, steps := HardValues(policy), Sequence(l);
    SettlesAtStrictest(hard, steps, key);
    var settled, value := Settle(hard, steps)[key], Cap(Settle(hard, steps), l.machineLimit)[key];
    SequenceAsksFor(l, key, value);
    forall other | AskedFor(l, key, other)
      ensures Fits(key, other) && AtLeastAsStrict(key, value, other)
    {
      SequenceAsksFor(l, key, other);
      StrictnessIsAnOrder(key, value, settled, other);
    }
  }

  /** In the fields of the hard policy: no limit is exceeded, nothing more may be written, and no less is verified. */
  lemma WithinHardSafety(policy: HardSafety, l: Layers)
    requires ValidHardSafety(policy) && ValidLayers(l)
    ensures var values := Cap(Settle(HardValues(policy), Sequence(l)), l.machineLimit);
      && values[MaxConcurrency].n <= policy.maxConcurrency && values[MaxTimeoutSeconds].n <= policy.maxTimeout
      && values[MaxRemediationGenerations].n <= policy.maxGenerations
      && (values[SandboxMaximum] == Boundary(WorkspaceWrite) ==> policy.sandbox == WorkspaceWrite)
      && TierRank(values[MinimumVerificationTier].tier) >= TierRank(policy.tier)
  {
    hide Wanted;
    hide Sequence;
    ResolvedIsStrictest(policy, l, MaxConcurrency);
    ResolvedIsStrictest(policy, l, MaxTimeoutSeconds);
    ResolvedIsStrictest(policy, l, MaxRemediationGenerations);
    ResolvedIsStrictest(policy, l, SandboxMaximum);
    ResolvedIsStrictest(policy, l, MinimumVerificationTier);
  }

  // ---------- the guards ----------

  /** What no configuration can turn off, and what none can turn on. */
  function Guard(key: Key): Option<bool> {
    match key
    case RequireCleanGit | RequireObservability | RequireStrictHealth | RequireReviewer => Some(true)
    case RequireHumanAuthority | RequireEvidence | RequireCertificationIntegrity => Some(true)
    case AllowArbitraryExecutable => Some(false)
    case _ => None
  }

  /** Whatever the hard policy and the layers say, every guard stands, and every directive against one is reported. */
  lemma GuardsStand(policy: HardSafety, l: Layers, key: Key)
    requires ValidHardSafety(policy) && ValidLayers(l) && Guard(key).Some?
    ensures Cap(Settle(HardValues(policy), Sequence(l)), l.machineLimit)[key] == Switch(Guard(key).value)
    ensures forall n, step :: InLayer(l, n, step) && step.directive.key == key && step.directive.value != Switch(Guard(key).value) ==>
      Rejection(key, step.authority, step.directive.value, step.directive.source, InvariantKey) in Refusals(HardValues(policy), Sequence(l))
  {
    var hard, steps := HardValues(policy), Sequence(l);
    assert Invariant(key) && hard[key] == Switch(Guard(key).value);
    InvariantsNeverMove(hard, steps, key);
    hide HardValues;
    hide Sequence;
    hide InLayer;
    hide AtLeastAsStrict;
    forall n, step | InLayer(l, n, step) && step.directive.key == key && step.directive.value != Switch(Guard(key).value)
      ensures Rejection(key, step.authority, step.directive.value, step.directive.source, InvariantKey) in Refusals(hard, steps)
    {
      var i := LayerInPosition(l, n, step);
      assert TooLoose(hard, steps, i);
      TooLooseIsRefused(hard, steps, i);
      InvariantsNeverMove(hard, steps[..i], key);
    }
  }

  /** Early involvement of the operator is no guard: it is required exactly when some layer asks for it. */
  lemma OperatorEarlyWhenAsked(policy: HardSafety, l: Layers)
    requires ValidHardSafety(policy) && ValidLayers(l)
    ensures Cap(Settle(HardValues(policy), Sequence(l)), l.machineLimit)[RequireOperatorEarly] == Switch(true)
      <==> exists n, step :: InLayer(l, n, step) && step.directive.key == RequireOperatorEarly && step.directive.value == Switch(true)
  {
    assert HardValues(policy)[RequireOperatorEarly] == Switch(false);
    hide HardValues;
    hide InLayer;
    hide Sequence;
    ResolvedIsStrictest(policy, l, RequireOperatorEarly);
    if AskedFor(l, RequireOperatorEarly, Switch(true)) {
      assert Wanted(l, RequireOperatorEarly, Switch(true));
    }
  }
}
