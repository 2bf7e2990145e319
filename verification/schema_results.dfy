/** What holds of every schema that `build_codex_output_schema` produces. */
module SchemaResults {
  import opened Wrappers
  import opened Json
  import opened OutputSchema
  import opened SchemaTransport
  import opened SchemaValidity

  lemma UniverseIsKnown(canonical: Json, external: Registry)
    requires canonical.Obj? && forall k :: k in external ==> external[k].Obj?
    ensures var registry := RegistryOf(canonical, external);
      Known(Universe(canonical, registry), canonical, registry)
  {
  }

  /** Satisfaction of a schema, however deep its references are unfolded. */
  ghost predicate Satisfies(other: Assertion, schema: Json, document: Json, registry: Registry, instance: Json) {
    forall depth :: Valid(other, schema, document, registry, depth, instance)
  }

  /** Main result: the transport schema accepts every instance the canonical schema accepts. */
  lemma BuildWeakens(other: Assertion, canonical: Json, external: Registry, instance: Json)
    requires canonical.Obj? && forall k :: k in external ==> external[k].Obj?
    requires Build(canonical, external).Some?
    requires forall depth :: Supported(canonical, canonical, RegistryOf(canonical, external), depth)
    requires Satisfies(other, canonical, canonical, RegistryOf(canonical, external), instance)
    ensures Satisfies(other, Build(canonical, external).value, Build(canonical, external).value, map[], instance)
  {
    var registry := RegistryOf(canonical, external);
    var universe := Universe(canonical, registry);
    var out := Build(canonical, external).value;
    UniverseIsKnown(canonical, external);
    var s := Source(canonical, registry, [], universe, Unseen(universe, []));
    forall depth: nat
      ensures Valid(other, out, out, map[], depth, instance)
    {
      ProjectWeakens(other, s, Place(out, map[], depth), canonical, instance);
    }
  }

  // ---------- the form of what is projected ----------

  /**
    Every constant at a schema position is in transport form itself, so that a second projection leaves
    it alone. References are followed, and members of `enum` are entered, as the projection does it.
   */
  ghost predicate Settled(s: Source, node: Json)
    requires Ready(s) && Strings(node) <= s.universe
    decreases Unseen(s.universe, s.stack), node, 1
  {
    match node
    case Arr(items) => forall i | 0 <= i < |items| :: Settled(s, items[i])
    case Obj(fields) =>
      if HasReference(fields) then SettledTarget(s, fields, node) && SettledFields(s, fields - {Ref}, node)
      else SettledFields(s, fields, node)
    case _ => true
  }

  ghost predicate SettledTarget(s: Source, fields: map<Key, Json>, context: Json)
    requires Ready(s) && Sized(s, fields, context)
    decreases Unseen(s.universe, s.stack), context, 0
  {
    var reference := Reference(fields);
    if reference.None? || reference.value in s.stack || Resolve(reference.value, s.document, s.registry).None? then true
    else
      ResolveStaysKnown(s.universe, reference.value, s.document, s.registry);
      assert reference.value in Strings(fields[Ref]);
      PushReference(s.universe, s.stack, reference.value);
      Settled(Entered(s, reference.value), Resolve(reference.value, s.document, s.registry).value.0)
  }

  /** Where the target of a reference is read. */
  ghost function Entered(s: Source, reference: string): Source
    requires Resolve(reference, s.document, s.registry).Some?
  {
    Source(Resolve(reference, s.document, s.registry).value.1, s.registry, s.stack + [reference], s.universe, s.depth)
  }

  ghost predicate SettledFields(s: Source, fields: map<Key, Json>, context: Json)
    requires Ready(s) && Sized(s, fields, context)
    decreases Unseen(s.universe, s.stack), context, 0
  {
    && (Const in fields ==> TransportForm(fields[Const], Everywhere))
    && forall k | k in Carried(fields) && !(Const in fields && k == Enum) :: SettledValue(s, k, fields[k])
  }

  ghost predicate SettledValue(s: Source, k: Key, value: Json)
    requires Ready(s) && Strings(value) <= s.universe
    decreases Unseen(s.universe, s.stack), value, 2
  {
    if k == Properties then value.Obj? ==> forall p | p in value.fields :: Settled(s, value.fields[p])
    else Settled(s, value)
  }

  /** A projection has transport form, and has it everywhere exactly when the constants were settled. */
  lemma {:induction false} ProjectedForm(node: Json, s: Source)
    requires Ready(s) && Strings(node) <= s.universe && ProjectIn(s, node).Some?
    ensures TransportForm(ProjectIn(s, node).value, UpTo(0))
    ensures TransportForm(ProjectIn(s, node).value, Everywhere) <==> Settled(s, node)
    decreases Unseen(s.universe, s.stack), node, 4
  {
    if node.Arr? {
      var out := ProjectIn(s, node).value;
      forall i | 0 <= i < |node.items|
        ensures TransportForm(out.items[i], UpTo(0))
        ensures TransportForm(out.items[i], Everywhere) <==> Settled(s, node.items[i])
      {
        ProjectedItem(s, node, out, i);
        ProjectedForm(node.items[i], s);
      }
    } else if node.Obj? {
      hide TransportForm;
      hide ProjectFields;
      hide SettledFields;
      if HasReference(node.fields) {
        ReferenceForm(node.fields, s);
      } else {
        FieldsForm(s, node.fields, ProjectFieldsIn(s, node.fields, node).value, node);
      }
    }
  }

  lemma {:induction false} ReferenceForm(fields: map<Key, Json>, s: Source)
    requires Ready(s) && Strings(Obj(fields)) <= s.universe && HasReference(fields) && ProjectIn(s, Obj(fields)).Some?
    ensures TransportForm(ProjectIn(s, Obj(fields)).value, UpTo(0))
    ensures TransportForm(ProjectIn(s, Obj(fields)).value, Everywhere) <==> Settled(s, Obj(fields))
    decreases Unseen(s.universe, s.stack), Obj(fields), 3
  {
    hide TransportForm;
    hide ProjectFields;
    hide SettledFields;
    var reference := Reference(fields).value;
    ResolveStaysKnown(s.universe, reference, s.document, s.registry);
    assert reference in Strings(fields[Ref]);
    PushReference(s.universe, s.stack, reference);
    var inner := Entered(s, reference);
    var target := Resolve(reference, s.document, s.registry).value.0;
    ProjectedForm(target, inner);
    var siblings := ProjectFieldsIn(s, fields - {Ref}, Obj(fields)).value;
    FieldsForm(s, fields - {Ref}, siblings, Obj(fields));
    MergedForm(ProjectIn(inner, target).value.fields, siblings);
  }

  /** Parts that do not conflict have a form exactly when what they are merged to has it. */
  lemma MergedForm(expanded: map<Key, Json>, siblings: map<Key, Json>)
    requires TransportForm(Obj(expanded), UpTo(0)) && TransportForm(Obj(siblings), UpTo(0)) && Merge(expanded, siblings).Some?
    ensures TransportForm(Merge(expanded, siblings).value, UpTo(0))
    ensures TransportForm(Merge(expanded, siblings).value, Everywhere)
      <==> TransportForm(Obj(expanded), Everywhere) && TransportForm(Obj(siblings), Everywhere)
  {
    hide TransportKeyword;
    hide PyEq;
    var merged := expanded + siblings;
    if TransportForm(Obj(merged), Everywhere) {
      forall k | k in expanded
        ensures TransportKeyword(k, expanded[k], Everywhere)
      {
        assert TransportKeyword(k, merged[k], Everywhere);
        if k in siblings {
          PyEqSymmetric(expanded[k], siblings[k]);
          EqualHasSameKeyword(k, siblings[k], expanded[k], Everywhere);
        }
      }
      assert forall k :: k in siblings ==> merged[k] == siblings[k];
    }
  }

  lemma {:induction false} ValueForm(k: Key, value: Json, s: Source)
    requires Ready(s) && Strings(value) <= s.universe && ProjectValueIn(s, k, value).Some?
    ensures TransportKeyword(k, ProjectValueIn(s, k, value).value, UpTo(0))
    ensures TransportKeyword(k, ProjectValueIn(s, k, value).value, Everywhere) <==> SettledValue(s, k, value)
    decreases Unseen(s.universe, s.stack), value, 5
  {
    hide Project;
    hide TransportForm;
    hide Settled;
    if k == Properties {
      var out := ProjectValueIn(s, k, value).value;
      PropertiesAreObjects(s, value, out);
      forall p | p in value.fields
        ensures TransportForm(out.fields[p], UpTo(0))
        ensures TransportForm(out.fields[p], Everywhere) <==> Settled(s, value.fields[p])
      {
        ProjectedMember(s, value, out, p);
        ProjectedForm(value.fields[p], s);
      }
    } else {
      ProjectedForm(value, s);
    }
  }

  lemma {:induction false} FieldForm(s: Source, fields: map<Key, Json>, out: map<Key, Json>, k: Key, context: Json)
    requires Ready(s) && Sized(s, fields, context)
    requires ProjectFieldsIn(s, fields, context) == Some(out) && k in out
    ensures TransportKeyword(k, out[k], UpTo(0))
    ensures k in Carried(fields) && !(Const in fields && k == Enum) ==>
      (TransportKeyword(k, out[k], Everywhere) <==> SettledValue(s, k, fields[k]))
    ensures k == Enum && Const in fields ==>
      (TransportKeyword(k, out[k], Everywhere) <==> TransportForm(fields[Const], Everywhere))
    ensures k !in Carried(fields) && k != Enum ==> TransportKeyword(k, out[k], Everywhere)
    decreases Unseen(s.universe, s.stack), context, 0
  {
    hide ProjectFieldsIn;
    hide ProjectValueIn;
    hide TransportKeyword;
    hide SettledValue;
    hide EnumType;
    Origin(s, fields, out, k, context);
    if k in Carried(fields) && !(Const in fields && k == Enum) {
      CarriedValue(s, fields, out, k, context);
      ValueForm(k, fields[k], s);
    } else if k == Enum {
      ConstantForm(fields[Const]);
    } else {
      NameForm(k, out[k]);
    }
  }

  lemma ConstantForm(value: Json)
    ensures TransportKeyword(Enum, Arr([value]), UpTo(0))
    ensures TransportKeyword(Enum, Arr([value]), Everywhere) <==> TransportForm(value, Everywhere)
  {
    assert Arr([value]).items[0] == value;
  }

  lemma NameForm(k: Key, value: Json)
    requires k == Type && value.Str?
    ensures TransportKeyword(k, value, UpTo(0)) && TransportKeyword(k, value, Everywhere)
  {
  }

  lemma NullIsFixed(s: Source, k: Key)
    requires Ready(s) && k != Properties
    ensures ProjectValueIn(s, k, Null) == Some(Null)
  {
    TransportFormIsFixed(Null, s.document, s.registry, s.stack, s.universe);
  }

  lemma EnumHasType(s: Source, fields: map<Key, Json>, out: map<Key, Json>, context: Json)
    requires Ready(s) && Sized(s, fields, context) && ProjectFieldsIn(s, fields, context) == Some(out)
    ensures Enum in out ==> Type in out
    ensures !HasReference(fields) ==> !HasReference(out)
  {
    hide ProjectValue;
    if Ref in out && !HasReference(fields) {
      Origin(s, fields, out, Ref, context);
      CarriedValue(s, fields, out, Ref, context);
      NullIsFixed(s, Ref);
    }
  }

  lemma ConstBecomesEnum(s: Source, fields: map<Key, Json>, out: map<Key, Json>, context: Json)
    requires Ready(s) && Sized(s, fields, context) && ProjectFieldsIn(s, fields, context) == Some(out)
    ensures Const in fields ==> Enum in out
  {
    hide ProjectValue;
  }

  lemma {:induction false} EveryFieldForm(s: Source, fields: map<Key, Json>, out: map<Key, Json>, context: Json)
    requires Ready(s) && Sized(s, fields, context) && ProjectFieldsIn(s, fields, context) == Some(out)
    ensures forall k :: k in out ==> !Omitted(k) && k != Const && TransportKeyword(k, out[k], UpTo(0))
    ensures (forall k :: k in out ==> TransportKeyword(k, out[k], Everywhere)) <==> SettledFields(s, fields, context)
    decreases Unseen(s.universe, s.stack), context, 1
  {
    assert forall k :: k in fields ==> Strings(fields[k]) <= s.universe;
    hide ProjectFieldsIn;
    hide ProjectValueIn;
    hide TransportKeyword;
    hide TransportForm;
    hide SettledValue;
    hide Strings;
    forall k | k in out
      ensures !Omitted(k) && k != Const && TransportKeyword(k, out[k], UpTo(0))
      ensures SettledFields(s, fields, context) ==> TransportKeyword(k, out[k], Everywhere)
    {
      Origin(s, fields, out, k, context);
      FieldForm(s, fields, out, k, context);
    }
    if forall k :: k in out ==> TransportKeyword(k, out[k], Everywhere) {
      ConstBecomesEnum(s, fields, out, context);
      if Const in fields {
        FieldForm(s, fields, out, Enum, context);
      }
      forall k | k in Carried(fields) && !(Const in fields && k == Enum)
        ensures SettledValue(s, k, fields[k])
      {
        CarriedValue(s, fields, out, k, context);
        FieldForm(s, fields, out, k, context);
      }
    }
  }

  lemma {:induction false} FieldsForm(s: Source, fields: map<Key, Json>, out: map<Key, Json>, context: Json)
    requires Ready(s) && Sized(s, fields, context) && !HasReference(fields)
    requires ProjectFieldsIn(s, fields, context) == Some(out)
    ensures TransportForm(Obj(out), UpTo(0))
    ensures TransportForm(Obj(out), Everywhere) <==> SettledFields(s, fields, context)
    decreases Unseen(s.universe, s.stack), context, 2
  {
    EnumHasType(s, fields, out, context);
    EveryFieldForm(s, fields, out, context);
    hide ProjectFieldsIn;
    hide TransportKeyword;
    hide SettledFields;
    hide HasReference;
    hide Ready;
    hide Sized;
  }

  /** Every schema that is built has transport form, and has it everywhere exactly when its constants are settled. */
  lemma BuildIsTransportForm(canonical: Json, external: Registry)
    requires canonical.Obj? && forall k :: k in external ==> external[k].Obj?
    requires Build(canonical, external).Some?
    ensures TransportForm(Build(canonical, external).value, UpTo(0))
    ensures TransportForm(Build(canonical, external).value, Everywhere) <==> ConstantsAreSettled(canonical, external)
  {
    hide TransportForm;
    hide Settled;
    UniverseIsKnown(canonical, external);
    ProjectedForm(canonical, Whole(canonical, external));
  }

  /** Where a canonical schema is read from. */
  ghost function Whole(canonical: Json, external: Registry): Source {
    var registry := RegistryOf(canonical, external);
    var universe := Universe(canonical, registry);
    Source(canonical, registry, [], universe, Unseen(universe, []))
  }

  ghost predicate ConstantsAreSettled(canonical: Json, external: Registry)
    requires canonical.Obj? && forall k :: k in external ==> external[k].Obj?
  {
    UniverseIsKnown(canonical, external);
    Settled(Whole(canonical, external), canonical)
  }

  // ---------- projecting again ----------

  /** Only what has transport form everywhere is a fixed point. */
  lemma {:induction false} FixedIsTransportForm(node: Json, s: Source)
    requires Ready(s) && Strings(node) <= s.universe && ProjectIn(s, node) == Some(node)
    ensures TransportForm(node, Everywhere)
    decreases node, 1
  {
    if node.Arr? {
      forall i | 0 <= i < |node.items|
        ensures TransportForm(node.items[i], Everywhere)
      {
        ProjectedItem(s, node, node, i);
        FixedIsTransportForm(node.items[i], s);
      }
    } else if node.Obj? {
      ProjectedForm(node, s);
      hide ProjectFields;
      FixedMembers(node.fields, s);
    }
  }

  lemma {:induction false} FixedMembers(fields: map<Key, Json>, s: Source)
    requires Ready(s) && Strings(Obj(fields)) <= s.universe && Sized(s, fields, Obj(fields))
    requires ProjectFieldsIn(s, fields, Obj(fields)) == Some(fields) && TransportForm(Obj(fields), UpTo(0))
    ensures TransportForm(Obj(fields), Everywhere)
    decreases Obj(fields), 0
  {
    hide ProjectFieldsIn;
    hide ProjectValueIn;
    hide TransportKeyword;
    hide Strings;
    forall k | k in fields
      ensures TransportKeyword(k, fields[k], Everywhere)
    {
      CarriedValue(s, fields, fields, k, Obj(fields));
      FixedMember(k, fields[k], s);
    }
  }

  lemma {:induction false} FixedMember(k: Key, value: Json, s: Source)
    requires Ready(s) && Strings(value) <= s.universe && ProjectValueIn(s, k, value) == Some(value)
    ensures TransportKeyword(k, value, Everywhere)
    decreases value, 2
  {
    if k == Properties {
      PropertiesAreObjects(s, value, value);
      forall p | p in value.fields
        ensures TransportForm(value.fields[p], Everywhere)
      {
        ProjectedMember(s, value, value, p);
        FixedIsTransportForm(value.fields[p], s);
      }
    } else {
      FixedIsTransportForm(value, s);
    }
  }

  /** Building from a built schema changes nothing exactly when the constants of the canonical schema are settled. */
  lemma BuildIsIdempotent(canonical: Json, external: Registry)
    requires canonical.Obj? && forall k :: k in external ==> external[k].Obj?
    requires Build(canonical, external).Some?
    ensures Build(canonical, external).value.Obj?
    ensures Build(Build(canonical, external).value, external) == Build(canonical, external) <==> ConstantsAreSettled(canonical, external)
  {
    var out := Build(canonical, external).value;
    BuildIsTransportForm(canonical, external);
    UniverseIsKnown(canonical, external);
    UniverseIsKnown(out, external);
    hide TransportForm;
    hide ConstantsAreSettled;
    var registry := RegistryOf(out, external);
    var universe := Universe(out, registry);
    if TransportForm(out, Everywhere) {
      TransportFormIsFixed(out, out, registry, [], universe);
    } else if Build(out, external) == Some(out) {
      FixedIsTransportForm(out, Source(out, registry, [], universe, Unseen(universe, [])));
    }
  }

  // ---------- enumerations ----------

  /** Projecting a schema in transport form settles the enumerations one level further in. */
  lemma {:induction false} ProjectionReachesFurther(node: Json, s: Source, n: nat)
    requires Ready(s) && Strings(node) <= s.universe && ProjectIn(s, node).Some? && TransportForm(node, UpTo(n))
    ensures TransportForm(ProjectIn(s, node).value, UpTo(n + 1))
    decreases node, 1
  {
    if node.Arr? {
      forall i | 0 <= i < |node.items|
        ensures TransportForm(ProjectIn(s, node.items[i]).value, UpTo(n + 1))
      {
        ProjectionReachesFurther(node.items[i], s, n);
      }
    } else if node.Obj? {
      hide ProjectFields;
      FieldsReachFurther(node.fields, s, ProjectFieldsIn(s, node.fields, node).value, n);
    }
  }

  lemma {:induction false} FieldsReachFurther(fields: map<Key, Json>, s: Source, out: map<Key, Json>, n: nat)
    requires Ready(s) && Strings(Obj(fields)) <= s.universe && Sized(s, fields, Obj(fields)) && TransportForm(Obj(fields), UpTo(n))
    requires ProjectFieldsIn(s, fields, Obj(fields)) == Some(out)
    ensures TransportForm(Obj(out), UpTo(n + 1))
    decreases Obj(fields), 0
  {
    hide ProjectFieldsIn;
    hide ProjectValueIn;
    hide TransportKeyword;
    hide Strings;
    hide EnumType;
    EnumHasType(s, fields, out, Obj(fields));
    forall k | k in out
      ensures !Omitted(k) && k != Const && TransportKeyword(k, out[k], UpTo(n + 1))
    {
      Origin(s, fields, out, k, Obj(fields));
      if Enum in out {
        Origin(s, fields, out, Enum, Obj(fields));
      }
      if k in fields {
        CarriedValue(s, fields, out, k, Obj(fields));
        ValueReachesFurther(k, fields[k], s, n);
      }
    }
  }

  lemma {:induction false} ValueReachesFurther(k: Key, value: Json, s: Source, n: nat)
    requires Ready(s) && Strings(value) <= s.universe && ProjectValueIn(s, k, value).Some? && TransportKeyword(k, value, UpTo(n))
    ensures TransportKeyword(k, ProjectValueIn(s, k, value).value, UpTo(n + 1))
    decreases value, 2
  {
    hide Project;
    hide TransportForm;
    if k == Enum {
      if n == 0 {
        ProjectedForm(value, s);
      } else {
        ProjectionReachesFurther(value, s, n - 1);
      }
    } else if k == Properties {
      forall p | p in value.fields
        ensures TransportForm(ProjectIn(s, value.fields[p]).value, UpTo(n + 1))
      {
        ProjectionReachesFurther(value.fields[p], s, n);
      }
    } else {
      ProjectionReachesFurther(value, s, n);
    }
  }

  /** Every member of the canonical enumeration is, as a value, a member of the projected one. */
  predicate Covered(items: seq<Json>, out: seq<Json>) {
    forall i | 0 <= i < |items| :: IsAmong(items[i], out)
  }

  predicate IsAmong(member: Json, out: seq<Json>) {
    exists j | 0 <= j < |out| :: JsonEq(out[j], member)
  }

  /** The projected enumeration accepts what the canonical one accepts exactly when it has its members. */
  lemma CoveredAcceptsAsMuch(items: seq<Json>, out: seq<Json>)
    ensures (forall instance :: EnumHolds(Arr(items), instance) ==> EnumHolds(Arr(out), instance)) <==> Covered(items, out)
  {
    if Covered(items, out) {
      forall instance | EnumHolds(Arr(items), instance)
        ensures EnumHolds(Arr(out), instance)
      {
        var i :| 0 <= i < |items| && JsonEq(items[i], instance);
        assert IsAmong(items[i], out);
        var j :| 0 <= j < |out| && JsonEq(out[j], items[i]);
        JsonEqTransitive(out[j], items[i], instance);
      }
    } else {
      var i :| 0 <= i < |items| && !IsAmong(items[i], out);
      JsonEqReflexive(items[i]);
      assert EnumHolds(Arr(items), items[i]);
      assert !EnumHolds(Arr(out), items[i]);
    }
  }

  /** Members that are covered by their projections are in transport form to any depth. */
  lemma {:induction false} CoveredReaches(items: seq<Json>, out: seq<Json>, s: Source, n: nat, i: nat)
    requires Ready(s) && Strings(Arr(items)) <= s.universe && ProjectIn(s, Arr(items)) == Some(Arr(out))
    requires Covered(items, out) && i < |items|
    ensures TransportForm(items[i], UpTo(n))
    decreases n
  {
    hide ProjectIn;
    hide TransportForm;
    hide Strings;
    ProjectedLength(s, Arr(items), Arr(out));
    assert IsAmong(items[i], out);
    var j :| 0 <= j < |out| && JsonEq(out[j], items[i]);
    ProjectedItem(s, Arr(items), Arr(out), j);
    if n == 0 {
      ProjectedForm(items[j], s);
    } else {
      CoveredReaches(items, out, s, n - 1, j);
      ProjectionReachesFurther(items[j], s, n - 1);
    }
    JsonEqIsPyEq(out[j], items[i]);
    EqualHasSameForm(out[j], items[i], UpTo(n));
  }

  /**
    The projection of an enumeration accepts every instance that the canonical enumeration accepts if
    and only if no member of it holds anything to project: each is in transport form everywhere.
   */
  lemma EnumWeakensExactlyWhen(s: Source, items: seq<Json>, out: Json)
    requires Ready(s) && Strings(Arr(items)) <= s.universe && ProjectIn(s, Arr(items)) == Some(out)
    ensures (forall instance :: EnumHolds(Arr(items), instance) ==> EnumHolds(out, instance)) <==> TransportForm(Arr(items), Everywhere)
  {
    CoveredAcceptsAsMuch(items, out.items);
    if TransportForm(Arr(items), Everywhere) {
      TransportFormIsFixed(Arr(items), s.document, s.registry, s.stack, s.universe);
    } else if Covered(items, out.items) {
      forall i | 0 <= i < |items|
        ensures TransportForm(items[i], Everywhere)
      {
        forall n: nat
          ensures TransportForm(items[i], UpTo(n))
        {
          CoveredReaches(items, out.items, s, n, i);
        }
        EveryLevelIsEverywhere(items[i]);
      }
      assert false;
    }
  }

  // ---------- closed objects ----------

  /** An object that satisfies a built object schema has exactly the declared members. */
  lemma BuiltObjectsAreClosed(other: Assertion, fields: map<Key, Json>, document: Json, registry: Registry, depth: nat, instance: Json)
    requires StrictObjects(Obj(fields)) && Type in fields && fields[Type] == Str("object")
    requires Valid(other, Obj(fields), document, registry, depth, instance)
    ensures instance.Obj? && fields[Properties].Obj? && instance.fields.Keys == fields[Properties].fields.Keys
  {
    assert StrictObject(fields);
    ObjectByType(other, fields, document, registry, depth, instance);
    AllMembersPresent(other, fields, document, registry, depth, instance);
    NoOtherMember(other, fields, document, registry, depth, instance);
  }

  lemma ObjectByType(other: Assertion, fields: map<Key, Json>, document: Json, registry: Registry, depth: nat, instance: Json)
    requires Type in fields && fields[Type] == Str("object")
    requires Valid(other, Obj(fields), document, registry, depth, instance)
    ensures instance.Obj?
  {
    assert Holds(other, fields, Type, document, registry, depth, instance, Obj(fields));
    hide Valid;
  }

  lemma AllMembersPresent(other: Assertion, fields: map<Key, Json>, document: Json, registry: Registry, depth: nat, instance: Json)
    requires StrictObject(fields) && instance.Obj? && Valid(other, Obj(fields), document, registry, depth, instance)
    ensures forall p :: p in fields[Properties].fields ==> p in instance.fields
  {
    hide KeyOf;
    assert Holds(other, fields, Required, document, registry, depth, instance, Obj(fields));
    hide Valid;
    assert RequiredHolds(fields[Required], instance);
    hide Holds;
    forall p | p in fields[Properties].fields
      ensures p in instance.fields
    {
      var i :| 0 <= i < |fields[Required].items|
        && fields[Required].items[i].Str? && KeyOf(fields[Required].items[i].s) == p;
    }
  }

  lemma NoOtherMember(other: Assertion, fields: map<Key, Json>, document: Json, registry: Registry, depth: nat, instance: Json)
    requires StrictObject(fields) && instance.Obj? && Valid(other, Obj(fields), document, registry, depth, instance)
    ensures forall p :: p in instance.fields ==> p in fields[Properties].fields
  {
    hide KeyOf;
    assert Holds(other, fields, AdditionalProperties, document, registry, depth, instance, Obj(fields));
    forall p | p in instance.fields
      ensures p in fields[Properties].fields
    {
      if Additional(fields, p) {
        assert false;
      }
    }
  }

  // ---------- where the results end ----------

  const LABELLED: Json := Obj(map[Title := Str("x")])
  const EMPTY: Json := Obj(map[])

  predicate Anything(k: Key, value: Json, instance: Json) {
    true
  }

  /** A closed object schema with the one property `title`. */
  const TITLED: map<Key, Json> := map[
    Type := Str("object"), Properties := Obj(map[Title := Obj(map[Type := Str("string")])]),
    Required := Arr([Str("title")]), AdditionalProperties := Bool(false)]

  /** A closed object schema that a projection leaves as it is. */
  ghost predicate Finished(base: map<Key, Json>) {
    && base.Keys == {Type, Properties, Required, AdditionalProperties} && StrictObject(base)
    && forall k :: k in base ==> TransportKeyword(k, base[k], Everywhere) && StrictObjects(base[k])
  }

  /** The schema with one keyword more. */
  function With(base: map<Key, Json>, k: Key, value: Json): Json {
    Obj(base[k := value])
  }

  lemma TitledIsFinished()
    ensures Finished(TITLED)
  {
    hide StrictObject;
    TitledIsStrict();
    forall k | k in TITLED
      ensures TransportKeyword(k, TITLED[k], Everywhere) && StrictObjects(TITLED[k])
    {
      TitledKeyword(k);
    }
    hide TransportKeyword;
    hide StrictObjects;
  }

  lemma TitledIsStrict()
    ensures StrictObject(TITLED)
  {
    assert TITLED[Required].items[0] == Str("title") && KeyOf("title") == Title;
  }

  lemma TitledKeyword(k: Key)
    requires k in TITLED
    ensures TransportKeyword(k, TITLED[k], Everywhere) && StrictObjects(TITLED[k])
  {
    if k == Properties {
      OneProperty(Title, Obj(map[Type := Str("string")]));
      OneTypeIsFinished(Type, Str("string"));
      hide TransportForm;
      hide TransportKeyword;
      hide StrictObjects;
    }
  }

  lemma OneTypeIsFinished(k: Key, value: Json)
    requires k == Type && value.Str? && value != Str("object")
    ensures TransportForm(Obj(map[k := value]), Everywhere) && StrictObjects(Obj(map[k := value]))
  {
  }

  lemma OneProperty(name: Key, value: Json)
    ensures TransportForm(value, Everywhere) ==> TransportKeyword(Properties, Obj(map[name := value]), Everywhere)
    ensures StrictObjects(value) && name != Type ==> StrictObjects(Obj(map[name := value]))
  {
  }

  lemma WithIsStrict(base: map<Key, Json>, value: Json)
    requires Finished(base) && StrictObjects(value)
    ensures StrictObjects(With(base, Enum, value))
  {
    var fields := base[Enum := value];
    assert StrictObject(fields);
    hide StrictObject;
  }

  lemma ObjectStrings(schema: Json, universe: set<string>)
    requires schema.Obj? && Strings(schema) <= universe
    ensures forall k :: k in schema.fields ==> Strings(schema.fields[k]) <= universe
  {
  }

  lemma ObjectIsProjected(schema: Json, universe: set<string>)
    requires schema.Obj? && Known(universe, schema, map[]) && !HasReference(schema.fields)
    requires forall k :: k in schema.fields ==> schema.fields[k] < schema && Strings(schema.fields[k]) <= universe
    ensures Strings(schema) <= universe
    ensures Project(schema, schema, map[], [], universe)
         == var fields := ProjectFields(schema.fields, schema, map[], [], universe, schema);
            if fields.None? then None else Some(Obj(fields.value))
  {
    hide ProjectFields;
  }

  lemma KeysWith(base: map<Key, Json>, k: Key, value: Json, enumeration: Json)
    requires Finished(base) && (k == Enum || k == Const)
    ensures var carried := if k == Const then base else base[Enum := enumeration];
      carried.Keys == Carried(base[k := value]) && Type in carried && Ref !in base && Enum !in base && Const !in base
  {
    hide StrictObject;
    hide StrictObjects;
    hide TransportKeyword;
    var schema := base[k := value];
    forall key
      ensures key in Carried(schema) <==> key in base || (key == k && k == Enum)
    {
    }
  }

  /** The projection of a finished schema with one keyword more: an enumeration is projected, a constant becomes one. */
  lemma ProjectWith(base: map<Key, Json>, k: Key, value: Json, enumeration: Json, schema: Json, universe: set<string>)
    requires Finished(base) && (k == Enum || k == Const) && schema == With(base, k, value)
    requires Known(universe, schema, map[]) && Strings(schema) <= universe && Strings(value) <= universe
    requires k == Enum ==> Project(value, schema, map[], [], universe) == Some(enumeration)
    requires k == Const ==> enumeration == Arr([value])
    ensures Project(schema, schema, map[], [], universe) == Some(With(base, Enum, enumeration))
  {
    hide Finished;
    hide Project;
    hide ProjectValue;
    hide ProjectFields;
    hide Carried;
    hide PyEq;
    hide Strings;
    var carried := if k == Const then base else base[Enum := enumeration];
    KeysWith(base, k, value, enumeration);
    ObjectStrings(schema, universe);
    forall key | key in carried
      ensures ProjectValue(key, schema.fields[key], schema, map[], [], universe) == Some(carried[key])
    {
      KeywordWith(base, k, value, enumeration, schema, universe, key);
    }
    ProjectByKeywords(schema, universe, carried);
  }

  /** The projection of a schema with a type and no reference, keyword by keyword. */
  lemma ProjectByKeywords(schema: Json, universe: set<string>, carried: map<Key, Json>)
    requires schema.Obj? && Known(universe, schema, map[]) && Strings(schema) <= universe
    requires Ref !in schema.fields && Type in carried && !(Const in schema.fields && Enum in schema.fields)
    requires carried.Keys == Carried(schema.fields)
    requires forall k :: k in schema.fields ==> Strings(schema.fields[k]) <= universe
    requires forall k :: k in carried ==> ProjectValue(k, schema.fields[k], schema, map[], [], universe) == Some(carried[k])
    ensures Project(schema, schema, map[], [], universe)
         == Some(Obj(if Const in schema.fields then carried[Enum := Arr([schema.fields[Const]])] else carried))
  {
    hide Strings;
    hide ProjectValue;
    hide PyEq;
    hide Carried;
    ObjectIsProjected(schema, universe);
    hide Project;
    hide ProjectFields;
    AllCarried(schema.fields, schema, map[], [], universe, schema, carried);
  }

  lemma KeywordWith(base: map<Key, Json>, k: Key, value: Json, enumeration: Json, schema: Json, universe: set<string>, key: Key)
    requires Finished(base) && (k == Enum || k == Const) && schema == With(base, k, value) && key in schema.fields && key != Const
    requires Known(universe, schema, map[]) && Strings(schema.fields[key]) <= universe
    requires k == Enum ==> Strings(value) <= universe && Project(value, schema, map[], [], universe) == Some(enumeration)
    ensures ProjectValue(key, schema.fields[key], schema, map[], [], universe)
         == Some(if key == Enum then enumeration else base[key])
  {
    hide Strings;
    hide Project;
    hide TransportKeyword;
    hide StrictObject;
    hide StrictObjects;
    if key != Enum {
      assert schema.fields[key] == base[key] && TransportKeyword(key, base[key], Everywhere);
      hide ProjectValue;
      FixedValue(key, schema.fields[key], schema, map[], [], universe);
    }
  }

  /** What building such a schema amounts to. */
  lemma BuildWith(base: map<Key, Json>, k: Key, value: Json, schema: Json, universe: set<string>)
    requires Finished(base) && (k == Enum || k == Const) && schema == With(base, k, value) && universe == Universe(schema, map[])
    ensures Known(universe, schema, map[]) && Strings(schema) <= universe && Strings(value) <= universe
    ensures Build(schema, map[])
         == var projected := Project(schema, schema, map[], [], universe);
            if projected.Some? && StrictObjects(projected.value) then projected else None
  {
    assert schema.fields[k] == value && Id !in schema.fields;
    hide Finished;
    hide Strings;
    hide StrictObjects;
    hide Project;
    ObjectStrings(schema, universe);
  }

  lemma LabelledIsDropped(document: Json, universe: set<string>)
    requires Known(universe, document, map[]) && Strings(Arr([LABELLED])) <= universe
    ensures Project(Arr([LABELLED]), document, map[], [], universe) == Some(Arr([EMPTY]))
  {
    var members := Arr([LABELLED]);
    assert members.items[0] == LABELLED;
    assert Strings(LABELLED) <= Strings(members);
    assert Carried(LABELLED.fields) == {};
    ObjectStrings(LABELLED, universe);
    var nothing: map<Key, Json> := map[];
    AllCarried(LABELLED.fields, document, map[], [], universe, LABELLED, nothing);
    assert Project(LABELLED, document, map[], [], universe) == Some(EMPTY);
    assert Project(members, document, map[], [], universe).value.items == [EMPTY];
  }

  lemma BuildLabelled(base: map<Key, Json>)
    requires Finished(base)
    ensures Build(With(base, Enum, Arr([LABELLED])), map[]) == Some(With(base, Enum, Arr([EMPTY])))
  {
    assert StrictObjects(Arr([EMPTY])) by {
      assert StrictObjects(EMPTY);
    }
    hide *;
    WithIsStrict(base, Arr([EMPTY]));
    var schema := With(base, Enum, Arr([LABELLED]));
    var universe := Universe(schema, map[]);
    BuildWith(base, Enum, Arr([LABELLED]), schema, universe);
    LabelledIsDropped(schema, universe);
    ProjectWith(base, Enum, Arr([LABELLED]), Arr([EMPTY]), schema, universe);
  }

  lemma BuildConstant(base: map<Key, Json>)
    requires Finished(base)
    ensures Build(With(base, Const, LABELLED), map[]) == Some(With(base, Enum, Arr([LABELLED])))
  {
    assert StrictObjects(Arr([LABELLED])) by {
      assert StrictObjects(LABELLED);
    }
    hide *;
    WithIsStrict(base, Arr([LABELLED]));
    var schema := With(base, Const, LABELLED);
    var universe := Universe(schema, map[]);
    BuildWith(base, Const, LABELLED, schema, universe);
    ProjectWith(base, Const, LABELLED, Arr([LABELLED]), schema, universe);
  }

  /** Members of `enum` are projected like schemas: the schema that is built refuses what the canonical one accepts. */
  lemma ObjectEnumIsNotWeakened()
    ensures var canonical, built := With(TITLED, Enum, Arr([LABELLED])), With(TITLED, Enum, Arr([EMPTY]));
      && Build(canonical, map[]) == Some(built)
      && Satisfies(Anything, canonical, canonical, map[], LABELLED)
      && !Satisfies(Anything, built, built, map[], LABELLED)
  {
    TitledIsFinished();
    hide *;
    BuildLabelled(TITLED);
    LabelledIsAllowed();
    LabelledIsRefused(TITLED);
  }

  lemma LabelledIsAllowed()
    ensures var schema := With(TITLED, Enum, Arr([LABELLED])); Satisfies(Anything, schema, schema, map[], LABELLED)
  {
    var schema := With(TITLED, Enum, Arr([LABELLED]));
    forall depth: nat
      ensures Valid(Anything, schema, schema, map[], depth, LABELLED)
    {
      forall k | k in schema.fields
        ensures Holds(Anything, schema.fields, k, schema, map[], depth, LABELLED, schema)
      {
        LabelledHolds(k, schema, depth);
      }
      hide Holds;
    }
  }

  lemma LabelledHolds(k: Key, schema: Json, depth: nat)
    requires schema == With(TITLED, Enum, Arr([LABELLED])) && k in schema.fields
    ensures Holds(Anything, schema.fields, k, schema, map[], depth, LABELLED, schema)
  {
    var value := schema.fields[k];
    if k == Enum {
      assert JsonEq(value.items[0], LABELLED);
    } else if k == Properties {
      OneMemberHolds(schema, depth);
    } else if k == Required {
      assert value.items == [Str("title")] && KeyOf("title") == Title;
      assert RequiredHolds(value, LABELLED);
    }
    hide Valid;
  }

  lemma OneMemberHolds(schema: Json, depth: nat)
    ensures Valid(Anything, Obj(map[Type := Str("string")]), schema, map[], depth, Str("x"))
  {
  }

  lemma LabelledIsRefused(base: map<Key, Json>)
    ensures var out := With(base, Enum, Arr([EMPTY])); !Satisfies(Anything, out, out, map[], LABELLED)
  {
    var out := With(base, Enum, Arr([EMPTY]));
    assert Title in LABELLED.fields;
    assert !JsonEq(EMPTY, LABELLED);
    assert !EnumHolds(out.fields[Enum], LABELLED);
    assert !Holds(Anything, out.fields, Enum, out, map[], 0, LABELLED, out);
    assert !Valid(Anything, out, out, map[], 0, LABELLED);
  }

  /**
    The value of `const` is not projected at first: what is built still accepts it, and what is built
    from that a second time does not.
   */
  lemma ObjectConstIsProjectedLate()
    ensures var canonical, once, twice := With(TITLED, Const, LABELLED), With(TITLED, Enum, Arr([LABELLED])), With(TITLED, Enum, Arr([EMPTY]));
      && Build(canonical, map[]) == Some(once) && Build(once, map[]) == Some(twice) && once != twice
      && Satisfies(Anything, once, once, map[], LABELLED) && !Satisfies(Anything, twice, twice, map[], LABELLED)
      && !ConstantsAreSettled(canonical, map[])
  {
    TitledIsFinished();
    BuildConstant(TITLED);
    ObjectEnumIsNotWeakened();
    BuildIsIdempotent(With(TITLED, Const, LABELLED), map[]);
    hide Build;
    hide ConstantsAreSettled;
    hide Satisfies;
    hide Finished;
  }

  /** A member `"$ref": null` counts as no reference, and is built into the transport schema. */
  lemma NullReferenceIsKept()
    ensures var schema := Obj(map[Ref := Null]); Build(schema, map[]) == Some(schema)
  {
    var schema := Obj(map[Ref := Null]);
    UniverseIsKnown(schema, map[]);
    assert TransportForm(Null, Everywhere);
    TransportFormIsFixed(schema, schema, map[], [], Universe(schema, map[]));
  }
}
