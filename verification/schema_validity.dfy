/**
  What a schema means, and that its projection accepts at least as much.

  Validity follows JSON Schema Draft 2020-12 for `$ref` (section 8.2.3.1 of the Core
  specification), `properties`, `additionalProperties`, `items`, `prefixItems` and `anyOf`
  (sections 10.2 and 10.3), and `type`, `enum`, `const` and `required` (section 6 of the
  Validation specification). Every other keyword is an arbitrary assertion `other` about its
  value and the instance; the keywords the projection omits are among them.
 */
module SchemaValidity {
  import opened Wrappers
  import opened Json
  import opened OutputSchema
  import opened SchemaTransport

  type Assertion = (Key, Json, Json) -> bool

  /** Keywords whose projection does not weaken them, or that look at their siblings. */
  predicate Unsupported(k: Key) {
    match k
    case OneOf | PatternProperties | DependentSchemas | PropertyNames => true
    case MinContains | MaxContains | UnevaluatedItems | UnevaluatedProperties => true
    case _ => false
  }

  predicate Integral(x: real) {
    x == x.Floor as real
  }

  predicate HasType(name: string, instance: Json) {
    match instance
    case Null => name == "null"
    case Bool(_) => name == "boolean"
    case Int(_) => name == "integer" || name == "number"
    case Float(x) => name == "number" || (name == "integer" && Integral(x))
    case Str(_) => name == "string"
    case Arr(_) => name == "array"
    case Obj(_) => name == "object"
  }

  predicate TypeHolds(value: Json, instance: Json) {
    match value
    case Str(name) => HasType(name, instance)
    case Arr(names) => exists i | 0 <= i < |names| :: names[i].Str? && HasType(names[i].s, instance)
    case _ => true
  }

  predicate EnumHolds(value: Json, instance: Json) {
    value.Arr? ==> exists i | 0 <= i < |value.items| :: JsonEq(value.items[i], instance)
  }

  predicate RequiredHolds(value: Json, instance: Json) {
    value.Arr? && instance.Obj? ==>
      forall i | 0 <= i < |value.items| :: value.items[i].Str? ==> KeyOf(value.items[i].s) in instance.fields
  }

  /** Members that the adjacent `properties` does not describe. */
  predicate Additional(schema: map<Key, Json>, name: Key) {
    Properties in schema && schema[Properties].Obj? ==> name !in schema[Properties].fields
  }

  /** Array positions that the adjacent `prefixItems` describes. */
  function PrefixLength(schema: map<Key, Json>): nat {
    if PrefixItems in schema && schema[PrefixItems].Arr? then |schema[PrefixItems].items| else 0
  }

  /**
    An instance satisfies a schema when references are unfolded at most `depth` times on any
    path; a reference beyond that is not examined. Satisfaction proper is at every depth.
   */
  predicate Valid(other: Assertion, node: Json, document: Json, registry: Registry, depth: nat, instance: Json)
    decreases depth, node, 1
  {
    match node
    case Bool(b) => b
    case Obj(schema) =>
      forall k | k in schema :: Holds(other, schema, k, document, registry, depth, instance, node)
    case _ => true
  }

  /** One keyword of a schema object. */
  predicate Holds(other: Assertion, schema: map<Key, Json>, k: Key, document: Json, registry: Registry,
                  depth: nat, instance: Json, ghost context: Json)
    requires k in schema && schema[k] < context
    decreases depth, context, 0
  {
    var value := schema[k];
    if k == Ref then
      value.Str? && depth > 0 ==>
        var resolved := Resolve(value.s, document, registry);
        resolved.Some? && Valid(other, resolved.value.0, resolved.value.1, registry, depth - 1, instance)
    else if k == Type then TypeHolds(value, instance)
    else if k == Enum then EnumHolds(value, instance)
    else if k == Const then JsonEq(value, instance)
    else if k == Required then RequiredHolds(value, instance)
    else if k == Properties then
      value.Obj? && instance.Obj? ==>
        forall p | p in value.fields && p in instance.fields ::
          Valid(other, value.fields[p], document, registry, depth, instance.fields[p])
    else if k == AdditionalProperties then
      instance.Obj? ==>
        forall p | p in instance.fields && Additional(schema, p) ::
          Valid(other, value, document, registry, depth, instance.fields[p])
    else if k == Items then
      instance.Arr? ==>
        forall i | PrefixLength(schema) <= i < |instance.items| ::
          Valid(other, value, document, registry, depth, instance.items[i])
    else if k == PrefixItems then
      value.Arr? && instance.Arr? ==>
        forall i | 0 <= i < |value.items| && i < |instance.items| ::
          Valid(other, value.items[i], document, registry, depth, instance.items[i])
    else if k == AnyOf then
      value.Arr? ==>
        exists i | 0 <= i < |value.items| :: Valid(other, value.items[i], document, registry, depth, instance)
    else other(k, value, instance)
  }

  /**
    The schemas the weakening result is about; references are followed as in `Valid`. What stands under
    `enum` and under keywords of an arbitrary meaning is what the projection leaves as it is.
   */
  predicate Supported(node: Json, document: Json, registry: Registry, depth: nat)
    decreases depth, node, 1
  {
    match node
    case Bool(_) => true
    case Obj(schema) => forall k | k in schema && !Omitted(k) :: SupportedKeyword(k, schema[k], document, registry, depth)
    case _ => false
  }

  predicate SupportedKeyword(k: Key, value: Json, document: Json, registry: Registry, depth: nat)
    decreases depth, value, 2
  {
    if Unsupported(k) then false
    else if k == Const then true
    else if k == Ref then
      value.Str? && depth > 0 ==>
        var resolved := Resolve(value.s, document, registry);
        resolved.Some? ==> Supported(resolved.value.0, resolved.value.1, registry, depth - 1)
    else if k == Properties then
      value.Obj? ==> forall p | p in value.fields :: Supported(value.fields[p], document, registry, depth)
    else if k == AdditionalProperties || k == Items then Supported(value, document, registry, depth)
    else if k == PrefixItems || k == AnyOf then
      value.Arr? && forall i | 0 <= i < |value.items| :: Supported(value.items[i], document, registry, depth)
    else if k == Enum then value.Arr? ==> TransportForm(value, Everywhere)
    else TransportForm(value, Everywhere)
  }

  // ---------- settings of the proof ----------

  /** Where a schema is read: its document, the other documents, and the references being expanded. */
  datatype Source = Source(document: Json, registry: Registry, stack: seq<string>, universe: set<string>, depth: nat)

  /** Where the projected schema is placed; it holds no reference, so any place will do. */
  datatype Place = Place(document: Json, registry: Registry, depth: nat)

  ghost predicate Ready(s: Source) {
    Known(s.universe, s.document, s.registry) && s.depth >= Unseen(s.universe, s.stack)
  }

  ghost predicate Sized(s: Source, fields: map<Key, Json>, context: Json) {
    forall k :: k in fields ==> fields[k] < context && Strings(fields[k]) <= s.universe
  }

  ghost function ProjectIn(s: Source, node: Json): Option<Json>
    requires Ready(s) && Strings(node) <= s.universe
  {
    Project(node, s.document, s.registry, s.stack, s.universe)
  }

  ghost function ProjectValueIn(s: Source, k: Key, value: Json): Option<Json>
    requires Ready(s) && Strings(value) <= s.universe
  {
    ProjectValue(k, value, s.document, s.registry, s.stack, s.universe)
  }

  ghost function ProjectFieldsIn(s: Source, fields: map<Key, Json>, context: Json): Option<map<Key, Json>>
    requires Ready(s) && Sized(s, fields, context)
  {
    ProjectFields(fields, s.document, s.registry, s.stack, s.universe, context)
  }

  ghost predicate SupportedIn(s: Source, node: Json) {
    Supported(node, s.document, s.registry, s.depth)
  }

  ghost predicate KeywordSupportedIn(s: Source, k: Key, value: Json) {
    SupportedKeyword(k, value, s.document, s.registry, s.depth)
  }

  ghost predicate ValidIn(other: Assertion, s: Source, node: Json, instance: Json) {
    Valid(other, node, s.document, s.registry, s.depth, instance)
  }

  ghost predicate HoldsIn(other: Assertion, s: Source, fields: map<Key, Json>, k: Key, instance: Json, context: Json)
    requires k in fields && fields[k] < context
  {
    Holds(other, fields, k, s.document, s.registry, s.depth, instance, context)
  }

  ghost predicate ValidAt(other: Assertion, p: Place, node: Json, instance: Json) {
    Valid(other, node, p.document, p.registry, p.depth, instance)
  }

  ghost predicate HoldsAt(other: Assertion, p: Place, schema: map<Key, Json>, k: Key, instance: Json)
    requires k in schema
  {
    Holds(other, schema, k, p.document, p.registry, p.depth, instance, Obj(schema))
  }

  ghost predicate EveryKeywordHolds(other: Assertion, s: Source, fields: map<Key, Json>, instance: Json, context: Json)
    requires Sized(s, fields, context)
  {
    forall k :: k in fields ==> HoldsIn(other, s, fields, k, instance, context)
  }

  ghost predicate EveryKeywordSupported(s: Source, fields: map<Key, Json>) {
    forall k :: k in fields && !Omitted(k) ==> KeywordSupportedIn(s, k, fields[k])
  }

  // ---------- enumerations ----------

  /** A member of an enumeration has the type that is inferred for the enumeration. */
  lemma InferredTypeHolds(value: Json, instance: Json)
    requires EnumType(value).Some? && EnumHolds(value, instance)
    ensures HasType(EnumType(value).value, instance)
  {
    var i :| 0 <= i < |value.items| && JsonEq(value.items[i], instance);
    assert JsonType(value.items[i]) == EnumType(value);
    if instance.Float? {
      assert Integral(NumberOf(value.items[i]));
    }
  }

  // ---------- merging reference siblings ----------

  /** The result of a merge satisfies whatever both its parts satisfy. */
  lemma MergeWeakens(other: Assertion, p: Place, expanded: map<Key, Json>, siblings: map<Key, Json>, instance: Json)
    requires Merge(expanded, siblings).Some?
    requires ValidAt(other, p, Obj(expanded), instance) && ValidAt(other, p, Obj(siblings), instance)
    ensures ValidAt(other, p, Merge(expanded, siblings).value, instance)
  {
    var merged := expanded + siblings;
    MergedDescribesMore(expanded, siblings);
    forall k | k in merged
      ensures HoldsAt(other, p, merged, k, instance)
    {
      WiderSiblings(other, p, if k in siblings then siblings else expanded, merged, k, instance);
    }
  }

  /** Parts that do not conflict agree on which members and positions they describe. */
  lemma MergedDescribesMore(expanded: map<Key, Json>, siblings: map<Key, Json>)
    requires Merge(expanded, siblings).Some?
    ensures forall p :: Additional(expanded + siblings, p) ==> Additional(expanded, p) && Additional(siblings, p)
    ensures PrefixLength(expanded) <= PrefixLength(expanded + siblings)
    ensures PrefixLength(siblings) <= PrefixLength(expanded + siblings)
  {
    if Properties in expanded && Properties in siblings {
      assert PyEq(expanded[Properties], siblings[Properties]);
    }
    if PrefixItems in expanded && PrefixItems in siblings {
      assert PyEq(expanded[PrefixItems], siblings[PrefixItems]);
    }
  }

  /** A keyword keeps holding beside siblings that describe at least as many members and positions. */
  lemma WiderSiblings(other: Assertion, p: Place, a: map<Key, Json>, b: map<Key, Json>, k: Key, instance: Json)
    requires k in a && k in b && a[k] == b[k]
    requires forall name :: Additional(b, name) ==> Additional(a, name)
    requires PrefixLength(a) <= PrefixLength(b)
    requires HoldsAt(other, p, a, k, instance)
    ensures HoldsAt(other, p, b, k, instance)
  {
  }

  // ---------- applicators, one by one ----------

  lemma ProjectedMember(s: Source, value: Json, out: Json, name: Key)
    requires Ready(s) && Strings(value) <= s.universe
    requires ProjectValueIn(s, Properties, value) == Some(out) && name in value.fields
    ensures out.Obj? && out.fields.Keys == value.fields.Keys && Strings(value.fields[name]) <= s.universe
    ensures ProjectIn(s, value.fields[name]) == Some(out.fields[name])
  {
  }

  lemma ProjectedItem(s: Source, value: Json, out: Json, i: nat)
    requires Ready(s) && Strings(value) <= s.universe
    requires ProjectIn(s, value) == Some(out) && value.Arr? && i < |value.items|
    ensures out.Arr? && |out.items| == |value.items| && Strings(value.items[i]) <= s.universe
    ensures ProjectIn(s, value.items[i]) == Some(out.items[i])
  {
  }

  lemma ProjectedLength(s: Source, value: Json, out: Json)
    requires Ready(s) && Strings(value) <= s.universe
    requires ProjectIn(s, value) == Some(out) && value.Arr?
    ensures out.Arr? && |out.items| == |value.items|
  {
  }

  lemma PropertiesAreObjects(s: Source, value: Json, out: Json)
    requires Ready(s) && Strings(value) <= s.universe
    requires ProjectValueIn(s, Properties, value) == Some(out)
    ensures value.Obj? && out.Obj? && out.fields.Keys == value.fields.Keys
  {
  }

  lemma {:induction false} PropertiesWeaken(other: Assertion, s: Source, p: Place, value: Json, out: Json, instance: map<Key, Json>)
    requires Ready(s) && Strings(value) <= s.universe
    requires value.Obj? && ProjectValueIn(s, Properties, value) == Some(out)
    requires forall name :: name in value.fields ==> SupportedIn(s, value.fields[name])
    requires forall name :: name in value.fields && name in instance ==> ValidIn(other, s, value.fields[name], instance[name])
    ensures out.Obj?
    ensures forall name :: name in out.fields && name in instance ==> ValidAt(other, p, out.fields[name], instance[name])
    decreases Unseen(s.universe, s.stack), value, 8
  {
    hide ValidIn;
    hide ValidAt;
    hide SupportedIn;
    PropertiesAreObjects(s, value, out);
    hide ProjectValueIn;
    hide ProjectIn;
    forall name | name in out.fields && name in instance
      ensures ValidAt(other, p, out.fields[name], instance[name])
    {
      ProjectedMember(s, value, out, name);
      ProjectWeakens(other, s, p, value.fields[name], instance[name]);
    }
  }

  lemma {:induction false} ItemWeakens(other: Assertion, s: Source, p: Place, value: Json, out: Json, i: nat, instance: Json)
    requires Ready(s) && Strings(value) <= s.universe
    requires ProjectIn(s, value) == Some(out) && value.Arr? && i < |value.items|
    requires SupportedIn(s, value.items[i]) && ValidIn(other, s, value.items[i], instance)
    ensures out.Arr? && |out.items| == |value.items|
    ensures ValidAt(other, p, out.items[i], instance)
    decreases Unseen(s.universe, s.stack), value, 8
  {
    hide ValidIn;
    hide ValidAt;
    hide SupportedIn;
    hide ProjectIn;
    ProjectedItem(s, value, out, i);
    ProjectWeakens(other, s, p, value.items[i], instance);
  }

  lemma {:induction false} AdditionalWeakens(other: Assertion, s: Source, p: Place, fields: map<Key, Json>, out: map<Key, Json>, instance: Json, context: Json)
    requires Ready(s) && Sized(s, fields, context)
    requires AdditionalProperties in fields && AdditionalProperties in out
    requires ProjectIn(s, fields[AdditionalProperties]) == Some(out[AdditionalProperties])
    requires forall name :: Additional(out, name) ==> Additional(fields, name)
    requires SupportedIn(s, fields[AdditionalProperties])
    requires HoldsIn(other, s, fields, AdditionalProperties, instance, context)
    ensures HoldsAt(other, p, out, AdditionalProperties, instance)
    decreases Unseen(s.universe, s.stack), context, 0
  {
    hide Valid;
    hide SupportedIn;
    hide ProjectIn;
    if instance.Obj? {
      forall name | name in instance.fields && Additional(out, name)
        ensures ValidAt(other, p, out[AdditionalProperties], instance.fields[name])
      {
        ProjectWeakens(other, s, p, fields[AdditionalProperties], instance.fields[name]);
      }
    }
  }

  lemma {:induction false} ItemsWeaken(other: Assertion, s: Source, p: Place, fields: map<Key, Json>, out: map<Key, Json>, instance: Json, context: Json)
    requires Ready(s) && Sized(s, fields, context)
    requires Items in fields && Items in out
    requires ProjectIn(s, fields[Items]) == Some(out[Items])
    requires PrefixLength(fields) <= PrefixLength(out)
    requires SupportedIn(s, fields[Items])
    requires HoldsIn(other, s, fields, Items, instance, context)
    ensures HoldsAt(other, p, out, Items, instance)
    decreases Unseen(s.universe, s.stack), context, 0
  {
    hide Valid;
    hide SupportedIn;
    hide ProjectIn;
    if instance.Arr? {
      forall i | PrefixLength(out) <= i < |instance.items|
        ensures ValidAt(other, p, out[Items], instance.items[i])
      {
        ProjectWeakens(other, s, p, fields[Items], instance.items[i]);
      }
    }
  }

  lemma {:induction false} PrefixItemsWeaken(other: Assertion, s: Source, p: Place, fields: map<Key, Json>, out: map<Key, Json>, instance: Json, context: Json)
    requires Ready(s) && Sized(s, fields, context)
    requires PrefixItems in fields && PrefixItems in out
    requires ProjectIn(s, fields[PrefixItems]) == Some(out[PrefixItems])
    requires KeywordSupportedIn(s, PrefixItems, fields[PrefixItems])
    requires HoldsIn(other, s, fields, PrefixItems, instance, context)
    ensures HoldsAt(other, p, out, PrefixItems, instance)
    decreases Unseen(s.universe, s.stack), context, 0
  {
    hide Valid;
    hide ProjectIn;
    hide Supported;
    var value := fields[PrefixItems];
    ProjectedLength(s, value, out[PrefixItems]);
    if instance.Arr? {
      forall i | 0 <= i < |value.items| && i < |instance.items|
        ensures ValidAt(other, p, out[PrefixItems].items[i], instance.items[i])
      {
        ItemWeakens(other, s, p, value, out[PrefixItems], i, instance.items[i]);
      }
    }
  }

  lemma {:induction false} AnyOfWeakens(other: Assertion, s: Source, p: Place, fields: map<Key, Json>, out: map<Key, Json>, instance: Json, context: Json)
    requires Ready(s) && Sized(s, fields, context)
    requires AnyOf in fields && AnyOf in out
    requires ProjectIn(s, fields[AnyOf]) == Some(out[AnyOf])
    requires KeywordSupportedIn(s, AnyOf, fields[AnyOf])
    requires HoldsIn(other, s, fields, AnyOf, instance, context)
    ensures HoldsAt(other, p, out, AnyOf, instance)
    decreases Unseen(s.universe, s.stack), context, 0
  {
    hide Valid;
    hide ProjectIn;
    hide Supported;
    var value := fields[AnyOf];
    var i :| 0 <= i < |value.items| && Valid(other, value.items[i], s.document, s.registry, s.depth, instance);
    ItemWeakens(other, s, p, value, out[AnyOf], i, instance);
    assert Valid(other, out[AnyOf].items[i], p.document, p.registry, p.depth, instance);
  }

  lemma StaysNoArray(s: Source, value: Json, out: Json)
    requires Ready(s) && Strings(value) <= s.universe
    requires ProjectIn(s, value) == Some(out) && !value.Arr?
    ensures !out.Arr?
  {
  }

  /** A carried keyword whose value holds for the instance still holds after projection. */
  lemma {:induction false} KeywordWeakens(other: Assertion, s: Source, p: Place, fields: map<Key, Json>, out: map<Key, Json>, k: Key,
                                          instance: Json, context: Json)
    requires Ready(s) && Sized(s, fields, context) && !HasReference(fields)
    requires k in Carried(fields) && k in out && ProjectValueIn(s, k, fields[k]) == Some(out[k])
    requires forall name :: Additional(out, name) ==> Additional(fields, name)
    requires PrefixLength(fields) <= PrefixLength(out)
    requires KeywordSupportedIn(s, k, fields[k]) && HoldsIn(other, s, fields, k, instance, context)
    ensures HoldsAt(other, p, out, k, instance)
    decreases Unseen(s.universe, s.stack), context, 1
  {
    hide Valid;
    hide Supported;
    hide Project;
    hide Strings;
    if k == Properties {
      PropertiesAreObjects(s, fields[k], out[k]);
      if instance.Obj? {
        PropertiesWeaken(other, s, p, fields[k], out[k], instance.fields);
      }
    } else if k == AdditionalProperties {
      AdditionalWeakens(other, s, p, fields, out, instance, context);
    } else if k == Items {
      ItemsWeaken(other, s, p, fields, out, instance, context);
    } else if k == PrefixItems {
      PrefixItemsWeaken(other, s, p, fields, out, instance, context);
    } else if k == AnyOf {
      AnyOfWeakens(other, s, p, fields, out, instance, context);
    } else if k == Enum && !fields[k].Arr? {
      StaysNoArray(s, fields[k], out[k]);
    } else {
      TransportFormIsFixed(fields[k], s.document, s.registry, s.stack, s.universe);
    }
  }

  // ---------- one schema object ----------

  lemma CarriedValue(s: Source, fields: map<Key, Json>, out: map<Key, Json>, k: Key, context: Json)
    requires Ready(s) && Sized(s, fields, context) && ProjectFieldsIn(s, fields, context) == Some(out)
    requires k in Carried(fields) && !(Const in fields && k == Enum)
    ensures k in out && ProjectValueIn(s, k, fields[k]) == Some(out[k])
  {
  }

  /** Where the keywords of a projected object come from. */
  lemma Origin(s: Source, fields: map<Key, Json>, out: map<Key, Json>, k: Key, context: Json)
    requires Ready(s) && Sized(s, fields, context) && ProjectFieldsIn(s, fields, context) == Some(out)
    requires k in out
    ensures k in Carried(fields) || k == Enum || k == Type
    ensures k == Enum && k !in Carried(fields) ==> Const in fields
    ensures k == Enum && Const in fields ==> out[k] == Arr([fields[Const]])
    ensures k == Type && k !in Carried(fields) ==>
      Enum in out && EnumType(out[Enum]).Some? && out[k] == Str(EnumType(out[Enum]).value)
  {
    hide ProjectValue;
  }

  /** The keywords of a projected object describe the same members and positions. */
  lemma DescribesSame(s: Source, fields: map<Key, Json>, out: map<Key, Json>, context: Json)
    requires Ready(s) && Sized(s, fields, context) && ProjectFieldsIn(s, fields, context) == Some(out)
    ensures forall name :: Additional(out, name) ==> Additional(fields, name)
    ensures PrefixLength(fields) <= PrefixLength(out)
  {
    hide ProjectFieldsIn;
    hide Project;
    hide Strings;
    if Properties in fields {
      CarriedValue(s, fields, out, Properties, context);
      PropertiesAreObjects(s, fields[Properties], out[Properties]);
    }
    if PrefixItems in fields && fields[PrefixItems].Arr? {
      CarriedValue(s, fields, out, PrefixItems, context);
      ProjectedLength(s, fields[PrefixItems], out[PrefixItems]);
    }
  }

  /** `const` rewritten to a one-element `enum` accepts the same instances. */
  lemma ConstMeansTheSame(other: Assertion, s: Source, p: Place, fields: map<Key, Json>, out: map<Key, Json>, instance: Json, context: Json)
    requires Const in fields && fields[Const] < context && Enum in out && out[Enum] == Arr([fields[Const]])
    ensures HoldsAt(other, p, out, Enum, instance) <==> HoldsIn(other, s, fields, Const, instance, context)
  {
    hide JsonEq;
    assert out[Enum].items[0] == fields[Const];
  }

  lemma InferredTypeWeakens(other: Assertion, p: Place, out: map<Key, Json>, instance: Json)
    requires Enum in out && Type in out && EnumType(out[Enum]).Some? && out[Type] == Str(EnumType(out[Enum]).value)
    requires HoldsAt(other, p, out, Enum, instance)
    ensures HoldsAt(other, p, out, Type, instance)
  {
    InferredTypeHolds(out[Enum], instance);
  }

  lemma {:induction false} FieldHolds(other: Assertion, s: Source, p: Place, fields: map<Key, Json>, out: map<Key, Json>, k: Key,
                                      instance: Json, context: Json)
    requires Ready(s) && Sized(s, fields, context) && !HasReference(fields)
    requires ProjectFieldsIn(s, fields, context) == Some(out) && k in out
    requires EveryKeywordSupported(s, fields) && EveryKeywordHolds(other, s, fields, instance, context)
    ensures HoldsAt(other, p, out, k, instance)
    decreases Unseen(s.universe, s.stack), context, if k == Type then 3 else 2
  {
    hide HoldsIn;
    hide HoldsAt;
    hide ProjectFieldsIn;
    hide ProjectValueIn;
    hide KeywordSupportedIn;
    hide HasReference;
    hide EnumType;
    Origin(s, fields, out, k, context);
    if k in Carried(fields) && !(Const in fields && k == Enum) {
      CarriedValue(s, fields, out, k, context);
      DescribesSame(s, fields, out, context);
      KeywordWeakens(other, s, p, fields, out, k, instance, context);
    } else if k == Enum {
      ConstMeansTheSame(other, s, p, fields, out, instance, context);
    } else {
      FieldHolds(other, s, p, fields, out, Enum, instance, context);
      InferredTypeWeakens(other, p, out, instance);
    }
  }

  lemma {:induction false} FieldsWeaken(other: Assertion, s: Source, p: Place, fields: map<Key, Json>, out: map<Key, Json>,
                                        instance: Json, context: Json)
    requires Ready(s) && Sized(s, fields, context) && !HasReference(fields)
    requires ProjectFieldsIn(s, fields, context) == Some(out)
    requires EveryKeywordSupported(s, fields) && EveryKeywordHolds(other, s, fields, instance, context)
    ensures ValidAt(other, p, Obj(out), instance)
    decreases Unseen(s.universe, s.stack), context, 4
  {
    hide Holds;
    hide ProjectFieldsIn;
    hide EveryKeywordHolds;
    hide EveryKeywordSupported;
    hide Ready;
    hide Sized;
    hide HasReference;
    forall k | k in out
      ensures HoldsAt(other, p, out, k, instance)
    {
      FieldHolds(other, s, p, fields, out, k, instance, context);
    }
  }

  // ---------- references ----------

  lemma {:induction false} TargetWeakens(other: Assertion, s: Source, p: Place, fields: map<Key, Json>, instance: Json, context: Json)
    requires Ready(s) && Sized(s, fields, context)
    requires Reference(fields).Some? && Reference(fields).value in s.universe && Reference(fields).value !in s.stack
    requires Resolve(Reference(fields).value, s.document, s.registry).Some?
    requires KeywordSupportedIn(s, Ref, fields[Ref]) && HoldsIn(other, s, fields, Ref, instance, context)
    ensures var (target, targetDocument) := Resolve(Reference(fields).value, s.document, s.registry).value;
      Known(s.universe, targetDocument, s.registry) && Strings(target) <= s.universe &&
      var expanded := Project(target, targetDocument, s.registry, s.stack + [Reference(fields).value], s.universe);
      expanded.Some? ==> ValidAt(other, p, expanded.value, instance)
    decreases Unseen(s.universe, s.stack), context, 0
  {
    hide Valid;
    hide Supported;
    hide Project;
    var reference := Reference(fields).value;
    var (target, targetDocument) := Resolve(reference, s.document, s.registry).value;
    ResolveStaysKnown(s.universe, reference, s.document, s.registry);
    PushReference(s.universe, s.stack, reference);
    var inner := Source(targetDocument, s.registry, s.stack + [reference], s.universe, s.depth - 1);
    if ProjectIn(inner, target).Some? {
      ProjectWeakens(other, inner, p, target, instance);
    }
  }

  /** Removing `$ref` leaves every other keyword, and what it looks at, as it was. */
  lemma SiblingsHold(other: Assertion, s: Source, fields: map<Key, Json>, instance: Json, context: Json)
    requires Sized(s, fields, context) && EveryKeywordHolds(other, s, fields, instance, context)
    requires EveryKeywordSupported(s, fields)
    ensures Sized(s, fields - {Ref}, context) && EveryKeywordHolds(other, s, fields - {Ref}, instance, context)
    ensures EveryKeywordSupported(s, fields - {Ref}) && !HasReference(fields - {Ref})
  {
    hide KeywordSupportedIn;
    hide Strings;
    hide HoldsIn;
    var siblings := fields - {Ref};
    SiblingsDescribe(fields);
    hide Additional;
    hide PrefixLength;
    forall k | k in siblings
      ensures HoldsIn(other, s, siblings, k, instance, context)
    {
      assert HoldsIn(other, s, fields, k, instance, context);
      SameBesideSiblings(other, s, fields, siblings, k, instance, context);
    }
  }

  lemma SiblingsDescribe(fields: map<Key, Json>)
    ensures forall name :: Additional(fields - {Ref}, name) ==> Additional(fields, name)
    ensures PrefixLength(fields) <= PrefixLength(fields - {Ref})
  {
  }

  lemma SameBesideSiblings(other: Assertion, s: Source, a: map<Key, Json>, b: map<Key, Json>, k: Key, instance: Json, context: Json)
    requires k in a && k in b && a[k] == b[k] && a[k] < context
    requires forall name :: Additional(b, name) ==> Additional(a, name)
    requires PrefixLength(a) <= PrefixLength(b)
    requires HoldsIn(other, s, a, k, instance, context)
    ensures HoldsIn(other, s, b, k, instance, context)
  {
    hide Valid;
  }

  /** A supported schema object that holds, keyword by keyword. */
  lemma UnfoldObject(other: Assertion, s: Source, fields: map<Key, Json>, instance: Json)
    requires Ready(s) && Strings(Obj(fields)) <= s.universe
    requires SupportedIn(s, Obj(fields)) && ValidIn(other, s, Obj(fields), instance)
    ensures Sized(s, fields, Obj(fields)) && EveryKeywordHolds(other, s, fields, instance, Obj(fields))
    ensures EveryKeywordSupported(s, fields)
  {
    hide Holds;
    hide SupportedKeyword;
  }

  lemma {:induction false} ReferenceWeakens(other: Assertion, s: Source, p: Place, fields: map<Key, Json>, instance: Json)
    requires Ready(s) && Strings(Obj(fields)) <= s.universe && HasReference(fields)
    requires ProjectIn(s, Obj(fields)).Some?
    requires SupportedIn(s, Obj(fields)) && ValidIn(other, s, Obj(fields), instance)
    ensures ValidAt(other, p, ProjectIn(s, Obj(fields)).value, instance)
    decreases Unseen(s.universe, s.stack), Obj(fields), 5
  {
    hide Valid;
    hide Supported;
    var reference := Reference(fields).value;
    assert reference in Strings(fields[Ref]);
    UnfoldObject(other, s, fields, instance);
    SiblingsHold(other, s, fields, instance, Obj(fields));
    assert KeywordSupportedIn(s, Ref, fields[Ref]) && HoldsIn(other, s, fields, Ref, instance, Obj(fields));
    hide EveryKeywordHolds;
    hide EveryKeywordSupported;
    TargetWeakens(other, s, p, fields, instance, Obj(fields));
    var (target, targetDocument) := Resolve(reference, s.document, s.registry).value;
    var expanded := Project(target, targetDocument, s.registry, s.stack + [reference], s.universe).value.fields;
    var projected := ProjectFieldsIn(s, fields - {Ref}, Obj(fields)).value;
    FieldsWeaken(other, s, p, fields - {Ref}, projected, instance, Obj(fields));
    MergeWeakens(other, p, expanded, projected, instance);
  }

  /**
    Every instance that satisfies a schema satisfies its projection, wherever the projection
    is placed. As many unfoldings suffice as there are references not yet on the stack.
   */
  lemma {:induction false} ProjectWeakens(other: Assertion, s: Source, p: Place, node: Json, instance: Json)
    requires Ready(s) && Strings(node) <= s.universe
    requires ProjectIn(s, node).Some?
    requires SupportedIn(s, node) && ValidIn(other, s, node, instance)
    ensures ValidAt(other, p, ProjectIn(s, node).value, instance)
    decreases Unseen(s.universe, s.stack), node, 7
  {
    if node.Obj? {
      if HasReference(node.fields) {
        ReferenceWeakens(other, s, p, node.fields, instance);
      } else {
        UnfoldObject(other, s, node.fields, instance);
        hide EveryKeywordHolds;
        hide EveryKeywordSupported;
        FieldsWeaken(other, s, p, node.fields, ProjectFieldsIn(s, node.fields, node).value, instance, node);
      }
    }
  }
}
