/**
  That the projection of a schema loses nothing but the keywords that the transport cannot express:
  the converse of weakening, and where merging a reference with its siblings loses more.
 */
module SchemaExactness {
  import opened Wrappers
  import opened Json
  import opened OutputSchema
  import opened SchemaTransport
  import opened SchemaValidity
  import opened SchemaResults

  /** The meaning of the other keywords when eleven of them are left out of account. */
  function Ignoring(other: Assertion): Assertion {
    (k: Key, value: Json, instance: Json) =>
      k in {Schema, Id, Defs, Title, AllOf, If, Then, Else, Not, Contains, UniqueItems} || other(k, value, instance)
  }

  // ---------- where projection keeps all that it carries ----------

  /** The members that a schema object describes by name. */
  function Described(schema: map<Key, Json>): set<Key> {
    if Properties in schema && schema[Properties].Obj? then schema[Properties].fields.Keys else {}
  }

  /** What `additionalProperties` and `items` of one part apply to stays the same beside the other part. */
  predicate KeepsReach(part: map<Key, Json>, beside: map<Key, Json>) {
    && (AdditionalProperties in part ==> Described(beside) <= Described(part))
    && (Items in part ==> PrefixLength(beside) <= PrefixLength(part))
  }

  /** Two parts of a schema object that mean the same in one object as on their own. */
  predicate Compatible(a: map<Key, Json>, b: map<Key, Json>) {
    (forall k | k in a && k in b :: a[k] == b[k]) && KeepsReach(a, b) && KeepsReach(b, a)
  }

  /**
    At every schema position, references followed: an `enum` beside a `const` has the constant as its one
    member, and a reference and its siblings are compatible.
   */
  ghost predicate Faithful(node: Json, document: Json, registry: Registry, stack: seq<string>, universe: set<string>)
    requires Known(universe, document, registry) && Strings(node) <= universe
    decreases Unseen(universe, stack), node, 1
  {
    match node
    case Arr(items) => forall i | 0 <= i < |items| :: Faithful(items[i], document, registry, stack, universe)
    case Obj(fields) =>
      if HasReference(fields) then
        FaithfulTarget(fields, document, registry, stack, universe, node)
        && FaithfulFields(fields - {Ref}, document, registry, stack, universe, node)
      else FaithfulFields(fields, document, registry, stack, universe, node)
    case _ => true
  }

  ghost predicate FaithfulTarget(fields: map<Key, Json>, document: Json, registry: Registry, stack: seq<string>, universe: set<string>, context: Json)
    requires Known(universe, document, registry)
    requires forall k :: k in fields ==> fields[k] < context && Strings(fields[k]) <= universe
    decreases Unseen(universe, stack), context, 0
  {
    var reference := Reference(fields);
    if reference.None? || reference.value in stack || Resolve(reference.value, document, registry).None? then true
    else
      var (target, targetDocument) := Resolve(reference.value, document, registry).value;
      ResolveStaysKnown(universe, reference.value, document, registry);
      assert reference.value in Strings(fields[Ref]);
      PushReference(universe, stack, reference.value);
      var expanded := Project(target, targetDocument, registry, stack + [reference.value], universe);
      var siblings := ProjectFields(fields - {Ref}, document, registry, stack, universe, context);
      && (expanded.Some? && siblings.Some? ==> Compatible(expanded.value.fields, siblings.value))
      && Faithful(target, targetDocument, registry, stack + [reference.value], universe)
  }

  ghost predicate FaithfulFields(fields: map<Key, Json>, document: Json, registry: Registry, stack: seq<string>, universe: set<string>, context: Json)
    requires Known(universe, document, registry)
    requires forall k :: k in fields ==> fields[k] < context && Strings(fields[k]) <= universe
    decreases Unseen(universe, stack), context, 0
  {
    && (Const in fields && Enum in fields ==> JsonEq(fields[Enum], Arr([fields[Const]])))
    && forall k | k in fields :: FaithfulValue(k, fields[k], document, registry, stack, universe)
  }

  ghost predicate FaithfulValue(k: Key, value: Json, document: Json, registry: Registry, stack: seq<string>, universe: set<string>)
    requires Known(universe, document, registry) && Strings(value) <= universe
    decreases Unseen(universe, stack), value, 2
  {
    if k == Properties then value.Obj? ==> forall p | p in value.fields :: Faithful(value.fields[p], document, registry, stack, universe)
    else if k in {AdditionalProperties, Items, PrefixItems, AnyOf} then Faithful(value, document, registry, stack, universe)
    else true
  }

  ghost predicate FaithfulIn(s: Source, node: Json)
    requires Ready(s) && Strings(node) <= s.universe
  {
    Faithful(node, s.document, s.registry, s.stack, s.universe)
  }

  ghost predicate ValueFaithfulIn(s: Source, k: Key, value: Json)
    requires Ready(s) && Strings(value) <= s.universe
  {
    FaithfulValue(k, value, s.document, s.registry, s.stack, s.universe)
  }

  ghost predicate FieldsFaithfulIn(s: Source, fields: map<Key, Json>, context: Json)
    requires Ready(s) && Sized(s, fields, context)
  {
    FaithfulFields(fields, s.document, s.registry, s.stack, s.universe, context)
  }

  /** The eleven keywords hold whatever they say. */
  ghost predicate Lenient(other: Assertion) {
    forall k, value, instance :: k in {Schema, Id, Defs, Title, AllOf, If, Then, Else, Not, Contains, UniqueItems} ==> other(k, value, instance)
  }

  // ---------- applicators, one by one ----------

  lemma {:induction false} PropertiesReflect(other: Assertion, s: Source, p: Place, value: Json, out: Json, instance: map<Key, Json>)
    requires Lenient(other) && Ready(s) && Strings(value) <= s.universe
    requires ProjectValueIn(s, Properties, value) == Some(out) && value.Obj? && out.Obj?
    requires forall name :: name in value.fields ==> SupportedIn(s, value.fields[name])
    requires ValueFaithfulIn(s, Properties, value)
    requires forall name :: name in out.fields && name in instance ==> ValidAt(other, p, out.fields[name], instance[name])
    ensures forall name :: name in value.fields && name in instance ==> ValidIn(other, s, value.fields[name], instance[name])
    decreases Unseen(s.universe, s.stack), value, 8
  {
    hide ValidIn;
    hide ValidAt;
    hide SupportedIn;
    hide Lenient;
    hide ProjectValueIn;
    hide ProjectIn;
    hide Faithful;
    forall name | name in value.fields && name in instance
      ensures ValidIn(other, s, value.fields[name], instance[name])
    {
      ProjectedMember(s, value, out, name);
      ProjectReflects(other, s, p, value.fields[name], instance[name]);
    }
  }

  lemma {:induction false} ItemReflects(other: Assertion, s: Source, p: Place, value: Json, out: Json, i: nat, instance: Json)
    requires Lenient(other) && Ready(s) && Strings(value) <= s.universe
    requires ProjectIn(s, value) == Some(out) && value.Arr? && i < |value.items|
    requires FaithfulIn(s, value) && SupportedIn(s, value.items[i])
    requires out.Arr? && |out.items| == |value.items| && ValidAt(other, p, out.items[i], instance)
    ensures ValidIn(other, s, value.items[i], instance)
    decreases Unseen(s.universe, s.stack), value, 8
  {
    ProjectedItem(s, value, out, i);
    assert FaithfulIn(s, value.items[i]);
    hide ValidIn;
    hide ValidAt;
    hide SupportedIn;
    hide Lenient;
    hide ProjectIn;
    hide Faithful;
    ProjectReflects(other, s, p, value.items[i], instance);
  }

  lemma {:induction false} AdditionalReflects(other: Assertion, s: Source, p: Place, fields: map<Key, Json>, out: map<Key, Json>, instance: Json, context: Json)
    requires Lenient(other) && Ready(s) && Sized(s, fields, context)
    requires AdditionalProperties in fields && AdditionalProperties in out
    requires ProjectIn(s, fields[AdditionalProperties]) == Some(out[AdditionalProperties])
    requires forall name :: Additional(fields, name) ==> Additional(out, name)
    requires SupportedIn(s, fields[AdditionalProperties]) && FaithfulIn(s, fields[AdditionalProperties])
    requires HoldsAt(other, p, out, AdditionalProperties, instance)
    ensures HoldsIn(other, s, fields, AdditionalProperties, instance, context)
    decreases Unseen(s.universe, s.stack), context, 0
  {
    hide Valid;
    hide SupportedIn;
    hide ProjectIn;
    hide Lenient;
    hide Faithful;
    if instance.Obj? {
      forall name | name in instance.fields && Additional(fields, name)
        ensures ValidIn(other, s, fields[AdditionalProperties], instance.fields[name])
      {
        ProjectReflects(other, s, p, fields[AdditionalProperties], instance.fields[name]);
      }
    }
  }

  lemma {:induction false} ItemsReflect(other: Assertion, s: Source, p: Place, fields: map<Key, Json>, out: map<Key, Json>, instance: Json, context: Json)
    requires Lenient(other) && Ready(s) && Sized(s, fields, context)
    requires Items in fields && Items in out
    requires ProjectIn(s, fields[Items]) == Some(out[Items])
    requires PrefixLength(out) <= PrefixLength(fields)
    requires SupportedIn(s, fields[Items]) && FaithfulIn(s, fields[Items])
    requires HoldsAt(other, p, out, Items, instance)
    ensures HoldsIn(other, s, fields, Items, instance, context)
    decreases Unseen(s.universe, s.stack), context, 0
  {
    hide Valid;
    hide SupportedIn;
    hide ProjectIn;
    hide Lenient;
    hide Faithful;
    if instance.Arr? {
      forall i | PrefixLength(fields) <= i < |instance.items|
        ensures ValidIn(other, s, fields[Items], instance.items[i])
      {
        ProjectReflects(other, s, p, fields[Items], instance.items[i]);
      }
    }
  }

  lemma {:induction false} PrefixItemsReflect(other: Assertion, s: Source, p: Place, fields: map<Key, Json>, out: map<Key, Json>, instance: Json, context: Json)
    requires Lenient(other) && Ready(s) && Sized(s, fields, context)
    requires PrefixItems in fields && PrefixItems in out
    requires ProjectIn(s, fields[PrefixItems]) == Some(out[PrefixItems])
    requires KeywordSupportedIn(s, PrefixItems, fields[PrefixItems]) && FaithfulIn(s, fields[PrefixItems])
    requires HoldsAt(other, p, out, PrefixItems, instance)
    ensures HoldsIn(other, s, fields, PrefixItems, instance, context)
    decreases Unseen(s.universe, s.stack), context, 0
  {
    hide Valid;
    hide ProjectIn;
    hide Supported;
    hide Lenient;
    hide Faithful;
    var value := fields[PrefixItems];
    ProjectedLength(s, value, out[PrefixItems]);
    if instance.Arr? {
      forall i | 0 <= i < |value.items| && i < |instance.items|
        ensures ValidIn(other, s, value.items[i], instance.items[i])
      {
        ItemReflects(other, s, p, value, out[PrefixItems], i, instance.items[i]);
      }
    }
  }

  lemma {:induction false} AnyOfReflects(other: Assertion, s: Source, p: Place, fields: map<Key, Json>, out: map<Key, Json>, instance: Json, context: Json)
    requires Lenient(other) && Ready(s) && Sized(s, fields, context)
    requires AnyOf in fields && AnyOf in out
    requires ProjectIn(s, fields[AnyOf]) == Some(out[AnyOf])
    requires KeywordSupportedIn(s, AnyOf, fields[AnyOf]) && FaithfulIn(s, fields[AnyOf])
    requires HoldsAt(other, p, out, AnyOf, instance)
    ensures HoldsIn(other, s, fields, AnyOf, instance, context)
    decreases Unseen(s.universe, s.stack), context, 0
  {
    hide Valid;
    hide ProjectIn;
    hide Supported;
    hide Lenient;
    hide Faithful;
    var value := fields[AnyOf];
    ProjectedLength(s, value, out[AnyOf]);
    var i :| 0 <= i < |value.items| && Valid(other, out[AnyOf].items[i], p.document, p.registry, p.depth, instance);
    ItemReflects(other, s, p, value, out[AnyOf], i, instance);
    assert Valid(other, value.items[i], s.document, s.registry, s.depth, instance);
  }

  /** A keyword that is carried over holds for an instance if it holds after projection. */
  lemma {:induction false} KeywordReflects(other: Assertion, s: Source, p: Place, fields: map<Key, Json>, out: map<Key, Json>, k: Key,
                                           instance: Json, context: Json)
    requires Lenient(other) && Ready(s) && Sized(s, fields, context) && !HasReference(fields)
    requires k in fields && k != Const && k in out && ProjectValueIn(s, k, fields[k]) == Some(out[k])
    requires forall name :: Additional(fields, name) ==> Additional(out, name)
    requires PrefixLength(out) <= PrefixLength(fields)
    requires KeywordSupportedIn(s, k, fields[k]) && ValueFaithfulIn(s, k, fields[k]) && HoldsAt(other, p, out, k, instance)
    ensures HoldsIn(other, s, fields, k, instance, context)
    decreases Unseen(s.universe, s.stack), context, 1
  {
    hide Valid;
    hide Supported;
    hide Project;
    hide Strings;
    hide Lenient;
    hide Faithful;
    if k == Properties {
      PropertiesAreObjects(s, fields[k], out[k]);
      if instance.Obj? {
        PropertiesReflect(other, s, p, fields[k], out[k], instance.fields);
      }
    } else if k == AdditionalProperties {
      AdditionalReflects(other, s, p, fields, out, instance, context);
    } else if k == Items {
      ItemsReflect(other, s, p, fields, out, instance, context);
    } else if k == PrefixItems {
      PrefixItemsReflect(other, s, p, fields, out, instance, context);
    } else if k == AnyOf {
      AnyOfReflects(other, s, p, fields, out, instance, context);
    } else {
      PlainReflects(other, s, p, fields, out, k, instance, context);
    }
  }

  /** The keywords that are carried over as they are. */
  lemma PlainReflects(other: Assertion, s: Source, p: Place, fields: map<Key, Json>, out: map<Key, Json>, k: Key, instance: Json, context: Json)
    requires Ready(s) && Sized(s, fields, context) && !HasReference(fields)
    requires k in fields && k in out && ProjectValueIn(s, k, fields[k]) == Some(out[k])
    requires k !in {Properties, AdditionalProperties, Items, PrefixItems, AnyOf, Const}
    requires KeywordSupportedIn(s, k, fields[k]) && HoldsAt(other, p, out, k, instance)
    ensures HoldsIn(other, s, fields, k, instance, context)
  {
    hide Valid;
    hide Supported;
    hide Project;
    hide Strings;
    if !(k == Enum && !fields[k].Arr?) {
      TransportFormIsFixed(fields[k], s.document, s.registry, s.stack, s.universe);
    }
  }

  // ---------- one schema object ----------

  /** A projected object describes no more members and positions. */
  lemma DescribesNoMore(s: Source, fields: map<Key, Json>, out: map<Key, Json>, context: Json)
    requires Ready(s) && Sized(s, fields, context) && ProjectFieldsIn(s, fields, context) == Some(out)
    requires KeywordsSupported(s, fields)
    ensures forall name :: Additional(fields, name) ==> Additional(out, name)
    ensures PrefixLength(out) <= PrefixLength(fields)
  {
    hide ProjectFieldsIn;
    hide Project;
    hide Strings;
    if Properties in out {
      Origin(s, fields, out, Properties, context);
      CarriedValue(s, fields, out, Properties, context);
      PropertiesAreObjects(s, fields[Properties], out[Properties]);
    }
    if PrefixItems in out {
      Origin(s, fields, out, PrefixItems, context);
      CarriedValue(s, fields, out, PrefixItems, context);
      assert fields[PrefixItems].Arr?;
      ProjectedLength(s, fields[PrefixItems], out[PrefixItems]);
    }
  }

  /** Every keyword but the eleven is one that the results are about. */
  ghost predicate KeywordsSupported(s: Source, fields: map<Key, Json>) {
    forall k :: k in fields && k !in {Schema, Id, Defs, Title, AllOf, If, Then, Else, Not, Contains, UniqueItems}
      ==> KeywordSupportedIn(s, k, fields[k])
  }

  /** Beside its constant, an enumeration holds of the constant alone. */
  lemma EnumBesideConst(enumeration: Json, constant: Json, instance: Json)
    requires JsonEq(enumeration, Arr([constant])) && JsonEq(constant, instance)
    ensures EnumHolds(enumeration, instance)
  {
    assert JsonEq(enumeration.items[0], Arr([constant]).items[0]);
    JsonEqTransitive(enumeration.items[0], constant, instance);
  }

  lemma LenientHolds(other: Assertion, s: Source, fields: map<Key, Json>, k: Key, instance: Json, context: Json)
    requires Lenient(other) && k in fields && Sized(s, fields, context)
    requires k in {Schema, Id, Defs, Title, AllOf, If, Then, Else, Not, Contains, UniqueItems}
    ensures HoldsIn(other, s, fields, k, instance, context)
  {
  }

  lemma {:induction false} FieldReflects(other: Assertion, s: Source, p: Place, fields: map<Key, Json>, out: map<Key, Json>, k: Key,
                                         instance: Json, context: Json)
    requires Lenient(other) && Ready(s) && Sized(s, fields, context) && !HasReference(fields)
    requires ProjectFieldsIn(s, fields, context) == Some(out) && k in fields
    requires KeywordsSupported(s, fields) && FieldsFaithfulIn(s, fields, context)
    requires ValidAt(other, p, Obj(out), instance)
    ensures HoldsIn(other, s, fields, k, instance, context)
    decreases Unseen(s.universe, s.stack), context, 2
  {
    hide *;
    if k in {Schema, Id, Defs, Title, AllOf, If, Then, Else, Not, Contains, UniqueItems} {
      LenientHolds(other, s, fields, k, instance, context);
    } else if k == Const || (k == Enum && Const in fields) {
      ConstReflects(other, s, p, fields, out, k, instance, context);
    } else {
      CarriedHolds(other, s, p, fields, out, k, instance, context);
      KeywordReflects(other, s, p, fields, out, k, instance, context);
    }
  }

  /** What is known of a keyword that is carried over. */
  lemma CarriedHolds(other: Assertion, s: Source, p: Place, fields: map<Key, Json>, out: map<Key, Json>, k: Key, instance: Json, context: Json)
    requires Ready(s) && Sized(s, fields, context) && ProjectFieldsIn(s, fields, context) == Some(out)
    requires k in fields && k != Const && !(k == Enum && Const in fields)
    requires k !in {Schema, Id, Defs, Title, AllOf, If, Then, Else, Not, Contains, UniqueItems}
    requires KeywordsSupported(s, fields) && FieldsFaithfulIn(s, fields, context) && ValidAt(other, p, Obj(out), instance)
    ensures k in out && ProjectValueIn(s, k, fields[k]) == Some(out[k]) && HoldsAt(other, p, out, k, instance)
    ensures KeywordSupportedIn(s, k, fields[k]) && ValueFaithfulIn(s, k, fields[k])
    ensures forall name :: Additional(fields, name) ==> Additional(out, name)
    ensures PrefixLength(out) <= PrefixLength(fields)
  {
    assert k in Carried(fields);
    FieldIsFaithful(s, fields, k, context);
    ValidByKeyword(other, p, out, instance);
    assert KeywordSupportedIn(s, k, fields[k]);
    hide *;
    CarriedValue(s, fields, out, k, context);
    DescribesNoMore(s, fields, out, context);
  }

  lemma FieldIsFaithful(s: Source, fields: map<Key, Json>, k: Key, context: Json)
    requires Ready(s) && Sized(s, fields, context) && k in fields && FieldsFaithfulIn(s, fields, context)
    ensures Strings(fields[k]) <= s.universe && ValueFaithfulIn(s, k, fields[k])
  {
    hide FaithfulValue;
  }

  lemma ValidByKeyword(other: Assertion, p: Place, schema: map<Key, Json>, instance: Json)
    ensures ValidAt(other, p, Obj(schema), instance) <==> forall k :: k in schema ==> HoldsAt(other, p, schema, k, instance)
  {
    hide Holds;
  }

  lemma ConstReflects(other: Assertion, s: Source, p: Place, fields: map<Key, Json>, out: map<Key, Json>, k: Key, instance: Json, context: Json)
    requires Ready(s) && Sized(s, fields, context) && ProjectFieldsIn(s, fields, context) == Some(out)
    requires Const in fields && FieldsFaithfulIn(s, fields, context) && ValidAt(other, p, Obj(out), instance)
    requires k in fields && (k == Const || k == Enum)
    ensures HoldsIn(other, s, fields, k, instance, context)
  {
    ConstBecomesEnum(s, fields, out, context);
    Origin(s, fields, out, Enum, context);
    assert HoldsAt(other, p, out, Enum, instance);
    ConstMeansTheSame(other, s, p, fields, out, instance, context);
    if k == Enum {
      EnumBesideConst(fields[Enum], fields[Const], instance);
    }
  }

  lemma {:induction false} FieldsReflect(other: Assertion, s: Source, p: Place, fields: map<Key, Json>, out: map<Key, Json>,
                                         instance: Json, context: Json)
    requires Lenient(other) && Ready(s) && Sized(s, fields, context) && !HasReference(fields)
    requires ProjectFieldsIn(s, fields, context) == Some(out)
    requires KeywordsSupported(s, fields) && FieldsFaithfulIn(s, fields, context)
    requires ValidAt(other, p, Obj(out), instance)
    ensures EveryKeywordHolds(other, s, fields, instance, context)
    decreases Unseen(s.universe, s.stack), context, 4
  {
    assert forall k :: k in fields ==> fields[k] < context;
    hide *;
    forall k | k in fields
      ensures HoldsIn(other, s, fields, k, instance, context)
    {
      FieldReflects(other, s, p, fields, out, k, instance, context);
    }
    KeywordByKeyword(other, s, fields, instance, context);
  }

  lemma KeywordByKeyword(other: Assertion, s: Source, fields: map<Key, Json>, instance: Json, context: Json)
    requires Sized(s, fields, context) && forall k :: k in fields ==> HoldsIn(other, s, fields, k, instance, context)
    ensures EveryKeywordHolds(other, s, fields, instance, context)
  {
  }

  // ---------- references ----------

  /** Whatever satisfies the merge of compatible parts satisfies both of them. */
  lemma MergeReflects(other: Assertion, p: Place, expanded: map<Key, Json>, siblings: map<Key, Json>, instance: Json)
    requires Merge(expanded, siblings).Some? && Compatible(expanded, siblings)
    requires ValidAt(other, p, Merge(expanded, siblings).value, instance)
    ensures ValidAt(other, p, Obj(expanded), instance) && ValidAt(other, p, Obj(siblings), instance)
  {
    var merged := expanded + siblings;
    PartReflects(other, p, expanded, siblings, merged, instance);
    PartReflects(other, p, siblings, expanded, merged, instance);
  }

  lemma PartReflects(other: Assertion, p: Place, part: map<Key, Json>, beside: map<Key, Json>, merged: map<Key, Json>, instance: Json)
    requires Compatible(part, beside) && merged.Keys == part.Keys + beside.Keys
    requires forall k :: k in merged ==> merged[k] == if k in part then part[k] else beside[k]
    requires ValidAt(other, p, Obj(merged), instance)
    ensures ValidAt(other, p, Obj(part), instance)
  {
    forall k | k in part
      ensures HoldsAt(other, p, part, k, instance)
    {
      assert HoldsAt(other, p, merged, k, instance);
      KeywordApart(other, p, part, beside, merged, k, instance);
    }
  }

  lemma KeywordApart(other: Assertion, p: Place, part: map<Key, Json>, beside: map<Key, Json>, merged: map<Key, Json>, k: Key, instance: Json)
    requires KeepsReach(part, beside) && merged.Keys == part.Keys + beside.Keys && k in part
    requires forall k :: k in merged ==> merged[k] == if k in part then part[k] else beside[k]
    requires HoldsAt(other, p, merged, k, instance)
    ensures HoldsAt(other, p, part, k, instance)
  {
    if k == AdditionalProperties {
      assert forall name :: Additional(part, name) ==> Additional(merged, name);
      AdditionalApart(other, p, part, merged, instance);
    } else if k == Items {
      assert PrefixLength(merged) <= PrefixLength(part);
      ItemsApart(other, p, part, merged, instance);
    } else {
      SameApart(other, p, part, merged, k, instance);
    }
  }

  lemma AdditionalApart(other: Assertion, p: Place, a: map<Key, Json>, b: map<Key, Json>, instance: Json)
    requires AdditionalProperties in a && AdditionalProperties in b && a[AdditionalProperties] == b[AdditionalProperties]
    requires forall name :: Additional(a, name) ==> Additional(b, name)
    requires HoldsAt(other, p, b, AdditionalProperties, instance)
    ensures HoldsAt(other, p, a, AdditionalProperties, instance)
  {
    hide Valid;
    hide Additional;
  }

  lemma ItemsApart(other: Assertion, p: Place, a: map<Key, Json>, b: map<Key, Json>, instance: Json)
    requires Items in a && Items in b && a[Items] == b[Items] && PrefixLength(b) <= PrefixLength(a)
    requires HoldsAt(other, p, b, Items, instance)
    ensures HoldsAt(other, p, a, Items, instance)
  {
    hide Valid;
    hide PrefixLength;
  }

  lemma SameApart(other: Assertion, p: Place, a: map<Key, Json>, b: map<Key, Json>, k: Key, instance: Json)
    requires k in a && k in b && a[k] == b[k] && k != AdditionalProperties && k != Items
    ensures HoldsAt(other, p, a, k, instance) <==> HoldsAt(other, p, b, k, instance)
  {
    hide Valid;
  }

  /** Beside `$ref`, every other keyword means what it means without it. */
  lemma ReferenceHolds(other: Assertion, s: Source, fields: map<Key, Json>, instance: Json, context: Json)
    requires Sized(s, fields, context) && Ref in fields && HoldsIn(other, s, fields, Ref, instance, context)
    requires Sized(s, fields - {Ref}, context) && EveryKeywordHolds(other, s, fields - {Ref}, instance, context)
    ensures EveryKeywordHolds(other, s, fields, instance, context)
  {
    var siblings := fields - {Ref};
    assert forall name :: Additional(fields, name) ==> Additional(siblings, name);
    assert PrefixLength(siblings) <= PrefixLength(fields);
    hide Additional;
    hide PrefixLength;
    hide Strings;
    hide HoldsIn;
    forall k | k in fields
      ensures HoldsIn(other, s, fields, k, instance, context)
    {
      if k != Ref {
        assert HoldsIn(other, s, siblings, k, instance, context);
        SameBesideSiblings(other, s, siblings, fields, k, instance, context);
      }
    }
  }

  /** A reference that is projected leads somewhere that is read. */
  lemma ReferenceIsRead(s: Source, fields: map<Key, Json>)
    requires Ready(s) && Strings(Obj(fields)) <= s.universe && HasReference(fields) && ProjectIn(s, Obj(fields)).Some?
    ensures s.depth > 0 && Reference(fields).Some? && fields[Ref] == Str(Reference(fields).value)
    ensures Reference(fields).value !in s.stack && Resolve(Reference(fields).value, s.document, s.registry).Some?
    ensures var inner, target := Inside(s, Reference(fields).value), Resolve(Reference(fields).value, s.document, s.registry).value.0;
      Ready(inner) && Strings(target) <= s.universe && Unseen(s.universe, inner.stack) < Unseen(s.universe, s.stack)
    ensures Sized(s, fields, Obj(fields)) && Sized(s, fields - {Ref}, Obj(fields))
  {
    var reference := Reference(fields).value;
    assert reference in Strings(fields[Ref]);
    ResolveStaysKnown(s.universe, reference, s.document, s.registry);
    PushReference(s.universe, s.stack, reference);
    hide Resolve;
    hide ProjectFields;
  }

  /** What a reference and its siblings are projected to. */
  lemma PartsAreProjected(s: Source, fields: map<Key, Json>)
    requires Ready(s) && Strings(Obj(fields)) <= s.universe && HasReference(fields) && ProjectIn(s, Obj(fields)).Some?
    requires s.depth > 0 && Reference(fields).Some? && Resolve(Reference(fields).value, s.document, s.registry).Some?
    requires Ready(Inside(s, Reference(fields).value)) && Sized(s, fields - {Ref}, Obj(fields))
    requires Strings(Resolve(Reference(fields).value, s.document, s.registry).value.0) <= s.universe
    ensures var expanded, siblings := TargetIn(s, fields), ProjectFieldsIn(s, fields - {Ref}, Obj(fields));
      expanded.Some? && expanded.value.Obj? && siblings.Some? && Merge(expanded.value.fields, siblings.value) == ProjectIn(s, Obj(fields))
  {
    hide Resolve;
    hide ProjectFields;
    hide Merge;
    ResolveStaysKnown(s.universe, Reference(fields).value, s.document, s.registry);
  }

  /** The projection of a reference's target. */
  ghost function TargetIn(s: Source, fields: map<Key, Json>): Option<Json>
    requires s.depth > 0 && Reference(fields).Some? && Resolve(Reference(fields).value, s.document, s.registry).Some?
    requires Ready(Inside(s, Reference(fields).value))
    requires Strings(Resolve(Reference(fields).value, s.document, s.registry).value.0) <= s.universe
  {
    ProjectIn(Inside(s, Reference(fields).value), Resolve(Reference(fields).value, s.document, s.registry).value.0)
  }

  lemma TargetIsSupported(s: Source, fields: map<Key, Json>)
    requires HasReference(fields) && Reference(fields).Some? && s.depth > 0 && SupportedIn(s, Obj(fields))
    requires Resolve(Reference(fields).value, s.document, s.registry).Some?
    ensures SupportedIn(Inside(s, Reference(fields).value), Resolve(Reference(fields).value, s.document, s.registry).value.0)
    ensures KeywordsSupported(s, fields - {Ref})
  {
    assert SupportedKeyword(Ref, fields[Ref], s.document, s.registry, s.depth);
    hide Resolve;
  }

  lemma PartsAreFaithful(s: Source, fields: map<Key, Json>)
    requires Ready(s) && Strings(Obj(fields)) <= s.universe && HasReference(fields) && FaithfulIn(s, Obj(fields))
    requires s.depth > 0 && Reference(fields).Some? && Reference(fields).value !in s.stack
    requires Resolve(Reference(fields).value, s.document, s.registry).Some?
    requires Ready(Inside(s, Reference(fields).value)) && Sized(s, fields - {Ref}, Obj(fields))
    requires Strings(Resolve(Reference(fields).value, s.document, s.registry).value.0) <= s.universe
    ensures FaithfulIn(Inside(s, Reference(fields).value), Resolve(Reference(fields).value, s.document, s.registry).value.0)
    ensures FieldsFaithfulIn(s, fields - {Ref}, Obj(fields))
    ensures var expanded, siblings := TargetIn(s, fields), ProjectFieldsIn(s, fields - {Ref}, Obj(fields));
      expanded.Some? && expanded.value.Obj? && siblings.Some? ==> Compatible(expanded.value.fields, siblings.value)
  {
    assert FaithfulTarget(fields, s.document, s.registry, s.stack, s.universe, Obj(fields));
    hide Resolve;
    hide Project;
    hide ProjectFields;
    hide Compatible;
    hide FaithfulFields;
  }

  /** Where the target of a reference is read, one unfolding further. */
  ghost function Inside(s: Source, reference: string): Source
    requires s.depth > 0 && Resolve(reference, s.document, s.registry).Some?
  {
    Source(Resolve(reference, s.document, s.registry).value.1, s.registry, s.stack + [reference], s.universe, s.depth - 1)
  }

  lemma {:induction false} ReferenceReflects(other: Assertion, s: Source, p: Place, fields: map<Key, Json>, instance: Json)
    requires Lenient(other) && Ready(s) && Strings(Obj(fields)) <= s.universe && HasReference(fields)
    requires ProjectIn(s, Obj(fields)).Some? && SupportedIn(s, Obj(fields)) && FaithfulIn(s, Obj(fields))
    requires ValidAt(other, p, ProjectIn(s, Obj(fields)).value, instance)
    ensures ValidIn(other, s, Obj(fields), instance)
    decreases Unseen(s.universe, s.stack), Obj(fields), 5
  {
    ReferenceIsRead(s, fields);
    PartsAreProjected(s, fields);
    TargetIsSupported(s, fields);
    PartsAreFaithful(s, fields);
    var inner, target := Inside(s, Reference(fields).value), Resolve(Reference(fields).value, s.document, s.registry).value.0;
    var expanded, siblings := TargetIn(s, fields).value.fields, ProjectFieldsIn(s, fields - {Ref}, Obj(fields)).value;
    assert inner.universe == s.universe && !HasReference(fields - {Ref});
    assert ProjectIn(inner, target) == Some(Obj(expanded));
    hide *;
    MergeReflects(other, p, expanded, siblings, instance);
    ProjectReflects(other, inner, p, target, instance);
    FieldsReflect(other, s, p, fields - {Ref}, siblings, instance, Obj(fields));
    TargetHolds(other, s, fields, instance);
    ReferenceHolds(other, s, fields, instance, Obj(fields));
    FoldValid(other, s, fields, instance);
  }

  lemma TargetHolds(other: Assertion, s: Source, fields: map<Key, Json>, instance: Json)
    requires s.depth > 0 && Ref in fields && Reference(fields).Some? && Resolve(Reference(fields).value, s.document, s.registry).Some?
    requires ValidIn(other, Inside(s, Reference(fields).value), Resolve(Reference(fields).value, s.document, s.registry).value.0, instance)
    ensures HoldsIn(other, s, fields, Ref, instance, Obj(fields))
  {
    hide Valid;
  }

  lemma FoldValid(other: Assertion, s: Source, fields: map<Key, Json>, instance: Json)
    requires Sized(s, fields, Obj(fields)) && EveryKeywordHolds(other, s, fields, instance, Obj(fields))
    ensures ValidIn(other, s, Obj(fields), instance)
  {
    hide Holds;
  }

  lemma {:induction false} ObjectReflects(other: Assertion, s: Source, p: Place, fields: map<Key, Json>, instance: Json)
    requires Lenient(other) && Ready(s) && Strings(Obj(fields)) <= s.universe && !HasReference(fields)
    requires ProjectIn(s, Obj(fields)).Some? && SupportedIn(s, Obj(fields)) && FaithfulIn(s, Obj(fields))
    requires ValidAt(other, p, ProjectIn(s, Obj(fields)).value, instance)
    ensures ValidIn(other, s, Obj(fields), instance)
    decreases Unseen(s.universe, s.stack), Obj(fields), 5
  {
    UnfoldFields(s, fields);
    var out := ProjectFieldsIn(s, fields, Obj(fields)).value;
    hide *;
    FieldsReflect(other, s, p, fields, out, instance, Obj(fields));
    FoldValid(other, s, fields, instance);
  }

  lemma UnfoldFields(s: Source, fields: map<Key, Json>)
    requires Ready(s) && Strings(Obj(fields)) <= s.universe && !HasReference(fields)
    requires ProjectIn(s, Obj(fields)).Some? && SupportedIn(s, Obj(fields)) && FaithfulIn(s, Obj(fields))
    ensures Sized(s, fields, Obj(fields)) && ProjectFieldsIn(s, fields, Obj(fields)).Some?
    ensures ProjectIn(s, Obj(fields)) == Some(Obj(ProjectFieldsIn(s, fields, Obj(fields)).value))
    ensures FieldsFaithfulIn(s, fields, Obj(fields)) && KeywordsSupported(s, fields)
  {
    hide ProjectFields;
    hide SupportedKeyword;
    hide FaithfulFields;
  }

  /**
    Every instance that satisfies the projection of a schema, wherever it is placed, satisfies the schema,
    if the eleven keywords are left out of account.
   */
  lemma {:induction false} ProjectReflects(other: Assertion, s: Source, p: Place, node: Json, instance: Json)
    requires Lenient(other) && Ready(s) && Strings(node) <= s.universe
    requires ProjectIn(s, node).Some? && SupportedIn(s, node) && FaithfulIn(s, node)
    requires ValidAt(other, p, ProjectIn(s, node).value, instance)
    ensures ValidIn(other, s, node, instance)
    decreases Unseen(s.universe, s.stack), node, 7
  {
    if node.Obj? {
      hide *;
      if HasReference(node.fields) {
        ReferenceReflects(other, s, p, node.fields, instance);
      } else {
        ObjectReflects(other, s, p, node.fields, instance);
      }
    }
  }

  // ---------- the whole schema ----------

  /** The schemas that stand directly under a keyword. */
  ghost function Under(k: Key, value: Json): set<Json> {
    if k == Properties && value.Obj? then set p | p in value.fields :: value.fields[p]
    else if k == AdditionalProperties || k == Items then {value}
    else if (k == PrefixItems || k == AnyOf) && value.Arr? then set i | 0 <= i < |value.items| :: value.items[i]
    else {}
  }

  lemma UnderIsNoLarger(k: Key, value: Json, sub: Json)
    requires sub in Under(k, value)
    ensures sub < value || sub == value
  {
  }

  /** The schemas under a keyword carry over from one place and meaning to another. */
  ghost predicate Transfers(here: Assertion, p: Place, there: Assertion, q: Place, k: Key, value: Json) {
    forall sub, i :: sub in Under(k, value) && ValidAt(here, p, sub, i) ==> ValidAt(there, q, sub, i)
  }

  /** A keyword that is no reference carries over if the schemas under it do. */
  lemma KeywordTransfers(here: Assertion, p: Place, there: Assertion, q: Place, schema: map<Key, Json>, k: Key, instance: Json)
    requires k in schema && k != Ref && (here(k, schema[k], instance) ==> there(k, schema[k], instance))
    requires Transfers(here, p, there, q, k, schema[k]) && HoldsAt(here, p, schema, k, instance)
    ensures HoldsAt(there, q, schema, k, instance)
  {
    hide *;
    if k == Properties {
      PropertiesTransfer(here, p, there, q, schema, instance);
    } else if k == AdditionalProperties {
      AdditionalTransfers(here, p, there, q, schema, instance);
    } else if k == Items {
      ItemsTransfer(here, p, there, q, schema, instance);
    } else if k == PrefixItems {
      PrefixItemsTransfer(here, p, there, q, schema, instance);
    } else if k == AnyOf {
      AnyOfTransfers(here, p, there, q, schema, instance);
    } else {
      PlainTransfers(here, p, there, q, schema, k, instance);
    }
  }

  lemma PropertiesTransfer(here: Assertion, p: Place, there: Assertion, q: Place, schema: map<Key, Json>, instance: Json)
    requires Properties in schema && Transfers(here, p, there, q, Properties, schema[Properties])
    requires HoldsAt(here, p, schema, Properties, instance)
    ensures HoldsAt(there, q, schema, Properties, instance)
  {
    hide Valid;
    var value := schema[Properties];
    if value.Obj? && instance.Obj? {
      forall name | name in value.fields && name in instance.fields
        ensures ValidAt(there, q, value.fields[name], instance.fields[name])
      {
        assert value.fields[name] in Under(Properties, value);
        assert ValidAt(here, p, value.fields[name], instance.fields[name]);
      }
    }
  }

  lemma AdditionalTransfers(here: Assertion, p: Place, there: Assertion, q: Place, schema: map<Key, Json>, instance: Json)
    requires AdditionalProperties in schema && Transfers(here, p, there, q, AdditionalProperties, schema[AdditionalProperties])
    requires HoldsAt(here, p, schema, AdditionalProperties, instance)
    ensures HoldsAt(there, q, schema, AdditionalProperties, instance)
  {
    hide Valid;
    hide Additional;
    if instance.Obj? {
      forall name | name in instance.fields && Additional(schema, name)
        ensures ValidAt(there, q, schema[AdditionalProperties], instance.fields[name])
      {
        assert schema[AdditionalProperties] in Under(AdditionalProperties, schema[AdditionalProperties]);
        assert ValidAt(here, p, schema[AdditionalProperties], instance.fields[name]);
      }
    }
  }

  lemma ItemsTransfer(here: Assertion, p: Place, there: Assertion, q: Place, schema: map<Key, Json>, instance: Json)
    requires Items in schema && Transfers(here, p, there, q, Items, schema[Items])
    requires HoldsAt(here, p, schema, Items, instance)
    ensures HoldsAt(there, q, schema, Items, instance)
  {
    hide Valid;
    hide PrefixLength;
    if instance.Arr? {
      forall i | PrefixLength(schema) <= i < |instance.items|
        ensures ValidAt(there, q, schema[Items], instance.items[i])
      {
        assert schema[Items] in Under(Items, schema[Items]);
        assert ValidAt(here, p, schema[Items], instance.items[i]);
      }
    }
  }

  lemma PrefixItemsTransfer(here: Assertion, p: Place, there: Assertion, q: Place, schema: map<Key, Json>, instance: Json)
    requires PrefixItems in schema && Transfers(here, p, there, q, PrefixItems, schema[PrefixItems])
    requires HoldsAt(here, p, schema, PrefixItems, instance)
    ensures HoldsAt(there, q, schema, PrefixItems, instance)
  {
    hide Valid;
    var value := schema[PrefixItems];
    if value.Arr? && instance.Arr? {
      forall i | 0 <= i < |value.items| && i < |instance.items|
        ensures ValidAt(there, q, value.items[i], instance.items[i])
      {
        assert value.items[i] in Under(PrefixItems, value);
        assert ValidAt(here, p, value.items[i], instance.items[i]);
      }
    }
  }

  lemma AnyOfTransfers(here: Assertion, p: Place, there: Assertion, q: Place, schema: map<Key, Json>, instance: Json)
    requires AnyOf in schema && Transfers(here, p, there, q, AnyOf, schema[AnyOf])
    requires HoldsAt(here, p, schema, AnyOf, instance)
    ensures HoldsAt(there, q, schema, AnyOf, instance)
  {
    hide Valid;
    var value := schema[AnyOf];
    if value.Arr? {
      var i :| 0 <= i < |value.items| && Valid(here, value.items[i], p.document, p.registry, p.depth, instance);
      assert value.items[i] in Under(AnyOf, value) && ValidAt(here, p, value.items[i], instance);
      assert Valid(there, value.items[i], q.document, q.registry, q.depth, instance);
    }
  }

  lemma PlainTransfers(here: Assertion, p: Place, there: Assertion, q: Place, schema: map<Key, Json>, k: Key, instance: Json)
    requires k in schema && k !in {Ref, Properties, AdditionalProperties, Items, PrefixItems, AnyOf}
    requires (here(k, schema[k], instance) ==> there(k, schema[k], instance)) && HoldsAt(here, p, schema, k, instance)
    ensures HoldsAt(there, q, schema, k, instance)
  {
    hide Valid;
  }

  /** Unfolding fewer references asks for less. */
  lemma {:induction false} ShallowerAsksLess(other: Assertion, p: Place, depth: nat, node: Json, instance: Json)
    requires depth <= p.depth && ValidAt(other, p, node, instance)
    ensures ValidAt(other, p.(depth := depth), node, instance)
    decreases depth, node, 2
  {
    if node.Obj? {
      ValidByKeyword(other, p, node.fields, instance);
      ValidByKeyword(other, p.(depth := depth), node.fields, instance);
      hide *;
      forall k | k in node.fields
        ensures HoldsAt(other, p.(depth := depth), node.fields, k, instance)
      {
        ShallowerKeyword(other, p, depth, node.fields, k, instance);
      }
    }
  }

  lemma {:induction false} ShallowerKeyword(other: Assertion, p: Place, depth: nat, schema: map<Key, Json>, k: Key, instance: Json)
    requires k in schema && depth <= p.depth && HoldsAt(other, p, schema, k, instance)
    ensures HoldsAt(other, p.(depth := depth), schema, k, instance)
    decreases depth, Obj(schema), 1
  {
    hide *;
    if k == Ref {
      ShallowerReference(other, p, depth, schema, instance);
    } else {
      ShallowerUnder(other, p, depth, k, schema[k]);
      KeywordTransfers(other, p, other, p.(depth := depth), schema, k, instance);
    }
  }

  lemma {:induction false} ShallowerReference(other: Assertion, p: Place, depth: nat, schema: map<Key, Json>, instance: Json)
    requires Ref in schema && depth <= p.depth && HoldsAt(other, p, schema, Ref, instance)
    ensures HoldsAt(other, p.(depth := depth), schema, Ref, instance)
    decreases depth, Obj(schema), 0
  {
    hide Valid;
    hide Resolve;
    if schema[Ref].Str? && depth > 0 {
      var (target, targetDocument) := Resolve(schema[Ref].s, p.document, p.registry).value;
      ShallowerAsksLess(other, Place(targetDocument, p.registry, p.depth - 1), depth - 1, target, instance);
    }
  }

  lemma {:induction false} ShallowerUnder(other: Assertion, p: Place, depth: nat, k: Key, value: Json)
    requires depth <= p.depth
    ensures Transfers(other, p, other, p.(depth := depth), k, value)
    decreases depth, value, 3
  {
    hide ValidAt;
    hide Under;
    forall sub, i | sub in Under(k, value) && ValidAt(other, p, sub, i)
      ensures ValidAt(other, p.(depth := depth), sub, i)
    {
      UnderIsNoLarger(k, value, sub);
      ShallowerAsksLess(other, p, depth, sub, i);
    }
  }

  /** A transport schema says nothing with the eleven keywords. */
  lemma {:induction false} IgnoringNothing(other: Assertion, p: Place, node: Json, instance: Json)
    requires TransportForm(node, UpTo(0))
    ensures ValidAt(Ignoring(other), p, node, instance) <==> ValidAt(other, p, node, instance)
    decreases node, 1
  {
    if node.Obj? {
      ValidByKeyword(other, p, node.fields, instance);
      ValidByKeyword(Ignoring(other), p, node.fields, instance);
      hide ValidAt;
      hide HoldsAt;
      hide TransportKeyword;
      hide Ignoring;
      forall k | k in node.fields
        ensures HoldsAt(Ignoring(other), p, node.fields, k, instance) <==> HoldsAt(other, p, node.fields, k, instance)
      {
        IgnoringNoKeyword(other, p, node.fields, k, instance);
      }
    }
  }

  lemma TransportUnder(k: Key, value: Json, sub: Json)
    requires TransportKeyword(k, value, UpTo(0)) && sub in Under(k, value)
    ensures TransportForm(sub, UpTo(0))
  {
  }

  lemma {:induction false} IgnoringNoKeyword(other: Assertion, p: Place, schema: map<Key, Json>, k: Key, instance: Json)
    requires k in schema && !Omitted(k) && TransportKeyword(k, schema[k], UpTo(0)) && !HasReference(schema)
    ensures HoldsAt(Ignoring(other), p, schema, k, instance) <==> HoldsAt(other, p, schema, k, instance)
    decreases Obj(schema), 0
  {
    if k == Ref {
      NullReferenceHolds(other, p, schema, instance);
      NullReferenceHolds(Ignoring(other), p, schema, instance);
    } else {
      assert Ignoring(other)(k, schema[k], instance) == other(k, schema[k], instance);
      hide *;
      IgnoringUnder(other, p, k, schema[k]);
      if HoldsAt(other, p, schema, k, instance) {
        KeywordTransfers(other, p, Ignoring(other), p, schema, k, instance);
      } else if HoldsAt(Ignoring(other), p, schema, k, instance) {
        KeywordTransfers(Ignoring(other), p, other, p, schema, k, instance);
      }
    }
  }

  lemma NullReferenceHolds(other: Assertion, p: Place, schema: map<Key, Json>, instance: Json)
    requires Ref in schema && !HasReference(schema)
    ensures HoldsAt(other, p, schema, Ref, instance)
  {
  }

  lemma {:induction false} IgnoringUnder(other: Assertion, p: Place, k: Key, value: Json)
    requires TransportKeyword(k, value, UpTo(0))
    ensures Transfers(other, p, Ignoring(other), p, k, value)
    ensures Transfers(Ignoring(other), p, other, p, k, value)
    decreases value, 2
  {
    hide ValidAt;
    hide Under;
    hide Ignoring;
    hide TransportForm;
    hide TransportKeyword;
    forall sub, i | sub in Under(k, value)
      ensures ValidAt(Ignoring(other), p, sub, i) <==> ValidAt(other, p, sub, i)
    {
      UnderIsNoLarger(k, value, sub);
      TransportUnder(k, value, sub);
      IgnoringNothing(other, p, sub, i);
    }
  }

  ghost predicate BuiltFaithfully(canonical: Json, external: Registry)
    requires canonical.Obj? && forall k :: k in external ==> external[k].Obj?
  {
    UniverseIsKnown(canonical, external);
    var registry := RegistryOf(canonical, external);
    Faithful(canonical, canonical, registry, [], Universe(canonical, registry))
  }

  /**
    Main result: the transport schema accepts exactly the instances that the canonical schema accepts when
    the eleven keywords are left out of account. No other constraint is lost, however deep it stands and
    however many references lead to it.
   */
  lemma BuildIsExact(other: Assertion, canonical: Json, external: Registry, instance: Json)
    requires canonical.Obj? && forall k :: k in external ==> external[k].Obj?
    requires Build(canonical, external).Some? && BuiltFaithfully(canonical, external)
    requires forall depth :: Supported(canonical, canonical, RegistryOf(canonical, external), depth)
    ensures Satisfies(other, Build(canonical, external).value, Build(canonical, external).value, map[], instance)
      <==> Satisfies(Ignoring(other), canonical, canonical, RegistryOf(canonical, external), instance)
  {
    BuiltIgnoresNothing(other, canonical, external, instance);
    hide *;
    if Satisfies(Ignoring(other), canonical, canonical, RegistryOf(canonical, external), instance) {
      BuildWeakens(Ignoring(other), canonical, external, instance);
    }
    if Satisfies(other, Build(canonical, external).value, Build(canonical, external).value, map[], instance) {
      BuiltReflects(other, canonical, external, instance);
    }
  }

  lemma BuiltIgnoresNothing(other: Assertion, canonical: Json, external: Registry, instance: Json)
    requires canonical.Obj? && forall k :: k in external ==> external[k].Obj?
    requires Build(canonical, external).Some?
    ensures var out := Build(canonical, external).value;
      Satisfies(Ignoring(other), out, out, map[], instance) <==> Satisfies(other, out, out, map[], instance)
  {
    var out := Build(canonical, external).value;
    BuildIsTransportForm(canonical, external);
    hide Build;
    hide TransportForm;
    hide Valid;
    forall depth: nat
      ensures Valid(Ignoring(other), out, out, map[], depth, instance) <==> Valid(other, out, out, map[], depth, instance)
    {
      IgnoringNothing(other, Place(out, map[], depth), out, instance);
    }
  }

  lemma BuiltReflects(other: Assertion, canonical: Json, external: Registry, instance: Json)
    requires canonical.Obj? && forall k :: k in external ==> external[k].Obj?
    requires Build(canonical, external).Some? && BuiltFaithfully(canonical, external)
    requires forall depth :: Supported(canonical, canonical, RegistryOf(canonical, external), depth)
    requires Satisfies(other, Build(canonical, external).value, Build(canonical, external).value, map[], instance)
    ensures Satisfies(Ignoring(other), canonical, canonical, RegistryOf(canonical, external), instance)
  {
    var out := Build(canonical, external).value;
    BuiltIgnoresNothing(other, canonical, external, instance);
    assert Valid(Ignoring(other), out, out, map[], 0, instance);
    hide Build;
    hide Supported;
    hide Valid;
    forall depth: nat
      ensures Valid(Ignoring(other), canonical, canonical, RegistryOf(canonical, external), depth, instance)
    {
      BuiltReflectsAt(Ignoring(other), canonical, external, depth, instance);
    }
  }

  lemma BuiltReflectsAt(other: Assertion, canonical: Json, external: Registry, depth: nat, instance: Json)
    requires canonical.Obj? && forall k :: k in external ==> external[k].Obj?
    requires Build(canonical, external).Some? && BuiltFaithfully(canonical, external) && Lenient(other)
    requires forall depth :: Supported(canonical, canonical, RegistryOf(canonical, external), depth)
    requires Valid(other, Build(canonical, external).value, Build(canonical, external).value, map[], 0, instance)
    ensures Valid(other, canonical, canonical, RegistryOf(canonical, external), depth, instance)
  {
    hide Valid;
    hide Supported;
    hide Project;
    hide StrictObjects;
    hide Faithful;
    var out := Build(canonical, external).value;
    UniverseIsKnown(canonical, external);
    var whole := Whole(canonical, external);
    var s := whole.(depth := if whole.depth < depth then depth else whole.depth);
    ProjectReflects(other, s, Place(out, map[], 0), canonical, instance);
    ShallowerAsksLess(other, Place(s.document, s.registry, s.depth), depth, canonical, instance);
  }

  // ---------- where more is lost ----------

  /** What stands for a `const` and an `enum` beside it says as much as both exactly when the constant is, as JSON, the one member. */
  lemma EnumBesideConstExactlyWhen(enumeration: Json, constant: Json)
    requires PyEq(enumeration, Arr([constant]))
    ensures (forall instance :: EnumHolds(Arr([constant]), instance) ==> EnumHolds(enumeration, instance))
      <==> JsonEq(enumeration, Arr([constant]))
  {
    assert Arr([constant]).items[0] == constant;
    assert PyEq(enumeration.items[0], Arr([constant]).items[0]);
    JsonEqReflexive(constant);
    assert EnumHolds(Arr([constant]), constant);
    if JsonEq(enumeration, Arr([constant])) {
      forall instance | EnumHolds(Arr([constant]), instance)
        ensures EnumHolds(enumeration, instance)
      {
        EnumBesideConst(enumeration, constant, instance);
      }
    }
  }

  /**
    A part of a reference that closes its objects keeps them closed in the merge exactly when the other
    part describes no member that it does not describe itself.
   */
  lemma ClosedInMergeExactlyWhen(other: Assertion, p: Place, part: map<Key, Json>, beside: map<Key, Json>)
    requires AdditionalProperties in part && part[AdditionalProperties] == Bool(false)
    requires Properties in part && Properties in beside ==> part[Properties] == beside[Properties]
    ensures (forall instance :: HoldsAt(other, p, beside + part, AdditionalProperties, instance) ==> HoldsAt(other, p, part, AdditionalProperties, instance))
      <==> Described(beside) <= Described(part)
  {
    var merged := beside + part;
    if name :| name in Described(beside) && name !in Described(part) {
      var instance := Obj(map[name := Null]);
      assert HoldsAt(other, p, merged, AdditionalProperties, instance);
      assert name in instance.fields && Additional(part, name);
      assert !Valid(other, part[AdditionalProperties], p.document, p.registry, p.depth, instance.fields[name]);
      assert !HoldsAt(other, p, part, AdditionalProperties, instance);
    } else {
      ClosedMerge(part, beside);
      forall instance | HoldsAt(other, p, merged, AdditionalProperties, instance)
        ensures HoldsAt(other, p, part, AdditionalProperties, instance)
      {
        AdditionalApart(other, p, part, merged, instance);
      }
    }
  }

  lemma ClosedMerge(part: map<Key, Json>, beside: map<Key, Json>)
    requires Described(beside) <= Described(part)
    ensures forall name :: Additional(part, name) ==> Additional(beside + part, name)
  {
  }

  /** A constant beside an enumeration that equals it in Python and not in JSON. */
  const ONE_OR_TRUE: Json := Obj(map[Const := Int(1), Enum := Arr([Bool(true)])])
  const ONE: Json := Obj(map[Enum := Arr([Int(1)]), Type := Str("integer")])

  /** The transport schema accepts 1, which the canonical schema refuses. */
  lemma EnumBesideConstIsLost()
    ensures Build(ONE_OR_TRUE, map[]) == Some(ONE)
    ensures Satisfies(Anything, ONE, ONE, map[], Int(1)) && !Satisfies(Anything, ONE_OR_TRUE, ONE_OR_TRUE, map[], Int(1))
  {
    OneIsBuilt();
    OneIsAccepted();
    var enumeration := ONE_OR_TRUE.fields[Enum];
    assert enumeration.items == [Bool(true)];
    assert !Holds(Anything, ONE_OR_TRUE.fields, Enum, ONE_OR_TRUE, map[], 0, Int(1), ONE_OR_TRUE);
    assert !Valid(Anything, ONE_OR_TRUE, ONE_OR_TRUE, map[], 0, Int(1));
  }

  lemma OneIsAccepted()
    ensures Satisfies(Anything, ONE, ONE, map[], Int(1))
  {
    assert ONE.fields[Enum].items[0] == Int(1);
  }

  lemma OneIsBuilt()
    ensures Build(ONE_OR_TRUE, map[]) == Some(ONE)
  {
    var one, members := Arr([Int(1)]), Arr([Bool(true)]);
    assert one.items[0] == Int(1) && members.items[0] == Bool(true);
    assert PyEq(members, one) && TransportForm(members, Everywhere);
    assert EnumType(one) == Some("integer") && "integer" != "object" && StrictObjects(one);
    hide *;
    ConstantIsBuilt(ONE_OR_TRUE, Int(1), members, "integer");
  }

  /** What a schema of nothing but a constant and an enumeration is built to. */
  lemma ConstantIsBuilt(schema: Json, constant: Json, enumeration: Json, name: string)
    requires schema == Obj(map[Const := constant, Enum := enumeration]) && TransportForm(enumeration, Everywhere)
    requires PyEq(enumeration, Arr([constant])) && EnumType(Arr([constant])) == Some(name)
    requires name != "object" && StrictObjects(Arr([constant]))
    ensures Build(schema, map[]) == Some(Obj(map[Enum := Arr([constant]), Type := Str(name)]))
  {
    var universe := Universe(schema, map[]);
    UniverseIsKnown(schema, map[]);
    ConstantIsProjected(schema, constant, enumeration, name, universe);
    hide Project;
    hide EnumType;
    hide PyEq;
    hide TransportForm;
    var out: map<Key, Json> := map[Enum := Arr([constant]), Type := Str(name)];
    assert StrictObjects(Obj(out));
  }

  lemma ConstantIsProjected(schema: Json, constant: Json, enumeration: Json, name: string, universe: set<string>)
    requires schema == Obj(map[Const := constant, Enum := enumeration]) && TransportForm(enumeration, Everywhere)
    requires PyEq(enumeration, Arr([constant])) && EnumType(Arr([constant])) == Some(name)
    requires Known(universe, schema, map[])
    ensures Project(schema, schema, map[], [], universe) == Some(Obj(map[Enum := Arr([constant]), Type := Str(name)]))
  {
    var carried: map<Key, Json> := map[Enum := enumeration];
    ConstantStrings(schema, constant, enumeration, carried, universe);
    EnumIsFixed(enumeration, schema, universe);
    hide *;
    ObjectIsProjected(schema, universe);
    AllCarried(schema.fields, schema, map[], [], universe, schema, carried);
    TypeIsInferred(constant, carried[Enum := Arr([constant])], name);
  }

  lemma ConstantStrings(schema: Json, constant: Json, enumeration: Json, carried: map<Key, Json>, universe: set<string>)
    requires schema == Obj(map[Const := constant, Enum := enumeration]) && carried == map[Enum := enumeration]
    requires Known(universe, schema, map[])
    ensures carried.Keys == Carried(schema.fields) && !HasReference(schema.fields)
    ensures schema.fields[Enum] == enumeration && schema.fields[Const] == constant && Strings(schema) <= universe
    ensures forall k :: k in schema.fields ==> schema.fields[k] < schema && Strings(schema.fields[k]) <= universe
  {
    ObjectStrings(schema, universe);
  }

  lemma EnumIsFixed(enumeration: Json, document: Json, universe: set<string>)
    requires TransportForm(enumeration, Everywhere) && Known(universe, document, map[]) && Strings(enumeration) <= universe
    ensures ProjectValue(Enum, enumeration, document, map[], [], universe) == Some(enumeration)
  {
    hide Project;
    TransportFormIsFixed(enumeration, document, map[], [], universe);
  }

  lemma TypeIsInferred(constant: Json, fields: map<Key, Json>, name: string)
    requires fields == map[Enum := Arr([constant])] && EnumType(Arr([constant])) == Some(name)
    ensures InferType(fields) == Some(map[Enum := Arr([constant]), Type := Str(name)])
  {
    hide EnumType;
  }

  // ---------- a reference beside properties ----------

  /** A schema that no object with a member satisfies, and a reference to it beside a property. */
  const CLOSED: Json := Obj(map[AdditionalProperties := Bool(false)])
  const NAMED: Json := Obj(map[Text("x") := Obj(map[])])
  const OPENING: Json := Obj(map[Ref := Str("closed"), Properties := NAMED])
  const OPENED: Json := Obj(map[AdditionalProperties := Bool(false), Properties := NAMED])

  /** The transport schema accepts an object with that member, which the canonical schema refuses. */
  lemma ClosedReferenceIsOpened()
    ensures Build(OPENING, map["closed" := CLOSED]) == Some(OPENED)
    ensures var instance := Obj(map[Text("x") := Null]);
      Satisfies(Anything, OPENED, OPENED, map[], instance) && !Satisfies(Anything, OPENING, OPENING, map["closed" := CLOSED], instance)
  {
    hide *;
    OpeningIsBuilt();
    OpenedIsAccepted();
    OpeningIsRefused();
  }

  lemma OpeningIsRefused()
    ensures !Satisfies(Anything, OPENING, OPENING, map["closed" := CLOSED], Obj(map[Text("x") := Null]))
  {
    var instance := Obj(map[Text("x") := Null]);
    var registry: Registry := map["closed" := CLOSED];
    ClosedIsNamed(registry);
    assert Text("x") in instance.fields;
    assert !Holds(Anything, CLOSED.fields, AdditionalProperties, CLOSED, registry, 0, instance, CLOSED);
    assert !Valid(Anything, CLOSED, CLOSED, registry, 0, instance);
    hide Resolve;
    assert !Holds(Anything, OPENING.fields, Ref, OPENING, registry, 1, instance, OPENING);
    assert !Valid(Anything, OPENING, OPENING, registry, 1, instance);
  }

  lemma ClosedIsNamed(registry: Registry)
    requires registry == map["closed" := CLOSED]
    ensures Resolve("closed", OPENING, registry) == Some((CLOSED, CLOSED)) && OPENING.fields[Ref] == Str("closed")
  {
    assert "closed"[0] == 'c' && "#/"[0] == '#';
    assert !IsLocal("closed") && registry["closed"] == CLOSED;
  }

  lemma OpenedIsAccepted()
    ensures Satisfies(Anything, OPENED, OPENED, map[], Obj(map[Text("x") := Null]))
  {
    var instance := Obj(map[Text("x") := Null]);
    assert NAMED.fields[Text("x")] == Obj(map[]);
    forall depth: nat
      ensures Valid(Anything, OPENED, OPENED, map[], depth, instance)
    {
      assert !Additional(OPENED.fields, Text("x"));
    }
  }

  lemma OpeningIsBuilt()
    ensures Build(OPENING, map["closed" := CLOSED]) == Some(OPENED)
  {
    var registry: Registry := map["closed" := CLOSED];
    hide *;
    ClosedIsNamed(registry);
    OpeningParts();
    OpeningRegistry(registry);
    OpenedIsStrict();
    BuildReference(OPENING, CLOSED, "closed", registry, OPENED);
  }

  lemma OpeningRegistry(registry: Registry)
    requires registry == map["closed" := CLOSED]
    ensures RegistryOf(OPENING, registry) == registry && forall k :: k in registry ==> registry[k].Obj?
    ensures "closed" != ""
  {
    assert |"closed"| > 0;
  }

  lemma OpeningParts()
    ensures OPENING.Obj? && CLOSED.Obj? && Ref in OPENING.fields
    ensures TransportForm(CLOSED, Everywhere) && TransportForm(Obj(OPENING.fields - {Ref}), Everywhere)
    ensures Merge(CLOSED.fields, OPENING.fields - {Ref}) == Some(OPENED)
  {
    NamedIsFixed();
    assert OPENING.fields - {Ref} == map[Properties := NAMED];
    assert CLOSED.fields + map[Properties := NAMED] == OPENED.fields;
  }

  lemma OpenedIsStrict()
    ensures StrictObjects(OPENED)
  {
  }

  /** What a schema with a reference at its root is built to, where both parts are transport schemas already. */
  lemma BuildReference(schema: Json, target: Json, reference: string, registry: Registry, out: Json)
    requires schema.Obj? && target.Obj? && Ref in schema.fields && schema.fields[Ref] == Str(reference) && reference != ""
    requires (forall k :: k in registry ==> registry[k].Obj?) && RegistryOf(schema, registry) == registry
    requires Resolve(reference, schema, registry) == Some((target, target))
    requires TransportForm(target, Everywhere) && TransportForm(Obj(schema.fields - {Ref}), Everywhere)
    requires Merge(target.fields, schema.fields - {Ref}) == Some(out) && StrictObjects(out)
    ensures Build(schema, registry) == Some(out)
  {
    UniverseIsKnown(schema, registry);
    var universe := Universe(schema, registry);
    hide RegistryOf;
    hide Universe;
    hide Resolve;
    hide TransportForm;
    hide Merge;
    hide Project;
    hide StrictObjects;
    ReferenceIsProjected(schema, target, reference, registry, universe);
  }

  lemma NamedIsFixed()
    ensures TransportForm(Obj(map[Properties := NAMED]), Everywhere)
  {
    assert NAMED.fields[Text("x")] == Obj(map[]);
  }

  /** A reference is projected to the target with its siblings, where both are transport schemas already. */
  lemma ReferenceIsProjected(schema: Json, target: Json, reference: string, registry: Registry, universe: set<string>)
    requires schema.Obj? && target.Obj? && Ref in schema.fields && schema.fields[Ref] == Str(reference) && reference != ""
    requires Known(universe, schema, registry) && Resolve(reference, schema, registry) == Some((target, target))
    requires TransportForm(target, Everywhere) && TransportForm(Obj(schema.fields - {Ref}), Everywhere)
    ensures Project(schema, schema, registry, [], universe) == Merge(target.fields, schema.fields - {Ref})
  {
    ResolveStaysKnown(universe, reference, schema, registry);
    assert reference in Strings(schema.fields[Ref]);
    PushReference(universe, [], reference);
    ObjectStrings(schema, universe);
    TransportFormIsFixed(target, target, registry, [reference], universe);
    FixedFields(schema.fields - {Ref}, schema, registry, [], universe, schema);
    assert [] + [reference] == [reference];
    hide TransportForm;
    hide Resolve;
    hide ProjectFields;
    hide Merge;
    hide Strings;
  }
}
