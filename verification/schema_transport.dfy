/**
  The form of a transport schema: nothing the transport cannot express is left at a schema position,
  which means no reference, no omitted keyword, no `const` and no enumeration without a type.
 */
module SchemaTransport {
  import opened Wrappers
  import opened Json
  import opened OutputSchema

  /**
    How far a schema is examined. Members of `enum` are values, not schemas, but the projection
    enters them like schemas: `UpTo(n)` enters `n` enumerations, one inside the other.
   */
  datatype Reach = UpTo(enums: nat) | Everywhere

  function Inside(reach: Reach): Reach
    requires reach != UpTo(0)
  {
    match reach
    case UpTo(n) => UpTo(n - 1)
    case Everywhere => Everywhere
  }

  /** A member `"$ref": null` is no reference for the projection, and may be left. */
  predicate TransportForm(node: Json, reach: Reach)
    decreases node, 0
  {
    match node
    case Arr(items) => forall i | 0 <= i < |items| :: TransportForm(items[i], reach)
    case Obj(fields) =>
      && !HasReference(fields)
      && (Enum in fields ==> Type in fields)
      && forall k | k in fields :: !Omitted(k) && k != Const && TransportKeyword(k, fields[k], reach)
    case _ => true
  }

  predicate TransportKeyword(k: Key, value: Json, reach: Reach)
    decreases value, 1
  {
    if k == Enum then reach == UpTo(0) || TransportForm(value, Inside(reach))
    else if k == Properties then value.Obj? && forall p | p in value.fields :: TransportForm(value.fields[p], reach)
    else TransportForm(value, reach)
  }

  // ---------- what projection leaves as it is ----------

  /** A schema in transport form everywhere is a fixed point of projection. */
  lemma {:induction false} TransportFormIsFixed(node: Json, document: Json, registry: Registry, stack: seq<string>, universe: set<string>)
    requires Known(universe, document, registry) && Strings(node) <= universe
    requires TransportForm(node, Everywhere)
    ensures Project(node, document, registry, stack, universe) == Some(node)
    decreases node, 1
  {
    if node.Arr? {
      forall i | 0 <= i < |node.items|
        ensures Project(node.items[i], document, registry, stack, universe) == Some(node.items[i])
      {
        TransportFormIsFixed(node.items[i], document, registry, stack, universe);
      }
      assert Project(node, document, registry, stack, universe).value.items == node.items;
    } else if node.Obj? {
      hide ProjectFields;
      FixedFields(node.fields, document, registry, stack, universe, node);
    }
  }

  lemma {:induction false} FixedFields(fields: map<Key, Json>, document: Json, registry: Registry, stack: seq<string>,
                                       universe: set<string>, context: Json)
    requires Known(universe, document, registry)
    requires forall k :: k in fields ==> fields[k] < context && Strings(fields[k]) <= universe
    requires TransportForm(Obj(fields), Everywhere)
    ensures ProjectFields(fields, document, registry, stack, universe, context) == Some(fields)
    decreases context, 0
  {
    hide Project;
    hide ProjectValue;
    hide TransportKeyword;
    hide Strings;
    forall k | k in fields
      ensures ProjectValue(k, fields[k], document, registry, stack, universe) == Some(fields[k])
    {
      FixedValue(k, fields[k], document, registry, stack, universe);
    }
    assert Carried(fields) == fields.Keys;
    AllCarried(fields, document, registry, stack, universe, context, fields);
  }

  lemma {:induction false} FixedValue(k: Key, value: Json, document: Json, registry: Registry, stack: seq<string>, universe: set<string>)
    requires Known(universe, document, registry) && Strings(value) <= universe
    requires TransportKeyword(k, value, Everywhere)
    ensures ProjectValue(k, value, document, registry, stack, universe) == Some(value)
    decreases value, 2
  {
    if k == Properties {
      hide Project;
      hide TransportForm;
      forall p | p in value.fields
        ensures Project(value.fields[p], document, registry, stack, universe) == Some(value.fields[p])
      {
        TransportFormIsFixed(value.fields[p], document, registry, stack, universe);
      }
      assert ProjectValue(k, value, document, registry, stack, universe).value.fields == value.fields;
    } else {
      TransportFormIsFixed(value, document, registry, stack, universe);
    }
  }

  // ---------- values that are equal ----------

  /** Equal values have the same form. */
  lemma {:induction false} EqualHasSameForm(a: Json, b: Json, reach: Reach)
    requires PyEq(a, b) && TransportForm(a, reach)
    ensures TransportForm(b, reach)
    decreases a, 0
  {
    if a.Arr? {
      forall i | 0 <= i < |b.items|
        ensures TransportForm(b.items[i], reach)
      {
        EqualHasSameForm(a.items[i], b.items[i], reach);
      }
    } else if a.Obj? {
      hide TransportKeyword;
      forall k | k in b.fields
        ensures TransportKeyword(k, b.fields[k], reach)
      {
        EqualHasSameKeyword(k, a.fields[k], b.fields[k], reach);
      }
    }
  }

  lemma {:induction false} EqualHasSameKeyword(k: Key, a: Json, b: Json, reach: Reach)
    requires PyEq(a, b) && TransportKeyword(k, a, reach)
    ensures TransportKeyword(k, b, reach)
    decreases a, 1
  {
    if k == Enum {
      if reach != UpTo(0) {
        EqualHasSameForm(a, b, Inside(reach));
      }
    } else if k == Properties {
      forall p | p in b.fields
        ensures TransportForm(b.fields[p], reach)
      {
        EqualHasSameForm(a.fields[p], b.fields[p], reach);
      }
    } else {
      EqualHasSameForm(a, b, reach);
    }
  }

  // ---------- reaching everywhere ----------

  ghost predicate AtEveryLevel(node: Json) {
    forall n: nat :: TransportForm(node, UpTo(n))
  }

  /** What has transport form to every depth of enumerations has it everywhere. */
  lemma {:induction false} EveryLevelIsEverywhere(node: Json)
    requires AtEveryLevel(node)
    ensures TransportForm(node, Everywhere)
    decreases node, 0
  {
    assert TransportForm(node, UpTo(0));
    if node.Arr? {
      forall i | 0 <= i < |node.items|
        ensures TransportForm(node.items[i], Everywhere)
      {
        forall n: nat
          ensures TransportForm(node.items[i], UpTo(n))
        {
          assert TransportForm(node, UpTo(n));
        }
        EveryLevelIsEverywhere(node.items[i]);
      }
    } else if node.Obj? {
      forall k | k in node.fields
        ensures TransportKeyword(k, node.fields[k], Everywhere)
      {
        forall n: nat
          ensures TransportKeyword(k, node.fields[k], UpTo(n))
        {
          assert TransportForm(node, UpTo(n));
        }
        EveryLevelOfKeyword(k, node.fields[k]);
      }
    }
  }

  lemma {:induction false} EveryLevelOfKeyword(k: Key, value: Json)
    requires forall n: nat :: TransportKeyword(k, value, UpTo(n))
    ensures TransportKeyword(k, value, Everywhere)
    decreases value, 1
  {
    assert TransportKeyword(k, value, UpTo(0));
    if k == Enum {
      forall n: nat
        ensures TransportForm(value, UpTo(n))
      {
        assert TransportKeyword(k, value, UpTo(n + 1));
      }
      EveryLevelIsEverywhere(value);
    } else if k == Properties {
      forall p | p in value.fields
        ensures TransportForm(value.fields[p], Everywhere)
      {
        forall n: nat
          ensures TransportForm(value.fields[p], UpTo(n))
        {
          assert TransportKeyword(k, value, UpTo(n));
        }
        EveryLevelIsEverywhere(value.fields[p]);
      }
    } else {
      forall n: nat
        ensures TransportForm(value, UpTo(n))
      {
        assert TransportKeyword(k, value, UpTo(n));
      }
      EveryLevelIsEverywhere(value);
    }
  }
}
