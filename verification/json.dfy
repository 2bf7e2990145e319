/** JSON values as Python's `json` module represents them. */
module Json {

  /**
    Names of object members. The names that are keywords of a schema have constructors of
    their own, so that they can be told apart without comparing texts; `Text` is for all
    other names, and `KeyOf` reads a text as the name it is.
   */
  datatype Key =
    | Ref | Schema | Id | Defs | Title | AllOf | If | Then | Else | Not | Contains | UniqueItems
    | Const | Enum | Type | Required | Properties | AdditionalProperties | Items | PrefixItems | AnyOf
    | OneOf | PatternProperties | DependentSchemas | PropertyNames
    | MinContains | MaxContains | UnevaluatedItems | UnevaluatedProperties
    | Text(text: string)

  function KeyOf(s: string): Key {
    if s == "$ref" then Ref else if s == "$schema" then Schema else if s == "$id" then Id
    else if s == "$defs" then Defs else if s == "title" then Title else if s == "allOf" then AllOf
    else if s == "if" then If else if s == "then" then Then else if s == "else" then Else
    else if s == "not" then Not else if s == "contains" then Contains
    else if s == "uniqueItems" then UniqueItems else if s == "const" then Const
    else if s == "enum" then Enum else if s == "type" then Type else if s == "required" then Required
    else if s == "properties" then Properties
    else if s == "additionalProperties" then AdditionalProperties
    else if s == "items" then Items else if s == "prefixItems" then PrefixItems
    else if s == "anyOf" then AnyOf else if s == "oneOf" then OneOf
    else if s == "patternProperties" then PatternProperties
    else if s == "dependentSchemas" then DependentSchemas
    else if s == "propertyNames" then PropertyNames
    else if s == "minContains" then MinContains else if s == "maxContains" then MaxContains
    else if s == "unevaluatedItems" then UnevaluatedItems
    else if s == "unevaluatedProperties" then UnevaluatedProperties
    else Text(s)
  }

  datatype Json =
    | Null
    | Bool(b: bool)
    | Int(n: int)
    | Float(x: real)
    | Str(s: string)
    | Arr(items: seq<Json>)
    | Obj(fields: map<Key, Json>)

  predicate Numeric(j: Json) {
    j.Bool? || j.Int? || j.Float?
  }

  function NumberOf(j: Json): real
    requires Numeric(j)
  {
    match j
    case Bool(b) => if b then 1.0 else 0.0
    case Int(n) => n as real
    case Float(x) => x
  }

  /** Python's `==`: booleans are numbers. */
  predicate PyEq(a: Json, b: Json) {
    if Numeric(a) && Numeric(b) then NumberOf(a) == NumberOf(b)
    else if a.Arr? && b.Arr? then
      |a.items| == |b.items| && forall i | 0 <= i < |a.items| :: PyEq(a.items[i], b.items[i])
    else if a.Obj? && b.Obj? then
      a.fields.Keys == b.fields.Keys && forall k | k in a.fields :: PyEq(a.fields[k], b.fields[k])
    else a == b
  }

  /** Equality of JSON values in JSON Schema: 1 and 1.0 are equal, 1 and true are not. */
  predicate JsonEq(a: Json, b: Json) {
    if a.Bool? || b.Bool? then a == b
    else if Numeric(a) && Numeric(b) then NumberOf(a) == NumberOf(b)
    else if a.Arr? && b.Arr? then
      |a.items| == |b.items| && forall i | 0 <= i < |a.items| :: JsonEq(a.items[i], b.items[i])
    else if a.Obj? && b.Obj? then
      a.fields.Keys == b.fields.Keys && forall k | k in a.fields :: JsonEq(a.fields[k], b.fields[k])
    else a == b
  }

  lemma {:induction false} JsonEqIsPyEq(a: Json, b: Json)
    requires JsonEq(a, b)
    ensures PyEq(a, b)
  {
    if a.Arr? {
      forall i | 0 <= i < |a.items|
        ensures PyEq(a.items[i], b.items[i])
      {
        JsonEqIsPyEq(a.items[i], b.items[i]);
      }
    } else if a.Obj? {
      forall k | k in a.fields
        ensures PyEq(a.fields[k], b.fields[k])
      {
        JsonEqIsPyEq(a.fields[k], b.fields[k]);
      }
    }
  }

  lemma {:induction false} PyEqSymmetric(a: Json, b: Json)
    requires PyEq(a, b)
    ensures PyEq(b, a)
  {
    if a.Arr? {
      forall i | 0 <= i < |a.items|
        ensures PyEq(b.items[i], a.items[i])
      {
        PyEqSymmetric(a.items[i], b.items[i]);
      }
    } else if a.Obj? {
      forall k | k in a.fields
        ensures PyEq(b.fields[k], a.fields[k])
      {
        PyEqSymmetric(a.fields[k], b.fields[k]);
      }
    }
  }

  lemma {:induction false} JsonEqReflexive(a: Json)
    ensures JsonEq(a, a)
  {
    if a.Arr? {
      forall i | 0 <= i < |a.items|
        ensures JsonEq(a.items[i], a.items[i])
      {
        JsonEqReflexive(a.items[i]);
      }
    } else if a.Obj? {
      forall k | k in a.fields
        ensures JsonEq(a.fields[k], a.fields[k])
      {
        JsonEqReflexive(a.fields[k]);
      }
    }
  }

  lemma {:induction false} JsonEqTransitive(a: Json, b: Json, c: Json)
    requires JsonEq(a, b) && JsonEq(b, c)
    ensures JsonEq(a, c)
  {
    if a.Arr? {
      forall i | 0 <= i < |a.items|
        ensures JsonEq(a.items[i], c.items[i])
      {
        JsonEqTransitive(a.items[i], b.items[i], c.items[i]);
      }
    } else if a.Obj? {
      forall k | k in a.fields
        ensures JsonEq(a.fields[k], c.fields[k])
      {
        JsonEqTransitive(a.fields[k], b.fields[k], c.fields[k]);
      }
    }
  }

  /** The strings that occur as values; every `$ref` of a document is one of them. */
  function Strings(j: Json): set<string> {
    match j
    case Str(s) => {s}
    case Arr(items) => set i, s | 0 <= i < |items| && s in Strings(items[i]) :: s
    case Obj(fields) => set k, s | k in fields && s in Strings(fields[k]) :: s
    case _ => {}
  }
}
