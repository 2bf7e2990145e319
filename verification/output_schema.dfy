/** The transport projection of role schemas: `codex_output_schema.py`. */
module OutputSchema {
  import opened Wrappers
  import opened RepositoryPaths
  import opened Json

  type Registry = map<string, Json>

  /** `_OMITTED_TRANSPORT_KEYWORDS`. */
  predicate Omitted(k: Key) {
    match k
    case Schema | Id | Defs | Title | AllOf | If | Then | Else | Not | Contains | UniqueItems => true
    case _ => false
  }

  // ---------- _resolve_reference ----------

  /** `text.replace("~" + digit, plain)`. */
  function ReplaceEscape(s: string, digit: char, plain: char): string {
    if |s| >= 2 && s[0] == '~' && s[1] == digit then [plain] + ReplaceEscape(s[2..], digit, plain)
    else if s == "" then ""
    else [s[0]] + ReplaceEscape(s[1..], digit, plain)
  }

  function Unescape(encoded: string): string {
    ReplaceEscape(ReplaceEscape(encoded, '1', '/'), '0', '~')
  }

  /** Follow member names from a value; arrays are not entered. */
  function Follow(target: Json, tokens: seq<string>): Option<Json> {
    if tokens == [] then Some(target)
    else if !target.Obj? || KeyOf(tokens[0]) !in target.fields then None
    else Follow(target.fields[KeyOf(tokens[0])], tokens[1..])
  }

  function UnescapeAll(parts: seq<string>): (tokens: seq<string>)
    ensures |tokens| == |parts|
  {
    if parts == [] then [] else [Unescape(parts[0])] + UnescapeAll(parts[1..])
  }

  predicate IsLocal(reference: string) {
    "#/" <= reference
  }

  /** `_resolve_reference`: the schema a reference names, and the document it is in. */
  function Resolve(reference: string, document: Json, registry: Registry): Option<(Json, Json)> {
    if IsLocal(reference) then
      var target := Follow(document, UnescapeAll(Split(reference[2..])));
      if target.Some? && target.value.Obj? then Some((target.value, document)) else None
    else if reference in registry then Some((registry[reference], registry[reference]))
    else None
  }

  // ---------- _enum_type ----------

  /** `_json_type`. */
  function JsonType(j: Json): Option<string> {
    match j
    case Str(_) => Some("string")
    case Bool(_) => Some("boolean")
    case Int(_) => Some("integer")
    case Null => Some("null")
    case _ => None
  }

  /** `_enum_type`: the one type all members have. */
  function EnumType(j: Json): Option<string> {
    if !j.Arr? || j.items == [] then None
    else
      var first := JsonType(j.items[0]);
      if forall i | 0 <= i < |j.items| :: JsonType(j.items[i]) == first then first else None
  }

  // ---------- _project ----------

  /** Every reference that can be met while projecting is a string of `universe`. */
  ghost predicate Known(universe: set<string>, document: Json, registry: Registry) {
    && document.Obj? && Strings(document) <= universe
    && forall k :: k in registry ==> registry[k].Obj? && Strings(registry[k]) <= universe
  }

  ghost function Unseen(universe: set<string>, stack: seq<string>): nat {
    |universe - set r | r in stack|
  }

  lemma PushReference(universe: set<string>, stack: seq<string>, reference: string)
    requires reference in universe && reference !in stack
    ensures Unseen(universe, stack + [reference]) < Unseen(universe, stack)
  {
    var before := universe - set r | r in stack;
    var after := universe - set r | r in stack + [reference];
    assert after == before - {reference};
  }

  lemma {:induction false} FollowStaysKnown(universe: set<string>, target: Json, tokens: seq<string>)
    requires Strings(target) <= universe && Follow(target, tokens).Some?
    ensures Strings(Follow(target, tokens).value) <= universe
  {
    if tokens != [] {
      FollowStaysKnown(universe, target.fields[KeyOf(tokens[0])], tokens[1..]);
    }
  }

  lemma ResolveStaysKnown(universe: set<string>, reference: string, document: Json, registry: Registry)
    requires Known(universe, document, registry) && Resolve(reference, document, registry).Some?
    ensures var (target, targetDocument) := Resolve(reference, document, registry).value;
      target.Obj? && Strings(target) <= universe && Known(universe, targetDocument, registry)
  {
    if IsLocal(reference) {
      FollowStaysKnown(universe, document, UnescapeAll(Split(reference[2..])));
    }
  }

  predicate HasReference(fields: map<Key, Json>) {
    Ref in fields && fields[Ref] != Null
  }

  function Reference(fields: map<Key, Json>): Option<string> {
    if HasReference(fields) && fields[Ref].Str? && fields[Ref].s != "" then Some(fields[Ref].s) else None
  }

  /** `_project`; `None` is `CodexOutputSchemaError`. */
  function Project(node: Json, document: Json, registry: Registry, stack: seq<string>, ghost universe: set<string>): (r: Option<Json>)
    requires Known(universe, document, registry) && Strings(node) <= universe
    ensures r.Some? && node.Obj? ==> r.value.Obj?
    decreases Unseen(universe, stack), node, 1
  {
    match node
    case Arr(items) =>
      if forall i | 0 <= i < |items| :: Project(items[i], document, registry, stack, universe).Some? then
        Some(Arr(seq(|items|, i requires 0 <= i < |items| => Project(items[i], document, registry, stack, universe).value)))
      else None
    case Obj(fields) =>
      if HasReference(fields) then
        var reference := Reference(fields);
        if reference.None? || reference.value in stack then None
        else
          var resolved := Resolve(reference.value, document, registry);
          if resolved.None? then None
          else
            ResolveStaysKnown(universe, reference.value, document, registry);
            assert reference.value in Strings(fields[Ref]);
            PushReference(universe, stack, reference.value);
            var expanded := Project(resolved.value.0, resolved.value.1, registry, stack + [reference.value], universe);
            var siblings := ProjectFields(fields - {Ref}, document, registry, stack, universe, node);
            if expanded.None? || siblings.None? then None
            else Merge(expanded.value.fields, siblings.value)
      else
        var projected := ProjectFields(fields, document, registry, stack, universe, node);
        if projected.None? then None else Some(Obj(projected.value))
    case _ => Some(node)
  }

  /** Sibling constraints are added to the expanded reference unless they contradict it. */
  function Merge(expanded: map<Key, Json>, siblings: map<Key, Json>): (r: Option<Json>)
    ensures r.Some? ==> r.value.Obj?
  {
    if exists k | k in siblings && k in expanded :: !PyEq(expanded[k], siblings[k]) then None
    else Some(Obj(expanded + siblings))
  }

  /** The keywords that are carried over one by one. */
  function Carried(fields: map<Key, Json>): set<Key> {
    set k | k in fields && !Omitted(k) && k != Const
  }

  /** The value of one carried keyword: `properties` is projected name by name. */
  function ProjectValue(key: Key, value: Json, document: Json, registry: Registry, stack: seq<string>,
                        ghost universe: set<string>): (r: Option<Json>)
    requires Known(universe, document, registry) && Strings(value) <= universe
    decreases Unseen(universe, stack), value, 2
  {
    if key != Properties then Project(value, document, registry, stack, universe)
    else if !value.Obj? then None
    else if forall p | p in value.fields :: Project(value.fields[p], document, registry, stack, universe).Some? then
      Some(Obj(map p | p in value.fields :: Project(value.fields[p], document, registry, stack, universe).value))
    else None
  }

  /** The reference-free branch of `_project`: the keywords of one schema object. */
  function ProjectFields(fields: map<Key, Json>, document: Json, registry: Registry, stack: seq<string>,
                         ghost universe: set<string>, ghost context: Json): (r: Option<map<Key, Json>>)
    requires Known(universe, document, registry)
    requires forall k :: k in fields ==> fields[k] < context && Strings(fields[k]) <= universe
    decreases Unseen(universe, stack), context, 0
  {
    if exists k | k in Carried(fields) :: ProjectValue(k, fields[k], document, registry, stack, universe).None? then None
    else if Const in fields && Enum in fields && !PyEq(fields[Enum], Arr([fields[Const]])) then None
    else
      var carried := map k | k in Carried(fields) :: ProjectValue(k, fields[k], document, registry, stack, universe).value;
      InferType(if Const in fields then carried[Enum := Arr([fields[Const]])] else carried)
  }

  function InferType(fields: map<Key, Json>): Option<map<Key, Json>> {
    if Enum in fields && Type !in fields then
      var inferred := EnumType(fields[Enum]);
      if inferred.None? then None else Some(fields[Type := Str(inferred.value)])
    else Some(fields)
  }

  // ---------- the same, as the source runs it ----------

  /** `_resolve_reference`: walk the document, one token after the other. */
  method ResolveReference(reference: string, document: Json, registry: Registry) returns (r: Option<(Json, Json)>)
    ensures r == Resolve(reference, document, registry)
  {
    if IsLocal(reference) {
      var target := document;
      var parts := Split(reference[2..]);
      var i := 0;
      while i < |parts|
        invariant 0 <= i <= |parts|
        invariant Follow(document, UnescapeAll(parts)) == Follow(target, UnescapeAll(parts[i..]))
      {
        var token := Unescape(parts[i]);
        assert UnescapeAll(parts[i..])[1..] == UnescapeAll(parts[i + 1..]);
        if !target.Obj? || KeyOf(token) !in target.fields {
          return None;
        }
        target := target.fields[KeyOf(token)];
        i := i + 1;
      }
      r := if target.Obj? then Some((target, document)) else None;
    } else if reference in registry {
      r := Some((registry[reference], registry[reference]));
    } else {
      r := None;
    }
  }

  /** `_project`. */
  method ProjectNode(node: Json, document: Json, registry: Registry, stack: seq<string>, ghost universe: set<string>)
    returns (r: Option<Json>)
    requires Known(universe, document, registry) && Strings(node) <= universe
    ensures r == Project(node, document, registry, stack, universe)
    decreases Unseen(universe, stack), node, 2
  {
    match node {
      case Arr(items) =>
        r := ProjectItems(items, document, registry, stack, universe, node);
      case Obj(fields) =>
        if HasReference(fields) {
          r := ProjectReference(fields, document, registry, stack, universe);
        } else {
          var projected := ProjectObject(fields, document, registry, stack, universe, node);
          r := if projected.None? then None else Some(Obj(projected.value));
        }
      case _ =>
        r := Some(node);
    }
  }

  /** The list comprehension of `_project`. */
  method ProjectItems(items: seq<Json>, document: Json, registry: Registry, stack: seq<string>, ghost universe: set<string>, ghost context: Json)
    returns (r: Option<Json>)
    requires Known(universe, document, registry) && context == Arr(items) && Strings(context) <= universe
    ensures r == Project(context, document, registry, stack, universe)
    decreases Unseen(universe, stack), context, 0
  {
    var out: seq<Json> := [];
    for i := 0 to |items|
      invariant |out| == i
      invariant forall j :: 0 <= j < i ==> Project(items[j], document, registry, stack, universe) == Some(out[j])
    {
      var item := ProjectNode(items[i], document, registry, stack, universe);
      if item.None? {
        return None;
      }
      out := out + [item.value];
    }
    r := Some(Arr(out));
    assert out == Project(context, document, registry, stack, universe).value.items;
  }

  /** The `$ref` branch: expand the target, project the siblings, add them one by one. */
  method ProjectReference(fields: map<Key, Json>, document: Json, registry: Registry, stack: seq<string>, ghost universe: set<string>)
    returns (r: Option<Json>)
    requires Known(universe, document, registry) && Strings(Obj(fields)) <= universe && HasReference(fields)
    ensures r == Project(Obj(fields), document, registry, stack, universe)
    decreases Unseen(universe, stack), Obj(fields), 1
  {
    var reference := Reference(fields);
    if reference.None? || reference.value in stack {
      return None;
    }
    var resolved := ResolveReference(reference.value, document, registry);
    if resolved.None? {
      return None;
    }
    var (target, targetDocument) := resolved.value;
    ResolveStaysKnown(universe, reference.value, document, registry);
    assert reference.value in Strings(fields[Ref]);
    PushReference(universe, stack, reference.value);
    var expanded := ProjectNode(target, targetDocument, registry, stack + [reference.value], universe);
    if expanded.None? {
      return None;
    }
    var siblings := ProjectObject(fields - {Ref}, document, registry, stack, universe, Obj(fields));
    if siblings.None? {
      return None;
    }
    r := AddSiblings(expanded.value.fields, siblings.value);
  }

  /** The loop over `sibling_projection`. */
  method AddSiblings(expanded: map<Key, Json>, siblings: map<Key, Json>) returns (r: Option<Json>)
    ensures r == Merge(expanded, siblings)
  {
    var out := expanded;
    var todo := siblings.Keys;
    while todo != {}
      invariant todo <= siblings.Keys
      invariant forall k :: k in siblings && k !in todo ==> !(k in expanded && !PyEq(expanded[k], siblings[k]))
      invariant out.Keys == expanded.Keys + (siblings.Keys - todo)
      invariant forall k :: k in out ==> out[k] == if k in siblings && k !in todo then siblings[k] else expanded[k]
      decreases todo
    {
      var k :| k in todo;
      if k in out && !PyEq(out[k], siblings[k]) {
        return None;
      }
      out := out[k := siblings[k]];
      todo := todo - {k};
    }
    assert out == expanded + siblings;
    r := Some(Obj(out));
  }

  /** The loop over `node.items()`. */
  method ProjectObject(fields: map<Key, Json>, document: Json, registry: Registry, stack: seq<string>,
                       ghost universe: set<string>, ghost context: Json)
    returns (r: Option<map<Key, Json>>)
    requires Known(universe, document, registry)
    requires forall k :: k in fields ==> fields[k] < context && Strings(fields[k]) <= universe
    ensures r == ProjectFields(fields, document, registry, stack, universe, context)
    decreases Unseen(universe, stack), context, 0
  {
    hide Project;
    hide PyEq;
    hide Strings;
    hide ProjectValue;
    hide ProjectFields;
    hide InferType;
    var result: map<Key, Json> := map[];
    var todo := Carried(fields);
    while todo != {}
      invariant todo <= Carried(fields)
      invariant result.Keys == Carried(fields) - todo
      invariant forall k :: k in result ==> ProjectValue(k, fields[k], document, registry, stack, universe) == Some(result[k])
      decreases todo
    {
      var k :| k in todo;
      var value := ProjectMember(k, fields[k], document, registry, stack, universe);
      if value.None? {
        OneRefused(fields, document, registry, stack, universe, context, k);
        return None;
      }
      result := result[k := value.value];
      todo := todo - {k};
    }
    AllCarried(fields, document, registry, stack, universe, context, result);
    if Const in fields && Enum in fields && !PyEq(fields[Enum], Arr([fields[Const]])) {
      return None;
    }
    if Const in fields {
      result := result[Enum := Arr([fields[Const]])];
    }
    r := InferType(result);
  }

  lemma OneRefused(fields: map<Key, Json>, document: Json, registry: Registry, stack: seq<string>,
                   universe: set<string>, context: Json, k: Key)
    requires Known(universe, document, registry)
    requires forall k :: k in fields ==> fields[k] < context && Strings(fields[k]) <= universe
    requires k in Carried(fields) && ProjectValue(k, fields[k], document, registry, stack, universe).None?
    ensures ProjectFields(fields, document, registry, stack, universe, context).None?
  {
    hide Project;
  }

  lemma AllCarried(fields: map<Key, Json>, document: Json, registry: Registry, stack: seq<string>,
                   universe: set<string>, context: Json, result: map<Key, Json>)
    requires Known(universe, document, registry)
    requires forall k :: k in fields ==> fields[k] < context && Strings(fields[k]) <= universe
    requires result.Keys == Carried(fields)
    requires forall k :: k in result ==> ProjectValue(k, fields[k], document, registry, stack, universe) == Some(result[k])
    ensures ProjectFields(fields, document, registry, stack, universe, context)
         == if Const in fields && Enum in fields && !PyEq(fields[Enum], Arr([fields[Const]])) then None
            else InferType(if Const in fields then result[Enum := Arr([fields[Const]])] else result)
  {
    hide Project;
    hide PyEq;
    hide InferType;
    hide ProjectValue;
    var carried := map k | k in Carried(fields) :: ProjectValue(k, fields[k], document, registry, stack, universe).value;
    assert carried == result;
  }

  /** One iteration of that loop. */
  method ProjectMember(k: Key, value: Json, document: Json, registry: Registry, stack: seq<string>, ghost universe: set<string>)
    returns (r: Option<Json>)
    requires Known(universe, document, registry) && Strings(value) <= universe
    ensures r == ProjectValue(k, value, document, registry, stack, universe)
    decreases Unseen(universe, stack), value, 4
  {
    if k == Properties {
      r := ProjectProperties(value, document, registry, stack, universe);
    } else {
      r := ProjectNode(value, document, registry, stack, universe);
    }
  }

  /** The dictionary comprehension over `properties`. */
  method ProjectProperties(value: Json, document: Json, registry: Registry, stack: seq<string>, ghost universe: set<string>)
    returns (r: Option<Json>)
    requires Known(universe, document, registry) && Strings(value) <= universe
    ensures r == ProjectValue(Properties, value, document, registry, stack, universe)
    decreases Unseen(universe, stack), value, 2
  {
    if !value.Obj? {
      return None;
    }
    var result: map<Key, Json> := map[];
    var todo := value.fields.Keys;
    while todo != {}
      invariant todo <= value.fields.Keys
      invariant result.Keys == value.fields.Keys - todo
      invariant forall p :: p in result ==> Project(value.fields[p], document, registry, stack, universe) == Some(result[p])
      decreases todo
    {
      var p :| p in todo;
      var projected := ProjectNode(value.fields[p], document, registry, stack, universe);
      if projected.None? {
        return None;
      }
      result := result[p := projected.value];
      todo := todo - {p};
    }
    ghost var expected := ProjectValue(Properties, value, document, registry, stack, universe);
    assert expected.Some? && result == expected.value.fields;
    r := Some(Obj(result));
  }

  // ---------- build_codex_output_schema ----------

  /** `_assert_strict_objects`: every object type is closed and requires all its properties. */
  predicate StrictObjects(node: Json) {
    match node
    case Arr(items) => forall i | 0 <= i < |items| :: StrictObjects(items[i])
    case Obj(fields) =>
      && (Type in fields && fields[Type] == Str("object") ==> StrictObject(fields))
      && forall k | k in fields :: StrictObjects(fields[k])
    case _ => true
  }

  predicate StrictObject(fields: map<Key, Json>) {
    && Properties in fields && fields[Properties].Obj?
    && AdditionalProperties in fields && fields[AdditionalProperties] == Bool(false)
    && Required in fields && fields[Required].Arr?
    && (forall i | 0 <= i < |fields[Required].items| ::
          fields[Required].items[i].Str? && KeyOf(fields[Required].items[i].s) in fields[Properties].fields)
    && (forall p | p in fields[Properties].fields ::
          exists i | 0 <= i < |fields[Required].items| ::
            fields[Required].items[i].Str? && KeyOf(fields[Required].items[i].s) == p)
  }

  /** The registry of `build_codex_output_schema`: the schema is also known by its `$id`. */
  function RegistryOf(canonical: Json, external: Registry): Registry {
    if canonical.Obj? && Id in canonical.fields && canonical.fields[Id].Str? && canonical.fields[Id].s !in external
    then external[canonical.fields[Id].s := canonical]
    else external
  }

  ghost function Universe(document: Json, registry: Registry): set<string> {
    Strings(document) + set k, s | k in registry && s in Strings(registry[k]) :: s
  }

  /** `build_codex_output_schema`. */
  function Build(canonical: Json, external: Registry): Option<Json>
    requires canonical.Obj? && forall k :: k in external ==> external[k].Obj?
  {
    var registry := RegistryOf(canonical, external);
    var projected := Project(canonical, canonical, registry, [], Universe(canonical, registry));
    if projected.Some? && StrictObjects(projected.value) then projected else None
  }

  // ---------- local pointers ----------

  /** The encoding of a reference token: `~` becomes `~0`, `/` becomes `~1` (RFC 6901, section 3). */
  function Escape(token: string): string {
    if token == "" then ""
    else (if token[0] == '~' then "~0" else if token[0] == '/' then "~1" else [token[0]]) + Escape(token[1..])
  }

  function Pointer(tokens: seq<string>): string
    requires tokens != []
  {
    if |tokens| == 1 then Escape(tokens[0]) else Escape(tokens[0]) + "/" + Pointer(tokens[1..])
  }

  /** Only `~` is still escaped once `~1` has been read. */
  function EscapeTilde(token: string): string {
    if token == "" then ""
    else (if token[0] == '~' then "~0" else [token[0]]) + EscapeTilde(token[1..])
  }

  lemma {:induction false} ReadSlashes(token: string)
    ensures ReplaceEscape(Escape(token), '1', '/') == EscapeTilde(token)
  {
    if token != "" {
      ReadSlashes(token[1..]);
      var rest := Escape(token[1..]);
      if token[0] == '~' {
        assert Escape(token) == "~0" + rest;
        assert Escape(token)[1..] == "0" + rest;
        assert ("0" + rest)[1..] == rest;
        assert ReplaceEscape("0" + rest, '1', '/') == "0" + ReplaceEscape(rest, '1', '/');
        assert ReplaceEscape(Escape(token), '1', '/') == "~" + ("0" + EscapeTilde(token[1..]));
      } else if token[0] == '/' {
        assert Escape(token)[2..] == rest;
      } else {
        assert Escape(token)[1..] == rest;
      }
    }
  }

  lemma {:induction false} ReadTildes(token: string)
    ensures ReplaceEscape(EscapeTilde(token), '0', '~') == token
  {
    if token != "" {
      ReadTildes(token[1..]);
      var rest := EscapeTilde(token[1..]);
      if token[0] == '~' {
        assert EscapeTilde(token)[2..] == rest;
      } else {
        assert EscapeTilde(token)[1..] == rest;
      }
      assert token == [token[0]] + token[1..];
    }
  }

  lemma UnescapeInvertsEscape(token: string)
    ensures Unescape(Escape(token)) == token
  {
    ReadSlashes(token);
    ReadTildes(token);
  }

  lemma {:induction false} EscapedHasNoSlash(token: string)
    ensures '/' !in Escape(token)
  {
    if token != "" {
      EscapedHasNoSlash(token[1..]);
    }
  }

  lemma {:induction false} SplitPointer(tokens: seq<string>)
    requires tokens != []
    ensures UnescapeAll(Split(Pointer(tokens))) == tokens
  {
    EscapedHasNoSlash(tokens[0]);
    SplitSegment(Escape(tokens[0]));
    UnescapeInvertsEscape(tokens[0]);
    if |tokens| > 1 {
      SplitPointer(tokens[1..]);
      SplitJoin(Escape(tokens[0]), Pointer(tokens[1..]));
      var parts := Split(Pointer(tokens[1..]));
      assert ([Escape(tokens[0])] + parts)[1..] == parts;
    }
    assert tokens == [tokens[0]] + tokens[1..];
  }

  /** A local reference resolves to the member its encoded tokens name, and to nothing else. */
  lemma LocalPointersFollowTokens(tokens: seq<string>, document: Json, registry: Registry)
    requires tokens != []
    ensures Resolve("#/" + Pointer(tokens), document, registry)
         == var target := Follow(document, tokens);
            if target.Some? && target.value.Obj? then Some((target.value, document)) else None
  {
    var reference := "#/" + Pointer(tokens);
    assert reference[2..] == Pointer(tokens);
    SplitPointer(tokens);
  }
}
