/** What the translation promises, and where that ends. */
module SchemaFidelity {
  import opened JsonValues
  import opened JsonSchemaToZod

  // ---- nothing is stripped ---------------------------------------------------------------

  lemma {:induction false} ParseFirstKeeps(options: seq<Zod>, v: Json)
    requires forall o | o in options :: KeepsKeys(o)
    requires ParseFirst(options, v).Some?
    ensures ParseFirst(options, v).value == v
    decreases options
  {
    if Parse(options[0], v).Some? {
      ParseKeeps(options[0], v);
    } else {
      ParseFirstKeeps(options[1..], v);
    }
  }

  /** A type without a stripping object returns every value it accepts unchanged. */
  lemma {:induction false} ParseKeeps(z: Zod, v: Json)
    requires KeepsKeys(z) && Parse(z, v).Some?
    ensures Parse(z, v).value == v
    decreases z
  {
    match z
    case ZUnion(options) => ParseFirstKeeps(options, v);
    case ZArray(element) =>
      forall i | 0 <= i < |v.items| ensures Parse(element, v.items[i]).value == v.items[i] {
        ParseKeeps(element, v.items[i]);
      }
      assert Parse(z, v).value.items == v.items;
    case ZObject(shape, loose) =>
      forall k | k in v.fields && k in shape ensures Parse(shape[k], v.fields[k]).value == v.fields[k] {
        ParseKeeps(shape[k], v.fields[k]);
      }
      assert Parse(z, v).value.fields == v.fields;
    case ZOptional(inner) => ParseKeeps(inner, v);
    case ZDescribed(target, _) => ParseKeeps(target, v);
    case _ =>
  }

  lemma {:induction false} TypeNameKeepsKeys(name: string, node: Json)
    requires node.Obj?
    ensures KeepsKeys(TypeNameToZod(name, node))
    decreases node, 1
  {
    if name == "array" && "items" in node.fields {
      NodeKeepsKeys(node.fields["items"]);
    } else if name == "object" {
      ShapeKeepsKeys(node);
    }
  }

  lemma {:induction false} ShapeKeepsKeys(schema: Json)
    ensures forall k | k in Shape(schema) :: KeepsKeys(Shape(schema)[k])
    decreases schema, 0
  {
    forall k | k in Shape(schema) ensures KeepsKeys(Shape(schema)[k]) {
      NodeKeepsKeys(schema.fields["properties"].fields[k]);
    }
  }

  lemma {:induction false} KeywordsKeepKeys(node: Json)
    requires node.Obj?
    ensures KeepsKeys(KeywordsToZod(node))
    decreases node, 2
  {
    var fields := node.fields;
    var combiner := if "anyOf" in fields && fields["anyOf"].Arr? then "anyOf" else "oneOf";
    if ("enum" in fields && fields["enum"].Arr? && |fields["enum"].items| > 0) || "const" in fields {
    } else if combiner in fields && fields[combiner].Arr? && |fields[combiner].items| > 0 {
      var variants := fields[combiner].items;
      forall i | 0 <= i < |variants| ensures KeepsKeys(NodeToZod(variants[i])) { NodeKeepsKeys(variants[i]); }
    } else if "type" in fields && fields["type"].Arr? {
      var names := Strings(fields["type"].items);
      if names != [] {
        forall i | 0 <= i < |names|
          ensures KeepsKeys(TypeNameToZod(names[i], node)) { TypeNameKeepsKeys(names[i], node); }
      }
    } else if "type" in fields && fields["type"].Str? {
      TypeNameKeepsKeys(fields["type"].s, node);
    }
  }

  /** Every type the translation produces keeps unlisted keys, at every depth. */
  lemma {:induction false} NodeKeepsKeys(node: Json)
    ensures KeepsKeys(NodeToZod(node))
    decreases node, 3
  {
    if node.Obj? { KeywordsKeepKeys(node); }
  }

  // ---- nothing is narrowed -----------------------------------------------------------------

  /** Every integral number inside v is one JavaScript can represent exactly. */
  predicate SafeIntegers(v: Json) {
    match v
    case Num(n) => IsIntegral(n) ==> IsSafe(n)
    case Arr(items) => forall x | x in items :: SafeIntegers(x)
    case Obj(fields) => forall k | k in fields :: SafeIntegers(fields[k])
    case _ => true
  }

  lemma {:induction false} ParseFirstAccepts(options: seq<Zod>, v: Json)
    ensures ParseFirst(options, v).Some? <==> exists o | o in options :: Parse(o, v).Some?
    decreases options
  {
    if options != [] {
      ParseFirstAccepts(options[1..], v);
      if ParseFirst(options[1..], v).Some? {
        var o :| o in options[1..] && Parse(o, v).Some?;
        assert o in options;
      }
      assert options[0] in options;
    }
  }

  lemma {:induction false} UnionAccepts(members: seq<Zod>, v: Json, i: nat)
    requires i < |members| && Parse(members[i], v).Some?
    ensures Parse(UnionOf(members), v).Some?
  {
    assert members[i] in members;
    ParseFirstAccepts(members, v);
  }

  lemma {:induction false} StringsAll(values: seq<Json>)
    ensures |Strings(values)| <= |values|
    ensures |Strings(values)| == |values| ==> forall i | 0 <= i < |values| :: values[i] == Str(Strings(values)[i])
    ensures forall s :: s in Strings(values) <==> Str(s) in values
    decreases values
  {
    if values != [] {
      StringsAll(values[1..]);
      assert values == [values[0]] + values[1..];
    }
  }

  /** An enum type accepts every member of the enum. */
  lemma {:induction false} EnumAccepts(values: seq<Json>, v: Json)
    requires v in values
    ensures Parse(EnumToZod(values), v).Some?
  {
    StringsAll(values);
    var i :| 0 <= i < |values| && values[i] == v;
    if |Strings(values)| != |values| && forall x | x in values :: IsLiteral(x) {
      UnionAccepts(seq(|values|, k requires 0 <= k < |values| => ZLiteral(values[k])), v, i);
    }
  }

  lemma {:induction false} TypeNameAccepts(name: string, node: Json, v: Json)
    requires node.Obj? && Valid(node, v) && SafeIntegers(v) && HasType(name, v)
    ensures Parse(TypeNameToZod(name, node), v).Some?
    decreases node, 1
  {
    if name == "array" {
      if "items" in node.fields && node.fields["items"].Obj? {
        forall x | x in v.items ensures Parse(NodeToZod(node.fields["items"]), x).Some? {
          NeverNarrows(node.fields["items"], x);
        }
      }
    } else if name == "object" {
      ShapeAccepts(node, v);
    }
  }

  lemma {:induction false} ShapeAccepts(schema: Json, v: Json)
    requires v.Obj? && Valid(schema, v) && SafeIntegers(v)
    ensures Parse(ZObject(Shape(schema), true), v).Some?
    decreases schema, 0
  {
    var shape := Shape(schema);
    forall k | k in shape
      ensures if k in v.fields then Parse(shape[k], v.fields[k]).Some? else AcceptsMissing(shape[k])
    {
      if k in v.fields {
        NeverNarrows(schema.fields["properties"].fields[k], v.fields[k]);
      } else if Field(schema, "required").Some? && schema.fields["required"].Arr? {
        StringsAll(schema.fields["required"].items);
      }
    }
  }

  lemma {:induction false} VariantsAccept(node: Json, combiner: string, v: Json)
    requires node.Obj? && Valid(node, v) && SafeIntegers(v) && combiner in ["anyOf", "oneOf"]
    requires combiner in node.fields && node.fields[combiner].Arr? && |node.fields[combiner].items| > 0
    ensures
      var variants := node.fields[combiner].items;
      Parse(UnionOf(seq(|variants|, i requires 0 <= i < |variants| => NodeToZod(variants[i]))), v).Some?
    decreases node, 2
  {
    var variants := node.fields[combiner].items;
    var i :| 0 <= i < |variants| && Valid(variants[i], v);
    NeverNarrows(variants[i], v);
    UnionAccepts(seq(|variants|, k requires 0 <= k < |variants| => NodeToZod(variants[k])), v, i);
  }

  lemma {:induction false} TypeListAccepts(node: Json, v: Json)
    requires node.Obj? && Valid(node, v) && SafeIntegers(v)
    requires "type" in node.fields && node.fields["type"].Arr?
    ensures
      var names := Strings(node.fields["type"].items);
      names != [] && Parse(UnionOf(seq(|names|, i requires 0 <= i < |names| => TypeNameToZod(names[i], node))), v).Some?
    decreases node, 2
  {
    var names := Strings(node.fields["type"].items);
    StringsAll(node.fields["type"].items);
    var name :| name in node.fields["type"].items && name.Str? && HasType(name.s, v);
    assert name.s in names;
    var i :| 0 <= i < |names| && names[i] == name.s;
    TypeNameAccepts(name.s, node, v);
    UnionAccepts(seq(|names|, i requires 0 <= i < |names| => TypeNameToZod(names[i], node)), v, i);
  }

  /** The converted type accepts every value the schema node accepts. */
  lemma {:induction false} NeverNarrows(node: Json, v: Json)
    requires Valid(node, v) && SafeIntegers(v)
    ensures Parse(NodeToZod(node), v).Some?
    decreases node, 4
  {
    if node.Obj? { KeywordsAccept(node, v); }
  }

  lemma {:induction false} KeywordsAccept(node: Json, v: Json)
    requires node.Obj? && Valid(node, v) && SafeIntegers(v)
    ensures Parse(KeywordsToZod(node), v).Some?
    decreases node, 3
  {
    var fields := node.fields;
    if "enum" in fields && fields["enum"].Arr? && |fields["enum"].items| > 0 {
      EnumAccepts(fields["enum"].items, v);
    } else if "const" in fields {
      EnumAccepts([fields["const"]], v);
    } else {
      var combiner := if "anyOf" in fields && fields["anyOf"].Arr? then "anyOf" else "oneOf";
      if combiner in fields && fields[combiner].Arr? && |fields[combiner].items| > 0 {
        VariantsAccept(node, combiner, v);
      } else if "type" in fields && fields["type"].Arr? {
        TypeListAccepts(node, v);
      } else if "type" in fields && fields["type"].Str? {
        TypeNameAccepts(fields["type"].s, node, v);
      }
    }
  }

  /** The arguments restricted to what the top-level object lets through. */
  function Passed(arguments: Json, schema: Json, loose: bool): Json
    requires arguments.Obj?
  {
    Obj(map k | k in arguments.fields && (loose || k in Shape(schema)) :: arguments.fields[k])
  }

  /**
   The promise for a forwarded tool. The converter hands out a raw shape, and whoever wraps it
   decides on unlisted keys. Either way, arguments the schema accepts are accepted, and every
   listed one arrives exactly as given; all of them arrive exactly when the wrapper is loose
   or the schema lists them.
   */
  lemma {:induction false} ShapeFaithful(schema: Json, arguments: Json, loose: bool)
    requires arguments.Obj? && Valid(schema, arguments) && SafeIntegers(arguments)
    ensures Parse(ZObject(Shape(schema), loose), arguments) == Some(Passed(arguments, schema, loose))
    ensures Passed(arguments, schema, loose) == arguments <==> loose || arguments.fields.Keys <= Shape(schema).Keys
  {
    ShapeAccepts(schema, arguments);
    ShapeKeepsKeys(schema);
    ObjectPasses(Shape(schema), arguments, loose);
    PassedAll(arguments, schema, loose);
  }

  lemma {:induction false} ObjectPasses(shape: map<string, Zod>, v: Json, loose: bool)
    requires (forall k | k in shape :: KeepsKeys(shape[k])) && Parse(ZObject(shape, true), v).Some?
    ensures Parse(ZObject(shape, loose), v) == Some(Obj(map k | k in v.fields && (loose || k in shape) :: v.fields[k]))
  {
    forall k | k in v.fields && k in shape ensures Parse(shape[k], v.fields[k]) == Some(v.fields[k]) {
      ParseKeeps(shape[k], v.fields[k]);
    }
    assert Parse(ZObject(shape, loose), v).value.fields == map k | k in v.fields && (loose || k in shape) ::
           v.fields[k];
  }

  lemma {:induction false} PassedAll(arguments: Json, schema: Json, loose: bool)
    requires arguments.Obj?
    ensures Passed(arguments, schema, loose) == arguments <==> loose || arguments.fields.Keys <= Shape(schema).Keys
  {
    var passed := Passed(arguments, schema, loose);
    if loose || arguments.fields.Keys <= Shape(schema).Keys {
      assert passed.fields == arguments.fields;
    } else {
      var k :| k in arguments.fields && k !in Shape(schema);
      assert k !in passed.fields;
    }
  }

  /** Under the stripping wrapper an argument the schema allows but does not list is lost. */
  lemma {:induction false} UnlistedArgumentIsStripped()
    ensures
      var schema, arguments := Typed("object"), Obj(map["extra" := Null]);
      && Valid(schema, arguments) && SafeIntegers(arguments)
      && Parse(ZObject(Shape(schema), false), arguments) == Some(Obj(map[]))
  {
    var schema, arguments := Typed("object"), Obj(map["extra" := Null]);
    assert Shape(schema) == map[];
    ShapeFaithful(schema, arguments, false);
    assert Passed(arguments, schema, false).fields == map[];
  }

  /** The same for one node anywhere in a schema. */
  lemma {:induction false} NodeFaithful(node: Json, v: Json)
    requires Valid(node, v) && SafeIntegers(v)
    ensures Parse(NodeToZod(node), v) == Some(v)
  {
    NeverNarrows(node, v);
    NodeKeepsKeys(node);
    ParseKeeps(NodeToZod(node), v);
  }

  // ---- nothing is widened where every construct is understood -------------------------------

  /** Of the keywords that constrain a value, only the given ones occur. */
  predicate Only(fields: map<string, Json>, keywords: set<string>) {
    forall k | k in fields && k in {"type", "enum", "const", "anyOf", "oneOf", "items", "required", "properties"} ::
      k in keywords
  }

  predicate KnownType(name: string) {
    name in ["string", "number", "integer", "boolean", "null", "array", "object"]
  }

  predicate TypeSupported(t: Json) {
    || (t.Str? && KnownType(t.s))
    || (t.Arr? && t.items != [] && forall name | name in t.items :: name.Str? && KnownType(name.s))
  }

  /** Every required key is a listed property whose type does not let it be missing. */
  predicate RequiredSupported(node: Json) {
    forall k | k in RequiredNames(node) :: k in Shape(node) && !AcceptsMissing(Shape(node)[k])
  }

  /** The schemas the translation understands completely. */
  predicate Supported(node: Json) {
    match node
    case Bool(b) => b
    case Obj(fields) =>
      if "enum" in fields then
        Only(fields, {"enum"}) && fields["enum"].Arr? && fields["enum"].items != [] &&
        forall x | x in fields["enum"].items :: IsLiteral(x)
      else if "const" in fields then Only(fields, {"const"}) && IsLiteral(fields["const"])
      else if "anyOf" in fields then
        Only(fields, {"anyOf"}) && fields["anyOf"].Arr? && fields["anyOf"].items != [] &&
        forall x | x in fields["anyOf"].items :: Supported(x)
      else if "type" in fields then
        && Only(fields, {"type", "items", "required", "properties"})
        && TypeSupported(fields["type"])
        && ("items" in fields ==> !fields["items"].Arr? && Supported(fields["items"]))
        && RequiredSupported(node)
        && ("properties" in fields && fields["properties"].Obj? ==>
              forall k | k in fields["properties"].fields :: Supported(fields["properties"].fields[k]))
      else Only(fields, {})
    case _ => true
  }

  lemma {:induction false} UnionParses(members: seq<Zod>, v: Json) returns (i: nat)
    requires members != [] && Parse(UnionOf(members), v).Some?
    ensures i < |members| && Parse(members[i], v).Some?
  {
    ParseFirstAccepts(members, v);
    i :| 0 <= i < |members| && Parse(members[i], v).Some?;
  }

  lemma {:induction false} EnumOnly(values: seq<Json>, v: Json)
    requires values != [] && (forall x | x in values :: IsLiteral(x)) && Parse(EnumToZod(values), v).Some?
    ensures v in values
  {
    StringsAll(values);
    if |Strings(values)| != |values| {
      var i := UnionParses(seq(|values|, k requires 0 <= k < |values| => ZLiteral(values[k])), v);
    }
  }

  lemma {:induction false} TypeNameOnly(name: string, node: Json, v: Json)
    requires node.Obj? && KnownType(name) && RequiredSupported(node)
    requires "items" in node.fields ==> !node.fields["items"].Arr? && Supported(node.fields["items"])
    requires "properties" in node.fields && node.fields["properties"].Obj? ==>
               forall k | k in node.fields["properties"].fields :: Supported(node.fields["properties"].fields[k])
    requires Parse(TypeNameToZod(name, node), v).Some?
    ensures HasType(name, v) && ItemsAllow(node, v) && PropertiesAllow(node, v)
    ensures RequiredAllows(Field(node, "required"), v)
    decreases node, 1
  {
    if name == "array" {
      if "items" in node.fields {
        forall x | x in v.items ensures Valid(node.fields["items"], x) { WidensNothing(node.fields["items"], x); }
      }
    } else if name == "object" {
      ShapeOnly(node, v);
    }
  }

  lemma {:induction false} ShapeOnly(node: Json, v: Json)
    requires node.Obj? && RequiredSupported(node) && Parse(ZObject(Shape(node), true), v).Some?
    requires "properties" in node.fields && node.fields["properties"].Obj? ==>
               forall k | k in node.fields["properties"].fields :: Supported(node.fields["properties"].fields[k])
    ensures v.Obj? && PropertiesAllow(node, v) && RequiredAllows(Field(node, "required"), v)
    decreases node, 0
  {
    if "properties" in node.fields && node.fields["properties"].Obj? {
      var properties := node.fields["properties"].fields;
      forall k | k in properties && k in v.fields ensures Valid(properties[k], v.fields[k]) {
        PropertyParsed(node, v, k);
        WidensNothing(properties[k], v.fields[k]);
      }
    }
    RequiredOnly(node, v);
  }

  lemma {:induction false} PropertyParsed(node: Json, v: Json, k: string)
    requires node.Obj? && "properties" in node.fields && node.fields["properties"].Obj?
    requires k in node.fields["properties"].fields && Parse(ZObject(Shape(node), true), v).Some? && k in v.fields
    ensures Parse(NodeToZod(node.fields["properties"].fields[k]), v.fields[k]).Some?
  {
    assert k in Shape(node);
  }

  lemma {:induction false} RequiredOnly(node: Json, v: Json)
    requires node.Obj? && RequiredSupported(node) && Parse(ZObject(Shape(node), true), v).Some?
    ensures RequiredAllows(Field(node, "required"), v)
  {
    if Field(node, "required").Some? && node.fields["required"].Arr? {
      StringsAll(node.fields["required"].items);
      forall k | k in node.fields["required"].items && k.Str? ensures k.s in v.fields {
        assert k == Str(k.s);
        assert k.s in RequiredNames(node);
      }
    }
  }

  /** A fully understood schema accepts every value its converted type accepts. */
  lemma {:induction false} WidensNothing(node: Json, v: Json)
    requires Supported(node) && Parse(NodeToZod(node), v).Some?
    ensures Valid(node, v)
    decreases node, 3
  {
    if node.Obj? {
      if "type" in node.fields && "enum" !in node.fields && "const" !in node.fields && "anyOf" !in node.fields {
        TypedWidensNothing(node, v);
      } else {
        UntypedWidensNothing(node, v);
      }
    }
  }

  lemma {:induction false} UntypedWidensNothing(node: Json, v: Json)
    requires node.Obj? && Supported(node) && Parse(KeywordsToZod(node), v).Some?
    requires "type" !in node.fields || "enum" in node.fields || "const" in node.fields || "anyOf" in node.fields
    ensures Valid(node, v)
    decreases node, 2
  {
    KeywordsDiffer();
    var fields := node.fields;
    if "enum" in fields {
      EnumOnly(fields["enum"].items, v);
    } else if "const" in fields {
      EnumOnly([fields["const"]], v);
    } else if "anyOf" in fields {
      var variants := fields["anyOf"].items;
      var i := UnionParses(seq(|variants|, k requires 0 <= k < |variants| => NodeToZod(variants[k])), v);
      WidensNothing(variants[i], v);
    }
  }

  lemma {:induction false} TypedWidensNothing(node: Json, v: Json)
    requires node.Obj? && Supported(node) && Parse(KeywordsToZod(node), v).Some?
    requires "type" in node.fields && "enum" !in node.fields && "const" !in node.fields && "anyOf" !in node.fields
    ensures Valid(node, v)
    decreases node, 2
  {
    KeywordsDiffer();
    var t := node.fields["type"];
    if t.Str? {
      TypeNameOnly(t.s, node, v);
    } else {
      var name := TypeListParsed(node, v);
      TypeNameOnly(name, node, v);
    }
  }

  lemma {:induction false} TypeListParsed(node: Json, v: Json) returns (name: string)
    requires node.Obj? && Parse(KeywordsToZod(node), v).Some? &&
             Only(node.fields, {"type", "items", "required", "properties"})
    requires "type" in node.fields && TypeSupported(node.fields["type"]) && node.fields["type"].Arr?
    ensures Str(name) in node.fields["type"].items && KnownType(name) && Parse(TypeNameToZod(name, node), v).Some?
  {
    KeywordsDiffer();
    var t := node.fields["type"];
    StringsAll(t.items);
    var names := Strings(t.items);
    assert Str(t.items[0].s) in t.items;
    var i := UnionParses(seq(|names|, k requires 0 <= k < |names| => TypeNameToZod(names[k], node)), v);
    assert names[i] in names;
    name := names[i];
  }

  /** On those schemas the converted type decides validity. */
  lemma {:induction false} ExactOnSupported(node: Json, v: Json)
    requires Supported(node) && SafeIntegers(v)
    ensures Parse(NodeToZod(node), v).Some? <==> Valid(node, v)
  {
    if Valid(node, v) { NeverNarrows(node, v); }
    if Parse(NodeToZod(node), v).Some? { WidensNothing(node, v); }
  }

  // ---- exactly where the promise ends: integers beyond the safe range ----------------------

  /** A schema for every value nested at most `depth` deep over the given keys and fractions. */
  function Strict(depth: nat, keys: set<string>, fractions: seq<Json>): Json {
    Obj(map["anyOf" :=
      Arr(Leaves(fractions) + if depth == 0 then [] else Branches(Strict(depth - 1, keys, fractions), keys))])
  }

  function Typed(name: string): Json { Obj(map["type" := Str(name)]) }

  function Leaves(fractions: seq<Json>): seq<Json> {
    [Typed("integer"), Typed("string"), Typed("boolean"), Typed("null"), Obj(map["enum" := Arr([Str("")] + fractions)])]
  }

  function Branches(inner: Json, keys: set<string>): seq<Json> {
    [ Obj(map["type" := Str("array"), "items" := inner]),
      Obj(map["type" := Str("object"), "properties" := Obj(map k | k in keys :: inner)]) ]
  }

  predicate Fractions(fractions: seq<Json>) {
    forall f | f in fractions :: f.Num? && !IsIntegral(f.n)
  }

  predicate Fits(depth: nat, keys: set<string>, fractions: seq<Json>, v: Json)
    decreases v
  {
    match v
    case Num(n) => IsIntegral(n) || v in fractions
    case Arr(items) => depth > 0 && forall x | x in items :: Fits(depth - 1, keys, fractions, x)
    case Obj(fields) =>
      depth > 0 && fields.Keys <= keys && forall k | k in fields :: Fits(depth - 1, keys, fractions, fields[k])
    case _ => true
  }

  lemma {:induction false} FitsMore(d: nat, K: set<string>, F: seq<Json>, d': nat, K': set<string>, F': seq<Json>,
                                    v: Json)
    requires Fits(d, K, F, v) && d <= d' && K <= K' && forall f | f in F :: f in F'
    ensures Fits(d', K', F', v)
    decreases v
  {
    match v
    case Arr(items) =>
      forall x | x in items ensures Fits(d' - 1, K', F', x) { FitsMore(d - 1, K, F, d' - 1, K', F', x); }
    case Obj(fields) =>
      forall k | k in fields
        ensures Fits(d' - 1, K', F', fields[k]) { FitsMore(d - 1, K, F, d' - 1, K', F', fields[k]); }
    case _ =>
  }

  lemma {:induction false} FitsAll(v: Json, items: set<Json>) returns (d: nat, K: set<string>, F: seq<Json>)
    requires forall x | x in items :: x < v
    ensures Fractions(F) && forall x | x in items :: Fits(d, K, F, x)
    decreases v, 0, items
  {
    if items == {} {
      d, K, F := 0, {}, [];
    } else {
      var x :| x in items;
      var d1, K1, F1 := FitsSome(x);
      var d2, K2, F2 := FitsAll(v, items - {x});
      d, K, F := if d1 < d2 then d2 else d1, K1 + K2, F1 + F2;
      forall y | y in items ensures Fits(d, K, F, y) {
        if y == x { FitsMore(d1, K1, F1, d, K, F, y); } else { FitsMore(d2, K2, F2, d, K, F, y); }
      }
    }
  }

  lemma {:induction false} FitsSome(v: Json) returns (d: nat, K: set<string>, F: seq<Json>)
    ensures Fractions(F) && Fits(d, K, F, v)
    decreases v, 1
  {
    d, K, F := 0, {}, [];
    match v
    case Num(n) =>
      if !IsIntegral(n) { F := [v]; }
    case Arr(items) =>
      d, K, F := FitsAll(v, set x | x in items);
      d := d + 1;
    case Obj(fields) =>
      var d0, K0, F0 := FitsAll(v, fields.Values);
      d, K, F := d0 + 1, K0 + fields.Keys, F0;
      forall k | k in fields ensures Fits(d0, K, F, fields[k]) {
        assert fields[k] in fields.Values;
        FitsMore(d0, K0, F0, d0, K, F, fields[k]);
      }
    case _ =>
  }

  function LeafIndex(v: Json): nat {
    match v
    case Num(n) => if IsIntegral(n) then 0 else 4
    case Str(_) => 1
    case Bool(_) => 2
    case _ => 3
  }

  lemma {:induction false} AnyOfValid(variants: seq<Json>, i: nat, v: Json)
    requires i < |variants| && Valid(variants[i], v)
    ensures Valid(Obj(map["anyOf" := Arr(variants)]), v)
  {
    assert variants[i] in variants;
  }

  lemma {:induction false} LeafValid(F: seq<Json>, v: Json)
    requires v.Num? && !IsIntegral(v.n) ==> v in F
    requires !v.Arr? && !v.Obj?
    ensures Valid(Leaves(F)[LeafIndex(v)], v)
  {
  }

  lemma {:induction false} ArrayBranchValid(inner: Json, K: set<string>, v: Json)
    requires v.Arr? && inner.Obj? && forall x | x in v.items :: Valid(inner, x)
    ensures Valid(Branches(inner, K)[0], v)
  {
  }

  lemma {:induction false} ObjectBranchValid(inner: Json, K: set<string>, v: Json)
    requires v.Obj? && forall k | k in v.fields :: Valid(inner, v.fields[k])
    ensures Valid(Branches(inner, K)[1], v)
  {
  }

  /** The strict schema accepts every value that fits it. */
  lemma {:induction false} StrictValid(d: nat, K: set<string>, F: seq<Json>, v: Json)
    requires Fits(d, K, F, v)
    ensures Valid(Strict(d, K, F), v)
    decreases v, 1
  {
    if v.Arr? {
      StrictArrayValid(d, K, F, v);
    } else if v.Obj? {
      StrictObjectValid(d, K, F, v);
    } else {
      StrictLeafValid(d, K, F, v);
    }
  }

  lemma {:induction false} StrictArrayValid(d: nat, K: set<string>, F: seq<Json>, v: Json)
    requires v.Arr? && Fits(d, K, F, v)
    ensures Valid(Strict(d, K, F), v)
    decreases v, 0
  {
    var inner := Strict(d - 1, K, F);
    forall x | x in v.items ensures Valid(inner, x) { StrictValid(d - 1, K, F, x); }
    ArrayBranchValid(inner, K, v);
    AnyOfValid(Leaves(F) + Branches(inner, K), 5, v);
  }

  lemma {:induction false} StrictObjectValid(d: nat, K: set<string>, F: seq<Json>, v: Json)
    requires v.Obj? && Fits(d, K, F, v)
    ensures Valid(Strict(d, K, F), v)
    decreases v, 0
  {
    var inner := Strict(d - 1, K, F);
    forall k | k in v.fields ensures Valid(inner, v.fields[k]) { StrictValid(d - 1, K, F, v.fields[k]); }
    ObjectBranchValid(inner, K, v);
    AnyOfValid(Leaves(F) + Branches(inner, K), 6, v);
  }

  lemma {:induction false} StrictLeafValid(d: nat, K: set<string>, F: seq<Json>, v: Json)
    requires Fits(d, K, F, v) && !v.Arr? && !v.Obj?
    ensures Valid(Strict(d, K, F), v)
  {
    LeafValid(F, v);
    AnyOfValid(Leaves(F) + if d == 0 then [] else Branches(Strict(d - 1, K, F), K), LeafIndex(v), v);
  }

  lemma {:induction false} SomeVariantParses(variants: seq<Json>, v: Json) returns (i: nat)
    requires |variants| > 1 && Parse(NodeToZod(Obj(map["anyOf" := Arr(variants)])), v).Some?
    ensures i < |variants| && Parse(NodeToZod(variants[i]), v).Some?
  {
    KeywordsDiffer();
    var node := Obj(map["anyOf" := Arr(variants)]);
    var members := seq(|variants|, k requires 0 <= k < |variants| => NodeToZod(variants[k]));
    assert KeywordsToZod(node) == ZUnion(members);
    ParseFirstAccepts(members, v);
    i :| 0 <= i < |members| && Parse(members[i], v).Some?;
  }

  /** The type converted from the strict schema lets no unsafe integer through. */
  lemma {:induction false} StrictSafe(d: nat, K: set<string>, F: seq<Json>, v: Json)
    requires Fractions(F) && Fits(d, K, F, v)
    requires Parse(NodeToZod(Strict(d, K, F)), v).Some?
    ensures SafeIntegers(v)
    decreases v, 1
  {
    if d == 0 {
      var i := SomeVariantParses(Leaves(F) + [], v);
      LeafSafe(F, i, v);
    } else {
      var inner := Strict(d - 1, K, F);
      var i := SomeVariantParses(Leaves(F) + Branches(inner, K), v);
      if i < 5 {
        LeafSafe(F, i, v);
      } else {
        assert (Leaves(F) + Branches(inner, K))[i] == Branches(inner, K)[i - 5];
        BranchParsed(inner, K, i - 5, v);
        BranchSafe(d, K, F, v);
      }
    }
  }

  lemma {:induction false} LeafSafe(F: seq<Json>, i: nat, v: Json)
    requires Fractions(F) && i < 5 && Parse(NodeToZod(Leaves(F)[i]), v).Some?
    ensures SafeIntegers(v)
  {
    if i == 4 {
      assert NodeToZod(Leaves(F)[4]) == EnumToZod([Str("")] + F);
      assert forall x | x in [Str("")] + F :: IsLiteral(x);
      EnumOnly([Str("")] + F, v);
    } else {
      KeywordsDiffer();
      TypedNode(Leaves(F)[i], ["integer", "string", "boolean", "null"][i]);
    }
  }

  lemma {:induction false} KeywordsDiffer()
    ensures "type" != "enum"
    ensures "items" != "const" && "items" != "anyOf" && "items" != "oneOf"
    ensures "anyOf" != "oneOf" && "anyOf" != "const"
  {
    assert "type"[0] != "enum"[0];
    assert "items"[0] != "const"[0] && "items"[0] != "anyOf"[0] && "items"[0] != "oneOf"[0];
    assert "anyOf"[0] != "oneOf"[0] && "anyOf"[0] != "const"[0];
  }

  lemma {:induction false} TypedNode(node: Json, name: string)
    requires node.Obj? && Field(node, "type") == Some(Str(name))
    requires forall k | k in ["enum", "const", "anyOf", "oneOf", "description"] :: k !in node.fields
    ensures NodeToZod(node) == TypeNameToZod(name, node)
  {
    assert "enum" in ["enum", "const", "anyOf", "oneOf", "description"];
    assert "const" in ["enum", "const", "anyOf", "oneOf", "description"];
    assert "anyOf" in ["enum", "const", "anyOf", "oneOf", "description"];
    assert "oneOf" in ["enum", "const", "anyOf", "oneOf", "description"];
    assert "description" in ["enum", "const", "anyOf", "oneOf", "description"];
  }

  lemma {:induction false} ArrayBranchType(inner: Json, K: set<string>)
    ensures NodeToZod(Branches(inner, K)[0]) == ZArray(NodeToZod(inner))
  {
    KeywordsDiffer();
    TypedNode(Branches(inner, K)[0], "array");
  }

  lemma {:induction false} ObjectBranchType(inner: Json, K: set<string>)
    ensures NodeToZod(Branches(inner, K)[1]) == ZObject(map k | k in K :: ZOptional(NodeToZod(inner)), true)
  {
    KeywordsDiffer();
    var node := Branches(inner, K)[1];
    TypedNode(node, "object");
    assert RequiredNames(node) == [];
    assert Shape(node) == map k | k in K :: ZOptional(NodeToZod(inner));
  }

  lemma {:induction false} BranchParsed(inner: Json, K: set<string>, i: nat, v: Json)
    requires i < 2 && Parse(NodeToZod(Branches(inner, K)[i]), v).Some?
    ensures if i == 0 then v.Arr? && forall x | x in v.items :: Parse(NodeToZod(inner), x).Some?
            else v.Obj? && forall k | k in K && k in v.fields :: Parse(NodeToZod(inner), v.fields[k]).Some?
  {
    if i == 0 {
      ArrayBranchType(inner, K);
    } else {
      ObjectBranchType(inner, K);
      OptionalFieldsParsed(NodeToZod(inner), K, v);
    }
  }

  lemma {:induction false} OptionalFieldsParsed(inner: Zod, K: set<string>, v: Json)
    requires Parse(ZObject(map k | k in K :: ZOptional(inner), true), v).Some?
    ensures v.Obj? && forall k | k in K && k in v.fields :: Parse(inner, v.fields[k]).Some?
  {
    var shape := map k | k in K :: ZOptional(inner);
    forall k | k in K && k in v.fields ensures Parse(inner, v.fields[k]).Some? {
      assert Parse(shape[k], v.fields[k]).Some?;
    }
  }

  lemma {:induction false} BranchSafe(d: nat, K: set<string>, F: seq<Json>, v: Json)
    requires Fractions(F) && Fits(d, K, F, v) && d > 0
    requires v.Arr? ==> forall x | x in v.items :: Parse(NodeToZod(Strict(d - 1, K, F)), x).Some?
    requires v.Obj? ==> forall k | k in v.fields :: Parse(NodeToZod(Strict(d - 1, K, F)), v.fields[k]).Some?
    ensures v.Arr? || v.Obj? ==> SafeIntegers(v)
    decreases v, 0
  {
    match v
    case Arr(items) =>
      forall x | x in items ensures SafeIntegers(x) { StrictSafe(d - 1, K, F, x); }
    case Obj(fields) =>
      forall k | k in fields ensures SafeIntegers(fields[k]) { StrictSafe(d - 1, K, F, fields[k]); }
    case _ =>
  }

  lemma {:induction false} StrictSchema(v: Json) returns (node: Json)
    ensures Valid(node, v)
    ensures Parse(NodeToZod(node), v).Some? ==> SafeIntegers(v)
  {
    var d, K, F := FitsSome(v);
    StrictValid(d, K, F, v);
    node := Strict(d, K, F);
    if Parse(NodeToZod(node), v).Some? { StrictSafe(d, K, F, v); }
  }

  /** The first integer behind the safe range is valid where integers are asked for, and rejected. */
  lemma {:induction false} UnsafeIntegerIsRejected()
    ensures
      var v := Num(9007199254740992.0);
      Valid(Typed("integer"), v) && Parse(NodeToZod(Typed("integer")), v) == None
  {
    KeywordsDiffer();
    TypedNode(Typed("integer"), "integer");
    assert 9007199254740992.0.Floor == 9007199254740992;
  }

  /** What the conversion promises of a schema and a value. */
  ghost predicate Faithful(node: Json, v: Json) { Valid(node, v) ==> Parse(NodeToZod(node), v) == Some(v) }

  /**
   The promise itself, for every schema at once: a value comes through every type converted
   from a schema that accepts it, unchanged, exactly when its integers are all safe.
   */
  lemma {:induction false} FaithfulIffSafeIntegers(v: Json)
    ensures SafeIntegers(v) <==> forall node :: Faithful(node, v)
  {
    if SafeIntegers(v) {
      forall node ensures Faithful(node, v) {
        if Valid(node, v) { NodeFaithful(node, v); }
      }
    }
    var strict := StrictSchema(v);
    assert Faithful(strict, v) ==> SafeIntegers(v);
  }
}
