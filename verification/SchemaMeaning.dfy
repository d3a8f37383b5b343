/** What a converted type says, in terms of its schema alone. */
module SchemaMeaning {
  import opened JsonValues
  import opened JsonSchemaToZod
  import opened SchemaFidelity

  // ---- the keyword that decides -------------------------------------------------------------------------

  datatype Choice = Listed(values: seq<Json>) | OneOfThese(variants: seq<Json>) | Types(names: seq<string>)

  predicate HasItems(node: Json, key: string) {
    node.Obj? && key in node.fields && node.fields[key].Arr? && node.fields[key].items != []
  }

  predicate HasList(node: Json, key: string) { node.Obj? && key in node.fields && node.fields[key].Arr? }

  /** A list of allowed values comes first, then a list of variants (`oneOf` only without `anyOf`), then the type. */
  ghost function Deciding(node: Json): (choice: Choice)
    requires node.Obj?
    ensures choice.OneOfThese? ==> forall s | s in choice.variants :: s < node
  {
    if HasItems(node, "enum") then Listed(node.fields["enum"].items)
    else if "const" in node.fields then Listed([node.fields["const"]])
    else if HasItems(node, "anyOf") then OneOfThese(node.fields["anyOf"].items)
    else if !HasList(node, "anyOf") && HasItems(node, "oneOf") then OneOfThese(node.fields["oneOf"].items)
    else match Field(node, "type")
         case Some(Str(name)) => Types([name])
         case Some(Arr(names)) => Types(Strings(names))
         case _ => Types([])
  }

  function Properties(node: Json): map<string, Json> {
    match Field(node, "properties")
    case Some(Obj(properties)) => properties
    case _ => map[]
  }

  predicate Requires(node: Json, key: string) {
    Field(node, "required").Some? && node.fields["required"].Arr? && Str(key) in node.fields["required"].items
  }

  // ---- the values it admits -----------------------------------------------------------------------------

  /** The values a schema node admits once converted. */
  ghost predicate Admits(node: Json, v: Json)
    decreases node, 1
  {
    !node.Obj? ||
    match Deciding(node)
    case Listed(values) => v in values || exists x | x in values :: !IsLiteral(x)
    case OneOfThese(variants) => exists s | s in variants :: Admits(s, v)
    case Types(names) => names == [] || exists name | name in names :: AdmitsType(name, node, v)
  }

  ghost predicate AdmitsType(name: string, node: Json, v: Json)
    requires node.Obj?
    decreases node, 0
  {
    if name == "integer" then v.Num? && IsIntegral(v.n) && IsSafe(v.n)
    else if name == "array" then
      v.Arr? && ("items" in node.fields ==> forall x | x in v.items :: Admits(node.fields["items"], x))
    else if name == "object" then
      v.Obj? &&
      ("properties" in node.fields && node.fields["properties"].Obj? ==>
         forall k | k in node.fields["properties"].fields ::
           if k in v.fields then Admits(node.fields["properties"].fields[k], v.fields[k])
           else !Requires(node, k) || AdmitsMissing(node.fields["properties"].fields[k]))
    else KnownType(name) ==> HasType(name, v)
  }

  /** A required property of this schema may still be missing: nothing is known about its value. */
  ghost predicate AdmitsMissing(node: Json) {
    !node.Obj? ||
    match Deciding(node)
    case Listed(values) => exists x | x in values :: !IsLiteral(x)
    case OneOfThese(variants) => exists s | s in variants :: AdmitsMissing(s)
    case Types(names) => names == [] || exists name | name in names :: !KnownType(name)
  }

  lemma {:induction false} KeywordsChoose(node: Json)
    requires node.Obj?
    ensures
      match Deciding(node)
      case Listed(values) => values != [] && KeywordsToZod(node) == EnumToZod(values)
      case OneOfThese(variants) => variants != [] && KeywordsToZod(node) == UnionOf(Converted(variants))
      case Types(names) =>
        KeywordsToZod(node) == if names == [] then Unknown else UnionOf(ConvertedTypes(names, node))
  {
    KeywordsDiffer();
    assert "anyOf"[0] != "oneOf"[0];
  }

  function Converted(variants: seq<Json>): seq<Zod> {
    seq(|variants|, i requires 0 <= i < |variants| => NodeToZod(variants[i]))
  }

  function ConvertedTypes(names: seq<string>, node: Json): seq<Zod>
    requires node.Obj?
  {
    seq(|names|, i requires 0 <= i < |names| => TypeNameToZod(names[i], node))
  }

  lemma {:induction false} EnumParses(values: seq<Json>, v: Json)
    requires values != []
    ensures Parse(EnumToZod(values), v).Some? <==> v in values || exists x | x in values :: !IsLiteral(x)
    ensures AcceptsMissing(EnumToZod(values)) <==> exists x | x in values :: !IsLiteral(x)
  {
    StringsAll(values);
    if forall x | x in values :: IsLiteral(x) {
      if Parse(EnumToZod(values), v).Some? { EnumOnly(values, v); }
      if v in values { EnumAccepts(values, v); }
    }
  }

  lemma {:induction false} UnionParsesIff(members: seq<Zod>, v: Json)
    requires members != []
    ensures Parse(UnionOf(members), v).Some? <==> exists i :: 0 <= i < |members| && Parse(members[i], v).Some?
    ensures AcceptsMissing(UnionOf(members)) <==> exists i :: 0 <= i < |members| && AcceptsMissing(members[i])
  {
    ParseFirstAccepts(members, v);
  }

  lemma {:induction false} ConvertedAdmitsMissing(node: Json)
    ensures AcceptsMissing(NodeToZod(node)) <==> AdmitsMissing(node)
    decreases node, 1
  {
    if node.Obj? {
      KeywordsChoose(node);
      match Deciding(node)
      case Listed(values) => EnumParses(values, Null);
      case OneOfThese(variants) => VariantsAdmitMissing(node, variants);
      case Types(names) => if names != [] { TypesAdmitMissing(node, names); }
    }
  }

  lemma {:induction false} VariantsAdmitMissing(node: Json, variants: seq<Json>)
    requires variants != [] && forall s | s in variants :: s < node
    ensures AcceptsMissing(UnionOf(Converted(variants))) <==> exists s | s in variants :: AdmitsMissing(s)
    decreases node, 0
  {
    UnionParsesIff(Converted(variants), Null);
    forall i | 0 <= i < |variants|
      ensures variants[i] in variants && (AcceptsMissing(Converted(variants)[i]) <==> AdmitsMissing(variants[i]))
    {
      assert variants[i] in variants;
      ConvertedAdmitsMissing(variants[i]);
    }
    if s :| s in variants && AdmitsMissing(s) {
      var i :| 0 <= i < |variants| && variants[i] == s;
      assert AcceptsMissing(Converted(variants)[i]);
    }
  }

  lemma {:induction false} TypesAdmitMissing(node: Json, names: seq<string>)
    requires node.Obj? && names != []
    ensures AcceptsMissing(UnionOf(ConvertedTypes(names, node))) <==> exists name | name in names :: !KnownType(name)
  {
    UnionParsesIff(ConvertedTypes(names, node), Null);
    forall i | 0 <= i < |names|
      ensures names[i] in names && (AcceptsMissing(ConvertedTypes(names, node)[i]) <==> !KnownType(names[i]))
    {
    }
    if name :| name in names && !KnownType(name) {
      var i :| 0 <= i < |names| && names[i] == name;
      assert AcceptsMissing(ConvertedTypes(names, node)[i]);
    }
  }

  /** What a converted type accepts, for every schema and every value. */
  lemma {:induction false} ConvertedAdmits(node: Json, v: Json)
    ensures Parse(NodeToZod(node), v).Some? <==> Admits(node, v)
    decreases node, 2
  {
    if node.Obj? {
      KeywordsChoose(node);
      match Deciding(node)
      case Listed(values) => EnumParses(values, v);
      case OneOfThese(variants) => VariantsAdmit(node, variants, v);
      case Types(names) => if names != [] { TypesAdmit(node, names, v); }
    }
  }

  lemma {:induction false} VariantsAdmit(node: Json, variants: seq<Json>, v: Json)
    requires variants != [] && forall s | s in variants :: s < node
    ensures Parse(UnionOf(Converted(variants)), v).Some? <==> exists s | s in variants :: Admits(s, v)
    decreases node, 1
  {
    UnionParsesIff(Converted(variants), v);
    forall i | 0 <= i < |variants|
      ensures variants[i] in variants && (Parse(Converted(variants)[i], v).Some? <==> Admits(variants[i], v))
    {
      assert variants[i] in variants;
      ConvertedAdmits(variants[i], v);
    }
    if s :| s in variants && Admits(s, v) {
      var i :| 0 <= i < |variants| && variants[i] == s;
      assert Parse(Converted(variants)[i], v).Some?;
    }
  }

  lemma {:induction false} TypesAdmit(node: Json, names: seq<string>, v: Json)
    requires node.Obj? && names != []
    ensures Parse(UnionOf(ConvertedTypes(names, node)), v).Some? <==>
            exists name | name in names :: AdmitsType(name, node, v)
    decreases node, 1
  {
    UnionParsesIff(ConvertedTypes(names, node), v);
    forall i | 0 <= i < |names|
      ensures names[i] in names && (Parse(ConvertedTypes(names, node)[i], v).Some? <==> AdmitsType(names[i], node, v))
    {
      TypeAdmits(names[i], node, v);
    }
    if name :| name in names && AdmitsType(name, node, v) {
      var i :| 0 <= i < |names| && names[i] == name;
      assert Parse(ConvertedTypes(names, node)[i], v).Some?;
    }
  }

  lemma {:induction false} TypeAdmits(name: string, node: Json, v: Json)
    requires node.Obj?
    ensures Parse(TypeNameToZod(name, node), v).Some? <==> AdmitsType(name, node, v)
    decreases node, 0, 2
  {
    if name == "array" {
      ArrayAdmits(node, v);
    } else if name == "object" {
      ObjectAdmits(node, v);
    }
  }

  lemma {:induction false} ArrayAdmits(node: Json, v: Json)
    requires node.Obj?
    ensures Parse(TypeNameToZod("array", node), v).Some? <==> AdmitsType("array", node, v)
    decreases node, 0, 1
  {
    if v.Arr? && "items" in node.fields {
      forall x | x in v.items
        ensures Parse(NodeToZod(node.fields["items"]), x).Some? <==> Admits(node.fields["items"], x)
      {
        ConvertedAdmits(node.fields["items"], x);
      }
    }
  }

  lemma {:induction false} ObjectAdmits(node: Json, v: Json)
    requires node.Obj?
    ensures Parse(TypeNameToZod("object", node), v).Some? <==> AdmitsType("object", node, v)
    decreases node, 0, 1
  {
    assert TypeNameToZod("object", node) == ZObject(Shape(node), true);
    if v.Obj? && "properties" in node.fields && node.fields["properties"].Obj? {
      forall k | k in node.fields["properties"].fields
        ensures FieldFits(Shape(node)[k], v, k) <==> PropertyAdmits(node, v, k)
      {
        PropertyFits(node, v, k);
      }
    }
  }

  predicate FieldFits(z: Zod, v: Json, k: string)
    requires v.Obj?
  {
    if k in v.fields then Parse(z, v.fields[k]).Some? else AcceptsMissing(z)
  }

  ghost predicate PropertyAdmits(node: Json, v: Json, k: string)
    requires node.Obj? && v.Obj? && k in Properties(node)
  {
    if k in v.fields then Admits(Properties(node)[k], v.fields[k])
    else !Requires(node, k) || AdmitsMissing(Properties(node)[k])
  }

  lemma {:induction false} PropertyFits(node: Json, v: Json, k: string)
    requires node.Obj? && v.Obj? && "properties" in node.fields && node.fields["properties"].Obj?
    requires k in node.fields["properties"].fields
    ensures FieldFits(Shape(node)[k], v, k) <==> PropertyAdmits(node, v, k)
    decreases node, 0, 0
  {
    var property := node.fields["properties"].fields[k];
    RequiredByName(node, k);
    if k in v.fields {
      ConvertedAdmits(property, v.fields[k]);
    } else {
      ConvertedAdmitsMissing(property);
    }
  }

  lemma {:induction false} RequiredByName(node: Json, k: string)
    ensures k in RequiredNames(node) <==> Requires(node, k)
  {
    if Field(node, "required").Some? && node.fields["required"].Arr? { StringsAll(node.fields["required"].items); }
  }

  // ---- the description it carries -----------------------------------------------------------------------

  function DescriptionOf(z: Zod): Option<string> { if z.ZDescribed? then Some(z.text) else None }

  /** A node's own description; without one, a variant that stands alone brings its own. */
  ghost function Described(node: Json): Option<string> {
    if !node.Obj? then None
    else if StringOf(Field(node, "description")).Some? then StringOf(Field(node, "description"))
    else match Deciding(node)
         case OneOfThese(variants) => if |variants| == 1 then Described(variants[0]) else None
         case _ => None
  }

  function Undescribed(node: Json): Json
    requires node.Obj?
  {
    Obj(map k | k in node.fields && k != "description" :: node.fields[k])
  }

  lemma {:induction false} UndescribedShape(node: Json)
    requires node.Obj?
    ensures forall key :: key != "description" ==> Field(Undescribed(node), key) == Field(node, key)
    ensures Shape(Undescribed(node)) == Shape(node)
  {
    assert |"description"| == 11 && |"properties"| == 10 && |"required"| == 8;
  }

  lemma {:induction false} UndescribedTypes(names: seq<string>, node: Json)
    requires node.Obj?
    ensures ConvertedTypes(names, Undescribed(node)) == ConvertedTypes(names, node)
  {
    assert |"description"| == 11 && |"items"| == 5;
    UndescribedShape(node);
    forall i | 0 <= i < |names| ensures TypeNameToZod(names[i], Undescribed(node)) == TypeNameToZod(names[i], node) {}
  }

  /**
   A string description goes on top of the type its node has without it; any other description
   plays no part.
   */
  lemma {:induction false} DescriptionIsOnTop(node: Json)
    requires node.Obj?
    ensures NodeToZod(node) ==
            match StringOf(Field(node, "description"))
            case Some(text) => ZDescribed(NodeToZod(Undescribed(node)), text)
            case None => NodeToZod(Undescribed(node))
  {
    var bare := Undescribed(node);
    KeywordsChoose(node);
    KeywordsChoose(bare);
    UndescribedShape(node);
    assert |"description"| == 11 && |"enum"| == 4 && |"const"| == 5 && |"anyOf"| == 5 && |"oneOf"| == 5;
    assert |"type"| == 4;
    assert Deciding(bare) == Deciding(node);
    if Deciding(node).Types? { UndescribedTypes(Deciding(node).names, node); }
  }

  /** The text a converted type carries is exactly the description its schema gives. */
  lemma {:induction false} DescriptionSurvives(node: Json)
    ensures DescriptionOf(NodeToZod(node)) == Described(node)
    decreases node
  {
    if node.Obj? {
      KeywordsChoose(node);
      match Deciding(node)
      case OneOfThese(variants) => if |variants| == 1 { DescriptionSurvives(variants[0]); }
      case _ =>
    }
  }

  /** Every property is advertised with its description, optional exactly when it is not required. */
  lemma {:induction false} PropertiesAreDescribed(schema: Json, k: string)
    requires k in Properties(schema)
    ensures
      && k in Shape(schema)
      && (Shape(schema)[k].ZOptional? <==> !Requires(schema, k))
      && DescriptionOf(if Requires(schema, k) then Shape(schema)[k] else Shape(schema)[k].inner) ==
         Described(Properties(schema)[k])
  {
    RequiredByName(schema, k);
    DescriptionSurvives(Properties(schema)[k]);
    NeverOptional(Properties(schema)[k]);
  }

  lemma {:induction false} NeverOptional(node: Json)
    ensures !NodeToZod(node).ZOptional?
    decreases node
  {
    if node.Obj? {
      KeywordsChoose(node);
      match Deciding(node)
      case OneOfThese(variants) => NeverOptional(variants[0]);
      case _ =>
    }
  }
}
