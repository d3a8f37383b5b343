/** JSON Schema to Zod, and what each of the two means. */
module JsonSchemaToZod {
  import opened JsonValues

  /** The Zod constructors the translation uses. `Object(_, false)` is the stripping z.object. */
  datatype Zod =
    | Unknown
    | ZString
    | ZNumber
    | ZInt
    | ZBool
    | ZNull
    | ZEnum(values: seq<string>)
    | ZLiteral(literal: Json)
    | ZUnion(options: seq<Zod>)
    | ZArray(element: Zod)
    | ZObject(shape: map<string, Zod>, loose: bool)
    | ZOptional(inner: Zod)
    | ZDescribed(target: Zod, text: string)

  // ---- what Zod does ---------------------------------------------------------------

  const MAX_SAFE_INTEGER: real := 9007199254740991.0

  predicate IsIntegral(n: real) { n.Floor as real == n }

  predicate IsSafe(n: real) { -MAX_SAFE_INTEGER <= n <= MAX_SAFE_INTEGER }

  /** Parsing a value that is present: None is a rejection, Some the parsed output. */
  function Parse(z: Zod, v: Json): Option<Json>
    decreases z
  {
    match z
    case Unknown => Some(v)
    case ZString => if v.Str? then Some(v) else None
    case ZNumber => if v.Num? then Some(v) else None
    case ZInt => if v.Num? && IsIntegral(v.n) && IsSafe(v.n) then Some(v) else None
    case ZBool => if v.Bool? then Some(v) else None
    case ZNull => if v.Null? then Some(v) else None
    case ZEnum(values) => if v.Str? && v.s in values then Some(v) else None
    case ZLiteral(literal) => if v == literal then Some(v) else None
    case ZUnion(options) => ParseFirst(options, v)
    case ZArray(element) =>
      if v.Arr? && forall x | x in v.items :: Parse(element, x).Some? then
        Some(Arr(seq(|v.items|, i requires 0 <= i < |v.items| => Parse(element, v.items[i]).value)))
      else None
    case ZObject(shape, loose) =>
      if v.Obj? && (forall k | k in shape :: if k in v.fields then Parse(shape[k], v.fields[k]).Some?
                                             else AcceptsMissing(shape[k])) then
        Some(Obj(map k | k in v.fields && (loose || k in shape) ::
                   if k in shape then Parse(shape[k], v.fields[k]).value else v.fields[k]))
      else None
    case ZOptional(inner) => Parse(inner, v)
    case ZDescribed(target, _) => Parse(target, v)
  }

  /** A union yields the output of its first member that accepts. */
  function ParseFirst(options: seq<Zod>, v: Json): Option<Json>
    decreases options
  {
    if options == [] then None
    else if Parse(options[0], v).Some? then Parse(options[0], v)
    else ParseFirst(options[1..], v)
  }

  /** Whether a field of this type may be absent from the object. */
  predicate AcceptsMissing(z: Zod) {
    match z
    case Unknown => true
    case ZOptional(_) => true
    case ZUnion(options) => exists o | o in options :: AcceptsMissing(o)
    case ZDescribed(target, _) => AcceptsMissing(target)
    case _ => false
  }

  /** No object type anywhere in z strips the keys its shape does not list. */
  predicate KeepsKeys(z: Zod) {
    match z
    case ZUnion(options) => forall o | o in options :: KeepsKeys(o)
    case ZArray(element) => KeepsKeys(element)
    case ZObject(shape, loose) => loose && forall k | k in shape :: KeepsKeys(shape[k])
    case ZOptional(inner) => KeepsKeys(inner)
    case ZDescribed(target, _) => KeepsKeys(target)
    case _ => true
  }

  // ---- what the schema means: JSON Schema Validation draft-07 ---------------------------

  /** Section 6.1.1, one type name. */
  predicate HasType(name: string, v: Json) {
    match name
    case "string" => v.Str?
    case "number" => v.Num?
    case "integer" => v.Num? && IsIntegral(v.n)
    case "boolean" => v.Bool?
    case "null" => v.Null?
    case "array" => v.Arr?
    case "object" => v.Obj?
    case _ => false
  }

  predicate TypeAllows(t: Option<Json>, v: Json) {
    match t
    case Some(Str(name)) => HasType(name, v)
    case Some(Arr(names)) => exists name | name in names :: name.Str? && HasType(name.s, v)
    case _ => true
  }

  /** Sections 6.1.2 and 6.1.3. */
  predicate EnumAllows(values: Option<Json>, v: Json) {
    values.Some? && values.value.Arr? ==> v in values.value.items
  }

  predicate ConstAllows(value: Option<Json>, v: Json) {
    value.Some? ==> v == value.value
  }

  /** Section 6.5.3. */
  predicate RequiredAllows(required: Option<Json>, v: Json) {
    required.Some? && required.value.Arr? && v.Obj? ==>
      forall k | k in required.value.items && k.Str? :: k.s in v.fields
  }

  /** Sections 6.7.2 and 6.7.3. */
  predicate CombinersAllow(schema: Json, v: Json)
    requires schema.Obj?
    decreases schema, 0
  {
    && ("anyOf" in schema.fields && schema.fields["anyOf"].Arr? ==>
          exists s | s in schema.fields["anyOf"].items :: Valid(s, v))
    && ("oneOf" in schema.fields && schema.fields["oneOf"].Arr? ==>
          var variants := schema.fields["oneOf"].items;
          exists i | 0 <= i < |variants| :: Valid(variants[i], v) &&
            forall j | 0 <= j < |variants| && j != i :: !Valid(variants[j], v))
  }

  /** Section 6.4.1: one schema for every element, or a list of schemas by position. */
  predicate ItemsAllow(schema: Json, v: Json)
    requires schema.Obj?
    decreases schema, 0
  {
    "items" in schema.fields && v.Arr? ==>
      var items := schema.fields["items"];
      if items.Arr? then forall i | 0 <= i < |items.items| && i < |v.items| :: Valid(items.items[i], v.items[i])
      else forall x | x in v.items :: Valid(items, x)
  }

  /** Section 6.5.4. */
  predicate PropertiesAllow(schema: Json, v: Json)
    requires schema.Obj?
    decreases schema, 0
  {
    "properties" in schema.fields && schema.fields["properties"].Obj? && v.Obj? ==>
      var properties := schema.fields["properties"].fields;
      forall k | k in properties && k in v.fields :: Valid(properties[k], v.fields[k])
  }

  /**
   Validation of v by a schema without `$ref`. A keyword outside the list can only reject
   more values, and a keyword whose value has the wrong form constrains nothing here.
   */
  predicate Valid(schema: Json, v: Json)
    decreases schema, 1
  {
    match schema
    case Bool(b) => b
    case Obj(fields) =>
      && TypeAllows(Field(schema, "type"), v)
      && EnumAllows(Field(schema, "enum"), v)
      && ConstAllows(Field(schema, "const"), v)
      && RequiredAllows(Field(schema, "required"), v)
      && CombinersAllow(schema, v)
      && ItemsAllow(schema, v)
      && PropertiesAllow(schema, v)
    case _ => true
  }

  // ---- the translation ---------------------------------------------------------------

  function WithDescription(z: Zod, node: Json): Zod {
    match StringOf(Field(node, "description"))
    case Some(text) => ZDescribed(z, text)
    case None => z
  }

  function Strings(values: seq<Json>): seq<string> {
    if values == [] then []
    else (if values[0].Str? then [values[0].s] else []) + Strings(values[1..])
  }

  predicate IsLiteral(v: Json) { v.Null? || v.Str? || v.Num? || v.Bool? }

  /** One member alone stands for itself; otherwise the members form a union. */
  function UnionOf(members: seq<Zod>): Zod
    requires members != []
  {
    if |members| == 1 then members[0] else ZUnion(members)
  }

  function EnumToZod(values: seq<Json>): Zod {
    var strings := Strings(values);
    if |strings| == |values| && |strings| > 0 then ZEnum(strings)
    else if exists v | v in values :: !IsLiteral(v) then Unknown
    else if values == [] then Unknown
    else UnionOf(seq(|values|, i requires 0 <= i < |values| => ZLiteral(values[i])))
  }

  function TypeNameToZod(name: string, node: Json): Zod
    requires node.Obj?
    decreases node, 1
  {
    match name
    case "string" => ZString
    case "number" => ZNumber
    case "integer" => ZInt
    case "boolean" => ZBool
    case "null" => ZNull
    case "array" => ZArray(if "items" in node.fields then NodeToZod(node.fields["items"]) else Unknown)
    case "object" => ZObject(Shape(node), true)
    case _ => Unknown
  }

  function NodeToZod(node: Json): Zod
    decreases node, 3
  {
    if node.Obj? then WithDescription(KeywordsToZod(node), node) else Unknown
  }

  /** The keyword that decides the type: enum, const, the first usable combiner, then type. */
  function KeywordsToZod(node: Json): Zod
    requires node.Obj?
    decreases node, 2
  {
    var fields := node.fields;
    if "enum" in fields && fields["enum"].Arr? && |fields["enum"].items| > 0 then EnumToZod(fields["enum"].items)
    else if "const" in fields then EnumToZod([fields["const"]])
    else
      var combiner := if "anyOf" in fields && fields["anyOf"].Arr? then "anyOf" else "oneOf";
      if combiner in fields && fields[combiner].Arr? && |fields[combiner].items| > 0 then
        var variants := fields[combiner].items;
        UnionOf(seq(|variants|, i requires 0 <= i < |variants| => NodeToZod(variants[i])))
      else if "type" in fields && fields["type"].Arr? then
        var names := Strings(fields["type"].items);
        if names == [] then Unknown
        else UnionOf(seq(|names|, i requires 0 <= i < |names| => TypeNameToZod(names[i], node)))
      else if "type" in fields && fields["type"].Str? then TypeNameToZod(fields["type"].s, node)
      else Unknown
  }

  /** The names `required` lists, as the converter collects them into a Set. */
  function RequiredNames(schema: Json): seq<string> {
    match Field(schema, "required")
    case Some(Arr(names)) => Strings(names)
    case _ => []
  }

  function Shape(schema: Json): map<string, Zod>
    decreases schema, 0
  {
    if schema.Obj? && "properties" in schema.fields && schema.fields["properties"].Obj? then
      var properties := schema.fields["properties"].fields;
      map k | k in properties ::
        if k in RequiredNames(schema) then NodeToZod(properties[k]) else ZOptional(NodeToZod(properties[k]))
    else map[]
  }

  /** The exported converter: one pass over the properties fills the shape. */
  method JsonSchemaToZodShape(schema: Json) returns (shape: map<string, Zod>)
    ensures shape == Shape(schema)
  {
    shape := map[];
    if schema.Obj? && "properties" in schema.fields && schema.fields["properties"].Obj? {
      var properties := schema.fields["properties"].fields;
      var required := RequiredNames(schema);
      var rest := properties.Keys;
      while rest != {}
        invariant rest <= properties.Keys
        invariant shape == map k | k in Shape(schema) && k !in rest :: Shape(schema)[k]
      {
        var key :| key in rest;
        var fieldType := NodeToZod(properties[key]);
        shape := shape[key := if key in required then fieldType else ZOptional(fieldType)];
        rest := rest - {key};
      }
    }
  }
}
