/** Task input schemas: which JSON values are accepted as a schema, and which payloads an accepted
    schema admits. Two JSON values are taken to have the same encoding exactly when they are equal. */
module TaskSchema {
  import opened Basics
  import opened Texts
  import opened Json
  import BoundedJson

  const MAX_DEPTH := 8
  const MAX_NODES := 256
  const MAX_PROPERTIES := 64
  const MAX_ENUM := 64

  /** The reading of number texts as floats: whether a text has a float value, and the order of two. */
  datatype Floats = Floats(ok: string -> bool, less: (string, string) -> bool)

  predicate ManifestText(j: Json, maxRunes: nat) {
    j.Str? && j.s != "" && j.s == TrimSpace(j.s) && |j.s| <= maxRunes
    && forall i :: 0 <= i < |j.s| ==> j.s[i] != '\0' && j.s[i] != '\r' && j.s[i] != '\n'
  }

  datatype Type = ObjectType | ArrayType | StringType | NumberType | IntegerType | BooleanType | NullType

  function TypeNamed(name: string): Option<Type> {
    match name
    case "object" => Some(ObjectType)
    case "array" => Some(ArrayType)
    case "string" => Some(StringType)
    case "number" => Some(NumberType)
    case "integer" => Some(IntegerType)
    case "boolean" => Some(BooleanType)
    case "null" => Some(NullType)
    case _ => None
  }

  /** The type a schema object states, if it states one. */
  function TypeOf(fields: map<string, Json>): Option<Type> {
    if "type" in fields && ManifestText(fields["type"], 32) then TypeNamed(fields["type"].s) else None
  }

  predicate Matches(v: Json, t: Type) {
    match t
    case ObjectType => v.Obj?
    case ArrayType => v.Arr?
    case StringType => v.Str?
    case NumberType => v.Num?
    case IntegerType => v.Num? && ParseInt64(v.text).Some?
    case BooleanType => v.Bool?
    case NullType => v.Null?
  }

  function Allowed(t: Type): set<string> {
    {"type", "title", "description", "enum"} +
    match t
    case ObjectType => {"properties", "required", "additionalProperties"}
    case ArrayType => {"items", "minItems", "maxItems"}
    case StringType => {"minLength", "maxLength"}
    case NumberType => {"minimum", "maximum"}
    case IntegerType => {"minimum", "maximum"}
    case _ => {}
  }

  // Well-formed schemas -----------------------------------------------------------------

  /** An absent bound and a null bound are no bound. */
  predicate Unbounded(fields: map<string, Json>, key: string) {
    key !in fields || fields[key].Null?
  }

  predicate IntBound(fields: map<string, Json>, key: string, ceiling: int) {
    Unbounded(fields, key)
    || (fields[key].Num? && ParseInt64(fields[key].text).Some? && 0 <= ParseInt64(fields[key].text).value <= ceiling)
  }

  predicate IntBounds(fields: map<string, Json>, low: string, high: string, ceiling: int) {
    IntBound(fields, low, ceiling) && IntBound(fields, high, ceiling)
    && (!Unbounded(fields, low) && !Unbounded(fields, high) ==> ParseInt64(fields[low].text).value <= ParseInt64(fields[high].text).value)
  }

  predicate FloatBounds(fields: map<string, Json>, floats: Floats) {
    (forall key :: key in {"minimum", "maximum"} ==> Unbounded(fields, key) || (fields[key].Num? && floats.ok(fields[key].text)))
    && (!Unbounded(fields, "minimum") && !Unbounded(fields, "maximum") ==> !floats.less(fields["maximum"].text, fields["minimum"].text))
  }

  predicate Distinct<T(==)>(s: seq<T>) {
    forall i, j :: 0 <= i < j < |s| ==> s[i] != s[j]
  }

  predicate EnumOk(j: Json, t: Type) {
    j.Arr? && 0 < |j.items| <= MAX_ENUM && Distinct(j.items) && forall i :: 0 <= i < |j.items| ==> Matches(j.items[i], t)
  }

  function Properties(fields: map<string, Json>): map<string, Json> {
    if "properties" in fields && fields["properties"].Obj? then fields["properties"].fields else map[]
  }

  predicate RequiredOk(j: Json, properties: map<string, Json>) {
    j.Arr? && |j.items| <= MAX_PROPERTIES && Distinct(j.items)
    && forall i :: 0 <= i < |j.items| ==> ManifestText(j.items[i], 128) && j.items[i].s in properties && !properties[j.items[i].s].Null?
  }

  predicate PropertyName(key: string) {
    key != "" && !BoundedJson.UnsafeKey(key) && |key| <= 128
  }

  /** What one schema object must satisfy, apart from its subschemas. */
  predicate LocallyOk(fields: map<string, Json>, t: Type, floats: Floats) {
    && TypeOf(fields) == Some(t) && fields.Keys <= Allowed(t)
    && ("title" in fields ==> ManifestText(fields["title"], 256))
    && ("description" in fields ==> ManifestText(fields["description"], 1000))
    && ("enum" in fields ==> EnumOk(fields["enum"], t))
    && match t
       case ObjectType =>
         && ("properties" in fields ==> fields["properties"].Obj? && |fields["properties"].fields| <= MAX_PROPERTIES)
         && (forall key :: key in Properties(fields) ==> PropertyName(key))
         && ("required" in fields ==> RequiredOk(fields["required"], Properties(fields)))
         && ("additionalProperties" in fields ==> fields["additionalProperties"].Bool?)
       case ArrayType => "items" in fields && IntBounds(fields, "minItems", "maxItems", 1000)
       case StringType => IntBounds(fields, "minLength", "maxLength", 16384)
       case NumberType => FloatBounds(fields, floats)
       case IntegerType => FloatBounds(fields, floats)
       case _ => true
  }

  /** A well-formed schema, `depth` levels below the root schema. */
  predicate WellFormed(j: Json, depth: nat, floats: Floats) {
    depth <= MAX_DEPTH && j.Obj? && TypeOf(j.fields).Some? && LocallyOk(j.fields, TypeOf(j.fields).value, floats)
    && (TypeOf(j.fields).value == ObjectType ==>
          forall key :: key in Properties(j.fields) ==> WellFormed(Properties(j.fields)[key], depth + 1, floats))
    && (TypeOf(j.fields).value == ArrayType ==> WellFormed(j.fields["items"], depth + 1, floats))
  }

  /** The number of schemas in a schema. */
  ghost function Nodes(j: Json): (n: nat)
    ensures n >= 1
    decreases j, 1, 0
  {
    if !j.Obj? then 1
    else if TypeOf(j.fields) == Some(ObjectType) then 1 + PropertyNodes(j, Properties(j.fields).Keys)
    else if TypeOf(j.fields) == Some(ArrayType) && "items" in j.fields then 1 + Nodes(j.fields["items"])
    else 1
  }

  ghost function PropertyNodes(j: Json, keys: set<string>): nat
    requires j.Obj? && keys <= Properties(j.fields).Keys
    decreases j, 0, |keys|
  {
    if keys == {} then 0
    else
      var key :| key in keys;
      PropertyNodes(j, keys - {key}) + Nodes(Properties(j.fields)[key])
  }

  lemma {:induction false} PropertyNodesWithout(j: Json, keys: set<string>, key: string)
    requires j.Obj? && keys <= Properties(j.fields).Keys && key in keys
    ensures PropertyNodes(j, keys) == PropertyNodes(j, keys - {key}) + Nodes(Properties(j.fields)[key])
    decreases |keys|
  {
    var first :| first in keys && PropertyNodes(j, keys) == PropertyNodes(j, keys - {first}) + Nodes(Properties(j.fields)[first]);
    if first != key {
      PropertyNodesWithout(j, keys - {first}, key);
      PropertyNodesWithout(j, keys - {key}, first);
      assert keys - {first} - {key} == keys - {key} - {first};
    }
  }

  lemma {:induction false} PropertyNodesGrow(j: Json, some: set<string>, keys: set<string>)
    requires j.Obj? && some <= keys <= Properties(j.fields).Keys
    ensures PropertyNodes(j, some) <= PropertyNodes(j, keys)
    decreases |keys|
  {
    if key :| key in keys && key !in some {
      PropertyNodesWithout(j, keys, key);
      PropertyNodesGrow(j, some, keys - {key});
    } else {
      assert some == keys;
    }
  }

  // The validator ---------------------------------------------------------------------------

  class Budget {
    var nodes: nat

    constructor (nodes: nat)
      ensures this.nodes == nodes
    {
      this.nodes := nodes;
    }
  }

  /** Accepts exactly the well-formed schemas that the budget covers, in whatever order the fields of
      an object are visited; an accepted schema has then used exactly one unit for each schema in it. */
  method ValidateNode(j: Json, depth: nat, budget: Budget, floats: Floats) returns (ok: bool)
    modifies budget
    ensures ok <==> WellFormed(j, depth, floats) && Nodes(j) <= old(budget.nodes)
    ensures budget.nodes <= old(budget.nodes)
    ensures ok ==> budget.nodes == old(budget.nodes) - Nodes(j)
    decreases j, 1
  {
    hide LocallyOk, PropertyNodes, WellFormed, Nodes, TypeOf, Properties, BelowOk;
    SchemaStep(j, depth, floats);
    if depth > MAX_DEPTH || budget.nodes == 0 {
      return false;
    }
    budget.nodes := budget.nodes - 1;
    if !j.Obj? {
      return false;
    }
    var t := TypeOf(j.fields);
    if t.None? {
      return false;
    }
    ok := CheckLocally(j.fields, t.value, floats);
    if !ok {
      return;
    }
    if t.value == ObjectType {
      ok := ValidateProperties(j, depth, budget, floats);
    } else if t.value == ArrayType {
      HasItems(j.fields, floats);
      ok := ValidateNode(j.fields["items"], depth + 1, budget, floats);
    }
  }

  /** The properties of an object schema are accepted one level down. */
  ghost predicate BelowOk(properties: map<string, Json>, depth: nat, floats: Floats) {
    forall key :: key in properties ==> WellFormed(properties[key], depth, floats)
  }

  /** A schema is its own object and its subschemas. */
  lemma SchemaStep(j: Json, depth: nat, floats: Floats)
    ensures WellFormed(j, depth, floats) ==> depth <= MAX_DEPTH && j.Obj? && TypeOf(j.fields).Some?
    ensures depth <= MAX_DEPTH && j.Obj? && TypeOf(j.fields).Some? ==>
              var t := TypeOf(j.fields).value;
              (WellFormed(j, depth, floats)
               <==> && LocallyOk(j.fields, t, floats) && (t == ObjectType ==> BelowOk(Properties(j.fields), depth + 1, floats))
                    && (t == ArrayType ==> "items" in j.fields && WellFormed(j.fields["items"], depth + 1, floats)))
    ensures j.Obj? && TypeOf(j.fields) == Some(ObjectType) ==> Nodes(j) == 1 + PropertyNodes(j, Properties(j.fields).Keys)
    ensures j.Obj? && TypeOf(j.fields) == Some(ArrayType) && "items" in j.fields ==> Nodes(j) == 1 + Nodes(j.fields["items"])
    ensures j.Obj? && TypeOf(j.fields).Some? && TypeOf(j.fields).value !in {ObjectType, ArrayType} ==> Nodes(j) == 1
  {
    hide LocallyOk, PropertyNodes, TypeOf, Properties;
    if j.Obj? && TypeOf(j.fields) == Some(ArrayType) && LocallyOk(j.fields, ArrayType, floats) { HasItems(j.fields, floats); }
  }

  lemma HasItems(fields: map<string, Json>, floats: Floats)
    requires LocallyOk(fields, ArrayType, floats)
    ensures "items" in fields
  {
  }

  method ValidateProperties(j: Json, depth: nat, budget: Budget, floats: Floats) returns (ok: bool)
    requires j.Obj?
    modifies budget
    ensures ok <==> && BelowOk(Properties(j.fields), depth + 1, floats)
                    && PropertyNodes(j, Properties(j.fields).Keys) <= old(budget.nodes)
    ensures budget.nodes <= old(budget.nodes)
    ensures ok ==> budget.nodes == old(budget.nodes) - PropertyNodes(j, Properties(j.fields).Keys)
    decreases j, 0
  {
    hide PropertyNodes, WellFormed, Nodes;
    var properties := Properties(j.fields);
    var todo := properties.Keys;
    assert properties.Keys - todo == {};
    NoProperties(j);
    while todo != {}
      invariant todo <= properties.Keys
      invariant PropertyNodes(j, properties.Keys - todo) <= old(budget.nodes)
      invariant budget.nodes == old(budget.nodes) - PropertyNodes(j, properties.Keys - todo)
      invariant forall key :: key in properties.Keys - todo ==> WellFormed(properties[key], depth + 1, floats)
      decreases todo
    {
      var key :| key in todo;
      NextProperty(j, todo, key);
      ok := ValidateNode(properties[key], depth + 1, budget, floats);
      if !ok {
        return;
      }
      todo := todo - {key};
    }
    assert properties.Keys - todo == properties.Keys;
    ok := true;
  }

  lemma NoProperties(j: Json)
    requires j.Obj?
    ensures PropertyNodes(j, {}) == 0
  {
  }

  lemma NextProperty(j: Json, todo: set<string>, key: string)
    requires j.Obj? && key in todo && todo <= Properties(j.fields).Keys
    ensures var keys := Properties(j.fields).Keys;
      && keys - (todo - {key}) == (keys - todo) + {key}
      && PropertyNodes(j, keys - (todo - {key})) == PropertyNodes(j, keys - todo) + Nodes(Properties(j.fields)[key])
      && PropertyNodes(j, keys - (todo - {key})) <= PropertyNodes(j, keys)
  {
    hide PropertyNodes;
    var keys := Properties(j.fields).Keys;
    var done := keys - todo;
    assert keys - (todo - {key}) == done + {key};
    PropertyNodesWithout(j, done + {key}, key);
    assert done + {key} - {key} == done;
    PropertyNodesGrow(j, done + {key}, keys);
  }

  method CheckLocally(fields: map<string, Json>, t: Type, floats: Floats) returns (ok: bool)
    requires TypeOf(fields) == Some(t)
    ensures ok <==> LocallyOk(fields, t, floats)
  {
    hide TypeOf, EnumOk, RequiredOk, ManifestText, IntBounds, FloatBounds, Allowed, PropertyName;
    ok := OnlyAllowed(fields.Keys, Allowed(t));
    if !ok || ("title" in fields && !ManifestText(fields["title"], 256))
       || ("description" in fields && !ManifestText(fields["description"], 1000))
    {
      return false;
    }
    if "enum" in fields {
      ok := CheckEnum(fields["enum"], t);
      if !ok {
        return;
      }
    }
    match t
    case ObjectType => ok := CheckObject(fields);
    case ArrayType => ok := "items" in fields && IntBounds(fields, "minItems", "maxItems", 1000);
    case StringType => ok := IntBounds(fields, "minLength", "maxLength", 16384);
    case NumberType => ok := FloatBounds(fields, floats);
    case IntegerType => ok := FloatBounds(fields, floats);
    case _ =>
  }

  method CheckObject(fields: map<string, Json>) returns (ok: bool)
    ensures ok <==> && ("properties" in fields ==> fields["properties"].Obj? && |fields["properties"].fields| <= MAX_PROPERTIES)
                    && (forall key :: key in Properties(fields) ==> PropertyName(key))
                    && ("required" in fields ==> RequiredOk(fields["required"], Properties(fields)))
                    && ("additionalProperties" in fields ==> fields["additionalProperties"].Bool?)
  {
    hide RequiredOk, PropertyName;
    if "properties" in fields && (!fields["properties"].Obj? || |fields["properties"].fields| > MAX_PROPERTIES) {
      return false;
    }
    var properties := Properties(fields);
    ok := forall key :: key in properties ==> PropertyName(key);
    if ok && "required" in fields {
      ok := CheckRequired(fields["required"], properties);
    }
    if "additionalProperties" in fields && !fields["additionalProperties"].Bool? {
      ok := false;
    }
  }

  method OnlyAllowed(keys: set<string>, allowed: set<string>) returns (ok: bool)
    ensures ok <==> keys <= allowed
  {
    var todo := keys;
    while todo != {}
      invariant todo <= keys && keys - todo <= allowed
      decreases todo
    {
      var key :| key in todo;
      if key !in allowed {
        return false;
      }
      todo := todo - {key};
    }
    ok := true;
  }

  /** The enum loop: `seen` holds the encodings met so far. */
  method CheckEnum(j: Json, t: Type) returns (ok: bool)
    ensures ok <==> EnumOk(j, t)
  {
    if !j.Arr? || j.items == [] || |j.items| > MAX_ENUM {
      return false;
    }
    var seen: set<Json> := {};
    for i := 0 to |j.items|
      invariant seen == (set k | 0 <= k < i :: j.items[k])
      invariant Distinct(j.items[..i]) && forall k :: 0 <= k < i ==> Matches(j.items[k], t)
    {
      if !Matches(j.items[i], t) {
        return false;
      }
      if j.items[i] in seen {
        var k :| 0 <= k < i && j.items[k] == j.items[i];
        return false;
      }
      seen := seen + {j.items[i]};
    }
    assert j.items[..|j.items|] == j.items;
    ok := true;
  }

  method CheckRequired(j: Json, properties: map<string, Json>) returns (ok: bool)
    ensures ok <==> RequiredOk(j, properties)
  {
    if !j.Arr? || |j.items| > MAX_PROPERTIES {
      return false;
    }
    var seen: set<Json> := {};
    for i := 0 to |j.items|
      invariant seen == (set k | 0 <= k < i :: j.items[k]) && Distinct(j.items[..i])
      invariant forall k :: 0 <= k < i ==>
                  IsText(j.items[k]) && ManifestText(j.items[k], 128) && j.items[k].s in properties && !properties[j.items[k].s].Null?
    {
      if !IsText(j.items[i]) || !ManifestText(j.items[i], 128) || j.items[i].s !in properties || properties[j.items[i].s].Null? {
        return false;
      }
      if j.items[i] in seen {
        var k :| 0 <= k < i && j.items[k] == j.items[i];
        return false;
      }
      seen := seen + {j.items[i]};
    }
    assert j.items[..|j.items|] == j.items;
    ok := true;
  }

  predicate IsText(j: Json) { j.Str? }

  // What a schema means ---------------------------------------------------------------------------

  /** A schema as a statement about values. */
  datatype Schema = Schema(enum: Option<seq<Json>>, shape: Shape)

  datatype Shape =
    | Object(properties: map<string, Schema>, required: set<string>, additional: bool)
    | Array(item: Schema, low: Option<int>, high: Option<int>)
    | Text(low: Option<int>, high: Option<int>)
    | Number(least: Option<string>, most: Option<string>)
    | Integer(least: Option<string>, most: Option<string>)
    | Boolean
    | Nothing

  predicate Between(n: int, low: Option<int>, high: Option<int>) {
    (low.Some? ==> low.value <= n) && (high.Some? ==> n <= high.value)
  }

  predicate InRange(text: string, least: Option<string>, most: Option<string>, floats: Floats) {
    (least.Some? ==> !floats.less(text, least.value)) && (most.Some? ==> !floats.less(most.value, text))
  }

  /** The values a schema describes. */
  ghost predicate Satisfies(v: Json, schema: Schema, floats: Floats) {
    && (schema.enum.Some? ==> v in schema.enum.value)
    && match schema.shape
       case Object(properties, required, additional) =>
         && v.Obj? && required <= v.fields.Keys
         && (forall key :: key in v.fields && key in properties ==> Satisfies(v.fields[key], properties[key], floats))
         && (!additional ==> v.fields.Keys <= properties.Keys)
       case Array(item, low, high) =>
         && v.Arr? && Between(|v.items|, low, high)
         && (forall i :: 0 <= i < |v.items| ==> Satisfies(v.items[i], item, floats))
       case Text(low, high) => v.Str? && Between(|v.s|, low, high)
       case Number(least, most) => v.Num? && InRange(v.text, least, most, floats)
       case Integer(least, most) => v.Num? && ParseInt64(v.text).Some? && InRange(v.text, least, most, floats)
       case Boolean => v.Bool?
       case Nothing => v.Null?
  }

  function IntOf(fields: map<string, Json>, key: string): Option<int> {
    if Unbounded(fields, key) || !fields[key].Num? then None else ParseInt64(fields[key].text)
  }

  function FloatOf(fields: map<string, Json>, key: string): Option<string> {
    if Unbounded(fields, key) || !fields[key].Num? then None else Some(fields[key].text)
  }

  function RequiredNames(fields: map<string, Json>): set<string> {
    if "required" in fields && fields["required"].Arr?
    then set j | j in fields["required"].items && j.Str? :: j.s else {}
  }

  function EnumOf(fields: map<string, Json>): Option<seq<Json>> {
    if "enum" in fields && fields["enum"].Arr? then Some(fields["enum"].items) else None
  }

  predicate AllowsMore(fields: map<string, Json>) {
    "additionalProperties" in fields && fields["additionalProperties"].Bool? ==> fields["additionalProperties"].b
  }

  /** The statement an accepted schema makes. */
  ghost function Meaning(j: Json, depth: nat, floats: Floats): Schema
    requires WellFormed(j, depth, floats)
  {
    var fields := j.fields;
    Schema(EnumOf(fields),
           match TypeOf(fields).value
           case ObjectType =>
             Object(map key | key in Properties(fields) :: Meaning(Properties(fields)[key], depth + 1, floats), RequiredNames(fields),
                    AllowsMore(fields))
           case ArrayType => HasItems(fields, floats); Array(Meaning(fields["items"], depth + 1, floats), IntOf(fields, "minItems"), IntOf(fields, "maxItems"))
           case StringType => Text(IntOf(fields, "minLength"), IntOf(fields, "maxLength"))
           case NumberType => Number(FloatOf(fields, "minimum"), FloatOf(fields, "maximum"))
           case IntegerType => Integer(FloatOf(fields, "minimum"), FloatOf(fields, "maximum"))
           case BooleanType => Boolean
           case NullType => Nothing)
  }

  // The payload checker -----------------------------------------------------------------------------

  /** For an accepted schema, the checker says yes to exactly the values the schema describes. */
  method Check(j: Json, v: Json, ghost depth: nat, floats: Floats) returns (ok: bool)
    requires WellFormed(j, depth, floats)
    ensures ok <==> Satisfies(v, Meaning(j, depth, floats), floats)
    decreases j, 1
  {
    var t := TypeOf(j.fields).value;
    if !Matches(v, t) {
      return false;
    }
    if "enum" in j.fields {
      if !j.fields["enum"].Arr? || v !in j.fields["enum"].items {
        return false;
      }
    }
    match t
    case ObjectType => ok := CheckFields(j, v, depth, floats);
    case ArrayType => ok := CheckItems(j, v, depth, floats);
    case StringType => ok := Between(|v.s|, IntOf(j.fields, "minLength"), IntOf(j.fields, "maxLength"));
    case NumberType => ok := InRange(v.text, FloatOf(j.fields, "minimum"), FloatOf(j.fields, "maximum"), floats);
    case IntegerType => ok := InRange(v.text, FloatOf(j.fields, "minimum"), FloatOf(j.fields, "maximum"), floats);
    case _ => ok := true;
  }

  method CheckFields(j: Json, v: Json, ghost depth: nat, floats: Floats) returns (ok: bool)
    requires WellFormed(j, depth, floats) && TypeOf(j.fields) == Some(ObjectType) && v.Obj?
    ensures ok <==> && RequiredNames(j.fields) <= v.fields.Keys
                    && (!AllowsMore(j.fields) ==> v.fields.Keys <= Properties(j.fields).Keys)
                    && (forall key :: key in v.fields && key in Properties(j.fields) ==> PropertyOk(j, v, key, depth, floats))
    decreases j, 0
  {
    hide LocallyOk, Satisfies, Meaning;
    if "required" in j.fields && j.fields["required"].Arr? {
      ok := HasRequired(j.fields["required"].items, v);
      if !ok {
        return;
      }
    }
    var properties := Properties(j.fields);
    var todo := v.fields.Keys;
    while todo != {}
      invariant todo <= v.fields.Keys
      invariant !AllowsMore(j.fields) ==> v.fields.Keys - todo <= properties.Keys
      invariant forall key :: key in v.fields.Keys - todo && key in properties ==> PropertyOk(j, v, key, depth, floats)
      decreases todo
    {
      var key :| key in todo;
      todo := todo - {key};
      if key !in properties {
        if !AllowsMore(j.fields) {
          return false;
        }
        continue;
      }
      ok := Check(properties[key], v.fields[key], depth + 1, floats);
      if !ok {
        return;
      }
    }
    ok := true;
  }

  ghost predicate PropertyOk(j: Json, v: Json, key: string, depth: nat, floats: Floats)
    requires WellFormed(j, depth, floats) && TypeOf(j.fields) == Some(ObjectType) && v.Obj?
    requires key in v.fields && key in Properties(j.fields)
  {
    Satisfies(v.fields[key], Meaning(Properties(j.fields)[key], depth + 1, floats), floats)
  }

  /** The loop over the required names. */
  method HasRequired(required: seq<Json>, v: Json) returns (ok: bool)
    requires v.Obj?
    ensures ok <==> (set j | j in required && j.Str? :: j.s) <= v.fields.Keys
  {
    for i := 0 to |required|
      invariant forall k :: 0 <= k < i && required[k].Str? ==> required[k].s in v.fields
    {
      if required[i].Str? && required[i].s !in v.fields {
        assert required[i] in required;
        return false;
      }
    }
    ok := true;
  }

  method CheckItems(j: Json, v: Json, ghost depth: nat, floats: Floats) returns (ok: bool)
    requires WellFormed(j, depth, floats) && TypeOf(j.fields) == Some(ArrayType) && v.Arr? && "items" in j.fields
    ensures ok <==> && Between(|v.items|, IntOf(j.fields, "minItems"), IntOf(j.fields, "maxItems"))
                    && (forall i :: 0 <= i < |v.items| ==> Satisfies(v.items[i], Meaning(j.fields["items"], depth + 1, floats), floats))
    decreases j, 0
  {
    hide LocallyOk, Satisfies, Meaning, Between, IntOf, ParseInt64;
    if !Between(|v.items|, IntOf(j.fields, "minItems"), IntOf(j.fields, "maxItems")) {
      return false;
    }
    ok := CheckEach(j.fields["items"], v, depth + 1, floats);
  }

  /** The loop over the items. */
  method CheckEach(item: Json, v: Json, ghost depth: nat, floats: Floats) returns (ok: bool)
    requires WellFormed(item, depth, floats) && v.Arr?
    ensures ok <==> forall i :: 0 <= i < |v.items| ==> Satisfies(v.items[i], Meaning(item, depth, floats), floats)
    decreases item, 2
  {
    hide WellFormed, LocallyOk, Satisfies, Meaning;
    for i := 0 to |v.items|
      invariant forall k :: 0 <= k < i ==> Satisfies(v.items[k], Meaning(item, depth, floats), floats)
    {
      ok := Check(item, v.items[i], depth, floats);
      if !ok {
        return;
      }
    }
    ok := true;
  }

  const SCHEMA_MAX_BYTES := 24 * 1024
  const PAYLOAD_MAX_BYTES := 64 * 1024
  const PAYLOAD_MAX_NODES := 16384

  /** Accepting a schema, and validating a payload against it. `received` is the length of the payload
      as it was sent, `bytes` that of a value's own encoding. */
  method ValidatePayload(schema: Json, payload: Json, received: nat, bytes: Json -> nat, floats: Floats) returns (accepted: bool, ok: bool)
    ensures accepted <==> WellFormed(schema, 0, floats) && Nodes(schema) <= 256 && 0 < bytes(schema) <= 24 * 1024
    ensures ok <==> accepted && 0 < received <= 64 * 1024 && 0 < bytes(payload) <= 64 * 1024
                    && BoundedJson.Shapely(payload, 0) && Size(payload) <= 16384
                    && Satisfies(payload, Meaning(schema, 0, floats), floats)
  {
    hide WellFormed, Nodes, Satisfies, Meaning, Size, BoundedJson.Shapely;
    var budget := new Budget(MAX_NODES);
    accepted := ValidateNode(schema, 0, budget, floats);
    accepted := accepted && 0 < bytes(schema) <= SCHEMA_MAX_BYTES;
    if !accepted || received == 0 || received > PAYLOAD_MAX_BYTES {
      return accepted, false;
    }
    var count := new BoundedJson.Counter();
    ok := BoundedJson.Valid(payload, 0, count, PAYLOAD_MAX_NODES);
    if ok && 0 < bytes(payload) <= PAYLOAD_MAX_BYTES {
      ok := Check(schema, payload, 0, floats);
    } else {
      ok := false;
    }
  }
}
