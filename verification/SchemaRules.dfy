/** The rules of task input schemas in terms of the JSON they are written in: what an accepted schema looks
    like, and which values it admits. */
module SchemaRules {
  import opened Basics
  import opened Texts
  import opened Json
  import opened TaskSchema

  // Parts of a schema -----------------------------------------------------------------

  /** A text with something in it, without spaces at its ends and without line breaks. */
  predicate CleanText(j: Json, most: nat) {
    j.Str? && j.s != "" && Tight(j.s) && |j.s| <= most && '\0' !in j.s && '\r' !in j.s && '\n' !in j.s
  }

  predicate IsOf(v: Json, name: string) {
    match name
    case "object" => v.Obj?
    case "array" => v.Arr?
    case "string" => v.Str?
    case "number" => v.Num?
    case "integer" => v.Num? && ParseInt64(v.text).Some?
    case "boolean" => v.Bool?
    case "null" => v.Null?
    case _ => false
  }

  predicate EnumFits(j: Json, name: string) {
    j.Arr? && 1 <= |j.items| <= 64
    && (forall i, k :: 0 <= i < k < |j.items| ==> j.items[i] != j.items[k])
    && forall i :: 0 <= i < |j.items| ==> IsOf(j.items[i], name)
  }

  /** The field is absent, null or an integer from 0 to the ceiling. */
  predicate CountOrNone(fields: map<string, Json>, key: string, ceiling: int) {
    key in fields && !fields[key].Null? ==>
      fields[key].Num? && ParseInt64(fields[key].text).Some? && 0 <= ParseInt64(fields[key].text).value <= ceiling
  }

  predicate Counts(fields: map<string, Json>, low: string, high: string, ceiling: int) {
    && CountOrNone(fields, low, ceiling) && CountOrNone(fields, high, ceiling)
    && (low in fields && fields[low].Num? && high in fields && fields[high].Num? ==>
          ParseInt64(fields[low].text).Some? && ParseInt64(fields[high].text).Some?
          && ParseInt64(fields[low].text).value <= ParseInt64(fields[high].text).value)
  }

  predicate NumberOrNone(fields: map<string, Json>, key: string, floats: Floats) {
    key in fields && !fields[key].Null? ==> fields[key].Num? && floats.ok(fields[key].text)
  }

  predicate PropertiesFit(fields: map<string, Json>) {
    "properties" in fields ==>
      && fields["properties"].Obj? && |fields["properties"].fields| <= 64
      && forall key :: key in fields["properties"].fields ==> NameFits(key)
  }

  predicate NameFits(key: string) {
    key != "" && |key| <= 128 && key !in {"__proto__", "constructor", "prototype"}
  }

  predicate RequiredFits(fields: map<string, Json>) {
    "required" in fields ==>
      && fields["required"].Arr? && |fields["required"].items| <= 64
      && (forall i, k :: 0 <= i < k < |fields["required"].items| ==> fields["required"].items[i] != fields["required"].items[k])
      && forall i :: 0 <= i < |fields["required"].items| ==> NamesProperty(fields, fields["required"].items[i])
  }

  predicate NamesProperty(fields: map<string, Json>, j: Json) {
    CleanText(j, 128) && "properties" in fields && fields["properties"].Obj? && j.s in fields["properties"].fields
    && !fields["properties"].fields[j.s].Null?
  }

  predicate OwnKeys(fields: map<string, Json>, name: string) {
    fields.Keys <= {"type", "title", "description", "enum"} +
                   if name == "object" then {"properties", "required", "additionalProperties"}
                   else if name == "array" then {"items", "minItems", "maxItems"}
                   else if name == "string" then {"minLength", "maxLength"}
                   else if name in {"number", "integer"} then {"minimum", "maximum"}
                   else {}
  }

  predicate OwnRules(fields: map<string, Json>, name: string, floats: Floats) {
    match name
    case "object" =>
      PropertiesFit(fields) && RequiredFits(fields) && ("additionalProperties" in fields ==> fields["additionalProperties"].Bool?)
    case "array" => "items" in fields && Counts(fields, "minItems", "maxItems", 1000)
    case "string" => Counts(fields, "minLength", "maxLength", 16384)
    case "boolean" => true
    case "null" => true
    case _ =>
      && name in {"number", "integer"} && NumberOrNone(fields, "minimum", floats) && NumberOrNone(fields, "maximum", floats)
      && ("minimum" in fields && fields["minimum"].Num? && "maximum" in fields && fields["maximum"].Num? ==>
            !floats.less(fields["maximum"].text, fields["minimum"].text))
  }

  // Accepted schemas ------------------------------------------------------------------

  lemma TextRule(j: Json, most: nat)
    ensures ManifestText(j, most) <==> CleanText(j, most)
  {
    if j.Str? {
      TrimSpaceExactly(j.s, j.s);
      TightIsTrimmed(j.s);
    }
  }

  lemma TightIsTrimmed(s: string)
    ensures Trimmed(s, s) <==> Tight(s)
  {
    assert s[0..|s|] == s;
  }

  /** A JSON value is accepted as a schema exactly if it is an object of a known type that has only its type's
      fields, each as its rule demands, and whose subschemas are accepted one level down, to level 8. */
  lemma WellFormedExactly(j: Json, depth: nat, floats: Floats)
    ensures WellFormed(j, depth, floats)
            <==> && depth <= 8 && j.Obj? && "type" in j.fields && j.fields["type"].Str?
                 && (var fields, name := j.fields, j.fields["type"].s;
                     && OwnKeys(fields, name) && OwnRules(fields, name, floats)
                     && ("title" in fields ==> CleanText(fields["title"], 256))
                     && ("description" in fields ==> CleanText(fields["description"], 1000))
                     && ("enum" in fields ==> EnumFits(fields["enum"], name))
                     && (name == "object" && "properties" in fields ==>
                           forall key :: key in fields["properties"].fields ==> WellFormed(fields["properties"].fields[key], depth + 1, floats))
                     && (name == "array" ==> WellFormed(fields["items"], depth + 1, floats)))
  {
    hide ManifestText, CleanText, OwnKeys, EnumFits, LocallyOk, OwnRules, TypeOf, TypeNamed;
    if j.Obj? && "type" in j.fields && j.fields["type"].Str? {
      TypeRule(j.fields);
      UnknownType(j.fields["type"].s);
      NamesOfTypes(j.fields["type"].s);
      NeedsParts(j.fields, j.fields["type"].s, floats);
      if "properties" in j.fields && j.fields["properties"].Obj? { BelowRule(j.fields, depth, floats); }
      if TypeNamed(j.fields["type"].s).Some? { LocalRule(j.fields, j.fields["type"].s, floats); }
    } else {
      TypeIsText(j);
    }
  }

  lemma UnknownType(name: string)
    ensures TypeNamed(name).None? ==> forall fields, floats :: !OwnRules(fields, name, floats)
  {
  }

  lemma BelowRule(fields: map<string, Json>, depth: nat, floats: Floats)
    requires "properties" in fields && fields["properties"].Obj?
    ensures (forall key :: key in Properties(fields) ==> WellFormed(Properties(fields)[key], depth + 1, floats))
            <==> forall key :: key in fields["properties"].fields ==> WellFormed(fields["properties"].fields[key], depth + 1, floats)
  {
    hide WellFormed;
    assert Properties(fields) == fields["properties"].fields;
  }

  lemma NeedsParts(fields: map<string, Json>, name: string, floats: Floats)
    ensures name == "array" && OwnRules(fields, name, floats) ==> "items" in fields
    ensures name == "object" && OwnRules(fields, name, floats) && "properties" in fields ==> fields["properties"].Obj?
  {
    hide Counts;
  }

  lemma LocalRule(fields: map<string, Json>, name: string, floats: Floats)
    requires "type" in fields && fields["type"] == Str(name) && TypeOf(fields) == TypeNamed(name) && TypeNamed(name).Some?
    ensures LocallyOk(fields, TypeNamed(name).value, floats)
            <==> && OwnKeys(fields, name) && OwnRules(fields, name, floats)
                 && ("title" in fields ==> CleanText(fields["title"], 256))
                 && ("description" in fields ==> CleanText(fields["description"], 1000))
                 && ("enum" in fields ==> EnumFits(fields["enum"], name))
  {
    hide ManifestText, CleanText, Allowed, OwnKeys, EnumOk, EnumFits, OwnRules, TypeOf;
    KeysRule(fields, name);
    if "title" in fields { TextRule(fields["title"], 256); }
    if "description" in fields { TextRule(fields["description"], 1000); }
    if "enum" in fields { EnumRule(fields["enum"], name); }
    ShapeRule(fields, name, floats);
  }

  /** The rules of the type itself. */
  predicate ShapeOk(fields: map<string, Json>, t: Type, floats: Floats) {
    match t
    case ObjectType =>
      && ("properties" in fields ==> fields["properties"].Obj? && |fields["properties"].fields| <= MAX_PROPERTIES)
      && (forall key :: key in Properties(fields) ==> PropertyName(key))
      && ("required" in fields ==> RequiredOk(fields["required"], Properties(fields)))
      && ("additionalProperties" in fields ==> fields["additionalProperties"].Bool?)
    case ArrayType => "items" in fields && IntBounds(fields, "minItems", "maxItems", 1000)
    case StringType => IntBounds(fields, "minLength", "maxLength", 16384)
    case NumberType => FloatBounds(fields, floats)
    case IntegerType => FloatBounds(fields, floats)
    case _ => true
  }

  lemma ShapeRule(fields: map<string, Json>, name: string, floats: Floats)
    requires TypeNamed(name).Some?
    ensures ShapeOk(fields, TypeNamed(name).value, floats) <==> OwnRules(fields, name, floats)
  {
    hide RequiredOk, RequiredFits, IntBounds, Counts, FloatBounds, NumberOrNone, PropertiesFit, Properties, PropertyName, NameFits;
    match name
    case "object" =>
      PropertiesRule(fields);
      RequiredRule(fields);
    case "array" => CountsRule(fields, "minItems", "maxItems", 1000);
    case "string" => CountsRule(fields, "minLength", "maxLength", 16384);
    case "number" => NumbersRule(fields, floats);
    case "integer" => NumbersRule(fields, floats);
    case _ =>
  }

  lemma NameRule(key: string)
    ensures PropertyName(key) <==> NameFits(key)
  {
  }

  lemma PropertiesRule(fields: map<string, Json>)
    ensures ("properties" in fields ==> fields["properties"].Obj? && |fields["properties"].fields| <= MAX_PROPERTIES)
            && (forall key :: key in Properties(fields) ==> PropertyName(key))
            <==> PropertiesFit(fields)
  {
    hide PropertyName, NameFits;
    forall key ensures PropertyName(key) <==> NameFits(key) { NameRule(key); }
    if "properties" in fields && fields["properties"].Obj? { assert Properties(fields) == fields["properties"].fields; }
  }

  lemma TypeIsText(j: Json)
    ensures j.Obj? && TypeOf(j.fields).Some? ==> "type" in j.fields && j.fields["type"].Str?
  {
  }

  lemma TypeRule(fields: map<string, Json>)
    requires "type" in fields && fields["type"].Str?
    ensures TypeOf(fields) == TypeNamed(fields["type"].s)
  {
    hide ManifestText, CleanText;
    TextRule(fields["type"], 32);
    KnownNameIsClean(fields["type"].s);
  }

  lemma KnownNameIsClean(name: string)
    ensures TypeNamed(name).Some? ==> CleanText(Str(name), 32)
  {
  }

  lemma KeysRule(fields: map<string, Json>, name: string)
    ensures TypeNamed(name).Some? ==> (fields.Keys <= Allowed(TypeNamed(name).value) <==> OwnKeys(fields, name))
  {
  }

  lemma EnumRule(j: Json, name: string)
    ensures TypeNamed(name).Some? ==> (EnumOk(j, TypeNamed(name).value) <==> EnumFits(j, name))
  {
    hide ParseInt64;
    if TypeNamed(name).Some? && j.Arr? {
      forall i | 0 <= i < |j.items| ensures Matches(j.items[i], TypeNamed(name).value) <==> IsOf(j.items[i], name) {
      }
    }
  }

  lemma RequiredRule(fields: map<string, Json>)
    ensures ("required" in fields ==> RequiredOk(fields["required"], Properties(fields))) <==> RequiredFits(fields)
  {
    hide ManifestText, CleanText;
    if "required" in fields && fields["required"].Arr? {
      forall i | 0 <= i < |fields["required"].items| ensures ManifestText(fields["required"].items[i], 128) <==> CleanText(fields["required"].items[i], 128) {
        TextRule(fields["required"].items[i], 128);
      }
      IsTextWhenClean(fields["required"].items);
    }
  }

  lemma IsTextWhenClean(items: seq<Json>)
    ensures forall i :: 0 <= i < |items| && CleanText(items[i], 128) ==> items[i].Str?
  {
  }

  lemma CountsRule(fields: map<string, Json>, low: string, high: string, ceiling: int)
    ensures IntBounds(fields, low, high, ceiling) <==> Counts(fields, low, high, ceiling)
  {
    hide ParseInt64;
  }

  lemma NumbersRule(fields: map<string, Json>, floats: Floats)
    ensures FloatBounds(fields, floats)
            <==> && NumberOrNone(fields, "minimum", floats) && NumberOrNone(fields, "maximum", floats)
                 && ("minimum" in fields && fields["minimum"].Num? && "maximum" in fields && fields["maximum"].Num? ==>
                       !floats.less(fields["maximum"].text, fields["minimum"].text))
  {
    if FloatBounds(fields, floats) {
      assert "minimum" in {"minimum", "maximum"} && "maximum" in {"minimum", "maximum"};
    }
  }

  // Admitted values -------------------------------------------------------------------

  predicate CountFits(fields: map<string, Json>, low: string, high: string, n: int) {
    && (low in fields && fields[low].Num? && ParseInt64(fields[low].text).Some? ==> ParseInt64(fields[low].text).value <= n)
    && (high in fields && fields[high].Num? && ParseInt64(fields[high].text).Some? ==> n <= ParseInt64(fields[high].text).value)
  }

  predicate NumberFits(fields: map<string, Json>, text: string, floats: Floats) {
    && ("minimum" in fields && fields["minimum"].Num? ==> !floats.less(text, fields["minimum"].text))
    && ("maximum" in fields && fields["maximum"].Num? ==> !floats.less(fields["maximum"].text, text))
  }

  predicate Declares(fields: map<string, Json>, key: string) {
    "properties" in fields && fields["properties"].Obj? && key in fields["properties"].fields
  }

  predicate HasRequired(fields: map<string, Json>, v: Json)
    requires v.Obj?
  {
    "required" in fields && fields["required"].Arr? ==>
      forall i :: 0 <= i < |fields["required"].items| && fields["required"].items[i].Str? ==> fields["required"].items[i].s in v.fields
  }

  /** The schema admits the value: it is of the schema's type, one of its enum and within its bounds, has what
      is required, and all its parts are admitted. */
  ghost predicate Admits(j: Json, v: Json, floats: Floats)
    decreases j
  {
    j.Obj? && "type" in j.fields && j.fields["type"].Str? && IsOf(v, j.fields["type"].s) &&
    InEnum(j.fields, v) &&
    match j.fields["type"].s
    case "object" =>
      && HasRequired(j.fields, v)
      && (forall key :: key in v.fields ==>
            if Declares(j.fields, key) then Admits(j.fields["properties"].fields[key], v.fields[key], floats)
            else !("additionalProperties" in j.fields && j.fields["additionalProperties"] == Bool(false)))
    case "array" =>
      && CountFits(j.fields, "minItems", "maxItems", |v.items|)
      && ("items" in j.fields ==> forall i :: 0 <= i < |v.items| ==> Admits(j.fields["items"], v.items[i], floats))
    case "string" => CountFits(j.fields, "minLength", "maxLength", |v.s|)
    case "number" => NumberFits(j.fields, v.text, floats)
    case "integer" => NumberFits(j.fields, v.text, floats)
    case _ => true
  }

  /** What an accepted schema means is exactly what it admits. */
  lemma {:induction false} AdmitsExactly(j: Json, v: Json, depth: nat, floats: Floats)
    requires WellFormed(j, depth, floats)
    ensures Satisfies(v, Meaning(j, depth, floats), floats) <==> Admits(j, v, floats)
    decreases j
  {
    hide LocallyOk, TypeNamed, TypeOf, Matches, ParseInt64, CountFits, NumberFits, HasRequired, Satisfies, Meaning, Admits;
    SchemaParts(j, depth, floats);
    var fields, t := j.fields, TypeOf(j.fields).value;
    if t == ObjectType && v.Obj? {
      forall key | key in v.fields && key in Properties(fields) ensures PropertyAgrees(j, v, key, depth, floats) {
        AdmitsExactly(Properties(fields)[key], v.fields[key], depth + 1, floats);
      }
      ObjectAgrees(j, v, depth, floats);
    } else if t == ArrayType && v.Arr? {
      forall i | 0 <= i < |v.items| ensures ItemAgrees(j, v, i, depth, floats) {
        AdmitsExactly(fields["items"], v.items[i], depth + 1, floats);
      }
      ArrayAgrees(j, v, depth, floats);
    } else {
      ScalarAgrees(j, v, depth, floats);
    }
  }

  lemma SchemaParts(j: Json, depth: nat, floats: Floats)
    requires WellFormed(j, depth, floats)
    ensures j.Obj? && "type" in j.fields && j.fields["type"].Str? && TypeOf(j.fields).Some? && TypeOf(j.fields) == TypeNamed(j.fields["type"].s)
    ensures TypeOf(j.fields) == Some(ArrayType) ==> "items" in j.fields
    ensures "enum" in j.fields ==> j.fields["enum"].Arr?
    ensures TypeOf(j.fields) == Some(ObjectType) ==>
              && ("required" in j.fields ==> j.fields["required"].Arr?) && ("properties" in j.fields ==> j.fields["properties"].Obj?)
              && ("additionalProperties" in j.fields ==> j.fields["additionalProperties"].Bool?)
  {
    hide ManifestText, TypeNamed, IntBounds, FloatBounds, Allowed, PropertyName;
    TypeIsText(j);
  }

  ghost predicate PropertyAgrees(j: Json, v: Json, key: string, depth: nat, floats: Floats)
    requires WellFormed(j, depth, floats) && TypeOf(j.fields) == Some(ObjectType) && v.Obj? && key in v.fields && key in Properties(j.fields)
  {
    Satisfies(v.fields[key], Meaning(Properties(j.fields)[key], depth + 1, floats), floats)
    <==> Admits(Properties(j.fields)[key], v.fields[key], floats)
  }

  ghost predicate ItemAgrees(j: Json, v: Json, i: nat, depth: nat, floats: Floats)
    requires WellFormed(j, depth, floats) && TypeOf(j.fields) == Some(ArrayType) && "items" in j.fields && v.Arr? && i < |v.items|
  {
    Satisfies(v.items[i], Meaning(j.fields["items"], depth + 1, floats), floats) <==> Admits(j.fields["items"], v.items[i], floats)
  }

  /** The value is one of the enum, if there is one. */
  predicate InEnum(fields: map<string, Json>, v: Json) {
    "enum" in fields && fields["enum"].Arr? ==> v in fields["enum"].items
  }

  lemma ObjectAgrees(j: Json, v: Json, depth: nat, floats: Floats)
    requires WellFormed(j, depth, floats) && TypeOf(j.fields) == Some(ObjectType) && v.Obj?
    requires forall key :: key in v.fields && key in Properties(j.fields) ==> PropertyAgrees(j, v, key, depth, floats)
    ensures Satisfies(v, Meaning(j, depth, floats), floats) <==> Admits(j, v, floats)
  {
    hide LocallyOk, ManifestText;
    SchemaParts(j, depth, floats);
    NamesOfTypes(j.fields["type"].s);
    hide TypeNamed;
    RequiredAgrees(j.fields, v);
    forall key ensures Declares(j.fields, key) <==> key in Properties(j.fields) {
    }
    forall key | key in v.fields && key in Properties(j.fields) ensures PropertyAgrees(j, v, key, depth, floats) {
    }
  }

  lemma RequiredAgrees(fields: map<string, Json>, v: Json)
    requires v.Obj?
    ensures RequiredNames(fields) <= v.fields.Keys <==> HasRequired(fields, v)
  {
    if "required" in fields && fields["required"].Arr? {
      var items := fields["required"].items;
      if HasRequired(fields, v) {
        forall name | name in RequiredNames(fields) ensures name in v.fields {
          var j :| j in items && j.Str? && j.s == name;
          var i :| 0 <= i < |items| && items[i] == j;
        }
      } else {
        var i :| 0 <= i < |items| && items[i].Str? && items[i].s !in v.fields;
        assert items[i] in items;
        assert items[i].s in RequiredNames(fields);
      }
    }
  }

  lemma ArrayAgrees(j: Json, v: Json, depth: nat, floats: Floats)
    requires WellFormed(j, depth, floats) && TypeOf(j.fields) == Some(ArrayType) && "items" in j.fields && v.Arr?
    requires forall i :: 0 <= i < |v.items| ==> ItemAgrees(j, v, i, depth, floats)
    ensures Satisfies(v, Meaning(j, depth, floats), floats) <==> Admits(j, v, floats)
  {
    hide LocallyOk, ManifestText, ParseInt64, CountFits, Between, IntOf;
    SchemaParts(j, depth, floats);
    NamesOfTypes(j.fields["type"].s);
    hide TypeNamed;
    CountsAgree(j.fields, "minItems", "maxItems", |v.items|);
    var item := Meaning(j.fields["items"], depth + 1, floats);
    forall i | 0 <= i < |v.items| ensures Satisfies(v.items[i], item, floats) <==> Admits(j.fields["items"], v.items[i], floats) {
      assert ItemAgrees(j, v, i, depth, floats);
    }
    assert Meaning(j, depth, floats).shape == Array(item, IntOf(j.fields, "minItems"), IntOf(j.fields, "maxItems"));
  }

  lemma CountsAgree(fields: map<string, Json>, low: string, high: string, n: int)
    ensures Between(n, IntOf(fields, low), IntOf(fields, high)) <==> CountFits(fields, low, high, n)
  {
    hide ParseInt64;
  }

  lemma NumbersAgree(fields: map<string, Json>, text: string, floats: Floats)
    ensures InRange(text, FloatOf(fields, "minimum"), FloatOf(fields, "maximum"), floats) <==> NumberFits(fields, text, floats)
  {
  }

  lemma NamesOfTypes(name: string)
    ensures TypeNamed(name) == Some(ObjectType) <==> name == "object"
    ensures TypeNamed(name) == Some(ArrayType) <==> name == "array"
    ensures TypeNamed(name) == Some(StringType) <==> name == "string"
    ensures TypeNamed(name) == Some(NumberType) <==> name == "number"
    ensures TypeNamed(name) == Some(IntegerType) <==> name == "integer"
    ensures TypeNamed(name) == Some(BooleanType) <==> name == "boolean"
    ensures TypeNamed(name) == Some(NullType) <==> name == "null"
  {
  }

  /** A value without parts, or one that is not of the schema's type. */
  lemma ScalarAgrees(j: Json, v: Json, depth: nat, floats: Floats)
    requires WellFormed(j, depth, floats)
    requires !(TypeOf(j.fields) == Some(ObjectType) && v.Obj?) && !(TypeOf(j.fields) == Some(ArrayType) && v.Arr?)
    ensures Satisfies(v, Meaning(j, depth, floats), floats) <==> Admits(j, v, floats)
  {
    hide LocallyOk, ManifestText, ParseInt64, CountFits, Between, IntOf, InRange, FloatOf, NumberFits;
    SchemaParts(j, depth, floats);
    NamesOfTypes(j.fields["type"].s);
    hide TypeNamed;
    if v.Str? { CountsAgree(j.fields, "minLength", "maxLength", |v.s|); }
    if v.Num? { NumbersAgree(j.fields, v.text, floats); }
  }
}
