/** Decoded JSON values, as a decoder that keeps number texts (UseNumber) yields them. Strings are
    sequences of Unicode scalar values, so every string is valid UTF-8. */
module Json {

  datatype Json =
    | Null
    | Bool(b: bool)
    | Num(text: string)
    | Str(s: string)
    | Arr(items: seq<Json>)
    | Obj(fields: map<string, Json>)

  /** The number of values in the tree. */
  ghost function Size(j: Json): (n: nat)
    ensures n >= 1
    decreases j, 1, 0
  {
    match j
    case Arr(items) => 1 + ItemsSize(j, |items|)
    case Obj(fields) => 1 + FieldsSize(j, fields.Keys)
    case _ => 1
  }

  /** The values below the first `n` items. */
  ghost function ItemsSize(j: Json, n: nat): nat
    requires j.Arr? && n <= |j.items|
    decreases j, 0, n
  {
    if n == 0 then 0 else ItemsSize(j, n - 1) + Size(j.items[n - 1])
  }

  /** The values below the fields in `keys`. */
  ghost function FieldsSize(j: Json, keys: set<string>): nat
    requires j.Obj? && keys <= j.fields.Keys
    decreases j, 0, |keys|
  {
    if keys == {} then 0
    else
      var key :| key in keys;
      FieldsSize(j, keys - {key}) + Size(j.fields[key])
  }

  /** The order in which the fields are visited does not matter. */
  lemma {:induction false} FieldsSizeWithout(j: Json, keys: set<string>, key: string)
    requires j.Obj? && keys <= j.fields.Keys && key in keys
    ensures FieldsSize(j, keys) == FieldsSize(j, keys - {key}) + Size(j.fields[key])
    decreases |keys|
  {
    var first :| first in keys && FieldsSize(j, keys) == FieldsSize(j, keys - {first}) + Size(j.fields[first]);
    if first != key {
      FieldsSizeWithout(j, keys - {first}, key);
      FieldsSizeWithout(j, keys - {key}, first);
      assert keys - {first} - {key} == keys - {key} - {first};
    }
  }
}
