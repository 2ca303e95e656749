/** The structural check that guards every JSON document of the protocol. */
module BoundedJson {
  import opened Json

  predicate UnsafeKey(key: string) {
    key == "__proto__" || key == "constructor" || key == "prototype"
  }

  /** What the check demands of the tree, apart from its size: each value's own bounds at its depth. */
  predicate Shapely(j: Json, depth: nat) {
    depth <= 12 &&
    match j
    case Str(s) => |s| <= 16384
    case Arr(items) => |items| <= 1000 && forall i :: 0 <= i < |items| ==> Shapely(items[i], depth + 1)
    case Obj(fields) =>
      |fields| <= 256
      && forall key :: key in fields ==> !UnsafeKey(key) && |key| <= 128 && Shapely(fields[key], depth + 1)
    case _ => true
  }

  /** The counter one check shares over the whole tree. */
  class Counter {
    var nodes: nat

    constructor ()
      ensures nodes == 0
    {
      nodes := 0;
    }
  }

  /** The check says yes exactly when the tree fits in what is left of the node limit and every value
      keeps its bounds, in whatever order the fields of an object are visited; the counter then has
      grown by exactly the size of the tree. */
  method Valid(value: Json, depth: nat, count: Counter, maxNodes: nat) returns (ok: bool)
    modifies count
    ensures ok <==> Shapely(value, depth) && old(count.nodes) + Size(value) <= maxNodes
    ensures old(count.nodes) < count.nodes
    ensures ok ==> count.nodes == old(count.nodes) + Size(value)
    decreases value, 1
  {
    count.nodes := count.nodes + 1;
    if depth > 12 || count.nodes > maxNodes {
      return false;
    }
    match value
    case Str(s) => ok := |s| <= 16384;
    case Arr(items) => ok := ValidItems(value, depth, count, maxNodes);
    case Obj(fields) => ok := ValidFields(value, depth, count, maxNodes);
    case _ => ok := true;
  }

  method ValidItems(value: Json, depth: nat, count: Counter, maxNodes: nat) returns (ok: bool)
    requires value.Arr? && depth <= 12 && count.nodes <= maxNodes
    modifies count
    ensures ok <==> Shapely(value, depth) && old(count.nodes) + ItemsSize(value, |value.items|) <= maxNodes
    ensures old(count.nodes) <= count.nodes
    ensures ok ==> count.nodes == old(count.nodes) + ItemsSize(value, |value.items|)
    decreases value, 0
  {
    if |value.items| > 1000 {
      return false;
    }
    var i := 0;
    while i < |value.items|
      invariant i <= |value.items| && count.nodes == old(count.nodes) + ItemsSize(value, i) <= maxNodes
      invariant forall k :: 0 <= k < i ==> Shapely(value.items[k], depth + 1)
    {
      ItemsGrow(value, i + 1, |value.items|);
      var good := Valid(value.items[i], depth + 1, count, maxNodes);
      if !good {
        return false;
      }
      i := i + 1;
    }
    ok := true;
  }

  method ValidFields(value: Json, depth: nat, count: Counter, maxNodes: nat) returns (ok: bool)
    requires value.Obj? && depth <= 12 && count.nodes <= maxNodes
    modifies count
    ensures ok <==> Shapely(value, depth) && old(count.nodes) + FieldsSize(value, value.fields.Keys) <= maxNodes
    ensures old(count.nodes) <= count.nodes
    ensures ok ==> count.nodes == old(count.nodes) + FieldsSize(value, value.fields.Keys)
    decreases value, 0
  {
    if |value.fields| > 256 {
      return false;
    }
    var todo := value.fields.Keys;
    assert value.fields.Keys - todo == {};
    while todo != {}
      invariant todo <= value.fields.Keys
      invariant count.nodes == old(count.nodes) + FieldsSize(value, value.fields.Keys - todo) <= maxNodes
      invariant forall key :: key in value.fields.Keys - todo ==> FieldOk(value, key, depth)
      decreases todo
    {
      hide FieldsSize, Shapely, FieldOk;
      var key :| key in todo;
      NextField(value, todo, key);
      var good := ValidField(value, key, depth, count, maxNodes);
      if !good {
        return false;
      }
      todo := todo - {key};
    }
    assert value.fields.Keys - todo == value.fields.Keys;
    ok := true;
  }

  method ValidField(value: Json, key: string, depth: nat, count: Counter, maxNodes: nat) returns (ok: bool)
    requires value.Obj? && key in value.fields
    modifies count
    ensures ok <==> FieldOk(value, key, depth) && old(count.nodes) + Size(value.fields[key]) <= maxNodes
    ensures old(count.nodes) <= count.nodes
    ensures ok ==> count.nodes == old(count.nodes) + Size(value.fields[key])
    decreases value.fields[key], 2
  {
    if UnsafeKey(key) || |key| > 128 {
      return false;
    }
    ok := Valid(value.fields[key], depth + 1, count, maxNodes);
  }

  predicate FieldOk(value: Json, key: string, depth: nat)
    requires value.Obj? && key in value.fields
  {
    !UnsafeKey(key) && |key| <= 128 && Shapely(value.fields[key], depth + 1)
  }

  lemma NextField(value: Json, todo: set<string>, key: string)
    requires value.Obj? && key in todo && todo <= value.fields.Keys
    ensures value.fields.Keys - (todo - {key}) == (value.fields.Keys - todo) + {key}
    ensures FieldsSize(value, value.fields.Keys - (todo - {key})) == FieldsSize(value, value.fields.Keys - todo) + Size(value.fields[key])
    ensures FieldsSize(value, value.fields.Keys - (todo - {key})) <= FieldsSize(value, value.fields.Keys)
  {
    var done := value.fields.Keys - todo;
    assert value.fields.Keys - (todo - {key}) == done + {key};
    FieldsSizeWithout(value, done + {key}, key);
    assert done + {key} - {key} == done;
    FieldsGrow(value, done + {key}, value.fields.Keys);
  }

  lemma {:induction false} ItemsGrow(j: Json, m: nat, n: nat)
    requires j.Arr? && m <= n <= |j.items|
    ensures ItemsSize(j, m) <= ItemsSize(j, n)
  {
    if m < n {
      ItemsGrow(j, m, n - 1);
    }
  }

  lemma {:induction false} FieldsGrow(j: Json, some: set<string>, keys: set<string>)
    requires j.Obj? && some <= keys <= j.fields.Keys
    ensures FieldsSize(j, some) <= FieldsSize(j, keys)
    decreases |keys|
  {
    if key :| key in keys && key !in some {
      FieldsSizeWithout(j, keys, key);
      FieldsGrow(j, some, keys - {key});
    } else {
      assert some == keys;
    }
  }

  // What the bounds mean for the tree -------------------------------------------

  /** `v` occurs in `j`, `d` levels down. */
  ghost predicate Occurs(j: Json, d: nat, v: Json)
    decreases j
  {
    (d == 0 && v == j)
    || (d > 0 && match j
                 case Arr(items) => exists i :: 0 <= i < |items| && Occurs(items[i], d - 1, v)
                 case Obj(fields) => exists key :: key in fields && Occurs(fields[key], d - 1, v)
                 case _ => false)
  }

  /** The bounds on one value, wherever it occurs. */
  predicate LocalOk(v: Json) {
    match v
    case Str(s) => |s| <= 16384
    case Arr(items) => |items| <= 1000
    case Obj(fields) => |fields| <= 256 && forall key :: key in fields ==> !UnsafeKey(key) && |key| <= 128
    case _ => true
  }

  /** A tree is shapely at a depth exactly when no value in it lies deeper than level 12 and every
      value in it keeps its own bounds. */
  lemma {:induction false} ShapelyExactly(j: Json, depth: nat)
    ensures Shapely(j, depth) <==> forall d: nat, v :: Within(j, d, v) ==> depth + d <= 12 && LocalOk(v)
  {
    if Shapely(j, depth) {
      forall d: nat, v | Within(j, d, v) ensures depth + d <= 12 && LocalOk(v) { ShapelyDown(j, depth, d, v); }
    } else {
      var d, v := Offender(j, depth);
      assert Within(j, d, v);
    }
  }

  ghost predicate Within(j: Json, d: nat, v: Json) {
    Occurs(j, d, v)
  }

  lemma {:induction false} Offender(j: Json, depth: nat) returns (d: nat, v: Json)
    requires !Shapely(j, depth)
    ensures Occurs(j, d, v) && !(depth + d <= 12 && LocalOk(v))
    decreases j
  {
    d, v := 0, j;
    if depth <= 12 && LocalOk(j) {
      match j
      case Arr(items) =>
        var i :| 0 <= i < |items| && !Shapely(items[i], depth + 1);
        d, v := Offender(items[i], depth + 1);
        d := d + 1;
      case Obj(fields) =>
        var key :| key in fields && !Shapely(fields[key], depth + 1);
        d, v := Offender(fields[key], depth + 1);
        d := d + 1;
    }
  }

  lemma ShapelyHere(j: Json, depth: nat)
    requires Shapely(j, depth)
    ensures depth <= 12 && LocalOk(j)
  {
  }

  lemma {:induction false} ShapelyDown(j: Json, depth: nat, d: nat, v: Json)
    requires Shapely(j, depth) && Occurs(j, d, v)
    ensures depth + d <= 12 && LocalOk(v)
    decreases j
  {
    hide LocalOk;
    if d == 0 {
      ShapelyHere(j, depth);
    } else {
      match j
      case Arr(items) =>
        var i :| 0 <= i < |items| && Occurs(items[i], d - 1, v);
        ShapelyDown(items[i], depth + 1, d - 1, v);
      case Obj(fields) =>
        var key :| key in fields && Occurs(fields[key], d - 1, v);
        ShapelyDown(fields[key], depth + 1, d - 1, v);
      case _ =>
    }
  }
}
