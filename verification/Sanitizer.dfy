/** The sanitizer that cuts page context down to a bounded tree. `finite` says which number texts denote
    a finite float. */
module Sanitizer {
  import opened Basics
  import opened Json
  import BoundedJson

  const MAX_DEPTH := 6
  const MAX_ITEMS := 50
  const MAX_KEYS := 50
  const MAX_KEY_LENGTH := 128
  const MAX_STRING := 1000

  // Key order ---------------------------------------------------------------------------

  /** The order sort.Strings puts keys in: by code point, which is the order of their UTF-8 bytes. */
  predicate Less(a: string, b: string) {
    b != "" && (a == "" || a[0] < b[0] || (a[0] == b[0] && Less(a[1..], b[1..])))
  }

  lemma {:induction false} LessIsOrder(a: string, b: string)
    ensures !(Less(a, b) && Less(b, a)) && (Less(a, b) || Less(b, a) || a == b)
  {
    if a != "" && b != "" {
      LessIsOrder(a[1..], b[1..]);
      assert a == [a[0]] + a[1..] && b == [b[0]] + b[1..];
    }
  }

  lemma {:induction false} LessIsTransitive(a: string, b: string, c: string)
    requires Less(a, b) && Less(b, c)
    ensures Less(a, c)
  {
    if a != "" && a[0] == b[0] && b[0] == c[0] {
      LessIsTransitive(a[1..], b[1..], c[1..]);
    }
  }

  predicate IsLeast(key: string, keys: set<string>) {
    key in keys && forall other :: other in keys && other != key ==> Less(key, other)
  }

  lemma {:induction false} LeastExists(keys: set<string>)
    requires keys != {}
    ensures exists key :: IsLeast(key, keys)
  {
    var some :| some in keys;
    var others := keys - {some};
    if others == {} {
      assert keys == others + {some};
      assert IsLeast(some, keys);
    } else {
      LeastExists(others);
      var key :| IsLeast(key, others);
      LessIsOrder(some, key);
      if Less(some, key) {
        forall other | other in keys && other != some ensures Less(some, other) {
          if other != key { LessIsTransitive(some, key, other); }
        }
        assert IsLeast(some, keys);
      } else {
        assert IsLeast(key, keys);
      }
    }
  }

  lemma LeastIsUnique(a: string, b: string, keys: set<string>)
    requires IsLeast(a, keys) && IsLeast(b, keys)
    ensures a == b
  {
    LessIsOrder(a, b);
  }

  ghost function Sorted(keys: set<string>): (s: seq<string>)
    ensures |s| == |keys| && forall i :: 0 <= i < |s| ==> s[i] in keys
    ensures forall i, j :: 0 <= i < j < |s| ==> s[i] != s[j]
    decreases |keys|
  {
    if keys == {} then []
    else
      LeastExists(keys);
      var key :| IsLeast(key, keys);
      [key] + Sorted(keys - {key})
  }

  lemma SortedStep(keys: set<string>, key: string)
    requires IsLeast(key, keys)
    ensures Sorted(keys) == [key] + Sorted(keys - {key})
  {
    hide Less;
    var first :| IsLeast(first, keys) && Sorted(keys) == [first] + Sorted(keys - {first});
    LeastIsUnique(key, first, keys);
  }

  /** sort.Strings, as a selection of least keys. */
  method Sort(keys: set<string>) returns (s: seq<string>)
    ensures s == Sorted(keys)
  {
    hide Less, Sorted;
    s := [];
    var todo := keys;
    assert [] + Sorted(todo) == Sorted(todo);
    while todo != {}
      invariant s + Sorted(todo) == Sorted(keys)
      decreases todo
    {
      LeastExists(todo);
      var key :| key in todo && IsLeast(key, todo);
      SortedStep(todo, key);
      assert s + [key] + Sorted(todo - {key}) == s + ([key] + Sorted(todo - {key}));
      s := s + [key];
      todo := todo - {key};
    }
    NoneSorted();
    assert s + [] == s;
  }

  lemma NoneSorted()
    ensures Sorted({}) == []
  {
  }

  // What the sanitizer computes -------------------------------------------------------------

  predicate Usable(key: string) {
    |key| <= MAX_KEY_LENGTH && !BoundedJson.UnsafeKey(key)
  }

  /** The keys of an object that are looked at: the usable ones, in order, at most 50. */
  ghost function Looked(j: Json): (keys: seq<string>)
    requires j.Obj?
    ensures |keys| <= MAX_KEYS && forall i :: 0 <= i < |keys| ==> keys[i] in j.fields && Usable(keys[i])
    ensures forall a, b :: 0 <= a < b < |keys| ==> keys[a] != keys[b]
  {
    var keys := Sorted(set key | key in j.fields && Usable(key));
    if |keys| > MAX_KEYS then keys[..MAX_KEYS] else keys
  }

  /** The sanitized value, if any, and the visits left. */
  ghost function Sanitized(j: Json, depth: nat, left: nat, finite: string -> bool): (Option<Json>, nat)
    decreases j, 1, 0
  {
    if depth > MAX_DEPTH || left == 0 then (None, left)
    else
      match j
      case Num(text) => (if finite(text) then Some(j) else None, left - 1)
      case Str(s) => (Some(Str(Truncate(s, MAX_STRING))), left - 1)
      case Arr(items) =>
        var (out, rest) := Items(j, if |items| > MAX_ITEMS then MAX_ITEMS else |items|, depth, left - 1, finite);
        (Some(Arr(out)), rest)
      case Obj(fields) =>
        var (out, rest) := Fields(j, |Looked(j)|, depth, left - 1, finite);
        (Some(Obj(out)), rest)
      case _ => (Some(j), left - 1)
  }

  /** The outcome of the first `n` items. */
  ghost function Items(j: Json, n: nat, depth: nat, left: nat, finite: string -> bool): (seq<Json>, nat)
    requires j.Arr? && n <= |j.items|
    decreases j, 0, n
  {
    if n == 0 then ([], left)
    else
      var (out, rest) := Items(j, n - 1, depth, left, finite);
      if rest == 0 then (out, rest)
      else
        var (item, after) := Sanitized(j.items[n - 1], depth + 1, rest, finite);
        (if item.Some? then out + [item.value] else out, after)
  }

  /** The outcome of the first `n` keys looked at. */
  ghost function Fields(j: Json, n: nat, depth: nat, left: nat, finite: string -> bool): (map<string, Json>, nat)
    requires j.Obj? && n <= |Looked(j)|
    decreases j, 0, n
  {
    if n == 0 then (map[], left)
    else
      var key := Looked(j)[n - 1];
      var (out, rest) := Fields(j, n - 1, depth, left, finite);
      if rest == 0 then (out, rest)
      else
        var (item, after) := Sanitized(j.fields[key], depth + 1, rest, finite);
        (if item.Some? then out[key := item.value] else out, after)
  }

  class Budget {
    var left: nat

    constructor (left: nat)
      ensures this.left == left
    {
      this.left := left;
    }
  }

  method Sanitize(j: Json, depth: nat, budget: Budget, finite: string -> bool) returns (out: Option<Json>)
    modifies budget
    ensures (out, budget.left) == Sanitized(j, depth, old(budget.left), finite)
    decreases j, 1
  {
    if depth > MAX_DEPTH || budget.left == 0 {
      return None;
    }
    budget.left := budget.left - 1;
    match j
    case Num(text) => out := if finite(text) then Some(j) else None;
    case Str(s) => out := Some(Str(Truncate(s, MAX_STRING)));
    case Arr(items) =>
      var result := SanitizeItems(j, depth, budget, finite);
      out := Some(Arr(result));
    case Obj(fields) =>
      var result := SanitizeFields(j, depth, budget, finite);
      out := Some(Obj(result));
    case _ => out := Some(j);
  }

  method SanitizeItems(j: Json, depth: nat, budget: Budget, finite: string -> bool) returns (result: seq<Json>)
    requires j.Arr?
    modifies budget
    ensures (result, budget.left) == Items(j, if |j.items| > MAX_ITEMS then MAX_ITEMS else |j.items|, depth, old(budget.left), finite)
    decreases j, 0
  {
    var limit := |j.items|;
    if limit > MAX_ITEMS {
      limit := MAX_ITEMS;
    }
    result := [];
    var i := 0;
    while i < limit
      invariant i <= limit && (result, budget.left) == Items(j, i, depth, old(budget.left), finite)
    {
      if budget.left == 0 {
        ItemsStop(j, i, limit, depth, old(budget.left), finite);
        break;
      }
      var item := Sanitize(j.items[i], depth + 1, budget, finite);
      if item.Some? {
        result := result + [item.value];
      }
      i := i + 1;
    }
  }

  method SanitizeFields(j: Json, depth: nat, budget: Budget, finite: string -> bool) returns (result: map<string, Json>)
    requires j.Obj?
    modifies budget
    ensures (result, budget.left) == Fields(j, |Looked(j)|, depth, old(budget.left), finite)
    decreases j, 0
  {
    var keys := Sort(set key | key in j.fields && Usable(key));
    if |keys| > MAX_KEYS {
      keys := keys[..MAX_KEYS];
    }
    result := map[];
    var i := 0;
    while i < |keys|
      invariant i <= |keys| && keys == Looked(j) && (result, budget.left) == Fields(j, i, depth, old(budget.left), finite)
    {
      if budget.left == 0 {
        FieldsStop(j, i, |keys|, depth, old(budget.left), finite);
        break;
      }
      var item := Sanitize(j.fields[keys[i]], depth + 1, budget, finite);
      if item.Some? {
        result := result[keys[i] := item.value];
      }
      i := i + 1;
    }
  }

  lemma {:induction false} ItemsStop(j: Json, i: nat, n: nat, depth: nat, left: nat, finite: string -> bool)
    requires j.Arr? && i <= n <= |j.items| && Items(j, i, depth, left, finite).1 == 0
    ensures Items(j, n, depth, left, finite) == Items(j, i, depth, left, finite)
    decreases n
  {
    if i < n { ItemsStop(j, i, n - 1, depth, left, finite); }
  }

  lemma {:induction false} FieldsStop(j: Json, i: nat, n: nat, depth: nat, left: nat, finite: string -> bool)
    requires j.Obj? && i <= n <= |Looked(j)| && Fields(j, i, depth, left, finite).1 == 0
    ensures Fields(j, n, depth, left, finite) == Fields(j, i, depth, left, finite)
    decreases n
  {
    if i < n { FieldsStop(j, i, n - 1, depth, left, finite); }
  }

  // Bounds, and that sanitizing twice changes nothing ---------------------------------------------

  /** A tree within every bound of the sanitizer. */
  predicate Clean(j: Json, depth: nat, finite: string -> bool) {
    depth <= MAX_DEPTH &&
    match j
    case Num(text) => finite(text)
    case Str(s) => |s| <= MAX_STRING
    case Arr(items) => |items| <= MAX_ITEMS && forall i :: 0 <= i < |items| ==> Clean(items[i], depth + 1, finite)
    case Obj(fields) =>
      |fields| <= MAX_KEYS && forall key :: key in fields ==> Usable(key) && Clean(fields[key], depth + 1, finite)
    case _ => true
  }

  /** Whatever comes out is within every bound and no larger than the visits it took. */
  lemma {:induction false} OutputIsClean(j: Json, depth: nat, left: nat, finite: string -> bool)
    ensures var (out, rest) := Sanitized(j, depth, left, finite);
      rest <= left && (out.Some? ==> Clean(out.value, depth, finite) && Size(out.value) <= left - rest)
    decreases j, 1, 0
  {
    hide Items, Fields, ItemsSize, FieldsSize, Looked, Usable;
    if depth <= MAX_DEPTH && left > 0 {
      match j
      case Arr(items) => ItemsAreClean(j, if |items| > MAX_ITEMS then MAX_ITEMS else |items|, depth, left - 1, finite);
      case Obj(fields) => FieldsAreClean(j, |Looked(j)|, depth, left - 1, finite);
      case _ =>
    }
  }

  lemma {:induction false} ItemsAreClean(j: Json, n: nat, depth: nat, left: nat, finite: string -> bool)
    requires j.Arr? && n <= |j.items| && depth <= MAX_DEPTH
    ensures var (out, rest) := Items(j, n, depth, left, finite);
      && rest <= left && |out| <= n && ItemsSize(Arr(out), |out|) <= left - rest
      && forall i :: 0 <= i < |out| ==> Clean(out[i], depth + 1, finite)
    decreases j, 0, n
  {
    hide Sanitized, Clean, Size;
    if n > 0 {
      ItemsAreClean(j, n - 1, depth, left, finite);
      var (out, rest) := Items(j, n - 1, depth, left, finite);
      if rest > 0 {
        OutputIsClean(j.items[n - 1], depth + 1, rest, finite);
        var item := Sanitized(j.items[n - 1], depth + 1, rest, finite).0;
        if item.Some? { AppendSize(out, item.value); }
      }
    }
  }

  lemma AppendSize(items: seq<Json>, item: Json)
    ensures ItemsSize(Arr(items + [item]), |items| + 1) == ItemsSize(Arr(items), |items|) + Size(item)
  {
    PrefixSize(items, [item], |items|);
  }

  lemma {:induction false} PrefixSize(items: seq<Json>, more: seq<Json>, n: nat)
    requires n <= |items|
    ensures ItemsSize(Arr(items + more), n) == ItemsSize(Arr(items), n)
    decreases n
  {
    if n > 0 { PrefixSize(items, more, n - 1); }
  }

  lemma {:induction false} FieldsAreClean(j: Json, n: nat, depth: nat, left: nat, finite: string -> bool)
    requires j.Obj? && n <= |Looked(j)| && depth <= MAX_DEPTH
    ensures var (out, rest) := Fields(j, n, depth, left, finite);
      && rest <= left && |out| <= n && FieldsSize(Obj(out), out.Keys) <= left - rest
      && CleanFields(out, Looked(j)[..n], depth + 1, finite)
    decreases j, 0, n
  {
    hide FieldsSize, Size, Usable, Looked, Clean, CleanFields, Fields, Sanitized;
    NoFields();
    FieldsStep(j, n, depth, left, finite);
    if n > 0 {
      FieldsAreClean(j, n - 1, depth, left, finite);
      var key := Looked(j)[n - 1];
      var (out, rest) := Fields(j, n - 1, depth, left, finite);
      LookedNext(j, n);
      CleanFieldsNext(out, Looked(j)[..n - 1], key, Null, depth + 1, finite);
      if rest > 0 {
        OutputIsClean(j.fields[key], depth + 1, rest, finite);
        var item := Sanitized(j.fields[key], depth + 1, rest, finite).0;
        if item.Some? {
          CleanFieldsNext(out, Looked(j)[..n - 1], key, item.value, depth + 1, finite);
          InsertSize(out, key, item.value);
        }
      }
    } else {
      CleanFieldsNone(depth + 1, finite);
    }
  }

  /** One turn of the loop over the keys. */
  lemma FieldsStep(j: Json, n: nat, depth: nat, left: nat, finite: string -> bool)
    requires j.Obj? && n <= |Looked(j)|
    ensures n == 0 ==> Fields(j, n, depth, left, finite) == (map[], left)
    ensures n > 0 ==>
              var (out, rest) := Fields(j, n - 1, depth, left, finite);
              var key := Looked(j)[n - 1];
              var (item, after) := Sanitized(j.fields[key], depth + 1, rest, finite);
              Fields(j, n, depth, left, finite)
              == if rest == 0 then (out, rest) else (if item.Some? then out[key := item.value] else out, after)
  {
    hide Looked, Sanitized;
  }

  predicate CleanFields(fields: map<string, Json>, looked: seq<string>, depth: nat, finite: string -> bool) {
    forall key :: key in fields ==> key in looked && Usable(key) && Clean(fields[key], depth, finite)
  }

  lemma CleanFieldsNone(depth: nat, finite: string -> bool)
    ensures CleanFields(map[], [], depth, finite)
  {
  }

  lemma CleanFieldsNext(fields: map<string, Json>, looked: seq<string>, key: string, item: Json, depth: nat, finite: string -> bool)
    requires CleanFields(fields, looked, depth, finite) && key !in looked && Usable(key)
    ensures key !in fields && CleanFields(fields, looked + [key], depth, finite)
    ensures Clean(item, depth, finite) ==> CleanFields(fields[key := item], looked + [key], depth, finite)
  {
  }

  lemma LookedNext(j: Json, n: nat)
    requires j.Obj? && 0 < n <= |Looked(j)|
    ensures Looked(j)[..n] == Looked(j)[..n - 1] + [Looked(j)[n - 1]] && Looked(j)[n - 1] !in Looked(j)[..n - 1]
    ensures Usable(Looked(j)[n - 1]) && Looked(j)[n - 1] in j.fields
  {
  }

  lemma NoFields()
    ensures FieldsSize(Obj(map[]), {}) == 0
  {
  }

  lemma InsertSize(fields: map<string, Json>, key: string, item: Json)
    requires key !in fields
    ensures var more := fields[key := item];
      FieldsSize(Obj(more), more.Keys) == FieldsSize(Obj(fields), fields.Keys) + Size(item) && |more| == |fields| + 1
  {
    var more := fields[key := item];
    FieldsSizeWithout(Obj(more), more.Keys, key);
    assert more.Keys - {key} == fields.Keys;
    SameFieldsSize(Obj(more), Obj(fields), fields.Keys);
  }

  lemma {:induction false} SameFieldsSize(j: Json, k: Json, keys: set<string>)
    requires j.Obj? && k.Obj? && keys <= j.fields.Keys && keys <= k.fields.Keys
    requires forall key :: key in keys ==> j.fields[key] == k.fields[key]
    ensures FieldsSize(j, keys) == FieldsSize(k, keys)
    decreases |keys|
  {
    if key :| key in keys {
      FieldsSizeWithout(j, keys, key);
      FieldsSizeWithout(k, keys, key);
      SameFieldsSize(j, k, keys - {key});
    } else {
      assert keys == {};
    }
  }

  /** A clean tree with visits enough for its size comes back unchanged and costs exactly its size. */
  lemma {:induction false} CleanIsKept(j: Json, depth: nat, left: nat, finite: string -> bool)
    requires Clean(j, depth, finite) && Size(j) <= left
    ensures Sanitized(j, depth, left, finite) == (Some(j), left - Size(j))
    decreases j, 1, 0
  {
    hide Items, Fields, FieldsSize, ItemsSize, Looked, Picked, Clean;
    CleanDepth(j, depth, finite);
    match j
    case Arr(items) => ItemsAreKept(j, |items|, depth, left - 1, finite);
    case Obj(fields) =>
      FieldsAreKept(j, |Looked(j)|, depth, left - 1, finite);
      PickedAll(j, depth, finite);
    case _ =>
  }

  lemma CleanDepth(j: Json, depth: nat, finite: string -> bool)
    requires Clean(j, depth, finite)
    ensures depth <= MAX_DEPTH && (j.Num? ==> finite(j.text)) && (j.Str? ==> Truncate(j.s, MAX_STRING) == j.s)
    ensures j.Arr? ==> |j.items| <= MAX_ITEMS && j.items[..|j.items|] == j.items
  {
  }

  lemma PickedAll(j: Json, depth: nat, finite: string -> bool)
    requires j.Obj? && Clean(j, depth, finite)
    ensures Picked(j, |Looked(j)|) == j.fields
  {
    LookedAtAll(j, depth, finite);
    hide Looked, Clean;
    assert Looked(j)[..|Looked(j)|] == Looked(j);
  }

  lemma {:induction false} ItemsAreKept(j: Json, n: nat, depth: nat, left: nat, finite: string -> bool)
    requires j.Arr? && n <= |j.items| && Clean(j, depth, finite) && ItemsSize(j, |j.items|) <= left
    ensures ItemsSize(j, n) <= ItemsSize(j, |j.items|)
    ensures Items(j, n, depth, left, finite) == (j.items[..n], left - ItemsSize(j, n))
    decreases j, 0, n
  {
    hide Clean, Sanitized, Size;
    BoundedJson.ItemsGrow(j, n, |j.items|);
    if n > 0 {
      CleanItem(j, n - 1, depth, finite);
      ItemsAreKept(j, n - 1, depth, left, finite);
      CleanIsKept(j.items[n - 1], depth + 1, left - ItemsSize(j, n - 1), finite);
      assert j.items[..n - 1] + [j.items[n - 1]] == j.items[..n];
    }
  }

  lemma CleanItem(j: Json, k: nat, depth: nat, finite: string -> bool)
    requires j.Arr? && k < |j.items| && Clean(j, depth, finite)
    ensures Clean(j.items[k], depth + 1, finite)
  {
  }

  /** The first `n` fields looked at. */
  ghost function Picked(j: Json, n: nat): map<string, Json>
    requires j.Obj? && n <= |Looked(j)|
  {
    map key | key in Looked(j)[..n] :: j.fields[key]
  }

  lemma LookedAtAll(j: Json, depth: nat, finite: string -> bool)
    requires j.Obj? && Clean(j, depth, finite)
    ensures forall key :: key in j.fields <==> key in Looked(j)
  {
    var usable := set key | key in j.fields && Usable(key);
    assert usable == j.fields.Keys;
    SortedHasAll(usable);
    assert |j.fields.Keys| == |j.fields|;
  }

  lemma {:induction false} SortedHasAll(keys: set<string>)
    ensures forall key :: key in keys ==> key in Sorted(keys)
    decreases |keys|
  {
    hide Less;
    if keys != {} {
      LeastExists(keys);
      var least :| IsLeast(least, keys);
      SortedStep(keys, least);
      SortedHasAll(keys - {least});
    }
  }

  lemma {:induction false} FieldsAreKept(j: Json, n: nat, depth: nat, left: nat, finite: string -> bool)
    requires j.Obj? && n <= |Looked(j)| && Clean(j, depth, finite) && FieldsSize(j, j.fields.Keys) <= left
    ensures Picked(j, n).Keys <= j.fields.Keys && FieldsSize(j, Picked(j, n).Keys) <= FieldsSize(j, j.fields.Keys)
    ensures Fields(j, n, depth, left, finite) == (Picked(j, n), left - FieldsSize(j, Picked(j, n).Keys))
    decreases j, 0, n
  {
    hide FieldsSize, Looked, Picked, Clean, Fields, Sanitized;
    FieldsStep(j, n, depth, left, finite);
    PickedKeys(j, n);
    BoundedJson.FieldsGrow(j, Picked(j, n).Keys, j.fields.Keys);
    if n > 0 {
      var key := Looked(j)[n - 1];
      FieldsAreKept(j, n - 1, depth, left, finite);
      PickedNext(j, n, depth, finite);
      CleanIsKept(j.fields[key], depth + 1, left - FieldsSize(j, Picked(j, n - 1).Keys), finite);
    } else {
      PickedNone(j);
    }
  }

  lemma PickedKeys(j: Json, n: nat)
    requires j.Obj? && n <= |Looked(j)|
    ensures Picked(j, n).Keys <= j.fields.Keys
  {
  }

  lemma PickedNone(j: Json)
    requires j.Obj?
    ensures Picked(j, 0) == map[] && FieldsSize(j, Picked(j, 0).Keys) == 0
  {
    assert Picked(j, 0).Keys == {};
  }

  lemma PickedNext(j: Json, n: nat, depth: nat, finite: string -> bool)
    requires j.Obj? && 0 < n <= |Looked(j)| && Clean(j, depth, finite)
    ensures var key := Looked(j)[n - 1]; var before := Picked(j, n - 1).Keys;
      && key in j.fields && Clean(j.fields[key], depth + 1, finite)
      && Picked(j, n - 1)[key := j.fields[key]] == Picked(j, n)
      && before <= j.fields.Keys && Picked(j, n).Keys <= j.fields.Keys
      && FieldsSize(j, Picked(j, n).Keys) == FieldsSize(j, before) + Size(j.fields[key])
  {
    hide FieldsSize;
    var key := Looked(j)[n - 1];
    var before := Picked(j, n - 1).Keys;
    assert key !in before;
    assert Picked(j, n).Keys == before + {key};
    FieldsSizeWithout(j, before + {key}, key);
    assert before + {key} - {key} == before;
  }

  /** Sanitizing page context: the result is within every bound and has at most 4096 values, and
      sanitizing it again with a new budget gives it back unchanged. */
  lemma SanitizeTwice(j: Json, finite: string -> bool)
    ensures var out := Sanitized(j, 0, 4096, finite).0;
      out.Some? ==> Clean(out.value, 0, finite) && Size(out.value) <= 4096
                    && Sanitized(out.value, 0, 4096, finite) == (out, 4096 - Size(out.value))
  {
    hide Sanitized, Clean, Size;
    OutputIsClean(j, 0, 4096, finite);
    var out := Sanitized(j, 0, 4096, finite).0;
    if out.Some? {
      CleanIsKept(out.value, 0, 4096, finite);
    }
  }
}
