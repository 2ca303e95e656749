/** What the sanitizer makes of its input, said of input and output alone: what is cut, what is dropped and
    in which order visits are spent. */
module SanitizerImage {
  import opened Basics
  import opened Json
  import BoundedJson
  import opened Sanitizer

  // Keys ------------------------------------------------------------------------------

  /** A key that is looked at: not too long and not one that a script could be harmed by. */
  predicate Harmless(key: string) {
    |key| <= 128 && key != "__proto__" && key != "constructor" && key != "prototype"
  }

  /** `a` comes first: it is a proper prefix of `b`, or smaller at the first difference. */
  predicate First(a: string, b: string) {
    exists k: nat :: k <= |a| && FirstAt(a, b, k)
  }

  /** `b` goes on where `a` ends at `k`, or is larger there, and is the same before. */
  predicate FirstAt(a: string, b: string, k: nat) {
    k <= |a| && k < |b| && a[..k] == b[..k] && (k < |a| ==> a[k] < b[k])
  }

  lemma {:induction false} LessExactly(a: string, b: string)
    ensures Less(a, b) <==> First(a, b)
  {
    if a == "" || b == "" || a[0] != b[0] {
      FirstByHead(a, b);
    } else {
      LessExactly(a[1..], b[1..]);
      FirstByTail(a, b);
    }
  }

  lemma FirstByHead(a: string, b: string)
    requires a == "" || b == "" || a[0] != b[0]
    ensures First(a, b) <==> b != "" && (a == "" || a[0] < b[0])
  {
    if b != "" && (a == "" || a[0] < b[0]) {
      assert a[..0] == b[..0];
      assert FirstAt(a, b, 0);
    }
    forall k: nat | 0 < k <= |a| && k <= |b| ensures a[..k] != b[..k] {
      assert a[..k][0] == a[0] && b[..k][0] == b[0];
    }
  }

  lemma HeadAndTail(s: string, k: nat)
    requires k < |s|
    ensures s[..k + 1] == [s[0]] + s[1..][..k] && s[1..][..k] == s[..k + 1][1..]
  {
  }

  lemma FirstByTail(a: string, b: string)
    requires a != "" && b != "" && a[0] == b[0]
    ensures First(a, b) <==> First(a[1..], b[1..])
  {
    forall k: nat | k < |a| && k < |b| ensures FirstAt(a[1..], b[1..], k) <==> FirstAt(a, b, k + 1) {
      HeadAndTail(a, k);
      HeadAndTail(b, k);
    }
    if First(a, b) {
      var k: nat :| k <= |a| && FirstAt(a, b, k);
      assert FirstAt(a[1..], b[1..], k - 1);
    }
  }

  /** The harmless keys that come before `key`. */
  function Before(j: Json, key: string): set<string>
    requires j.Obj?
  {
    set other | other in j.fields && Harmless(other) && First(other, key)
  }

  /** The first fifty harmless keys. */
  predicate LookedAt(j: Json, key: string)
    requires j.Obj?
  {
    key in j.fields && Harmless(key) && |Before(j, key)| < 50
  }

  // Visits ----------------------------------------------------------------------------

  /** The visits that a value takes if there is no end of them: its own, and those of the first fifty items
      or keys, down to depth 6. */
  ghost function Visits(j: Json, depth: nat): nat
    decreases j, 1, 0
  {
    if depth > 6 then 0
    else
      match j
      case Arr(items) => 1 + ItemVisits(j, if |items| < 50 then |items| else 50, depth)
      case Obj(fields) => 1 + KeyVisits(j, (set key | key in fields && LookedAt(j, key)), depth)
      case _ => 1
  }

  ghost function ItemVisits(j: Json, n: nat, depth: nat): nat
    requires j.Arr? && n <= |j.items|
    decreases j, 0, n
  {
    if n == 0 then 0 else ItemVisits(j, n - 1, depth) + Visits(j.items[n - 1], depth + 1)
  }

  ghost function KeyVisits(j: Json, keys: set<string>, depth: nat): nat
    requires j.Obj? && keys <= j.fields.Keys
    decreases j, 0, |keys|
  {
    if keys == {} then 0
    else
      var key :| key in keys;
      KeyVisits(j, keys - {key}, depth) + Visits(j.fields[key], depth + 1)
  }

  /** What is left of `left` visits once `spent` of them are taken. */
  function Rest(left: nat, spent: nat): nat {
    if spent < left then left - spent else 0
  }

  // The image -------------------------------------------------------------------------

  /** `out` is what becomes of `j`. Strings are cut to 1000 characters, arrays keep the images of their first
      fifty items in order, and objects those of their first fifty harmless keys. Nothing becomes of a value
      that is too deep, is an unreadable number, or comes when the visits are spent. */
  ghost predicate Image(j: Json, depth: nat, left: nat, finite: string -> bool, out: Option<Json>)
    decreases j, 1
  {
    if depth > 6 || left == 0 then out == None
    else
      match j
      case Num(text) => out == if finite(text) then Some(j) else None
      case Str(s) => out.Some? && out.value.Str? && out.value.s <= s && |out.value.s| == if |s| < 1000 then |s| else 1000
      case Arr(items) =>
        out.Some? && out.value.Arr?
        && exists images :: ItemImages(j, depth, left, finite, images) && out.value.items == Present(images)
      case Obj(fields) =>
        && out.Some? && out.value.Obj?
        && (forall key :: key in out.value.fields ==> key in fields && LookedAt(j, key))
        && (forall key :: key in fields && LookedAt(j, key) ==>
              KeyImage(j, key, depth, left, finite, if key in out.value.fields then Some(out.value.fields[key]) else None))
      case _ => out == Some(j)
  }

  /** The images of the first fifty items, each with the visits that the items before it leave. */
  ghost predicate ItemImages(j: Json, depth: nat, left: nat, finite: string -> bool, images: seq<Option<Json>>)
    requires j.Arr? && left > 0
    decreases j, 0
  {
    && |images| == (if |j.items| < 50 then |j.items| else 50)
    && forall i :: 0 <= i < |images| ==> Image(j.items[i], depth + 1, Rest(left - 1, ItemVisits(j, i, depth)), finite, images[i])
  }

  /** The image of a field, with the visits that the keys before it leave. */
  ghost predicate KeyImage(j: Json, key: string, depth: nat, left: nat, finite: string -> bool, image: Option<Json>)
    requires j.Obj? && key in j.fields && left > 0
    decreases j, 0
  {
    Image(j.fields[key], depth + 1, Rest(left - 1, KeyVisits(j, Before(j, key), depth)), finite, image)
  }

  /** What is there, in order. */
  function Present(images: seq<Option<Json>>): seq<Json> {
    if images == [] then []
    else
      var last := images[|images| - 1];
      Present(images[..|images| - 1]) + if last.Some? then [last.value] else []
  }

  /** A value is missing exactly when it is too deep, past the visits or an unreadable number. */
  lemma MissingExactly(j: Json, depth: nat, left: nat, finite: string -> bool, out: Option<Json>)
    requires Image(j, depth, left, finite, out)
    ensures out == None <==> depth > 6 || left == 0 || (j.Num? && !finite(j.text))
  {
  }

  // The keys in order -----------------------------------------------------------------

  lemma {:induction false} SortedAscends(keys: set<string>)
    ensures forall i, j :: 0 <= i < j < |Sorted(keys)| ==> Less(Sorted(keys)[i], Sorted(keys)[j])
    decreases |keys|
  {
    hide Less;
    if keys != {} {
      LeastExists(keys);
      var least :| IsLeast(least, keys);
      SortedStep(keys, least);
      SortedAscends(keys - {least});
      var rest := Sorted(keys - {least});
      forall i, j | 0 <= i < j < |Sorted(keys)| ensures Less(Sorted(keys)[i], Sorted(keys)[j]) {
        assert Sorted(keys)[j] == rest[j - 1] && rest[j - 1] in keys;
        if i > 0 { assert Sorted(keys)[i] == rest[i - 1]; }
      }
    }
  }

  function Elements(s: seq<string>): set<string> {
    set key | key in s
  }

  lemma {:induction false} DistinctElements(s: seq<string>)
    requires forall i, j :: 0 <= i < j < |s| ==> s[i] != s[j]
    ensures |Elements(s)| == |s|
  {
    if s != [] {
      var most := s[..|s| - 1];
      DistinctElements(most);
      assert s == most + [s[|s| - 1]];
      assert Elements(s) == Elements(most) + {s[|s| - 1]};
    }
  }

  ghost function UsableKeys(j: Json): set<string>
    requires j.Obj?
  {
    set key | key in j.fields && Usable(key)
  }

  /** The keys before the one at position `p` are the `p` keys at the positions before it. */
  lemma SortedRank(j: Json, p: nat)
    requires j.Obj? && p < |Sorted(UsableKeys(j))|
    ensures var s := Sorted(UsableKeys(j)); Before(j, s[p]) == Elements(s[..p]) && |Elements(s[..p])| == p
  {
    hide Sorted, Before;
    var s := Sorted(UsableKeys(j));
    DistinctElements(s[..p]);
    forall key ensures key in Before(j, s[p]) <==> key in Elements(s[..p]) {
      BeforeRank(j, p, key);
    }
  }

  lemma BeforeRank(j: Json, p: nat, key: string)
    requires j.Obj? && p < |Sorted(UsableKeys(j))|
    ensures var s := Sorted(UsableKeys(j)); key in Before(j, s[p]) <==> key in Elements(s[..p])
  {
    hide Less, First, Sorted;
    var s := Sorted(UsableKeys(j));
    SortedAscends(UsableKeys(j));
    SortedHasAll(UsableKeys(j));
    LessExactly(key, s[p]);
    if key in UsableKeys(j) {
      var q :| 0 <= q < |s| && s[q] == key;
      LessIsOrder(key, s[p]);
      if q < p { assert s[..p][q] == key; }
    }
  }

  lemma LookedExactly(j: Json)
    requires j.Obj?
    ensures forall key :: key in j.fields && LookedAt(j, key) <==> key in Looked(j)
    ensures forall i :: 0 <= i < |Looked(j)| ==> Before(j, Looked(j)[i]) == Elements(Looked(j)[..i])
  {
    hide Less, First, Sorted;
    var s := Sorted(UsableKeys(j));
    assert Looked(j) == if |s| > 50 then s[..50] else s;
    forall key ensures key in j.fields && LookedAt(j, key) <==> key in Looked(j) {
      SortedHasAll(UsableKeys(j));
      if key in UsableKeys(j) {
        var p :| 0 <= p < |s| && s[p] == key;
        SortedRank(j, p);
        if p < 50 { assert Looked(j)[p] == key; }
        if key in Looked(j) {
          var q :| 0 <= q < |Looked(j)| && Looked(j)[q] == key;
          assert s[q] == s[p];
        }
      }
    }
    forall i | 0 <= i < |Looked(j)| ensures Before(j, Looked(j)[i]) == Elements(Looked(j)[..i]) {
      SortedRank(j, i);
      assert Looked(j)[..i] == s[..i];
    }
  }

  // The sanitizer computes the image --------------------------------------------------

  lemma {:induction false} KeyVisitsWithout(j: Json, keys: set<string>, key: string, depth: nat)
    requires j.Obj? && keys <= j.fields.Keys && key in keys
    ensures KeyVisits(j, keys, depth) == KeyVisits(j, keys - {key}, depth) + Visits(j.fields[key], depth + 1)
    decreases |keys|
  {
    hide Visits;
    var first :| first in keys && KeyVisits(j, keys, depth) == KeyVisits(j, keys - {first}, depth) + Visits(j.fields[first], depth + 1);
    if first != key {
      KeyVisitsWithout(j, keys - {first}, key, depth);
      KeyVisitsWithout(j, keys - {key}, first, depth);
      assert keys - {first} - {key} == keys - {key} - {first};
    }
  }

  /** The sanitizer computes exactly the image, and takes exactly the visits that the value has, as far as
      there are any left. */
  lemma {:induction false} SanitizedIsImage(j: Json, depth: nat, left: nat, finite: string -> bool)
    ensures var (out, rest) := Sanitized(j, depth, left, finite);
      Image(j, depth, left, finite, out) && rest == Rest(left, Visits(j, depth))
    decreases j, 1, 0
  {
    hide Items, Fields, ItemImages, KeyImage, ItemVisits, KeyVisits, Looked, LookedAt;
    if depth <= 6 && left > 0 {
      match j
      case Arr(items) => var images := ItemsAreImages(j, if |items| < 50 then |items| else 50, depth, left, finite);
      case Obj(fields) => FieldsAreImage(j, depth, left, finite);
      case _ =>
    }
  }

  lemma {:induction false} ItemsAreImages(j: Json, n: nat, depth: nat, left: nat, finite: string -> bool) returns (images: seq<Option<Json>>)
    requires j.Arr? && n <= |j.items| && left > 0
    ensures |images| == n && Items(j, n, depth, left - 1, finite) == (Present(images), Rest(left - 1, ItemVisits(j, n, depth)))
    ensures forall i :: 0 <= i < n ==> Image(j.items[i], depth + 1, Rest(left - 1, ItemVisits(j, i, depth)), finite, images[i])
    ensures n == (if |j.items| < 50 then |j.items| else 50) ==> ItemImages(j, depth, left, finite, images)
    decreases j, 0, n
  {
    hide Sanitized, Image, Visits, Items, Present, ItemVisits;
    ItemsStep(j, n, depth, left - 1, finite);
    if n == 0 {
      images := [];
    } else {
      images := ItemsAreImages(j, n - 1, depth, left, finite);
      var rest := Rest(left - 1, ItemVisits(j, n - 1, depth));
      SanitizedIsImage(j.items[n - 1], depth + 1, rest, finite);
      var image := Sanitized(j.items[n - 1], depth + 1, rest, finite).0;
      NothingLeft(j.items[n - 1], depth + 1, finite);
      OneMorePresent(images, image);
      images := images + [image];
    }
  }

  /** One turn of the loop over the items. */
  lemma ItemsStep(j: Json, n: nat, depth: nat, left: nat, finite: string -> bool)
    requires j.Arr? && n <= |j.items|
    ensures n == 0 ==> Items(j, n, depth, left, finite) == ([], left) && ItemVisits(j, n, depth) == 0 && Present([]) == []
    ensures n > 0 ==>
              var (out, rest) := Items(j, n - 1, depth, left, finite);
              var (item, after) := Sanitized(j.items[n - 1], depth + 1, rest, finite);
              && ItemVisits(j, n, depth) == ItemVisits(j, n - 1, depth) + Visits(j.items[n - 1], depth + 1)
              && Items(j, n, depth, left, finite)
                 == if rest == 0 then (out, rest) else (if item.Some? then out + [item.value] else out, after)
  {
    hide Sanitized, Visits;
  }

  lemma OneMorePresent(images: seq<Option<Json>>, image: Option<Json>)
    ensures Present(images + [image]) == if image.Some? then Present(images) + [image.value] else Present(images)
  {
    assert (images + [image])[..|images|] == images;
  }

  lemma NothingLeft(j: Json, depth: nat, finite: string -> bool)
    ensures Sanitized(j, depth, 0, finite) == (None, 0)
  {
  }

  /** The image of the key at position `i`, in what the first `n` keys lead to. */
  ghost predicate FieldIs(j: Json, i: nat, depth: nat, left: nat, finite: string -> bool, out: map<string, Json>)
    requires j.Obj? && i < |Looked(j)| && left > 0
  {
    var key := Looked(j)[i];
    KeyImage(j, key, depth, left, finite, if key in out then Some(out[key]) else None)
  }

  lemma {:induction false} FieldsAreImages(j: Json, n: nat, depth: nat, left: nat, finite: string -> bool)
    requires j.Obj? && n <= |Looked(j)| && left > 0
    ensures Elements(Looked(j)[..n]) <= j.fields.Keys
    ensures var (out, rest) := Fields(j, n, depth, left - 1, finite);
      && rest == Rest(left - 1, KeyVisits(j, Elements(Looked(j)[..n]), depth))
      && (forall key :: key in out ==> key in Looked(j)[..n])
      && (forall i :: 0 <= i < n ==> FieldIs(j, i, depth, left, finite, out))
    decreases j, 0, n
  {
    hide Sanitized, Image, Visits, Looked, Fields, KeyVisits, FieldIs, Before;
    FieldsStep(j, n, depth, left - 1, finite);
    if n > 0 {
      FieldsAreImages(j, n - 1, depth, left, finite);
      var key := Looked(j)[n - 1];
      var (out, rest) := Fields(j, n - 1, depth, left - 1, finite);
      LookedNext(j, n);
      SanitizedIsImage(j.fields[key], depth + 1, rest, finite);
      NothingLeft(j.fields[key], depth + 1, finite);
      NextKeyVisits(j, n, depth);
      NextFieldIs(j, n, depth, left, finite, out, Sanitized(j.fields[key], depth + 1, rest, finite).0);
    } else {
      NoKeys(j, depth);
    }
  }

  lemma NextKeyVisits(j: Json, n: nat, depth: nat)
    requires j.Obj? && 0 < n <= |Looked(j)| && Elements(Looked(j)[..n - 1]) <= j.fields.Keys
    ensures var key := Looked(j)[n - 1];
      && key in j.fields && Elements(Looked(j)[..n]) == Elements(Looked(j)[..n - 1]) + {key} <= j.fields.Keys
      && KeyVisits(j, Elements(Looked(j)[..n]), depth) == KeyVisits(j, Elements(Looked(j)[..n - 1]), depth) + Visits(j.fields[key], depth + 1)
      && Before(j, key) == Elements(Looked(j)[..n - 1])
  {
    hide Visits, Looked, KeyVisits, Before;
    var key := Looked(j)[n - 1];
    LookedNext(j, n);
    LookedExactly(j);
    assert Elements(Looked(j)[..n]) == Elements(Looked(j)[..n - 1]) + {key};
    assert Elements(Looked(j)[..n]) - {key} == Elements(Looked(j)[..n - 1]);
    KeyVisitsWithout(j, Elements(Looked(j)[..n]), key, depth);
  }

  /** The image of one more key joins those of the keys before it. */
  lemma NextFieldIs(j: Json, n: nat, depth: nat, left: nat, finite: string -> bool, out: map<string, Json>, image: Option<Json>)
    requires j.Obj? && 0 < n <= |Looked(j)| && left > 0 && Looked(j)[n - 1] in j.fields
    requires forall key :: key in out ==> key in Looked(j)[..n - 1]
    requires forall i :: 0 <= i < n - 1 ==> FieldIs(j, i, depth, left, finite, out)
    requires KeyImage(j, Looked(j)[n - 1], depth, left, finite, image)
    ensures var after := if image.Some? then out[Looked(j)[n - 1] := image.value] else out;
      && (forall key :: key in after ==> key in Looked(j)[..n])
      && (forall i :: 0 <= i < n ==> FieldIs(j, i, depth, left, finite, after))
  {
    hide Looked, KeyImage;
    var key := Looked(j)[n - 1];
    LookedNext(j, n);
    var after := if image.Some? then out[key := image.value] else out;
    forall i | 0 <= i < n ensures FieldIs(j, i, depth, left, finite, after) {
      if i < n - 1 {
        assert Looked(j)[i] == Looked(j)[..n - 1][i] && FieldIs(j, i, depth, left, finite, out);
      }
    }
  }

  lemma NoKeys(j: Json, depth: nat)
    requires j.Obj?
    ensures KeyVisits(j, {}, depth) == 0 && Elements([]) == {}
  {
  }

  lemma FieldsAreImage(j: Json, depth: nat, left: nat, finite: string -> bool)
    requires j.Obj? && depth <= 6 && left > 0
    ensures var (out, rest) := Fields(j, |Looked(j)|, depth, left - 1, finite);
      Image(j, depth, left, finite, Some(Obj(out))) && rest == Rest(left, Visits(j, depth))
    decreases j, 0, |Looked(j)| + 1
  {
    hide Sanitized, Looked, Fields, KeyVisits, LookedAt, KeyImage;
    var n := |Looked(j)|;
    FieldsAreImages(j, n, depth, left, finite);
    LookedExactly(j);
    assert Looked(j)[..n] == Looked(j);
    assert Elements(Looked(j)) == set key | key in j.fields && LookedAt(j, key);
    var out := Fields(j, n, depth, left - 1, finite).0;
    forall key | key in j.fields && LookedAt(j, key) ensures KeyImage(j, key, depth, left, finite, if key in out then Some(out[key]) else None) {
      var i :| 0 <= i < n && Looked(j)[i] == key;
      assert FieldIs(j, i, depth, left, finite, out);
    }
  }

  /** The image is determined by the input. */
  lemma {:induction false} ImageIsUnique(j: Json, depth: nat, left: nat, finite: string -> bool, a: Option<Json>, b: Option<Json>)
    requires Image(j, depth, left, finite, a) && Image(j, depth, left, finite, b)
    ensures a == b
    decreases j, 1
  {
    hide Visits, ItemVisits, KeyVisits, LookedAt, Rest;
    if depth <= 6 && left > 0 {
      match j
      case Arr(items) =>
        var some :| ItemImages(j, depth, left, finite, some) && a.value.items == Present(some);
        var others :| ItemImages(j, depth, left, finite, others) && b.value.items == Present(others);
        forall i | 0 <= i < |some| ensures some[i] == others[i] {
          ImageIsUnique(items[i], depth + 1, Rest(left - 1, ItemVisits(j, i, depth)), finite, some[i], others[i]);
        }
        assert some == others;
      case Obj(fields) =>
        forall key | key in fields && LookedAt(j, key)
          ensures (key in a.value.fields <==> key in b.value.fields) && (key in a.value.fields ==> a.value.fields[key] == b.value.fields[key])
        {
          ImageIsUnique(fields[key], depth + 1, Rest(left - 1, KeyVisits(j, Before(j, key), depth)), finite,
                        if key in a.value.fields then Some(a.value.fields[key]) else None,
                        if key in b.value.fields then Some(b.value.fields[key]) else None);
        }
        assert a.value.fields == b.value.fields;
      case Str(s) => assert a.value.s == s[..|a.value.s|] == b.value.s;
      case _ =>
    }
  }
}
