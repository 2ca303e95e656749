/** JSON documents as the patch code holds them: maps and slices on the heap, updated in place. A slice
    is a backing array and a length; cells past the length are spare capacity and may hold stale values.
    A document is owned: no map or backing array is reachable twice. */
module PatchHeap {
  import opened Basics
  import opened Json
  import opened PatchSpec

  class Node {
    var fields: map<string, Value>

    constructor (fields: map<string, Value>)
      ensures this.fields == fields
    {
      this.fields := fields;
    }
  }

  datatype Value =
    | Scalar(j: Json)
    | Ref(node: Node)
    | Slice(cells: array<Value>, len: nat)

  datatype Key = Field(name: string) | Index(k: nat)

  function Keyed<T>(m: map<string, T>): map<Key, T> {
    map key: Key | key in (set name | name in m :: Field(name)) :: m[key.name]
  }

  function Numbered<T>(s: seq<T>): map<Key, T> {
    map key: Key | key in (set k: nat | k < |s| :: Index(k)) :: s[key.k]
  }

  /** The children of a document value. */
  function JKids(j: Json): (kids: map<Key, Json>)
    ensures forall key :: key in kids ==> kids[key] < j
  {
    match j
    case Obj(fields) => Keyed(fields)
    case Arr(items) => Numbered(items)
    case _ => map[]
  }

  /** The object in which a map or a slice keeps its children. */
  function Holder(v: Value): object
    requires !v.Scalar?
  {
    match v
    case Ref(node) => node
    case Slice(cells, _) => cells
  }

  predicate SameKind(v: Value, j: Json) {
    match j
    case Obj(_) => v.Ref?
    case Arr(_) => v.Slice?
    case _ => v == Scalar(j)
  }

  predicate Shaped(v: Value) {
    v.Slice? ==> v.len <= v.cells.Length
  }

  ghost function Kids(v: Value): map<Key, Value>
    requires Shaped(v)
    reads if v.Scalar? then {} else {Holder(v)}
  {
    match v
    case Ref(node) => Keyed(node.fields)
    case Slice(cells, len) => Numbered(cells[..len])
    case _ => map[]
  }

  // Layouts ---------------------------------------------------------------------------------

  /** Where a document lies: the object that holds its children, and where each of those lies. */
  datatype Layout = Leaf | Hold(holder: object, kids: map<Key, Layout>)

  /** The objects of the children. */
  ghost function Feet(l: Layout): set<object>
    requires l.Hold?
    decreases l, 0
  {
    set key, o | key in l.kids && o in Foot(l.kids[key]) :: o
  }

  /** All objects of the document. */
  ghost function Foot(l: Layout): set<object>
    decreases l, 1
  {
    if l.Leaf? then {} else {l.holder} + Feet(l)
  }

  /** No object is used twice. */
  ghost predicate Separate(l: Layout) {
    l.Hold? ==>
      && l.holder !in Feet(l)
      && (forall key :: key in l.kids ==> Separate(l.kids[key]))
      && (forall a, b :: a in l.kids && b in l.kids && a != b ==> Foot(l.kids[a]) !! Foot(l.kids[b]))
  }

  /** `v` is the document `j` on the heap, laid out as `l`. */
  ghost predicate Rep(v: Value, j: Json, l: Layout)
    reads Foot(l)
    decreases l, 1
  {
    && SameKind(v, j) && Shaped(v) && (v.Scalar? <==> l.Leaf?)
    && (l.Hold? ==> Holder(v) == l.holder && KidsRep(Kids(v), JKids(j), l))
  }

  /** The values in `kids` are the documents in `docs`, laid out as the children of `l`. */
  ghost predicate KidsRep(kids: map<Key, Value>, docs: map<Key, Json>, l: Layout)
    requires l.Hold?
    reads Feet(l)
    decreases l, 0
  {
    && kids.Keys == docs.Keys == l.kids.Keys
    && forall key :: key in l.kids ==> Rep(kids[key], docs[key], l.kids[key])
  }

  ghost predicate Owns(v: Value, j: Json, l: Layout)
    reads Foot(l)
  {
    Rep(v, j, l) && Separate(l)
  }

  function Drop(l: Layout, key: Key): Layout
    requires l.Hold?
  {
    l.(kids := l.kids - {key})
  }

  function Set(l: Layout, key: Key, m: Layout): Layout
    requires l.Hold?
  {
    l.(kids := (l.kids - {key})[key := m])
  }

  lemma DropFeet(l: Layout, key: Key)
    requires l.Hold? && Separate(l) && key in l.kids
    ensures Feet(l) == Feet(Drop(l, key)) + Foot(l.kids[key]) && Feet(Drop(l, key)) !! Foot(l.kids[key])
    ensures Separate(Drop(l, key)) && Separate(l.kids[key]) && l.holder !in Foot(l.kids[key])
  {
    hide Foot;
    var less := Drop(l, key);
    forall o | o in Feet(l) ensures o in Feet(less) + Foot(l.kids[key]) {
      var k :| k in l.kids && o in Foot(l.kids[k]);
      assert k != key ==> k in less.kids && less.kids[k] == l.kids[k];
    }
    forall o | o in Feet(less) ensures o in Feet(l) && o !in Foot(l.kids[key]) {
      var k :| k in less.kids && o in Foot(less.kids[k]);
      assert k in l.kids && less.kids[k] == l.kids[k];
    }
  }

  lemma DropNothing(l: Layout, key: Key)
    requires l.Hold? && key !in l.kids
    ensures Drop(l, key) == l
  {
    assert l.kids - {key} == l.kids;
  }

  lemma SetFeet(l: Layout, key: Key, m: Layout)
    requires l.Hold? && Separate(Drop(l, key)) && Separate(m) && Foot(m) !! Foot(Drop(l, key))
    ensures Separate(Set(l, key, m)) && Foot(Set(l, key, m)) == Foot(Drop(l, key)) + Foot(m)
  {
    var less, more := Drop(l, key), Set(l, key, m);
    assert key in more.kids && more.kids[key] == m;
    forall k | k in less.kids ensures k in more.kids && more.kids[k] == less.kids[k] && k != key && Foot(less.kids[k]) <= Feet(less) {
    }
    forall o | o in Feet(more) ensures o in Feet(less) + Foot(m) {
      var k :| k in more.kids && o in Foot(more.kids[k]);
      assert k != key ==> k in less.kids;
    }
    forall o | o in Feet(less) ensures o in Feet(more) {
      var k :| k in less.kids && o in Foot(less.kids[k]);
    }
    forall a, b | a in more.kids && b in more.kids && a != b ensures Foot(more.kids[a]) !! Foot(more.kids[b]) {
      assert a != key ==> a in less.kids;
      assert b != key ==> b in less.kids;
    }
  }

  /** The same children under other keys, perhaps without some. */
  lemma MovedFeet(l: Layout, from: map<Key, Key>, moved: Layout)
    requires l.Hold? && moved.Hold? && moved.kids.Keys == from.Keys && Separate(l)
    requires forall key :: key in from ==> from[key] in l.kids && moved.kids[key] == l.kids[from[key]]
    requires forall a, b :: a in from && b in from && a != b ==> from[a] != from[b]
    requires moved.holder !in Feet(l)
    ensures Feet(moved) <= Feet(l) && Separate(moved)
  {
    hide Foot;
    forall o | o in Feet(moved) ensures o in Feet(l) {
      var k :| k in moved.kids && o in Foot(moved.kids[k]);
      assert from[k] in l.kids;
    }
  }

  // Paths ------------------------------------------------------------------------------------

  /** The child key that a segment names. */
  function KeyOf(j: Json, segment: string): (r: Option<Key>)
    ensures r.Some? ==> r.value in JKids(j) && Child(j, segment) == Some(JKids(j)[r.value])
    ensures r.None? ==> Child(j, segment).None?
  {
    match j
    case Obj(fields) => if segment in fields then Some(Field(segment)) else None
    case Arr(items) =>
      (match ArrayIndex(segment, |items|, false)
       case None => None
       case Some(k) => Some(Index(k)))
    case _ => None
  }

  /** Whether the layout has a child where the path goes. */
  predicate Goes(l: Layout, j: Json, path: seq<string>) {
    path != [] && l.Hold? && KeyOf(j, path[0]).Some? && KeyOf(j, path[0]).value in l.kids
  }

  /** The layout at the end of a path. */
  function Below(l: Layout, j: Json, path: seq<string>): Layout
    decreases |path|
  {
    if !Goes(l, j, path) then l
    else var key := KeyOf(j, path[0]).value; Below(l.kids[key], JKids(j)[key], path[1..])
  }

  /** The objects around the end of a path: the holders above it and everything beside it. */
  ghost function Around(l: Layout, j: Json, path: seq<string>): set<object>
    decreases |path|
  {
    if path == [] || l.Leaf? then {}
    else if !Goes(l, j, path) then {l.holder}
    else var key := KeyOf(j, path[0]).value; Foot(Drop(l, key)) + Around(l.kids[key], JKids(j)[key], path[1..])
  }

  /** Everything around the end of a path is as the document says; the end itself may be anything. */
  ghost predicate Context(v: Value, j: Json, l: Layout, path: seq<string>)
    reads Around(l, j, path)
    decreases |path|
  {
    path == []
    || (&& SameKind(v, j) && Shaped(v) && (v.Scalar? <==> l.Leaf?)
        && (l.Hold? ==> Holder(v) == l.holder && Kids(v).Keys == JKids(j).Keys == l.kids.Keys)
        && (Goes(l, j, path) ==>
              var key := KeyOf(j, path[0]).value;
              && KidsRep(Kids(v) - {key}, JKids(j) - {key}, Drop(l, key))
              && Context(Kids(v)[key], JKids(j)[key], l.kids[key], path[1..])))
  }

  /** The value at the end of a path. */
  ghost function Along(v: Value, j: Json, l: Layout, path: seq<string>): Value
    requires Context(v, j, l, path)
    reads Around(l, j, path)
    decreases |path|
  {
    if !Goes(l, j, path) then v
    else var key := KeyOf(j, path[0]).value; Along(Kids(v)[key], JKids(j)[key], l.kids[key], path[1..])
  }

  /** A map or slice on the heap, and its children. */
  lemma Opened(v: Value, j: Json, l: Layout)
    requires Rep(v, j, l) && !v.Scalar?
    ensures l.Hold? && Holder(v) == l.holder && Kids(v).Keys == JKids(j).Keys == l.kids.Keys && KidsRep(Kids(v), JKids(j), l)
    ensures forall key :: key in l.kids ==> Rep(Kids(v)[key], JKids(j)[key], l.kids[key])
  {
    assert KidsRep(Kids(v), JKids(j), l);
  }

  lemma Closed(v: Value, j: Json, l: Layout)
    requires !v.Scalar? && SameKind(v, j) && Shaped(v) && l.Hold? && Holder(v) == l.holder && KidsRep(Kids(v), JKids(j), l)
    ensures Rep(v, j, l)
  {
  }

  lemma KidsRepSet(kids: map<Key, Value>, docs: map<Key, Json>, l: Layout, key: Key, v: Value, j: Json, m: Layout)
    requires l.Hold? && KidsRep(kids - {key}, docs - {key}, Drop(l, key)) && Rep(v, j, m)
    ensures KidsRep((kids - {key})[key := v], (docs - {key})[key := j], Set(l, key, m))
  {
    var less, more := kids - {key}, (kids - {key})[key := v];
    forall k | k in Set(l, key, m).kids ensures Rep(more[k], (docs - {key})[key := j][k], Set(l, key, m).kids[k]) {
      if k != key { assert k in Drop(l, key).kids; }
    }
  }

  lemma KidsRepDrop(kids: map<Key, Value>, docs: map<Key, Json>, l: Layout, key: Key)
    requires l.Hold? && KidsRep(kids, docs, l)
    ensures KidsRep(kids - {key}, docs - {key}, Drop(l, key))
  {
  }

  /** The path stays within the layout. */
  predicate Reaches(l: Layout, j: Json, path: seq<string>)
    decreases |path|
  {
    path == []
    || (Goes(l, j, path) && Reaches(l.kids[KeyOf(j, path[0]).value], JKids(j)[KeyOf(j, path[0]).value], path[1..]))
  }

  lemma {:induction false} ContextReaches(v: Value, j: Json, l: Layout, path: seq<string>)
    requires Context(v, j, l, path) && Get(j, path).Some?
    ensures Reaches(l, j, path)
    decreases |path|
  {
    if path != [] {
      var key := KeyOf(j, path[0]).value;
      assert key in JKids(j);
      ContextReaches(Kids(v)[key], JKids(j)[key], l.kids[key], path[1..]);
    }
  }

  /** A document is what stands at the end of a path and what is around it. */
  lemma {:induction false} Split(v: Value, j: Json, l: Layout, path: seq<string>)
    requires Owns(v, j, l)
    ensures Context(v, j, l, path)
    ensures Get(j, path).Some? ==>
              && Owns(Along(v, j, l, path), Get(j, path).value, Below(l, j, path))
              && Foot(l) == Around(l, j, path) + Foot(Below(l, j, path)) && Around(l, j, path) !! Foot(Below(l, j, path))
    decreases |path|
  {
    hide Feet;
    if path != [] && !v.Scalar? {
      Opened(v, j, l);
      if KeyOf(j, path[0]).Some? {
        var key := KeyOf(j, path[0]).value;
        DropFeet(l, key);
        KidsRepDrop(Kids(v), JKids(j), l, key);
        Split(Kids(v)[key], JKids(j)[key], l.kids[key], path[1..]);
      }
    }
  }

  /** The layout with another one at the end of the path. */
  function Placed(l: Layout, j: Json, path: seq<string>, m: Layout): Layout
    decreases |path|
  {
    if !Goes(l, j, path) then m
    else var key := KeyOf(j, path[0]).value; Set(l, key, Placed(l.kids[key], JKids(j)[key], path[1..], m))
  }

  /** If the value at the end of the path has become `sub`, the document has become the one with `sub`
      in its place. */
  lemma {:induction false} Plug(v: Value, j: Json, l: Layout, path: seq<string>, sub: Json, m: Layout)
    requires Context(v, j, l, path) && Get(j, path).Some? && Rep(Along(v, j, l, path), sub, m)
    ensures Rep(v, Put(j, path, sub), Placed(l, j, path, m))
    decreases |path|
  {
    hide Rep, KidsRep, Keyed, Numbered;
    ContextReaches(v, j, l, path);
    if path != [] {
      var key := KeyOf(j, path[0]).value;
      Plug(Kids(v)[key], JKids(j)[key], l.kids[key], path[1..], sub, m);
      PlugKid(v, j, l, path, sub, m);
    }
  }

  lemma PlugKid(v: Value, j: Json, l: Layout, path: seq<string>, sub: Json, m: Layout)
    requires Context(v, j, l, path) && Goes(l, j, path) && Get(j, path).Some?
    requires var key := KeyOf(j, path[0]).value;
      Rep(Kids(v)[key], Put(JKids(j)[key], path[1..], sub), Placed(l.kids[key], JKids(j)[key], path[1..], m))
    ensures Rep(v, Put(j, path, sub), Placed(l, j, path, m))
  {
    hide Rep, Keyed, Numbered, KidsRep;
    var key := KeyOf(j, path[0]).value;
    var kid, doc, low := Kids(v)[key], Put(JKids(j)[key], path[1..], sub), Placed(l.kids[key], JKids(j)[key], path[1..], m);
    KidsRepSet(Kids(v), JKids(j), l, key, kid, doc, low);
    JKidsWithChild(j, path[0], doc);
    assert (Kids(v) - {key})[key := kid] == Kids(v);
    Closed(v, Put(j, path, sub), Placed(l, j, path, m));
  }

  lemma {:induction false} PlugSeparate(l: Layout, j: Json, path: seq<string>, m: Layout)
    requires Separate(l) && Separate(m) && Reaches(l, j, path) && Foot(m) !! Around(l, j, path)
    ensures Separate(Placed(l, j, path, m)) && Foot(Placed(l, j, path, m)) == Around(l, j, path) + Foot(m)
    decreases |path|
  {
    hide Feet, Separate;
    if path != [] {
      var key := KeyOf(j, path[0]).value;
      IsHold(l);
      DropFeet(l, key);
      AroundBelow(l.kids[key], JKids(j)[key], path[1..]);
      PlugSeparate(l.kids[key], JKids(j)[key], path[1..], m);
      SetFeet(l, key, Placed(l.kids[key], JKids(j)[key], path[1..], m));
    }
  }

  /** What stands at the end of a path and what is around it make up the document, without overlap. */
  lemma {:induction false} AroundBelow(l: Layout, j: Json, path: seq<string>)
    requires Separate(l) && Reaches(l, j, path)
    ensures Around(l, j, path) + Foot(Below(l, j, path)) == Foot(l) && Around(l, j, path) !! Foot(Below(l, j, path))
    decreases |path|
  {
    hide Feet, Separate;
    if path != [] {
      var key := KeyOf(j, path[0]).value;
      IsHold(l);
      DropFeet(l, key);
      AroundBelow(l.kids[key], JKids(j)[key], path[1..]);
    }
  }

  lemma DropLess(l: Layout, key: Key)
    requires l.Hold?
    ensures Foot(Drop(l, key)) <= Foot(l)
  {
    forall o | o in Feet(Drop(l, key)) ensures o in Feet(l) {
      var k :| k in Drop(l, key).kids && o in Foot(Drop(l, key).kids[k]);
      assert k in l.kids && l.kids[k] == Drop(l, key).kids[k];
    }
  }

  lemma IsHold(l: Layout)
    requires l.Hold?
    ensures Foot(l) == {l.holder} + Feet(l)
  {
  }

  lemma JKidsWithChild(j: Json, segment: string, sub: Json)
    requires Child(j, segment).Some?
    ensures var key := KeyOf(j, segment).value;
      key in JKids(j) && JKids(WithChild(j, segment, sub)) == (JKids(j) - {key})[key := sub]
  {
    var key := KeyOf(j, segment).value;
    var next := WithChild(j, segment, sub);
    assert JKids(next).Keys == JKids(j).Keys;
    assert forall other :: other in JKids(j) && other != key ==> JKids(next)[other] == JKids(j)[other];
  }
}
