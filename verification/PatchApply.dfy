/** The patch code itself: it walks to the parent of the patched position, changes that map or slice in
    place, and puts a slice that moved back into its own parent. */
module PatchApply {
  import opened Basics
  import opened Json
  import BoundedJson
  import opened PatchSpec
  import opened PatchHeap
  import JsonPointer

  // Children by key ---------------------------------------------------------------------

  lemma KeyedSet<T>(m: map<string, T>, name: string, x: T)
    ensures Keyed(m[name := x]) == (Keyed(m) - {Field(name)})[Field(name) := x]
  {
    var set1, set2 := Keyed(m[name := x]), (Keyed(m) - {Field(name)})[Field(name) := x];
    assert set1.Keys == set2.Keys;
  }

  lemma KeyedDrop<T>(m: map<string, T>, name: string)
    ensures Keyed(m - {name}) == Keyed(m) - {Field(name)}
  {
    assert Keyed(m - {name}).Keys == (Keyed(m) - {Field(name)}).Keys;
  }

  lemma NumberedSet<T>(s: seq<T>, k: nat, x: T)
    requires k < |s|
    ensures Numbered(s[k := x]) == (Numbered(s) - {Index(k)})[Index(k) := x]
  {
    assert Numbered(s[k := x]).Keys == ((Numbered(s) - {Index(k)})[Index(k) := x]).Keys;
  }

  /** Where the children of a longer array come from, apart from the one inserted at `k`. */
  function Inserting(n: nat, k: nat): map<Key, Key> {
    map key: Key | key in (set i: nat | i <= n && i != k :: Index(i)) :: Index(if key.k < k then key.k else key.k - 1)
  }

  /** Where the children of the array without item `k` come from. */
  function Removing(n: nat, k: nat): map<Key, Key>
    requires k < n
  {
    map key: Key | key in (set i: nat | i < n - 1 :: Index(i)) :: Index(if key.k < k then key.k else key.k + 1)
  }

  function Moved<T>(m: map<Key, T>, from: map<Key, Key>): map<Key, T>
    requires forall key :: key in from ==> from[key] in m
  {
    map key | key in from :: m[from[key]]
  }

  lemma NumberedInsert<T>(s: seq<T>, k: nat, x: T)
    requires k <= |s|
    ensures forall key :: key in Inserting(|s|, k) ==> Inserting(|s|, k)[key] in Numbered(s)
    ensures Index(k) !in Inserting(|s|, k)
    ensures Numbered(s[..k] + [x] + s[k..]) == Moved(Numbered(s), Inserting(|s|, k))[Index(k) := x]
  {
    var longer := s[..k] + [x] + s[k..];
    var moved := Moved(Numbered(s), Inserting(|s|, k))[Index(k) := x];
    assert Numbered(longer).Keys == moved.Keys;
    forall key | key in moved ensures Numbered(longer)[key] == moved[key] {
      if key.k != k { assert key in Inserting(|s|, k); }
    }
  }

  lemma NumberedRemove<T>(s: seq<T>, k: nat)
    requires k < |s|
    ensures forall key :: key in Removing(|s|, k) ==> Removing(|s|, k)[key] in Numbered(s)
    ensures Numbered(s[..k] + s[k + 1..]) == Moved(Numbered(s), Removing(|s|, k))
  {
    var shorter := s[..k] + s[k + 1..];
    var moved := Moved(Numbered(s), Removing(|s|, k));
    assert Numbered(shorter).Keys == moved.Keys;
  }

  predicate Picks(from: map<Key, Key>, keys: set<Key>) {
    && (forall a :: a in from ==> from[a] in keys)
    && (forall a, b :: a in from && b in from && a != b ==> from[a] != from[b])
  }

  lemma InsertingPicks(n: nat, k: nat)
    requires k <= n
    ensures Picks(Inserting(n, k), set i: nat | i < n :: Index(i))
  {
  }

  lemma RemovingPicks(n: nat, k: nat)
    requires k < n
    ensures Picks(Removing(n, k), set i: nat | i < n :: Index(i))
  {
  }

  lemma NumberedKeys<T>(s: seq<T>)
    ensures Numbered(s).Keys == set i: nat | i < |s| :: Index(i)
  {
  }

  lemma SameNumbers<T, U>(s: seq<T>, t: seq<U>)
    requires Numbered(s).Keys == Numbered(t).Keys
    ensures |s| == |t|
  {
    assert Index(|s|) !in Numbered(s) && Index(|t|) !in Numbered(t);
    assert forall k: nat :: k < |s| <==> Index(k) in Numbered(s);
    assert forall k: nat :: k < |t| <==> Index(k) in Numbered(t);
  }

  lemma SameNames<T, U>(s: map<string, T>, t: map<string, U>)
    requires Keyed(s).Keys == Keyed(t).Keys
    ensures s.Keys == t.Keys
  {
    forall name | name in s.Keys ensures name in t { assert Field(name) in Keyed(s); }
    forall name | name in t.Keys ensures name in s { assert Field(name) in Keyed(t); }
  }

  // Changes of one map or slice -----------------------------------------------------------

  /** Everything about `v` is sound but the child under `key`, which may be anything. */
  ghost predicate RestOk(v: Value, j: Json, l: Layout, key: Key)
    reads if l.Hold? then Foot(Drop(l, key)) else {}
  {
    && !v.Scalar? && SameKind(v, j) && Shaped(v) && l.Hold? && Holder(v) == l.holder && l.holder !in Feet(Drop(l, key))
    && KidsRep(Kids(v) - {key}, JKids(j) - {key}, Drop(l, key))
  }

  lemma OwnsRest(v: Value, j: Json, l: Layout, key: Key)
    requires Owns(v, j, l) && !v.Scalar?
    ensures RestOk(v, j, l, key) && Separate(Drop(l, key)) && Foot(Drop(l, key)) <= Foot(l)
  {
    Opened(v, j, l);
    KidsRepDrop(Kids(v), JKids(j), l, key);
    if key in l.kids { DropFeet(l, key); } else { DropNothing(l, key); }
  }

  method SetField(node: Node, leaf: string, value: Value, ghost fields: map<string, Json>, ghost l: Layout, ghost doc: Json, ghost m: Layout)
    requires RestOk(Ref(node), Obj(fields), l, Field(leaf)) && Rep(value, doc, m) && node !in Foot(m)
    modifies node
    ensures Rep(Ref(node), Obj(fields[leaf := doc]), Set(l, Field(leaf), m))
  {
    hide Rep, Foot, Feet, Keyed, KidsRep;
    KeyedSet(node.fields, leaf, value);
    KeyedSet(fields, leaf, doc);
    ghost var kids, docs := Kids(Ref(node)), JKids(Obj(fields));
    node.fields := node.fields[leaf := value];
    KidsRepSet(kids, docs, l, Field(leaf), value, doc, m);
    Closed(Ref(node), Obj(fields[leaf := doc]), Set(l, Field(leaf), m));
  }

  method SetCell(cells: array<Value>, len: nat, k: nat, value: Value, ghost items: seq<Json>, ghost l: Layout, ghost doc: Json, ghost m: Layout)
    requires k < len == |items| && len <= cells.Length
    requires RestOk(Slice(cells, len), Arr(items), l, Index(k)) && Rep(value, doc, m) && cells !in Foot(m)
    modifies cells
    ensures Rep(Slice(cells, len), Arr(items[k := doc]), Set(l, Index(k), m))
  {
    hide Rep, Foot, Feet, Numbered, KidsRep;
    NumberedSet(cells[..len], k, value);
    NumberedSet(items, k, doc);
    ghost var kids, docs := Kids(Slice(cells, len)), JKids(Arr(items));
    cells[k] := value;
    assert cells[..len] == old(cells[..len])[k := value];
    KidsRepSet(kids, docs, l, Index(k), value, doc, m);
    Closed(Slice(cells, len), Arr(items[k := doc]), Set(l, Index(k), m));
  }

  /** delete */
  method DeleteField(node: Node, leaf: string, ghost fields: map<string, Json>, ghost l: Layout)
    requires Owns(Ref(node), Obj(fields), l)
    modifies node
    ensures Owns(Ref(node), Obj(fields - {leaf}), Drop(l, Field(leaf))) && Foot(Drop(l, Field(leaf))) <= Foot(l)
  {
    hide Rep, Foot, Feet, Keyed, KidsRep, Separate;
    OwnsRest(Ref(node), Obj(fields), l, Field(leaf));
    KeyedDrop(node.fields, leaf);
    KeyedDrop(fields, leaf);
    node.fields := node.fields - {leaf};
    Closed(Ref(node), Obj(fields - {leaf}), Drop(l, Field(leaf)));
  }

  /** append(cells[:len], nil): in place while there is spare capacity, else into a new backing array. */
  method Grow(cells: array<Value>, len: nat) returns (grown: array<Value>)
    requires len <= cells.Length
    modifies cells
    ensures len < grown.Length && grown[..len] == old(cells[..len]) && (grown == cells || fresh(grown))
  {
    if len < cells.Length {
      grown := cells;
      grown[len] := Scalar(Null);
      return;
    }
    grown := new Value[2 * len + 1](_ => Scalar(Null));
    forall i | 0 <= i < len {
      grown[i] := cells[i];
    }
  }

  /** Where moved children lie under a new holder. */
  function MovedLayout(l: Layout, from: map<Key, Key>, holder: object): Layout
    requires l.Hold? && forall key :: key in from ==> from[key] in l.kids
  {
    Hold(holder, Moved(l.kids, from))
  }

  lemma KidsRepMoved(kids: map<Key, Value>, docs: map<Key, Json>, l: Layout, from: map<Key, Key>, holder: object)
    requires l.Hold? && KidsRep(kids, docs, l) && Picks(from, l.kids.Keys)
    ensures KidsRep(Moved(kids, from), Moved(docs, from), MovedLayout(l, from, holder))
  {
    var moved := MovedLayout(l, from, holder);
    forall key | key in moved.kids ensures Rep(Moved(kids, from)[key], Moved(docs, from)[key], moved.kids[key]) {
      assert from[key] in l.kids;
    }
  }

  /** The layout after an insertion: the old children, moved, and one more. */
  ghost function Inserted(l: Layout, n: nat, k: nat, holder: object, m: Layout): Layout
    requires l.Hold? && Picks(Inserting(n, k), l.kids.Keys)
  {
    Set(MovedLayout(l, Inserting(n, k), holder), Index(k), m)
  }

  lemma InsertedFeet(l: Layout, n: nat, k: nat, holder: object, m: Layout)
    requires l.Hold? && Picks(Inserting(n, k), l.kids.Keys) && Separate(l) && Separate(m)
    requires Foot(m) !! Feet(l) && holder !in Feet(l) && holder !in Foot(m)
    ensures Separate(Inserted(l, n, k, holder, m)) && Foot(Inserted(l, n, k, holder, m)) <= {holder} + Feet(l) + Foot(m)
  {
    hide Foot, Feet, Separate;
    var moved := MovedLayout(l, Inserting(n, k), holder);
    MovedFeet(l, Inserting(n, k), moved);
    DropNothing(moved, Index(k));
    IsHold(moved);
    SetFeet(moved, Index(k), m);
  }

  /** The slice with `value` at `k`: append and copy, or append alone at the end. */
  method Insert(cells: array<Value>, len: nat, k: nat, value: Value, ghost items: seq<Json>, ghost l: Layout, ghost doc: Json, ghost m: Layout)
    returns (grown: array<Value>, ghost out: Layout)
    requires k <= len && Owns(Slice(cells, len), Arr(items), l) && Owns(value, doc, m) && Foot(m) !! Foot(l)
    modifies cells
    ensures len == |items| && len < grown.Length && (grown == cells || fresh(grown))
    ensures Owns(Slice(grown, len + 1), Arr(items[..k] + [doc] + items[k..]), out) && Foot(out) <= {grown} + Foot(l) + Foot(m)
  {
    hide Rep, Foot, Feet, KidsRep, Moved, Inserting, Numbered, Separate, Picks, Inserted, MovedLayout;
    ghost var v := Slice(cells, len);
    RepKind(v, Arr(items), l);
    Opened(v, Arr(items), l);
    SameNumbers(cells[..len], items);
    NumberedKeys(items);
    NumberedInsert(cells[..len], k, value);
    InsertingPicks(len, k);
    IsHold(l);
    SeparateHolder(l);
    ghost var kids, docs, was := Kids(v), JKids(Arr(items)), cells[..len];
    assert allocated(Feet(l)) && allocated(Foot(m));
    grown := Grow(cells, len);
    Shift(grown, len, k);
    grown[k] := value;
    assert grown[..len + 1] == was[..k] + [value] + was[k..];
    out := Inserted(l, len, k, grown, m);
    InsertedOwns(kids, docs, l, k, grown, value, doc, m, items);
  }

  lemma InsertedOwns(kids: map<Key, Value>, docs: map<Key, Json>, l: Layout, k: nat, grown: array<Value>, value: Value, doc: Json, m: Layout,
                     items: seq<Json>)
    requires l.Hold? && KidsRep(kids, docs, l) && Picks(Inserting(|items|, k), l.kids.Keys) && Owns(value, doc, m) && Separate(l)
    requires Foot(m) !! Feet(l) && grown !in Feet(l) && grown !in Foot(m) && k <= |items| < grown.Length
    requires docs == JKids(Arr(items)) && Picks(Inserting(|items|, k), kids.Keys)
    requires Kids(Slice(grown, |items| + 1)) == Moved(kids, Inserting(|items|, k))[Index(k) := value]
    ensures var out := Inserted(l, |items|, k, grown, m);
      Owns(Slice(grown, |items| + 1), Arr(items[..k] + [doc] + items[k..]), out) && Foot(out) <= {grown} + Feet(l) + Foot(m)
  {
    hide Rep, Foot, Feet, KidsRep, Moved, Inserting, Numbered, Separate, Picks, Inserted, MovedLayout;
    NumberedInsert(items, k, doc);
    InsertedFeet(l, |items|, k, grown, m);
    InsertedRep(kids, docs, l, |items|, k, grown, value, doc, m);
    InsertedHold(l, |items|, k, grown, m);
    Closed(Slice(grown, |items| + 1), Arr(items[..k] + [doc] + items[k..]), Inserted(l, |items|, k, grown, m));
  }

  lemma InsertedHold(l: Layout, n: nat, k: nat, holder: object, m: Layout)
    requires l.Hold? && Picks(Inserting(n, k), l.kids.Keys)
    ensures Inserted(l, n, k, holder, m).Hold? && Inserted(l, n, k, holder, m).holder == holder
  {
  }

  lemma InsertedRep(kids: map<Key, Value>, docs: map<Key, Json>, l: Layout, n: nat, k: nat, holder: object, value: Value, doc: Json, m: Layout)
    requires l.Hold? && KidsRep(kids, docs, l) && Picks(Inserting(n, k), l.kids.Keys) && Rep(value, doc, m)
    ensures Inserted(l, n, k, holder, m).Hold?
    ensures KidsRep(Moved(kids, Inserting(n, k))[Index(k) := value], Moved(docs, Inserting(n, k))[Index(k) := doc], Inserted(l, n, k, holder, m))
  {
    hide Rep, KidsRep;
    var from := Inserting(n, k);
    KidsKeys(kids, docs, l);
    KidsRepMoved(kids, docs, l, from, holder);
    var moved := MovedLayout(l, from, holder);
    hide Inserting;
    NotInserted(n, k);
    MovedWithout(kids, from, Index(k));
    MovedWithout(docs, from, Index(k));
    DropNothing(moved, Index(k));
    KidsRepSet(Moved(kids, from), Moved(docs, from), moved, Index(k), value, doc, m);
  }

  lemma NotInserted(n: nat, k: nat)
    ensures Index(k) !in Inserting(n, k)
  {
  }

  lemma MovedWithout<T>(m: map<Key, T>, from: map<Key, Key>, key: Key)
    requires key !in from && forall k :: k in from ==> from[k] in m
    ensures Moved(m, from) - {key} == Moved(m, from)
  {
  }

  lemma KidsKeys(kids: map<Key, Value>, docs: map<Key, Json>, l: Layout)
    requires l.Hold? && KidsRep(kids, docs, l)
    ensures kids.Keys == docs.Keys == l.kids.Keys
  {
  }

  lemma SeparateHolder(l: Layout)
    requires l.Hold? && Separate(l)
    ensures l.holder !in Feet(l)
  {
  }

  lemma RepKind(v: Value, j: Json, l: Layout)
    requires Rep(v, j, l)
    ensures SameKind(v, j) && Shaped(v) && (v.Scalar? <==> l.Leaf?)
  {
  }

  /** copy(cells[k+1:], cells[k:]) over the first `len` + 1 cells. */
  method Shift(cells: array<Value>, len: nat, k: nat)
    requires k <= len < cells.Length
    modifies cells
    ensures cells[..k] == old(cells[..k]) && cells[k + 1..len + 1] == old(cells[k..len])
  {
    forall i | k < i <= len {
      cells[i] := cells[i - 1];
    }
  }

  /** append(cells[:k], cells[k+1:]...): in place; the last cell keeps a stale copy past the new length. */
  method RemoveAt(cells: array<Value>, len: nat, k: nat, ghost items: seq<Json>, ghost l: Layout) returns (ghost out: Layout)
    requires k < len && Owns(Slice(cells, len), Arr(items), l)
    modifies cells
    ensures len == |items| && len <= cells.Length
    ensures Owns(Slice(cells, len - 1), Arr(items[..k] + items[k + 1..]), out) && Foot(out) <= Foot(l)
  {
    hide Rep, Foot, Feet, KidsRep, Removing, Numbered, Separate, Picks;
    ghost var v := Slice(cells, len);
    RepKind(v, Arr(items), l);
    Opened(v, Arr(items), l);
    SameNumbers(cells[..len], items);
    NumberedKeys(items);
    NumberedRemove(cells[..len], k);
    NumberedRemove(items, k);
    RemovingPicks(len, k);
    IsHold(l);
    SeparateHolder(l);
    ghost var kids, docs, from, was := Kids(v), JKids(Arr(items)), Removing(len, k), cells[..len];
    forall i | k <= i < len - 1 {
      cells[i] := cells[i + 1];
    }
    assert cells[..len - 1] == was[..k] + was[k + 1..];
    out := MovedLayout(l, from, cells);
    KidsRepMoved(kids, docs, l, from, cells);
    PicksMoves(l, from, out);
    IsHold(out);
    Closed(Slice(cells, len - 1), Arr(items[..k] + items[k + 1..]), out);
  }

  lemma PicksMoves(l: Layout, from: map<Key, Key>, moved: Layout)
    requires l.Hold? && Picks(from, l.kids.Keys) && Separate(l) && moved == MovedLayout(l, from, l.holder)
    ensures Feet(moved) <= Feet(l) && Separate(moved)
  {
    MovedFeet(l, from, moved);
  }

  // Decoding and encoding -----------------------------------------------------------------

  /** A decoded document is new on the heap. */
  method Build(j: Json) returns (v: Value, ghost l: Layout)
    ensures Owns(v, j, l) && fresh(Foot(l))
    decreases j, 1
  {
    match j
    case Obj(fields) => v, l := BuildObject(j);
    case Arr(items) => v, l := BuildArray(j);
    case _ => v, l := Scalar(j), Leaf;
  }

  method BuildObject(j: Json) returns (v: Value, ghost l: Layout)
    requires j.Obj?
    ensures Owns(v, j, l) && fresh(Foot(l))
    decreases j, 0
  {
    hide Rep, Foot, Feet, KidsRep, Keyed, Separate;
    var node := new Node(map[]);
    var todo := j.fields.Keys;
    ghost var done: map<string, Json> := map[];
    l := Hold(node, map[]);
    EmptyObject(node);
    while todo != {}
      invariant todo <= j.fields.Keys && done.Keys == j.fields.Keys - todo && forall key :: key in done ==> done[key] == j.fields[key]
      invariant Owns(Ref(node), Obj(done), l) && fresh(Foot(l)) && fresh(node)
      decreases todo
    {
      var key :| key in todo;
      assert allocated(Foot(l));
      var kid, m := Build(j.fields[key]);
      OwnsRest(Ref(node), Obj(done), l, Field(key));
      SetFeet(l, Field(key), m);
      SetField(node, key, kid, done, l, j.fields[key], m);
      done := done[key := j.fields[key]];
      l := Set(l, Field(key), m);
      todo := todo - {key};
    }
    assert done == j.fields;
    v := Ref(node);
  }

  lemma EmptyObject(node: Node)
    requires node.fields == map[]
    ensures Owns(Ref(node), Obj(map[]), Hold(node, map[])) && Foot(Hold(node, map[])) == {node}
  {
    assert Kids(Ref(node)) == map[] && JKids(Obj(map[])) == map[];
    Closed(Ref(node), Obj(map[]), Hold(node, map[]));
  }

  method BuildArray(j: Json) returns (v: Value, ghost l: Layout)
    requires j.Arr?
    ensures Owns(v, j, l) && fresh(Foot(l))
    decreases j, 0
  {
    hide Rep, Foot, Feet, KidsRep, Numbered, Separate;
    var cells := new Value[0];
    l := Hold(cells, map[]);
    EmptyArray(cells);
    var i := 0;
    while i < |j.items|
      invariant i <= |j.items| && fresh(cells)
      invariant Owns(Slice(cells, i), Arr(j.items[..i]), l) && fresh(Foot(l))
    {
      assert allocated(Foot(l));
      var kid, m := Build(j.items[i]);
      cells, l := Insert(cells, i, i, kid, j.items[..i], l, j.items[i], m);
      assert j.items[..i][..i] + [j.items[i]] + j.items[..i][i..] == j.items[..i + 1];
      i := i + 1;
    }
    assert j.items[..i] == j.items;
    v := Slice(cells, i);
  }

  lemma EmptyArray(cells: array<Value>)
    ensures Owns(Slice(cells, 0), Arr([]), Hold(cells, map[])) && Foot(Hold(cells, map[])) == {cells}
  {
    assert Kids(Slice(cells, 0)) == map[] && JKids(Arr([])) == map[];
    Closed(Slice(cells, 0), Arr([]), Hold(cells, map[]));
  }

  /** Encoding reads the document off the heap. */
  method ReadBack(v: Value, ghost j: Json, ghost l: Layout) returns (out: Json)
    requires Rep(v, j, l)
    ensures out == j
    decreases j
  {
    hide Rep, KidsRep, Keyed, Numbered;
    RepKind(v, j, l);
    match v
    case Scalar(it) => out := it;
    case Ref(node) =>
      var fields: map<string, Json> := map[];
      var todo := node.fields.Keys;
      Opened(v, j, l);
      SameNames(node.fields, j.fields);
      while todo != {}
        invariant Rep(v, j, l) && todo <= node.fields.Keys && fields.Keys == node.fields.Keys - todo
        invariant forall name :: name in fields ==> fields[name] == j.fields[name]
        decreases todo
      {
        var name :| name in todo;
        Opened(v, j, l);
        assert allocated(Foot(l));
        KeyedAt(node.fields, name);
        KeyedAt(j.fields, name);
        var kid := ReadBack(node.fields[name], j.fields[name], l.kids[Field(name)]);
        fields := fields[name := kid];
        todo := todo - {name};
      }
      assert fields == j.fields;
      out := Obj(fields);
    case Slice(cells, len) =>
      var items: seq<Json> := [];
      Opened(v, j, l);
      SameNumbers(cells[..len], j.items);
      while |items| < len
        invariant Rep(v, j, l) && |items| <= len && items == j.items[..|items|]
      {
        Opened(v, j, l);
        assert allocated(Foot(l));
        NumberedAt(cells[..len], |items|);
        NumberedAt(j.items, |items|);
        var kid := ReadBack(cells[|items|], j.items[|items|], l.kids[Index(|items|)]);
        items := items + [kid];
      }
      out := Arr(items);
  }

  lemma KeyedAt<T>(m: map<string, T>, name: string)
    requires name in m
    ensures Field(name) in Keyed(m) && Keyed(m)[Field(name)] == m[name]
  {
  }

  lemma NumberedAt<T>(s: seq<T>, k: nat)
    requires k < |s|
    ensures Index(k) in Numbered(s) && Numbered(s)[Index(k)] == s[k]
  {
  }

  // One operation -----------------------------------------------------------------------------

  /** The decoded value of an operation, if it has one. */
  ghost predicate Carries(value: Option<Value>, op: Operation, m: Layout)
    reads Foot(m)
  {
    op.Valid() && (value.Some? <==> op.value.Some?) && Separate(m) && (value.Some? ==> Rep(value.value, op.value.value, m))
  }

  method ObjectLeaf(node: Node, leaf: string, op: Operation, value: Option<Value>, ghost fields: map<string, Json>, ghost l: Layout, ghost m: Layout)
    returns (ok: bool, ghost out: Layout)
    requires Owns(Ref(node), Obj(fields), l) && Carries(value, op, m) && Foot(m) !! Foot(l)
    modifies node
    ensures ok == AtLeaf(Obj(fields), leaf, op).Some?
    ensures ok ==> Owns(Ref(node), AtLeaf(Obj(fields), leaf, op).value, out) && Foot(out) <= Foot(l) + Foot(m)
  {
    hide Rep, Foot, Feet, KidsRep, Keyed, Separate;
    out := l;
    Opened(Ref(node), Obj(fields), l);
    SameNames(node.fields, fields);
    OwnsRest(Ref(node), Obj(fields), l, Field(leaf));
    IsHold(l);
    var found := leaf in node.fields;
    if op.kind != Add && !found {
      return false, out;
    }
    if op.kind == Remove {
      DeleteField(node, leaf, fields, l);
      return true, Drop(l, Field(leaf));
    }
    SetFeet(l, Field(leaf), m);
    SetField(node, leaf, value.value, fields, l, op.value.value, m);
    ok, out := true, Set(l, Field(leaf), m);
  }

  method ArrayLeaf(cells: array<Value>, len: nat, leaf: string, op: Operation, value: Option<Value>, ghost items: seq<Json>, ghost l: Layout,
                   ghost m: Layout) returns (h: Option<Value>, ghost out: Layout)
    requires Owns(Slice(cells, len), Arr(items), l) && Carries(value, op, m) && Foot(m) !! Foot(l)
    modifies cells
    ensures h.Some? == AtLeaf(Arr(items), leaf, op).Some?
    ensures h.Some? ==> h.value.Slice? && (h.value.cells == cells || fresh(h.value.cells))
                        && Owns(h.value, AtLeaf(Arr(items), leaf, op).value, out) && Foot(out) <= {h.value.cells} + Foot(l) + Foot(m)
  {
    hide Rep, Foot, Feet, KidsRep, Numbered, Separate;
    out := l;
    RepKind(Slice(cells, len), Arr(items), l);
    Opened(Slice(cells, len), Arr(items), l);
    SameNumbers(cells[..len], items);
    if op.kind == Add && leaf == "-" {
      var grown, o := Insert(cells, len, len, value.value, items, l, op.value.value, m);
      assert items[..len] + [op.value.value] + items[len..] == items + [op.value.value];
      return Some(Slice(grown, len + 1)), o;
    }
    var position := ArrayIndex(leaf, len, op.kind == Add);
    if position.None? {
      return None, out;
    }
    var k := position.value;
    match op.kind
    case Add =>
      var grown, o := Insert(cells, len, k, value.value, items, l, op.value.value, m);
      h, out := Some(Slice(grown, len + 1)), o;
    case Replace =>
      OwnsRest(Slice(cells, len), Arr(items), l, Index(k));
      IsHold(l);
      SetFeet(l, Index(k), m);
      SetCell(cells, len, k, value.value, items, l, op.value.value, m);
      h, out := Some(Slice(cells, len)), Set(l, Index(k), m);
    case Remove =>
      out := RemoveAt(cells, len, k, items, l);
      h := Some(Slice(cells, len - 1));
  }

  /** artifactRuntimePatchParent: the value at a path, found by walking the heap. */
  method Parent(document: Value, segments: seq<string>, ghost j: Json, ghost l: Layout) returns (end: Option<Value>)
    requires Context(document, j, l, segments)
    ensures end.Some? == Get(j, segments).Some?
    ensures Context(document, j, l, segments)
    ensures end.Some? ==> end.value == Along(document, j, l, segments) == old(Along(document, j, l, segments))
  {
    hide Context, Along, Get;
    var current := document;
    ghost var at, low := j, l;
    var i := 0;
    assert segments[0..] == segments;
    while i < |segments|
      invariant Context(document, j, l, segments)
      invariant i <= |segments| && Context(current, at, low, segments[i..]) && Get(j, segments) == Get(at, segments[i..])
      invariant Get(j, segments).Some? ==> old(Along(document, j, l, segments)) == Along(document, j, l, segments) == Along(current, at, low, segments[i..])
    {
      WalkStep(current, at, low, segments[i..]);
      assert segments[i..][1..] == segments[i + 1..];
      match current {
        case Ref(node) =>
          if segments[i] !in node.fields {
            return None;
          }
          current := node.fields[segments[i]];
        case Slice(cells, len) =>
          var position := ArrayIndex(segments[i], len, false);
          if position.None? {
            return None;
          }
          current := cells[position.value];
        case Scalar(_) =>
          return None;
      }
      low := low.kids[KeyOf(at, segments[i]).value];
      at := Child(at, segments[i]).value;
      i := i + 1;
    }
    WalkEnd(current, at, low, segments[i..]);
    end := Some(current);
  }

  lemma WalkEnd(v: Value, j: Json, l: Layout, path: seq<string>)
    requires path == []
    ensures Context(v, j, l, path) && Get(j, path) == Some(j) && Along(v, j, l, path) == v && Below(l, j, path) == l && Around(l, j, path) == {}
  {
  }

  /** One step of the walk. */
  lemma WalkStep(v: Value, j: Json, l: Layout, path: seq<string>)
    requires Context(v, j, l, path) && path != []
    ensures Shaped(v) && match v
            case Ref(node) => (path[0] in node.fields <==> Child(j, path[0]).Some?)
            case Slice(cells, len) => ArrayIndex(path[0], len, false).Some? <==> Child(j, path[0]).Some?
            case Scalar(_) => Child(j, path[0]).None?
    ensures Child(j, path[0]).None? ==> Get(j, path).None?
    ensures Child(j, path[0]).Some? ==>
              var kid := match v case Ref(node) => node.fields[path[0]]
                                 case Slice(cells, len) => cells[ArrayIndex(path[0], len, false).value]
                                 case Scalar(_) => v;
              var doc := Child(j, path[0]).value;
              && KeyOf(j, path[0]).Some? && l.Hold? && KeyOf(j, path[0]).value in l.kids
              && (var low := l.kids[KeyOf(j, path[0]).value];
                  Context(kid, doc, low, path[1..]) && Get(j, path) == Get(doc, path[1..])
                  && Along(v, j, l, path) == Along(kid, doc, low, path[1..]))
  {
    hide KidsRep, Keyed, Numbered;
    match v
    case Ref(node) =>
      SameNames(node.fields, j.fields);
      if path[0] in node.fields { KeyedAt(node.fields, path[0]); KeyedAt(j.fields, path[0]); }
    case Slice(cells, len) =>
      SameNumbers(cells[..len], j.items);
      if ArrayIndex(path[0], len, false).Some? {
        NumberedAt(cells[..len], ArrayIndex(path[0], len, false).value);
        NumberedAt(j.items, ArrayIndex(path[0], len, false).value);
      }
    case Scalar(_) =>
  }

  // A slice that moved goes back into its parent ------------------------------------------------

  /** The last step of a path: its end is a child of the value before it. */
  lemma {:induction false} LastStep(v: Value, j: Json, l: Layout, path: seq<string>)
    requires Owns(v, j, l) && path != [] && Get(j, path).Some?
    ensures Context(v, j, l, path) && Context(v, j, l, path[..|path| - 1])
    ensures var n := |path| - 1;
      Get(j, path[..n]).Some? &&
      (var g, doc, low := Along(v, j, l, path[..n]), Get(j, path[..n]).value, Below(l, j, path[..n]);
       && Owns(g, doc, low) && !g.Scalar? && KeyOf(doc, path[n]).Some?
       && Child(doc, path[n]) == Some(Get(j, path).value)
       && KeyOf(doc, path[n]).value in low.kids && Below(l, j, path) == low.kids[KeyOf(doc, path[n]).value])
    decreases |path|
  {
    hide Feet, Separate, KidsRep, Keyed, Numbered;
    var n := |path| - 1;
    Split(v, j, l, path);
    Split(v, j, l, path[..n]);
    RepKind(v, j, l);
    Opened(v, j, l);
    var key := KeyOf(j, path[0]).value;
    if n > 0 {
      DropFeet(l, key);
      assert path[..n][1..] == path[1..][..n - 1];
      assert path[1..][n - 1] == path[n];
      LastStep(Kids(v)[key], JKids(j)[key], l.kids[key], path[1..]);
    } else {
      assert path[..n] == [] && path[1..] == [];
    }
  }

  /** The write of replaceArtifactRuntimePatchParent. */
  method SetChild(parent: Value, segment: string, h: Value, ghost j: Json, ghost l: Layout, ghost doc: Json, ghost m: Layout)
    requires Child(j, segment).Some? && RestOk(parent, j, l, KeyOf(j, segment).value) && Kids(parent).Keys == JKids(j).Keys
    requires Rep(h, doc, m) && Holder(parent) !in Foot(m)
    modifies if parent.Scalar? then {} else {Holder(parent)}
    ensures Rep(parent, WithChild(j, segment, doc), Set(l, KeyOf(j, segment).value, m))
  {
    hide Rep, Foot, Feet, KidsRep;
    match parent
    case Ref(node) => SetField(node, segment, h, j.fields, l, doc, m);
    case Slice(cells, len) =>
      SameNumbers(cells[..len], j.items);
      var position := ArrayIndex(segment, len, false);
      SetCell(cells, len, position.value, h, j.items, l, doc, m);
  }

  // The whole patch -------------------------------------------------------------------------------

  method UpdateObject(document: Value, node: Node, op: Operation, value: Option<Value>, ghost j: Json, ghost l: Layout, ghost m: Layout)
    returns (r: Option<Value>, ghost out: Layout)
    requires Owns(document, j, l) && Carries(value, op, m) && Foot(m) !! Foot(l) && op.segments != []
    requires var path := op.segments[..|op.segments| - 1];
      Context(document, j, l, path) && Get(j, path).Some? && Along(document, j, l, path) == Ref(node)
    modifies Foot(l)
    ensures r.Some? == Update(j, op.segments, op).Some?
    ensures r.Some? ==> Owns(r.value, Update(j, op.segments, op).value, out) && Foot(out) <= Foot(l) + Foot(m)
  {
    hide Rep, Foot, Feet, KidsRep, Separate, Context, Along, Below, Around, Keyed, Numbered, Placed;
    var n := |op.segments| - 1;
    ghost var path := op.segments[..n];
    UpdateIsPut(j, op.segments, op);
    Split(document, j, l, path);
    ContextReaches(document, j, l, path);
    ghost var sub, low := Get(j, path).value, Below(l, j, path);
    RepKind(Ref(node), sub, low);
    Opened(Ref(node), sub, low);
    IsHold(low);
    assert allocated(Foot(l));
    var ok, o := ObjectLeaf(node, op.segments[n], op, value, sub.fields, low, m);
    if !ok {
      return None, l;
    }
    PlugSeparate(l, j, path, o);
    Plug(document, j, l, path, AtLeaf(sub, op.segments[n], op).value, o);
    r, out := Some(document), Placed(l, j, path, o);
  }

  method UpdateArray(document: Value, cells: array<Value>, len: nat, op: Operation, value: Option<Value>, ghost j: Json, ghost l: Layout, ghost m: Layout)
    returns (r: Option<Value>, ghost out: Layout)
    requires Owns(document, j, l) && Carries(value, op, m) && Foot(m) !! Foot(l) && op.segments != []
    requires var path := op.segments[..|op.segments| - 1];
      Context(document, j, l, path) && Get(j, path).Some? && Along(document, j, l, path) == Slice(cells, len)
    modifies Foot(l)
    ensures r.Some? == Update(j, op.segments, op).Some?
    ensures r.Some? ==> Owns(r.value, Update(j, op.segments, op).value, out)
                        && forall o :: o in Foot(out) ==> o in Foot(l) + Foot(m) || fresh(o)
  {
    hide Rep, Foot, Feet, KidsRep, Separate, Context, Along, Below, Around, Keyed, Numbered, Placed, Carries;
    var n := |op.segments| - 1;
    var path := op.segments[..n];
    CarriesValid(value, op, m);
    UpdateIsPut(j, op.segments, op);
    Split(document, j, l, path);
    ghost var sub, low := Get(j, path).value, Below(l, j, path);
    RepKind(Slice(cells, len), sub, low);
    Opened(Slice(cells, len), sub, low);
    IsHold(low);
    if path == [] {
      WalkEnd(document, j, l, path);
      r, out := ArrayLeaf(cells, len, op.segments[n], op, value, sub.items, l, m);
      return;
    }
    r, out := UpdateNested(document, path, cells, len, op.segments[n], op, value, j, l, m);
  }

  lemma CarriesValid(value: Option<Value>, op: Operation, m: Layout)
    requires Carries(value, op, m)
    ensures op.Valid()
  {
  }

  /** The objects that a new end of the path must keep away from: those around the parent of the end,
      and those of the parent itself apart from the end. */
  ghost function Beside(j: Json, l: Layout, path: seq<string>): set<object>
    requires path != [] && Get(j, path[..|path| - 1]).Some?
  {
    var up := path[..|path| - 1];
    var low := Below(l, j, up);
    Around(l, j, up) + if low.Hold? && KeyOf(Get(j, up).value, path[|path| - 1]).Some?
                       then Foot(Drop(low, KeyOf(Get(j, up).value, path[|path| - 1]).value)) else {}
  }

  /** The document is sound but for the end of the path. */
  ghost predicate Detached(v: Value, j: Json, l: Layout, path: seq<string>)
    requires path != [] && Get(j, path[..|path| - 1]).Some?
    reads Beside(j, l, path)
  {
    && Get(j, path).Some? && Separate(l) && Beside(j, l, path) <= Foot(l)
    && Context(v, j, l, path[..|path| - 1])
    && (var (g, doc, low) := ParentOf(v, j, l, path);
        && Child(doc, path[|path| - 1]).Some? && low.Hold?
        && (var key := KeyOf(doc, path[|path| - 1]).value;
            && Separate(Drop(low, key)) && Foot(Drop(low, key)) !! Around(l, j, path[..|path| - 1])
            && RestOk(g, doc, low, key) && Kids(g).Keys == JKids(doc).Keys))
  }

  lemma DetachEnd(v: Value, j: Json, l: Layout, path: seq<string>)
    requires Owns(v, j, l) && path != [] && Get(j, path).Some? && Context(v, j, l, path)
    ensures Get(j, path[..|path| - 1]).Some? && Detached(v, j, l, path)
    ensures Owns(Along(v, j, l, path), Get(j, path).value, Below(l, j, path))
    ensures Foot(Below(l, j, path)) <= Foot(l) && Foot(Below(l, j, path)) !! Beside(j, l, path) && Beside(j, l, path) <= Foot(l)
  {
    hide Rep, Foot, Feet, KidsRep, Separate, Context, Along, Below, Around, Keyed, Numbered, RestOk, SameKind, Set, Drop;
    var n := |path| - 1;
    Split(v, j, l, path);
    Split(v, j, l, path[..n]);
    LastStep(v, j, l, path);
    var (g, doc, low) := ParentOf(v, j, l, path);
    var key := KeyOf(doc, path[n]).value;
    Opened(g, doc, low);
    OwnsRest(g, doc, low, key);
    IsHold(low);
    DropFeet(low, key);
    DropHolds(low, key);
  }

  /** replaceArtifactRuntimePatchParent: the slice at the end of the path has become `h`. */
  method PutBack(document: Value, path: seq<string>, h: Value, ghost j: Json, ghost l: Layout, ghost became: Json, ghost o: Layout)
    returns (ghost out: Layout)
    requires path != [] && Get(j, path[..|path| - 1]).Some? && Detached(document, j, l, path) && Owns(h, became, o) && Foot(o) !! Beside(j, l, path)
    modifies Foot(l)
    ensures Owns(document, Put(j, path, became), out) && Foot(out) <= Foot(l) + Foot(o)
  {
    hide Rep, Foot, Feet, KidsRep, Separate, Context, Along, Below, Around, Keyed, Numbered, SameKind, Placed, RestOk, Put, Owns, Beside, Detached;
    var n := |path| - 1;
    EndParts(document, j, l, path, o);
    assert Beside(j, l, path) <= Foot(l) by { BesideInside(document, j, l, path); }
    assert allocated(Foot(l)) && allocated(Foot(o));
    var parent := Parent(document, path[..n], j, l);
    out := PutInto(document, parent.value, path, h, j, l, became, o);
  }

  lemma BesideInside(v: Value, j: Json, l: Layout, path: seq<string>)
    requires path != [] && Get(j, path[..|path| - 1]).Some? && Detached(v, j, l, path)
    ensures Beside(j, l, path) <= Foot(l)
  {
  }

  /** The value above the end of the path: sound but for its end, apart from `o`, and with its holder in the document. */
  lemma EndParts(v: Value, j: Json, l: Layout, path: seq<string>, o: Layout)
    requires path != [] && Get(j, path[..|path| - 1]).Some? && Detached(v, j, l, path) && Foot(o) !! Beside(j, l, path)
    ensures Get(j, path).Some? && Separate(l) && Context(v, j, l, path[..|path| - 1]) && Around(l, j, path[..|path| - 1]) <= Foot(l)
    ensures var (g, doc, low) := ParentOf(v, j, l, path);
      && Child(doc, path[|path| - 1]).Some? && low.Hold?
      && (var key := KeyOf(doc, path[|path| - 1]).value;
          && RestOk(g, doc, low, key) && !g.Scalar? && Holder(g) !in Foot(o) && Kids(g).Keys == JKids(doc).Keys && Holder(g) in Foot(l)
          && Holder(g) == low.holder && Shaped(g) && Holder(g) !in Around(l, j, path[..|path| - 1])
          && Separate(Drop(low, key)) && Foot(o) !! Foot(Drop(low, key)) && Foot(o) !! Around(l, j, path[..|path| - 1]))
  {
    hide Rep, Foot, Feet, KidsRep, Separate, Context, Along, Below, Around, Keyed, Numbered, SameKind, RestOk;
    var (g, doc, low) := ParentOf(v, j, l, path);
    var key := KeyOf(doc, path[|path| - 1]).value;
    DropHolds(low, key);
    RestHolder(g, doc, low, key);
  }

  method PutInto(document: Value, parent: Value, path: seq<string>, h: Value, ghost j: Json, ghost l: Layout, ghost became: Json, ghost o: Layout)
    returns (ghost out: Layout)
    requires path != [] && Get(j, path[..|path| - 1]).Some? && Detached(document, j, l, path) && Owns(h, became, o) && Foot(o) !! Beside(j, l, path)
    requires parent == Along(document, j, l, path[..|path| - 1])
    modifies if parent.Scalar? then {} else {Holder(parent)}
    ensures Owns(document, Put(j, path, became), out) && Foot(out) <= Foot(l) + Foot(o)
  {
    hide Rep, Foot, Feet, KidsRep, Separate, Context, Along, Below, Around, Keyed, Numbered, SameKind, Placed, RestOk, Put, WithChild, Set, JKids, Detached, Beside;
    var n := |path| - 1;
    EndParts(document, j, l, path, o);
    ghost var (g, doc, low) := ParentOf(document, j, l, path);
    ghost var key := KeyOf(doc, path[n]).value;
    assert allocated(Foot(l));
    SetChild(parent, path[n], h, doc, low, became, o);
    out := Placed(l, j, path[..n], Set(low, key, o));
    PutBackOwns(document, path, j, l, became, o);
  }

  lemma RestHolder(v: Value, j: Json, l: Layout, key: Key)
    requires RestOk(v, j, l, key)
    ensures !v.Scalar? && l.Hold? && Holder(v) == l.holder && Shaped(v)
  {
  }

  lemma PutBackOwns(document: Value, path: seq<string>, j: Json, l: Layout, became: Json, o: Layout)
    requires path != [] && Get(j, path).Some? && Get(j, path[..|path| - 1]).Some? && Separate(l) && Separate(o)
    requires Context(document, j, l, path[..|path| - 1])
    requires var (g, doc, low) := ParentOf(document, j, l, path);
      && Child(doc, path[|path| - 1]).Some? && low.Hold?
      && (var key := KeyOf(doc, path[|path| - 1]).value;
          && Separate(Drop(low, key)) && Foot(o) !! Foot(Drop(low, key)) && Foot(o) !! Around(l, j, path[..|path| - 1])
          && Rep(g, WithChild(doc, path[|path| - 1], became), Set(low, key, o)))
    ensures var (g, doc, low) := ParentOf(document, j, l, path);
      var out := Placed(l, j, path[..|path| - 1], Set(low, KeyOf(doc, path[|path| - 1]).value, o));
      Owns(document, Put(j, path, became), out) && Foot(out) <= Foot(l) + Foot(o)
  {
    hide Rep, Foot, Feet, KidsRep, Separate, Context, Along, Below, Around, Keyed, Numbered, SameKind, Placed;
    var n := |path| - 1;
    var (g, doc, low) := ParentOf(document, j, l, path);
    var key := KeyOf(doc, path[n]).value;
    ContextReaches(document, j, l, path[..n]);
    DropLess(low, key);
    AroundBelow(l, j, path[..n]);
    SetFeet(low, key, o);
    PutStep(j, path, became);
    PlugSeparate(l, j, path[..n], Set(low, key, o));
    Plug(document, j, l, path[..n], WithChild(doc, path[n], became), Set(low, key, o));
  }

  /** The value above the end of a path, on the heap, in the document and in the layout. */
  ghost function ParentOf(v: Value, j: Json, l: Layout, path: seq<string>): (Value, Json, Layout)
    requires path != [] && Context(v, j, l, path[..|path| - 1]) && Get(j, path[..|path| - 1]).Some?
    reads Around(l, j, path[..|path| - 1])
  {
    var up := path[..|path| - 1];
    (Along(v, j, l, up), Get(j, up).value, Below(l, j, up))
  }

  /** The slice is not the document: what it became is put back into its own parent. */
  method UpdateNested(document: Value, path: seq<string>, cells: array<Value>, len: nat, leaf: string, op: Operation, value: Option<Value>,
                      ghost j: Json, ghost l: Layout, ghost m: Layout) returns (r: Option<Value>, ghost out: Layout)
    requires Owns(document, j, l) && Carries(value, op, m) && Foot(m) !! Foot(l) && op.Valid() && path != []
    requires Context(document, j, l, path) && Get(j, path).Some? && Along(document, j, l, path) == Slice(cells, len) && Get(j, path).value.Arr?
    modifies Foot(l)
    ensures r.Some? == AtLeaf(Get(j, path).value, leaf, op).Some?
    ensures r.Some? ==> Owns(r.value, Put(j, path, AtLeaf(Get(j, path).value, leaf, op).value), out)
                        && forall o :: o in Foot(out) ==> o in Foot(l) + Foot(m) || fresh(o)
  {
    hide Rep, Foot, Feet, KidsRep, Separate, Context, Along, Below, Around, Carries, AtLeaf, Put, Get, Detached, Beside;
    ghost var items, low := Get(j, path).value.items, Below(l, j, path);
    DetachEnd(document, j, l, path);
    RepKind(Slice(cells, len), Arr(items), low);
    Opened(Slice(cells, len), Arr(items), low);
    IsHold(low);
    assert allocated(Foot(l));
    var h, o := ArrayLeaf(cells, len, leaf, op, value, items, low, m);
    if h.None? {
      return None, l;
    }
    out := PutBack(document, path, h.value, j, l, AtLeaf(Arr(items), leaf, op).value, o);
    r := Some(document);
  }

  lemma DropHolds(l: Layout, key: Key)
    requires l.Hold?
    ensures Foot(Drop(l, key)) == {l.holder} + Feet(Drop(l, key)) && Drop(l, key).Hold?
  {
  }

  method UpdateAt(document: Value, op: Operation, value: Option<Value>, ghost j: Json, ghost l: Layout, ghost m: Layout)
    returns (r: Option<Value>, ghost out: Layout)
    requires Owns(document, j, l) && Carries(value, op, m) && Foot(m) !! Foot(l) && op.segments != []
    modifies Foot(l)
    ensures r.Some? == Update(j, op.segments, op).Some?
    ensures r.Some? ==> Owns(r.value, Update(j, op.segments, op).value, out)
                        && forall o :: o in Foot(out) ==> o in Foot(l) + Foot(m) || fresh(o)
  {
    hide Rep, Foot, Context, Along, Below, Around, Keyed, Numbered, Update, Separate;
    var path := op.segments[..|op.segments| - 1];
    UpdateIsPut(j, op.segments, op);
    Split(document, j, l, path);
    assert allocated(Foot(l)) && allocated(Foot(m));
    var parent := Parent(document, path, j, l);
    if parent.None? {
      return None, l;
    }
    RepKind(parent.value, Get(j, path).value, Below(l, j, path));
    match parent.value
    case Ref(node) => r, out := UpdateObject(document, node, op, value, j, l, m);
    case Slice(cells, len) => r, out := UpdateArray(document, cells, len, op, value, j, l, m);
    case Scalar(_) => r, out := None, l;
  }

  /** applyArtifactRuntimePatchOperation: the document with the operation applied, perhaps a new root. */
  method Apply(document: Value, op: Operation, ghost j: Json, ghost l: Layout) returns (r: Option<Value>, ghost out: Layout)
    requires Owns(document, j, l) && op.Valid()
    modifies Foot(l)
    ensures r.Some? == ApplyOperation(j, op).Some?
    ensures r.Some? ==> Owns(r.value, ApplyOperation(j, op).value, out) && forall o :: o in Foot(out) ==> o in Foot(l) || fresh(o)
  {
    hide Rep, Foot, Update, Separate;
    var value: Option<Value> := None;
    ghost var m := Leaf;
    LeafIsEmpty();
    assert allocated(Foot(l));
    if op.value.Some? {
      var it, o := Build(op.value.value);
      value, m := Some(it), o;
    }
    if op.segments == [] {
      return value, m;
    }
    r, out := UpdateAt(document, op, value, j, l, m);
  }

  lemma LeafIsEmpty()
    ensures Foot(Leaf) == {} && Separate(Leaf)
  {
  }

  /** applyArtifactRuntimePatch: the operations of a patch, applied in place one after another. Either
      all of them succeed, or the caller gets nothing but an error. */
  method PatchDocument(current: Json, operations: Json) returns (r: Option<Json>)
    ensures r == ApplyPatch(current, operations)
  {
    hide Rep, Foot, ApplyOperation, DecodeOperation, Separate;
    var document, l := Build(current);
    if !operations.Arr? || operations.items == [] || |operations.items| > MAX_OPERATIONS {
      return None;
    }
    ghost var j := current;
    var index := 0;
    assert operations.items[0..] == operations.items;
    while index < |operations.items|
      invariant index <= |operations.items|
      invariant Owns(document, j, l) && fresh(Foot(l))
      invariant Fold(current, operations.items) == Fold(j, operations.items[index..])
    {
      assert operations.items[index..][1..] == operations.items[index + 1..];
      var op := DecodeOperation(operations.items[index]);
      if op.None? {
        return None;
      }
      var next, o := Apply(document, op.value, j, l);
      if next.None? {
        return None;
      }
      document, j, l := next.value, ApplyOperation(j, op.value).value, o;
      index := index + 1;
    }
    var out := ReadBack(document, j, l);
    r := Some(out);
  }

  const STATE_MAX_NODES := 32768
  const STATE_MAX_BYTES := 256 * 1024

  /** The patch as a whole, with the check of its result: the new document is handed out exactly when
      every operation succeeds and what they lead to keeps the bounds of a stored document. `bytes`
      gives the length of a value's encoding. */
  method PatchAndCheck(current: Json, operations: Json, bytes: Json -> nat) returns (r: Option<Json>)
    ensures var after := ApplyPatch(current, operations);
      r == if after.Some? && 0 < bytes(after.value) <= 256 * 1024 && BoundedJson.Shapely(after.value, 0)
              && Size(after.value) <= 32768 then after else None
  {
    hide ApplyPatch, BoundedJson.Shapely, Size;
    var document := PatchDocument(current, operations);
    if document.None? || bytes(document.value) == 0 || bytes(document.value) > STATE_MAX_BYTES {
      return None;
    }
    var count := new BoundedJson.Counter();
    var ok := BoundedJson.Valid(document.value, 0, count, STATE_MAX_NODES);
    r := if ok then document else None;
  }
}
