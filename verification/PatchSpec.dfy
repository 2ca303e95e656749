/** The JSON Patch subset (RFC 6902, sections 4.1 to 4.3) as a fold of pure updates. PatchHeap.dfy
    applies patches in place and is proved equal to this. */
module PatchSpec {
  import opened Basics
  import opened Texts
  import opened Json
  import JsonPointer

  // Array indices -------------------------------------------------------------------

  /** artifactRuntimeArrayIndex */
  function ArrayIndex(s: string, length: nat, allowEnd: bool): (r: Option<nat>)
    ensures r.Some? ==> r.value <= length && (!allowEnd ==> r.value < length)
  {
    if s == "" || (|s| > 1 && s[0] == '0') then None
    else
      // strconv.Atoi; values beyond the machine's integers are errors there and out of range here
      match ParseInt(s)
      case None => None
      case Some(n) => if n < 0 || n > length || (!allowEnd && n == length) then None else Some(n)
  }

  /** array-index in the grammar of section 4 of RFC 6901. */
  predicate IsIndex(s: string) {
    s == "0" || (AllDigits(s) && s[0] != '0')
  }

  /** A signed number that the parser takes although the grammar has no signs. */
  predicate SignedIndex(s: string) {
    s != "" && (s[0] == '+' || s[0] == '-') && AllDigits(s[1..])
  }

  /** Segments of the grammar are read as their value, within the array; of all other segments, exactly
      the signed numbers in range are accepted too. */
  lemma IndexExactly(s: string, length: nat, allowEnd: bool)
    ensures IsIndex(s) ==>
              ArrayIndex(s, length, allowEnd)
              == if Decimal(s) < length || (allowEnd && Decimal(s) == length) then Some(Decimal(s)) else None
    ensures ArrayIndex(s, length, allowEnd).Some? && !IsIndex(s)
            <==> SignedIndex(s) && (s[0] == '-' ==> Decimal(s[1..]) == 0)
                 && (Decimal(s[1..]) < length || (allowEnd && Decimal(s[1..]) == length))
  {
    if s != "" && AllDigits(s) {
      assert Digit(s[0]);
      if |s| == 1 && s[0] == '0' { assert s == "0"; }
    }
  }

  /** "+1" and "-0" are accepted, and are no indices by the grammar. */
  lemma SignsAreAccepted()
    ensures ArrayIndex("+1", 2, false) == Some(1) && !IsIndex("+1")
    ensures ArrayIndex("-0", 2, false) == Some(0) && !IsIndex("-0")
  {
    assert "+1"[1..] == "1" && "-0"[1..] == "0";
    assert Decimal("1") == 1 && Decimal("0") == 0;
  }

  // One operation ---------------------------------------------------------------------

  datatype Kind = Add | Replace | Remove

  /** `value` is Some exactly for add and replace. */
  datatype Operation = Operation(kind: Kind, segments: seq<string>, value: Option<Json>) {
    predicate Valid() { value.Some? <==> kind != Remove }
  }

  function KindOf(name: string): Option<Kind> {
    match name
    case "add" => Some(Add)
    case "replace" => Some(Replace)
    case "remove" => Some(Remove)
    case _ => None
  }

  function DecodeOperation(raw: Json): (r: Option<Operation>)
    ensures r.Some? ==> r.value.Valid()
  {
    if !raw.Obj? || !(raw.fields.Keys <= {"op", "path", "value"}) then None
    else if "op" !in raw.fields || "path" !in raw.fields then None
    else
      match (raw.fields["op"], raw.fields["path"])
      case (Str(name), Str(path)) =>
        var kind := KindOf(name);
        if kind.None? || (kind.value != Remove) != ("value" in raw.fields) then None
        else
          (match JsonPointer.Parse(path)
           case None => None
           case Some(segments) =>
             Some(Operation(kind.value, segments, if "value" in raw.fields then Some(raw.fields["value"]) else None)))
      case _ => None
  }

  /** The child that `segment` names. */
  function Child(doc: Json, segment: string): Option<Json> {
    match doc
    case Obj(fields) => if segment in fields then Some(fields[segment]) else None
    case Arr(items) =>
      (match ArrayIndex(segment, |items|, false)
       case None => None
       case Some(k) => Some(items[k]))
    case _ => None
  }

  function WithChild(doc: Json, segment: string, child: Json): Json
    requires Child(doc, segment).Some?
  {
    match doc
    case Obj(fields) => Obj(fields[segment := child])
    case Arr(items) => Arr(items[ArrayIndex(segment, |items|, false).value := child])
  }

  function AtLeaf(doc: Json, leaf: string, op: Operation): Option<Json>
    requires op.Valid()
  {
    match doc
    case Obj(fields) =>
      if op.kind == Add then Some(Obj(fields[leaf := op.value.value]))
      else if leaf !in fields then None
      else if op.kind == Replace then Some(Obj(fields[leaf := op.value.value]))
      else Some(Obj(fields - {leaf}))
    case Arr(items) =>
      if op.kind == Add && leaf == "-" then Some(Arr(items + [op.value.value]))
      else
        (match ArrayIndex(leaf, |items|, op.kind == Add)
         case None => None
         case Some(k) =>
           if op.kind == Add then Some(Arr(items[..k] + [op.value.value] + items[k..]))
           else if op.kind == Replace then Some(Arr(items[k := op.value.value]))
           else Some(Arr(items[..k] + items[k + 1..])))
    case _ => None
  }

  function Update(doc: Json, segments: seq<string>, op: Operation): Option<Json>
    requires segments != [] && op.Valid()
    decreases |segments|
  {
    if |segments| == 1 then AtLeaf(doc, segments[0], op)
    else
      match Child(doc, segments[0])
      case None => None
      case Some(child) =>
        match Update(child, segments[1..], op)
        case None => None
        case Some(next) => Some(WithChild(doc, segments[0], next))
  }

  function ApplyOperation(doc: Json, op: Operation): Option<Json>
    requires op.Valid()
  {
    if op.segments == [] then op.value else Update(doc, op.segments, op)
  }

  // The patch -------------------------------------------------------------------------

  const MAX_OPERATIONS := 64

  /** The fold: the first operation that fails makes the whole patch fail. */
  function Fold(doc: Json, operations: seq<Json>): Option<Json>
    decreases |operations|
  {
    if operations == [] then Some(doc)
    else
      match DecodeOperation(operations[0])
      case None => None
      case Some(op) =>
        match ApplyOperation(doc, op)
        case None => None
        case Some(next) => Fold(next, operations[1..])
  }

  function ApplyPatch(doc: Json, operations: Json): Option<Json> {
    if !operations.Arr? || operations.items == [] || |operations.items| > MAX_OPERATIONS then None
    else Fold(doc, operations.items)
  }

  // What an update changes --------------------------------------------------------------

  /** The value at a path. */
  function Get(doc: Json, path: seq<string>): Option<Json>
    decreases |path|
  {
    if path == [] then Some(doc)
    else
      match Child(doc, path[0])
      case None => None
      case Some(child) => Get(child, path[1..])
  }

  /** Two segments name different children of one value. */
  predicate Apart(doc: Json, a: string, b: string) {
    match doc
    case Obj(_) => a != b
    case Arr(items) =>
      ArrayIndex(a, |items|, false).Some? && ArrayIndex(b, |items|, false).Some?
      && ArrayIndex(a, |items|, false) != ArrayIndex(b, |items|, false)
    case _ => false
  }

  lemma ChildOfWithChild(doc: Json, segment: string, child: Json)
    requires Child(doc, segment).Some?
    ensures var next := WithChild(doc, segment, child);
      && Child(next, segment) == Some(child)
      && (forall again :: WithChild(next, segment, again) == WithChild(doc, segment, again))
      && (child == Child(doc, segment).value ==> next == doc)
      && (forall other :: Apart(doc, segment, other) ==> Child(next, other) == Child(doc, other))
  {
  }

  /** Values off the updated path stay as they are: the path leaves the updated one at a value above
      the updated array or object. */
  lemma {:induction false} OffPath(doc: Json, segments: seq<string>, op: Operation, shared: nat, path: seq<string>)
    requires op.Valid() && segments != [] && Update(doc, segments, op).Some?
    requires shared + 1 < |segments| && shared < |path| && path[..shared] == segments[..shared]
    requires Get(doc, path[..shared]).Some? && Apart(Get(doc, path[..shared]).value, segments[shared], path[shared])
    ensures Get(Update(doc, segments, op).value, path) == Get(doc, path)
    decreases shared
  {
    var child := Child(doc, segments[0]).value;
    var next := Update(child, segments[1..], op).value;
    ChildOfWithChild(doc, segments[0], next);
    if shared > 0 {
      assert path[0] == segments[0] by { assert path[..shared][0] == segments[..shared][0]; }
      assert path[..shared][1..] == path[1..][..shared - 1] == segments[1..][..shared - 1];
      OffPath(child, segments[1..], op, shared - 1, path[1..]);
    }
  }

  /** The parent of the updated value: where it was, what stands there now. */
  lemma {:induction false} ParentUpdated(doc: Json, segments: seq<string>, op: Operation)
    requires op.Valid() && segments != []
    ensures var parent := Get(doc, segments[..|segments| - 1]);
      var after := Update(doc, segments, op);
      && (after.Some? <==> parent.Some? && AtLeaf(parent.value, segments[|segments| - 1], op).Some?)
      && (after.Some? ==> Get(after.value, segments[..|segments| - 1]) == AtLeaf(parent.value, segments[|segments| - 1], op))
    decreases |segments|
  {
    if |segments| > 1 {
      var path := segments[..|segments| - 1];
      assert segments[1..][..|segments| - 2] == path[1..];
      assert segments[1..][|segments| - 2] == segments[|segments| - 1];
      if Child(doc, segments[0]).Some? {
        ParentUpdated(Child(doc, segments[0]).value, segments[1..], op);
        if Update(doc, segments, op).Some? {
          ChildOfWithChild(doc, segments[0], Update(Child(doc, segments[0]).value, segments[1..], op).value);
        }
      }
    }
  }

  /** `after` is `items` with the operation done at index `k`, the elements behind it moved by one
      where the operation makes or takes an element. */
  predicate DoneAt(items: seq<Json>, after: seq<Json>, k: nat, op: Operation) {
    && k <= |items| && (forall i :: 0 <= i < k ==> i < |after| && after[i] == items[i])
    && match op.kind
       case Add => |after| == |items| + 1 && op.value == Some(after[k]) && forall i :: k <= i < |items| ==> after[i + 1] == items[i]
       case Replace => |after| == |items| && k < |items| && op.value == Some(after[k]) && forall i :: k < i < |items| ==> after[i] == items[i]
       case Remove => |after| == |items| - 1 && k < |items| && forall i :: k < i < |items| ==> after[i - 1] == items[i]
  }

  /** What stands beside the updated value: in an object every other key keeps its value; in an array
      the elements keep theirs, moved by one behind the index of an added or removed element. */
  lemma BesideEnd(doc: Json, segments: seq<string>, op: Operation)
    requires op.Valid() && segments != [] && Update(doc, segments, op).Some?
    ensures var up, leaf := segments[..|segments| - 1], segments[|segments| - 1];
      var before, after := Get(doc, up), Get(Update(doc, segments, op).value, up);
      && before.Some? && after.Some?
      && match before.value
         case Obj(fields) =>
           && after.value.Obj? && Child(after.value, leaf) == op.value && (op.kind == Add || leaf in fields)
           && forall key :: key != leaf ==> Child(after.value, key) == Child(before.value, key)
         case Arr(items) =>
           after.value.Arr?
           && (if op.kind == Add && leaf == "-" then DoneAt(items, after.value.items, |items|, op)
               else ArrayIndex(leaf, |items|, op.kind == Add).Some?
                    && DoneAt(items, after.value.items, ArrayIndex(leaf, |items|, op.kind == Add).value, op))
         case _ => false
  {
    hide Update, Get;
    ParentUpdated(doc, segments, op);
  }

  // Inverses ----------------------------------------------------------------------------

  /** If two operations undo each other at one value, they do so at any depth. */
  lemma {:induction false} UndoneDeep(doc: Json, segments: seq<string>, back: string, first: Operation, second: Operation)
    requires first.Valid() && second.Valid() && segments != [] && Update(doc, segments, first).Some?
    requires forall v: Json :: AtLeaf(v, segments[|segments| - 1], first).Some? && Get(doc, segments[..|segments| - 1]) == Some(v) ==>
                                 AtLeaf(AtLeaf(v, segments[|segments| - 1], first).value, back, second) == Some(v)
    ensures Update(Update(doc, segments, first).value, segments[|segments| - 1 := back], second) == Some(doc)
    decreases |segments|
  {
    hide AtLeaf, Child, WithChild;
    var n := |segments| - 1;
    if n > 0 {
      var child := Child(doc, segments[0]).value;
      var next := Update(child, segments[1..], first).value;
      assert segments[..n][1..] == segments[1..][..n - 1];
      assert segments[1..][n - 1] == segments[n];
      assert segments[n := back][1..] == segments[1..][n - 1 := back];
      ChildOfWithChild(doc, segments[0], next);
      ChildOfWithChild(doc, segments[0], child);
      assert WithChild(WithChild(doc, segments[0], next), segments[0], child) == doc;
      forall v: Json | Get(child, segments[1..][..n - 1]) == Some(v) ensures Get(doc, segments[..n]) == Some(v) {
      }
      UndoneDeep(child, segments[1..], back, first, second);
    }
  }

  /** Add, then remove at the position it went to, restores the document: at an absent key, at an
      array index, or at the end of an array, at any depth. */
  lemma AddThenRemove(doc: Json, segments: seq<string>, value: Json, back: string)
    requires segments != []
    requires var add := Operation(Add, segments, Some(value));
      Update(doc, segments, add).Some? && Undoes(Get(doc, segments[..|segments| - 1]), segments[|segments| - 1], back)
    ensures var add := Operation(Add, segments, Some(value));
      var path := segments[|segments| - 1 := back];
      Update(Update(doc, segments, add).value, path, Operation(Remove, path, None)) == Some(doc)
  {
    var leaf := segments[|segments| - 1];
    var path := segments[|segments| - 1 := back];
    var add, remove := Operation(Add, segments, Some(value)), Operation(Remove, path, None);
    forall v: Json | AtLeaf(v, leaf, add).Some? && Get(doc, segments[..|segments| - 1]) == Some(v)
      ensures AtLeaf(AtLeaf(v, leaf, add).value, back, remove) == Some(v)
    {
      LeafUndone(v, leaf, add, remove, back);
    }
    UndoneDeep(doc, segments, back, add, remove);
  }

  /** `back` names the position that an add at `leaf` fills, and that position was free. */
  predicate Undoes(parent: Option<Json>, leaf: string, back: string) {
    parent.Some? &&
    match parent.value
    case Obj(fields) => back == leaf && leaf !in fields
    case Arr(items) =>
      if leaf == "-" then ArrayIndex(back, |items| + 1, false) == Some(|items|)
      else back == leaf
    case _ => false
  }

  lemma LeafUndone(v: Json, leaf: string, add: Operation, remove: Operation, back: string)
    requires add.Valid() && remove.Valid() && add.kind == Add && remove.kind == Remove
    requires AtLeaf(v, leaf, add).Some? && Undoes(Some(v), leaf, back)
    ensures AtLeaf(AtLeaf(v, leaf, add).value, back, remove) == Some(v)
  {
    match v
    case Obj(fields) => assert fields[leaf := add.value.value] - {leaf} == fields;
    case Arr(items) =>
      if leaf == "-" {
        assert (items + [add.value.value])[..|items|] + (items + [add.value.value])[|items| + 1..] == items;
      } else {
        var k := ArrayIndex(leaf, |items|, true).value;
        var longer := items[..k] + [add.value.value] + items[k..];
        assert ArrayIndex(leaf, |longer|, false) == Some(k);
        assert longer[..k] + longer[k + 1..] == items;
      }
  }

  /** Adding over a key that is there is not undone by removing it: the document is restored exactly
      when the key was absent. */
  lemma AddThenRemoveKeyExactly(fields: map<string, Json>, key: string, value: Json)
    ensures var added := AtLeaf(Obj(fields), key, Operation(Add, [key], Some(value)));
      added.Some? && (AtLeaf(added.value, key, Operation(Remove, [key], None)) == Some(Obj(fields)) <==> key !in fields)
  {
    var removed := fields[key := value] - {key};
    if key !in fields {
      assert removed == fields;
    } else {
      assert key !in removed;
    }
  }

  /** Remove, then add of the removed value, restores the document, at any depth. */
  lemma RemoveThenAdd(doc: Json, segments: seq<string>)
    requires segments != [] && Update(doc, segments, Operation(Remove, segments, None)).Some?
    ensures Get(doc, segments).Some?
    ensures Update(Update(doc, segments, Operation(Remove, segments, None)).value, segments, Operation(Add, segments, Get(doc, segments)))
            == Some(doc)
  {
    var n := |segments| - 1;
    var leaf := segments[n];
    var remove := Operation(Remove, segments, None);
    ParentUpdated(doc, segments, remove);
    var parent := Get(doc, segments[..n]).value;
    GetSplit(doc, segments[..n], [leaf]);
    assert segments[..n] + [leaf] == segments;
    RemovedWasThere(parent, leaf, remove);
    var add := Operation(Add, segments, Get(doc, segments));
    forall v: Json | AtLeaf(v, leaf, remove).Some? && Get(doc, segments[..n]) == Some(v)
      ensures AtLeaf(AtLeaf(v, leaf, remove).value, leaf, add) == Some(v)
    {
      LeafRestored(v, leaf, remove, add);
    }
    assert segments[n := leaf] == segments;
    UndoneDeep(doc, segments, leaf, remove, add);
  }

  lemma {:induction false} GetSplit(doc: Json, path: seq<string>, rest: seq<string>)
    requires Get(doc, path).Some?
    ensures Get(doc, path + rest) == Get(Get(doc, path).value, rest)
    decreases |path|
  {
    if path == [] {
      assert path + rest == rest;
    } else {
      assert (path + rest)[1..] == path[1..] + rest;
      GetSplit(Child(doc, path[0]).value, path[1..], rest);
    }
  }

  lemma RemovedWasThere(v: Json, leaf: string, remove: Operation)
    requires remove.Valid() && remove.kind == Remove && AtLeaf(v, leaf, remove).Some?
    ensures Get(v, [leaf]) == Child(v, leaf) && Child(v, leaf).Some?
  {
    assert [leaf][1..] == [];
  }

  lemma LeafRestored(v: Json, leaf: string, remove: Operation, add: Operation)
    requires remove.Valid() && add.Valid() && remove.kind == Remove && add.kind == Add
    requires AtLeaf(v, leaf, remove).Some? && Child(v, leaf) == add.value
    ensures AtLeaf(AtLeaf(v, leaf, remove).value, leaf, add) == Some(v)
  {
    match v
    case Obj(fields) => assert (fields - {leaf})[leaf := fields[leaf]] == fields;
    case Arr(items) =>
      var k := ArrayIndex(leaf, |items|, false).value;
      var shorter := items[..k] + items[k + 1..];
      assert ArrayIndex(leaf, |shorter|, true) == Some(k);
      assert shorter[..k] + [items[k]] + shorter[k..] == items;
  }

  // An update as a replacement at its parent ------------------------------------------

  /** The document with the value at `path` replaced. */
  function Put(doc: Json, path: seq<string>, sub: Json): Json
    requires Get(doc, path).Some?
    decreases |path|
  {
    if path == [] then sub else WithChild(doc, path[0], Put(Child(doc, path[0]).value, path[1..], sub))
  }

  lemma {:induction false} UpdateIsPut(doc: Json, segments: seq<string>, op: Operation)
    requires segments != [] && op.Valid()
    ensures var n := |segments| - 1;
      var parent := Get(doc, segments[..n]);
      Update(doc, segments, op)
      == if parent.None? || AtLeaf(parent.value, segments[n], op).None? then None
         else Some(Put(doc, segments[..n], AtLeaf(parent.value, segments[n], op).value))
    decreases |segments|
  {
    var n := |segments| - 1;
    if n > 0 && Child(doc, segments[0]).Some? {
      assert segments[..n][1..] == segments[1..][..n - 1];
      assert segments[1..][n - 1] == segments[n];
      UpdateIsPut(Child(doc, segments[0]).value, segments[1..], op);
    }
  }

  /** Replacing a value is replacing its parent with the value put into it. */
  lemma {:induction false} PutStep(doc: Json, path: seq<string>, sub: Json)
    requires path != [] && Get(doc, path).Some?
    ensures var n := |path| - 1;
      && Get(doc, path[..n]).Some? && Child(Get(doc, path[..n]).value, path[n]) == Get(doc, path)
      && Put(doc, path, sub) == Put(doc, path[..n], WithChild(Get(doc, path[..n]).value, path[n], sub))
    decreases |path|
  {
    var n := |path| - 1;
    if n > 0 {
      assert path[..n][1..] == path[1..][..n - 1];
      assert path[1..][n - 1] == path[n];
      PutStep(Child(doc, path[0]).value, path[1..], sub);
    } else {
      assert path[1..] == [];
    }
  }
}
