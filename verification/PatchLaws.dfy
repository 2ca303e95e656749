/** Laws of the patch as a whole: what an operation object says, what replace amounts to, and how the
    operations of a patch follow one another. */
module PatchLaws {
  import opened Basics
  import opened Json
  import JsonPointer
  import opened PatchSpec

  // Reading operations ----------------------------------------------------------------

  /** The operation object of an operation. */
  function Written(op: Operation): Json
    requires op.Valid()
  {
    var name := match op.kind case Add => "add" case Replace => "replace" case Remove => "remove";
    var fields := map["op" := Str(name), "path" := Str(JsonPointer.Print(op.segments))];
    Obj(if op.value.Some? then fields["value" := op.value.value] else fields)
  }

  /** An object is read as an operation exactly if it is what the operation is written as, with a path of at
      most 64 segments and 1024 bytes. */
  lemma DecodeExactly(raw: Json, op: Operation)
    requires op.Valid()
    ensures DecodeOperation(raw) == Some(op)
            <==> raw == Written(op) && |op.segments| <= 64 && ByteLen(JsonPointer.Print(op.segments)) <= 1024
  {
    hide JsonPointer.Parse, JsonPointer.Print, ByteLen;
    if DecodeOperation(raw) == Some(op) {
      JsonPointer.ParseExactly(raw.fields["path"].s, op.segments);
      WrittenFields(raw, op);
    } else if raw == Written(op) {
      JsonPointer.ParseExactly(JsonPointer.Print(op.segments), op.segments);
    }
  }

  lemma WrittenFields(raw: Json, op: Operation)
    requires DecodeOperation(raw) == Some(op) && raw.fields["path"] == Str(JsonPointer.Print(op.segments))
    ensures raw == Written(op)
  {
    hide JsonPointer.Parse, JsonPointer.Print;
    assert raw.fields == Written(op).fields;
  }

  // Replace ---------------------------------------------------------------------------

  /** At the empty path, add and replace give their value and remove fails. */
  lemma WholeDocument(doc: Json, op: Operation)
    requires op.Valid() && op.segments == []
    ensures ApplyOperation(doc, op) == if op.kind == Remove then None else op.value
  {
  }

  /** Replace is functionally a remove followed by an add at the same place (section 4.3 of RFC 6902). */
  lemma {:induction false} ReplaceIsRemoveThenAdd(doc: Json, segments: seq<string>, value: Json)
    requires segments != []
    ensures var replace, add := Operation(Replace, segments, Some(value)), Operation(Add, segments, Some(value));
      var removed := Update(doc, segments, Operation(Remove, segments, None));
      Update(doc, segments, replace) == if removed.None? then None else Update(removed.value, segments, add)
    decreases |segments|
  {
    var replace, add, remove := Operation(Replace, segments, Some(value)), Operation(Add, segments, Some(value)), Operation(Remove, segments, None);
    SameBelow(doc, segments, replace);
    SameBelow(doc, segments, remove);
    if |segments| == 1 {
      LeafReplaced(doc, segments[0], value);
    } else if Child(doc, segments[0]).Some? {
      var child, below := Child(doc, segments[0]).value, segments[1..];
      ReplaceIsRemoveThenAdd(child, below, value);
      var gone := Update(child, below, Operation(Remove, below, None));
      if gone.Some? {
        ChildOfWithChild(doc, segments[0], gone.value);
        SameBelow(WithChild(doc, segments[0], gone.value), segments, add);
      }
    }
  }

  /** An update of a value below does not depend on the path that the operation carries. */
  lemma {:induction false} SameUpdate(doc: Json, segments: seq<string>, op: Operation, other: Operation)
    requires segments != [] && op.Valid() && other.Valid() && op.kind == other.kind && op.value == other.value
    ensures Update(doc, segments, op) == Update(doc, segments, other)
    decreases |segments|
  {
    if |segments| > 1 && Child(doc, segments[0]).Some? { SameUpdate(Child(doc, segments[0]).value, segments[1..], op, other); }
  }

  lemma SameBelow(doc: Json, segments: seq<string>, op: Operation)
    requires segments != [] && op.Valid()
    ensures |segments| > 1 && Child(doc, segments[0]).Some? ==>
              Update(Child(doc, segments[0]).value, segments[1..], op) == Update(Child(doc, segments[0]).value, segments[1..], op.(segments := segments[1..]))
  {
    if |segments| > 1 && Child(doc, segments[0]).Some? {
      SameUpdate(Child(doc, segments[0]).value, segments[1..], op, op.(segments := segments[1..]));
    }
  }

  lemma LeafReplaced(doc: Json, leaf: string, value: Json)
    ensures var removed := AtLeaf(doc, leaf, Operation(Remove, [leaf], None));
      forall segments ::
        AtLeaf(doc, leaf, Operation(Replace, segments, Some(value)))
        == if removed.None? then None else AtLeaf(removed.value, leaf, Operation(Add, segments, Some(value)))
  {
    var removed := AtLeaf(doc, leaf, Operation(Remove, [leaf], None));
    if removed.Some? {
      match doc
      case Obj(fields) => assert (fields - {leaf})[leaf := value] == fields[leaf := value];
      case Arr(items) =>
        var k := ArrayIndex(leaf, |items|, false).value;
        var shorter := items[..k] + items[k + 1..];
        assert ArrayIndex(leaf, |shorter|, true) == Some(k);
        assert shorter[..k] + [value] + shorter[k..] == items[k := value];
    }
  }

  // The whole patch -------------------------------------------------------------------

  /** The documents between the operations, from the first to the last. */
  predicate Chain(docs: seq<Json>, operations: seq<Json>) {
    |docs| == |operations| + 1
    && forall i :: 0 <= i < |operations| ==> Leads(operations[i], docs[i], docs[i + 1])
  }

  predicate Leads(operation: Json, before: Json, after: Json) {
    var op := DecodeOperation(operation);
    op.Some? && ApplyOperation(before, op.value) == Some(after)
  }

  /** A patch leads to a document exactly if it is a list of 1 to 64 operations that lead there one after the
      other. */
  lemma PatchExactly(doc: Json, operations: Json, after: Json)
    ensures ApplyPatch(doc, operations) == Some(after)
            <==> operations.Arr? && 1 <= |operations.items| <= 64
                 && exists docs :: Chain(docs, operations.items) && docs[0] == doc && docs[|operations.items|] == after
  {
    if operations.Arr? { FoldExactly(doc, operations.items, after); }
  }

  lemma {:induction false} FoldExactly(doc: Json, operations: seq<Json>, after: Json)
    ensures Fold(doc, operations) == Some(after)
            <==> exists docs :: Chain(docs, operations) && docs[0] == doc && docs[|operations|] == after
    decreases |operations|
  {
    hide DecodeOperation, ApplyOperation;
    if operations == [] {
      if doc == after { assert Chain([doc], []); }
    } else {
      if Fold(doc, operations) == Some(after) {
        var docs := ChainOf(doc, operations, after);
      }
      if docs :| Chain(docs, operations) && docs[0] == doc && docs[|operations|] == after {
        var rest := docs[1..];
        assert Leads(operations[0], docs[0], docs[1]);
        forall i | 0 <= i < |operations| - 1 ensures Leads(operations[1..][i], rest[i], rest[i + 1]) {
          assert Leads(operations[i + 1], docs[i + 1], docs[i + 2]);
        }
        FoldExactly(docs[1], operations[1..], after);
      }
    }
  }

  lemma {:induction false} ChainOf(doc: Json, operations: seq<Json>, after: Json) returns (docs: seq<Json>)
    requires Fold(doc, operations) == Some(after)
    ensures Chain(docs, operations) && docs[0] == doc && docs[|operations|] == after
    decreases |operations|
  {
    hide DecodeOperation, ApplyOperation;
    if operations == [] {
      docs := [doc];
    } else {
      var next := ApplyOperation(doc, DecodeOperation(operations[0]).value).value;
      var rest := ChainOf(next, operations[1..], after);
      docs := [doc] + rest;
      assert Leads(operations[0], doc, rest[0]);
      forall i | 0 <= i < |operations| ensures Leads(operations[i], docs[i], docs[i + 1]) {
        if i > 0 { assert Leads(operations[1..][i - 1], rest[i - 1], rest[i]); }
      }
    }
  }
}
