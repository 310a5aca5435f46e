/**
 `normalizeDocumentsSchema` and `denormalizeDocumentsSchema` as the loops they are
 (src/common/identity/utils.js:8-150), proved against the leaf-by-leaf specification. The two
 differ only in what they do at a file leaf, so the walk is written once.
 */
module Transforms {
  import opened Wrappers
  import opened Sequences
  import opened Json
  import opened Traversal
  import opened Documents

  method NormalizeDocumentsSchema(s: Schema, value: Value, documents: seq<Document>, maxDepth: int)
      returns (r: Result<(Value, seq<Document>)>)
    ensures r == Outcome(NormalizeLeaf, s, value, documents, maxDepth)
  {
    r := Walk(NormalizeLeaf, s, value, documents, maxDepth);
  }

  method DenormalizeDocumentsSchema(s: Schema, value: Value, documents: seq<Document>, maxDepth: int)
      returns (r: Result<(Value, seq<Document>)>)
    ensures r == Outcome(DenormalizeLeaf, s, value, documents, maxDepth)
  {
    r := Walk(DenormalizeLeaf, s, value, documents, maxDepth);
  }

  method Walk(f: LeafStep, s: Schema, value: Value, documents: seq<Document>, maxDepth: int)
      returns (r: Result<(Value, seq<Document>)>)
    ensures r == Outcome(f, s, value, documents, maxDepth)
    decreases maxDepth, 1
  {
    if maxDepth < 0 {
      return Success((value, documents));
    }
    if IsFile(s) {
      assert Init([value]) == [];
      assert Thread(f, [value], documents) == ([] + [f(value, documents).0], f(value, documents).1);
      return Success(f(value, documents));
    }
    if s.kind == Some("object") && TypeofObject(value) {
      if s.properties.None? {
        return Success((value, documents));
      }
      var fields := WalkFields(f, s.properties.value, value, documents, maxDepth);
      return match fields
        case Success((m, docs)) => Success((Obj(m), docs))
        case Failure(e) => Failure(e);
    }
    if s.kind == Some("array") && value.Arr? {
      var items := WalkItems(f, s, value.items, documents, maxDepth);
      return match items
        case Success((xs, docs)) => Success((Arr(xs), docs))
        case Failure(e) => Failure(e);
    }
    return Success((value, documents));
  }

  /** The reduction over the declared keys: `acc.value[key] = ...; acc.documents = ...`. */
  method WalkFields(f: LeafStep, props: seq<Property>, value: Value, documents: seq<Document>, maxDepth: int)
      returns (r: Result<(map<string, Value>, seq<Document>)>)
    requires maxDepth >= 0
    ensures r == if (props == [] || !value.Null?) && SafeFields(props, value, maxDepth)
      then
        var (rs, docs) := Thread(f, FieldLeaves(props, value, maxDepth), documents);
        Success((PlugFields(props, value, maxDepth, rs), docs))
      else Failure(TypeError)
    decreases maxDepth, 0
  {
    var m: map<string, Value>, docs := map[], documents;
    ghost var rs: seq<Value> := [];
    for i := 0 to |props|
      invariant i > 0 ==> !value.Null?
      invariant SafeFields(props[..i], value, maxDepth)
      invariant (rs, docs) == Thread(f, FieldLeaves(props[..i], value, maxDepth), documents)
      invariant m == PlugFields(props[..i], value, maxDepth, rs)
    {
      var key := props[i].key;
      assert Init(props[..i + 1]) == props[..i] && Last(props[..i + 1]) == props[i];
      if value.Null? {
        return Failure(TypeError);
      }
      var own := Own(value, key);
      if own.Some? {
        var below := Walk(f, props[i].schema, own.value, docs, maxDepth - 1);
        if below.Failure? {
          SafeFieldsPrefix(props, value, maxDepth, i + 1);
          return Failure(TypeError);
        }
        ghost var ts := Thread(f, Leaves(props[i].schema, own.value, maxDepth - 1), docs).0;
        FieldThreaded(f, props, value, documents, maxDepth, i);
        FieldRebuilt(props, value, maxDepth, i, rs, ts);
        m, docs := m[key := below.value.0], below.value.1;
        rs := rs + ts;
      } else {
        assert FieldLeaves(props[..i], value, maxDepth) + [] == FieldLeaves(props[..i], value, maxDepth);
        assert rs[..|rs|] == rs;
      }
    }
    assert props[..|props|] == props;
    r := Success((m, docs));
  }

  /** The reduction over the elements: `acc.value.push(...); acc.documents = ...`. */
  method WalkItems(f: LeafStep, s: Schema, items: seq<Value>, documents: seq<Document>, maxDepth: int)
      returns (r: Result<(seq<Value>, seq<Document>)>)
    requires maxDepth >= 0
    ensures r == if SafeItems(s, items, maxDepth)
      then
        var (rs, docs) := Thread(f, ItemLeaves(s, items, maxDepth), documents);
        Success((PlugItems(s, items, maxDepth, rs), docs))
      else Failure(TypeError)
    decreases maxDepth, 0
  {
    var xs, docs := [], documents;
    ghost var rs: seq<Value> := [];
    for i := 0 to |items|
      invariant SafeItems(s, items[..i], maxDepth)
      invariant (rs, docs) == Thread(f, ItemLeaves(s, items[..i], maxDepth), documents)
      invariant xs == PlugItems(s, items[..i], maxDepth, rs)
    {
      assert Init(items[..i + 1]) == items[..i] && Last(items[..i + 1]) == items[i];
      if s.items.None? && maxDepth > 0 {
        SafeItemsPrefix(s, items, maxDepth, i + 1);
        return Failure(TypeError);
      }
      var below := Walk(f, ItemSchema(s), items[i], docs, maxDepth - 1);
      if below.Failure? {
        SafeItemsPrefix(s, items, maxDepth, i + 1);
        return Failure(TypeError);
      }
      ghost var leaves, more := ItemLeaves(s, items[..i], maxDepth), Leaves(ItemSchema(s), items[i], maxDepth - 1);
      ThreadAppend(f, leaves, more, documents);
      xs, docs := xs + [below.value.0], below.value.1;
      ghost var ts := Thread(f, more, Thread(f, leaves, documents).1).0;
      assert (rs + ts)[..|rs|] == rs && (rs + ts)[|rs|..] == ts;
      rs := rs + ts;
    }
    assert items[..|items|] == items;
    r := Success((xs, docs));
  }

  /** One more declared key the value has: its leaves are threaded after those before it. */
  lemma FieldThreaded(f: LeafStep, props: seq<Property>, v: Value, documents: seq<Document>, depth: int, i: nat)
    requires depth >= 0 && i < |props| && Own(v, props[i].key).Some?
    ensures var (rs, docs) := Thread(f, FieldLeaves(props[..i], v, depth), documents);
      var (ts, ds) := Thread(f, Leaves(props[i].schema, Own(v, props[i].key).value, depth - 1), docs);
      (rs + ts, ds) == Thread(f, FieldLeaves(props[..i + 1], v, depth), documents)
  {
    assert Init(props[..i + 1]) == props[..i] && Last(props[..i + 1]) == props[i];
    var leaves, more := FieldLeaves(props[..i], v, depth), Leaves(props[i].schema, Own(v, props[i].key).value, depth - 1);
    assert FieldLeaves(props[..i + 1], v, depth) == leaves + more;
    ThreadAppend(f, leaves, more, documents);
  }

  /** One more declared key the value has: the rebuilt value gains that key. */
  lemma FieldRebuilt(props: seq<Property>, v: Value, depth: int, i: nat, rs: seq<Value>, ts: seq<Value>)
    requires depth >= 0 && i < |props| && Own(v, props[i].key).Some?
    requires |rs| == |FieldLeaves(props[..i], v, depth)|
    requires |ts| == |Leaves(props[i].schema, Own(v, props[i].key).value, depth - 1)|
    ensures |rs + ts| == |FieldLeaves(props[..i + 1], v, depth)|
    ensures PlugFields(props[..i + 1], v, depth, rs + ts) ==
      PlugFields(props[..i], v, depth, rs)
        [props[i].key := Plug(props[i].schema, Own(v, props[i].key).value, depth - 1, ts)]
  {
    assert Init(props[..i + 1]) == props[..i] && Last(props[..i + 1]) == props[i];
    assert (rs + ts)[..|rs|] == rs && (rs + ts)[|rs|..] == ts;
  }

  lemma {:induction false} SafeFieldsPrefix(props: seq<Property>, v: Value, depth: int, i: nat)
    requires depth >= 0 && i <= |props|
    ensures SafeFields(props, v, depth) ==> SafeFields(props[..i], v, depth)
    decreases |props|
  {
    if i < |props| {
      SafeFieldsPrefix(Init(props), v, depth, i);
      assert Init(props)[..i] == props[..i];
    } else {
      assert props[..i] == props;
    }
  }

  lemma {:induction false} SafeItemsPrefix(s: Schema, items: seq<Value>, depth: int, i: nat)
    requires depth >= 0 && i <= |items|
    ensures SafeItems(s, items, depth) ==> SafeItems(s, items[..i], depth)
    decreases |items|
  {
    if i < |items| {
      SafeItemsPrefix(s, Init(items), depth, i);
      assert Init(items)[..i] == items[..i];
    } else {
      assert items[..i] == items;
    }
  }
}
