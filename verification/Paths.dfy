/**
 Where the document transforms go, said without their walk: a place is reached by declared keys
 and array indices, and is either a file or left alone.
 */
module Paths {
  import opened Wrappers
  import opened Sequences
  import opened Json
  import opened Traversal

  datatype Hop = Key(name: string) | Index(i: nat)

  ghost predicate Declares(props: seq<Property>, key: string, schema: Schema) {
    exists i :: 0 <= i < |props| && props[i] == Property(key, schema)
  }

  /**
   `path` leads, along declared keys and indices and at most `depth` steps down, to `x`: to a file if
   `file`, and otherwise to a value the schema says nothing more about.
   */
  ghost predicate Reaches(s: Schema, v: Value, depth: int, path: seq<Hop>, x: Value, file: bool)
    decreases |path|
  {
    if depth < 0 then path == [] && x == v && !file
    else if s.format == Some("file") then path == [] && x == v && file
    else if s.kind == Some("object") && s.properties.Some? && (v.Obj? || v.Arr? || v.Null?) then
      path != [] && path[0].Key? && Own(v, path[0].name).Some? &&
      exists t :: Declares(s.properties.value, path[0].name, t) &&
                  Reaches(t, Own(v, path[0].name).value, depth - 1, path[1..], x, file)
    else if s.kind == Some("array") && v.Arr? then
      path != [] && path[0].Index? && path[0].i < |v.items| &&
      Reaches(ItemSchema(s), v.items[path[0].i], depth - 1, path[1..], x, file)
    else path == [] && x == v && !file
  }

  ghost predicate FilePath(s: Schema, v: Value, depth: int, path: seq<Hop>, x: Value) {
    Reaches(s, v, depth, path, x, true)
  }

  function ValueAt(v: Value, path: seq<Hop>): Option<Value>
    decreases |path|
  {
    if path == [] then Some(v)
    else match path[0]
      case Key(name) =>
        if v.Obj? && name in v.fields then ValueAt(v.fields[name], path[1..]) else None
      case Index(i) =>
        if v.Arr? && i < |v.items| then ValueAt(v.items[i], path[1..]) else None
  }

  // Leaves are the files

  lemma {:induction false} LeafIsReached(s: Schema, v: Value, depth: int, x: Value) returns (path: seq<Hop>)
    requires x in Leaves(s, v, depth)
    ensures Reaches(s, v, depth, path, x, true)
    decreases depth, 1
  {
    match StepAt(s, v, depth) {
      case Keep =>
      case Leaf => path := [];
      case Fields(props) =>
        var i, rest := FieldLeafIsReached(props, v, depth, x);
        path := [Key(props[i].key)] + rest;
        assert path[1..] == rest && Declares(props, props[i].key, props[i].schema);
      case Elements =>
        var i, rest := ItemLeafIsReached(s, v.items, depth, x);
        path := [Index(i)] + rest;
        assert path[1..] == rest;
    }
  }

  lemma {:induction false} FieldLeafIsReached(props: seq<Property>, v: Value, depth: int, x: Value) returns (i: nat, rest: seq<Hop>)
    requires depth >= 0 && x in FieldLeaves(props, v, depth)
    ensures i < |props| && Own(v, props[i].key).Some?
    ensures Reaches(props[i].schema, Own(v, props[i].key).value, depth - 1, rest, x, true)
    decreases depth, 0, |props|
  {
    if x in FieldLeaves(Init(props), v, depth) {
      i, rest := FieldLeafIsReached(Init(props), v, depth, x);
    } else {
      i := |props| - 1;
      rest := LeafIsReached(props[i].schema, Own(v, props[i].key).value, depth - 1, x);
    }
  }

  lemma {:induction false} ItemLeafIsReached(s: Schema, items: seq<Value>, depth: int, x: Value) returns (i: nat, rest: seq<Hop>)
    requires depth >= 0 && x in ItemLeaves(s, items, depth)
    ensures i < |items| && Reaches(ItemSchema(s), items[i], depth - 1, rest, x, true)
    decreases depth, 0, |items|
  {
    if x in ItemLeaves(s, Init(items), depth) {
      i, rest := ItemLeafIsReached(s, Init(items), depth, x);
    } else {
      i := |items| - 1;
      rest := LeafIsReached(ItemSchema(s), items[i], depth - 1, x);
    }
  }

  lemma {:induction false} ReachedIsLeaf(s: Schema, v: Value, depth: int, path: seq<Hop>, x: Value)
    requires Reaches(s, v, depth, path, x, true)
    ensures x in Leaves(s, v, depth)
    decreases |path|
  {
    match StepAt(s, v, depth) {
      case Keep =>
      case Leaf =>
      case Fields(props) =>
        var t :| Declares(props, path[0].name, t) && Reaches(t, Own(v, path[0].name).value, depth - 1, path[1..], x, true);
        var i :| 0 <= i < |props| && props[i] == Property(path[0].name, t);
        ReachedIsLeaf(t, Own(v, path[0].name).value, depth - 1, path[1..], x);
        FieldLeavesContain(props, v, depth, i, x);
      case Elements =>
        ReachedIsLeaf(ItemSchema(s), v.items[path[0].i], depth - 1, path[1..], x);
        ItemLeavesContain(s, v.items, depth, path[0].i, x);
    }
  }

  lemma {:induction false} FieldLeavesContain(props: seq<Property>, v: Value, depth: int, i: nat, x: Value)
    requires depth >= 0 && i < |props| && Own(v, props[i].key).Some?
    requires x in Leaves(props[i].schema, Own(v, props[i].key).value, depth - 1)
    ensures x in FieldLeaves(props, v, depth)
    decreases |props|
  {
    if i < |props| - 1 {
      FieldLeavesContain(Init(props), v, depth, i, x);
    }
  }

  lemma {:induction false} ItemLeavesContain(s: Schema, items: seq<Value>, depth: int, i: nat, x: Value)
    requires depth >= 0 && i < |items| && x in Leaves(ItemSchema(s), items[i], depth - 1)
    ensures x in ItemLeaves(s, items, depth)
    decreases |items|
  {
    if i < |items| - 1 {
      ItemLeavesContain(s, Init(items), depth, i, x);
    }
  }

  /** The transforms see exactly the values at declared files, down to the depth limit. */
  lemma LeavesAreFiles(s: Schema, v: Value, depth: int, x: Value)
    ensures x in Leaves(s, v, depth) <==> exists path :: FilePath(s, v, depth, path, x)
  {
    if x in Leaves(s, v, depth) {
      var path := LeafIsReached(s, v, depth, x);
      assert FilePath(s, v, depth, path, x);
    }
    if path :| FilePath(s, v, depth, path, x) {
      ReachedIsLeaf(s, v, depth, path, x);
    }
  }

  // What is rebuilt elsewhere

  lemma {:induction false} PlugField(props: seq<Property>, v: Value, depth: int, ws: seq<Value>, i: nat) returns (us: seq<Value>)
    requires depth >= 0 && i < |props| && UniquePropertyKeys(props)
    requires |ws| == |FieldLeaves(props, v, depth)| && Own(v, props[i].key).Some?
    ensures |us| == |Leaves(props[i].schema, Own(v, props[i].key).value, depth - 1)|
    ensures props[i].key in PlugFields(props, v, depth, ws)
    ensures PlugFields(props, v, depth, ws)[props[i].key] ==
            Plug(props[i].schema, Own(v, props[i].key).value, depth - 1, us)
    decreases |props|
  {
    var n, p := |FieldLeaves(Init(props), v, depth)|, Last(props);
    assert p == props[|props| - 1];
    if i < |props| - 1 {
      assert Init(props)[i] == props[i] && props[i].key != p.key;
      us := PlugField(Init(props), v, depth, ws[..n], i);
    } else {
      us := ws[n..];
    }
  }

  lemma {:induction false} PlugItem(s: Schema, items: seq<Value>, depth: int, ws: seq<Value>, i: nat) returns (us: seq<Value>)
    requires depth >= 0 && i < |items| && |ws| == |ItemLeaves(s, items, depth)|
    ensures |us| == |Leaves(ItemSchema(s), items[i], depth - 1)|
    ensures PlugItems(s, items, depth, ws)[i] == Plug(ItemSchema(s), items[i], depth - 1, us)
    decreases |items|
  {
    var n := |ItemLeaves(s, Init(items), depth)|;
    if i < |items| - 1 {
      us := PlugItem(s, Init(items), depth, ws[..n], i);
    } else {
      us := ws[n..];
    }
  }

  /** Whatever is put at the files, every other reached place keeps its value. */
  lemma {:induction false} ElsewhereUnchanged(s: Schema, v: Value, depth: int, ws: seq<Value>, path: seq<Hop>, x: Value)
    requires UniqueKeys(s, depth) && |ws| == |Leaves(s, v, depth)|
    requires Reaches(s, v, depth, path, x, false)
    ensures ValueAt(Plug(s, v, depth, ws), path) == Some(x)
    decreases |path|, 1
  {
    match StepAt(s, v, depth) {
      case Keep =>
      case Leaf =>
      case Fields(props) => UnchangedInFields(props, v, depth, ws, path, x);
      case Elements =>
        var us := PlugItem(s, v.items, depth, ws, path[0].i);
        ElsewhereUnchanged(ItemSchema(s), v.items[path[0].i], depth - 1, us, path[1..], x);
    }
  }

  lemma {:induction false} UnchangedInFields(props: seq<Property>, v: Value, depth: int, ws: seq<Value>, path: seq<Hop>, x: Value)
    requires depth >= 0 && UniquePropertyKeys(props) && UniqueKeysBelow(props, depth - 1)
    requires |ws| == |FieldLeaves(props, v, depth)|
    requires path != [] && path[0].Key? && Own(v, path[0].name).Some?
    requires exists t :: Declares(props, path[0].name, t) && Reaches(t, Own(v, path[0].name).value, depth - 1, path[1..], x, false)
    ensures ValueAt(Obj(PlugFields(props, v, depth, ws)), path) == Some(x)
    decreases |path|, 0
  {
    var t :| Declares(props, path[0].name, t) && Reaches(t, Own(v, path[0].name).value, depth - 1, path[1..], x, false);
    var i :| 0 <= i < |props| && props[i] == Property(path[0].name, t);
    var us := PlugField(props, v, depth, ws, i);
    ElsewhereUnchanged(t, Own(v, path[0].name).value, depth - 1, us, path[1..], x);
  }

  /** An object is rebuilt with exactly the declared keys it had; an array keeps its length. */
  lemma DeclaredKeysSurvive(s: Schema, v: Value, depth: int, ws: seq<Value>)
    requires UniqueKeys(s, depth) && |ws| == |Leaves(s, v, depth)|
    ensures var step, r := StepAt(s, v, depth), Plug(s, v, depth, ws);
      (step.Fields? ==>
        (r.Obj? && forall k :: k in r.fields <==> Own(v, k).Some? && Named(step.props, k))) &&
      (step.Elements? ==> (r.Arr? && |r.items| == |v.items|))
  {
    if StepAt(s, v, depth).Fields? {
      FieldKeys(StepAt(s, v, depth).props, v, depth, ws);
    }
  }

  lemma {:induction false} FieldKeys(props: seq<Property>, v: Value, depth: int, ws: seq<Value>)
    requires depth >= 0 && |ws| == |FieldLeaves(props, v, depth)|
    ensures forall k :: k in PlugFields(props, v, depth, ws) <==>
                        Own(v, k).Some? && Named(props, k)
    decreases |props|
  {
    if props != [] {
      FieldKeys(Init(props), v, depth, ws[..|FieldLeaves(Init(props), v, depth)|]);
      forall k { NamedFront(props, k); }
    }
  }

  // Where a walk throws

  /** `path` leads through objects and arrays to a node of the walk: value `x` under schema `t`, `d` steps from the limit. */
  ghost predicate Visits(s: Schema, v: Value, depth: int, path: seq<Hop>, t: Schema, x: Value, d: int)
    decreases |path|
  {
    if path == [] then t == s && x == v && d == depth
    else
      depth >= 0 && s.format != Some("file") &&
      match path[0]
      case Key(name) =>
        s.kind == Some("object") && s.properties.Some? && (v.Obj? || v.Arr?) && Own(v, name).Some? &&
        exists c :: Declares(s.properties.value, name, c) && Visits(c, Own(v, name).value, depth - 1, path[1..], t, x, d)
      case Index(i) =>
        s.kind == Some("array") && v.Arr? && i < |v.items| && Visits(ItemSchema(s), v.items[i], depth - 1, path[1..], t, x, d)
  }

  /** A property is asked of `null`, or an element is walked that has no schema. */
  predicate Throws(t: Schema, x: Value, d: int) {
    d >= 0 && t.format != Some("file") &&
    ((t.kind == Some("object") && t.properties.Some? && t.properties.value != [] && x == Null) ||
     (t.kind == Some("array") && t.items.None? && x.Arr? && x.items != [] && d > 0))
  }

  ghost predicate ThrowsAt(s: Schema, v: Value, depth: int, path: seq<Hop>, t: Schema, x: Value, d: int) {
    Visits(s, v, depth, path, t, x, d) && Throws(t, x, d)
  }

  /** An unsafe walk throws at some node. */
  lemma {:induction false} UnsafeThrows(s: Schema, v: Value, depth: int) returns (path: seq<Hop>, t: Schema, x: Value, d: int)
    requires !Safe(s, v, depth)
    ensures ThrowsAt(s, v, depth, path, t, x, d)
    decreases depth, 1
  {
    if Throws(s, v, depth) {
      path, t, x, d := [], s, v, depth;
    } else {
      match StepAt(s, v, depth) {
        case Fields(props) =>
          ghost var i: nat;
          i, path, t, x, d := UnsafeField(props, v, depth);
          path := [Key(props[i].key)] + path;
          assert Declares(props, props[i].key, props[i].schema);
        case Elements =>
          ghost var i: nat;
          i, path, t, x, d := UnsafeItem(s, v.items, depth);
          path := [Index(i)] + path;
        case Keep =>
        case Leaf =>
      }
    }
  }

  lemma {:induction false} UnsafeField(props: seq<Property>, v: Value, depth: int)
      returns (i: nat, path: seq<Hop>, t: Schema, x: Value, d: int)
    requires depth >= 0 && !SafeFields(props, v, depth)
    ensures i < |props| && Own(v, props[i].key).Some?
    ensures ThrowsAt(props[i].schema, Own(v, props[i].key).value, depth - 1, path, t, x, d)
    decreases depth, 0, |props|
  {
    if !SafeFields(Init(props), v, depth) {
      i, path, t, x, d := UnsafeField(Init(props), v, depth);
    } else {
      i := |props| - 1;
      path, t, x, d := UnsafeThrows(props[i].schema, Own(v, props[i].key).value, depth - 1);
    }
  }

  lemma {:induction false} UnsafeItem(s: Schema, items: seq<Value>, depth: int)
      returns (i: nat, path: seq<Hop>, t: Schema, x: Value, d: int)
    requires depth >= 0 && !SafeItems(s, items, depth) && (s.items.Some? || depth == 0)
    ensures i < |items| && ThrowsAt(ItemSchema(s), items[i], depth - 1, path, t, x, d)
    decreases depth, 0, |items|
  {
    if !SafeItems(s, Init(items), depth) {
      i, path, t, x, d := UnsafeItem(s, Init(items), depth);
    } else {
      i := |items| - 1;
      path, t, x, d := UnsafeThrows(ItemSchema(s), items[i], depth - 1);
    }
  }

  lemma {:induction false} ThrowingIsUnsafe(s: Schema, v: Value, depth: int, path: seq<Hop>, t: Schema, x: Value, d: int)
    requires ThrowsAt(s, v, depth, path, t, x, d)
    ensures !Safe(s, v, depth)
    decreases |path|
  {
    if path == [] {
      if StepAt(s, v, depth).Elements? {
        BareItems(s, v.items, depth);
      }
    } else if path[0].Key? {
      var props := s.properties.value;
      var c :| Declares(props, path[0].name, c) && Visits(c, Own(v, path[0].name).value, depth - 1, path[1..], t, x, d);
      var i :| 0 <= i < |props| && props[i] == Property(path[0].name, c);
      ThrowingIsUnsafe(c, Own(v, path[0].name).value, depth - 1, path[1..], t, x, d);
      UnsafeAt(props, v, depth, i);
    } else {
      ThrowingIsUnsafe(ItemSchema(s), v.items[path[0].i], depth - 1, path[1..], t, x, d);
      UnsafeItemAt(s, v.items, depth, path[0].i);
    }
  }

  lemma BareItems(s: Schema, items: seq<Value>, depth: int)
    requires depth > 0 && s.items.None? && items != []
    ensures !SafeItems(s, items, depth)
  {
  }

  lemma {:induction false} UnsafeAt(props: seq<Property>, v: Value, depth: int, i: nat)
    requires depth >= 0 && i < |props| && Own(v, props[i].key).Some?
    requires !Safe(props[i].schema, Own(v, props[i].key).value, depth - 1)
    ensures !SafeFields(props, v, depth)
    decreases |props|
  {
    if i < |props| - 1 {
      UnsafeAt(Init(props), v, depth, i);
    }
  }

  lemma {:induction false} UnsafeItemAt(s: Schema, items: seq<Value>, depth: int, i: nat)
    requires depth >= 0 && i < |items| && !Safe(ItemSchema(s), items[i], depth - 1)
    ensures !SafeItems(s, items, depth)
    decreases |items|
  {
    if i < |items| - 1 {
      UnsafeItemAt(s, Init(items), depth, i);
    }
  }

  /**
   Both transforms throw a TypeError if and only if the walk comes to `null` under an object schema
   that declares properties, or to an element, above the depth limit, of an array schema without `items`.
   */
  lemma ThrowsWhere(s: Schema, v: Value, depth: int)
    ensures Safe(s, v, depth) <==> forall path, t, x, d :: !ThrowsAt(s, v, depth, path, t, x, d)
  {
    if !Safe(s, v, depth) {
      var path, t, x, d := UnsafeThrows(s, v, depth);
    }
    if path, t, x, d :| ThrowsAt(s, v, depth, path, t, x, d) {
      ThrowingIsUnsafe(s, v, depth, path, t, x, d);
    }
  }
}
