/**
 What the two document transforms do at one file leaf and at every file path of a value
 (src/common/identity/utils.js:19-41 and 93-109), said without the transforms.
 */
module FileOutcomes {
  import opened Wrappers
  import opened Sequences
  import opened Numerals
  import opened Json
  import opened References
  import opened Traversal
  import opened Documents
  import opened Paths

  // One leaf

  /** The key a text refers by: the tag it ends in, or else the digits after `$document-` it ends in. */
  ghost predicate RefersBy(s: string, key: string) {
    (exists digits :: MatchesTag(s, digits) && key == "document" + digits) ||
    ((forall digits :: !MatchesTag(s, digits)) && MatchesTrailing(s, "$document-", key))
  }

  /** The document's id is the number the key prints, or its tag is the key. */
  predicate Answers(doc: Document, key: string) {
    ("id" in doc && key != "" && IsNumeral(key, 10) && doc["id"] == Num(NumeralValue(key, 10))) ||
    ("#id" in doc && doc["#id"] == Str(key))
  }

  /** `rest` has the documents of `docs` that are not to go, in order; `at` are their places. */
  ghost predicate KeepsAt(docs: seq<Document>, rest: seq<Document>, goes: Document -> bool, at: seq<nat>) {
    |at| == |rest| &&
    (forall k :: 0 <= k < |at| ==> at[k] < |docs| && rest[k] == docs[at[k]] && !goes(rest[k])) &&
    (forall k, l :: 0 <= k < l < |at| ==> at[k] < at[l]) &&
    forall m :: 0 <= m < |docs| && !goes(docs[m]) ==> m in at
  }

  ghost predicate Keeps(docs: seq<Document>, rest: seq<Document>, goes: Document -> bool) {
    exists at :: KeepsAt(docs, rest, goes, at)
  }

  /** Document `k` is the first that answers. */
  ghost predicate FirstAnswer(docs: seq<Document>, key: string, k: int) {
    0 <= k < |docs| && Answers(docs[k], key) && forall m :: 0 <= m < k ==> !Answers(docs[m], key)
  }

  /** A leaf looked up in a list: what replaces it, and what is left of the list. */
  ghost predicate LooksUp(v: Value, docs: seq<Document>, value: Value, rest: seq<Document>) {
    if !v.Str? || v.s == "" then value == v && rest == docs
    else if forall key :: !RefersBy(v.s, key) then value == Null && rest == docs
    else exists key :: RefersBy(v.s, key) && ReplacedBy(key, docs, value, rest)
  }

  ghost predicate ReplacedBy(key: string, docs: seq<Document>, value: Value, rest: seq<Document>) {
    if forall m :: 0 <= m < |docs| ==> !Answers(docs[m], key) then value == Null && rest == docs
    else
      (exists k :: FirstAnswer(docs, key, k) && value == Obj(docs[k] - {"#id"})) &&
      Keeps(docs, rest, d => Answers(d, key))
  }

  /** A leaf filed in a list: the reference that replaces it, and the list with what is stored. */
  ghost predicate FilesAway(v: Value, docs: seq<Document>, value: Value, rest: seq<Document>) {
    if !((v.Obj? && v.fields != map[]) || (v.Arr? && v.items != [])) then value == v && rest == docs
    else
      var id := Own(v, "id");
      if id.Some? && id.value != Null && id.value != Bool(false) && id.value != Num(0) && id.value != Str("") then
        value == Str("$document-" + Text(id.value)) &&
        rest != [] && Last(rest) == Spread(v) && Keeps(docs, Init(rest), d => Field(d, "id") == id)
      else
        var tag := "document" + Dec(|docs|);
        value == Str("$document-#ref{" + tag + ".id}") && rest == docs + [Spread(v)["#id" := Str(tag)]]
  }

  lemma KeepsNone(goes: Document -> bool)
    ensures Keeps([], [], goes)
  {
    assert KeepsAt([], [], goes, []);
  }

  /** One more document stays or goes. */
  lemma KeepsNext(docs: seq<Document>, rest: seq<Document>, goes: Document -> bool, d: Document)
    requires Keeps(docs, rest, goes)
    ensures Keeps(docs + [d], rest + if goes(d) then [] else [d], goes)
  {
    var at :| KeepsAt(docs, rest, goes, at);
    if goes(d) {
      GoneLast(docs, rest, goes, at, d);
      assert rest + [] == rest;
    } else {
      KeptLast(docs, rest, goes, at, d);
    }
  }

  lemma GoneLast(docs: seq<Document>, rest: seq<Document>, goes: Document -> bool, at: seq<nat>, d: Document)
    requires KeepsAt(docs, rest, goes, at) && goes(d)
    ensures KeepsAt(docs + [d], rest, goes, at)
  {
    var all := docs + [d];
    forall m | 0 <= m < |all| && !goes(all[m])
      ensures m in at
    {
      assert m < |docs| && all[m] == docs[m];
    }
  }

  lemma KeptLast(docs: seq<Document>, rest: seq<Document>, goes: Document -> bool, at: seq<nat>, d: Document)
    requires KeepsAt(docs, rest, goes, at) && !goes(d)
    ensures KeepsAt(docs + [d], rest + [d], goes, at + [|docs|])
  {
    var more := at + [|docs|];
    assert more[|at|] == |docs|;
    forall m | 0 <= m < |docs + [d]| && !goes((docs + [d])[m])
      ensures m in more
    {
      assert m < |docs| ==> m in at;
    }
  }

  lemma {:induction false} MissedKeeps(docs: seq<Document>, key: string)
    ensures Keeps(docs, Missed(docs, key), d => Answers(d, key))
  {
    if docs == [] {
      KeepsNone(d => Answers(d, key));
    } else {
      MissedKeeps(Init(docs), key);
      KeepsNext(Init(docs), Missed(Init(docs), key), d => Answers(d, key), Last(docs));
      assert docs == Init(docs) + [Last(docs)];
    }
  }

  lemma {:induction false} WithoutKeeps(docs: seq<Document>, id: Value)
    ensures Keeps(docs, WithoutId(docs, id), d => Field(d, "id") == Some(id))
  {
    if docs == [] {
      KeepsNone(d => Field(d, "id") == Some(id));
    } else {
      WithoutKeeps(Init(docs), id);
      KeepsNext(Init(docs), WithoutId(Init(docs), id), d => Field(d, "id") == Some(id), Last(docs));
      assert docs == Init(docs) + [Last(docs)];
    }
  }

  /** The first hit is the first document that answers. */
  lemma {:induction false} HitIsFirst(docs: seq<Document>, key: string)
    ensures match FirstHit(docs, key)
      case Some(doc) => exists k :: FirstAnswer(docs, key, k) && doc == docs[k]
      case None => Missed(docs, key) == docs && forall m :: 0 <= m < |docs| ==> !Answers(docs[m], key)
  {
    if docs != [] {
      var front, last := Init(docs), |docs| - 1;
      assert docs == front + [docs[last]];
      HitIsFirst(front, key);
      if FirstHit(front, key).Some? {
        var k :| FirstAnswer(front, key, k) && FirstHit(front, key).value == front[k];
        StillFirst(docs, key, k);
      } else if Answers(docs[last], key) {
        assert FirstAnswer(docs, key, last) by {
          assert forall m :: 0 <= m < last ==> front[m] == docs[m];
        }
      }
    }
  }

  lemma StillFirst(docs: seq<Document>, key: string, k: int)
    requires docs != [] && FirstAnswer(Init(docs), key, k)
    ensures FirstAnswer(docs, key, k) && docs[k] == Init(docs)[k]
  {
    assert forall m :: 0 <= m < |docs| - 1 ==> Init(docs)[m] == docs[m];
  }

  lemma LookedUp(docs: seq<Document>, key: string)
    ensures ReplacedBy(key, docs,
      if FirstHit(docs, key).Some? then Obj(Untagged(FirstHit(docs, key).value)) else Null, Missed(docs, key))
  {
    HitIsFirst(docs, key);
    MissedKeeps(docs, key);
  }

  lemma KeyIsRead(s: string)
    ensures match ReferenceKey(s)
      case Some(key) => RefersBy(s, key)
      case None => forall key :: !RefersBy(s, key)
  {
    forall key { ReferenceKeyIsTheMatch(s, key); }
  }

  /** For every leaf and list the denormaliser looks the leaf up, and nothing else. */
  lemma DenormalizedLeaf(v: Value, docs: seq<Document>)
    ensures LooksUp(v, docs, DenormalizeLeaf(v, docs).0, DenormalizeLeaf(v, docs).1)
  {
    if v.Str? && v.s != "" {
      KeyIsRead(v.s);
      match ReferenceKey(v.s)
      case None =>
      case Some(key) =>
        LookedUp(docs, key);
    }
  }

  /** For every leaf and list the normaliser files the leaf away, and nothing else. */
  lemma NormalizedLeaf(v: Value, docs: seq<Document>)
    ensures FilesAway(v, docs, NormalizeLeaf(v, docs).0, NormalizeLeaf(v, docs).1)
  {
    var (value, rest) := NormalizeLeaf(v, docs);
    if Extracted(v) {
      match SavedId(v)
      case Some(id) =>
        WithoutKeeps(docs, id);
        assert Init(rest) == WithoutId(docs, id);
      case None =>
        assert "$document-" + "#ref{" + FreshTag(|docs|) + ".id}" == "$document-#ref{" + ("document" + Dec(|docs|)) + ".id}";
    }
  }

  /** A text refers by one key only. */
  lemma OneKey(s: string, a: string, b: string)
    requires RefersBy(s, a) && RefersBy(s, b)
    ensures a == b
  {
    ReferenceKeyIsTheMatch(s, a);
    ReferenceKeyIsTheMatch(s, b);
  }

  // Every file path

  /** How many leaves are visited before those of declared key `j`, and before those of element `j`. */
  function FieldOffset(props: seq<Property>, v: Value, depth: int, j: nat): nat
    requires depth >= 0 && j < |props|
    decreases |props|
  {
    if j == |props| - 1 then |FieldLeaves(Init(props), v, depth)| else FieldOffset(Init(props), v, depth, j)
  }

  function ItemOffset(s: Schema, items: seq<Value>, depth: int, j: nat): nat
    requires depth >= 0 && j < |items|
    decreases |items|
  {
    if j == |items| - 1 then |ItemLeaves(s, Init(items), depth)| else ItemOffset(s, Init(items), depth, j)
  }

  /** `path` leads to the leaf that is visited as number `i`. */
  ghost predicate LeafPath(s: Schema, v: Value, depth: int, path: seq<Hop>, i: int)
    decreases |path|
  {
    match StepAt(s, v, depth)
    case Keep => false
    case Leaf => path == [] && i == 0
    case Fields(props) =>
      path != [] && path[0].Key? && exists j :: FieldPath(props, v, depth, path, i, j)
    case Elements =>
      path != [] && path[0].Index? && path[0].i < |v.items| &&
      LeafPath(ItemSchema(s), v.items[path[0].i], depth - 1, path[1..], i - ItemOffset(s, v.items, depth, path[0].i))
  }

  ghost predicate FieldPath(props: seq<Property>, v: Value, depth: int, path: seq<Hop>, i: int, j: int)
    requires depth >= 0 && path != [] && path[0].Key?
    decreases |path|, 0
  {
    0 <= j < |props| && props[j].key == path[0].name && Own(v, props[j].key).Some? &&
    LeafPath(props[j].schema, Own(v, props[j].key).value, depth - 1, path[1..], i - FieldOffset(props, v, depth, j))
  }

  lemma PrefixSlice(all: seq<Value>, front: seq<Value>, from: nat, to: nat)
    requires |front| <= |all| && all[..|front|] == front && from <= to <= |front|
    ensures all[from..to] == front[from..to]
  {
    assert all[..|front|][from..to] == all[from..to];
  }

  /** The leaves of one declared key, as part of those of all. */
  lemma {:induction false} FieldLeafPart(props: seq<Property>, v: Value, depth: int, j: nat)
    requires depth >= 0 && j < |props| && Own(v, props[j].key).Some?
    ensures var part, from := Leaves(props[j].schema, Own(v, props[j].key).value, depth - 1), FieldOffset(props, v, depth, j);
      from + |part| <= |FieldLeaves(props, v, depth)| && FieldLeaves(props, v, depth)[from..from + |part|] == part
    decreases |props|
  {
    var front := Init(props);
    if j < |props| - 1 {
      assert front[j] == props[j];
      FieldLeafPart(front, v, depth, j);
      var part, from := Leaves(props[j].schema, Own(v, props[j].key).value, depth - 1), FieldOffset(props, v, depth, j);
      PrefixSlice(FieldLeaves(props, v, depth), FieldLeaves(front, v, depth), from, from + |part|);
    }
  }

  /** The rebuilt value of one declared key. */
  lemma {:induction false} FieldPart(props: seq<Property>, v: Value, depth: int, ws: seq<Value>, j: nat, from: nat, to: nat)
    requires depth >= 0 && j < |props| && UniquePropertyKeys(props) && Own(v, props[j].key).Some?
    requires |ws| == |FieldLeaves(props, v, depth)| && from == FieldOffset(props, v, depth, j)
    requires to == from + |Leaves(props[j].schema, Own(v, props[j].key).value, depth - 1)| && to <= |ws|
    ensures props[j].key in PlugFields(props, v, depth, ws)
    ensures PlugFields(props, v, depth, ws)[props[j].key] ==
      Plug(props[j].schema, Own(v, props[j].key).value, depth - 1, ws[from..to])
    decreases |props|
  {
    var front, last := Init(props), |props| - 1;
    if j < last {
      assert front[j] == props[j];
      FieldLeafPart(front, v, depth, j);
      FrontPlugged(props, v, depth, ws, j);
      var n := |FieldLeaves(front, v, depth)|;
      FieldPart(front, v, depth, ws[..n], j, from, to);
      assert ws[..n][from..to] == ws[from..to];
    } else {
      LastPlugged(props, v, depth, ws, from, to);
    }
  }

  /** The last key has no part in the others. */
  lemma FrontPlugged(props: seq<Property>, v: Value, depth: int, ws: seq<Value>, j: nat)
    requires depth >= 0 && j < |props| - 1 && UniquePropertyKeys(props)
    requires |ws| == |FieldLeaves(props, v, depth)|
    ensures var n, key := |FieldLeaves(Init(props), v, depth)|, props[j].key;
      n <= |ws| &&
      (key in PlugFields(Init(props), v, depth, ws[..n]) ==>
        key in PlugFields(props, v, depth, ws) && PlugFields(props, v, depth, ws)[key] == PlugFields(Init(props), v, depth, ws[..n])[key])
  {
    assert props[j].key != props[|props| - 1].key;
  }

  lemma LastPlugged(props: seq<Property>, v: Value, depth: int, ws: seq<Value>, from: nat, to: nat)
    requires depth >= 0 && props != [] && Own(v, Last(props).key).Some?
    requires |ws| == |FieldLeaves(props, v, depth)| && from == |FieldLeaves(Init(props), v, depth)|
    requires to == from + |Leaves(Last(props).schema, Own(v, Last(props).key).value, depth - 1)|
    ensures to == |ws| && Last(props).key in PlugFields(props, v, depth, ws)
    ensures PlugFields(props, v, depth, ws)[Last(props).key] ==
      Plug(Last(props).schema, Own(v, Last(props).key).value, depth - 1, ws[from..to])
  {
    assert ws[from..|ws|] == ws[from..];
  }

  /** The leaves of one element, as part of those of all. */
  lemma {:induction false} ItemLeafPart(s: Schema, items: seq<Value>, depth: int, j: nat)
    requires depth >= 0 && j < |items|
    ensures var part, from := Leaves(ItemSchema(s), items[j], depth - 1), ItemOffset(s, items, depth, j);
      from + |part| <= |ItemLeaves(s, items, depth)| && ItemLeaves(s, items, depth)[from..from + |part|] == part
    decreases |items|
  {
    var front := Init(items);
    if j < |items| - 1 {
      assert front[j] == items[j];
      ItemLeafPart(s, front, depth, j);
      var part, from := Leaves(ItemSchema(s), items[j], depth - 1), ItemOffset(s, items, depth, j);
      PrefixSlice(ItemLeaves(s, items, depth), ItemLeaves(s, front, depth), from, from + |part|);
    }
  }

  /** The rebuilt value of one element. */
  lemma {:induction false} ItemPart(s: Schema, items: seq<Value>, depth: int, ws: seq<Value>, j: nat, from: nat, to: nat)
    requires depth >= 0 && j < |items| && |ws| == |ItemLeaves(s, items, depth)| && from == ItemOffset(s, items, depth, j)
    requires to == from + |Leaves(ItemSchema(s), items[j], depth - 1)| && to <= |ws|
    ensures PlugItems(s, items, depth, ws)[j] == Plug(ItemSchema(s), items[j], depth - 1, ws[from..to])
    decreases |items|
  {
    var front, last := Init(items), |items| - 1;
    var n := |ItemLeaves(s, front, depth)|;
    if j < last {
      assert front[j] == items[j];
      ItemLeafPart(s, front, depth, j);
      ItemPart(s, front, depth, ws[..n], j, from, to);
      assert ws[..n][from..to] == ws[from..to];
    } else {
      assert ws[n..|ws|] == ws[n..] && to == |ws|;
    }
  }

  /** The value rebuilt with `ws` has `ws[i]` where the path to leaf `i` leads. */
  lemma {:induction false} RebuiltAt(s: Schema, v: Value, depth: int, ws: seq<Value>, path: seq<Hop>, i: int)
    requires UniqueKeys(s, depth) && |ws| == |Leaves(s, v, depth)| && LeafPath(s, v, depth, path, i)
    ensures 0 <= i < |ws| && ValueAt(Plug(s, v, depth, ws), path) == Some(ws[i])
    decreases |path|, 3
  {
    match StepAt(s, v, depth) {
      case Keep =>
      case Leaf =>
      case Fields(props) => RebuiltAtFields(props, v, depth, ws, path, i);
      case Elements => RebuiltAtItem(s, v.items, depth, ws, path, i);
    }
  }

  lemma {:induction false} RebuiltAtFields(props: seq<Property>, v: Value, depth: int, ws: seq<Value>, path: seq<Hop>, i: int)
    requires depth >= 0 && UniquePropertyKeys(props) && UniqueKeysBelow(props, depth - 1)
    requires |ws| == |FieldLeaves(props, v, depth)|
    requires path != [] && path[0].Key? && exists j :: FieldPath(props, v, depth, path, i, j)
    ensures 0 <= i < |ws| && ValueAt(Obj(PlugFields(props, v, depth, ws)), path) == Some(ws[i])
    decreases |path|, 2
  {
    var j, k, t, x := ChosenPath(props, v, depth, path, i);
    var from, to, m := PartPlugged(props, v, depth, ws, j);
    assert UniqueKeys(t, depth - 1);
    RebuiltAtField(t, x, depth - 1, ws, from, to, path, k, m);
  }

  /** The declared key a path to a leaf goes through, and the leaf's number among those of the key. */
  lemma ChosenPath(props: seq<Property>, v: Value, depth: int, path: seq<Hop>, i: int) returns (j: nat, k: int, t: Schema, x: Value)
    requires depth >= 0 && path != [] && path[0].Key? && exists j :: FieldPath(props, v, depth, path, i, j)
    ensures j < |props| && props[j] == Property(path[0].name, t) && Own(v, path[0].name) == Some(x)
    ensures k == i - FieldOffset(props, v, depth, j) && LeafPath(t, x, depth - 1, path[1..], k)
  {
    j :| FieldPath(props, v, depth, path, i, j);
    t, x := props[j].schema, Own(v, props[j].key).value;
    k := i - FieldOffset(props, v, depth, j);
  }

  lemma PartPlugged(props: seq<Property>, v: Value, depth: int, ws: seq<Value>, j: nat)
      returns (from: nat, to: nat, m: map<string, Value>)
    requires depth >= 0 && UniquePropertyKeys(props) && |ws| == |FieldLeaves(props, v, depth)|
    requires j < |props| && Own(v, props[j].key).Some?
    ensures m == PlugFields(props, v, depth, ws) && props[j].key in m && from <= to <= |ws|
    ensures from == FieldOffset(props, v, depth, j)
    ensures to - from == |Leaves(props[j].schema, Own(v, props[j].key).value, depth - 1)|
    ensures m[props[j].key] == Plug(props[j].schema, Own(v, props[j].key).value, depth - 1, ws[from..to])
  {
    from, to := PartOf(props, v, depth, j);
    FieldPart(props, v, depth, ws, j, from, to);
    m := PlugFields(props, v, depth, ws);
  }

  lemma {:induction false} RebuiltAtField(t: Schema, x: Value, depth: int, ws: seq<Value>, from: nat, to: nat, path: seq<Hop>, k: int,
        m: map<string, Value>)
    requires path != [] && path[0].Key? && UniqueKeys(t, depth) && LeafPath(t, x, depth, path[1..], k)
    requires from <= to <= |ws| && to - from == |Leaves(t, x, depth)|
    requires path[0].name in m && m[path[0].name] == Plug(t, x, depth, ws[from..to])
    ensures 0 <= from + k < |ws| && ValueAt(Obj(m), path) == Some(ws[from + k])
    decreases |path|, 0
  {
    var part := ws[from..to];
    RebuiltAt(t, x, depth, part, path[1..], k);
    assert part[k] == ws[from + k];
  }

  lemma PartOf(props: seq<Property>, v: Value, depth: int, j: nat) returns (from: nat, to: nat)
    requires depth >= 0 && j < |props| && Own(v, props[j].key).Some?
    ensures from == FieldOffset(props, v, depth, j)
    ensures to == from + |Leaves(props[j].schema, Own(v, props[j].key).value, depth - 1)| <= |FieldLeaves(props, v, depth)|
  {
    FieldLeafPart(props, v, depth, j);
    from := FieldOffset(props, v, depth, j);
    to := from + |Leaves(props[j].schema, Own(v, props[j].key).value, depth - 1)|;
  }

  lemma {:induction false} RebuiltAtItem(s: Schema, items: seq<Value>, depth: int, ws: seq<Value>, path: seq<Hop>, i: int)
    requires depth >= 0 && UniqueKeys(ItemSchema(s), depth - 1)
    requires |ws| == |ItemLeaves(s, items, depth)|
    requires path != [] && path[0].Index? && path[0].i < |items|
    requires LeafPath(ItemSchema(s), items[path[0].i], depth - 1, path[1..], i - ItemOffset(s, items, depth, path[0].i))
    ensures 0 <= i < |ws| && ValueAt(Arr(PlugItems(s, items, depth, ws)), path) == Some(ws[i])
    decreases |path|, 0
  {
    var j := path[0].i;
    var from := ItemOffset(s, items, depth, j);
    var to := from + |Leaves(ItemSchema(s), items[j], depth - 1)|;
    ItemLeafPart(s, items, depth, j);
    ItemPart(s, items, depth, ws, j, from, to);
    RebuiltAt(ItemSchema(s), items[j], depth - 1, ws[from..to], path[1..], i - from);
  }

  /** Every file path leads to a leaf, the value that is there. */
  lemma {:induction false} FileIsLeaf(s: Schema, v: Value, depth: int, path: seq<Hop>, x: Value) returns (i: nat)
    requires FilePath(s, v, depth, path, x)
    ensures LeafPath(s, v, depth, path, i) && i < |Leaves(s, v, depth)| && Leaves(s, v, depth)[i] == x
    decreases |path|, 1
  {
    match StepAt(s, v, depth) {
      case Keep =>
      case Leaf => i := 0;
      case Fields(props) => i := FileIsFieldLeaf(props, v, depth, path, x);
      case Elements => i := FileIsItemLeaf(s, v.items, depth, path, x);
    }
  }

  lemma {:induction false} FileIsFieldLeaf(props: seq<Property>, v: Value, depth: int, path: seq<Hop>, x: Value) returns (i: nat)
    requires depth >= 0 && path != [] && path[0].Key? && Own(v, path[0].name).Some?
    requires exists t :: Declares(props, path[0].name, t) && Reaches(t, Own(v, path[0].name).value, depth - 1, path[1..], x, true)
    ensures (exists j :: FieldPath(props, v, depth, path, i, j))
    ensures i < |FieldLeaves(props, v, depth)| && FieldLeaves(props, v, depth)[i] == x
    decreases |path|, 0
  {
    var t :| Declares(props, path[0].name, t) && Reaches(t, Own(v, path[0].name).value, depth - 1, path[1..], x, true);
    var j :| 0 <= j < |props| && props[j] == Property(path[0].name, t);
    var k := FileIsLeaf(t, Own(v, path[0].name).value, depth - 1, path[1..], x);
    i := FieldLeafAt(props, v, depth, j, k);
    assert FieldPath(props, v, depth, path, i, j);
  }

  lemma {:induction false} FileIsItemLeaf(s: Schema, items: seq<Value>, depth: int, path: seq<Hop>, x: Value) returns (i: nat)
    requires depth >= 0 && path != [] && path[0].Index? && path[0].i < |items|
    requires FilePath(ItemSchema(s), items[path[0].i], depth - 1, path[1..], x)
    ensures LeafPath(ItemSchema(s), items[path[0].i], depth - 1, path[1..], i - ItemOffset(s, items, depth, path[0].i))
    ensures i < |ItemLeaves(s, items, depth)| && ItemLeaves(s, items, depth)[i] == x
    decreases |path|, 0
  {
    var j := path[0].i;
    var k := FileIsLeaf(ItemSchema(s), items[j], depth - 1, path[1..], x);
    i := ItemLeafAt(s, items, depth, j, k);
  }

  lemma ItemLeafAt(s: Schema, items: seq<Value>, depth: int, j: nat, k: nat) returns (i: nat)
    requires depth >= 0 && j < |items| && k < |Leaves(ItemSchema(s), items[j], depth - 1)|
    ensures i == ItemOffset(s, items, depth, j) + k < |ItemLeaves(s, items, depth)|
    ensures ItemLeaves(s, items, depth)[i] == Leaves(ItemSchema(s), items[j], depth - 1)[k]
  {
    ItemLeafPart(s, items, depth, j);
    var part, all, from := Leaves(ItemSchema(s), items[j], depth - 1), ItemLeaves(s, items, depth), ItemOffset(s, items, depth, j);
    i := from + k;
    assert all[from..from + |part|][k] == all[i];
  }

  /** The leaf of a declared key, numbered among those of all. */
  lemma FieldLeafAt(props: seq<Property>, v: Value, depth: int, j: nat, k: nat) returns (i: nat)
    requires depth >= 0 && j < |props| && Own(v, props[j].key).Some?
    requires k < |Leaves(props[j].schema, Own(v, props[j].key).value, depth - 1)|
    ensures i == FieldOffset(props, v, depth, j) + k < |FieldLeaves(props, v, depth)|
    ensures FieldLeaves(props, v, depth)[i] == Leaves(props[j].schema, Own(v, props[j].key).value, depth - 1)[k]
  {
    FieldLeafPart(props, v, depth, j);
    var part, all := Leaves(props[j].schema, Own(v, props[j].key).value, depth - 1), FieldLeaves(props, v, depth);
    var from := FieldOffset(props, v, depth, j);
    i := from + k;
    assert all[from..from + |part|][k] == all[i];
  }

  /** `lists` are the document lists a transform goes through: one before each leaf, and the last. */
  ghost predicate GoesThrough(lists: seq<seq<Document>>, n: nat, docs: seq<Document>, rest: seq<Document>) {
    |lists| == n + 1 && lists[0] == docs && lists[n] == rest
  }

  /**
   A denormalised value: at every file path stands what the leaf there is replaced by, looked up
   in the list that the leaves before it have left.
   */
  lemma DenormalizedFiles(s: Schema, v: Value, docs: seq<Document>, depth: int) returns (ys: seq<Value>, lists: seq<seq<Document>>)
    requires UniqueKeys(s, depth) && Safe(s, v, depth)
    ensures |ys| == |Leaves(s, v, depth)|
    ensures var r := Outcome(DenormalizeLeaf, s, v, docs, depth);
      r.Success? && GoesThrough(lists, |ys|, docs, r.value.1) &&
      forall path, x :: FilePath(s, v, depth, path, x) ==>
        exists i :: 0 <= i < |ys| && LeafPath(s, v, depth, path, i) && ValueAt(r.value.0, path) == Some(ys[i]) &&
                    LooksUp(x, lists[i], ys[i], lists[i + 1])
  {
    ys := Thread(DenormalizeLeaf, Leaves(s, v, depth), docs).0;
    lists := ListsOf(DenormalizeLeaf, Leaves(s, v, depth), docs);
    forall path, x | FilePath(s, v, depth, path, x)
      ensures exists i :: DenormalizedAt(s, v, docs, depth, path, x, i)
    {
      var i := DenormalizedFile(s, v, docs, depth, path, x);
    }
  }

  /** Leaf `i`, at this path, went from its list to the next. */
  ghost predicate DenormalizedAt(s: Schema, v: Value, docs: seq<Document>, depth: int, path: seq<Hop>, x: Value, i: int) {
    var leaves := Leaves(s, v, depth);
    var (ys, lists) := (Thread(DenormalizeLeaf, leaves, docs).0, ListsOf(DenormalizeLeaf, leaves, docs));
    0 <= i < |ys| && LeafPath(s, v, depth, path, i) && ValueAt(Plug(s, v, depth, ys), path) == Some(ys[i]) &&
    LooksUp(x, lists[i], ys[i], lists[i + 1])
  }

  lemma DenormalizedFile(s: Schema, v: Value, docs: seq<Document>, depth: int, path: seq<Hop>, x: Value) returns (i: nat)
    requires UniqueKeys(s, depth) && FilePath(s, v, depth, path, x)
    ensures DenormalizedAt(s, v, docs, depth, path, x, i)
  {
    var leaves := Leaves(s, v, depth);
    i := FileIsLeaf(s, v, depth, path, x);
    RebuiltAt(s, v, depth, Thread(DenormalizeLeaf, leaves, docs).0, path, i);
    ThreadAt(DenormalizeLeaf, leaves, docs, i);
    DenormalizedLeaf(x, Thread(DenormalizeLeaf, leaves[..i], docs).1);
  }

  function ListsOf(f: LeafStep, leaves: seq<Value>, docs: seq<Document>): (r: seq<seq<Document>>)
    ensures GoesThrough(r, |leaves|, docs, Thread(f, leaves, docs).1)
  {
    assert leaves[..0] == [] && leaves[..|leaves|] == leaves;
    seq(|leaves| + 1, i requires 0 <= i <= |leaves| => Thread(f, leaves[..i], docs).1)
  }

  /** A normalised value: at every file path stands the reference its leaf is replaced by, filed in the list so far. */
  lemma NormalizedFiles(s: Schema, v: Value, docs: seq<Document>, depth: int) returns (ys: seq<Value>, lists: seq<seq<Document>>)
    requires UniqueKeys(s, depth) && Safe(s, v, depth)
    ensures |ys| == |Leaves(s, v, depth)|
    ensures var r := Outcome(NormalizeLeaf, s, v, docs, depth);
      r.Success? && GoesThrough(lists, |ys|, docs, r.value.1) &&
      forall path, x :: FilePath(s, v, depth, path, x) ==>
        exists i :: 0 <= i < |ys| && LeafPath(s, v, depth, path, i) && ValueAt(r.value.0, path) == Some(ys[i]) &&
                    FilesAway(x, lists[i], ys[i], lists[i + 1])
  {
    ys := Thread(NormalizeLeaf, Leaves(s, v, depth), docs).0;
    lists := ListsOf(NormalizeLeaf, Leaves(s, v, depth), docs);
    forall path, x | FilePath(s, v, depth, path, x)
      ensures exists i :: NormalizedAt(s, v, docs, depth, path, x, i)
    {
      var i := NormalizedFile(s, v, docs, depth, path, x);
    }
  }

  /** Leaf `i`, at this path, went from its list to the next. */
  ghost predicate NormalizedAt(s: Schema, v: Value, docs: seq<Document>, depth: int, path: seq<Hop>, x: Value, i: int) {
    var leaves := Leaves(s, v, depth);
    var (ys, lists) := (Thread(NormalizeLeaf, leaves, docs).0, ListsOf(NormalizeLeaf, leaves, docs));
    0 <= i < |ys| && LeafPath(s, v, depth, path, i) && ValueAt(Plug(s, v, depth, ys), path) == Some(ys[i]) &&
    FilesAway(x, lists[i], ys[i], lists[i + 1])
  }

  lemma NormalizedFile(s: Schema, v: Value, docs: seq<Document>, depth: int, path: seq<Hop>, x: Value) returns (i: nat)
    requires UniqueKeys(s, depth) && FilePath(s, v, depth, path, x)
    ensures NormalizedAt(s, v, docs, depth, path, x, i)
  {
    var leaves := Leaves(s, v, depth);
    i := FileIsLeaf(s, v, depth, path, x);
    RebuiltAt(s, v, depth, Thread(NormalizeLeaf, leaves, docs).0, path, i);
    ThreadAt(NormalizeLeaf, leaves, docs, i);
    NormalizedLeaf(x, Thread(NormalizeLeaf, leaves[..i], docs).1);
  }

  /** The lists of a denormalisation only lose documents. */
  lemma {:induction false} OnlyLoses(leaves: seq<Value>, docs: seq<Document>, i: nat, d: Document)
    requires i <= |leaves| && d in Thread(DenormalizeLeaf, leaves[..i], docs).1
    ensures d in docs
  {
    if i > 0 {
      ThreadNext(DenormalizeLeaf, leaves, docs, i - 1);
      var v, before := leaves[i - 1], Thread(DenormalizeLeaf, leaves[..i - 1], docs).1;
      if v.Str? && v.s != "" && ReferenceKey(v.s).Some? {
        MissedMembers(before, ReferenceKey(v.s).value, d);
      }
      OnlyLoses(leaves, docs, i - 1, d);
    }
  }

  /**
   A file path with text that is no reference, or a reference to a document that is not listed,
   holds `null` afterwards, whatever the other leaves are.
   */
  lemma MissingIsNull(s: Schema, v: Value, docs: seq<Document>, depth: int, path: seq<Hop>, text: string)
    requires UniqueKeys(s, depth) && Safe(s, v, depth) && FilePath(s, v, depth, path, Str(text)) && text != ""
    requires forall key, d :: RefersBy(text, key) && d in docs ==> !Answers(d, key)
    ensures var r := Outcome(DenormalizeLeaf, s, v, docs, depth);
      r.Success? && ValueAt(r.value.0, path) == Some(Null)
  {
    var leaves := Leaves(s, v, depth);
    var ys := Thread(DenormalizeLeaf, leaves, docs).0;
    var i := FileIsLeaf(s, v, depth, path, Str(text));
    RebuiltAt(s, v, depth, ys, path, i);
    ThreadAt(DenormalizeLeaf, leaves, docs, i);
    var list := Thread(DenormalizeLeaf, leaves[..i], docs).1;
    KeyIsRead(text);
    if ReferenceKey(text).Some? {
      HitIsFirst(list, ReferenceKey(text).value);
      if FirstHit(list, ReferenceKey(text).value).Some? {
        var k :| FirstAnswer(list, ReferenceKey(text).value, k) && FirstHit(list, ReferenceKey(text).value).value == list[k];
        OnlyLoses(leaves, docs, i, list[k]);
      }
    }
  }
}
