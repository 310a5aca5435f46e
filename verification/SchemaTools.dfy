/**
 `containsFile` and `removeMeta` (src/common/identity/utils.js:172-211) and their agreement
 with the document transforms.
 */
module SchemaTools {
  import opened Wrappers
  import opened Sequences
  import opened Json
  import opened Traversal
  import opened Documents

  function ContainsFile(s: Schema, depth: int): Result<bool>
    decreases depth, 1
  {
    if depth < 0 then Success(false)
    else if IsFile(s) then Success(true)
    else if s.kind == Some("object") then
      if s.properties.None? then Success(false) else AnyContainsFile(s.properties.value, depth)
    else if s.kind == Some("array") then
      if s.items.None? && depth > 0 then Failure(TypeError) else ContainsFile(ItemSchema(s), depth - 1)
    else Success(false)
  }

  /** The properties in order; the first file or exception ends the search. */
  function AnyContainsFile(props: seq<Property>, depth: int): Result<bool>
    requires depth >= 0
    decreases depth, 0, |props|
  {
    if props == [] then Success(false)
    else
      var before := AnyContainsFile(Init(props), depth);
      if before != Success(false) then before else ContainsFile(Last(props).schema, depth - 1)
  }

  function RemoveMeta(s: Schema, depth: int): Schema
    decreases depth, 1
  {
    if depth < 0 then s
    else
      var bare := s.(id := None, schemaUri := None);
      if s.kind == Some("object") && s.properties.Some? then
        bare.(properties := Some(RemoveMetaAll(s.properties.value, depth)))
      else if s.kind == Some("array") then
        bare.(items := if s.items.Some? || depth > 0 then Some(RemoveMeta(ItemSchema(s), depth - 1)) else None)
      else bare
  }

  function RemoveMetaAll(props: seq<Property>, depth: int): (r: seq<Property>)
    requires depth >= 0
    ensures |r| == |props|
    decreases depth, 0, |props|
  {
    if props == [] then []
    else RemoveMetaAll(Init(props), depth) + [Property(Last(props).key, RemoveMeta(Last(props).schema, depth - 1))]
  }

  /** `removeMeta` itself: copies the node, deletes two keys and overwrites the parts below. */
  method RemoveMetaInPlace(s: Schema, maxDepth: int) returns (schema: Schema)
    ensures schema == RemoveMeta(s, maxDepth)
    decreases maxDepth, 1
  {
    if maxDepth < 0 {
      return s;
    }
    schema := s.(id := None, schemaUri := None);
    if schema.kind == Some("object") && schema.properties.Some? {
      var props := RemoveMetaProperties(schema.properties.value, maxDepth);
      schema := schema.(properties := Some(props));
    }
    if schema.kind == Some("array") && (schema.items.Some? || maxDepth > 0) {
      var cleaned := RemoveMetaInPlace(ItemSchema(schema), maxDepth - 1);
      schema := schema.(items := Some(cleaned));
    }
  }

  /** The loop over the copied property table, overwritten key by key. */
  method RemoveMetaProperties(declared: seq<Property>, maxDepth: int) returns (props: seq<Property>)
    requires maxDepth >= 0
    ensures props == RemoveMetaAll(declared, maxDepth)
    decreases maxDepth, 0
  {
    props := declared;
    for i := 0 to |declared|
      invariant |props| == |declared|
      invariant props[..i] == RemoveMetaAll(declared[..i], maxDepth)
      invariant props[i..] == declared[i..]
    {
      assert props[i] == props[i..][0] == declared[i..][0] == declared[i];
      var cleaned := RemoveMetaInPlace(props[i].schema, maxDepth - 1);
      ghost var before := props;
      props := props[i := Property(props[i].key, cleaned)];
      assert Init(declared[..i + 1]) == declared[..i] && Last(declared[..i + 1]) == declared[i];
      assert props[..i + 1] == before[..i] + [Property(declared[i].key, cleaned)];
      assert props[i + 1..] == before[i..][1..] == declared[i + 1..];
    }
    assert props[..|declared|] == props && declared[..|declared|] == declared;
  }

  // containsFile is false exactly for schemas no value has a file leaf under

  lemma {:induction false} NoFileNoLeaves(s: Schema, v: Value, depth: int)
    requires ContainsFile(s, depth) == Success(false)
    ensures Leaves(s, v, depth) == []
    decreases depth, 1
  {
    match StepAt(s, v, depth)
    case Keep =>
    case Leaf =>
    case Fields(props) => NoFileNoFieldLeaves(props, v, depth);
    case Elements => NoFileNoItemLeaves(s, v.items, depth);
  }

  lemma {:induction false} NoFileNoFieldLeaves(props: seq<Property>, v: Value, depth: int)
    requires depth >= 0 && AnyContainsFile(props, depth) == Success(false)
    ensures FieldLeaves(props, v, depth) == []
    decreases depth, 0, |props|
  {
    if props != [] {
      NoFileNoFieldLeaves(Init(props), v, depth);
      if Own(v, Last(props).key).Some? {
        NoFileNoLeaves(Last(props).schema, Own(v, Last(props).key).value, depth - 1);
      }
    }
  }

  lemma {:induction false} NoFileNoItemLeaves(s: Schema, items: seq<Value>, depth: int)
    requires depth >= 0 && ContainsFile(ItemSchema(s), depth - 1) == Success(false)
    ensures ItemLeaves(s, items, depth) == []
    decreases depth, 0, |items|
  {
    if items != [] {
      NoFileNoItemLeaves(s, Init(items), depth);
      NoFileNoLeaves(ItemSchema(s), Last(items), depth - 1);
    }
  }

  /** A value that shows a file leaf of `s`. */
  lemma {:induction false} FileWitness(s: Schema, depth: int) returns (v: Value)
    requires UniqueKeys(s, depth) && ContainsFile(s, depth) == Success(true)
    ensures Safe(s, v, depth) && Leaves(s, v, depth) != []
    decreases depth, 1
  {
    if IsFile(s) {
      v := Null;
    } else if s.kind == Some("object") {
      v := FileFieldWitness(s.properties.value, depth);
    } else {
      var x := FileWitness(ItemSchema(s), depth - 1);
      v := Arr([x]);
      assert Init([x]) == [];
    }
  }

  lemma {:induction false} FileFieldWitness(props: seq<Property>, depth: int) returns (v: Value)
    requires depth >= 0 && UniquePropertyKeys(props) && UniqueKeysBelow(props, depth - 1)
    requires AnyContainsFile(props, depth) == Success(true)
    ensures v.Obj? && SafeFields(props, v, depth) && FieldLeaves(props, v, depth) != []
    ensures forall k :: k in v.fields ==> Named(props, k)
    decreases depth, 0, |props|
  {
    var front, p := Init(props), Last(props);
    assert props[|front|] == p;
    if AnyContainsFile(front, depth) == Success(true) {
      v := FileFieldWitness(front, depth);
      LastUnnamed(props);
      forall k { NamedFront(props, k); }
    } else {
      var x := FileWitness(p.schema, depth - 1);
      v := Obj(map[p.key := x]);
      AbsentFields(front, v, depth);
    }
  }

  lemma LastUnnamed(props: seq<Property>)
    requires props != [] && UniquePropertyKeys(props)
    ensures !Named(Init(props), Last(props).key)
  {
    forall i | 0 <= i < |props| - 1
      ensures Init(props)[i].key != Last(props).key
    {
      assert props[i].key != props[|props| - 1].key;
    }
  }

  lemma {:induction false} AbsentFields(props: seq<Property>, v: Value, depth: int)
    requires depth >= 0
    requires forall i :: 0 <= i < |props| ==> Own(v, props[i].key).None?
    ensures SafeFields(props, v, depth) && FieldLeaves(props, v, depth) == []
    decreases |props|
  {
    if props != [] {
      AbsentFields(Init(props), v, depth);
    }
  }

  // What the search meets

  /** A file, or an array schema without `items`; `level` is how deep `removeMeta` still goes there. */
  datatype Find = File | Bare(level: int)

  /** All that a search without an early end would meet, in its order. */
  function Finds(s: Schema, e: int, depth: int): seq<Find>
    decreases depth, 1
  {
    if depth < 0 then []
    else if IsFile(s) then [File]
    else if s.kind == Some("object") then
      if s.properties.None? then [] else PropertyFinds(s.properties.value, e, depth)
    else if s.kind == Some("array") then
      if s.items.None? && depth > 0 then [Bare(e)] else Finds(ItemSchema(s), e - 1, depth - 1)
    else []
  }

  function PropertyFinds(props: seq<Property>, e: int, depth: int): seq<Find>
    requires depth >= 0
    decreases depth, 0, |props|
  {
    if props == [] then [] else PropertyFinds(Init(props), e, depth) + Finds(Last(props).schema, e - 1, depth - 1)
  }

  /** What the search answers: the first thing it meets decides. */
  function Verdict(finds: seq<Find>): Result<bool> {
    if finds == [] then Success(false) else if finds[0].File? then Success(true) else Failure(TypeError)
  }

  lemma {:induction false} SearchVerdict(s: Schema, e: int, depth: int)
    ensures ContainsFile(s, depth) == Verdict(Finds(s, e, depth))
    decreases depth, 1
  {
    if depth >= 0 && !IsFile(s) {
      if s.kind == Some("object") && s.properties.Some? {
        PropertyVerdict(s.properties.value, e, depth);
      } else if s.kind == Some("array") && (s.items.Some? || depth == 0) {
        SearchVerdict(ItemSchema(s), e - 1, depth - 1);
      }
    }
  }

  lemma {:induction false} PropertyVerdict(props: seq<Property>, e: int, depth: int)
    requires depth >= 0
    ensures AnyContainsFile(props, depth) == Verdict(PropertyFinds(props, e, depth))
    decreases depth, 0, |props|
  {
    if props != [] {
      PropertyVerdict(Init(props), e, depth);
      SearchVerdict(Last(props).schema, e - 1, depth - 1);
    }
  }

  /** Every array schema the search can meet declares its `items`. */
  predicate ItemsDeclared(s: Schema, depth: int) {
    var finds := Finds(s, 0, depth);
    forall i :: 0 <= i < |finds| ==> finds[i].File?
  }

  /**
   `containsFile` throws exactly when it meets an array schema without `items` before any file;
   otherwise it answers whether any value could have a file leaf.
   */
  lemma ContainsFileMeans(s: Schema, depth: int)
    requires UniqueKeys(s, depth)
    ensures ContainsFile(s, depth).Failure? <==> Finds(s, 0, depth) != [] && Finds(s, 0, depth)[0].Bare?
    ensures ContainsFile(s, depth).Success? ==>
      (ContainsFile(s, depth).value <==> exists v :: Safe(s, v, depth) && Leaves(s, v, depth) != [])
    ensures ItemsDeclared(s, depth) ==> ContainsFile(s, depth).Success?
  {
    SearchVerdict(s, 0, depth);
    if ContainsFile(s, depth) == Success(true) {
      var v := FileWitness(s, depth);
    } else if ContainsFile(s, depth) == Success(false) {
      forall v { NoFileNoLeaves(s, v, depth); }
    }
  }

  /** Without files both transforms only project the value. */
  lemma NoFileNoTransform(s: Schema, v: Value, docs: seq<Document>, depth: int)
    requires ContainsFile(s, depth) == Success(false)
    ensures Normalized(s, v, docs, depth) == (Project(s, v, depth), docs)
    ensures Denormalized(s, v, docs, depth) == (Project(s, v, depth), docs)
    ensures Outcome(NormalizeLeaf, s, v, docs, depth) == Outcome(DenormalizeLeaf, s, v, docs, depth)
  {
    NoFileNoLeaves(s, v, depth);
  }

  // removeMeta

  lemma {:induction false} RemoveMetaIdempotent(s: Schema, depth: int)
    ensures RemoveMeta(RemoveMeta(s, depth), depth) == RemoveMeta(s, depth)
    decreases depth, 1
  {
    if depth < 0 {
    } else if s.kind == Some("object") && s.properties.Some? {
      RemoveMetaAllIdempotent(s.properties.value, depth);
    } else if s.kind == Some("array") && (s.items.Some? || depth > 0) {
      RemoveMetaIdempotent(ItemSchema(s), depth - 1);
    }
  }

  lemma {:induction false} RemoveMetaAllIdempotent(props: seq<Property>, depth: int)
    requires depth >= 0
    ensures RemoveMetaAll(RemoveMetaAll(props, depth), depth) == RemoveMetaAll(props, depth)
    decreases depth, 0, |props|
  {
    if props != [] {
      RemoveMetaAllIdempotent(Init(props), depth);
      RemoveMetaIdempotent(Last(props).schema, depth - 1);
      assert Init(RemoveMetaAll(props, depth)) == RemoveMetaAll(Init(props), depth);
    }
  }

  lemma EmptySchema(depth: int)
    ensures RemoveMeta(EMPTY_SCHEMA, depth) == EMPTY_SCHEMA
  {
  }

  lemma ItemSchemaCleaned(s: Schema, e: int)
    requires e >= 0 && s.kind == Some("array")
    ensures ItemSchema(RemoveMeta(s, e)) == RemoveMeta(ItemSchema(s), e - 1)
  {
    EmptySchema(e - 1);
  }

  /** The walk takes the same step at a cleaned node. */
  lemma StepCleaned(s: Schema, e: int, v: Value, depth: int)
    requires e >= 0
    ensures StepAt(RemoveMeta(s, e), v, depth) ==
      match StepAt(s, v, depth)
      case Fields(props) => Fields(RemoveMetaAll(props, e))
      case step => step
  {
  }

  /** The cleaned schema is walked at least as safely. */
  lemma {:induction false} CleanedSafe(s: Schema, e: int, v: Value, depth: int)
    ensures Safe(s, v, depth) ==> Safe(RemoveMeta(s, e), v, depth)
    decreases depth, 1
  {
    if e >= 0 {
      StepCleaned(s, e, v, depth);
      match StepAt(s, v, depth) {
        case Keep =>
        case Leaf =>
        case Fields(props) => CleanedSafeFields(props, e, v, depth);
        case Elements => CleanedSafeItems(s, e, v.items, depth);
      }
    }
  }

  lemma {:induction false} CleanedSafeFields(props: seq<Property>, e: int, v: Value, depth: int)
    requires depth >= 0 && e >= 0
    ensures SafeFields(props, v, depth) ==> SafeFields(RemoveMetaAll(props, e), v, depth)
    decreases depth, 0, |props|
  {
    if props != [] {
      assert Init(RemoveMetaAll(props, e)) == RemoveMetaAll(Init(props), e);
      CleanedSafeFields(Init(props), e, v, depth);
      if Own(v, Last(props).key).Some? {
        CleanedSafe(Last(props).schema, e - 1, Own(v, Last(props).key).value, depth - 1);
      }
    }
  }

  lemma {:induction false} CleanedSafeItems(s: Schema, e: int, items: seq<Value>, depth: int)
    requires depth >= 0 && e >= 0 && s.kind == Some("array")
    ensures SafeItems(s, items, depth) ==> SafeItems(RemoveMeta(s, e), items, depth)
    decreases depth, 0, |items|
  {
    if items != [] {
      ItemSchemaCleaned(s, e);
      CleanedSafeItems(s, e, Init(items), depth);
      CleanedSafe(ItemSchema(s), e - 1, Last(items), depth - 1);
    }
  }

  /** The cleaned schema has the same file leaves and rebuilds alike. */
  lemma {:induction false} RemoveMetaSameWalk(s: Schema, e: int, v: Value, depth: int, ws: seq<Value>)
    ensures Leaves(RemoveMeta(s, e), v, depth) == Leaves(s, v, depth)
    ensures |ws| == |Leaves(s, v, depth)| ==> Plug(RemoveMeta(s, e), v, depth, ws) == Plug(s, v, depth, ws)
    decreases depth, 1
  {
    if e >= 0 {
      StepCleaned(s, e, v, depth);
      match StepAt(s, v, depth)
      case Keep =>
      case Leaf =>
      case Fields(props) =>
        RemoveMetaSameFields(props, e, v, depth, ws);
      case Elements =>
        ItemSchemaCleaned(s, e);
        RemoveMetaSameItems(s, e, v.items, depth, ws);
    }
  }

  lemma {:induction false} RemoveMetaSameFields(props: seq<Property>, e: int, v: Value, depth: int, ws: seq<Value>)
    requires depth >= 0 && e >= 0
    ensures FieldLeaves(RemoveMetaAll(props, e), v, depth) == FieldLeaves(props, v, depth)
    ensures |ws| == |FieldLeaves(props, v, depth)| ==>
      PlugFields(RemoveMetaAll(props, e), v, depth, ws) == PlugFields(props, v, depth, ws)
    decreases depth, 0, |props|
  {
    if props != [] {
      var p := Last(props);
      var n := |FieldLeaves(Init(props), v, depth)|;
      assert Init(RemoveMetaAll(props, e)) == RemoveMetaAll(Init(props), e);
      RemoveMetaSameFields(Init(props), e, v, depth, if n <= |ws| then ws[..n] else ws);
      if Own(v, p.key).Some? {
        RemoveMetaSameWalk(p.schema, e - 1, Own(v, p.key).value, depth - 1, if n <= |ws| then ws[n..] else ws);
      }
    }
  }

  lemma {:induction false} RemoveMetaSameItems(s: Schema, e: int, items: seq<Value>, depth: int, ws: seq<Value>)
    requires depth >= 0 && e >= 0 && s.kind == Some("array")
    ensures ItemLeaves(RemoveMeta(s, e), items, depth) == ItemLeaves(s, items, depth)
    ensures |ws| == |ItemLeaves(s, items, depth)| ==>
      PlugItems(RemoveMeta(s, e), items, depth, ws) == PlugItems(s, items, depth, ws)
    decreases depth, 0, |items|
  {
    if items != [] {
      var n := |ItemLeaves(s, Init(items), depth)|;
      ItemSchemaCleaned(s, e);
      RemoveMetaSameItems(s, e, Init(items), depth, if n <= |ws| then ws[..n] else ws);
      RemoveMetaSameWalk(ItemSchema(s), e - 1, Last(items), depth - 1, if n <= |ws| then ws[n..] else ws);
    }
  }

  /** Neither transform can tell a schema from its cleaned form. */
  lemma RemoveMetaSameTransforms(s: Schema, e: int, v: Value, docs: seq<Document>, depth: int)
    ensures Normalized(RemoveMeta(s, e), v, docs, depth) == Normalized(s, v, docs, depth)
    ensures Denormalized(RemoveMeta(s, e), v, docs, depth) == Denormalized(s, v, docs, depth)
  {
    var leaves := Leaves(s, v, depth);
    RemoveMetaSameWalk(s, e, v, depth, Thread(NormalizeLeaf, leaves, docs).0);
    RemoveMetaSameWalk(s, e, v, depth, Thread(DenormalizeLeaf, leaves, docs).0);
  }

  // What cleaning hides

  /** `removeMeta` gives the array schema an empty `items`. */
  predicate Hidden(x: Find) {
    x.Bare? && x.level > 0
  }

  function Unhidden(finds: seq<Find>): seq<Find> {
    if finds == [] then [] else Unhidden(Init(finds)) + if Hidden(Last(finds)) then [] else [Last(finds)]
  }

  predicate NoneHidden(finds: seq<Find>) {
    forall i :: 0 <= i < |finds| ==> !Hidden(finds[i])
  }

  predicate NothingHidden(s: Schema, e: int, depth: int) {
    NoneHidden(Finds(s, e, depth))
  }

  lemma NoneHiddenConcat(a: seq<Find>, b: seq<Find>)
    ensures NoneHidden(a + b) <==> NoneHidden(a) && NoneHidden(b)
  {
    if NoneHidden(a + b) {
      assert forall i :: 0 <= i < |a| ==> (a + b)[i] == a[i];
      assert forall i :: 0 <= i < |b| ==> (a + b)[|a| + i] == b[i];
    }
  }

  lemma NoneHiddenFront(props: seq<Property>, e: int, depth: int)
    requires depth >= 0 && props != []
    ensures NoneHidden(PropertyFinds(props, e, depth)) <==>
      NoneHidden(PropertyFinds(Init(props), e, depth)) && NothingHidden(Last(props).schema, e - 1, depth - 1)
  {
    NoneHiddenConcat(PropertyFinds(Init(props), e, depth), Finds(Last(props).schema, e - 1, depth - 1));
  }

  lemma {:induction false} UnhiddenConcat(a: seq<Find>, b: seq<Find>)
    ensures Unhidden(a + b) == Unhidden(a) + Unhidden(b)
  {
    if b == [] {
      assert a + b == a;
    } else {
      UnhiddenConcat(a, Init(b));
      assert Init(a + b) == a + Init(b);
    }
  }

  lemma {:induction false} UnhiddenAll(finds: seq<Find>)
    requires NoneHidden(finds)
    ensures Unhidden(finds) == finds
  {
    if finds != [] {
      assert !Hidden(finds[|finds| - 1]);
      UnhiddenAll(Init(finds));
      assert finds == Init(finds) + [Last(finds)];
    }
  }

  lemma {:induction false} UnhiddenFirst(finds: seq<Find>)
    requires finds != [] && !Hidden(finds[0])
    ensures Unhidden(finds) != [] && Unhidden(finds)[0] == finds[0]
  {
    UnhiddenConcat([finds[0]], finds[1..]);
    assert finds == [finds[0]] + finds[1..];
    assert Init([finds[0]]) == [];
  }

  /** Where `removeMeta` has stopped nothing is hidden. */
  lemma {:induction false} TooDeepToHide(s: Schema, e: int, depth: int)
    requires e <= 0
    ensures NothingHidden(s, e, depth)
    decreases depth, 1
  {
    if depth >= 0 && !IsFile(s) {
      if s.kind == Some("object") && s.properties.Some? {
        PropertiesTooDeep(s.properties.value, e, depth);
      } else if s.kind == Some("array") && (s.items.Some? || depth == 0) {
        TooDeepToHide(ItemSchema(s), e - 1, depth - 1);
      }
    }
  }

  lemma {:induction false} PropertiesTooDeep(props: seq<Property>, e: int, depth: int)
    requires depth >= 0 && e <= 0
    ensures NoneHidden(PropertyFinds(props, e, depth))
    decreases depth, 0, |props|
  {
    if props != [] {
      PropertiesTooDeep(Init(props), e, depth);
      TooDeepToHide(Last(props).schema, e - 1, depth - 1);
      NoneHiddenFront(props, e, depth);
    }
  }

  /** The search over the cleaned schema meets the same, except for what is hidden. */
  lemma {:induction false} CleanedFinds(s: Schema, e: int, depth: int)
    ensures Finds(RemoveMeta(s, e), e, depth) == Unhidden(Finds(s, e, depth))
    decreases depth, 1
  {
    if e < 0 {
      TooDeepToHide(s, e, depth);
      UnhiddenAll(Finds(s, e, depth));
    } else if depth < 0 {
    } else if IsFile(s) {
      UnhiddenOne(File);
    } else if s.kind == Some("object") {
      if s.properties.Some? {
        CleanedPropertyFinds(s.properties.value, e, depth);
      }
    } else if s.kind == Some("array") {
      if s.items.None? && depth > 0 {
        CleanedBare(s, e, depth);
      } else {
        ItemSchemaCleaned(s, e);
        CleanedFinds(ItemSchema(s), e - 1, depth - 1);
      }
    }
  }

  lemma UnhiddenOne(x: Find)
    ensures Unhidden([x]) == if Hidden(x) then [] else [x]
  {
    assert Init([x]) == [];
  }

  /** An array schema without `items` is hidden by an empty one, unless cleaning stops here. */
  lemma CleanedBare(s: Schema, e: int, depth: int)
    requires e >= 0 && depth > 0 && !IsFile(s) && s.kind == Some("array") && s.items.None?
    ensures Finds(RemoveMeta(s, e), e, depth) == Unhidden(Finds(s, e, depth))
  {
    UnhiddenOne(Bare(e));
    ItemSchemaCleaned(s, e);
    EmptySchema(e - 1);
  }

  lemma {:induction false} CleanedPropertyFinds(props: seq<Property>, e: int, depth: int)
    requires depth >= 0 && e >= 0
    ensures PropertyFinds(RemoveMetaAll(props, e), e, depth) == Unhidden(PropertyFinds(props, e, depth))
    decreases depth, 0, |props|
  {
    if props != [] {
      CleanedPropertyFinds(Init(props), e, depth);
      CleanedFinds(Last(props).schema, e - 1, depth - 1);
      UnhiddenConcat(PropertyFinds(Init(props), e, depth), Finds(Last(props).schema, e - 1, depth - 1));
      assert Init(RemoveMetaAll(props, e)) == RemoveMetaAll(Init(props), e);
    }
  }

  /** The search does not end at an array schema that cleaning hides, or it throws later all the same. */
  predicate SearchKept(s: Schema, e: int, depth: int) {
    var finds := Finds(s, e, depth);
    finds == [] || !Hidden(finds[0]) || (Unhidden(finds) != [] && Unhidden(finds)[0].Bare?)
  }

  /** Cleaning keeps what `containsFile` does, answer or exception, exactly under this condition. */
  lemma RemoveMetaSameContainsFile(s: Schema, e: int, depth: int)
    ensures ContainsFile(RemoveMeta(s, e), depth) == ContainsFile(s, depth) <==> SearchKept(s, e, depth)
    ensures NothingHidden(s, e, depth) ==> SearchKept(s, e, depth)
  {
    var finds := Finds(s, e, depth);
    SearchVerdict(s, e, depth);
    SearchVerdict(RemoveMeta(s, e), e, depth);
    CleanedFinds(s, e, depth);
    if finds != [] && !Hidden(finds[0]) {
      UnhiddenFirst(finds);
    }
  }

  /** Where nothing is hidden the cleaned schema is walked no more safely. */
  lemma {:induction false} CleanedUnsafe(s: Schema, e: int, v: Value, depth: int)
    requires NothingHidden(s, e, depth) && Safe(RemoveMeta(s, e), v, depth)
    ensures Safe(s, v, depth)
    decreases depth, 1
  {
    if e >= 0 {
      StepCleaned(s, e, v, depth);
      match StepAt(s, v, depth) {
        case Keep =>
        case Leaf =>
        case Fields(props) => CleanedUnsafeFields(props, e, v, depth);
        case Elements => CleanedUnsafeItems(s, e, v.items, depth);
      }
    }
  }

  lemma {:induction false} CleanedUnsafeFields(props: seq<Property>, e: int, v: Value, depth: int)
    requires depth >= 0 && e >= 0 && NoneHidden(PropertyFinds(props, e, depth))
    requires SafeFields(RemoveMetaAll(props, e), v, depth)
    ensures SafeFields(props, v, depth)
    decreases depth, 0, |props|
  {
    if props != [] {
      assert Init(RemoveMetaAll(props, e)) == RemoveMetaAll(Init(props), e);
      NoneHiddenFront(props, e, depth);
      CleanedUnsafeFields(Init(props), e, v, depth);
      if Own(v, Last(props).key).Some? {
        CleanedUnsafe(Last(props).schema, e - 1, Own(v, Last(props).key).value, depth - 1);
      }
    }
  }

  lemma BareIsHidden(s: Schema, e: int, depth: int)
    requires depth >= 0 && !IsFile(s) && s.kind == Some("array")
    ensures s.items.None? && depth > 0 ==> (NothingHidden(s, e, depth) <==> e <= 0)
  {
    if s.items.None? && depth > 0 {
      assert Finds(s, e, depth) == [Bare(e)] && [Bare(e)][0] == Bare(e);
    }
  }

  lemma {:induction false} CleanedUnsafeItems(s: Schema, e: int, items: seq<Value>, depth: int)
    requires depth >= 0 && e >= 0 && !IsFile(s) && s.kind == Some("array") && NothingHidden(s, e, depth)
    requires SafeItems(RemoveMeta(s, e), items, depth)
    ensures SafeItems(s, items, depth)
    decreases depth, 0, |items|
  {
    if items != [] {
      ItemSchemaCleaned(s, e);
      CleanedUnsafeItems(s, e, Init(items), depth);
      BareIsHidden(s, e, depth);
      if s.items.Some? || depth == 0 {
        CleanedUnsafe(ItemSchema(s), e - 1, Last(items), depth - 1);
      }
    }
  }

  /** A value on which a hidden array schema makes the difference. */
  lemma {:induction false} HiddenWitness(s: Schema, e: int, depth: int) returns (v: Value)
    requires UniqueKeys(s, depth) && !NothingHidden(s, e, depth)
    ensures Safe(RemoveMeta(s, e), v, depth) && !Safe(s, v, depth)
    decreases depth, 1
  {
    if e <= 0 {
      TooDeepToHide(s, e, depth);
    } else if s.kind == Some("object") {
      v := HiddenFieldWitness(s.properties.value, e, depth);
    } else {
      ItemSchemaCleaned(s, e);
      var x := Null;
      if s.items.Some? {
        x := HiddenWitness(ItemSchema(s), e - 1, depth - 1);
      }
      v := Arr([x]);
      assert Init([x]) == [];
    }
  }

  lemma {:induction false} HiddenFieldWitness(props: seq<Property>, e: int, depth: int) returns (v: Value)
    requires depth >= 0 && e > 0 && UniquePropertyKeys(props) && UniqueKeysBelow(props, depth - 1)
    requires !NoneHidden(PropertyFinds(props, e, depth))
    ensures v.Obj? && SafeFields(RemoveMetaAll(props, e), v, depth) && !SafeFields(props, v, depth)
    ensures forall k :: k in v.fields ==> Named(props, k)
    decreases depth, 0, |props|
  {
    var front := Init(props);
    assert props[|front|] == Last(props);
    NoneHiddenFront(props, e, depth);
    if !NoneHidden(PropertyFinds(front, e, depth)) {
      v := HiddenFieldWitness(front, e, depth);
      FrontDiffers(props, e, v, depth);
    } else {
      var x := HiddenWitness(Last(props).schema, e - 1, depth - 1);
      v := Obj(map[Last(props).key := x]);
      LastDiffers(props, e, x, depth);
    }
  }

  lemma FrontDiffers(props: seq<Property>, e: int, v: Value, depth: int)
    requires depth >= 0 && e >= 0 && props != [] && UniquePropertyKeys(props)
    requires v.Obj? && SafeFields(RemoveMetaAll(Init(props), e), v, depth) && !SafeFields(Init(props), v, depth)
    requires forall k :: k in v.fields ==> Named(Init(props), k)
    ensures SafeFields(RemoveMetaAll(props, e), v, depth) && !SafeFields(props, v, depth)
    ensures forall k :: k in v.fields ==> Named(props, k)
  {
    LastUnnamed(props);
    CleanedFieldsStep(props, e, v, depth);
    forall k { NamedFront(props, k); }
  }

  lemma LastDiffers(props: seq<Property>, e: int, x: Value, depth: int)
    requires depth >= 0 && e >= 0 && props != [] && UniquePropertyKeys(props)
    requires Safe(RemoveMeta(Last(props).schema, e - 1), x, depth - 1) && !Safe(Last(props).schema, x, depth - 1)
    ensures var v := Obj(map[Last(props).key := x]);
      SafeFields(RemoveMetaAll(props, e), v, depth) && !SafeFields(props, v, depth) && Named(props, Last(props).key)
  {
    LastUnnamed(props);
    NamedFront(props, Last(props).key);
    CleanedAbsent(Init(props), e, Last(props).key, x, depth);
    CleanedFieldsStep(props, e, Obj(map[Last(props).key := x]), depth);
  }

  lemma CleanedFieldsStep(props: seq<Property>, e: int, v: Value, depth: int)
    requires depth >= 0 && e >= 0 && props != []
    ensures SafeFields(RemoveMetaAll(props, e), v, depth) <==>
      SafeFields(RemoveMetaAll(Init(props), e), v, depth) &&
      (Own(v, Last(props).key).Some? ==> Safe(RemoveMeta(Last(props).schema, e - 1), Own(v, Last(props).key).value, depth - 1))
  {
    assert Init(RemoveMetaAll(props, e)) == RemoveMetaAll(Init(props), e);
  }

  lemma CleanedAbsent(props: seq<Property>, e: int, key: string, x: Value, depth: int)
    requires e >= 0 && depth >= 0 && !Named(props, key)
    ensures SafeFields(RemoveMetaAll(props, e), Obj(map[key := x]), depth)
  {
    var cleaned := RemoveMetaAll(props, e);
    CleanedKeys(props, e);
    forall i | 0 <= i < |cleaned|
      ensures Own(Obj(map[key := x]), cleaned[i].key).None?
    {
      assert cleaned[i].key == props[i].key != key;
    }
    AbsentFields(cleaned, Obj(map[key := x]), depth);
  }

  lemma {:induction false} CleanedKeys(props: seq<Property>, e: int)
    requires e >= 0
    ensures forall i :: 0 <= i < |props| ==> RemoveMetaAll(props, e)[i].key == props[i].key
  {
    if props != [] {
      CleanedKeys(Init(props), e);
    }
  }

  /** Both transforms do the same with the cleaned schema. */
  ghost predicate SameOutcomes(s: Schema, e: int, depth: int) {
    forall v, docs ::
      Outcome(NormalizeLeaf, RemoveMeta(s, e), v, docs, depth) == Outcome(NormalizeLeaf, s, v, docs, depth) &&
      Outcome(DenormalizeLeaf, RemoveMeta(s, e), v, docs, depth) == Outcome(DenormalizeLeaf, s, v, docs, depth)
  }

  /**
   Neither transform can tell a schema from its cleaned form, result or exception, if and only
   if cleaning hides no array schema without `items` within their depth.
   */
  lemma RemoveMetaSameOutcomes(s: Schema, e: int, depth: int)
    requires UniqueKeys(s, depth)
    ensures SameOutcomes(s, e, depth) <==> NothingHidden(s, e, depth)
  {
    if NothingHidden(s, e, depth) {
      forall v, docs
        ensures Outcome(NormalizeLeaf, RemoveMeta(s, e), v, docs, depth) == Outcome(NormalizeLeaf, s, v, docs, depth)
        ensures Outcome(DenormalizeLeaf, RemoveMeta(s, e), v, docs, depth) == Outcome(DenormalizeLeaf, s, v, docs, depth)
      {
        SameSafety(s, e, v, depth);
        RemoveMetaSameTransforms(s, e, v, docs, depth);
      }
    } else {
      var v := HiddenWitness(s, e, depth);
      assert Outcome(NormalizeLeaf, RemoveMeta(s, e), v, [], depth) != Outcome(NormalizeLeaf, s, v, [], depth);
    }
  }

  lemma SameSafety(s: Schema, e: int, v: Value, depth: int)
    requires NothingHidden(s, e, depth)
    ensures Safe(RemoveMeta(s, e), v, depth) <==> Safe(s, v, depth)
  {
    CleanedSafe(s, e, v, depth);
    if Safe(RemoveMeta(s, e), v, depth) {
      CleanedUnsafe(s, e, v, depth);
    }
  }

  /** With `items` declared everywhere cleaning changes nothing, at any depth. */
  lemma DeclaredHidesNothing(s: Schema, e: int, depth: int)
    requires ItemsDeclared(s, depth)
    ensures NothingHidden(s, e, depth)
  {
    FindsLevels(s, 0, e, depth);
  }

  /** The level does not matter for what is met. */
  lemma {:induction false} FindsLevels(s: Schema, d: int, e: int, depth: int)
    ensures |Finds(s, d, depth)| == |Finds(s, e, depth)|
    ensures forall i :: 0 <= i < |Finds(s, d, depth)| ==> (Finds(s, d, depth)[i].File? <==> Finds(s, e, depth)[i].File?)
    decreases depth, 1
  {
    if depth >= 0 && !IsFile(s) {
      if s.kind == Some("object") && s.properties.Some? {
        PropertyLevels(s.properties.value, d, e, depth);
      } else if s.kind == Some("array") && (s.items.Some? || depth == 0) {
        FindsLevels(ItemSchema(s), d - 1, e - 1, depth - 1);
      }
    }
  }

  lemma {:induction false} PropertyLevels(props: seq<Property>, d: int, e: int, depth: int)
    requires depth >= 0
    ensures |PropertyFinds(props, d, depth)| == |PropertyFinds(props, e, depth)|
    ensures forall i :: 0 <= i < |PropertyFinds(props, d, depth)| ==>
      (PropertyFinds(props, d, depth)[i].File? <==> PropertyFinds(props, e, depth)[i].File?)
    decreases depth, 0, |props|
  {
    if props != [] {
      PropertyLevels(Init(props), d, e, depth);
      FindsLevels(Last(props).schema, d - 1, e - 1, depth - 1);
    }
  }

  /**
   For an array schema without `items` the law stops at exceptions: the original walk throws
   on the first element, and the cleaned schema, which gained an empty `items`, does not.
   */
  lemma RemoveMetaHidesMissingItems(s: Schema, e: int, xs: seq<Value>, depth: int)
    requires !IsFile(s) && s.kind == Some("array") && s.items.None? && xs != []
    requires e > 0 && depth > 0
    ensures !Safe(s, Arr(xs), depth) && Safe(RemoveMeta(s, e), Arr(xs), depth)
    ensures ContainsFile(s, depth).Failure? && ContainsFile(RemoveMeta(s, e), depth) == Success(false)
  {
    ItemSchemaCleaned(s, e);
    EmptySchema(e - 1);
    EmptyItemsSafe(RemoveMeta(s, e), xs, depth);
  }

  lemma {:induction false} EmptyItemsSafe(s: Schema, xs: seq<Value>, depth: int)
    requires s.items == Some(EMPTY_SCHEMA) && depth >= 0
    ensures SafeItems(s, xs, depth)
    decreases |xs|
  {
    if xs != [] {
      EmptyItemsSafe(s, Init(xs), depth);
    }
  }

  // What cleaning removes and what it leaves

  datatype Turn = InProperty(i: nat) | InItems

  /** `path` leads from `s`, through properties of objects and items of arrays, to node `t`, `d` steps from the depth limit. */
  ghost predicate Inside(s: Schema, depth: int, path: seq<Turn>, t: Schema, d: int)
    decreases |path|
  {
    if path == [] then t == s && d == depth
    else
      depth >= 0 &&
      match path[0]
      case InProperty(i) =>
        s.kind == Some("object") && s.properties.Some? && i < |s.properties.value| &&
        Inside(s.properties.value[i].schema, depth - 1, path[1..], t, d)
      case InItems => s.kind == Some("array") && s.items.Some? && Inside(s.items.value, depth - 1, path[1..], t, d)
  }

  /** Node `t` without its two identifiers: every other keyword stays, and the properties keep their names. */
  ghost predicate Stripped(t: Schema, cleaned: Schema) {
    cleaned.id.None? && cleaned.schemaUri.None? &&
    cleaned.format == t.format && cleaned.kind == t.kind && cleaned.rest == t.rest &&
    (if t.kind == Some("object") && t.properties.Some? then
       cleaned.properties.Some? && |cleaned.properties.value| == |t.properties.value| &&
       forall i :: 0 <= i < |t.properties.value| ==> cleaned.properties.value[i].key == t.properties.value[i].key
     else cleaned.properties == t.properties) &&
    (if t.kind == Some("array") && t.items.Some? then cleaned.items.Some?
     else if t.kind != Some("array") then cleaned.items == t.items
     else true)
  }

  lemma {:induction false} CleanedProperty(props: seq<Property>, depth: int, i: nat)
    requires depth >= 0 && i < |props|
    ensures RemoveMetaAll(props, depth)[i] == Property(props[i].key, RemoveMeta(props[i].schema, depth - 1))
    decreases |props|
  {
    if i < |props| - 1 {
      CleanedProperty(Init(props), depth, i);
      assert Init(props)[i] == props[i];
    }
  }

  lemma StrippedNode(t: Schema, d: int)
    requires d >= 0
    ensures Stripped(t, RemoveMeta(t, d))
  {
    if t.kind == Some("object") && t.properties.Some? {
      forall i | 0 <= i < |t.properties.value| { CleanedProperty(t.properties.value, d, i); }
    }
  }

  /**
   Every node down to the depth limit is there in the cleaned schema, at the same place, without
   `$id` and `$schema` and otherwise as it was; below the limit nodes are as they were.
   */
  lemma {:induction false} RemoveMetaCleans(s: Schema, depth: int, path: seq<Turn>, t: Schema, d: int) returns (cleaned: Schema)
    requires Inside(s, depth, path, t, d)
    ensures Inside(RemoveMeta(s, depth), depth, path, cleaned, d)
    ensures if d >= 0 then Stripped(t, cleaned) else cleaned == t
    decreases |path|
  {
    if path == [] {
      cleaned := RemoveMeta(s, depth);
      if d >= 0 {
        StrippedNode(t, d);
      }
    } else if path[0].InProperty? {
      var i := path[0].i;
      CleanedProperty(s.properties.value, depth, i);
      cleaned := RemoveMetaCleans(s.properties.value[i].schema, depth - 1, path[1..], t, d);
    } else {
      cleaned := RemoveMetaCleans(s.items.value, depth - 1, path[1..], t, d);
    }
  }
}
