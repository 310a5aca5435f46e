/**
 Normalising and then denormalising: exactly when the original value and the untouched
 part of the document list come back.
 */
module RoundTrip {
  import opened Wrappers
  import opened Sequences
  import opened Numerals
  import opened Json
  import opened References
  import opened Traversal
  import opened Documents

  /** The starting documents that no saved leaf replaces. */
  function Kept(vs: seq<Value>, docs: seq<Document>): seq<Document> {
    if vs == [] then docs
    else match SavedId(Last(vs))
      case Some(id) => WithoutId(Kept(Init(vs), docs), id)
      case None => Kept(Init(vs), docs)
  }

  /** What is stored for the extracted leaves, in order. */
  function Stored(vs: seq<Value>, docs: seq<Document>): seq<Document> {
    if vs == [] then []
    else if !Extracted(Last(vs)) then Stored(Init(vs), docs)
    else Stored(Init(vs), docs) + [StoredDocument(Last(vs), |Kept(Init(vs), docs)| + |Stored(Init(vs), docs)|)]
  }

  function StoredDocument(v: Value, number: nat): Document {
    if SavedId(v).Some? then Spread(v) else Spread(v)["#id" := Str(FreshTag(number))]
  }

  /** The number a fresh tag gets at leaf `i`: the length of the list at that point. */
  function FreshNumber(vs: seq<Value>, docs: seq<Document>, i: nat): nat
    requires i < |vs|
  {
    |Kept(vs[..i], docs)| + |Stored(vs[..i], docs)|
  }

  /** The key under which leaf `i` will be looked up again. */
  function KeyOf(vs: seq<Value>, docs: seq<Document>, i: nat): string
    requires i < |vs|
  {
    match SavedId(vs[i])
    case Some(id) => Text(id)
    case None => FreshTag(FreshNumber(vs, docs, i))
  }

  /**
   A file leaf that can be read back: no string, no array, no stray tag, and an `id` that
   is falsy or a positive number.
   */
  predicate LeafReady(v: Value) {
    (v.Str? ==> v.s == "") &&
    (v.Arr? ==> v.items == []) &&
    (v.Obj? ==> "#id" !in v.fields) &&
    (SavedId(v).Some? ==> SavedId(v).value.Num? && SavedId(v).value.n > 0)
  }

  ghost predicate LeavesReady(vs: seq<Value>) {
    forall i :: 0 <= i < |vs| ==> LeafReady(vs[i])
  }

  ghost predicate DistinctKeys(vs: seq<Value>, docs: seq<Document>) {
    forall i, j :: 0 <= i < j < |vs| && Extracted(vs[i]) && Extracted(vs[j]) ==> KeyOf(vs, docs, i) != KeyOf(vs, docs, j)
  }

  ghost predicate KeptMissed(vs: seq<Value>, docs: seq<Document>) {
    forall i, doc :: 0 <= i < |vs| && Extracted(vs[i]) && doc in Kept(vs, docs) ==> !Hits(doc, KeyOf(vs, docs, i))
  }

  /** What a caller can check beforehand, on the leaves and the starting list alone. */
  ghost predicate Ready(vs: seq<Value>, docs: seq<Document>) {
    LeavesReady(vs) && DistinctKeys(vs, docs) && KeptMissed(vs, docs)
  }

  ghost predicate DistinctIds(vs: seq<Value>) {
    forall i, j :: 0 <= i < j < |vs| && SavedId(vs[i]).Some? ==> SavedId(vs[i]) != SavedId(vs[j])
  }

  function Refs(vs: seq<Value>, docs: seq<Document>): seq<Value> {
    Thread(NormalizeLeaf, vs, docs).0
  }

  function Listed(vs: seq<Value>, docs: seq<Document>): seq<Document> {
    Thread(NormalizeLeaf, vs, docs).1
  }

  /** The list as the denormaliser sees it before leaf `i`. */
  function Remaining(vs: seq<Value>, docs: seq<Document>, i: nat): seq<Document>
    requires i <= |vs|
  {
    Thread(DenormalizeLeaf, Refs(vs, docs)[..i], Listed(vs, docs)).1
  }

  function Back(vs: seq<Value>, docs: seq<Document>): (seq<Value>, seq<Document>) {
    Thread(DenormalizeLeaf, Refs(vs, docs), Listed(vs, docs))
  }

  // The shape of the normalised list

  lemma {:induction false} StoredMember(vs: seq<Value>, docs: seq<Document>, doc: Document)
    requires doc in Stored(vs, docs)
    ensures exists j :: 0 <= j < |vs| && Extracted(vs[j]) && doc == StoredDocument(vs[j], FreshNumber(vs, docs, j))
  {
    var last := |vs| - 1;
    assert vs[..last] == Init(vs);
    if doc in Stored(Init(vs), docs) {
      StoredMember(Init(vs), docs, doc);
      var j :| 0 <= j < last && Extracted(Init(vs)[j]) && doc == StoredDocument(Init(vs)[j], FreshNumber(Init(vs), docs, j));
      assert Init(vs)[..j] == vs[..j];
      assert doc == StoredDocument(vs[j], FreshNumber(vs, docs, j));
    } else {
      assert doc == StoredDocument(vs[last], FreshNumber(vs, docs, last));
    }
  }

  /** No document stored so far has the id of the last leaf. */
  lemma NewIdIsAbsent(vs: seq<Value>, docs: seq<Document>)
    requires LeavesReady(vs) && DistinctIds(vs) && vs != [] && SavedId(Last(vs)).Some?
    ensures forall doc :: doc in Stored(Init(vs), docs) ==> IdOf(doc) != SavedId(Last(vs))
  {
    var front := Init(vs);
    forall doc | doc in Stored(front, docs)
      ensures IdOf(doc) != SavedId(Last(vs))
    {
      StoredMember(front, docs, doc);
      var j :| 0 <= j < |front| && Extracted(front[j]) && doc == StoredDocument(front[j], FreshNumber(front, docs, j));
      assert vs[j] == front[j];
      assert SavedId(vs[j]).Some? ==> SavedId(vs[j]) != SavedId(vs[|vs| - 1]);
    }
  }

  lemma {:induction false} NormalForm(vs: seq<Value>, docs: seq<Document>)
    requires LeavesReady(vs) && DistinctIds(vs)
    ensures Listed(vs, docs) == Kept(vs, docs) + Stored(vs, docs)
  {
    if vs != [] {
      var v, front := Last(vs), Init(vs);
      assert forall i :: 0 <= i < |front| ==> front[i] == vs[i];
      NormalForm(front, docs);
      if SavedId(v).Some? {
        var id := SavedId(v).value;
        NewIdIsAbsent(vs, docs);
        WithoutAbsentId(Stored(front, docs), id);
        WithoutIdAppend(Kept(front, docs), Stored(front, docs), id);
      }
    }
  }

  /** Leaf `i` is replaced by a reference that reads back as its key. */
  lemma RefAt(vs: seq<Value>, docs: seq<Document>, i: nat)
    requires LeavesReady(vs) && DistinctIds(vs) && i < |vs|
    ensures !Extracted(vs[i]) ==> Refs(vs, docs)[i] == vs[i]
    ensures Extracted(vs[i]) ==>
      Refs(vs, docs)[i].Str? && ReferenceKey(Refs(vs, docs)[i].s) == Some(KeyOf(vs, docs, i))
  {
    RefIs(vs, docs, i);
    if Extracted(vs[i]) {
      match SavedId(vs[i])
      case Some(id) => SavedReferenceKey(id.n);
      case None => FreshReferenceKey(FreshNumber(vs, docs, i));
    }
  }

  /** What leaf `i` is replaced by. */
  lemma RefIs(vs: seq<Value>, docs: seq<Document>, i: nat)
    requires LeavesReady(vs) && DistinctIds(vs) && i < |vs|
    ensures Refs(vs, docs)[i] ==
      if !Extracted(vs[i]) then vs[i]
      else match SavedId(vs[i])
        case Some(id) => Str(SavedReference(id))
        case None => Str(FreshReference(FreshNumber(vs, docs, i)))
  {
    ThreadAt(NormalizeLeaf, vs, docs, i);
    assert forall j :: 0 <= j < i ==> vs[..i][j] == vs[j];
    NormalForm(vs[..i], docs);
  }

  /** A stored document is found by its own key, and by no other leaf's. */
  lemma StoredHits(vs: seq<Value>, docs: seq<Document>, i: nat, j: nat)
    requires LeavesReady(vs) && DistinctKeys(vs, docs)
    requires i < |vs| && j < |vs| && Extracted(vs[i]) && Extracted(vs[j])
    ensures Hits(StoredDocument(vs[i], FreshNumber(vs, docs, i)), KeyOf(vs, docs, j)) <==> i == j
  {
    var doc, key := StoredDocument(vs[i], FreshNumber(vs, docs, i)), KeyOf(vs, docs, j);
    assert i != j ==> KeyOf(vs, docs, i) != key;
    match SavedId(vs[j])
    case Some(id) =>
      NumeralReadsBack(id.n, 10);
      assert !IsDigit(FreshTag(FreshNumber(vs, docs, i))[0], 10);
    case None =>
      assert !IsDigit(key[0], 10);
      assert !IsNumeral(key, 10);
  }

  lemma {:induction false} StoredPrefix(vs: seq<Value>, docs: seq<Document>, i: nat)
    requires i <= |vs|
    ensures |Stored(vs[..i], docs)| <= |Stored(vs, docs)|
    ensures Stored(vs, docs)[..|Stored(vs[..i], docs)|] == Stored(vs[..i], docs)
  {
    if i < |vs| {
      StoredPrefix(Init(vs), docs, i);
      assert Init(vs)[..i] == vs[..i];
    } else {
      assert vs[..i] == vs;
    }
  }

  /** The stored documents of the leaves from `i` on. */
  function StoredFrom(vs: seq<Value>, docs: seq<Document>, i: nat): seq<Document>
    requires i <= |vs|
  {
    var n := |Stored(vs[..i], docs)|;
    if n <= |Stored(vs, docs)| then Stored(vs, docs)[n..] else []
  }

  lemma StoredFromStep(vs: seq<Value>, docs: seq<Document>, i: nat)
    requires i < |vs|
    ensures StoredFrom(vs, docs, i) ==
      (if Extracted(vs[i]) then [StoredDocument(vs[i], FreshNumber(vs, docs, i))] else []) + StoredFrom(vs, docs, i + 1)
  {
    var stored, n := Stored(vs, docs), |Stored(vs[..i], docs)|;
    StoredPrefix(vs, docs, i);
    StoredPrefix(vs, docs, i + 1);
    StoredNext(vs, docs, i);
    if Extracted(vs[i]) {
      assert stored[n] == stored[..n + 1][n];
      assert stored[n..] == [stored[n]] + stored[n + 1..];
    } else {
      assert [] + stored[n..] == stored[n..];
    }
  }

  /** One more leaf stores at most one more document. */
  lemma StoredNext(vs: seq<Value>, docs: seq<Document>, i: nat)
    requires i < |vs|
    ensures Stored(vs[..i + 1], docs) ==
      Stored(vs[..i], docs) + if Extracted(vs[i]) then [StoredDocument(vs[i], FreshNumber(vs, docs, i))] else []
  {
    assert Init(vs[..i + 1]) == vs[..i] && Last(vs[..i + 1]) == vs[i];
    assert Stored(vs[..i], docs) + [] == Stored(vs[..i], docs);
  }

  lemma {:induction false} StoredFromMember(vs: seq<Value>, docs: seq<Document>, i: nat, doc: Document)
    requires i <= |vs| && doc in StoredFrom(vs, docs, i)
    ensures exists j :: i <= j < |vs| && Extracted(vs[j]) && doc == StoredDocument(vs[j], FreshNumber(vs, docs, j))
    decreases |vs| - i
  {
    assert vs[..|vs|] == vs;
    if i < |vs| {
      StoredFromStep(vs, docs, i);
      if doc in StoredFrom(vs, docs, i + 1) {
        StoredFromMember(vs, docs, i + 1, doc);
      }
    }
  }

  // Ready leaves come back

  lemma KeysGiveIds(vs: seq<Value>, docs: seq<Document>)
    requires LeavesReady(vs) && DistinctKeys(vs, docs)
    ensures DistinctIds(vs)
  {
    forall i, j | 0 <= i < j < |vs| && SavedId(vs[i]).Some?
      ensures SavedId(vs[i]) != SavedId(vs[j])
    {
      assert Extracted(vs[j]) ==> KeyOf(vs, docs, i) != KeyOf(vs, docs, j);
    }
  }

  lemma LaterMiss(vs: seq<Value>, docs: seq<Document>, i: nat, d: Document)
    requires Ready(vs, docs) && i < |vs| && Extracted(vs[i]) && d in StoredFrom(vs, docs, i + 1)
    ensures !Hits(d, KeyOf(vs, docs, i))
  {
    StoredFromMember(vs, docs, i + 1, d);
    var j :| i + 1 <= j < |vs| && Extracted(vs[j]) && d == StoredDocument(vs[j], FreshNumber(vs, docs, j));
    StoredHits(vs, docs, j, i);
  }

  /** The list before leaf `i` holds exactly one document under its key. */
  lemma OwnHit(vs: seq<Value>, docs: seq<Document>, i: nat)
    requires Ready(vs, docs) && i < |vs| && Extracted(vs[i])
    ensures var key, list := KeyOf(vs, docs, i), Kept(vs, docs) + StoredFrom(vs, docs, i);
      FirstHit(list, key) == Some(StoredDocument(vs[i], FreshNumber(vs, docs, i))) &&
      Missed(list, key) == Kept(vs, docs) + StoredFrom(vs, docs, i + 1)
  {
    var key, doc := KeyOf(vs, docs, i), StoredDocument(vs[i], FreshNumber(vs, docs, i));
    var kept, after := Kept(vs, docs), StoredFrom(vs, docs, i + 1);
    StoredFromStep(vs, docs, i);
    StoredHits(vs, docs, i, i);
    forall d | d in after
      ensures !Hits(d, key)
    {
      LaterMiss(vs, docs, i, d);
    }
    OneHit(kept, doc, after, key);
    assert kept + ([doc] + after) == kept + [doc] + after;
  }

  /** Looking up an extracted leaf returns its value and removes its stored document only. */
  lemma ReadyFile(vs: seq<Value>, docs: seq<Document>, i: nat)
    requires Ready(vs, docs) && i < |vs| && Extracted(vs[i])
    ensures DenormalizeLeaf(Refs(vs, docs)[i], Kept(vs, docs) + StoredFrom(vs, docs, i)) ==
            (vs[i], Kept(vs, docs) + StoredFrom(vs, docs, i + 1))
  {
    var list, doc := Kept(vs, docs) + StoredFrom(vs, docs, i), StoredDocument(vs[i], FreshNumber(vs, docs, i));
    KeysGiveIds(vs, docs);
    RefAt(vs, docs, i);
    OwnHit(vs, docs, i);
    LookedUp(Refs(vs, docs)[i].s, KeyOf(vs, docs, i), list, doc);
    StoredIsLeaf(vs[i], FreshNumber(vs, docs, i));
  }

  lemma StoredIsLeaf(v: Value, number: nat)
    requires LeafReady(v) && Extracted(v)
    ensures Obj(Untagged(StoredDocument(v, number))) == v
  {
    assert Untagged(StoredDocument(v, number)) == v.fields;
  }

  lemma ReadyStep(vs: seq<Value>, docs: seq<Document>, i: nat)
    requires Ready(vs, docs) && i < |vs|
    ensures DenormalizeLeaf(Refs(vs, docs)[i], Kept(vs, docs) + StoredFrom(vs, docs, i)) ==
            (vs[i], Kept(vs, docs) + StoredFrom(vs, docs, i + 1))
  {
    if Extracted(vs[i]) {
      ReadyFile(vs, docs, i);
    } else {
      KeysGiveIds(vs, docs);
      RefAt(vs, docs, i);
      assert LeafReady(vs[i]);
      StoredFromStep(vs, docs, i);
      assert [] + StoredFrom(vs, docs, i + 1) == StoredFrom(vs, docs, i + 1);
    }
  }

  /** A reference whose key hits `doc` is replaced by it. */
  lemma LookedUp(s: string, key: string, list: seq<Document>, doc: Document)
    requires ReferenceKey(s) == Some(key) && FirstHit(list, key) == Some(doc)
    ensures DenormalizeLeaf(Str(s), list) == (Obj(Untagged(doc)), Missed(list, key))
  {
  }

  lemma ReadyStart(vs: seq<Value>, docs: seq<Document>)
    requires LeavesReady(vs) && DistinctIds(vs)
    ensures Listed(vs, docs) == Kept(vs, docs) + StoredFrom(vs, docs, 0)
  {
    NormalForm(vs, docs);
    assert vs[..0] == [];
    assert Stored(vs, docs)[0..] == Stored(vs, docs);
  }

  /** After `i` leaves the original leaves are back and only later stored documents remain. */
  lemma {:induction false} ReadyPrefix(vs: seq<Value>, docs: seq<Document>, i: nat)
    requires Ready(vs, docs) && i <= |vs|
    ensures Thread(DenormalizeLeaf, Refs(vs, docs)[..i], Listed(vs, docs)) == (vs[..i], Kept(vs, docs) + StoredFrom(vs, docs, i))
  {
    var refs, listed, kept := Refs(vs, docs), Listed(vs, docs), Kept(vs, docs);
    if i == 0 {
      KeysGiveIds(vs, docs);
      ReadyStart(vs, docs);
      assert refs[..0] == [] && vs[..0] == [];
    } else {
      ReadyPrefix(vs, docs, i - 1);
      ReadyStep(vs, docs, i - 1);
      ThreadMatches(DenormalizeLeaf, refs, listed, vs, i - 1, kept + StoredFrom(vs, docs, i - 1), kept + StoredFrom(vs, docs, i));
    }
  }

  // Leaves that come back were ready

  lemma {:induction false} RemainingShrinks(vs: seq<Value>, docs: seq<Document>, i: nat, j: nat, doc: Document)
    requires i <= j <= |vs| && doc in Remaining(vs, docs, j)
    ensures doc in Remaining(vs, docs, i)
    decreases j - i
  {
    var refs := Refs(vs, docs);
    if i < j {
      assert Init(refs[..j]) == refs[..j - 1];
      if refs[j - 1].Str? && ReferenceKey(refs[j - 1].s).Some? {
        MissedMembers(Remaining(vs, docs, j - 1), ReferenceKey(refs[j - 1].s).value, doc);
      }
      RemainingShrinks(vs, docs, i, j - 1, doc);
    }
  }

  /** Once a leaf has been looked up, nothing in the list answers to its key any more. */
  lemma ConsumedKey(vs: seq<Value>, docs: seq<Document>, i: nat, j: nat, key: string, doc: Document)
    requires i < j <= |vs| && doc in Remaining(vs, docs, j)
    requires Refs(vs, docs)[i].Str? && Refs(vs, docs)[i].s != "" && ReferenceKey(Refs(vs, docs)[i].s) == Some(key)
    ensures !Hits(doc, key)
  {
    var refs := Refs(vs, docs);
    RemainingShrinks(vs, docs, i + 1, j, doc);
    assert Init(refs[..i + 1]) == refs[..i] && Last(refs[..i + 1]) == refs[i];
    MissedMembers(Remaining(vs, docs, i), key, doc);
  }

  /** A leaf that came back is not a string, not an array and carries no tag. */
  lemma ShapeBack(vs: seq<Value>, docs: seq<Document>, i: nat)
    requires Back(vs, docs).0 == vs && i < |vs|
    ensures (vs[i].Str? ==> vs[i].s == "") && (vs[i].Arr? ==> vs[i].items == []) && (vs[i].Obj? ==> "#id" !in vs[i].fields)
  {
    ThreadAt(NormalizeLeaf, vs, docs, i);
    ThreadAt(DenormalizeLeaf, Refs(vs, docs), Listed(vs, docs), i);
  }

  /** An extracted leaf that came back was found in the list under its reference's key. */
  lemma FoundBack(vs: seq<Value>, docs: seq<Document>, i: nat) returns (key: string, doc: Document)
    requires Back(vs, docs).0 == vs && i < |vs| && Extracted(vs[i])
    ensures Refs(vs, docs)[i].Str? && Refs(vs, docs)[i].s != "" && ReferenceKey(Refs(vs, docs)[i].s) == Some(key)
    ensures doc in Remaining(vs, docs, i) && Hits(doc, key) && Obj(Untagged(doc)) == vs[i]
  {
    var refs := Refs(vs, docs);
    ThreadAt(NormalizeLeaf, vs, docs, i);
    ThreadAt(DenormalizeLeaf, refs, Listed(vs, docs), i);
    key := ReferenceKey(refs[i].s).value;
    FirstHitMember(Remaining(vs, docs, i), key);
    doc := FirstHit(Remaining(vs, docs, i), key).value;
  }

  ghost predicate Untaggeds(vs: seq<Value>) {
    forall i :: 0 <= i < |vs| ==> (vs[i].Arr? ==> vs[i].items == []) && (vs[i].Obj? ==> "#id" !in vs[i].fields)
  }

  /** In the normalised list, documents under a saved leaf's id carry no tag. */
  lemma {:induction false} SavedAreUntagged(vs: seq<Value>, docs: seq<Document>, i: nat, doc: Document)
    requires Untaggeds(vs) && i < |vs| && SavedId(vs[i]).Some?
    requires doc in Listed(vs, docs) && IdOf(doc) == SavedId(vs[i])
    ensures "#id" !in doc
  {
    var v, front := Last(vs), Init(vs);
    assert forall j :: 0 <= j < |front| ==> front[j] == vs[j];
    if SavedId(v).Some? {
      WithoutIdMembers(Listed(front, docs), SavedId(v).value, doc);
    }
    if doc in Listed(front, docs) && i < |front| {
      SavedAreUntagged(front, docs, i, doc);
    }
  }

  lemma BackNeedsReadyLeaf(vs: seq<Value>, docs: seq<Document>, i: nat)
    requires Back(vs, docs).0 == vs && i < |vs|
    ensures LeafReady(vs[i])
  {
    forall j | 0 <= j < |vs| { ShapeBack(vs, docs, j); }
    if SavedId(vs[i]).Some? {
      var key, doc := FoundBack(vs, docs, i);
      RemainingShrinks(vs, docs, 0, i, doc);
      assert Refs(vs, docs)[..0] == [];
      SavedAreUntagged(vs, docs, i, doc);
    }
  }

  lemma BackNeedsDistinct(vs: seq<Value>, docs: seq<Document>)
    requires Back(vs, docs).0 == vs
    ensures LeavesReady(vs) && DistinctIds(vs) && DistinctKeys(vs, docs)
  {
    forall i | 0 <= i < |vs| { BackNeedsReadyLeaf(vs, docs, i); }
    forall i, j | 0 <= i < j < |vs| && SavedId(vs[i]).Some?
      ensures SavedId(vs[i]) != SavedId(vs[j])
    {
      if SavedId(vs[i]) == SavedId(vs[j]) {
        ThreadAt(NormalizeLeaf, vs, docs, i);
        ThreadAt(NormalizeLeaf, vs, docs, j);
        var key, doc := FoundBack(vs, docs, j);
        ConsumedKey(vs, docs, i, j, key, doc);
      }
    }
    forall i, j | 0 <= i < j < |vs| && Extracted(vs[i]) && Extracted(vs[j])
      ensures KeyOf(vs, docs, i) != KeyOf(vs, docs, j)
    {
      var key, doc := FoundBack(vs, docs, j);
      RefAt(vs, docs, i);
      RefAt(vs, docs, j);
      if KeyOf(vs, docs, i) == KeyOf(vs, docs, j) {
        ConsumedKey(vs, docs, i, j, key, doc);
      }
    }
  }

  lemma ReadyGivesBack(vs: seq<Value>, docs: seq<Document>)
    requires Ready(vs, docs)
    ensures Back(vs, docs) == (vs, Kept(vs, docs))
  {
    ReadyPrefix(vs, docs, |vs|);
    assert Refs(vs, docs)[..|vs|] == Refs(vs, docs) && vs[..|vs|] == vs;
    assert StoredFrom(vs, docs, |vs|) == [];
    assert Kept(vs, docs) + [] == Kept(vs, docs);
  }

  lemma BackNeedsKeptMissed(vs: seq<Value>, docs: seq<Document>, i: nat, doc: Document)
    requires Back(vs, docs) == (vs, Kept(vs, docs))
    requires i < |vs| && Extracted(vs[i]) && doc in Kept(vs, docs)
    ensures !Hits(doc, KeyOf(vs, docs, i))
  {
    BackNeedsDistinct(vs, docs);
    assert Refs(vs, docs)[..|vs|] == Refs(vs, docs);
    RefAt(vs, docs, i);
    ConsumedKey(vs, docs, i, |vs|, KeyOf(vs, docs, i), doc);
  }

  /** On the list of leaves: everything comes back exactly when the leaves are ready. */
  lemma LeavesRoundTrip(vs: seq<Value>, docs: seq<Document>)
    ensures Back(vs, docs) == (vs, Kept(vs, docs)) <==> Ready(vs, docs)
  {
    if Ready(vs, docs) {
      ReadyGivesBack(vs, docs);
    }
    if Back(vs, docs) == (vs, Kept(vs, docs)) {
      BackNeedsDistinct(vs, docs);
      forall i, doc | 0 <= i < |vs| && Extracted(vs[i]) && doc in Kept(vs, docs)
        ensures !Hits(doc, KeyOf(vs, docs, i))
      {
        BackNeedsKeptMissed(vs, docs, i, doc);
      }
    }
  }

  /**
   Denormalising a normalised value gives back the value on its declared keys and the
   starting documents no leaf replaced, if and only if the file leaves are ready.
   */
  lemma NormalizeThenDenormalize(s: Schema, v: Value, docs: seq<Document>, depth: int)
    requires UniqueKeys(s, depth)
    ensures var (value, listed) := Normalized(s, v, docs, depth);
      Denormalized(s, value, listed, depth) == (Project(s, v, depth), Kept(Leaves(s, v, depth), docs)) <==>
      Ready(Leaves(s, v, depth), docs)
  {
    var leaves := Leaves(s, v, depth);
    var refs := Refs(leaves, docs);
    PlugOfPlug(s, v, depth, refs, Back(leaves, docs).0);
    PlugInjective(s, v, depth, Back(leaves, docs).0, leaves);
    LeavesRoundTrip(leaves, docs);
  }
}
