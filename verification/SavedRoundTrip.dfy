/**
 Normalise, save, denormalise. Saving a normalised value gives exactly what normalising the
 saved value gives, so the plain round trip applies to it.
 */
module SavedRoundTrip {
  import opened Wrappers
  import opened Sequences
  import opened Numerals
  import opened Json
  import opened References
  import opened Traversal
  import opened Documents
  import opened RoundTrip
  import opened FreshNames
  import opened SavedAttributes

  /** What the store is given: ready leaves, untagged starting rows with distinct ids, no unknown id. */
  ghost predicate Storable(vs: seq<Value>, docs: seq<Document>, db: Db) {
    LeavesReady(vs) && DistinctIds(vs) && UniqueIds(docs) && ValidDb(db) &&
    (forall doc :: doc in docs ==> "#id" !in doc) &&
    AllKnown(db, Listed(vs, docs))
  }

  function SavedList(vs: seq<Value>, docs: seq<Document>, db: Db, attributeId: int): (r: seq<Document>)
    requires AllKnown(db, Listed(vs, docs))
    ensures |r| == |Listed(vs, docs)|
  {
    UpsertAll(db, Listed(vs, docs), attributeId).1
  }

  /** Where the document of leaf `i` is in the normalised list. */
  function Position(vs: seq<Value>, docs: seq<Document>, i: nat): nat
    requires i <= |vs|
  {
    |Kept(vs, docs)| + |Stored(vs[..i], docs)|
  }

  /** The leaves after saving: an extracted leaf is now the row the store holds for it. */
  function SavedLeaves(vs: seq<Value>, docs: seq<Document>, saved: seq<Document>): (r: seq<Value>)
    ensures |r| == |vs|
  {
    seq(|vs|, i requires 0 <= i < |vs| =>
      if Extracted(vs[i]) && Position(vs, docs, i) < |saved| then Obj(saved[Position(vs, docs, i)]) else vs[i])
  }

  /** The saved rows of the starting documents that were kept. */
  function StartRows(vs: seq<Value>, docs: seq<Document>, saved: seq<Document>): seq<Document> {
    if |Kept(vs, docs)| <= |saved| then saved[..|Kept(vs, docs)|] else []
  }

  function SubstituteAll(refs: seq<Value>, listed: seq<Document>, saved: seq<Document>): (r: seq<Value>)
    requires |saved| == |listed|
    ensures |r| == |refs|
  {
    seq(|refs|, i requires 0 <= i < |refs| => Substitute(refs[i], listed, saved))
  }

  // Positions in the list

  lemma PositionOf(vs: seq<Value>, docs: seq<Document>, i: nat)
    requires LeavesReady(vs) && DistinctIds(vs) && i < |vs|
    ensures Position(vs, docs, i + 1) == Position(vs, docs, i) + if Extracted(vs[i]) then 1 else 0
    ensures Position(vs, docs, i + 1) <= |Listed(vs, docs)|
    ensures Extracted(vs[i]) ==> Listed(vs, docs)[Position(vs, docs, i)] == StoredDocument(vs[i], FreshNumber(vs, docs, i))
  {
    NormalForm(vs, docs);
    StoredPrefix(vs, docs, i);
    StoredPrefix(vs, docs, i + 1);
    assert Init(vs[..i + 1]) == vs[..i] && Last(vs[..i + 1]) == vs[i];
    if Extracted(vs[i]) {
      var n := |Stored(vs[..i], docs)|;
      assert Stored(vs, docs)[n] == Stored(vs, docs)[..n + 1][n];
    }
  }

  /** Every stored position belongs to a leaf. */
  lemma {:induction false} PositionIsLeaf(vs: seq<Value>, docs: seq<Document>, n: nat) returns (i: nat)
    requires n < |Stored(vs, docs)|
    ensures i < |vs| && Extracted(vs[i]) && |Stored(vs[..i], docs)| == n
    ensures Stored(vs, docs)[n] == StoredDocument(vs[i], FreshNumber(vs, docs, i))
  {
    var last := |vs| - 1;
    assert vs[..last] == Init(vs);
    if n < |Stored(Init(vs), docs)| {
      i := PositionIsLeaf(Init(vs), docs, n);
      assert Init(vs)[..i] == vs[..i];
    } else {
      i := last;
    }
  }

  /** No two listed documents share an id. */
  lemma ListedDistinct(vs: seq<Value>, docs: seq<Document>, db: Db, a: nat, b: nat)
    requires Storable(vs, docs, db) && a < b < |Listed(vs, docs)|
    ensures !SameId(Listed(vs, docs)[a], Listed(vs, docs)[b])
  {
    var listed, k := Listed(vs, docs), |Kept(vs, docs)|;
    NormalForm(vs, docs);
    KnownIsTruthy(db, listed[a]);
    if b < k {
      KeptUnique(vs, docs);
      assert listed[a] == Kept(vs, docs)[a] && listed[b] == Kept(vs, docs)[b];
    } else if a < k {
      KeptIsNoLeaf(vs, docs, a, b - k);
    } else {
      LeavesAreDistinct(vs, docs, a - k, b - k);
    }
  }

  /** Ids the store knows are positive numbers. */
  lemma KnownIsTruthy(db: Db, doc: Document)
    requires ValidDb(db) && Known(db, doc)
    ensures !Unsaved(doc) ==> Truthy(IdOf(doc).value)
  {
  }

  /** A stored document has its leaf's id if that is truthy, and no truthy id otherwise. */
  lemma StoredId(v: Value, number: nat)
    requires LeafReady(v) && Extracted(v)
    ensures var id := IdOf(StoredDocument(v, number));
      if SavedId(v).Some? then id == SavedId(v) else id.None? || !Truthy(id.value)
  {
  }

  /** A kept starting document has the id of no stored one. */
  lemma KeptIsNoLeaf(vs: seq<Value>, docs: seq<Document>, a: nat, n: nat)
    requires LeavesReady(vs) && a < |Kept(vs, docs)| && n < |Stored(vs, docs)|
    requires !Unsaved(Kept(vs, docs)[a]) ==> Truthy(IdOf(Kept(vs, docs)[a]).value)
    ensures !SameId(Kept(vs, docs)[a], Stored(vs, docs)[n])
  {
    var doc := Kept(vs, docs)[a];
    var j := PositionIsLeaf(vs, docs, n);
    assert doc in Kept(vs, docs);
    KeptMembers(vs, docs, doc);
    StoredId(vs[j], FreshNumber(vs, docs, j));
  }

  lemma LeavesAreDistinct(vs: seq<Value>, docs: seq<Document>, m: nat, n: nat)
    requires LeavesReady(vs) && DistinctIds(vs) && m < n < |Stored(vs, docs)|
    requires !Unsaved(Stored(vs, docs)[m]) ==> Truthy(IdOf(Stored(vs, docs)[m]).value)
    ensures !SameId(Stored(vs, docs)[m], Stored(vs, docs)[n])
  {
    var i := PositionIsLeaf(vs, docs, m);
    var j := PositionIsLeaf(vs, docs, n);
    StoredOrder(vs, docs, i, j);
    StoredId(vs[i], FreshNumber(vs, docs, i));
    StoredId(vs[j], FreshNumber(vs, docs, j));
    assert SavedId(vs[i]).Some? ==> SavedId(vs[i]) != SavedId(vs[j]);
  }

  lemma StoredOrder(vs: seq<Value>, docs: seq<Document>, i: nat, j: nat)
    requires i < |vs| && j < |vs| && |Stored(vs[..i], docs)| < |Stored(vs[..j], docs)|
    ensures i < j
  {
    assert j <= i ==> vs[..i][..j] == vs[..j];
    if j <= i {
      StoredPrefix(vs[..i], docs, j);
    }
  }

  // Substitution

  lemma TagTextInjective(s: string, t: string)
    requires TagText(Str(s)) == TagText(Str(t))
    ensures s == t
  {
    var a, b := TagText(Str(s)).value, TagText(Str(t)).value;
    assert |s| == |t| && a[15..15 + |s|] == s && b[15..15 + |t|] == t;
  }

  lemma {:induction false} SubstituteNone(v: Value, docs: seq<Document>, saved: seq<Document>)
    requires |saved| == |docs|
    requires forall i :: 0 <= i < |docs| && "#id" in docs[i] && v.Str? ==> TagText(docs[i]["#id"]) != Some(v.s)
    ensures Substitute(v, docs, saved) == v
  {
    if docs != [] {
      assert docs[|docs| - 1] == Last(docs);
      SubstituteNone(v, Init(docs), Init(saved));
    }
  }

  lemma {:induction false} SubstituteOne(s: string, docs: seq<Document>, saved: seq<Document>, p: nat)
    requires |saved| == |docs| && p < |docs|
    requires IdOf(saved[p]).Some?
    requires forall i :: 0 <= i < |docs| ==> (i == p <==> "#id" in docs[i] && TagText(docs[i]["#id"]) == Some(s))
    ensures Substitute(Str(s), docs, saved) == Str(SavedReference(IdOf(saved[p]).value))
  {
    if p < |docs| - 1 {
      assert docs[|docs| - 1] == Last(docs);
      SubstituteOne(s, Init(docs), Init(saved), p);
    }
  }

  /** The only listed document tagged for fresh leaf `i` is its own. */
  lemma OwnTag(vs: seq<Value>, docs: seq<Document>, db: Db, i: nat, p: nat)
    requires Storable(vs, docs, db) && i < |vs| && Extracted(vs[i]) && p < |Listed(vs, docs)|
    ensures var doc := Listed(vs, docs)[p];
      "#id" in doc ==> (doc["#id"].Str? &&
        (SavedId(vs[i]).None? && doc["#id"] == Str(FreshTag(FreshNumber(vs, docs, i))) ==> p == Position(vs, docs, i)))
  {
    var listed, k := Listed(vs, docs), |Kept(vs, docs)|;
    NormalForm(vs, docs);
    if p < k {
      assert listed[p] == Kept(vs, docs)[p];
      KeptMembers(vs, docs, listed[p]);
    } else {
      var j := PositionIsLeaf(vs, docs, p - k);
      if SavedId(vs[j]).None? && SavedId(vs[i]).None? {
        if i < j {
          FreshTagsDistinct(vs, docs, i, j);
        } else if j < i {
          FreshTagsDistinct(vs, docs, j, i);
        }
      }
    }
  }

  lemma InertRef(vs: seq<Value>, docs: seq<Document>, db: Db, attributeId: int, i: nat)
    requires Storable(vs, docs, db) && i < |vs| && !Extracted(vs[i])
    ensures Substitute(Refs(vs, docs)[i], Listed(vs, docs), SavedList(vs, docs, db, attributeId)) == vs[i]
  {
    RefAt(vs, docs, i);
    assert LeafReady(vs[i]);
    SubstituteNone(vs[i], Listed(vs, docs), SavedList(vs, docs, db, attributeId));
  }

  lemma SavedRef(vs: seq<Value>, docs: seq<Document>, db: Db, attributeId: int, i: nat)
    requires Storable(vs, docs, db) && i < |vs| && SavedId(vs[i]).Some?
    ensures Substitute(Refs(vs, docs)[i], Listed(vs, docs), SavedList(vs, docs, db, attributeId)) ==
            Str(SavedReference(SavedId(vs[i]).value))
  {
    var ref, n := SavedReference(SavedId(vs[i]).value), SavedId(vs[i]).value.n;
    ThreadAt(NormalizeLeaf, vs, docs, i);
    NumeralReadsBack(n, 10);
    assert ref[10] == Dec(n)[0];
    SubstituteNone(Str(ref), Listed(vs, docs), SavedList(vs, docs, db, attributeId));
  }

  lemma FreshRef(vs: seq<Value>, docs: seq<Document>, i: nat)
    requires LeavesReady(vs) && DistinctIds(vs) && i < |vs| && Extracted(vs[i]) && SavedId(vs[i]).None?
    ensures Refs(vs, docs)[i] == Str(FreshReference(FreshNumber(vs, docs, i)))
  {
    RefIs(vs, docs, i);
  }

  lemma UnsavedRef(vs: seq<Value>, docs: seq<Document>, db: Db, attributeId: int, i: nat)
    requires Storable(vs, docs, db) && i < |vs| && Extracted(vs[i]) && SavedId(vs[i]).None?
    ensures var saved, p := SavedList(vs, docs, db, attributeId), Position(vs, docs, i);
      p < |saved| && IdOf(saved[p]).Some? &&
      Substitute(Refs(vs, docs)[i], Listed(vs, docs), saved) == Str(SavedReference(IdOf(saved[p]).value))
  {
    var listed, saved, p := Listed(vs, docs), SavedList(vs, docs, db, attributeId), Position(vs, docs, i);
    var tag := FreshTag(FreshNumber(vs, docs, i));
    var ref := FreshReference(FreshNumber(vs, docs, i));
    FreshRef(vs, docs, i);
    PositionOf(vs, docs, i);
    UpsertIds(db, listed, attributeId, p);
    assert TagText(Str(tag)) == Some(ref);
    forall q | 0 <= q < |listed|
      ensures q == p <==> "#id" in listed[q] && TagText(listed[q]["#id"]) == Some(ref)
    {
      OwnTag(vs, docs, db, i, q);
      if "#id" in listed[q] && TagText(listed[q]["#id"]) == Some(ref) {
        TagTextInjective(listed[q]["#id"].s, tag);
      }
    }
    SubstituteOne(ref, listed, saved, p);
  }

  /** Substitution turns the reference of leaf `i` into the canonical reference to its row. */
  lemma SubstitutedRef(vs: seq<Value>, docs: seq<Document>, db: Db, attributeId: int, i: nat)
    requires Storable(vs, docs, db) && i < |vs| && Extracted(vs[i])
    ensures var saved, p := SavedList(vs, docs, db, attributeId), Position(vs, docs, i);
      p < |saved| && IdOf(saved[p]).Some? &&
      Substitute(Refs(vs, docs)[i], Listed(vs, docs), saved) == Str(SavedReference(IdOf(saved[p]).value))
  {
    if SavedId(vs[i]).None? {
      UnsavedRef(vs, docs, db, attributeId, i);
    } else {
      PositionOf(vs, docs, i);
      UpsertIds(db, Listed(vs, docs), attributeId, Position(vs, docs, i));
      SavedRef(vs, docs, db, attributeId, i);
    }
  }

  // The square

  /** Normalising the first `i` saved leaves from the saved starting documents. */
  lemma {:induction false} SquarePrefix(vs: seq<Value>, docs: seq<Document>, db: Db, attributeId: int, i: nat)
    requires Storable(vs, docs, db) && i <= |vs|
    ensures var listed, saved := Listed(vs, docs), SavedList(vs, docs, db, attributeId);
      var leaves, refs := SavedLeaves(vs, docs, saved), SubstituteAll(Refs(vs, docs), listed, saved);
      Position(vs, docs, i) <= |saved| &&
      Thread(NormalizeLeaf, leaves[..i], StartRows(vs, docs, saved)) == (refs[..i], saved[..Position(vs, docs, i)])
  {
    var listed, saved := Listed(vs, docs), SavedList(vs, docs, db, attributeId);
    var leaves, refs := SavedLeaves(vs, docs, saved), SubstituteAll(Refs(vs, docs), listed, saved);
    if i == 0 {
      NormalForm(vs, docs);
      assert vs[..0] == [] && leaves[..0] == [] && refs[..0] == [];
    } else {
      SquarePrefix(vs, docs, db, attributeId, i - 1);
      SquareStep(vs, docs, db, attributeId, i - 1);
      ThreadMatches(NormalizeLeaf, leaves, StartRows(vs, docs, saved), refs, i - 1,
        saved[..Position(vs, docs, i - 1)], saved[..Position(vs, docs, i)]);
    }
  }

  lemma SquareStep(vs: seq<Value>, docs: seq<Document>, db: Db, attributeId: int, i: nat)
    requires Storable(vs, docs, db) && i < |vs|
    ensures var listed, saved, p := Listed(vs, docs), SavedList(vs, docs, db, attributeId), Position(vs, docs, i);
      p <= Position(vs, docs, i + 1) <= |saved| &&
      NormalizeLeaf(SavedLeaves(vs, docs, saved)[i], saved[..p]) ==
      (Substitute(Refs(vs, docs)[i], listed, saved), saved[..Position(vs, docs, i + 1)])
  {
    PositionOf(vs, docs, i);
    if Extracted(vs[i]) {
      var saved, p := SavedList(vs, docs, db, attributeId), Position(vs, docs, i);
      SubstitutedRef(vs, docs, db, attributeId, i);
      RowAppended(vs, docs, db, attributeId, p);
      assert saved[..p + 1] == saved[..p] + [saved[p]];
    } else {
      InertRef(vs, docs, db, attributeId, i);
    }
  }

  /** Normalising a saved row appends it: no earlier row has its id. */
  lemma RowAppended(vs: seq<Value>, docs: seq<Document>, db: Db, attributeId: int, p: nat)
    requires Storable(vs, docs, db) && p < |SavedList(vs, docs, db, attributeId)|
    ensures var saved := SavedList(vs, docs, db, attributeId);
      IdOf(saved[p]).Some? &&
      NormalizeLeaf(Obj(saved[p]), saved[..p]) == (Str(SavedReference(IdOf(saved[p]).value)), saved[..p] + [saved[p]])
  {
    var listed, saved := Listed(vs, docs), SavedList(vs, docs, db, attributeId);
    UpsertIds(db, listed, attributeId, p);
    var id := IdOf(saved[p]).value;
    forall doc | doc in saved[..p]
      ensures IdOf(doc) != Some(id)
    {
      var q :| 0 <= q < p && saved[q] == doc;
      ListedDistinct(vs, docs, db, q, p);
      UpsertDistinct(db, listed, attributeId, q, p);
    }
    WithoutAbsentId(saved[..p], id);
  }

  lemma SavedRows(vs: seq<Value>, docs: seq<Document>, db: Db, attributeId: int)
    requires Storable(vs, docs, db)
    ensures var saved := SavedList(vs, docs, db, attributeId);
      (forall p :: 0 <= p < |saved| ==>
        "#id" !in saved[p] && IdOf(saved[p]).Some? && IdOf(saved[p]).value.Num? && IdOf(saved[p]).value.n > 0) &&
      forall p, q :: 0 <= p < q < |saved| ==> IdOf(saved[p]) != IdOf(saved[q])
  {
    var listed, saved := Listed(vs, docs), SavedList(vs, docs, db, attributeId);
    forall p, q | 0 <= p < q < |saved|
      ensures IdOf(saved[p]) != IdOf(saved[q])
    {
      ListedDistinct(vs, docs, db, p, q);
      UpsertDistinct(db, listed, attributeId, p, q);
    }
    forall p | 0 <= p < |saved|
      ensures "#id" !in saved[p] && IdOf(saved[p]).Some? && IdOf(saved[p]).value.Num? && IdOf(saved[p]).value.n > 0
    {
      UpsertIds(db, listed, attributeId, p);
    }
  }

  lemma SavedLeafReady(vs: seq<Value>, docs: seq<Document>, db: Db, attributeId: int, i: nat)
    requires Storable(vs, docs, db) && i < |vs|
    ensures var saved, p := SavedList(vs, docs, db, attributeId), Position(vs, docs, i);
      var leaf := SavedLeaves(vs, docs, saved)[i];
      LeafReady(leaf) &&
      if Extracted(vs[i]) then |Kept(vs, docs)| <= p < |saved| && SavedId(leaf) == IdOf(saved[p]) else SavedId(leaf).None?
  {
    assert LeafReady(vs[i]);
    if Extracted(vs[i]) {
      var saved, p := SavedList(vs, docs, db, attributeId), Position(vs, docs, i);
      PositionOf(vs, docs, i);
      SavedRows(vs, docs, db, attributeId);
      RowIsReady(saved[p]);
    }
  }

  lemma RowIsReady(row: Document)
    requires "#id" !in row && IdOf(row).Some? && IdOf(row).value.Num? && IdOf(row).value.n > 0
    ensures LeafReady(Obj(row)) && SavedId(Obj(row)) == IdOf(row)
  {
  }

  lemma PositionGrows(vs: seq<Value>, docs: seq<Document>, i: nat, j: nat)
    requires i < j <= |vs| && Extracted(vs[i])
    ensures Position(vs, docs, i) < Position(vs, docs, j)
  {
    StoredPrefix(vs[..j], docs, i + 1);
    assert vs[..j][..i + 1] == vs[..i + 1];
    assert Init(vs[..i + 1]) == vs[..i] && Last(vs[..i + 1]) == vs[i];
  }

  /** The saved leaves are ready to be read back against the saved starting documents. */
  lemma SavedReady(vs: seq<Value>, docs: seq<Document>, db: Db, attributeId: int)
    requires Storable(vs, docs, db)
    ensures var saved := SavedList(vs, docs, db, attributeId);
      var leaves, start := SavedLeaves(vs, docs, saved), StartRows(vs, docs, saved);
      Ready(leaves, start) && Kept(leaves, start) == start
  {
    var saved := SavedList(vs, docs, db, attributeId);
    var leaves, start := SavedLeaves(vs, docs, saved), StartRows(vs, docs, saved);
    SavedRows(vs, docs, db, attributeId);
    forall i | 0 <= i < |vs| { SavedLeafReady(vs, docs, db, attributeId, i); }
    forall i, j | 0 <= i < j < |vs| && SavedId(leaves[i]).Some?
      ensures SavedId(leaves[i]) != SavedId(leaves[j])
    {
      PositionGrows(vs, docs, i, j);
    }
    assert UniqueIds(start);
    UniqueStartIsReady(leaves, start);
    KeptAll(leaves, start);
  }

  lemma {:induction false} KeptAll(vs: seq<Value>, docs: seq<Document>)
    requires forall i, doc :: 0 <= i < |vs| && doc in docs && SavedId(vs[i]).Some? ==> IdOf(doc) != SavedId(vs[i])
    ensures Kept(vs, docs) == docs
  {
    if vs != [] {
      assert forall i :: 0 <= i < |vs| - 1 ==> Init(vs)[i] == vs[i];
      KeptAll(Init(vs), docs);
      if SavedId(Last(vs)).Some? {
        WithoutAbsentId(docs, SavedId(Last(vs)).value);
      }
    }
  }

  /** Normalising the saved leaves from the saved starting documents gives what saving gave. */
  lemma SavedSquare(vs: seq<Value>, docs: seq<Document>, db: Db, attributeId: int)
    requires Storable(vs, docs, db)
    ensures var listed, saved := Listed(vs, docs), SavedList(vs, docs, db, attributeId);
      var leaves, start := SavedLeaves(vs, docs, saved), StartRows(vs, docs, saved);
      Refs(leaves, start) == SubstituteAll(Refs(vs, docs), listed, saved) && Listed(leaves, start) == saved
  {
    var listed, saved := Listed(vs, docs), SavedList(vs, docs, db, attributeId);
    var leaves, refs := SavedLeaves(vs, docs, saved), SubstituteAll(Refs(vs, docs), listed, saved);
    SquarePrefix(vs, docs, db, attributeId, |vs|);
    NormalForm(vs, docs);
    assert vs[..|vs|] == vs && leaves[..|vs|] == leaves && refs[..|vs|] == refs;
    assert saved[..|saved|] == saved;
  }

  lemma LeavesSaveRoundTrip(vs: seq<Value>, docs: seq<Document>, db: Db, attributeId: int)
    requires Storable(vs, docs, db)
    ensures var listed, saved := Listed(vs, docs), SavedList(vs, docs, db, attributeId);
      Thread(DenormalizeLeaf, SubstituteAll(Refs(vs, docs), listed, saved), saved) ==
      (SavedLeaves(vs, docs, saved), StartRows(vs, docs, saved))
  {
    var saved := SavedList(vs, docs, db, attributeId);
    SavedSquare(vs, docs, db, attributeId);
    SavedReady(vs, docs, db, attributeId);
    LeavesRoundTrip(SavedLeaves(vs, docs, saved), StartRows(vs, docs, saved));
  }

  /**
   Normalise, save, denormalise: every extracted leaf comes back as its own row, the other
   leaves as they were, and what is left over are the rows of the untouched documents.
   */
  lemma SaveRoundTrip(s: Schema, v: Value, docs: seq<Document>, db: Db, attributeId: int, depth: int)
    requires UniqueKeys(s, depth)
    requires Storable(Leaves(s, v, depth), docs, db)
    ensures var leaves := Leaves(s, v, depth);
      var listed, saved := Listed(leaves, docs), SavedList(leaves, docs, db, attributeId);
      Normalized(s, v, docs, depth) == (Plug(s, v, depth, Refs(leaves, docs)), listed) &&
      Denormalized(s, Plug(s, v, depth, SubstituteAll(Refs(leaves, docs), listed, saved)), saved, depth) ==
      (Plug(s, v, depth, SavedLeaves(leaves, docs, saved)), StartRows(leaves, docs, saved))
  {
    var leaves := Leaves(s, v, depth);
    var saved := SavedList(leaves, docs, db, attributeId);
    LeavesSaveRoundTrip(leaves, docs, db, attributeId);
    PlugOfPlug(s, v, depth, SubstituteAll(Refs(leaves, docs), Listed(leaves, docs), saved), SavedLeaves(leaves, docs, saved));
  }

  /**
   The row a leaf comes back as: its id is the leaf's own, or a new one above all earlier
   ids, and a new row holds the leaf's columns.
   */
  lemma SavedLeafRow(vs: seq<Value>, docs: seq<Document>, db: Db, attributeId: int, i: nat)
    requires Storable(vs, docs, db) && i < |vs| && Extracted(vs[i])
    ensures var saved, p := SavedList(vs, docs, db, attributeId), Position(vs, docs, i);
      p < |saved| && SavedLeaves(vs, docs, saved)[i] == Obj(saved[p]) &&
      (SavedId(vs[i]).Some? ==> IdOf(saved[p]) == SavedId(vs[i])) &&
      (SavedId(vs[i]).None? ==> IdOf(saved[p]).Some? && IdOf(saved[p]).value.Num? && IdOf(saved[p]).value.n >= db.nextId) &&
      forall k :: k in vs[i].fields && k in COLUMNS && k != "id" && k != "attributeId" ==>
        k in saved[p] && saved[p][k] == vs[i].fields[k]
  {
    var listed, p := Listed(vs, docs), Position(vs, docs, i);
    PositionOf(vs, docs, i);
    UpsertIds(db, listed, attributeId, p);
    assert Known(db, listed[p]);
    UpsertColumns(db, listed, attributeId, p);
  }

  lemma {:induction false} UpsertColumns(db: Db, docs: seq<Document>, attributeId: int, p: nat)
    requires AllKnown(db, docs) && p < |docs|
    ensures forall k :: k in docs[p] && k in COLUMNS && k != "id" && k != "attributeId" ==>
      k in UpsertAll(db, docs, attributeId).1[p] && UpsertAll(db, docs, attributeId).1[p][k] == docs[p][k]
  {
    var last := |docs| - 1;
    assert forall i :: 0 <= i < last ==> Init(docs)[i] == docs[i];
    assert Known(db, docs[last]);
    if p < last {
      UpsertColumns(db, Init(docs), attributeId, p);
    }
  }
}
