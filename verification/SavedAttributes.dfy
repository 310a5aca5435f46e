/**
 Saving a normalised attribute (src/main/identity/id-attribute.js:63-100): the store gives
 every unsaved document an id and substitutes it for the document's `#ref`.
 */
module SavedAttributes {
  import opened Wrappers
  import opened Sequences
  import opened Json
  import opened References
  import opened Documents

  /** The columns of the document table; other properties are not stored. */
  const COLUMNS := {"id", "name", "mimeType", "size", "buffer", "attributeId"}

  datatype Db = Db(rows: map<int, Document>, nextId: int)

  ghost predicate ValidDb(db: Db) {
    db.nextId > 0 &&
    forall id :: id in db.rows ==> 0 < id < db.nextId && IdOf(db.rows[id]) == Some(Num(id)) && "#id" !in db.rows[id]
  }

  /** The document has no id yet, so the store will assign one. */
  predicate Unsaved(doc: Document) {
    IdOf(doc).None? || IdOf(doc) == Some(Null)
  }

  predicate Known(db: Db, doc: Document) {
    Unsaved(doc) || (IdOf(doc).value.Num? && IdOf(doc).value.n in db.rows)
  }

  function Columns(doc: Document): Document {
    map k | k in doc && k in COLUMNS :: doc[k]
  }

  /** Insert an unsaved document, or overwrite the given columns of an existing row. */
  function Upsert(db: Db, doc: Document, attributeId: int): (Db, Document)
    requires Known(db, doc)
  {
    if Unsaved(doc) then
      var row := Columns(doc)["id" := Num(db.nextId)]["attributeId" := Num(attributeId)];
      (Db(db.rows[db.nextId := row], db.nextId + 1), row)
    else
      var id := IdOf(doc).value.n;
      var row := (db.rows[id] + Columns(doc))["attributeId" := Num(attributeId)];
      (Db(db.rows[id := row], db.nextId), row)
  }

  ghost predicate AllKnown(db: Db, docs: seq<Document>) {
    forall i :: 0 <= i < |docs| ==> Known(db, docs[i])
  }

  function UpsertAll(db: Db, docs: seq<Document>, attributeId: int): (r: (Db, seq<Document>))
    requires AllKnown(db, docs)
    ensures db.rows.Keys <= r.0.rows.Keys && |r.1| == |docs|
  {
    if docs == [] then (db, [])
    else
      assert forall i :: 0 <= i < |docs| - 1 ==> Init(docs)[i] == docs[i];
      var (mid, saved) := UpsertAll(db, Init(docs), attributeId);
      assert Known(db, docs[|docs| - 1]);
      var (end, row) := Upsert(mid, Last(docs), attributeId);
      (end, saved + [row])
  }

  /** The upserts one after the other; an id unknown at its turn ends them. */
  function UpsertEach(db: Db, docs: seq<Document>, attributeId: int): Option<(Db, seq<Document>)> {
    if docs == [] then Some((db, []))
    else match UpsertEach(db, Init(docs), attributeId)
      case None => None
      case Some((mid, saved)) =>
        if !Known(mid, Last(docs)) then None
        else
          var (end, row) := Upsert(mid, Last(docs), attributeId);
          Some((end, saved + [row]))
  }

  /** An id the store does not know is only known at its turn if the store hands it out before. */
  lemma {:induction false} EachKnown(db: Db, docs: seq<Document>, attributeId: int)
    ensures AllKnown(db, docs) ==> UpsertEach(db, docs, attributeId) == Some(UpsertAll(db, docs, attributeId))
    ensures UpsertEach(db, docs, attributeId).Some? ==> forall i :: 0 <= i < |docs| ==>
      Known(db, docs[i]) || (IdOf(docs[i]).value.Num? && db.nextId <= IdOf(docs[i]).value.n)
    ensures UpsertEach(db, docs, attributeId).Some? ==> var end := UpsertEach(db, docs, attributeId).value.0;
      db.nextId <= end.nextId && forall id :: id in end.rows ==> id in db.rows || db.nextId <= id
  {
    if docs != [] {
      assert forall i :: 0 <= i < |docs| - 1 ==> Init(docs)[i] == docs[i];
      EachKnown(db, Init(docs), attributeId);
      if AllKnown(db, docs) {
        assert Known(db, docs[|docs| - 1]);
      }
    }
  }

  /** The reference to tag `tag`, as the store recognises it. */
  function TagText(tag: Value): Option<string> {
    if tag.Str? then Some(ID_PREFIX + "#ref{" + tag.s + ".id}") else None
  }

  /** A leaf with the reference to a tagged document replaced by the id that document got. */
  function Substitute(v: Value, docs: seq<Document>, saved: seq<Document>): Value
    requires |saved| == |docs|
  {
    if docs == [] then v
    else
      var doc, row := Last(docs), Last(saved);
      if "#id" in doc && v.Str? && TagText(doc["#id"]) == Some(v.s) && IdOf(row).Some? then Str(SavedReference(IdOf(row).value))
      else Substitute(v, Init(docs), Init(saved))
  }

  /** The table of documents: ids only grow, so a new one is never reused. */
  class DocumentStore {
    var rows: map<int, Document>
    var nextId: int

    ghost predicate Valid()
      reads this
    {
      ValidDb(Contents())
    }

    function Contents(): Db
      reads this
    {
      Db(rows, nextId)
    }

    constructor ()
      ensures Valid() && Contents() == Db(map[], 1)
    {
      rows, nextId := map[], 1;
    }

    /** The upserts of `IdAttribute.update`, in the order of the list; an unknown id rolls everything back. */
    method UpdateDocuments(docs: seq<Document>, attributeId: int) returns (r: Result<seq<Document>>)
      requires Valid()
      modifies this
      ensures Valid()
      ensures match UpsertEach(old(Contents()), docs, attributeId)
        case None => r == Failure(NotFound) && Contents() == old(Contents())
        case Some((end, saved)) => r == Success(saved) && Contents() == end
      ensures AllKnown(old(Contents()), docs) ==>
        r == Success(UpsertAll(old(Contents()), docs, attributeId).1) &&
        Contents() == UpsertAll(old(Contents()), docs, attributeId).0
    {
      var rows0, nextId0 := rows, nextId;
      var saved: seq<Document> := [];
      EachKnown(Contents(), docs, attributeId);
      for i := 0 to |docs|
        invariant Valid()
        invariant UpsertEach(old(Contents()), docs[..i], attributeId) == Some((Contents(), saved))
      {
        var doc := docs[i];
        assert Init(docs[..i + 1]) == docs[..i] && Last(docs[..i + 1]) == doc;
        if !Known(Db(rows, nextId), doc) {
          StopsAt(old(Contents()), docs, attributeId, i + 1);
          rows, nextId := rows0, nextId0;
          return Failure(NotFound);
        }
        var (db, row) := Upsert(Db(rows, nextId), doc, attributeId);
        UpsertValid(Contents(), doc, attributeId);
        rows, nextId := db.rows, db.nextId;
        saved := saved + [row];
      }
      assert docs[..|docs|] == docs;
      r := Success(saved);
    }
  }

  lemma {:induction false} StopsAt(db: Db, docs: seq<Document>, attributeId: int, i: nat)
    requires i <= |docs| && UpsertEach(db, docs[..i], attributeId).None?
    ensures UpsertEach(db, docs, attributeId).None?
    decreases |docs|
  {
    if i < |docs| {
      assert Init(docs)[..i] == docs[..i];
      StopsAt(db, Init(docs), attributeId, i);
    } else {
      assert docs[..i] == docs;
    }
  }

  lemma UpsertValid(db: Db, doc: Document, attributeId: int)
    requires ValidDb(db) && Known(db, doc)
    ensures var (end, row) := Upsert(db, doc, attributeId);
      ValidDb(end) && "#id" !in row && db.nextId <= end.nextId &&
      IdOf(row) == Some(Num(if Unsaved(doc) then db.nextId else IdOf(doc).value.n))
  {
  }

  /** The row of the document: its id is its own or the next free one. */
  function RowOf(db: Db, doc: Document): int
    requires Known(db, doc)
  {
    if Unsaved(doc) then db.nextId else IdOf(doc).value.n
  }

  /**
   An upsert writes one row: the columns given, and of the others what the row had; its id and its
   attribute are set, and what is no column of the table is not stored in a new row.
   */
  lemma UpsertWrites(db: Db, doc: Document, attributeId: int, column: string)
    requires ValidDb(db) && Known(db, doc)
    ensures var (end, row) := Upsert(db, doc, attributeId);
      var id := RowOf(db, doc);
      id in end.rows && end.rows[id] == row &&
      Field(row, column) ==
        if column == "id" then Some(Num(id))
        else if column == "attributeId" then Some(Num(attributeId))
        else if column in doc && (column == "name" || column == "mimeType" || column == "size" || column == "buffer")
        then Some(doc[column])
        else if Unsaved(doc) then None else Field(db.rows[id], column)
  {
  }

  /** Every other row stays as it was. */
  lemma UpsertLeaves(db: Db, doc: Document, attributeId: int, other: int)
    requires ValidDb(db) && Known(db, doc) && other != RowOf(db, doc)
    ensures var end := Upsert(db, doc, attributeId).0;
      (other in end.rows <==> other in db.rows) && (other in db.rows ==> end.rows[other] == db.rows[other])
  {
  }

  /** A save leaves every row that none of its documents has the id of. */
  lemma {:induction false} SaveLeaves(db: Db, docs: seq<Document>, attributeId: int, other: int)
    requires ValidDb(db) && AllKnown(db, docs) && other in db.rows
    requires forall doc :: doc in docs ==> IdOf(doc) != Some(Num(other))
    ensures var end := UpsertAll(db, docs, attributeId).0; other in end.rows && end.rows[other] == db.rows[other]
  {
    if docs != [] {
      var front, last := Init(docs), Last(docs);
      assert docs == front + [last] && Known(db, docs[|docs| - 1]);
      assert forall i :: 0 <= i < |front| ==> front[i] == docs[i];
      SaveLeaves(db, front, attributeId, other);
      UpsertAllValid(db, front, attributeId);
      UpsertLeaves(UpsertAll(db, front, attributeId).0, last, attributeId, other);
    }
  }

  /** `row` is what saving `doc` produced, new ids lying in [lo, hi) and old ones below. */
  ghost predicate Assigned(doc: Document, row: Document, lo: int, hi: int) {
    "#id" !in row && IdOf(row).Some? && IdOf(row).value.Num? &&
    var n := IdOf(row).value.n;
    if Unsaved(doc) then lo <= n < hi else IdOf(row) == IdOf(doc) && 0 < n < lo
  }

  /** Unsaved documents get new ids above all old ones; the others keep theirs. */
  lemma {:induction false} UpsertIds(db: Db, docs: seq<Document>, attributeId: int, i: nat)
    requires ValidDb(db) && AllKnown(db, docs) && i < |docs|
    ensures var (end, saved) := UpsertAll(db, docs, attributeId);
      ValidDb(end) && Assigned(docs[i], saved[i], db.nextId, end.nextId)
  {
    var last := |docs| - 1;
    assert forall k :: 0 <= k < last ==> Init(docs)[k] == docs[k];
    assert Known(db, docs[last]);
    UpsertAllValid(db, Init(docs), attributeId);
    var (mid, saved) := UpsertAll(db, Init(docs), attributeId);
    UpsertValid(mid, docs[last], attributeId);
    if i < last {
      UpsertIds(db, Init(docs), attributeId, i);
    }
  }

  lemma {:induction false} UpsertAllValid(db: Db, docs: seq<Document>, attributeId: int)
    requires ValidDb(db) && AllKnown(db, docs)
    ensures ValidDb(UpsertAll(db, docs, attributeId).0)
    ensures db.nextId <= UpsertAll(db, docs, attributeId).0.nextId
  {
    if docs != [] {
      var last := |docs| - 1;
      assert forall k :: 0 <= k < last ==> Init(docs)[k] == docs[k];
      assert Known(db, docs[last]);
      UpsertAllValid(db, Init(docs), attributeId);
      UpsertValid(UpsertAll(db, Init(docs), attributeId).0, docs[last], attributeId);
    }
  }

  ghost predicate SameId(a: Document, b: Document) {
    !Unsaved(a) && IdOf(a) == IdOf(b)
  }

  /** Saved documents have pairwise distinct ids when the given ones had. */
  lemma {:induction false} UpsertDistinct(db: Db, docs: seq<Document>, attributeId: int, i: nat, j: nat)
    requires ValidDb(db) && AllKnown(db, docs)
    requires i < j < |docs| && !SameId(docs[i], docs[j])
    ensures IdOf(UpsertAll(db, docs, attributeId).1[i]) != IdOf(UpsertAll(db, docs, attributeId).1[j])
  {
    var last := |docs| - 1;
    assert forall k :: 0 <= k < last ==> Init(docs)[k] == docs[k];
    assert Known(db, docs[last]);
    if j < last {
      UpsertDistinct(db, Init(docs), attributeId, i, j);
    } else {
      UpsertIds(db, Init(docs), attributeId, i);
      UpsertAllValid(db, Init(docs), attributeId);
      UpsertValid(UpsertAll(db, Init(docs), attributeId).0, docs[last], attributeId);
    }
  }
}
