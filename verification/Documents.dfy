/**
 The document list that both transforms thread through the file leaves, one leaf at a
 time (src/common/identity/utils.js:19-41 and 93-109).
 */
module Documents {
  import opened Wrappers
  import opened Sequences
  import opened Numerals
  import opened Json
  import opened References
  import opened Traversal

  /** A document object: its `id`, its temporary tag `#id`, and whatever else it carries. */
  type Document = Fields

  type LeafStep = (Value, seq<Document>) -> (Value, seq<Document>)

  function IdOf(doc: Document): Option<Value> {
    if "id" in doc then Some(doc["id"]) else None
  }

  /** A file leaf the normaliser extracts: an object or array with at least one key. */
  predicate Extracted(v: Value) {
    (v.Obj? || v.Arr?) && !HasNoKeys(v)
  }

  /** The truthy `id` of an extracted leaf. */
  function SavedId(v: Value): Option<Value> {
    match Own(v, "id")
    case Some(id) => if Extracted(v) && Truthy(id) then Some(id) else None
    case None => None
  }

  /** `documents.filter(doc => doc.id !== id)` */
  function WithoutId(docs: seq<Document>, id: Value): seq<Document> {
    if docs == [] then []
    else WithoutId(Init(docs), id) + if IdOf(Last(docs)) == Some(id) then [] else [Last(docs)]
  }

  /** `doc.id === +key || doc['#id'] === key` */
  predicate Hits(doc: Document, key: string) {
    (key != "" && IsNumeral(key, 10) && IdOf(doc) == Some(Num(NumeralValue(key, 10)))) ||
    ("#id" in doc && doc["#id"] == Str(key))
  }

  function Missed(docs: seq<Document>, key: string): seq<Document> {
    if docs == [] then []
    else Missed(Init(docs), key) + if Hits(Last(docs), key) then [] else [Last(docs)]
  }

  function FirstHit(docs: seq<Document>, key: string): Option<Document> {
    if docs == [] then None
    else if FirstHit(Init(docs), key).Some? then FirstHit(Init(docs), key)
    else if Hits(Last(docs), key) then Some(Last(docs))
    else None
  }

  function Untagged(doc: Document): Document {
    doc - {"#id"}
  }

  function NormalizeLeaf(v: Value, docs: seq<Document>): (Value, seq<Document>) {
    if !Extracted(v) then (v, docs)
    else match SavedId(v)
      case Some(id) => (Str(SavedReference(id)), WithoutId(docs, id) + [Spread(v)])
      case None => (Str(FreshReference(|docs|)), docs + [Spread(v)["#id" := Str(FreshTag(|docs|))]])
  }

  function DenormalizeLeaf(v: Value, docs: seq<Document>): (Value, seq<Document>) {
    if !v.Str? || v.s == "" then (v, docs)
    else match ReferenceKey(v.s)
      case None => (Null, docs)
      case Some(key) =>
        var found := FirstHit(docs, key);
        (if found.Some? then Obj(Untagged(found.value)) else Null, Missed(docs, key))
  }

  /** The leaves one after the other, each seeing the list its predecessor left. */
  function Thread(f: LeafStep, vs: seq<Value>, docs: seq<Document>): (r: (seq<Value>, seq<Document>))
    ensures |r.0| == |vs|
  {
    if vs == [] then ([], docs)
    else
      var (rs, ds) := Thread(f, Init(vs), docs);
      var (r, d) := f(Last(vs), ds);
      (rs + [r], d)
  }

  /** What a transform computes: the value around its replaced leaves, and the final list. */
  function Transform(f: LeafStep, s: Schema, v: Value, docs: seq<Document>, depth: int): (Value, seq<Document>) {
    var (rs, ds) := Thread(f, Leaves(s, v, depth), docs);
    (Plug(s, v, depth, rs), ds)
  }

  /** What a transform does: its result, or a TypeError where the walk raises one. */
  function Outcome(f: LeafStep, s: Schema, v: Value, docs: seq<Document>, depth: int): Result<(Value, seq<Document>)> {
    if Safe(s, v, depth) then Success(Transform(f, s, v, docs, depth)) else Failure(TypeError)
  }

  function Normalized(s: Schema, v: Value, docs: seq<Document>, depth: int): (Value, seq<Document>) {
    Transform(NormalizeLeaf, s, v, docs, depth)
  }

  function Denormalized(s: Schema, v: Value, docs: seq<Document>, depth: int): (Value, seq<Document>) {
    Transform(DenormalizeLeaf, s, v, docs, depth)
  }

  // Threading

  lemma {:induction false} ThreadAppend(f: LeafStep, us: seq<Value>, vs: seq<Value>, docs: seq<Document>)
    ensures var (rs, ds) := Thread(f, us, docs);
      var (ts, es) := Thread(f, vs, ds);
      Thread(f, us + vs, docs) == (rs + ts, es)
  {
    if vs == [] {
      assert us + vs == us;
      assert Thread(f, us, docs).0 + [] == Thread(f, us, docs).0;
    } else {
      ThreadAppend(f, us, Init(vs), docs);
      assert Init(us + vs) == us + Init(vs) && Last(us + vs) == Last(vs);
      var (rs, ds) := Thread(f, us, docs);
      var (ts, es) := Thread(f, Init(vs), ds);
      var (t, _) := f(Last(vs), es);
      assert (rs + ts) + [t] == rs + (ts + [t]);
    }
  }

  /** Entry `i` of a threaded run is the step taken on the list left by the first `i` leaves. */
  lemma {:induction false} ThreadAt(f: LeafStep, vs: seq<Value>, docs: seq<Document>, i: nat)
    requires i < |vs|
    ensures var before := Thread(f, vs[..i], docs).1;
      Thread(f, vs, docs).0[i] == f(vs[i], before).0 &&
      Thread(f, vs[..i + 1], docs).1 == f(vs[i], before).1
  {
    assert Init(vs[..i + 1]) == vs[..i];
    if i < |vs| - 1 {
      ThreadAt(f, Init(vs), docs, i);
      assert Init(vs)[..i] == vs[..i];
    } else {
      assert Init(vs) == vs[..i] && vs[..i + 1] == vs;
    }
  }

  /** A run up to the last leaf and the step on that. */
  lemma ThreadLast(f: LeafStep, vs: seq<Value>, docs: seq<Document>, us: seq<Value>, list: seq<Document>, u: Value, next: seq<Document>)
    requires vs != [] && Thread(f, Init(vs), docs) == (us, list) && f(Last(vs), list) == (u, next)
    ensures Thread(f, vs, docs) == (us + [u], next)
  {
  }

  /** Results that are right so far stay right if the next step gives the next result. */
  lemma ThreadMatches(f: LeafStep, vs: seq<Value>, docs: seq<Document>, us: seq<Value>, i: nat, list: seq<Document>, next: seq<Document>)
    requires i < |vs| == |us|
    requires Thread(f, vs[..i], docs) == (us[..i], list) && f(vs[i], list) == (us[i], next)
    ensures Thread(f, vs[..i + 1], docs) == (us[..i + 1], next)
  {
    ThreadNext(f, vs, docs, i);
    assert us[..i + 1] == us[..i] + [us[i]];
  }

  /** One more leaf. */
  lemma ThreadNext(f: LeafStep, vs: seq<Value>, docs: seq<Document>, i: nat)
    requires i < |vs|
    ensures var (rs, ds) := Thread(f, vs[..i], docs);
      Thread(f, vs[..i + 1], docs) == (rs + [f(vs[i], ds).0], f(vs[i], ds).1)
  {
    assert Init(vs[..i + 1]) == vs[..i] && Last(vs[..i + 1]) == vs[i];
  }

  // Filtering

  lemma {:induction false} WithoutIdAppend(a: seq<Document>, b: seq<Document>, id: Value)
    ensures WithoutId(a + b, id) == WithoutId(a, id) + WithoutId(b, id)
  {
    if b == [] {
      assert a + b == a;
    } else {
      WithoutIdAppend(a, Init(b), id);
      assert Init(a + b) == a + Init(b);
    }
  }

  lemma {:induction false} WithoutIdMembers(docs: seq<Document>, id: Value, doc: Document)
    ensures doc in WithoutId(docs, id) <==> doc in docs && IdOf(doc) != Some(id)
  {
    if docs != [] {
      WithoutIdMembers(Init(docs), id, doc);
      assert docs == Init(docs) + [Last(docs)];
    }
  }

  lemma {:induction false} WithoutAbsentId(docs: seq<Document>, id: Value)
    requires forall doc :: doc in docs ==> IdOf(doc) != Some(id)
    ensures WithoutId(docs, id) == docs
  {
    if docs != [] {
      var front, last := Init(docs), Last(docs);
      assert docs == front + [last];
      assert last in docs;
      WithoutAbsentId(front, id);
    }
  }

  lemma {:induction false} MissedAppend(a: seq<Document>, b: seq<Document>, key: string)
    ensures Missed(a + b, key) == Missed(a, key) + Missed(b, key)
    ensures FirstHit(a + b, key) == if FirstHit(a, key).Some? then FirstHit(a, key) else FirstHit(b, key)
  {
    if b == [] {
      assert a + b == a;
    } else {
      MissedAppend(a, Init(b), key);
      assert Init(a + b) == a + Init(b);
    }
  }

  lemma {:induction false} MissedMembers(docs: seq<Document>, key: string, doc: Document)
    ensures doc in Missed(docs, key) <==> doc in docs && !Hits(doc, key)
  {
    if docs != [] {
      MissedMembers(Init(docs), key, doc);
      assert docs == Init(docs) + [Last(docs)];
    }
  }

  lemma {:induction false} FirstHitMember(docs: seq<Document>, key: string)
    ensures FirstHit(docs, key).Some? ==> FirstHit(docs, key).value in docs && Hits(FirstHit(docs, key).value, key)
  {
    if docs != [] {
      FirstHitMember(Init(docs), key);
      assert docs == Init(docs) + [Last(docs)];
    }
  }

  lemma {:induction false} NoneHit(docs: seq<Document>, key: string)
    requires forall doc :: doc in docs ==> !Hits(doc, key)
    ensures Missed(docs, key) == docs && FirstHit(docs, key).None?
  {
    if docs != [] {
      var front, last := Init(docs), Last(docs);
      assert docs == front + [last];
      assert last in docs && !Hits(last, key);
      NoneHit(front, key);
    }
  }

  /** With exactly one document hit, it is found and nothing else is removed. */
  lemma OneHit(before: seq<Document>, doc: Document, after: seq<Document>, key: string)
    requires Hits(doc, key)
    requires forall d :: d in before || d in after ==> !Hits(d, key)
    ensures FirstHit(before + [doc] + after, key) == Some(doc)
    ensures Missed(before + [doc] + after, key) == before + after
  {
    NoneHit(before, key);
    NoneHit(after, key);
    MissedAppend(before + [doc], after, key);
    MissedAppend(before, [doc], key);
    OnlyHit(doc, key);
    assert before + [] == before;
  }

  lemma OnlyHit(doc: Document, key: string)
    ensures Missed([doc], key) == (if Hits(doc, key) then [] else [doc])
    ensures FirstHit([doc], key) == if Hits(doc, key) then Some(doc) else None
  {
    assert Init([doc]) == [];
  }
}
