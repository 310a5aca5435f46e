/**
 The form a signup submits (src/main/lws/lws-service.js:217-233 and
 src/main/platform/relying-party.js:119-146, 302-318): attribute values are normalised, their
 documents decoded, and one part per document is posted beside the attribute data.
 */
module Signup {
  import opened Wrappers
  import opened Sequences
  import opened Numerals
  import opened Json
  import opened References
  import opened Traversal
  import opened Documents
  import opened RoundTrip
  import opened Transforms
  import opened Paths
  import opened FileOutcomes
  import opened Base64

  const DEFAULT_DEPTH := 10

  datatype Attribute = Attribute(url: string, schema: Schema, value: Value)

  /** A document whose buffer has been decoded. */
  datatype Upload = Upload(id: Option<Value>, bytes: seq<byte>, doc: Document)

  datatype RpAttribute = RpAttribute(id: string, schema: Schema, data: Value, documents: seq<Upload>)

  datatype Part = Part(bytes: seq<byte>, contentType: Option<Value>, filename: Value, knownLength: Option<Value>)

  datatype AttributeData = AttributeData(id: string, data: Value, schema: Schema, documents: seq<Option<Value>>)

  datatype Form = Form(parts: map<string, Part>, attributes: seq<AttributeData>)

  /** One element of an array a buffer is made from. Text and nested lists among them count as 0. */
  function ByteOf(v: Value): byte {
    match v
    case Num(n) => (n % 256) as byte
    case Bool(b) => if b then 1 else 0
    case _ => 0
  }

  function BytesFrom(items: seq<Value>): (r: seq<byte>)
    ensures |r| == |items|
  {
    seq(|items|, i requires 0 <= i < |items| => ByteOf(items[i]))
  }

  /** The elements `0`, `1`, ... of an object that has a `length`. */
  function ElementsOf(fields: Fields, length: int): seq<Value> {
    if length <= 0 then []
    else ElementsOf(fields, length - 1) + [if Dec(length - 1) in fields then fields[Dec(length - 1)] else Null]
  }

  /**
   `Buffer.from(v, 'base64')`: text is decoded; arrays, objects with a `length` and serialised
   buffers are copied; for anything else it throws.
   */
  function BufferFrom(v: Value): Option<seq<byte>> {
    match v
    case Str(s) => Some(Decode(s))
    case Arr(items) => Some(BytesFrom(items))
    case Obj(fields) =>
      if "length" in fields then
        Some(if fields["length"].Num? then BytesFrom(ElementsOf(fields, fields["length"].n)) else [])
      else if Field(fields, "type") == Some(Str("Buffer")) && "data" in fields && fields["data"].Arr? then
        Some(BytesFrom(fields["data"].items))
      else None
    case _ => None
  }

  predicate Readable(doc: Document) {
    Field(doc, "buffer").Some? && BufferFrom(doc["buffer"]).Some?
  }

  function UploadOf(doc: Document): Upload
    requires Readable(doc)
  {
    Upload(IdOf(doc), BufferFrom(doc["buffer"]).value, doc)
  }

  ghost predicate AllReadable(docs: seq<Document>) {
    forall doc :: doc in docs ==> Readable(doc)
  }

  function Uploads(docs: seq<Document>): (r: seq<Upload>)
    requires AllReadable(docs)
    ensures |r| == |docs|
  {
    seq(|docs|, i requires 0 <= i < |docs| => UploadOf(docs[i]))
  }

  /** `${doc.id}`, which prints a missing id as `undefined`. */
  function IdText(id: Option<Value>): string {
    match id
    case Some(v) => Text(v)
    case None => "undefined"
  }

  function PartKey(id: Option<Value>): string {
    ID_PREFIX + IdText(id)
  }

  function PartOf(u: Upload): Part {
    var name := Field(u.doc, "name");
    Part(u.bytes, Field(u.doc, "mimeType"),
         if name.Some? && Truthy(name.value) then name.value else Str("document-" + IdText(u.id)),
         Field(u.doc, "size"))
  }

  /** The form parts; a later document overwrites an earlier one under the same key. */
  function Parts(uploads: seq<Upload>): map<string, Part> {
    if uploads == [] then map[]
    else Parts(Init(uploads))[PartKey(Last(uploads).id) := PartOf(Last(uploads))]
  }

  function LeavesOf(a: Attribute): seq<Value> {
    Leaves(a.schema, a.value, DEFAULT_DEPTH)
  }

  ghost predicate Submittable(a: Attribute) {
    Safe(a.schema, a.value, DEFAULT_DEPTH) && AllReadable(Listed(LeavesOf(a), []))
  }

  ghost predicate AllSubmittable(attrs: seq<Attribute>) {
    forall a :: a in attrs ==> Submittable(a)
  }

  function Submitted(a: Attribute): RpAttribute
    requires Submittable(a)
  {
    var (data, docs) := Normalized(a.schema, a.value, [], DEFAULT_DEPTH);
    RpAttribute(a.url, a.schema, data, Uploads(docs))
  }

  function AllUploads(attrs: seq<Attribute>): seq<Upload>
    requires AllSubmittable(attrs)
  {
    if attrs == [] then [] else AllUploads(Init(attrs)) + Submitted(Last(attrs)).documents
  }

  function DataOf(a: RpAttribute): AttributeData {
    AttributeData(a.id, a.data, a.schema, seq(|a.documents|, i requires 0 <= i < |a.documents| => a.documents[i].id))
  }

  function FormOf(attrs: seq<Attribute>): Form
    requires AllSubmittable(attrs)
  {
    Form(Parts(AllUploads(attrs)), AllData(attrs))
  }

  function AllData(attrs: seq<Attribute>): (r: seq<AttributeData>)
    requires AllSubmittable(attrs)
    ensures |r| == |attrs|
  {
    seq(|attrs|, i requires 0 <= i < |attrs| => DataOf(Submitted(attrs[i])))
  }

  /** What one more attribute adds to the form. */
  lemma OneMore(attrs: seq<Attribute>, i: nat)
    requires i < |attrs| && AllSubmittable(attrs[..i]) && Submittable(attrs[i])
    ensures AllSubmittable(attrs[..i + 1])
    ensures AllUploads(attrs[..i + 1]) == AllUploads(attrs[..i]) + Submitted(attrs[i]).documents
    ensures AllData(attrs[..i + 1]) == AllData(attrs[..i]) + [DataOf(Submitted(attrs[i]))]
  {
    assert attrs[..i + 1] == attrs[..i] + [attrs[i]];
    assert Init(attrs[..i + 1]) == attrs[..i] && Last(attrs[..i + 1]) == attrs[i];
  }

  /** `RelyingPartyRest.createUser`: the reduction that fills `formData` key by key. */
  method BuildParts(uploads: seq<Upload>) returns (formData: map<string, Part>)
    ensures formData == Parts(uploads)
  {
    formData := map[];
    for i := 0 to |uploads|
      invariant formData == Parts(uploads[..i])
    {
      assert Init(uploads[..i + 1]) == uploads[..i] && Last(uploads[..i + 1]) == uploads[i];
      formData := formData[PartKey(uploads[i].id) := PartOf(uploads[i])];
    }
    assert uploads[..|uploads|] == uploads;
  }

  method DecodeDocuments(docs: seq<Document>) returns (r: Result<seq<Upload>>)
    ensures r.Success? <==> AllReadable(docs)
    ensures r.Success? ==> r.value == Uploads(docs)
  {
    var uploads: seq<Upload> := [];
    for i := 0 to |docs|
      invariant AllReadable(docs[..i])
      invariant uploads == Uploads(docs[..i])
    {
      if !Readable(docs[i]) {
        return Failure(TypeError);
      }
      uploads := uploads + [UploadOf(docs[i])];
    }
    assert docs[..|docs|] == docs;
    r := Success(uploads);
  }

  /** One attribute of `reqSignup`: normalised, its documents decoded. */
  method SubmitAttribute(a: Attribute) returns (r: Result<RpAttribute>)
    ensures r.Success? <==> Submittable(a)
    ensures r.Success? ==> r.value == Submitted(a)
  {
    var normalized := NormalizeDocumentsSchema(a.schema, a.value, [], DEFAULT_DEPTH);
    if normalized.Failure? {
      return Failure(TypeError);
    }
    var decoded := DecodeDocuments(normalized.value.1);
    r := match decoded
      case Success(uploads) => Success(RpAttribute(a.url, a.schema, normalized.value.0, uploads))
      case Failure(e) => Failure(e);
  }

  /** Everything `reqSignup` and `createUser` assemble before posting. */
  method AssembleForm(attrs: seq<Attribute>) returns (r: Result<Form>)
    ensures r.Success? <==> AllSubmittable(attrs)
    ensures r.Success? ==> r.value == FormOf(attrs)
  {
    var uploads: seq<Upload> := [];
    var data: seq<AttributeData> := [];
    for i := 0 to |attrs|
      invariant AllSubmittable(attrs[..i])
      invariant uploads == AllUploads(attrs[..i]) && data == AllData(attrs[..i])
    {
      var submitted := SubmitAttribute(attrs[i]);
      if submitted.Failure? {
        assert attrs[i] in attrs && !Submittable(attrs[i]);
        return Failure(TypeError);
      }
      OneMore(attrs, i);
      uploads := uploads + submitted.value.documents;
      data := data + [DataOf(submitted.value)];
    }
    assert attrs[..|attrs|] == attrs;
    var parts := BuildParts(uploads);
    r := Success(Form(parts, data));
  }

  // What the form contains

  ghost predicate Prepared(attrs: seq<Attribute>) {
    forall a :: a in attrs ==> UniqueKeys(a.schema, DEFAULT_DEPTH) && LeavesReady(LeavesOf(a)) && Submittable(a)
  }

  /** Leaf `i` of `a` is an extracted file. */
  ghost predicate FileAt(a: Attribute, i: int) {
    0 <= i < |LeavesOf(a)| && Extracted(LeavesOf(a)[i])
  }

  function BytesOf(v: Value): seq<byte> {
    if v.Obj? && Readable(v.fields) then BufferFrom(v.fields["buffer"]).value else []
  }

  /** The reference submitted for leaf `i`. */
  function RefOf(a: Attribute, i: nat): Value
    requires i < |LeavesOf(a)|
  {
    Refs(LeavesOf(a), [])[i]
  }

  /** The document has the fields of the leaf, except for a tag. */
  ghost predicate SameFields(doc: Document, v: Value) {
    forall k :: k != "#id" ==> Field(doc, k) == Own(v, k)
  }

  /** A listed document is the stored form of one of the leaves. */
  lemma {:induction false} ListedIsLeaf(vs: seq<Value>, doc: Document)
    requires LeavesReady(vs) && doc in Listed(vs, [])
    ensures exists i :: 0 <= i < |vs| && Extracted(vs[i]) && SameFields(doc, vs[i])
  {
    var front, last := Init(vs), |vs| - 1;
    assert forall i :: 0 <= i < last ==> front[i] == vs[i];
    assert LeafReady(vs[last]);
    if SavedId(vs[last]).Some? {
      WithoutIdMembers(Listed(front, []), SavedId(vs[last]).value, doc);
    }
    if doc in Listed(front, []) {
      ListedIsLeaf(front, doc);
      var i :| 0 <= i < last && Extracted(front[i]) && SameFields(doc, front[i]);
      assert Extracted(vs[i]) && SameFields(doc, vs[i]);
    } else {
      assert Extracted(vs[last]) && SameFields(doc, vs[last]);
    }
  }

  /** Every extracted leaf has a listed document under its id. */
  lemma {:induction false} LeafIsListed(vs: seq<Value>, i: nat) returns (doc: Document)
    requires LeavesReady(vs) && i < |vs| && SavedId(vs[i]).Some?
    ensures doc in Listed(vs, []) && IdOf(doc) == SavedId(vs[i])
  {
    var front, last := Init(vs), |vs| - 1;
    assert forall k :: 0 <= k < last ==> front[k] == vs[k];
    if SavedId(vs[last]) == SavedId(vs[i]) {
      doc := vs[last].fields;
      assert Last(Listed(vs, [])) == doc;
    } else {
      doc := LeafIsListed(front, i);
      if SavedId(vs[last]).Some? {
        WithoutIdMembers(Listed(front, []), SavedId(vs[last]).value, doc);
      }
    }
  }

  lemma {:induction false} PartsFrom(uploads: seq<Upload>, key: string)
    ensures key in Parts(uploads) <==> exists u :: u in uploads && PartKey(u.id) == key
    ensures key in Parts(uploads) ==> exists u :: u in uploads && PartKey(u.id) == key && Parts(uploads)[key] == PartOf(u)
  {
    if uploads != [] {
      var front, last := Init(uploads), Last(uploads);
      PartsFrom(front, key);
      assert forall u :: u in uploads <==> u in front || u == last by {
        assert uploads == front + [last];
      }
    }
  }

  lemma UploadsMember(docs: seq<Document>, u: Upload)
    requires AllReadable(docs)
    ensures u in Uploads(docs) <==> exists doc :: doc in docs && Readable(doc) && u == UploadOf(doc)
  {
    if u in Uploads(docs) {
      var n :| 0 <= n < |docs| && Uploads(docs)[n] == u;
      assert docs[n] in docs && u == UploadOf(docs[n]);
    }
    if doc :| doc in docs && Readable(doc) && u == UploadOf(doc) {
      var n :| 0 <= n < |docs| && docs[n] == doc;
      assert Uploads(docs)[n] == u;
    }
  }

  lemma {:induction false} UploadsFrom(attrs: seq<Attribute>, u: Upload)
    requires AllSubmittable(attrs)
    ensures u in AllUploads(attrs) <==>
            exists a, doc :: a in attrs && doc in Listed(LeavesOf(a), []) && Readable(doc) && u == UploadOf(doc)
  {
    if attrs != [] {
      var a := Last(attrs);
      assert attrs == Init(attrs) + [a];
      assert a in attrs;
      UploadsFrom(Init(attrs), u);
      var docs := Listed(LeavesOf(a), []);
      UploadsMember(docs, u);
    }
  }

  /** An uploaded document comes from a file leaf. */
  lemma UploadIsLeaf(attrs: seq<Attribute>, u: Upload) returns (a: Attribute, i: nat)
    requires Prepared(attrs) && u in AllUploads(attrs)
    ensures a in attrs && FileAt(a, i) && SameFields(u.doc, LeavesOf(a)[i])
    ensures u.id == Own(LeavesOf(a)[i], "id") && u.bytes == BytesOf(LeavesOf(a)[i])
  {
    UploadsFrom(attrs, u);
    var doc: Document;
    a, doc :| a in attrs && doc in Listed(LeavesOf(a), []) && Readable(doc) && u == UploadOf(doc);
    ListedIsLeaf(LeavesOf(a), doc);
    i :| 0 <= i < |LeavesOf(a)| && Extracted(LeavesOf(a)[i]) && SameFields(doc, LeavesOf(a)[i]);
    assert LeafReady(LeavesOf(a)[i]);
    assert Field(doc, "id") == Own(LeavesOf(a)[i], "id") && Field(doc, "buffer") == Own(LeavesOf(a)[i], "buffer");
  }

  /** The part a file leaf is posted as: its bytes, its type, its size, and its name or else one made of its id. */
  ghost predicate PartFor(part: Part, v: Value) {
    part.bytes == BytesOf(v) && part.contentType == Own(v, "mimeType") && part.knownLength == Own(v, "size") &&
    (var name := Own(v, "name");
     if name.Some? && name.value != Null && name.value != Bool(false) && name.value != Num(0) && name.value != Str("")
     then part.filename == name.value
     else part.filename == Str("document-" + if Own(v, "id").Some? then Text(Own(v, "id").value) else "undefined"))
  }

  /** A part comes from a file leaf: its key prints the leaf's id, and it is the leaf's part. */
  lemma PartIsLeaf(attrs: seq<Attribute>, key: string) returns (a: Attribute, i: nat)
    requires Prepared(attrs) && key in FormOf(attrs).parts
    ensures a in attrs && FileAt(a, i)
    ensures key == PartKey(Own(LeavesOf(a)[i], "id")) && PartFor(FormOf(attrs).parts[key], LeavesOf(a)[i])
  {
    PartsFrom(AllUploads(attrs), key);
    var u :| u in AllUploads(attrs) && PartKey(u.id) == key && Parts(AllUploads(attrs))[key] == PartOf(u);
    a, i := UploadIsLeaf(attrs, u);
    UploadPart(u, LeavesOf(a)[i]);
  }

  lemma UploadPart(u: Upload, v: Value)
    requires SameFields(u.doc, v) && u.id == Own(v, "id") && u.bytes == BytesOf(v)
    ensures PartFor(PartOf(u), v)
  {
    assert Field(u.doc, "name") == Own(v, "name") && Field(u.doc, "mimeType") == Own(v, "mimeType");
    assert Field(u.doc, "size") == Own(v, "size");
  }

  /** A saved file leaf is submitted as the key of a part. */
  lemma SavedLeafHasPart(attrs: seq<Attribute>, a: Attribute, i: nat)
    requires Prepared(attrs) && a in attrs && FileAt(a, i) && SavedId(LeavesOf(a)[i]).Some?
    ensures RefOf(a, i) == Str(PartKey(SavedId(LeavesOf(a)[i])))
    ensures PartKey(SavedId(LeavesOf(a)[i])) in FormOf(attrs).parts
  {
    ThreadAt(NormalizeLeaf, LeavesOf(a), [], i);
    var doc := LeafIsListed(LeavesOf(a), i);
    assert Readable(doc);
    UploadsFrom(attrs, UploadOf(doc));
    PartsFrom(AllUploads(attrs), PartKey(SavedId(LeavesOf(a)[i])));
  }

  /** An unsaved file leaf is submitted as a reference no part answers to. */
  lemma UnsavedLeafHasNoPart(attrs: seq<Attribute>, a: Attribute, i: nat)
    requires Prepared(attrs) && a in attrs && FileAt(a, i) && SavedId(LeavesOf(a)[i]).None?
    ensures RefOf(a, i).Str? && RefOf(a, i).s !in FormOf(attrs).parts
  {
    ThreadAt(NormalizeLeaf, LeavesOf(a), [], i);
    var key := RefOf(a, i).s;
    assert key[10] == '#';
    if key in FormOf(attrs).parts {
      var b, j := PartIsLeaf(attrs, key);
      assert LeafReady(LeavesOf(b)[j]);
      PartKeyStart(Own(LeavesOf(b)[j], "id"));
    }
  }

  lemma PartKeyStart(id: Option<Value>)
    requires id.Some? && Truthy(id.value) ==> id.value.Num? && id.value.n > 0
    ensures |PartKey(id)| > 10 ==> PartKey(id)[10] != '#'
  {
    if id.Some? && id.value.Num? && id.value.n >= 0 {
      NumeralReadsBack(id.value.n, 10);
    }
    assert IdText(id) != "" ==> PartKey(id)[10] == IdText(id)[0];
  }

  /** Every file leaf's reference names a part with that leaf's bytes. */
  ghost predicate Complete(attrs: seq<Attribute>)
    requires Prepared(attrs)
  {
    forall a, i :: a in attrs && FileAt(a, i) ==>
      RefOf(a, i).Str? && RefOf(a, i).s in FormOf(attrs).parts &&
      FormOf(attrs).parts[RefOf(a, i).s].bytes == BytesOf(LeavesOf(a)[i])
  }

  /** What a caller can check: every file has an id, and files that share an id share their bytes. */
  ghost predicate Identified(attrs: seq<Attribute>) {
    (forall a, i :: a in attrs && FileAt(a, i) ==> SavedId(LeavesOf(a)[i]).Some?) &&
    forall a, i, b, j ::
      a in attrs && FileAt(a, i) && b in attrs && FileAt(b, j) && SavedId(LeavesOf(a)[i]) == SavedId(LeavesOf(b)[j])
      ==> BytesOf(LeavesOf(a)[i]) == BytesOf(LeavesOf(b)[j])
  }

  lemma PositiveIdText(m: Value, n: Value)
    requires m.Num? && m.n > 0 && n.Num? && n.n > 0
    requires PartKey(Some(m)) == PartKey(Some(n))
    ensures m == n
  {
    assert PartKey(Some(m))[10..] == Text(m) && PartKey(Some(n))[10..] == Text(n);
    NumeralInjective(m.n, n.n, 10);
  }

  /** The submitted references resolve to the right bytes exactly when the files are identified. */
  lemma FormComplete(attrs: seq<Attribute>)
    requires Prepared(attrs)
    ensures Complete(attrs) <==> Identified(attrs)
  {
    if Identified(attrs) {
      forall a, i | a in attrs && FileAt(a, i)
        ensures RefOf(a, i).Str? && RefOf(a, i).s in FormOf(attrs).parts &&
                FormOf(attrs).parts[RefOf(a, i).s].bytes == BytesOf(LeavesOf(a)[i])
      {
        IdentifiedLeaf(attrs, a, i);
      }
    }
    if Complete(attrs) {
      CompleteIsIdentified(attrs);
    }
  }

  lemma IdentifiedLeaf(attrs: seq<Attribute>, a: Attribute, i: nat)
    requires Prepared(attrs) && Identified(attrs) && a in attrs && FileAt(a, i)
    ensures RefOf(a, i).Str? && RefOf(a, i).s in FormOf(attrs).parts
    ensures FormOf(attrs).parts[RefOf(a, i).s].bytes == BytesOf(LeavesOf(a)[i])
  {
    SavedLeafHasPart(attrs, a, i);
    var b, j := PartIsLeaf(attrs, RefOf(a, i).s);
    assert LeafReady(LeavesOf(a)[i]) && LeafReady(LeavesOf(b)[j]);
    PositiveIdText(SavedId(LeavesOf(a)[i]).value, SavedId(LeavesOf(b)[j]).value);
  }

  lemma CompleteIsIdentified(attrs: seq<Attribute>)
    requires Prepared(attrs) && Complete(attrs)
    ensures Identified(attrs)
  {
    forall a, i | a in attrs && FileAt(a, i)
      ensures SavedId(LeavesOf(a)[i]).Some? && RefOf(a, i) == Str(PartKey(SavedId(LeavesOf(a)[i])))
    {
      if SavedId(LeavesOf(a)[i]).None? {
        UnsavedLeafHasNoPart(attrs, a, i);
      } else {
        SavedLeafHasPart(attrs, a, i);
      }
    }
  }

  /** With identified files every part is referenced by some leaf. */
  lemma PartsReferenced(attrs: seq<Attribute>, key: string)
    requires Prepared(attrs) && Identified(attrs) && key in FormOf(attrs).parts
    ensures exists a, i: nat :: a in attrs && FileAt(a, i) && RefOf(a, i) == Str(key)
  {
    var a, i := PartIsLeaf(attrs, key);
    SavedLeafHasPart(attrs, a, i);
    assert RefOf(a, i) == Str(key);
  }

  /**
   The attributes are posted in order, each with its url, its schema, and its value with the
   references at its file leaves and everything else the schema declares as it was.
   */
  lemma AttributesPosted(attrs: seq<Attribute>, k: nat, path: seq<Hop>, x: Value)
    requires Prepared(attrs) && k < |attrs|
    ensures |FormOf(attrs).attributes| == |attrs|
    ensures var a, posted := attrs[k], FormOf(attrs).attributes[k];
      posted.id == a.url && posted.schema == a.schema &&
      (Reaches(a.schema, a.value, DEFAULT_DEPTH, path, x, false) ==> ValueAt(posted.data, path) == Some(x))
    ensures var a, posted := attrs[k], FormOf(attrs).attributes[k];
      FilePath(a.schema, a.value, DEFAULT_DEPTH, path, x) ==>
        exists i: nat :: i < |LeavesOf(a)| && LeavesOf(a)[i] == x && ValueAt(posted.data, path) == Some(RefOf(a, i))
  {
    var a := attrs[k];
    var refs := Refs(LeavesOf(a), []);
    assert a in attrs;
    if Reaches(a.schema, a.value, DEFAULT_DEPTH, path, x, false) {
      ElsewhereUnchanged(a.schema, a.value, DEFAULT_DEPTH, refs, path, x);
    }
    if FilePath(a.schema, a.value, DEFAULT_DEPTH, path, x) {
      var i := FileIsLeaf(a.schema, a.value, DEFAULT_DEPTH, path, x);
      RebuiltAt(a.schema, a.value, DEFAULT_DEPTH, refs, path, i);
      assert LeavesOf(a)[i] == x && ValueAt(FormOf(attrs).attributes[k].data, path) == Some(RefOf(a, i));
    }
  }

  /** With identified files each attribute lists exactly the ids its own data refers to. */
  lemma AttributeListsItsIds(attrs: seq<Attribute>, k: nat, id: Value)
    requires Prepared(attrs) && Identified(attrs) && k < |attrs|
    ensures var a := attrs[k];
      Some(id) in FormOf(attrs).attributes[k].documents <==>
      exists i :: FileAt(a, i) && SavedId(LeavesOf(a)[i]) == Some(id)
    ensures var a := attrs[k];
      Leaves(a.schema, FormOf(attrs).attributes[k].data, DEFAULT_DEPTH) == Refs(LeavesOf(a), [])
  {
    var a := attrs[k];
    LeavesOfPlug(a.schema, a.value, DEFAULT_DEPTH, Refs(LeavesOf(a), []));
    ListedIds(LeavesOf(a), id);
    var docs, listed := Listed(LeavesOf(a), []), FormOf(attrs).attributes[k].documents;
    assert |listed| == |docs| && forall n :: 0 <= n < |docs| ==> listed[n] == IdOf(docs[n]);
    assert forall i :: FileAt(a, i) ==> SavedId(LeavesOf(a)[i]).Some?;
  }

  /** The ids in the list are those of the saved leaves, when all files are saved. */
  lemma ListedIds(vs: seq<Value>, id: Value)
    requires LeavesReady(vs) && forall i :: 0 <= i < |vs| && Extracted(vs[i]) ==> SavedId(vs[i]).Some?
    ensures (exists n :: 0 <= n < |Listed(vs, [])| && IdOf(Listed(vs, [])[n]) == Some(id)) <==>
            exists i :: 0 <= i < |vs| && Extracted(vs[i]) && SavedId(vs[i]) == Some(id)
  {
    var docs := Listed(vs, []);
    if n :| 0 <= n < |docs| && IdOf(docs[n]) == Some(id) {
      ListedIsLeaf(vs, docs[n]);
      var i :| 0 <= i < |vs| && Extracted(vs[i]) && SameFields(docs[n], vs[i]);
      assert Field(docs[n], "id") == Own(vs[i], "id");
      assert SavedId(vs[i]) == Some(id);
    }
    if i :| 0 <= i < |vs| && Extracted(vs[i]) && SavedId(vs[i]) == Some(id) {
      var doc := LeafIsListed(vs, i);
      var n :| 0 <= n < |docs| && docs[n] == doc;
      assert IdOf(docs[n]) == Some(id);
    }
  }
}
