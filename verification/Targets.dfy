/**
 Which document each file leaf refers to when a value with references is denormalised and then
 normalised again, and that with such targets both the references and the list come back.
 */
module Targets {
  import opened Wrappers
  import opened Sequences
  import opened Numerals
  import opened Json
  import opened References
  import opened Documents

  /** A file leaf neither transform touches: empty, or a number or boolean. */
  predicate Inert(v: Value) {
    !Extracted(v) && (v.Str? ==> v.s == "")
  }

  /** The number of leaves that are not inert. */
  function Active(vs: seq<Value>): nat {
    if vs == [] then 0 else Active(Init(vs)) + if Inert(Last(vs)) then 0 else 1
  }

  /** The truthy `id` of a document. */
  function TruthyId(doc: Document): Option<Value> {
    if "id" in doc && Truthy(doc["id"]) then Some(doc["id"]) else None
  }

  /**
   Leaf `v` is the reference the normaliser prints for `doc` at list length `n`: by its positive
   number, or, if it is unsaved, by the tag it already has.
   */
  ghost predicate Names(v: Value, doc: Document, n: int) {
    match TruthyId(doc)
    case Some(id) => id.Num? && id.n > 0 && "#id" !in doc && v == Str(SavedReference(id))
    case None =>
      n >= 0 && Untagged(doc) != map[] && "#id" in doc && doc["#id"] == Str(FreshTag(n)) && v == Str(FreshReference(n))
  }

  /** What the transform looks a leaf up by. */
  function KeyFor(v: Value): string {
    if v.Str? && ReferenceKey(v.s).Some? then ReferenceKey(v.s).value else ""
  }

  /**
   `targets` gives for each leaf that is not inert the document it names. A document is listed
   once and named once; whatever else a reference would hit was taken by an earlier leaf. `start`
   is the list's length when normalising starts.
   */
  ghost predicate Referring(vs: seq<Value>, targets: seq<Option<Document>>, docs: seq<Document>, start: int) {
    |targets| == |vs| &&
    (forall i :: 0 <= i < |vs| ==> Target(vs, targets, docs, start, i)) &&
    forall i, j :: 0 <= i < j < |vs| && targets[i].Some? ==> targets[i] != targets[j]
  }

  ghost predicate Target(vs: seq<Value>, targets: seq<Option<Document>>, docs: seq<Document>, start: int, i: nat)
    requires i < |targets| == |vs|
  {
    match targets[i]
    case None => Inert(vs[i])
    case Some(doc) =>
      multiset(docs)[doc] == 1 && Names(vs[i], doc, start + Active(vs[..i])) &&
      forall d :: d in docs && Hits(d, KeyFor(vs[i])) ==> d == doc || Taken(targets, i, d)
  }

  ghost predicate Taken(targets: seq<Option<Document>>, i: nat, d: Document)
    requires i <= |targets|
  {
    exists j :: 0 <= j < i && targets[j] == Some(d)
  }

  ghost predicate AttachableFrom(vs: seq<Value>, docs: seq<Document>, start: int) {
    exists targets :: Referring(vs, targets, docs, start)
  }

  /** What a caller can check beforehand, on the leaves and the list alone. */
  ghost predicate Attachable(vs: seq<Value>, docs: seq<Document>) {
    AttachableFrom(vs, docs, |docs| - Active(vs))
  }

  function Somes(targets: seq<Option<Document>>): seq<Document> {
    if targets == [] then []
    else Somes(Init(targets)) + match Last(targets) case None => [] case Some(doc) => [doc]
  }

  /** The leaves with each reference replaced by its document. */
  function Filled(vs: seq<Value>, targets: seq<Option<Document>>): (r: seq<Value>)
    requires |targets| == |vs|
    ensures |r| == |vs|
  {
    seq(|vs|, i requires 0 <= i < |vs| => match targets[i] case None => vs[i] case Some(doc) => Obj(Untagged(doc)))
  }

  // Names and keys

  /** A name is a reference whose key hits the document. */
  lemma NameHits(v: Value, doc: Document, n: int)
    requires Names(v, doc, n)
    ensures v.Str? && v.s != "" && ReferenceKey(v.s) == Some(KeyFor(v)) && Hits(doc, KeyFor(v))
    ensures TruthyId(doc).Some? ==> KeyFor(v) == Dec(TruthyId(doc).value.n)
    ensures TruthyId(doc).None? ==> KeyFor(v) == FreshTag(n)
  {
    match TruthyId(doc)
    case Some(id) =>
      SavedReferenceKey(id.n);
      NumeralReadsBack(id.n, 10);
    case None => FreshReferenceKey(n);
  }

  lemma TagInjective(m: nat, n: nat)
    requires FreshTag(m) == FreshTag(n)
    ensures m == n
  {
    assert FreshTag(m)[8..] == Dec(m) && FreshTag(n)[8..] == Dec(n);
    NumeralInjective(m, n, 10);
  }

  /** Two names of the same document are the same reference. */
  lemma NameUnique(v: Value, w: Value, doc: Document, m: int, n: int)
    requires Names(v, doc, m) && Names(w, doc, n)
    ensures v == w
  {
    if TruthyId(doc).None? {
      TagInjective(m, n);
    }
  }

  // Filling the leaves

  /** A document listed once that alone is hit is found and taken out. */
  lemma TakeOut(docs: seq<Document>, key: string, doc: Document)
    requires multiset(docs)[doc] == 1 && Hits(doc, key)
    requires forall d :: d in docs && Hits(d, key) ==> d == doc
    ensures FirstHit(docs, key) == Some(doc)
    ensures multiset(docs) == multiset(Missed(docs, key)) + multiset{doc}
  {
    assert doc in multiset(docs);
    var k :| 0 <= k < |docs| && docs[k] == doc;
    var before, after := docs[..k], docs[k + 1..];
    assert docs == before + [doc] + after;
    assert multiset(docs) == multiset(before) + multiset{doc} + multiset(after);
    forall d | d in before || d in after
      ensures !Hits(d, key)
    {
      assert d in docs;
      assert d in before ==> multiset(before)[d] > 0;
      assert d in after ==> multiset(after)[d] > 0;
    }
    OneHit(before, doc, after, key);
  }

  lemma {:induction false} SomesMember(targets: seq<Option<Document>>, doc: Document)
    ensures doc in Somes(targets) <==> Taken(targets, |targets|, doc)
  {
    if targets != [] {
      SomesMember(Init(targets), doc);
      assert forall i :: 0 <= i < |targets| - 1 ==> Init(targets)[i] == targets[i];
      assert targets[|targets| - 1] == Last(targets);
    }
  }

  lemma ReferringFront(vs: seq<Value>, targets: seq<Option<Document>>, docs: seq<Document>, start: int)
    requires vs != [] && Referring(vs, targets, docs, start)
    ensures Referring(Init(vs), Init(targets), docs, start)
    ensures Target(vs, targets, docs, start, |vs| - 1)
    ensures vs[..|vs| - 1] == Init(vs)
    ensures forall d :: Taken(targets, |vs| - 1, d) <==> d in Somes(Init(targets))
    ensures Last(targets).Some? ==> Last(targets).value !in Somes(Init(targets))
  {
    var front, ts, last := Init(vs), Init(targets), |vs| - 1;
    forall i | 0 <= i < last
      ensures Target(front, ts, docs, start, i)
    {
      assert Target(vs, targets, docs, start, i);
      assert front[..i] == vs[..i] && front[i] == vs[i] && ts[i] == targets[i];
      assert forall d :: Taken(targets, i, d) ==> Taken(ts, i, d);
    }
    forall d
      ensures Taken(targets, last, d) <==> d in Somes(ts)
    {
      SomesMember(ts, d);
      assert Taken(targets, last, d) ==> Taken(ts, last, d);
      assert Taken(ts, last, d) ==> Taken(targets, last, d);
    }
  }

  /** What holds once the leaves are filled: their documents are taken, the others left. */
  ghost predicate Filling(vs: seq<Value>, targets: seq<Option<Document>>, docs: seq<Document>, values: seq<Value>, rest: seq<Document>)
    requires |targets| == |vs|
  {
    values == Filled(vs, targets) && multiset(docs) == multiset(rest) + multiset(Somes(targets))
  }

  /** Denormalising fills the leaves and splits the list into taken and left documents. */
  lemma {:induction false} FillLeaves(vs: seq<Value>, targets: seq<Option<Document>>, docs: seq<Document>, start: int)
    requires Referring(vs, targets, docs, start)
    ensures var (values, rest) := Thread(DenormalizeLeaf, vs, docs); Filling(vs, targets, docs, values, rest)
  {
    if vs != [] {
      ReferringFront(vs, targets, docs, start);
      FillLeaves(Init(vs), Init(targets), docs, start);
      var (values, left) := Thread(DenormalizeLeaf, Init(vs), docs);
      FillLast(vs, targets, docs, start, values, left);
    }
  }

  lemma FillLast(vs: seq<Value>, targets: seq<Option<Document>>, docs: seq<Document>, start: int, values: seq<Value>, left: seq<Document>)
    requires vs != [] && Referring(vs, targets, docs, start)
    requires Filling(Init(vs), Init(targets), docs, values, left)
    ensures var (value, rest) := DenormalizeLeaf(Last(vs), left);
      Filling(vs, targets, docs, values + [value], rest)
  {
    FilledFront(vs, targets);
    if Last(targets).Some? {
      LastOnce(vs, targets, docs, start, left);
      FillLeaf(Last(vs), Last(targets).value, start + Active(Init(vs)), left);
    } else {
      assert Target(vs, targets, docs, start, |vs| - 1);
    }
  }

  lemma FillLeaf(v: Value, doc: Document, n: int, left: seq<Document>)
    requires Names(v, doc, n) && multiset(left)[doc] == 1
    requires forall d :: d in left && Hits(d, KeyFor(v)) ==> d == doc
    ensures var (value, rest) := DenormalizeLeaf(v, left);
      value == Obj(Untagged(doc)) && multiset(left) == multiset(rest) + multiset{doc}
  {
    NameHits(v, doc, n);
    TakeOut(left, KeyFor(v), doc);
  }

  lemma LastOnce(vs: seq<Value>, targets: seq<Option<Document>>, docs: seq<Document>, start: int, left: seq<Document>)
    requires vs != [] && Referring(vs, targets, docs, start) && Last(targets).Some?
    requires multiset(docs) == multiset(left) + multiset(Somes(Init(targets)))
    ensures var doc := Last(targets).value;
      Names(Last(vs), doc, start + Active(Init(vs))) && multiset(left)[doc] == 1 &&
      forall d :: d in left && Hits(d, KeyFor(Last(vs))) ==> d == doc
  {
    LastTarget(vs, targets, docs, start);
    OnceLeft(docs, left, Somes(Init(targets)), Last(targets).value, KeyFor(Last(vs)));
  }

  lemma LastTarget(vs: seq<Value>, targets: seq<Option<Document>>, docs: seq<Document>, start: int)
    requires vs != [] && Referring(vs, targets, docs, start) && Last(targets).Some?
    ensures var doc, taken := Last(targets).value, Somes(Init(targets));
      Names(Last(vs), doc, start + Active(Init(vs))) && multiset(docs)[doc] == 1 && doc !in taken &&
      (forall d :: d in docs && Hits(d, KeyFor(Last(vs))) ==> d == doc || d in taken) &&
      forall d :: d in taken ==> multiset(docs)[d] == 1
  {
    ReferringFront(vs, targets, docs, start);
    assert Target(vs, targets, docs, start, |vs| - 1);
    TakenOnce(Init(vs), Init(targets), docs, start);
  }

  lemma TakenOnce(vs: seq<Value>, targets: seq<Option<Document>>, docs: seq<Document>, start: int)
    requires Referring(vs, targets, docs, start)
    ensures forall d :: d in Somes(targets) ==> multiset(docs)[d] == 1
  {
    forall d | d in Somes(targets)
      ensures multiset(docs)[d] == 1
    {
      SomesMember(targets, d);
      var i :| 0 <= i < |targets| && targets[i] == Some(d);
      assert Target(vs, targets, docs, start, i);
    }
  }

  lemma FilledFront(vs: seq<Value>, targets: seq<Option<Document>>)
    requires |vs| == |targets| != 0
    ensures Init(Filled(vs, targets)) == Filled(Init(vs), Init(targets))
    ensures Filled(vs, targets) == Filled(Init(vs), Init(targets)) +
      [if Last(targets).None? then Last(vs) else Obj(Untagged(Last(targets).value))]
  {
  }

  /** What is left has the document once, and nothing else its key hits. */
  lemma OnceLeft(docs: seq<Document>, left: seq<Document>, taken: seq<Document>, doc: Document, key: string)
    requires multiset(docs) == multiset(left) + multiset(taken)
    requires multiset(docs)[doc] == 1 && doc !in taken
    requires forall d :: d in docs && Hits(d, key) ==> d == doc || d in taken
    requires forall d :: d in taken ==> multiset(docs)[d] == 1
    ensures multiset(left)[doc] == 1
    ensures forall d :: d in left && Hits(d, key) ==> d == doc
  {
    assert multiset(taken)[doc] == 0;
    forall d | d in left
      ensures d in docs && d !in taken
    {
      assert d in multiset(left) && d in multiset(docs);
      assert multiset(docs)[d] == multiset(left)[d] + multiset(taken)[d];
    }
  }

  // Restoring the references

  /** Somewhere in the list, and as many as are listed. */
  ghost predicate Within(list: seq<Document>, docs: seq<Document>) {
    multiset(list) <= multiset(docs)
  }

  lemma {:induction false} SomesCount(vs: seq<Value>, targets: seq<Option<Document>>, docs: seq<Document>, start: int)
    requires Referring(vs, targets, docs, start)
    ensures |Somes(targets)| == Active(vs)
  {
    if vs != [] {
      ReferringFront(vs, targets, docs, start);
      SomesCount(Init(vs), Init(targets), docs, start);
      LastActive(vs, targets, docs, start);
    }
  }

  lemma LastActive(vs: seq<Value>, targets: seq<Option<Document>>, docs: seq<Document>, start: int)
    requires vs != [] && Referring(vs, targets, docs, start)
    ensures Last(targets).None? <==> Inert(Last(vs))
  {
    assert Target(vs, targets, docs, start, |vs| - 1);
    if Last(targets).Some? {
      NameHits(Last(vs), Last(targets).value, start + Active(vs[..|vs| - 1]));
    }
  }

  /** No document listed when a saved leaf is stored again has its id. */
  lemma IdIsFree(vs: seq<Value>, targets: seq<Option<Document>>, docs: seq<Document>, start: int, list: seq<Document>, d: Document)
    requires vs != [] && Referring(vs, targets, docs, start)
    requires Last(targets).Some? && TruthyId(Last(targets).value).Some?
    requires Within(list + [Last(targets).value], docs) && d in list
    ensures IdOf(d) != TruthyId(Last(targets).value)
  {
    var doc, last := Last(targets).value, |vs| - 1;
    NamedAt(vs, targets, docs, start, last);
    NameHits(Last(vs), doc, start + Active(vs[..last]));
    InDocs(list, doc, docs, d);
    forall j | 0 <= j < last && targets[j] == Some(d)
      ensures IdOf(d) != TruthyId(doc)
    {
      KeysDiffer(vs, targets, docs, start, j, last);
      NamedAt(vs, targets, docs, start, j);
      NameHits(vs[j], d, start + Active(vs[..j]));
    }
    if IdOf(d) == TruthyId(doc) {
      NumeralReadsBack(TruthyId(doc).value.n, 10);
      OthersTaken(vs, targets, docs, start, last, d);
    }
  }

  /** Whatever else a leaf's key hits was taken by an earlier leaf. */
  lemma OthersTaken(vs: seq<Value>, targets: seq<Option<Document>>, docs: seq<Document>, start: int, i: nat, d: Document)
    requires Referring(vs, targets, docs, start) && i < |vs| && targets[i].Some?
    requires d in docs && Hits(d, KeyFor(vs[i])) && d != targets[i].value
    ensures Taken(targets, i, d)
  {
    assert Target(vs, targets, docs, start, i);
  }

  lemma IdsFree(vs: seq<Value>, targets: seq<Option<Document>>, docs: seq<Document>, start: int, list: seq<Document>)
    requires vs != [] && Referring(vs, targets, docs, start)
    requires Last(targets).Some? && Within(list + [Last(targets).value], docs)
    ensures TruthyId(Last(targets).value).Some? ==> forall d :: d in list ==> IdOf(d) != TruthyId(Last(targets).value)
  {
    forall d | d in list && TruthyId(Last(targets).value).Some?
      ensures IdOf(d) != TruthyId(Last(targets).value)
    {
      IdIsFree(vs, targets, docs, start, list, d);
    }
  }

  lemma NamedAt(vs: seq<Value>, targets: seq<Option<Document>>, docs: seq<Document>, start: int, i: nat)
    requires Referring(vs, targets, docs, start) && i < |vs| && targets[i].Some?
    ensures multiset(docs)[targets[i].value] == 1 && Names(vs[i], targets[i].value, start + Active(vs[..i]))
  {
    assert Target(vs, targets, docs, start, i);
  }

  /** A document that a leaf's key hits is its own or an earlier leaf's, so not a later one's. */
  lemma LaterMissed(vs: seq<Value>, targets: seq<Option<Document>>, docs: seq<Document>, start: int, i: nat, j: nat)
    requires Referring(vs, targets, docs, start) && i < j < |vs| && targets[i].Some? && targets[j].Some?
    requires targets[j].value in docs
    ensures !Hits(targets[j].value, KeyFor(vs[i]))
  {
    assert Target(vs, targets, docs, start, i);
    assert forall k :: 0 <= k < j ==> targets[k] != targets[j];
  }

  /** Two leaves never have the same key: the first would hit both documents. */
  lemma KeysDiffer(vs: seq<Value>, targets: seq<Option<Document>>, docs: seq<Document>, start: int, i: nat, j: nat)
    requires Referring(vs, targets, docs, start) && i < j < |vs| && targets[i].Some? && targets[j].Some?
    ensures KeyFor(vs[i]) != KeyFor(vs[j])
  {
    var doc := targets[j].value;
    NamedAt(vs, targets, docs, start, j);
    assert doc in multiset(docs);
    NameHits(vs[j], doc, start + Active(vs[..j]));
    LaterMissed(vs, targets, docs, start, i, j);
  }

  lemma InDocs(list: seq<Document>, doc: Document, docs: seq<Document>, d: Document)
    requires Within(list + [doc], docs) && multiset(docs)[doc] == 1 && d in list
    ensures d in docs && d != doc
  {
    assert multiset(list + [doc]) == multiset(list) + multiset{doc};
    assert d in multiset(list);
    assert multiset(list)[doc] + 1 <= multiset(docs)[doc];
    assert d in multiset(docs);
  }

  /** A filled leaf is stored again under its name. */
  lemma RestoreLeaf(v: Value, doc: Document, n: int, list: seq<Document>)
    requires Names(v, doc, n) && |list| == n
    requires TruthyId(doc).Some? ==> forall d :: d in list ==> IdOf(d) != TruthyId(doc)
    ensures NormalizeLeaf(Obj(Untagged(doc)), list) == (v, list + [doc])
  {
    match TruthyId(doc)
    case Some(id) =>
      assert Untagged(doc) == doc;
      WithoutAbsentId(list, id);
    case None => assert Untagged(doc)["#id" := Str(FreshTag(n))] == doc;
  }

  /** Normalising filled leaves restores the references and appends the documents to the list. */
  lemma {:induction false} RestoreLeaves(vs: seq<Value>, targets: seq<Option<Document>>, docs: seq<Document>, rest: seq<Document>)
    requires Referring(vs, targets, docs, |rest|) && Within(rest + Somes(targets), docs)
    ensures Thread(NormalizeLeaf, Filled(vs, targets), rest) == (vs, rest + Somes(targets))
  {
    if vs == [] {
      assert rest + [] == rest;
    } else {
      ReferringFront(vs, targets, docs, |rest|);
      WithinFront(rest, targets, docs);
      RestoreLeaves(Init(vs), Init(targets), docs, rest);
      RestoreLast(vs, targets, docs, rest);
      FilledFront(vs, targets);
      RestoreNext(Filled(vs, targets), vs, rest, rest + Somes(Init(targets)), rest + Somes(targets));
    }
  }

  lemma RestoreNext(values: seq<Value>, vs: seq<Value>, rest: seq<Document>, list: seq<Document>, next: seq<Document>)
    requires |values| == |vs| != 0
    requires Thread(NormalizeLeaf, Init(values), rest) == (Init(vs), list)
    requires NormalizeLeaf(Last(values), list) == (Last(vs), next)
    ensures Thread(NormalizeLeaf, values, rest) == (vs, next)
  {
    assert vs == Init(vs) + [Last(vs)];
  }

  lemma WithinFront(rest: seq<Document>, targets: seq<Option<Document>>, docs: seq<Document>)
    requires targets != [] && Within(rest + Somes(targets), docs)
    ensures Within(rest + Somes(Init(targets)), docs)
    ensures Last(targets).Some? ==> Within(rest + Somes(Init(targets)) + [Last(targets).value], docs)
    ensures rest + Somes(targets) == rest + Somes(Init(targets)) + if Last(targets).Some? then [Last(targets).value] else []
  {
    var front := Somes(Init(targets));
    if Last(targets).Some? {
      Associative(rest, front, [Last(targets).value]);
      assert multiset(rest + front + [Last(targets).value]) == multiset(rest + front) + multiset{Last(targets).value};
    } else {
      assert Somes(targets) == front && rest + front + [] == rest + front;
    }
  }

  lemma RestoreLast(vs: seq<Value>, targets: seq<Option<Document>>, docs: seq<Document>, rest: seq<Document>)
    requires vs != [] && Referring(vs, targets, docs, |rest|) && Within(rest + Somes(targets), docs)
    ensures NormalizeLeaf(Last(Filled(vs, targets)), rest + Somes(Init(targets))) == (Last(vs), rest + Somes(targets))
  {
    var list := rest + Somes(Init(targets));
    WithinFront(rest, targets, docs);
    LastNamed(vs, targets, docs, rest, list);
    if Last(targets).Some? {
      IdsFree(vs, targets, docs, |rest|, list);
      RestoreLeaf(Last(vs), Last(targets).value, |list|, list);
    } else {
      assert list + [] == list;
    }
  }

  lemma LastNamed(vs: seq<Value>, targets: seq<Option<Document>>, docs: seq<Document>, rest: seq<Document>, list: seq<Document>)
    requires vs != [] && Referring(vs, targets, docs, |rest|) && list == rest + Somes(Init(targets))
    ensures match Last(targets) case None => Inert(Last(vs)) case Some(doc) => Names(Last(vs), doc, |list|)
  {
    ReferringFront(vs, targets, docs, |rest|);
    SomesCount(Init(vs), Init(targets), docs, |rest|);
  }

  lemma AttachableComesBack(vs: seq<Value>, docs: seq<Document>)
    requires Attachable(vs, docs)
    ensures var (values, rest) := Thread(DenormalizeLeaf, vs, docs);
      var (back, listed) := Thread(NormalizeLeaf, values, rest);
      back == vs && multiset(listed) == multiset(docs)
  {
    var start := |docs| - Active(vs);
    var targets :| Referring(vs, targets, docs, start);
    var rest := Thread(DenormalizeLeaf, vs, docs).1;
    FillLeaves(vs, targets, docs, start);
    SomesCount(vs, targets, docs, start);
    RestLength(docs, rest, Somes(targets));
    RestoreLeaves(vs, targets, docs, rest);
  }

  lemma RestLength(docs: seq<Document>, rest: seq<Document>, taken: seq<Document>)
    requires multiset(docs) == multiset(rest) + multiset(taken)
    ensures |rest| == |docs| - |taken| && multiset(rest + taken) == multiset(docs)
  {
    assert multiset(rest + taken) == multiset(rest) + multiset(taken);
    assert |multiset(rest + taken)| == |rest + taken| && |multiset(docs)| == |docs|;
  }
}
