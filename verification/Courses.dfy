/**
 Denormalising and normalising again as one course of lists: if the references and the documents
 come back, the documents that were found are targets.
 */
module Courses {
  import opened Wrappers
  import opened Sequences
  import opened Numerals
  import opened Json
  import opened References
  import opened Documents
  import opened Targets

  /** The list before leaf `i` is denormalised, and before it is normalised again. */
  function Left(vs: seq<Value>, docs: seq<Document>, i: nat): seq<Document>
    requires i <= |vs|
  {
    Thread(DenormalizeLeaf, vs[..i], docs).1
  }

  function Relisted(vs: seq<Value>, docs: seq<Document>, i: nat): seq<Document>
    requires i <= |vs|
  {
    Thread(NormalizeLeaf, Thread(DenormalizeLeaf, vs, docs).0[..i], Thread(DenormalizeLeaf, vs, docs).1).1
  }

  ghost predicate ComesBack(vs: seq<Value>, docs: seq<Document>) {
    var (values, rest) := Thread(DenormalizeLeaf, vs, docs);
    var (back, listed) := Thread(NormalizeLeaf, values, rest);
    back == vs && multiset(listed) == multiset(docs)
  }

  /** What is stored for a document that a leaf was replaced by. */
  function Restored(doc: Document, n: nat): Document {
    if TruthyId(doc).Some? then Untagged(doc) else Untagged(doc)["#id" := Str(FreshTag(n))]
  }

  /** Leaf `v`, looked up in `left` and stored again in `list`, is itself again. */
  ghost predicate Same(v: Value, left: seq<Document>, list: seq<Document>) {
    NormalizeLeaf(DenormalizeLeaf(v, left).0, list).0 == v
  }

  /** Such a leaf is a reference that hits something. */
  lemma SameHits(v: Value, left: seq<Document>, list: seq<Document>)
    requires Same(v, left, list) && !Inert(v)
    ensures v.Str? && v.s != "" && ReferenceKey(v.s) == Some(KeyFor(v)) && FirstHit(left, KeyFor(v)).Some?
  {
  }

  /** An untagged document is stored again, and printed, by its id or by the list's length. */
  lemma Reprinted(doc: Document, list: seq<Document>)
    ensures Untagged(doc) == map[] ==> NormalizeLeaf(Obj(Untagged(doc)), list).0 == Obj(map[])
    ensures var (value, after) := NormalizeLeaf(Obj(Untagged(doc)), list);
      Untagged(doc) != map[] ==>
        value == Str(if TruthyId(doc).Some? then SavedReference(TruthyId(doc).value) else FreshReference(|list|)) &&
        after == (if TruthyId(doc).Some? then WithoutId(list, TruthyId(doc).value) else list) + [Restored(doc, |list|)]
  {
    var v := Obj(Untagged(doc));
    assert Own(v, "id") == if "id" in doc then Some(doc["id"]) else None;
    assert SavedId(v) == if Extracted(v) then TruthyId(doc) else None;
  }

  /** The leaf is replaced by the first document it hits, which is stored again under the same reference. */
  lemma SameLeaf(v: Value, left: seq<Document>, list: seq<Document>)
    requires Same(v, left, list) && !Inert(v)
    ensures v.Str? && v.s != "" && FirstHit(left, KeyFor(v)).Some?
    ensures var doc := FirstHit(left, KeyFor(v)).value;
      DenormalizeLeaf(v, left) == (Obj(Untagged(doc)), Missed(left, KeyFor(v))) && Untagged(doc) != map[] &&
      v == Str(if TruthyId(doc).Some? then SavedReference(TruthyId(doc).value) else FreshReference(|list|)) &&
      NormalizeLeaf(Obj(Untagged(doc)), list).1 ==
        (if TruthyId(doc).Some? then WithoutId(list, TruthyId(doc).value) else list) + [Restored(doc, |list|)]
  {
    SameHits(v, left, list);
    Reprinted(FirstHit(left, KeyFor(v)).value, list);
  }

  lemma BackStep(vs: seq<Value>, docs: seq<Document>, i: nat)
    requires ComesBack(vs, docs) && i < |vs|
    ensures Same(vs[i], Left(vs, docs, i), Relisted(vs, docs, i))
    ensures Left(vs, docs, i + 1) == DenormalizeLeaf(vs[i], Left(vs, docs, i)).1
    ensures Relisted(vs, docs, i + 1) == NormalizeLeaf(DenormalizeLeaf(vs[i], Left(vs, docs, i)).0, Relisted(vs, docs, i)).1
  {
    var (values, rest) := Thread(DenormalizeLeaf, vs, docs);
    ThreadAt(DenormalizeLeaf, vs, docs, i);
    ThreadAt(NormalizeLeaf, values, rest, i);
  }

  lemma BackEnds(vs: seq<Value>, docs: seq<Document>)
    ensures Left(vs, docs, 0) == docs && Relisted(vs, docs, 0) == Left(vs, docs, |vs|)
    ensures ComesBack(vs, docs) ==> multiset(Relisted(vs, docs, |vs|)) == multiset(docs)
  {
    var values := Thread(DenormalizeLeaf, vs, docs).0;
    assert vs[..0] == [] && vs[..|vs|] == vs && values[..0] == [] && values[..|vs|] == values;
  }

  lemma ActiveNext(vs: seq<Value>, i: nat)
    requires i < |vs|
    ensures Active(vs[..i + 1]) == Active(vs[..i]) + if Inert(vs[i]) then 0 else 1
  {
    assert Init(vs[..i + 1]) == vs[..i];
  }

  /** A whole course of both transforms that comes back: the list before each leaf, on the way out and back. */
  datatype Course = Course(vs: seq<Value>, docs: seq<Document>, lefts: seq<seq<Document>>, lists: seq<seq<Document>>)

  ghost predicate Valid(c: Course) {
    |c.lefts| == |c.lists| == |c.vs| + 1 &&
    c.lefts[0] == c.docs && c.lists[0] == c.lefts[|c.vs|] && multiset(c.lists[|c.vs|]) == multiset(c.docs) &&
    forall i :: 0 <= i < |c.vs| ==> Back(c, i)
  }

  ghost predicate Back(c: Course, i: nat)
    requires |c.lefts| == |c.lists| == |c.vs| + 1 && i < |c.vs|
  {
    var (value, left) := DenormalizeLeaf(c.vs[i], c.lefts[i]);
    Same(c.vs[i], c.lefts[i], c.lists[i]) && c.lefts[i + 1] == left && c.lists[i + 1] == NormalizeLeaf(value, c.lists[i]).1
  }

  lemma CourseOf(vs: seq<Value>, docs: seq<Document>) returns (c: Course)
    requires ComesBack(vs, docs)
    ensures Valid(c) && c.vs == vs && c.docs == docs
  {
    c := Course(vs, docs,
      seq(|vs| + 1, i requires 0 <= i <= |vs| => Left(vs, docs, i)),
      seq(|vs| + 1, i requires 0 <= i <= |vs| => Relisted(vs, docs, i)));
    BackEnds(vs, docs);
    forall i | 0 <= i < |vs|
      ensures Back(c, i)
    {
      BackStep(vs, docs, i);
    }
  }

  // Lengths: a leaf takes out at least one document and puts back at most one, so each does just that

  lemma {:induction false} MissedLength(docs: seq<Document>, key: string)
    ensures |Missed(docs, key)| <= |docs|
    ensures FirstHit(docs, key).Some? ==> |Missed(docs, key)| < |docs|
    ensures |Missed(docs, key)| == |docs| ==> Missed(docs, key) == docs && forall d :: d in docs ==> !Hits(d, key)
  {
    if docs != [] {
      MissedLength(Init(docs), key);
      assert docs == Init(docs) + [Last(docs)];
    }
  }

  lemma {:induction false} WithoutLength(docs: seq<Document>, id: Value)
    ensures |WithoutId(docs, id)| <= |docs|
    ensures |WithoutId(docs, id)| == |docs| ==> WithoutId(docs, id) == docs
  {
    if docs != [] {
      WithoutLength(Init(docs), id);
      assert docs == Init(docs) + [Last(docs)];
    }
  }

  /** If one document goes, it is the one found, and nothing else was hit. */
  lemma {:induction false} OneMissed(docs: seq<Document>, key: string)
    requires |Missed(docs, key)| == |docs| - 1
    ensures FirstHit(docs, key).Some?
    ensures var doc := FirstHit(docs, key).value;
      Hits(doc, key) && multiset(docs) == multiset(Missed(docs, key)) + multiset{doc} &&
      forall d :: d in docs && Hits(d, key) ==> d == doc
  {
    var front, last := Init(docs), Last(docs);
    assert docs == front + [last];
    if Hits(last, key) {
      MissedLength(front, key);
      NoneHit(front, key);
    } else {
      OneMissed(front, key);
    }
  }

  lemma StepLengths(v: Value, left: seq<Document>, list: seq<Document>)
    requires Same(v, left, list)
    ensures var (value, after) := DenormalizeLeaf(v, left);
      var k := if Inert(v) then 0 else 1;
      |after| + k <= |left| && |NormalizeLeaf(value, list).1| <= |list| + k
  {
    if !Inert(v) {
      SameLeaf(v, left, list);
      MissedLength(left, KeyFor(v));
      var doc := FirstHit(left, KeyFor(v)).value;
      if TruthyId(doc).Some? {
        WithoutLength(list, TruthyId(doc).value);
      }
    }
  }

  lemma BackLengths(c: Course, i: nat)
    requires Valid(c) && i < |c.vs|
    ensures |c.lefts[i + 1]| + Active(c.vs[..i + 1]) <= |c.lefts[i]| + Active(c.vs[..i])
    ensures |c.lists[i + 1]| + Active(c.vs[..i]) <= |c.lists[i]| + Active(c.vs[..i + 1])
  {
    assert Back(c, i);
    StepLengths(c.vs[i], c.lefts[i], c.lists[i]);
    ActiveNext(c.vs, i);
  }

  lemma {:induction false} LengthsUp(c: Course, i: nat)
    requires Valid(c) && i <= |c.vs|
    ensures |c.lefts[i]| + Active(c.vs[..i]) <= |c.docs|
    ensures |c.lists[i]| <= |c.lefts[|c.vs|]| + Active(c.vs[..i])
  {
    if i > 0 {
      LengthsUp(c, i - 1);
      BackLengths(c, i - 1);
    }
  }

  lemma {:induction false} LengthsDown(c: Course, i: nat)
    requires Valid(c) && i <= |c.vs|
    ensures |c.lefts[|c.vs|]| + Active(c.vs) <= |c.lefts[i]| + Active(c.vs[..i])
    ensures |c.docs| + Active(c.vs[..i]) <= |c.lists[i]| + Active(c.vs)
    decreases |c.vs| - i
  {
    if i == |c.vs| {
      assert c.vs[..i] == c.vs;
      assert |multiset(c.docs)| == |c.docs|;
      assert |multiset(c.lists[i])| == |c.lists[i]|;
    } else {
      LengthsDown(c, i + 1);
      BackLengths(c, i);
    }
  }

  lemma Lengths(c: Course, i: nat)
    requires Valid(c) && i <= |c.vs|
    ensures |c.lefts[i]| == |c.docs| - Active(c.vs[..i])
    ensures |c.lists[i]| == |c.docs| - Active(c.vs) + Active(c.vs[..i])
  {
    LengthsUp(c, i);
    LengthsDown(c, i);
    LengthsDown(c, 0);
  }

  // The documents the leaves were replaced by

  function FoundAt(c: Course, i: nat): Option<Document>
    requires i < |c.vs| < |c.lefts|
  {
    if Inert(c.vs[i]) then None else FirstHit(c.lefts[i], KeyFor(c.vs[i]))
  }

  function Found(c: Course): seq<Option<Document>>
    requires |c.vs| < |c.lefts|
  {
    seq(|c.vs|, i requires 0 <= i < |c.vs| => FoundAt(c, i))
  }

  /** Each leaf takes out exactly its document, the only one hit, and puts exactly one back. */
  lemma ActiveStep(c: Course, i: nat)
    requires Valid(c) && i < |c.vs| && !Inert(c.vs[i])
    ensures FoundAt(c, i).Some?
    ensures var doc, left := FoundAt(c, i).value, c.lefts[i];
      Hits(doc, KeyFor(c.vs[i])) && multiset(left) == multiset(c.lefts[i + 1]) + multiset{doc} &&
      c.lefts[i + 1] == Missed(left, KeyFor(c.vs[i])) &&
      (forall d :: d in left && Hits(d, KeyFor(c.vs[i])) ==> d == doc) &&
      c.lists[i + 1] == c.lists[i] + [Restored(doc, |c.lists[i]|)]
  {
    var left, list := c.lefts[i], c.lists[i];
    assert Back(c, i);
    SameLeaf(c.vs[i], left, list);
    ActiveNext(c.vs, i);
    Lengths(c, i);
    Lengths(c, i + 1);
    OneMissed(left, KeyFor(c.vs[i]));
    var doc := FirstHit(left, KeyFor(c.vs[i])).value;
    if TruthyId(doc).Some? {
      WithoutLength(list, TruthyId(doc).value);
    }
  }

  lemma InertStep(c: Course, i: nat)
    requires Valid(c) && i < |c.vs| && Inert(c.vs[i])
    ensures c.lefts[i + 1] == c.lefts[i] && c.lists[i + 1] == c.lists[i]
  {
    assert Back(c, i);
  }

  /** What is put back for them. */
  function PutBack(c: Course): seq<Option<Document>>
    requires |c.lists| == |c.vs| + 1 == |c.lefts|
  {
    seq(|c.vs|, i requires 0 <= i < |c.vs| =>
      match FoundAt(c, i) case None => None case Some(doc) => Some(Restored(doc, |c.lists[i]|)))
  }

  lemma NextTarget(targets: seq<Option<Document>>, i: nat)
    requires i < |targets|
    ensures Somes(targets[..i + 1]) == Somes(targets[..i]) + if targets[i].Some? then [targets[i].value] else []
  {
    assert Init(targets[..i + 1]) == targets[..i] && Last(targets[..i + 1]) == targets[i];
  }

  /** The documents found so far are what is no longer left. */
  lemma {:induction false} FoundLeft(c: Course, targets: seq<Option<Document>>, i: nat)
    requires Valid(c) && i <= |c.vs| && targets == Found(c)
    ensures multiset(c.docs) == multiset(c.lefts[i]) + multiset(Somes(targets[..i]))
  {
    if i == 0 {
      assert Somes(targets[..0]) == [];
    } else {
      FoundLeft(c, targets, i - 1);
      FoundLeftNext(c, targets, i - 1);
    }
  }

  lemma FoundLeftNext(c: Course, targets: seq<Option<Document>>, i: nat)
    requires Valid(c) && i < |c.vs| && targets == Found(c)
    requires multiset(c.docs) == multiset(c.lefts[i]) + multiset(Somes(targets[..i]))
    ensures multiset(c.docs) == multiset(c.lefts[i + 1]) + multiset(Somes(targets[..i + 1]))
  {
    NextTarget(targets, i);
    var taken := Somes(targets[..i]);
    if Inert(c.vs[i]) {
      InertStep(c, i);
      assert taken + [] == taken;
    } else {
      ActiveStep(c, i);
      TakenOne(c.docs, c.lefts[i], c.lefts[i + 1], taken, targets[i].value);
    }
  }

  lemma TakenOne(docs: seq<Document>, left: seq<Document>, after: seq<Document>, taken: seq<Document>, doc: Document)
    requires multiset(docs) == multiset(left) + multiset(taken)
    requires multiset(left) == multiset(after) + multiset{doc}
    ensures multiset(docs) == multiset(after) + multiset(taken + [doc])
  {
    assert multiset(taken + [doc]) == multiset(taken) + multiset{doc};
  }

  /** The documents put back so far are what is listed behind the leftover list. */
  lemma {:induction false} PutBackListed(c: Course, i: nat)
    requires Valid(c) && i <= |c.vs|
    ensures c.lists[i] == c.lefts[|c.vs|] + Somes(PutBack(c)[..i])
  {
    var rest, puts := c.lefts[|c.vs|], PutBack(c);
    if i == 0 {
      assert rest + [] == rest;
    } else {
      PutBackListed(c, i - 1);
      NextTarget(puts, i - 1);
      if Inert(c.vs[i - 1]) {
        InertStep(c, i - 1);
        assert Somes(puts[..i]) == Somes(puts[..i - 1]);
      } else {
        ActiveStep(c, i - 1);
        Associative(rest, Somes(puts[..i - 1]), [puts[i - 1].value]);
      }
    }
  }

  // Every document is put back as it was

  /** Put back unchanged, or without its tag. */
  ghost predicate Near(was: Document, put: Document) {
    put == was || ("#id" in was && "#id" !in put)
  }

  ghost predicate AllNear(olds: seq<Document>, news: seq<Document>) {
    |olds| == |news| && forall k :: 0 <= k < |olds| ==> Near(olds[k], news[k])
  }

  /** If the lists have the same documents, no document lost its tag. */
  lemma NoneChanged(olds: seq<Document>, news: seq<Document>)
    requires AllNear(olds, news)
    requires multiset(olds) == multiset(news)
    ensures olds == news
  {
    var same, tagged, untagged := Split(olds, news);
    assert multiset(tagged) == multiset(olds) - same && multiset(untagged) == multiset(news) - same;
    NoneTagged(tagged, untagged);
  }

  lemma NoneTagged(tagged: seq<Document>, untagged: seq<Document>)
    requires multiset(tagged) == multiset(untagged)
    requires (forall d :: d in tagged ==> "#id" in d) && forall d :: d in untagged ==> "#id" !in d
    ensures tagged == []
  {
    if tagged != [] {
      SameMember(tagged, untagged, tagged[0]);
    }
  }

  lemma SameMember(a: seq<Document>, b: seq<Document>, d: Document)
    requires multiset(a) == multiset(b) && d in a
    ensures d in b
  {
    assert d in multiset(a) && d in multiset(b);
  }

  lemma {:induction false} Split(olds: seq<Document>, news: seq<Document>)
      returns (same: multiset<Document>, tagged: seq<Document>, untagged: seq<Document>)
    requires AllNear(olds, news)
    ensures multiset(olds) == same + multiset(tagged) && multiset(news) == same + multiset(untagged)
    ensures |tagged| == |untagged|
    ensures forall d :: d in tagged ==> "#id" in d
    ensures forall d :: d in untagged ==> "#id" !in d
    ensures tagged == [] ==> olds == news
  {
    if olds == [] {
      same, tagged, untagged := multiset{}, [], [];
    } else {
      var was, put := Last(olds), Last(news);
      same, tagged, untagged := Split(Init(olds), Init(news));
      assert Near(olds[|olds| - 1], news[|olds| - 1]);
      assert olds == Init(olds) + [was] && news == Init(news) + [put];
      if put == was {
        AddSame(Init(olds), same, tagged, was);
        AddSame(Init(news), same, untagged, was);
        same := same + multiset{was};
      } else {
        AddChanged(Init(olds), same, tagged, was);
        AddChanged(Init(news), same, untagged, put);
        tagged, untagged := tagged + [was], untagged + [put];
      }
    }
  }

  lemma AddSame(list: seq<Document>, same: multiset<Document>, part: seq<Document>, d: Document)
    requires multiset(list) == same + multiset(part)
    ensures multiset(list + [d]) == same + multiset{d} + multiset(part)
  {
    assert multiset(list + [d]) == multiset(list) + multiset{d};
  }

  lemma AddChanged(list: seq<Document>, same: multiset<Document>, part: seq<Document>, d: Document)
    requires multiset(list) == same + multiset(part)
    ensures multiset(list + [d]) == same + multiset(part + [d])
  {
    assert multiset(list + [d]) == multiset(list) + multiset{d};
    assert multiset(part + [d]) == multiset(part) + multiset{d};
  }

  ghost predicate Alike(targets: seq<Option<Document>>, puts: seq<Option<Document>>) {
    |targets| == |puts| &&
    forall i :: 0 <= i < |targets| ==>
      (targets[i].Some? <==> puts[i].Some?) && (targets[i].Some? ==> Near(targets[i].value, puts[i].value))
  }

  lemma AlikeInit(targets: seq<Option<Document>>, puts: seq<Option<Document>>)
    requires Alike(targets, puts) && targets != []
    ensures Alike(Init(targets), Init(puts))
    ensures Last(targets).Some? <==> Last(puts).Some?
    ensures Last(targets).Some? ==> Near(Last(targets).value, Last(puts).value)
  {
    assert targets[|targets| - 1] == Last(targets) && puts[|targets| - 1] == Last(puts);
    assert forall i :: 0 <= i < |targets| - 1 ==> Init(targets)[i] == targets[i] && Init(puts)[i] == puts[i];
  }

  lemma {:induction false} AlikeNear(targets: seq<Option<Document>>, puts: seq<Option<Document>>)
    requires Alike(targets, puts)
    ensures AllNear(Somes(targets), Somes(puts))
  {
    if targets != [] {
      AlikeInit(targets, puts);
      AlikeNear(Init(targets), Init(puts));
    }
  }

  lemma {:induction false} AlikeSame(targets: seq<Option<Document>>, puts: seq<Option<Document>>)
    requires Alike(targets, puts) && Somes(targets) == Somes(puts)
    ensures targets == puts
  {
    if targets != [] {
      var a, b := Somes(Init(targets)), Somes(Init(puts));
      AlikeInit(targets, puts);
      if Last(targets).Some? {
        AppendInjective(a, Last(targets).value, b, Last(puts).value);
      } else {
        assert Somes(targets) == a && Somes(puts) == b;
      }
      AlikeSame(Init(targets), Init(puts));
      assert targets == Init(targets) + [Last(targets)] && puts == Init(puts) + [Last(puts)];
    }
  }

  lemma AppendInjective(a: seq<Document>, x: Document, b: seq<Document>, y: Document)
    ensures a + [x] == b + [y] ==> a == b && x == y
  {
    if a + [x] == b + [y] {
      assert |a| == |b|;
      assert a == (a + [x])[..|a|] && b == (b + [y])[..|b|];
      assert (a + [x])[|a|] == x && (b + [y])[|b|] == y;
    }
  }

  /** A document looked up by a tag keeps it, unless it is stored under an id. */
  lemma RestoredNear(c: Course, i: nat)
    requires Valid(c) && i < |c.vs| && FoundAt(c, i).Some?
    ensures Near(FoundAt(c, i).value, Restored(FoundAt(c, i).value, |c.lists[i]|))
  {
    ActiveStep(c, i);
    assert Back(c, i);
    SameLeaf(c.vs[i], c.lefts[i], c.lists[i]);
    NearAsPrinted(c.vs[i], FoundAt(c, i).value, |c.lists[i]|);
  }

  lemma NearAsPrinted(v: Value, doc: Document, n: nat)
    requires Hits(doc, KeyFor(v))
    requires v == Str(if TruthyId(doc).Some? then SavedReference(TruthyId(doc).value) else FreshReference(n))
    ensures Near(doc, Restored(doc, n))
  {
    if TruthyId(doc).None? {
      FreshReferenceKey(n);
      assert !IsDigit(FreshTag(n)[0], 10);
      assert Untagged(doc)["#id" := Str(FreshTag(n))] == doc;
    } else if "#id" !in doc {
      assert Untagged(doc) == doc;
    }
  }

  lemma Unchanged(c: Course)
    requires Valid(c)
    ensures Found(c) == PutBack(c)
  {
    var targets, puts, rest, n := Found(c), PutBack(c), c.lefts[|c.vs|], |c.vs|;
    forall i | 0 <= i < n && targets[i].Some?
      ensures Near(targets[i].value, puts[i].value)
    {
      RestoredNear(c, i);
    }
    AlikeNear(targets, puts);
    FoundLeft(c, targets, n);
    PutBackListed(c, n);
    assert targets[..n] == targets && puts[..n] == puts;
    SameRest(rest, Somes(targets), Somes(puts), c.docs);
    NoneChanged(Somes(targets), Somes(puts));
    AlikeSame(targets, puts);
  }

  lemma SameRest(rest: seq<Document>, taken: seq<Document>, put: seq<Document>, docs: seq<Document>)
    requires multiset(docs) == multiset(rest) + multiset(taken) && multiset(rest + put) == multiset(docs)
    ensures multiset(taken) == multiset(put)
  {
    assert multiset(rest + put) == multiset(rest) + multiset(put);
    assert multiset(taken) == multiset(docs) - multiset(rest);
    assert multiset(put) == multiset(docs) - multiset(rest);
  }

  // The documents found are targets

  lemma FoundNamed(c: Course, i: nat)
    requires Valid(c) && i < |c.vs| && FoundAt(c, i).Some?
    ensures Names(c.vs[i], FoundAt(c, i).value, |c.docs| - Active(c.vs) + Active(c.vs[..i]))
  {
    var doc, list := FoundAt(c, i).value, c.lists[i];
    Unchanged(c);
    assert PutBack(c)[i] == Found(c)[i];
    Lengths(c, i);
    ActiveStep(c, i);
    assert Back(c, i);
    SameLeaf(c.vs[i], c.lefts[i], list);
    NamedAsPrinted(c.vs[i], doc, |list|);
  }

  lemma NamedAsPrinted(v: Value, doc: Document, n: nat)
    requires Hits(doc, KeyFor(v)) && Restored(doc, n) == doc && Untagged(doc) != map[]
    requires v == Str(if TruthyId(doc).Some? then SavedReference(TruthyId(doc).value) else FreshReference(n))
    ensures Names(v, doc, n)
  {
  }

  lemma {:induction false} LeftShrinks(c: Course, i: nat, j: nat, d: Document)
    requires Valid(c) && i <= j <= |c.vs| && d in c.lefts[j]
    ensures d in c.lefts[i]
    decreases j - i
  {
    if i < j {
      if Inert(c.vs[j - 1]) {
        InertStep(c, j - 1);
      } else {
        ActiveStep(c, j - 1);
        MissedMembers(c.lefts[j - 1], KeyFor(c.vs[j - 1]), d);
      }
      LeftShrinks(c, i, j - 1, d);
    }
  }

  /** What a leaf found is not there for a later one. */
  lemma FoundOnce(c: Course, i: nat, j: nat)
    requires Valid(c) && i < j < |c.vs| && FoundAt(c, i).Some?
    ensures FoundAt(c, i) != FoundAt(c, j)
  {
    if FoundAt(c, i) == FoundAt(c, j) {
      var doc := FoundAt(c, j).value;
      SameReference(c, i, j, doc);
      FoundLater(c, i, j);
    }
  }

  lemma SameReference(c: Course, i: nat, j: nat, doc: Document)
    requires Valid(c) && i < |c.vs| && j < |c.vs| && FoundAt(c, i) == FoundAt(c, j) == Some(doc)
    ensures c.vs[i] == c.vs[j]
  {
    FoundNamed(c, i);
    FoundNamed(c, j);
    NameUnique(c.vs[i], c.vs[j], doc, |c.docs| - Active(c.vs) + Active(c.vs[..i]), |c.docs| - Active(c.vs) + Active(c.vs[..j]));
  }

  /** What a later leaf found was missed by the earlier one, whose reference is therefore another. */
  lemma FoundLater(c: Course, i: nat, j: nat)
    requires Valid(c) && i < j < |c.vs| && FoundAt(c, i).Some? && FoundAt(c, j).Some?
    ensures c.vs[i] != c.vs[j]
  {
    var doc := FoundAt(c, j).value;
    FirstHitMember(c.lefts[j], KeyFor(c.vs[j]));
    LeftShrinks(c, i + 1, j, doc);
    ActiveStep(c, i);
    MissedMembers(c.lefts[i], KeyFor(c.vs[i]), doc);
  }

  lemma FoundIsTarget(c: Course, targets: seq<Option<Document>>, start: int, i: nat)
    requires Valid(c) && i < |c.vs| && targets == Found(c) && start == |c.docs| - Active(c.vs)
    ensures Target(c.vs, targets, c.docs, start, i)
  {
    assert targets[i] == FoundAt(c, i);
    if !Inert(c.vs[i]) {
      FoundSome(c, i);
      FoundNamed(c, i);
      FoundCounts(c, i);
      forall d | d in c.docs && Hits(d, KeyFor(c.vs[i])) && d != targets[i].value
        ensures Taken(targets, i, d)
      {
        FoundBefore(c, targets, i, d);
      }
    }
  }

  lemma FoundSome(c: Course, i: nat)
    requires Valid(c) && i < |c.vs| && !Inert(c.vs[i])
    ensures FoundAt(c, i).Some?
  {
    ActiveStep(c, i);
  }

  /** Another document with the leaf's key was found by an earlier leaf. */
  lemma FoundBefore(c: Course, targets: seq<Option<Document>>, i: nat, d: Document)
    requires Valid(c) && i < |c.vs| && targets == Found(c) && FoundAt(c, i).Some?
    requires d in c.docs && Hits(d, KeyFor(c.vs[i])) && d != FoundAt(c, i).value
    ensures Taken(targets, i, d)
  {
    ActiveStep(c, i);
    FoundLeft(c, targets, i);
    assert d in multiset(c.docs);
    assert d in Somes(targets[..i]);
    SomesMember(targets[..i], d);
    assert Taken(targets[..i], i, d);
  }

  lemma FoundCounts(c: Course, i: nat)
    requires Valid(c) && i < |c.vs| && FoundAt(c, i).Some?
    ensures multiset(c.docs)[FoundAt(c, i).value] == 1
  {
    var doc, targets := FoundAt(c, i).value, Found(c);
    FoundLeft(c, targets, i);
    ActiveStep(c, i);
    MissedMembers(c.lefts[i], KeyFor(c.vs[i]), doc);
    assert doc !in c.lefts[i + 1];
    forall j | 0 <= j < i
      ensures targets[..i][j] != Some(doc)
    {
      if FoundAt(c, j).Some? {
        FoundOnce(c, j, i);
      }
    }
    SomesMember(targets[..i], doc);
    assert multiset(Somes(targets[..i]))[doc] == 0;
    assert multiset(c.lefts[i + 1])[doc] == 0;
  }

  lemma FoundDistinct(c: Course, targets: seq<Option<Document>>)
    requires Valid(c) && targets == Found(c)
    ensures forall i, j :: 0 <= i < j < |c.vs| && targets[i].Some? ==> targets[i] != targets[j]
  {
    forall i, j | 0 <= i < j < |c.vs| && targets[i].Some?
      ensures targets[i] != targets[j]
    {
      FoundOnce(c, i, j);
    }
  }

  lemma FoundTargets(c: Course, targets: seq<Option<Document>>, start: int)
    requires Valid(c) && targets == Found(c) && start == |c.docs| - Active(c.vs)
    ensures forall i :: 0 <= i < |c.vs| ==> Target(c.vs, targets, c.docs, start, i)
  {
    forall i | 0 <= i < |c.vs|
      ensures Target(c.vs, targets, c.docs, start, i)
    {
      FoundIsTarget(c, targets, start, i);
    }
  }

  lemma BackIsAttachable(c: Course)
    requires Valid(c)
    ensures Attachable(c.vs, c.docs)
  {
    var targets, start := Found(c), |c.docs| - Active(c.vs);
    FoundDistinct(c, targets);
    FoundTargets(c, targets, start);
    assert Referring(c.vs, targets, c.docs, start);
  }
}
