/**
 Denormalising and then normalising: exactly when the references come back and the document list
 comes back reordered but complete.
 */
module Reattach {
  import opened Wrappers
  import opened Sequences
  import opened Numerals
  import opened Json
  import opened References
  import opened Traversal
  import opened Documents
  import opened FreshNames
  import opened Targets
  import opened Courses

  /**
   For every schema, value and list: normalising the denormalised value against the leftover list
   gives the value on its declared keys and a permutation of the original documents if and only
   if every file leaf is inert or names a listed document that is its alone.
   */
  lemma DenormalizeThenNormalize(s: Schema, v: Value, docs: seq<Document>, depth: int)
    requires UniqueKeys(s, depth)
    ensures var (value, rest) := Denormalized(s, v, docs, depth);
      var (back, listed) := Normalized(s, value, rest, depth);
      back == Project(s, v, depth) && multiset(listed) == multiset(docs) <==> Attachable(Leaves(s, v, depth), docs)
  {
    var leaves := Leaves(s, v, depth);
    var (values, rest) := Thread(DenormalizeLeaf, leaves, docs);
    var back := Thread(NormalizeLeaf, values, rest).0;
    PlugOfPlug(s, v, depth, values, back);
    PlugInjective(s, v, depth, back, leaves);
    if Attachable(leaves, docs) {
      AttachableComesBack(leaves, docs);
    }
    if ComesBack(leaves, docs) {
      var c := CourseOf(leaves, docs);
      BackIsAttachable(c);
    }
  }

  // References to saved documents, in a list without repeated ids

  /** `$document-${n}` for a positive `n`. */
  ghost predicate Saved(v: Value) {
    exists n: nat :: n > 0 && v == Str(SavedReference(Num(n)))
  }

  /** The leaf names this document, and no other document has its key. */
  ghost predicate Answers(v: Value, doc: Document, docs: seq<Document>) {
    doc in docs && TruthyId(doc).Some? && Names(v, doc, 0) && forall d :: d in docs && Hits(d, KeyFor(v)) ==> d == doc
  }

  ghost predicate Answered(vs: seq<Value>, docs: seq<Document>) {
    (forall i :: 0 <= i < |vs| && !Inert(vs[i]) ==> exists doc :: Answers(vs[i], doc, docs)) &&
    forall i, j :: 0 <= i < j < |vs| && !Inert(vs[i]) ==> vs[i] != vs[j]
  }

  lemma OnceById(docs: seq<Document>, doc: Document)
    requires UniqueIds(docs) && doc in docs && IdOf(doc).Some?
    ensures multiset(docs)[doc] == 1
  {
    var k :| 0 <= k < |docs| && docs[k] == doc;
    var before, after := docs[..k], docs[k + 1..];
    assert docs == before + [doc] + after;
    assert multiset(docs) == multiset(before) + multiset{doc} + multiset(after);
    forall i | 0 <= i < |before|
      ensures before[i] != doc
    {
      assert docs[i] == before[i];
    }
    forall i | 0 <= i < |after|
      ensures after[i] != doc
    {
      assert docs[k + 1 + i] == after[i];
    }
  }

  /** A document with a positive number for its id and no tag is hit by that number only. */
  lemma OnlyById(doc: Document, n: nat)
    requires TruthyId(doc).Some? && TruthyId(doc).value.Num? && TruthyId(doc).value.n > 0 && "#id" !in doc
    requires Hits(doc, Dec(n))
    ensures TruthyId(doc).value.n == n
  {
    NumeralReadsBack(n, 10);
  }

  lemma SavedNames(v: Value, doc: Document, n: int)
    requires Saved(v) && Names(v, doc, n)
    ensures TruthyId(doc).Some? && Names(v, doc, 0)
  {
    var k: nat :| k > 0 && v == Str(SavedReference(Num(k)));
    NameHits(v, doc, n);
    SavedReferenceKey(k);
    NumeralReadsBack(k, 10);
    if TruthyId(doc).None? {
      TagIsNoNumeral(n);
    }
  }

  lemma TagIsNoNumeral(n: nat)
    ensures !IsNumeral(FreshTag(n), 10)
  {
    assert !IsDigit(FreshTag(n)[0], 10);
  }

  lemma TargetAnswers(vs: seq<Value>, targets: seq<Option<Document>>, docs: seq<Document>, start: int, i: nat)
    requires Referring(vs, targets, docs, start) && i < |vs| && targets[i].Some?
    requires forall k :: 0 <= k < |vs| ==> Inert(vs[k]) || Saved(vs[k])
    ensures Answers(vs[i], targets[i].value, docs)
  {
    var doc := targets[i].value;
    TargetSaved(vs, targets, docs, start, i);
    NamedAt(vs, targets, docs, start, i);
    SavedNames(vs[i], doc, start + Active(vs[..i]));
    assert doc in multiset(docs);
    forall d | d in docs && Hits(d, KeyFor(vs[i])) && d != doc
      ensures false
    {
      OthersTaken(vs, targets, docs, start, i, d);
      var j :| 0 <= j < i && targets[j] == Some(d);
      TargetSaved(vs, targets, docs, start, j);
      EarlierMisses(vs, targets, docs, start, j, i);
    }
  }

  lemma TargetSaved(vs: seq<Value>, targets: seq<Option<Document>>, docs: seq<Document>, start: int, i: nat)
    requires Referring(vs, targets, docs, start) && i < |vs| && targets[i].Some?
    requires forall k :: 0 <= k < |vs| ==> Inert(vs[k]) || Saved(vs[k])
    ensures Saved(vs[i])
  {
    NamedAt(vs, targets, docs, start, i);
    NameHits(vs[i], targets[i].value, start + Active(vs[..i]));
  }

  lemma EarlierMisses(vs: seq<Value>, targets: seq<Option<Document>>, docs: seq<Document>, start: int, j: nat, i: nat)
    requires Referring(vs, targets, docs, start) && j < i < |vs| && targets[i].Some? && targets[j].Some?
    requires Saved(vs[i]) && Saved(vs[j])
    ensures !Hits(targets[j].value, KeyFor(vs[i]))
  {
    NamedAt(vs, targets, docs, start, i);
    NamedAt(vs, targets, docs, start, j);
    var d, n := targets[j].value, TruthyId(targets[i].value);
    SavedNames(vs[i], targets[i].value, start + Active(vs[..i]));
    SavedNames(vs[j], d, start + Active(vs[..j]));
    NameHits(vs[i], targets[i].value, 0);
    NameHits(vs[j], d, 0);
    KeysDiffer(vs, targets, docs, start, j, i);
    if Hits(d, Dec(n.value.n)) {
      OnlyById(d, n.value.n);
    }
  }

  ghost predicate Suits(v: Value, target: Option<Document>, docs: seq<Document>) {
    match target case None => Inert(v) case Some(doc) => !Inert(v) && Answers(v, doc, docs)
  }

  lemma SuitableTarget(v: Value, docs: seq<Document>) returns (target: Option<Document>)
    requires Inert(v) || exists doc :: Answers(v, doc, docs)
    ensures Suits(v, target, docs)
  {
    if Inert(v) {
      target := None;
    } else {
      var doc :| Answers(v, doc, docs);
      target := Some(doc);
    }
  }

  lemma {:induction false} AnsweredTargets(vs: seq<Value>, docs: seq<Document>) returns (targets: seq<Option<Document>>)
    requires forall i :: 0 <= i < |vs| ==> Inert(vs[i]) || exists doc :: Answers(vs[i], doc, docs)
    ensures |targets| == |vs| && forall i :: 0 <= i < |vs| ==> Suits(vs[i], targets[i], docs)
  {
    if vs == [] {
      targets := [];
    } else {
      var front := AnsweredTargets(Init(vs), docs);
      var last := SuitableTarget(Last(vs), docs);
      targets := front + [last];
    }
  }

  /**
   Leaves that refer to saved documents come back, with the list, if and only if each names a
   listed document that nothing else answers for and no two leaves are the same reference.
   */
  lemma SavedReattach(vs: seq<Value>, docs: seq<Document>)
    requires UniqueIds(docs)
    requires forall i :: 0 <= i < |vs| ==> Inert(vs[i]) || Saved(vs[i])
    ensures Attachable(vs, docs) <==> Answered(vs, docs)
  {
    if Attachable(vs, docs) {
      AttachableAnswered(vs, docs);
    }
    if Answered(vs, docs) {
      AnsweredAttachable(vs, docs);
    }
  }

  lemma AnsweredAttachable(vs: seq<Value>, docs: seq<Document>)
    requires UniqueIds(docs) && Answered(vs, docs)
    ensures Attachable(vs, docs)
  {
    var start := |docs| - Active(vs);
    var targets := AnsweredTargets(vs, docs);
    AnsweredReferring(vs, docs, targets, start);
    assert AttachableFrom(vs, docs, start);
  }

  lemma AttachableAnswered(vs: seq<Value>, docs: seq<Document>)
    requires Attachable(vs, docs)
    requires forall i :: 0 <= i < |vs| ==> Inert(vs[i]) || Saved(vs[i])
    ensures Answered(vs, docs)
  {
    var start := |docs| - Active(vs);
    var targets :| Referring(vs, targets, docs, start);
    forall i | 0 <= i < |vs| && !Inert(vs[i])
      ensures exists doc :: Answers(vs[i], doc, docs)
    {
      ActiveTarget(vs, targets, docs, start, i);
      TargetAnswers(vs, targets, docs, start, i);
    }
    forall i, j | 0 <= i < j < |vs| && !Inert(vs[i])
      ensures vs[i] != vs[j]
    {
      if !Inert(vs[j]) {
        ActiveTarget(vs, targets, docs, start, i);
        ActiveTarget(vs, targets, docs, start, j);
        KeysDiffer(vs, targets, docs, start, i, j);
      }
    }
  }

  lemma ActiveTarget(vs: seq<Value>, targets: seq<Option<Document>>, docs: seq<Document>, start: int, i: nat)
    requires Referring(vs, targets, docs, start) && i < |vs| && !Inert(vs[i])
    ensures targets[i].Some?
  {
    assert Target(vs, targets, docs, start, i);
  }

  lemma AnsweredReferring(vs: seq<Value>, docs: seq<Document>, targets: seq<Option<Document>>, start: int)
    requires UniqueIds(docs) && Answered(vs, docs) && |targets| == |vs|
    requires forall i :: 0 <= i < |vs| ==> Suits(vs[i], targets[i], docs)
    ensures Referring(vs, targets, docs, start)
  {
    forall i | 0 <= i < |vs|
      ensures Target(vs, targets, docs, start, i)
    {
      assert Suits(vs[i], targets[i], docs);
      if targets[i].Some? {
        OnceById(docs, targets[i].value);
      }
    }
    forall i, j | 0 <= i < j < |vs| && targets[i].Some?
      ensures targets[i] != targets[j]
    {
      assert Suits(vs[i], targets[i], docs) && Suits(vs[j], targets[j], docs);
      if targets[i] == targets[j] {
        NameUnique(vs[i], vs[j], targets[i].value, 0, 0);
      }
    }
  }
}
