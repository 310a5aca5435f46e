/**
 When a caller need not worry: a starting list with distinct ids never shrinks, so the
 tags named after its length never repeat.
 */
module FreshNames {
  import opened Wrappers
  import opened Sequences
  import opened Numerals
  import opened Json
  import opened References
  import opened Documents
  import opened RoundTrip

  ghost predicate UniqueIds(docs: seq<Document>) {
    forall i, j :: 0 <= i < j < |docs| && IdOf(docs[i]).Some? ==> IdOf(docs[i]) != IdOf(docs[j])
  }

  /** No starting tag reads as a saved id of `vs` or as a tag not yet handed out. */
  ghost predicate TagsApart(vs: seq<Value>, docs: seq<Document>) {
    forall doc :: doc in docs && "#id" in doc ==>
      (forall n: nat :: n >= |docs| ==> doc["#id"] != Str(FreshTag(n))) &&
      (forall i :: 0 <= i < |vs| && SavedId(vs[i]).Some? ==> doc["#id"] != Str(Text(SavedId(vs[i]).value)))
  }

  lemma {:induction false} WithoutIdRemovesOne(docs: seq<Document>, id: Value)
    requires UniqueIds(docs)
    ensures UniqueIds(WithoutId(docs, id))
    ensures |docs| <= |WithoutId(docs, id)| + 1
  {
    if docs != [] {
      var front, last := Init(docs), Last(docs);
      assert forall i :: 0 <= i < |front| ==> front[i] == docs[i];
      WithoutIdRemovesOne(front, id);
      if IdOf(last) == Some(id) {
        forall doc | doc in front
          ensures IdOf(doc) != Some(id)
        {
          var i :| 0 <= i < |front| && front[i] == doc;
          assert IdOf(docs[i]).Some? ==> IdOf(docs[i]) != IdOf(docs[|docs| - 1]);
        }
        WithoutAbsentId(front, id);
      } else {
        var rest := WithoutId(front, id);
        forall i | 0 <= i < |rest| && IdOf(rest[i]).Some?
          ensures IdOf(rest[i]) != IdOf(last)
        {
          WithoutIdMembers(front, id, rest[i]);
          var k :| 0 <= k < |front| && front[k] == rest[i];
          assert IdOf(docs[k]) != IdOf(docs[|docs| - 1]);
        }
      }
    }
  }

  lemma {:induction false} KeptUnique(vs: seq<Value>, docs: seq<Document>)
    requires UniqueIds(docs)
    ensures UniqueIds(Kept(vs, docs))
  {
    if vs != [] {
      KeptUnique(Init(vs), docs);
      if SavedId(Last(vs)).Some? {
        WithoutIdRemovesOne(Kept(Init(vs), docs), SavedId(Last(vs)).value);
      }
    }
  }

  lemma {:induction false} KeptMembers(vs: seq<Value>, docs: seq<Document>, doc: Document)
    ensures doc in Kept(vs, docs) <==>
            doc in docs && forall i :: 0 <= i < |vs| && SavedId(vs[i]).Some? ==> IdOf(doc) != SavedId(vs[i])
  {
    if vs != [] {
      KeptMembers(Init(vs), docs, doc);
      assert forall i :: 0 <= i < |vs| - 1 ==> Init(vs)[i] == vs[i];
      if SavedId(Last(vs)).Some? {
        WithoutIdMembers(Kept(Init(vs), docs), SavedId(Last(vs)).value, doc);
      }
    }
  }

  /** One more leaf never makes the list shorter, and an unsaved one makes it longer. */
  lemma FreshNumberStep(vs: seq<Value>, docs: seq<Document>, i: nat)
    requires UniqueIds(docs) && i + 1 < |vs|
    ensures FreshNumber(vs, docs, i) <= FreshNumber(vs, docs, i + 1)
    ensures Extracted(vs[i]) && SavedId(vs[i]).None? ==> FreshNumber(vs, docs, i) < FreshNumber(vs, docs, i + 1)
  {
    assert Init(vs[..i + 1]) == vs[..i] && Last(vs[..i + 1]) == vs[i];
    KeptUnique(vs[..i], docs);
    if SavedId(vs[i]).Some? {
      WithoutIdRemovesOne(Kept(vs[..i], docs), SavedId(vs[i]).value);
    }
  }

  lemma {:induction false} FreshNumbersGrow(vs: seq<Value>, docs: seq<Document>, i: nat, j: nat)
    requires UniqueIds(docs) && i <= j < |vs|
    ensures |docs| <= FreshNumber(vs, docs, i) <= FreshNumber(vs, docs, j)
    ensures i < j && Extracted(vs[i]) && SavedId(vs[i]).None? ==> FreshNumber(vs, docs, i) < FreshNumber(vs, docs, j)
    decreases j
  {
    if i < j {
      FreshNumbersGrow(vs, docs, i, j - 1);
      FreshNumberStep(vs, docs, j - 1);
    } else if j > 0 {
      FreshNumbersGrow(vs, docs, j - 1, j - 1);
      FreshNumberStep(vs, docs, j - 1);
    } else {
      assert vs[..0] == [];
    }
  }

  /** Fresh tags never repeat. */
  lemma FreshTagsDistinct(vs: seq<Value>, docs: seq<Document>, i: nat, j: nat)
    requires UniqueIds(docs) && i < j < |vs|
    requires Extracted(vs[i]) && SavedId(vs[i]).None?
    ensures FreshTag(FreshNumber(vs, docs, i)) != FreshTag(FreshNumber(vs, docs, j))
  {
    FreshNumbersGrow(vs, docs, i, j);
    var m, n := FreshNumber(vs, docs, i), FreshNumber(vs, docs, j);
    if FreshTag(m) == FreshTag(n) {
      assert FreshTag(m)[8..] == Dec(m) && FreshTag(n)[8..] == Dec(n);
      NumeralInjective(m, n, 10);
    }
  }

  lemma SavedKey(id: Value, n: nat)
    requires id.Num? && id.n > 0
    ensures Text(id) != FreshTag(n)
    ensures Text(id) != "" && IsNumeral(Text(id), 10) && NumeralValue(Text(id), 10) == id.n
    ensures !IsNumeral(FreshTag(n), 10)
  {
    NumeralReadsBack(id.n, 10);
    assert !IsDigit(FreshTag(n)[0], 10);
  }

  /**
   Distinct starting ids, distinct leaf ids and starting tags out of the way are enough
   for the round trip.
   */
  lemma UniqueStartIsReady(vs: seq<Value>, docs: seq<Document>)
    requires LeavesReady(vs) && DistinctIds(vs)
    requires UniqueIds(docs) && TagsApart(vs, docs)
    ensures Ready(vs, docs)
  {
    forall i, j | 0 <= i < j < |vs| && Extracted(vs[i]) && Extracted(vs[j])
      ensures KeyOf(vs, docs, i) != KeyOf(vs, docs, j)
    {
      match (SavedId(vs[i]), SavedId(vs[j]))
      case (None, None) => FreshTagsDistinct(vs, docs, i, j);
      case (Some(id), None) => SavedKey(id, FreshNumber(vs, docs, j));
      case (None, Some(id)) => SavedKey(id, FreshNumber(vs, docs, i));
      case (Some(x), Some(y)) => SavedKey(x, 0); SavedKey(y, 0);
    }
    forall i, doc | 0 <= i < |vs| && Extracted(vs[i]) && doc in Kept(vs, docs)
      ensures !Hits(doc, KeyOf(vs, docs, i))
    {
      KeptMembers(vs, docs, doc);
      match SavedId(vs[i])
      case Some(id) => SavedKey(id, 0);
      case None =>
        FreshNumbersGrow(vs, docs, i, i);
        SavedKey(Num(1), FreshNumber(vs, docs, i));
    }
  }

  /** With no starting documents, as in a signup, distinct ready leaves are exactly what is needed. */
  lemma EmptyStart(vs: seq<Value>)
    ensures Ready(vs, []) <==> LeavesReady(vs) && DistinctIds(vs)
  {
    if LeavesReady(vs) && DistinctIds(vs) {
      UniqueStartIsReady(vs, []);
    }
    if Ready(vs, []) {
      KeysGiveIds(vs, []);
    }
  }
}
