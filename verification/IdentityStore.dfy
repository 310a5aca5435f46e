/**
 The attribute and document parts of the identity reducer and the selectors that observe them
 (src/common/identity/reducers.js:51-233, src/common/identity/selectors.js:80-97): an id list and a
 by-id index.
 */
module IdentityStore {
  import opened Wrappers
  import opened Json

  /** An attribute or a document; its `id` is a number. */
  type Item = m: map<string, Value> | "id" in m && m["id"].Num? witness map["id" := Num(0)]

  datatype Index = Index(ids: seq<int>, byId: map<int, Item>)

  datatype State = State(attributes: Index, documents: Index)

  const EMPTY := Index([], map[])

  datatype Action =
    | DocumentsSet(walletId: Value, documents: seq<Item>)
    | DocumentsDelete(walletId: Value)
    | AttributesSet(walletId: Value, attributes: seq<Item>)
    | AttributesDelete(walletId: Value)
    | AttributeDocumentsSet(attributeId: Value, documents: seq<Item>)
    | AttributeDocumentsDelete(attributeId: Value)
    | AttributeAdd(item: Item)
    | DocumentAdd(item: Item)
    | AttributeUpdate(item: Item)
    | DocumentUpdate(item: Item)
    | DocumentDelete(id: int)
    | AttributeDelete(id: int)

  function IdOf(m: Item): int {
    m["id"].n
  }

  // The index

  function Ids(items: seq<Item>): seq<int> {
    seq(|items|, i requires 0 <= i < |items| => IdOf(items[i]))
  }

  function ById(items: seq<Item>): map<int, Item> {
    if items == [] then map[] else ById(items[..|items| - 1])[IdOf(items[|items| - 1]) := items[|items| - 1]]
  }

  function Reindexed(items: seq<Item>): Index {
    Index(Ids(items), ById(items))
  }

  /** `m` is the last of the items with its id. */
  ghost predicate LastOf(items: seq<Item>, m: Item) {
    exists i :: 0 <= i < |items| && items[i] == m && forall j :: i < j < |items| ==> IdOf(items[j]) != IdOf(m)
  }

  /** The set reducers' last two statements: the accumulator written key by key. */
  method Reindex(items: seq<Item>) returns (ix: Index)
    ensures ix == Reindexed(items)
    ensures forall id :: id in ix.byId <==> id in ix.ids
    ensures forall id :: id in ix.byId ==> IdOf(ix.byId[id]) == id && LastOf(items, ix.byId[id])
  {
    var byId: map<int, Item> := map[];
    var ids: seq<int> := [];
    for i := 0 to |items|
      invariant byId == ById(items[..i]) && ids == Ids(items[..i])
    {
      assert items[..i + 1][..i] == items[..i];
      byId := byId[IdOf(items[i]) := items[i]];
      ids := ids + [IdOf(items[i])];
    }
    assert items[..|items|] == items;
    ix := Index(ids, byId);
    forall id { ByIdMeans(items, id); }
    forall id | id in byId { ByIdIsLast(items, id); }
  }

  lemma {:induction false} ByIdIsLast(items: seq<Item>, id: int)
    requires id in ById(items)
    ensures IdOf(ById(items)[id]) == id && LastOf(items, ById(items)[id])
  {
    var front, last := items[..|items| - 1], |items| - 1;
    if IdOf(items[last]) == id {
      assert items[last] == ById(items)[id];
    } else {
      ByIdIsLast(front, id);
      var i :| 0 <= i < |front| && front[i] == ById(front)[id] && forall j :: i < j < |front| ==> IdOf(front[j]) != id;
      assert items[i] == ById(items)[id];
      assert forall j :: i < j < last ==> items[j] == front[j];
    }
  }

  /** Every listed id is indexed, every indexed id listed, each entry under its own id. */
  ghost predicate Agrees(ix: Index) {
    (forall i :: 0 <= i < |ix.ids| ==> ix.ids[i] in ix.byId) &&
    (forall id :: id in ix.byId ==> id in ix.ids && IdOf(ix.byId[id]) == id)
  }

  /** `state.documents.map(id => state.documentsById[id])` */
  function Items(ix: Index): seq<Item>
    requires Agrees(ix)
  {
    seq(|ix.ids|, i requires 0 <= i < |ix.ids| => ix.byId[ix.ids[i]])
  }

  /** The conditions reducers and selectors filter by. */
  datatype Keep =
    | WithWallet
    | OfWallet(walletId: Value)
    | NotOfWallet(walletId: Value)
    | OfAttribute(attributeId: Value)
    | NotOfAttribute(attributeId: Value)
    | OtherThan(id: int)
    | Both(first: Keep, second: Keep)

  predicate Passes(keep: Keep, m: Item) {
    match keep
    case WithWallet => Field(m, "walletId").Some?
    case OfWallet(w) => Field(m, "walletId") == Some(w)
    case NotOfWallet(w) => Field(m, "walletId") != Some(w)
    case OfAttribute(a) => Field(m, "attributeId") == Some(a)
    case NotOfAttribute(a) => Field(m, "attributeId") != Some(a)
    case OtherThan(id) => IdOf(m) != id
    case Both(first, second) => Passes(first, m) && Passes(second, m)
  }

  function Filtered(items: seq<Item>, keep: Keep): seq<Item> {
    if items == [] then []
    else Filtered(items[..|items| - 1], keep) + if Passes(keep, items[|items| - 1]) then [items[|items| - 1]] else []
  }

  /** Keep some of the items, append the payload, index the result. */
  function Replace(ix: Index, keep: Keep, payload: seq<Item>): Index
    requires Agrees(ix)
  {
    Reindexed(Filtered(Items(ix), keep) + payload)
  }

  function Add(ix: Index, item: Item): Index {
    Index(ix.ids + [IdOf(item)], ix.byId[IdOf(item) := item])
  }

  function Update(ix: Index, item: Item): Index
    requires Agrees(ix)
  {
    if IdOf(item) !in ix.ids then ix
    else ix.(byId := ix.byId[IdOf(item) := Overlay(ix.byId[IdOf(item)], item)])
  }

  /** `{ ...item, ...patch }` */
  function Overlay(item: Item, patch: Item): Item {
    assert (item + patch)["id"] == patch["id"];
    item + patch
  }

  function WithoutIds(ids: seq<int>, id: int): seq<int> {
    if ids == [] then []
    else WithoutIds(ids[..|ids| - 1], id) + if ids[|ids| - 1] == id then [] else [ids[|ids| - 1]]
  }

  function Delete(ix: Index, id: int): Index {
    if id !in ix.ids then ix else Index(WithoutIds(ix.ids, id), ix.byId - {id})
  }

  // The reducer

  ghost predicate Consistent(s: State) {
    Agrees(s.attributes) && Agrees(s.documents)
  }

  /**
   The reducer. `setDocumentsReducer` compares with the action's own `walletId`, which is not
   there, so it keeps every document that has one; an update of a document has the type string
   of an addition and is handled as one.
   */
  function Reduce(s: State, a: Action): State
    requires Consistent(s)
  {
    match a
    case DocumentsSet(_, documents) => s.(documents := Replace(s.documents, WithWallet, documents))
    case DocumentsDelete(w) => s.(documents := Replace(s.documents, NotOfWallet(w), []))
    case AttributesSet(w, attributes) => s.(attributes := Replace(s.attributes, NotOfWallet(w), attributes))
    case AttributesDelete(w) => s.(attributes := Replace(s.attributes, NotOfWallet(w), []))
    case AttributeDocumentsSet(a, documents) =>
      s.(documents := Replace(s.documents, NotOfAttribute(a), documents))
    case AttributeDocumentsDelete(a) => s.(documents := Replace(s.documents, NotOfAttribute(a), []))
    case AttributeAdd(item) => s.(attributes := Add(s.attributes, item))
    case DocumentAdd(item) => s.(documents := Add(s.documents, item))
    case AttributeUpdate(item) => s.(attributes := Update(s.attributes, item))
    case DocumentUpdate(item) => s.(documents := Add(s.documents, item))
    case DocumentDelete(id) => s.(documents := Delete(s.documents, id))
    case AttributeDelete(id) => s.(attributes := Delete(s.attributes, id))
  }

  /** The set and delete reducers: keep some of the items, append the payload, index what results. */
  method ReplaceItems(ix: Index, keep: Keep, payload: seq<Item>) returns (r: Index)
    requires Agrees(ix)
    ensures r == Replace(ix, keep, payload)
  {
    r := Reindex(Filtered(Items(ix), keep) + payload);
  }

  /** The switch over the action's type. */
  method Dispatch(s: State, a: Action) returns (t: State)
    requires Consistent(s)
    ensures t == Reduce(s, a) && Consistent(t)
  {
    ReduceKeeps(s, a);
    var attributes, documents := s.attributes, s.documents;
    match a {
      case DocumentsSet(_, payload) => documents := ReplaceItems(documents, WithWallet, payload);
      case DocumentsDelete(w) => documents := ReplaceItems(documents, NotOfWallet(w), []);
      case AttributesSet(w, payload) => attributes := ReplaceItems(attributes, NotOfWallet(w), payload);
      case AttributesDelete(w) => attributes := ReplaceItems(attributes, NotOfWallet(w), []);
      case AttributeDocumentsSet(id, payload) => documents := ReplaceItems(documents, NotOfAttribute(id), payload);
      case AttributeDocumentsDelete(id) => documents := ReplaceItems(documents, NotOfAttribute(id), []);
      case AttributeAdd(item) => attributes := Add(attributes, item);
      case DocumentAdd(item) => documents := Add(documents, item);
      case AttributeUpdate(item) => attributes := Update(attributes, item);
      case DocumentUpdate(item) => documents := Add(documents, item);
      case DocumentDelete(id) => documents := Delete(documents, id);
      case AttributeDelete(id) => attributes := Delete(attributes, id);
    }
    t := State(attributes, documents);
  }

  // Agreement

  lemma {:induction false} ByIdMeans(items: seq<Item>, id: int)
    ensures id in ById(items) <==> id in Ids(items)
    ensures id in ById(items) ==> IdOf(ById(items)[id]) == id && ById(items)[id] in items
  {
    if items != [] {
      var front, last := items[..|items| - 1], items[|items| - 1];
      ByIdMeans(front, id);
      IdsAppend(front, last);
      assert items == front + [last];
    }
  }

  lemma IdsAppend(front: seq<Item>, last: Item)
    ensures Ids(front + [last]) == Ids(front) + [IdOf(last)]
  {
  }

  lemma ReindexedAgrees(items: seq<Item>)
    ensures Agrees(Reindexed(items))
  {
    forall id { ByIdMeans(items, id); }
    var ix := Reindexed(items);
    forall i | 0 <= i < |ix.ids|
      ensures ix.ids[i] in ix.byId
    {
      assert ix.ids[i] in Ids(items);
    }
  }

  lemma {:induction false} WithoutIdsMembers(ids: seq<int>, id: int, k: int)
    ensures k in WithoutIds(ids, id) <==> k in ids && k != id
  {
    if ids != [] {
      WithoutIdsMembers(ids[..|ids| - 1], id, k);
      assert ids == ids[..|ids| - 1] + [ids[|ids| - 1]];
    }
  }

  lemma DeleteAgrees(ix: Index, id: int)
    requires Agrees(ix)
    ensures Agrees(Delete(ix, id))
  {
    forall k { WithoutIdsMembers(ix.ids, id, k); }
    var after := Delete(ix, id);
    forall i | 0 <= i < |after.ids|
      ensures after.ids[i] in after.byId
    {
      assert after.ids[i] in after.ids;
      assert after.ids[i] in ix.ids;
    }
  }

  lemma AddAgrees(ix: Index, item: Item)
    requires Agrees(ix)
    ensures Agrees(Add(ix, item))
  {
    assert forall id :: id in ix.ids ==> id in ix.ids + [IdOf(item)];
    assert (ix.ids + [IdOf(item)])[|ix.ids|] == IdOf(item);
  }

  lemma ReduceKeeps(s: State, a: Action)
    requires Consistent(s)
    ensures Consistent(Reduce(s, a))
  {
    match a
    case DocumentsSet(_, documents) =>
      ReindexedAgrees(Filtered(Items(s.documents), WithWallet) + documents);
    case DocumentsDelete(w) =>
      ReindexedAgrees(Filtered(Items(s.documents), NotOfWallet(w)) + []);
    case AttributesSet(w, attributes) =>
      ReindexedAgrees(Filtered(Items(s.attributes), NotOfWallet(w)) + attributes);
    case AttributesDelete(w) =>
      ReindexedAgrees(Filtered(Items(s.attributes), NotOfWallet(w)) + []);
    case AttributeDocumentsSet(a, documents) =>
      ReindexedAgrees(Filtered(Items(s.documents), NotOfAttribute(a)) + documents);
    case AttributeDocumentsDelete(a) =>
      ReindexedAgrees(Filtered(Items(s.documents), NotOfAttribute(a)) + []);
    case AttributeAdd(item) => AddAgrees(s.attributes, item);
    case DocumentAdd(item) => AddAgrees(s.documents, item);
    case AttributeUpdate(item) =>
    case DocumentUpdate(item) => AddAgrees(s.documents, item);
    case DocumentDelete(id) => DeleteAgrees(s.documents, id);
    case AttributeDelete(id) => DeleteAgrees(s.attributes, id);
  }

  ghost predicate IsRun(states: seq<State>, actions: seq<Action>) {
    |states| == |actions| + 1 && states[0] == State(EMPTY, EMPTY) &&
    forall i :: 0 <= i < |actions| ==> Consistent(states[i]) ==> states[i + 1] == Reduce(states[i], actions[i])
  }

  /** Over every sequence of actions the id lists and the indexes agree. */
  lemma {:induction false} StoreConsistent(states: seq<State>, actions: seq<Action>, i: nat)
    requires IsRun(states, actions) && i < |states|
    ensures Consistent(states[i])
  {
    if i > 0 {
      StoreConsistent(states, actions, i - 1);
      ReduceKeeps(states[i - 1], actions[i - 1]);
      assert states[i - 1 + 1] == Reduce(states[i - 1], actions[i - 1]);
    }
  }

  // Observation

  /** `selectIdAttributes(state, walletId)`; over documents, what deleting the wallet's documents removes. */
  function Select(ix: Index, walletId: Value): seq<Item>
    requires Agrees(ix)
  {
    Filtered(Items(ix), OfWallet(walletId))
  }

  ghost predicate DistinctIds(items: seq<Item>) {
    forall i, j :: 0 <= i < j < |items| ==> IdOf(items[i]) != IdOf(items[j])
  }

  /** What an item reads as once `payload` is indexed after it. */
  function Current(m: Item, payload: seq<Item>): Item {
    if IdOf(m) in ById(payload) then ById(payload)[IdOf(m)] else m
  }

  function CurrentAll(items: seq<Item>, payload: seq<Item>): seq<Item> {
    seq(|items|, i requires 0 <= i < |items| => Current(items[i], payload))
  }

  /** An item of the list has an id of the payload. */
  ghost predicate Listed(payload: seq<Item>, id: int) {
    exists p :: p in payload && IdOf(p) == id
  }

  lemma {:induction false} FilteredMembers(items: seq<Item>, keep: Keep, m: Item)
    ensures m in Filtered(items, keep) <==> m in items && Passes(keep, m)
  {
    if items != [] {
      FilteredMembers(items[..|items| - 1], keep, m);
      assert items == items[..|items| - 1] + [items[|items| - 1]];
    }
  }

  lemma {:induction false} FilteredConcat(a: seq<Item>, b: seq<Item>, keep: Keep)
    ensures Filtered(a + b, keep) == Filtered(a, keep) + Filtered(b, keep)
  {
    if b == [] {
      assert a + b == a;
    } else {
      FilteredConcat(a, b[..|b| - 1], keep);
      assert (a + b)[..|a + b| - 1] == a + b[..|b| - 1];
    }
  }

  lemma FilteredAppend(items: seq<Item>, m: Item, keep: Keep)
    ensures Filtered(items + [m], keep) == Filtered(items, keep) + if Passes(keep, m) then [m] else []
  {
    assert (items + [m])[..|items + [m]| - 1] == items;
  }

  lemma {:induction false} FilteredTwice(items: seq<Item>, keep: Keep, also: Keep, kept: seq<Item>)
    requires kept == Filtered(items, keep)
    ensures Filtered(kept, also) == Filtered(items, Both(keep, also))
    decreases |items|
  {
    if items != [] {
      var front, last := items[..|items| - 1], items[|items| - 1];
      var before := Filtered(front, keep);
      FilteredTwice(front, keep, also, before);
      if Passes(keep, last) {
        FilteredAppend(before, last, also);
      } else {
        assert kept == before;
      }
    }
  }

  lemma {:induction false} FilteredSame(items: seq<Item>, p: Keep, q: Keep)
    requires forall m :: m in items ==> (Passes(p, m) <==> Passes(q, m))
    ensures Filtered(items, p) == Filtered(items, q)
  {
    if items != [] {
      assert items == items[..|items| - 1] + [items[|items| - 1]];
      FilteredSame(items[..|items| - 1], p, q);
    }
  }

  lemma {:induction false} FilteredAll(items: seq<Item>, keep: Keep)
    ensures (forall m :: m in items ==> Passes(keep, m)) ==> Filtered(items, keep) == items
    ensures (forall m :: m in items ==> !Passes(keep, m)) ==> Filtered(items, keep) == []
  {
    if items != [] {
      FilteredAll(items[..|items| - 1], keep);
      assert items == items[..|items| - 1] + [items[|items| - 1]];
    }
  }

  lemma CurrentMeans(m: Item, payload: seq<Item>)
    ensures IdOf(m) in ById(payload) <==> Listed(payload, IdOf(m))
    ensures Listed(payload, IdOf(m)) ==> Current(m, payload) in payload && IdOf(Current(m, payload)) == IdOf(m)
  {
    ByIdMeans(payload, IdOf(m));
    if Listed(payload, IdOf(m)) {
      var p :| p in payload && IdOf(p) == IdOf(m);
      var i :| 0 <= i < |payload| && payload[i] == p;
      assert Ids(payload)[i] == IdOf(m);
    }
  }

  lemma {:induction false} ByIdConcat(a: seq<Item>, b: seq<Item>)
    ensures ById(a + b) == ById(a) + ById(b)
  {
    if b == [] {
      assert a + b == a;
    } else {
      ByIdConcat(a, b[..|b| - 1]);
      assert (a + b)[..|a + b| - 1] == a + b[..|b| - 1];
    }
  }

  lemma CurrentAppend(items: seq<Item>, m: Item, payload: seq<Item>)
    ensures CurrentAll(items + [m], payload) == CurrentAll(items, payload) + [Current(m, payload)]
  {
  }

  /** Distinct items read as themselves. */
  lemma OwnCurrent(payload: seq<Item>)
    requires DistinctIds(payload)
    ensures CurrentAll(payload, payload) == payload
  {
    forall i | 0 <= i < |payload|
      ensures CurrentAll(payload, payload)[i] == payload[i]
    {
      CurrentMeans(payload[i], payload);
      var j :| 0 <= j < |payload| && payload[j] == Current(payload[i], payload);
    }
  }

  /** Items of an index share an id only if they are the same item. */
  lemma IndexCoherent(ix: Index, a: Item, b: Item)
    requires Agrees(ix) && a in Items(ix) && b in Items(ix) && IdOf(a) == IdOf(b)
    ensures a == b
  {
    var i :| 0 <= i < |ix.ids| && Items(ix)[i] == a;
    var j :| 0 <= j < |ix.ids| && Items(ix)[j] == b;
    assert ix.ids[i] in ix.byId && ix.ids[j] in ix.byId;
    assert IdOf(a) == ix.ids[i] && IdOf(b) == ix.ids[j];
  }

  lemma {:induction false} CoherentById(items: seq<Item>, m: Item)
    requires m in items && forall a :: a in items && IdOf(a) == IdOf(m) ==> a == m
    ensures IdOf(m) in ById(items) && ById(items)[IdOf(m)] == m
  {
    var i :| 0 <= i < |items| && items[i] == m;
    assert Ids(items)[i] == IdOf(m);
    ByIdMeans(items, IdOf(m));
  }

  /** The items listed after a replacement: those kept, as the payload has them now, and the payload. */
  lemma ReplacedItems(ix: Index, keep: Keep, payload: seq<Item>)
    requires Agrees(ix) && DistinctIds(payload)
    ensures Agrees(Replace(ix, keep, payload))
    ensures Items(Replace(ix, keep, payload)) == CurrentAll(Filtered(Items(ix), keep), payload) + payload
  {
    var kept := Filtered(Items(ix), keep);
    forall m | m in kept
      ensures IdOf(m) in ById(kept) && ById(kept)[IdOf(m)] == m
    {
      KeptById(ix, keep, m);
    }
    ReindexedItems(kept, payload);
    OwnCurrent(payload);
  }

  lemma ReindexedItems(kept: seq<Item>, payload: seq<Item>)
    requires forall m :: m in kept ==> IdOf(m) in ById(kept) && ById(kept)[IdOf(m)] == m
    ensures Agrees(Reindexed(kept + payload))
    ensures Items(Reindexed(kept + payload)) == CurrentAll(kept, payload) + CurrentAll(payload, payload)
  {
    var all, byId := kept + payload, ById(kept) + ById(payload);
    ByIdConcat(kept, payload);
    ReindexedAgrees(all);
    forall m | m in all
      ensures IdOf(m) in byId && byId[IdOf(m)] == Current(m, payload)
    {
      ReindexedAt(kept, payload, m);
    }
    ReindexedAll(all, byId, payload);
    CurrentConcat(kept, payload, payload);
  }

  lemma CurrentConcat(a: seq<Item>, b: seq<Item>, payload: seq<Item>)
    ensures CurrentAll(a + b, payload) == CurrentAll(a, payload) + CurrentAll(b, payload)
  {
  }

  lemma ReindexedAll(all: seq<Item>, byId: map<int, Item>, payload: seq<Item>)
    requires ById(all) == byId && Agrees(Index(Ids(all), byId))
    requires forall m :: m in all ==> IdOf(m) in byId && byId[IdOf(m)] == Current(m, payload)
    ensures Items(Index(Ids(all), byId)) == CurrentAll(all, payload)
  {
    forall i | 0 <= i < |all|
      ensures Items(Index(Ids(all), byId))[i] == Current(all[i], payload)
    {
      assert Ids(all)[i] == IdOf(all[i]) && all[i] in all;
    }
  }

  /** The later entry of an id wins. */
  lemma ReindexedAt(kept: seq<Item>, payload: seq<Item>, m: Item)
    requires m in kept + payload
    requires m in kept ==> IdOf(m) in ById(kept) && ById(kept)[IdOf(m)] == m
    ensures IdOf(m) in ById(kept) + ById(payload)
    ensures (ById(kept) + ById(payload))[IdOf(m)] == Current(m, payload)
  {
    CurrentMeans(m, payload);
  }

  lemma KeptById(ix: Index, keep: Keep, m: Item)
    requires Agrees(ix) && m in Filtered(Items(ix), keep)
    ensures IdOf(m) in ById(Filtered(Items(ix), keep)) && ById(Filtered(Items(ix), keep))[IdOf(m)] == m
  {
    var kept := Filtered(Items(ix), keep);
    FilteredMembers(Items(ix), keep, m);
    forall a | a in kept && IdOf(a) == IdOf(m)
      ensures a == m
    {
      FilteredMembers(Items(ix), keep, a);
      IndexCoherent(ix, a, m);
    }
    CoherentById(kept, m);
  }

  lemma {:induction false} FilteredNone(items: seq<Item>, keep: Keep)
    ensures Filtered(items, keep) == [] <==> forall m :: m in items ==> !Passes(keep, m)
  {
    if items != [] {
      var front, last := items[..|items| - 1], items[|items| - 1];
      assert items == front + [last] && last in items;
      FilteredNone(front, keep);
    }
  }

  /** What an observer reads after a replacement. */
  lemma ReplacedView(ix: Index, keep: Keep, payload: seq<Item>, view: Keep)
    requires Agrees(ix) && DistinctIds(payload)
    ensures Agrees(Replace(ix, keep, payload))
    ensures Filtered(Items(Replace(ix, keep, payload)), view) ==
      Filtered(CurrentAll(Filtered(Items(ix), keep), payload), view) + Filtered(payload, view)
  {
    ReplacedItems(ix, keep, payload);
    FilteredConcat(CurrentAll(Filtered(Items(ix), keep), payload), payload, view);
  }

  /** No kept item, as the payload has it now, is in the view. */
  ghost predicate Apart(ix: Index, keep: Keep, payload: seq<Item>, view: Keep)
    requires Agrees(ix)
  {
    forall m :: m in Items(ix) && Passes(keep, m) ==> !Passes(view, Current(m, payload))
  }

  lemma DistinctCurrent(m: Item, payload: seq<Item>, p: Item)
    requires DistinctIds(payload) && p in payload && IdOf(p) == IdOf(m)
    ensures Current(m, payload) == p
  {
    CurrentMeans(m, payload);
    var i :| 0 <= i < |payload| && payload[i] == p;
    var j :| 0 <= j < |payload| && payload[j] == Current(m, payload);
  }

  /** The observer reads its part of the payload and nothing else if and only if nothing kept is in its view. */
  lemma ViewIsPayload(ix: Index, keep: Keep, payload: seq<Item>, view: Keep)
    requires Agrees(ix) && DistinctIds(payload)
    ensures Agrees(Replace(ix, keep, payload))
    ensures Filtered(Items(Replace(ix, keep, payload)), view) == Filtered(payload, view) <==> Apart(ix, keep, payload, view)
  {
    var kept := Filtered(Items(ix), keep);
    var now := CurrentAll(kept, payload);
    ReplacedView(ix, keep, payload, view);
    FilteredNone(now, view);
    NothingBefore(Filtered(now, view), Filtered(payload, view));
    NowPasses(kept, payload, view);
    ApartMeans(ix, keep, payload, view);
  }

  lemma NothingBefore(a: seq<Item>, b: seq<Item>)
    ensures a + b == b <==> a == []
  {
    assert |a + b| == |a| + |b|;
    assert [] + b == b;
  }

  lemma ApartMeans(ix: Index, keep: Keep, payload: seq<Item>, view: Keep)
    requires Agrees(ix)
    ensures Apart(ix, keep, payload, view) <==>
      forall m :: m in Filtered(Items(ix), keep) ==> !Passes(view, Current(m, payload))
  {
    forall m
      ensures m in Filtered(Items(ix), keep) <==> m in Items(ix) && Passes(keep, m)
    {
      FilteredMembers(Items(ix), keep, m);
    }
  }

  lemma NowPasses(items: seq<Item>, payload: seq<Item>, view: Keep)
    ensures (forall m :: m in CurrentAll(items, payload) ==> !Passes(view, m)) <==>
            (forall m :: m in items ==> !Passes(view, Current(m, payload)))
  {
    var now := CurrentAll(items, payload);
    forall m | m in items
      ensures Current(m, payload) in now
    {
      var i :| 0 <= i < |items| && items[i] == m;
      assert now[i] == Current(m, payload);
    }
    forall m | m in now
      ensures exists a :: a in items && m == Current(a, payload)
    {
      var i :| 0 <= i < |now| && now[i] == m;
      assert items[i] in items;
    }
  }

  // One item added, updated or deleted

  /** An addition lists the item last, and once more at every place its id already had. */
  lemma AddedItems(ix: Index, item: Item)
    requires Agrees(ix)
    ensures Agrees(Add(ix, item)) && Items(Add(ix, item)) == CurrentAll(Items(ix), [item]) + [item]
  {
    AddAgrees(ix, item);
    assert [item][..0] == [];
    assert ById([item]) == map[IdOf(item) := item];
    forall i | 0 <= i < |ix.ids|
      ensures IdOf(Items(ix)[i]) == ix.ids[i]
    {
      assert ix.ids[i] in ix.byId;
    }
  }

  /** An update patches the item wherever its id is listed, and nothing else. */
  lemma UpdatedItems(ix: Index, item: Item)
    requires Agrees(ix)
    ensures Agrees(Update(ix, item)) && Items(Update(ix, item)) == PatchedItems(Items(ix), item)
  {
    forall i | 0 <= i < |ix.ids|
      ensures IdOf(Items(ix)[i]) == ix.ids[i]
    {
      assert ix.ids[i] in ix.byId;
    }
  }

  /** A deletion leaves the items with other ids, in order. */
  lemma DeletedItems(ix: Index, id: int)
    requires Agrees(ix)
    ensures Agrees(Delete(ix, id)) && Items(Delete(ix, id)) == Filtered(Items(ix), OtherThan(id))
  {
    DeleteAgrees(ix, id);
    forall i | 0 <= i < |ix.ids|
      ensures IdOf(Items(ix)[i]) == ix.ids[i]
    {
      assert ix.ids[i] in ix.byId;
    }
    if id in ix.ids {
      LookedUpWithout(ix.ids, ix.byId, id);
      var left := WithoutIds(ix.ids, id);
      assert Items(Delete(ix, id)) == LookedUp(left, ix.byId);
      assert Items(ix) == LookedUp(ix.ids, ix.byId);
    } else {
      FilteredAll(Items(ix), OtherThan(id));
    }
  }

  ghost predicate LeavesAttributes(s: State, a: Action)
    requires Consistent(s)
  {
    Reduce(s, a).attributes == s.attributes
  }

  ghost predicate LeavesDocuments(s: State, a: Action)
    requires Consistent(s)
  {
    Reduce(s, a).documents == s.documents
  }

  /** Each action changes one half of the store. */
  lemma OneHalf(s: State, a: Action)
    requires Consistent(s)
    ensures match a
      case AttributesSet(_, _) => LeavesDocuments(s, a)
      case AttributesDelete(_) => LeavesDocuments(s, a)
      case AttributeAdd(_) => LeavesDocuments(s, a)
      case AttributeUpdate(_) => LeavesDocuments(s, a)
      case AttributeDelete(_) => LeavesDocuments(s, a)
      case _ => LeavesAttributes(s, a)
  {
  }

  /**
   What the actions on one item do to the lists that are observed: an addition, and an update of a
   document, list the item last and wherever its id was; an update of an attribute patches it; a
   deletion leaves the others.
   */
  lemma OneItem(s: State, a: Action)
    requires Consistent(s)
    ensures var after := Reduce(s, a);
      Consistent(after) &&
      match a
      case AttributeAdd(item) => Items(after.attributes) == CurrentAll(Items(s.attributes), [item]) + [item]
      case DocumentAdd(item) => Items(after.documents) == CurrentAll(Items(s.documents), [item]) + [item]
      case DocumentUpdate(item) => Items(after.documents) == CurrentAll(Items(s.documents), [item]) + [item]
      case AttributeUpdate(item) => Items(after.attributes) == PatchedItems(Items(s.attributes), item)
      case AttributeDelete(id) => Items(after.attributes) == Filtered(Items(s.attributes), OtherThan(id))
      case DocumentDelete(id) => Items(after.documents) == Filtered(Items(s.documents), OtherThan(id))
      case _ => true
  {
    ReduceKeeps(s, a);
    match a
    case AttributeAdd(item) => AddedItems(s.attributes, item);
    case DocumentAdd(item) => AddedItems(s.documents, item);
    case DocumentUpdate(item) => AddedItems(s.documents, item);
    case AttributeUpdate(item) => UpdatedItems(s.attributes, item);
    case AttributeDelete(id) => DeletedItems(s.attributes, id);
    case DocumentDelete(id) => DeletedItems(s.documents, id);
    case _ =>
  }

  /** A patched item has the patch's fields, and of the others its own. */
  lemma PatchMeans(item: Item, patch: Item, field: string)
    ensures Field(Overlay(item, patch), field) == if field in patch then Some(patch[field]) else Field(item, field)
  {
  }

  function PatchedItems(items: seq<Item>, item: Item): seq<Item> {
    seq(|items|, i requires 0 <= i < |items| => if IdOf(items[i]) == IdOf(item) then Overlay(items[i], item) else items[i])
  }

  /** The entries of the listed ids. */
  function LookedUp(ids: seq<int>, byId: map<int, Item>): seq<Item>
    requires forall i :: 0 <= i < |ids| ==> ids[i] in byId
  {
    seq(|ids|, i requires 0 <= i < |ids| => byId[ids[i]])
  }

  lemma {:induction false} LookedUpWithout(ids: seq<int>, byId: map<int, Item>, id: int)
    requires forall i :: 0 <= i < |ids| ==> ids[i] in byId && IdOf(byId[ids[i]]) == ids[i]
    ensures forall i :: 0 <= i < |WithoutIds(ids, id)| ==> WithoutIds(ids, id)[i] in byId
    ensures LookedUp(WithoutIds(ids, id), byId) == Filtered(LookedUp(ids, byId), OtherThan(id))
  {
    if ids != [] {
      var front, last := ids[..|ids| - 1], ids[|ids| - 1];
      LookedUpWithout(front, byId, id);
      assert LookedUp(ids, byId) == LookedUp(front, byId) + [byId[last]];
      FilteredAppend(LookedUp(front, byId), byId[last], OtherThan(id));
      var left := WithoutIds(front, id);
      assert last != id ==> LookedUp(left + [last], byId) == LookedUp(left, byId) + [byId[last]];
    }
  }

  lemma {:induction false} StillInView(items: seq<Item>, payload: seq<Item>, view: Keep)
    requires forall p :: p in payload ==> !Passes(view, p)
    ensures var now := Filtered(CurrentAll(items, payload), view);
      |now| <= |Filtered(items, view)| &&
      (now == Filtered(items, view) <==> forall m :: m in items && Passes(view, m) ==> !Listed(payload, IdOf(m)))
  {
    if items != [] {
      var front, last := items[..|items| - 1], items[|items| - 1];
      StillInView(front, payload, view);
      CurrentMeans(last, payload);
      assert items == front + [last];
      CurrentAppend(front, last, payload);
      FilteredAppend(CurrentAll(front, payload), Current(last, payload), view);
      var now, before := Filtered(CurrentAll(front, payload), view), Filtered(front, view);
      if !Passes(view, last) {
        assert !Passes(view, Current(last, payload));
        assert now + [] == now && before + [] == before;
      } else if Listed(payload, IdOf(last)) {
        assert !Passes(view, Current(last, payload));
        assert now + [] == now;
      } else {
        SameFront(now, before, last);
      }
    }
  }

  lemma SameFront(a: seq<Item>, b: seq<Item>, m: Item)
    ensures a + [m] == b + [m] <==> a == b
  {
    if a + [m] == b + [m] {
      assert |a| == |b|;
      assert a == (a + [m])[..|a|] && b == (b + [m])[..|b|];
    }
  }

  ghost predicate Within(view: Keep, keep: Keep) {
    forall m: Item :: Passes(view, m) ==> Passes(keep, m)
  }

  /** An observer of none of the payload reads what it did if and only if it read no item with an id of it. */
  lemma OthersRead(ix: Index, keep: Keep, payload: seq<Item>, view: Keep)
    requires Agrees(ix) && DistinctIds(payload)
    requires forall p :: p in payload ==> !Passes(view, p)
    requires Within(view, keep)
    ensures Agrees(Replace(ix, keep, payload))
    ensures Filtered(Items(Replace(ix, keep, payload)), view) == Filtered(Items(ix), view) <==>
      forall m :: m in Filtered(Items(ix), view) ==> !Listed(payload, IdOf(m))
  {
    var kept := Filtered(Items(ix), keep);
    ReplacedView(ix, keep, payload, view);
    ViewOfKept(Items(ix), keep, view, kept);
    OthersNow(kept, payload, view);
  }

  /** A view of some of the kept items is a view of all items. */
  lemma ViewOfKept(items: seq<Item>, keep: Keep, view: Keep, kept: seq<Item>)
    requires kept == Filtered(items, keep)
    requires Within(view, keep)
    ensures Filtered(kept, view) == Filtered(items, view)
  {
    FilteredTwice(items, keep, view, kept);
    FilteredSame(items, Both(keep, view), view);
  }

  lemma OthersNow(kept: seq<Item>, payload: seq<Item>, view: Keep)
    requires forall p :: p in payload ==> !Passes(view, p)
    ensures Filtered(CurrentAll(kept, payload), view) + Filtered(payload, view) == Filtered(kept, view) <==>
      forall m :: m in Filtered(kept, view) ==> !Listed(payload, IdOf(m))
  {
    var now := Filtered(CurrentAll(kept, payload), view);
    FilteredNone(payload, view);
    StillInView(kept, payload, view);
    ViewMembers(kept, view, payload);
    assert now + [] == now;
  }

  lemma ViewMembers(items: seq<Item>, view: Keep, payload: seq<Item>)
    ensures (forall m :: m in items && Passes(view, m) ==> !Listed(payload, IdOf(m))) <==>
            (forall m :: m in Filtered(items, view) ==> !Listed(payload, IdOf(m)))
  {
    forall m
      ensures m in Filtered(items, view) <==> m in items && Passes(view, m)
    {
      FilteredMembers(items, view, m);
    }
  }

  lemma OwnPayload(payload: seq<Item>, owner: Keep)
    requires forall m :: m in payload ==> Passes(owner, m)
    ensures Filtered(payload, owner) == payload
  {
    FilteredAll(payload, owner);
  }

  /** The owner of the payload reads exactly it if and only if nothing kept is its own or has an id of the payload. */
  lemma OwnerReads(ix: Index, keep: Keep, owner: Keep, payload: seq<Item>)
    requires Agrees(ix) && DistinctIds(payload)
    requires forall p :: p in payload ==> Passes(owner, p)
    ensures Agrees(Replace(ix, keep, payload))
    ensures Filtered(Items(Replace(ix, keep, payload)), owner) == payload <==>
      forall m :: m in Items(ix) && Passes(keep, m) ==> !Passes(owner, m) && !Listed(payload, IdOf(m))
  {
    ViewIsPayload(ix, keep, payload, owner);
    OwnPayload(payload, owner);
    ApartFromOwner(Items(ix), keep, owner, payload);
  }

  lemma ApartFromOwner(items: seq<Item>, keep: Keep, owner: Keep, payload: seq<Item>)
    requires forall p :: p in payload ==> Passes(owner, p)
    ensures (forall m :: m in items && Passes(keep, m) ==> !Passes(owner, Current(m, payload))) <==>
            (forall m :: m in items && Passes(keep, m) ==> !Passes(owner, m) && !Listed(payload, IdOf(m)))
  {
    forall m
      ensures Passes(owner, Current(m, payload)) <==> Passes(owner, m) || Listed(payload, IdOf(m))
    {
      CurrentMeans(m, payload);
    }
  }

  /** Setting one wallet's attributes: it reads back the payload if and only if no other attribute has an id of it. */
  lemma SetReadsBack(s: State, w: Value, payload: seq<Item>)
    requires Consistent(s) && DistinctIds(payload)
    requires forall p :: p in payload ==> Passes(OfWallet(w), p)
    ensures var after := Reduce(s, AttributesSet(w, payload));
      Agrees(after.attributes) &&
      (Select(after.attributes, w) == payload <==>
       forall m :: m in Items(s.attributes) && !Passes(OfWallet(w), m) ==> !Listed(payload, IdOf(m)))
  {
    OwnerReads(s.attributes, NotOfWallet(w), OfWallet(w), payload);
  }

  /** Another wallet reads what it did if and only if it had no attribute with an id of the payload. */
  lemma SetElsewhere(s: State, w: Value, payload: seq<Item>, other: Value)
    requires Consistent(s) && DistinctIds(payload) && other != w
    requires forall p :: p in payload ==> Passes(OfWallet(w), p)
    ensures var after := Reduce(s, AttributesSet(w, payload));
      Agrees(after.attributes) &&
      (Select(after.attributes, other) == Select(s.attributes, other) <==>
       forall m :: m in Select(s.attributes, other) ==> !Listed(payload, IdOf(m)))
  {
    OthersRead(s.attributes, NotOfWallet(w), payload, OfWallet(other));
  }

  /** Deleting one wallet's attributes: that wallet reads nothing, the others what they read before. */
  lemma DeleteReadsNothing(s: State, w: Value, other: Value)
    requires Consistent(s)
    ensures var after := Reduce(s, AttributesDelete(w));
      Agrees(after.attributes) &&
      Select(after.attributes, other) == if other == w then [] else Select(s.attributes, other)
  {
    SetReadsBack(s, w, []);
    if other != w {
      SetElsewhere(s, w, [], other);
    }
  }

  // Setting a wallet's documents, which keeps the documents of every wallet

  /**
   The documents listed afterwards: the payload, and the old ones that had a wallet and whose id
   the payload does not have. Documents loaded for an attribute have none and are dropped.
   */
  lemma DocumentsListed(s: State, w: Value, payload: seq<Item>, m: Item)
    requires Consistent(s) && DistinctIds(payload)
    ensures var after := Reduce(s, DocumentsSet(w, payload));
      Agrees(after.documents) &&
      (m in Items(after.documents) <==>
       m in payload || (m in Items(s.documents) && Field(m, "walletId").Some? && !Listed(payload, IdOf(m))))
  {
    var kept := Filtered(Items(s.documents), WithWallet);
    var now := CurrentAll(kept, payload);
    ReplacedItems(s.documents, WithWallet, payload);
    FilteredMembers(Items(s.documents), WithWallet, m);
    CurrentMeans(m, payload);
    if m in kept {
      var i :| 0 <= i < |kept| && kept[i] == m;
      assert now[i] == Current(m, payload);
    }
    if m in now {
      var i :| 0 <= i < |now| && now[i] == m;
      CurrentMeans(kept[i], payload);
    }
  }

  /**
   What the wallet is listed with is its payload if and only if every document with a wallet
   was another wallet's and has an id the payload does not have.
   */
  lemma DocumentsReadBack(s: State, w: Value, payload: seq<Item>)
    requires Consistent(s) && DistinctIds(payload)
    requires forall p :: p in payload ==> Passes(OfWallet(w), p)
    ensures var after := Reduce(s, DocumentsSet(w, payload));
      Agrees(after.documents) &&
      (Select(after.documents, w) == payload <==>
       forall m :: m in Items(s.documents) && Field(m, "walletId").Some? ==>
         Field(m, "walletId") != Some(w) && !Listed(payload, IdOf(m)))
  {
    OwnerReads(s.documents, WithWallet, OfWallet(w), payload);
  }

  /** Loading a wallet's documents again, edited or not, lists every one of them twice, both as they are now. */
  lemma Reload(s: State, w: Value, payload: seq<Item>)
    requires Consistent(s) && DistinctIds(payload)
    requires forall p :: p in payload ==> Passes(OfWallet(w), p)
    requires Ids(Select(s.documents, w)) == Ids(payload)
    ensures var after := Reduce(s, DocumentsSet(w, payload));
      Agrees(after.documents) && Select(after.documents, w) == payload + payload
  {
    var ix, view := s.documents, OfWallet(w);
    ReplacedView(ix, WithWallet, payload, view);
    OwnPayload(payload, view);
    ViewOfKept(Items(ix), WithWallet, view, Filtered(Items(ix), WithWallet));
    ReloadedView(s, w, payload);
    ReloadedAll(Select(ix, w), payload);
  }

  lemma ReloadedView(s: State, w: Value, payload: seq<Item>)
    requires Consistent(s) && DistinctIds(payload)
    requires forall p :: p in payload ==> Passes(OfWallet(w), p)
    requires Ids(Select(s.documents, w)) == Ids(payload)
    ensures var kept := Filtered(Items(s.documents), WithWallet);
      Filtered(CurrentAll(kept, payload), OfWallet(w)) == CurrentAll(Filtered(kept, OfWallet(w)), payload)
  {
    var kept := Filtered(Items(s.documents), WithWallet);
    forall m | m in kept
      ensures Passes(OfWallet(w), Current(m, payload)) <==> Passes(OfWallet(w), m)
    {
      ReloadedItem(s, w, payload, m);
    }
    FilteredCurrent(kept, payload, OfWallet(w));
  }

  lemma ReloadedItem(s: State, w: Value, payload: seq<Item>, m: Item)
    requires Consistent(s) && DistinctIds(payload)
    requires forall p :: p in payload ==> Passes(OfWallet(w), p)
    requires Ids(Select(s.documents, w)) == Ids(payload)
    requires m in Filtered(Items(s.documents), WithWallet)
    ensures Passes(OfWallet(w), Current(m, payload)) <==> Passes(OfWallet(w), m)
  {
    var own := Select(s.documents, w);
    FilteredMembers(Items(s.documents), WithWallet, m);
    CurrentMeans(m, payload);
    if p :| p in payload && IdOf(p) == IdOf(m) {
      var i :| 0 <= i < |payload| && payload[i] == p;
      assert Ids(own)[i] == Ids(payload)[i];
      FilteredMembers(Items(s.documents), OfWallet(w), own[i]);
      assert own[i] in own;
      IndexCoherent(s.documents, own[i], m);
    }
  }

  lemma {:induction false} FilteredCurrent(items: seq<Item>, payload: seq<Item>, view: Keep)
    requires forall m :: m in items ==> (Passes(view, Current(m, payload)) <==> Passes(view, m))
    ensures Filtered(CurrentAll(items, payload), view) == CurrentAll(Filtered(items, view), payload)
  {
    if items != [] {
      var front, last := items[..|items| - 1], items[|items| - 1];
      assert items == front + [last];
      FilteredCurrent(front, payload, view);
      CurrentAppend(front, last, payload);
      FilteredAppend(CurrentAll(front, payload), Current(last, payload), view);
      FilteredAppend(front, last, view);
      CurrentAppend(Filtered(front, view), last, payload);
      assert Filtered(front, view) + [] == Filtered(front, view);
    }
  }

  lemma ReloadedAll(items: seq<Item>, payload: seq<Item>)
    requires DistinctIds(payload) && Ids(items) == Ids(payload)
    ensures CurrentAll(items, payload) == payload
  {
    assert |items| == |Ids(items)| == |payload|;
    forall i | 0 <= i < |items|
      ensures Current(items[i], payload) == payload[i]
    {
      assert Ids(items)[i] == Ids(payload)[i];
      DistinctCurrent(items[i], payload, payload[i]);
    }
  }

  /** Deleting a wallet's documents leaves the others, among them those loaded for an attribute of the wallet. */
  lemma DocumentsDeleted(s: State, w: Value)
    requires Consistent(s)
    ensures var after := Reduce(s, DocumentsDelete(w));
      Agrees(after.documents) && Items(after.documents) == Filtered(Items(s.documents), NotOfWallet(w))
  {
    var kept := Filtered(Items(s.documents), NotOfWallet(w));
    ReplacedItems(s.documents, NotOfWallet(w), []);
    assert CurrentAll(kept, []) + [] == kept;
  }

  // Documents by attribute

  predicate Wanted(attributeIds: Option<seq<Value>>, id: Value) {
    attributeIds.None? || id in attributeIds.value
  }

  /**
   `selectDocumentsByAttributeIds`: the wanted documents grouped by their attribute. Documents
   without one are left out of the model's result.
   */
  method SelectDocumentsByAttributeIds(ix: Index, attributeIds: Option<seq<Value>>) returns (acc: map<Value, seq<Item>>)
    requires Agrees(ix)
    ensures forall id :: id in acc <==> Wanted(attributeIds, id) && DocumentsOf(ix, id) != []
    ensures forall id :: id in acc ==> acc[id] == DocumentsOf(ix, id)
  {
    var items := Items(ix);
    acc := map[];
    for i := 0 to |items|
      invariant forall id :: id in acc <==> Wanted(attributeIds, id) && Filtered(items[..i], OfAttribute(id)) != []
      invariant forall id :: id in acc ==> acc[id] == Filtered(items[..i], OfAttribute(id))
    {
      var item := items[i];
      assert items[..i + 1][..i] == items[..i] && items[..i + 1][i] == item;
      var id := Field(item, "attributeId");
      if id.Some? && Wanted(attributeIds, id.value) {
        acc := acc[id.value := (if id.value in acc then acc[id.value] else []) + [item]];
      }
    }
    assert items[..|items|] == items;
  }

  /** The documents the grouping has for an attribute. */
  function DocumentsOf(ix: Index, attributeId: Value): seq<Item>
    requires Agrees(ix)
  {
    Filtered(Items(ix), OfAttribute(attributeId))
  }

  /** Setting one attribute's documents: it reads back the payload if and only if no other document has an id of it. */
  lemma AttributeDocumentsReadBack(s: State, a: Value, payload: seq<Item>)
    requires Consistent(s) && DistinctIds(payload)
    requires forall p :: p in payload ==> Passes(OfAttribute(a), p)
    ensures var after := Reduce(s, AttributeDocumentsSet(a, payload));
      Agrees(after.documents) &&
      (DocumentsOf(after.documents, a) == payload <==>
       forall m :: m in Items(s.documents) && !Passes(OfAttribute(a), m) ==> !Listed(payload, IdOf(m)))
  {
    var ix := s.documents;
    OwnerReads(ix, NotOfAttribute(a), OfAttribute(a), payload);
    assert Reduce(s, AttributeDocumentsSet(a, payload)).documents == Replace(ix, NotOfAttribute(a), payload);
  }

  /** Another attribute reads what it did if and only if it had no document with an id of the payload. */
  lemma AttributeDocumentsElsewhere(s: State, a: Value, payload: seq<Item>, other: Value)
    requires Consistent(s) && DistinctIds(payload) && other != a
    requires forall p :: p in payload ==> Passes(OfAttribute(a), p)
    ensures var after := Reduce(s, AttributeDocumentsSet(a, payload));
      Agrees(after.documents) &&
      (DocumentsOf(after.documents, other) == DocumentsOf(s.documents, other) <==>
       forall m :: m in DocumentsOf(s.documents, other) ==> !Listed(payload, IdOf(m)))
  {
    var ix := s.documents;
    OthersRead(ix, NotOfAttribute(a), payload, OfAttribute(other));
    assert Reduce(s, AttributeDocumentsSet(a, payload)).documents == Replace(ix, NotOfAttribute(a), payload);
  }

  /**
   What the grouping has for an attribute once a wallet's documents are set: the payload's
   documents of the attribute, and nothing more if and only if no document with a wallet is, as
   the payload has it now, one of the attribute.
   */
  lemma DocumentsGroupedBack(s: State, w: Value, payload: seq<Item>, a: Value)
    requires Consistent(s) && DistinctIds(payload)
    ensures var after := Reduce(s, DocumentsSet(w, payload));
      Agrees(after.documents) &&
      (DocumentsOf(after.documents, a) == Filtered(payload, OfAttribute(a)) <==>
       Apart(s.documents, WithWallet, payload, OfAttribute(a)))
  {
    ViewIsPayload(s.documents, WithWallet, payload, OfAttribute(a));
  }

  /** Deleting one attribute's documents: it reads nothing, every other attribute what it read before. */
  lemma AttributeDocumentsGone(s: State, a: Value, other: Value)
    requires Consistent(s)
    ensures var after := Reduce(s, AttributeDocumentsDelete(a));
      Agrees(after.documents) &&
      DocumentsOf(after.documents, other) == if other == a then [] else DocumentsOf(s.documents, other)
  {
    AttributeDocumentsReadBack(s, a, []);
    if other != a {
      AttributeDocumentsElsewhere(s, a, [], other);
    }
    assert Reduce(s, AttributeDocumentsDelete(a)) == Reduce(s, AttributeDocumentsSet(a, []));
  }
}
