/**
 The relational store under the repositories (src/main/identity/repository.js:139-187): attribute
 types, links between repositories and types, UI schemas, and the identity attributes that use
 a type. Adding and deleting an attribute refine the corresponding steps on a view.
 */
module RepositoryDb {
  import opened Sequences
  import opened RepositoryDiff

  datatype UiRow = UiRow(url: string, repoId: int, typeId: int)

  /** `usage` maps an identity attribute to the type it is of. Link rows may repeat. */
  datatype Db = Db(
    types: map<int, string>,
    nextType: int,
    links: seq<(int, int)>,
    uis: map<int, UiRow>,
    nextUi: int,
    usage: map<int, int>)

  // Row look-up

  predicate IsType(db: Db, id: int, url: string) {
    id in db.types && db.types[id] == url
  }

  predicate IsUi(db: Db, id: int, url: string, repoId: int) {
    id in db.uis && db.uis[id].url == url && db.uis[id].repoId == repoId
  }

  /** Ids are handed out upwards, type urls are unique, a repository has each UI schema once, and links and attributes have their type. */
  ghost predicate Sound(db: Db) {
    (forall id :: id in db.types ==> id < db.nextType) &&
    (forall id :: id in db.uis ==> id < db.nextUi && db.uis[id].typeId < db.nextType) &&
    (forall a, b :: a in db.types && b in db.types && db.types[a] == db.types[b] ==> a == b) &&
    (forall a, b :: a in db.uis && b in db.uis && db.uis[a].url == db.uis[b].url && db.uis[a].repoId == db.uis[b].repoId ==> a == b) &&
    (forall l :: l in db.links ==> l.1 in db.types) &&
    (forall a :: a in db.usage ==> db.usage[a] in db.types)
  }

  ghost predicate Linked(db: Db, repoId: int, url: string) {
    exists id :: (repoId, id) in db.links && IsType(db, id, url)
  }

  ghost predicate HasUiRow(db: Db, repoId: int, ui: string) {
    exists k :: IsUi(db, k, ui, repoId)
  }

  ghost predicate UiFor(db: Db, repoId: int, ui: string, json: string) {
    exists k :: IsUi(db, k, ui, repoId) && IsType(db, db.uis[k].typeId, json)
  }

  /** The row of UI schema `ui` refers to a type that has been dropped. */
  ghost predicate Dangles(db: Db, repoId: int, ui: string) {
    exists k :: IsUi(db, k, ui, repoId) && db.uis[k].typeId !in db.types
  }

  ghost predicate LinkedAs(db: Db, repoId: int, urls: set<string>) {
    forall url :: url in urls <==> Linked(db, repoId, url)
  }

  /** The row of `ui` is for the type the view says; only a type in `stale` may be unlinked, and then be dropped. */
  ghost predicate RowAgrees(db: Db, repoId: int, v: View, stale: set<string>, ui: string)
    requires ui in v.uis
  {
    (v.uis[ui] in v.links || v.uis[ui] in stale) &&
    (UiFor(db, repoId, ui, v.uis[ui]) || (v.uis[ui] !in v.links && Dangles(db, repoId, ui)))
  }

  /** The rows of repository `repoId` are those of view `v`, some perhaps stale. */
  ghost predicate Mirrors(db: Db, repoId: int, v: View, stale: set<string>) {
    LinkedAs(db, repoId, v.links) &&
    (forall ui :: ui in v.uis <==> HasUiRow(db, repoId, ui)) &&
    forall ui :: ui in v.uis ==> RowAgrees(db, repoId, v, stale, ui)
  }

  /** The store shows repository `repoId` as view `v`: its links, its UI schemas, each for its linked type, and no other row. */
  ghost predicate Shows(db: Db, repoId: int, v: View) {
    Mirrors(db, repoId, v, {})
  }

  // The steps

  function CreateType(db: Db, url: string): Db {
    db.(types := db.types[db.nextType := url], nextType := db.nextType + 1)
  }

  function Relate(db: Db, repoId: int, typeId: int): Db {
    db.(links := db.links + [(repoId, typeId)])
  }

  function CreateUi(db: Db, url: string, repoId: int, typeId: int): Db {
    db.(uis := db.uis[db.nextUi := UiRow(url, repoId, typeId)], nextUi := db.nextUi + 1)
  }

  function Unrelated(links: seq<(int, int)>, link: (int, int)): seq<(int, int)> {
    if links == [] then []
    else Unrelated(links[..|links| - 1], link) + if links[|links| - 1] == link then [] else [links[|links| - 1]]
  }

  lemma {:induction false} UnrelatedMembers(links: seq<(int, int)>, link: (int, int), l: (int, int))
    ensures l in Unrelated(links, link) <==> l in links && l != link
  {
    if links != [] {
      UnrelatedMembers(links[..|links| - 1], link, l);
      assert links == links[..|links| - 1] + [links[|links| - 1]];
    }
  }

  /** Type `id` is linked by no repository and used by no identity attribute. */
  predicate Garbage(db: Db, id: int) {
    (forall l :: l in db.links ==> l.1 != id) && forall a :: a in db.usage ==> db.usage[a] != id
  }

  function Collect(db: Db, id: int): Db {
    if Garbage(db, id) then db.(types := db.types - {id}) else db
  }

  /** The type the attribute is linked to: the one with its url, or a new one. */
  ghost predicate Typed(db: Db, url: string, id: int, after: Db) {
    if exists k :: IsType(db, k, url) then IsType(db, id, url) && after == db
    else id == db.nextType && after == CreateType(db, url)
  }

  /** `addAttribute`: link the type; show the UI schema for it unless the repository already has one of that url. */
  ghost predicate AddStep(db: Db, repoId: int, a: Attr, after: Db) {
    if !HasJson(a) then after == db
    else exists id, typed :: Typed(db, a.json, id, typed) && after == Attached(db, typed, repoId, id, a)
  }

  ghost function Attached(db: Db, typed: Db, repoId: int, id: int, a: Attr): Db {
    if HasUi(a) && !HasUiRow(db, repoId, a.ui.value)
    then CreateUi(Relate(typed, repoId, id), a.ui.value, repoId, id)
    else Relate(typed, repoId, id)
  }

  ghost predicate DropUi(db: Db, repoId: int, a: Attr, after: Db) {
    if HasUi(a) && HasUiRow(db, repoId, a.ui.value)
    then exists k :: IsUi(db, k, a.ui.value, repoId) && after == db.(uis := db.uis - {k})
    else after == db
  }

  ghost predicate DropType(db: Db, repoId: int, a: Attr, after: Db) {
    if HasJson(a) && exists id :: IsType(db, id, a.json)
    then exists id :: IsType(db, id, a.json) && after == Collect(Unrelate(db, repoId, id), id)
    else after == db
  }

  /** `deleteAttribute`: drop the UI schema row, the link rows, and the type if nothing else needs it. */
  ghost predicate DeleteStep(db: Db, repoId: int, a: Attr, after: Db) {
    exists bare :: DropUi(db, repoId, a, bare) && DropType(bare, repoId, a, after)
  }

  function Unrelate(db: Db, repoId: int, id: int): Db {
    db.(links := Unrelated(db.links, (repoId, id)))
  }

  // Each step, one repository at a time

  /** Rows and types that stay give the same answers. */
  lemma SameRows(db: Db, after: Db, r: int, v: View, stale: set<string>)
    requires Mirrors(db, r, v, stale) && after.uis == db.uis && after.types == db.types && LinkedAs(after, r, v.links)
    ensures Mirrors(after, r, v, stale)
  {
    forall ui
      ensures HasUiRow(after, r, ui) <==> HasUiRow(db, r, ui)
    {
      assert forall k :: IsUi(db, k, ui, r) <==> IsUi(after, k, ui, r);
    }
    forall ui | ui in v.uis
      ensures RowAgrees(after, r, v, stale, ui)
    {
      assert RowAgrees(db, r, v, stale, ui);
      SameUi(db, after, r, ui, v.uis[ui]);
    }
  }

  lemma SameUi(db: Db, after: Db, r: int, ui: string, json: string)
    requires after.uis == db.uis && after.types == db.types
    ensures UiFor(after, r, ui, json) <==> UiFor(db, r, ui, json)
    ensures Dangles(after, r, ui) <==> Dangles(db, r, ui)
  {
    assert forall k :: IsUi(db, k, ui, r) <==> IsUi(after, k, ui, r);
  }

  lemma CreateTypeSound(db: Db, url: string)
    requires Sound(db) && forall k :: !IsType(db, k, url)
    ensures Sound(CreateType(db, url))
  {
    assert forall k :: k in db.types ==> !IsType(db, k, url);
  }

  lemma CreateTypeMirrors(db: Db, url: string, r: int, v: View, stale: set<string>)
    requires Sound(db) && Mirrors(db, r, v, stale)
    ensures Mirrors(CreateType(db, url), r, v, stale)
  {
    var after := CreateType(db, url);
    CreateTypeLinks(db, url, r, v.links);
    forall ui
      ensures HasUiRow(after, r, ui) <==> HasUiRow(db, r, ui)
    {
      assert forall k :: IsUi(db, k, ui, r) <==> IsUi(after, k, ui, r);
    }
    forall ui | ui in v.uis
      ensures RowAgrees(after, r, v, stale, ui)
    {
      assert RowAgrees(db, r, v, stale, ui);
      if UiFor(db, r, ui, v.uis[ui]) {
        var k :| IsUi(db, k, ui, r) && IsType(db, db.uis[k].typeId, v.uis[ui]);
        assert IsUi(after, k, ui, r) && IsType(after, after.uis[k].typeId, v.uis[ui]);
      } else {
        var k :| IsUi(db, k, ui, r) && db.uis[k].typeId !in db.types;
        assert IsUi(after, k, ui, r) && after.uis[k].typeId !in after.types;
      }
    }
  }

  lemma CreateTypeLinks(db: Db, url: string, r: int, urls: set<string>)
    requires Sound(db) && LinkedAs(db, r, urls)
    ensures LinkedAs(CreateType(db, url), r, urls)
  {
    var after := CreateType(db, url);
    forall u
      ensures Linked(after, r, u) <==> Linked(db, r, u)
    {
      if id :| (r, id) in db.links && IsType(db, id, u) {
        assert (r, id) in after.links && IsType(after, id, u);
      }
      if id :| (r, id) in after.links && IsType(after, id, u) {
        assert (r, id).1 in db.types;
        assert (r, id) in db.links && IsType(db, id, u);
      }
    }
  }

  lemma RelateLinks(db: Db, repoId: int, id: int, url: string, r: int, urls: set<string>)
    requires Sound(db) && IsType(db, id, url) && LinkedAs(db, r, urls)
    ensures LinkedAs(Relate(db, repoId, id), r, if r == repoId then urls + {url} else urls)
  {
    var after := Relate(db, repoId, id);
    forall u
      ensures Linked(after, r, u) <==> Linked(db, r, u) || (r == repoId && u == url)
    {
      if k :| (r, k) in after.links && IsType(after, k, u) {
        assert IsType(db, k, u);
        assert (r, k) in db.links || (r == repoId && k == id);
      }
      if k :| (r, k) in db.links && IsType(db, k, u) {
        assert (r, k) in after.links && IsType(after, k, u);
      }
      if r == repoId && u == url {
        assert (r, id) in after.links && IsType(after, id, u);
      }
    }
  }

  lemma RelateMirrors(db: Db, repoId: int, id: int, url: string, r: int, v: View, stale: set<string>)
    requires Sound(db) && IsType(db, id, url) && Mirrors(db, r, v, stale)
    requires r == repoId ==> url !in stale
    ensures Mirrors(Relate(db, repoId, id), r, if r == repoId then v.(links := v.links + {url}) else v, stale)
  {
    var after := Relate(db, repoId, id);
    var w := if r == repoId then v.(links := v.links + {url}) else v;
    RelateLinks(db, repoId, id, url, r, v.links);
    forall ui
      ensures HasUiRow(after, r, ui) <==> HasUiRow(db, r, ui)
    {
      assert forall k :: IsUi(db, k, ui, r) <==> IsUi(after, k, ui, r);
    }
    forall ui | ui in w.uis
      ensures RowAgrees(after, r, w, stale, ui)
    {
      assert RowAgrees(db, r, v, stale, ui);
      SameUi(db, after, r, ui, v.uis[ui]);
    }
  }

  lemma CreateUiSound(db: Db, ui: string, repoId: int, id: int)
    requires Sound(db) && id in db.types && !HasUiRow(db, repoId, ui)
    ensures Sound(CreateUi(db, ui, repoId, id))
  {
    assert forall k :: k in db.uis ==> !IsUi(db, k, ui, repoId);
  }

  /** A new row shows its schema; every other row is as before. */
  lemma CreateUiRow(db: Db, ui: string, repoId: int, id: int, r: int, u: string, json: string)
    requires Sound(db) && !HasUiRow(db, repoId, ui)
    ensures var after, own := CreateUi(db, ui, repoId, id), r == repoId && u == ui;
      (HasUiRow(after, r, u) <==> HasUiRow(db, r, u) || own) &&
      (UiFor(after, r, u, json) <==> UiFor(db, r, u, json) || (own && IsType(db, id, json))) &&
      (Dangles(db, r, u) ==> Dangles(after, r, u))
  {
    var after := CreateUi(db, ui, repoId, id);
    forall k
      ensures IsUi(after, k, u, r) <==> IsUi(db, k, u, r) || (k == db.nextUi && r == repoId && u == ui)
      ensures IsUi(db, k, u, r) ==> after.uis[k] == db.uis[k]
    {
    }
    if r == repoId && u == ui {
      assert IsUi(after, db.nextUi, u, r);
    }
    if k :| IsUi(db, k, u, r) {
      assert IsUi(after, k, u, r);
    }
  }

  lemma CreateUiMirrors(db: Db, ui: string, repoId: int, id: int, url: string, r: int, v: View, stale: set<string>)
    requires Sound(db) && IsType(db, id, url) && !HasUiRow(db, repoId, ui) && Mirrors(db, r, v, stale)
    requires r == repoId ==> url in v.links
    ensures Mirrors(CreateUi(db, ui, repoId, id), r, if r == repoId then v.(uis := v.uis[ui := url]) else v, stale)
  {
    var after := CreateUi(db, ui, repoId, id);
    var w := if r == repoId then v.(uis := v.uis[ui := url]) else v;
    assert LinkedAs(after, r, w.links) by {
      forall u { SameLinks(db, after, r, u); }
    }
    forall u
      ensures u in w.uis <==> HasUiRow(after, r, u)
    {
      CreateUiRow(db, ui, repoId, id, r, u, url);
    }
    forall u | u in w.uis
      ensures RowAgrees(after, r, w, stale, u)
    {
      CreateUiRow(db, ui, repoId, id, r, u, w.uis[u]);
      if !(r == repoId && u == ui) {
        assert RowAgrees(db, r, v, stale, u);
      }
    }
  }

  lemma SameLinks(db: Db, after: Db, r: int, u: string)
    requires after.links == db.links && after.types == db.types
    ensures Linked(after, r, u) <==> Linked(db, r, u)
  {
    assert forall id :: IsType(db, id, u) <==> IsType(after, id, u);
  }

  function If<T>(c: bool, x: T, y: T): T {
    if c then x else y
  }

  /**
   Adding an attribute to a repository changes its view as `AddTo` says, and no other view. Its
   type must not be one the repository has stale rows for.
   */
  lemma AddRefines(db: Db, repoId: int, a: Attr, after: Db, r: int, v: View, stale: set<string>)
    requires Sound(db) && AddStep(db, repoId, a, after) && Mirrors(db, r, v, stale)
    requires r == repoId && HasJson(a) ==> a.json !in stale
    ensures Mirrors(after, r, If(r == repoId, AddTo(v, a), v), stale)
  {
    if HasJson(a) {
      var id, typed :| Typed(db, a.json, id, typed) && after == Attached(db, typed, repoId, id, a);
      TypedSound(db, a.json, id, typed);
      if !exists k :: IsType(db, k, a.json) {
        CreateTypeMirrors(db, a.json, r, v, stale);
      }
      RelateMirrors(typed, repoId, id, a.json, r, v, stale);
      if HasUi(a) {
        assert HasUiRow(db, repoId, a.ui.value) <==> HasUiRow(typed, repoId, a.ui.value) by {
          NoRowStill(db, typed, repoId, a.ui.value);
        }
        AddUiRefines(typed, repoId, a, id, r, v, stale);
      }
    }
  }

  /** The second half of `addAttribute`: the UI schema of a type that is linked by now. */
  lemma AddUiRefines(db: Db, repoId: int, a: Attr, id: int, r: int, v: View, stale: set<string>)
    requires Sound(db) && IsType(db, id, a.json) && HasJson(a) && HasUi(a) && Mirrors(db, r, v, stale)
    requires Mirrors(Relate(db, repoId, id), r, If(r == repoId, v.(links := v.links + {a.json}), v), stale)
    ensures Mirrors(Attached(db, db, repoId, id, a), r, If(r == repoId, AddTo(v, a), v), stale)
  {
    var ui, linked := a.ui.value, Relate(db, repoId, id);
    NoRowStill(db, linked, repoId, ui);
    if !HasUiRow(db, repoId, ui) {
      CreateUiMirrors(linked, ui, repoId, id, a.json, r, If(r == repoId, v.(links := v.links + {a.json}), v), stale);
    }
  }

  lemma TypedSound(db: Db, url: string, id: int, typed: Db)
    requires Sound(db) && Typed(db, url, id, typed)
    ensures Sound(typed) && IsType(typed, id, url) && typed.uis == db.uis && typed.links == db.links && typed.usage == db.usage
  {
    if !exists k :: IsType(db, k, url) {
      CreateTypeSound(db, url);
    }
  }

  lemma NoRowStill(db: Db, after: Db, r: int, ui: string)
    requires after.uis == db.uis
    ensures HasUiRow(after, r, ui) <==> HasUiRow(db, r, ui)
  {
    assert forall k :: IsUi(db, k, ui, r) <==> IsUi(after, k, ui, r);
  }

  /** An addition keeps the store sound and adds at most its type's url to its repository's links. */
  lemma AddSound(db: Db, repoId: int, a: Attr, after: Db)
    requires Sound(db) && AddStep(db, repoId, a, after)
    ensures Sound(after) && after.usage == db.usage
  {
    if HasJson(a) {
      var id, typed :| Typed(db, a.json, id, typed) && after == Attached(db, typed, repoId, id, a);
      TypedSound(db, a.json, id, typed);
      var linked := Relate(typed, repoId, id);
      assert Sound(linked);
      if HasUi(a) && !HasUiRow(db, repoId, a.ui.value) {
        NoRowStill(db, linked, repoId, a.ui.value);
        CreateUiSound(linked, a.ui.value, repoId, id);
      }
    }
  }

  lemma AddLinks(db: Db, repoId: int, a: Attr, after: Db, r: int, urls: set<string>)
    requires Sound(db) && AddStep(db, repoId, a, after) && LinkedAs(db, r, urls)
    ensures LinkedAs(after, r, if r == repoId && HasJson(a) then urls + {a.json} else urls)
  {
    if HasJson(a) {
      var id, typed :| Typed(db, a.json, id, typed) && after == Attached(db, typed, repoId, id, a);
      TypedSound(db, a.json, id, typed);
      if !exists k :: IsType(db, k, a.json) {
        CreateTypeLinks(db, a.json, r, urls);
      }
      RelateLinks(typed, repoId, id, a.json, r, urls);
      forall u { SameLinks(Relate(typed, repoId, id), after, r, u); }
    }
  }

  // Deleting

  lemma DropUiRow(db: Db, k: int, ui: string, repoId: int, r: int, u: string, json: string)
    requires Sound(db) && IsUi(db, k, ui, repoId)
    ensures var after, own := db.(uis := db.uis - {k}), r == repoId && u == ui;
      (HasUiRow(after, r, u) <==> HasUiRow(db, r, u) && !own) &&
      (UiFor(after, r, u, json) <==> UiFor(db, r, u, json) && !own) &&
      (Dangles(after, r, u) <==> Dangles(db, r, u) && !own)
  {
    var after := db.(uis := db.uis - {k});
    forall j
      ensures IsUi(after, j, u, r) <==> IsUi(db, j, u, r) && !(r == repoId && u == ui)
    {
    }
  }

  lemma DropUiMirrors(db: Db, repoId: int, a: Attr, after: Db, r: int, v: View, stale: set<string>)
    requires Sound(db) && DropUi(db, repoId, a, after) && Mirrors(db, r, v, stale)
    ensures Mirrors(after, r, if r == repoId && HasUi(a) then v.(uis := v.uis - {a.ui.value}) else v, stale)
  {
    if HasUi(a) && HasUiRow(db, repoId, a.ui.value) {
      var k :| IsUi(db, k, a.ui.value, repoId) && after == db.(uis := db.uis - {k});
      DropRowMirrors(db, k, a.ui.value, repoId, r, v, stale);
    } else if HasUi(a) && r == repoId {
      assert v.uis - {a.ui.value} == v.uis;
    }
  }

  lemma DropRowMirrors(db: Db, k: int, ui: string, repoId: int, r: int, v: View, stale: set<string>)
    requires Sound(db) && IsUi(db, k, ui, repoId) && Mirrors(db, r, v, stale)
    ensures Mirrors(db.(uis := db.uis - {k}), r, If(r == repoId, v.(uis := v.uis - {ui}), v), stale)
  {
    var after, w := db.(uis := db.uis - {k}), If(r == repoId, v.(uis := v.uis - {ui}), v);
    assert LinkedAs(after, r, w.links) by {
      forall u { SameLinks(db, after, r, u); }
    }
    forall u
      ensures u in w.uis <==> HasUiRow(after, r, u)
    {
      DropUiRow(db, k, ui, repoId, r, u, "");
    }
    forall u | u in w.uis
      ensures RowAgrees(after, r, w, stale, u)
    {
      DroppedRowAgrees(db, k, ui, repoId, r, v, stale, u);
    }
  }

  /** Dropping one row leaves the rows of other UI schemas, and of other repositories, in agreement. */
  lemma DroppedRowAgrees(db: Db, k: int, ui: string, repoId: int, r: int, v: View, stale: set<string>, u: string)
    requires Sound(db) && IsUi(db, k, ui, repoId) && u in v.uis && RowAgrees(db, r, v, stale, u) && !(r == repoId && u == ui)
    ensures var w := If(r == repoId, v.(uis := v.uis - {ui}), v);
      u in w.uis && RowAgrees(db.(uis := db.uis - {k}), r, w, stale, u)
  {
    DropUiRow(db, k, ui, repoId, r, u, v.uis[u]);
  }

  lemma UnrelateLinks(db: Db, repoId: int, id: int, url: string, r: int, urls: set<string>)
    requires Sound(db) && IsType(db, id, url) && LinkedAs(db, r, urls)
    ensures LinkedAs(Unrelate(db, repoId, id), r, if r == repoId then urls - {url} else urls)
  {
    var after := Unrelate(db, repoId, id);
    forall l { UnrelatedMembers(db.links, (repoId, id), l); }
    forall u
      ensures Linked(after, r, u) <==> Linked(db, r, u) && !(r == repoId && u == url)
    {
      if k :| (r, k) in after.links && IsType(after, k, u) {
        assert (r, k) in db.links && IsType(db, k, u);
      }
      if Linked(db, r, u) && !(r == repoId && u == url) {
        var k :| (r, k) in db.links && IsType(db, k, u);
        assert (r, k) in after.links && IsType(after, k, u);
      }
    }
  }

  /** Once unlinked, the type is one the repository may have stale rows for. */
  lemma UnrelateMirrors(db: Db, repoId: int, id: int, url: string, r: int, v: View, stale: set<string>)
    requires Sound(db) && IsType(db, id, url) && Mirrors(db, r, v, stale)
    ensures var own := r == repoId;
      Mirrors(Unrelate(db, repoId, id), r, If(own, v.(links := v.links - {url}), v), If(own, stale + {url}, stale))
  {
    var after, own := Unrelate(db, repoId, id), r == repoId;
    var w := If(own, v.(links := v.links - {url}), v);
    UnrelateLinks(db, repoId, id, url, r, v.links);
    forall ui { NoRowStill(db, after, r, ui); }
    forall ui | ui in w.uis
      ensures RowAgrees(after, r, w, If(own, stale + {url}, stale), ui)
    {
      assert RowAgrees(db, r, v, stale, ui);
      SameUi(db, after, r, ui, v.uis[ui]);
    }
  }

  /** Dropping an unused type takes no link away. */
  lemma CollectLinks(db: Db, id: int, r: int, urls: set<string>)
    requires Sound(db) && LinkedAs(db, r, urls)
    ensures LinkedAs(Collect(db, id), r, urls)
  {
    var after := Collect(db, id);
    forall u
      ensures Linked(after, r, u) <==> Linked(db, r, u)
    {
      if k :| (r, k) in db.links && IsType(db, k, u) {
        assert (r, k).1 == k;
        assert (r, k) in after.links && IsType(after, k, u);
      }
      if k :| (r, k) in after.links && IsType(after, k, u) {
        assert (r, k) in db.links && IsType(db, k, u);
      }
    }
  }

  /** Rows for a dropped type dangle, in no repository that links it. */
  lemma CollectMirrors(db: Db, id: int, r: int, v: View, stale: set<string>)
    requires Sound(db) && Mirrors(db, r, v, stale)
    ensures Mirrors(Collect(db, id), r, v, stale)
  {
    var after := Collect(db, id);
    if Garbage(db, id) {
      CollectLinks(db, id, r, v.links);
      forall ui { NoRowStill(db, after, r, ui); }
      forall ui | ui in v.uis
        ensures RowAgrees(after, r, v, stale, ui)
      {
        assert RowAgrees(db, r, v, stale, ui);
        CollectedRow(db, id, r, v, ui);
      }
    }
  }

  lemma CollectedRow(db: Db, id: int, r: int, v: View, ui: string)
    requires Sound(db) && LinkedAs(db, r, v.links) && Garbage(db, id) && ui in v.uis
    requires UiFor(db, r, ui, v.uis[ui]) || (v.uis[ui] !in v.links && Dangles(db, r, ui))
    ensures var after := Collect(db, id);
      UiFor(after, r, ui, v.uis[ui]) || (v.uis[ui] !in v.links && Dangles(after, r, ui))
  {
    var after := Collect(db, id);
    if UiFor(db, r, ui, v.uis[ui]) {
      var k :| IsUi(db, k, ui, r) && IsType(db, db.uis[k].typeId, v.uis[ui]);
      assert IsUi(after, k, ui, r);
      if db.uis[k].typeId == id {
        UnlinkedType(db, id, r, v.uis[ui]);
        assert after.uis[k].typeId !in after.types;
      } else {
        assert IsType(after, after.uis[k].typeId, v.uis[ui]);
      }
    } else {
      var k :| IsUi(db, k, ui, r) && db.uis[k].typeId !in db.types;
      assert IsUi(after, k, ui, r) && after.uis[k].typeId !in after.types;
    }
  }

  lemma UnlinkedType(db: Db, id: int, r: int, url: string)
    requires Sound(db) && Garbage(db, id) && IsType(db, id, url)
    ensures !Linked(db, r, url)
  {
    forall k | (r, k) in db.links
      ensures !IsType(db, k, url)
    {
      assert (r, k).1 != id;
    }
  }

  /** Deleting an attribute keeps the store sound, and drops a type only if nothing links or uses it. */
  lemma DeleteSound(db: Db, repoId: int, a: Attr, after: Db)
    requires Sound(db) && DeleteStep(db, repoId, a, after)
    ensures Sound(after) && after.usage == db.usage
    ensures forall id :: id in db.types && id !in after.types ==> db.types[id] == a.json && Garbage(after, id)
    ensures HasJson(a) ==> forall id :: IsType(after, id, a.json) ==> !Garbage(after, id)
  {
    var bare :| DropUi(db, repoId, a, bare) && DropType(bare, repoId, a, after);
    DropUiSound(db, repoId, a, bare);
    DropTypeSound(bare, repoId, a, after);
  }

  lemma DropTypeSound(db: Db, repoId: int, a: Attr, after: Db)
    requires Sound(db) && DropType(db, repoId, a, after)
    ensures Sound(after) && after.usage == db.usage
    ensures forall id :: id in db.types && id !in after.types ==> db.types[id] == a.json && Garbage(after, id)
    ensures HasJson(a) ==> forall id :: IsType(after, id, a.json) ==> !Garbage(after, id)
  {
    if HasJson(a) && exists id :: IsType(db, id, a.json) {
      var id :| IsType(db, id, a.json) && after == Collect(Unrelate(db, repoId, id), id);
      UnrelateSound(db, repoId, id);
      CollectSound(Unrelate(db, repoId, id), id);
    }
  }

  lemma CollectSound(db: Db, id: int)
    requires Sound(db) && id in db.types
    ensures Sound(Collect(db, id))
    ensures forall k :: IsType(Collect(db, id), k, db.types[id]) ==> !Garbage(Collect(db, id), k)
  {
  }

  lemma DropUiSound(db: Db, repoId: int, a: Attr, after: Db)
    requires Sound(db) && DropUi(db, repoId, a, after)
    ensures Sound(after) && after.types == db.types && after.links == db.links && after.usage == db.usage
  {
  }

  lemma DropTypeMirrors(db: Db, repoId: int, a: Attr, after: Db, r: int, v: View, stale: set<string>)
    requires Sound(db) && DropType(db, repoId, a, after) && Mirrors(db, r, v, stale)
    ensures var own := r == repoId && HasJson(a);
      Mirrors(after, r, If(own, v.(links := v.links - {a.json}), v), If(own, stale + {a.json}, stale))
  {
    if HasJson(a) {
      if exists id :: IsType(db, id, a.json) {
        var id :| IsType(db, id, a.json) && after == Collect(Unrelate(db, repoId, id), id);
        var mid, own := Unrelate(db, repoId, id), r == repoId;
        UnrelateMirrors(db, repoId, id, a.json, r, v, stale);
        UnrelateSound(db, repoId, id);
        CollectMirrors(mid, id, r, If(own, v.(links := v.links - {a.json}), v), If(own, stale + {a.json}, stale));
      } else if r == repoId {
        assert !Linked(db, repoId, a.json);
        assert v.links - {a.json} == v.links;
        MoreStale(db, r, v, stale, a.json);
      }
    }
  }

  lemma UnrelateSound(db: Db, repoId: int, id: int)
    requires Sound(db)
    ensures Sound(Unrelate(db, repoId, id))
  {
    forall l { UnrelatedMembers(db.links, (repoId, id), l); }
  }

  lemma MoreStale(db: Db, r: int, v: View, stale: set<string>, url: string)
    requires Mirrors(db, r, v, stale)
    ensures Mirrors(db, r, v, stale + {url})
  {
    forall ui | ui in v.uis
      ensures RowAgrees(db, r, v, stale + {url}, ui)
    {
      assert RowAgrees(db, r, v, stale, ui);
    }
  }

  /**
   Deleting an attribute changes its repository's view as `DeleteFrom` says, and no other view.
   Rows the repository still has for the type become stale.
   */
  lemma DeleteRefines(db: Db, repoId: int, a: Attr, after: Db, r: int, v: View, stale: set<string>)
    requires Sound(db) && DeleteStep(db, repoId, a, after) && Mirrors(db, r, v, stale)
    ensures Mirrors(after, r, If(r == repoId, DeleteFrom(v, a), v), If(r == repoId && HasJson(a), stale + {a.json}, stale))
  {
    var bare :| DropUi(db, repoId, a, bare) && DropType(bare, repoId, a, after);
    DropUiSound(db, repoId, a, bare);
    DropUiMirrors(db, repoId, a, bare, r, v, stale);
    var w := if r == repoId && HasUi(a) then v.(uis := v.uis - {a.ui.value}) else v;
    DropTypeMirrors(bare, repoId, a, after, r, w, stale);
  }

  lemma DeleteLinks(db: Db, repoId: int, a: Attr, after: Db, r: int, urls: set<string>)
    requires Sound(db) && DeleteStep(db, repoId, a, after) && LinkedAs(db, r, urls)
    ensures LinkedAs(after, r, if r == repoId && HasJson(a) then urls - {a.json} else urls)
  {
    var bare :| DropUi(db, repoId, a, bare) && DropType(bare, repoId, a, after);
    DropUiSound(db, repoId, a, bare);
    forall u { SameLinks(db, bare, r, u); }
    if HasJson(a) {
      if exists id :: IsType(bare, id, a.json) {
        var id :| IsType(bare, id, a.json) && after == Collect(Unrelate(bare, repoId, id), id);
        UnrelateLinks(bare, repoId, id, a.json, r, urls);
        UnrelateSound(bare, repoId, id);
        CollectLinks(Unrelate(bare, repoId, id), id, r, if r == repoId then urls - {a.json} else urls);
      } else {
        assert !Linked(bare, r, a.json);
      }
    }
  }

  // A whole update

  ghost predicate DeleteRun(db: Db, repoId: int, attrs: seq<Attr>, after: Db)
    decreases |attrs|
  {
    if attrs == [] then after == db
    else exists mid :: DeleteRun(db, repoId, Init(attrs), mid) && DeleteStep(mid, repoId, Last(attrs), after)
  }

  ghost predicate AddRun(db: Db, repoId: int, attrs: seq<Attr>, after: Db)
    decreases |attrs|
  {
    if attrs == [] then after == db
    else exists mid :: AddRun(db, repoId, Init(attrs), mid) && AddStep(mid, repoId, Last(attrs), after)
  }

  /** `updateAttributes`: all deletions, then all additions. */
  ghost predicate UpdateRun(db: Db, repoId: int, u: Updates, after: Db) {
    exists mid :: DeleteRun(db, repoId, u.deletes, mid) && AddRun(mid, repoId, u.adds, after)
  }

  lemma DeleteRunNext(db: Db, repoId: int, attrs: seq<Attr>, i: nat, mid: Db, after: Db)
    requires i < |attrs| && DeleteRun(db, repoId, attrs[..i], mid) && DeleteStep(mid, repoId, attrs[i], after)
    ensures DeleteRun(db, repoId, attrs[..i + 1], after)
  {
    assert Init(attrs[..i + 1]) == attrs[..i] && Last(attrs[..i + 1]) == attrs[i];
  }

  lemma AddRunNext(db: Db, repoId: int, attrs: seq<Attr>, i: nat, mid: Db, after: Db)
    requires i < |attrs| && AddRun(db, repoId, attrs[..i], mid) && AddStep(mid, repoId, attrs[i], after)
    ensures AddRun(db, repoId, attrs[..i + 1], after)
  {
    assert Init(attrs[..i + 1]) == attrs[..i] && Last(attrs[..i + 1]) == attrs[i];
  }

  lemma {:induction false} DeleteRunSound(db: Db, repoId: int, attrs: seq<Attr>, after: Db)
    requires Sound(db) && DeleteRun(db, repoId, attrs, after)
    ensures Sound(after) && after.usage == db.usage
    decreases |attrs|
  {
    if attrs != [] {
      var mid :| DeleteRun(db, repoId, Init(attrs), mid) && DeleteStep(mid, repoId, Last(attrs), after);
      DeleteRunSound(db, repoId, Init(attrs), mid);
      DeleteSound(mid, repoId, Last(attrs), after);
    }
  }

  lemma {:induction false} AddRunSound(db: Db, repoId: int, attrs: seq<Attr>, after: Db)
    requires Sound(db) && AddRun(db, repoId, attrs, after)
    ensures Sound(after) && after.usage == db.usage
    decreases |attrs|
  {
    if attrs != [] {
      var mid :| AddRun(db, repoId, Init(attrs), mid) && AddStep(mid, repoId, Last(attrs), after);
      AddRunSound(db, repoId, Init(attrs), mid);
      AddSound(mid, repoId, Last(attrs), after);
    }
  }

  lemma {:induction false} DeleteRunRefines(db: Db, repoId: int, attrs: seq<Attr>, after: Db, r: int, v: View, stale: set<string>)
    requires Sound(db) && DeleteRun(db, repoId, attrs, after) && Mirrors(db, r, v, stale)
    ensures Mirrors(after, r, If(r == repoId, DeleteAll(v, attrs), v), If(r == repoId, stale + Jsons(attrs), stale))
    decreases |attrs|
  {
    if attrs == [] {
      assert stale + Jsons([]) == stale;
    } else {
      var front, a := Init(attrs), Last(attrs);
      var mid :| DeleteRun(db, repoId, front, mid) && DeleteStep(mid, repoId, a, after);
      DeleteRunSound(db, repoId, front, mid);
      DeleteRunRefines(db, repoId, front, mid, r, v, stale);
      if r == repoId {
        DeleteRefines(mid, repoId, a, after, r, DeleteAll(v, front), stale + Jsons(front));
        JsonsStep(attrs);
        assert stale + Jsons(attrs) == If(HasJson(a), stale + Jsons(front) + {a.json}, stale + Jsons(front));
      } else {
        DeleteRefines(mid, repoId, a, after, r, v, stale);
      }
    }
  }

  lemma {:induction false} AddRunRefines(db: Db, repoId: int, attrs: seq<Attr>, after: Db, r: int, v: View, stale: set<string>)
    requires Sound(db) && AddRun(db, repoId, attrs, after) && Mirrors(db, r, v, stale)
    requires r == repoId ==> Jsons(attrs) !! stale
    ensures Mirrors(after, r, If(r == repoId, AddAll(v, attrs), v), stale)
    decreases |attrs|
  {
    if attrs != [] {
      var front, a := Init(attrs), Last(attrs);
      var mid :| AddRun(db, repoId, front, mid) && AddStep(mid, repoId, a, after);
      JsonsStep(attrs);
      AddRunSound(db, repoId, front, mid);
      AddRunRefines(db, repoId, front, mid, r, v, stale);
      AddRefines(mid, repoId, a, after, r, If(r == repoId, AddAll(v, front), v), stale);
    }
  }

  lemma {:induction false} DeleteRunLinks(db: Db, repoId: int, attrs: seq<Attr>, after: Db, r: int, urls: set<string>)
    requires Sound(db) && DeleteRun(db, repoId, attrs, after) && LinkedAs(db, r, urls)
    ensures LinkedAs(after, r, If(r == repoId, urls - Jsons(attrs), urls))
    decreases |attrs|
  {
    if attrs == [] {
      assert urls - Jsons([]) == urls;
    } else {
      var front, a := Init(attrs), Last(attrs);
      var mid :| DeleteRun(db, repoId, front, mid) && DeleteStep(mid, repoId, a, after);
      var left := If(r == repoId, urls - Jsons(front), urls);
      DeleteRunSound(db, repoId, front, mid);
      DeleteRunLinks(db, repoId, front, mid, r, urls);
      DeleteLinks(mid, repoId, a, after, r, left);
      LessLast(urls, attrs);
    }
  }

  lemma LessLast(urls: set<string>, attrs: seq<Attr>)
    requires attrs != []
    ensures var left := urls - Jsons(Init(attrs));
      urls - Jsons(attrs) == if HasJson(Last(attrs)) then left - {Last(attrs).json} else left
  {
    JsonsStep(attrs);
  }

  lemma {:induction false} AddRunLinks(db: Db, repoId: int, attrs: seq<Attr>, after: Db, r: int, urls: set<string>)
    requires Sound(db) && AddRun(db, repoId, attrs, after) && LinkedAs(db, r, urls)
    ensures LinkedAs(after, r, If(r == repoId, urls + Jsons(attrs), urls))
    decreases |attrs|
  {
    if attrs == [] {
      assert urls + Jsons([]) == urls;
    } else {
      var front, a := Init(attrs), Last(attrs);
      var mid :| AddRun(db, repoId, front, mid) && AddStep(mid, repoId, a, after);
      var more := If(r == repoId, urls + Jsons(front), urls);
      AddRunSound(db, repoId, front, mid);
      AddRunLinks(db, repoId, front, mid, r, urls);
      AddLinks(mid, repoId, a, after, r, more);
      MoreLast(urls, attrs);
    }
  }

  lemma MoreLast(urls: set<string>, attrs: seq<Attr>)
    requires attrs != []
    ensures var more := urls + Jsons(Init(attrs));
      urls + Jsons(attrs) == if HasJson(Last(attrs)) then more + {Last(attrs).json} else more
  {
    JsonsStep(attrs);
  }

  lemma UpdateSound(db: Db, repoId: int, u: Updates, after: Db)
    requires Sound(db) && UpdateRun(db, repoId, u, after)
    ensures Sound(after) && after.usage == db.usage
  {
    var mid :| DeleteRun(db, repoId, u.deletes, mid) && AddRun(mid, repoId, u.adds, after);
    DeleteRunSound(db, repoId, u.deletes, mid);
    AddRunSound(mid, repoId, u.adds, after);
  }

  /** Whatever it showed before, after an update by the diff a repository's links are those of the new content. */
  lemma UpdateLinks(db: Db, repoId: int, curr: seq<Attr>, incoming: seq<Attr>, u: Updates, after: Db, r: int, urls: set<string>)
    requires Sound(db) && IsDiff(curr, incoming, u) && UpdateRun(db, repoId, u, after)
    requires LinkedAs(db, r, urls) && (r == repoId ==> urls == Jsons(curr))
    ensures LinkedAs(after, r, If(r == repoId, Jsons(incoming), urls))
  {
    var mid :| DeleteRun(db, repoId, u.deletes, mid) && AddRun(mid, repoId, u.adds, after);
    DeleteRunSound(db, repoId, u.deletes, mid);
    DeleteRunLinks(db, repoId, u.deletes, mid, r, urls);
    AddRunLinks(mid, repoId, u.adds, after, r, If(r == repoId, urls - Jsons(u.deletes), urls));
    PatchedLinks(curr, incoming, u);
  }

  /** Deleted types are not added again. */
  lemma AddsApart(curr: seq<Attr>, incoming: seq<Attr>, u: Updates)
    requires IsDiff(curr, incoming, u)
    ensures Jsons(u.adds) !! Jsons(u.deletes)
  {
    DeletedJsons(curr, incoming, u);
    AddedJsons(Existing(curr), incoming);
  }

  /**
   Updating a repository that shows its content by the diff to new content: its rows are those of
   the patched view, stale at most for the deleted types, and every other repository keeps its rows.
   */
  lemma UpdateRefines(db: Db, repoId: int, curr: seq<Attr>, incoming: seq<Attr>, u: Updates, after: Db, r: int, v: View, stale: set<string>)
    requires Sound(db) && IsDiff(curr, incoming, u) && UpdateRun(db, repoId, u, after)
    requires Mirrors(db, r, v, stale) && (r == repoId ==> v == Rebuilt(curr) && stale == {})
    ensures Mirrors(after, r, If(r == repoId, Patched(v, u), v), If(r == repoId, Jsons(u.deletes), stale))
  {
    var mid :| DeleteRun(db, repoId, u.deletes, mid) && AddRun(mid, repoId, u.adds, after);
    DeleteRunSound(db, repoId, u.deletes, mid);
    DeleteRunRefines(db, repoId, u.deletes, mid, r, v, stale);
    AddsApart(curr, incoming, u);
    assert {} + Jsons(u.deletes) == Jsons(u.deletes);
    AddRunRefines(mid, repoId, u.adds, after, r, If(r == repoId, DeleteAll(v, u.deletes), v), If(r == repoId, Jsons(u.deletes), stale));
  }

  /** A UI schema has one row, so it is for one type and does not dangle. */
  lemma OneRow(db: Db, r: int, ui: string, json: string)
    requires Sound(db) && UiFor(db, r, ui, json)
    ensures !Dangles(db, r, ui) && forall other :: UiFor(db, r, ui, other) ==> other == json
  {
    var k :| IsUi(db, k, ui, r) && IsType(db, db.uis[k].typeId, json);
    forall j | IsUi(db, j, ui, r)
      ensures j == k
    {
    }
  }

  /** Rows of a view are the rows of one view only, if that one has nothing stale. */
  lemma MirroredIsShown(db: Db, r: int, v: View, stale: set<string>, w: View)
    requires Sound(db) && Mirrors(db, r, v, stale) && v.links == w.links
    requires forall ui :: ui in w.uis ==> w.uis[ui] in w.links
    ensures Shows(db, r, w) <==> v.uis == w.uis
  {
    if Shows(db, r, w) {
      forall ui | ui in v.uis
        ensures ui in w.uis && v.uis[ui] == w.uis[ui]
      {
        assert RowAgrees(db, r, v, stale, ui) && RowAgrees(db, r, w, {}, ui);
        OneRow(db, r, ui, w.uis[ui]);
      }
      assert v.uis.Keys == w.uis.Keys;
    }
    if v.uis == w.uis {
      forall ui | ui in w.uis
        ensures RowAgrees(db, r, w, {}, ui)
      {
        assert RowAgrees(db, r, v, stale, ui);
      }
    }
  }

  /** Views are determined by the store. */
  lemma ShowsUnique(db: Db, repoId: int, v: View, w: View)
    requires Sound(db) && Shows(db, repoId, v) && Shows(db, repoId, w)
    ensures v == w
  {
    assert v.links == w.links;
    forall ui | ui in w.uis
      ensures w.uis[ui] in w.links
    {
      assert RowAgrees(db, repoId, w, {}, ui);
    }
    MirroredIsShown(db, repoId, v, {}, w);
  }

  /** Every type a rebuilt view shows a UI schema for is linked. */
  lemma RebuiltIsLinked(attrs: seq<Attr>)
    ensures Rebuilt(attrs).links == Jsons(attrs)
    ensures forall ui :: ui in Rebuilt(attrs).uis ==> Rebuilt(attrs).uis[ui] in Rebuilt(attrs).links
  {
    AddAllMeans(EMPTY_VIEW, attrs);
    forall ui | ui in Rebuilt(attrs).uis
      ensures Rebuilt(attrs).uis[ui] in Jsons(attrs)
    {
      FirstClaimMeans(attrs, ui);
    }
  }

  /**
   After the update a repository that showed its content shows the new content exactly when the
   two contents agree about the UI schemas; its links are the new ones in any case.
   */
  lemma SyncAgrees(db: Db, repoId: int, curr: seq<Attr>, incoming: seq<Attr>, u: Updates, after: Db)
    requires Sound(db) && IsDiff(curr, incoming, u)
    requires Shows(db, repoId, Rebuilt(curr)) && UpdateRun(db, repoId, u, after)
    ensures Shows(after, repoId, Rebuilt(incoming)) <==> UisAgree(curr, incoming)
    ensures LinkedAs(after, repoId, Jsons(incoming))
  {
    UpdateSound(db, repoId, u, after);
    UpdateRefines(db, repoId, curr, incoming, u, after, repoId, Rebuilt(curr), {});
    PatchIsRebuild(curr, incoming, u);
    RebuiltIsLinked(incoming);
    MirroredIsShown(after, repoId, Patched(Rebuilt(curr), u), Jsons(u.deletes), Rebuilt(incoming));
  }

  /** In a store whose repositories all show something, no reference dangles. */
  lemma ShownIsWhole(db: Db, k: int, v: View)
    requires Sound(db) && k in db.uis && Shows(db, db.uis[k].repoId, v)
    ensures (db.uis[k].repoId, db.uis[k].typeId) in db.links && db.uis[k].typeId in db.types
  {
    var r, ui := db.uis[k].repoId, db.uis[k].url;
    assert IsUi(db, k, ui, r);
    assert ui in v.uis && RowAgrees(db, r, v, {}, ui);
    var j :| IsUi(db, j, ui, r) && IsType(db, db.uis[j].typeId, v.uis[ui]);
    assert j == k;
    var id :| (r, id) in db.links && IsType(db, id, v.uis[ui]);
  }
}
