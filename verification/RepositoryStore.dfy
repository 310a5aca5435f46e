/** The repositories themselves and their synchronisation (src/main/identity/repository.js:139-212). */
module RepositoryStore {
  import opened Wrappers
  import opened Sequences
  import opened RepositoryDiff
  import opened RepositoryDb

  datatype Repo = Repo(url: string, content: seq<Entry>)

  /** What happens to the store over time: repositories are refetched, identity attributes come and go. */
  datatype Event = Refetched(url: string, content: seq<Entry>) | AttributeCreated(typeId: int) | AttributeDeleted(attributeId: int)

  datatype State = State(db: Db, nextAttribute: int, repos: map<int, Repo>, nextRepo: int)

  ghost predicate OwnedBy(db: Db, ids: set<int>) {
    (forall l :: l in db.links ==> l.0 in ids) && forall k :: k in db.uis ==> db.uis[k].repoId in ids
  }

  /** The tables are sound, their rows belong to known repositories, and repository urls are unique. */
  ghost predicate Whole(s: State) {
    Sound(s.db) && OwnedBy(s.db, s.repos.Keys) &&
    (forall r :: r in s.repos ==> r < s.nextRepo) &&
    (forall a, b :: a in s.repos && b in s.repos && s.repos[a].url == s.repos[b].url ==> a == b) &&
    forall a :: a in s.db.usage ==> a < s.nextAttribute
  }

  /** The entries saved for a repository; a new one has none. */
  function SavedAttrs(s: State, id: int): seq<Attr> {
    if id in s.repos then Attrs(s.repos[id].content) else []
  }

  /** The tables show repository `id` exactly as its saved content says. */
  ghost predicate Agrees(s: State, id: int) {
    Shows(s.db, id, Rebuilt(SavedAttrs(s, id)))
  }

  ghost predicate LinksAgree(s: State, id: int) {
    LinkedAs(s.db, id, Jsons(SavedAttrs(s, id)))
  }

  /** The repository is linked to exactly the types its content names. */
  ghost predicate LinksNamed(s: State, id: int, content: seq<Entry>) {
    forall u :: Linked(s.db, id, u) <==> Names(content, u)
  }

  /** And shows each UI schema for the type that the first entry with it gives it to. */
  ghost predicate ShowsNamed(s: State, id: int, content: seq<Entry>) {
    LinksNamed(s, id, content) && forall u, w :: UiFor(s.db, id, w, u) <==> GivesFirst(content, u, w)
  }

  ghost predicate AllAgree(s: State) {
    forall r :: r in s.repos ==> Agrees(s, r)
  }

  // The steps

  /** The repository of this url, or the id of a new one. */
  ghost predicate IsTarget(s: State, url: string, id: int) {
    if exists r :: r in s.repos && s.repos[r].url == url
    then id in s.repos && s.repos[id].url == url
    else id == s.nextRepo
  }

  /** The transaction of `addRemoteRepo` on repository `id`; a diff that throws rolls everything back. */
  ghost predicate RefetchOf(s: State, url: string, content: seq<Entry>, id: int, t: State) {
    var curr, incoming := SavedAttrs(s, id), Attrs(content);
    if DiffThrows(curr, incoming) then t == s
    else exists u :: DiffOf(curr, incoming, u) && UpdateRun(s.db, id, u, t.db) && t == Saving(s, url, content, id, t.db)
  }

  function Saving(s: State, url: string, content: seq<Entry>, id: int, db: Db): State {
    State(db, s.nextAttribute, s.repos[id := Repo(url, content)], if id in s.repos then s.nextRepo else s.nextRepo + 1)
  }

  function Created(s: State, typeId: int): State {
    if typeId !in s.db.types then s
    else s.(db := s.db.(usage := s.db.usage[s.nextAttribute := typeId]), nextAttribute := s.nextAttribute + 1)
  }

  function Deleted(s: State, attributeId: int): State {
    s.(db := s.db.(usage := s.db.usage - {attributeId}))
  }

  ghost predicate StepOf(s: State, e: Event, t: State) {
    match e
    case Refetched(url, content) => exists id :: IsTarget(s, url, id) && RefetchOf(s, url, content, id, t)
    case AttributeCreated(typeId) => t == Created(s, typeId)
    case AttributeDeleted(attributeId) => t == Deleted(s, attributeId)
  }

  /** A run: the states, one more than there are events. */
  ghost predicate IsRun(states: seq<State>, events: seq<Event>) {
    |states| == |events| + 1 && Whole(states[0]) &&
    forall i :: 0 <= i < |events| ==> StepOf(states[i], events[i], states[i + 1])
  }

  class Registry {
    var types: map<int, string>
    var nextType: int
    var links: seq<(int, int)>
    var uis: map<int, UiRow>
    var nextUi: int
    var usage: map<int, int>
    var nextAttribute: int
    var repos: map<int, Repo>
    var nextRepo: int

    function Contents(): Db
      reads this
    {
      Db(types, nextType, links, uis, nextUi, usage)
    }

    function Now(): State
      reads this
    {
      State(Contents(), nextAttribute, repos, nextRepo)
    }

    ghost predicate Valid()
      reads this
    {
      Whole(Now())
    }

    constructor ()
      ensures Valid() && Now() == State(Db(map[], 1, [], map[], 1, map[]), 1, map[], 1)
    {
      types, nextType, links, uis, nextUi, usage := map[], 1, [], map[], 1, map[];
      nextAttribute, repos, nextRepo := 1, map[], 1;
    }

    method AddAttribute(repoId: int, a: Attr)
      modifies this`types, this`nextType, this`links, this`uis, this`nextUi
      ensures AddStep(old(Contents()), repoId, a, Contents())
    {
      if !HasJson(a) {
        return;
      }
      ghost var db := Contents();
      var id := nextType;
      if exists k :: k in types && types[k] == a.json {
        id :| id in types && types[id] == a.json;
        assert IsType(db, id, a.json);
      } else {
        assert forall k :: !IsType(db, k, a.json);
        types, nextType := types[nextType := a.json], nextType + 1;
      }
      ghost var typed := Contents();
      assert Typed(db, a.json, id, typed);
      links := links + [(repoId, id)];
      if HasUi(a) {
        if exists k :: k in uis && uis[k].url == a.ui.value && uis[k].repoId == repoId {
          ghost var k :| k in uis && uis[k].url == a.ui.value && uis[k].repoId == repoId;
          assert IsUi(db, k, a.ui.value, repoId);
        } else {
          assert forall k :: k in db.uis ==> !IsUi(db, k, a.ui.value, repoId);
          uis, nextUi := uis[nextUi := UiRow(a.ui.value, repoId, id)], nextUi + 1;
        }
      }
      assert Contents() == Attached(db, typed, repoId, id, a);
    }

    method DeleteAttribute(repoId: int, a: Attr)
      modifies this`types, this`links, this`uis
      ensures DeleteStep(old(Contents()), repoId, a, Contents())
    {
      ghost var db := Contents();
      if HasUi(a) {
        if exists k :: k in uis && uis[k].url == a.ui.value && uis[k].repoId == repoId {
          var k :| k in uis && uis[k].url == a.ui.value && uis[k].repoId == repoId;
          assert IsUi(db, k, a.ui.value, repoId);
          uis := uis - {k};
        } else {
          assert forall k :: k in db.uis ==> !IsUi(db, k, a.ui.value, repoId);
        }
      }
      ghost var bare := Contents();
      assert DropUi(db, repoId, a, bare);
      if HasJson(a) {
        if exists k :: k in types && types[k] == a.json {
          var id :| id in types && types[id] == a.json;
          assert IsType(bare, id, a.json);
          links := Unrelated(links, (repoId, id));
          if Garbage(Contents(), id) {
            types := types - {id};
          }
          assert Contents() == Collect(Unrelate(bare, repoId, id), id);
        } else {
          assert forall k :: !IsType(bare, k, a.json);
        }
      }
      assert DropType(bare, repoId, a, Contents());
    }

    method UpdateAttributes(repoId: int, u: Updates)
      modifies this`types, this`nextType, this`links, this`uis, this`nextUi
      ensures UpdateRun(old(Contents()), repoId, u, Contents())
    {
      ghost var db := Contents();
      for i := 0 to |u.deletes|
        invariant DeleteRun(db, repoId, u.deletes[..i], Contents())
        invariant nextAttribute == old(nextAttribute) && usage == old(usage)
      {
        ghost var mid := Contents();
        DeleteAttribute(repoId, u.deletes[i]);
        DeleteRunNext(db, repoId, u.deletes, i, mid, Contents());
      }
      assert u.deletes[..|u.deletes|] == u.deletes;
      ghost var mid := Contents();
      for i := 0 to |u.adds|
        invariant AddRun(mid, repoId, u.adds[..i], Contents())
      {
        ghost var before := Contents();
        AddAttribute(repoId, u.adds[i]);
        AddRunNext(mid, repoId, u.adds, i, before, Contents());
      }
      assert u.adds[..|u.adds|] == u.adds;
    }

    /** The repository of this url, or an empty new one. */
    method FindOrCreate(url: string) returns (id: int)
      requires Valid()
      modifies this`repos, this`nextRepo
      ensures IsTarget(old(Now()), url, id)
      ensures id in old(repos) ==> Now() == old(Now())
      ensures id !in old(repos) ==> repos == old(repos)[id := Repo(url, [])] && nextRepo == old(nextRepo) + 1
    {
      if exists r :: r in repos && repos[r].url == url {
        id :| id in repos && repos[id].url == url;
      } else {
        id := nextRepo;
        repos, nextRepo := repos[id := Repo(url, [])], nextRepo + 1;
      }
    }

    /** Diff, update, and save, on a repository that is there. */
    method Resync(id: int, url: string, content: seq<Entry>) returns (updated: bool)
      requires id in repos
      modifies this
      ensures updated <==> !DiffThrows(Attrs(old(repos[id].content)), Attrs(content))
      ensures !updated ==> Now() == old(Now())
      ensures updated ==>
        exists u :: DiffOf(Attrs(old(repos[id].content)), Attrs(content), u) && UpdateRun(old(Contents()), id, u, Contents())
      ensures updated ==> Now() == old(Now()).(db := Contents(), repos := old(repos)[id := Repo(url, content)])
    {
      var diff := DiffAttributes(Attrs(repos[id].content), Attrs(content));
      if diff.Failure? {
        return false;
      }
      UpdateAttributes(id, diff.value);
      repos := repos[id := Repo(url, content)];
      updated := true;
    }

    /**
     `addRemoteRepo` once the content has been fetched, whatever it is. If the repository agreed
     with its saved content, it agrees with the new one exactly when the two contents resync;
     other repositories agree as before.
     */
    method AddRemoteRepo(url: string, content: seq<Entry>) returns (r: Result<int>, ghost id: int)
      requires Valid()
      modifies this
      ensures Valid() && IsTarget(old(Now()), url, id) && RefetchOf(old(Now()), url, content, id, Now())
      ensures r == if DiffThrows(SavedAttrs(old(Now()), id), Attrs(content)) then Failure(TypeError) else Success(id)
      ensures r.Failure? ==> Now() == old(Now())
      ensures r.Success? ==> repos == old(repos)[id := Repo(url, content)] && Resynced(old(Now()), content, id, Now())
      ensures EachNames(content) && (id in old(repos) ==> EachNames(old(repos)[id].content)) ==> r.Success?
      ensures FetchedNamed(old(Now()), content, id, Now())
    {
      ghost var before := Now();
      var repos0, nextRepo0 := repos, nextRepo;
      var repo := FindOrCreate(url);
      id := repo;
      NamedDiff(before, content, id);
      assert Attrs([]) == [] && Attrs(repos[repo].content) == SavedAttrs(before, repo);
      var updated := Resync(repo, url, content);
      if !updated {
        repos, nextRepo := repos0, nextRepo0;
        RefetchNamed(before, url, content, id, Now());
        r := Failure(TypeError);
        return;
      }
      assert repos == before.repos[repo := Repo(url, content)];
      assert Now() == Saving(before, url, content, repo, Contents());
      RefetchOutcome(before, url, content, id, Now());
      RefetchNamed(before, url, content, id, Now());
      r := Success(repo);
    }

    /** A wallet gains an identity attribute of an existing type. */
    method CreateIdAttribute(typeId: int) returns (r: Result<int>)
      requires Valid()
      modifies this`usage, this`nextAttribute
      ensures Valid() && Now() == Created(old(Now()), typeId)
      ensures r == if typeId in types then Success(old(nextAttribute)) else Failure(NotFound)
    {
      if typeId !in types {
        return Failure(NotFound);
      }
      r := Success(nextAttribute);
      usage, nextAttribute := usage[nextAttribute := typeId], nextAttribute + 1;
    }

    method DeleteIdAttribute(attributeId: int)
      requires Valid()
      modifies this`usage
      ensures Valid() && Now() == Deleted(old(Now()), attributeId)
    {
      usage := usage - {attributeId};
    }

    method Step(e: Event)
      requires Valid()
      modifies this
      ensures Valid() && StepOf(old(Now()), e, Now())
    {
      match e {
        case Refetched(url, content) =>
          var _, _ := AddRemoteRepo(url, content);
        case AttributeCreated(typeId) =>
          var _ := CreateIdAttribute(typeId);
        case AttributeDeleted(attributeId) =>
          DeleteIdAttribute(attributeId);
      }
    }

    method StepAll(events: seq<Event>) returns (ghost states: seq<State>)
      requires Valid()
      modifies this
      ensures Valid() && IsRun(states, events) && states[0] == old(Now()) && states[|events|] == Now()
    {
      states := [Now()];
      for i := 0 to |events|
        invariant Valid() && |states| == i + 1 && states[0] == old(Now()) && states[i] == Now()
        invariant IsRun(states, events[..i])
      {
        ghost var before := states;
        Step(events[i]);
        states := states + [Now()];
        Extended(before, events, i, Now());
      }
      assert events[..|events|] == events;
    }

    /**
     Any sequence of syncs of several repositories, interleaved with identity attributes coming
     and going. Every url ends with the content saved last for it, the attributes are those
     created and not deleted, and published content leaves every repository in agreement.
     */
    method Run(events: seq<Event>) returns (ghost states: seq<State>)
      requires Valid()
      modifies this
      ensures Valid() && IsRun(states, events) && states[0] == old(Now()) && states[|events|] == Now()
      ensures forall url :: ContentOf(Now(), url) == SavedLast(ContentOf(old(Now()), url), events, url)
      ensures UsageFrom(old(Now()), events, Now())
      ensures AllPublished(old(Now())) && AllAgree(old(Now())) && EventsPublished(events) ==> AllAgree(Now())
    {
      states := StepAll(events);
      assert events[..|events|] == events;
      forall url { RunContents(states, events, |events|, url); }
      RunUsage(states, events, |events|);
      if AllPublished(states[0]) && AllAgree(states[0]) && EventsPublished(events) {
        RunAgrees(states, events, |events|);
      }
    }
  }

  lemma Extended(states: seq<State>, events: seq<Event>, i: nat, t: State)
    requires i < |events| && IsRun(states, events[..i]) && StepOf(states[i], events[i], t)
    ensures IsRun(states + [t], events[..i + 1])
  {
    var more := states + [t];
    forall k | 0 <= k < i + 1
      ensures StepOf(more[k], events[..i + 1][k], more[k + 1])
    {
      assert k < i ==> events[..i][k] == events[k] && more[k + 1] == states[k + 1];
    }
  }

  // One refetch

  /** Exactly when a repository that agreed with its content agrees with the incoming one after the sync. */
  ghost predicate Resyncs(curr: seq<Attr>, incoming: seq<Attr>) {
    if Truncated(curr) then Jsons(curr) == {} else UisAgree(curr, incoming)
  }

  lemma AddOwned(db: Db, repoId: int, a: Attr, after: Db, ids: set<int>)
    requires AddStep(db, repoId, a, after) && OwnedBy(db, ids) && repoId in ids
    ensures OwnedBy(after, ids)
  {
  }

  lemma DeleteOwned(db: Db, repoId: int, a: Attr, after: Db, ids: set<int>)
    requires DeleteStep(db, repoId, a, after) && OwnedBy(db, ids)
    ensures OwnedBy(after, ids)
  {
    var bare :| DropUi(db, repoId, a, bare) && DropType(bare, repoId, a, after);
    assert OwnedBy(bare, ids);
    DropTypeOwned(bare, repoId, a, after, ids);
  }

  lemma DropTypeOwned(db: Db, repoId: int, a: Attr, after: Db, ids: set<int>)
    requires DropType(db, repoId, a, after) && OwnedBy(db, ids)
    ensures OwnedBy(after, ids)
  {
    if HasJson(a) && exists id :: IsType(db, id, a.json) {
      var id :| IsType(db, id, a.json) && after == Collect(Unrelate(db, repoId, id), id);
      forall l { UnrelatedMembers(db.links, (repoId, id), l); }
    }
  }

  lemma {:induction false} DeleteRunOwned(db: Db, repoId: int, attrs: seq<Attr>, after: Db, ids: set<int>)
    requires DeleteRun(db, repoId, attrs, after) && OwnedBy(db, ids)
    ensures OwnedBy(after, ids)
    decreases |attrs|
  {
    if attrs != [] {
      var mid :| DeleteRun(db, repoId, Init(attrs), mid) && DeleteStep(mid, repoId, Last(attrs), after);
      DeleteRunOwned(db, repoId, Init(attrs), mid, ids);
      DeleteOwned(mid, repoId, Last(attrs), after, ids);
    }
  }

  lemma {:induction false} AddRunOwned(db: Db, repoId: int, attrs: seq<Attr>, after: Db, ids: set<int>)
    requires AddRun(db, repoId, attrs, after) && OwnedBy(db, ids) && repoId in ids
    ensures OwnedBy(after, ids)
    decreases |attrs|
  {
    if attrs != [] {
      var mid :| AddRun(db, repoId, Init(attrs), mid) && AddStep(mid, repoId, Last(attrs), after);
      AddRunOwned(db, repoId, Init(attrs), mid, ids);
      AddOwned(mid, repoId, Last(attrs), after, ids);
    }
  }

  lemma UpdateOwned(db: Db, repoId: int, u: Updates, after: Db, ids: set<int>)
    requires UpdateRun(db, repoId, u, after) && OwnedBy(db, ids) && repoId in ids
    ensures OwnedBy(after, ids)
  {
    var mid :| DeleteRun(db, repoId, u.deletes, mid) && AddRun(mid, repoId, u.adds, after);
    DeleteRunOwned(db, repoId, u.deletes, mid, ids);
    AddRunOwned(mid, repoId, u.adds, after, ids);
  }

  lemma RefetchWhole(s: State, url: string, content: seq<Entry>, id: int, t: State)
    requires Whole(s) && IsTarget(s, url, id) && RefetchOf(s, url, content, id, t)
    ensures Whole(t) && t.db.usage == s.db.usage
  {
    if !DiffThrows(SavedAttrs(s, id), Attrs(content)) {
      var u :| DiffOf(SavedAttrs(s, id), Attrs(content), u) && UpdateRun(s.db, id, u, t.db) && t == Saving(s, url, content, id, t.db);
      UpdateSound(s.db, id, u, t.db);
      UpdateOwned(s.db, id, u, t.db, t.repos.Keys);
    }
  }

  /** A repository not seen before has no rows. */
  lemma NewAgrees(s: State, id: int)
    requires Whole(s) && id !in s.repos
    ensures Agrees(s, id)
  {
    forall url
      ensures !Linked(s.db, id, url)
    {
      assert forall k :: (id, k) in s.db.links ==> (id, k).0 in s.repos.Keys;
    }
    assert forall k :: k in s.db.uis ==> s.db.uis[k].repoId != id;
    assert Rebuilt([]) == EMPTY_VIEW;
  }

  /** Without a single `json` in the incoming content an empty update is right if nothing was linked. */
  lemma TruncatedResyncs(s: State, curr: seq<Attr>, incoming: seq<Attr>, id: int)
    requires Sound(s.db) && Shows(s.db, id, Rebuilt(curr)) && Jsons(incoming) == {}
    ensures Shows(s.db, id, Rebuilt(incoming)) <==> Jsons(curr) == {}
  {
    RebuiltIsLinked(curr);
    RebuiltIsLinked(incoming);
    if Shows(s.db, id, Rebuilt(incoming)) {
      ShowsUnique(s.db, id, Rebuilt(curr), Rebuilt(incoming));
    }
    if Jsons(curr) == {} {
      assert Rebuilt(curr).uis == map[] == Rebuilt(incoming).uis;
    }
  }

  lemma NothingRuns(db: Db, id: int, after: Db)
    requires UpdateRun(db, id, Updates([], []), after)
    ensures after == db
  {
  }

  lemma NoJsons(curr: seq<Attr>, incoming: seq<Attr>)
    requires Truncated(curr) && !DiffThrows(curr, incoming)
    ensures Jsons(incoming) == {}
  {
  }

  /** If the repository agreed before, it agrees after the refetch exactly when the contents resync. */
  lemma RefetchResyncs(s: State, url: string, content: seq<Entry>, id: int, t: State)
    requires Whole(s) && IsTarget(s, url, id) && RefetchOf(s, url, content, id, t)
    requires !DiffThrows(SavedAttrs(s, id), Attrs(content))
    ensures (id in s.repos ==> Agrees(s, id)) ==> (Agrees(t, id) <==> Resyncs(SavedAttrs(s, id), Attrs(content)))
  {
    var curr, incoming := SavedAttrs(s, id), Attrs(content);
    var u :| DiffOf(curr, incoming, u) && UpdateRun(s.db, id, u, t.db) && t == Saving(s, url, content, id, t.db);
    if id !in s.repos {
      NewAgrees(s, id);
    }
    if Agrees(s, id) {
      if Truncated(curr) {
        NothingRuns(s.db, id, t.db);
        NoJsons(curr, incoming);
        TruncatedResyncs(s, curr, incoming, id);
      } else {
        SyncAgrees(s.db, id, curr, incoming, u, t.db);
      }
    }
  }

  /** What another repository shows stays what it is. */
  lemma RefetchOthers(s: State, url: string, content: seq<Entry>, id: int, t: State, other: int)
    requires Whole(s) && IsTarget(s, url, id) && RefetchOf(s, url, content, id, t) && other != id
    ensures Agrees(s, other) ==> Agrees(t, other)
    ensures LinksAgree(s, other) ==> LinksAgree(t, other)
  {
    var curr, incoming := SavedAttrs(s, id), Attrs(content);
    if !DiffThrows(curr, incoming) {
      var u :| DiffOf(curr, incoming, u) && UpdateRun(s.db, id, u, t.db) && t == Saving(s, url, content, id, t.db);
      if Truncated(curr) {
        NothingRuns(s.db, id, t.db);
      } else {
        if Agrees(s, other) {
          UpdateRefines(s.db, id, curr, incoming, u, t.db, other, Rebuilt(SavedAttrs(s, other)), {});
        }
        if LinksAgree(s, other) {
          UpdateLinks(s.db, id, curr, incoming, u, t.db, other, Jsons(SavedAttrs(s, other)));
        }
      }
    }
  }

  /** What a refetch does for the agreement of its repository and of the others. */
  ghost predicate Resynced(s: State, content: seq<Entry>, id: int, t: State) {
    ((id in s.repos ==> Agrees(s, id)) ==> (Agrees(t, id) <==> Resyncs(SavedAttrs(s, id), Attrs(content)))) &&
    forall other :: other in s.repos && other != id && Agrees(s, other) ==> Agrees(t, other)
  }

  lemma RefetchOutcome(s: State, url: string, content: seq<Entry>, id: int, t: State)
    requires Whole(s) && IsTarget(s, url, id) && RefetchOf(s, url, content, id, t)
    requires !DiffThrows(SavedAttrs(s, id), Attrs(content))
    ensures Whole(t) && Resynced(s, content, id, t)
  {
    RefetchWhole(s, url, content, id, t);
    RefetchResyncs(s, url, content, id, t);
    forall other | other in s.repos && other != id { RefetchOthers(s, url, content, id, t, other); }
  }

  /** A refetch keeps the links right, unless the saved content ends without a `json`. */
  lemma RefetchLinks(s: State, url: string, content: seq<Entry>, id: int, t: State)
    requires Whole(s) && IsTarget(s, url, id) && RefetchOf(s, url, content, id, t)
    requires (id in s.repos ==> LinksAgree(s, id)) && !DiffThrows(SavedAttrs(s, id), Attrs(content))
    ensures LinksAgree(t, id) <==> !Truncated(SavedAttrs(s, id)) || Jsons(SavedAttrs(s, id)) == {}
  {
    var curr, incoming := SavedAttrs(s, id), Attrs(content);
    var u :| DiffOf(curr, incoming, u) && UpdateRun(s.db, id, u, t.db) && t == Saving(s, url, content, id, t.db);
    if id !in s.repos {
      NewAgrees(s, id);
      RebuiltIsLinked([]);
    }
    if Truncated(curr) {
      NothingRuns(s.db, id, t.db);
      NoJsons(curr, incoming);
    } else {
      UpdateLinks(s.db, id, curr, incoming, u, t.db, id, Jsons(curr));
    }
  }

  // The same, entry by entry

  lemma AgreesNamed(s: State, id: int, content: seq<Entry>)
    requires Sound(s.db)
    ensures LinkedAs(s.db, id, Jsons(Attrs(content))) <==> LinksNamed(s, id, content)
    ensures Shows(s.db, id, Rebuilt(Attrs(content))) ==> ShowsNamed(s, id, content)
  {
    forall u { JsonsNamed(content, u); }
    if Shows(s.db, id, Rebuilt(Attrs(content))) {
      RebuiltIsLinked(Attrs(content));
      forall u, w
        ensures UiFor(s.db, id, w, u) <==> GivesFirst(content, u, w)
      {
        ShownGiven(s, id, content, u, w);
      }
    }
  }

  lemma ShownGiven(s: State, id: int, content: seq<Entry>, u: string, w: string)
    requires Sound(s.db) && Shows(s.db, id, Rebuilt(Attrs(content)))
    ensures UiFor(s.db, id, w, u) <==> GivesFirst(content, u, w)
  {
    var v := Rebuilt(Attrs(content));
    RebuiltUi(Attrs(content), w);
    ClaimGiven(content, u, w);
    if UiFor(s.db, id, w, u) {
      assert HasUiRow(s.db, id, w);
    }
    if w in v.uis {
      assert RowAgrees(s.db, id, v, {}, w);
      OneUi(s.db, id, w, v.uis[w], u);
    }
  }

  /** A UI schema is shown for one type. */
  lemma OneUi(db: Db, id: int, w: string, t: string, u: string)
    requires Sound(db) && UiFor(db, id, w, t)
    ensures UiFor(db, id, w, u) <==> t == u
  {
    var k :| IsUi(db, k, w, id) && IsType(db, db.uis[k].typeId, t);
    if UiFor(db, id, w, u) {
      var j :| IsUi(db, j, w, id) && IsType(db, db.uis[j].typeId, u);
      assert j == k;
    }
  }

  /** Nothing throws when every entry names a type. */
  lemma NamedDiff(s: State, content: seq<Entry>, id: int)
    ensures EachNames(content) && (id in s.repos ==> EachNames(s.repos[id].content)) ==>
      !DiffThrows(SavedAttrs(s, id), Attrs(content)) && !Truncated(SavedAttrs(s, id))
  {
    EachHasJson(content);
    if id in s.repos {
      EachHasJson(s.repos[id].content);
    }
    if AllHaveJson(SavedAttrs(s, id)) {
      CompleteDiff(SavedAttrs(s, id), Attrs(content));
    }
  }

  /** What a fetch of content whose entries all name a type does: the links are those named, and a new repository shows the UI schemas given. */
  ghost predicate FetchedNamed(s: State, content: seq<Entry>, id: int, t: State) {
    EachNames(content) ==>
      ((id in s.repos ==> EachNames(s.repos[id].content) && LinksNamed(s, id, s.repos[id].content)) ==> LinksNamed(t, id, content)) &&
      (id !in s.repos ==> ShowsNamed(t, id, content))
  }

  /**
   A repository whose entries all name a type is linked, after a fetch, to exactly the types named
   by the content fetched; a new one also shows exactly the UI schemas given.
   */
  lemma RefetchNamed(s: State, url: string, content: seq<Entry>, id: int, t: State)
    requires Whole(s) && IsTarget(s, url, id) && RefetchOf(s, url, content, id, t)
    ensures FetchedNamed(s, content, id, t)
    ensures EachNames(content) && (id in s.repos ==> EachNames(s.repos[id].content)) ==> t.repos == s.repos[id := Repo(url, content)]
  {
    NamedDiff(s, content, id);
    RefetchWhole(s, url, content, id, t);
    AgreesNamed(t, id, content);
    if EachNames(content) && (id in s.repos ==> EachNames(s.repos[id].content) && LinksNamed(s, id, s.repos[id].content)) {
      if id in s.repos {
        AgreesNamed(s, id, s.repos[id].content);
      }
      RefetchLinks(s, url, content, id, t);
      if id !in s.repos {
        RefetchResyncs(s, url, content, id, t);
      }
    }
  }

  // Runs

  ghost function ContentOf(s: State, url: string): Option<seq<Entry>> {
    if r :| r in s.repos && s.repos[r].url == url then Some(s.repos[r].content) else None
  }

  ghost predicate HoldsContent(s: State, url: string, c: Option<seq<Entry>>) {
    match c
    case Some(content) => exists r :: r in s.repos && s.repos[r] == Repo(url, content)
    case None => forall r :: r in s.repos ==> s.repos[r].url != url
  }

  lemma ContentIs(s: State, url: string, c: Option<seq<Entry>>)
    requires Whole(s) && HoldsContent(s, url, c)
    ensures ContentOf(s, url) == c
  {
  }

  lemma ContentHeld(s: State, url: string)
    ensures HoldsContent(s, url, ContentOf(s, url))
  {
  }

  /** The content saved for `url` in the end: the last one fetched whose diff did not throw. */
  ghost function SavedLast(before: Option<seq<Entry>>, events: seq<Event>, url: string): Option<seq<Entry>>
    decreases |events|
  {
    if events == [] then before
    else
      var saved, e := SavedLast(before, Init(events), url), Last(events);
      if e.Refetched? && e.url == url && !(saved.Some? && DiffThrows(Attrs(saved.value), Attrs(e.content))) then Some(e.content)
      else saved
  }

  /** The content fetched last for `url`. */
  function FetchedLast(events: seq<Event>, url: string): Option<seq<Entry>>
    decreases |events|
  {
    if events == [] then None
    else
      var e := Last(events);
      if e.Refetched? && e.url == url then Some(e.content) else FetchedLast(Init(events), url)
  }

  ghost predicate Complete(c: Option<seq<Entry>>) {
    c.Some? ==> AllHaveJson(Attrs(c.value))
  }

  /** When every entry has its `json`, no diff throws and the content fetched last is the one saved. */
  lemma {:induction false} CompleteIsSaved(before: Option<seq<Entry>>, events: seq<Event>, url: string)
    requires Complete(before) && EventsComplete(events)
    ensures SavedLast(before, events, url) == if FetchedLast(events, url).Some? then FetchedLast(events, url) else before
    ensures Complete(SavedLast(before, events, url))
    decreases |events|
  {
    if events != [] {
      var front := Init(events);
      assert forall e :: e in front ==> e in events;
      CompleteIsSaved(before, front, url);
      assert Last(events) in events;
    }
  }

  lemma StepWhole(s: State, e: Event, t: State)
    requires Whole(s) && StepOf(s, e, t)
    ensures Whole(t)
  {
    match e {
      case Refetched(url, content) =>
        var id :| IsTarget(s, url, id) && RefetchOf(s, url, content, id, t);
        RefetchWhole(s, url, content, id, t);
      case _ =>
    }
  }

  lemma {:induction false} RunWhole(states: seq<State>, events: seq<Event>, i: nat)
    requires IsRun(states, events) && i <= |events|
    ensures Whole(states[i])
  {
    if i > 0 {
      RunWhole(states, events, i - 1);
      StepWhole(states[i - 1], events[i - 1], states[i]);
    }
  }

  lemma RefetchContents(s: State, fetched: string, content: seq<Entry>, id: int, t: State, url: string)
    requires Whole(s) && IsTarget(s, fetched, id) && RefetchOf(s, fetched, content, id, t)
    ensures ContentOf(t, url) == SavedLast(ContentOf(s, url), [Refetched(fetched, content)], url)
  {
    var e := Refetched(fetched, content);
    assert [e][..0] == [];
    RefetchWhole(s, fetched, content, id, t);
    ContentHeld(s, url);
    var c := SavedLast(ContentOf(s, url), [e], url);
    if id in s.repos {
      ContentIs(s, fetched, Some(s.repos[id].content));
    }
    if DiffThrows(SavedAttrs(s, id), Attrs(content)) {
      ContentIs(t, url, ContentOf(s, url));
    } else {
      assert t.repos == s.repos[id := Repo(fetched, content)];
      if url == fetched {
        assert t.repos[id] == Repo(url, content);
        ContentIs(t, url, Some(content));
      } else {
        OtherContent(s, t, id, url, ContentOf(s, url));
        ContentIs(t, url, ContentOf(s, url));
      }
    }
  }

  lemma OtherContent(s: State, t: State, id: int, url: string, c: Option<seq<Entry>>)
    requires HoldsContent(s, url, c) && id in t.repos && t.repos[id].url != url && t.repos == s.repos[id := t.repos[id]]
    requires id in s.repos ==> s.repos[id].url != url
    ensures HoldsContent(t, url, c)
  {
    if c.Some? {
      var r :| r in s.repos && s.repos[r] == Repo(url, c.value);
      assert t.repos[r] == s.repos[r];
    }
  }

  lemma StepContents(s: State, e: Event, t: State, url: string)
    requires Whole(s) && StepOf(s, e, t)
    ensures ContentOf(t, url) == SavedLast(ContentOf(s, url), [e], url)
  {
    assert [e][..0] == [];
    match e {
      case Refetched(fetched, content) =>
        var id :| IsTarget(s, fetched, id) && RefetchOf(s, fetched, content, id, t);
        RefetchContents(s, fetched, content, id, t, url);
      case _ =>
        StepWhole(s, e, t);
        ContentHeld(s, url);
        ContentIs(t, url, ContentOf(s, url));
    }
  }

  /** Every url has the content saved last for it; urls never fetched keep theirs. */
  lemma {:induction false} RunContents(states: seq<State>, events: seq<Event>, i: nat, url: string)
    requires IsRun(states, events) && i <= |events|
    ensures ContentOf(states[i], url) == SavedLast(ContentOf(states[0], url), events[..i], url)
  {
    if i > 0 {
      var e := events[i - 1];
      RunContents(states, events, i - 1, url);
      RunWhole(states, events, i - 1);
      StepContents(states[i - 1], e, states[i], url);
      assert Init([e]) == [] && Init(events[..i]) == events[..i - 1] && Last(events[..i]) == e;
    }
  }

  /** What an attribute of the end state was in the start state, or where it came from. */
  ghost predicate UsageFrom(s: State, events: seq<Event>, t: State) {
    s.nextAttribute <= t.nextAttribute &&
    (forall a :: a in s.db.usage ==> (a in t.db.usage <==> AttributeDeleted(a) !in events)) &&
    forall a :: a in t.db.usage ==>
      if a in s.db.usage then t.db.usage[a] == s.db.usage[a]
      else a >= s.nextAttribute && AttributeCreated(t.db.usage[a]) in events
  }

  lemma StepUsage(s: State, e: Event, t: State)
    requires Whole(s) && StepOf(s, e, t)
    ensures UsageFrom(s, [e], t)
  {
    match e {
      case Refetched(url, content) =>
        var id :| IsTarget(s, url, id) && RefetchOf(s, url, content, id, t);
        RefetchWhole(s, url, content, id, t);
      case _ =>
    }
  }

  /** What the events on identity attributes do: one more of an existing type, under a new id, or one less. */
  lemma AttributeSteps(s: State, e: Event, t: State)
    requires Whole(s) && StepOf(s, e, t) && !e.Refetched?
    ensures t.db.(usage := s.db.usage) == s.db && t.repos == s.repos
    ensures e.AttributeCreated? && e.typeId in s.db.types ==>
      s.nextAttribute !in s.db.usage && t.db.usage == s.db.usage[s.nextAttribute := e.typeId]
    ensures e.AttributeDeleted? ==> t.db.usage == s.db.usage - {e.attributeId}
  {
  }

  /** The attributes are those there before or created since, and not deleted. */
  lemma {:induction false} RunUsage(states: seq<State>, events: seq<Event>, i: nat)
    requires IsRun(states, events) && i <= |events|
    ensures UsageFrom(states[0], events[..i], states[i])
  {
    if i == 0 {
      UsageNone(states[0], events[..0]);
    } else {
      assert events[..i] == events[..i - 1] + [events[i - 1]];
      RunUsage(states, events, i - 1);
      RunWhole(states, events, i - 1);
      UsageNext(states[0], events[..i - 1], states[i - 1], events[i - 1], states[i]);
    }
  }

  lemma UsageNone(s: State, events: seq<Event>)
    requires Whole(s) && events == []
    ensures UsageFrom(s, events, s)
  {
  }

  lemma UsageNext(s: State, front: seq<Event>, mid: State, e: Event, t: State)
    requires Whole(s) && Whole(mid) && UsageFrom(s, front, mid) && StepOf(mid, e, t)
    ensures UsageFrom(s, front + [e], t)
  {
    StepUsage(mid, e, t);
    UsageThen(s, front, mid, e, t);
  }

  lemma UsageThen(s: State, front: seq<Event>, mid: State, e: Event, t: State)
    requires Whole(s) && UsageFrom(s, front, mid) && UsageFrom(mid, [e], t)
    ensures UsageFrom(s, front + [e], t)
  {
  }

  ghost predicate Published(e: Event) {
    e.Refetched? ==> WellFormed(Attrs(e.content))
  }

  ghost predicate EventsPublished(events: seq<Event>) {
    forall e :: e in events ==> Published(e)
  }

  ghost predicate AllPublished(s: State) {
    forall r :: r in s.repos ==> WellFormed(Attrs(s.repos[r].content))
  }

  lemma CompleteDiff(curr: seq<Attr>, incoming: seq<Attr>)
    requires AllHaveJson(curr)
    ensures !DiffThrows(curr, incoming) && !Truncated(curr)
  {
  }

  lemma RefetchPublished(s: State, url: string, content: seq<Entry>, id: int, t: State)
    requires Whole(s) && AllPublished(s) && AllAgree(s) && WellFormed(Attrs(content))
    requires IsTarget(s, url, id) && RefetchOf(s, url, content, id, t)
    ensures AllPublished(t) && AllAgree(t)
  {
    var curr := SavedAttrs(s, id);
    CompleteDiff(curr, Attrs(content));
    WellFormedClaims(curr, Attrs(content));
    RefetchResyncs(s, url, content, id, t);
    forall r | r in t.repos && r != id { RefetchOthers(s, url, content, id, t, r); }
  }

  lemma UsageAgrees(s: State, t: State)
    requires AllAgree(s) && t.repos == s.repos && t.db == s.db.(usage := t.db.usage)
    ensures AllAgree(t)
  {
    forall r | r in t.repos
      ensures Agrees(t, r)
    {
      var v := Rebuilt(SavedAttrs(s, r));
      assert Shows(s.db, r, v);
      forall u { SameLinks(s.db, t.db, r, u); }
      SameRows(s.db, t.db, r, v, {});
    }
  }

  /** Published content, over any run, leaves every repository in agreement with what is saved for it. */
  lemma {:induction false} RunAgrees(states: seq<State>, events: seq<Event>, i: nat)
    requires IsRun(states, events) && i <= |events|
    requires AllPublished(states[0]) && AllAgree(states[0]) && EventsPublished(events)
    ensures AllPublished(states[i]) && AllAgree(states[i])
  {
    if i > 0 {
      RunAgrees(states, events, i - 1);
      RunWhole(states, events, i - 1);
      StepAgrees(states[i - 1], events[i - 1], states[i]);
    }
  }

  lemma StepAgrees(s: State, e: Event, t: State)
    requires Whole(s) && StepOf(s, e, t) && AllPublished(s) && AllAgree(s) && Published(e)
    ensures AllPublished(t) && AllAgree(t)
  {
    match e {
      case Refetched(url, content) =>
        var id :| IsTarget(s, url, id) && RefetchOf(s, url, content, id, t);
        RefetchPublished(s, url, content, id, t);
      case _ => UsageAgrees(s, t);
    }
  }

  ghost predicate EventsComplete(events: seq<Event>) {
    forall e :: e in events && e.Refetched? ==> AllHaveJson(Attrs(e.content))
  }

  ghost predicate AllLinked(s: State) {
    forall r :: r in s.repos ==> AllHaveJson(Attrs(s.repos[r].content)) && LinksAgree(s, r)
  }

  /** Content whose entries all have a `json`, duplicates or not, leaves every repository's links right. */
  lemma {:induction false} RunLinks(states: seq<State>, events: seq<Event>, i: nat)
    requires IsRun(states, events) && i <= |events|
    requires AllLinked(states[0]) && EventsComplete(events)
    ensures AllLinked(states[i])
  {
    if i > 0 {
      RunLinks(states, events, i - 1);
      RunWhole(states, events, i - 1);
      StepLinks(states[i - 1], events[i - 1], states[i]);
    }
  }

  lemma StepLinks(s: State, e: Event, t: State)
    requires Whole(s) && StepOf(s, e, t) && AllLinked(s) && (e.Refetched? ==> AllHaveJson(Attrs(e.content)))
    ensures AllLinked(t)
  {
    match e {
      case Refetched(url, content) =>
        var id :| IsTarget(s, url, id) && RefetchOf(s, url, content, id, t);
        CompleteDiff(SavedAttrs(s, id), Attrs(content));
        RefetchLinks(s, url, content, id, t);
        forall r | r in t.repos && r != id { RefetchOthers(s, url, content, id, t, r); }
      case _ =>
        forall r | r in s.repos { UsageLinks(s, t, r); }
    }
  }

  lemma UsageLinks(s: State, t: State, r: int)
    requires LinksAgree(s, r) && t.repos == s.repos && t.db == s.db.(usage := t.db.usage)
    ensures LinksAgree(t, r)
  {
    forall u { SameLinks(s.db, t.db, r, u); }
  }

  /**
   Over any run from an empty registry, with entries that all name a type: every repository is
   linked to exactly the types its saved content names.
   */
  lemma RunNamed(states: seq<State>, events: seq<Event>, i: nat, r: int)
    requires IsRun(states, events) && i <= |events| && states[0].repos == map[]
    requires forall e :: e in events && e.Refetched? ==> EachNames(e.content)
    requires r in states[i].repos
    ensures LinksNamed(states[i], r, states[i].repos[r].content)
  {
    forall e | e in events && e.Refetched? { EachHasJson(e.content); }
    RunLinks(states, events, i);
    RunWhole(states, events, i);
    AgreesNamed(states[i], r, states[i].repos[r].content);
  }

  /** If besides no content names a type or gives a UI schema twice, every repository also shows exactly the UI schemas given. */
  lemma RunShown(states: seq<State>, events: seq<Event>, i: nat, r: int)
    requires IsRun(states, events) && i <= |events| && states[0].repos == map[]
    requires forall e :: e in events && e.Refetched? ==> EachNames(e.content) && NothingTwice(e.content)
    requires r in states[i].repos
    ensures ShowsNamed(states[i], r, states[i].repos[r].content)
  {
    forall e | e in events && e.Refetched? { NothingTwiceIsWellFormed(e.content); }
    RunAgrees(states, events, i);
    RunWhole(states, events, i);
    AgreesNamed(states[i], r, states[i].repos[r].content);
  }

  /** In a registry whose repositories all agree, no row refers to anything that is gone. */
  lemma NothingDangles(s: State, k: int)
    requires Whole(s) && AllAgree(s) && k in s.db.uis
    ensures (s.db.uis[k].repoId, s.db.uis[k].typeId) in s.db.links && s.db.uis[k].typeId in s.db.types
  {
    var r := s.db.uis[k].repoId;
    ShownIsWhole(s.db, k, Rebuilt(SavedAttrs(s, r)));
  }
}
