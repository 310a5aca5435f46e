/**
 `Repository.diffAttributes` (src/main/identity/repository.js:90-137) and what a patch made of
 its two lists does to a repository's view: the attribute types it links and the UI schemas
 it shows.
 */
module RepositoryDiff {
  import opened Wrappers
  import opened Sequences

  /** An entry of `identityAttributes`: a bare url, or an object whose fields may be missing. */
  datatype Entry = Url(url: string) | Pair(json: Option<string>, ui: Option<string>)

  /** An entry as the code treats it. An empty `json` is falsy, like a missing one. */
  datatype Attr = Attr(json: string, ui: Option<string>)

  datatype Updates = Updates(deletes: seq<Attr>, adds: seq<Attr>)

  function AttrOf(e: Entry): Attr {
    match e
    case Url(url) => Attr(url, None)
    case Pair(json, ui) => Attr(if json.Some? then json.value else "", ui)
  }

  function Attrs(content: seq<Entry>): (r: seq<Attr>)
    ensures |r| == |content|
  {
    seq(|content|, i requires 0 <= i < |content| => AttrOf(content[i]))
  }

  predicate HasJson(a: Attr) {
    a.json != ""
  }

  predicate HasUi(a: Attr) {
    a.ui.Some? && a.ui.value != ""
  }

  // The diff

  /** The current entries by `json`, a later one winning. */
  function Existing(curr: seq<Attr>): map<string, Attr> {
    if curr == [] then map[]
    else if HasJson(Last(curr)) then Existing(Init(curr))[Last(curr).json := Last(curr)]
    else Existing(Init(curr))
  }

  function Jsons(attrs: seq<Attr>): set<string> {
    set a | a in attrs && HasJson(a) :: a.json
  }

  /** What is left of the map once the incoming entries have been deleted from it. */
  function Rest(existing: map<string, Attr>, incoming: seq<Attr>): map<string, Attr> {
    existing - Jsons(incoming)
  }

  predicate Changed(existing: map<string, Attr>, before: seq<Attr>, a: Attr) {
    HasJson(a) && a.json in Rest(existing, before) && a.ui != existing[a.json].ui
  }

  predicate New(existing: map<string, Attr>, before: seq<Attr>, a: Attr) {
    HasJson(a) && a.json !in Rest(existing, before)
  }

  function Added(existing: map<string, Attr>, incoming: seq<Attr>): seq<Attr> {
    if incoming == [] then []
    else
      var before, a := Init(incoming), Last(incoming);
      Added(existing, before) +
      if New(existing, before, a) || (Changed(existing, before, a) && HasUi(a)) then [a] else []
  }

  function ReplacedUis(existing: map<string, Attr>, incoming: seq<Attr>): seq<Attr> {
    if incoming == [] then []
    else
      var before, a := Init(incoming), Last(incoming);
      ReplacedUis(existing, before) +
      if Changed(existing, before, a) && HasUi(existing[a.json]) then [Attr("", existing[a.json].ui)] else []
  }

  /** The last entry has no `json`, so the reduction over the entries ends without its accumulator. */
  predicate Truncated(curr: seq<Attr>) {
    curr != [] && !HasJson(Last(curr))
  }

  /** The two lists: replaced UI schemas and then, in any order, the vanished entries; and the additions. */
  ghost predicate IsDiff(curr: seq<Attr>, incoming: seq<Attr>, u: Updates) {
    IsDiffFrom(Existing(curr), incoming, u)
  }

  ghost predicate IsDiffFrom(existing: map<string, Attr>, incoming: seq<Attr>, u: Updates) {
    u.adds == Added(existing, incoming) &&
    ReplacedUis(existing, incoming) <= u.deletes &&
    forall a :: a in u.deletes[|ReplacedUis(existing, incoming)|..] <==>
                exists json :: json in Rest(existing, incoming) && a == existing[json]
  }

  /** An entry without `json` followed by one with it. */
  ghost predicate Gap(curr: seq<Attr>) {
    exists i, j :: 0 <= i < j < |curr| && !HasJson(curr[i]) && HasJson(curr[j])
  }

  /**
   The reduction over the current entries loses its accumulator at an entry without `json`;
   the next access to it, by a later entry or by an incoming one, throws.
   */
  ghost predicate DiffThrows(curr: seq<Attr>, incoming: seq<Attr>) {
    Gap(curr) || (Truncated(curr) && exists k :: 0 <= k < |incoming| && HasJson(incoming[k]))
  }

  /** What the diff comes to when it does not throw. */
  ghost predicate DiffOf(curr: seq<Attr>, incoming: seq<Attr>, u: Updates) {
    if Truncated(curr) then u == Updates([], []) else IsDiff(curr, incoming, u)
  }

  ghost predicate AllHaveJson(attrs: seq<Attr>) {
    forall i :: 0 <= i < |attrs| ==> HasJson(attrs[i])
  }

  method BuildExisting(curr: seq<Attr>) returns (r: Result<Option<map<string, Attr>>>)
    ensures r.Failure? <==> Gap(curr)
    ensures r.Success? ==> r.value == if Truncated(curr) then None else Some(Existing(curr))
  {
    var acc: Option<map<string, Attr>> := Some(map[]);
    for i := 0 to |curr|
      invariant acc.None? <==> i > 0 && !HasJson(curr[i - 1])
      invariant acc.Some? ==> acc.value == Existing(curr[..i])
      invariant acc.Some? ==> forall k :: 0 <= k < i ==> HasJson(curr[k])
      invariant !Gap(curr[..i])
    {
      assert Init(curr[..i + 1]) == curr[..i] && Last(curr[..i + 1]) == curr[i];
      if !HasJson(curr[i]) {
        acc := None;
      } else if acc.None? {
        assert !HasJson(curr[i - 1]) && HasJson(curr[i]);
        return Failure(TypeError);
      } else {
        acc := Some(acc.value[curr[i].json := curr[i]]);
      }
    }
    assert curr[..|curr|] == curr;
    r := Success(acc);
  }

  /** `diffAttributes` on the two entry lists. */
  method DiffAttributes(curr: seq<Attr>, incoming: seq<Attr>) returns (r: Result<Updates>)
    ensures r.Failure? <==> DiffThrows(curr, incoming)
    ensures r.Success? ==> DiffOf(curr, incoming, r.value)
  {
    var built := BuildExisting(curr);
    if built.Failure? {
      return Failure(TypeError);
    }
    if built.value.None? {
      r := DiffAgainstNothing(incoming);
      return;
    }
    assert !DiffThrows(curr, incoming) && !Truncated(curr);
    var u := DiffAgainst(built.value.value, incoming);
    r := Success(u);
  }

  /** The reduction over the incoming entries without the map: the first look-up in it throws. */
  method DiffAgainstNothing(incoming: seq<Attr>) returns (r: Result<Updates>)
    ensures r == if exists k :: 0 <= k < |incoming| && HasJson(incoming[k]) then Failure(TypeError) else Success(Updates([], []))
  {
    for i := 0 to |incoming|
      invariant forall k :: 0 <= k < i ==> !HasJson(incoming[k])
    {
      if HasJson(incoming[i]) {
        return Failure(TypeError);
      }
    }
    r := Success(Updates([], []));
  }

  /** The reduction over the incoming entries, and then over what is left of the map. */
  method DiffAgainst(existing: map<string, Attr>, incoming: seq<Attr>) returns (u: Updates)
    ensures IsDiffFrom(existing, incoming, u)
  {
    var existingMap := existing;
    var deletes: seq<Attr>, adds: seq<Attr> := [], [];
    for i := 0 to |incoming|
      invariant existingMap == Rest(existing, incoming[..i])
      invariant adds == Added(existing, incoming[..i])
      invariant deletes == ReplacedUis(existing, incoming[..i])
    {
      var a := incoming[i];
      DiffStep(existing, incoming, i);
      if HasJson(a) {
        if a.json !in existingMap {
          adds := adds + [a];
        } else {
          var existed := existingMap[a.json];
          if a.ui != existed.ui {
            if HasUi(existed) {
              deletes := deletes + [Attr("", existed.ui)];
            }
            if HasUi(a) {
              adds := adds + [a];
            }
          }
          existingMap := existingMap - {a.json};
        }
      }
    }
    assert incoming[..|incoming|] == incoming;
    deletes := AppendValues(existingMap, deletes);
    u := Updates(deletes, adds);
  }

  /** What one more incoming entry does to the map and the two lists. */
  lemma DiffStep(existing: map<string, Attr>, incoming: seq<Attr>, i: nat)
    requires i < |incoming|
    ensures var a, left := incoming[i], Rest(existing, incoming[..i]);
      Rest(existing, incoming[..i + 1]) == (if HasJson(a) then left - {a.json} else left) &&
      Added(existing, incoming[..i + 1]) == Added(existing, incoming[..i]) +
        (if HasJson(a) && (a.json !in left || (a.ui != left[a.json].ui && HasUi(a))) then [a] else []) &&
      ReplacedUis(existing, incoming[..i + 1]) == ReplacedUis(existing, incoming[..i]) +
        if HasJson(a) && a.json in left && a.ui != left[a.json].ui && HasUi(left[a.json]) then [Attr("", left[a.json].ui)] else []
  {
    assert Init(incoming[..i + 1]) == incoming[..i] && Last(incoming[..i + 1]) == incoming[i];
    JsonsStep(incoming[..i + 1]);
  }

  lemma JsonsStep(attrs: seq<Attr>)
    requires attrs != []
    ensures Jsons(attrs) == Jsons(Init(attrs)) + if HasJson(Last(attrs)) then {Last(attrs).json} else {}
  {
    assert attrs == Init(attrs) + [Last(attrs)];
  }

  /** `for (let attr in existingMap) updates.delete.push(existingMap[attr])`, in whatever key order. */
  method AppendValues(m: map<string, Attr>, start: seq<Attr>) returns (deletes: seq<Attr>)
    ensures start <= deletes
    ensures forall a :: a in deletes[|start|..] <==> exists json :: json in m && a == m[json]
  {
    deletes := start;
    var left := m.Keys;
    while left != {}
      invariant left <= m.Keys
      invariant start <= deletes
      invariant forall a :: a in deletes[|start|..] <==> exists json :: json in m && json !in left && a == m[json]
      decreases left
    {
      var json :| json in left;
      ghost var before := deletes;
      deletes := deletes + [m[json]];
      assert deletes[|start|..] == before[|start|..] + [m[json]];
      left := left - {json};
    }
  }

  // Views

  /** What a repository shows: the urls of its linked types, and for each UI schema url the type it is for. */
  datatype View = View(links: set<string>, uis: map<string, string>)

  const EMPTY_VIEW := View({}, map[])

  function AddTo(v: View, a: Attr): View {
    if !HasJson(a) then v
    else View(v.links + {a.json}, if HasUi(a) && a.ui.value !in v.uis then v.uis[a.ui.value := a.json] else v.uis)
  }

  function DeleteFrom(v: View, a: Attr): View {
    View(if HasJson(a) then v.links - {a.json} else v.links, if HasUi(a) then v.uis - {a.ui.value} else v.uis)
  }

  function AddAll(v: View, attrs: seq<Attr>): View {
    if attrs == [] then v else AddTo(AddAll(v, Init(attrs)), Last(attrs))
  }

  function DeleteAll(v: View, attrs: seq<Attr>): View {
    if attrs == [] then v else DeleteFrom(DeleteAll(v, Init(attrs)), Last(attrs))
  }

  /** The view a repository gets when it is filled from scratch. */
  function Rebuilt(attrs: seq<Attr>): View {
    AddAll(EMPTY_VIEW, attrs)
  }

  function Patched(v: View, u: Updates): View {
    AddAll(DeleteAll(v, u.deletes), u.adds)
  }

  /** Content as repositories are expected to publish it. */
  ghost predicate WellFormed(attrs: seq<Attr>) {
    AllHaveJson(attrs) &&
    (forall i, j :: 0 <= i < j < |attrs| ==> attrs[i].json != attrs[j].json) &&
    forall i, j :: 0 <= i < j < |attrs| && HasUi(attrs[i]) ==> attrs[i].ui != attrs[j].ui
  }

  /** The type of the first entry that names UI schema `ui`. */
  function FirstClaim(attrs: seq<Attr>, ui: string): Option<string> {
    if attrs == [] then None
    else if FirstClaim(Init(attrs), ui).Some? then FirstClaim(Init(attrs), ui)
    else if HasJson(Last(attrs)) && HasUi(Last(attrs)) && Last(attrs).ui.value == ui then Some(Last(attrs).json)
    else None
  }

  /** The first entry for type `json`. */
  function FirstFor(attrs: seq<Attr>, json: string): Option<Attr> {
    if attrs == [] then None
    else if FirstFor(Init(attrs), json).Some? then FirstFor(Init(attrs), json)
    else if HasJson(Last(attrs)) && Last(attrs).json == json then Some(Last(attrs))
    else None
  }

  /** The incoming content still has type `json`, first with UI schema `ui`. */
  predicate StillNames(incoming: seq<Attr>, json: string, ui: string) {
    FirstFor(incoming, json).Some? && FirstFor(incoming, json).value.ui == Some(ui)
  }

  /** Some type whose last current entry names `ui` is gone or has another UI schema now. */
  ghost predicate Released(curr: seq<Attr>, incoming: seq<Attr>, ui: string) {
    exists json :: json in Existing(curr) && Existing(curr)[json].ui == Some(ui) && !StillNames(incoming, json, ui)
  }

  /** Incoming entry `a`, after `before`, says of its type what the current content said last. */
  predicate Repeats(curr: seq<Attr>, before: seq<Attr>, a: Attr) {
    HasJson(a) && a.json !in Jsons(before) && a.json in Existing(curr) && Existing(curr)[a.json].ui == a.ui
  }

  /** The type of the first incoming entry that names `ui` and is not a repetition. */
  function FreshClaim(curr: seq<Attr>, incoming: seq<Attr>, ui: string): Option<string> {
    if incoming == [] then None
    else
      var before, a := Init(incoming), Last(incoming);
      if FreshClaim(curr, before, ui).Some? then FreshClaim(curr, before, ui)
      else if HasJson(a) && HasUi(a) && a.ui.value == ui && !Repeats(curr, before, a) then Some(a.json)
      else None
  }

  /**
   What decides about UI schema `ui`: if it is not released, the two contents must give it to the
   same type; if it is, the first incoming entry that names it must not be a repetition, or must
   be for the same type as the first that is none.
   */
  ghost predicate UiAgrees(curr: seq<Attr>, incoming: seq<Attr>, ui: string) {
    if Released(curr, incoming, ui) then FreshClaim(curr, incoming, ui) == FirstClaim(incoming, ui)
    else FirstClaim(incoming, ui) == FirstClaim(curr, ui)
  }

  /** What decides whether the patch is right, checkable entry by entry on the two contents. */
  ghost predicate UisAgree(curr: seq<Attr>, incoming: seq<Attr>) {
    forall i :: 0 <= i < |curr| && HasJson(curr[i]) && HasUi(curr[i]) ==> UiAgrees(curr, incoming, curr[i].ui.value)
  }

  /** A current entry is kept as it is: the first incoming entry for its type names the same UI schema. */
  predicate Unchanged(a: Attr, incoming: seq<Attr>) {
    HasUi(a) && StillNames(incoming, a.json, a.ui.value)
  }

  /**
   The same for well-formed current content: no UI schema of an unchanged entry is named earlier
   in the incoming list by an entry for another type.
   */
  ghost predicate NoEarlierClaim(curr: seq<Attr>, incoming: seq<Attr>) {
    forall i :: 0 <= i < |curr| && Unchanged(curr[i], incoming) ==>
      FirstClaim(incoming, curr[i].ui.value) == Some(curr[i].json)
  }

  // Folding

  lemma {:induction false} AddAllMeans(v: View, attrs: seq<Attr>)
    ensures AddAll(v, attrs).links == v.links + Jsons(attrs)
    ensures forall ui :: ui in AddAll(v, attrs).uis <==> ui in v.uis || FirstClaim(attrs, ui).Some?
    ensures forall ui :: ui in AddAll(v, attrs).uis ==>
      AddAll(v, attrs).uis[ui] == if ui in v.uis then v.uis[ui] else FirstClaim(attrs, ui).value
  {
    if attrs != [] {
      AddAllMeans(v, Init(attrs));
      JsonsStep(attrs);
    }
  }

  lemma {:induction false} DeleteAllMeans(v: View, attrs: seq<Attr>)
    ensures DeleteAll(v, attrs).links == v.links - Jsons(attrs)
    ensures forall ui :: ui in DeleteAll(v, attrs).uis <==>
      ui in v.uis && forall a :: a in attrs && HasUi(a) ==> a.ui.value != ui
    ensures forall ui :: ui in DeleteAll(v, attrs).uis ==> DeleteAll(v, attrs).uis[ui] == v.uis[ui]
  {
    if attrs != [] {
      DeleteAllMeans(v, Init(attrs));
      JsonsStep(attrs);
      assert attrs == Init(attrs) + [Last(attrs)];
    }
  }

  lemma {:induction false} FirstForMeans(attrs: seq<Attr>, json: string)
    ensures FirstFor(attrs, json).Some? <==> json in Jsons(attrs)
    ensures FirstFor(attrs, json).Some? ==> FirstFor(attrs, json).value in attrs && FirstFor(attrs, json).value.json == json
  {
    if attrs != [] {
      FirstForMeans(Init(attrs), json);
      JsonsStep(attrs);
      assert attrs == Init(attrs) + [Last(attrs)];
    }
  }

  lemma {:induction false} FirstClaimMeans(attrs: seq<Attr>, ui: string)
    ensures FirstClaim(attrs, ui).Some? ==>
      exists a :: a in attrs && HasJson(a) && HasUi(a) && a.ui.value == ui && a.json == FirstClaim(attrs, ui).value
    ensures FirstClaim(attrs, ui).None? ==> forall a :: a in attrs && HasJson(a) && HasUi(a) ==> a.ui.value != ui
  {
    if attrs != [] {
      FirstClaimMeans(Init(attrs), ui);
      assert attrs == Init(attrs) + [Last(attrs)];
    }
  }

  lemma {:induction false} ExistingKeys(curr: seq<Attr>)
    ensures Existing(curr).Keys == Jsons(curr)
  {
    if curr != [] {
      ExistingKeys(Init(curr));
      JsonsStep(curr);
    }
  }

  /** The map holds entries of the content, each under its own type. */
  lemma {:induction false} ExistingEntry(curr: seq<Attr>, json: string)
    requires json in Existing(curr)
    ensures Existing(curr)[json] in curr && Existing(curr)[json].json == json && HasJson(Existing(curr)[json])
  {
    assert curr == Init(curr) + [Last(curr)];
    if !(HasJson(Last(curr)) && Last(curr).json == json) {
      ExistingEntry(Init(curr), json);
    }
  }

  lemma {:induction false} ExistingAt(curr: seq<Attr>, i: nat)
    requires WellFormed(curr) && i < |curr|
    ensures curr[i].json in Existing(curr) && Existing(curr)[curr[i].json] == curr[i]
  {
    var front, last := Init(curr), |curr| - 1;
    assert forall k :: 0 <= k < last ==> front[k] == curr[k];
    if i < last {
      ExistingAt(front, i);
      assert curr[i].json != curr[last].json;
    }
  }

  lemma {:induction false} AddedJsons(existing: map<string, Attr>, incoming: seq<Attr>)
    ensures Jsons(incoming) - existing.Keys <= Jsons(Added(existing, incoming)) <= Jsons(incoming)
  {
    if incoming != [] {
      AddedJsons(existing, Init(incoming));
      JsonsStep(incoming);
      var more := Added(existing, incoming);
      if more != Added(existing, Init(incoming)) {
        JsonsStep(more);
        assert Init(more) == Added(existing, Init(incoming));
      }
    }
  }

  /** The additions claim what the entries that are no repetitions claim. */
  lemma {:induction false} AddedClaims(curr: seq<Attr>, incoming: seq<Attr>, ui: string)
    ensures FirstClaim(Added(Existing(curr), incoming), ui) == FreshClaim(curr, incoming, ui)
  {
    if incoming != [] {
      var existing, before, a := Existing(curr), Init(incoming), Last(incoming);
      AddedClaims(curr, before, ui);
      ClaimAppend(Added(existing, before), a, ui);
      assert Added(existing, before) + [] == Added(existing, before);
    }
  }

  lemma ClaimAppend(attrs: seq<Attr>, a: Attr, ui: string)
    ensures FirstClaim(attrs + [a], ui) ==
      if FirstClaim(attrs, ui).Some? then FirstClaim(attrs, ui)
      else if HasJson(a) && HasUi(a) && a.ui.value == ui then Some(a.json)
      else None
  {
    assert Init(attrs + [a]) == attrs && Last(attrs + [a]) == a;
  }

  /** A UI schema the current content does not name is never claimed by a repetition. */
  lemma {:induction false} UnclaimedIsFresh(curr: seq<Attr>, incoming: seq<Attr>, ui: string)
    requires FirstClaim(curr, ui).None?
    ensures FreshClaim(curr, incoming, ui) == FirstClaim(incoming, ui)
  {
    if incoming != [] {
      var before, a := Init(incoming), Last(incoming);
      UnclaimedIsFresh(curr, before, ui);
      FirstClaimMeans(curr, ui);
      if Repeats(curr, before, a) {
        ExistingEntry(curr, a.json);
      }
    }
  }

  lemma {:induction false} ReplacedMeans(existing: map<string, Attr>, incoming: seq<Attr>)
    ensures forall a :: a in ReplacedUis(existing, incoming) <==>
      exists json :: json in existing && FirstFor(incoming, json).Some? && HasUi(existing[json]) &&
                     FirstFor(incoming, json).value.ui != existing[json].ui && a == Attr("", existing[json].ui)
  {
    if incoming != [] {
      var before, last := Init(incoming), Last(incoming);
      ReplacedMeans(existing, before);
      FirstForMeans(before, last.json);
    }
  }

  // Patching against rebuilding

  lemma SplitDeletes(curr: seq<Attr>, incoming: seq<Attr>, u: Updates, a: Attr)
    requires IsDiff(curr, incoming, u)
    ensures a in u.deletes <==>
      a in ReplacedUis(Existing(curr), incoming) ||
      exists json :: json in Rest(Existing(curr), incoming) && a == Existing(curr)[json]
  {
    var n := |ReplacedUis(Existing(curr), incoming)|;
    assert u.deletes == u.deletes[..n] + u.deletes[n..];
  }

  /** The deletions name exactly the released UI schemas. */
  lemma DeletedUis(curr: seq<Attr>, incoming: seq<Attr>, u: Updates, ui: string)
    requires IsDiff(curr, incoming, u) && ui != ""
    ensures (exists a :: a in u.deletes && a.ui == Some(ui)) <==> Released(curr, incoming, ui)
  {
    var existing := Existing(curr);
    ReplacedMeans(existing, incoming);
    if a :| a in u.deletes && a.ui == Some(ui) {
      DeletedIsReleased(curr, incoming, u, a);
    }
    if json :| json in existing && existing[json].ui == Some(ui) && !StillNames(incoming, json, ui) {
      FirstForMeans(incoming, json);
      var a := if FirstFor(incoming, json).Some? then Attr("", Some(ui)) else existing[json];
      SplitDeletes(curr, incoming, u, a);
      assert a in u.deletes;
    }
  }

  lemma DeletedIsReleased(curr: seq<Attr>, incoming: seq<Attr>, u: Updates, a: Attr)
    requires IsDiff(curr, incoming, u) && a in u.deletes && HasUi(a)
    ensures Released(curr, incoming, a.ui.value)
  {
    var existing := Existing(curr);
    SplitDeletes(curr, incoming, u, a);
    ReplacedMeans(existing, incoming);
    if json :| json in Rest(existing, incoming) && a == existing[json] {
      FirstForMeans(incoming, json);
    }
  }

  /** The deletions name exactly the types that are gone. */
  lemma DeletedJsons(curr: seq<Attr>, incoming: seq<Attr>, u: Updates)
    requires IsDiff(curr, incoming, u)
    ensures Jsons(u.deletes) == Jsons(curr) - Jsons(incoming)
  {
    var existing := Existing(curr);
    ExistingKeys(curr);
    forall json
      ensures json in Jsons(u.deletes) <==> json in Rest(existing, incoming)
    {
      if json in Rest(existing, incoming) {
        ExistingEntry(curr, json);
        SplitDeletes(curr, incoming, u, existing[json]);
      }
      if json in Jsons(u.deletes) {
        DeletedIsGone(curr, incoming, u, json);
      }
    }
  }

  lemma DeletedIsGone(curr: seq<Attr>, incoming: seq<Attr>, u: Updates, json: string)
    requires IsDiff(curr, incoming, u) && json in Jsons(u.deletes)
    ensures json in Rest(Existing(curr), incoming)
  {
    var existing := Existing(curr);
    var a :| a in u.deletes && HasJson(a) && a.json == json;
    SplitDeletes(curr, incoming, u, a);
    ReplacedMeans(existing, incoming);
    var key :| key in Rest(existing, incoming) && a == existing[key];
    ExistingEntry(curr, key);
  }

  /** Links always come out right. */
  lemma PatchedLinks(curr: seq<Attr>, incoming: seq<Attr>, u: Updates)
    requires IsDiff(curr, incoming, u)
    ensures (Jsons(curr) - Jsons(u.deletes)) + Jsons(u.adds) == Jsons(incoming)
    ensures Patched(Rebuilt(curr), u).links == Rebuilt(incoming).links
  {
    AddAllMeans(EMPTY_VIEW, curr);
    AddAllMeans(EMPTY_VIEW, incoming);
    AddAllMeans(DeleteAll(Rebuilt(curr), u.deletes), u.adds);
    DeleteAllMeans(Rebuilt(curr), u.deletes);
    ExistingKeys(curr);
    AddedJsons(Existing(curr), incoming);
    DeletedJsons(curr, incoming, u);
  }

  /** A view as a look-up. */
  function UiAt(v: View, ui: string): Option<string> {
    if ui in v.uis then Some(v.uis[ui]) else None
  }

  lemma RebuiltUi(attrs: seq<Attr>, ui: string)
    ensures UiAt(Rebuilt(attrs), ui) == FirstClaim(attrs, ui)
  {
    AddAllMeans(EMPTY_VIEW, attrs);
  }

  lemma {:induction false} NoEmptyClaim(attrs: seq<Attr>)
    ensures FirstClaim(attrs, "") == None
  {
    if attrs != [] {
      NoEmptyClaim(Init(attrs));
    }
  }

  /** The deletions leave the UI schemas that are not released. */
  lemma KeptUi(curr: seq<Attr>, incoming: seq<Attr>, u: Updates, ui: string)
    requires IsDiff(curr, incoming, u) && ui != ""
    ensures UiAt(DeleteAll(Rebuilt(curr), u.deletes), ui) == if Released(curr, incoming, ui) then None else FirstClaim(curr, ui)
  {
    DeleteAllMeans(Rebuilt(curr), u.deletes);
    RebuiltUi(curr, ui);
    DeletedUis(curr, incoming, u, ui);
  }

  /** What the patched repository shows for `ui`. */
  lemma PatchedUi(curr: seq<Attr>, incoming: seq<Attr>, u: Updates, ui: string)
    requires IsDiff(curr, incoming, u) && ui != ""
    ensures UiAt(Patched(Rebuilt(curr), u), ui) ==
      if Released(curr, incoming, ui) || FirstClaim(curr, ui).None? then FreshClaim(curr, incoming, ui) else FirstClaim(curr, ui)
  {
    KeptUi(curr, incoming, u, ui);
    AddAllMeans(DeleteAll(Rebuilt(curr), u.deletes), u.adds);
    AddedClaims(curr, incoming, ui);
  }

  lemma PatchedUiAgrees(curr: seq<Attr>, incoming: seq<Attr>, u: Updates, ui: string)
    requires IsDiff(curr, incoming, u)
    ensures UiAt(Patched(Rebuilt(curr), u), ui) == UiAt(Rebuilt(incoming), ui) <==>
            ui == "" || FirstClaim(curr, ui).None? || UiAgrees(curr, incoming, ui)
  {
    RebuiltUi(incoming, ui);
    if ui == "" {
      NoEmptyClaim(incoming);
      NoEmptyUi(curr, u);
    } else {
      PatchedUi(curr, incoming, u, ui);
      if FirstClaim(curr, ui).None? {
        UnclaimedIsFresh(curr, incoming, ui);
      }
    }
  }

  lemma NoEmptyUi(curr: seq<Attr>, u: Updates)
    ensures "" !in Patched(Rebuilt(curr), u).uis
  {
    RebuiltUi(curr, "");
    NoEmptyClaim(curr);
    NoEmptyClaim(u.adds);
    DeleteAllMeans(Rebuilt(curr), u.deletes);
    AddAllMeans(DeleteAll(Rebuilt(curr), u.deletes), u.adds);
  }

  /**
   Patching a repository by the diff gives the view of rebuilding it from the incoming
   content: always for the linked types, and for the UI schemas exactly when each one the
   current content names goes to the right type.
   */
  lemma PatchIsRebuild(curr: seq<Attr>, incoming: seq<Attr>, u: Updates)
    requires IsDiff(curr, incoming, u)
    ensures Patched(Rebuilt(curr), u).links == Rebuilt(incoming).links
    ensures Patched(Rebuilt(curr), u).uis == Rebuilt(incoming).uis <==> UisAgree(curr, incoming)
  {
    var patched, rebuilt := Patched(Rebuilt(curr), u), Rebuilt(incoming);
    PatchedLinks(curr, incoming, u);
    SameUiAt(patched, rebuilt);
    forall ui: string { PatchedUiAgrees(curr, incoming, u, ui); }
    forall ui: string
      ensures FirstClaim(curr, ui).Some? <==>
              exists i :: 0 <= i < |curr| && HasJson(curr[i]) && HasUi(curr[i]) && curr[i].ui.value == ui
    {
      FirstClaimMeans(curr, ui);
    }
    NoEmptyClaim(curr);
  }

  lemma SameUiAt(v: View, w: View)
    ensures v.uis == w.uis <==> forall ui: string :: UiAt(v, ui) == UiAt(w, ui)
  {
    if forall ui: string :: UiAt(v, ui) == UiAt(w, ui) {
      forall ui: string
        ensures ui in v.uis <==> ui in w.uis
        ensures ui in v.uis && ui in w.uis ==> v.uis[ui] == w.uis[ui]
      {
        assert UiAt(v, ui) == UiAt(w, ui);
      }
    }
  }

  // Well-formed content

  /** In well-formed content the claim on a UI schema is the one entry that names it. */
  lemma OnlyClaim(curr: seq<Attr>, i: nat)
    requires WellFormed(curr) && i < |curr| && HasUi(curr[i])
    ensures FirstClaim(curr, curr[i].ui.value) == Some(curr[i].json)
  {
    FirstClaimMeans(curr, curr[i].ui.value);
    assert curr[i] in curr;
    var a :| a in curr && HasJson(a) && HasUi(a) && a.ui.value == curr[i].ui.value &&
             a.json == FirstClaim(curr, curr[i].ui.value).value;
    var k :| 0 <= k < |curr| && curr[k] == a;
    var differ := curr[k].ui != curr[i].ui;
    assert k != i ==> differ;
  }

  /** In well-formed content a UI schema is released exactly when its one entry changed. */
  lemma ReleasedEntry(curr: seq<Attr>, incoming: seq<Attr>, i: nat)
    requires WellFormed(curr) && i < |curr| && HasUi(curr[i])
    ensures forall json :: json in Existing(curr) && Existing(curr)[json].ui == curr[i].ui ==> json == curr[i].json
    ensures Released(curr, incoming, curr[i].ui.value) <==> !Unchanged(curr[i], incoming)
  {
    ExistingAt(curr, i);
    forall json | json in Existing(curr) && Existing(curr)[json].ui == curr[i].ui
      ensures json == curr[i].json
    {
      ExistingEntry(curr, json);
      var k :| 0 <= k < |curr| && curr[k] == Existing(curr)[json];
      var differ := curr[k].ui != curr[i].ui;
      assert k != i ==> differ;
    }
  }

  /** A UI schema whose entry changed is not claimed by a repetition. */
  lemma {:induction false} ChangedIsFresh(curr: seq<Attr>, incoming: seq<Attr>, i: nat)
    requires WellFormed(curr) && i < |curr| && HasUi(curr[i])
    requires FirstFor(incoming, curr[i].json).Some? ==> FirstFor(incoming, curr[i].json).value.ui != curr[i].ui
    ensures FreshClaim(curr, incoming, curr[i].ui.value) == FirstClaim(incoming, curr[i].ui.value)
    decreases |incoming|
  {
    if incoming != [] {
      var before, a := Init(incoming), Last(incoming);
      ReleasedEntry(curr, incoming, i);
      ChangedIsFresh(curr, before, i);
      FirstForMeans(before, curr[i].json);
      assert !(a.ui == curr[i].ui && Repeats(curr, before, a));
    }
  }

  /** For well-formed current content the condition is the absence of earlier claims. */
  lemma WellFormedAgree(curr: seq<Attr>, incoming: seq<Attr>)
    requires WellFormed(curr)
    ensures UisAgree(curr, incoming) <==> NoEarlierClaim(curr, incoming)
  {
    forall i | 0 <= i < |curr| && HasUi(curr[i])
      ensures UiAgrees(curr, incoming, curr[i].ui.value) <==>
              (Unchanged(curr[i], incoming) ==> FirstClaim(incoming, curr[i].ui.value) == Some(curr[i].json))
    {
      OnlyClaim(curr, i);
      ReleasedEntry(curr, incoming, i);
      if !Unchanged(curr[i], incoming) {
        ChangedIsFresh(curr, incoming, i);
      }
    }
  }

  /** Distinct UI schemas in the incoming content are enough. */
  lemma WellFormedClaims(curr: seq<Attr>, incoming: seq<Attr>)
    requires WellFormed(incoming)
    ensures NoEarlierClaim(curr, incoming)
    ensures WellFormed(curr) ==> UisAgree(curr, incoming)
  {
    forall i | 0 <= i < |curr| && Unchanged(curr[i], incoming)
      ensures FirstClaim(incoming, curr[i].ui.value) == Some(curr[i].json)
    {
      FirstForMeans(incoming, curr[i].json);
      var a := FirstFor(incoming, curr[i].json).value;
      var k :| 0 <= k < |incoming| && incoming[k] == a;
      OnlyClaim(incoming, k);
    }
    if WellFormed(curr) {
      WellFormedAgree(curr, incoming);
    }
  }

  /**
   An instance: with one type listed twice the map keeps only the later entry, and the earlier
   entry's UI schema survives its removal.
   */
  lemma DuplicateJsonGoesStale()
    ensures var curr := [Attr("t", Some("u")), Attr("t", Some("w"))];
      forall u :: IsDiff(curr, [], u) ==> "u" in Patched(Rebuilt(curr), u).uis && "u" !in Rebuilt([]).uis
  {
    var curr := [Attr("t", Some("u")), Attr("t", Some("w"))];
    var a, b := curr[0], curr[1];
    assert Init(curr) == [a] && Last(curr) == b && Init([a]) == [] && Last([a]) == a;
    assert Existing([a]) == map["t" := a];
    assert Existing(curr) == map["t" := b];
    forall u | IsDiff(curr, [], u)
      ensures "u" in Patched(Rebuilt(curr), u).uis
    {
      assert forall d :: d in u.deletes[0..] ==> d == b;
      assert u.deletes[0..] == u.deletes;
      assert FirstClaim([a], "u") == Some("t");
      AddAllMeans(EMPTY_VIEW, curr);
      DeleteAllMeans(Rebuilt(curr), u.deletes);
      AddAllMeans(DeleteAll(Rebuilt(curr), u.deletes), u.adds);
    }
  }

  // What a content says, entry by entry

  /** The entry names type `u`: as a bare url, or as its `json`. */
  predicate NamesType(e: Entry, u: string) {
    u != "" && match e
      case Url(url) => url == u
      case Pair(json, _) => json == Some(u)
  }

  /** The entry gives UI schema `w` to type `u`; a bare url gives none. */
  predicate GivesUi(e: Entry, u: string, w: string) {
    u != "" && w != "" && e == Pair(Some(u), Some(w))
  }

  ghost predicate Names(content: seq<Entry>, u: string) {
    exists i :: 0 <= i < |content| && NamesType(content[i], u)
  }

  /** The first entry that gives `w` to a type gives it to `u`. */
  ghost predicate GivesFirst(content: seq<Entry>, u: string, w: string) {
    exists i :: 0 <= i < |content| && GivesUi(content[i], u, w) && forall k, t :: 0 <= k < i ==> !GivesUi(content[k], t, w)
  }

  ghost predicate NamesSome(e: Entry) {
    exists u :: NamesType(e, u)
  }

  ghost predicate EachNames(content: seq<Entry>) {
    forall i :: 0 <= i < |content| ==> NamesSome(content[i])
  }

  /** No type is named twice, and no UI schema given twice. */
  ghost predicate NothingTwice(content: seq<Entry>) {
    (forall i, j, u :: 0 <= i < j < |content| && NamesType(content[i], u) ==> !NamesType(content[j], u)) &&
    forall i, j, t, u, w :: 0 <= i < j < |content| && GivesUi(content[i], t, w) ==> !GivesUi(content[j], u, w)
  }

  lemma EntryMeans(e: Entry, u: string, w: string)
    ensures NamesType(e, u) <==> HasJson(AttrOf(e)) && AttrOf(e).json == u
    ensures GivesUi(e, u, w) <==> NamesType(e, u) && HasUi(AttrOf(e)) && AttrOf(e).ui.value == w
    ensures NamesSome(e) <==> HasJson(AttrOf(e))
  {
    assert HasJson(AttrOf(e)) ==> NamesType(e, AttrOf(e).json);
  }

  lemma JsonsNamed(content: seq<Entry>, u: string)
    ensures u in Jsons(Attrs(content)) <==> Names(content, u)
  {
    if Names(content, u) {
      var i :| 0 <= i < |content| && NamesType(content[i], u);
      EntryMeans(content[i], u, "");
      assert Attrs(content)[i] in Attrs(content);
    }
    if u in Jsons(Attrs(content)) {
      var a :| a in Attrs(content) && HasJson(a) && a.json == u;
      var i :| 0 <= i < |content| && Attrs(content)[i] == a;
      EntryMeans(content[i], u, "");
    }
  }

  lemma {:induction false} ClaimGiven(content: seq<Entry>, u: string, w: string)
    ensures FirstClaim(Attrs(content), w) == Some(u) <==> GivesFirst(content, u, w)
    ensures FirstClaim(Attrs(content), w) == None <==> forall i, t :: 0 <= i < |content| ==> !GivesUi(content[i], t, w)
  {
    if content != [] {
      var front, last := Init(content), |content| - 1;
      assert Attrs(content) == Attrs(front) + [AttrOf(content[last])];
      ClaimAppend(Attrs(front), AttrOf(content[last]), w);
      ClaimGiven(front, u, w);
      GivenNext(content, u, w);
      forall t { EntryMeans(content[last], t, w); }
    }
  }

  /** What one more entry changes about the first to give `w`. */
  lemma GivenNext(content: seq<Entry>, u: string, w: string)
    requires content != []
    ensures var front, last := Init(content), Last(content);
      (GivesFirst(content, u, w) <==>
        GivesFirst(front, u, w) || (GivesUi(last, u, w) && forall k, t :: 0 <= k < |front| ==> !GivesUi(front[k], t, w))) &&
      ((forall i, t :: 0 <= i < |content| ==> !GivesUi(content[i], t, w)) <==>
        (forall i, t :: 0 <= i < |front| ==> !GivesUi(front[i], t, w)) && forall t :: !GivesUi(last, t, w))
  {
    var front, n := Init(content), |content| - 1;
    assert forall k :: 0 <= k < n ==> front[k] == content[k];
    if GivesFirst(front, u, w) {
      var i :| 0 <= i < n && GivesUi(front[i], u, w) && forall k, t :: 0 <= k < i ==> !GivesUi(front[k], t, w);
      assert GivesUi(content[i], u, w);
    }
    if GivesUi(content[n], u, w) && forall k, t :: 0 <= k < n ==> !GivesUi(front[k], t, w) {
      assert GivesFirst(content, u, w);
    }
    if GivesFirst(content, u, w) {
      var i :| 0 <= i < |content| && GivesUi(content[i], u, w) && forall k, t :: 0 <= k < i ==> !GivesUi(content[k], t, w);
      assert i < n ==> GivesUi(front[i], u, w);
    }
  }

  lemma EachHasJson(content: seq<Entry>)
    ensures EachNames(content) <==> AllHaveJson(Attrs(content))
  {
    if EachNames(content) {
      NamedHasJson(content);
    }
    if AllHaveJson(Attrs(content)) {
      JsonNames(content);
    }
  }

  lemma NamedHasJson(content: seq<Entry>)
    requires EachNames(content)
    ensures AllHaveJson(Attrs(content))
  {
    var attrs := Attrs(content);
    forall i | 0 <= i < |attrs|
      ensures HasJson(attrs[i])
    {
      var u :| NamesType(content[i], u);
      EntryMeans(content[i], u, "");
    }
  }

  lemma JsonNames(content: seq<Entry>)
    requires AllHaveJson(Attrs(content))
    ensures EachNames(content)
  {
    forall i | 0 <= i < |content|
      ensures NamesSome(content[i])
    {
      var a := Attrs(content)[i];
      assert HasJson(a) && a == AttrOf(content[i]);
      EntryMeans(content[i], a.json, "");
    }
  }

  lemma NothingTwiceIsWellFormed(content: seq<Entry>)
    requires EachNames(content) && NothingTwice(content)
    ensures WellFormed(Attrs(content))
  {
    EachHasJson(content);
    var attrs := Attrs(content);
    forall i, j | 0 <= i < j < |attrs|
      ensures attrs[i].json != attrs[j].json
      ensures HasUi(attrs[i]) ==> attrs[i].ui != attrs[j].ui
    {
      EntryMeans(content[i], attrs[i].json, "");
      EntryMeans(content[j], attrs[i].json, "");
      if HasUi(attrs[i]) {
        EntryMeans(content[i], attrs[i].json, attrs[i].ui.value);
        EntryMeans(content[j], attrs[j].json, attrs[i].ui.value);
      }
    }
  }
}
