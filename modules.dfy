/**
 * The module library of the provider dashboard (src/pages/Modules.tsx): the
 * search over names, descriptions and tags, the video / text filter, and the
 * list updates after deleting and duplicating a module.
 */
module Modules {
  import opened Wrappers
  import opened JsText
  import opened JsArray

  /** `interface ConsentModule`. */
  datatype ConsentModule = ConsentModule(
    id: string,
    name: string,
    description: Option<string>,
    videoUrl: Option<string>,
    tags: Option<seq<string>>,
    createdAt: string,
    createdBy: string)

  /** The filter dropdown: `"all" | "video" | "text"`. */
  datatype TypeFilter = AllTypes | VideoOnly | TextOnly

  /** `matchesSearch`: the lowercased query occurs in the name, in the
      description when there is one, or in one of the tags when there are any. */
  predicate MatchesSearch(m: ConsentModule, query: string) {
    var q := ToLower(query);
    Includes(ToLower(m.name), q)
    || (m.description.Some? && Includes(ToLower(m.description.value), q))
    || (m.tags.Some? && AnyPasses(m.tags.value, (tag: string) => Includes(ToLower(tag), q)))
  }

  /** `matchesFilter`: a module "has a video" when its URL is truthy. */
  predicate MatchesFilter(m: ConsentModule, filter: TypeFilter) {
    filter == AllTypes
    || (filter == VideoOnly && Truthy(m.videoUrl))
    || (filter == TextOnly && !Truthy(m.videoUrl))
  }

  /** `filteredModules`. */
  function Filtered(ms: seq<ConsentModule>, query: string, filter: TypeFilter): seq<ConsentModule> {
    Filter(ms, m => MatchesSearch(m, query) && MatchesFilter(m, filter))
  }

  /** A module is listed exactly when it matches both the search and the filter. */
  lemma FilteredMembers(ms: seq<ConsentModule>, query: string, filter: TypeFilter)
    ensures forall m :: m in Filtered(ms, query, filter) <==> m in ms && MatchesSearch(m, query) && MatchesFilter(m, filter)
  {
    FilterMembers(ms, m => MatchesSearch(m, query) && MatchesFilter(m, filter));
  }

  /** "video" and "text" split the modules: every module is in exactly one of
      the two lists, and "all" keeps every module. */
  lemma FilterPartition(m: ConsentModule)
    ensures MatchesFilter(m, AllTypes)
    ensures MatchesFilter(m, VideoOnly) != MatchesFilter(m, TextOnly)
    ensures MatchesFilter(m, VideoOnly) <==> m.videoUrl.Some? && m.videoUrl.value != ""
  {
  }

  /** The empty search with "all" lists every module, in order. */
  lemma EmptySearchListsAll(ms: seq<ConsentModule>)
    ensures Filtered(ms, "", AllTypes) == ms
  {
    forall i | 0 <= i < |ms| ensures MatchesSearch(ms[i], "") {
      IncludesEmpty(ToLower(ms[i].name));
    }
    FilterAll(ms, m => MatchesSearch(m, "") && MatchesFilter(m, AllTypes));
  }

  /** A module without description and tags is found by its name alone. */
  lemma NullFieldsNeverMatch(m: ConsentModule, query: string)
    requires m.description.None? && m.tags.None?
    ensures MatchesSearch(m, query) <==> Includes(ToLower(m.name), ToLower(query))
  {
  }

  /** `handleDelete`: nothing happens without a chosen module or when the
      delete fails; otherwise the list drops every module with its id. */
  function HandleDelete(ms: seq<ConsentModule>, target: Option<ConsentModule>, failed: bool): seq<ConsentModule> {
    if target.None? || failed then ms else Filter(ms, (m: ConsentModule) => m.id != target.value.id)
  }

  /** After a successful delete no module has the deleted id and every other
      module stays; otherwise the list is unchanged. */
  lemma HandleDeleteSpec(ms: seq<ConsentModule>, target: Option<ConsentModule>, failed: bool)
    ensures target.None? || failed ==> HandleDelete(ms, target, failed) == ms
    ensures target.Some? && !failed ==>
      forall m :: m in HandleDelete(ms, target, failed) <==> m in ms && m.id != target.value.id
  {
    if target.Some? && !failed {
      FilterMembers(ms, (m: ConsentModule) => m.id != target.value.id);
    }
  }

  /** The row `handleDuplicate` inserts (the database assigns the id and the
      creation time, and the owner is the signed-in provider). */
  function CopyOf(m: ConsentModule, newId: string, createdAt: string, owner: string): ConsentModule {
    ConsentModule(newId, m.name + " (Copy)", m.description, m.videoUrl, m.tags, createdAt, owner)
  }

  /** `handleDuplicate`: without a user or when the insert fails nothing
      changes; otherwise the new row goes first. */
  function HandleDuplicate(ms: seq<ConsentModule>, m: ConsentModule, user: Option<string>, newId: string, createdAt: string, failed: bool): seq<ConsentModule> {
    if user.None? || failed then ms else [CopyOf(m, newId, createdAt, user.value)] + ms
  }

  /** A duplicate goes first and keeps the list behind it; it is found by
      every search that finds the original and falls under the same filters. */
  lemma DuplicateSpec(ms: seq<ConsentModule>, m: ConsentModule, user: string, newId: string, createdAt: string, query: string, filter: TypeFilter)
    ensures var r := HandleDuplicate(ms, m, Some(user), newId, createdAt, false);
      |r| == |ms| + 1 && r[1..] == ms && r[0].name == m.name + " (Copy)"
      && (MatchesSearch(m, query) ==> MatchesSearch(r[0], query))
      && (MatchesFilter(r[0], filter) <==> MatchesFilter(m, filter))
  {
    var c := CopyOf(m, newId, createdAt, user);
    var q := ToLower(query);
    if Includes(ToLower(m.name), q) {
      ToLowerAppend(m.name, " (Copy)");
      IncludesAppend(ToLower(m.name), ToLower(" (Copy)"), q);
    }
  }
}
