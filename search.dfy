/**
 * The search box and tag filter shared by the services and blog listings:
 * the de-duplicated tag list, the case-insensitive text match, the tag
 * match and the tag buttons. Lower-casing is JavaScript's `toLowerCase`,
 * taken here as a parameter `lower`.
 */
module Search {
  import opened Wrappers
  import Collections
  import Text

  /** `lists.flatMap(l => l)`. */
  function Flatten(lists: seq<seq<string>>): (r: seq<string>)
    ensures forall t :: t in r <==> exists i :: 0 <= i < |lists| && t in lists[i]
  {
    if lists == [] then []
    else
      var rest := Flatten(lists[1..]);
      assert forall i :: 1 <= i < |lists| ==> lists[i] == lists[1..][i - 1];
      lists[0] + rest
  }

  /**
   * `Array.from(new Set(items.flatMap(item => item.tags)))`: every tag of
   * every item, each exactly once.
   */
  function AllTags(tagLists: seq<seq<string>>): (tags: seq<string>)
    ensures forall t :: t in tags <==> exists i :: 0 <= i < |tagLists| && t in tagLists[i]
    ensures forall i, j :: 0 <= i < j < |tags| ==> tags[i] != tags[j]
  {
    Collections.Distinct(Flatten(tagLists))
  }

  /** The tags are listed in the order in which they first occur. */
  lemma AllTagsOrder(tagLists: seq<seq<string>>, i: nat, j: nat)
    requires i < j < |AllTags(tagLists)|
    ensures var tags := AllTags(tagLists); var all := Flatten(tagLists);
      tags[i] in all && tags[j] in all && Collections.FirstIndex(all, tags[i]) < Collections.FirstIndex(all, tags[j])
  {
    Collections.DistinctOrder(Flatten(tagLists), i, j);
  }

  /**
   * `allTags` of a listing: the distinct tags of all its items, or none
   * before the data has arrived.
   */
  function ItemTags<T(!new)>(data: Option<seq<T>>, tagsOf: T -> seq<string>): (tags: seq<string>)
    ensures data.None? ==> tags == []
    ensures data.Some? ==> forall t :: t in tags <==> exists x :: x in data.value && t in tagsOf(x)
    ensures forall i, j :: 0 <= i < j < |tags| ==> tags[i] != tags[j]
  {
    if data.None? then []
    else
      var lists := Collections.Map(data.value, tagsOf);
      var tags := AllTags(lists);
      assert forall t :: t in tags ==> exists x :: x in data.value && t in tagsOf(x);
      assert forall t, x :: x in data.value && t in tagsOf(x) ==> t in tags by {
        forall t, x | x in data.value && t in tagsOf(x)
          ensures t in tags
        {
          var i :| 0 <= i < |data.value| && data.value[i] == x;
          assert t in lists[i];
        }
      }
      tags
  }

  /** `tags.some(tag => lower(tag).includes(lower(query)))`. */
  predicate SomeTagIncludes(tags: seq<string>, query: string, lower: string -> string)
  {
    exists i :: 0 <= i < |tags| && Text.Includes(lower(tags[i]), lower(query))
  }

  /** `matchesSearch`: an empty query, or the lower-cased query inside the title, the text or a tag. */
  predicate MatchesSearch(query: string, title: string, text: string, tags: seq<string>, lower: string -> string)
  {
    || query == ""
    || Text.Includes(lower(title), lower(query))
    || Text.Includes(lower(text), lower(query))
    || SomeTagIncludes(tags, query, lower)
  }

  /** `matchesTag`: no active tag, or the item carries it. */
  predicate MatchesTag(activeTag: Option<string>, tags: seq<string>)
  {
    activeTag.None? || activeTag.value in tags
  }

  /** A tag badge click: the active tag is cleared, any other tag becomes the active one. */
  function TagClick(activeTag: Option<string>, tag: string): (r: Option<string>)
    ensures r.None? <==> activeTag == Some(tag)
    ensures r.Some? ==> r.value == tag
  {
    if activeTag == Some(tag) then None else Some(tag)
  }

  /** Clicking the same badge twice clears the filter, unless that tag was already active. */
  lemma TagClickTwice(activeTag: Option<string>, tag: string)
    ensures TagClick(TagClick(activeTag, tag), tag) == if activeTag == Some(tag) then Some(tag) else None
  {
  }

  /** The search query and the active tag. */
  datatype Filters = Filters(query: string, activeTag: Option<string>)

  /** The initial filters, also what "Clear Filters" restores. */
  const NoFilters: Filters := Filters("", None)

  /** A tag badge: toggles the active tag; the query is kept. */
  function ClickTag(f: Filters, tag: string): (r: Filters)
    ensures r.query == f.query
    ensures r.activeTag == TagClick(f.activeTag, tag)
  {
    f.(activeTag := TagClick(f.activeTag, tag))
  }

  /** With no query and no tag, every item passes. */
  lemma NoFiltersMatch(title: string, text: string, tags: seq<string>, lower: string -> string)
    ensures MatchesSearch(NoFilters.query, title, text, tags, lower) && MatchesTag(NoFilters.activeTag, tags)
  {
  }
}
