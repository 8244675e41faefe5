/**
 * The services listing: its tag badges and the services that pass the
 * search box and the active tag.
 */
module ServicesPage {
  import opened Wrappers
  import Collections
  import Search

  datatype Service = Service(id: string, slug: string, title: string, shortDescription: string, tags: seq<string>)

  /** A service's tags. */
  function TagsOf(x: Service): seq<string>
  {
    x.tags
  }

  /** `allTags`: every tag of the listing once, in first-occurrence order (see `Search.ItemTags`). */
  function AllTags(data: Option<seq<Service>>): seq<string>
  {
    Search.ItemTags(data, TagsOf)
  }

  /** The filter a service must pass. */
  function Keep(f: Search.Filters, lower: string -> string): Service -> bool
  {
    (s: Service) => Search.MatchesSearch(f.query, s.title, s.shortDescription, s.tags, lower)
      && Search.MatchesTag(f.activeTag, s.tags)
  }

  /**
   * `filteredServices`: the services that match both the search and the
   * tag, in their original order; none before the data has arrived.
   */
  function FilteredServices(data: Option<seq<Service>>, f: Search.Filters, lower: string -> string): (r: seq<Service>)
    ensures data.None? ==> r == []
    ensures data.Some? ==> Collections.IsSubsequence(r, data.value)
    ensures data.Some? ==> forall s :: s in r <==> s in data.value && Keep(f, lower)(s)
    ensures data.Some? ==> forall s :: multiset(r)[s] == if Keep(f, lower)(s) then multiset(data.value)[s] else 0
  {
    if data.None? then []
    else
      Collections.FilterSubsequence(data.value, Keep(f, lower));
      Collections.FilterCounts(data.value, Keep(f, lower));
      Collections.Filter(data.value, Keep(f, lower))
  }

  /** With an empty query and no active tag, every service is listed. */
  lemma NoFiltersShowAll(services: seq<Service>, lower: string -> string)
    ensures FilteredServices(Some(services), Search.NoFilters, lower) == services
  {
    forall s | s in services
      ensures Keep(Search.NoFilters, lower)(s)
    {
      Search.NoFiltersMatch(s.title, s.shortDescription, s.tags, lower);
    }
    Collections.FilterAll(services, Keep(Search.NoFilters, lower));
  }

  /** The "All Services" button: no active tag, the query is kept. */
  function ClickAllServices(f: Search.Filters): (r: Search.Filters)
    ensures r.query == f.query && r.activeTag.None?
  {
    f.(activeTag := None)
  }

  /** "Clear Filters": empty query and no active tag, so every service is listed again. */
  function ClearFilters(f: Search.Filters): (r: Search.Filters)
    ensures r == Search.NoFilters
  {
    Search.Filters("", None)
  }
}
