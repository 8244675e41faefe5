/**
 * The blog listing: tag badges, the search and tag filter, the newest-first
 * order and the split into featured and regular posts. A post's date is the
 * number `new Date(date).getTime()` gives, taken here as an abstract key.
 */
module Blog {
  import opened Wrappers
  import Collections
  import Search

  datatype Post = Post(slug: string, title: string, excerpt: string, date: int, tags: seq<string>, featured: bool)

  /** A post's tags. */
  function TagsOf(x: Post): seq<string>
  {
    x.tags
  }

  /** `allTags`: every tag of the listing once, in first-occurrence order (see `Search.ItemTags`). */
  function AllTags(data: Option<seq<Post>>): seq<string>
  {
    Search.ItemTags(data, TagsOf)
  }

  /** The filter a post must pass: the search over title, excerpt and tags, and the tag. */
  function Keep(f: Search.Filters, lower: string -> string): Post -> bool
  {
    (p: Post) => Search.MatchesSearch(f.query, p.title, p.excerpt, p.tags, lower)
      && Search.MatchesTag(f.activeTag, p.tags)
  }

  /** `filteredPosts`: the posts that pass the filter, in their original order. */
  function FilteredPosts(data: Option<seq<Post>>, f: Search.Filters, lower: string -> string): (r: seq<Post>)
    ensures data.None? ==> r == []
    ensures data.Some? ==> Collections.IsSubsequence(r, data.value)
    ensures data.Some? ==> forall p :: p in r <==> p in data.value && Keep(f, lower)(p)
    ensures data.Some? ==> forall p :: multiset(r)[p] == if Keep(f, lower)(p) then multiset(data.value)[p] else 0
  {
    if data.None? then []
    else
      Collections.FilterSubsequence(data.value, Keep(f, lower));
      Collections.FilterCounts(data.value, Keep(f, lower));
      Collections.Filter(data.value, Keep(f, lower))
  }

  /** A post's sort key. */
  function Date(p: Post): int
  {
    p.date
  }

  /**
   * `sortedPosts`: the filtered posts, newest first. The comparison is
   * `b - a` on the dates and the sort is stable, so posts of the same date
   * keep their order.
   */
  function SortedPosts(filtered: seq<Post>): (r: seq<Post>)
    ensures multiset(r) == multiset(filtered)
    ensures Collections.SortedDesc(r, Date)
  {
    Collections.SortDesc(filtered, Date)
  }

  /** Posts that share a date appear in the order in which they were filtered. */
  lemma SortedPostsStable(filtered: seq<Post>, date: int)
    ensures Collections.WithKey(SortedPosts(filtered), Date, date) == Collections.WithKey(filtered, Date, date)
  {
    Collections.SortDescStable(filtered, Date, date);
  }

  function IsFeatured(p: Post): bool
  {
    p.featured
  }

  function IsRegular(p: Post): bool
  {
    !p.featured
  }

  /** `featuredPosts`: the featured posts of the sorted list, in that order. */
  function FeaturedPosts(sorted: seq<Post>): (r: seq<Post>)
    ensures forall p :: p in r <==> p in sorted && p.featured
    ensures Collections.IsSubsequence(r, sorted)
  {
    Collections.FilterSubsequence(sorted, IsFeatured);
    Collections.Filter(sorted, IsFeatured)
  }

  /** `regularPosts`: the other posts of the sorted list, in that order. */
  function RegularPosts(sorted: seq<Post>): (r: seq<Post>)
    ensures forall p :: p in r <==> p in sorted && !p.featured
    ensures Collections.IsSubsequence(r, sorted)
  {
    Collections.FilterSubsequence(sorted, IsRegular);
    Collections.Filter(sorted, IsRegular)
  }

  /**
   * Featured and regular posts split the sorted posts between them: together
   * they hold every post exactly as often as the sorted list does, no post is
   * in both, and each part is still newest first.
   */
  lemma FeaturedRegularPartition(filtered: seq<Post>)
    ensures var sorted := SortedPosts(filtered);
      && multiset(FeaturedPosts(sorted)) + multiset(RegularPosts(sorted)) == multiset(filtered)
      && (forall p :: p in FeaturedPosts(sorted) ==> p !in RegularPosts(sorted))
      && Collections.SortedDesc(FeaturedPosts(sorted), Date)
      && Collections.SortedDesc(RegularPosts(sorted), Date)
  {
    var sorted := SortedPosts(filtered);
    Collections.FilterPartition(sorted, IsFeatured, IsRegular);
    Collections.FilterSorted(sorted, IsFeatured, Date);
    Collections.FilterSorted(sorted, IsRegular, Date);
  }

  /** "Clear Filters": empty query and no active tag, so every post is listed again. */
  lemma ClearFiltersShowAll(posts: seq<Post>, lower: string -> string)
    ensures FilteredPosts(Some(posts), Search.NoFilters, lower) == posts
  {
    forall p | p in posts
      ensures Keep(Search.NoFilters, lower)(p)
    {
      Search.NoFiltersMatch(p.title, p.excerpt, p.tags, lower);
    }
    Collections.FilterAll(posts, Keep(Search.NoFilters, lower));
  }
}
