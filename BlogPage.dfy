/** The blog page: the posts that pass the category tab and the search box, and their
    split into the highlighted and the regular section. */
module BlogPage {
  import opened Options
  import opened Js
  import opened Lists
  import opened Api

  /** The category tab that shows every category. */
  const AllCategories: string := "all"

  /** The two filter controls of the page. */
  datatype Filters = Filters(searchQuery: string, activeCategory: string)

  /** The filters on first render, and what the "Mostrar todos los artículos" button
      restores. */
  function ShowAll(): Filters {
    Filters("", AllCategories)
  }

  /** The lowercased title, excerpt or category name contains `query`. */
  predicate MatchesQuery(post: Post, query: string) {
    || Includes(Lower(post.title), query)
    || Includes(Lower(post.excerpt), query)
    || Includes(Lower(post.categoryName), query)
  }

  /** The callback of `filteredPosts`, branch for branch. The search compares with the
      lowercased query as typed; only the emptiness test trims it. */
  predicate Keep(post: Post, f: Filters) {
    if f.activeCategory != AllCategories && post.categorySlug != f.activeCategory then false
    else if Trim(f.searchQuery) != [] then MatchesQuery(post, Lower(f.searchQuery))
    else true
  }

  function FilteredPosts(posts: seq<Post>, f: Filters): seq<Post> {
    Filter(posts, (post: Post) => Keep(post, f))
  }

  /** `is_highlighted === 1`. */
  predicate Highlighted(post: Post) {
    post.isHighlighted == Some(1)
  }

  /** `is_highlighted === 0 || is_highlighted === undefined`. */
  predicate Regular(post: Post) {
    post.isHighlighted == Some(0) || post.isHighlighted.None?
  }

  function FeaturedPosts(filtered: seq<Post>): seq<Post> {
    Filter(filtered, Highlighted)
  }

  function RegularPosts(filtered: seq<Post>): seq<Post> {
    Filter(filtered, Regular)
  }

  /** The filtered list keeps the order of the posts and drops some of them. */
  lemma FilteredIsSubsequence(posts: seq<Post>, f: Filters)
    ensures IsSubsequence(FilteredPosts(posts, f), posts)
  {
    FilterIsSubsequence(posts, (post: Post) => Keep(post, f));
  }

  /** A post is shown exactly when it is one of the posts, belongs to the active
      category (unless that is "all"), and, when the query is not blank, matches the
      lowercased query. */
  lemma FilteredMembership(posts: seq<Post>, f: Filters, post: Post)
    ensures post in FilteredPosts(posts, f) <==>
      && post in posts
      && (f.activeCategory == AllCategories || post.categorySlug == f.activeCategory)
      && (Trim(f.searchQuery) == [] || MatchesQuery(post, Lower(f.searchQuery)))
  {
    FilterMembership(posts, (p: Post) => Keep(p, f), post);
  }

  /** Every post shown under a category tab other than "all" has that category. */
  lemma FilteredCategory(posts: seq<Post>, f: Filters)
    requires f.activeCategory != AllCategories
    ensures forall i :: 0 <= i < |FilteredPosts(posts, f)| ==>
      FilteredPosts(posts, f)[i].categorySlug == f.activeCategory
  {
  }

  /** The "all" tab with a blank search shows every post, in order. */
  lemma FilteredIdentity(posts: seq<Post>, f: Filters)
    requires f.activeCategory == AllCategories && AllWhitespace(f.searchQuery)
    ensures FilteredPosts(posts, f) == posts
  {
    TrimBlank(f.searchQuery);
    FilterAll(posts, (post: Post) => Keep(post, f));
  }

  /** After "Mostrar todos los artículos" every post is shown again. */
  lemma ShowAllShowsEverything(posts: seq<Post>)
    ensures FilteredPosts(posts, ShowAll()) == posts
  {
    FilteredIdentity(posts, ShowAll());
  }

  /** The highlighted and the regular section keep the order of the filtered list,
      share no post, and together hold every filtered post except those whose
      `is_highlighted` is some value other than 0 and 1; such a post is in neither. */
  lemma SectionsPartition(filtered: seq<Post>)
    ensures IsSubsequence(FeaturedPosts(filtered), filtered)
    ensures IsSubsequence(RegularPosts(filtered), filtered)
    ensures forall p :: p in FeaturedPosts(filtered) ==> p !in RegularPosts(filtered)
    ensures |FeaturedPosts(filtered)| + |RegularPosts(filtered)| <= |filtered|
    ensures (forall i :: 0 <= i < |filtered| ==> Highlighted(filtered[i]) || Regular(filtered[i])) ==>
      |FeaturedPosts(filtered)| + |RegularPosts(filtered)| == |filtered|
    ensures forall p :: p in filtered && !Highlighted(p) && !Regular(p) ==>
      p !in FeaturedPosts(filtered) && p !in RegularPosts(filtered)
  {
    FilterIsSubsequence(filtered, Highlighted);
    FilterIsSubsequence(filtered, Regular);
    FilterDisjointSizes(filtered, Highlighted, Regular);
    forall p | p in FeaturedPosts(filtered)
      ensures p !in RegularPosts(filtered)
    {
      FilterMembership(filtered, Highlighted, p);
      FilterMembership(filtered, Regular, p);
    }
  }

  /** The highlighted section is drawn only when it has posts. */
  predicate ShowsFeaturedSection(filtered: seq<Post>) {
    |FeaturedPosts(filtered)| > 0
  }

  /** The "No se encontraron artículos" message with the reset button replaces the
      regular grid when that grid is empty. */
  predicate ShowsEmptyState(filtered: seq<Post>) {
    |RegularPosts(filtered)| == 0
  }

  /** The empty state shows exactly when no filtered post is regular. */
  lemma EmptyStateIffNoRegular(filtered: seq<Post>)
    ensures ShowsEmptyState(filtered) <==> forall p :: p in filtered ==> !Regular(p)
  {
    if ShowsEmptyState(filtered) {
      forall p | p in filtered
        ensures !Regular(p)
      {
        FilterMembership(filtered, Regular, p);
      }
    } else {
      assert RegularPosts(filtered)[0] in filtered;
    }
  }

  /** An empty search box and any whitespace-only query leave the list as the category
      tab alone makes it. */
  lemma BlankQueryIgnored(posts: seq<Post>, category: string, query: string)
    requires AllWhitespace(query)
    ensures FilteredPosts(posts, Filters(query, category)) == FilteredPosts(posts, Filters("", category))
  {
    TrimBlank(query);
    TrimBlank("");
    FilterSame(posts, (post: Post) => Keep(post, Filters(query, category)),
      (post: Post) => Keep(post, Filters("", category)));
  }
}
