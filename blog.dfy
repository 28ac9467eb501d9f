/** src/app/blog/page.tsx: the search and category filter over the blog posts, the pagination of
    what it keeps, the featured strip, and the Previous and Next page buttons. The posts themselves
    are static content and are a parameter here. */
module Blog {
  import opened Common
  import opened Text
  import opened Listing

  /** The fields of a blog post the page's logic looks at. */
  datatype BlogPost = BlogPost(id: int, title: string, excerpt: string, category: string,
                               featured: bool, tags: seq<string>)

  /** blogsPerPage. */
  const PerPage := 6

  /** The category value that selects every post. */
  const AllCategories := "all"

  /** The test the filter applies to one post: the search term occurs, ignoring case, in the title,
      the excerpt or one of the tags, and the category is "all" or the post's own. */
  predicate Shown(post: BlogPost, term: string, category: string) {
    MatchesSearch([post.title, post.excerpt], post.tags, term) &&
    (category == AllCategories || post.category == category)
  }

  /** filteredBlogs: the posts that pass the search and category test, in their original order. */
  function FilteredBlogs(posts: seq<BlogPost>, term: string, category: string): (kept: seq<BlogPost>)
    ensures IsSubsequence(kept, posts)
    ensures forall p | p in kept :: p in posts && Shown(p, term, category)
    ensures forall p | p in posts && Shown(p, term, category) :: p in kept
    ensures category != AllCategories ==> forall p | p in kept :: p.category == category
  {
    Filter(posts, (p: BlogPost) => Shown(p, term, category))
  }

  /** With the filters cleared (an empty search and "all"), every post is listed, in order. */
  lemma ClearedFiltersListEverything(posts: seq<BlogPost>)
    ensures FilteredBlogs(posts, "", AllCategories) == posts
  {
    forall p | p in posts
      ensures Shown(p, "", AllCategories)
    {
      EmptySearchMatches([p.title, p.excerpt], p.tags);
    }
    FilterKeepsAll(posts, (p: BlogPost) => Shown(p, "", AllCategories));
  }

  /** totalPages: Math.ceil(n / 6), the fewest pages of six that hold n posts. */
  function TotalPages(n: nat): (pages: nat)
    ensures (pages - 1) * PerPage < n <= pages * PerPage || (n == 0 && pages == 0)
    ensures pages == 0 <==> n == 0
  {
    CeilDiv(n, PerPage)
  }

  /** paginatedBlogs: the slice of the filtered posts that page `page` shows, starting at
      (page - 1) * 6. At most six posts are shown, and a page past the end shows none. */
  function PaginatedBlogs(filtered: seq<BlogPost>, page: int): (shown: seq<BlogPost>)
    ensures |shown| <= PerPage
    ensures 1 <= page && (page - 1) * PerPage + PerPage <= |filtered| ==>
      shown == filtered[(page - 1) * PerPage..(page - 1) * PerPage + PerPage]
    ensures page > TotalPages(|filtered|) ==> shown == []
  {
    var start := (page - 1) * PerPage;
    JsSlice(filtered, start, start + PerPage)
  }

  /** Every filtered post is on exactly the page its position says: post i is the (i mod 6)-th entry
      of page i / 6 + 1, and that page is one of the pages the pager offers. */
  lemma {:induction false} EveryPostHasAPage(filtered: seq<BlogPost>, i: nat)
    requires i < |filtered|
    ensures 1 <= i / PerPage + 1 <= TotalPages(|filtered|)
    ensures i % PerPage < |PaginatedBlogs(filtered, i / PerPage + 1)|
    ensures PaginatedBlogs(filtered, i / PerPage + 1)[i % PerPage] == filtered[i]
  {
    var start := i / PerPage * PerPage;
    assert start <= i < start + PerPage;
    var end := if start + PerPage <= |filtered| then start + PerPage else |filtered|;
    assert JsSlice(filtered, start, start + PerPage) == filtered[start..end];
  }

  /** The Previous button: one page back, never below page 1. */
  function PreviousPage(page: int): (p: int)
    ensures p >= 1
    ensures page > 1 ==> p == page - 1
    ensures page <= 1 ==> p == 1
  {
    if page - 1 > 1 then page - 1 else 1
  }

  /** The Next button: one page on, never past the last page. */
  function NextPage(page: int, totalPages: int): (p: int)
    ensures p <= totalPages
    ensures page < totalPages ==> p == page + 1
    ensures page >= totalPages ==> p == totalPages
  {
    if page + 1 < totalPages then page + 1 else totalPages
  }

  /** Starting from any offered page, Previous and Next keep the page among those offered, and each
      undoes the other away from the ends. */
  lemma PagerStaysInRange(page: int, totalPages: int)
    requires 1 <= page <= totalPages
    ensures 1 <= PreviousPage(page) <= totalPages
    ensures 1 <= NextPage(page, totalPages) <= totalPages
    ensures page < totalPages ==> PreviousPage(NextPage(page, totalPages)) == page
    ensures page > 1 ==> NextPage(PreviousPage(page), totalPages) == page
  {
  }

  /** featuredBlogs: the posts marked featured, in order, whatever the search and category. */
  function FeaturedBlogs(posts: seq<BlogPost>): (featured: seq<BlogPost>)
    ensures IsSubsequence(featured, posts)
    ensures forall p | p in featured :: p in posts && p.featured
    ensures forall p | p in posts && p.featured :: p in featured
  {
    Filter(posts, (p: BlogPost) => p.featured)
  }

  /** The featured strip is shown only when there are featured posts and the filters are cleared; it
      holds the first two featured posts. */
  function FeaturedStrip(posts: seq<BlogPost>, term: string, category: string): (strip: seq<BlogPost>)
    ensures |strip| <= 2
    ensures strip != [] ==> term == "" && category == AllCategories
    ensures forall p | p in strip :: p in posts && p.featured
    ensures term == "" && category == AllCategories ==> strip == JsSlice(FeaturedBlogs(posts), 0, 2)
  {
    var featured := FeaturedBlogs(posts);
    if |featured| > 0 && category == AllCategories && term == "" then JsSlice(featured, 0, 2) else []
  }
}
