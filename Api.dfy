/** The records the blog API returns. */
module Api {
  import opened Options

  /** A blog post. `published_at` is a date string in the API; here it is the
      timestamp that `new Date(published_at).getTime()` yields. The two flags are
      optional fields of the record. */
  datatype Post = Post(
    id: string, title: string, slug: string, excerpt: string, content: string, image: string,
    publishedAt: int, readingTime: int, author: string, categorySlug: string, categoryName: string,
    isFeatured: Option<bool>, isHighlighted: Option<int>)

  /** A blog category. */
  datatype Category = Category(id: string, name: string, slug: string, description: Option<string>)

  /** `post.is_featured` read as a condition: only a present `true` counts. */
  predicate IsFeatured(p: Post) {
    p.isFeatured == Some(true)
  }
}
