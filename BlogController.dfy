/** The blog API controller: the SQL text and parameters it builds for the post list,
    the count query, the pagination object, and the status and body of each
    response. The database is a parameter: a function from a query and its
    parameters to the rows it returns or to a thrown error. */
module BlogController {
  import opened Options
  import opened Js
  import opened Api

  /** A piece of SQL text: literal text, or a `$n` placeholder. */
  datatype Piece = Text(text: string) | Slot(n: nat)

  type Sql = seq<Piece>

  /** A query parameter. */
  datatype Param = StrParam(s: string) | NumParam(n: int)

  /** The SQL text of one piece: the text itself, or `$` and the number. */
  function PieceText(p: Piece): string {
    match p
    case Text(t) => t
    case Slot(n) => "$" + NatToString(n)
  }

  /** The SQL text the pieces spell. */
  function Render(q: Sql): string
    decreases |q|
  {
    if q == [] then "" else PieceText(q[0]) + Render(q[1..])
  }

  lemma {:induction false} RenderAppend(a: Sql, b: Sql)
    ensures Render(a + b) == Render(a) + Render(b)
    decreases |a|
  {
    if a == [] {
      assert a + b == b;
    } else {
      assert (a + b)[0] == a[0] && (a + b)[1..] == a[1..] + b;
      RenderAppend(a[1..], b);
    }
  }

  /** The placeholder numbers of a query, in the order they appear. */
  function Slots(q: Sql): seq<nat>
    decreases |q|
  {
    if q == [] then [] else (if q[0].Slot? then [q[0].n] else []) + Slots(q[1..])
  }

  lemma {:induction false} SlotsAppend(a: Sql, b: Sql)
    ensures Slots(a + b) == Slots(a) + Slots(b)
    decreases |a|
  {
    if a == [] {
      assert a + b == b;
    } else {
      var head := if a[0].Slot? then [a[0].n] else [];
      assert (a + b)[0] == a[0] && (a + b)[1..] == a[1..] + b;
      SlotsAppend(a[1..], b);
      assert Slots(a + b) == head + (Slots(a[1..]) + Slots(b));
      assert Slots(a) == head + Slots(a[1..]);
    }
  }

  lemma SlotsSingle(p: Piece)
    ensures Slots([p]) == if p.Slot? then [p.n] else []
  {
    assert [p][1..] == [];
  }

  /** The placeholders are `$1, $2, …, $k` in this order, one per parameter; so the
      highest number is the parameter count. */
  predicate WellNumbered(q: Sql, params: seq<Param>) {
    Slots(q) == seq(|params|, i => i + 1)
  }

  /** The parameter that the placeholder at position `i` refers to. */
  predicate Binds(q: Sql, params: seq<Param>, i: int, p: Param) {
    0 <= i < |q| && q[i].Slot? && 1 <= q[i].n <= |params| && params[q[i].n - 1] == p
  }

  /** `if (category)` and `category ? … : …`: present and not the empty string. */
  predicate HasCategory(category: Option<string>) {
    category.Some? && Truthy(category.value)
  }

  const SelectPostsText: string :=
    "\n        SELECT p.*, c.name as category_name, c.slug as category_slug\n        FROM posts p\n" +
    "        LEFT JOIN categories c ON p.category_id = c.id\n        WHERE p.published_at IS NOT NULL\n      "
  const CategoryFilterText: string := " AND c.slug = "
  const OrderLimitText: string := " ORDER BY p.published_at DESC LIMIT "
  const OffsetText: string := " OFFSET "

  /** The post-list query and its parameters as the handler leaves them: the base
      query, then the category filter with its parameter when there is a category,
      then `LIMIT` and `OFFSET` numbered after the parameters pushed so far. */
  function PostsQuery(category: Option<string>, limit: int, offset: int): (Sql, seq<Param>) {
    var filter := if HasCategory(category) then [Text(CategoryFilterText), Slot(1)] else [];
    var first := if HasCategory(category) then [StrParam(category.value)] else [];
    ([Text(SelectPostsText)] + filter + [Text(OrderLimitText), Slot(|first| + 1), Text(OffsetText), Slot(|first| + 2)],
     first + [NumParam(limit), NumParam(offset)])
  }

  /** The handler's construction: `query +=` and `queryParams.push`, the `LIMIT` and
      `OFFSET` numbers read off the parameter count at that moment. */
  method BuildPostsQuery(category: Option<string>, limit: int, offset: int) returns (query: Sql, params: seq<Param>)
    ensures (query, params) == PostsQuery(category, limit, offset)
  {
    query := [Text(SelectPostsText)];
    params := [];
    if HasCategory(category) {
      query := query + [Text(CategoryFilterText), Slot(1)];
      params := params + [StrParam(category.value)];
      assert params == [StrParam(category.value)];
    } else {
      assert query == [Text(SelectPostsText)] + [];
    }
    query := query + [Text(OrderLimitText), Slot(|params| + 1), Text(OffsetText), Slot(|params| + 2)];
    params := params + [NumParam(limit), NumParam(offset)];
  }

  /** The filter pieces spell `' AND c.slug = $1'`. */
  lemma FilterPiecesText()
    ensures Render([Text(CategoryFilterText), Slot(1)]) == " AND c.slug = $1"
  {
    assert NatToString(1) == "1";
    RenderAppend([Text(CategoryFilterText)], [Slot(1)]);
    RenderSingle(Text(CategoryFilterText));
    RenderSingle(Slot(1));
  }

  /** The paging pieces spell `' … LIMIT $' + (n + 1) + ' OFFSET $' + (n + 2)` for `n`
      parameters pushed so far, the numbers printed as JavaScript prints them. */
  lemma PagingPiecesText(n: nat)
    ensures Render([Text(OrderLimitText), Slot(n + 1), Text(OffsetText), Slot(n + 2)]) ==
      OrderLimitText + "$" + IntToString(n + 1) + OffsetText + "$" + IntToString(n + 2)
  {
    assert IntToString(n + 1) == NatToString(n + 1);
    assert IntToString(n + 2) == NatToString(n + 2);
    RenderTextSlotTwice(OrderLimitText, n + 1, OffsetText, n + 2);
  }

  /** Text, placeholder, text, placeholder spell the texts with `$` and the numbers
      between them. */
  lemma RenderTextSlotTwice(x: string, i: nat, y: string, j: nat)
    ensures Render([Text(x), Slot(i), Text(y), Slot(j)]) == x + "$" + NatToString(i) + y + "$" + NatToString(j)
  {
    var q := [Text(x), Slot(i), Text(y), Slot(j)];
    assert Render(q[3..]) == "$" + NatToString(j) by {
      assert q[3..][1..] == [];
    }
    assert Render(q[2..]) == y + Render(q[3..]) by {
      assert q[2..][1..] == q[3..];
    }
    assert Render(q[1..]) == "$" + NatToString(i) + Render(q[2..]) by {
      assert q[1..][1..] == q[2..];
    }
    assert Render(q) == x + Render(q[1..]);
  }

  lemma RenderSingle(p: Piece)
    ensures Render([p]) == PieceText(p)
  {
    assert [p][1..] == [];
  }

  /** The whole post-list query text: without a category it ends
      `LIMIT $1 OFFSET $2`; with one it adds the slug filter on `$1` and ends
      `LIMIT $2 OFFSET $3`. */
  lemma PostsQueryText(category: Option<string>, limit: int, offset: int)
    ensures !HasCategory(category) ==>
      (Render(PostsQuery(category, limit, offset).0) ==
       SelectPostsText + " ORDER BY p.published_at DESC LIMIT $1 OFFSET $2")
    ensures HasCategory(category) ==>
      (Render(PostsQuery(category, limit, offset).0) ==
       SelectPostsText + " AND c.slug = $1" + " ORDER BY p.published_at DESC LIMIT $2 OFFSET $3")
  {
    var k := if HasCategory(category) then 1 else 0;
    var filter := if HasCategory(category) then [Text(CategoryFilterText), Slot(1)] else [];
    var tail := [Text(OrderLimitText), Slot(k + 1), Text(OffsetText), Slot(k + 2)];
    assert PostsQuery(category, limit, offset).0 == [Text(SelectPostsText)] + filter + tail;
    RenderAppend([Text(SelectPostsText)] + filter, tail);
    RenderAppend([Text(SelectPostsText)], filter);
    RenderSingle(Text(SelectPostsText));
    PagingPiecesText(k);
    PagingNumbers(k);
    if HasCategory(category) {
      FilterPiecesText();
    } else {
      assert Render(filter) == "";
    }
  }

  /** The paging clause for no parameter and for one parameter pushed before it. */
  lemma PagingNumbers(k: nat)
    requires k <= 1
    ensures OrderLimitText + "$" + IntToString(k + 1) + OffsetText + "$" + IntToString(k + 2) ==
      if k == 0 then " ORDER BY p.published_at DESC LIMIT $1 OFFSET $2"
      else " ORDER BY p.published_at DESC LIMIT $2 OFFSET $3"
  {
    assert NatToString(k + 1) == [DigitChar(k + 1)];
    assert NatToString(k + 2) == [DigitChar(k + 2)];
  }

  /** Without a category the query ends `LIMIT $1 OFFSET $2` over `[limit, offset]`;
      with one it filters on `$1` bound to the category and ends `LIMIT $2 OFFSET $3`.
      Either way every placeholder is numbered in order up to the parameter count and
      binds the value its clause means. */
  lemma PostsQueryBindings(category: Option<string>, limit: int, offset: int)
    ensures var (q, params) := PostsQuery(category, limit, offset);
      && WellNumbered(q, params)
      && |params| == (if HasCategory(category) then 3 else 2)
      && |q| >= 5 && q[|q| - 4] == Text(OrderLimitText) && q[|q| - 2] == Text(OffsetText)
      && q[|q| - 3] == Slot(|params| - 1) && Binds(q, params, |q| - 3, NumParam(limit))
      && q[|q| - 1] == Slot(|params|) && Binds(q, params, |q| - 1, NumParam(offset))
      && (HasCategory(category) ==>
            q[1] == Text(CategoryFilterText) && Binds(q, params, 2, StrParam(category.value)))
  {
    var (q, params) := PostsQuery(category, limit, offset);
    var k := if HasCategory(category) then 1 else 0;
    var filter := if HasCategory(category) then [Text(CategoryFilterText), Slot(1)] else [];
    var tail := [Text(OrderLimitText), Slot(k + 1), Text(OffsetText), Slot(k + 2)];
    assert q == [Text(SelectPostsText)] + filter + tail;
    SlotsAppend([Text(SelectPostsText)] + filter, tail);
    SlotsAppend([Text(SelectPostsText)], filter);
    SlotsSingle(Text(SelectPostsText));
    assert Slots(tail) == [k + 1, k + 2] by {
      assert tail == [Text(OrderLimitText)] + [Slot(k + 1)] + [Text(OffsetText)] + [Slot(k + 2)];
      SlotsAppend([Text(OrderLimitText)] + [Slot(k + 1)] + [Text(OffsetText)], [Slot(k + 2)]);
      SlotsAppend([Text(OrderLimitText)] + [Slot(k + 1)], [Text(OffsetText)]);
      SlotsAppend([Text(OrderLimitText)], [Slot(k + 1)]);
      SlotsSingle(Text(OrderLimitText));
      SlotsSingle(Slot(k + 1));
      SlotsSingle(Text(OffsetText));
      SlotsSingle(Slot(k + 2));
    }
    if HasCategory(category) {
      assert Slots(filter) == [1] by {
        assert filter == [Text(CategoryFilterText)] + [Slot(1)];
        SlotsAppend([Text(CategoryFilterText)], [Slot(1)]);
        SlotsSingle(Text(CategoryFilterText));
        SlotsSingle(Slot(1));
      }
    } else {
      assert Slots(filter) == [];
    }
    assert Slots(q) == seq(|params|, i => i + 1);
  }

  const CountText: string := "SELECT COUNT(*) FROM posts WHERE published_at IS NOT NULL"
  const CountFilterText: string := " AND category_id = (SELECT id FROM categories WHERE slug = "

  /** The count query: the category subselect on `$1` with `[category]` when there is a
      category, otherwise no placeholder and `[]`. */
  function CountQuery(category: Option<string>): (r: (Sql, seq<Param>))
    ensures WellNumbered(r.0, r.1)
    ensures HasCategory(category) ==> r.1 == [StrParam(category.value)] && Binds(r.0, r.1, 2, StrParam(category.value))
    ensures !HasCategory(category) ==> r.1 == [] && Slots(r.0) == []
  {
    if HasCategory(category) then
      var q := [Text(CountText), Text(CountFilterText), Slot(1), Text(")")];
      assert Slots(q) == [1] by {
        assert q == [Text(CountText)] + [Text(CountFilterText)] + [Slot(1)] + [Text(")")];
        SlotsAppend([Text(CountText)] + [Text(CountFilterText)] + [Slot(1)], [Text(")")]);
        SlotsAppend([Text(CountText)] + [Text(CountFilterText)], [Slot(1)]);
        SlotsAppend([Text(CountText)], [Text(CountFilterText)]);
        SlotsSingle(Text(CountText));
        SlotsSingle(Text(CountFilterText));
        SlotsSingle(Slot(1));
        SlotsSingle(Text(")"));
      }
      (q, [StrParam(category.value)])
    else
      ([Text(CountText)], [])
  }

  /** `(Number(page) - 1) * Number(limit)`. */
  function Offset(page: int, limit: int): int {
    (page - 1) * limit
  }

  /** The first page starts at row 0 and each further page `limit` rows later. */
  lemma OffsetPages(page: int, limit: int)
    ensures Offset(1, limit) == 0
    ensures Offset(page + 1, limit) == Offset(page, limit) + limit
  {
  }

  /** A number in the JSON body; `Infinity` and `NaN` serialise as `null`. */
  datatype JsNumber = Finite(value: int) | NotFinite

  /** `Math.ceil(count / limit)`. */
  function TotalPages(count: nat, limit: int): (r: JsNumber)
    ensures r.NotFinite? <==> limit == 0
    ensures limit > 0 ==> r.Finite? && (r.value - 1) * limit < count <= r.value * limit
    ensures limit < 0 ==> r.Finite? && r.value * limit <= count < (r.value - 1) * limit
  {
    if limit == 0 then NotFinite
    else if limit > 0 then
      var q := (count + limit - 1) / limit;
      assert count + limit - 1 == q * limit + (count + limit - 1) % limit;
      assert q * limit - limit == (q - 1) * limit;
      Finite(q)
    else
      var q := count / -limit;
      assert count == q * -limit + count % -limit;
      assert -q * limit == q * -limit;
      assert (-q - 1) * limit == q * -limit - limit;
      Finite(-q)
  }

  /** With a positive `limit`, no rows means no pages, and otherwise the pages are the
      fewest that hold all rows. */
  lemma TotalPagesFewest(count: nat, limit: int, pages: int)
    requires limit > 0 && pages * limit >= count
    ensures TotalPages(count, limit).value <= pages
    ensures count == 0 ==> TotalPages(count, limit) == Finite(0)
  {
    var p := TotalPages(count, limit).value;
    MulCancel(p, pages, limit);
    if count == 0 {
      MulCancel(p, 0, limit);
      MulCancel(0, p, limit);
    }
  }

  /** `(a - 1) * c < b * c` with `c > 0` gives `a <= b`. */
  lemma MulCancel(a: int, b: int, c: int)
    requires c > 0 && (a - 1) * c < b * c
    ensures a <= b
  {
    if a - 1 >= b {
      MulMonotone(b, a - 1, c);
      assert false;
    }
  }

  lemma MulMonotone(a: int, b: int, c: int)
    requires a <= b && c > 0
    ensures a * c <= b * c
  {
    assert b * c - a * c == (b - a) * c;
  }

  datatype Pagination = Pagination(total: int, page: int, perPage: int, totalPages: JsNumber)

  /** A row of the categories query: the category and its post count. */
  datatype CategoryRow = CategoryRow(category: Category, postCount: int)

  datatype Body =
    | PostsPage(posts: seq<Post>, pagination: Pagination)
    | OnePost(post: Post)
    | CategoryList(categories: seq<CategoryRow>)
    | ErrorMessage(error: string)

  datatype Response = Response(status: int, body: Body)

  /** What a query gives back: its rows, or an error thrown by the driver. */
  datatype Outcome<T> = Rows(rows: T) | Threw

  /** The request's query string: `page`, `limit` and `category`, as numbers where the
      handler converts them. */
  datatype PostsRequest = PostsRequest(page: Option<int>, limit: Option<int>, category: Option<string>)

  function OrDefault(o: Option<int>, d: int): int {
    if o.Some? then o.value else d
  }

  const PostsError: string := "Error al obtener los posts"
  const PostNotFound: string := "Post no encontrado"
  const PostError: string := "Error al obtener el post"
  const CategoriesError: string := "Error al obtener las categorías"

  /** `getPosts`: the page of posts with the pagination object, or 500 when either
      query throws. */
  method GetPosts(
    req: PostsRequest,
    selectPosts: (Sql, seq<Param>) -> Outcome<seq<Post>>,
    countPosts: (Sql, seq<Param>) -> Outcome<nat>)
    returns (res: Response)
    ensures var page := OrDefault(req.page, 1);
      var limit := OrDefault(req.limit, 10);
      var (q, params) := PostsQuery(req.category, limit, Offset(page, limit));
      var (cq, cparams) := CountQuery(req.category);
      res == if selectPosts(q, params).Threw? || countPosts(cq, cparams).Threw? then
        Response(500, ErrorMessage(PostsError))
      else
        var count := countPosts(cq, cparams).rows;
        Response(200, PostsPage(selectPosts(q, params).rows,
          Pagination(count, page, limit, TotalPages(count, limit))))
  {
    var page := if req.page.Some? then req.page.value else 1;
    var limit := if req.limit.Some? then req.limit.value else 10;
    var offset := (page - 1) * limit;
    var query, params := BuildPostsQuery(req.category, limit, offset);
    var posts := selectPosts(query, params);
    if posts.Threw? {
      return Response(500, ErrorMessage(PostsError));
    }
    var (countSql, countParams) := CountQuery(req.category);
    var count := countPosts(countSql, countParams);
    if count.Threw? {
      return Response(500, ErrorMessage(PostsError));
    }
    res := Response(200, PostsPage(posts.rows, Pagination(count.rows, page, limit, TotalPages(count.rows, limit))));
  }

  const SelectBySlugText: string :=
    "SELECT p.*, c.name as category_name, c.slug as category_slug\n         FROM posts p\n" +
    "         LEFT JOIN categories c ON p.category_id = c.id\n         WHERE p.slug = "
  const PublishedText: string := " AND p.published_at IS NOT NULL"

  /** The single-post query: the slug on `$1`. */
  function SlugQuery(slug: string): (r: (Sql, seq<Param>))
    ensures WellNumbered(r.0, r.1) && r.1 == [StrParam(slug)] && Binds(r.0, r.1, 1, StrParam(slug))
  {
    var q := [Text(SelectBySlugText), Slot(1), Text(PublishedText)];
    assert Slots(q) == [1] by {
      assert q == [Text(SelectBySlugText)] + [Slot(1)] + [Text(PublishedText)];
      SlotsAppend([Text(SelectBySlugText)] + [Slot(1)], [Text(PublishedText)]);
      SlotsAppend([Text(SelectBySlugText)], [Slot(1)]);
      SlotsSingle(Text(SelectBySlugText));
      SlotsSingle(Slot(1));
      SlotsSingle(Text(PublishedText));
    }
    (q, [StrParam(slug)])
  }

  /** `getPostBySlug`: 200 with the first row, 404 when there is no row, 500 when the
      query throws. */
  method GetPostBySlug(slug: string, selectPost: (Sql, seq<Param>) -> Outcome<seq<Post>>) returns (res: Response)
    ensures var outcome := selectPost(SlugQuery(slug).0, SlugQuery(slug).1);
      && (res.status == 500 <==> outcome.Threw?)
      && (res.status == 404 <==> outcome == Rows([]))
      && (res.status == 200 <==> outcome.Rows? && outcome.rows != [])
      && (res.status == 200 ==> res.body == OnePost(outcome.rows[0]))
      && (res.status == 404 ==> res.body == ErrorMessage(PostNotFound))
      && (res.status == 500 ==> res.body == ErrorMessage(PostError))
  {
    var (q, params) := SlugQuery(slug);
    var outcome := selectPost(q, params);
    if outcome.Threw? {
      return Response(500, ErrorMessage(PostError));
    }
    if outcome.rows == [] {
      return Response(404, ErrorMessage(PostNotFound));
    }
    res := Response(200, OnePost(outcome.rows[0]));
  }

  const CategoriesText: string :=
    "SELECT c.*, COUNT(p.id) as post_count\n         FROM categories c\n" +
    "         LEFT JOIN posts p ON c.id = p.category_id\n         GROUP BY c.id\n         ORDER BY c.name"

  /** `getCategories`: 200 with every row, or 500 when the query throws. */
  method GetCategories(selectCategories: (Sql, seq<Param>) -> Outcome<seq<CategoryRow>>) returns (res: Response)
    ensures var outcome := selectCategories([Text(CategoriesText)], []);
      && (res.status == 500 <==> outcome.Threw?)
      && (res.status == 200 <==> outcome.Rows?)
      && (outcome.Rows? ==> res.body == CategoryList(outcome.rows))
      && (outcome.Threw? ==> res.body == ErrorMessage(CategoriesError))
  {
    var outcome := selectCategories([Text(CategoriesText)], []);
    if outcome.Threw? {
      return Response(500, ErrorMessage(CategoriesError));
    }
    res := Response(200, CategoryList(outcome.rows));
  }
}
