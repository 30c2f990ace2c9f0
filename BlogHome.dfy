/** The blog section of the home page: the fetched posts sorted featured first and
    newest first, of which the first three are shown. */
module BlogHome {
  import opened Lists
  import opened Api

  /** The comparator given to `sort`: a negative result puts `a` before `b`. */
  function Compare(a: Post, b: Post): int {
    if IsFeatured(a) && !IsFeatured(b) then -1
    else if !IsFeatured(a) && IsFeatured(b) then 1
    else b.publishedAt - a.publishedAt
  }

  /** The comparator does not put `b` strictly before `a`. */
  predicate Precedes(a: Post, b: Post) {
    Compare(a, b) <= 0
  }

  /** The comparator is consistent: swapping its arguments negates it, and the order it
      induces is total and transitive, so `sort` has a well-defined result. */
  lemma CompareConsistent(a: Post, b: Post, c: Post)
    ensures Compare(a, b) == -Compare(b, a)
    ensures Precedes(a, b) || Precedes(b, a)
    ensures Precedes(a, b) && Precedes(b, c) ==> Precedes(a, c)
  {
  }

  /** Ordered by the comparator. */
  predicate Sorted(s: seq<Post>) {
    forall i, j :: 0 <= i < j < |s| ==> Precedes(s[i], s[j])
  }

  /** Sorted means exactly: featured posts first, and within each group newest first. */
  lemma SortedMeans(s: seq<Post>)
    ensures Sorted(s) <==>
      && (forall i, j :: 0 <= i < j < |s| && IsFeatured(s[j]) ==> IsFeatured(s[i]))
      && (forall i, j :: 0 <= i < j < |s| && IsFeatured(s[i]) == IsFeatured(s[j]) ==>
            s[i].publishedAt >= s[j].publishedAt)
  {
    if Sorted(s) {
      forall i, j | 0 <= i < j < |s| && IsFeatured(s[j])
        ensures IsFeatured(s[i])
      {
        assert Precedes(s[i], s[j]);
      }
      forall i, j | 0 <= i < j < |s| && IsFeatured(s[i]) == IsFeatured(s[j])
        ensures s[i].publishedAt >= s[j].publishedAt
      {
        assert Precedes(s[i], s[j]);
      }
    }
  }

  /** Places `x` before the first element it may precede, so in front of the elements
      equal to it under the comparator. */
  function Insert(x: Post, s: seq<Post>): (r: seq<Post>)
    ensures multiset(r) == multiset(s) + multiset{x}
    ensures forall y :: y in r ==> y == x || y in s
    decreases |s|
  {
    if s == [] then [x]
    else if Precedes(x, s[0]) then [x] + s
    else
      assert s == [s[0]] + s[1..];
      [s[0]] + Insert(x, s[1..])
  }

  /** Inserting into a sorted list keeps it sorted. */
  lemma {:induction false} InsertSorted(x: Post, s: seq<Post>)
    requires Sorted(s)
    ensures Sorted(Insert(x, s))
    decreases |s|
  {
    if s != [] && !Precedes(x, s[0]) {
      var rest := Insert(x, s[1..]);
      InsertSorted(x, s[1..]);
      forall y | y in rest
        ensures Precedes(s[0], y)
      {
        if y == x {
          CompareConsistent(x, s[0], x);
        } else {
          var m :| 0 <= m < |s[1..]| && s[1..][m] == y;
          assert s[1 + m] == y;
        }
      }
      var r := [s[0]] + rest;
      forall i, j | 0 <= i < j < |r|
        ensures Precedes(r[i], r[j])
      {
        assert r[j] == rest[j - 1];
        if i > 0 {
          assert r[i] == rest[i - 1];
        }
      }
    }
  }

  /** `[...allPosts].sort(compare)`: the sort of the copy, as an insertion sort. */
  function SortPosts(s: seq<Post>): (r: seq<Post>)
    ensures multiset(r) == multiset(s)
    decreases |s|
  {
    if s == [] then []
    else
      assert multiset(s) == multiset{s[0]} + multiset(s[1..]) by {
        assert s == [s[0]] + s[1..];
      }
      Insert(s[0], SortPosts(s[1..]))
  }

  /** The sort's result is sorted. */
  lemma {:induction false} SortPostsSorted(s: seq<Post>)
    ensures Sorted(SortPosts(s))
    decreases |s|
  {
    if s != [] {
      SortPostsSorted(s[1..]);
      InsertSorted(s[0], SortPosts(s[1..]));
    }
  }

  /** A list already in order is left as it is. */
  lemma {:induction false} SortPostsKeepsSorted(s: seq<Post>)
    requires Sorted(s)
    ensures SortPosts(s) == s
    decreases |s|
  {
    if s != [] {
      assert Sorted(s[1..]) by {
        forall i, j | 0 <= i < j < |s[1..]|
          ensures Precedes(s[1..][i], s[1..][j])
        {
          assert s[1..][i] == s[i + 1] && s[1..][j] == s[j + 1];
        }
      }
      SortPostsKeepsSorted(s[1..]);
      if |s| > 1 {
        assert Precedes(s[0], s[1]);
      }
      assert s == [s[0]] + s[1..];
    }
  }

  /** How many posts the section shows. */
  const Shown: nat := 3

  /** `sortedPosts.slice(0, 3)`. */
  function Latest(all: seq<Post>): seq<Post> {
    Take(SortPosts(all), Shown)
  }

  /** The section shows at most three of the fetched posts, as many as there are up
      to three, in sorted order, and no post left out would have been sorted before a
      post shown. */
  lemma LatestSpec(all: seq<Post>)
    ensures |Latest(all)| == Min(Shown, |all|)
    ensures Sorted(Latest(all))
    ensures multiset(Latest(all)) <= multiset(all)
    ensures forall x, y :: x in Latest(all) && y in multiset(all) - multiset(Latest(all)) ==> Precedes(x, y)
  {
    var sorted := SortPosts(all);
    var r := Latest(all);
    var rest := sorted[|r|..];
    SortPostsSorted(all);
    assert sorted == r + rest;
    assert multiset(all) - multiset(r) == multiset(rest);
    SortedSplit(sorted, |r|);
  }

  /** In a sorted list every element of a prefix may precede every element after it. */
  lemma SortedSplit(s: seq<Post>, k: int)
    requires Sorted(s) && 0 <= k <= |s|
    ensures forall x, y :: x in s[..k] && y in s[k..] ==> Precedes(x, y)
  {
    forall x, y | x in s[..k] && y in s[k..]
      ensures Precedes(x, y)
    {
      var i :| 0 <= i < k && s[..k][i] == x;
      var j :| 0 <= j < |s| - k && s[k..][j] == y;
      assert s[i] == x && s[k + j] == y;
    }
  }

  /** The outcome of `getAllPosts()`. */
  datatype Fetch = Fetched(posts: seq<Post>) | FetchFailed

  /** The blog section's state. */
  class BlogSection {
    var posts: seq<Post>
    var loading: bool

    /** Nothing shown and loading on first render. */
    constructor ()
      ensures posts == [] && loading
    {
      posts := [];
      loading := true;
    }

    /** `fetchPosts`: on success the first three sorted posts, on failure none; in
        both cases loading ends. */
    method FetchPosts(response: Fetch)
      modifies this
      ensures !loading
      ensures posts == match response
        case Fetched(all) => Latest(all)
        case FetchFailed => []
    {
      loading := true;
      match response {
        case Fetched(all) =>
          posts := Latest(all);
        case FetchFailed =>
          posts := [];
      }
      loading := false;
    }
  }
}
