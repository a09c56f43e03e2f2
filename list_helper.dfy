/** Statistics over a list of blogs: the sum of likes, the favourite blog, and the author who
    leads by number of blogs or by likes. */
module ListHelper {
  import opened Records

  /** A constant placeholder: 1 whatever the list. */
  function Dummy(blogs: seq<Blog>): (r: int)
    ensures r == 1
  {
    1
  }

  function Init<T>(s: seq<T>): seq<T>
    requires s != []
  {
    s[..|s| - 1]
  }

  function Last<T>(s: seq<T>): T
    requires s != []
  {
    s[|s| - 1]
  }

  // ---------------------------------------------------------------------------
  // Total likes

  /** The likes summed from the front, starting at 0, as the source's reduction does. */
  function TotalLikes(blogs: seq<Blog>): int
  {
    if blogs == [] then 0 else TotalLikes(Init(blogs)) + Last(blogs).likes
  }

  /** The sum distributes over concatenation; with TotalLikes([]) == 0 this makes it a monoid map. */
  lemma {:induction false} TotalLikesAppend(xs: seq<Blog>, ys: seq<Blog>)
    ensures TotalLikes(xs + ys) == TotalLikes(xs) + TotalLikes(ys)
  {
    if ys == [] {
      assert xs + ys == xs;
    } else {
      assert Init(xs + ys) == xs + Init(ys);
      assert Last(xs + ys) == Last(ys);
      TotalLikesAppend(xs, Init(ys));
    }
  }

  /** With non-negative likes the total is at least the likes of every single blog. */
  lemma {:induction false} TotalLikesBoundsEach(blogs: seq<Blog>)
    requires forall i :: 0 <= i < |blogs| ==> blogs[i].likes >= 0
    ensures TotalLikes(blogs) >= 0
    ensures forall i :: 0 <= i < |blogs| ==> blogs[i].likes <= TotalLikes(blogs)
  {
    if blogs != [] {
      TotalLikesBoundsEach(Init(blogs));
    }
  }

  // ---------------------------------------------------------------------------
  // Favourite blog

  /** One step of the reduction: the running favourite survives only if strictly better. */
  function Favorite(best: Blog, blog: Blog): Blog
  {
    if best.likes > blog.likes then best else blog
  }

  function FoldFavorite(start: Blog, blogs: seq<Blog>): Blog
  {
    if blogs == [] then start else Favorite(FoldFavorite(start, Init(blogs)), Last(blogs))
  }

  /** The reduction seeded with the first blog; on the empty list the seed does not exist (None). */
  function FavoriteBlog(blogs: seq<Blog>): Option<Blog>
  {
    if blogs == [] then None else Some(FoldFavorite(blogs[0], blogs))
  }

  /** The fold ends on the seed or on some blog; it is a maximum, and every blog after the one it
      ends on has strictly fewer likes. */
  lemma {:induction false} FoldFavoriteWitness(start: Blog, blogs: seq<Blog>) returns (k: int)
    ensures -1 <= k < |blogs|
    ensures FoldFavorite(start, blogs) == if k < 0 then start else blogs[k]
    ensures start.likes <= FoldFavorite(start, blogs).likes
    ensures forall j :: 0 <= j < |blogs| ==> blogs[j].likes <= FoldFavorite(start, blogs).likes
    ensures forall j :: k < j < |blogs| ==> blogs[j].likes < FoldFavorite(start, blogs).likes
  {
    if blogs == [] {
      k := -1;
    } else {
      var k0 := FoldFavoriteWitness(start, Init(blogs));
      if FoldFavorite(start, Init(blogs)).likes > Last(blogs).likes {
        k := k0;
      } else {
        k := |blogs| - 1;
      }
    }
  }

  /** On a non-empty list the favourite is the LAST blog with the most likes; on the empty list
      there is none. */
  lemma FavoriteBlogIsLastMaximum(blogs: seq<Blog>)
    ensures FavoriteBlog(blogs).None? <==> blogs == []
    ensures blogs != [] ==>
      exists k :: 0 <= k < |blogs| && FavoriteBlog(blogs) == Some(blogs[k])
        && (forall j :: 0 <= j < |blogs| ==> blogs[j].likes <= blogs[k].likes)
        && (forall j :: k < j < |blogs| ==> blogs[j].likes < blogs[k].likes)
  {
    if blogs != [] {
      var k := FoldFavoriteWitness(blogs[0], blogs);
      if k < 0 {
        assert false;
      }
      assert 0 <= k < |blogs| && FavoriteBlog(blogs) == Some(blogs[k]);
    }
  }

  // ---------------------------------------------------------------------------
  // Per-author tallies

  /** What a tally adds per blog: one (most blogs) or its likes (most likes). */
  datatype Measure = BlogCount | LikeSum

  function Weight(m: Measure, b: Blog): int
  {
    match m
    case BlogCount => 1
    case LikeSum => b.likes
  }

  /** The property name a blog is tallied under: its author, or "undefined" when it has none. */
  function AuthorKey(b: Blog): string
  {
    if b.author.Some? then b.author.value else "undefined"
  }

  /** The tally of one author over the list: 0 for a name that authored nothing. */
  function AuthorTotal(blogs: seq<Blog>, m: Measure, a: string): int
  {
    if blogs == [] then 0
    else AuthorTotal(Init(blogs), m, a) + (if AuthorKey(Last(blogs)) == a then Weight(m, Last(blogs)) else 0)
  }

  /** The distinct authors in order of first appearance, which is the order in which the tally's
      entries are enumerated. */
  function Authors(blogs: seq<Blog>): seq<string>
  {
    if blogs == [] then []
    else
      var keys := Authors(Init(blogs));
      if AuthorKey(Last(blogs)) in keys then keys else keys + [AuthorKey(Last(blogs))]
  }

  /** The total of the measure over the whole list: the number of blogs, or all their likes. */
  function MeasureTotal(blogs: seq<Blog>, m: Measure): int
  {
    match m
    case BlogCount => |blogs|
    case LikeSum => TotalLikes(blogs)
  }

  function SumTotals(blogs: seq<Blog>, m: Measure, keys: seq<string>): int
  {
    if keys == [] then 0 else SumTotals(blogs, m, Init(keys)) + AuthorTotal(blogs, m, Last(keys))
  }

  ghost predicate Distinct(keys: seq<string>)
  {
    forall i, j :: 0 <= i < j < |keys| ==> keys[i] != keys[j]
  }

  lemma {:induction false} AuthorsDistinct(blogs: seq<Blog>)
    ensures Distinct(Authors(blogs))
  {
    if blogs != [] {
      AuthorsDistinct(Init(blogs));
    }
  }

  /** A name is among the tally's keys exactly when some blog is tallied under it. */
  lemma {:induction false} AuthorsAreKeys(blogs: seq<Blog>)
    ensures forall a :: a in Authors(blogs) <==> exists k :: 0 <= k < |blogs| && AuthorKey(blogs[k]) == a
  {
    if blogs != [] {
      AuthorsAreKeys(Init(blogs));
      forall a | a in Authors(blogs)
        ensures exists k :: 0 <= k < |blogs| && AuthorKey(blogs[k]) == a
      {
        if a in Authors(Init(blogs)) {
          var k :| 0 <= k < |Init(blogs)| && AuthorKey(Init(blogs)[k]) == a;
          assert AuthorKey(blogs[k]) == a;
        } else {
          assert AuthorKey(blogs[|blogs| - 1]) == a;
        }
      }
      forall a | exists k :: 0 <= k < |blogs| && AuthorKey(blogs[k]) == a
        ensures a in Authors(blogs)
      {
        var k :| 0 <= k < |blogs| && AuthorKey(blogs[k]) == a;
        if k < |blogs| - 1 {
          assert AuthorKey(Init(blogs)[k]) == a;
        }
      }
    }
  }

  lemma {:induction false} AbsentAuthorTotal(blogs: seq<Blog>, m: Measure, a: string)
    requires a !in Authors(blogs)
    ensures AuthorTotal(blogs, m, a) == 0
  {
    if blogs != [] {
      AbsentAuthorTotal(Init(blogs), m, a);
    }
  }

  /** Every author of the list has written at least one blog. */
  lemma {:induction false} PresentAuthorCount(blogs: seq<Blog>, a: string)
    requires a in Authors(blogs)
    ensures AuthorTotal(blogs, BlogCount, a) >= 1
  {
    if a in Authors(Init(blogs)) {
      PresentAuthorCount(Init(blogs), a);
    } else {
      AbsentAuthorTotal(Init(blogs), BlogCount, a);
    }
  }

  /** With non-negative likes, every name's like total is non-negative. */
  lemma {:induction false} LikeTotalNonNegative(blogs: seq<Blog>, a: string)
    requires forall i :: 0 <= i < |blogs| ==> blogs[i].likes >= 0
    ensures AuthorTotal(blogs, LikeSum, a) >= 0
  {
    if blogs != [] {
      LikeTotalNonNegative(Init(blogs), a);
    }
  }

  /** Appending a blog to the list raises the sum over distinct keys by its weight exactly when
      its author is among the keys. */
  lemma {:induction false} SumTotalsShift(init: seq<Blog>, b: Blog, m: Measure, keys: seq<string>)
    requires Distinct(keys)
    ensures SumTotals(init + [b], m, keys)
         == SumTotals(init, m, keys) + (if AuthorKey(b) in keys then Weight(m, b) else 0)
  {
    if keys != [] {
      assert Distinct(Init(keys));
      SumTotalsShift(init, b, m, Init(keys));
      assert Init(init + [b]) == init;
      assert keys == Init(keys) + [Last(keys)];
      assert AuthorKey(b) in keys <==> AuthorKey(b) in Init(keys) || AuthorKey(b) == Last(keys);
    }
  }

  /** The per-author tallies add up to the whole list's measure: the counts sum to the number of
      blogs, and the like totals sum to the total likes. */
  lemma {:induction false} TalliesSumToTotal(blogs: seq<Blog>, m: Measure)
    ensures SumTotals(blogs, m, Authors(blogs)) == MeasureTotal(blogs, m)
  {
    if blogs != [] {
      var init, b := Init(blogs), Last(blogs);
      assert blogs == init + [b];
      TalliesSumToTotal(init, m);
      AuthorsDistinct(init);
      SumTotalsShift(init, b, m, Authors(init));
      if AuthorKey(b) !in Authors(init) {
        AbsentAuthorTotal(init, m, AuthorKey(b));
        assert Init(Authors(blogs)) == Authors(init);
      }
    }
  }

  /** Builds the tally entry by entry, in one pass, adding each blog's weight to its author's
      entry and creating the entry at first sight. */
  method Tally(blogs: seq<Blog>, m: Measure) returns (keys: seq<string>, totals: map<string, int>)
    ensures keys == Authors(blogs)
    ensures forall a :: a in totals <==> a in keys
    ensures forall a :: a in totals ==> totals[a] == AuthorTotal(blogs, m, a)
  {
    keys, totals := [], map[];
    var i := 0;
    while i < |blogs|
      invariant 0 <= i <= |blogs|
      invariant keys == Authors(blogs[..i])
      invariant forall a :: a in totals <==> a in keys
      invariant forall a :: a in totals ==> totals[a] == AuthorTotal(blogs[..i], m, a)
    {
      var a := AuthorKey(blogs[i]);
      assert Init(blogs[..i + 1]) == blogs[..i];
      assert Last(blogs[..i + 1]) == blogs[i];
      var previous := 0;
      if a in totals {
        previous := totals[a];
      } else {
        AbsentAuthorTotal(blogs[..i], m, a);
        keys := keys + [a];
      }
      totals := totals[a := previous + Weight(m, blogs[i])];
      i := i + 1;
    }
    assert blogs[..i] == blogs;
  }

  /** The maximum over the entries as the source computes it: seeded with ("", 0), an entry
      replaces the running best unless the best is strictly greater, so ties go to the later entry. */
  method MaxEntry(keys: seq<string>, totals: map<string, int>) returns (best: string, value: int)
    requires forall a :: a in keys ==> a in totals
    ensures value >= 0
    ensures forall j :: 0 <= j < |keys| ==> totals[keys[j]] <= value
    ensures || ((best, value) == ("", 0) && forall j :: 0 <= j < |keys| ==> totals[keys[j]] < 0)
            || (exists k :: 0 <= k < |keys| && keys[k] == best && totals[best] == value
                             && forall j :: k < j < |keys| ==> totals[keys[j]] < value)
  {
    best, value := "", 0;
    for i := 0 to |keys|
      invariant value >= 0
      invariant forall j :: 0 <= j < i ==> totals[keys[j]] <= value
      invariant || ((best, value) == ("", 0) && forall j :: 0 <= j < i ==> totals[keys[j]] < 0)
                || (exists k :: 0 <= k < i && keys[k] == best && totals[best] == value
                                 && forall j :: k < j < i ==> totals[keys[j]] < value)
    {
      if !(value > totals[keys[i]]) {
        best, value := keys[i], totals[keys[i]];
      }
    }
  }

  /** The result of the source's maximum over the tally of `m`: the seed ("", 0) when every
      author's total is negative, otherwise the last author (in first-appearance order) whose total
      is the greatest, and never below 0. */
  ghost predicate Leads(blogs: seq<Blog>, m: Measure, author: string, total: int)
  {
    var keys := Authors(blogs);
    && total >= 0
    && (forall j :: 0 <= j < |keys| ==> AuthorTotal(blogs, m, keys[j]) <= total)
    && (|| ((author, total) == ("", 0) && forall j :: 0 <= j < |keys| ==> AuthorTotal(blogs, m, keys[j]) < 0)
        || (exists k :: 0 <= k < |keys| && keys[k] == author && AuthorTotal(blogs, m, author) == total
                         && forall j :: k < j < |keys| ==> AuthorTotal(blogs, m, keys[j]) < total))
  }

  /** Tally, then take the maximum entry. */
  method Leader(blogs: seq<Blog>, m: Measure) returns (author: string, total: int)
    ensures Leads(blogs, m, author, total)
  {
    var keys, totals := Tally(blogs, m);
    author, total := MaxEntry(keys, totals);
    assert forall j :: 0 <= j < |keys| ==> totals[keys[j]] == AuthorTotal(blogs, m, keys[j]);
  }

  /** If the leader is not the seed then it is one of the list's authors, its total is that
      author's own, and no name at all has a greater total. */
  lemma LeaderIsAuthor(blogs: seq<Blog>, m: Measure, author: string, total: int)
    requires Leads(blogs, m, author, total)
    requires exists j :: 0 <= j < |Authors(blogs)| && AuthorTotal(blogs, m, Authors(blogs)[j]) >= 0
    ensures exists k :: 0 <= k < |blogs| && AuthorKey(blogs[k]) == author
    ensures total == AuthorTotal(blogs, m, author)
    ensures forall a :: AuthorTotal(blogs, m, a) <= total
  {
    var keys := Authors(blogs);
    var j0 :| 0 <= j0 < |keys| && AuthorTotal(blogs, m, keys[j0]) >= 0;
    var k :| 0 <= k < |keys| && keys[k] == author && AuthorTotal(blogs, m, author) == total;
    assert author in keys;
    AuthorsAreKeys(blogs);
    forall a
      ensures AuthorTotal(blogs, m, a) <= total
    {
      if a !in Authors(blogs) {
        AbsentAuthorTotal(blogs, m, a);
      }
    }
  }

  /** The author with the most blogs and their count, ("", 0) for the empty list. */
  method MostBlogs(blogs: seq<Blog>) returns (author: string, count: int)
    ensures Leads(blogs, BlogCount, author, count)
    ensures blogs == [] ==> author == "" && count == 0
    ensures blogs != [] ==> exists k :: 0 <= k < |blogs| && AuthorKey(blogs[k]) == author
    ensures count == AuthorTotal(blogs, BlogCount, author)
    ensures forall a :: AuthorTotal(blogs, BlogCount, a) <= count
  {
    author, count := Leader(blogs, BlogCount);
    if blogs == [] {
      assert Authors(blogs) == [];
    } else {
      var keys := Authors(blogs);
      assert keys != [];
      PresentAuthorCount(blogs, keys[0]);
      LeaderIsAuthor(blogs, BlogCount, author, count);
    }
  }

  /** The author with the most likes and their total, ("", 0) for the empty list. With
      non-negative likes the answer is a real author whose total no name exceeds. */
  method MostLikes(blogs: seq<Blog>) returns (author: string, total: int)
    ensures Leads(blogs, LikeSum, author, total)
    ensures blogs == [] ==> author == "" && total == 0
    ensures blogs != [] && (forall i :: 0 <= i < |blogs| ==> blogs[i].likes >= 0) ==>
      && (exists k :: 0 <= k < |blogs| && AuthorKey(blogs[k]) == author)
      && total == AuthorTotal(blogs, LikeSum, author)
      && (forall a :: AuthorTotal(blogs, LikeSum, a) <= total)
  {
    author, total := Leader(blogs, LikeSum);
    if blogs == [] {
      assert Authors(blogs) == [];
    } else if forall i :: 0 <= i < |blogs| ==> blogs[i].likes >= 0 {
      var keys := Authors(blogs);
      assert keys != [];
      LikeTotalNonNegative(blogs, keys[0]);
      LeaderIsAuthor(blogs, LikeSum, author, total);
    }
  }
}
