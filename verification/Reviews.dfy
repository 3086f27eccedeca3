/** The review list endpoint (api/reviews/list.ts): keyset pages over a collection that changes between them. */
module Reviews {
  import opened Options

  const MAX_PAGE_SIZE := 50
  const DEFAULT_PAGE_SIZE := 20
  const CURRENT_SCHEMA_VERSION := 2

  datatype Status = Published | Flagged | Hidden | Deleted

  // The sort key: creation time, then document id.
  datatype Key = Key(createdAt: int, id: nat)
  datatype Review = Review(key: Key, promptId: string, status: Status, rating: int, schemaVersion: int)
  type Collection = seq<Review>

  predicate Newer(a: Key, b: Key) {
    a.createdAt > b.createdAt || (a.createdAt == b.createdAt && a.id > b.id)
  }

  // A cursor is the key of the last review of a page.
  predicate Below(cursor: Option<Key>, k: Key) {
    cursor.Some? ==> Newer(cursor.value, k)
  }

  predicate IsVisible(r: Review, promptId: string) {
    r.promptId == promptId && !r.status.Hidden? && !r.status.Deleted?
  }

  function Insert(r: Review, sorted: seq<Review>): seq<Review> {
    if sorted == [] || Newer(r.key, sorted[0].key) then [r] + sorted else [sorted[0]] + Insert(r, sorted[1..])
  }

  // The visible reviews of a prompt, newest first.
  function SortedVisible(c: Collection, promptId: string): seq<Review> {
    if c == [] then []
    else
      var rest := SortedVisible(c[1..], promptId);
      if IsVisible(c[0], promptId) then Insert(c[0], rest) else rest
  }

  function After(reviews: seq<Review>, cursor: Option<Key>): seq<Review> {
    if reviews == [] then []
    else
      var rest := After(reviews[1..], cursor);
      if Below(cursor, reviews[0].key) then [reviews[0]] + rest else rest
  }

  // The database's limit: zero is no limit, and a negative number limits like its absolute value.
  function Limited(reviews: seq<Review>, limit: int): seq<Review> {
    var n := if limit < 0 then -limit else limit;
    if n == 0 || n >= |reviews| then reviews else reviews[..n]
  }

  function PageLimit(requested: Option<int>): int {
    var limit := if requested.None? || requested.value == 0 then DEFAULT_PAGE_SIZE else requested.value;
    if limit < MAX_PAGE_SIZE then limit else MAX_PAGE_SIZE
  }

  datatype Response =
    | Page(reviews: seq<Review>, nextCursor: Option<Key>)
    | UnsupportedSchema
    | BadRequest
    | ServerError

  predicate Supported(reviews: seq<Review>) {
    forall r :: r in reviews ==> r.schemaVersion <= CURRENT_SCHEMA_VERSION
  }

  // The page cut from the reviews below the cursor: one more than the limit is fetched, as a sentinel, and dropped.
  // hasNextPage is nextCursor.Some?. Taking the last element of an empty page is a server error.
  function PageOf(all: seq<Review>, limit: int): Response {
    var docs := Limited(all, limit + 1);
    if |docs| <= limit then
      if Supported(docs) then Page(docs, None) else UnsupportedSchema
    else if |docs| <= 1 then
      ServerError
    else
      var page := docs[..|docs| - 1];
      if Supported(page) then Page(page, Some(page[|page| - 1].key)) else UnsupportedSchema
  }

  function List(c: Collection, promptId: string, requested: Option<int>, cursor: Option<Key>,
                includeAll: bool): Response {
    if promptId == "" then
      BadRequest
    else
      var sorted := SortedVisible(c, promptId);
      if includeAll then
        if Supported(sorted) then Page(sorted, None) else UnsupportedSchema
      else
        PageOf(After(sorted, cursor), PageLimit(requested))
  }

  // The answer that keeps the first n of the reviews below the cursor: all of them, or n and a next cursor. A review
  // of a newer schema among those kept is an error.
  ghost predicate FirstOf(below: seq<Review>, n: nat, response: Response)
    requires n > 0
  {
    var kept := if |below| <= n then below else below[..n];
    if exists r :: r in kept && r.schemaVersion > 2 then response == UnsupportedSchema
    else response == Page(kept, if |below| <= n then None else Some(below[n - 1].key))
  }

  // The length of a page: 20 where no limit is asked for, or zero, and otherwise what is asked for up to 50.
  ghost predicate OfLength(below: seq<Review>, requested: Option<int>, response: Response) {
    && (requested.None? ==> FirstOf(below, 20, response))
    && (requested.Some? && requested.value == 0 ==> FirstOf(below, 20, response))
    && (requested.Some? && 0 < requested.value <= 50 ==> FirstOf(below, requested.value, response))
    && (requested.Some? && requested.value > 50 ==> FirstOf(below, 50, response))
  }

  lemma PageOfFirst(all: seq<Review>, n: nat)
    requires n > 0
    ensures FirstOf(all, n, PageOf(all, n))
  {
    if |all| > n {
      assert all[..n + 1][..n] == all[..n];
    }
  }

  lemma PageLength(c: Collection, promptId: string, requested: Option<int>, cursor: Option<Key>)
    requires promptId != ""
    ensures OfLength(After(SortedVisible(c, promptId), cursor), requested,
                     List(c, promptId, requested, cursor, false))
  {
    var below := After(SortedVisible(c, promptId), cursor);
    if requested.None? || requested.value >= 0 {
      PageOfFirst(below, PageLimit(requested));
    }
  }

  // ---------- the handler ----------

  datatype Stats = Stats(total: nat, sum: int, distribution: map<int, nat>)

  const EMPTY_DISTRIBUTION: map<int, nat> := map[1 := 0, 2 := 0, 3 := 0, 4 := 0, 5 := 0]

  function CountOf(reviews: seq<Review>, rating: int): nat {
    if reviews == [] then 0
    else CountOf(reviews[..|reviews| - 1], rating) + if reviews[|reviews| - 1].rating == rating then 1 else 0
  }

  function SumOf(reviews: seq<Review>): int {
    if reviews == [] then 0 else SumOf(reviews[..|reviews| - 1]) + reviews[|reviews| - 1].rating
  }

  // How often a rating occurs.
  lemma {:induction false} CountMeaning(reviews: seq<Review>, rating: int)
    ensures CountOf(reviews, rating) == |set k | 0 <= k < |reviews| && reviews[k].rating == rating|
  {
    var places := set k | 0 <= k < |reviews| && reviews[k].rating == rating;
    if reviews != [] {
      var n := |reviews| - 1;
      CountMeaning(reviews[..n], rating);
      var before := set k | 0 <= k < |reviews[..n]| && reviews[..n][k].rating == rating;
      var last: set<int> := if reviews[n].rating == rating then {n} else {};
      assert places == before + last;
    }
  }

  // The sum of one rating is that rating, and the sum of two parts is the sum of their sums.
  lemma {:induction false} SumMeaning(xs: seq<Review>, ys: seq<Review>, r: Review)
    ensures SumOf(xs + ys) == SumOf(xs) + SumOf(ys) && SumOf([]) == 0 && SumOf([r]) == r.rating
  {
    assert [r][..0] == [];
    if ys == [] {
      assert xs + ys == xs;
    } else {
      assert (xs + ys)[..|xs + ys| - 1] == xs + ys[..|ys| - 1];
      SumMeaning(xs, ys[..|ys| - 1], r);
    }
  }

  // The page's size and rating sum, and for every rating seen, and every rating from 1 to 5, its frequency.
  ghost predicate IsStatsOf(stats: Stats, reviews: seq<Review>) {
    && stats.total == |reviews| && stats.sum == SumOf(reviews)
    && EMPTY_DISTRIBUTION.Keys <= stats.distribution.Keys
    && forall rating :: if rating in stats.distribution then stats.distribution[rating] == CountOf(reviews, rating)
                                                        else CountOf(reviews, rating) == 0
  }

  lemma StatsNext(stats: Stats, reviews: seq<Review>, review: Review)
    requires IsStatsOf(stats, reviews)
    ensures var count := if review.rating in stats.distribution then stats.distribution[review.rating] else 0;
            IsStatsOf(Stats(stats.total + 1, stats.sum + review.rating, stats.distribution[review.rating := count + 1]),
                      reviews + [review])
  {
    assert (reviews + [review])[..|reviews|] == reviews;
  }

  // The formatting loop: None when a review was written by a newer build.
  method Format(reviews: seq<Review>) returns (stats: Option<Stats>)
    ensures stats.Some? <==> Supported(reviews)
    ensures stats.Some? ==> IsStatsOf(stats.value, reviews)
  {
    var current := Stats(0, 0, EMPTY_DISTRIBUTION);
    for i := 0 to |reviews|
      invariant Supported(reviews[..i]) && IsStatsOf(current, reviews[..i])
    {
      var review := reviews[i];
      if review.schemaVersion > CURRENT_SCHEMA_VERSION {
        return None;
      }
      assert reviews[..i + 1] == reviews[..i] + [review];
      StatsNext(current, reviews[..i], review);
      var count := if review.rating in current.distribution then current.distribution[review.rating] else 0;
      current := Stats(current.total + 1, current.sum + review.rating,
                       current.distribution[review.rating := count + 1]);
    }
    assert reviews[..|reviews|] == reviews;
    stats := Some(current);
  }

  method Handle(c: Collection, promptId: string, requested: Option<int>, cursor: Option<Key>, includeAll: bool)
    returns (response: Response, stats: Option<Stats>)
    ensures response == List(c, promptId, requested, cursor, includeAll)
    ensures promptId == "" ==> response == BadRequest
    ensures promptId != "" && includeAll ==>
              if exists r :: r in SortedVisible(c, promptId) && r.schemaVersion > 2 then response == UnsupportedSchema
              else response == Page(SortedVisible(c, promptId), None)
    ensures promptId != "" && !includeAll ==> OfLength(After(SortedVisible(c, promptId), cursor), requested, response)
    ensures response.Page? ==> stats.Some? && IsStatsOf(stats.value, response.reviews)
  {
    if promptId == "" {
      return BadRequest, None;
    }
    PageLength(c, promptId, requested, cursor);
    var limit := PageLimit(requested);
    var reviews := SortedVisible(c, promptId);
    var nextCursor := None;
    if !includeAll {
      reviews := Limited(After(reviews, cursor), limit + 1);
      if |reviews| > limit {
        if |reviews| <= 1 {
          return ServerError, None;
        }
        reviews := reviews[..|reviews| - 1];
        nextCursor := Some(reviews[|reviews| - 1].key);
      }
    }
    stats := Format(reviews);
    response := if stats.Some? then Page(reviews, nextCursor) else UnsupportedSchema;
  }
}
