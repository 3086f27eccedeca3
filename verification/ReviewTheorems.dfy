/** Following review cursors to the end, while reviews come and go. */
module ReviewTheorems {
  import opened Options
  import opened Reviews

  // Document ids are unique, so keys are.
  ghost predicate Unique(c: Collection) {
    forall i, j :: 0 <= i < j < |c| ==> c[i].key != c[j].key
  }

  ghost predicate Descending(reviews: seq<Review>) {
    forall i, j :: 0 <= i < j < |reviews| ==> Newer(reviews[i].key, reviews[j].key)
  }

  lemma HeadIsNewest(sorted: seq<Review>)
    requires Descending(sorted) && sorted != []
    ensures Descending(sorted[1..]) && forall x :: x in sorted[1..] ==> Newer(sorted[0].key, x.key)
  {
    forall x | x in sorted[1..]
      ensures Newer(sorted[0].key, x.key)
    {
      var i :| 0 <= i < |sorted[1..]| && sorted[1..][i] == x;
      assert sorted[i + 1] == x;
    }
  }

  lemma NewestFirst(r: Review, sorted: seq<Review>)
    requires Descending(sorted) && forall x :: x in sorted ==> Newer(r.key, x.key)
    ensures Descending([r] + sorted)
  {
  }

  lemma {:induction false} InsertSorts(r: Review, sorted: seq<Review>)
    requires Descending(sorted) && forall x :: x in sorted ==> x.key != r.key
    ensures Descending(Insert(r, sorted))
    ensures forall x :: x in Insert(r, sorted) <==> x == r || x in sorted
  {
    if sorted == [] {
    } else {
      HeadIsNewest(sorted);
      assert sorted == [sorted[0]] + sorted[1..];
      if Newer(r.key, sorted[0].key) {
        NewestFirst(r, sorted);
      } else {
        InsertSorts(r, sorted[1..]);
        NewestFirst(sorted[0], Insert(r, sorted[1..]));
      }
    }
  }

  lemma {:induction false} VisibleIsSorted(c: Collection, promptId: string)
    requires Unique(c)
    ensures Descending(SortedVisible(c, promptId))
    ensures forall r :: r in SortedVisible(c, promptId) <==>
                        r in c && r.promptId == promptId && (r.status == Published || r.status == Flagged)
  {
    if c != [] {
      VisibleIsSorted(c[1..], promptId);
      assert c == [c[0]] + c[1..];
      if IsVisible(c[0], promptId) {
        forall x | x in SortedVisible(c[1..], promptId)
          ensures x.key != c[0].key
        {
          var i :| 0 <= i < |c[1..]| && c[1..][i] == x;
          assert c[i + 1] == x;
        }
        InsertSorts(c[0], SortedVisible(c[1..], promptId));
      }
    }
  }

  lemma {:induction false} AfterKeepsOrder(reviews: seq<Review>, cursor: Option<Key>)
    requires Descending(reviews)
    ensures Descending(After(reviews, cursor))
    ensures forall r :: r in After(reviews, cursor) <==> r in reviews && Below(cursor, r.key)
  {
    if reviews != [] {
      HeadIsNewest(reviews);
      AfterKeepsOrder(reviews[1..], cursor);
      assert reviews == [reviews[0]] + reviews[1..];
      NewestFirst(reviews[0], After(reviews[1..], cursor));
    }
  }

  // ---------- one page ----------

  ghost predicate Earlier(a: Key, b: Key) {
    a.createdAt < b.createdAt || (a.createdAt == b.createdAt && a.id < b.id)
  }

  // What may be on a page: the prompt's reviews, published or flagged, that are earlier than the cursor.
  ghost function Candidates(c: Collection, promptId: string, cursor: Option<Key>): set<Review> {
    set r | r in c && r.promptId == promptId && (r.status == Published || r.status == Flagged)
            && (cursor.None? || Earlier(r.key, cursor.value))
  }

  lemma {:induction false} NoRepeats(reviews: seq<Review>)
    requires Descending(reviews)
    ensures |set r | r in reviews| == |reviews|
  {
    if reviews != [] {
      HeadIsNewest(reviews);
      NoRepeats(reviews[1..]);
      assert reviews == [reviews[0]] + reviews[1..];
      assert (set r | r in reviews) == {reviews[0]} + set r | r in reviews[1..];
    }
  }

  // A page of n: the n latest candidates, latest first, or all of them if they are no more than n, and a next cursor,
  // the key of the earliest review kept, exactly when they are more.
  ghost predicate LatestOf(candidates: set<Review>, n: nat, reviews: seq<Review>, next: Option<Key>) {
    && |reviews| == (if |candidates| <= n then |candidates| else n)
    && (forall i, j :: 0 <= i < j < |reviews| ==> Earlier(reviews[j].key, reviews[i].key))
    && (forall r :: r in reviews ==> r in candidates)
    && (forall r, x :: r in reviews && x in candidates && x !in reviews ==> Earlier(x.key, r.key))
    && (next.Some? <==> |candidates| > n)
    && (next.Some? ==> reviews != [] && next.value == reviews[|reviews| - 1].key)
  }

  // What is on a page, in terms of the collection: of the candidates the 20 latest where no limit is asked for, or
  // zero, and otherwise as many as are asked for, up to 50. It is an error only if one of a newer schema is kept.
  lemma PageMeaning(c: Collection, promptId: string, requested: Option<int>, cursor: Option<Key>, n: nat)
    requires Unique(c) && promptId != ""
    requires match requested
             case None => n == 20
             case Some(0) => n == 20
             case Some(limit) => limit > 0 && n == if limit <= 50 then limit else 50
    ensures var p := List(c, promptId, requested, cursor, false);
            && (p.Page? ==> LatestOf(Candidates(c, promptId, cursor), n, p.reviews, p.nextCursor))
            && (p.Page? ==> forall r :: r in p.reviews ==> r.schemaVersion <= 2)
            && (!p.Page? ==> p == UnsupportedSchema)
            && (!p.Page? ==> exists r :: r in Candidates(c, promptId, cursor) && r.schemaVersion > 2)
  {
    var below := After(SortedVisible(c, promptId), cursor);
    BelowAreCandidates(c, promptId, cursor);
    PageLength(c, promptId, requested, cursor);
    FirstAreLatest(below, n, List(c, promptId, requested, cursor, false));
  }

  lemma BelowAreCandidates(c: Collection, promptId: string, cursor: Option<Key>)
    requires Unique(c)
    ensures var below := After(SortedVisible(c, promptId), cursor);
            Descending(below) && (set r | r in below) == Candidates(c, promptId, cursor)
  {
    VisibleIsSorted(c, promptId);
    AfterKeepsOrder(SortedVisible(c, promptId), cursor);
  }

  lemma FirstAreLatest(below: seq<Review>, n: nat, p: Response)
    requires Descending(below) && n > 0 && FirstOf(below, n, p)
    ensures p.Page? ==> LatestOf((set r | r in below), n, p.reviews, p.nextCursor)
    ensures p.Page? ==> forall r :: r in p.reviews ==> r.schemaVersion <= 2
    ensures !p.Page? ==> p == UnsupportedSchema && exists r :: r in below && r.schemaVersion > 2
  {
    NoRepeats(below);
    KeptAreLatest(below, n);
  }

  lemma KeptAreLatest(below: seq<Review>, n: nat)
    requires Descending(below) && n > 0
    ensures var kept := if |below| <= n then below else below[..n];
            forall r, x :: r in kept && x in below && x !in kept ==> Earlier(x.key, r.key)
  {
    var kept := if |below| <= n then below else below[..n];
    assert below == kept + below[|kept|..];
    forall r, x | r in kept && x in below[|kept|..]
      ensures Earlier(x.key, r.key)
    {
      var i :| 0 <= i < |kept| && kept[i] == r;
      var j :| 0 <= j < |below[|kept|..]| && below[|kept|..][j] == x;
      assert below[i] == r && below[|kept| + j] == x;
    }
  }

  // How a walk ends: on a page without a next one, on an error, or because the client stops asking.
  datatype Ending = LastPage | Failed(error: Response) | CutOff

  // The reviews a client gets by following cursors, each page from the collection as it is at that moment.
  function Walk(cs: seq<Collection>, promptId: string, requested: Option<int>, cursor: Option<Key>)
    : (seq<Review>, Ending)
    decreases |cs|
  {
    if cs == [] then ([], CutOff)
    else
      var answer := List(cs[0], promptId, requested, cursor, false);
      match answer
      case Page(reviews, Some(next)) =>
        var (rest, ending) := Walk(cs[1..], promptId, requested, Some(next));
        (reviews + rest, ending)
      case Page(reviews, None) => (reviews, LastPage)
      case _ => ([], Failed(answer))
  }

  ghost predicate AllUnique(cs: seq<Collection>) {
    forall c :: c in cs ==> Unique(c)
  }

  ghost predicate HasKey(reviews: seq<Review>, k: Key) {
    exists r :: r in reviews && r.key == k
  }

  ghost predicate VisibleKey(c: Collection, promptId: string, k: Key) {
    exists r :: r in c && IsVisible(r, promptId) && r.key == k
  }

  // One page: newest first, below the cursor, and nothing visible between the cursor and its end left out.
  ghost predicate ExactPage(c: Collection, promptId: string, cursor: Option<Key>, reviews: seq<Review>,
        next: Option<Key>) {
    && Descending(reviews)
    && (forall r :: r in reviews ==> r in c && IsVisible(r, promptId) && Below(cursor, r.key))
    && (next.Some? ==> reviews != [] && next == Some(reviews[|reviews| - 1].key))
    && (forall r :: r in c && IsVisible(r, promptId) && Below(cursor, r.key) && (next.None? || !Below(next, r.key)) ==>
          r in reviews)
  }

  // A page is the beginning of the sorted reviews below the cursor: all of them, or some and a next cursor.
  lemma PageIsPrefix(c: Collection, promptId: string, requested: Option<int>, cursor: Option<Key>) returns (n: nat)
    ensures var p := List(c, promptId, requested, cursor, false);
            var all := After(SortedVisible(c, promptId), cursor);
            p.Page? ==>
              && n <= |all| && p.reviews == all[..n]
              && (if p.nextCursor.Some? then n > 0 && p.nextCursor == Some(all[n - 1].key) else n == |all|)
  {
    var p := List(c, promptId, requested, cursor, false);
    var all := After(SortedVisible(c, promptId), cursor);
    n := if p.Page? then |p.reviews| else 0;
    if p.Page? && p.nextCursor.Some? {
      var docs := Limited(all, PageLimit(requested) + 1);
      assert p.reviews == docs[..|docs| - 1];
      assert docs == all[..|docs|];
      assert docs[..|docs| - 1] == all[..n];
    }
  }

  lemma PrefixIsExact(c: Collection, promptId: string, cursor: Option<Key>, all: seq<Review>, n: nat, next: Option<Key>)
    requires Descending(all) && forall r :: r in all <==> r in c && IsVisible(r, promptId) && Below(cursor, r.key)
    requires n <= |all| && if next.Some? then n > 0 && next == Some(all[n - 1].key) else n == |all|
    ensures ExactPage(c, promptId, cursor, all[..n], next)
  {
    forall r | r in all && (next.None? || !Below(next, r.key))
      ensures r in all[..n]
    {
      var i :| 0 <= i < |all| && all[i] == r;
      assert i < n;
      assert r == all[..n][i];
    }
  }

  lemma PageIsExact(c: Collection, promptId: string, requested: Option<int>, cursor: Option<Key>)
    requires Unique(c)
    ensures var p := List(c, promptId, requested, cursor, false);
            p.Page? ==> ExactPage(c, promptId, cursor, p.reviews, p.nextCursor)
  {
    VisibleIsSorted(c, promptId);
    var sorted := SortedVisible(c, promptId);
    AfterKeepsOrder(sorted, cursor);
    var n := PageIsPrefix(c, promptId, requested, cursor);
    var p := List(c, promptId, requested, cursor, false);
    if p.Page? {
      PrefixIsExact(c, promptId, cursor, After(sorted, cursor), n, p.nextCursor);
    }
  }

  // However the collection changes between pages, the walk never returns a review twice: its reviews come in
  // strictly descending order, each of them visible when its page was read.
  lemma {:induction false} WalkIsDescending(cs: seq<Collection>, promptId: string, requested: Option<int>,
        cursor: Option<Key>)
    requires AllUnique(cs)
    ensures var reviews := Walk(cs, promptId, requested, cursor).0;
            && Descending(reviews)
            && forall r :: r in reviews ==>
                             Below(cursor, r.key) && exists c :: c in cs && r in c && IsVisible(r, promptId)
    decreases |cs|
  {
    if cs != [] {
      PageIsExact(cs[0], promptId, requested, cursor);
      var p := List(cs[0], promptId, requested, cursor, false);
      if p.Page? && p.nextCursor.Some? {
        WalkIsDescending(cs[1..], promptId, requested, p.nextCursor);
        JoinDescending(p.reviews, Walk(cs[1..], promptId, requested, p.nextCursor).0);
      }
    }
  }

  lemma JoinDescending(xs: seq<Review>, ys: seq<Review>)
    requires Descending(xs) && Descending(ys) && xs != []
    requires forall r :: r in ys ==> Newer(xs[|xs| - 1].key, r.key)
    ensures Descending(xs + ys)
  {
    forall i, j | 0 <= i < j < |xs + ys|
      ensures Newer((xs + ys)[i].key, (xs + ys)[j].key)
    {
      if i < |xs| <= j {
        assert (xs + ys)[j] in ys;
        assert i < |xs| - 1 ==> Newer(xs[i].key, xs[|xs| - 1].key);
      }
    }
  }

  // A walk that reaches its end returns every review that stayed visible throughout.
  lemma {:induction false} WalkIsComplete(cs: seq<Collection>, promptId: string, requested: Option<int>,
                                          cursor: Option<Key>, k: Key)
    requires AllUnique(cs) && Walk(cs, promptId, requested, cursor).1.LastPage?
    requires Below(cursor, k) && forall c :: c in cs ==> VisibleKey(c, promptId, k)
    ensures HasKey(Walk(cs, promptId, requested, cursor).0, k)
    decreases |cs|
  {
    PageIsExact(cs[0], promptId, requested, cursor);
    var p := List(cs[0], promptId, requested, cursor, false);
    assert VisibleKey(cs[0], promptId, k);
    var r :| r in cs[0] && IsVisible(r, promptId) && r.key == k;
    if p.nextCursor.Some? {
      var rest := Walk(cs[1..], promptId, requested, p.nextCursor).0;
      if Below(p.nextCursor, k) {
        WalkIsComplete(cs[1..], promptId, requested, p.nextCursor, k);
        var x :| x in rest && x.key == k;
        assert x in p.reviews + rest;
      } else {
        assert r in p.reviews + rest;
      }
    }
  }

  // ---------- a frozen collection ----------

  lemma {:induction false} AfterSplits(xs: seq<Review>, ys: seq<Review>, cursor: Option<Key>)
    ensures After(xs + ys, cursor) == After(xs, cursor) + After(ys, cursor)
  {
    if xs == [] {
      assert xs + ys == ys;
    } else {
      assert (xs + ys)[1..] == xs[1..] + ys;
      AfterSplits(xs[1..], ys, cursor);
    }
  }

  lemma {:induction false} AfterAll(reviews: seq<Review>, cursor: Option<Key>)
    requires forall r :: r in reviews ==> Below(cursor, r.key)
    ensures After(reviews, cursor) == reviews
  {
    if reviews != [] {
      AfterAll(reviews[1..], cursor);
    }
  }

  lemma {:induction false} AfterNone(reviews: seq<Review>, cursor: Option<Key>)
    requires forall r :: r in reviews ==> !Below(cursor, r.key)
    ensures After(reviews, cursor) == []
  {
    if reviews != [] {
      AfterNone(reviews[1..], cursor);
    }
  }

  lemma NthSplits(sorted: seq<Review>, n: nat, cursor: Option<Key>)
    requires Descending(sorted) && 0 < n <= |sorted| && cursor == Some(sorted[n - 1].key)
    ensures forall r :: r in sorted[..n] ==> !Below(cursor, r.key)
    ensures forall r :: r in sorted[n..] ==> Below(cursor, r.key)
  {
    forall r | r in sorted[..n]
      ensures !Below(cursor, r.key)
    {
      var i :| 0 <= i < n && sorted[i] == r;
      assert i == n - 1 || Newer(sorted[i].key, sorted[n - 1].key);
    }
    forall r | r in sorted[n..]
      ensures Below(cursor, r.key)
    {
      var i :| 0 <= i < |sorted| - n && sorted[n..][i] == r;
      assert Newer(sorted[n - 1].key, sorted[n + i].key);
    }
  }

  // What comes after the n-th review of a sorted list is the list from there on.
  lemma AfterNth(sorted: seq<Review>, n: nat)
    requires Descending(sorted) && 0 < n <= |sorted|
    ensures After(sorted, Some(sorted[n - 1].key)) == sorted[n..]
  {
    var cursor := Some(sorted[n - 1].key);
    var xs, ys := sorted[..n], sorted[n..];
    assert sorted == xs + ys;
    NthSplits(sorted, n, cursor);
    AfterSplits(xs, ys, cursor);
    AfterNone(xs, cursor);
    AfterAll(ys, cursor);
  }

  function CursorAt(sorted: seq<Review>, from: nat): Option<Key>
    requires from <= |sorted|
  {
    if from == 0 then None else Some(sorted[from - 1].key)
  }

  lemma AfterCursorAt(sorted: seq<Review>, from: nat)
    requires Descending(sorted) && from <= |sorted|
    ensures After(sorted, CursorAt(sorted, from)) == sorted[from..]
  {
    if from == 0 {
      AfterAll(sorted, None);
    } else {
      AfterNth(sorted, from);
    }
  }

  function Frozen(c: Collection, n: nat): seq<Collection> {
    seq(n, _ => c)
  }

  // How one answer is cut from the reviews below the cursor.
  type Cut = seq<Review> -> Response

  function CutAt(limit: int): Cut {
    (all: seq<Review>) => PageOf(all, limit)
  }

  // A page is a beginning of what there is: all of it, or a proper non-empty part and a next cursor at its end.
  ghost predicate Shape(all: seq<Review>, p: Response) {
    p.Page? ==>
      && p.reviews <= all && Supported(p.reviews)
      && if p.nextCursor.Some?
         then 0 < |p.reviews| < |all| && p.nextCursor == Some(p.reviews[|p.reviews| - 1].key)
         else p.reviews == all
  }

  ghost predicate Shaped(cut: Cut) {
    forall all :: Shape(all, cut(all))
  }

  lemma CutIsShaped(limit: int)
    ensures Shaped(CutAt(limit))
  {
    forall all: seq<Review>
      ensures Shape(all, CutAt(limit)(all))
    {
      assert Limited(all, limit + 1) <= all;
    }
  }

  // Paging through reviews that stay as they are: each answer is cut from what the pages before it left.
  function Pages(rest: seq<Review>, cut: Cut, pages: nat): (seq<Review>, Ending)
    decreases pages
  {
    if pages == 0 then ([], CutOff)
    else if !cut(rest).Page? then ([], Failed(cut(rest)))
    else if cut(rest).nextCursor.None? || |cut(rest).reviews| > |rest| then (cut(rest).reviews, LastPage)
    else
      var more := Pages(rest[|cut(rest).reviews|..], cut, pages - 1);
      (cut(rest).reviews + more.0, more.1)
  }

  lemma FrozenAnswer(c: Collection, promptId: string, requested: Option<int>, sorted: seq<Review>, from: nat)
    requires promptId != "" && sorted == SortedVisible(c, promptId) && Descending(sorted) && from <= |sorted|
    ensures List(c, promptId, requested, CursorAt(sorted, from), false) == PageOf(sorted[from..], PageLimit(requested))
  {
    AfterCursorAt(sorted, from);
  }

  lemma CursorAfterPage(sorted: seq<Review>, from: nat, page: seq<Review>)
    requires from <= |sorted| && page <= sorted[from..] && page != []
    ensures from + |page| <= |sorted| && Some(page[|page| - 1].key) == CursorAt(sorted, from + |page|)
    ensures sorted[from..][|page|..] == sorted[from + |page|..]
  {
    assert page[|page| - 1] == sorted[from..][|page| - 1];
  }

  lemma WalkStep(cs: seq<Collection>, promptId: string, requested: Option<int>, cursor: Option<Key>, p: Response)
    requires cs != [] && p == List(cs[0], promptId, requested, cursor, false)
    ensures var walk := Walk(cs, promptId, requested, cursor);
            if p.Page? && p.nextCursor.Some?
            then
              var rest := Walk(cs[1..], promptId, requested, p.nextCursor);
              walk.0 == p.reviews + rest.0 && walk.1 == rest.1
            else if p.Page? then walk == (p.reviews, LastPage)
            else walk == ([], Failed(p))
  {
  }

  // Following cursors while each is answered the same way whenever it is asked.
  function Follow(answer: Option<Key> -> Response, cursor: Option<Key>, pages: nat): (seq<Review>, Ending)
    decreases pages
  {
    if pages == 0 then ([], CutOff)
    else if !answer(cursor).Page? then ([], Failed(answer(cursor)))
    else if answer(cursor).nextCursor.None? then (answer(cursor).reviews, LastPage)
    else
      var more := Follow(answer, answer(cursor).nextCursor, pages - 1);
      (answer(cursor).reviews + more.0, more.1)
  }

  function Asking(c: Collection, promptId: string, requested: Option<int>): Option<Key> -> Response {
    (cursor: Option<Key>) => List(c, promptId, requested, cursor, false)
  }

  lemma {:induction false} FrozenIsFollowing(c: Collection, promptId: string, requested: Option<int>,
                                             cursor: Option<Key>, pages: nat)
    ensures Walk(Frozen(c, pages), promptId, requested, cursor) == Follow(Asking(c, promptId, requested), cursor, pages)
    decreases pages
  {
    if pages > 0 {
      var p := Asking(c, promptId, requested)(cursor);
      WalkStep(Frozen(c, pages), promptId, requested, cursor, p);
      assert Frozen(c, pages)[1..] == Frozen(c, pages - 1);
      if p.Page? && p.nextCursor.Some? {
        FrozenIsFollowing(c, promptId, requested, p.nextCursor, pages - 1);
      }
    }
  }

  ghost predicate AnswersCut(answer: Option<Key> -> Response, sorted: seq<Review>, cut: Cut, from: nat)
    requires from <= |sorted|
  {
    answer(CursorAt(sorted, from)) == cut(sorted[from..])
  }

  // Where each cursor into a sorted list is answered by a cut from what is below it, following is paging.
  lemma {:induction false} FollowingIsPaging(answer: Option<Key> -> Response, sorted: seq<Review>, cut: Cut, from: nat,
                                             pages: nat)
    requires from <= |sorted| && Shaped(cut)
    requires forall k: nat :: k <= |sorted| ==> AnswersCut(answer, sorted, cut, k)
    ensures Follow(answer, CursorAt(sorted, from), pages) == Pages(sorted[from..], cut, pages)
    decreases pages
  {
    if pages > 0 {
      var rest := sorted[from..];
      var p := cut(rest);
      assert Shape(rest, p) && AnswersCut(answer, sorted, cut, from);
      if p.Page? && p.nextCursor.Some? {
        CursorAfterPage(sorted, from, p.reviews);
        FollowingIsPaging(answer, sorted, cut, from + |p.reviews|, pages - 1);
      }
    }
  }

  // ---------- paging through a fixed list ----------

  lemma SupportedParts(xs: seq<Review>, ys: seq<Review>)
    ensures Supported(xs + ys) <==> Supported(xs) && Supported(ys)
  {
    forall r | r in xs || r in ys
      ensures r in xs + ys
    {
    }
  }

  // However answers are cut, paging ends; what it returned is a beginning of the list, all of it if on a last page.
  lemma {:induction false} PagingEnds(rest: seq<Review>, cut: Cut, pages: nat)
    requires Shaped(cut) && pages > |rest|
    ensures var (reviews, ending) := Pages(rest, cut, pages);
            && reviews <= rest && Supported(reviews) && ending != CutOff
            && (ending == LastPage ==> reviews == rest)
    decreases pages
  {
    var p := cut(rest);
    assert Shape(rest, p);
    if p.Page? && p.nextCursor.Some? {
      var n := |p.reviews|;
      PagingEnds(rest[n..], cut, pages - 1);
      assert rest == p.reviews + rest[n..];
      SupportedParts(p.reviews, Pages(rest[n..], cut, pages - 1).0);
    }
  }

  // No answer fails but for a review of a newer schema.
  ghost predicate Positive(cut: Cut) {
    forall all :: FailsOnSchema(all, cut(all))
  }

  ghost predicate FailsOnSchema(all: seq<Review>, p: Response) {
    p.Page? || (p.UnsupportedSchema? && !Supported(all))
  }

  // With a positive limit paging ends on a last page, or at a review of a newer schema.
  lemma {:induction false} PositiveEnding(rest: seq<Review>, cut: Cut, pages: nat)
    requires Shaped(cut) && Positive(cut) && pages > |rest|
    ensures Pages(rest, cut, pages).1 == if Supported(rest) then LastPage else Failed(UnsupportedSchema)
    decreases pages
  {
    var p := cut(rest);
    assert Shape(rest, p) && FailsOnSchema(rest, p);
    if p.Page? && p.nextCursor.Some? {
      var n := |p.reviews|;
      PositiveEnding(rest[n..], cut, pages - 1);
      assert rest == p.reviews + rest[n..];
      SupportedParts(p.reviews, rest[n..]);
    }
  }

  lemma PositiveLimit(limit: int)
    requires limit > 0
    ensures Positive(CutAt(limit))
  {
    forall all: seq<Review>
      ensures FailsOnSchema(all, CutAt(limit)(all))
    {
      LimitedIsPart(all, limit + 1);
    }
  }

  lemma LimitedIsPart(all: seq<Review>, limit: int)
    ensures Limited(all, limit) <= all && forall r :: r in Limited(all, limit) ==> r in all
  {
  }

  // No answer is a last page.
  ghost predicate NeverLast(cut: Cut) {
    forall all :: cut(all).Page? ==> cut(all).nextCursor.Some?
  }

  // Over supported reviews answers are pages while there are two left, and server errors after that.
  ghost predicate FailsAtOne(cut: Cut) {
    forall all :: LastsToOne(all, cut(all))
  }

  ghost predicate LastsToOne(all: seq<Review>, p: Response) {
    Supported(all) ==> if |all| >= 2 then p.Page? && p.nextCursor.Some? else p == ServerError
  }

  lemma {:induction false} NeverLastEnding(rest: seq<Review>, cut: Cut, pages: nat)
    requires Shaped(cut) && NeverLast(cut)
    ensures Pages(rest, cut, pages).1 != LastPage
    decreases pages
  {
    if pages > 0 {
      assert Shape(rest, cut(rest));
      if cut(rest).Page? {
        NeverLastEnding(rest[|cut(rest).reviews|..], cut, pages - 1);
      }
    }
  }

  lemma {:induction false} FailingEnding(rest: seq<Review>, cut: Cut, pages: nat)
    requires Shaped(cut) && FailsAtOne(cut) && Supported(rest) && pages > |rest|
    ensures Pages(rest, cut, pages) == (WithoutOldest(rest), Failed(ServerError))
    decreases pages
  {
    var p := cut(rest);
    assert Shape(rest, p) && LastsToOne(rest, p);
    if |rest| >= 2 {
      var page, left := p.reviews, rest[|p.reviews|..];
      assert rest == page + left;
      SupportedParts(page, left);
      FailingEnding(left, cut, pages - 1);
      WithoutOldestSplits(page, left);
    }
  }

  lemma WithoutOldestSplits(xs: seq<Review>, ys: seq<Review>)
    requires ys != []
    ensures WithoutOldest(xs + ys) == xs + WithoutOldest(ys)
  {
  }

  function WithoutOldest(sorted: seq<Review>): seq<Review> {
    if sorted == [] then [] else sorted[..|sorted| - 1]
  }

  lemma NegativeLimit(limit: int)
    requires limit < 0
    ensures NeverLast(CutAt(limit))
    ensures limit != -2 ==> FailsAtOne(CutAt(limit))
  {
    forall all: seq<Review>
      ensures CutAt(limit)(all).Page? ==> CutAt(limit)(all).nextCursor.Some?
      ensures limit != -2 ==> LastsToOne(all, CutAt(limit)(all))
    {
      LimitedIsPart(all, limit + 1);
    }
  }

  // ---------- the endpoint ----------

  lemma NegativeTwoFails(c: Collection, promptId: string, cursor: Option<Key>)
    requires promptId != ""
    ensures List(c, promptId, Some(-2), cursor, false) == ServerError
  {
  }

  // On a collection nobody touches a walk always ends, after at most one answer more than there are reviews. What it
  // returned is a beginning of the sorted visible list. It ends on a last page, with the full list, if and only if
  // the prompt is named, the limit is not negative and no visible review is of a newer schema.
  lemma FrozenWalk(c: Collection, promptId: string, requested: Option<int>, pages: nat)
    requires Unique(c) && pages > |SortedVisible(c, promptId)|
    ensures var sorted := SortedVisible(c, promptId);
            var (reviews, ending) := Walk(Frozen(c, pages), promptId, requested, None);
            && reviews <= sorted && ending != CutOff
            && (ending == LastPage <==>
                promptId != "" && (requested.None? || requested.value >= 0) && Supported(sorted))
            && (ending == LastPage ==> reviews == sorted)
  {
    var sorted := SortedVisible(c, promptId);
    if promptId == "" {
      WalkStep(Frozen(c, pages), promptId, requested, None, BadRequest);
    } else {
      var limit := PageLimit(requested);
      FrozenWalkIsPaging(c, promptId, requested, pages);
      CutIsShaped(limit);
      PagingEnds(sorted, CutAt(limit), pages);
      if limit > 0 {
        PositiveLimit(limit);
        PositiveEnding(sorted, CutAt(limit), pages);
      } else {
        NegativeLimit(limit);
        NeverLastEnding(sorted, CutAt(limit), pages);
      }
    }
  }

  lemma FrozenWalkIsPaging(c: Collection, promptId: string, requested: Option<int>, pages: nat)
    requires Unique(c) && promptId != ""
    ensures Walk(Frozen(c, pages), promptId, requested, None)
            == Pages(SortedVisible(c, promptId), CutAt(PageLimit(requested)), pages)
  {
    var sorted := SortedVisible(c, promptId);
    var cut := CutAt(PageLimit(requested));
    VisibleIsSorted(c, promptId);
    CutIsShaped(PageLimit(requested));
    forall k: nat | k <= |sorted|
      ensures AnswersCut(Asking(c, promptId, requested), sorted, cut, k)
    {
      FrozenAnswer(c, promptId, requested, sorted, k);
    }
    FrozenIsFollowing(c, promptId, requested, None, pages);
    FollowingIsPaging(Asking(c, promptId, requested), sorted, cut, 0, pages);
    assert sorted[0..] == sorted;
  }

  // With a negative limit the walk ends in a server error: at the first answer for -2, and for every other negative
  // limit after all visible reviews but the oldest.
  lemma NegativeLimitFails(c: Collection, promptId: string, limit: int, pages: nat)
    requires Unique(c) && promptId != "" && limit < 0 && Supported(SortedVisible(c, promptId))
    requires pages > |SortedVisible(c, promptId)|
    ensures Walk(Frozen(c, pages), promptId, Some(limit), None)
            == (if limit == -2 then [] else WithoutOldest(SortedVisible(c, promptId)), Failed(ServerError))
  {
    if limit == -2 {
      NegativeTwoFails(c, promptId, None);
      WalkStep(Frozen(c, pages), promptId, Some(limit), None, ServerError);
    } else {
      FrozenWalkIsPaging(c, promptId, Some(limit), pages);
      CutIsShaped(limit);
      NegativeLimit(limit);
      FailingEnding(SortedVisible(c, promptId), CutAt(limit), pages);
    }
  }

  // Over a collection that changes, too, a negative limit never leads to a last page.
  lemma {:induction false} NegativeNeverLast(cs: seq<Collection>, promptId: string, requested: Option<int>,
                                             cursor: Option<Key>)
    requires requested.Some? && requested.value < 0
    ensures Walk(cs, promptId, requested, cursor).1 != LastPage
    decreases |cs|
  {
    if cs != [] {
      var p := List(cs[0], promptId, requested, cursor, false);
      if p.Page? && p.nextCursor.Some? {
        NegativeNeverLast(cs[1..], promptId, requested, p.nextCursor);
      }
    }
  }
}
