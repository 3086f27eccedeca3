/** Sales counts over the whole window loop: what overlapping pages add to them. */
module ReplaySales {
  import opened Options
  import opened Ledger
  import opened Replay
  import opened ReplayTheorems

  lemma {:induction false} PurchasesAppend(xs: seq<Event>, ys: seq<Event>, p: string)
    ensures Purchases(xs + ys, p) == Purchases(xs, p) + Purchases(ys, p)
  {
    if ys == [] {
      assert xs + ys == xs;
    } else {
      assert (xs + ys)[..|xs + ys| - 1] == xs + ys[..|ys| - 1];
      PurchasesAppend(xs, ys[..|ys| - 1], p);
    }
  }

  lemma CreatesAppend(xs: seq<Event>, ys: seq<Event>, p: string)
    ensures Creates(xs + ys, p) <==> Creates(xs, p) || Creates(ys, p)
  {
    if Creates(xs, p) {
      var k :| 0 <= k < |xs| && xs[k].PromptCreated? && xs[k].prompt == p;
      assert (xs + ys)[k] == xs[k];
    }
    if Creates(ys, p) {
      var k :| 0 <= k < |ys| && ys[k].PromptCreated? && ys[k].prompt == p;
      assert (xs + ys)[|xs| + k] == ys[k];
    }
  }

  // After its creation every purchase counts; before it none does.
  lemma {:induction false} SinceCreationAppend(xs: seq<Event>, ys: seq<Event>, p: string)
    ensures PurchasesSinceCreation(xs + ys, p) ==
            if Creates(xs, p) then PurchasesSinceCreation(xs, p) + Purchases(ys, p)
            else PurchasesSinceCreation(xs, p) + PurchasesSinceCreation(ys, p)
  {
    if ys == [] {
      assert xs + ys == xs;
    } else {
      var front := ys[..|ys| - 1];
      assert (xs + ys)[..|xs + ys| - 1] == xs + front;
      SinceCreationAppend(xs, front, p);
      CreatesAppend(xs, front, p);
    }
  }

  // The events fetched by the first i windows, once each.
  function Pass(node: Node, windows: seq<Window>, start: nat, i: nat): seq<Event>
    requires i <= |windows|
  {
    var first, end := FirstAt(node.log, start), EndBefore(node, windows, start, i);
    if first <= end <= |node.events| then node.events[first..end] else []
  }

  // Where the events fetched by the first i windows end.
  function EndBefore(node: Node, windows: seq<Window>, start: nat, i: nat): nat
    requires i <= |windows|
  {
    Reached(node, windows[..i], FirstAt(node.log, start))
  }

  // The purchases of p that window i's page counts again: those in its part fetched before, once p was created.
  function CountedAgain(node: Node, windows: seq<Window>, start: nat, p: string, i: nat): nat {
    if i < |windows| && node.answers(windows[i].first).Some? && Creates(Pass(node, windows, start, i), p)
    then Purchases(Overlap(node, windows, start, i), p)
    else 0
  }

  // The beginning of window i's page that was fetched before.
  function Overlap(node: Node, windows: seq<Window>, start: nat, i: nat): seq<Event>
    requires i < |windows|
  {
    var from, end := PageStart(node, windows[i]), EndBefore(node, windows, start, i);
    if from <= end <= |node.events| then node.events[from..end] else []
  }

  function Total(f: nat -> nat, n: nat): nat {
    if n == 0 then 0 else Total(f, n - 1) + f(n - 1)
  }

  function AllCountedAgain(node: Node, windows: seq<Window>, start: nat, p: string, n: nat): nat {
    Total(Again(node, windows, start, p), n)
  }

  function Again(node: Node, windows: seq<Window>, start: nat, p: string): nat -> nat {
    (i: nat) => CountedAgain(node, windows, start, p, i)
  }

  ghost predicate Looped(node: Node, windows: seq<Window>, start: nat) {
    node.Valid() && Ascending(windows, start) && Gapless(node, windows, FirstAt(node.log, start))
  }

  lemma EndsInOrder(node: Node, windows: seq<Window>, start: nat, i: nat)
    requires Looped(node, windows, start) && i <= |windows|
    ensures FirstAt(node.log, start) <= EndBefore(node, windows, start, i) <= |node.events|
  {
    assert forall k :: 0 <= k < i ==> windows[..i][..k] == windows[..k];
    GaplessIsOnePass(node, Index(map[], map[], map[]), windows[..i], start);
  }

  // How window i's page continues what was fetched before it.
  lemma PageShape(node: Node, windows: seq<Window>, start: nat, i: nat)
    requires Looped(node, windows, start) && i < |windows|
    ensures EndBefore(node, windows, start, i) <= EndBefore(node, windows, start, i + 1)
    ensures node.answers(windows[i].first).None? ==>
              EndBefore(node, windows, start, i + 1) == EndBefore(node, windows, start, i)
                && node.Page(windows[i].first) == []
    ensures node.answers(windows[i].first).Some? ==>
              && EndBefore(node, windows, start, i + 1) == node.answers(windows[i].first).value
              && FirstAt(node.log, start) <= PageStart(node, windows[i]) <= EndBefore(node, windows, start, i)
  {
    assert windows[..i + 1][..i] == windows[..i];
    FirstAtGrows(node.log, start, windows[i].first);
  }

  // p is in the index exactly when it was created, with the purchases since then and `again` more.
  ghost predicate Tally(ix: Index, events: seq<Event>, again: nat, p: string) {
    && (p in ix.prompts <==> Creates(events, p))
    && (p in ix.prompts ==> ix.prompts[p].sales == PurchasesSinceCreation(events, p) + again)
    && (p !in ix.prompts ==> again == 0)
  }

  // A page that repeats an end of what was seen and goes on.
  lemma PageKeepsTally(reached: Index, seen: seq<Event>, overlap: seq<Event>, more: seq<Event>, again: nat, p: string)
    requires Tally(reached, seen, again, p) && (Creates(overlap, p) ==> Creates(seen, p))
    ensures Tally(ReplayAll(reached, overlap + more), seen + more,
                  again + if Creates(seen, p) then Purchases(overlap, p) else 0, p)
  {
    CreatesAppend(seen, more, p);
    CreatesAppend(overlap, more, p);
    SinceCreationAppend(seen, more, p);
    if p in reached.prompts {
      PresentSales(reached, overlap + more, p);
      PurchasesAppend(overlap, more, p);
    } else {
      SalesOfOnePass(reached, overlap + more, p);
      SinceCreationAppend(overlap, more, p);
      NoCreationNoCount(overlap, p);
      NoCreationNoCount(seen, p);
    }
  }

  lemma {:induction false} NoCreationNoCount(events: seq<Event>, p: string)
    requires !Creates(events, p)
    ensures PurchasesSinceCreation(events, p) == 0
  {
    if events != [] {
      var front := events[..|events| - 1];
      assert forall k :: 0 <= k < |front| ==> front[k] == events[k];
      NoCreationNoCount(front, p);
    }
  }

  // Over the loop, from an index without p: p is there exactly when it was created in what was fetched, and its
  // sales are the purchases since then plus those counted again.
  lemma {:induction false} SalesWithoutGaps(node: Node, ix: Index, windows: seq<Window>, start: nat, p: string, i: nat)
    requires Looped(node, windows, start) && p !in ix.prompts && i <= |windows|
    ensures Tally(ReplayWindows(node, ix, windows[..i]), Pass(node, windows, start, i),
                  AllCountedAgain(node, windows, start, p, i), p)
  {
    if i > 0 {
      SalesWithoutGaps(node, ix, windows, start, p, i - 1);
      OneMoreWindow(node, ix, windows, start, p, i - 1);
    }
  }

  // A page that arrives is its overlap and what it adds to the pass.
  lemma PageParts(node: Node, windows: seq<Window>, start: nat, i: nat, p: string) returns (more: seq<Event>)
    requires Looped(node, windows, start) && i < |windows| && node.answers(windows[i].first).Some?
    ensures Pass(node, windows, start, i + 1) == Pass(node, windows, start, i) + more
    ensures node.Page(windows[i].first) == Overlap(node, windows, start, i) + more
    ensures Creates(Overlap(node, windows, start, i), p) ==> Creates(Pass(node, windows, start, i), p)
  {
    PageShape(node, windows, start, i);
    EndsInOrder(node, windows, start, i);
    EndsInOrder(node, windows, start, i + 1);
    var first, from := FirstAt(node.log, start), PageStart(node, windows[i]);
    var end, to := EndBefore(node, windows, start, i), EndBefore(node, windows, start, i + 1);
    more := node.events[end..to];
    assert node.events[first..to] == node.events[first..end] + more;
    assert node.events[from..to] == node.events[from..end] + more;
    assert node.events[first..end] == node.events[first..from] + node.events[from..end];
    CreatesAppend(node.events[first..from], node.events[from..end], p);
  }

  lemma ReplayOneMore(node: Node, ix: Index, windows: seq<Window>, i: nat)
    requires i < |windows|
    ensures ReplayWindows(node, ix, windows[..i + 1])
            == ReplayAll(ReplayWindows(node, ix, windows[..i]), node.Page(windows[i].first))
  {
    assert windows[..i + 1][..i] == windows[..i];
  }

  lemma OneMoreWindow(node: Node, ix: Index, windows: seq<Window>, start: nat, p: string, i: nat)
    requires Looped(node, windows, start) && i < |windows|
    requires Tally(ReplayWindows(node, ix, windows[..i]), Pass(node, windows, start, i),
                   AllCountedAgain(node, windows, start, p, i), p)
    ensures Tally(ReplayWindows(node, ix, windows[..i + 1]), Pass(node, windows, start, i + 1),
                  AllCountedAgain(node, windows, start, p, i + 1), p)
  {
    ReplayOneMore(node, ix, windows, i);
    if node.answers(windows[i].first).Some? {
      var more := PageParts(node, windows, start, i, p);
      PageKeepsTally(ReplayWindows(node, ix, windows[..i]), Pass(node, windows, start, i),
                     Overlap(node, windows, start, i), more, AllCountedAgain(node, windows, start, p, i), p);
    } else {
      PageShape(node, windows, start, i);
    }
  }

  // ---------- in terms of the pages ----------

  ghost predicate InPage(node: Node, w: Window, k: nat) {
    node.answers(w.first).Some? && PageStart(node, w) <= k < node.answers(w.first).value
  }

  // Event k lies in the pages of two windows.
  ghost predicate InTwoPages(node: Node, windows: seq<Window>, k: nat) {
    exists i, j :: 0 <= i < j < |windows| && InPage(node, windows[i], k) && InPage(node, windows[j], k)
  }

  lemma {:induction false} PurchaseIn(events: seq<Event>, p: string)
    ensures Purchases(events, p) > 0 <==> exists k :: 0 <= k < |events| && IsPurchase(events[k], p)
  {
    if events != [] {
      var front := events[..|events| - 1];
      PurchaseIn(front, p);
      assert forall k :: 0 <= k < |front| ==> front[k] == events[k];
      if k: nat :| k < |events| && IsPurchase(events[k], p) {
        assert k < |front| ==> IsPurchase(front[k], p);
      }
    }
  }

  // Before window i, an event was fetched exactly when it lies in the page of an earlier window.
  lemma {:induction false} FetchedInPages(node: Node, windows: seq<Window>, start: nat, i: nat, k: nat)
    requires Looped(node, windows, start) && i <= |windows|
    ensures FirstAt(node.log, start) <= k < EndBefore(node, windows, start, i)
            <==> exists j :: 0 <= j < i && InPage(node, windows[j], k)
  {
    if i > 0 {
      FetchedInPages(node, windows, start, i - 1, k);
      PageShape(node, windows, start, i - 1);
    }
  }

  // Every purchase of p fetched comes after an event that creates it, as on the chain.
  ghost predicate CreatedFirst(node: Node, windows: seq<Window>, start: nat, p: string) {
    var first, end := FirstAt(node.log, start), EndBefore(node, windows, start, |windows|);
    forall k: nat :: first <= k < end && k < |node.events| && IsPurchase(node.events[k], p) ==>
                       exists c :: first <= c < k && node.events[c].PromptCreated? && node.events[c].prompt == p
  }

  lemma {:induction false} SomePositive(f: nat -> nat, n: nat)
    ensures Total(f, n) > 0 <==> exists i :: 0 <= i < n && f(i) > 0
  {
    if n > 0 {
      SomePositive(f, n - 1);
    }
  }

  lemma {:induction false} LaterEnds(node: Node, windows: seq<Window>, start: nat, i: nat, j: nat)
    requires Looped(node, windows, start) && i <= j <= |windows|
    ensures EndBefore(node, windows, start, i) <= EndBefore(node, windows, start, j)
  {
    if i < j {
      LaterEnds(node, windows, start, i, j - 1);
      PageShape(node, windows, start, j - 1);
    }
  }

  lemma CreatedBefore(node: Node, windows: seq<Window>, start: nat, p: string, i: nat, k: nat)
    requires Looped(node, windows, start) && CreatedFirst(node, windows, start, p) && i < |windows|
    requires k < |node.events| && IsPurchase(node.events[k], p)
    requires FirstAt(node.log, start) <= k < EndBefore(node, windows, start, i)
    ensures Creates(Pass(node, windows, start, i), p)
  {
    LaterEnds(node, windows, start, i, |windows|);
    EndsInOrder(node, windows, start, i);
    var first := FirstAt(node.log, start);
    var c :| first <= c < k && node.events[c].PromptCreated? && node.events[c].prompt == p;
    assert Pass(node, windows, start, i)[c - first] == node.events[c];
  }

  // Some purchase of p in window i's page was fetched before.
  ghost predicate RepeatsPurchase(node: Node, windows: seq<Window>, start: nat, p: string, i: nat)
    requires i < |windows|
  {
    exists k: nat :: k < |node.events| && IsPurchase(node.events[k], p) && InPage(node, windows[i], k)
                     && k < EndBefore(node, windows, start, i)
  }

  lemma RepeatIsCounted(node: Node, windows: seq<Window>, start: nat, p: string, i: nat)
    requires Looped(node, windows, start) && CreatedFirst(node, windows, start, p) && i < |windows|
    requires RepeatsPurchase(node, windows, start, p, i)
    ensures CountedAgain(node, windows, start, p, i) > 0
  {
    var k: nat :| k < |node.events| && IsPurchase(node.events[k], p) && InPage(node, windows[i], k)
                  && k < EndBefore(node, windows, start, i);
    PageShape(node, windows, start, i);
    EndsInOrder(node, windows, start, i);
    CreatedBefore(node, windows, start, p, i, k);
    var overlap := Overlap(node, windows, start, i);
    assert overlap[k - PageStart(node, windows[i])] == node.events[k];
    PurchaseIn(overlap, p);
  }

  lemma OverlapAt(node: Node, windows: seq<Window>, start: nat, i: nat, k: nat)
    requires Looped(node, windows, start) && i < |windows| && node.answers(windows[i].first).Some?
    requires k < |Overlap(node, windows, start, i)|
    ensures var e := PageStart(node, windows[i]) + k;
            && e < |node.events| && Overlap(node, windows, start, i)[k] == node.events[e]
            && InPage(node, windows[i], e) && e < EndBefore(node, windows, start, i)
  {
    PageShape(node, windows, start, i);
    EndsInOrder(node, windows, start, i);
  }

  lemma CountedIsRepeat(node: Node, windows: seq<Window>, start: nat, p: string, i: nat)
    requires Looped(node, windows, start) && i < |windows| && CountedAgain(node, windows, start, p, i) > 0
    ensures RepeatsPurchase(node, windows, start, p, i)
  {
    var overlap := Overlap(node, windows, start, i);
    PurchaseIn(overlap, p);
    var k :| 0 <= k < |overlap| && IsPurchase(overlap[k], p);
    OverlapAt(node, windows, start, i, k);
  }

  lemma NothingCountedAgain(node: Node, windows: seq<Window>, start: nat, p: string)
    requires Looped(node, windows, start) && CreatedFirst(node, windows, start, p)
    ensures AllCountedAgain(node, windows, start, p, |windows|) == 0 <==>
            !exists i :: 0 <= i < |windows| && RepeatsPurchase(node, windows, start, p, i)
  {
    SomePositive(Again(node, windows, start, p), |windows|);
    if i :| 0 <= i < |windows| && RepeatsPurchase(node, windows, start, p, i) {
      RepeatIsCounted(node, windows, start, p, i);
      assert Again(node, windows, start, p)(i) > 0;
    } else if i :| 0 <= i < |windows| && Again(node, windows, start, p)(i) > 0 {
      CountedIsRepeat(node, windows, start, p, i);
      assert false;
    }
  }

  // A window repeats a purchase exactly when that lies in an earlier page too.
  lemma RepeatsInPages(node: Node, windows: seq<Window>, start: nat, p: string)
    requires Looped(node, windows, start)
    ensures (exists i :: 0 <= i < |windows| && RepeatsPurchase(node, windows, start, p, i)) <==>
            exists k: nat :: k < |node.events| && IsPurchase(node.events[k], p) && InTwoPages(node, windows, k)
  {
    if i :| 0 <= i < |windows| && RepeatsPurchase(node, windows, start, p, i) {
      var k: nat :| k < |node.events| && IsPurchase(node.events[k], p) && InPage(node, windows[i], k)
                    && k < EndBefore(node, windows, start, i);
      PageShape(node, windows, start, i);
      FetchedInPages(node, windows, start, i, k);
      assert InTwoPages(node, windows, k);
    }
    if k: nat :| k < |node.events| && IsPurchase(node.events[k], p) && InTwoPages(node, windows, k) {
      var i, j :| 0 <= i < j < |windows| && InPage(node, windows[i], k) && InPage(node, windows[j], k);
      FetchedInPages(node, windows, start, j, k);
      assert RepeatsPurchase(node, windows, start, p, j);
    }
  }

  lemma NoneInTwoPages(node: Node, windows: seq<Window>, start: nat, p: string)
    requires Looped(node, windows, start) && CreatedFirst(node, windows, start, p)
    ensures AllCountedAgain(node, windows, start, p, |windows|) == 0 <==>
            !exists k: nat :: k < |node.events| && IsPurchase(node.events[k], p) && InTwoPages(node, windows, k)
  {
    NothingCountedAgain(node, windows, start, p);
    RepeatsInPages(node, windows, start, p);
  }

  // Over the whole loop, where the pages leave no gap and prompts are created before they are sold: p's count is right
  // if and only if no purchase of p lies in two fetched pages.
  lemma SalesRightExactly(node: Node, ix: Index, windows: seq<Window>, start: nat, p: string)
    requires Looped(node, windows, start) && p !in ix.prompts && CreatedFirst(node, windows, start, p)
    requires p in ReplayWindows(node, ix, windows).prompts
    ensures ReplayWindows(node, ix, windows).prompts[p].sales
            == PurchasesSinceCreation(Pass(node, windows, start, |windows|), p)
            <==> !exists k: nat :: k < |node.events| && IsPurchase(node.events[k], p) && InTwoPages(node, windows, k)
  {
    var n := |windows|;
    assert windows[..n] == windows;
    SalesWithoutGaps(node, ix, windows, start, p, n);
    NoneInTwoPages(node, windows, start, p);
  }

  // ---------- any pages ----------

  lemma {:induction false} LoopIsOneReplay(node: Node, ix: Index, windows: seq<Window>)
    ensures ReplayWindows(node, ix, windows) == ReplayAll(ix, AllPages(node, windows))
  {
    if windows != [] {
      var n := |windows| - 1;
      LoopIsOneReplay(node, ix, windows[..n]);
      ReplaySplit(ix, AllPages(node, windows[..n]), node.Page(windows[n].first));
    }
  }

  // Whatever gaps and overlaps the pages have: p is in the index exactly when some page creates it, with one sale for
  // every time a page brings a purchase of it after that.
  lemma SalesOverWindows(node: Node, ix: Index, windows: seq<Window>, p: string)
    requires p !in ix.prompts
    ensures var after := ReplayWindows(node, ix, windows);
            && (p in after.prompts <==> Creates(AllPages(node, windows), p))
            && (p in after.prompts ==>
                  after.prompts[p].sales == PurchasesSinceCreation(AllPages(node, windows), p))
  {
    LoopIsOneReplay(node, ix, windows);
    SalesOfOnePass(ix, AllPages(node, windows), p);
  }

  // ---------- at concrete inputs ----------

  const EMPTY_INDEX := Index(map[], map[], map[])

  lemma TwoWindows(start: nat, latest: nat)
    requires start + BATCH_SIZE <= latest < start + 2 * BATCH_SIZE
    ensures Windows(start, latest) == [Window(start, start + BATCH_SIZE - 1), Window(start + BATCH_SIZE, latest)]
  {
    var first := WindowsHead(start, latest);
    var second := WindowsHead(start + BATCH_SIZE, latest);
    assert Windows(latest + 1, latest) == [];
  }

  lemma PagesOfTwo(node: Node, v: Window, w: Window)
    ensures AllPages(node, [v, w]) == node.Page(v.first) + node.Page(w.first)
  {
    assert [v, w][..1] == [v] && [v][..0] == [];
    assert AllPages(node, [v]) == node.Page(v.first);
  }

  lemma CreatedAndSold(create: Event, sales: seq<Event>, p: string)
    requires create.PromptCreated? && create.prompt == p && forall e :: e in sales ==> IsPurchase(e, p)
    ensures Creates([create] + sales, p) && PurchasesSinceCreation([create] + sales, p) == |sales|
  {
    assert ([create] + sales)[0] == create;
    SinceCreationAppend([create], sales, p);
    assert PurchasesSinceCreation([create], p) == 0 by {
      assert [create][..0] == [] && !IsPurchase(create, p);
    }
    assert Creates([create], p) by {
      assert [create][0] == create;
    }
    AllPurchases(sales, p);
  }

  lemma {:induction false} AllPurchases(sales: seq<Event>, p: string)
    requires forall e :: e in sales ==> IsPurchase(e, p)
    ensures Purchases(sales, p) == |sales|
  {
    if sales != [] {
      AllPurchases(sales[..|sales| - 1], p);
    }
  }

  lemma TwoPagesHold(node: Node, create: Event, sale: Event)
    requires node == Node([1, 2500], [create, sale], node.answers) && forall s :: node.answers(s) == Some(2)
    ensures AnswersPages(node, 10) && InTwoPages(node, Windows(1, 2500), 1)
    ensures AllPages(node, Windows(1, 2500)) == [create] + [sale, sale]
  {
    FirstAtIsUnique(node.log, 1, 0);
    FirstAtIsUnique(node.log, 2001, 1);
    TwoWindows(1, 2500);
    var v, w := Window(1, 2000), Window(2001, 2500);
    PagesOfTwo(node, v, w);
    assert node.Page(1) == [create, sale] && node.Page(2001) == [sale];
    assert InPage(node, [v, w][0], 1) && InPage(node, [v, w][1], 1);
  }

  // A prompt created at ledger 1 and sold once, at ledger 2500, re-indexed up to there by a node whose pages of ten
  // events have room for both: the first window's page already brings the sale, the second one's brings it again.
  lemma OneSaleCountsTwice(p: string, buyer: string, tx: string) returns (node: Node)
    ensures AnswersPages(node, 10) && node.log == [1, 2500]
    ensures node.events == [PromptCreated(p, buyer, 1), PromptPurchased(p, buyer, None, tx)]
    ensures PurchasesSinceCreation(node.events, p) == 1 && InTwoPages(node, Windows(1, 2500), 1)
    ensures var after := ReplayWindows(node, EMPTY_INDEX, Windows(1, 2500));
            p in after.prompts && after.prompts[p].sales == 2
  {
    var create, sale := PromptCreated(p, buyer, 1), PromptPurchased(p, buyer, None, tx);
    node := Node([1, 2500], [create, sale], _ => Some(2));
    TwoPagesHold(node, create, sale);
    CreatedAndSold(create, [sale, sale], p);
    CreatedAndSold(create, [sale], p);
    assert node.events == [create] + [sale];
    SalesOverWindows(node, EMPTY_INDEX, Windows(1, 2500), p);
  }

  lemma PagesOfThree(node: Node, u: Window, v: Window, w: Window)
    ensures AllPages(node, [u, v, w]) == node.Page(u.first) + node.Page(v.first) + node.Page(w.first)
  {
    assert [u, v, w][..2] == [u, v];
    PagesOfTwo(node, u, v);
  }

  lemma ThreeWindows()
    ensures Windows(1, 5000) == [Window(1, 2000), Window(2001, 4000), Window(4001, 5000)]
  {
    var first := WindowsHead(1, 5000);
    TwoWindows(2001, 5000);
  }

  // A prompt and two sales, at ledgers 1, 2 and 4500; the first answer stops after the creation.
  function ShortAnswer(create: Event, missed: Event, twice: Event): Node {
    Node([1, 2, 4500], [create, missed, twice], (s: nat) => if s <= 1 then Some(1) else Some(3))
  }

  lemma ShortAnswerIsValid(create: Event, missed: Event, twice: Event)
    ensures ShortAnswer(create, missed, twice).Valid()
  {
    var node := ShortAnswer(create, missed, twice);
    FirstAtIsUnique(node.log, 1, 0);
    forall s: nat
      ensures FirstAt(node.log, s) <= node.answers(s).value
    {
      if s <= 1 {
        FirstAtGrows(node.log, s, 1);
      }
    }
  }

  lemma ShortAnswerPages(create: Event, missed: Event, twice: Event)
    ensures var node := ShortAnswer(create, missed, twice);
            && AllPages(node, Windows(1, 5000)) == [create] + [twice, twice]
            && (forall w :: w in Windows(1, 5000) ==> !InPage(node, w, 1)) && InTwoPages(node, Windows(1, 5000), 2)
  {
    var node := ShortAnswer(create, missed, twice);
    FirstAtIsUnique(node.log, 1, 0);
    FirstAtIsUnique(node.log, 2001, 2);
    FirstAtIsUnique(node.log, 4001, 2);
    ThreeWindows();
    var u, v, w := Window(1, 2000), Window(2001, 4000), Window(4001, 5000);
    PagesOfThree(node, u, v, w);
    assert node.Page(1) == [create] && node.Page(2001) == [twice] && node.Page(4001) == [twice];
    assert InPage(node, [u, v, w][1], 2) && InPage(node, [u, v, w][2], 2);
  }

  // With gaps the count can be right by accident: of two sales one is in no page and the other in two.
  lemma MissedAndRepeatedCancel(p: string, buyer: string, tx: string, tx': string) returns (node: Node)
    ensures node.Valid() && node.log == [1, 2, 4500]
    ensures node.events == [PromptCreated(p, buyer, 1), PromptPurchased(p, buyer, None, tx),
                            PromptPurchased(p, buyer, None, tx')]
    ensures (forall w :: w in Windows(1, 5000) ==> !InPage(node, w, 1)) && InTwoPages(node, Windows(1, 5000), 2)
    ensures var after := ReplayWindows(node, EMPTY_INDEX, Windows(1, 5000));
            && PurchasesSinceCreation(node.events, p) == 2
            && p in after.prompts && after.prompts[p].sales == 2
  {
    var create := PromptCreated(p, buyer, 1);
    var missed, twice := PromptPurchased(p, buyer, None, tx), PromptPurchased(p, buyer, None, tx');
    node := ShortAnswer(create, missed, twice);
    ShortAnswerIsValid(create, missed, twice);
    ShortAnswerPages(create, missed, twice);
    CreatedAndSold(create, [twice, twice], p);
    CreatedAndSold(create, [missed, twice], p);
    assert node.events == [create] + [missed, twice];
    SalesOverWindows(node, EMPTY_INDEX, Windows(1, 5000), p);
  }
}
