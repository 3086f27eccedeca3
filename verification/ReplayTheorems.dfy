/** Which parts of the index survive overlapping windows, and when the loop misses events. */
module ReplayTheorems {
  import opened Options
  import opened Ledger
  import opened Replay
  import opened Text

  // ---------- cells: what an event writes, one field at a time ----------

  datatype Cell =
    | PriceOf(prompt: string)
    | ActiveOf(prompt: string)
    | OwnerOf(prompt: string)
    | PurchaseOf(key: PurchaseKey)

  datatype Value = Amount(n: int) | Flag(b: bool) | Wallet(w: string)
  datatype Write = Skip | Put(v: Value) | PutIfPresent(v: Value)

  function Read(ix: Index, cell: Cell): Option<Value> {
    match cell
    case PriceOf(p) => if p in ix.prompts then Some(Amount(ix.prompts[p].price)) else None
    case ActiveOf(p) => if p in ix.prompts then Some(Flag(ix.prompts[p].active)) else None
    case OwnerOf(p) => if p in ix.prompts then Some(Wallet(ix.prompts[p].owner)) else None
    case PurchaseOf(key) => if key in ix.purchases then Some(Amount(ix.purchases[key])) else None
  }

  function WriteOf(e: Event, cell: Cell): Write {
    match e
    case PromptCreated(p, creator, price) =>
      if cell == PriceOf(p) then Put(Amount(price))
      else if cell == ActiveOf(p) then Put(Flag(true))
      else if cell == OwnerOf(p) then Put(Wallet(Lower(creator)))
      else Skip
    case PromptPurchased(p, buyer, versionIndex, txHash) =>
      if buyer != "" && cell == PurchaseOf(PurchaseKey(p, Lower(buyer), txHash))
      then Put(Amount(if versionIndex.Some? then versionIndex.value else 0))
      else Skip
    case PromptOwnershipTransferred(p, recipient) =>
      if recipient != "" && cell == OwnerOf(p) then PutIfPresent(Wallet(Lower(recipient))) else Skip
    case PromptPriceUpdated(p, price) => if cell == PriceOf(p) then PutIfPresent(Amount(price)) else Skip
    case PromptSaleStatusUpdated(p, active) => if cell == ActiveOf(p) then PutIfPresent(Flag(active)) else Skip
    case Unrecognised => Skip
  }

  function Do(v: Option<Value>, w: Write): Option<Value> {
    match w
    case Skip => v
    case Put(x) => Some(x)
    case PutIfPresent(x) => if v.Some? then Some(x) else None
  }

  function DoAll(v: Option<Value>, events: seq<Event>, cell: Cell): Option<Value> {
    if events == [] then v
    else Do(DoAll(v, events[..|events| - 1], cell), WriteOf(events[|events| - 1], cell))
  }

  lemma ProcessWrites(ix: Index, e: Event, cell: Cell)
    ensures Read(Process(ix, e), cell) == Do(Read(ix, cell), WriteOf(e, cell))
  {
  }

  lemma {:induction false} ReplayWrites(ix: Index, events: seq<Event>, cell: Cell)
    ensures Read(ReplayAll(ix, events), cell) == DoAll(Read(ix, cell), events, cell)
  {
    if events != [] {
      var init := events[..|events| - 1];
      ReplayWrites(ix, init, cell);
      ProcessWrites(ReplayAll(ix, init), events[|events| - 1], cell);
    }
  }

  // What a replay does to a cell: it leaves every present value alone, or it ends on one value, which is also
  // where it takes an absent cell unless it leaves that absent.
  lemma {:induction false} DoAllShape(events: seq<Event>, cell: Cell) returns (last: Option<Value>)
    ensures forall v: Option<Value> :: v.Some? ==> DoAll(v, events, cell) == if last.Some? then last else v
    ensures DoAll(None, events, cell).Some? ==> DoAll(None, events, cell) == last
  {
    last := None;
    if events != [] {
      last := DoAllShape(events[..|events| - 1], cell);
      var w := WriteOf(events[|events| - 1], cell);
      last := if w.Skip? then last else Some(w.v);
    }
  }

  lemma DoAllTwice(v: Option<Value>, events: seq<Event>, cell: Cell)
    ensures DoAll(DoAll(v, events, cell), events, cell) == DoAll(v, events, cell)
  {
    var last := DoAllShape(events, cell);
  }

  // ---------- users ----------

  lemma ProcessAddsUsers(ix: Index, e: Event)
    ensures Process(ix, e).users.Keys == ix.users.Keys + UsersOf(e)
    ensures forall u :: u in ix.users ==> u in Process(ix, e).users && Process(ix, e).users[u] == ix.users[u]
  {
  }

  lemma {:induction false} UsersOnlyGrow(ix: Index, events: seq<Event>)
    ensures forall u :: u in ix.users ==>
                          u in ReplayAll(ix, events).users && ReplayAll(ix, events).users[u] == ix.users[u]
    ensures ReplayAll(ix, events).users.Keys == ix.users.Keys + UsersMet(events)
  {
    if events != [] {
      UsersOnlyGrow(ix, events[..|events| - 1]);
      ProcessAddsUsers(ReplayAll(ix, events[..|events| - 1]), events[|events| - 1]);
    }
  }

  // A wallet met for the first time is named after its first six characters, as the event spells it.
  lemma NewUserIsNamed(ix: Index, e: Event, wallet: string)
    requires Lower(wallet) !in ix.users
    requires (e.PromptCreated? && e.creator == wallet)
             || (e.PromptOwnershipTransferred? && e.recipient == wallet && wallet != "")
    ensures var users := Process(ix, e).users;
            && Lower(wallet) in users && "user_" <= users[Lower(wallet)]
            && users[Lower(wallet)][5..] <= wallet
            && |users[Lower(wallet)]| == 5 + if |wallet| < 6 then |wallet| else 6
  {
    var name := if |wallet| < 6 then wallet else wallet[..6];
    assert ("user_" + name)[5..] == name;
  }

  // The creators and recipients of some events.
  function UsersMet(events: seq<Event>): set<string> {
    if events == [] then {} else UsersMet(events[..|events| - 1]) + UsersOf(events[|events| - 1])
  }

  function UsersOf(e: Event): set<string> {
    match e
    case PromptCreated(_, creator, _) => {Lower(creator)}
    case PromptOwnershipTransferred(_, recipient) => if recipient == "" then {} else {Lower(recipient)}
    case _ => {}
  }

  // ---------- overlap ----------

  // Equal in prices, active flags, owners, users and purchases; sales counts may differ.
  ghost predicate Same(a: Index, b: Index) {
    a.users == b.users && forall cell :: Read(a, cell) == Read(b, cell)
  }

  lemma SameReplay(a: Index, b: Index, events: seq<Event>)
    requires Same(a, b)
    ensures Same(ReplayAll(a, events), ReplayAll(b, events))
  {
    forall cell
      ensures Read(ReplayAll(a, events), cell) == Read(ReplayAll(b, events), cell)
    {
      ReplayWrites(a, events, cell);
      ReplayWrites(b, events, cell);
    }
    SameUsers(a, b, events);
  }

  lemma ProcessUsers(a: Index, b: Index, e: Event)
    requires a.users == b.users
    ensures Process(a, e).users == Process(b, e).users
  {
  }

  lemma {:induction false} SameUsers(a: Index, b: Index, events: seq<Event>)
    requires a.users == b.users
    ensures ReplayAll(a, events).users == ReplayAll(b, events).users
  {
    if events != [] {
      var init := events[..|events| - 1];
      SameUsers(a, b, init);
      ProcessUsers(ReplayAll(a, init), ReplayAll(b, init), events[|events| - 1]);
    }
  }

  // Replaying any stretch of events twice in a row is replaying it once, save for the sales counts.
  lemma ReplayTwice(ix: Index, events: seq<Event>)
    ensures Same(ReplayAll(ReplayAll(ix, events), events), ReplayAll(ix, events))
  {
    var once := ReplayAll(ix, events);
    forall cell
      ensures Read(ReplayAll(once, events), cell) == Read(once, cell)
    {
      ReplayWrites(ix, events, cell);
      ReplayWrites(once, events, cell);
      DoAllTwice(Read(ix, cell), events, cell);
    }
    UsersOnlyGrow(ix, events);
    UsersOnlyGrow(once, events);
    assert ReplayAll(once, events).users.Keys == once.users.Keys;
    assert ReplayAll(once, events).users == once.users;
  }

  lemma {:induction false} ReplaySplit(ix: Index, xs: seq<Event>, ys: seq<Event>)
    ensures ReplayAll(ix, xs + ys) == ReplayAll(ReplayAll(ix, xs), ys)
  {
    if ys == [] {
      assert xs + ys == xs;
    } else {
      assert (xs + ys)[..|xs + ys| - 1] == xs + ys[..|ys| - 1];
      ReplaySplit(ix, xs, ys[..|ys| - 1]);
    }
  }

  lemma ReplayStretch(ix: Index, events: seq<Event>, a: nat, b: nat, c: nat)
    requires a <= b <= c <= |events|
    ensures ReplayAll(ReplayAll(ix, events[a..b]), events[b..c]) == ReplayAll(ix, events[a..c])
  {
    assert events[a..c] == events[a..b] + events[b..c];
    ReplaySplit(ix, events[a..b], events[b..c]);
  }

  // The full event sequence followed by any of its suffixes leaves what one pass leaves.
  lemma SuffixReplay(ix: Index, events: seq<Event>, from: nat)
    requires from <= |events|
    ensures Same(ReplayAll(ReplayAll(ix, events), events[from..]), ReplayAll(ix, events))
  {
    assert events == events[..from] + events[from..];
    ReplaySplit(ix, events[..from], events[from..]);
    ReplayTwice(ReplayAll(ix, events[..from]), events[from..]);
  }

  // Pages that overlap but leave no gap: after events[first..end], a page from at most end to at least end.
  lemma OverlappingPage(ix: Index, events: seq<Event>, first: nat, from: nat, end: nat, to: nat, reached: Index)
    requires first <= from <= end <= to <= |events|
    requires Same(reached, ReplayAll(ix, events[first..end]))
    ensures Same(ReplayAll(reached, events[from..to]), ReplayAll(ix, events[first..to]))
  {
    var a, b, c := events[first..from], events[from..end], events[end..to];
    var once := ReplayAll(ix, events[first..end]);
    assert events[first..end] == a + b && events[from..to] == b + c && events[first..to] == events[first..end] + c;
    ReplaySplit(ix, a, b);
    ReplaySplit(reached, b, c);
    ReplaySplit(ix, events[first..end], c);
    SameReplay(reached, once, b);
    ReplayTwice(ReplayAll(ix, a), b);
    SameReplay(ReplayAll(reached, b), once, c);
  }

  // ---------- windows ----------

  // The windows tile [start, latest]: each begins where the last ended, each but the last spans 2000 ledgers and that
  // no more.
  lemma {:induction false} WindowsTile(start: nat, latest: nat)
    ensures var ws := Windows(start, latest);
            && (ws == [] <==> start > latest)
            && (ws != [] ==> ws[0].first == start && ws[|ws| - 1].last == latest)
            && (forall i :: 0 <= i < |ws| ==> ws[i].first <= ws[i].last < ws[i].first + 2000)
            && (forall i :: 0 <= i < |ws| - 1 ==> ws[i].last == ws[i].first + 1999)
            && (forall i :: 0 <= i < |ws| - 1 ==> ws[i + 1].first == ws[i].last + 1)
    decreases latest + 1 - start
  {
    if start <= latest {
      var last := WindowsHead(start, latest);
      var rest := Windows(last + 1, latest);
      WindowsTile(last + 1, latest);
      assert forall i :: 0 < i < |rest| + 1 ==> ([Window(start, last)] + rest)[i] == rest[i - 1];
    }
  }

  function PageStart(node: Node, w: Window): nat {
    FirstAt(node.log, w.first)
  }

  // The end of the events fetched so far, when a failed fetch brings none.
  function Reached(node: Node, windows: seq<Window>, end: nat): nat {
    if windows == [] then end
    else
      var answer := node.answers(windows[|windows| - 1].first);
      if answer.Some? then answer.value else Reached(node, windows[..|windows| - 1], end)
  }

  // Every page that arrives starts within, and ends at or beyond, the events fetched so far.
  ghost predicate Gapless(node: Node, windows: seq<Window>, end: nat) {
    forall i :: 0 <= i < |windows| && node.answers(windows[i].first).Some? ==>
                  && PageStart(node, windows[i]) <= Reached(node, windows[..i], end)
                  && Reached(node, windows[..i], end) <= node.answers(windows[i].first).value
  }

  ghost predicate Ascending(windows: seq<Window>, start: nat) {
    forall i :: 0 <= i < |windows| ==> start <= windows[i].first
  }

  // Whatever the overlaps and failed fetches, gapless windows leave what one pass over the events leaves.
  lemma {:induction false} GaplessIsOnePass(node: Node, ix: Index, windows: seq<Window>, start: nat)
    requires node.Valid() && Ascending(windows, start) && Gapless(node, windows, FirstAt(node.log, start))
    ensures FirstAt(node.log, start) <= Reached(node, windows, FirstAt(node.log, start)) <= |node.events|
    ensures Same(ReplayWindows(node, ix, windows),
                 ReplayAll(ix, node.events[FirstAt(node.log, start)..Reached(node, windows, FirstAt(node.log, start))]))
  {
    var first := FirstAt(node.log, start);
    if windows == [] {
      assert node.events[first..first] == [];
    } else {
      var n := |windows| - 1;
      var init := windows[..n];
      assert forall i :: 0 <= i < |init| ==> init[..i] == windows[..i];
      GaplessIsOnePass(node, ix, init, start);
      var end := Reached(node, init, first);
      if node.answers(windows[n].first).Some? {
        FirstAtGrows(node.log, start, windows[n].first);
        OverlappingPage(ix, node.events, first, PageStart(node, windows[n]), end,
                        node.answers(windows[n].first).value, ReplayWindows(node, ix, init));
      }
    }
  }

  // ---------- nodes that answer with pages of bounded size ----------

  // Every fetch succeeds with the first `limit` events from the window's start on.
  ghost predicate AnswersPages(node: Node, limit: nat) {
    node.Valid() && forall s :: node.answers(s) == Some(if FirstAt(node.log, s) + limit < |node.events|
                                                        then FirstAt(node.log, s) + limit else |node.events|)
  }

  predicate FitsPage(node: Node, w: Window, limit: nat) {
    FirstAt(node.log, w.last + 1) <= FirstAt(node.log, w.first) + limit
  }

  ghost predicate Fetched(node: Node, windows: seq<Window>, event: nat) {
    exists i :: 0 <= i < |windows| && PageStart(node, windows[i]) <= event
                && node.answers(windows[i].first).Some? && event < node.answers(windows[i].first).value
  }

  lemma WindowsAscend(start: nat, latest: nat, i: nat, j: nat)
    requires i < j < |Windows(start, latest)|
    ensures Windows(start, latest)[i].last < Windows(start, latest)[j].first
    decreases j
  {
    WindowsTile(start, latest);
    if i < j - 1 {
      WindowsAscend(start, latest, i, j - 1);
    }
  }

  lemma LedgersBetween(log: seq<nat>, start: nat, latest: nat, event: nat)
    requires FirstAt(log, start) <= event < FirstAt(log, latest + 1)
    ensures start <= latest
  {
  }

  // Of windows that follow on each other, one holds each event between their ends.
  lemma {:induction false} FindWindow(ws: seq<Window>, at: nat -> nat, event: nat) returns (i: nat)
    requires ws != [] && forall k :: 0 <= k < |ws| - 1 ==> ws[k + 1].first == ws[k].last + 1
    requires at(ws[0].first) <= event < at(ws[|ws| - 1].last + 1)
    ensures i < |ws| && at(ws[i].first) <= event < at(ws[i].last + 1)
  {
    var n := |ws| - 1;
    if event >= at(ws[n].first) {
      i := n;
    } else {
      i := FindWindow(ws[..n], at, event);
    }
  }

  // Some window holds an event of a ledger between start and latest.
  lemma WindowOf(log: seq<nat>, start: nat, latest: nat, event: nat) returns (i: nat)
    requires FirstAt(log, start) <= event < FirstAt(log, latest + 1)
    ensures i < |Windows(start, latest)|
    ensures var w := Windows(start, latest)[i]; FirstAt(log, w.first) <= event < FirstAt(log, w.last + 1)
  {
    LedgersBetween(log, start, latest, event);
    WindowsTile(start, latest);
    i := FindWindow(Windows(start, latest), (ledger: nat) => FirstAt(log, ledger), event);
  }

  // With pages of bounded size, the loop fetches every event from start to latest exactly when no window
  // holds more events than a page.
  lemma EveryEventIsFetched(node: Node, limit: nat, start: nat, latest: nat)
    requires AnswersPages(node, limit)
    ensures var ws := Windows(start, latest);
            (forall event :: FirstAt(node.log, start) <= event < FirstAt(node.log, latest + 1) ==>
              Fetched(node, ws, event))
            <==> (forall i :: 0 <= i < |ws| ==> FitsPage(node, ws[i], limit))
  {
    var ws := Windows(start, latest);
    if forall i :: 0 <= i < |ws| ==> FitsPage(node, ws[i], limit) {
      forall event | FirstAt(node.log, start) <= event < FirstAt(node.log, latest + 1)
        ensures Fetched(node, ws, event)
      {
        var i := WindowOf(node.log, start, latest, event);
        assert FitsPage(node, ws[i], limit);
      }
    } else {
      var i :| 0 <= i < |ws| && !FitsPage(node, ws[i], limit);
      MissedEvent(node, limit, start, latest, i);
    }
  }

  // No page of another window reaches an event that window i's own page is too short for.
  lemma BeyondOtherPages(node: Node, limit: nat, start: nat, latest: nat, i: nat, j: nat)
    requires AnswersPages(node, limit) && i < |Windows(start, latest)| && j < |Windows(start, latest)|
    requires !FitsPage(node, Windows(start, latest)[i], limit)
    ensures var ws := Windows(start, latest);
            var event := PageStart(node, ws[i]) + limit;
            PageStart(node, ws[j]) <= event ==> event >= node.answers(ws[j].first).value
  {
    var ws := Windows(start, latest);
    if i < j {
      WindowsAscend(start, latest, i, j);
      FirstAtGrows(node.log, ws[i].last + 1, ws[j].first);
    } else if j < i {
      WindowsAscend(start, latest, j, i);
      WindowsTile(start, latest);
      FirstAtGrows(node.log, ws[j].first, ws[i].first);
    }
  }

  lemma MissedEvent(node: Node, limit: nat, start: nat, latest: nat, i: nat)
    requires AnswersPages(node, limit) && i < |Windows(start, latest)|
              && !FitsPage(node, Windows(start, latest)[i], limit)
    ensures var ws := Windows(start, latest);
            var event := PageStart(node, ws[i]) + limit;
            FirstAt(node.log, start) <= event < FirstAt(node.log, latest + 1) && !Fetched(node, ws, event)
  {
    var ws := Windows(start, latest);
    WindowsBounds(start, latest, i);
    FirstAtGrows(node.log, start, ws[i].first);
    FirstAtGrows(node.log, ws[i].last + 1, latest + 1);
    forall j | 0 <= j < |ws|
      ensures var event := PageStart(node, ws[i]) + limit;
              PageStart(node, ws[j]) <= event ==> event >= node.answers(ws[j].first).value
    {
      BeyondOtherPages(node, limit, start, latest, i, j);
    }
  }

  lemma {:induction false} WindowsBounds(start: nat, latest: nat, i: nat)
    requires i < |Windows(start, latest)|
    ensures start <= Windows(start, latest)[i].first && Windows(start, latest)[i].last <= latest
    decreases latest + 1 - start
  {
    if i > 0 {
      WindowsBounds(Windows(start, latest)[0].last + 1, latest, i - 1);
    }
  }

  lemma ReachedAfter(node: Node, limit: nat, windows: seq<Window>, i: nat, end: nat)
    requires AnswersPages(node, limit) && 0 < i <= |windows|
    ensures Reached(node, windows[..i], end) == node.answers(windows[i - 1].first).value
  {
    assert windows[..i][|windows[..i]| - 1] == windows[i - 1];
  }

  lemma NextPageOverlaps(node: Node, limit: nat, start: nat, latest: nat, i: nat)
    requires AnswersPages(node, limit) && 0 < i < |Windows(start, latest)|
    requires FitsPage(node, Windows(start, latest)[i - 1], limit)
    ensures var ws := Windows(start, latest);
            PageStart(node, ws[i]) <= node.answers(ws[i - 1].first).value <= node.answers(ws[i].first).value
  {
    WindowsTile(start, latest);
    FirstAtGrows(node.log, Windows(start, latest)[i - 1].first, Windows(start, latest)[i].first);
  }

  lemma FittingPagesLeaveNoGap(node: Node, limit: nat, start: nat, latest: nat)
    requires AnswersPages(node, limit)
    requires forall i :: 0 <= i < |Windows(start, latest)| ==> FitsPage(node, Windows(start, latest)[i], limit)
    ensures Gapless(node, Windows(start, latest), FirstAt(node.log, start))
  {
    var ws := Windows(start, latest);
    forall i | 0 <= i < |ws|
      ensures PageStart(node, ws[i]) <= Reached(node, ws[..i], FirstAt(node.log, start))
      ensures Reached(node, ws[..i], FirstAt(node.log, start)) <= node.answers(ws[i].first).value
    {
      if i > 0 {
        ReachedAfter(node, limit, ws, i, FirstAt(node.log, start));
        NextPageOverlaps(node, limit, start, latest, i);
      } else {
        WindowsTile(start, latest);
      }
    }
  }

  // Then the re-index leaves, save for the sales counts, what one pass over all those events leaves.
  lemma ReindexIsOnePass(node: Node, ix: Index, limit: nat, start: nat, latest: nat) returns (end: nat)
    requires AnswersPages(node, limit) && start <= latest
    requires forall i :: 0 <= i < |Windows(start, latest)| ==> FitsPage(node, Windows(start, latest)[i], limit)
    ensures FirstAt(node.log, start) <= FirstAt(node.log, latest + 1) <= end <= |node.events|
    ensures Same(ReplayWindows(node, ix, Windows(start, latest)),
              ReplayAll(ix, node.events[FirstAt(node.log, start)..end]))
  {
    var ws := Windows(start, latest);
    FittingPagesLeaveNoGap(node, limit, start, latest);
    forall i | 0 <= i < |ws|
      ensures start <= ws[i].first
    {
      WindowsBounds(start, latest, i);
    }
    GaplessIsOnePass(node, ix, ws, start);
    end := Reached(node, ws, FirstAt(node.log, start));
    FittingPagesReach(node, limit, start, latest);
  }

  lemma FittingPagesReach(node: Node, limit: nat, start: nat, latest: nat)
    requires AnswersPages(node, limit) && start <= latest
    requires forall i :: 0 <= i < |Windows(start, latest)| ==> FitsPage(node, Windows(start, latest)[i], limit)
    ensures FirstAt(node.log, start) <= FirstAt(node.log, latest + 1)
            <= Reached(node, Windows(start, latest), FirstAt(node.log, start)) <= |node.events|
  {
    var ws := Windows(start, latest);
    WindowsTile(start, latest);
    assert ws[..|ws|] == ws;
    ReachedAfter(node, limit, ws, |ws|, FirstAt(node.log, start));
    assert FitsPage(node, ws[|ws| - 1], limit);
    FirstAtGrows(node.log, start, latest + 1);
  }

  // Pages that abut, each starting where the last one ended, are one pass in every field.
  lemma {:induction false} AbuttingPagesAreOnePass(node: Node, ix: Index, windows: seq<Window>, first: nat)
    requires node.Valid() && first <= |node.events|
    requires forall i :: 0 <= i < |windows| && node.answers(windows[i].first).Some? ==>
                           PageStart(node, windows[i]) == Reached(node, windows[..i], first)
    ensures first <= Reached(node, windows, first) <= |node.events|
    ensures ReplayWindows(node, ix, windows) == ReplayAll(ix, node.events[first..Reached(node, windows, first)])
  {
    if windows == [] {
      assert node.events[first..first] == [];
    } else {
      var n := |windows| - 1;
      var init := windows[..n];
      assert forall i :: 0 <= i < |init| ==> init[..i] == windows[..i];
      AbuttingPagesAreOnePass(node, ix, init, first);
      var answer := node.answers(windows[n].first);
      if answer.Some? {
        ReplayStretch(ix, node.events, first, Reached(node, init, first), answer.value);
      }
    }
  }

  // ---------- sales counts ----------

  predicate IsPurchase(e: Event, p: string) {
    e.PromptPurchased? && e.prompt == p
  }

  function Purchases(events: seq<Event>, p: string): nat {
    if events == [] then 0
    else Purchases(events[..|events| - 1], p) + if IsPurchase(events[|events| - 1], p) then 1 else 0
  }

  predicate Creates(events: seq<Event>, p: string) {
    exists k :: 0 <= k < |events| && events[k].PromptCreated? && events[k].prompt == p
  }

  // The purchases of p after the event that creates it.
  function PurchasesSinceCreation(events: seq<Event>, p: string): nat {
    if events == [] then 0
    else
      var init := events[..|events| - 1];
      PurchasesSinceCreation(init, p) + if IsPurchase(events[|events| - 1], p) && Creates(init, p) then 1 else 0
  }

  lemma ProcessSales(ix: Index, e: Event, p: string)
    requires p in ix.prompts
    ensures p in Process(ix, e).prompts
    ensures Process(ix, e).prompts[p].sales == ix.prompts[p].sales + if IsPurchase(e, p) then 1 else 0
  {
  }

  lemma {:induction false} PresentSales(ix: Index, events: seq<Event>, p: string)
    requires p in ix.prompts
    ensures p in ReplayAll(ix, events).prompts
    ensures ReplayAll(ix, events).prompts[p].sales == ix.prompts[p].sales + Purchases(events, p)
  {
    if events != [] {
      PresentSales(ix, events[..|events| - 1], p);
      ProcessSales(ReplayAll(ix, events[..|events| - 1]), events[|events| - 1], p);
    }
  }

  // One pass over disjoint windows counts the purchases since the prompt's creation.
  lemma {:induction false} SalesOfOnePass(ix: Index, events: seq<Event>, p: string)
    requires p !in ix.prompts
    ensures p in ReplayAll(ix, events).prompts <==> Creates(events, p)
    ensures Creates(events, p) ==> ReplayAll(ix, events).prompts[p].sales == PurchasesSinceCreation(events, p)
    ensures !Creates(events, p) ==> PurchasesSinceCreation(events, p) == 0
  {
    if events != [] {
      var init := events[..|events| - 1];
      SalesOfOnePass(ix, init, p);
      assert forall k :: 0 <= k < |init| ==> init[k] == events[k];
      var last := events[|events| - 1];
      assert Creates(events, p) <==> Creates(init, p) || (last.PromptCreated? && last.prompt == p);
    }
  }

  // Sales are what overlap spoils: a suffix seen again leaves p's count right exactly when it has no purchase of p.
  lemma OverlapDoubleCounts(ix: Index, events: seq<Event>, from: nat, p: string)
    requires from <= |events| && p in ReplayAll(ix, events).prompts
    ensures var once := ReplayAll(ix, events);
            var again := ReplayAll(once, events[from..]);
            && p in again.prompts && again.prompts[p].sales == once.prompts[p].sales + Purchases(events[from..], p)
            && (again.prompts[p] == once.prompts[p] <==> Purchases(events[from..], p) == 0)
  {
    var once := ReplayAll(ix, events);
    PresentSales(once, events[from..], p);
    SuffixReplay(ix, events, from);
    var again := ReplayAll(once, events[from..]);
    assert Read(again, PriceOf(p)) == Read(once, PriceOf(p));
    assert Read(again, ActiveOf(p)) == Read(once, ActiveOf(p));
    assert Read(again, OwnerOf(p)) == Read(once, OwnerOf(p));
  }
}
