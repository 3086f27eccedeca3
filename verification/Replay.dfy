/** Ledger replay into the index (server/scripts/reIndexFromLedger.ts): the event fold, and the window loop
    that drives it over pages of the contract's events. */
module Replay {
  import opened Options
  import opened Ledger
  import opened Text

  const BATCH_SIZE := 2000

  // An empty buyer or recipient stands for an absent one. Prices stay in stroops.
  datatype Event =
    | PromptCreated(prompt: string, creator: string, price: int)
    | PromptPurchased(prompt: string, buyer: string, versionIndex: Option<int>, txHash: string)
    | PromptOwnershipTransferred(prompt: string, recipient: string)
    | PromptPriceUpdated(prompt: string, price: int)
    | PromptSaleStatusUpdated(prompt: string, active: bool)
    | Unrecognised

  datatype Prompt = Prompt(owner: string, price: int, active: bool, sales: nat)
  datatype PurchaseKey = PurchaseKey(prompt: string, buyer: string, txHash: string)

  // users: wallet to username. A prompt's owner is its user's wallet.
  datatype Index = Index(prompts: map<string, Prompt>, users: map<string, string>, purchases: map<PurchaseKey, int>)

  datatype Summary = Summary(created: nat, purchased: nat, priceUpdated: nat, statusUpdated: nat,
                             ownershipTransferred: nat, unknown: nat)

  function EnsureUser(users: map<string, string>, wallet: string): map<string, string> {
    if Lower(wallet) in users then users
    else users[Lower(wallet) := "user_" + if |wallet| < 6 then wallet else wallet[..6]]
  }

  function Process(ix: Index, e: Event): Index {
    match e
    case PromptCreated(p, creator, price) =>
      var sales := if p in ix.prompts then ix.prompts[p].sales else 0;
      ix.(users := EnsureUser(ix.users, creator),
          prompts := ix.prompts[p := Prompt(Lower(creator), price, true, sales)])
    case PromptPurchased(p, buyer, versionIndex, txHash) =>
      var version := if versionIndex.Some? then versionIndex.value else 0;
      ix.(prompts := if p in ix.prompts
                     then ix.prompts[p := ix.prompts[p].(sales := ix.prompts[p].sales + 1)]
                     else ix.prompts,
          purchases := if buyer != ""
                       then ix.purchases[PurchaseKey(p, Lower(buyer), txHash) := version]
                       else ix.purchases)
    case PromptOwnershipTransferred(p, recipient) =>
      if recipient == "" then ix
      else
        ix.(users := EnsureUser(ix.users, recipient),
            prompts := if p in ix.prompts
                       then ix.prompts[p := ix.prompts[p].(owner := Lower(recipient))]
                       else ix.prompts)
    case PromptPriceUpdated(p, price) =>
      ix.(prompts := if p in ix.prompts then ix.prompts[p := ix.prompts[p].(price := price)] else ix.prompts)
    case PromptSaleStatusUpdated(p, active) =>
      ix.(prompts := if p in ix.prompts then ix.prompts[p := ix.prompts[p].(active := active)] else ix.prompts)
    case Unrecognised => ix
  }

  function Count(s: Summary, e: Event): Summary {
    match e
    case PromptCreated(_, _, _) => s.(created := s.created + 1)
    case PromptPurchased(_, _, _, _) => s.(purchased := s.purchased + 1)
    case PromptOwnershipTransferred(_, _) => s.(ownershipTransferred := s.ownershipTransferred + 1)
    case PromptPriceUpdated(_, _) => s.(priceUpdated := s.priceUpdated + 1)
    case PromptSaleStatusUpdated(_, _) => s.(statusUpdated := s.statusUpdated + 1)
    case Unrecognised => s.(unknown := s.unknown + 1)
  }

  function ReplayAll(ix: Index, events: seq<Event>): Index {
    if events == [] then ix else Process(ReplayAll(ix, events[..|events| - 1]), events[|events| - 1])
  }

  function CountAll(s: Summary, events: seq<Event>): Summary {
    if events == [] then s else Count(CountAll(s, events[..|events| - 1]), events[|events| - 1])
  }

  // ---------- the window loop ----------

  datatype Window = Window(first: nat, last: nat)

  function Windows(current: nat, latest: nat): seq<Window>
    decreases latest + 1 - current
  {
    if current > latest then []
    else
      var last := if current + BATCH_SIZE - 1 < latest then current + BATCH_SIZE - 1 else latest;
      [Window(current, last)] + Windows(last + 1, latest)
  }

  // A history of events with their ledgers, and what the node answers: for a window's start ledger, where in
  // the history its page ends. The request names no end ledger, so that may lie outside the window.
  datatype Node = Node(log: seq<nat>, events: seq<Event>, answers: nat -> Option<nat>) {
    ghost predicate Valid() {
      && Sorted(log) && |log| == |events|
      && forall s :: answers(s).Some? ==> FirstAt(log, s) <= answers(s).value <= |events|
    }

    function Page(start: nat): seq<Event> {
      var end := answers(start);
      if end.Some? && FirstAt(log, start) <= end.value <= |events| then events[FirstAt(log, start)..end.value] else []
    }
  }

  function ReplayWindows(node: Node, ix: Index, windows: seq<Window>): Index {
    if windows == [] then ix
    else
      var before := ReplayWindows(node, ix, windows[..|windows| - 1]);
      ReplayAll(before, node.Page(windows[|windows| - 1].first))
  }

  // Everything the windows' pages bring, in order, as often as they bring it.
  function AllPages(node: Node, windows: seq<Window>): seq<Event> {
    if windows == [] then []
    else AllPages(node, windows[..|windows| - 1]) + node.Page(windows[|windows| - 1].first)
  }

  function CountWindows(node: Node, s: Summary, windows: seq<Window>): Summary {
    if windows == [] then s
    else CountAll(CountWindows(node, s, windows[..|windows| - 1]), node.Page(windows[|windows| - 1].first))
  }

  // ---------- what the counters count ----------

  datatype Kind = Creation | Purchase | PriceUpdate | StatusUpdate | Transfer | Unknown

  predicate IsOf(e: Event, kind: Kind) {
    match kind
    case Creation => e.PromptCreated?
    case Purchase => e.PromptPurchased?
    case PriceUpdate => e.PromptPriceUpdated?
    case StatusUpdate => e.PromptSaleStatusUpdated?
    case Transfer => e.PromptOwnershipTransferred?
    case Unknown => e.Unrecognised?
  }

  // Where the events of a kind stand.
  function Places(events: seq<Event>, kind: Kind): set<nat> {
    set k: nat | k < |events| && IsOf(events[k], kind)
  }

  // Each counter is the number of events of its kind, and together they are all the events.
  ghost predicate Tallied(s: Summary, events: seq<Event>) {
    && s.created == |Places(events, Creation)|
    && s.purchased == |Places(events, Purchase)|
    && s.priceUpdated == |Places(events, PriceUpdate)|
    && s.statusUpdated == |Places(events, StatusUpdate)|
    && s.ownershipTransferred == |Places(events, Transfer)|
    && s.unknown == |Places(events, Unknown)|
    && s.created + s.purchased + s.priceUpdated + s.statusUpdated + s.ownershipTransferred + s.unknown == |events|
  }

  lemma OneMorePlace(events: seq<Event>, e: Event, kind: Kind)
    ensures |Places(events + [e], kind)| == |Places(events, kind)| + if IsOf(e, kind) then 1 else 0
  {
    var more: set<nat> := if IsOf(e, kind) then {|events|} else {};
    assert Places(events + [e], kind) == Places(events, kind) + more;
  }

  lemma OneMoreTallied(s: Summary, events: seq<Event>, e: Event)
    requires Tallied(s, events)
    ensures Tallied(Count(s, e), events + [e])
  {
    OneMorePlace(events, e, Creation);
    OneMorePlace(events, e, Purchase);
    OneMorePlace(events, e, PriceUpdate);
    OneMorePlace(events, e, StatusUpdate);
    OneMorePlace(events, e, Transfer);
    OneMorePlace(events, e, Unknown);
  }

  lemma {:induction false} PageTallied(s: Summary, events: seq<Event>, page: seq<Event>)
    requires Tallied(s, events)
    ensures Tallied(CountAll(s, page), events + page)
  {
    if page == [] {
      assert events + page == events;
    } else {
      var n := |page| - 1;
      PageTallied(s, events, page[..n]);
      OneMoreTallied(CountAll(s, page[..n]), events + page[..n], page[n]);
      assert events + page == events + page[..n] + [page[n]];
    }
  }

  // Over the window loop the counters count what all the pages bring.
  lemma {:induction false} CountersMeaning(node: Node, windows: seq<Window>)
    ensures Tallied(CountWindows(node, ZERO_SUMMARY, windows), AllPages(node, windows))
  {
    if windows != [] {
      var n := |windows| - 1;
      CountersMeaning(node, windows[..n]);
      PageTallied(CountWindows(node, ZERO_SUMMARY, windows[..n]), AllPages(node, windows[..n]),
                  node.Page(windows[n].first));
    }
  }

  // ---------- the methods ----------

  lemma WindowsHead(current: nat, latest: nat) returns (last: nat)
    requires current <= latest
    ensures last == if current + BATCH_SIZE - 1 < latest then current + BATCH_SIZE - 1 else latest
    ensures Windows(current, latest) == [Window(current, last)] + Windows(last + 1, latest)
  {
    last := if current + BATCH_SIZE - 1 < latest then current + BATCH_SIZE - 1 else latest;
  }

  lemma OneMoreWindow(node: Node, ix: Index, s: Summary, windows: seq<Window>, w: Window)
    ensures ReplayWindows(node, ix, windows + [w]) == ReplayAll(ReplayWindows(node, ix, windows), node.Page(w.first))
    ensures CountWindows(node, s, windows + [w]) == CountAll(CountWindows(node, s, windows), node.Page(w.first))
  {
    assert (windows + [w])[..|windows|] == windows;
  }

  lemma MoveHead(xs: seq<Window>, w: Window, ys: seq<Window>)
    ensures xs + ([w] + ys) == (xs + [w]) + ys
  {
  }

  const ZERO_SUMMARY := Summary(0, 0, 0, 0, 0, 0)

  class ReIndexer {
    var index: Index
    var summary: Summary
    var lastIndexedLedger: Option<nat>

    constructor (index: Index)
      ensures this.index == index
    {
      this.index := index;
      summary := ZERO_SUMMARY;
      lastIndexedLedger := None;
    }

    method ProcessEvent(e: Event, dryRun: bool)
      modifies this`index, this`summary
      ensures index == if dryRun then old(index) else Process(old(index), e)
      ensures summary == Count(old(summary), e)
      ensures summary.created == old(summary).created + (if e.PromptCreated? then 1 else 0)
      ensures summary.purchased == old(summary).purchased + (if e.PromptPurchased? then 1 else 0)
      ensures summary.priceUpdated == old(summary).priceUpdated + (if e.PromptPriceUpdated? then 1 else 0)
      ensures summary.statusUpdated == old(summary).statusUpdated + (if e.PromptSaleStatusUpdated? then 1 else 0)
      ensures summary.ownershipTransferred
              == old(summary).ownershipTransferred + (if e.PromptOwnershipTransferred? then 1 else 0)
      ensures summary.unknown == old(summary).unknown + (if e.Unrecognised? then 1 else 0)
    {
      match e
      case PromptCreated(p, creator, price) =>
        summary := summary.(created := summary.created + 1);
        if !dryRun {
          index := index.(users := EnsureUser(index.users, creator));
          var sales := if p in index.prompts then index.prompts[p].sales else 0;
          index := index.(prompts := index.prompts[p := Prompt(Lower(creator), price, true, sales)]);
        }
      case PromptPurchased(p, buyer, versionIndex, txHash) =>
        summary := summary.(purchased := summary.purchased + 1);
        if !dryRun {
          if p in index.prompts {
            index := index.(prompts := index.prompts[p := index.prompts[p].(sales := index.prompts[p].sales + 1)]);
          }
          if buyer != "" {
            var version := if versionIndex.Some? then versionIndex.value else 0;
            index := index.(purchases := index.purchases[PurchaseKey(p, Lower(buyer), txHash) := version]);
          }
        }
      case PromptOwnershipTransferred(p, recipient) =>
        summary := summary.(ownershipTransferred := summary.ownershipTransferred + 1);
        if !dryRun && recipient != "" {
          index := index.(users := EnsureUser(index.users, recipient));
          if p in index.prompts {
            index := index.(prompts := index.prompts[p := index.prompts[p].(owner := Lower(recipient))]);
          }
        }
      case PromptPriceUpdated(p, price) =>
        summary := summary.(priceUpdated := summary.priceUpdated + 1);
        if !dryRun && p in index.prompts {
          index := index.(prompts := index.prompts[p := index.prompts[p].(price := price)]);
        }
      case PromptSaleStatusUpdated(p, active) =>
        summary := summary.(statusUpdated := summary.statusUpdated + 1);
        if !dryRun && p in index.prompts {
          index := index.(prompts := index.prompts[p := index.prompts[p].(active := active)]);
        }
      case Unrecognised =>
        summary := summary.(unknown := summary.unknown + 1);
    }

    method ProcessPage(page: seq<Event>, dryRun: bool)
      modifies this`index, this`summary
      ensures index == if dryRun then old(index) else ReplayAll(old(index), page)
      ensures summary == CountAll(old(summary), page)
    {
      for i := 0 to |page|
        invariant index == if dryRun then old(index) else ReplayAll(old(index), page[..i])
        invariant summary == CountAll(old(summary), page[..i])
      {
        assert page[..i + 1][..i] == page[..i];
        ProcessEvent(page[i], dryRun);
      }
      assert page[..|page|] == page;
    }

    // Prompts and users are wiped first; purchases are not.
    method ReIndex(node: Node, start: nat, latest: nat, dryRun: bool) returns (windows: seq<Window>)
      modifies this
      ensures windows == Windows(start, latest)
      ensures summary == CountWindows(node, ZERO_SUMMARY, windows) && Tallied(summary, AllPages(node, windows))
      ensures dryRun ==> index == old(index) && lastIndexedLedger == old(lastIndexedLedger)
      ensures !dryRun ==>
                && index == ReplayWindows(node, Index(map[], map[], old(index).purchases), windows)
                && lastIndexedLedger == Some(latest)
    {
      if !dryRun {
        index := Index(map[], map[], index.purchases);
      }
      ghost var wiped := index;
      summary := ZERO_SUMMARY;
      windows := [];
      var current := start;
      while current <= latest
        invariant Windows(start, latest) == windows + Windows(current, latest)
        invariant index == if dryRun then wiped else ReplayWindows(node, wiped, windows)
        invariant summary == CountWindows(node, ZERO_SUMMARY, windows)
        invariant lastIndexedLedger == old(lastIndexedLedger)
        decreases latest + 1 - current
      {
        var last := if current + BATCH_SIZE - 1 < latest then current + BATCH_SIZE - 1 else latest;
        ghost var end := WindowsHead(current, latest);
        OneMoreWindow(node, wiped, ZERO_SUMMARY, windows, Window(current, last));
        MoveHead(windows, Window(current, last), Windows(last + 1, latest));
        ProcessPage(node.Page(current), dryRun);
        windows := windows + [Window(current, last)];
        current := last + 1;
      }
      CountersMeaning(node, windows);
      if !dryRun {
        lastIndexedLedger := Some(latest);
      }
    }
  }
}
