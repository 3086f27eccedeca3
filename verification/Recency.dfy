/** The bounded list of recently viewed prompts (src/hooks/useRecentlyViewed.ts). */
module Recency {
  const MAX_ITEMS := 20

  datatype Item = Item(id: string, title: string, category: string, imageUrl: string, viewedAt: string)

  function Without(items: seq<Item>, id: string): seq<Item> {
    if items == [] then []
    else (if items[0].id == id then [] else [items[0]]) + Without(items[1..], id)
  }

  // What is left is exactly the entries with another id, in their order.
  lemma {:induction false} WithoutMeaning(items: seq<Item>, id: string)
    ensures forall x :: x in Without(items, id) <==> x in items && x.id != id
    ensures |Without(items, id)| <= |items|
    ensures forall n :: 0 <= n <= |items| ==> Without(items[..n], id) <= Without(items, id)
  {
    if items != [] {
      WithoutMeaning(items[1..], id);
      assert items == [items[0]] + items[1..];
      forall n | 0 < n <= |items|
        ensures Without(items[..n], id) <= Without(items, id)
      {
        assert items[..n][1..] == items[1..][..n - 1];
        assert Without(items[1..][..n - 1], id) <= Without(items[1..], id);
      }
    }
  }

  function Take(items: seq<Item>, n: nat): seq<Item> {
    if |items| <= n then items else items[..n]
  }

  function View(items: seq<Item>, item: Item): seq<Item> {
    Take([item] + Without(items, item.id), MAX_ITEMS)
  }

  class RecentlyViewed {
    var items: seq<Item>
    var stored: seq<Item>

    ghost predicate Synced()
      reads this
    {
      items == stored
    }

    constructor (stored: seq<Item>)
      ensures items == stored && Synced()
    {
      items, this.stored := stored, stored;
    }

    method RecordView(item: Item)
      modifies this
      ensures items == View(old(items), item) && Synced()
      ensures 0 < |items| <= 20 && items[0] == item
      ensures items[1..] <= Without(old(items), item.id)
      ensures |items| < 20 ==> items[1..] == Without(old(items), item.id)
    {
      var filtered := Without(items, item.id);
      var next := [item] + filtered;
      if |next| > MAX_ITEMS {
        next := next[..MAX_ITEMS];
      }
      stored := next;
      items := next;
    }

    method Remove(id: string)
      modifies this
      ensures items == Without(old(items), id) && Synced()
      ensures forall x :: x in items <==> x in old(items) && x.id != id
      ensures forall n :: 0 <= n <= |old(items)| ==> Without(old(items)[..n], id) <= items
    {
      WithoutMeaning(items, id);
      var next := Without(items, id);
      items := next;
      stored := next;
    }

    method Clear()
      modifies this
      ensures items == [] && Synced()
    {
      items, stored := [], [];
    }
  }

  // ---------- runs ----------

  datatype Step = Viewed(item: Item) | Removed(id: string) | Cleared

  // What the hook holds after a run.
  function Bounded(steps: seq<Step>): seq<Item> {
    if steps == [] then []
    else
      var before := Bounded(steps[..|steps| - 1]);
      match steps[|steps| - 1]
      case Viewed(item) => View(before, item)
      case Removed(id) => Without(before, id)
      case Cleared => []
  }

  // The move-to-front list that is never cut.
  function Unbounded(steps: seq<Step>): seq<Item> {
    if steps == [] then []
    else
      var before := Unbounded(steps[..|steps| - 1]);
      match steps[|steps| - 1]
      case Viewed(item) => [item] + Without(before, item.id)
      case Removed(id) => Without(before, id)
      case Cleared => []
  }

  ghost predicate Distinct(items: seq<Item>) {
    forall i, j :: 0 <= i < j < |items| ==> items[i].id != items[j].id
  }

  predicate Has(items: seq<Item>, id: string) {
    exists i :: 0 <= i < |items| && items[i].id == id
  }

  // ---------- removing one id ----------

  lemma {:induction false} WithoutAbsent(items: seq<Item>, id: string)
    requires !Has(items, id)
    ensures Without(items, id) == items
  {
    if items != [] {
      assert items[0].id != id;
      assert forall i :: 0 <= i < |items[1..]| ==> items[1..][i] == items[i + 1];
      WithoutAbsent(items[1..], id);
    }
  }

  lemma {:induction false} WithoutAt(items: seq<Item>, k: nat)
    requires Distinct(items) && k < |items|
    ensures Without(items, items[k].id) == items[..k] + items[k + 1..]
  {
    var rest := items[1..];
    if k == 0 {
      assert !Has(rest, items[0].id) by {
        assert forall i :: 0 <= i < |rest| ==> rest[i] == items[i + 1];
      }
      WithoutAbsent(rest, items[0].id);
    } else {
      WithoutAt(rest, k - 1);
      assert items[0].id != items[k].id && rest[k - 1] == items[k];
      assert items[..k] == [items[0]] + rest[..k - 1] && rest[k..] == items[k + 1..];
    }
  }

  lemma WithoutDistinct(items: seq<Item>, id: string)
    requires Distinct(items)
    ensures Distinct(Without(items, id)) && !Has(Without(items, id), id)
    ensures |items| - 1 <= |Without(items, id)| <= |items|
    ensures Has(items, id) <==> |Without(items, id)| < |items|
  {
    if Has(items, id) {
      var k :| 0 <= k < |items| && items[k].id == id;
      WithoutAt(items, k);
    } else {
      WithoutAbsent(items, id);
    }
  }

  lemma WithoutPrefixAt(items: seq<Item>, n: nat, k: nat)
    requires Distinct(items) && k < n <= |items|
    ensures Without(items[..n], items[k].id) == items[..k] + items[k + 1..n]
  {
    assert items[..n][k] == items[k];
    WithoutAt(items[..n], k);
    assert items[..n][..k] == items[..k] && items[..n][k + 1..] == items[k + 1..n];
  }

  // Filtering a prefix of a list gives a prefix of the filtered list.
  lemma WithoutPrefix(items: seq<Item>, n: nat, id: string)
    requires Distinct(items) && n <= |items|
    ensures Without(items[..n], id) <= Without(items, id)
    ensures n - 1 <= |Without(items[..n], id)|
  {
    if Has(items, id) {
      var k :| 0 <= k < |items| && items[k].id == id;
      WithoutAt(items, k);
      if k < n {
        WithoutPrefixAt(items, n, k);
      } else {
        assert forall i :: 0 <= i < n ==> items[..n][i] == items[i];
        WithoutAbsent(items[..n], id);
      }
    } else {
      assert forall i :: 0 <= i < n ==> items[..n][i] == items[i];
      WithoutAbsent(items[..n], id);
      WithoutAbsent(items, id);
    }
  }

  // ---------- what the uncut list is ----------

  // Step i viewed an item that no later step viewed again, removed or cleared.
  ghost predicate Standing(steps: seq<Step>, i: nat) {
    && i < |steps| && steps[i].Viewed?
    && forall k :: i < k < |steps| ==> !Ends(steps[k], steps[i].item.id)
  }

  predicate Ends(s: Step, id: string) {
    match s
    case Viewed(item) => item.id == id
    case Removed(other) => other == id
    case Cleared => true
  }

  // The items of some views, latest view first.
  ghost predicate ItemsOf(steps: seq<Step>, at: seq<nat>, items: seq<Item>) {
    && |at| == |items|
    && (forall p, q :: 0 <= p < q < |at| ==> at[p] > at[q])
    && forall p :: 0 <= p < |at| ==> at[p] < |steps| && steps[at[p]] == Viewed(items[p])
  }

  lemma OneMoreView(steps: seq<Step>, at: seq<nat>, items: seq<Item>, i: nat)
    requires ItemsOf(steps, at, items) && i < |steps| && steps[i].Viewed? && forall j :: j in at ==> j < i
    ensures ItemsOf(steps, [i] + at, [steps[i].item] + items)
    ensures forall j :: j in [i] + at <==> j == i || j in at
  {
    var longer, more := [i] + at, [steps[i].item] + items;
    assert forall p :: 0 < p < |longer| ==> longer[p] == at[p - 1] && longer[p] in at && more[p] == items[p - 1];
  }

  lemma FirstView(steps: seq<Step>, at: seq<nat>, items: seq<Item>)
    requires ItemsOf(steps, at, items) && items != []
    ensures at[0] < |steps| && steps[at[0]] == Viewed(items[0]) && ItemsOf(steps, at[1..], items[1..])
    ensures forall j :: j in at[1..] ==> j < at[0]
    ensures forall j :: j in at <==> j == at[0] || j in at[1..]
  {
    assert at == [at[0]] + at[1..];
  }

  ghost predicate IsView(steps: seq<Step>, i: nat) {
    i < |steps| && steps[i].Viewed?
  }

  lemma {:induction false} WithoutViews(steps: seq<Step>, at: seq<nat>, items: seq<Item>, id: string)
    returns (kept: seq<nat>)
    requires ItemsOf(steps, at, items)
    ensures ItemsOf(steps, kept, Without(items, id))
    ensures forall i :: i in kept <==> i in at && IsView(steps, i) && steps[i].item.id != id
  {
    kept := [];
    if items != [] {
      FirstView(steps, at, items);
      var rest := WithoutViews(steps, at[1..], items[1..], id);
      if items[0].id == id {
        kept := rest;
      } else {
        OneMoreView(steps, rest, Without(items[1..], id), at[0]);
        kept := [at[0]] + rest;
      }
    }
  }

  // The list holds the items whose last view still stands, each as it was last viewed, latest first.
  lemma {:induction false} UnboundedMeaning(steps: seq<Step>) returns (at: seq<nat>)
    ensures ItemsOf(steps, at, Unbounded(steps))
    ensures forall i: nat :: i in at <==> Standing(steps, i)
  {
    at := [];
    if steps != [] {
      var front, last := steps[..|steps| - 1], steps[|steps| - 1];
      assert steps == front + [last];
      StandingNext(front, last);
      var before := UnboundedMeaning(front);
      match last
      case Viewed(item) =>
        var kept := WithoutViews(front, before, Unbounded(front), item.id);
        Longer(front, kept, Without(Unbounded(front), item.id), last);
        OneMoreView(steps, kept, Without(Unbounded(front), item.id), |front|);
        at := [|front|] + kept;
      case Removed(id) =>
        at := WithoutViews(front, before, Unbounded(front), id);
        Longer(front, at, Unbounded(steps), last);
      case Cleared =>
    }
  }

  lemma Longer(front: seq<Step>, at: seq<nat>, items: seq<Item>, last: Step)
    requires ItemsOf(front, at, items)
    ensures ItemsOf(front + [last], at, items) && forall j :: j in at ==> j < |front|
  {
  }

  lemma StandingNext(front: seq<Step>, last: Step)
    ensures forall i: nat :: Standing(front + [last], i) <==>
                               if i == |front| then last.Viewed?
                               else Standing(front, i) && !Ends(last, front[i].item.id)
  {
    forall i: nat
      ensures Standing(front + [last], i) <==>
              if i == |front| then last.Viewed? else Standing(front, i) && !Ends(last, front[i].item.id)
    {
      StandingAt(front, last, i);
    }
  }

  lemma StandingAt(front: seq<Step>, last: Step, i: nat)
    ensures Standing(front + [last], i) <==>
            if i == |front| then last.Viewed? else Standing(front, i) && !Ends(last, front[i].item.id)
  {
    var steps := front + [last];
    if i < |front| {
      assert steps[|front|] == last;
      assert forall k :: i < k < |front| ==> steps[k] == front[k];
    }
  }

  // ---------- the bounded list ----------

  lemma {:induction false} UnboundedDistinct(steps: seq<Step>)
    ensures Distinct(Unbounded(steps))
  {
    if steps != [] {
      var n := |steps| - 1;
      UnboundedDistinct(steps[..n]);
      match steps[n]
      case Viewed(item) =>
        WithoutDistinct(Unbounded(steps[..n]), item.id);
        var rest := Without(Unbounded(steps[..n]), item.id);
        assert forall i :: 0 <= i < |rest| ==> rest[i].id != item.id;
      case Removed(id) => WithoutDistinct(Unbounded(steps[..n]), id);
      case Cleared =>
    }
  }

  // Over any run: no id twice, at most twenty, and the newest of what was viewed, in order, without gaps.
  lemma {:induction false} BoundedIsPrefix(steps: seq<Step>)
    ensures Bounded(steps) <= Unbounded(steps) && |Bounded(steps)| <= 20 && Distinct(Bounded(steps))
  {
    if steps != [] {
      var n := |steps| - 1;
      var before, all := Bounded(steps[..n]), Unbounded(steps[..n]);
      BoundedIsPrefix(steps[..n]);
      UnboundedDistinct(steps[..n]);
      UnboundedDistinct(steps);
      assert before == all[..|before|];
      match steps[n]
      case Viewed(item) =>
        WithoutPrefix(all, |before|, item.id);
      case Removed(id) =>
        WithoutPrefix(all, |before|, id);
        WithoutDistinct(before, id);
      case Cleared =>
    }
  }

  // Cutting after every view loses nothing against cutting once at the end.
  lemma {:induction false} ViewsAreTheFirstTwenty(steps: seq<Step>)
    requires forall s :: s in steps ==> s.Viewed?
    ensures Bounded(steps) == Take(Unbounded(steps), MAX_ITEMS)
    ensures Bounded(steps) == if |Unbounded(steps)| <= 20 then Unbounded(steps) else Unbounded(steps)[..20]
  {
    if steps != [] {
      var n := |steps| - 1;
      var before, all := Bounded(steps[..n]), Unbounded(steps[..n]);
      var item := steps[n].item;
      ViewsAreTheFirstTwenty(steps[..n]);
      UnboundedDistinct(steps[..n]);
      if |all| > MAX_ITEMS {
        WithoutPrefix(all, MAX_ITEMS, item.id);
        WithoutDistinct(all, item.id);
        assert |[item] + Without(before, item.id)| >= MAX_ITEMS;
      }
    }
  }

  lemma RemoveFromFull(all: seq<Item>, id: string)
    requires Distinct(all) && |all| > MAX_ITEMS
    ensures Without(all[..MAX_ITEMS], id) == Take(Without(all, id), MAX_ITEMS) <==> !Has(all[..MAX_ITEMS], id)
  {
    WithoutPrefix(all, MAX_ITEMS, id);
    WithoutDistinct(all, id);
    WithoutDistinct(all[..MAX_ITEMS], id);
  }

  // After a removal the list may be short of the first twenty, since what was cut before does not come back:
  // exactly when the removed id was among twenty kept out of more.
  lemma RemovalDoesNotRefill(viewed: seq<Step>, id: string)
    requires forall s :: s in viewed ==> s.Viewed?
    ensures Bounded(viewed + [Removed(id)]) == Take(Unbounded(viewed + [Removed(id)]), MAX_ITEMS) <==>
            |Unbounded(viewed)| <= MAX_ITEMS || !Has(Bounded(viewed), id)
  {
    assert (viewed + [Removed(id)])[..|viewed|] == viewed;
    ViewsAreTheFirstTwenty(viewed);
    UnboundedDistinct(viewed);
    if |Unbounded(viewed)| > MAX_ITEMS {
      RemoveFromFull(Unbounded(viewed), id);
    } else {
      WithoutDistinct(Unbounded(viewed), id);
    }
  }
}
