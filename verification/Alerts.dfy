/** Saved searches and their listing alerts (src/hooks/useSavedSearches.ts), for one wallet. */
module Alerts {
  import opened Options
  import opened Text

  // An empty category or tag stands for an absent one; price is the number read from the listing.
  datatype Filter = Filter(searchQuery: string, category: string, low: real, high: real, tag: string)
  datatype Search = Search(id: string, name: string, filter: Filter, alertsEnabled: bool)
  datatype Listing = Listing(id: string, title: string, category: string, price: real, tags: seq<string>)
  datatype Alert = Alert(id: string, searchId: string, searchName: string, listingId: string, listingTitle: string,
                         listingCategory: string, listingPrice: real, read: bool)

  // The state of the hook and of its three storage entries.
  datatype State = State(searches: seq<Search>, alerts: seq<Alert>, seen: set<string>)

  type Key = string

  function KeyOf(searchId: string, listingId: string): Key {
    searchId + ":" + listingId
  }

  function AlertKey(a: Alert): Key {
    KeyOf(a.searchId, a.listingId)
  }

  predicate Matches(f: Filter, l: Listing) {
    var q := Lower(f.searchQuery);
    && (q == "" || Includes(Lower(l.title), q) || (l.category != "" && Includes(Lower(l.category), q)))
    && (f.category == "" || l.category == f.category)
    && f.low <= l.price <= f.high
    && (f.tag == "" || f.tag in l.tags)
  }

  function Raise(s: Search, l: Listing, ids: Key -> string): Alert {
    Alert(ids(KeyOf(s.id, l.id)), s.id, s.name, l.id, l.title, l.category, l.price, false)
  }

  // ---------- one batch ----------

  // The pairs the nested loops visit, in order.
  datatype Visit = Visit(search: Search, listing: Listing)

  function Row(s: Search, listings: seq<Listing>): seq<Visit> {
    seq(|listings|, i requires 0 <= i < |listings| => Visit(s, listings[i]))
  }

  function Visits(searches: seq<Search>, listings: seq<Listing>): seq<Visit> {
    if searches == [] then []
    else
      var last := searches[|searches| - 1];
      Visits(searches[..|searches| - 1], listings) + if last.alertsEnabled then Row(last, listings) else []
  }

  function KeysOf(alerts: seq<Alert>): set<Key> {
    set a | a in alerts :: AlertKey(a)
  }

  // ids gives the alert id drawn for each key.
  function Generate(visits: seq<Visit>, seen: set<Key>, ids: Key -> string): seq<Alert> {
    if visits == [] then []
    else
      var before := Generate(visits[..|visits| - 1], seen, ids);
      var v := visits[|visits| - 1];
      if KeyOf(v.search.id, v.listing.id) in seen + KeysOf(before) || !Matches(v.search.filter, v.listing) then before
      else before + [Raise(v.search, v.listing, ids)]
  }

  lemma GenerateMore(visits: seq<Visit>, v: Visit, seen: set<Key>, ids: Key -> string)
    ensures var before := Generate(visits, seen, ids);
            Generate(visits + [v], seen, ids) ==
            if KeyOf(v.search.id, v.listing.id) in seen + KeysOf(before) || !Matches(v.search.filter, v.listing)
            then before
            else before + [Raise(v.search, v.listing, ids)]
  {
    assert (visits + [v])[..|visits|] == visits;
  }

  function Generated(st: State, listings: seq<Listing>, ids: Key -> string): seq<Alert> {
    Generate(Visits(st.searches, listings), st.seen, ids)
  }

  // ---------- the operations ----------

  datatype Step =
    | SaveSearch(search: Search)
    | RenameSearch(id: string, name: string)
    | ToggleAlerts(id: string, enabled: Option<bool>)
    | DeleteSearch(id: string)
    | ProcessListings(listings: seq<Listing>, ids: Key -> string)
    | MarkRead(alertId: string)
    | ClearAlerts

  function Edited(searches: seq<Search>, id: string, edit: Search -> Search): seq<Search> {
    seq(|searches|, i requires 0 <= i < |searches| => if searches[i].id == id then edit(searches[i]) else searches[i])
  }

  function Without(searches: seq<Search>, id: string): (kept: seq<Search>)
    ensures forall s :: s in kept <==> s in searches && s.id != id
  {
    if searches == [] then []
    else (if searches[0].id == id then [] else [searches[0]]) + Without(searches[1..], id)
  }

  // Those kept stay in order.
  lemma {:induction false} WithoutSplits(xs: seq<Search>, ys: seq<Search>, id: string)
    ensures Without(xs + ys, id) == Without(xs, id) + Without(ys, id)
  {
    if xs == [] {
      assert xs + ys == ys;
    } else {
      assert (xs + ys)[1..] == xs[1..] + ys;
      WithoutSplits(xs[1..], ys, id);
    }
  }

  function Read(alerts: seq<Alert>, id: string): seq<Alert> {
    seq(|alerts|, i requires 0 <= i < |alerts| => if alerts[i].id == id then alerts[i].(read := true) else alerts[i])
  }

  function Renamed(name: string): Search -> Search {
    (s: Search) => s.(name := name)
  }

  function Toggled(enabled: Option<bool>): Search -> Search {
    (s: Search) => s.(alertsEnabled := if enabled.Some? then enabled.value else !s.alertsEnabled)
  }

  function Apply(st: State, step: Step): State {
    match step
    case SaveSearch(search) => st.(searches := [search] + st.searches)
    case RenameSearch(id, name) => st.(searches := Edited(st.searches, id, Renamed(name)))
    case ToggleAlerts(id, enabled) => st.(searches := Edited(st.searches, id, Toggled(enabled)))
    case DeleteSearch(id) => st.(searches := Without(st.searches, id))
    case ProcessListings(listings, ids) =>
      var raised := Generated(st, listings, ids);
      st.(alerts := raised + st.alerts, seen := st.seen + KeysOf(raised))
    case MarkRead(id) => st.(alerts := Read(st.alerts, id))
    case ClearAlerts => st.(alerts := [])
  }

  // The inner loop: one enabled search against the batch.
  method ScanListings(search: Search, listings: seq<Listing>, ids: Key -> string, ghost before: seq<Visit>,
                      ghost stored: set<Key>, seen: set<Key>, alerts: seq<Alert>)
    returns (seenKeys: set<Key>, generated: seq<Alert>)
    requires alerts == Generate(before, stored, ids) && seen == stored + KeysOf(alerts)
    ensures generated == Generate(before + Row(search, listings), stored, ids)
    ensures seenKeys == stored + KeysOf(generated)
  {
    seenKeys, generated := seen, alerts;
    assert before + Row(search, listings[..0]) == before;
    for j := 0 to |listings|
      invariant generated == Generate(before + Row(search, listings[..j]), stored, ids)
      invariant seenKeys == stored + KeysOf(generated)
    {
      var item := listings[j];
      var key := KeyOf(search.id, item.id);
      assert before + Row(search, listings[..j + 1]) == (before + Row(search, listings[..j])) + [Visit(search, item)];
      GenerateMore(before + Row(search, listings[..j]), Visit(search, item), stored, ids);
      if key !in seenKeys && Matches(search.filter, item) {
        seenKeys := seenKeys + {key};
        KeysOfOneMore(generated, Raise(search, item, ids));
        generated := generated + [Raise(search, item, ids)];
      }
    }
    assert listings[..|listings|] == listings;
  }

  class SavedSearches {
    var searches: seq<Search>
    var alerts: seq<Alert>
    var storedSeen: set<Key>

    ghost function Current(): State
      reads this
    {
      State(searches, alerts, storedSeen)
    }

    constructor (searches: seq<Search>, alerts: seq<Alert>, storedSeen: set<Key>)
      ensures Current() == State(searches, alerts, storedSeen)
    {
      this.searches, this.alerts, this.storedSeen := searches, alerts, storedSeen;
    }

    method SaveSearch(search: Search)
      modifies this`searches
      ensures Current() == Apply(old(Current()), Step.SaveSearch(search))
      ensures searches == [search] + old(searches)
    {
      searches := [search] + searches;
    }

    method RenameSearch(id: string, name: string)
      modifies this`searches
      ensures Current() == Apply(old(Current()), Step.RenameSearch(id, name))
      ensures |searches| == old(|searches|)
      ensures forall i :: 0 <= i < |searches| ==>
                            if old(searches)[i].id == id
                            then searches[i].name == name
                              && searches[i].(name := old(searches)[i].name) == old(searches)[i]
                            else searches[i] == old(searches)[i]
    {
      searches := Edited(searches, id, Renamed(name));
    }

    method ToggleAlerts(id: string, enabled: Option<bool>)
      modifies this`searches
      ensures Current() == Apply(old(Current()), Step.ToggleAlerts(id, enabled))
      ensures |searches| == old(|searches|)
      ensures forall i :: 0 <= i < |searches| && old(searches)[i].id != id ==> searches[i] == old(searches)[i]
      ensures forall i :: 0 <= i < |searches| && old(searches)[i].id == id ==>
                            && searches[i].(alertsEnabled := old(searches)[i].alertsEnabled) == old(searches)[i]
                            && (searches[i].alertsEnabled != old(searches)[i].alertsEnabled <==>
                                enabled != Some(old(searches)[i].alertsEnabled))
    {
      searches := Edited(searches, id, Toggled(enabled));
    }

    method DeleteSearch(id: string)
      modifies this`searches
      ensures Current() == Apply(old(Current()), Step.DeleteSearch(id))
      ensures forall s :: s in searches <==> s in old(searches) && s.id != id
    {
      searches := Without(searches, id);
    }

    method ProcessListingAlerts(listings: seq<Listing>, ids: Key -> string) returns (generated: seq<Alert>)
      modifies this`alerts, this`storedSeen
      ensures generated == Generated(old(Current()), listings, ids)
      ensures Current() == Apply(old(Current()), ProcessListings(listings, ids))
      ensures alerts == generated + old(alerts)
      ensures storedSeen == old(storedSeen) + set a | a in generated :: a.searchId + ":" + a.listingId
    {
      generated := [];
      if |listings| == 0 || |searches| == 0 {
        NothingToVisit(searches, listings);
        assert generated + alerts == alerts;
        return;
      }
      var seenKeys := storedSeen;
      for i := 0 to |searches|
        invariant generated == Generate(Visits(searches[..i], listings), storedSeen, ids)
        invariant seenKeys == storedSeen + KeysOf(generated)
        invariant Current() == old(Current())
      {
        var search := searches[i];
        assert searches[..i + 1][..i] == searches[..i];
        if search.alertsEnabled {
          seenKeys, generated := ScanListings(search, listings, ids, Visits(searches[..i], listings), storedSeen,
            seenKeys, generated);
        } else {
          assert Visits(searches[..i], listings) + [] == Visits(searches[..i], listings);
        }
      }
      assert searches[..|searches|] == searches;
      if |generated| > 0 {
        storedSeen := seenKeys;
        alerts := generated + alerts;
      } else {
        assert generated + alerts == alerts;
      }
    }

    method MarkAlertRead(id: string)
      modifies this`alerts
      ensures Current() == Apply(old(Current()), MarkRead(id))
      ensures |alerts| == old(|alerts|)
      ensures forall i :: 0 <= i < |alerts| ==>
                            && alerts[i].(read := false) == old(alerts)[i].(read := false)
                            && (alerts[i].read <==> old(alerts)[i].read || old(alerts)[i].id == id)
    {
      alerts := Read(alerts, id);
    }

    method ClearAlerts()
      modifies this`alerts
      ensures Current() == Apply(old(Current()), Step.ClearAlerts)
      ensures alerts == []
    {
      alerts := [];
    }
  }

  lemma KeysOfOneMore(alerts: seq<Alert>, a: Alert)
    ensures KeysOf(alerts + [a]) == KeysOf(alerts) + {AlertKey(a)}
  {
    assert a in alerts + [a];
    assert forall b :: b in alerts ==> b in alerts + [a];
  }

  lemma {:induction false} NothingToVisit(searches: seq<Search>, listings: seq<Listing>)
    requires searches == [] || listings == []
    ensures Visits(searches, listings) == []
  {
    if searches != [] {
      NothingToVisit(searches[..|searches| - 1], listings);
    }
  }

  // ---------- runs ----------

  ghost predicate Trace(states: seq<State>, steps: seq<Step>) {
    && |states| == |steps| + 1
    && forall i :: 0 <= i < |steps| ==> states[i + 1] == Apply(states[i], steps[i])
  }

  // Every alert raised over a run of steps, in order.
  function Raised(states: seq<State>, steps: seq<Step>): seq<Alert>
    requires |states| == |steps| + 1
  {
    if steps == [] then []
    else
      var n := |steps| - 1;
      Raised(states[..n + 1], steps[..n])
      + if steps[n].ProcessListings? then Generated(states[n], steps[n].listings, steps[n].ids) else []
  }
}
