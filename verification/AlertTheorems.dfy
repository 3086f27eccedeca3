/** Over any run of batches, edits and clears: no pair is alerted twice, every alert matched, and how listings
    are cut into batches does not matter. */
module AlertTheorems {
  import opened Options
  import opened Alerts
  import opened Text

  ghost predicate NoRepeats(keys: seq<Key>) {
    forall i, j :: 0 <= i < j < |keys| ==> keys[i] != keys[j]
  }

  function Keys(alerts: seq<Alert>): seq<Key> {
    seq(|alerts|, i requires 0 <= i < |alerts| => AlertKey(alerts[i]))
  }

  // ---------- what a match is ----------

  // The same letter, small or capital.
  predicate SameLetter(a: char, b: char) {
    || a == b
    || ('A' <= a <= 'Z' && b as int - a as int == 32)
    || ('A' <= b <= 'Z' && a as int - b as int == 32)
  }

  predicate MentionedAt(text: string, words: string, i: nat) {
    i + |words| <= |text| && forall k :: 0 <= k < |words| ==> SameLetter(text[i + k], words[k])
  }

  // The words occur in the text, small and capital letters alike.
  predicate Mentions(text: string, words: string) {
    exists i :: 0 <= i <= |text| && MentionedAt(text, words, i)
  }

  // The title or the category mentions the words searched for, the category and the tag are those asked for, if any,
  // and the price lies within the range, its ends included.
  predicate Wanted(f: Filter, l: Listing) {
    && (f.searchQuery == "" || Mentions(l.title, f.searchQuery) || Mentions(l.category, f.searchQuery))
    && (f.category == "" || f.category == l.category)
    && l.price >= f.low && l.price <= f.high
    && (f.tag == "" || exists k :: 0 <= k < |l.tags| && l.tags[k] == f.tag)
  }

  lemma LowerLetters(a: string, b: string, i: nat, j: nat)
    requires i < |a| && j < |b|
    ensures Lower(a)[i] == Lower(b)[j] <==> SameLetter(a[i], b[j])
  {
  }

  lemma MentionsAt(text: string, words: string, i: nat)
    ensures OccursAt(Lower(text), Lower(words), i) <==> MentionedAt(text, words, i)
  {
    if i + |words| <= |text| {
      forall k | 0 <= k < |words|
        ensures Lower(text)[i + k] == Lower(words)[k] <==> SameLetter(text[i + k], words[k])
      {
        LowerLetters(text, words, i + k, k);
      }
    }
  }

  lemma IncludesLower(text: string, words: string)
    ensures Includes(Lower(text), Lower(words)) <==> Mentions(text, words)
  {
    IncludesMeaning(Lower(text), Lower(words));
    forall i: nat
      ensures OccursAt(Lower(text), Lower(words), i) <==> MentionedAt(text, words, i)
    {
      MentionsAt(text, words, i);
    }
  }

  lemma MatchMeaning(f: Filter, l: Listing)
    ensures Matches(f, l) <==> Wanted(f, l)
  {
    IncludesLower(l.title, f.searchQuery);
    IncludesLower(l.category, f.searchQuery);
    if f.searchQuery != "" && l.category == "" {
      assert !Mentions(l.category, f.searchQuery);
    }
    assert |Lower(f.searchQuery)| == |f.searchQuery|;
  }

  // ---------- one batch ----------

  ghost predicate Justified(a: Alert, searches: seq<Search>, listings: seq<Listing>) {
    exists s, l :: s in searches && l in listings && s.alertsEnabled && Wanted(s.filter, l) && IsFor(a, s, l)
  }

  // The alert tells the search and the listing, and is unread.
  predicate IsFor(a: Alert, s: Search, l: Listing) {
    && a.searchId == s.id && a.searchName == s.name
    && a.listingId == l.id && a.listingTitle == l.title && a.listingCategory == l.category && a.listingPrice == l.price
    && !a.read
  }

  function MatchKeys(searches: seq<Search>, listings: seq<Listing>): set<Key> {
    set s, l | s in searches && l in listings && s.alertsEnabled && Wanted(s.filter, l) :: s.id + ":" + l.id
  }

  lemma {:induction false} VisitsAre(searches: seq<Search>, listings: seq<Listing>, v: Visit)
    ensures v in Visits(searches, listings) <==>
            v.search in searches && v.search.alertsEnabled && v.listing in listings
  {
    if searches != [] {
      var n := |searches| - 1;
      VisitsAre(searches[..n], listings, v);
      assert searches == searches[..n] + [searches[n]];
      if v.search == searches[n] && v.listing in listings {
        var i :| 0 <= i < |listings| && listings[i] == v.listing;
        assert Row(searches[n], listings)[i] == v;
      }
    }
  }

  lemma {:induction false} GenerateOnce(visits: seq<Visit>, seen: set<Key>, ids: Key -> string)
    ensures NoRepeats(Keys(Generate(visits, seen, ids)))
  {
    if visits != [] {
      var before, v := Generate(visits[..|visits| - 1], seen, ids), visits[|visits| - 1];
      GenerateOnce(visits[..|visits| - 1], seen, ids);
      if AlertKey(Raise(v.search, v.listing, ids)) !in KeysOf(before) {
        NoRepeatsBoth(before, [Raise(v.search, v.listing, ids)]);
      }
    }
  }

  lemma {:induction false} GenerateMatched(visits: seq<Visit>, seen: set<Key>, ids: Key -> string, a: Alert)
    requires a in Generate(visits, seen, ids)
    ensures exists v :: v in visits && Matches(v.search.filter, v.listing) && a == Raise(v.search, v.listing, ids)
  {
    var n := |visits| - 1;
    assert visits == visits[..n] + [visits[n]];
    if a in Generate(visits[..n], seen, ids) {
      GenerateMatched(visits[..n], seen, ids, a);
    }
  }

  lemma {:induction false} GenerateKeys(visits: seq<Visit>, seen: set<Key>, ids: Key -> string)
    ensures KeysOf(Generate(visits, seen, ids)) ==
            (set v | v in visits && Matches(v.search.filter, v.listing) :: KeyOf(v.search.id, v.listing.id)) - seen
  {
    if visits != [] {
      var n := |visits| - 1;
      var before, v := Generate(visits[..n], seen, ids), visits[n];
      GenerateKeys(visits[..n], seen, ids);
      KeysOfOneMore(before, Raise(v.search, v.listing, ids));
      assert visits == visits[..n] + [v];
    }
  }

  // A batch raises exactly the matches not seen before, each key once, each for an enabled search it matched.
  lemma BatchMeaning(st: State, listings: seq<Listing>, ids: Key -> string)
    ensures var made := Generated(st, listings, ids);
            && NoRepeats(Keys(made))
            && (forall a :: a in made ==>
                              Justified(a, st.searches, listings) && a.id == ids(a.searchId + ":" + a.listingId))
            && KeysOf(made) == MatchKeys(st.searches, listings) - st.seen
  {
    GenerateOnce(Visits(st.searches, listings), st.seen, ids);
    forall a | a in Generated(st, listings, ids)
      ensures Justified(a, st.searches, listings) && a.id == ids(a.searchId + ":" + a.listingId)
    {
      AlertMeaning(st, listings, ids, a);
    }
    BatchKeys(st, listings, ids);
  }

  lemma AlertMeaning(st: State, listings: seq<Listing>, ids: Key -> string, a: Alert)
    requires a in Generated(st, listings, ids)
    ensures Justified(a, st.searches, listings) && a.id == ids(a.searchId + ":" + a.listingId)
  {
    var visits := Visits(st.searches, listings);
    GenerateMatched(visits, st.seen, ids, a);
    var v :| v in visits && Matches(v.search.filter, v.listing) && a == Raise(v.search, v.listing, ids);
    VisitsAre(st.searches, listings, v);
    MatchMeaning(v.search.filter, v.listing);
    assert IsFor(a, v.search, v.listing);
  }

  lemma BatchKeys(st: State, listings: seq<Listing>, ids: Key -> string)
    ensures KeysOf(Generated(st, listings, ids)) == MatchKeys(st.searches, listings) - st.seen
  {
    var visits := Visits(st.searches, listings);
    GenerateKeys(visits, st.seen, ids);
    forall v: Visit
      ensures v in visits && Matches(v.search.filter, v.listing) <==>
              v.search in st.searches && v.search.alertsEnabled && v.listing in listings
                && Wanted(v.search.filter, v.listing)
    {
      VisitsAre(st.searches, listings, v);
      MatchMeaning(v.search.filter, v.listing);
    }
    forall k | k in MatchKeys(st.searches, listings) - st.seen
      ensures k in KeysOf(Generated(st, listings, ids))
    {
      var s, l :| s in st.searches && l in listings && s.alertsEnabled && Wanted(s.filter, l)
        && k == KeyOf(s.id, l.id);
      assert Visit(s, l) in visits;
    }
  }

  // ---------- the order of a batch ----------

  // The second part of the visits raises what it would alone, with the keys of the first part seen.
  lemma {:induction false} GenerateSplits(xs: seq<Visit>, ys: seq<Visit>, seen: set<Key>, ids: Key -> string)
    ensures var first := Generate(xs, seen, ids);
            Generate(xs + ys, seen, ids) == first + Generate(ys, seen + KeysOf(first), ids)
  {
    if ys == [] {
      assert xs + ys == xs;
    } else {
      var n := |ys| - 1;
      GenerateSplits(xs, ys[..n], seen, ids);
      assert ys == ys[..n] + [ys[n]];
      SplitOneMore(xs, ys[..n], ys[n], seen, ids);
    }
  }

  lemma SplitOneMore(xs: seq<Visit>, ys: seq<Visit>, v: Visit, seen: set<Key>, ids: Key -> string)
    requires Generate(xs + ys, seen, ids) ==
             Generate(xs, seen, ids) + Generate(ys, seen + KeysOf(Generate(xs, seen, ids)), ids)
    ensures Generate(xs + (ys + [v]), seen, ids) ==
            Generate(xs, seen, ids) + Generate(ys + [v], seen + KeysOf(Generate(xs, seen, ids)), ids)
  {
    var first := Generate(xs, seen, ids);
    var second := Generate(ys, seen + KeysOf(first), ids);
    assert xs + (ys + [v]) == (xs + ys) + [v];
    GenerateNext(xs + ys, v, seen, ids);
    GenerateNext(ys, v, seen + KeysOf(first), ids);
    NextSplits(first, second, v, seen, ids);
  }

  // What one more visit makes of the alerts before it.
  function Next(before: seq<Alert>, v: Visit, seen: set<Key>, ids: Key -> string): seq<Alert> {
    if KeyOf(v.search.id, v.listing.id) in seen + KeysOf(before) || !Matches(v.search.filter, v.listing) then before
    else before + [Raise(v.search, v.listing, ids)]
  }

  lemma GenerateNext(visits: seq<Visit>, v: Visit, seen: set<Key>, ids: Key -> string)
    ensures Generate(visits + [v], seen, ids) == Next(Generate(visits, seen, ids), v, seen, ids)
  {
    GenerateMore(visits, v, seen, ids);
  }

  lemma NextSplits(first: seq<Alert>, second: seq<Alert>, v: Visit, seen: set<Key>, ids: Key -> string)
    ensures Next(first + second, v, seen, ids) == first + Next(second, v, seen + KeysOf(first), ids)
  {
    KeysOfBoth(first, second);
  }

  lemma {:induction false} VisitsOver(xs: seq<Search>, ys: seq<Search>, listings: seq<Listing>)
    ensures Visits(xs + ys, listings) == Visits(xs, listings) + Visits(ys, listings)
  {
    if ys == [] {
      assert xs + ys == xs;
    } else {
      var n := |ys| - 1;
      assert (xs + ys)[..|xs + ys| - 1] == xs + ys[..n];
      VisitsOver(xs, ys[..n], listings);
    }
  }

  // A batch goes search by search: the alerts of the first searches come first, and are those these alone would raise.
  lemma EarlierSearchesFirst(st: State, xs: seq<Search>, ys: seq<Search>, listings: seq<Listing>, ids: Key -> string)
    requires st.searches == xs + ys
    ensures var first := st.(searches := xs);
            var later := Apply(first, ProcessListings(listings, ids)).(searches := ys);
            Generated(st, listings, ids) == Generated(first, listings, ids) + Generated(later, listings, ids)
  {
    VisitsOver(xs, ys, listings);
    GenerateSplits(Visits(xs, listings), Visits(ys, listings), st.seen, ids);
  }

  // Within a search it goes listing by listing.
  lemma EarlierListingsFirst(st: State, s: Search, xs: seq<Listing>, ys: seq<Listing>, ids: Key -> string)
    requires st.searches == [s]
    ensures var later := Apply(st, ProcessListings(xs, ids));
            Generated(st, xs + ys, ids) == Generated(st, xs, ids) + Generated(later, ys, ids)
  {
    OneSearch(s, xs);
    OneSearch(s, ys);
    OneSearch(s, xs + ys);
    assert Row(s, xs + ys) == Row(s, xs) + Row(s, ys);
    assert Visits([s], xs + ys) == Visits([s], xs) + Visits([s], ys);
    GenerateSplits(Visits([s], xs), Visits([s], ys), st.seen, ids);
  }

  lemma OneSearch(s: Search, listings: seq<Listing>)
    ensures Visits([s], listings) == if s.alertsEnabled then Row(s, listings) else []
  {
    assert [s][..0] == [];
    assert Visits([], listings) == [];
  }

  // ---------- any run ----------

  // No pair is alerted twice over a run, nor one that was seen before it.
  lemma {:induction false} AtMostOnce(states: seq<State>, steps: seq<Step>)
    requires Trace(states, steps)
    ensures NoRepeats(Keys(Raised(states, steps)))
    ensures states[|steps|].seen == states[0].seen + KeysOf(Raised(states, steps))
    ensures states[0].seen !! KeysOf(Raised(states, steps))
  {
    if steps != [] {
      var n := |steps| - 1;
      var before := Raised(states[..n + 1], steps[..n]);
      AtMostOnce(states[..n + 1], steps[..n]);
      if steps[n].ProcessListings? {
        var made := Generated(states[n], steps[n].listings, steps[n].ids);
        BatchMeaning(states[n], steps[n].listings, steps[n].ids);
        KeysOfBoth(before, made);
        NoRepeatsBoth(before, made);
      } else {
        assert Raised(states, steps) == before;
      }
    }
  }

  lemma KeysOfBoth(xs: seq<Alert>, ys: seq<Alert>)
    ensures KeysOf(xs + ys) == KeysOf(xs) + KeysOf(ys)
  {
    forall a | a in xs || a in ys
      ensures a in xs + ys
    {
    }
  }

  lemma NoRepeatsBoth(xs: seq<Alert>, ys: seq<Alert>)
    requires NoRepeats(Keys(xs)) && NoRepeats(Keys(ys)) && KeysOf(xs) !! KeysOf(ys)
    ensures NoRepeats(Keys(xs + ys))
  {
    forall i, j | 0 <= i < |xs| && 0 <= j < |ys|
      ensures AlertKey(xs[i]) != AlertKey(ys[j])
    {
      assert AlertKey(xs[i]) in KeysOf(xs) && AlertKey(ys[j]) in KeysOf(ys);
    }
    assert Keys(xs + ys) == Keys(xs) + Keys(ys);
  }

  // In particular no (search, listing) pair is alerted twice.
  lemma PairsAreRaisedOnce(states: seq<State>, steps: seq<Step>, i: nat, j: nat)
    requires Trace(states, steps) && i < j < |Raised(states, steps)|
    ensures var r := Raised(states, steps);
            r[i].searchId != r[j].searchId || r[i].listingId != r[j].listingId
  {
    AtMostOnce(states, steps);
    var keys := Keys(Raised(states, steps));
    assert keys[i] != keys[j];
  }

  // Every alert of a run was raised by a step whose searches had one, enabled then, that its listing matched.
  lemma {:induction false} EveryAlertMatched(states: seq<State>, steps: seq<Step>, a: Alert)
    requires Trace(states, steps) && a in Raised(states, steps)
    ensures exists i :: 0 <= i < |steps| && steps[i].ProcessListings?
              && Justified(a, states[i].searches, steps[i].listings)
  {
    var n := |steps| - 1;
    if a in Raised(states[..n + 1], steps[..n]) {
      EveryAlertMatched(states[..n + 1], steps[..n], a);
      var i :| 0 <= i < n && steps[..n][i].ProcessListings?
        && Justified(a, states[..n + 1][i].searches, steps[..n][i].listings);
      assert steps[i].ProcessListings? && Justified(a, states[i].searches, steps[i].listings);
    } else {
      BatchMeaning(states[n], steps[n].listings, steps[n].ids);
      assert Justified(a, states[n].searches, steps[n].listings);
    }
  }

  // Nothing is missed: after a batch every match of an enabled search has been raised, then or earlier.
  lemma NoMatchIsMissed(states: seq<State>, steps: seq<Step>, i: nat)
    requires Trace(states, steps) && i < |steps| && steps[i].ProcessListings?
    ensures MatchKeys(states[i].searches, steps[i].listings) <=
            states[0].seen + KeysOf(Raised(states[..i + 2], steps[..i + 1]))
  {
    BatchMeaning(states[i], steps[i].listings, steps[i].ids);
    AtMostOnce(states[..i + 2], steps[..i + 1]);
  }

  // The list shown never holds a pair twice and holds seen pairs only.
  ghost predicate Tidy(st: State) {
    NoRepeats(Keys(st.alerts)) && KeysOf(st.alerts) <= st.seen
  }

  lemma ReadKeepsKeys(alerts: seq<Alert>, id: string)
    ensures Keys(Read(alerts, id)) == Keys(alerts) && KeysOf(Read(alerts, id)) == KeysOf(alerts)
  {
    forall i | 0 <= i < |alerts|
      ensures AlertKey(Read(alerts, id)[i]) == AlertKey(alerts[i])
    {
    }
    forall a | a in alerts
      ensures AlertKey(a) in KeysOf(Read(alerts, id))
    {
      var i :| 0 <= i < |alerts| && alerts[i] == a;
      assert Read(alerts, id)[i] in Read(alerts, id);
    }
  }

  lemma ApplyKeepsTidy(st: State, step: Step)
    requires Tidy(st)
    ensures Tidy(Apply(st, step))
  {
    match step
    case ProcessListings(listings, ids) =>
      var made := Generated(st, listings, ids);
      BatchMeaning(st, listings, ids);
      KeysOfBoth(made, st.alerts);
      NoRepeatsBoth(made, st.alerts);
    case MarkRead(id) => ReadKeepsKeys(st.alerts, id);
    case _ =>
  }

  lemma {:induction false} ShownOnce(states: seq<State>, steps: seq<Step>)
    requires Trace(states, steps) && Tidy(states[0])
    ensures Tidy(states[|steps|])
  {
    if steps != [] {
      var n := |steps| - 1;
      ShownOnce(states[..n + 1], steps[..n]);
      ApplyKeepsTidy(states[n], steps[n]);
    }
  }

  // ---------- what the edits change for later batches ----------

  lemma EditedAt(searches: seq<Search>, id: string, edit: Search -> Search, s: Search)
    ensures s in Edited(searches, id, edit) <==>
            exists o :: o in searches && s == if o.id == id then edit(o) else o
  {
    var edited := Edited(searches, id, edit);
    if s in edited {
      var i :| 0 <= i < |edited| && edited[i] == s;
      assert searches[i] in searches;
    }
    if exists o :: o in searches && s == if o.id == id then edit(o) else o {
      var o :| o in searches && s == if o.id == id then edit(o) else o;
      var i :| 0 <= i < |searches| && searches[i] == o;
      assert edited[i] == s;
    }
  }

  // Saving a search adds its own matches, if its alerts are on, and takes nothing away.
  lemma SavingAddsMatches(st: State, search: Search, listings: seq<Listing>)
    ensures MatchKeys(Apply(st, SaveSearch(search)).searches, listings) ==
            MatchKeys(st.searches, listings) + MatchKeys([search], listings)
  {
    forall s
      ensures s in [search] + st.searches <==> s == search || s in st.searches
    {
    }
  }

  // Renaming raises and withholds no alert; the alerts raised for the search carry the new name.
  lemma RenamingKeepsMatches(st: State, id: string, name: string, listings: seq<Listing>, ids: Key -> string)
    ensures var st' := Apply(st, RenameSearch(id, name));
            && KeysOf(Generated(st', listings, ids)) == KeysOf(Generated(st, listings, ids))
            && forall a :: a in Generated(st', listings, ids) && a.searchId == id ==> a.searchName == name
  {
    var st' := Apply(st, RenameSearch(id, name));
    BatchMeaning(st, listings, ids);
    BatchMeaning(st', listings, ids);
    forall s: Search
      ensures s in st'.searches <==> exists o :: o in st.searches && s == if o.id == id then Renamed(name)(o) else o
    {
      EditedAt(st.searches, id, Renamed(name), s);
    }
    forall k | k in MatchKeys(st.searches, listings)
      ensures k in MatchKeys(st'.searches, listings)
    {
      var o, l :| o in st.searches && l in listings && o.alertsEnabled && Wanted(o.filter, l)
        && k == KeyOf(o.id, l.id);
      var s := if o.id == id then Renamed(name)(o) else o;
      assert s in st'.searches;
    }
    forall k | k in MatchKeys(st'.searches, listings)
      ensures k in MatchKeys(st.searches, listings)
    {
      var s, l :| s in st'.searches && l in listings && s.alertsEnabled && Wanted(s.filter, l)
        && k == KeyOf(s.id, l.id);
      var o :| o in st.searches && s == if o.id == id then Renamed(name)(o) else o;
    }
  }

  // No search with this id is enabled.
  ghost predicate Silent(st: State, id: string) {
    forall s :: s in st.searches && s.id == id ==> !s.alertsEnabled
  }

  // The steps that can give a search with this id alerts: saving one enabled, and toggling it.
  predicate MayEnable(step: Step, id: string) {
    || (step.SaveSearch? && step.search.id == id && step.search.alertsEnabled)
    || (step.ToggleAlerts? && step.id == id && step.enabled != Some(false))
  }

  lemma SilencedBy(st: State, step: Step, id: string)
    requires step == ToggleAlerts(id, Some(false)) || step == DeleteSearch(id)
    ensures Silent(Apply(st, step), id)
  {
    if step.ToggleAlerts? {
      forall s | s in Apply(st, step).searches && s.id == id
        ensures !s.alertsEnabled
      {
        EditedAt(st.searches, id, Toggled(Some(false)), s);
      }
    }
  }

  lemma StaysSilent(st: State, step: Step, id: string)
    requires Silent(st, id) && !MayEnable(step, id)
    ensures Silent(Apply(st, step), id)
  {
    forall s | s in Apply(st, step).searches && s.id == id
      ensures !s.alertsEnabled
    {
      match step
      case RenameSearch(other, name) => EditedAt(st.searches, other, Renamed(name), s);
      case ToggleAlerts(other, enabled) => EditedAt(st.searches, other, Toggled(enabled), s);
      case _ =>
    }
  }

  // From switching a search's alerts off, or deleting it, no batch of the run alerts it, until a step that saves or
  // toggles it on again.
  lemma {:induction false} SilencedUntilEnabled(states: seq<State>, steps: seq<Step>, id: string, i: nat)
    requires Trace(states, steps) && 0 < i <= |steps|
    requires steps[0] == ToggleAlerts(id, Some(false)) || steps[0] == DeleteSearch(id)
    requires forall k :: 1 <= k < i ==> !MayEnable(steps[k], id)
    ensures Silent(states[i], id)
    ensures forall a :: a in Raised(states[..i + 1], steps[..i]) ==> a.searchId != id
  {
    assert states[i] == Apply(states[i - 1], steps[i - 1]);
    if i == 1 {
      SilencedBy(states[0], steps[0], id);
      assert Raised(states[..1], steps[..0]) == [];
    } else {
      SilencedUntilEnabled(states, steps, id, i - 1);
      StaysSilent(states[i - 1], steps[i - 1], id);
      assert states[..i + 1][..i] == states[..i] && steps[..i][..i - 1] == steps[..i - 1];
      if steps[i - 1].ProcessListings? {
        BatchMeaning(states[i - 1], steps[i - 1].listings, steps[i - 1].ids);
      }
    }
  }

  // Marking read changes nothing but read flags, of the alerts with that id.
  lemma ReadChangesFlags(alerts: seq<Alert>, id: string)
    ensures |Read(alerts, id)| == |alerts| && Keys(Read(alerts, id)) == Keys(alerts)
    ensures forall i :: 0 <= i < |alerts| ==>
                          && Read(alerts, id)[i].(read := false) == alerts[i].(read := false)
                          && (Read(alerts, id)[i].read <==> alerts[i].read || alerts[i].id == id)
  {
  }

  // Clearing the list forgets nothing: no alert that was shown is raised again in any run from there.
  lemma ClearedStaysCleared(st: State, states: seq<State>, steps: seq<Step>)
    requires Tidy(st) && Trace(states, steps) && states[0] == Apply(st, ClearAlerts)
    ensures states[0].alerts == [] && KeysOf(Raised(states, steps)) !! KeysOf(st.alerts)
  {
    AtMostOnce(states, steps);
  }

  // ---------- cutting a batch in two ----------

  lemma MatchKeysSplit(searches: seq<Search>, xs: seq<Listing>, ys: seq<Listing>)
    ensures MatchKeys(searches, xs + ys) == MatchKeys(searches, xs) + MatchKeys(searches, ys)
  {
    forall l | l in xs || l in ys
      ensures l in xs + ys
    {
    }
  }

  lemma BatchesSplit(st: State, xs: seq<Listing>, ys: seq<Listing>, ids: Key -> string)
    ensures var mid := Apply(st, ProcessListings(xs, ids));
            && KeysOf(Generated(st, xs + ys, ids)) == KeysOf(Generated(st, xs, ids)) + KeysOf(Generated(mid, ys, ids))
            && KeysOf(Generated(st, xs, ids)) !! KeysOf(Generated(mid, ys, ids))
            && Apply(mid, ProcessListings(ys, ids)).seen == Apply(st, ProcessListings(xs + ys, ids)).seen
  {
    var mid := Apply(st, ProcessListings(xs, ids));
    BatchMeaning(st, xs + ys, ids);
    BatchMeaning(st, xs, ids);
    BatchMeaning(mid, ys, ids);
    MatchKeysSplit(st.searches, xs, ys);
  }

  // ---------- pairs, when no search id has a colon ----------

  datatype Pair = Pair(search: string, listing: string)

  function PairsOf(alerts: seq<Alert>): set<Pair> {
    set a | a in alerts :: Pair(a.searchId, a.listingId)
  }

  ghost predicate NoColons(searches: seq<Search>) {
    forall s :: s in searches ==> ':' !in s.id
  }

  lemma KeyIsInjective(s: string, l: string, t: string, m: string)
    requires ':' !in s && ':' !in t && KeyOf(s, l) == KeyOf(t, m)
    ensures s == t && l == m
  {
    var key := KeyOf(s, l);
    assert key[|s|] == ':' && key[|t|] == ':';
    assert key[..|s|] == s && key[..|t|] == t;
    assert key[|s| + 1..] == l && key[|t| + 1..] == m;
  }

  lemma PairOfKey(alerts: seq<Alert>, a: Alert)
    requires ':' !in a.searchId && forall b :: b in alerts ==> ':' !in b.searchId
    ensures AlertKey(a) in KeysOf(alerts) <==> Pair(a.searchId, a.listingId) in PairsOf(alerts)
  {
    if AlertKey(a) in KeysOf(alerts) {
      var b :| b in alerts && AlertKey(b) == AlertKey(a);
      KeyIsInjective(a.searchId, a.listingId, b.searchId, b.listingId);
    }
    if Pair(a.searchId, a.listingId) in PairsOf(alerts) {
      var b :| b in alerts && Pair(b.searchId, b.listingId) == Pair(a.searchId, a.listingId);
      assert AlertKey(b) in KeysOf(alerts);
    }
  }

  lemma NoColonsRaised(st: State, listings: seq<Listing>, ids: Key -> string)
    requires NoColons(st.searches)
    ensures forall a :: a in Generated(st, listings, ids) ==> ':' !in a.searchId
  {
    BatchMeaning(st, listings, ids);
  }

  lemma SameKeysSamePairs(xs: seq<Alert>, ys: seq<Alert>)
    requires forall a :: a in xs || a in ys ==> ':' !in a.searchId
    requires KeysOf(xs) == KeysOf(ys)
    ensures PairsOf(xs) == PairsOf(ys)
  {
    forall a | a in xs
      ensures Pair(a.searchId, a.listingId) in PairsOf(ys)
    {
      assert AlertKey(a) in KeysOf(xs);
      PairOfKey(ys, a);
    }
    forall a | a in ys
      ensures Pair(a.searchId, a.listingId) in PairsOf(xs)
    {
      assert AlertKey(a) in KeysOf(ys);
      PairOfKey(xs, a);
    }
  }

  // With the searches fixed, two batches alert the same pairs as one.
  lemma SplittingABatch(st: State, xs: seq<Listing>, ys: seq<Listing>, ids: Key -> string)
    requires NoColons(st.searches)
    ensures var mid := Apply(st, ProcessListings(xs, ids));
            PairsOf(Generated(st, xs + ys, ids)) == PairsOf(Generated(st, xs, ids) + Generated(mid, ys, ids))
  {
    var mid := Apply(st, ProcessListings(xs, ids));
    BatchesSplit(st, xs, ys, ids);
    NoColonsRaised(st, xs + ys, ids);
    NoColonsRaised(st, xs, ids);
    NoColonsRaised(mid, ys, ids);
    KeysOfBoth(Generated(st, xs, ids), Generated(mid, ys, ids));
    SameKeysSamePairs(Generated(st, xs + ys, ids), Generated(st, xs, ids) + Generated(mid, ys, ids));
  }
}
