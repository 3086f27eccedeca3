/** Runs in which last-writer detection lets a stored draft be replaced unseen, or an old token name new content. */
module DraftCounterexamples {
  import opened Options
  import opened Drafts
  import opened DraftRuns
  import opened DraftTheorems

  function Titled(title: string): Form {
    map[Title := Text(title)]
  }

  lemma TitledIsContent(title: string)
    requires title != ""
    ensures StripSensitive(Titled(title)) == Titled(title)
    ensures HasDraftContent(Titled(title))
  {
    assert Title in CONTENT_FIELDS;
  }

  // A tab that opened wallet a's empty slot.
  function Opened(a: Wallet): Tab {
    BLANK_TAB.(address := Some(a), owner := Some(a), draftOwner := Some(a), loadedKey := Some(a))
  }

  function After(w: World, t: TabId, tab: Tab, slots: Slots, token: Revision): World {
    World(slots, w.tabs[t := tab], w.issued + {token})
  }

  lemma OpenEmpty(w: World, t: TabId, a: Wallet, token: Revision)
    requires token !in w.issued && a !in w.slots
    ensures Apply(w, Step(t, Open(Some(a), None, map[]), token)) == After(w, t, Opened(a), w.slots, token)
  {
  }

  lemma TypeTitle(w: World, t: TabId, title: string, token: Revision)
    requires token !in w.issued && t in w.tabs && title != ""
    ensures Apply(w, Step(t, Type(Titled(title)), token))
            == After(w, t, w.tabs[t].(values := Titled(title), dirty := true), w.slots, token)
  {
    TitledIsContent(title);
  }

  function Owned(a: Wallet, title: string, audit: seq<AuditEntry>, token: Revision): Draft {
    Draft(Some(token), Some(Titled(title)), audit, Some(a), None)
  }

  predicate Editing(w: World, t: TabId, a: Wallet, title: string) {
    && t in w.tabs && w.tabs[t].address == w.tabs[t].loadedKey == Some(a) && w.tabs[t].network.None?
    && w.tabs[t].values == Titled(title) && title != ""
  }

  lemma SaveTitle(w: World, t: TabId, a: Wallet, title: string, token: Revision)
    requires token !in w.issued && Editing(w, t, a, title)
    ensures Apply(w, Step(t, Save, token)) ==
            if IsStale(View(w.tabs[t], w.slots))
            then After(w, t, w.tabs[t].(pending := Some(Titled(title)),
                                        conflict := Some(Conflict(w.tabs[t].lastKnown, StoredRevision(w.slots, a)))),
                       w.slots, token)
            else After(w, t, w.tabs[t].(lastKnown := Some(token)),
                       w.slots[a := Owned(a, title, StoredAudit(w.slots, a), token)], token)
  {
    TitledIsContent(title);
  }

  // Some run leads from w to w'.
  ghost predicate Leads(w: World, w': World) {
    exists ws: seq<World>, steps: seq<Step> ::
      Trace(ws, steps) && ws[0] == w && ws[|steps|] == w'
  }

  lemma LeadsHere(w: World)
    ensures Leads(w, w)
  {
    assert Trace([w], []);
  }

  lemma LeadsOn(w: World, w': World, s: Step)
    requires Leads(w, w') && Enabled(w', s)
    ensures Leads(w, Apply(w', s))
  {
    var ws: seq<World>, steps: seq<Step> :| Trace(ws, steps) && ws[0] == w && ws[|steps|] == w';
    assert Trace(ws + [Apply(w', s)], steps + [s]);
  }

  lemma LeadsToOpened(w0: World, w: World, t: TabId, a: Wallet, token: Revision)
    requires Leads(w0, w) && token !in w.issued && a !in w.slots
    ensures Leads(w0, After(w, t, Opened(a), w.slots, token))
  {
    OpenEmpty(w, t, a, token);
    LeadsOn(w0, w, Step(t, Open(Some(a), None, map[]), token));
  }

  lemma LeadsToTyped(w0: World, w: World, t: TabId, title: string, token: Revision)
    requires Leads(w0, w) && token !in w.issued && t in w.tabs && title != ""
    ensures Leads(w0, After(w, t, w.tabs[t].(values := Titled(title), dirty := true), w.slots, token))
  {
    TypeTitle(w, t, title, token);
    LeadsOn(w0, w, Step(t, Type(Titled(title)), token));
  }

  function Saved(w: World, t: TabId, a: Wallet, title: string, token: Revision): World
    requires t in w.tabs
  {
    After(w, t, w.tabs[t].(lastKnown := Some(token)), w.slots[a := Owned(a, title, StoredAudit(w.slots, a), token)],
      token)
  }

  lemma LeadsToSaved(w0: World, w: World, t: TabId, a: Wallet, title: string, token: Revision)
    requires Leads(w0, w) && token !in w.issued && Editing(w, t, a, title)
    requires w.tabs[t].lastKnown.None? || StoredRevision(w.slots, a) == w.tabs[t].lastKnown
    ensures Leads(w0, Saved(w, t, a, title, token))
  {
    SaveTitle(w, t, a, title, token);
    LeadsOn(w0, w, Step(t, Save, token));
  }

  lemma LeadsToConflict(w0: World, w: World, t: TabId, a: Wallet, title: string, token: Revision)
    requires Leads(w0, w) && token !in w.issued && Editing(w, t, a, title) && IsStale(View(w.tabs[t], w.slots))
    ensures Leads(w0, After(w, t, w.tabs[t].(pending := Some(Titled(title)),
                                             conflict := Some(Conflict(w.tabs[t].lastKnown,
                                                                       StoredRevision(w.slots, a)))),
                            w.slots, token))
  {
    SaveTitle(w, t, a, title, token);
    LeadsOn(w0, w, Step(t, Save, token));
  }

  const EMPTY := World(map[], map[], {})

  // Two tabs opened on wallet a's empty slot, then tab 1 types and saves title one.
  lemma TwoTabs(a: Wallet, one: string) returns (w: World)
    requires one != ""
    ensures Leads(EMPTY, w) && w.slots == map[a := Owned(a, one, [], 3)] && w.issued == {0, 1, 2, 3}
    ensures w.tabs == map[1 := Opened(a).(values := Titled(one), dirty := true, lastKnown := Some(3)), 2 := Opened(a)]
  {
    LeadsHere(EMPTY);
    LeadsToOpened(EMPTY, EMPTY, 1, a, 0);
    var w1 := After(EMPTY, 1, Opened(a), map[], 0);
    LeadsToOpened(EMPTY, w1, 2, a, 1);
    var w2 := After(w1, 2, Opened(a), map[], 1);
    LeadsToTyped(EMPTY, w2, 1, one, 2);
    var w3 := After(w2, 1, Opened(a).(values := Titled(one), dirty := true), map[], 2);
    LeadsToSaved(EMPTY, w3, 1, a, one, 3);
    w := Saved(w3, 1, a, one, 3);
  }

  // Two tabs opened on an empty slot have no base revision, so the second one's unforced save replaces the
  // first one's draft, which it has never seen, without a conflict.
  lemma NoBaseOverwrites(a: Wallet, one: string, two: string) returns (w: World, s: Step)
    requires one != "" && two != "" && one != two
    ensures Start(EMPTY) && Leads(EMPTY, w) && Enabled(w, s) && s.event == Save
    ensures w.tabs[s.tab].lastKnown.None? && Apply(w, s).tabs[s.tab].conflict.None?
    ensures StoredForm(w.slots, a) == Some(Titled(one)) && StoredForm(Apply(w, s).slots, a) == Some(Titled(two))
  {
    var w1 := TwoTabs(a, one);
    LeadsToTyped(EMPTY, w1, 2, two, 4);
    w := After(w1, 2, w1.tabs[2].(values := Titled(two), dirty := true), w1.slots, 4);
    s := Step(2, Save, 5);
    SaveTitle(w, 2, a, two, 5);
  }

  // A tab that opened wallet a's slot and loaded the draft in it.
  function Loaded(a: Wallet, title: string, revision: Revision): Tab {
    Opened(a).(values := Titled(title), dirty := true, lastKnown := Some(revision))
  }

  lemma OpenStored(w: World, t: TabId, a: Wallet, title: string, revision: Revision, token: Revision)
    requires token !in w.issued && title != "" && a in w.slots && w.slots[a] == Owned(a, title, [], revision)
    ensures Apply(w, Step(t, Open(Some(a), None, map[]), token))
              == After(w, t, Loaded(a, title, revision), w.slots, token)
  {
    TitledIsContent(title);
    assert map[] + Titled(title) == Titled(title);
  }

  // Tab 1 saves title one under token 2 in wallet a's empty slot; tab 2 loads it and saves title two, based on it,
  // under token 5. Tab 1 still holds base 2.
  lemma TabLeftBehind(a: Wallet, one: string, two: string) returns (w: World)
    requires one != "" && two != ""
    ensures Leads(EMPTY, w) && w.slots == map[a := Owned(a, two, [], 5)] && w.issued == {0, 1, 2, 3, 4, 5}
    ensures w.tabs == map[1 := Loaded(a, one, 2), 2 := Loaded(a, two, 5)]
  {
    LeadsHere(EMPTY);
    LeadsToOpened(EMPTY, EMPTY, 1, a, 0);
    var w1 := After(EMPTY, 1, Opened(a), map[], 0);
    LeadsToTyped(EMPTY, w1, 1, one, 1);
    var w2 := After(w1, 1, Opened(a).(values := Titled(one), dirty := true), map[], 1);
    LeadsToSaved(EMPTY, w2, 1, a, one, 2);
    var w3 := Saved(w2, 1, a, one, 2);
    OpenStored(w3, 2, a, one, 2, 3);
    LeadsOn(EMPTY, w3, Step(2, Open(Some(a), None, map[]), 3));
    var w4 := After(w3, 2, Loaded(a, one, 2), w3.slots, 3);
    w := SavesOn(w4, a, one, two);
  }

  lemma SavesOn(w4: World, a: Wallet, one: string, two: string) returns (w: World)
    requires Leads(EMPTY, w4) && one != "" && two != ""
    requires w4 == World(map[a := Owned(a, one, [], 2)], map[1 := Loaded(a, one, 2), 2 := Loaded(a, one, 2)],
              {0, 1, 2, 3})
    ensures Leads(EMPTY, w) && w.slots == map[a := Owned(a, two, [], 5)] && w.issued == {0, 1, 2, 3, 4, 5}
    ensures w.tabs == map[1 := Loaded(a, one, 2), 2 := Loaded(a, two, 5)]
  {
    LeadsToTyped(EMPTY, w4, 2, two, 4);
    var w5 := After(w4, 2, Loaded(a, two, 2), w4.slots, 4);
    LeadsToSaved(EMPTY, w5, 2, a, two, 5);
    w := Saved(w5, 2, a, two, 5);
  }

  // When tab 1's network resolves, the load effect flushes its edits by force: title two is replaced by title one,
  // which is older, although tab 1 has a base revision and no blind save came before; no conflict, no guard.
  lemma NetworkFlushOverwrites(a: Wallet, n: Network, one: string, two: string) returns (w: World, s: Step)
    requires one != "" && two != "" && one != two
    ensures Start(EMPTY) && Leads(EMPTY, w) && Enabled(w, s) && s.event == Context(Some(a), Some(n), Titled(one))
    ensures w.tabs[s.tab].lastKnown == Some(2) && StoredRevision(w.slots, a) == Some(5)
    ensures StoredForm(w.slots, a) == Some(Titled(two)) && StoredForm(Apply(w, s).slots, a) == Some(Titled(one))
    ensures Apply(w, s).tabs[s.tab].conflict.None? && Apply(w, s).tabs[s.tab].guard.None?
  {
    w := TabLeftBehind(a, one, two);
    s := Step(1, Context(Some(a), Some(n), Titled(one)), 6);
    TitledIsContent(one);
    TitledIsContent(two);
  }

  lemma LeadsToKeptRemote(w0: World, w: World, t: TabId, a: Wallet, token: Revision)
    requires Leads(w0, w) && token !in w.issued && t in w.tabs && w.tabs[t].address == Some(a)
    requires w.tabs[t].conflict.Some? && w.tabs[t].conflict.value.stored.Some? && a in w.slots
    ensures var w' := Apply(w, Step(t, Resolve(KeepRemote), token));
            && Leads(w0, w') && StoredForm(w'.slots, a) == StoredForm(w.slots, a)
            && StoredRevision(w'.slots, a) == w.tabs[t].conflict.value.stored
  {
    LeadsOn(w0, w, Step(t, Resolve(KeepRemote), token));
  }

  // A keep-remote resolution after another write puts the new content back under the old conflict's
  // revision: a tab that holds that revision will replace content it has never seen.
  lemma KeepRemoteRelabels(a: Wallet, one: string, two: string, three: string) returns (w: World, w': World)
    requires one != "" && two != "" && three != "" && two != three
    ensures Start(EMPTY) && Leads(EMPTY, w) && Leads(w, w') && SameToken(w, w', a)
    ensures StoredForm(w.slots, a) == Some(Titled(two)) && StoredForm(w'.slots, a) == Some(Titled(three))
  {
    w := BothSaved(a, one, two);
    LeadsHere(w);
    w' := Relabels(w, a, one, two, three);
  }

  lemma BothSaved(a: Wallet, one: string, two: string) returns (w: World)
    requires one != "" && two != ""
    ensures Leads(EMPTY, w) && w.slots == map[a := Owned(a, two, [], 5)] && w.issued == {0, 1, 2, 3, 4, 5}
    ensures w.tabs == map[1 := Loaded(a, one, 3), 2 := Loaded(a, two, 5)]
  {
    var w4 := TwoTabs(a, one);
    LeadsToTyped(EMPTY, w4, 2, two, 4);
    var w5 := After(w4, 2, w4.tabs[2].(values := Titled(two), dirty := true), w4.slots, 4);
    LeadsToSaved(EMPTY, w5, 2, a, two, 5);
    w := Saved(w5, 2, a, two, 5);
  }

  lemma Relabels(w: World, a: Wallet, one: string, two: string, three: string) returns (w': World)
    requires one != "" && two != "" && three != "" && Leads(w, w)
    requires w.slots == map[a := Owned(a, two, [], 5)] && w.issued == {0, 1, 2, 3, 4, 5}
    requires w.tabs == map[1 := Loaded(a, one, 3), 2 := Loaded(a, two, 5)]
    ensures Leads(w, w') && SameToken(w, w', a) && StoredForm(w'.slots, a) == Some(Titled(three))
  {
    LeadsToConflict(w, w, 1, a, one, 6);
    var raised := w.tabs[1].(pending := Some(Titled(one)), conflict := Some(Conflict(Some(3), Some(5))));
    var w7 := After(w, 1, raised, w.slots, 6);
    LeadsToTyped(w, w7, 2, three, 7);
    var w8 := After(w7, 2, Loaded(a, three, 5), w7.slots, 7);
    LeadsToSaved(w, w8, 2, a, three, 8);
    var w9 := Saved(w8, 2, a, three, 8);
    LeadsToKeptRemote(w, w9, 1, a, 9);
    w' := Apply(w9, Step(1, Resolve(KeepRemote), 9));
  }
}
