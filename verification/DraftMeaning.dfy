/** What the draft callbacks leave behind, field by field: which form data a slot gets, which values a form shows,
    which slot goes, when a guard goes up and when publishing is offered. */
module DraftMeaning {
  import opened Options
  import opened Drafts
  import opened DraftRuns
  import opened DraftTheorems

  // The form with every field of another one, each with its value, but for the secret prompt text.
  ghost predicate AllButSecret(form: Option<Form>, from: Form) {
    && form.Some?
    && forall f: Field :: (f in form.value <==> f in from && f != FullPrompt)
                          && (f in form.value ==> form.value[f] == from[f])
  }

  // The form where a stored draft's fields, but for a secret one, win over the values that were there.
  ghost predicate StoredWins(form: Form, stored: Form, before: Form) {
    forall f: Field ::
      && (f in form <==> (f in stored && f != FullPrompt) || f in before)
      && (f in stored && f != FullPrompt ==> form[f] == stored[f])
      && (f in before && (f !in stored || f == FullPrompt) ==> form[f] == before[f])
  }

  // Some field that makes a draft worth keeping is filled in.
  ghost predicate Filled(form: Form, fields: set<Field>) {
    exists f :: f in form && f in fields && form[f] != Text("") && form[f] != Items([]) && form[f] != Null
  }

  lemma FilledIsContent(form: Form, fields: set<Field>)
    requires fields <= CONTENT_FIELDS && forall f :: f in form && f in CONTENT_FIELDS ==> f in fields
    ensures HasDraftContent(form) <==> Filled(form, fields)
  {
    if HasDraftContent(form) {
      var f :| f in CONTENT_FIELDS && f in form && IsContent(form[f]);
      assert f in fields;
    }
    if Filled(form, fields) {
      var f :| f in form && f in fields && form[f] != Text("") && form[f] != Items([]) && form[f] != Null;
      assert f in CONTENT_FIELDS && IsContent(form[f]);
    }
  }

  lemma StrippedIsFilled(form: Form)
    ensures Filled(StripSensitive(form), SAVED_CONTENT) <==> Filled(form, SAVED_CONTENT)
  {
    var safe := StripSensitive(form);
    if Filled(form, SAVED_CONTENT) {
      var f :| f in form && f in SAVED_CONTENT && form[f] != Text("") && form[f] != Items([]) && form[f] != Null;
      assert f in safe && safe[f] == form[f];
    }
  }

  // A form is worth keeping for the seven content fields, and a draft worth writing for the six that are not secret.
  lemma ContentMeaning(form: Form)
    ensures HasDraftContent(form) <==>
            Filled(form, {ImageUrl, Title, Category, PreviewText, Description, FullPrompt, CoCreators})
    ensures HasDraftContent(StripSensitive(form)) <==> Filled(form, SAVED_CONTENT)
  {
    FilledIsContent(form, {ImageUrl, Title, Category, PreviewText, Description, FullPrompt, CoCreators});
    FilledIsContent(StripSensitive(form), SAVED_CONTENT);
    StrippedIsFilled(form);
  }

  const SAVED_CONTENT: set<Field> := {ImageUrl, Title, Category, PreviewText, Description, CoCreators}

  // The slot of a wallet holds its own form under a fresh token, with the audit trail it had; no other slot changed.
  ghost predicate Wrote(v: View, v': View, key: Wallet, form: Form, network: Option<Network>, token: Revision) {
    && key in v'.slots && AllButSecret(v'.slots[key].formData, form)
    && v'.slots[key].revision == Some(token) && v'.slots[key].owner == Some(key) && v'.slots[key].network == network
    && v'.slots[key].audit == (if key in v.slots then v.slots[key].audit else [])
    && OnlyWrites(v.slots, v'.slots, key)
  }

  ghost predicate WroteForm(w: World, s: Step, key: Wallet, form: Form, network: Option<Network>)
    requires Enabled(w, s)
  {
    Wrote(ViewOf(w, s), Handle(ViewOf(w, s), s.event, s.token), key, form, network, s.token)
  }

  // ---------- saving ----------

  // In every reachable state a save does one of three things: nothing, where there is no wallet, a guard is up or no
  // content field is filled in; a conflict, where the stored revision is another than the base; or a write.
  lemma SaveMeaning(w: World, s: Step)
    requires Inv(w) && Enabled(w, s) && s.event == Save
    ensures var tab, tab' := w.tabs[s.tab], Apply(w, s).tabs[s.tab];
            if tab.address.None? || tab.guard.Some? || !Filled(tab.values, SAVED_CONTENT) then
              Apply(w, s).slots == w.slots && tab' == tab
            else
              var key := tab.address.value;
              var found := if key in w.slots then w.slots[key].revision else None;
              if found.Some? && tab.lastKnown.Some? && found != tab.lastKnown then
                && Apply(w, s).slots == w.slots && tab'.conflict == Some(Conflict(tab.lastKnown, found))
                && AllButSecret(tab'.pending, tab.values)
                && tab' == tab.(conflict := tab'.conflict, pending := tab'.pending)
              else
                WroteForm(w, s, key, tab.values, tab.network) && tab' == tab.(lastKnown := Some(s.token))
  {
    ContentMeaning(w.tabs[s.tab].values);
  }

  // ---------- resolving a conflict ----------

  // In every run: keep-local leaves in the slot what the tab's form held when it raised the conflict, whatever the slot
  // holds by now, stamped with the connected wallet and its network, with the resolution at the end of the trail.
  lemma KeepLocalMeaning(ws: seq<World>, steps: seq<Step>, j: nat) returns (d: nat)
    requires Trace(ws, steps) && Start(ws[0]) && j < |steps| && steps[j].event == Resolve(KeepLocal)
    requires ws[j].tabs[steps[j].tab].conflict.Some?
    ensures LastRaise(ws, steps, d, j, steps[j].tab)
    ensures var t := steps[j].tab;
            var tab := ws[j].tabs[t];
            tab.address.Some? &&
            var key := tab.address.value;
            && key in ws[j + 1].slots
            && var kept := ws[j + 1].slots[key];
               && AllButSecret(kept.formData, ws[d].tabs[t].values)
               && kept.owner == Some(key) && kept.revision == Some(steps[j].token)
               && (tab.network.Some? ==> kept.network == tab.network)
               && kept.network == (if tab.ownerNetwork.Some? then tab.ownerNetwork else tab.network)
               && kept.audit == (if key in ws[j].slots then ws[j].slots[key].audit else [])
                                + [AuditEntry(tab.conflict.value.local, tab.conflict.value.stored, KeepLocal)]
               && OnlyWrites(ws[j].slots, ws[j + 1].slots, key)
               && ws[j + 1].tabs[t] == tab.(pending := None, conflict := None, lastKnown := Some(steps[j].token))
  {
    d := ConflictWasRaised(ws, steps, j, steps[j].tab);
    Reachable(ws, steps, j);
    assert ws[j + 1] == Apply(ws[j], steps[j]);
  }

  // Keep-remote leaves the slot's form data, owner and network, under the conflict's revision, and shows them in the
  // form: what is stored wins field by field.
  lemma KeepRemoteMeaning(w: World, s: Step)
    requires Inv(w) && Enabled(w, s) && s.event == Resolve(KeepRemote) && w.tabs[s.tab].conflict.Some?
    ensures var tab, tab' := w.tabs[s.tab], Apply(w, s).tabs[s.tab];
            tab.address.Some? && tab.conflict.value.stored.Some? &&
            var key := tab.address.value;
            var entry := AuditEntry(tab.conflict.value.local, tab.conflict.value.stored, KeepRemote);
            && key in Apply(w, s).slots && OnlyWrites(w.slots, Apply(w, s).slots, key)
            && tab'.conflict.None? && tab'.pending.None? && tab'.lastKnown == tab.conflict.value.stored
            && var kept := Apply(w, s).slots[key];
               && kept.revision == tab.conflict.value.stored
               && (if key in w.slots
                   then kept == w.slots[key].(revision := kept.revision, audit := w.slots[key].audit + [entry])
                   else kept == Draft(kept.revision, None, [entry], None, None))
               && (if key in w.slots && w.slots[key].formData.Some?
                   then StoredWins(tab'.values, w.slots[key].formData.value, tab.values)
                   else tab'.values == tab.values)
  {
  }

  // ---------- arriving at a wallet and network ----------

  // What the load effect finds: the wallet and network connected, the form, and the session whose unsynced edits the
  // form holds, if it does.
  datatype Arrival = Arrival(address: Option<Wallet>, network: Option<Network>, values: Form,
                             session: Option<Wallet>, sessionNetwork: Option<Network>)

  function ArrivalOf(tab: Tab): Arrival {
    Arrival(tab.address, tab.network, tab.values, if tab.dirty then tab.owner else None,
            if tab.dirty then tab.ownerNetwork else None)
  }

  // A guard goes up where the form holds another wallet's edits, or edits and there is no wallet; where another wallet
  // claims the slot; and where the stored draft is of another network. It names whose draft it protects, and where.
  function DueGuard(slots: Slots, a: Arrival): Option<Guard> {
    if a.address.None? then
      if a.session.Some? then Some(Guard(WalletDisconnected, a.session, a.sessionNetwork, a.session)) else None
    else
      var key := a.address.value;
      if a.session.Some? && a.session != a.address then
        Some(Guard(WalletChanged, a.session, a.sessionNetwork, a.session))
      else if key !in slots then None
      else if slots[key].owner.Some? && slots[key].owner != a.address then
        Some(Guard(WalletChanged, slots[key].owner, slots[key].network, Some(key)))
      else if slots[key].network.Some? && a.network.Some? && slots[key].network != a.network then
        Some(Guard(NetworkChanged, a.address, slots[key].network, Some(key)))
      else None
  }

  // The guard is up exactly where it is due; then, and without a wallet, the form keeps its values and its session, no
  // slot changes and none is loaded.
  lemma LoadGuards(v: View, token: Revision)
    ensures var a, v' := ArrivalOf(v.tab), Reconcile(v, token);
            && v'.tab.guard == DueGuard(v.slots, a)
            && (v'.tab.guard.Some? || a.address.None? ==>
                  && v'.slots == v.slots && v'.tab.loadedKey.None?
                  && v'.tab.values == v.tab.values && v'.tab.dirty == v.tab.dirty
                  && v'.tab.owner == v.tab.owner && v'.tab.ownerNetwork == v.tab.ownerNetwork)
            && v'.tab.conflict.None?
  {
  }

  // Where none is due the slot is loaded. The session's own edits stay in the form, and are written to the slot if they
  // have content.
  lemma LoadKeepsEdits(v: View, token: Revision)
    requires v.tab.address.Some? && DueGuard(v.slots, ArrivalOf(v.tab)).None? && v.tab.dirty && v.tab.owner.Some?
    ensures var key, v' := v.tab.address.value, Reconcile(v, token);
            && v'.tab.values == v.tab.values && v'.tab.loadedKey == v'.tab.owner == v.tab.address
            && (if Filled(v.tab.values, SAVED_CONTENT)
                then Wrote(v, v', key, v.tab.values, v.tab.network, token) && v'.tab.lastKnown == Some(token)
                else
                  v'.slots == v.slots
                  && v'.tab.lastKnown == if key in v.slots then v.slots[key].revision else None)
  {
    ContentMeaning(v.tab.values);
  }

  // Otherwise a stored draft is shown, and wins field by field; and without one the form stays as it is.
  lemma LoadShowsStored(v: View, token: Revision)
    requires v.tab.address.Some? && DueGuard(v.slots, ArrivalOf(v.tab)).None? && !(v.tab.dirty && v.tab.owner.Some?)
    ensures var key, v' := v.tab.address.value, Reconcile(v, token);
            && v'.slots == v.slots && v'.tab.loadedKey == v'.tab.owner == v'.tab.draftOwner == v.tab.address
            && v'.tab.ownerNetwork == (if key in v.slots && v.slots[key].formData.Some? && v.slots[key].network.Some?
                                       then v.slots[key].network else v.tab.network)
            && (if key in v.slots && v.slots[key].formData.Some?
                then
                  && StoredWins(v'.tab.values, v.slots[key].formData.value, v.tab.values)
                  && v'.tab.dirty && v'.tab.lastKnown == v.slots[key].revision
                else v'.tab.values == v.tab.values && v'.tab.lastKnown.None? && v'.tab.dirty == v.tab.dirty)
  {
  }

  // The session goes on where the form was or becomes worth keeping.
  function Arriving(tab: Tab, e: Event): Arrival
    requires e.Context?
  {
    var dirty := tab.dirty || HasDraftContent(e.values);
    Arrival(e.address, e.network, e.values, if dirty then tab.owner else None, if dirty then tab.ownerNetwork else None)
  }

  // Typing shows what was typed, and marks the session as soon as a content field is filled in, for good.
  lemma TypeMeaning(v: View, typed: Form, token: Revision)
    ensures var v' := Handle(v, Type(typed), token);
            && v'.slots == v.slots && v'.tab == v.tab.(values := typed, dirty := v'.tab.dirty)
            && (v'.tab.dirty <==>
                v.tab.dirty
                || Filled(typed, {ImageUrl, Title, Category, PreviewText, Description, FullPrompt, CoCreators}))
  {
    ContentMeaning(typed);
  }

  // The load effect runs on a fresh mount, and on a wallet or network change over the live edits, and then alone.
  lemma LoadRuns(v: View, e: Event, token: Revision)
    ensures e.Open? ==>
              exists tab :: Handle(v, e, token) == Reconcile(View(tab, v.slots), token)
                            && ArrivalOf(tab) == Arrival(e.openAddress, e.openNetwork, e.openValues, None, None)
    ensures e.Context? && (e.address != v.tab.address || e.network != v.tab.network) ==>
              exists tab :: Handle(v, e, token) == Reconcile(View(tab, v.slots), token)
                            && ArrivalOf(tab) == Arriving(v.tab, e)
    ensures e.Context? && e.address == v.tab.address && e.network == v.tab.network ==>
              Handle(v, e, token) == View(v.tab.(values := e.values, dirty := v.tab.dirty || HasDraftContent(e.values)),
                                          v.slots)
  {
    match e
    case Open(a, n, values) =>
      var tab := Edit(BLANK_TAB.(address := a, network := n), values);
      assert Handle(v, e, token) == Reconcile(View(tab, v.slots), token);
    case Context(a, n, values) =>
      var tab := Edit(v.tab, values).(address := a, network := n);
      assert a != v.tab.address || n != v.tab.network ==>
               Handle(v, e, token) == Reconcile(View(tab, v.slots), token);
    case _ =>
  }

  // ---------- discarding and adopting ----------

  // A reset form shows the defaults, keeps its other fields, and starts a session of the connected wallet.
  ghost predicate IsReset(tab: Tab, tab': Tab) {
    && tab'.values.Keys == tab.values.Keys + {ImageUrl, Title, Category, PreviewText, Description, FullPrompt,
                                              PriceXlm, CoCreators}
    && (forall f: Field :: f in {ImageUrl, Title, Category, PreviewText, Description, FullPrompt} ==>
                             f in tab'.values && tab'.values[f] == Text(""))
    && PriceXlm in tab'.values && tab'.values[PriceXlm] == Text("2")
    && CoCreators in tab'.values && tab'.values[CoCreators] == Items([])
    && (forall name :: Extra(name) in tab.values ==>
                         Extra(name) in tab'.values && tab'.values[Extra(name)] == tab.values[Extra(name)])
    && !tab'.dirty && tab'.lastKnown.None? && tab'.pending.None? && tab'.conflict.None? && tab'.guard.None?
    && tab'.address == tab.address == tab'.owner == tab'.loadedKey && tab'.network == tab.network
  }

  lemma ResetMeaning(tab: Tab)
    ensures IsReset(tab, ResetForm(tab))
  {
  }

  ghost predicate OnlyRemoves(before: Slots, after: Slots, key: Wallet) {
    forall k :: Stored(after, k) == if k == key then None else Stored(before, k)
  }

  lemma DiscardMeaning(w: World, s: Step)
    requires Inv(w) && Enabled(w, s) && s.event == DiscardDraft
    ensures var tab := w.tabs[s.tab];
            && IsReset(tab, Apply(w, s).tabs[s.tab])
            && (if tab.address.Some? then OnlyRemoves(w.slots, Apply(w, s).slots, tab.address.value)
                else Apply(w, s).slots == w.slots)
  {
    ResetMeaning(w.tabs[s.tab]);
  }

  // Discarding at a guard removes exactly the draft the guard protects, wherever it lives.
  lemma DiscardProtectedMeaning(w: World, s: Step)
    requires Inv(w) && Enabled(w, s) && s.event == Guarded(DiscardProtected) && w.tabs[s.tab].guard.Some?
    ensures var tab := w.tabs[s.tab];
            && IsReset(tab, Apply(w, s).tabs[s.tab]) && tab.guard.value.protectedKey.Some?
            && OnlyRemoves(w.slots, Apply(w, s).slots, tab.guard.value.protectedKey.value)
  {
    ResetMeaning(w.tabs[s.tab]);
  }

  // Adopting at a guard makes the edits the connected wallet's, and writes them to its slot if they have content.
  lemma AdoptMeaning(w: World, s: Step)
    requires Inv(w) && Enabled(w, s) && s.event == Guarded(Adopt) && w.tabs[s.tab].guard.Some?
    ensures var tab, tab' := w.tabs[s.tab], Apply(w, s).tabs[s.tab];
            && tab'.guard.None? && tab'.conflict.None? && tab'.values == tab.values
            && tab'.owner == tab'.loadedKey == tab'.draftOwner == tab.address && tab'.ownerNetwork == tab.network
            && (if tab.address.Some? && Filled(tab.values, SAVED_CONTENT)
                then WroteForm(w, s, tab.address.value, tab.values, tab.network) && tab'.lastKnown == Some(s.token)
                else Apply(w, s).slots == w.slots)
  {
    ContentMeaning(w.tabs[s.tab].values);
  }

  // Cancelling a guard, and resolving what there is not, changes nothing.
  lemma NothingToDecide(w: World, s: Step)
    requires Inv(w) && Enabled(w, s)
    requires s.event == Guarded(Cancel) || (s.event.Guarded? && w.tabs[s.tab].guard.None?)
             || (s.event.Resolve? && w.tabs[s.tab].conflict.None?)
    ensures Apply(w, s).slots == w.slots && Apply(w, s).tabs == w.tabs
  {
    assert w.tabs[s.tab := w.tabs[s.tab]] == w.tabs;
  }

  // ---------- publishing ----------

  // In every reachable state publishing is offered exactly to a connected wallet with no guard and no conflict.
  lemma PublishMeaning(ws: seq<World>, steps: seq<Step>, i: nat, t: TabId)
    requires Trace(ws, steps) && Start(ws[0]) && i < |ws| && t in ws[i].tabs
    ensures var tab := ws[i].tabs[t];
            CanPublish(tab) <==> tab.address.Some? && tab.guard.None? && tab.conflict.None?
  {
    Reachable(ws, steps, i);
  }
}
